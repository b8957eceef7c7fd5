/**
 Replication while one node leads: leader appends, heartbeat calls, and a network that may lose, delay and repeat the
 requests (server/group.go AppendEntries and SendFollowersHeartbeat, server/peers.go, server/bftraft.go ExecCommand).
 A call is answered at most once: the leader handles a reply only for the call it has open to that peer.
 */
module Replication {
  import opened Words
  import opened Messages
  import opened LogChain
  import opened Replica
  import opened Batches

  datatype World = World(leader: u64, gid: u64, sha1: Hasher)

  datatype Call = Call(id: nat, peer: u64, req: AppendRequest)

  datatype Answer = Answer(id: nat, reply: AppendReply)

  datatype System = System(
    nodes: map<u64, Replica>,
    calls: nat,             // calls made so far
    open: map<u64, nat>,    // the call the leader is waiting on, per peer
    requests: set<Call>,    // everything ever sent: any of it may be delivered at any time, any number of times
    answers: set<Answer>,
    waiting: multiset<Held>)

  datatype Step =
    | Admit(env: Env, cmd: Command)
    | Exec(env: Env, n: u64, cmd: Command)  // of a command that was let in, by whoever leads meanwhile
    | Send(env: Env, peer: u64)
    | Deliver(env: Env, call: Call)
    | Receive(env: Env, answer: Answer)
    | Fail(peer: u64)
    | Drift(peer: u64, r: Replica)  // anything a follower does outside replication: elections, peer records

  ghost predicate Enabled(w: World, s: System, step: Step)
    requires w.leader in s.nodes
  {
    match step
    case Admit(env, cmd) =>
      RunsAs(env, w.leader, w.gid, w.sha1) && cmd.group == w.gid && Admits(env, s.nodes[w.leader])
    case Exec(env, n, cmd) =>
      && n in s.nodes && Held(n, cmd) in s.waiting
      && RunsAs(env, n, w.gid, w.sha1) && |s.nodes[n].log| + 2 < U64_LIMIT
    case Send(env, peer) =>
      RunsAs(env, w.leader, w.gid, w.sha1) && peer != w.leader && peer in s.nodes[w.leader].peers && peer !in s.open
    case Deliver(env, call) =>
      call in s.requests && call.peer in s.nodes && RunsAs(env, call.peer, w.gid, w.sha1)
    case Receive(env, answer) =>
      && RunsAs(env, w.leader, w.gid, w.sha1) && answer in s.answers
      && answer.reply.peer in s.open && s.open[answer.reply.peer] == answer.id
      && answer.reply.peer in s.nodes[w.leader].peers
    case Fail(peer) =>
      peer in s.open
    case Drift(peer, r) =>
      peer in s.nodes && peer != w.leader && r.log == s.nodes[peer].log && r.applied == s.nodes[peer].applied
  }

  ghost function Next(w: World, s: System, step: Step): System
    requires w.leader in s.nodes && Enabled(w, s, step)
  {
    var lead := s.nodes[w.leader];
    match step
    case Admit(_, cmd) => s.(waiting := s.waiting + multiset{Held(w.leader, cmd)})
    case Exec(env, n, cmd) =>
      s.(nodes := s.nodes[n := ExecAdmitted(env, s.nodes[n], cmd)], waiting := s.waiting - multiset{Held(n, cmd)})
    case Send(env, peer) =>
      s.(requests := s.requests + {Call(s.calls, peer, HeartbeatRequest(env, lead, peer))},
         open := s.open[peer := s.calls],
         calls := s.calls + 1)
    case Deliver(env, call) =>
      var (r, outcome) := AppendEntries(env, s.nodes[call.peer], call.req);
      s.(nodes := s.nodes[call.peer := r],
         answers := if outcome.Replied? then s.answers + {Answer(call.id, outcome.reply)} else s.answers)
    case Receive(env, answer) =>
      s.(nodes := s.nodes[w.leader := HandleReply(env, lead, answer.reply)], open := s.open - {answer.reply.peer})
    case Fail(peer) => s.(open := s.open - {peer})
    case Drift(peer, r) => s.(nodes := s.nodes[peer := r])
  }

  // ---------- the invariant ----------

  ghost predicate LeaderOk(w: World, s: System) {
    && w.leader in s.nodes
    && var lead := s.nodes[w.leader];
       && lead.leader == w.leader
       && lead.applied == lead.log
       && ChainValid(w.sha1, w.gid, lead.log)
       && |lead.log| + 1 < U64_LIMIT
  }

  /** The log of a follower is a prefix of the leader's, and what it applied is exactly its log. */
  ghost predicate Follows(s: System, leader: u64, p: u64)
    requires leader in s.nodes && p in s.nodes
  {
    s.nodes[p].log <= s.nodes[leader].log && s.nodes[p].applied == s.nodes[p].log
  }

  ghost predicate PeerTracked(w: World, s: System, p: u64)
    requires w.leader in s.nodes && p in s.nodes[w.leader].peers
  {
    && p in s.nodes
    && TrackedAt(s.nodes[w.leader].peers[p], s.nodes[w.leader].peers[p].matchIndex)
    && s.nodes[w.leader].peers[p].matchIndex <= |s.nodes[p].log|
  }

  ghost predicate CutFrom(log: seq<LogEntry>, entries: seq<LogEntry>) {
    exists a, b :: 0 <= a <= b <= |log| && entries == log[a..b]
  }

  ghost predicate CallOk(w: World, s: System, call: Call)
    requires w.leader in s.nodes
  {
    && call.id < s.calls && call.peer != w.leader && call.peer in s.nodes
    && CutFrom(s.nodes[w.leader].log, call.req.entries)
  }

  ghost predicate AnswerOk(w: World, s: System, answer: Answer)
    requires w.leader in s.nodes
  {
    var p := answer.reply.peer;
    && answer.id < s.calls
    && p in s.nodes && p != w.leader
    && answer.reply.index <= |s.nodes[p].log|
    && (p in s.open && s.open[p] == answer.id && p in s.nodes[w.leader].peers ==>
          s.nodes[w.leader].peers[p].matchIndex <= answer.reply.index)
  }

  /** Only the leader still has commands to append. */
  ghost predicate HeldByLeader(w: World, waiting: multiset<Held>) {
    forall held :: held in waiting ==> held.n == w.leader && held.cmd.group == w.gid
  }

  ghost predicate Inv(w: World, s: System) {
    && LeaderOk(w, s)
    && (forall p :: p in s.nodes ==> Follows(s, w.leader, p))
    && (forall p :: p in s.nodes[w.leader].peers && p != w.leader ==> PeerTracked(w, s, p))
    && (forall call :: call in s.requests ==> CallOk(w, s, call))
    && (forall answer :: answer in s.answers ==> AnswerOk(w, s, answer))
    && HeldByLeader(w, s.waiting)
  }

  /**
   A phase of one leader starts with any prefixes and any tracked records; requests under way are cuts of the leader's
   log, and no call is open.
   */
  ghost predicate Phase(w: World, s: System) {
    && LeaderOk(w, s)
    && (forall p :: p in s.nodes ==> Follows(s, w.leader, p))
    && (forall p :: p in s.nodes[w.leader].peers && p != w.leader ==> PeerTracked(w, s, p))
    && (forall call :: call in s.requests ==> CallOk(w, s, call))
    && s.answers == {} && s.open == map[]
  }

  ghost predicate Init(w: World, s: System) {
    Phase(w, s) && HeldByLeader(w, s.waiting)
  }

  // ---------- steps keep the invariant ----------

  lemma CutFromLonger(log: seq<LogEntry>, longer: seq<LogEntry>, entries: seq<LogEntry>)
    requires log <= longer && CutFrom(log, entries)
    ensures CutFrom(longer, entries)
  {
    var a, b :| 0 <= a <= b <= |log| && entries == log[a..b];
    assert entries == longer[a..b];
  }

  /** A member's own append never fails: it extends log and applied commands by the same entry. */
  lemma OwnAppend(env: Env, r: Replica, cmd: Command)
    requires cmd.group == env.gid
    requires ChainValid(env.sha1, env.gid, r.log) && |r.log| + 1 < U64_LIMIT
    ensures var r' := ExecAdmitted(env, r, cmd);
            && r' == r.(log := r.log + [NextEntry(env, r, cmd)], applied := r.applied + [NextEntry(env, r, cmd)])
            && ChainValid(env.sha1, env.gid, r'.log)
  {
    ChainIsAscending(env.sha1, env.gid, r.log);
    ChainExtend(env.sha1, env.gid, r.log, NextEntry(env, r, cmd));
  }

  lemma ExecKeepsInv(w: World, s: System, env: Env, cmd: Command)
    requires Inv(w, s) && Enabled(w, s, Exec(env, w.leader, cmd))
    ensures Inv(w, Next(w, s, Exec(env, w.leader, cmd)))
  {
    var s' := Next(w, s, Exec(env, w.leader, cmd));
    var lead := s.nodes[w.leader];
    assert Held(w.leader, cmd) in s.waiting;
    OwnAppend(env, lead, cmd);
    forall p | p in s'.nodes ensures Follows(s', w.leader, p) {
      assert Follows(s, w.leader, p);
    }
    forall p | p in s'.nodes[w.leader].peers && p != w.leader ensures PeerTracked(w, s', p) {
      assert PeerTracked(w, s, p);
    }
    forall call | call in s'.requests ensures CallOk(w, s', call) {
      assert CallOk(w, s, call);
      CutFromLonger(lead.log, s'.nodes[w.leader].log, call.req.entries);
    }
    forall answer | answer in s'.answers ensures AnswerOk(w, s', answer) {
      assert AnswerOk(w, s, answer);
    }
  }

  lemma HeartbeatIsCut(w: World, s: System, env: Env, peer: u64)
    requires Inv(w, s) && peer in s.nodes[w.leader].peers && peer != w.leader
    ensures CutFrom(s.nodes[w.leader].log, HeartbeatRequest(env, s.nodes[w.leader], peer).entries)
  {
    var lead := s.nodes[w.leader];
    assert PeerTracked(w, s, peer) && Follows(s, w.leader, peer);
    var k := lead.peers[peer].matchIndex;
    SuffixAfterMatch(w.sha1, w.gid, lead.log, lead.peers[peer], k);
    assert lead.log[k..] == lead.log[k..|lead.log|];
  }

  lemma SendKeepsInv(w: World, s: System, env: Env, peer: u64)
    requires Inv(w, s) && Enabled(w, s, Send(env, peer))
    ensures Inv(w, Next(w, s, Send(env, peer)))
  {
    var s' := Next(w, s, Send(env, peer));
    var lead := s.nodes[w.leader];
    HeartbeatIsCut(w, s, env, peer);
    assert PeerTracked(w, s, peer);
    forall p | p in s'.nodes ensures Follows(s', w.leader, p) {
      assert Follows(s, w.leader, p);
    }
    forall p | p in lead.peers && p != w.leader ensures PeerTracked(w, s', p) {
      assert PeerTracked(w, s, p);
    }
    forall call | call in s'.requests ensures CallOk(w, s', call) {
      assert call in s.requests ==> CallOk(w, s, call);
    }
    forall answer | answer in s'.answers ensures AnswerOk(w, s', answer) {
      assert AnswerOk(w, s, answer);
    }
  }

  lemma OtherBatchIsIgnored(env: Env, r: Replica, reply: AppendReply, req: AppendRequest)
    requires LastIndex(r.log) + 1 < U64_LIMIT
    requires req.entries != [] ==> req.entries[0].index != LastIndex(r.log) + 1
    ensures ReceiveEntries(env, r, reply, req) == (r, Replied(reply))
  {
  }

  lemma NextBatchAlongLog(env: Env, lead: seq<LogEntry>, r: Replica, reply: AppendReply, req: AppendRequest, b: nat)
    requires ChainValid(env.sha1, env.gid, lead) && |lead| + 1 < U64_LIMIT
    requires r.log <= lead && r.applied == r.log && |r.log| < b <= |lead| && req.entries == lead[|r.log|..b]
    requires ChainValid(env.sha1, env.gid, r.log)
    requires !reply.successed && reply.peer == env.self && reply.index == |r.log|
    ensures var (r', outcome) := ReceiveEntries(env, r, reply, req);
            && (r' == r || (r'.log == lead[..b] && r'.applied == lead[..b]))
            && !outcome.GroupMismatchPanic?
            && (outcome.Replied? ==> outcome.reply.peer == env.self && |r.log| <= outcome.reply.index <= |r'.log|)
  {
    forall i | 0 <= i < |req.entries|
      ensures req.entries[i].index == |r.log| + i + 1 && req.entries[i].command.group == env.gid
    {
      assert Linked(env.sha1, env.gid, lead, |r.log| + i);
      assert req.entries[i] == lead[|r.log| + i];
    }
    BatchIsAllOrNothing(env, r, reply, req);
    assert r.log + req.entries == lead[..b];
    ReportKeepsFlags(env, reply, req.entries);
  }

  lemma ReceiveAlongLog(env: Env, lead: seq<LogEntry>, r: Replica, reply: AppendReply, req: AppendRequest)
    requires ChainValid(env.sha1, env.gid, lead) && |lead| + 1 < U64_LIMIT
    requires r.log <= lead && r.applied == r.log && CutFrom(lead, req.entries)
    requires ChainValid(env.sha1, env.gid, r.log) && LastIndex(r.log) == |r.log|
    requires !reply.successed && reply.peer == env.self && reply.index == |r.log|
    ensures var (r', outcome) := ReceiveEntries(env, r, reply, req);
            && r.log <= r'.log <= lead && r'.applied == r'.log
            && !outcome.GroupMismatchPanic?
            && (outcome.Replied? ==> outcome.reply.peer == env.self && |r.log| <= outcome.reply.index <= |r'.log|)
  {
    var a, b :| 0 <= a <= b <= |lead| && req.entries == lead[a..b];
    if a == |r.log| && a < b {
      NextBatchAlongLog(env, lead, r, reply, req, b);
    } else {
      if req.entries != [] {
        assert Linked(env.sha1, env.gid, lead, a);
        assert req.entries[0] == lead[a];
      }
      OtherBatchIsIgnored(env, r, reply, req);
    }
  }

  /** What a follower makes of a request cut from the leader's log: its log grows along that log or stays. */
  lemma DeliverAlongLog(env: Env, lead: seq<LogEntry>, r: Replica, req: AppendRequest)
    requires ChainValid(env.sha1, env.gid, lead) && |lead| + 1 < U64_LIMIT
    requires r.log <= lead && r.applied == r.log && CutFrom(lead, req.entries)
    ensures var (r', outcome) := AppendEntries(env, r, req);
            && r.log <= r'.log <= lead && r'.applied == r'.log
            && !outcome.GroupMismatchPanic?
            && (outcome.Replied? ==> outcome.reply.peer == env.self && |r.log| <= outcome.reply.index <= |r'.log|)
  {
    ChainPrefix(env.sha1, env.gid, lead, |r.log|);
    assert lead[..|r.log|] == r.log;
    ChainIsAscending(env.sha1, env.gid, r.log);
    var led := AcceptLeader(env, r, req);
    if led.Some? && req.leaderId in r.peers && env.hasKey(led.value.leader) {
      ReceiveAlongLog(env, lead, led.value, FirstReply(env, r).(convinced := true), req);
    }
  }

  lemma DeliverKeepsInv(w: World, s: System, env: Env, call: Call)
    requires Inv(w, s) && Enabled(w, s, Deliver(env, call))
    ensures Inv(w, Next(w, s, Deliver(env, call)))
  {
    var s' := Next(w, s, Deliver(env, call));
    var lead := s.nodes[w.leader];
    assert CallOk(w, s, call) && Follows(s, w.leader, call.peer);
    DeliverAlongLog(env, lead.log, s.nodes[call.peer], call.req);
    forall p | p in s'.nodes ensures Follows(s', w.leader, p) {
      assert Follows(s, w.leader, p);
    }
    forall p | p in lead.peers && p != w.leader ensures PeerTracked(w, s', p) {
      assert PeerTracked(w, s, p);
    }
    forall c | c in s'.requests ensures CallOk(w, s', c) {
      assert CallOk(w, s, c);
    }
    forall answer | answer in s'.answers ensures AnswerOk(w, s', answer) {
      if answer in s.answers {
        assert AnswerOk(w, s, answer);
      } else if call.peer in lead.peers {
        assert PeerTracked(w, s, call.peer);
      }
    }
  }

  lemma ReceiveKeepsInv(w: World, s: System, env: Env, answer: Answer)
    requires Inv(w, s) && Enabled(w, s, Receive(env, answer))
    ensures Inv(w, Next(w, s, Receive(env, answer)))
  {
    var s' := Next(w, s, Receive(env, answer));
    assert AnswerOk(w, s, answer);
    assert PeerTracked(w, s, answer.reply.peer);
    forall p | p in s'.nodes ensures Follows(s', w.leader, p) {
      assert Follows(s, w.leader, p);
    }
    assert Follows(s, w.leader, answer.reply.peer);
    forall p | p in s'.nodes[w.leader].peers && p != w.leader ensures PeerTracked(w, s', p) {
      assert PeerTracked(w, s, p);
    }
    forall c | c in s'.requests ensures CallOk(w, s', c) {
      assert CallOk(w, s, c);
    }
    forall other | other in s'.answers ensures AnswerOk(w, s', other) {
      assert AnswerOk(w, s, other);
    }
  }

  lemma QuietStepKeepsInv(w: World, s: System, step: Step)
    requires Inv(w, s) && Enabled(w, s, step) && (step.Fail? || step.Drift? || step.Admit?)
    ensures Inv(w, Next(w, s, step))
  {
    var s' := Next(w, s, step);
    forall p | p in s'.nodes ensures Follows(s', w.leader, p) {
      assert Follows(s, w.leader, p);
    }
    forall p | p in s'.nodes[w.leader].peers && p != w.leader ensures PeerTracked(w, s', p) {
      assert PeerTracked(w, s, p);
    }
    forall call | call in s'.requests ensures CallOk(w, s', call) {
      assert CallOk(w, s, call);
    }
    forall answer | answer in s'.answers ensures AnswerOk(w, s', answer) {
      assert AnswerOk(w, s, answer);
    }
  }

  lemma StepKeepsInv(w: World, s: System, step: Step)
    requires Inv(w, s) && Enabled(w, s, step)
    ensures Inv(w, Next(w, s, step))
  {
    match step
    case Admit(_, _) => QuietStepKeepsInv(w, s, step);
    case Exec(env, n, cmd) =>
      assert Held(n, cmd) in s.waiting;
      ExecKeepsInv(w, s, env, cmd);
    case Send(env, peer) => SendKeepsInv(w, s, env, peer);
    case Deliver(env, call) => DeliverKeepsInv(w, s, env, call);
    case Receive(env, answer) => ReceiveKeepsInv(w, s, env, answer);
    case Fail(_) => QuietStepKeepsInv(w, s, step);
    case Drift(_, _) => QuietStepKeepsInv(w, s, step);
  }

  // ---------- whole runs ----------

  /** The steps lead from `s` to `t`, each enabled where it is taken. */
  ghost predicate Reaches(w: World, s: System, steps: seq<Step>, t: System)
    decreases |steps|
  {
    && w.leader in s.nodes
    && if steps == [] then s == t
       else Enabled(w, s, steps[0]) && Reaches(w, Next(w, s, steps[0]), steps[1..], t)
  }

  lemma {:induction false} RunKeepsInv(w: World, s: System, steps: seq<Step>, t: System)
    requires Inv(w, s) && Reaches(w, s, steps, t)
    ensures Inv(w, t)
    decreases |steps|
  {
    if steps != [] {
      StepKeepsInv(w, s, steps[0]);
      RunKeepsInv(w, Next(w, s, steps[0]), steps[1..], t);
    }
  }

  /**
   Single-leader safety: after any run, every member's log is a prefix of the leader's, and the commands it applied are
   exactly the entries of its log, in order and once each.
   */
  lemma SingleLeaderSafety(w: World, s: System, steps: seq<Step>, t: System, p: u64)
    requires Init(w, s) && Reaches(w, s, steps, t) && p in t.nodes
    ensures w.leader in t.nodes
    ensures t.nodes[p].log <= t.nodes[w.leader].log
    ensures t.nodes[p].applied == t.nodes[p].log
    ensures ChainValid(w.sha1, w.gid, t.nodes[w.leader].log)
  {
    RunKeepsInv(w, s, steps, t);
    assert Follows(t, w.leader, p);
  }

  /**
   In every reachable state the leader cuts the right batch for every peer: the entries after the match, with the
   matched entry as predecessor; the match never runs ahead of the peer's log.
   */
  lemma BatchesAreCutRight(w: World, s: System, steps: seq<Step>, t: System, p: u64)
    requires Init(w, s) && Reaches(w, s, steps, t)
    requires w.leader in t.nodes && p in t.nodes[w.leader].peers && p != w.leader
    ensures p in t.nodes
    ensures var (log, peer) := (t.nodes[w.leader].log, t.nodes[w.leader].peers[p]);
            var k := peer.matchIndex;
            && k <= |t.nodes[p].log| <= |log|
            && peer.nextIndex == (if k == 0 then 0 else k + 1)
            && Uncommitted(log, peer) == Suffix(log[k..], k, TermAt(log, k))
  {
    RunKeepsInv(w, s, steps, t);
    assert PeerTracked(w, t, p) && Follows(t, w.leader, p);
    var lead := t.nodes[w.leader];
    SuffixAfterMatch(w.sha1, w.gid, lead.log, lead.peers[p], lead.peers[p].matchIndex);
  }

  /** No request of a reachable state makes a member panic over a foreign command, however late it arrives. */
  lemma NoDeliveryPanics(w: World, s: System, steps: seq<Step>, t: System, env: Env, call: Call)
    requires Init(w, s) && Reaches(w, s, steps, t)
    requires call in t.requests && call.peer in t.nodes && RunsAs(env, call.peer, w.gid, w.sha1)
    ensures !AppendEntries(env, t.nodes[call.peer], call.req).1.GroupMismatchPanic?
  {
    RunKeepsInv(w, s, steps, t);
    assert CallOk(w, t, call) && Follows(t, w.leader, call.peer);
    DeliverAlongLog(env, t.nodes[w.leader].log, t.nodes[call.peer], call.req);
  }

  // ---------- commands of an earlier leader ----------

  /** What single-leader safety says of a state. */
  ghost predicate Safe(w: World, t: System) {
    && w.leader in t.nodes
    && forall p :: p in t.nodes ==> t.nodes[p].log <= t.nodes[w.leader].log && t.nodes[p].applied == t.nodes[p].log
  }

  /** A member that is no leader any more appends what it let in, where the leader has nothing. */
  lemma EarlierCommandBreaks(w: World, waiting: multiset<Held>, held: Held)
      returns (s: System, steps: seq<Step>, t: System)
    requires held in waiting && held.n != w.leader && held.cmd.group == w.gid
    ensures Phase(w, s) && s.waiting == waiting && Reaches(w, s, steps, t) && !Safe(w, t)
  {
    var r := Replica(0, Follower, w.leader, 0, 0, [], map[], map[], [], []);
    s := System(map[w.leader := r.(role := Leader), held.n := r], 0, map[], {}, {}, waiting);
    var env := Env(held.n, w.gid, w.sha1, t => t, (h, s, t) => true, h => true, h => true);
    t := Next(w, s, Exec(env, held.n, held.cmd));
    OwnAppend(env, r, held.cmd);
    steps := [Exec(env, held.n, held.cmd)];
    assert steps[1..] == [];
    assert Reaches(w, t, [], t);
    assert |t.nodes[held.n].log| == 1 && t.nodes[w.leader].log == [];
  }

  /** A state of a phase that started with these waiting commands. */
  ghost predicate Arises(w: World, waiting: multiset<Held>, t: System) {
    exists s, steps :: Phase(w, s) && s.waiting == waiting && Reaches(w, s, steps, t)
  }

  /** A phase is safe, from whatever start with these waiting commands, exactly when they are all the leader's own. */
  lemma PhaseIsSafeExactly(w: World, waiting: multiset<Held>)
    requires forall held :: held in waiting ==> held.cmd.group == w.gid
    ensures (forall t :: Arises(w, waiting, t) ==> Safe(w, t)) <==>
            forall held :: held in waiting ==> held.n == w.leader
  {
    if forall held :: held in waiting ==> held.n == w.leader {
      forall t | Arises(w, waiting, t) ensures Safe(w, t) {
        var s, steps :| Phase(w, s) && s.waiting == waiting && Reaches(w, s, steps, t);
        RunKeepsInv(w, s, steps, t);
        forall p | p in t.nodes
          ensures t.nodes[p].log <= t.nodes[w.leader].log && t.nodes[p].applied == t.nodes[p].log
        {
          assert Follows(t, w.leader, p);
        }
      }
    } else {
      var held :| held in waiting && held.n != w.leader;
      var s, steps, t := EarlierCommandBreaks(w, waiting, held);
      assert Arises(w, waiting, t);
    }
  }
}
