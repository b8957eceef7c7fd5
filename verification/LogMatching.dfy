/**
 Elections and replication in one system: any number of leaders come and go, members send entries of their logs, and
 requests may be lost, delayed and repeated. Where a run has one leader per term, the logs match by index and term.
 */
module LogMatching {
  import opened Words
  import opened Messages
  import opened LogChain
  import opened Replica
  import opened Batches
  import opened Election
  import opened ChainRuns
  import M = MemberRuns
  import Safety = ElectionSafety

  /**
   The membership and the group; the logs of the start have terms up to `base` and are cut from the founder's. `kept`
   says whether a waiting command is appended only while the test that let it in still holds, which the source does not
   ask.
   */
  datatype Group = Group(w: World, gid: u64, sha1: Hasher, base: u64, founder: u64, kept: bool)

  datatype System = System(cluster: Cluster, sent: set<AppendRequest>, waiting: multiset<Held>)

  datatype Act =
    | Take(step: Step)
    | Admit(env: Env, n: u64, cmd: Command)
    | Send(env: Env, n: u64, peer: u64)

  /** Requests are ones that another member has sent, commands ones that were let in; the rest may be anything. */
  ghost predicate Honest(g: Group, s: System, n: u64, ev: M.Event)
    requires n in s.cluster.nodes
  {
    && RunsAs(ev.env, n, g.gid, g.sha1)
    && Fits(g.sha1, g.gid, s.cluster.nodes[n].r, ev)
    && (ev.Request? ==> ev.req in s.sent && ev.req.leaderId != n)
    && (ev.ClientCommand? ==> Held(n, ev.cmd) in s.waiting)
  }

  /** A command is appended by a member that still takes itself for leader. */
  predicate StillLeads(s: Cluster, step: Step)
    requires Actor(step) in s.nodes
  {
    step.Local? && step.ev.ClientCommand? ==> s.nodes[step.n].r.leader == step.n
  }

  ghost predicate Possible(g: Group, s: System, act: Act) {
    match act
    case Take(step) =>
      && Enabled(g.w, s.cluster, step) && (step.Local? ==> Honest(g, s, step.n, step.ev))
      && (g.kept ==> StillLeads(s.cluster, step))
    case Admit(env, n, cmd) =>
      && n in s.cluster.nodes && RunsAs(env, n, g.gid, g.sha1) && cmd.group == g.gid
      && Admits(env, s.cluster.nodes[n].r)
    case Send(env, n, peer) =>
      n in s.cluster.nodes && RunsAs(env, n, g.gid, g.sha1) && peer in s.cluster.nodes[n].r.peers
  }

  /** The waiting command that this step appends. */
  function Served(step: Step): multiset<Held> {
    if step.Local? && step.ev.ClientCommand? then multiset{Held(step.n, step.ev.cmd)} else multiset{}
  }

  ghost function Done(g: Group, s: System, act: Act): System
    requires Possible(g, s, act)
  {
    match act
    case Take(step) => s.(cluster := Next(g.w, s.cluster, step), waiting := s.waiting - Served(step))
    case Admit(_, n, cmd) => s.(waiting := s.waiting + multiset{Held(n, cmd)})
    case Send(env, n, peer) => s.(sent := s.sent + {HeartbeatRequest(env, s.cluster.nodes[n].r, peer)})
  }

  function Log(s: Cluster, n: u64): seq<LogEntry>
    requires n in s.nodes
  {
    s.nodes[n].r.log
  }

  // ---------- the invariant ----------

  /** The one member whose entries carry this term. */
  ghost predicate Owner(g: Group, s: Cluster, term: u64, c: u64) {
    || (term <= g.base && c == g.founder)
    || (exists reign :: reign in s.reigns && reign.term == term && reign.leader == c)
  }

  /** Entry `i` of `n` stands at the same place in the log of the owner of its term. */
  ghost predicate Traced(g: Group, s: Cluster, n: u64, i: nat)
    requires n in s.nodes && i < |Log(s, n)|
  {
    exists c :: c in s.nodes && Owner(g, s, Log(s, n)[i].term, c) && i < |Log(s, c)| && Log(s, c)[i] == Log(s, n)[i]
  }

  /** Entries with one index and one term are one entry, and so is everything before them. */
  ghost predicate Matching(a: seq<LogEntry>, b: seq<LogEntry>) {
    forall i :: 0 <= i < |a| && i < |b| && a[i].term == b[i].term ==> a[..i + 1] == b[..i + 1]
  }

  ghost predicate MemberOk(g: Group, s: Cluster, n: u64)
    requires n in s.nodes
  {
    var node := s.nodes[n];
    && Intact(g.sha1, g.gid, node.r) && node.r.role != Observer
    && M.LeaderFieldMatchesRole(n, node.r)
    && (node.r.leader == n ==> Owner(g, s, node.r.term, n))
    && node.r.term >= g.base
    && (!node.running.Resting? ==> node.r.role == Candidate)
    && (node.running.Bumped? || node.running.Cleared? || node.running.Collecting? ==> node.r.term > g.base)
  }

  /** The entries are cut from `log` after its entry `k`, and the predecessor, if it is the right one, has its term. */
  predicate CutAfter(log: seq<LogEntry>, req: AppendRequest, k: nat) {
    && k <= |log| && req.entries <= log[k..]
    && (req.prevLogIndex == k ==> req.prevLogTerm == TermAt(log, k))
  }

  ghost predicate SentOk(s: Cluster, req: AppendRequest) {
    req.entries == [] || (req.leaderId in s.nodes && exists k :: CutAfter(Log(s, req.leaderId), req, k))
  }

  ghost predicate AllTraced(g: Group, s: Cluster) {
    forall n, i :: n in s.nodes && 0 <= i < |Log(s, n)| ==> Traced(g, s, n, i)
  }

  ghost predicate AllMatch(s: Cluster) {
    forall m, n :: m in s.nodes && n in s.nodes ==> Matching(Log(s, m), Log(s, n))
  }

  ghost predicate Inv(g: Group, s: System) {
    && g.founder in s.cluster.nodes
    && (forall n :: n in s.cluster.nodes ==> MemberOk(g, s.cluster, n))
    && AllTraced(g, s.cluster) && AllMatch(s.cluster)
    && (forall reign :: reign in s.cluster.reigns ==> reign.term > g.base)
    && (forall req :: req in s.sent ==> SentOk(s.cluster, req))
  }

  /**
   The group starts with logs cut from one log and no entry, in no member, of a term above the base; only the member
   with that log may be leader already, and then in the base term.
   */
  ghost predicate Start(g: Group, s: System) {
    && Election.Init(g.w, s.cluster) && s.sent == {} && s.waiting == multiset{}
    && g.founder in s.cluster.nodes
    && (forall n :: n in s.cluster.nodes ==>
          && Intact(g.sha1, g.gid, s.cluster.nodes[n].r) && s.cluster.nodes[n].r.role != Observer
          && M.LeaderFieldMatchesRole(n, s.cluster.nodes[n].r)
          && s.cluster.nodes[n].r.term >= g.base
          && (s.cluster.nodes[n].r.leader == n ==> n == g.founder && s.cluster.nodes[n].r.term == g.base)
          && Log(s.cluster, n) <= Log(s.cluster, g.founder))
    && (forall i :: 0 <= i < |Log(s.cluster, g.founder)| ==> Log(s.cluster, g.founder)[i].term <= g.base)
  }

  lemma CutsMatch(a: seq<LogEntry>, b: seq<LogEntry>, log: seq<LogEntry>)
    requires a <= log && b <= log
    ensures Matching(a, b)
  {
    forall i | 0 <= i < |a| && i < |b| && a[i].term == b[i].term ensures a[..i + 1] == b[..i + 1] {
      assert a[..i + 1] == log[..i + 1] == b[..i + 1];
    }
  }

  lemma StartHasInv(g: Group, s: System)
    requires Start(g, s)
    ensures Inv(g, s)
  {
    forall n, i | n in s.cluster.nodes && 0 <= i < |Log(s.cluster, n)| ensures Traced(g, s.cluster, n, i) {
      assert Log(s.cluster, g.founder)[i] == Log(s.cluster, n)[i];
      assert Owner(g, s.cluster, Log(s.cluster, n)[i].term, g.founder);
    }
    forall m, n | m in s.cluster.nodes && n in s.cluster.nodes ensures Matching(Log(s.cluster, m), Log(s.cluster, n)) {
      CutsMatch(Log(s.cluster, m), Log(s.cluster, n), Log(s.cluster, g.founder));
    }
  }

  lemma CutMatches(a: seq<LogEntry>, log: seq<LogEntry>, b: seq<LogEntry>)
    requires a <= log && Matching(log, b)
    ensures Matching(a, b) && Matching(b, a)
  {
    forall i | 0 <= i < |a| && i < |b| && a[i].term == b[i].term ensures a[..i + 1] == b[..i + 1] {
      assert log[i] == a[i];
      assert a[..i + 1] == log[..i + 1];
    }
  }

  // ---------- one step ----------

  /** Only `n` changes, its log at most grows, and history is only added to. */
  ghost predicate Grows(s: Cluster, s': Cluster, n: u64) {
    && n in s.nodes && s'.nodes.Keys == s.nodes.Keys && s.reigns <= s'.reigns
    && (forall x :: x in s.nodes && x != n ==> s'.nodes[x] == s.nodes[x])
    && Log(s, n) <= Log(s', n)
  }

  lemma OwnerStays(g: Group, s: Cluster, s': Cluster, term: u64, c: u64)
    requires s.reigns <= s'.reigns && Owner(g, s, term, c)
    ensures Owner(g, s', term, c)
  {
  }

  lemma LogsGrow(s: Cluster, s': Cluster, n: u64, x: u64)
    requires Grows(s, s', n) && x in s.nodes
    ensures Log(s, x) <= Log(s', x)
  {
  }

  /** What was traced stays traced. */
  lemma TraceStays(g: Group, s: Cluster, s': Cluster, n: u64, m: u64, i: nat)
    requires Grows(s, s', n) && m in s.nodes && i < |Log(s, m)| && Traced(g, s, m, i)
    ensures Traced(g, s', m, i)
  {
    var c :| c in s.nodes && Owner(g, s, Log(s, m)[i].term, c) && i < |Log(s, c)| && Log(s, c)[i] == Log(s, m)[i];
    OwnerStays(g, s, s', Log(s, m)[i].term, c);
    LogsGrow(s, s', n, m);
    LogsGrow(s, s', n, c);
  }

  lemma CutStays(log: seq<LogEntry>, longer: seq<LogEntry>, req: AppendRequest, k: nat)
    requires log <= longer && CutAfter(log, req, k)
    ensures CutAfter(longer, req, k)
  {
    assert log[k..] <= longer[k..];
  }

  lemma SentStays(s: Cluster, s': Cluster, n: u64, req: AppendRequest)
    requires Grows(s, s', n) && SentOk(s, req)
    ensures SentOk(s', req)
  {
    if req.entries != [] {
      var k :| CutAfter(Log(s, req.leaderId), req, k);
      LogsGrow(s, s', n, req.leaderId);
      CutStays(Log(s, req.leaderId), Log(s', req.leaderId), req, k);
    }
  }

  /** The parts of the invariant that hold of all members but `n`, and of the network. */
  lemma FrameHolds(g: Group, s: System, s': System, n: u64)
    requires Inv(g, s) && Grows(s.cluster, s'.cluster, n) && s'.sent == s.sent
    ensures forall x :: x in s.cluster.nodes && x != n ==> MemberOk(g, s'.cluster, x)
    ensures forall req :: req in s'.sent ==> SentOk(s'.cluster, req)
    ensures forall x, i :: x in s.cluster.nodes && 0 <= i < |Log(s.cluster, x)| ==> Traced(g, s'.cluster, x, i)
  {
    forall x | x in s.cluster.nodes && x != n ensures MemberOk(g, s'.cluster, x) {
      assert MemberOk(g, s.cluster, x);
    }
    forall req | req in s'.sent ensures SentOk(s'.cluster, req) {
      SentStays(s.cluster, s'.cluster, n, req);
    }
    forall x, i | x in s.cluster.nodes && 0 <= i < |Log(s.cluster, x)| ensures Traced(g, s'.cluster, x, i) {
      TraceStays(g, s.cluster, s'.cluster, n, x, i);
    }
  }

  lemma SameEntryTraced(g: Group, s: Cluster, m: u64, n: u64, i: nat)
    requires m in s.nodes && n in s.nodes && i < |Log(s, m)| && i < |Log(s, n)| && Log(s, n)[i] == Log(s, m)[i]
    requires Traced(g, s, m, i)
    ensures Traced(g, s, n, i)
  {
    var c :| c in s.nodes && Owner(g, s, Log(s, m)[i].term, c) && i < |Log(s, c)| && Log(s, c)[i] == Log(s, m)[i];
    assert Log(s, c)[i] == Log(s, n)[i];
  }

  /** A member whose log becomes, or stays, a cut of the log of a member. */
  lemma CutKeepsLogs(g: Group, s: System, s': System, n: u64, m: u64)
    requires Inv(g, s) && Grows(s.cluster, s'.cluster, n) && s'.sent == s.sent
    requires m in s.cluster.nodes && Log(s'.cluster, n) <= Log(s.cluster, m)
    ensures AllTraced(g, s'.cluster) && AllMatch(s'.cluster)
  {
    var (a, b) := (s.cluster, s'.cluster);
    FrameHolds(g, s, s', n);
    forall x, i | x in b.nodes && 0 <= i < |Log(b, x)| ensures Traced(g, b, x, i) {
      if x == n {
        SameEntryTraced(g, b, m, n, i);
      }
    }
    forall x, y | x in b.nodes && y in b.nodes ensures Matching(Log(b, x), Log(b, y)) {
      var xs := if x == n then Log(a, m) else Log(a, x);
      var ys := if y == n then Log(a, m) else Log(a, y);
      assert Matching(xs, ys);
      CutMatches(Log(b, x), xs, ys);
      CutMatches(Log(b, y), ys, Log(b, x));
    }
  }

  lemma OwnerIsUnique(g: Group, s: System, term: u64, c: u64, d: u64)
    requires Inv(g, s) && OneLeaderPerTerm(s.cluster)
    requires Owner(g, s.cluster, term, c) && Owner(g, s.cluster, term, d)
    ensures c == d
  {
  }

  lemma NewEntryMatches(g: Group, s: System, n: u64, e: LogEntry, x: u64)
    requires Inv(g, s) && OneLeaderPerTerm(s.cluster) && n in s.cluster.nodes && x in s.cluster.nodes
    requires Owner(g, s.cluster, e.term, n)
    ensures Matching(Log(s.cluster, n) + [e], Log(s.cluster, x))
    ensures Matching(Log(s.cluster, x), Log(s.cluster, n) + [e])
  {
    var (mine, other) := (Log(s.cluster, n), Log(s.cluster, x));
    forall i | 0 <= i < |mine| + 1 && i < |other| && (mine + [e])[i].term == other[i].term
      ensures (mine + [e])[..i + 1] == other[..i + 1]
    {
      if i == |mine| {
        assert Traced(g, s.cluster, x, i);
        var c :| c in s.cluster.nodes && Owner(g, s.cluster, other[i].term, c) &&
                 i < |Log(s.cluster, c)| && Log(s.cluster, c)[i] == other[i];
        OwnerIsUnique(g, s, e.term, n, c);
        assert false;
      } else {
        assert (mine + [e])[..i + 1] == mine[..i + 1];
        assert Matching(mine, other) && mine[i].term == other[i].term;
      }
    }
  }

  /** The owner of a term appends: no other log can hold an entry of that term at that place. */
  lemma AppendKeepsLogs(g: Group, s: System, s': System, n: u64, e: LogEntry)
    requires Inv(g, s) && OneLeaderPerTerm(s.cluster)
    requires Grows(s.cluster, s'.cluster, n) && s'.sent == s.sent
    requires Owner(g, s.cluster, e.term, n) && Log(s'.cluster, n) == Log(s.cluster, n) + [e]
    ensures AllTraced(g, s'.cluster) && AllMatch(s'.cluster)
  {
    var (a, b) := (s.cluster, s'.cluster);
    FrameHolds(g, s, s', n);
    OwnerStays(g, a, b, e.term, n);
    forall x, i | x in b.nodes && 0 <= i < |Log(b, x)| ensures Traced(g, b, x, i) {
      if x == n && i == |Log(a, n)| {
        assert Log(b, n)[i] == e;
      }
    }
    forall x | x in b.nodes && x != n
      ensures Matching(Log(b, n), Log(a, x)) && Matching(Log(a, x), Log(b, n))
    {
      NewEntryMatches(g, s, n, e, x);
    }
    CutsMatch(Log(b, n), Log(b, n), Log(b, n));
  }

  // ---------- what an operation does to a log ----------

  lemma SamePrefix(env: Env, log: seq<LogEntry>, req: AppendRequest, lead: seq<LogEntry>, k: nat)
    requires ChainValid(env.sha1, env.gid, log) && ChainValid(env.sha1, env.gid, lead)
    requires Matching(log, lead) && CutAfter(lead, req, k) && Continues(env, log, req)
    ensures log + req.entries <= lead
  {
    assert req.entries[0] == lead[k];
    assert Linked(env.sha1, env.gid, lead, k);
    assert Linked(env.sha1, env.gid, log + req.entries, |log|);
    ChainIsAscending(env.sha1, env.gid, log);
    assert k == |log|;
    if k > 0 {
      assert log[k - 1].term == lead[k - 1].term;
      assert log[..k] == lead[..k];
    }
    assert log == lead[..k];
    assert lead[..k] + lead[k..] == lead;
  }

  /** A follower takes a request that another member has cut from its log only onto the same prefix. */
  lemma RequestFollowsSender(env: Env, r: Replica, req: AppendRequest, lead: seq<LogEntry>, k: nat)
    requires Intact(env.sha1, env.gid, r) && |r.log| + |req.entries| + 1 < U64_LIMIT
    requires ChainValid(env.sha1, env.gid, lead) && Matching(r.log, lead)
    requires req.entries != [] && CutAfter(lead, req, k)
    ensures var r' := AppendEntries(env, r, req).0; r'.log == r.log || r'.log <= lead
  {
    assert forall i :: 0 <= i < |req.entries| ==> req.entries[i] == lead[k + i];
    forall i | 0 <= i < |req.entries| ensures req.entries[i].command.group == env.gid {
      assert Linked(env.sha1, env.gid, lead, k + i);
    }
    var led := AcceptLeader(env, r, req);
    if led.Some? && req.leaderId in r.peers && env.hasKey(led.value.leader) {
      BatchIsAllOrNothing(env, led.value, FirstReply(env, r).(convinced := true), req);
      if Continues(env, r.log, req) {
        SamePrefix(env, r.log, req, lead, k);
      }
    }
  }

  lemma HeartbeatIsCut(g: Group, s: System, env: Env, n: u64, peer: u64)
    requires n in s.cluster.nodes && Intact(g.sha1, g.gid, s.cluster.nodes[n].r) && RunsAs(env, n, g.gid, g.sha1)
    requires peer in s.cluster.nodes[n].r.peers
    ensures SentOk(s.cluster, HeartbeatRequest(env, s.cluster.nodes[n].r, peer))
  {
    var r := s.cluster.nodes[n].r;
    var req := HeartbeatRequest(env, r, peer);
    var k := CountBelow(r.log, r.peers[peer].nextIndex);
    if k > 0 {
      assert Linked(g.sha1, g.gid, r.log, k - 1);
    } else if r.log != [] {
      assert Linked(g.sha1, g.gid, r.log, 0);
    }
    ChainIsAscending(g.sha1, g.gid, r.log);
    CountBelowSplits(r.log, r.peers[peer].nextIndex);
    assert CutAfter(Log(s.cluster, n), req, k);
  }

  // ---------- steps keep the invariant ----------

  lemma SendKeepsInv(g: Group, s: System, env: Env, n: u64, peer: u64)
    requires Inv(g, s) && Possible(g, s, Send(env, n, peer))
    ensures Inv(g, Done(g, s, Send(env, n, peer)))
  {
    HeartbeatIsCut(g, s, env, n, peer);
  }

  /** A vote changes nothing of what makes a member. */
  lemma BallotStep(g: Group, s: Cluster, v: u64, act: VoterAct)
    requires Enabled(g.w, s, Ballot(v, act)) && MemberOk(g, s, v)
    ensures var s' := Next(g.w, s, Ballot(v, act));
            Grows(s, s', v) && Log(s', v) == Log(s, v) && MemberOk(g, s', v) && s'.reigns == s.reigns
  {
    var s', r := Next(g.w, s, Ballot(v, act)), s.nodes[v].r;
    assert s'.nodes[v].r == r.(votedTo := s'.nodes[v].r.votedTo, votedTerm := s'.nodes[v].r.votedTerm);
    if r.leader == v {
      OwnerStays(g, s, s', r.term, v);
    }
  }

  /** A candidacy that is not won makes no leader. */
  lemma CampaignStep(g: Group, s: Cluster, c: u64, act: CandidateAct)
    requires Enabled(g.w, s, Campaign(c, act)) && MemberOk(g, s, c) && !act.Win?
    ensures var s' := Next(g.w, s, Campaign(c, act));
            Grows(s, s', c) && Log(s', c) == Log(s, c) && MemberOk(g, s', c) && s'.reigns == s.reigns
  {
  }

  /** A win makes the owner of a term above the base. */
  lemma WinStep(g: Group, s: Cluster, c: u64)
    requires Enabled(g.w, s, Campaign(c, Win)) && MemberOk(g, s, c)
    ensures var s' := Next(g.w, s, Campaign(c, Win));
            && Grows(s, s', c) && Log(s', c) == Log(s, c) && MemberOk(g, s', c)
            && s'.reigns == s.reigns + {ReignOf(c, s.nodes[c])} && s.nodes[c].r.term > g.base
  {
    assert ReignOf(c, s.nodes[c]) in Next(g.w, s, Campaign(c, Win)).reigns;
  }

  /** An election step leaves logs alone; it makes a leader only by a win, above the base term. */
  lemma ElectionStep(g: Group, s: Cluster, step: Step)
    requires Enabled(g.w, s, step) && !step.Local? && MemberOk(g, s, Actor(step))
    ensures var s' := Next(g.w, s, step);
            && Grows(s, s', Actor(step)) && Log(s', Actor(step)) == Log(s, Actor(step))
            && MemberOk(g, s', Actor(step))
    ensures forall reign :: reign in Next(g.w, s, step).reigns ==> reign in s.reigns || reign.term > g.base
  {
    match step
    case Ballot(v, act) => BallotStep(g, s, v, act);
    case Campaign(c, act) =>
      if act.Win? {
        WinStep(g, s, c);
      } else {
        CampaignStep(g, s, c, act);
      }
  }

  lemma ElectionStepKeepsInv(g: Group, s: System, step: Step)
    requires Inv(g, s) && Possible(g, s, Take(step)) && !step.Local?
    ensures Inv(g, Done(g, s, Take(step)))
  {
    var s', n := Done(g, s, Take(step)), Actor(step);
    assert MemberOk(g, s.cluster, n);
    ElectionStep(g, s.cluster, step);
    FrameHolds(g, s, s', n);
    CutKeepsLogs(g, s, s', n, n);
  }

  lemma LeaderKeepsTerm(n: u64, r: Replica, ev: M.Event)
    requires ev.env.self == n && (ev.Request? ==> ev.req.leaderId != n) && r.role != Observer
    requires ev.Request? || ev.ClientCommand? || ev.Reply? || ev.Pull? || ev.LateVotes?
    ensures var r' := M.After(r, ev); r'.leader == n ==> r.leader == n && r'.term == r.term
  {
  }

  /** A local operation keeps a member intact; it never makes a leader, and a leader keeps its term. */
  lemma LocalStep(g: Group, s: System, n: u64, ev: M.Event)
    requires Inv(g, s) && Possible(g, s, Take(Local(n, ev)))
    ensures var s' := Done(g, s, Take(Local(n, ev)));
            && Grows(s.cluster, s'.cluster, n) && MemberOk(g, s'.cluster, n)
            && s'.cluster.reigns == s.cluster.reigns
  {
    var r := s.cluster.nodes[n].r;
    assert MemberOk(g, s.cluster, n);
    EventKeepsChain(g.sha1, g.gid, r, ev);
    M.StaysNoObserver(r, ev);
    ChainIsAscending(g.sha1, g.gid, r.log);
    M.EventKeepsRole(n, r, ev);
    LocalEffect(r, ev);
    LeaderKeepsTerm(n, r, ev);
  }

  lemma EmptyRequestKeepsLog(env: Env, r: Replica, req: AppendRequest)
    requires req.entries == []
    ensures AppendEntries(env, r, req).0.log == r.log
  {
  }

  lemma RequestLog(g: Group, s: System, n: u64, env: Env, req: AppendRequest)
    requires Inv(g, s) && n in s.cluster.nodes && Honest(g, s, n, M.Request(env, req))
    requires AppendEntries(env, s.cluster.nodes[n].r, req).0.log != Log(s.cluster, n)
    ensures req.leaderId in s.cluster.nodes
    ensures AppendEntries(env, s.cluster.nodes[n].r, req).0.log <= Log(s.cluster, req.leaderId)
  {
    if req.entries == [] {
      EmptyRequestKeepsLog(env, s.cluster.nodes[n].r, req);
      assert false;
    }
    assert SentOk(s.cluster, req);
    var lead := req.leaderId;
    var k :| CutAfter(Log(s.cluster, lead), req, k);
    assert MemberOk(g, s.cluster, n) && MemberOk(g, s.cluster, lead);
    RequestFollowsSender(env, s.cluster.nodes[n].r, req, Log(s.cluster, lead), k);
  }

  lemma CommandLog(g: Group, s: System, n: u64, ev: M.Event)
    requires Inv(g, s) && n in s.cluster.nodes && Honest(g, s, n, ev) && !ev.Request?
    requires M.After(s.cluster.nodes[n].r, ev).log != s.cluster.nodes[n].r.log
    ensures var r := s.cluster.nodes[n].r;
            && ev.ClientCommand? && NextEntry(ev.env, r, ev.cmd).term == r.term
            && M.After(r, ev).log == r.log + [NextEntry(ev.env, r, ev.cmd)]
  {
    var r := s.cluster.nodes[n].r;
    assert MemberOk(g, s.cluster, n);
    ChainIsAscending(g.sha1, g.gid, r.log);
    if !ev.ClientCommand? && !ev.Pull? {
      M.OtherEventsKeepLog(r, ev);
      assert false;
    }
  }

  lemma LocalLogs(g: Group, s: System, n: u64, ev: M.Event)
    requires Inv(g, s) && OneLeaderPerTerm(s.cluster) && Possible(g, s, Take(Local(n, ev)))
    requires g.kept
    requires Grows(s.cluster, Done(g, s, Take(Local(n, ev))).cluster, n)
    ensures var b := Done(g, s, Take(Local(n, ev))).cluster; AllTraced(g, b) && AllMatch(b)
  {
    var s', r := Done(g, s, Take(Local(n, ev))), s.cluster.nodes[n].r;
    assert MemberOk(g, s.cluster, n);
    if M.After(r, ev).log == r.log {
      CutKeepsLogs(g, s, s', n, n);
    } else if ev.Request? {
      var lead := ev.req.leaderId;
      RequestLog(g, s, n, ev.env, ev.req);
      CutKeepsLogs(g, s, s', n, lead);
    } else {
      CommandLog(g, s, n, ev);
      AppendKeepsLogs(g, s, s', n, NextEntry(ev.env, r, ev.cmd));
    }
  }

  lemma LocalKeepsInv(g: Group, s: System, n: u64, ev: M.Event)
    requires Inv(g, s) && OneLeaderPerTerm(s.cluster) && Possible(g, s, Take(Local(n, ev)))
    requires g.kept
    ensures Inv(g, Done(g, s, Take(Local(n, ev))))
  {
    var s' := Done(g, s, Take(Local(n, ev)));
    LocalStep(g, s, n, ev);
    FrameHolds(g, s, s', n);
    LocalLogs(g, s, n, ev);
  }

  // ---------- whole runs ----------

  ghost predicate Runs(g: Group, s: System, acts: seq<Act>, t: System)
    decreases |acts|
  {
    if acts == [] then s == t
    else Possible(g, s, acts[0]) && Runs(g, Done(g, s, acts[0]), acts[1..], t)
  }

  lemma ReignsStay(g: Group, s: System, act: Act)
    requires Possible(g, s, act)
    ensures s.cluster.reigns <= Done(g, s, act).cluster.reigns
  {
  }

  lemma {:induction false} ReignsGrow(g: Group, s: System, acts: seq<Act>, t: System)
    requires Runs(g, s, acts, t)
    ensures s.cluster.reigns <= t.cluster.reigns
    decreases |acts|
  {
    if acts != [] {
      ReignsStay(g, s, acts[0]);
      ReignsGrow(g, Done(g, s, acts[0]), acts[1..], t);
    }
  }

  lemma StepKeepsInv(g: Group, s: System, act: Act)
    requires Inv(g, s) && OneLeaderPerTerm(s.cluster) && Possible(g, s, act) && g.kept
    ensures Inv(g, Done(g, s, act))
  {
    match act
    case Admit(_, _, _) =>
    case Send(env, n, peer) => SendKeepsInv(g, s, env, n, peer);
    case Take(step) =>
      if step.Local? {
        LocalKeepsInv(g, s, step.n, step.ev);
      } else {
        ElectionStepKeepsInv(g, s, step);
      }
  }

  lemma {:induction false} RunKeepsInv(g: Group, s: System, acts: seq<Act>, t: System)
    requires Inv(g, s) && Runs(g, s, acts, t) && g.kept && OneLeaderPerTerm(t.cluster)
    ensures Inv(g, t)
    decreases |acts|
  {
    if acts != [] {
      ReignsGrow(g, s, acts, t);
      StepKeepsInv(g, s, acts[0]);
      RunKeepsInv(g, Done(g, s, acts[0]), acts[1..], t);
    }
  }

  /**
   Log matching: where a run has had one leader per term and commands were appended by members that still led, entries
   of two members with one index and one term are one entry, everything before them is the same too, and so is what the
   members have applied up to there.
   */
  lemma LogsMatch(g: Group, s: System, acts: seq<Act>, t: System, m: u64, n: u64, i: nat)
    requires Start(g, s) && Runs(g, s, acts, t) && g.kept && OneLeaderPerTerm(t.cluster)
    requires m in t.cluster.nodes && n in t.cluster.nodes && i < |Log(t.cluster, m)| && i < |Log(t.cluster, n)|
    requires Log(t.cluster, m)[i].term == Log(t.cluster, n)[i].term
    ensures Log(t.cluster, m)[..i + 1] == Log(t.cluster, n)[..i + 1]
    ensures Log(t.cluster, m)[i].index == Log(t.cluster, n)[i].index == i + 1
    ensures t.cluster.nodes[m].r.applied == Log(t.cluster, m) && t.cluster.nodes[n].r.applied == Log(t.cluster, n)
  {
    StartHasInv(g, s);
    RunKeepsInv(g, s, acts, t);
    assert MemberOk(g, t.cluster, m) && MemberOk(g, t.cluster, n);
    assert Matching(Log(t.cluster, m), Log(t.cluster, n));
    assert Linked(g.sha1, g.gid, Log(t.cluster, m), i) && Linked(g.sha1, g.gid, Log(t.cluster, n), i);
  }

  // ---------- the elections of a run ----------

  function Steps(acts: seq<Act>): seq<Step> {
    if acts == [] then []
    else if acts[0].Take? then [acts[0].step] + Steps(acts[1..])
    else Steps(acts[1..])
  }

  lemma {:induction false} RunsElect(g: Group, s: System, acts: seq<Act>, t: System)
    requires Runs(g, s, acts, t)
    ensures Reaches(g.w, s.cluster, Steps(acts), t.cluster)
    decreases |acts|
  {
    if acts != [] {
      RunsElect(g, Done(g, s, acts[0]), acts[1..], t);
      if acts[0].Take? {
        assert Steps(acts)[1..] == Steps(acts[1..]);
      }
    }
  }

  /** Elections whose voters take every care, or of at most four members. */
  ghost predicate Guarded(g: Group, s: System, acts: seq<Act>) {
    |g.w.members| <= 4 || CarefulRun(g.w, s.cluster, Steps(acts), ALL)
  }

  lemma OneLeaderInRun(g: Group, s: System, acts: seq<Act>, t: System)
    requires Start(g, s) && Runs(g, s, acts, t) && Guarded(g, s, acts)
    ensures OneLeaderPerTerm(t.cluster)
  {
    RunsElect(g, s, acts, t);
    if |g.w.members| <= 4 {
      Safety.SmallGroupsAreSafe(g.w, s.cluster, Steps(acts), t.cluster);
    } else {
      Safety.ElectionSafety(g.w, s.cluster, Steps(acts), t.cluster);
    }
  }

  /** Log matching with careful elections in any group, and with any elections in groups of at most four. */
  lemma GuardedLogsMatch(g: Group, s: System, acts: seq<Act>, t: System, m: u64, n: u64, i: nat)
    requires Start(g, s) && Runs(g, s, acts, t) && Guarded(g, s, acts) && g.kept
    requires m in t.cluster.nodes && n in t.cluster.nodes && i < |Log(t.cluster, m)| && i < |Log(t.cluster, n)|
    requires Log(t.cluster, m)[i].term == Log(t.cluster, n)[i].term
    ensures Log(t.cluster, m)[..i + 1] == Log(t.cluster, n)[..i + 1]
  {
    OneLeaderInRun(g, s, acts, t);
    LogsMatch(g, s, acts, t, m, n, i);
  }
}
