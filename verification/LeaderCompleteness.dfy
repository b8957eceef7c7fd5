/**
 What the group does not promise: that a later leader has what a quorum has applied. Nothing waits for a quorum, and a
 candidate counts votes of members that have stored more since they were asked.
 */
module LeaderCompleteness {
  import opened Words
  import opened Messages
  import opened LogChain
  import opened Replica
  import opened Batches
  import opened Election
  import opened LogMatching
  import opened Polls
  import opened ElectionExact
  import opened SystemRuns
  import opened LogMatchingExact

  /** A quorum has stored and applied the entry, and a leader of a later term does not have it. */
  ghost predicate Lost(g: Group, t: Cluster, e: LogEntry, holders: set<u64>, reign: Reign) {
    && holders <= g.w.members && |holders| >= Quorum.ExpectedPlayers(|g.w.members|)
    && (forall h :: h in holders ==> h in t.nodes && e in t.nodes[h].r.log && e in t.nodes[h].r.applied)
    && reign in t.reigns && e.term < reign.term && reign.leader in t.nodes
    && t.nodes[reign.leader].r.role == Leader && t.nodes[reign.leader].r.term == reign.term
    && e !in Log(t, reign.leader)
  }

  // ---------- one follower stores one entry ----------

  predicate OneMore(g: Group, r: Replica, e: LogEntry) {
    r.log == FirstLog(g) + [e] && r.applied == FirstLog(g) + [e]
  }

  /** A leader with one entry more than everyone is on record for. */
  ghost predicate Ahead(g: Group, s: Cluster, a: u64, e: LogEntry) {
    && a in g.w.members && a in s.nodes && OneMore(g, s.nodes[a].r, e)
    && ChainValid(g.sha1, g.gid, FirstLog(g) + [e])
    && (forall m :: m in g.w.members ==>
          m in s.nodes[a].r.peers && s.nodes[a].r.peers[m].nextIndex == 2 && s.nodes[a].r.peers[m].matchIndex == 1)
  }

  /** A member that follows `a` and has only the first entry. */
  ghost predicate Behind(g: Group, node: Node, a: u64) {
    && node.running.Resting? && node.r.leader == a && a in node.r.peers
    && node.r.log == FirstLog(g) && node.r.applied == FirstLog(g)
  }

  function NewsFor(g: Group, s: Cluster, a: u64, c: u64): AppendRequest
    requires a in s.nodes && c in s.nodes[a].r.peers
  {
    HeartbeatRequest(EnvAt(g.w, a), s.nodes[a].r, c)
  }

  lemma NewsIsTheEntry(g: Group, s: Cluster, a: u64, c: u64, e: LogEntry)
    requires Ahead(g, s, a, e) && c in g.w.members
    ensures var req := NewsFor(g, s, a, c);
            && req.leaderId == a && req.entries == [e] && req.prevLogIndex == 1 && req.prevLogTerm == 0
  {
    var log := FirstLog(g) + [e];
    assert s.nodes[a].r.log == log;
    assert Linked(g.sha1, g.gid, log, 1) && log[1] == e && log[0] == FirstLog(g)[0];
    CountBelowInChain(g.sha1, g.gid, log, 1);
    assert log[1..] == [e];
  }

  /** The follower takes it. */
  lemma FollowerStores(g: Group, env: Env, r: Replica, a: u64, e: LogEntry, req: AppendRequest)
    requires env.gid == g.gid && env.sha1 == g.sha1 && env.hasKey(a)
    requires r.leader == a && a in r.peers && r.log == FirstLog(g) && r.applied == FirstLog(g)
    requires ChainValid(g.sha1, g.gid, FirstLog(g) + [e])
    requires req.leaderId == a && req.entries == [e] && req.prevLogIndex == 1 && req.prevLogTerm == 0
    ensures AppendEntries(env, r, req).0 == r.(log := FirstLog(g) + [e], applied := FirstLog(g) + [e])
  {
    FirstLogIsValid(g);
    assert Linked(g.sha1, g.gid, FirstLog(g) + [e], 1);
    BatchIsAllOrNothing(env, r, FirstReply(env, r).(convinced := true), req);
  }

  lemma SendsNews(g: Group, s: System, a: u64, c: u64, e: LogEntry, care: Care) returns (t: System)
    requires OneGroup(g.w, g.gid, g.sha1) && Ahead(g, s.cluster, a, e) && c in g.w.members
    ensures Brings(g, s, t, care) && t == s.(sent := s.sent + {NewsFor(g, s.cluster, a, c)})
  {
    t := OneAct(g, s, Send(EnvAt(g.w, a), a, c), care);
  }

  lemma TakesNews(g: Group, s: System, a: u64, c: u64, e: LogEntry, req: AppendRequest, care: Care) returns (t: System)
    requires OneGroup(g.w, g.gid, g.sha1) && Wins.Sound(g.w) && a in g.w.members && c in g.w.members && c != a
    requires c in s.cluster.nodes && Behind(g, s.cluster.nodes[c], a) && req in s.sent
    requires ChainValid(g.sha1, g.gid, FirstLog(g) + [e])
    requires req.leaderId == a && req.entries == [e] && req.prevLogIndex == 1 && req.prevLogTerm == 0
    ensures Brings(g, s, t, care)
    ensures var r := s.cluster.nodes[c].r.(log := FirstLog(g) + [e], applied := FirstLog(g) + [e]);
            t.cluster == s.cluster.(nodes := s.cluster.nodes[c := s.cluster.nodes[c].(r := r)])
  {
    assert Wins.Trusts(g.w, c, a);
    FollowerStores(g, EnvAt(g.w, c), s.cluster.nodes[c].r, a, e, req);
    t := OneAct(g, s, Take(Local(c, M.Request(EnvAt(g.w, c), req))), care);
  }

  // ---------- all followers do ----------

  ghost predicate AllBehind(g: Group, s: Cluster, cs: set<u64>, a: u64) {
    forall c {:trigger c in cs} :: c in cs ==> c in s.nodes && Behind(g, s.nodes[c], a)
  }

  ghost predicate AllHave(g: Group, s: Cluster, cs: set<u64>, e: LogEntry) {
    forall c {:trigger c in cs} :: c in cs ==> c in s.nodes && OneMore(g, s.nodes[c].r, e)
  }

  /** Members outside `busy` and all history are as they were. */
  ghost predicate Besides(s: Cluster, t: Cluster, busy: set<u64>) {
    && t.nodes.Keys == s.nodes.Keys
    && t.requests == s.requests && t.grants == s.grants && t.reigns == s.reigns
    && forall y :: y in s.nodes && y !in busy ==> t.nodes[y] == s.nodes[y]
  }

  lemma OneHears(g: Group, s: System, a: u64, c: u64, e: LogEntry, care: Care) returns (t: System)
    requires OneGroup(g.w, g.gid, g.sha1) && Wins.Sound(g.w) && Ahead(g, s.cluster, a, e) && c in g.w.members && c != a
    requires c in s.cluster.nodes && Behind(g, s.cluster.nodes[c], a)
    ensures Brings(g, s, t, care) && Besides(s.cluster, t.cluster, {c}) && OneMore(g, t.cluster.nodes[c].r, e)
  {
    NewsIsTheEntry(g, s.cluster, a, c, e);
    var u := SendsNews(g, s, a, c, e, care);
    t := TakesNews(g, u, a, c, e, NewsFor(g, s.cluster, a, c), care);
    BringsOn(g, s, u, t, care);
  }

  lemma {:induction false} AllHear(g: Group, s: System, a: u64, cs: set<u64>, e: LogEntry, care: Care)
      returns (t: System)
    requires OneGroup(g.w, g.gid, g.sha1) && Wins.Sound(g.w) && Ahead(g, s.cluster, a, e)
    requires cs <= g.w.members - {a} && AllBehind(g, s.cluster, cs, a)
    ensures Brings(g, s, t, care) && Besides(s.cluster, t.cluster, cs) && AllHave(g, t.cluster, cs, e)
    decreases |cs|
  {
    if cs == {} {
      t := s;
      NothingBrings(g, s, care);
    } else {
      var c :| c in cs;
      var u := OneHears(g, s, a, c, e, care);
      forall d | d in cs - {c} ensures d in u.cluster.nodes && Behind(g, u.cluster.nodes[d], a) {
        assert d in cs;
      }
      t := AllHear(g, u, a, cs - {c}, e, care);
      BringsOn(g, s, u, t, care);
      forall d | d in cs ensures d in t.cluster.nodes && OneMore(g, t.cluster.nodes[d].r, e) {
        assert d != c ==> d in cs - {c};
      }
    }
  }

  // ---------- the entry is lost ----------

  /** After the poll the followers still follow the founder. */
  lemma VotersAreBehind(g: Group, s: Cluster, u: Cluster, a: u64, b: u64)
    requires a in g.w.members && Began(g.w, s, FirstLog(g)) && SameLogs(s, u)
    requires AllVoted(u, g.w.members - {a, b}, 1)
    requires OthersFollow(g, s, a, b)
    ensures AllBehind(g, u, g.w.members - {a, b}, a)
  {
    forall c | c in g.w.members - {a, b} ensures c in u.nodes && Behind(g, u.nodes[c], a) {
      assert Seated(g.w, s, c, FollowerAt(a, 0)) && Voted(u.nodes[c], 1);
      StillBegan(g.w, s, u, c, FirstLog(g));
    }
  }

  /** The founder appends after the poll, and nobody else is touched. */
  lemma FounderAppends(g: Group, s: System, a: u64, b: u64, votes: seq<Grant>, care: Care)
      returns (t: System, e: LogEntry)
    requires OneGroup(g.w, g.gid, g.sha1) && Polled(g, s.cluster, a, b, votes)
    requires Held(a, CommandOf(g, 1)) in s.waiting
    ensures Brings(g, s, t, care) && Besides(s.cluster, t.cluster, {a})
    ensures Ahead(g, t.cluster, a, e) && e.term == 0 && e !in FirstLog(g)
  {
    var cmd := CommandOf(g, 1);
    FirstLogIsValid(g);
    e := EntryOf(g, s.cluster, a, cmd);
    ChainExtend(g.sha1, g.gid, FirstLog(g), e);
    t := AppendsHeld(g, s, a, cmd, care);
  }

  lemma AllStillBehind(g: Group, s: Cluster, t: Cluster, cs: set<u64>, busy: set<u64>, a: u64)
    requires AllBehind(g, s, cs, a) && Besides(s, t, busy) && cs !! busy
    ensures AllBehind(g, t, cs, a)
  {
    forall c | c in cs ensures c in t.nodes && Behind(g, t.nodes[c], a) {
      assert t.nodes[c] == s.nodes[c];
    }
  }

  /** The founder's entry goes round after the poll and before it is decided. */
  lemma EntryGoesRound(g: Group, s: System, a: u64, b: u64, votes: seq<Grant>, care: Care)
      returns (t: System, e: LogEntry)
    requires OneGroup(g.w, g.gid, g.sha1) && Wins.Sound(g.w) && Polled(g, s.cluster, a, b, votes)
    requires AllBehind(g, s.cluster, g.w.members - {a, b}, a) && Held(a, CommandOf(g, 1)) in s.waiting
    ensures Brings(g, s, t, care) && Stands(g.w, t.cluster, b, votes) && t.cluster.nodes[b].r.log == FirstLog(g)
    ensures AllHave(g, t.cluster, g.w.members - {b}, e) && e.term == 0 && e !in FirstLog(g)
  {
    var others := g.w.members - {a, b};
    var u;
    u, e := FounderAppends(g, s, a, b, votes, care);
    AllStillBehind(g, s.cluster, u.cluster, others, {a}, a);
    t := AllHear(g, u, a, others, e, care);
    BringsOn(g, s, u, t, care);
    assert t.cluster.nodes[b] == s.cluster.nodes[b] && t.cluster.nodes[a] == u.cluster.nodes[a];
    forall c | c in g.w.members - {b} ensures c in t.cluster.nodes && OneMore(g, t.cluster.nodes[c].r, e) {
      assert c != a ==> c in others;
    }
  }

  /** The rival wins with the votes it has, and does not have the entry. */
  lemma EntryIsLost(g: Group, s: System, b: u64, votes: seq<Grant>, e: LogEntry, care: Care)
      returns (t: System, holders: set<u64>, reign: Reign)
    requires Wins.Sound(g.w) && |g.w.members| >= 3 && b in g.w.members
    requires Stands(g.w, s.cluster, b, votes) && |votes| >= Quorum.ExpectedPlayers(|g.w.members|)
    requires s.cluster.nodes[b].r.log == FirstLog(g) && e.term == 0 && e !in FirstLog(g)
    requires AllHave(g, s.cluster, g.w.members - {b}, e)
    ensures Brings(g, s, t, care) && Lost(g, t.cluster, e, holders, reign)
  {
    holders := g.w.members - {b};
    AllOthersSuffice(g.w.members, b);
    var v := Crown(g.w, s.cluster, b, votes, care);
    ElectionBrings(g, s, v, care);
    t := s.(cluster := v);
    var won :| won in v.reigns && won.leader == b && won.term == 3;
    reign := won;
    forall h | h in holders ensures h in v.nodes && e in v.nodes[h].r.log && e in v.nodes[h].r.applied {
      assert v.nodes[h] == s.cluster.nodes[h];
      assert (FirstLog(g) + [e])[|FirstLog(g)|] == e;
    }
  }

  /** In every group of three or more, whatever care and guard, a later leader can lack what a quorum applied. */
  lemma AppliedEntryIsLost(g: Group, b: u64, care: Care)
      returns (t: System, e: LogEntry, holders: set<u64>, reign: Reign)
    requires 0 !in g.w.members && Wins.Sound(g.w) && OneGroup(g.w, g.gid, g.sha1) && |g.w.members| >= 3
    requires g.base == 0 && g.founder in g.w.members && b in g.w.members && b != g.founder
    ensures Arrives(g, t, care) && Lost(g, t.cluster, e, holders, reign)
  {
    var a := g.founder;
    var s, u, votes := PollsRival(g, a, b, care);
    VotersAreBehind(g, s, u, a, b);
    var s0 := System(s, {}, multiset{});
    var s1 := LetsIn(g, s0, a, CommandOf(g, 1), care);
    ElectionBrings(g, s1, u, care);
    var s2 := s1.(cluster := u);
    var s3;
    s3, e := EntryGoesRound(g, s2, a, b, votes, care);
    t, holders, reign := EntryIsLost(g, s3, b, votes, e, care);
    BringsOn(g, s0, s1, s2, care);
    BringsOn(g, s0, s2, s3, care);
    BringsOn(g, s0, s3, t, care);
    BeganArrives(g, s, t, care);
  }

  ghost predicate SomethingLost(g: Group, t: System) {
    exists e, holders, reign :: Lost(g, t.cluster, e, holders, reign)
  }

  lemma NothingLostInPairs(g: Group, t: System, care: Care)
    requires Arrives(g, t, care) && |g.w.members| <= 2
    ensures !SomethingLost(g, t)
  {
    var s :| Start(g, s) && Brings(g, s, t, care);
    var acts :| Runs(g, s, acts, t) && CarefulRun(g.w, s.cluster, Steps(acts), care);
    RunsElect(g, s, acts, t);
    Safety.NoElectionBelowThree(g.w, s.cluster, Steps(acts), t.cluster);
  }

  /** Some run loses an applied entry, whatever care and guard, exactly when the group has three members or more. */
  lemma LosesExactly(w: World, gid: u64, sha1: Hasher, care: Care, kept: bool)
    requires 0 !in w.members && Wins.Sound(w) && OneGroup(w, gid, sha1)
    ensures (exists base: u64, founder: u64, t: System ::
               Arrives(Group(w, gid, sha1, base, founder, kept), t, care) &&
               SomethingLost(Group(w, gid, sha1, base, founder, kept), t))
            <==> |w.members| >= 3
  {
    if |w.members| >= 3 {
      var a, b := TwoOf(w.members);
      var g := Group(w, gid, sha1, 0, a, kept);
      var t, e, holders, reign := AppliedEntryIsLost(g, b, care);
      assert SomethingLost(g, t);
    } else {
      forall base: u64, founder: u64, t: System | Arrives(Group(w, gid, sha1, base, founder, kept), t, care)
        ensures !SomethingLost(Group(w, gid, sha1, base, founder, kept), t)
      {
        NothingLostInPairs(Group(w, gid, sha1, base, founder, kept), t, care);
      }
    }
  }
}
