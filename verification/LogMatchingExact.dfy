/**
 Exactly when the logs of a group match by index and term in every run: when every run has one leader per term and a
 waiting command is appended only by a member that still leads, or when nobody is ever elected.
 */
module LogMatchingExact {
  import opened Words
  import opened Messages
  import opened LogChain
  import opened Replica
  import opened Election
  import opened ChainRuns
  import opened LogMatching
  import opened Polls
  import opened ElectionExact
  import opened SystemRuns
  import OneAppender

  /** Every member is of this group. */
  ghost predicate OneGroup(w: World, gid: u64, sha1: Hasher) {
    forall n {:trigger EnvAt(w, n)} :: n in w.members ==> RunsAs(EnvAt(w, n), n, gid, sha1)
  }

  // ---------- commands ----------

  /** The entry that `x` would make of a command. */
  function EntryOf(g: Group, s: Cluster, x: u64, cmd: Command): LogEntry
    requires x in s.nodes
  {
    NextEntry(EnvAt(g.w, x), s.nodes[x].r, cmd)
  }

  /** `t` is `s` with this command stored and applied at `x`. */
  predicate Appended(g: Group, s: Cluster, t: Cluster, x: u64, cmd: Command) {
    && x in s.nodes
    && var (node, e) := (s.nodes[x], EntryOf(g, s, x, cmd));
       t == s.(nodes := s.nodes[x := node.(r := node.r.(log := node.r.log + [e], applied := node.r.applied + [e]))])
  }

  predicate CanAppend(g: Group, s: Cluster, x: u64, cmd: Command) {
    x in s.nodes && s.nodes[x].running.Resting? && s.nodes[x].r.log == FirstLog(g) && cmd.group == g.gid
  }

  lemma LetsIn(g: Group, s: System, x: u64, cmd: Command, care: Care) returns (t: System)
    requires OneGroup(g.w, g.gid, g.sha1) && x in g.w.members && x in s.cluster.nodes
    requires s.cluster.nodes[x].r.leader == x && cmd.group == g.gid
    ensures Brings(g, s, t, care) && t == s.(waiting := s.waiting + multiset{Held(x, cmd)})
  {
    t := OneAct(g, s, Admit(EnvAt(g.w, x), x, cmd), care);
  }

  lemma CommandIsPossible(g: Group, s: System, x: u64, cmd: Command, care: Care)
    requires OneGroup(g.w, g.gid, g.sha1) && x in g.w.members
    requires CanAppend(g, s.cluster, x, cmd) && Held(x, cmd) in s.waiting
    requires g.kept ==> s.cluster.nodes[x].r.leader == x
    ensures var step := Local(x, M.ClientCommand(EnvAt(g.w, x), cmd));
            Possible(g, s, Take(step)) && Careful(s.cluster, step, care)
  {
  }

  lemma CommandAppends(g: Group, env: Env, r: Replica, cmd: Command)
    requires env.gid == g.gid && env.sha1 == g.sha1 && r.log == FirstLog(g) && cmd.group == g.gid
    ensures var e := NextEntry(env, r, cmd);
            ExecAdmitted(env, r, cmd) == r.(log := r.log + [e], applied := r.applied + [e])
  {
    FirstLogIsValid(g);
    Replication.OwnAppend(env, r, cmd);
  }

  /** A member that still leads, or need not, appends the command it has let in. */
  lemma AppendsHeld(g: Group, s: System, x: u64, cmd: Command, care: Care) returns (t: System)
    requires OneGroup(g.w, g.gid, g.sha1) && x in g.w.members
    requires CanAppend(g, s.cluster, x, cmd) && Held(x, cmd) in s.waiting
    requires g.kept ==> s.cluster.nodes[x].r.leader == x
    ensures Brings(g, s, t, care) && t.sent == s.sent && Appended(g, s.cluster, t.cluster, x, cmd)
  {
    CommandIsPossible(g, s, x, cmd, care);
    CommandAppends(g, EnvAt(g.w, x), s.cluster.nodes[x].r, cmd);
    t := OneAct(g, s, Take(Local(x, M.ClientCommand(EnvAt(g.w, x), cmd))), care);
  }

  /** Letting in and appending in a row, as a leader. */
  lemma Executes(g: Group, s: System, x: u64, cmd: Command, care: Care) returns (t: System)
    requires OneGroup(g.w, g.gid, g.sha1) && x in g.w.members
    requires CanAppend(g, s.cluster, x, cmd) && s.cluster.nodes[x].r.leader == x
    ensures Brings(g, s, t, care) && t.sent == s.sent && Appended(g, s.cluster, t.cluster, x, cmd)
  {
    var u := LetsIn(g, s, x, cmd, care);
    t := AppendsHeld(g, u, x, cmd, care);
    BringsOn(g, s, u, t, care);
  }

  function CommandOf(g: Group, client: u64): Command {
    Command(g.gid, client, 0, 0, [], [])
  }

  /** Two entries of one term behind the first log, for different commands. */
  lemma EntriesPart(g: Group, t: Cluster, a: u64, e: LogEntry, b: u64, f: LogEntry)
    requires a in t.nodes && b in t.nodes && Log(t, a) == FirstLog(g) + [e] && Log(t, b) == FirstLog(g) + [f]
    requires e.term == f.term && e.command != f.command
    ensures !AllMatch(t)
  {
    var (mine, other) := (Log(t, a), Log(t, b));
    assert mine[..2][1] == mine[1] == e && other[..2][1] == other[1] == f;
    assert !Matching(mine, other);
  }

  /** Members that append in one term at one index part. */
  lemma AppendsPart(g: Group, s: Cluster, u: Cluster, t: Cluster, a: u64, b: u64)
    requires a in s.nodes && b in s.nodes && a != b && s.nodes[a].r.term == s.nodes[b].r.term
    requires Log(s, a) == FirstLog(g) && Log(s, b) == FirstLog(g)
    requires Appended(g, s, u, a, CommandOf(g, 1)) && Appended(g, u, t, b, CommandOf(g, 2))
    ensures !AllMatch(t)
  {
    EntriesPart(g, t, a, EntryOf(g, s, a, CommandOf(g, 1)), b, EntryOf(g, u, b, CommandOf(g, 2)));
  }

  // ---------- starts ----------

  /** Only the founder may lead, and then in the base term 0. */
  ghost predicate FoundedAt(g: Group, s: Cluster, n: u64) {
    && n in s.nodes && s.nodes[n].r.role != Observer
    && M.LeaderFieldMatchesRole(n, s.nodes[n].r)
    && (s.nodes[n].r.leader == n ==> n == g.founder && s.nodes[n].r.term == 0)
  }

  ghost predicate Founded(g: Group, s: Cluster) {
    forall n {:trigger FoundedAt(g, s, n)} :: n in g.w.members ==> FoundedAt(g, s, n)
  }

  lemma BeganIsStart(g: Group, s: Cluster)
    requires Election.Init(g.w, s) && Began(g.w, s, FirstLog(g)) && Founded(g, s)
    requires g.base == 0 && g.founder in g.w.members
    ensures Start(g, System(s, {}, multiset{}))
  {
    FirstLogIsValid(g);
    assert BeganAt(g.w, s, g.founder, FirstLog(g));
    forall n | n in s.nodes ensures Intact(g.sha1, g.gid, s.nodes[n].r) && Log(s, n) == FirstLog(g) {
      assert BeganAt(g.w, s, n, FirstLog(g));
    }
    forall n | n in s.nodes ensures FoundedAt(g, s, n) {
    }
  }

  lemma BeganArrives(g: Group, s: Cluster, t: System, care: Care)
    requires Election.Init(g.w, s) && Began(g.w, s, FirstLog(g)) && Founded(g, s)
    requires g.base == 0 && g.founder in g.w.members && Brings(g, System(s, {}, multiset{}), t, care)
    ensures Arrives(g, t, care)
  {
    BeganIsStart(g, s);
  }

  lemma FollowersAreFounded(g: Group, s: Cluster)
    requires 0 !in g.w.members && AllFollow(g.w, s)
    ensures Founded(g, s)
  {
    forall n | n in g.w.members ensures FoundedAt(g, s, n) {
      assert Follows(s, n);
    }
  }

  // ---------- two leaders of one term ----------

  lemma LeadersPart(g: Group, s: Cluster, u: Cluster, a: u64, b: u64, care: Care) returns (t: System)
    requires OneGroup(g.w, g.gid, g.sha1) && a in g.w.members && b in g.w.members && a != b
    requires Leads(g.w, s, u, care) && Began(g.w, s, FirstLog(g)) && Rules(u, a) && Rules(u, b)
    ensures Brings(g, System(s, {}, multiset{}), t, care) && !AllMatch(t.cluster)
  {
    assert BeganAt(g.w, s, a, FirstLog(g)) && BeganAt(g.w, s, b, FirstLog(g));
    LeadsLeavesLogs(g.w, s, u, care);
    var s0, s1 := System(s, {}, multiset{}), System(u, {}, multiset{});
    ElectionBrings(g, s0, u, care);
    var s2 := Executes(g, s1, a, CommandOf(g, 1), care);
    t := Executes(g, s2, b, CommandOf(g, 2), care);
    AppendsPart(g, u, s2.cluster, t.cluster, a, b);
    BringsOn(g, s0, s1, s2, care);
    BringsOn(g, s0, s2, t, care);
  }

  lemma TwoLeadersOf(g: Group, care: Care) returns (s: Cluster, u: Cluster, a: u64, b: u64)
    requires 0 !in g.w.members && Wins.Sound(g.w) && |g.w.members| >= 5 && care != ALL
    ensures Election.Init(g.w, s) && Began(g.w, s, FirstLog(g)) && Founded(g, s) && Leads(g.w, s, u, care)
    ensures a in g.w.members && b in g.w.members && a != b && Rules(u, a) && Rules(u, b)
  {
    FirstLogIsValid(g);
    s, u, a, b := TwoLeaders(g.w, care, FirstLog(g));
    FollowersAreFounded(g, s);
  }

  /** Without every care in elections two leaders of one term append different commands at one index. */
  lemma LogsPart(g: Group, care: Care) returns (t: System)
    requires 0 !in g.w.members && Wins.Sound(g.w) && OneGroup(g.w, g.gid, g.sha1)
    requires |g.w.members| >= 5 && care != ALL && g.base == 0 && g.founder in g.w.members
    ensures Arrives(g, t, care) && !AllMatch(t.cluster)
  {
    var s, u, a, b := TwoLeadersOf(g, care);
    t := LeadersPart(g, s, u, a, b, care);
    BeganArrives(g, s, t, care);
  }

  // ---------- a leader that is deposed while a command waits ----------

  lemma EmptyRequestFollows(env: Env, r: Replica, req: AppendRequest, led: Replica)
    requires req.entries == [] && req.leaderId in r.peers && env.hasKey(led.leader)
    requires AcceptLeader(env, r, req) == Some(led)
    ensures AppendEntries(env, r, req).0 == led
  {
  }

  /** A leader sends nothing to members that are on record for all it has. */
  lemma AnnouncementIsEmpty(g: Group, u: Cluster, a: u64, b: u64)
    requires Enabled(g.w, u, Campaign(b, Win)) && a in u.nodes[b].r.peers
    requires u.nodes[b].r.log == FirstLog(g) && u.nodes[b].r.peers[a].nextIndex == 2
    ensures Wins.Announcement(g.w, u, b, a).entries == []
  {
    WinEffect(EnvAt(g.w, b), u.nodes[b].r, ResponsesOf(g.w, u.nodes[b].running.votes));
    assert CountBelow(FirstLog(g), 2) == 1;
  }

  /** What the first request of an elected leader meets at the leader before it. */
  ghost predicate Succeeds(g: Group, u: Cluster, a: u64, b: u64) {
    && a in g.w.members && b in g.w.members && a != b
    && Enabled(g.w, u, Campaign(b, Win)) && a in u.nodes
    && BeganWith(g.w, u.nodes[a].r, FirstLog(g)) && BeganWith(g.w, u.nodes[b].r, FirstLog(g))
    && u.nodes[a].r.leader == a && u.nodes[a].r.term <= u.nodes[b].r.term
  }

  lemma AnnouncementIsAccepted(g: Group, u: Cluster, a: u64, b: u64)
    requires Wins.Sound(g.w) && OneGroup(g.w, g.gid, g.sha1) && Election.Inv(g.w, u) && Succeeds(g, u, a, b)
    ensures a in u.nodes[b].r.peers
    ensures AcceptLeader(EnvAt(g.w, a), u.nodes[a].r, Wins.Announcement(g.w, u, b, a)) ==
            Some(Follow(u.nodes[a].r, b, u.nodes[b].r.term))
  {
    assert u.nodes[a].r.peers.Keys == g.w.members && u.nodes[b].r.peers.Keys == g.w.members;
    Wins.AnnouncementIsFollowed(g.w, u, b, a);
  }

  /** The first request of an elected leader makes a follower of the leader before it. */
  lemma TakesAnnouncement(g: Group, u: Cluster, a: u64, b: u64)
    requires Wins.Sound(g.w) && OneGroup(g.w, g.gid, g.sha1) && Election.Inv(g.w, u) && Succeeds(g, u, a, b)
    ensures a in u.nodes[b].r.peers
    ensures var req := Wins.Announcement(g.w, u, b, a);
            && AppendEntries(EnvAt(g.w, a), u.nodes[a].r, req).0 == Follow(u.nodes[a].r, b, u.nodes[b].r.term)
            && req.entries == [] && req.leaderId == b && req.term == u.nodes[b].r.term
  {
    AnnouncementIsAccepted(g, u, a, b);
    assert Wins.Trusts(g.w, a, b);
    AnnouncementIsEmpty(g, u, a, b);
    Wins.AnnouncementTerm(g.w, u, b, a);
    EmptyRequestFollows(EnvAt(g.w, a), u.nodes[a].r, Wins.Announcement(g.w, u, b, a),
                        Follow(u.nodes[a].r, b, u.nodes[b].r.term));
  }

  /** A founding leader who has let a command in, and a rival of a later term whom everyone else has voted for. */
  ghost predicate Polled(g: Group, u: Cluster, a: u64, b: u64, votes: seq<Grant>) {
    && Election.Inv(g.w, u)
    && a in g.w.members && b in g.w.members && a != b
    && Stands(g.w, u, b, votes) && |votes| >= Quorum.ExpectedPlayers(|g.w.members|)
    && a in u.nodes && u.nodes[a].voting.Idle? && u.nodes[a].running.Resting?
    && u.nodes[a].r.role == Leader && u.nodes[a].r.leader == a
    && u.nodes[a].r.term == 0 && u.nodes[a].r.votedTerm == 3
    && BeganWith(g.w, u.nodes[a].r, FirstLog(g)) && BeganWith(g.w, u.nodes[b].r, FirstLog(g))
    && AllVoted(u, g.w.members - {a, b}, 1)
  }

  lemma LeadsKeepsInv(w: World, s: Cluster, u: Cluster, care: Care)
    requires Election.Init(w, s) && Leads(w, s, u, care)
    ensures Election.Inv(w, u)
  {
    var steps :| Reaches(w, s, steps, u) && CarefulRun(w, s, steps, care) && ElectionOnly(steps);
    Safety.ReachableHasInv(w, s, steps, u);
  }

  lemma StillBegan(w: World, s: Cluster, u: Cluster, x: u64, log: seq<LogEntry>)
    requires Began(w, s, log) && SameLogs(s, u) && x in w.members
    ensures x in s.nodes && x in u.nodes && BeganWith(w, u.nodes[x].r, log)
  {
    assert BeganAt(w, s, x, log);
  }

  /** The others begin as followers of the founder. */
  ghost predicate OthersFollow(g: Group, s: Cluster, a: u64, b: u64) {
    forall x {:trigger Seated(g.w, s, x, FollowerAt(a, 0))} ::
      x in g.w.members - {a, b} ==> Seated(g.w, s, x, FollowerAt(a, 0))
  }

  lemma RivalIsFounded(g: Group, s: Cluster, a: u64, b: u64)
    requires Seated(g.w, s, a, Seat(Leader, a, 0)) && Seated(g.w, s, b, FollowerAt(a, 2)) && a != b && g.founder == a
    requires OthersFollow(g, s, a, b)
    ensures Founded(g, s)
  {
    forall n | n in g.w.members ensures FoundedAt(g, s, n) {
      assert n != a && n != b ==> Seated(g.w, s, n, FollowerAt(a, 0));
    }
  }

  lemma RivalOf(g: Group, a: u64, b: u64, care: Care) returns (s: Cluster, u: Cluster, votes: seq<Grant>)
    requires 0 !in g.w.members && |g.w.members| >= 3 && a in g.w.members && b in g.w.members && a != b && g.founder == a
    ensures Election.Init(g.w, s) && Began(g.w, s, FirstLog(g)) && Founded(g, s) && Leads(g.w, s, u, care)
    ensures Stands(g.w, u, b, votes) && |votes| >= Quorum.ExpectedPlayers(|g.w.members|)
    ensures a in s.nodes && a in u.nodes && s.nodes[a].r.role == Leader && s.nodes[a].r.leader == a
    ensures AtRest(s.nodes[a]) && s.nodes[a].r.term == 0
    ensures u.nodes[a] == s.nodes[a].(r := s.nodes[a].r.(votedTo := b, votedTerm := 3))
    ensures AllVoted(u, g.w.members - {a, b}, 1) && OthersFollow(g, s, a, b)
  {
    FirstLogIsValid(g);
    s := RivalSeated(g.w, a, b, FirstLog(g));
    RivalIsFounded(g, s, a, b);
    u, votes := RivalIsPolled(g.w, s, a, b, care);
  }

  lemma PollsRival(g: Group, a: u64, b: u64, care: Care) returns (s: Cluster, u: Cluster, votes: seq<Grant>)
    requires 0 !in g.w.members && |g.w.members| >= 3 && a in g.w.members && b in g.w.members && a != b && g.founder == a
    ensures Election.Init(g.w, s) && Began(g.w, s, FirstLog(g)) && Founded(g, s) && Leads(g.w, s, u, care)
    ensures Polled(g, u, a, b, votes) && a in s.nodes && s.nodes[a].r.leader == a
    ensures OthersFollow(g, s, a, b) && SameLogs(s, u)
  {
    s, u, votes := RivalOf(g, a, b, care);
    LeadsKeepsInv(g.w, s, u, care);
    LeadsLeavesLogs(g.w, s, u, care);
    StillBegan(g.w, s, u, a, FirstLog(g));
    StillBegan(g.w, s, u, b, FirstLog(g));
  }

  /** The rival wins. */
  lemma RivalWins(g: Group, s: System, a: u64, b: u64, votes: seq<Grant>, care: Care) returns (t: System)
    requires Wins.Sound(g.w) && Polled(g, s.cluster, a, b, votes)
    ensures Brings(g, s, t, care) && Enabled(g.w, s.cluster, Campaign(b, Win))
    ensures t == s.(cluster := Next(g.w, s.cluster, Campaign(b, Win))) && Rules(t.cluster, b)
    ensures a in t.cluster.nodes && t.cluster.nodes[a] == s.cluster.nodes[a]
    ensures t.cluster.nodes[b].r.log == s.cluster.nodes[b].r.log
  {
    var v := Crown(g.w, s.cluster, b, votes, care);
    ElectionBrings(g, s, v, care);
    t := s.(cluster := v);
  }

  /** It says so to the leader before it. */
  lemma RivalAnnounces(g: Group, u: Cluster, s: System, a: u64, b: u64, care: Care) returns (t: System)
    requires OneGroup(g.w, g.gid, g.sha1) && b in g.w.members && b in s.cluster.nodes
    requires Enabled(g.w, u, Campaign(b, Win)) && s.cluster == Next(g.w, u, Campaign(b, Win))
    requires a in u.nodes[b].r.peers
    ensures Brings(g, s, t, care) && t == s.(sent := s.sent + {Wins.Announcement(g.w, u, b, a)})
  {
    WinEffect(EnvAt(g.w, b), u.nodes[b].r, ResponsesOf(g.w, u.nodes[b].running.votes));
    t := OneAct(g, s, Send(EnvAt(g.w, b), b, a), care);
  }

  /** A request without entries that is in the net and turns a leader into a follower does so. */
  lemma LeaderYields(g: Group, s: System, a: u64, b: u64, req: AppendRequest, term: u64, care: Care) returns (t: System)
    requires OneGroup(g.w, g.gid, g.sha1) && a in g.w.members && a in s.cluster.nodes && req in s.sent
    requires s.cluster.nodes[a].voting.Idle? && s.cluster.nodes[a].running.Resting?
    requires s.cluster.nodes[a].r.log == FirstLog(g) && s.cluster.nodes[a].r.votedTerm <= req.term
    requires req.entries == [] && req.leaderId != a
    requires AppendEntries(EnvAt(g.w, a), s.cluster.nodes[a].r, req).0 == Follow(s.cluster.nodes[a].r, b, term)
    ensures Brings(g, s, t, care) && t.sent == s.sent && t.waiting == s.waiting
    ensures t.cluster == s.cluster.(nodes :=
                           s.cluster.nodes[a := s.cluster.nodes[a].(r := Follow(s.cluster.nodes[a].r, b, term))])
  {
    var ev := M.Request(EnvAt(g.w, a), req);
    t := OneAct(g, s, Take(Local(a, ev)), care);
  }

  /** The old leader, now a follower, and the new one stand in one term with one log. */
  lemma LeaderIsDeposed(g: Group, s: System, a: u64, b: u64, votes: seq<Grant>, care: Care) returns (t: System)
    requires Wins.Sound(g.w) && OneGroup(g.w, g.gid, g.sha1) && Polled(g, s.cluster, a, b, votes)
    ensures Brings(g, s, t, care) && t.waiting == s.waiting
    ensures a in t.cluster.nodes && t.cluster.nodes[a].running.Resting? && t.cluster.nodes[a].r.log == FirstLog(g)
    ensures t.cluster.nodes[a].r.term == 3 && t.cluster.nodes[a].r.role == Follower
    ensures Rules(t.cluster, b) && t.cluster.nodes[b].r.log == FirstLog(g)
  {
    var s1 := RivalWins(g, s, a, b, votes, care);
    TakesAnnouncement(g, s.cluster, a, b);
    var s2 := RivalAnnounces(g, s.cluster, s1, a, b, care);
    t := LeaderYields(g, s2, a, b, Wins.Announcement(g.w, s.cluster, b, a), 3, care);
    BringsOn(g, s, s1, s2, care);
    BringsOn(g, s, s2, t, care);
  }

  lemma DeposedAppends(g: Group, s: System, a: u64, b: u64, votes: seq<Grant>, care: Care) returns (t: System)
    requires Wins.Sound(g.w) && OneGroup(g.w, g.gid, g.sha1) && Polled(g, s.cluster, a, b, votes) && !g.kept
    requires Held(a, CommandOf(g, 1)) in s.waiting
    ensures Brings(g, s, t, care) && !AllMatch(t.cluster)
  {
    var s1 := LeaderIsDeposed(g, s, a, b, votes, care);
    var s2 := AppendsHeld(g, s1, a, CommandOf(g, 1), care);
    t := Executes(g, s2, b, CommandOf(g, 2), care);
    AppendsPart(g, s1.cluster, s2.cluster, t.cluster, a, b);
    BringsOn(g, s, s1, s2, care);
    BringsOn(g, s, s2, t, care);
  }

  /**
   Without the test under the lock a command that waits while its leader is deposed is appended in the new leader's
   term, at an index where the new leader appends another. It takes three members, and every care in elections.
   */
  lemma LateAppendParts(g: Group, b: u64, care: Care) returns (t: System)
    requires 0 !in g.w.members && Wins.Sound(g.w) && OneGroup(g.w, g.gid, g.sha1) && |g.w.members| >= 3
    requires g.base == 0 && g.founder in g.w.members && b in g.w.members && b != g.founder && !g.kept
    ensures Arrives(g, t, care) && !AllMatch(t.cluster)
  {
    var a := g.founder;
    var s, u, votes := PollsRival(g, a, b, care);
    var s0 := System(s, {}, multiset{});
    var s1 := LetsIn(g, s0, a, CommandOf(g, 1), care);
    ElectionBrings(g, s1, u, care);
    var s2 := s1.(cluster := u);
    t := DeposedAppends(g, s2, a, b, votes, care);
    BringsOn(g, s0, s1, s2, care);
    BringsOn(g, s0, s2, t, care);
    BeganArrives(g, s, t, care);
  }

  // ---------- exactly when ----------

  lemma MatchUnlessParted(g: Group, t: System, care: Care)
    requires Arrives(g, t, care)
    requires |g.w.members| <= 2 || (g.kept && (care == ALL || |g.w.members| <= 4))
    ensures AllMatch(t.cluster)
  {
    var s :| Start(g, s) && Brings(g, s, t, care);
    var acts :| Runs(g, s, acts, t) && CarefulRun(g.w, s.cluster, Steps(acts), care);
    if |g.w.members| <= 2 {
      OneAppender.PairsMatch(g, s, acts, t);
    } else {
      OneLeaderInRun(g, s, acts, t);
      StartHasInv(g, s);
      RunKeepsInv(g, s, acts, t);
    }
  }

  lemma SomeRunParts(w: World, gid: u64, sha1: Hasher, care: Care, kept: bool) returns (founder: u64, t: System)
    requires 0 !in w.members && Wins.Sound(w) && OneGroup(w, gid, sha1)
    requires |w.members| >= 3 && (!kept || (care != ALL && |w.members| >= 5))
    ensures Arrives(Group(w, gid, sha1, 0, founder, kept), t, care) && !AllMatch(t.cluster)
  {
    var a, b := TwoOf(w.members);
    founder := a;
    if kept {
      t := LogsPart(Group(w, gid, sha1, 0, a, kept), care);
    } else {
      t := LateAppendParts(Group(w, gid, sha1, 0, a, kept), b, care);
    }
  }

  /**
   The logs match by index and term after every run that takes this care in elections, and, if `kept`, appends commands
   only at members that still lead, exactly when the commands are kept so and either every care is taken or the group
   has at most four members, or when it has at most two.
   */
  lemma LogsMatchExactly(w: World, gid: u64, sha1: Hasher, care: Care, kept: bool)
    requires 0 !in w.members && Wins.Sound(w) && OneGroup(w, gid, sha1)
    ensures (forall base: u64, founder: u64, t: System ::
               Arrives(Group(w, gid, sha1, base, founder, kept), t, care) ==> AllMatch(t.cluster))
            <==> |w.members| <= 2 || (kept && (care == ALL || |w.members| <= 4))
  {
    if |w.members| <= 2 || (kept && (care == ALL || |w.members| <= 4)) {
      forall base: u64, founder: u64, t: System | Arrives(Group(w, gid, sha1, base, founder, kept), t, care)
        ensures AllMatch(t.cluster)
      {
        MatchUnlessParted(Group(w, gid, sha1, base, founder, kept), t, care);
      }
    } else {
      var founder, t := SomeRunParts(w, gid, sha1, care, kept);
    }
  }
}
