/**
 Exactly when a group elects leaders and exactly when it elects one per term. Both answers are about every run: a group
 elects when it has at least three members; and unless voters take care of resets, of grants and of overlaps, two
 candidates of one term can both win as soon as there are five members.
 */
module ElectionExact {
  import opened Words
  import opened Messages
  import opened LogChain
  import opened Quorum
  import opened Replica
  import opened Election
  import opened Polls
  import Safety = ElectionSafety
  import opened Wins

  // ---------- starts ----------

  /** How a member begins. */
  datatype Seat = Seat(role: Role, leader: u64, term: u64)

  function StartReplica(members: set<u64>, seat: Seat, log: seq<LogEntry>): (r: Replica)
    ensures |r.peers| == |members|
  {
    var peers := map m | m in members :: Peer(m, 0, 2, 1);
    assert peers.Keys == members && |peers| == |peers.Keys|;
    Replica(seat.term, seat.role, seat.leader, 0, 0, [], map[], peers, log, log)
  }

  /** Everyone with the same log, and recorded to have its first entry. */
  function StartOf(w: World, seats: u64 -> Seat, log: seq<LogEntry>): Cluster {
    Cluster(map n | n in w.members :: Node(StartReplica(w.members, seats(n), log), Idle, Resting), {}, {}, {})
  }

  /** A member with this log, applied, that has every member on record for the first entry. */
  ghost predicate BeganWith(w: World, r: Replica, log: seq<LogEntry>) {
    && r.log == log && r.applied == log
    && (forall m :: m in r.peers <==> m in w.members)
    && forall m :: m in r.peers ==> r.peers[m].nextIndex == 2 && r.peers[m].matchIndex == 1
  }

  ghost predicate BeganAt(w: World, s: Cluster, n: u64, log: seq<LogEntry>) {
    n in s.nodes && BeganWith(w, s.nodes[n].r, log)
  }

  ghost predicate Began(w: World, s: Cluster, log: seq<LogEntry>) {
    forall n {:trigger BeganAt(w, s, n, log)} :: n in w.members ==> BeganAt(w, s, n, log)
  }

  predicate Seated(w: World, s: Cluster, x: u64, seat: Seat) {
    && x in s.nodes && AtRest(s.nodes[x])
    && s.nodes[x].r.role == seat.role && s.nodes[x].r.leader == seat.leader && s.nodes[x].r.term == seat.term
    && s.nodes[x].r.votedTerm == 0 && |s.nodes[x].r.peers| == |w.members|
  }

  /** The group where everyone takes the given seat. */
  ghost predicate AllSeated(w: World, s: Cluster, seats: u64 -> Seat) {
    forall x :: x in w.members ==> Seated(w, s, x, seats(x))
  }

  lemma StartsAt(w: World, seats: u64 -> Seat, log: seq<LogEntry>) returns (s: Cluster)
    requires 0 !in w.members && log != [] && LastIndex(log) == 1
    ensures Init(w, s) && Began(w, s, log) && AllSeated(w, s, seats)
  {
    s := StartOf(w, seats, log);
    forall n | n in w.members ensures BeganAt(w, s, n, log) && Seated(w, s, n, seats(n)) {
      assert s.nodes[n] == Node(StartReplica(w.members, seats(n), log), Idle, Resting);
    }
  }

  function FollowerAt(leader: u64, term: u64): Seat {
    Seat(Follower, leader, term)
  }

  // ---------- candidates ----------

  /** A follower of another member at term 2 becomes a candidate of term 3. */
  lemma StandsUp(w: World, s: Cluster, x: u64, leader: u64, care: Care) returns (t: Cluster)
    requires Seated(w, s, x, FollowerAt(leader, 2)) && leader != x
    ensures Leads(w, s, t, care) && Round(s, t, {x}) && Stands(w, t, x, [])
    ensures t.nodes[x].r == StartCandidacy(s.nodes[x].r)
  {
    t := RunsItself(w, s, x, care);
  }

  /** From term 1 it takes two candidacies, and the request of the first is left behind. */
  lemma StandsUpTwice(w: World, s: Cluster, x: u64, leader: u64, care: Care) returns (t: Cluster, earlier: VoteRequest)
    requires Seated(w, s, x, FollowerAt(leader, 1)) && leader != x
    ensures Leads(w, s, t, care) && Round(s, t, {x}) && Stands(w, t, x, [])
    ensures earlier in t.requests && earlier.term == 2 && earlier.logIndex == 1
  {
    var u := RunsInVain(w, s, x, care);
    earlier := CandidacyRequest(EnvAt(w, x), u.nodes[x].r);
    t := RunsItself(w, u, x, care);
    LeadsOn(w, s, u, t, care);
  }

  /** Leader of term 3, by election. */
  ghost predicate Rules(t: Cluster, x: u64) {
    && x in t.nodes && t.nodes[x].r.role == Leader && t.nodes[x].r.leader == x && t.nodes[x].r.term == 3
    && t.nodes[x].running.Resting?
    && exists reign :: reign in t.reigns && reign.leader == x && reign.term == 3
  }

  lemma CanWin(w: World, s: Cluster, x: u64, votes: seq<Grant>)
    requires Sound(w) && x in w.members && Stands(w, s, x, votes) && |votes| >= ExpectedPlayers(|w.members|)
    ensures Enabled(w, s, Campaign(x, Win))
  {
    SoundVotesCount(w, x, 1, votes);
  }

  lemma Crown(w: World, s: Cluster, x: u64, votes: seq<Grant>, care: Care) returns (t: Cluster)
    requires Sound(w) && x in w.members && Stands(w, s, x, votes) && |votes| >= ExpectedPlayers(|w.members|)
    ensures Enabled(w, s, Campaign(x, Win)) && t == Next(w, s, Campaign(x, Win)) && Leads(w, s, t, care)
    ensures forall y :: y in s.nodes && y != x ==> y in t.nodes && t.nodes[y] == s.nodes[y]
    ensures s.requests <= t.requests && s.reigns <= t.reigns
    ensures Rules(t, x) && t.nodes[x].r.log == s.nodes[x].r.log
  {
    CanWin(w, s, x, votes);
    t := Next(w, s, Campaign(x, Win));
    OneStep(w, s, Campaign(x, Win), care);
    assert ReignOf(x, s.nodes[x]) in t.reigns;
  }

  lemma OthersAreFresh(w: World, s: Cluster, t: Cluster, cs: set<u64>, busy: set<u64>, leader: u64, term: u64)
    requires cs <= w.members - busy && Round(s, t, busy) && term <= 1 && leader !in cs
    requires forall c :: c in cs ==> Seated(w, s, c, FollowerAt(leader, term))
    ensures AllReady(t, cs, First(term))
  {
    forall c | c in cs ensures Ready(t, c, First(term)) {
      assert Seated(w, s, c, FollowerAt(leader, term));
    }
  }

  // ---------- when a group elects ----------

  lemma AllOthersSuffice(members: set<u64>, a: u64)
    requires |members| >= 3 && a in members
    ensures |members - {a}| >= ExpectedPlayers(|members|)
  {
    assert members == (members - {a}) + {a};
    assert |members| == |members - {a}| + |{a}|;
  }

  /** With the votes of all others a candidate wins. */
  lemma IsElected(w: World, s: Cluster, a: u64, care: Care) returns (t: Cluster)
    requires 0 !in w.members && Sound(w) && |w.members| >= 3 && a in w.members && Seated(w, s, a, FollowerAt(0, 2))
    requires forall x :: x in w.members - {a} ==> Seated(w, s, x, FollowerAt(0, 0))
    ensures Leads(w, s, t, care) && t.reigns != {}
  {
    var voters := w.members - {a};
    var s1 := StandsUp(w, s, a, 0, care);
    OthersAreFresh(w, s, s1, voters, {a}, 0, 0);
    AllOthersSuffice(w.members, a);
    var s2, votes := CastVotes(w, s1, a, [], voters, First(0), care);
    LeadsOn(w, s, s1, s2, care);
    t := Crown(w, s2, a, votes, care);
    LeadsOn(w, s, s2, t, care);
  }

  lemma OneSeated(w: World, a: u64) returns (s: Cluster)
    requires 0 !in w.members && a in w.members
    ensures Init(w, s) && Seated(w, s, a, FollowerAt(0, 2))
    ensures forall x :: x in w.members - {a} ==> Seated(w, s, x, FollowerAt(0, 0))
  {
    var seats := (x: u64) => FollowerAt(0, if x == a then 2 else 0);
    s := StartsAt(w, seats, [LogEntry(0, 1, [], Command(0, 0, 0, 0, [], []))]);
    assert Seated(w, s, a, seats(a));
    forall x | x in w.members - {a} ensures Seated(w, s, x, FollowerAt(0, 0)) {
      assert Seated(w, s, x, seats(x));
    }
  }

  /** In a group of three or more, and with every care taken, a member can win. */
  lemma OneLeader(w: World, care: Care) returns (s: Cluster, t: Cluster)
    requires 0 !in w.members && Sound(w) && |w.members| >= 3
    ensures Init(w, s) && Leads(w, s, t, care) && t.reigns != {}
  {
    var a :| a in w.members;
    s := OneSeated(w, a);
    t := IsElected(w, s, a, care);
  }

  /** Someone can be elected, whatever care is taken, exactly when the group has at least three members. */
  lemma ElectsExactly(w: World, care: Care)
    requires 0 !in w.members && Sound(w)
    ensures (exists t :: Reachable(w, t, care) && t.reigns != {}) <==> |w.members| >= 3
  {
    if |w.members| >= 3 {
      var s, t := OneLeader(w, care);
      assert Reachable(w, t, care);
    } else {
      forall t | Reachable(w, t, care) ensures t.reigns == {} {
        var s, steps :| Init(w, s) && Reaches(w, s, steps, t) && CarefulRun(w, s, steps, care);
        Safety.NoElectionBelowThree(w, s, steps, t);
      }
    }
  }

  // ---------- when it elects one per term ----------

  lemma TwoOf(members: set<u64>) returns (a: u64, b: u64)
    requires |members| >= 2
    ensures a in members && b in members && a != b
  {
    var x :| x in members;
    SubsetSize(members, {x} + (members - {x}));
    var y :| y in members - {x};
    a, b := x, y;
  }

  lemma EnoughOthers(members: set<u64>, a: u64, b: u64)
    requires |members| >= 5 && a in members && b in members && a != b
    ensures |members - {a, b}| >= ExpectedPlayers(|members|)
  {
    assert members == (members - {a, b}) + {a, b};
    assert |members| == |members - {a, b}| + |{a, b}|;
  }

  lemma BothWin(w: World, s: Cluster, a: u64, votesA: seq<Grant>, b: u64, votesB: seq<Grant>, care: Care)
      returns (t: Cluster)
    requires Sound(w) && a in w.members && b in w.members && a != b
    requires Stands(w, s, a, votesA) && |votesA| >= ExpectedPlayers(|w.members|)
    requires Stands(w, s, b, votesB) && |votesB| >= ExpectedPlayers(|w.members|)
    ensures Leads(w, s, t, care) && Rules(t, a) && Rules(t, b)
  {
    var u := Crown(w, s, a, votesA, care);
    t := Crown(w, u, b, votesB, care);
    LeadsOn(w, s, u, t, care);
  }

  /** The second way to vote that this care does not exclude. */
  function SecondWay(care: Care, earlier: VoteRequest): How {
    if !care.resets then Again else if !care.grants then Forgetting(earlier) else Overlapping
  }

  /** The term at which voters must begin for it. */
  function FirstTerm(care: Care): u64 {
    if care.resets && care.grants then 1 else 0
  }

  lemma ReadyForSecond(s: Cluster, cs: set<u64>, care: Care, earlier: VoteRequest)
    requires AllVoted(s, cs, FirstTerm(care) + 1) && earlier in s.requests && earlier.term == 2 && earlier.logIndex == 1
    ensures AllReady(s, cs, SecondWay(care, earlier))
  {
  }

  /** All the others vote for `a` in term 3, and then by the second way for `b` in term 3. */
  lemma BothArePolled(w: World, s: Cluster, a: u64, b: u64, voters: set<u64>, earlier: VoteRequest, care: Care)
      returns (t: Cluster)
    requires Sound(w) && a in w.members && b in w.members && a != b && voters <= w.members - {a, b}
    requires Stands(w, s, a, []) && Stands(w, s, b, []) && |voters| >= ExpectedPlayers(|w.members|)
    requires AllReady(s, voters, First(FirstTerm(care))) && care != ALL
    requires earlier in s.requests && earlier.term == 2 && earlier.logIndex == 1
    ensures Leads(w, s, t, care) && Rules(t, a) && Rules(t, b)
  {
    var s2, votesA := CastVotes(w, s, a, [], voters, First(FirstTerm(care)), care);
    assert s2.nodes[b] == s.nodes[b];
    ReadyForSecond(s2, voters, care, earlier);
    var s3, votesB := CastVotes(w, s2, b, [], voters, SecondWay(care, earlier), care);
    assert s3.nodes[a] == s2.nodes[a];
    t := BothWin(w, s3, a, votesA, b, votesB, care);
    LeadsOn(w, s, s2, s3, care);
    LeadsOn(w, s, s3, t, care);
  }

  /** Two candidates of term 3, one of which has also asked for votes in term 2. */
  lemma RivalsStand(w: World, s: Cluster, a: u64, b: u64, care: Care) returns (t: Cluster, earlier: VoteRequest)
    requires a != b && a != 0 && b != 0 && Seated(w, s, a, FollowerAt(0, 1)) && Seated(w, s, b, FollowerAt(0, 2))
    ensures Leads(w, s, t, care) && Round(s, t, {a, b})
    ensures Stands(w, t, a, []) && Stands(w, t, b, [])
    ensures earlier in t.requests && earlier.term == 2 && earlier.logIndex == 1
  {
    var u;
    u, earlier := StandsUpTwice(w, s, a, 0, care);
    assert u.nodes[b] == s.nodes[b];
    t := StandsUp(w, u, b, 0, care);
    assert t.nodes[a] == u.nodes[a];
    LeadsOn(w, s, u, t, care);
  }

  lemma BothAreElected(w: World, s: Cluster, a: u64, b: u64, care: Care) returns (t: Cluster)
    requires 0 !in w.members && Sound(w) && |w.members| >= 5 && care != ALL
    requires a in w.members && b in w.members && a != b
    requires Seated(w, s, a, FollowerAt(0, 1)) && Seated(w, s, b, FollowerAt(0, 2))
    requires forall x :: x in w.members - {a, b} ==> Seated(w, s, x, FollowerAt(0, FirstTerm(care)))
    ensures Leads(w, s, t, care) && Rules(t, a) && Rules(t, b)
  {
    var u, earlier := RivalsStand(w, s, a, b, care);
    OthersAreFresh(w, s, u, w.members - {a, b}, {a, b}, 0, FirstTerm(care));
    EnoughOthers(w.members, a, b);
    t := BothArePolled(w, u, a, b, w.members - {a, b}, earlier, care);
    LeadsOn(w, s, u, t, care);
  }

  predicate Follows(s: Cluster, n: u64) {
    n in s.nodes && s.nodes[n].r.role == Follower && s.nodes[n].r.leader == 0
  }

  /** Everyone is a follower of nobody. */
  ghost predicate AllFollow(w: World, s: Cluster) {
    forall n {:trigger Follows(s, n)} :: n in w.members ==> Follows(s, n)
  }

  lemma TwoSeated(w: World, a: u64, b: u64, term: u64, log: seq<LogEntry>) returns (s: Cluster)
    requires 0 !in w.members && a in w.members && b in w.members && a != b && log != [] && LastIndex(log) == 1
    ensures Init(w, s) && Began(w, s, log)
    ensures Seated(w, s, a, FollowerAt(0, 1)) && Seated(w, s, b, FollowerAt(0, 2))
    ensures forall x :: x in w.members - {a, b} ==> Seated(w, s, x, FollowerAt(0, term))
    ensures AllFollow(w, s)
  {
    var seats := (x: u64) => FollowerAt(0, if x == a then 1 else if x == b then 2 else term);
    s := StartsAt(w, seats, log);
    forall x | x in w.members ensures Seated(w, s, x, seats(x)) {
    }
    assert Seated(w, s, a, seats(a)) && Seated(w, s, b, seats(b));
  }

  /**
   In a group of five or more two members can become leader in one term unless every care is taken. A voter forgets its
   vote by running for leader, or by a vote in an earlier term; or a candidacy in the middle of its checks lets it
   compare an old term with a new record.
   */
  lemma TwoLeaders(w: World, care: Care, log: seq<LogEntry>) returns (s: Cluster, t: Cluster, a: u64, b: u64)
    requires 0 !in w.members && Sound(w) && |w.members| >= 5 && care != ALL && log != [] && LastIndex(log) == 1
    ensures Init(w, s) && Began(w, s, log) && Leads(w, s, t, care)
    ensures AllFollow(w, s)
    ensures a in w.members && b in w.members && a != b && Rules(t, a) && Rules(t, b)
  {
    a, b := TwoOf(w.members);
    s := TwoSeated(w, a, b, FirstTerm(care), log);
    t := BothAreElected(w, s, a, b, care);
  }

  lemma RivalsDiffer(t: Cluster, a: u64, b: u64)
    requires a != b && Rules(t, a) && Rules(t, b)
    ensures !OneLeaderPerTerm(t)
  {
    var one :| one in t.reigns && one.leader == a && one.term == 3;
    var other :| other in t.reigns && other.leader == b && other.term == 3;
  }

  lemma TwoReigns(w: World, care: Care) returns (t: Cluster)
    requires 0 !in w.members && Sound(w) && |w.members| >= 5 && care != ALL
    ensures Reachable(w, t, care) && !OneLeaderPerTerm(t)
  {
    var s, a, b;
    s, t, a, b := TwoLeaders(w, care, [LogEntry(0, 1, [], Command(0, 0, 0, 0, [], []))]);
    RivalsDiffer(t, a, b);
    var steps :| Reaches(w, s, steps, t) && CarefulRun(w, s, steps, care) && ElectionOnly(steps);
  }

  /**
   Every run that takes this care has at most one leader in each term exactly when the care covers resets, grants and
   overlaps, or the group has at most four members.
   */
  lemma OneLeaderExactly(w: World, care: Care)
    requires 0 !in w.members && Sound(w)
    ensures (forall t :: Reachable(w, t, care) ==> OneLeaderPerTerm(t)) <==> care == ALL || |w.members| <= 4
  {
    if care == ALL || |w.members| <= 4 {
      forall t | Reachable(w, t, care) ensures OneLeaderPerTerm(t) {
        var s, steps :| Init(w, s) && Reaches(w, s, steps, t) && CarefulRun(w, s, steps, care);
        if care == ALL {
          Safety.ElectionSafety(w, s, steps, t);
        } else {
          Safety.SmallGroupsAreSafe(w, s, steps, t);
        }
      }
    } else {
      var t := TwoReigns(w, care);
    }
  }

  // ---------- a leader among the voters ----------

  /** A founding leader, a rival two terms ahead, and the others, who all follow the founder. */
  lemma RivalSeated(w: World, a: u64, b: u64, log: seq<LogEntry>) returns (s: Cluster)
    requires 0 !in w.members && a in w.members && b in w.members && a != b && log != [] && LastIndex(log) == 1
    ensures Init(w, s) && Began(w, s, log)
    ensures Seated(w, s, a, Seat(Leader, a, 0)) && Seated(w, s, b, FollowerAt(a, 2))
    ensures forall x :: x in w.members - {a, b} ==> Seated(w, s, x, FollowerAt(a, 0))
  {
    var seats := (x: u64) => if x == a then Seat(Leader, a, 0) else FollowerAt(a, if x == b then 2 else 0);
    s := StartsAt(w, seats, log);
    forall x | x in w.members ensures Seated(w, s, x, seats(x)) {
    }
    assert Seated(w, s, a, seats(a)) && Seated(w, s, b, seats(b));
  }

  lemma OthersAndOne(members: set<u64>, a: u64, b: u64)
    requires |members| >= 3 && a in members && b in members && a != b
    ensures |members - {a, b}| + 1 >= ExpectedPlayers(|members|)
  {
    assert members == (members - {a, b}) + {a, b};
    assert |members| == |members - {a, b}| + |{a, b}|;
  }

  /** The followers vote for the rival. */
  lemma FollowersVote(w: World, s: Cluster, a: u64, b: u64, care: Care) returns (u: Cluster, votes: seq<Grant>)
    requires a in w.members && b in w.members && a != b && a in s.nodes
    requires Seated(w, s, b, FollowerAt(a, 2))
    requires forall x :: x in w.members - {a, b} ==> Seated(w, s, x, FollowerAt(a, 0))
    ensures Leads(w, s, u, care) && Stands(w, u, b, votes) && |votes| == |w.members - {a, b}| && a !in Voters(votes)
    ensures a in u.nodes && u.nodes[a] == s.nodes[a]
    ensures AllVoted(u, w.members - {a, b}, 1)
  {
    var others := w.members - {a, b};
    var s1 := StandsUp(w, s, b, a, care);
    OthersAreFresh(w, s, s1, others, {b}, a, 0);
    u, votes := CastVotes(w, s1, b, [], others, First(0), care);
    LeadsOn(w, s, s1, u, care);
  }

  lemma StillVoted(s: Cluster, t: Cluster, cs: set<u64>, busy: set<u64>, term: int)
    requires AllVoted(s, cs, term) && Round(s, t, busy) && cs !! busy
    ensures AllVoted(t, cs, term)
  {
    forall c | c in cs ensures c in t.nodes && Voted(t.nodes[c], term) {
      assert t.nodes[c] == s.nodes[c];
    }
  }

  /** Everyone else votes for the rival, the leader included, who stays what it is. */
  lemma RivalIsPolled(w: World, s: Cluster, a: u64, b: u64, care: Care) returns (u: Cluster, votes: seq<Grant>)
    requires |w.members| >= 3 && a in w.members && b in w.members && a != b
    requires Seated(w, s, a, Seat(Leader, a, 0)) && Seated(w, s, b, FollowerAt(a, 2))
    requires forall x :: x in w.members - {a, b} ==> Seated(w, s, x, FollowerAt(a, 0))
    ensures Leads(w, s, u, care) && Stands(w, u, b, votes) && |votes| >= ExpectedPlayers(|w.members|)
    ensures a in u.nodes && u.nodes[a] == s.nodes[a].(r := s.nodes[a].r.(votedTo := b, votedTerm := 3))
    ensures AllVoted(u, w.members - {a, b}, 1)
  {
    var v, some := FollowersVote(w, s, a, b, care);
    var g;
    u, g := VoteIsCast(w, v, b, some, a, Leading, care);
    votes := some + [g];
    OthersAndOne(w.members, a, b);
    LeadsOn(w, s, v, u, care);
    StillVoted(v, u, w.members - {a, b}, {a, b}, 1);
  }
}
