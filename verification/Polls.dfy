/** Runs of elections step by step: how a member comes to vote, and how all of them do. */
module Polls {
  import opened Words
  import opened Messages
  import opened LogChain
  import opened Replica
  import opened Election

  // ---------- runs, without naming their steps ----------

  ghost predicate ElectionOnly(steps: seq<Step>) {
    forall i :: 0 <= i < |steps| ==> !steps[i].Local?
  }

  /** A run of election steps alone. */
  ghost predicate Leads(w: World, s: Cluster, t: Cluster, care: Care) {
    exists steps :: Reaches(w, s, steps, t) && CarefulRun(w, s, steps, care) && ElectionOnly(steps)
  }

  /** Any run that takes the care. */
  ghost predicate Reachable(w: World, t: Cluster, care: Care) {
    exists s, steps :: Init(w, s) && Reaches(w, s, steps, t) && CarefulRun(w, s, steps, care)
  }

  lemma Stay(w: World, s: Cluster, care: Care)
    ensures Leads(w, s, s, care)
  {
    assert Reaches(w, s, [], s) && CarefulRun(w, s, [], care) && ElectionOnly([]);
  }

  lemma OneStep(w: World, s: Cluster, step: Step, care: Care)
    requires Enabled(w, s, step) && Careful(s, step, care) && !step.Local?
    ensures Leads(w, s, Next(w, s, step), care)
  {
    var t := Next(w, s, step);
    assert Reaches(w, t, [], t) && CarefulRun(w, t, [], care);
    assert [step][1..] == [];
    assert Reaches(w, s, [step], t) && CarefulRun(w, s, [step], care) && ElectionOnly([step]);
  }

  lemma {:induction false} ReachesThrough(w: World, s: Cluster, first: seq<Step>, u: Cluster,
                                          rest: seq<Step>, t: Cluster)
    requires Reaches(w, s, first, u) && Reaches(w, u, rest, t)
    ensures Reaches(w, s, first + rest, t)
    decreases |first|
  {
    if first == [] {
      assert first + rest == rest;
    } else {
      assert (first + rest)[0] == first[0] && (first + rest)[1..] == first[1..] + rest;
      ReachesThrough(w, Next(w, s, first[0]), first[1..], u, rest, t);
    }
  }

  lemma {:induction false} CarefulThrough(w: World, s: Cluster, first: seq<Step>, u: Cluster,
                                          rest: seq<Step>, care: Care)
    requires Reaches(w, s, first, u) && CarefulRun(w, s, first, care) && CarefulRun(w, u, rest, care)
    ensures CarefulRun(w, s, first + rest, care)
    decreases |first|
  {
    if first == [] {
      assert first + rest == rest;
    } else {
      assert (first + rest)[0] == first[0] && (first + rest)[1..] == first[1..] + rest;
      CarefulThrough(w, Next(w, s, first[0]), first[1..], u, rest, care);
    }
  }

  lemma LeadsOn(w: World, s: Cluster, u: Cluster, t: Cluster, care: Care)
    requires Leads(w, s, u, care) && Leads(w, u, t, care)
    ensures Leads(w, s, t, care)
  {
    var first :| Reaches(w, s, first, u) && CarefulRun(w, s, first, care) && ElectionOnly(first);
    var rest :| Reaches(w, u, rest, t) && CarefulRun(w, u, rest, care) && ElectionOnly(rest);
    ReachesThrough(w, s, first, u, rest, t);
    CarefulThrough(w, s, first, u, rest, care);
    assert ElectionOnly(first + rest);
  }

  // ---------- single steps ----------

  /** What a step leaves as it was. */
  ghost predicate Round(s: Cluster, t: Cluster, busy: set<u64>) {
    && t.nodes.Keys == s.nodes.Keys && t.reigns == s.reigns && s.requests <= t.requests
    && forall y :: y in s.nodes && y !in busy ==> t.nodes[y] == s.nodes[y]
  }

  lemma Votes(w: World, s: Cluster, c: u64, act: VoterAct, care: Care) returns (t: Cluster)
    requires Enabled(w, s, Ballot(c, act)) && Careful(s, Ballot(c, act), care)
    ensures Leads(w, s, t, care) && Round(s, t, {c}) && t.requests == s.requests
    ensures t.nodes[c] == VoterAfter(s, s.nodes[c], act) && t.grants == s.grants + GrantsAfter(s, c, s.nodes[c], act)
  {
    t := Next(w, s, Ballot(c, act));
    OneStep(w, s, Ballot(c, act), care);
  }

  lemma Campaigns(w: World, s: Cluster, c: u64, act: CandidateAct, care: Care) returns (t: Cluster)
    requires Enabled(w, s, Campaign(c, act)) && Careful(s, Campaign(c, act), care) && !act.Win?
    ensures Leads(w, s, t, care) && Round(s, t, {c}) && t.grants == s.grants
    ensures t.nodes[c] == CandidateAfter(w, s, c, s.nodes[c], act)
    ensures t.requests == s.requests + RequestsAfter(w, c, s.nodes[c], act)
  {
    t := Next(w, s, Campaign(c, act));
    OneStep(w, s, Campaign(c, act), care);
  }

  // ---------- a candidacy ----------

  predicate MayRun(node: Node, c: u64) {
    && node.running.Resting? && node.r.term < MAX_U64
    && (node.r.role == Candidate || (node.r.role == Follower && node.r.leader != c))
  }

  /** Role and term. */
  lemma Rises(w: World, s: Cluster, c: u64, care: Care) returns (t: Cluster)
    requires c in s.nodes && MayRun(s.nodes[c], c)
    requires care.overlaps ==> !Deciding(s.nodes[c])
    ensures Leads(w, s, t, care) && Round(s, t, {c}) && t.grants == s.grants
    ensures var node := s.nodes[c];
            t.nodes[c] == node.(r := node.r.(role := Candidate, term := node.r.term + 1, votes := []),
                                running := Bumped)
  {
    var u := Campaigns(w, s, c, Turn, care);
    t := Campaigns(w, u, c, Bump, care);
    LeadsOn(w, s, u, t, care);
  }

  /** The vote record and the request. */
  lemma Asks(w: World, s: Cluster, c: u64, care: Care) returns (t: Cluster)
    requires c in s.nodes && s.nodes[c].running.Bumped?
    requires care.resets ==> s.nodes[c].r.votedTerm <= s.nodes[c].r.term
    ensures Leads(w, s, t, care) && Round(s, t, {c}) && t.grants == s.grants
    ensures var r := s.nodes[c].r;
            t.nodes[c] == s.nodes[c].(r := r.(votedTerm := 0, votedTo := 0,
                                              sendVotes := MarkAll(r.sendVotes, r.peers.Keys)),
                                      running := Collecting([]))
    ensures CandidacyRequest(EnvAt(w, c), t.nodes[c].r) in t.requests
  {
    var u := Campaigns(w, s, c, ClearTerm, care);
    t := Campaigns(w, u, c, Ask, care);
    LeadsOn(w, s, u, t, care);
  }

  /** The member's own candidacy, which clears its vote record. */
  lemma RunsItself(w: World, s: Cluster, c: u64, care: Care) returns (t: Cluster)
    requires c in s.nodes && MayRun(s.nodes[c], c)
    requires care.resets ==> s.nodes[c].r.votedTerm <= s.nodes[c].r.term + 1
    requires care.overlaps ==> !Deciding(s.nodes[c])
    ensures Leads(w, s, t, care) && Round(s, t, {c}) && t.grants == s.grants
    ensures t.nodes[c] == s.nodes[c].(r := StartCandidacy(s.nodes[c].r), running := Collecting([]))
    ensures CandidacyRequest(EnvAt(w, c), t.nodes[c].r) in t.requests
  {
    var u := Rises(w, s, c, care);
    t := Asks(w, u, c, care);
    LeadsOn(w, s, u, t, care);
  }

  /** A candidacy without votes leaves a candidate whose vote record is clear. */
  lemma RunsInVain(w: World, s: Cluster, c: u64, care: Care) returns (t: Cluster)
    requires c in s.nodes && MayRun(s.nodes[c], c)
    requires care.resets ==> s.nodes[c].r.votedTerm <= s.nodes[c].r.term + 1
    requires care.overlaps ==> !Deciding(s.nodes[c])
    ensures Leads(w, s, t, care) && Round(s, t, {c}) && t.grants == s.grants
    ensures t.nodes[c] == s.nodes[c].(r := StartCandidacy(s.nodes[c].r))
    ensures CandidacyRequest(EnvAt(w, c), t.nodes[c].r) in t.requests
  {
    var u := RunsItself(w, s, c, care);
    t := Campaigns(w, u, c, GiveUp, care);
    LeadsOn(w, s, u, t, care);
  }

  // ---------- a vote ----------

  /** Last index, checks, wait and record of a request whose term has been compared with one read before. */
  lemma Concludes(w: World, s: Cluster, c: u64, req: VoteRequest, care: Care) returns (t: Cluster, g: Grant)
    requires c in s.nodes && s.nodes[c].voting.Looked? && s.nodes[c].voting.req == req && !Resetting(s.nodes[c])
    requires s.nodes[c].r.role != Follower && s.nodes[c].r.log != []
    requires var r := s.nodes[c].r;
             Judge(s.nodes[c].voting.term, LastIndex(r.log), r.votedTerm, r.votedTo, req) == Waiting
    requires care.grants ==> s.nodes[c].r.votedTerm <= req.term
    ensures Leads(w, s, t, care) && Round(s, t, {c}) && t.grants == s.grants + {g} && t.requests == s.requests
    ensures g.voter == c && g.req == req && g.logIndex == LastIndex(s.nodes[c].r.log)
    ensures t.nodes[c] == s.nodes[c].(r := RecordVote(s.nodes[c].r, req), voting := Idle)
  {
    var s1 := Votes(w, s, c, ReadLog, care);
    var s2 := Votes(w, s1, c, Check, care);
    var s3 := Votes(w, s2, c, Mark, care);
    t := Votes(w, s3, c, Give, care);
    g := GrantOf(c, s3.nodes[c].voting.p);
    LeadsOn(w, s, s1, s2, care);
    LeadsOn(w, s, s2, s3, care);
    LeadsOn(w, s, s3, t, care);
  }

  /** A member that is no follower grants at once what passes its checks. */
  lemma Decides(w: World, s: Cluster, c: u64, req: VoteRequest, care: Care) returns (t: Cluster, g: Grant)
    requires c in s.nodes && s.nodes[c].voting.Idle? && !Resetting(s.nodes[c]) && s.nodes[c].r.role != Follower
    requires req in s.requests && CheckVote(s.nodes[c].r, req) == Waiting
    requires care.grants ==> s.nodes[c].r.votedTerm <= req.term
    ensures Leads(w, s, t, care) && Round(s, t, {c}) && t.grants == s.grants + {g} && t.requests == s.requests
    ensures g.voter == c && g.req == req && g.logIndex == LastIndex(s.nodes[c].r.log)
    ensures t.nodes[c] == s.nodes[c].(r := RecordVote(s.nodes[c].r, req))
  {
    var u := Votes(w, s, c, Look(req), care);
    t, g := Concludes(w, u, c, req, care);
    LeadsOn(w, s, u, t, care);
  }

  // ---------- one voter's round ----------

  predicate AtRest(node: Node) {
    node.voting.Idle? && node.running.Resting? && node.r.log != [] && LastIndex(node.r.log) == 1
  }

  /** A member that has not voted and can run for leader. */
  predicate Fresh(node: Node, c: u64, term: u64) {
    && AtRest(node) && node.r.term == term && node.r.votedTerm == 0
    && node.r.role == Follower && node.r.leader != c
  }

  /** A member that has voted in term 3 and given its own candidacy up. */
  predicate Voted(node: Node, term: int) {
    AtRest(node) && node.r.term == term && node.r.votedTerm == 3 && node.r.role == Candidate
  }

  /**
   How a voter comes to a vote in term 3: by a candidacy of its own first, by another one after such a vote, by a vote
   for an earlier request after it, by a candidacy in the middle of the checks, or as a leader of a lower term.
   */
  datatype How = First(term: u64) | Again | Forgetting(earlier: VoteRequest) | Overlapping | Leading

  predicate Ready(s: Cluster, c: u64, how: How) {
    && c in s.nodes
    && match how
       case First(term) => term <= 1 && Fresh(s.nodes[c], c, term)
       case Again => Voted(s.nodes[c], 1)
       case Forgetting(earlier) =>
         Voted(s.nodes[c], 1) && earlier in s.requests && earlier.term == 2 && earlier.logIndex == 1
       case Overlapping => Voted(s.nodes[c], 2)
       case Leading =>
         AtRest(s.nodes[c]) && s.nodes[c].r.role == Leader && s.nodes[c].r.term == 0 && s.nodes[c].r.votedTerm == 0
  }

  /** The care that a voter can still take. */
  predicate Allows(how: How, care: Care) {
    match how
    case First(_) => true
    case Again => !care.resets
    case Forgetting(_) => !care.grants
    case Overlapping => !care.overlaps
    case Leading => true
  }

  /** A request of term 3 that this voter may grant. */
  predicate Votable(s: Cluster, req: VoteRequest) {
    req in s.requests && req.term == 3 && req.logIndex == 1
  }

  /** A candidacy below the requested term leaves a record that no vote stands on. */
  lemma CandidacyAllows(r: Replica, req: VoteRequest)
    requires r.log != [] && LastIndex(r.log) == 1 && r.term <= 1 && req.term == 3 && req.logIndex == 1
    ensures var r' := StartCandidacy(r);
            && CheckVote(r', req) == Waiting
            && r'.role == Candidate && r'.term == r.term + 1 && r'.votedTerm == 0 && r'.log == r.log
  {
  }

  lemma VotesAfterCandidacy(w: World, s: Cluster, c: u64, req: VoteRequest, care: Care) returns (t: Cluster, g: Grant)
    requires c in s.nodes && AtRest(s.nodes[c]) && MayRun(s.nodes[c], c) && s.nodes[c].r.term <= 1 && Votable(s, req)
    requires care.resets ==> s.nodes[c].r.votedTerm <= s.nodes[c].r.term + 1
    ensures Leads(w, s, t, care) && Round(s, t, {c}) && g in t.grants
    ensures g.voter == c && g.req == req && g.logIndex == 1
    ensures Voted(t.nodes[c], s.nodes[c].r.term + 1) && t.nodes[c].r.log == s.nodes[c].r.log
  {
    CandidacyAllows(s.nodes[c].r, req);
    var u := RunsInVain(w, s, c, care);
    t, g := Decides(w, u, c, req, care);
    LeadsOn(w, s, u, t, care);
  }

  lemma VotesAfterForgetting(w: World, s: Cluster, c: u64, earlier: VoteRequest, req: VoteRequest, care: Care)
      returns (t: Cluster, g: Grant)
    requires Ready(s, c, Forgetting(earlier)) && !care.grants && Votable(s, req)
    ensures Leads(w, s, t, care) && Round(s, t, {c}) && g in t.grants
    ensures g.voter == c && g.req == req && g.logIndex == 1
  {
    var u, other := Decides(w, s, c, earlier, care);
    t, g := Decides(w, u, c, req, care);
    LeadsOn(w, s, u, t, care);
  }

  /** The term is read, a candidacy clears the record, and the checks compare the two. */
  lemma VotesAcrossCandidacy(w: World, s: Cluster, c: u64, req: VoteRequest, care: Care) returns (t: Cluster, g: Grant)
    requires Ready(s, c, Overlapping) && !care.overlaps && Votable(s, req)
    ensures Leads(w, s, t, care) && Round(s, t, {c}) && g in t.grants
    ensures g.voter == c && g.req == req && g.logIndex == 1
  {
    var s1 := Votes(w, s, c, Look(req), care);
    var s2 := RunsInVain(w, s1, c, care);
    t, g := Concludes(w, s2, c, req, care);
    LeadsOn(w, s, s1, s2, care);
    LeadsOn(w, s, s2, t, care);
  }

  lemma VotesAsLeader(w: World, s: Cluster, c: u64, req: VoteRequest, care: Care) returns (t: Cluster, g: Grant)
    requires Ready(s, c, Leading) && Votable(s, req)
    ensures Leads(w, s, t, care) && Round(s, t, {c}) && g in t.grants
    ensures g.voter == c && g.req == req && g.logIndex == 1
    ensures t.nodes[c] == s.nodes[c].(r := RecordVote(s.nodes[c].r, req))
  {
    t, g := Decides(w, s, c, req, care);
  }

  /** The voter votes in term 3, in any way that its care allows. */
  lemma CastsVote(w: World, s: Cluster, c: u64, req: VoteRequest, how: How, care: Care) returns (t: Cluster, g: Grant)
    requires Ready(s, c, how) && Allows(how, care) && Votable(s, req)
    ensures Leads(w, s, t, care) && Round(s, t, {c}) && g in t.grants
    ensures g.voter == c && g.req == req && g.logIndex == 1
    ensures how.First? ==> Voted(t.nodes[c], how.term + 1)
    ensures how.Leading? ==> t.nodes[c] == s.nodes[c].(r := RecordVote(s.nodes[c].r, req))
  {
    match how
    case First(_) => t, g := VotesAfterCandidacy(w, s, c, req, care);
    case Again => t, g := VotesAfterCandidacy(w, s, c, req, care);
    case Forgetting(earlier) => t, g := VotesAfterForgetting(w, s, c, earlier, req, care);
    case Overlapping => t, g := VotesAcrossCandidacy(w, s, c, req, care);
    case Leading => t, g := VotesAsLeader(w, s, c, req, care);
  }

  // ---------- the candidate's side ----------

  /** A candidate of term 3 that has collected `votes`. */
  predicate Stands(w: World, s: Cluster, x: u64, votes: seq<Grant>) {
    && x in s.nodes && s.nodes[x].running == Collecting(votes)
    && s.nodes[x].r.role == Candidate && s.nodes[x].r.term == 3
    && s.nodes[x].r.log != [] && LastIndex(s.nodes[x].r.log) == 1
    && |s.nodes[x].r.peers| == |w.members|
    && CandidacyRequest(EnvAt(w, x), s.nodes[x].r) in s.requests
    && (forall g :: g in votes ==> g.voter in w.members && g.logIndex <= 1)
  }

  /** The voter votes for `x`, and `x` counts it. */
  lemma VoteIsCast(w: World, s: Cluster, x: u64, votes: seq<Grant>, c: u64, how: How, care: Care)
      returns (t: Cluster, g: Grant)
    requires Ready(s, c, how) && Allows(how, care)
    requires Stands(w, s, x, votes) && c in w.members && c != x && c !in Voters(votes)
    ensures Leads(w, s, t, care) && Round(s, t, {c, x})
    ensures Stands(w, t, x, votes + [g]) && g.voter == c
    ensures how.First? ==> Voted(t.nodes[c], how.term + 1)
    ensures how.Leading? ==>
              t.nodes[c] == s.nodes[c].(r := RecordVote(s.nodes[c].r, CandidacyRequest(EnvAt(w, x), s.nodes[x].r)))
  {
    var req := CandidacyRequest(EnvAt(w, x), s.nodes[x].r);
    var u;
    u, g := CastsVote(w, s, c, req, how, care);
    assert u.nodes[x] == s.nodes[x];
    t := Campaigns(w, u, x, Collect(g), care);
    assert t.nodes[c] == u.nodes[c];
    LeadsOn(w, s, u, t, care);
  }

  // ---------- all voters ----------

  ghost predicate AllReady(s: Cluster, cs: set<u64>, how: How)
    ensures AllReady(s, cs, how) ==> cs <= s.nodes.Keys
  {
    forall c :: c in cs ==> Ready(s, c, how)
  }

  ghost predicate AllVoted(s: Cluster, cs: set<u64>, term: int) {
    forall c :: c in cs ==> c in s.nodes && Voted(s.nodes[c], term)
  }

  lemma ReadyStays(s: Cluster, t: Cluster, c: u64, how: How)
    requires Ready(s, c, how) && c in t.nodes && t.nodes[c] == s.nodes[c] && s.requests <= t.requests
    ensures Ready(t, c, how)
  {
  }

  /** One voter takes part; the others that were ready still are. */
  lemma OneOfMany(w: World, s: Cluster, x: u64, votes: seq<Grant>, cs: set<u64>, c: u64, how: How, care: Care)
      returns (u: Cluster, g: Grant)
    requires Stands(w, s, x, votes) && cs <= w.members - {x} && cs !! Voters(votes) && c in cs
    requires AllReady(s, cs, how) && Allows(how, care)
    ensures Leads(w, s, u, care) && Round(s, u, {c, x}) && Stands(w, u, x, votes + [g])
    ensures Voters(votes + [g]) == Voters(votes) + {c}
    ensures cs - {c} !! Voters(votes + [g]) && AllReady(u, cs - {c}, how)
    ensures how.First? ==> Voted(u.nodes[c], how.term + 1)
  {
    assert Ready(s, c, how);
    u, g := VoteIsCast(w, s, x, votes, c, how, care);
    assert Voters(votes + [g]) == Voters(votes) + {c};
    forall d | d in cs - {c} ensures Ready(u, d, how) {
      assert Ready(s, d, how);
      ReadyStays(s, u, d, how);
    }
  }

  lemma RoundsCompose(s: Cluster, u: Cluster, t: Cluster, c: u64, x: u64, cs: set<u64>)
    requires c in cs && Round(s, u, {c, x}) && Round(u, t, cs - {c} + {x})
    ensures Round(s, t, cs + {x})
    ensures c in s.nodes && c != x ==> t.nodes[c] == u.nodes[c]
  {
  }

  lemma AllButOneVoted(u: Cluster, t: Cluster, cs: set<u64>, c: u64, term: int)
    requires c in u.nodes && Voted(u.nodes[c], term) && c in t.nodes && t.nodes[c] == u.nodes[c]
    requires AllVoted(t, cs - {c}, term)
    ensures AllVoted(t, cs, term)
  {
    forall d | d in cs ensures d in t.nodes && Voted(t.nodes[d], term) {
      assert d != c ==> d in cs - {c};
    }
  }

  /** All of `cs` vote for `x`. */
  lemma {:induction false} CastVotes(w: World, s: Cluster, x: u64, votes: seq<Grant>, cs: set<u64>, how: How,
                                     care: Care)
      returns (t: Cluster, all: seq<Grant>)
    requires Stands(w, s, x, votes) && cs <= w.members - {x} && cs !! Voters(votes)
    requires AllReady(s, cs, how) && Allows(how, care)
    ensures Leads(w, s, t, care) && Round(s, t, cs + {x})
    ensures Stands(w, t, x, all) && |all| == |votes| + |cs| && Voters(all) <= Voters(votes) + cs
    ensures how.First? ==> AllVoted(t, cs, how.term + 1)
    decreases |cs|
  {
    if cs == {} {
      t, all := s, votes;
      Stay(w, s, care);
    } else {
      var c :| c in cs;
      var u, g := OneOfMany(w, s, x, votes, cs, c, how, care);
      t, all := CastVotes(w, u, x, votes + [g], cs - {c}, how, care);
      RoundsCompose(s, u, t, c, x, cs);
      LeadsOn(w, s, u, t, care);
      if how.First? {
        AllButOneVoted(u, t, cs, c, how.term + 1);
      }
    }
  }
}
