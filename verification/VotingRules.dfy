/**
 The voting operations of one member, said of its state and the messages alone: when a request is granted, which answers
 a candidate counts, when a claim of leadership convinces, and what each changes.
 */
module VotingRules {
  import opened Words
  import opened Messages
  import opened SignText
  import opened LogChain
  import opened Quorum
  import opened Replica

  // ---------- terms and roles ----------

  /** Every peer is marked for votes, and no other mark changes. */
  ghost predicate AllMarked(before: map<u64, bool>, after: map<u64, bool>, ids: set<u64>) {
    && after.Keys == before.Keys + ids
    && (forall id :: id in ids ==> after[id])
    && (forall id :: id in before && id !in ids ==> after[id] == before[id])
  }

  lemma ResetMeans(r: Replica, term: u64)
    ensures var r' := ResetTerm(r, term);
            && r' == r.(term := term, votes := [], votedTerm := 0, votedTo := 0, sendVotes := r'.sendVotes)
            && AllMarked(r.sendVotes, r'.sendVotes, r.peers.Keys)
  {
  }

  lemma CandidacyMeans(r: Replica)
    ensures var r' := StartCandidacy(r);
            && r' == r.(role := Candidate, term := if r.term == 0xFFFF_FFFF_FFFF_FFFF then 0 else r.term + 1,
                        votes := [], votedTerm := 0, votedTo := 0, sendVotes := r'.sendVotes)
            && AllMarked(r.sendVotes, r'.sendVotes, r.peers.Keys)
  {
  }

  lemma FollowMeans(r: Replica, leader: u64, term: u64)
    ensures var r' := Follow(r, leader, term);
            && r' == r.(role := Follower, leader := leader, term := term, votes := [], votedTerm := 0, votedTo := 0,
                        sendVotes := r'.sendVotes)
            && AllMarked(r.sendVotes, r'.sendVotes, r.peers.Keys)
  {
  }

  /** The timer acts on the role alone, except at a follower of itself. */
  lemma TimerMeans(env: Env, r: Replica)
    ensures TimerTick(env, r) == RunForLeader <==>
            r.role == Candidate || (r.role == Follower && r.leader != env.self)
    ensures TimerTick(env, r) == Panic <==> r.role == Follower && r.leader == env.self
    ensures TimerTick(env, r) == Heartbeat <==> r.role == Leader
    ensures TimerTick(env, r) == PullLogs <==> r.role == Observer
  {
  }

  // ---------- requests and answers ----------

  /** A candidacy asks in its own name, group and term, with the last entry of its log. */
  lemma RequestMeans(env: Env, r: Replica)
    ensures var req := CandidacyRequest(env, r);
            && req.group == env.gid && req.term == r.term && req.candidateId == env.self
            && (r.log == [] ==> req.logIndex == 0 && req.logTerm == 0)
            && (r.log != [] ==> req.logIndex == r.log[|r.log| - 1].index && req.logTerm == r.log[|r.log| - 1].term)
  {
  }

  /** An answer carries the term and last index that the voter read, and is signed by it as it stands. */
  lemma AnswerMeans(env: Env, term: u64, logIndex: u64, req: VoteRequest, granted: bool)
    ensures var vote := VoteOn(env, term, logIndex, req, granted);
            && vote.group == env.gid && vote.term == term && vote.logIndex == logIndex
            && vote.candidateId == req.candidateId && vote.voter == env.self && vote.granted == granted
            && vote.signature == env.sign(VoteText(vote))
  {
    var vote := VoteOn(env, term, logIndex, req, granted);
    assert VoteText(vote) == VoteText(vote.(signature := []));
  }

  /** What a voter has read passes the checks exactly here; the term may be raised by 20 at most. */
  lemma JudgedExactly(term: u64, logIndex: u64, votedTerm: u64, votedTo: u64, req: VoteRequest)
    ensures Judge(term, logIndex, votedTerm, votedTo, req) ==
            if && term < req.term <= term + 20 && logIndex <= req.logIndex
               && (req.term != votedTerm || votedTo == 0 || votedTo == req.candidateId)
            then Waiting else Refused
  {
  }

  /** A request waits for its vote exactly here, and is refused otherwise, when nothing comes between the checks. */
  lemma RequestWaitsExactly(r: Replica, req: VoteRequest)
    ensures r.log == [] <==> CheckVote(r, req) == Crash
    ensures r.log != [] ==>
              (CheckVote(r, req) == Waiting <==>
                 && r.term < req.term <= r.term + 20 && r.log[|r.log| - 1].index <= req.logIndex
                 && (req.term != r.votedTerm || r.votedTo == 0 || r.votedTo == req.candidateId))
    ensures r.log != [] && CheckVote(r, req) != Waiting ==> CheckVote(r, req) == Refused
  {
    JudgedExactly(r.term, LastIndex(r.log), r.votedTerm, r.votedTo, req);
  }

  /** A grant puts candidate and requested term on record, and nothing else changes. */
  lemma GrantMeans(r: Replica, req: VoteRequest)
    ensures RecordVote(r, req) == r.(votedTo := req.candidateId, votedTerm := req.term)
  {
  }

  // ---------- counting ----------

  predicate CountsAt(env: Env, lastIndex: u64, responses: seq<Response>, i: nat) {
    i < |responses| && Countable(env, lastIndex, responses[i].asked, responses[i].vote)
  }

  function Positions(env: Env, lastIndex: u64, responses: seq<Response>): (ix: seq<nat>)
    ensures forall a :: 0 <= a < |ix| ==> ix[a] < |responses|
    ensures forall a, b :: 0 <= a < b < |ix| ==> ix[a] < ix[b]
  {
    if responses == [] then []
    else
      var n := |responses| - 1;
      Positions(env, lastIndex, responses[..n]) + if CountsAt(env, lastIndex, responses, n) then [n] else []
  }

  lemma {:induction false} PositionsCount(env: Env, lastIndex: u64, responses: seq<Response>, i: nat)
    ensures i in Positions(env, lastIndex, responses) <==> CountsAt(env, lastIndex, responses, i)
    decreases |responses|
  {
    if responses != [] {
      var n := |responses| - 1;
      PositionsCount(env, lastIndex, responses[..n], i);
      if i < n {
        assert responses[..n][i] == responses[i];
      }
    }
  }

  lemma {:induction false} PositionsGiveVotes(env: Env, lastIndex: u64, responses: seq<Response>)
    ensures |CountedVotes(env, lastIndex, responses)| == |Positions(env, lastIndex, responses)|
    ensures forall a :: 0 <= a < |Positions(env, lastIndex, responses)| ==>
              var i := Positions(env, lastIndex, responses)[a];
              i < |responses| && CountedVotes(env, lastIndex, responses)[a] == responses[i].vote
    decreases |responses|
  {
    if responses != [] {
      var n := |responses| - 1;
      PositionsGiveVotes(env, lastIndex, responses[..n]);
    }
  }

  /** The indexes of the answers that count, in order, and the votes that are counted for them. */
  lemma CountedAnswers(env: Env, lastIndex: u64, responses: seq<Response>) returns (ix: seq<nat>)
    ensures forall a, b :: 0 <= a < b < |ix| ==> ix[a] < ix[b]
    ensures forall i: nat :: i in ix <==>
              && i < |responses| && responses[i].vote.granted && responses[i].vote.logIndex <= lastIndex
              && env.verify(responses[i].asked, responses[i].vote.signature, VoteText(responses[i].vote))
    ensures |CountedVotes(env, lastIndex, responses)| == |ix|
    ensures forall a :: 0 <= a < |ix| ==>
              ix[a] < |responses| && CountedVotes(env, lastIndex, responses)[a] == responses[ix[a]].vote
  {
    ix := Positions(env, lastIndex, responses);
    PositionsGiveVotes(env, lastIndex, responses);
    forall i: nat ensures i in ix <==> CountsAt(env, lastIndex, responses, i) {
      PositionsCount(env, lastIndex, responses, i);
    }
  }

  /** The elements of a strictly ascending sequence are as many as it is long. */
  lemma {:induction false} AscendingCount(ix: seq<nat>, s: set<nat>)
    requires forall a, b :: 0 <= a < b < |ix| ==> ix[a] < ix[b]
    requires forall i: nat :: i in s <==> i in ix
    ensures |s| == |ix|
    decreases |ix|
  {
    if ix == [] {
      assert s == {};
    } else {
      var n := |ix| - 1;
      var before := ix[..n];
      assert ix == before + [ix[n]];
      assert ix[n] !in before;
      AscendingCount(before, s - {ix[n]});
    }
  }

  /**
   A candidate becomes leader exactly when more than half of its group has answered with grants that the hosts asked
   have signed, from logs that are not longer than its own. Refusals and unsigned answers never count.
   */
  lemma CandidacyDecidedExactly(env: Env, r: Replica, responses: seq<Response>)
    ensures var good := set i: nat |
                          && i < |responses| && responses[i].vote.granted
                          && responses[i].vote.logIndex <= LastIndex(r.log)
                          && env.verify(responses[i].asked, responses[i].vote.signature, VoteText(responses[i].vote));
            var won := r.role == Candidate && |good| >= |r.peers| / 2 + 1;
            var r' := FinishCandidacy(env, r, responses);
            && r' == r.(votes := r'.votes, role := if won then Leader else r.role,
                        leader := if won then env.self else r.leader)
            && (|good| < |r.peers| / 2 + 1 ==> r'.votes == r.votes)
  {
    var ix := CountedAnswers(env, LastIndex(r.log), responses);
    var good := set i: nat |
                  && i < |responses| && responses[i].vote.granted
                  && responses[i].vote.logIndex <= LastIndex(r.log)
                  && env.verify(responses[i].asked, responses[i].vote.signature, VoteText(responses[i].vote));
    AscendingCount(ix, good);
    ExpectedPlayersIsMajority(|r.peers|);
  }

  /** The votes that are kept are those of the first answers that count, a quorum of them, in order of arrival. */
  lemma KeptVotesMean(env: Env, r: Replica, lastIndex: u64, quorum: nat, responses: seq<Response>)
      returns (ix: seq<nat>)
    ensures var r' := KeepVotes(env, r, lastIndex, quorum, responses);
            && r' == r.(votes := r'.votes)
            && (|ix| < quorum ==> r'.votes == r.votes)
            && (|ix| >= quorum ==>
                  |r'.votes| == quorum &&
                  forall a :: 0 <= a < quorum ==> ix[a] < |responses| && r'.votes[a] == responses[ix[a]].vote)
    ensures forall a, b :: 0 <= a < b < |ix| ==> ix[a] < ix[b]
    ensures forall i: nat :: i in ix <==>
              && i < |responses| && responses[i].vote.granted && responses[i].vote.logIndex <= lastIndex
              && env.verify(responses[i].asked, responses[i].vote.signature, VoteText(responses[i].vote))
  {
    ix := CountedAnswers(env, lastIndex, responses);
  }

  // ---------- being convinced ----------

  lemma ValidVotersStep(env: Env, members: set<u64>, votes: seq<Vote>, leader: u64, i: nat)
    requires i < |votes|
    ensures ValidVoters(env, members, votes[..i + 1], leader) ==
            ValidVoters(env, members, votes[..i], leader) +
            if votes[i].voter in members && CountsFor(env, votes[i], leader) then {votes[i].voter} else {}
  {
    var more, less := votes[..i + 1], votes[..i];
    forall j | 0 <= j < i ensures more[j] == less[j] {}
    assert more[i] == votes[i];
  }

  lemma {:induction false} VotersAtMostVotes(env: Env, members: set<u64>, votes: seq<Vote>, leader: u64)
    ensures |ValidVoters(env, members, votes, leader)| <= |votes|
    decreases |votes|
  {
    if votes != [] {
      var n := |votes| - 1;
      VotersAtMostVotes(env, members, votes[..n], leader);
      ValidVotersStep(env, members, votes, leader, n);
      assert votes[..n + 1] == votes;
    }
  }

  /**
   A claim of leadership convinces exactly when every voting member's key is known and more than half of the group are
   voters of signed grants for that leader in this group. Forged, foreign and repeated votes add nothing.
   */
  lemma ConvincedExactly(env: Env, r: Replica, req: AppendRequest)
    ensures ConvincedBy(env, r, req) <==>
            && (forall i :: 0 <= i < |req.quorumVotes| && req.quorumVotes[i].voter in r.peers ==>
                              env.hasKey(req.quorumVotes[i].voter))
            && exists voters: set<u64> ::
                 && |voters| >= |r.peers| / 2 + 1
                 && forall v :: v in voters ==>
                      && v in r.peers
                      && exists i :: 0 <= i < |req.quorumVotes| &&
                           var vote := req.quorumVotes[i];
                           && vote.voter == v && vote.granted
                           && vote.group == env.gid && vote.candidateId == req.leaderId
                           && env.verify(v, vote.signature, VoteText(vote))
  {
    var valid := ValidVoters(env, r.peers.Keys, req.quorumVotes, req.leaderId);
    ExpectedPlayersIsMajority(|r.peers|);
    VotersAtMostVotes(env, r.peers.Keys, req.quorumVotes, req.leaderId);
    if ConvincedBy(env, r, req) {
      forall i | 0 <= i < |req.quorumVotes| && req.quorumVotes[i].voter in r.peers
        ensures env.hasKey(req.quorumVotes[i].voter)
      {
        assert !Unverifiable(env, r.peers.Keys, req.quorumVotes[i]);
      }
      forall v | v in valid
        ensures v in r.peers
        ensures exists i :: 0 <= i < |req.quorumVotes| &&
                  var vote := req.quorumVotes[i];
                  && vote.voter == v && vote.granted && vote.group == env.gid && vote.candidateId == req.leaderId
                  && env.verify(v, vote.signature, VoteText(vote))
      {
      }
    }
    forall voters: set<u64> |
      && |voters| >= |r.peers| / 2 + 1
      && forall v :: v in voters ==>
           && v in r.peers
           && exists i :: 0 <= i < |req.quorumVotes| &&
                var vote := req.quorumVotes[i];
                && vote.voter == v && vote.granted && vote.group == env.gid && vote.candidateId == req.leaderId
                && env.verify(v, vote.signature, VoteText(vote))
      ensures |valid| >= QuorumSize(r)
    {
      forall v | v in voters ensures v in valid {
        var i :| 0 <= i < |req.quorumVotes| &&
          var vote := req.quorumVotes[i];
          && vote.voter == v && vote.granted && vote.group == env.gid && vote.candidateId == req.leaderId
          && env.verify(v, vote.signature, VoteText(vote));
        assert CountsFor(env, req.quorumVotes[i], req.leaderId);
      }
      SubsetSize(voters, valid);
    }
  }

  /** Too few votes are never verified; otherwise one voting member without a known key crashes the check. */
  lemma KeyMissingExactly(env: Env, r: Replica, req: AppendRequest)
    ensures KeyMissing(env, r, req) <==>
            && |req.quorumVotes| >= |r.peers| / 2 + 1
            && exists i :: 0 <= i < |req.quorumVotes| && req.quorumVotes[i].voter in r.peers &&
                           !env.hasKey(req.quorumVotes[i].voter)
  {
    ExpectedPlayersIsMajority(|r.peers|);
    if i :| 0 <= i < |req.quorumVotes| && req.quorumVotes[i].voter in r.peers && !env.hasKey(req.quorumVotes[i].voter) {
      assert Unverifiable(env, r.peers.Keys, req.quorumVotes[i]);
    }
  }
}
