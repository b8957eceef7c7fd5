/** What a won candidacy is worth: its votes count, and they convince every member of the group. */
module Wins {
  import opened Words
  import opened Messages
  import opened SignText
  import opened LogChain
  import opened Replica
  import opened Election

  /** `m` has the key of `n` and can check what `n` has signed. */
  ghost predicate Trusts(w: World, m: u64, n: u64) {
    EnvAt(w, m).hasKey(n) && forall text :: EnvAt(w, m).verify(n, EnvAt(w, n).sign(text), text)
  }

  ghost predicate Sound(w: World) {
    forall m, n {:trigger Trusts(w, m, n)} :: m in w.members && n in w.members ==> Trusts(w, m, n)
  }

  /** The vote of a member that signed it is counted by any member whose log is long enough. */
  lemma SoundVoteCounts(w: World, c: u64, lastIndex: u64, g: Grant)
    requires Sound(w) && c in w.members && g.voter in w.members && g.logIndex <= lastIndex
    ensures Countable(EnvAt(w, c), lastIndex, g.voter, GrantedVote(w, g))
  {
    var vote := Vote(EnvAt(w, g.voter).gid, g.voteTerm, g.logIndex, g.req.candidateId, g.voter, true, []);
    assert VoteText(GrantedVote(w, g)) == VoteText(vote);
    assert Trusts(w, c, g.voter);
  }

  /** Votes that members signed are all counted, in the order they came in. */
  lemma {:induction false} SoundVotesCount(w: World, c: u64, lastIndex: u64, votes: seq<Grant>)
    requires Sound(w) && c in w.members
    requires forall g :: g in votes ==> g.voter in w.members && g.logIndex <= lastIndex
    ensures var counted := CountedVotes(EnvAt(w, c), lastIndex, ResponsesOf(w, votes));
            |counted| == |votes| && forall i :: 0 <= i < |votes| ==> counted[i] == GrantedVote(w, votes[i])
    decreases |votes|
  {
    if votes != [] {
      var n := |votes| - 1;
      var responses := ResponsesOf(w, votes);
      assert responses[..n] == ResponsesOf(w, votes[..n]);
      SoundVotesCount(w, c, lastIndex, votes[..n]);
      SoundVoteCounts(w, c, lastIndex, votes[n]);
    }
  }

  // ---------- the votes of a winner ----------

  lemma {:induction false} VotersAtMostGrants(votes: seq<Grant>)
    ensures |Voters(votes)| <= |votes|
    decreases |votes|
  {
    if votes != [] {
      VotersAtMostGrants(votes[1..]);
      assert Voters(votes) == {votes[0].voter} + Voters(votes[1..]);
    }
  }

  lemma DistinctVotersOfPrefix(votes: seq<Grant>, n: nat)
    requires |Voters(votes)| == |votes| && n <= |votes|
    ensures |Voters(votes[..n])| == n
  {
    VotersAtMostGrants(votes[..n]);
    VotersAtMostGrants(votes[n..]);
    assert votes == votes[..n] + votes[n..];
    assert Voters(votes) == Voters(votes[..n]) + Voters(votes[n..]);
  }

  /** A vote a member gave to `c` speaks for it at every other member. */
  lemma SoundVoteSpeaks(w: World, m: u64, g: Grant)
    requires Sound(w) && m in w.members && g.voter in w.members && EnvAt(w, m).gid == EnvAt(w, g.voter).gid
    ensures CountsFor(EnvAt(w, m), GrantedVote(w, g), g.req.candidateId) && GrantedVote(w, g).voter == g.voter
  {
    SoundVoteCounts(w, m, g.logIndex, g);
  }

  /** What a campaign of a reachable state has collected: one genuine vote for itself from each voter. */
  lemma CampaignIsFair(w: World, s: Cluster, c: u64)
    requires Inv(w, s) && c in s.nodes && s.nodes[c].running.Collecting?
    ensures var votes := s.nodes[c].running.votes;
            && |Voters(votes)| == |votes|
            && forall g :: g in votes ==>
                 g.voter in w.members && g.logIndex <= LastIndex(s.nodes[c].r.log) && g.req.candidateId == c
  {
    assert NodeOk(w, s, c);
    forall g | g in s.nodes[c].running.votes
      ensures g.voter in w.members && g.logIndex <= LastIndex(s.nodes[c].r.log) && g.req.candidateId == c
    {
      assert GrantOk(s, g);
    }
  }

  /** Enough genuine votes of different members convince a member of the same group. */
  lemma GenuineVotesConvince(w: World, m: u64, r: Replica, votes: seq<Grant>, req: AppendRequest)
    requires Sound(w) && m in w.members && r.peers.Keys == w.members
    requires forall n :: n in w.members ==> EnvAt(w, n).gid == EnvAt(w, m).gid
    requires forall g :: g in votes ==> g.voter in w.members && g.req.candidateId == req.leaderId
    requires |Voters(votes)| == |votes| >= QuorumSize(r)
    requires |req.quorumVotes| == |votes|
    requires forall i :: 0 <= i < |votes| ==> req.quorumVotes[i] == GrantedVote(w, votes[i])
    ensures ConvincedBy(EnvAt(w, m), r, req)
  {
    var valid := ValidVoters(EnvAt(w, m), w.members, req.quorumVotes, req.leaderId);
    forall v | v in Voters(votes) ensures v in valid {
      var i :| 0 <= i < |votes| && votes[i].voter == v;
      assert votes[i] in votes;
      SoundVoteSpeaks(w, m, votes[i]);
      assert req.quorumVotes[i] == GrantedVote(w, votes[i]);
    }
    SubsetSize(Voters(votes), valid);
    forall i | 0 <= i < |votes| ensures !Unverifiable(EnvAt(w, m), r.peers.Keys, req.quorumVotes[i]) {
      assert votes[i] in votes && Trusts(w, m, votes[i].voter);
    }
  }

  lemma WinnerKeepsAQuorum(env: Env, r: Replica, responses: seq<Response>)
    requires |CountedVotes(env, LastIndex(r.log), responses)| >= QuorumSize(r) && r.role == Candidate
    ensures var r' := FinishCandidacy(env, r, responses);
            && r'.votes == CountedVotes(env, LastIndex(r.log), responses)[..QuorumSize(r)] && QuorumSize(r) > 0
            && r'.sendVotes == r.sendVotes && r'.role == Leader && r'.leader == env.self
  {
  }

  lemma WinResult(w: World, s: Cluster, c: u64)
    requires Enabled(w, s, Campaign(c, Win))
    ensures var node := s.nodes[c];
            && Next(w, s, Campaign(c, Win)).nodes[c].r ==
               FinishCandidacy(EnvAt(w, c), node.r, ResponsesOf(w, node.running.votes))
            && |CountedIn(w, c, node)| >= QuorumSize(node.r) && node.r.role == Candidate
  {
  }

  /** The votes a winner keeps are the first quorum of those it has collected. */
  lemma WinnerVotes(w: World, c: u64, r: Replica, votes: seq<Grant>)
    requires Sound(w) && c in w.members && r.role == Candidate && |votes| >= QuorumSize(r)
    requires forall g :: g in votes ==> g.voter in w.members && g.logIndex <= LastIndex(r.log)
    ensures var (kept, q) := (FinishCandidacy(EnvAt(w, c), r, ResponsesOf(w, votes)).votes, QuorumSize(r));
            |kept| == q && forall i :: 0 <= i < q ==> kept[i] == GrantedVote(w, votes[i])
  {
    SoundVotesCount(w, c, LastIndex(r.log), votes);
    WinnerKeepsAQuorum(EnvAt(w, c), r, ResponsesOf(w, votes));
  }

  /** The votes a winner keeps and sends along convince every member that knows the same membership. */
  lemma WinnerConvinces(w: World, s: Cluster, c: u64, m: u64, req: AppendRequest)
    requires Inv(w, s) && Enabled(w, s, Campaign(c, Win)) && Sound(w)
    requires forall n :: n in w.members ==> EnvAt(w, n).gid == EnvAt(w, m).gid
    requires m in s.nodes && s.nodes[m].r.peers.Keys == w.members
    requires req.leaderId == c && req.quorumVotes == Next(w, s, Campaign(c, Win)).nodes[c].r.votes
    ensures ConvincedBy(EnvAt(w, m), s.nodes[m].r, req)
  {
    var votes, q := s.nodes[c].running.votes, QuorumSize(s.nodes[c].r);
    WinResult(w, s, c);
    CampaignIsFair(w, s, c);
    SoundVotesCount(w, c, LastIndex(s.nodes[c].r.log), votes);
    WinnerVotes(w, c, s.nodes[c].r, votes);
    DistinctVotersOfPrefix(votes, q);
    assert |s.nodes[c].r.peers| == |s.nodes[m].r.peers| by {
      assert NodeOk(w, s, c) && NodeOk(w, s, m);
    }
    GenuineVotesConvince(w, m, s.nodes[m].r, votes[..q], req);
  }

  /** The first request of a winner `c` to member `m`. */
  function Announcement(w: World, s: Cluster, c: u64, m: u64): AppendRequest
    requires Enabled(w, s, Campaign(c, Win)) && m in s.nodes[c].r.peers
  {
    WinEffect(EnvAt(w, c), s.nodes[c].r, ResponsesOf(w, s.nodes[c].running.votes));
    HeartbeatRequest(EnvAt(w, c), Next(w, s, Campaign(c, Win)).nodes[c].r, m)
  }

  lemma AnnouncementTerm(w: World, s: Cluster, c: u64, m: u64)
    requires Enabled(w, s, Campaign(c, Win)) && m in s.nodes[c].r.peers
    ensures Announcement(w, s, c, m).leaderId == c && Announcement(w, s, c, m).term == s.nodes[c].r.term
  {
    WinEffect(EnvAt(w, c), s.nodes[c].r, ResponsesOf(w, s.nodes[c].running.votes));
  }

  /**
   The first heartbeat of a winner is taken for what it is: a member that does not follow the winner yet becomes its
   follower, in the winner's term, exactly when its own term is not ahead.
   */
  lemma AnnouncementIsFollowed(w: World, s: Cluster, c: u64, m: u64)
    requires Inv(w, s) && Enabled(w, s, Campaign(c, Win)) && Sound(w)
    requires forall n :: n in w.members ==> EnvAt(w, n).gid == EnvAt(w, m).gid
    requires m in s.nodes && s.nodes[m].r.peers.Keys == w.members && s.nodes[m].r.leader != c
    requires s.nodes[c].r.peers.Keys == w.members
    ensures AcceptLeader(EnvAt(w, m), s.nodes[m].r, Announcement(w, s, c, m)) ==
            if s.nodes[m].r.term <= s.nodes[c].r.term then Some(Follow(s.nodes[m].r, c, s.nodes[c].r.term)) else None
  {
    var req := Announcement(w, s, c, m);
    WinEffect(EnvAt(w, c), s.nodes[c].r, ResponsesOf(w, s.nodes[c].running.votes));
    assert NodeOk(w, s, c);
    WinResult(w, s, c);
    WinnerKeepsAQuorum(EnvAt(w, c), s.nodes[c].r, ResponsesOf(w, s.nodes[c].running.votes));
    WinnerConvinces(w, s, c, m, req);
  }
}
