/**
 One member of a group as the server keeps it: fields updated in place over the ordered store
 (server/group.go, server/vote.go, server/log_entries.go, server/peers.go, server/observer.go).
 Every method is proved to act on the member's state as the function of the same name in module Replica does.
 Calls to other hosts are where a method ends: the requests it would send are its results, the answers its arguments.
 */
module RTGroup {
  import opened Words
  import opened Encoding
  import opened Messages
  import opened SignText
  import opened LogChain
  import opened OrderedStore
  import opened Quorum
  import R = Replica
  import V = VotingRules
  import A = AppendingRules

  // ---------- small facts the methods rest on ----------

  lemma {:induction false} CountedPrefix(env: R.Env, lastIndex: u64, responses: seq<R.Response>, i: nat)
    requires i <= |responses|
    ensures R.CountedVotes(env, lastIndex, responses[..i]) <= R.CountedVotes(env, lastIndex, responses)
    decreases |responses|
  {
    if i == |responses| {
      assert responses[..i] == responses;
    } else {
      var init := responses[..|responses| - 1];
      CountedPrefix(env, lastIndex, init, i);
      assert init[..i] == responses[..i];
    }
  }

  function Backwards(s: seq<LogEntry>): (r: seq<LogEntry>)
    ensures |r| == |s|
    ensures forall i :: 0 <= i < |s| ==> r[i] == s[|s| - 1 - i]
  {
    if s == [] then [] else Backwards(s[1..]) + [s[0]]
  }

  lemma BackwardsGrow(log: seq<LogEntry>, left: nat)
    requires 0 < left <= |log|
    ensures Backwards(log[left - 1..]) == Backwards(log[left..]) + [log[left - 1]]
  {
    assert log[left - 1..][1..] == log[left..];
  }

  /** A backward scan with `left` entries to go ends exactly at the boundary CountBelow names. */
  lemma ScanStop(log: seq<LogEntry>, nextIndex: u64, left: nat)
    requires Ascending(log) && CountBelow(log, nextIndex) <= left <= |log|
    ensures left > 0 ==> (log[left - 1].index < nextIndex <==> left == CountBelow(log, nextIndex))
  {
    CountBelowSplits(log, nextIndex);
  }

  lemma BackwardsTwice(s: seq<LogEntry>)
    ensures Backwards(Backwards(s)) == s
  {
  }

  lemma PeerKeysDiffer(gid: u64, peer: u64)
    ensures forall id: u64 :: id != peer ==> PeerKey(gid, id) != PeerKey(gid, peer)
  {
    forall id: u64 | id != peer ensures PeerKey(gid, id) != PeerKey(gid, peer) {
      if PeerKey(gid, id) == PeerKey(gid, peer) {
        RecordKeyInjective(gid, GROUP_PEERS, id, gid, GROUP_PEERS, peer);
      }
    }
  }

  /** The outer `i` elements on either side stand where a reversal puts them, the rest where they were. */
  predicate SwappedUpTo(was: seq<LogEntry>, now: seq<LogEntry>, i: nat) {
    && |now| == |was|
    && (forall k {:trigger now[k]} :: 0 <= k < |was| && (k < i || |was| - i <= k) ==> now[k] == was[|was| - 1 - k])
    && (forall k {:trigger now[k]} :: i <= k < |was| - i ==> now[k] == was[k])
  }

  lemma SwappedIsBackwards(was: seq<LogEntry>, now: seq<LogEntry>, half: nat)
    requires |was| - 1 <= 2 * half <= |was| && SwappedUpTo(was, now, half)
    ensures now == Backwards(was)
  {
    forall k | 0 <= k < |was| ensures now[k] == was[|was| - 1 - k] {
    }
  }

  lemma {:induction false} RepliesLeaveApplied(env: R.Env, r: R.Replica, replies: seq<Option<AppendReply>>,
                                               applied: seq<LogEntry>)
    ensures var (r', crashed) := R.HandleReplies(env, r, replies);
            && R.HandleReplies(env, r.(applied := applied), replies) == (r'.(applied := applied), crashed)
            && r'.applied == r.applied && r'.log == r.log
    decreases |replies|
  {
    if replies == [] {
    } else if replies[0].None? {
      RepliesLeaveApplied(env, r, replies[1..], applied);
    } else if !R.ReplyCrashes(env, r, replies[0].value) {
      RepliesLeaveApplied(env, R.HandleReply(env, r, replies[0].value), replies[1..], applied);
    }
  }

  /** The replies of the heartbeat in between leave what a command has stored and applied. */
  lemma ExecutedMeans(env: R.Env, r: R.Replica, cmd: Command, replies: seq<Option<AppendReply>>)
    requires Ascending(r.log) && cmd.group == env.gid
    ensures var r' := R.HandleReplies(env, R.ExecAdmitted(env, r, cmd), replies).0;
            LastIndex(r.log) + 1 < U64_LIMIT ==>
              && |r'.log| == |r.log| + 1 && r'.log[..|r.log|] == r.log && r'.applied == r.applied + [r'.log[|r.log|]]
              && r'.log[|r.log|].command == cmd && r'.log[|r.log|].term == r.term
              && r'.log[|r.log|].index == LastIndex(r.log) + 1
  {
    var mid := R.ExecAdmitted(env, r, cmd);
    RepliesLeaveApplied(env, mid, replies, mid.applied);
    if LastIndex(r.log) + 1 < U64_LIMIT {
      A.CommandIsStored(env, r, cmd);
      assert mid.applied == mid.applied[..|r.applied|] + [mid.applied[|r.applied|]];
    }
  }

  // ---------- loops that only read ----------

  /** A granted vote of `v`, signed by it, for the sender of the request in this group. */
  predicate GrantedTo(env: R.Env, req: AppendRequest, v: u64, vote: Vote) {
    && vote.voter == v && vote.granted && vote.group == env.gid && vote.candidateId == req.leaderId
    && env.verify(v, vote.signature, VoteText(vote))
  }

  lemma VotersGranted(env: R.Env, members: set<u64>, req: AppendRequest)
    ensures forall v :: v in R.ValidVoters(env, members, req.quorumVotes, req.leaderId) <==>
              v in members && exists i :: 0 <= i < |req.quorumVotes| && GrantedTo(env, req, v, req.quorumVotes[i])
  {
    forall v, i | v in members && 0 <= i < |req.quorumVotes| && GrantedTo(env, req, v, req.quorumVotes[i])
      ensures v in R.ValidVoters(env, members, req.quorumVotes, req.leaderId)
    {
      assert R.CountsFor(env, req.quorumVotes[i], req.leaderId);
    }
  }

  /** The map BecomeFollower fills: the members whose votes for this leader count; None when a key is missing. */
  method VerifiedVoters(env: R.Env, peers: map<u64, Peer>, req: AppendRequest) returns (voters: Option<map<u64, bool>>)
    requires forall id :: id in peers ==> peers[id].id == id
    ensures voters.None? <==>
            exists i :: 0 <= i < |req.quorumVotes| && R.Unverifiable(env, peers.Keys, req.quorumVotes[i])
    ensures voters.Some? ==> voters.value.Keys == R.ValidVoters(env, peers.Keys, req.quorumVotes, req.leaderId)
    ensures voters.Some? ==> forall v :: v in voters.value <==>
              v in peers && exists i :: 0 <= i < |req.quorumVotes| && GrantedTo(env, req, v, req.quorumVotes[i])
  {
    var found: map<u64, bool> := map[];
    for i := 0 to |req.quorumVotes|
      invariant found.Keys == R.ValidVoters(env, peers.Keys, req.quorumVotes[..i], req.leaderId)
      invariant forall j :: 0 <= j < i ==> !R.Unverifiable(env, peers.Keys, req.quorumVotes[j])
    {
      var vote := req.quorumVotes[i];
      V.ValidVotersStep(env, peers.Keys, req.quorumVotes, req.leaderId, i);
      if vote.voter !in peers {
        continue;
      }
      if !env.hasKey(peers[vote.voter].id) {
        return None;
      }
      if !env.verify(peers[vote.voter].id, vote.signature, VoteText(vote)) {
        continue;
      }
      if vote.group == env.gid && vote.candidateId == req.leaderId && vote.granted {
        found := found[peers[vote.voter].id := true];
      }
    }
    assert req.quorumVotes[..|req.quorumVotes|] == req.quorumVotes;
    VotersGranted(env, peers.Keys, req);
    return Some(found);
  }

  /** The loop of AppendEntries that checks indexes and hashes of a batch before anything is stored. */
  method VerifyBatch(env: R.Env, head: Bytes, nextLogIdx: u64, entries: seq<LogEntry>) returns (matched: bool)
    ensures matched <==> R.VerifyFrom(env.sha1, head, nextLogIdx, entries[..R.LoopCount(nextLogIdx, |entries|)])
  {
    var expectedHash := head;
    var i: u64 := nextLogIdx;
    var end := Add64(nextLogIdx, |entries|);
    ghost var checked := entries[..R.LoopCount(nextLogIdx, |entries|)];
    assert checked[0..] == checked;
    while i < end
      invariant nextLogIdx <= i && i - nextLogIdx <= |checked|
      invariant |checked| == if nextLogIdx < end then end - nextLogIdx else 0
      invariant R.VerifyFrom(env.sha1, head, nextLogIdx, checked) <==>
                R.VerifyFrom(env.sha1, expectedHash, i, checked[i - nextLogIdx..])
    {
      var entry := entries[i - nextLogIdx];
      expectedHash := LogHash(env.sha1, expectedHash, i, entry.command.funcId, entry.command.arg);
      assert checked[i - nextLogIdx..][1..] == checked[i - nextLogIdx + 1..];
      assert checked[i - nextLogIdx..][0] == entry && Inc64(i) == i + 1;
      if entry.index != i || entry.hash != expectedHash {
        return false;
      }
      i := i + 1;
    }
    return true;
  }

  /** The backward scan: entries down to NextIndex, greatest index first, and the entry the scan ended on. */
  method ScanBack(db: Store, gid: u64, nextIndex: u64, ghost log: seq<LogEntry>)
    returns (collected: seq<LogEntry>, last: Option<LogEntry>)
    requires StoresLog(db, gid, log)
    ensures collected == Backwards(log[CountBelow(log, nextIndex)..])
    ensures last == if log == [] then None
                    else if CountBelow(log, nextIndex) > 0 then Some(log[CountBelow(log, nextIndex) - 1])
                    else Some(log[0])
  {
    collected, last := [], None;
    var iter := new LogEntryIterator.Reversed(db, gid, log);
    var entry := iter.Current();
    ghost var left := |log|;
    assert log[left..] == [];
    while entry.Some?
      invariant iter.Valid() && iter.log == log && iter.left == left
      invariant CountBelow(log, nextIndex) <= left <= |log|
      invariant entry == if left == 0 then None else Some(log[left - 1])
      invariant collected == Backwards(log[left..])
      invariant last == if left < |log| then Some(log[left]) else None
      decreases left
    {
      last := entry;
      ScanStop(log, nextIndex, left);
      if entry.value.index < nextIndex {
        return;
      }
      BackwardsGrow(log, left);
      collected := collected + [entry.value];
      entry := iter.Next();
      left := left - 1;
    }
  }

  method ReverseInPlace(entries: array<LogEntry>)
    modifies entries
    ensures entries[..] == Backwards(old(entries[..]))
  {
    var n := entries.Length;
    ghost var was := entries[..];
    if n > 1 {
      for i := 0 to n / 2
        invariant SwappedUpTo(was, entries[..], i)
      {
        var j := n - i - 1;
        entries[i], entries[j] := entries[j], entries[i];
      }
    }
    SwappedIsBackwards(was, entries[..], n / 2);
  }

  method Reversed(collected: seq<LogEntry>) returns (entries: seq<LogEntry>)
    ensures entries == Backwards(collected)
  {
    var slice := new LogEntry[|collected|](i requires 0 <= i < |collected| => collected[i]);
    assert slice[..] == collected;
    ReverseInPlace(slice);
    entries := slice[..];
  }

  /** A response that counts: granted, signed by the host asked, from a log that is not longer. */
  predicate CountedAnswer(env: R.Env, lastIndex: u64, response: R.Response) {
    && response.vote.granted && response.vote.logIndex <= lastIndex
    && env.verify(response.asked, response.vote.signature, VoteText(response.vote))
  }

  lemma SameCount(env: R.Env, lastIndex: u64, responses: seq<R.Response>)
    ensures (set i: nat | i < |responses| && CountedAnswer(env, lastIndex, responses[i])) ==
            set i: nat | && i < |responses| && responses[i].vote.granted && responses[i].vote.logIndex <= lastIndex
                         && env.verify(responses[i].asked, responses[i].vote.signature, VoteText(responses[i].vote))
  {
  }

  // ---------- the member ----------

  /** How a claim of leadership ends. */
  datatype Verdict = KeyPanic | Unconvinced | Convinced

  datatype CommandOutcome =
    | Refused      // the command's signature was not accepted
    | NotAppended  // the next index is taken
    | Executed
    | Crashed      // over a reply to the heartbeat

  class RTGroup {
    const env: R.Env
    var db: Store
    var term: u64
    var role: R.Role
    var leader: u64
    var votedTo: u64
    var votedTerm: u64
    var votes: seq<Vote>
    var sendVotes: map<u64, bool>
    var peers: map<u64, Peer>
    var applied: seq<LogEntry>
    ghost var log: seq<LogEntry>  // the entries in the store, in index order

    ghost predicate Valid()
      reads this
    {
      && StoresLog(db, env.gid, log)
      && forall id :: id in peers ==> peers[id].id == id && peers[id].group == env.gid
    }

    ghost function State(): R.Replica
      reads this
    {
      R.Replica(term, role, leader, votedTo, votedTerm, votes, sendVotes, peers, log, applied)
    }

    /** The stored group record shows the current term. */
    ghost predicate TermSaved()
      reads this
    {
      GroupKey(env.gid) in db && db[GroupKey(env.gid)] == GroupValue(env.gid, term)
    }

    /** Every peer record that differs from `before` is stored as it is now. */
    ghost predicate PeersSaved(before: map<u64, Peer>)
      reads this
    {
      forall id :: id in peers && id in before && peers[id] != before[id] ==>
                   PeerKey(env.gid, id) in db && db[PeerKey(env.gid, id)] == PeerValue(peers[id])
    }

    constructor (env: R.Env, leader: u64, peers: map<u64, Peer>, term: u64, role: R.Role, db: Store,
                 ghost log: seq<LogEntry>)
      requires StoresLog(db, env.gid, log)
      requires forall id :: id in peers ==> peers[id].id == id && peers[id].group == env.gid
      ensures Valid() && this.env == env && this.db == db
      ensures State() == R.Replica(term, role, leader, 0, 0, [], map[], peers, log, [])
    {
      this.env, this.leader, this.peers, this.term, this.role, this.db := env, leader, peers, term, role, db;
      votedTo, votedTerm, votes, sendVotes, applied := 0, 0, [], map[], [];
      this.log := log;
    }

    // ---------- the log ----------

    method LastEntryIndex() returns (index: u64)
      requires Valid()
      ensures index == LastIndex(log)
    {
      var last := LastLogEntry(db, env.gid, log);
      return if last.Some? then last.value.index else 0;
    }

    method LastEntryHash() returns (hash: Bytes)
      requires Valid()
      ensures hash == HeadHash(env.sha1, env.gid, log)
    {
      var last := LastLogEntry(db, env.gid, log);
      return if last.Some? then last.value.hash else env.sha1(GenesisText(env.gid));
    }

    /** The four ends of AppendEntryToLocal, the group panic among them; only Stored changes anything. */
    method AppendEntryToLocal(entry: LogEntry) returns (res: LocalAppend)
      requires Valid()
      modifies this`db, this`log
      ensures Valid()
      ensures res == AppendLocal(env.sha1, env.gid, old(log), entry)
      ensures log == if res.Stored? then Insert(old(log), entry) else old(log)
      ensures !res.Stored? ==> db == old(db)
    {
      if entry.command.group != env.gid {
        return GroupPanic;
      }
      var key := LogEntryKey(env.gid, entry.index);
      LogLookup(db, env.gid, log, entry.index);
      if key in db {
        return Existed;
      }
      var head := LastEntryHash();
      var hash := LogHash(env.sha1, head, entry.index, entry.command.funcId, entry.command.arg);
      if hash != entry.hash {
        return HashMismatch;
      }
      StoreEntry(db, env.gid, log, entry);
      db := db[key := EntryValue(entry)];
      log := Insert(log, entry);
      return Stored;
    }

    method CommitGroupLog(entry: LogEntry)
      modifies this`applied
      ensures applied == old(applied) + [entry]
    {
      applied := applied + [entry];
    }

    // ---------- terms and roles ----------

    method SaveGroup()
      requires Valid()
      modifies this`db
      ensures Valid() && TermSaved()
    {
      OtherKindsAreElsewhere(env.gid, env.gid, 0);
      StoreElsewhere(db, env.gid, log, GroupKey(env.gid), GroupValue(env.gid, term));
      db := db[GroupKey(env.gid) := GroupValue(env.gid, term)];
    }

    method MarkAllPeers()
      modifies this`sendVotes
      ensures sendVotes == R.MarkAll(old(sendVotes), peers.Keys)
    {
      var rest := peers.Keys;
      while rest != {}
        invariant rest <= peers.Keys
        invariant sendVotes == R.MarkAll(old(sendVotes), peers.Keys - rest)
        decreases |rest|
      {
        var id :| id in rest;
        sendVotes := sendVotes[id := true];
        rest := rest - {id};
      }
      assert peers.Keys - rest == peers.Keys;
    }

    method ResetTerm(newTerm: u64)
      requires Valid()
      modifies this
      ensures Valid() && TermSaved()
      ensures State() == R.ResetTerm(old(State()), newTerm)
      ensures term == newTerm && votes == [] && votedTerm == 0 && votedTo == 0
    {
      term := newTerm;
      votes := [];
      votedTerm := 0;
      votedTo := 0;
      MarkAllPeers();
      SaveGroup();
    }

    method BecomeCandidate() returns (request: VoteRequest)
      requires Valid()
      modifies this
      ensures Valid() && TermSaved()
      ensures State() == R.StartCandidacy(old(State()))
      ensures request == R.CandidacyRequest(env, State())
      ensures role == R.Candidate && term == Inc64(old(term))
      ensures request.group == env.gid && request.term == term && request.candidateId == env.self
      ensures log != [] ==> request.logIndex == log[|log| - 1].index && request.logTerm == log[|log| - 1].term
    {
      role := R.Candidate;
      ResetTerm(Inc64(term));
      SaveGroup();
      var last := LastLogEntry(db, env.gid, log);
      request := if last.Some? then VoteRequest(env.gid, term, last.value.index, last.value.term, env.self)
                 else VoteRequest(env.gid, term, 0, 0, env.self);
    }

    method BecomeLeader()
      requires Valid()
      modifies this
      ensures Valid() && TermSaved()
      ensures State() == R.BecomeLeader(env, old(State()))
      ensures role == R.Leader && leader == env.self
    {
      role := R.Leader;
      leader := env.self;
      SaveGroup();
    }

    /** The goroutine that counts responses as they arrive, in time or after the candidacy has timed out. */
    method CollectVotes(lastIndex: u64, expectedVotes: nat, responses: seq<R.Response>) returns (adequate: bool)
      requires Valid()
      modifies this`votes
      ensures Valid()
      ensures State() == R.KeepVotes(env, old(State()), lastIndex, expectedVotes, responses)
      ensures adequate <==> |R.CountedVotes(env, lastIndex, responses)| >= expectedVotes
      ensures forall v :: v in votes && v !in old(votes) ==>
                exists i :: 0 <= i < |responses| && responses[i].vote == v &&
                            CountedAnswer(env, lastIndex, responses[i])
    {
      ghost var ix := V.KeptVotesMean(env, State(), lastIndex, expectedVotes, responses);
      var received: seq<Vote> := [];
      var i := 0;
      while i < |responses| && |received| < expectedVotes
        invariant 0 <= i <= |responses| && |received| <= expectedVotes
        invariant received == R.CountedVotes(env, lastIndex, responses[..i])
      {
        var response := responses[i];
        assert responses[..i + 1][..i] == responses[..i];
        if R.Countable(env, lastIndex, response.asked, response.vote) {
          received := received + [response.vote];
        }
        i := i + 1;
      }
      CountedPrefix(env, lastIndex, responses, i);
      if |received| < expectedVotes {
        assert responses[..i] == responses;
        return false;
      }
      votes := received;
      return true;
    }

    /** The end of a candidacy with the responses that came in time. */
    method FinishCandidacy(responses: seq<R.Response>) returns (won: bool)
      requires Valid()
      modifies this
      ensures Valid()
      ensures State() == R.FinishCandidacy(env, old(State()), responses)
      ensures won <==> old(role) == R.Candidate &&
                       |set i: nat | i < |responses| && CountedAnswer(env, LastIndex(old(log)), responses[i])|
                       >= |old(peers)| / 2 + 1
      ensures won ==> role == R.Leader && leader == env.self
    {
      V.CandidacyDecidedExactly(env, State(), responses);
      SameCount(env, LastIndex(log), responses);
      var lastIndex := LastEntryIndex();
      var adequate := CollectVotes(lastIndex, ExpectedPlayers(|peers|), responses);
      won := adequate && role == R.Candidate;
      if won {
        BecomeLeader();
      }
    }

    method EnterFollower(req: AppendRequest)
      requires Valid()
      modifies this
      ensures Valid() && TermSaved()
      ensures State() == R.Follow(old(State()), req.leaderId, req.term)
    {
      role := R.Follower;
      ResetTerm(req.term);
      leader := req.leaderId;
      SaveGroup();
    }

    method BecomeFollower(req: AppendRequest) returns (verdict: Verdict)
      requires Valid()
      modifies this
      ensures Valid()
      ensures verdict.KeyPanic? <==> R.KeyMissing(env, old(State()), req)
      ensures verdict.Convinced? <==>
              && !R.KeyMissing(env, old(State()), req)
              && |R.ValidVoters(env, old(peers).Keys, req.quorumVotes, req.leaderId)| >= ExpectedPlayers(|old(peers)|)
      ensures State() ==
              if verdict.Convinced? then R.Follow(old(State()), req.leaderId, req.term) else old(State())
      ensures verdict.Convinced? ==> TermSaved()
    {
      var expectedVotes := ExpectedPlayers(|peers|);
      if |req.quorumVotes| < expectedVotes {
        V.VotersAtMostVotes(env, peers.Keys, req.quorumVotes, req.leaderId);
        return Unconvinced;
      }
      var voters := VerifiedVoters(env, peers, req);
      if voters.None? {
        return KeyPanic;
      }
      assert |voters.value| == |voters.value.Keys|;
      if |voters.value| >= expectedVotes {
        EnterFollower(req);
        return Convinced;
      }
      return Unconvinced;
    }

    // ---------- voting ----------

    /** RequestVote up to the wait, if nothing comes between; `vote` is the answer unless the wait ends in a grant. */
    method BeginVote(req: VoteRequest) returns (check: R.VoteCheck, vote: Option<Vote>)
      requires Valid()
      ensures check == R.CheckVote(State(), req)
      ensures vote == if check.Crash? then None else Some(R.VoteOn(env, term, LastIndex(log), req, false))
      ensures check.Crash? <==> log == []
      ensures log != [] ==>
                (check.Waiting? <==>
                   && term < req.term <= term + 20 && log[|log| - 1].index <= req.logIndex
                   && (req.term != votedTerm || votedTo == 0 || votedTo == req.candidateId))
      ensures vote.Some? ==> !vote.value.granted && vote.value.voter == env.self && vote.value.group == env.gid &&
                             vote.value.candidateId == req.candidateId && vote.value.term == term
    {
      V.RequestWaitsExactly(State(), req);
      var last := LastLogEntry(db, env.gid, log);
      if last.None? {
        return R.Crash, None;
      }
      var lastIndex := last.value.index;
      vote := Some(R.VoteOn(env, term, lastIndex, req, false));
      if term >= req.term || lastIndex > req.logIndex {
        return R.Refused, vote;
      }
      if Sub64(req.term, term) > R.MAX_TERM_BUMP {
        return R.Refused, vote;
      }
      if req.term == votedTerm && votedTo != 0 && votedTo != req.candidateId {
        return R.Refused, vote;
      }
      return R.Waiting, vote;
    }

    /** One look of the lazy wait: a member that is no longer a follower grants, and its answer is signed anew. */
    method TryGrant(req: VoteRequest, waiting: Vote) returns (vote: Vote)
      requires Valid()
      modifies this`votedTo, this`votedTerm
      ensures Valid()
      ensures role == R.Follower ==> vote == waiting && State() == old(State())
      ensures role != R.Follower ==> State() == R.RecordVote(old(State()), req)
      ensures role != R.Follower ==> votedTo == req.candidateId && votedTerm == req.term
      ensures role != R.Follower ==>
                vote == waiting.(granted := true, signature := env.sign(VoteText(waiting.(granted := true))))
    {
      vote := waiting;
      if role != R.Follower {
        vote := vote.(granted := true);
        vote := vote.(signature := env.sign(VoteText(vote)));
        votedTo := req.candidateId;
        votedTerm := req.term;
      }
    }

    // ---------- receiving entries ----------

    /** The loop that stores and applies a verified batch and reports the entries of known clients. */
    method StoreAndApply(entries: seq<LogEntry>, reply: AppendReply) returns (response: AppendReply, panicked: bool)
      requires Valid()
      modifies this`db, this`log, this`applied
      ensures Valid()
      ensures R.BatchResult(log, applied, panicked) == R.AppendAll(env, old(log), old(applied), entries)
      ensures !panicked ==> response == R.ReportKnown(env, reply, entries)
    {
      response := reply;
      assert entries[0..] == entries;
      for i := 0 to |entries|
        invariant Valid()
        invariant R.AppendAll(env, old(log), old(applied), entries) == R.AppendAll(env, log, applied, entries[i..])
        invariant R.ReportKnown(env, reply, entries) == R.ReportKnown(env, response, entries[i..])
      {
        var entry := entries[i];
        assert entries[i..][1..] == entries[i + 1..];
        var res := AppendEntryToLocal(entry);
        if res.GroupPanic? {
          return response, true;
        }
        CommitGroupLog(entry);
        if env.knows(entry.command.clientId) {
          response := response.(term := entry.term, index := entry.index, hash := entry.hash);
        }
      }
      return response, false;
    }

    method ReceiveEntries(req: AppendRequest, reply: AppendReply) returns (outcome: R.AppendOutcome)
      requires Valid()
      modifies this`db, this`log, this`applied
      ensures Valid()
      ensures (State(), outcome) == R.ReceiveEntries(env, old(State()), reply, req)
    {
      var response := reply;
      if |req.entries| > 0 {
        var lastLogIdx := LastEntryIndex();
        var nextLogIdx := Inc64(lastLogIdx);
        var lastLog := LastLogEntry(db, env.gid, log);
        var lastLogTerm := if lastLog.Some? then lastLog.value.term else 0;
        if req.prevLogIndex == lastLogIdx && req.entries[0].index == nextLogIdx {
          if req.prevLogTerm != lastLogTerm {
            return R.NoReply;
          }
          var head := LastEntryHash();
          var matched := VerifyBatch(env, head, nextLogIdx, req.entries);
          if !matched {
            return R.Replied(response);
          }
          var panicked;
          response, panicked := StoreAndApply(req.entries, response);
          if panicked {
            return R.GroupMismatchPanic;
          }
          response := response.(successed := true);
        }
      }
      return R.Replied(response);
    }

    method AppendEntries(req: AppendRequest) returns (outcome: R.AppendOutcome)
      requires Valid()
      modifies this
      ensures Valid()
      ensures (State(), outcome) == R.AppendEntries(env, old(State()), req)
      ensures || req.leaderId !in old(peers)
              || (req.leaderId != old(leader) && (req.quorumVotes == [] || req.term < old(term))) ==>
                State() == old(State()) && outcome == R.NoReply
    {
      var lastLogHash := LastEntryHash();
      var lastEntryIndex := LastEntryIndex();
      var response := AppendReply(term, lastEntryIndex, env.self, false, false, lastLogHash);
      if req.leaderId !in peers {
        return R.NoReply;
      }
      if |req.quorumVotes| > 0 && req.leaderId != leader {
        if req.term < term {
          return R.NoReply;
        }
        var verdict := BecomeFollower(req);
        if verdict.KeyPanic? {
          return R.KeyPanic;
        }
        if verdict.Unconvinced? {
          return R.NoReply;
        }
      } else if req.leaderId != leader {
        return R.NoReply;
      }
      response := response.(convinced := true);
      if !env.hasKey(leader) {
        return R.NoReply;
      }
      outcome := ReceiveEntries(req, response);
    }

    // ---------- the leader's side ----------

    /** The scan, the special case of a new peer, and the reversal of the collected slice by swaps. */
    method PeerUncommittedLogEntries(peer: Peer) returns (entries: seq<LogEntry>, prevIndex: u64, prevTerm: u64)
      requires Valid()
      ensures R.Suffix(entries, prevIndex, prevTerm) == R.Uncommitted(log, peer)
    {
      var collected, last := ScanBack(db, env.gid, peer.nextIndex, log);
      prevIndex, prevTerm := 0, 0;
      if last.Some? && !(peer.nextIndex == 0 && peer.matchIndex == 0) {
        prevIndex, prevTerm := last.value.index, last.value.term;
      }
      entries := Reversed(collected);
      BackwardsTwice(log[CountBelow(log, peer.nextIndex)..]);
    }

    method PrepareHeartbeat() returns (requests: map<u64, AppendRequest>)
      requires Valid()
      ensures requests.Keys == peers.Keys - {env.self}
      ensures forall id :: id in requests ==> id in peers && requests[id] == R.HeartbeatRequest(env, State(), id)
      ensures forall id :: id in requests ==>
                requests[id].group == env.gid && requests[id].term == term && requests[id].leaderId == env.self
    {
      requests := map[];
      var rest := peers.Keys;
      while rest != {}
        invariant rest <= peers.Keys
        invariant requests.Keys == peers.Keys - rest - {env.self}
        invariant forall id :: id in requests ==> id in peers && requests[id] == R.HeartbeatRequest(env, State(), id)
        decreases |rest|
      {
        var id :| id in rest;
        if id != env.self {
          var entries, prevIndex, prevTerm := PeerUncommittedLogEntries(peers[id]);
          var quorumVotes := [];
          if env.self in sendVotes && sendVotes[env.self] {
            quorumVotes := votes;
          }
          requests := requests[id := AppendRequest(env.gid, term, env.self, prevIndex, prevTerm, quorumVotes, entries)];
        }
        rest := rest - {id};
      }
    }

    method HandleReply(response: AppendReply) returns (crashed: bool)
      requires Valid()
      modifies this`db, this`peers, this`sendVotes
      ensures Valid() && peers.Keys == old(peers).Keys
      ensures crashed <==> R.ReplyCrashes(env, old(State()), response)
      ensures State() == R.HandleReply(env, old(State()), response)
      ensures db == if response.peer !in peers || peers[response.peer] == old(peers)[response.peer] then old(db)
                    else old(db)[PeerKey(env.gid, response.peer) := PeerValue(peers[response.peer])]
    {
      if !env.hasKey(response.peer) {
        return false;
      }
      if response.peer !in peers {
        return true;
      }
      var peer := peers[response.peer];
      if response.index != peer.matchIndex {
        peer := peer.(matchIndex := response.index, nextIndex := Inc64(response.index));
        OtherKindsAreElsewhere(env.gid, env.gid, peer.id);
        StoreElsewhere(db, env.gid, log, PeerKey(env.gid, peer.id), PeerValue(peer));
        db := db[PeerKey(env.gid, peer.id) := PeerValue(peer)];
      }
      peers := peers[response.peer := peer];
      sendVotes := sendVotes[response.peer := !response.convinced];
      return false;
    }

    method HandleReplies(replies: seq<Option<AppendReply>>) returns (crashed: bool)
      requires Valid()
      modifies this`db, this`peers, this`sendVotes
      ensures Valid() && peers.Keys == old(peers).Keys
      ensures (State(), crashed) == R.HandleReplies(env, old(State()), replies)
      ensures PeersSaved(old(peers))
    {
      assert replies[0..] == replies;
      for i := 0 to |replies|
        invariant Valid()
        invariant peers.Keys == old(peers).Keys
        invariant R.HandleReplies(env, old(State()), replies) == R.HandleReplies(env, State(), replies[i..])
        invariant PeersSaved(old(peers))
      {
        assert replies[i..][1..] == replies[i + 1..];
        if replies[i].Some? {
          PeerKeysDiffer(env.gid, replies[i].value.peer);
          var panicked := HandleReply(replies[i].value);
          if panicked {
            return true;
          }
        }
      }
      return false;
    }

    /** ExecCommand before it takes the group lock: a command is let in, or belongs at the leader this member knows. */
    method AdmitCommand() returns (forwardTo: Option<u64>)
      ensures forwardTo.None? <==> R.Admits(env, State())
      ensures forwardTo == if leader == env.self then None else Some(leader)
    {
      return if leader == env.self then None else Some(leader);
    }

    /** The store update of ExecCommand: the next entry is made and appended. */
    method AppendOwn(cmd: Command) returns (entry: LogEntry, stored: bool)
      requires Valid() && cmd.group == env.gid
      modifies this`db, this`log
      ensures Valid() && State() == R.AppendOwn(env, old(State()), cmd)
      ensures entry == R.NextEntry(env, old(State()), cmd) && entry.command == cmd && entry.term == term
      ensures stored <==> !HasIndex(old(log), Inc64(LastIndex(old(log))))
      ensures stored <==> AppendLocal(env.sha1, env.gid, old(log), entry) == Stored
    {
      var lastIndex := LastEntryIndex();
      var head := LastEntryHash();
      var index := Inc64(lastIndex);
      entry := LogEntry(term, index, LogHash(env.sha1, head, index, cmd.funcId, cmd.arg), cmd);
      var res := AppendEntryToLocal(entry);
      stored := res.Stored?;
    }

    /**
     ExecCommand under the group lock, for a command of this group that was let in. Whether this member still leads is
     not asked. `accepted` says whether the command's signature was accepted or need not be; the heartbeat between
     append and apply sends `requests` and gets `replies`.
     */
    method ExecCommand(cmd: Command, accepted: bool, replies: seq<Option<AppendReply>>)
      returns (outcome: CommandOutcome, requests: map<u64, AppendRequest>)
      requires Valid() && cmd.group == env.gid
      modifies this`db, this`log, this`peers, this`sendVotes, this`applied
      ensures Valid()
      ensures outcome.Refused? <==> !accepted
      ensures outcome.NotAppended? <==> accepted && HasIndex(old(log), Inc64(LastIndex(old(log))))
      ensures !outcome.Executed? && !outcome.Crashed? ==> State() == old(State()) && requests == map[]
      ensures outcome.Executed? ==>
                (State(), false) == R.HandleReplies(env, R.ExecAdmitted(env, old(State()), cmd), replies)
      ensures outcome.Crashed? ==>
                (State(), true) == R.HandleReplies(env, R.AppendOwn(env, old(State()), cmd), replies)
      ensures outcome.Executed? && LastIndex(old(log)) + 1 < U64_LIMIT ==>
                && |log| == |old(log)| + 1 && log[..|old(log)|] == old(log)
                && applied == old(applied) + [log[|old(log)|]]
                && log[|old(log)|].command == cmd && log[|old(log)|].term == old(term)
                && log[|old(log)|].index == LastIndex(old(log)) + 1
      ensures outcome.Executed? || outcome.Crashed? ==> requests.Keys == old(peers).Keys - {env.self}
      ensures forall id :: id in requests ==>
                id in old(peers) && requests[id] == R.HeartbeatRequest(env, R.AppendOwn(env, old(State()), cmd), id)
    {
      requests := map[];
      ExecutedMeans(env, State(), cmd, replies);
      if !accepted {
        return Refused, requests;
      }
      var entry, stored := AppendOwn(cmd);
      if !stored {
        return NotAppended, requests;
      }
      requests := PrepareHeartbeat();
      RepliesLeaveApplied(env, State(), replies, applied + [entry]);
      var crashed := HandleReplies(replies);
      if crashed {
        return Crashed, requests;
      }
      CommitGroupLog(entry);
      return Executed, requests;
    }

    // ---------- pulling ----------

    method PullAndCommit(entries: seq<LogEntry>) returns (panicked: bool)
      requires Valid()
      modifies this`db, this`log, this`applied
      ensures Valid()
      ensures (State(), panicked) == R.PullEntries(env, old(State()), entries)
    {
      assert entries[0..] == entries;
      for i := 0 to |entries|
        invariant Valid()
        invariant R.PullEntries(env, old(State()), entries) == R.PullEntries(env, State(), entries[i..])
      {
        var entry := entries[i];
        assert entries[i..][1..] == entries[i + 1..];
        var res := AppendEntryToLocal(entry);
        if res.GroupPanic? {
          return true;
        }
        if !res.Stored? {
          return false;
        }
        CommitGroupLog(entry);
      }
      return false;
    }
  }
}
