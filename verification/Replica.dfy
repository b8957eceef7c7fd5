/**
 What each operation of one group member does, as functions on the member's state
 (server/group.go, server/vote.go, server/peers.go, server/observer.go, server/bftraft.go ExecCommand).
 The class RTGroup is proved to implement them; the properties of runs are proved about them.
 */
module Replica {
  import opened Words
  import opened Messages
  import opened SignText
  import opened LogChain
  import opened Quorum

  const MAX_TERM_BUMP: u64 := 20

  datatype Role = Leader | Follower | Candidate | Observer

  datatype Replica = Replica(
    term: u64,
    role: Role,
    leader: u64,
    votedTo: u64,
    votedTerm: u64,
    votes: seq<Vote>,
    sendVotes: map<u64, bool>,
    peers: map<u64, Peer>,
    log: seq<LogEntry>,
    applied: seq<LogEntry>)  // the commands handed to the state machine, in order

  /** What a member sees around itself: its identity, the hash, signatures and the host directory. */
  datatype Env = Env(
    self: u64,
    gid: u64,
    sha1: Hasher,
    sign: Bytes -> Bytes,
    verify: (u64, Bytes, Bytes) -> bool,  // host, signature, text
    hasKey: u64 -> bool,                  // the host's public key can be found
    knows: u64 -> bool)                   // the host itself can be found

  /** The environment of one member of one group. */
  ghost predicate RunsAs(env: Env, self: u64, gid: u64, sha1: Hasher) {
    env.self == self && env.gid == gid && env.sha1 == sha1
  }

  // ---------- terms and roles ----------

  function MarkAll(flags: map<u64, bool>, ids: set<u64>): map<u64, bool> {
    flags + map id | id in ids :: true
  }

  function ResetTerm(r: Replica, term: u64): Replica {
    r.(term := term, votes := [], votedTerm := 0, votedTo := 0,
       sendVotes := MarkAll(r.sendVotes, r.peers.Keys))
  }

  /** BecomeCandidate up to the moment the requests are sent. */
  function StartCandidacy(r: Replica): Replica {
    ResetTerm(r.(role := Candidate), Inc64(r.term))
  }

  function CandidacyRequest(env: Env, r: Replica): VoteRequest {
    VoteRequest(env.gid, r.term, LastIndex(r.log), LastTerm(r.log), env.self)
  }

  function BecomeLeader(env: Env, r: Replica): Replica {
    r.(role := Leader, leader := env.self)
  }

  function Follow(r: Replica, leader: u64, term: u64): Replica {
    ResetTerm(r.(role := Follower), term).(leader := leader)
  }

  datatype Tick = Panic | RunForLeader | Heartbeat | PullLogs

  /** What the time wheel does when the timer of this member runs out. */
  function TimerTick(env: Env, r: Replica): Tick {
    match r.role
    case Candidate => RunForLeader
    case Follower => if r.leader == env.self then Panic else RunForLeader
    case Leader => Heartbeat
    case Observer => PullLogs
  }

  // ---------- voting ----------

  datatype VoteCheck = Crash | Refused | Waiting

  /** The checks of RequestVote on the term and last index it has read, against the vote record as it is. */
  function Judge(term: u64, logIndex: u64, votedTerm: u64, votedTo: u64, req: VoteRequest): VoteCheck {
    if term >= req.term || logIndex > req.logIndex then Refused
    else if Sub64(req.term, term) > MAX_TERM_BUMP then Refused
    else if req.term == votedTerm && votedTo != 0 && votedTo != req.candidateId then Refused
    else Waiting
  }

  /** The checks before the lazy wait when nothing comes between; an empty log crashes the handler. */
  function CheckVote(r: Replica, req: VoteRequest): VoteCheck {
    if r.log == [] then Crash else Judge(r.term, LastIndex(r.log), r.votedTerm, r.votedTo, req)
  }

  /** The response, with the term and last index the voter had when it checked the request. */
  function VoteOn(env: Env, term: u64, logIndex: u64, req: VoteRequest, granted: bool): Vote {
    var vote := Vote(env.gid, term, logIndex, req.candidateId, env.self, granted, []);
    vote.(signature := env.sign(VoteText(vote)))
  }

  /** Once the voter is no longer a follower the wait ends with a grant. */
  function RecordVote(r: Replica, req: VoteRequest): Replica {
    r.(votedTo := req.candidateId, votedTerm := req.term)
  }

  // ---------- counting votes ----------

  /** A response the candidate counts: signed by the host it asked, granted, and from a log that is not longer. */
  predicate Countable(env: Env, lastIndex: u64, asked: u64, vote: Vote) {
    env.verify(asked, vote.signature, VoteText(vote)) && vote.granted && vote.logIndex <= lastIndex
  }

  datatype Response = Response(asked: u64, vote: Vote)

  /** The countable responses in the order they came in. */
  function CountedVotes(env: Env, lastIndex: u64, responses: seq<Response>): seq<Vote> {
    if responses == [] then []
    else
      var init, last := responses[..|responses| - 1], responses[|responses| - 1];
      CountedVotes(env, lastIndex, init) +
      if Countable(env, lastIndex, last.asked, last.vote) then [last.vote] else []
  }

  function QuorumSize(r: Replica): nat {
    ExpectedPlayers(|r.peers|)
  }

  /** The goroutine that collects votes: it keeps the first `quorum` countable ones, and nothing before it has them. */
  function KeepVotes(env: Env, r: Replica, lastIndex: u64, quorum: nat, responses: seq<Response>): Replica {
    var counted := CountedVotes(env, lastIndex, responses);
    if |counted| < quorum then r else r.(votes := counted[..quorum])
  }

  /** The end of BecomeCandidate: a quorum that is complete in time makes a candidate leader. */
  function FinishCandidacy(env: Env, r: Replica, responses: seq<Response>): Replica {
    var r' := KeepVotes(env, r, LastIndex(r.log), QuorumSize(r), responses);
    var enough := |CountedVotes(env, LastIndex(r.log), responses)| >= QuorumSize(r);
    if enough && r.role == Candidate then BecomeLeader(env, r') else r'
  }

  predicate CountsFor(env: Env, vote: Vote, leader: u64) {
    && env.verify(vote.voter, vote.signature, VoteText(vote))
    && vote.group == env.gid
    && vote.candidateId == leader
    && vote.granted
  }

  /** The members among the signers of countable votes; outsiders and repetitions add nothing. */
  function ValidVoters(env: Env, members: set<u64>, votes: seq<Vote>, leader: u64): set<u64> {
    set i | 0 <= i < |votes| && votes[i].voter in members && CountsFor(env, votes[i], leader) :: votes[i].voter
  }

  /** A member's vote that cannot be verified because its public key is not known; trying to crashes. */
  predicate Unverifiable(env: Env, members: set<u64>, vote: Vote) {
    vote.voter in members && !env.hasKey(vote.voter)
  }

  /** Enough votes came to be verified, and verifying one of them crashes. */
  predicate KeyMissing(env: Env, r: Replica, req: AppendRequest) {
    && |req.quorumVotes| >= QuorumSize(r)
    && exists i :: 0 <= i < |req.quorumVotes| && Unverifiable(env, r.peers.Keys, req.quorumVotes[i])
  }

  predicate ConvincedBy(env: Env, r: Replica, req: AppendRequest) {
    !KeyMissing(env, r, req) && |ValidVoters(env, r.peers.Keys, req.quorumVotes, req.leaderId)| >= QuorumSize(r)
  }

  // ---------- receiving entries ----------

  datatype AppendOutcome =
    | NoReply              // the call returned an error
    | Replied(reply: AppendReply)
    | GroupMismatchPanic
    | KeyPanic             // a vote could not be verified for want of a key

  /** The request claims leadership with votes, in a term that is not over: the votes are weighed. */
  predicate WeighsVotes(r: Replica, req: AppendRequest) {
    req.leaderId in r.peers && |req.quorumVotes| > 0 && req.leaderId != r.leader && req.term >= r.term
  }

  /** The leader check of AppendEntries; None when the request is turned away. */
  function AcceptLeader(env: Env, r: Replica, req: AppendRequest): Option<Replica> {
    if |req.quorumVotes| > 0 && req.leaderId != r.leader then
      if req.term < r.term || !ConvincedBy(env, r, req) then None
      else Some(Follow(r, req.leaderId, req.term))
    else if req.leaderId != r.leader then None
    else Some(r)
  }

  /** The verification loop: consecutive indexes, each hash chained onto the one before. */
  function VerifyFrom(h: Hasher, expected: Bytes, next: u64, entries: seq<LogEntry>): bool
    decreases |entries|
  {
    if entries == [] then true
    else
      var e := entries[0];
      var hash := LogHash(h, expected, next, e.command.funcId, e.command.arg);
      e.index == next && e.hash == hash && VerifyFrom(h, hash, Inc64(next), entries[1..])
  }

  /** Iterations of a loop whose uint64 bound is `next + n`: none at all when that sum wraps. */
  function LoopCount(next: u64, n: nat): (count: nat)
    ensures count <= n
  {
    var end := Add64(next, n);
    if next < end then end - next else 0
  }

  function BatchVerified(env: Env, log: seq<LogEntry>, entries: seq<LogEntry>): bool {
    var next := Inc64(LastIndex(log));
    VerifyFrom(env.sha1, HeadHash(env.sha1, env.gid, log), next, entries[..LoopCount(next, |entries|)])
  }

  datatype BatchResult = BatchResult(log: seq<LogEntry>, applied: seq<LogEntry>, panicked: bool)

  /** Appending and applying one by one; a failed append is ignored and the entry still applied. */
  function AppendAll(env: Env, log: seq<LogEntry>, applied: seq<LogEntry>, entries: seq<LogEntry>): BatchResult
    decreases |entries|
  {
    if entries == [] then BatchResult(log, applied, false)
    else
      match AppendLocal(env.sha1, env.gid, log, entries[0])
      case GroupPanic => BatchResult(log, applied, true)
      case Stored => AppendAll(env, Insert(log, entries[0]), applied + [entries[0]], entries[1..])
      case _ => AppendAll(env, log, applied + [entries[0]], entries[1..])
  }

  function ReportOne(env: Env, reply: AppendReply, e: LogEntry): AppendReply {
    if env.knows(e.command.clientId) then reply.(term := e.term, index := e.index, hash := e.hash) else reply
  }

  /** The reply follows the entries whose client is a known host, and only those. */
  function ReportKnown(env: Env, reply: AppendReply, entries: seq<LogEntry>): AppendReply
    decreases |entries|
  {
    if entries == [] then reply
    else
      ReportKnown(env, ReportOne(env, reply, entries[0]), entries[1..])
  }

  function FirstReply(env: Env, r: Replica): AppendReply {
    AppendReply(r.term, LastIndex(r.log), env.self, false, false, HeadHash(env.sha1, env.gid, r.log))
  }

  /** AppendEntries past the leader check; `reply` still carries the values read before it. */
  function ReceiveEntries(env: Env, r: Replica, reply: AppendReply, req: AppendRequest): (Replica, AppendOutcome) {
    if req.entries == [] then (r, Replied(reply))
    else if req.prevLogIndex != LastIndex(r.log) then (r, Replied(reply))
    else if req.entries[0].index != Inc64(LastIndex(r.log)) then (r, Replied(reply))
    else if req.prevLogTerm != LastTerm(r.log) then (r, NoReply)
    else if !BatchVerified(env, r.log, req.entries) then (r, Replied(reply))
    else
      var batch := AppendAll(env, r.log, r.applied, req.entries);
      (r.(log := batch.log, applied := batch.applied),
       if batch.panicked then GroupMismatchPanic else Replied(ReportKnown(env, reply, req.entries).(successed := true)))
  }

  function AppendEntries(env: Env, r: Replica, req: AppendRequest): (Replica, AppendOutcome) {
    if req.leaderId !in r.peers then (r, NoReply)
    else
      match AcceptLeader(env, r, req)
      case None => (r, if WeighsVotes(r, req) && KeyMissing(env, r, req) then KeyPanic else NoReply)
      case Some(led) =>
        if !env.hasKey(led.leader) then (led, NoReply)
        else ReceiveEntries(env, led, FirstReply(env, r).(convinced := true), req)
  }

  // ---------- the leader's side ----------

  datatype Suffix = Suffix(entries: seq<LogEntry>, prevIndex: u64, prevTerm: u64)

  /** PeerUncommittedLogEntries: the backward scan stops at the first index below NextIndex, or when the log ends. */
  function Uncommitted(log: seq<LogEntry>, peer: Peer): Suffix {
    var n := CountBelow(log, peer.nextIndex);
    if (peer.nextIndex == 0 && peer.matchIndex == 0) || log == [] then Suffix(log[n..], 0, 0)
    else
      var prev := if n > 0 then log[n - 1] else log[0];
      Suffix(log[n..], prev.index, prev.term)
  }

  function HeartbeatRequest(env: Env, r: Replica, id: u64): AppendRequest
    requires id in r.peers
  {
    var suffix := Uncommitted(r.log, r.peers[id]);
    var votes := if env.self in r.sendVotes && r.sendVotes[env.self] then r.votes else [];
    AppendRequest(env.gid, r.term, env.self, suffix.prevIndex, suffix.prevTerm, votes, suffix.entries)
  }

  function TrackPeer(peer: Peer, index: u64): Peer {
    if index != peer.matchIndex then peer.(matchIndex := index, nextIndex := Inc64(index)) else peer
  }

  /** A verifiable reply in the name of a host outside the group dereferences a missing peer. */
  predicate ReplyCrashes(env: Env, r: Replica, reply: AppendReply) {
    env.hasKey(reply.peer) && reply.peer !in r.peers
  }

  /** One reply of a heartbeat round; replies of hosts without a public key are passed over. */
  function HandleReply(env: Env, r: Replica, reply: AppendReply): Replica {
    if !env.hasKey(reply.peer) || reply.peer !in r.peers then r
    else
      r.(peers := r.peers[reply.peer := TrackPeer(r.peers[reply.peer], reply.index)],
         sendVotes := r.sendVotes[reply.peer := !reply.convinced])
  }

  /** A whole heartbeat round of replies, up to the first that crashes, if any; None is a failed call. */
  function HandleReplies(env: Env, r: Replica, replies: seq<Option<AppendReply>>): (res: (Replica, bool))
    ensures res.0.peers.Keys == r.peers.Keys
    decreases |replies|
  {
    if replies == [] then (r, false)
    else if replies[0].None? then HandleReplies(env, r, replies[1..])
    else if ReplyCrashes(env, r, replies[0].value) then (r, true)
    else HandleReplies(env, HandleReply(env, r, replies[0].value), replies[1..])
  }

  function NextEntry(env: Env, r: Replica, cmd: Command): LogEntry {
    var index := Inc64(LastIndex(r.log));
    LogEntry(r.term, index, LogHash(env.sha1, HeadHash(env.sha1, env.gid, r.log), index, cmd.funcId, cmd.arg), cmd)
  }

  /** ExecCommand lets a command in on the strength of the leader field, before it takes the group lock. */
  predicate Admits(env: Env, r: Replica) {
    r.leader == env.self
  }

  /** The append of a command that was let in; the log is untouched when it fails. */
  function AppendOwn(env: Env, r: Replica, cmd: Command): Replica {
    var e := NextEntry(env, r, cmd);
    if AppendLocal(env.sha1, env.gid, r.log, e) == Stored then r.(log := Insert(r.log, e)) else r
  }

  /**
   The rest of ExecCommand, under the lock: append, and apply what was appended. Whether the member still takes itself
   for leader is not asked again.
   */
  function ExecAdmitted(env: Env, r: Replica, cmd: Command): Replica {
    if AppendLocal(env.sha1, env.gid, r.log, NextEntry(env, r, cmd)) != Stored then r
    else AppendOwn(env, r, cmd).(applied := r.applied + [NextEntry(env, r, cmd)])
  }

  // ---------- pulling ----------

  /** PullAndCommitGroupLogs on the entries received: stop at the first that cannot be appended. */
  function PullEntries(env: Env, r: Replica, entries: seq<LogEntry>): (res: (Replica, bool))
    decreases |entries|
  {
    if entries == [] then (r, false)
    else
      match AppendLocal(env.sha1, env.gid, r.log, entries[0])
      case GroupPanic => (r, true)
      case Stored =>
        PullEntries(env, r.(log := Insert(r.log, entries[0]), applied := r.applied + [entries[0]]), entries[1..])
      case _ => (r, false)
  }
}
