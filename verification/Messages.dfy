/** The records and requests of proto/server/server.proto that the group protocol exchanges. */
module Messages {
  import opened Words

  datatype Command = Command(
    group: u64,
    clientId: u64,
    requestId: u64,
    funcId: u64,
    signature: Bytes,
    arg: Bytes)

  datatype LogEntry = LogEntry(term: u64, index: u64, hash: Bytes, command: Command)

  datatype Peer = Peer(id: u64, group: u64, nextIndex: u64, matchIndex: u64)

  datatype VoteRequest = VoteRequest(group: u64, term: u64, logIndex: u64, logTerm: u64, candidateId: u64)

  /** RequestVoteResponse. */
  datatype Vote = Vote(
    group: u64,
    term: u64,
    logIndex: u64,
    candidateId: u64,
    voter: u64,
    granted: bool,
    signature: Bytes)

  datatype AppendRequest = AppendRequest(
    group: u64,
    term: u64,
    leaderId: u64,
    prevLogIndex: u64,
    prevLogTerm: u64,
    quorumVotes: seq<Vote>,
    entries: seq<LogEntry>)

  datatype AppendReply = AppendReply(
    term: u64,
    index: u64,
    peer: u64,
    successed: bool,
    convinced: bool,
    hash: Bytes)

  datatype Invitation = Invitation(group: u64, leader: u64, node: u64)

  /** A client command that the member `n` has let in as leader and that waits for its group lock. */
  datatype Held = Held(n: u64, cmd: Command)
}
