# BFTRaft4go consensus core: model and proofs

A Dafny model of the per-group consensus of BFTRaft4go and proofs about it. A group is a Raft variant with
hash-chained logs, lazy voting and majority quorums, kept over one ordered key/value store per server.

- `Words`, `Messages`: machine words (uint64 with wrap-around) and the records that are exchanged.
- `Encoding`, `OrderedStore`: big-endian keys and the cursors over the byte-ordered store, as a refinement of a typed log
  and a typed peer map.
- `SignText`: the texts that are signed. `LogChain`: the hash chain.
- `Replica`: what each operation does to one member, as functions. `RTGroup`: the same operations in the source's form,
  a class updated in place over the store, each method proved to act as its function in `Replica`.
- `VotingRules`, `AppendingRules`: what each operation means, said of state and messages alone, without those functions.
- `Batches`, `Replication`, `CatchUp`, `Pulling`: exchanging entries; one leader over a faulty network; progress; observers.
- `MemberRuns`, `ChainRuns`, `Admission`: one member over whole runs of arbitrary events and client commands.
- `Election`, `ElectionSafety`, `Wins`, `Polls`, `ElectionExact`: elections as interleaved steps of all members. What
  RequestVote (under VoteLock) and BecomeCandidate (under the group lock) read and write of each other's fields is one
  step each.
- `LogMatching`, `OneAppender`, `SystemRuns`, `LogMatchingExact`, `LeaderCompleteness`: elections and replication in one
  system with any number of leaders.
- `Quorum`, `ClientReplies`: quorum arithmetic, majority selection, and the two places that stack one quorum on another.

Four assumptions stand in for cryptography and are written out wherever they are used. SHA-1 is any function with 20-byte
results, and FNV any function to 64 bits; collision-freedom is required only of the finite set of strings actually hashed.
Signing is any function. That members have each other's keys and can check each other's signatures is assumed only where a
theorem says `Wins.Sound`.

## What the proofs say about the code

These follow from the code as it is, and in places contradict its comments and log messages.

- One vote per term is not enforced, for three reasons. A request below the last voted term is only logged
  (server/group.go:591-593). ResetTerm clears the vote record whatever the new term (server/vote.go:22-26). And RequestVote
  and BecomeCandidate hold different locks, so that the term read at server/group.go:565 may be compared with a vote record
  that a candidacy has cleared since (server/group.go:599). Each alone breaks it: `OneLeaderExactly` says that every run
  has one leader per term if and only if voters take care of all three, or the group has at most four members.
- ExecCommand reads the leader field before it takes the group lock and not again under it (server/bftraft.go:59-60). A
  member that was deposed meanwhile appends in the new leader's term. `LogsMatchExactly`,
  `OnlyLeaderRoleAppendsExactly` and `PhaseIsSafeExactly` say what holds with the test under the lock, and that it fails
  without it.
- An entry that a quorum has applied may be missing from a later leader's log, in every group of three or more
  (`LosesExactly`): nothing waits for a quorum, and votes are counted that were given before the entry was stored.
- A candidate never counts its own vote: its own request fails the check `groupTerm >= reqTerm`. Groups of one or two never
  elect anyone, and all larger ones can (`ElectsExactly`).
- A leader does not refuse to vote: for a request above its term it grants at once, not being a follower.
- Pulling never makes progress (`PullMakesNoProgress`): the responder drops the entry at the requested index. Nor does any
  member ever pull: no start and no operation makes an observer (`OnboardedNeverPull`).
- A peer record (0, 1) would make PeerUncommittedLogEntries send a wrong predecessor (`PredecessorExact`); no reachable
  state has one (`BatchesAreCutRight`).
- The hash covers neither terms (`TermsAreNotCovered`) nor does a vote's signature cover the voter (`VoteTextInjective`)
  or a vote request's signature the last log term, whose place holds the term a second time.
- A node that joins as the named leader sets its leader field to the constant LEADER, which is 0, not to itself
  (server/membership.go:306-309).
- A restart scan of a lone host starts a follower that takes itself for leader and panics on its first timeout
  (`TimerPanicExact`).

## Model

| member | source | states |
|---|---|---|
| `ElectionSafety.ElectionSafety` | server/group.go:559-632 | In a group of any size, over every interleaving of what voters and candidates read and write under their two locks, of late votes, wins and arbitrary incoming requests, a run in which no voter resets its term to below the term it last voted in, none grants below it, and no voter's own candidacy overlaps the checks or the record of a vote has at most one leader per term; a candidacy during the lazy wait is free, and requests that convince nobody may say anything |
| `ElectionExact.OneLeaderExactly` | server/vote.go:22-38 | For each choice of care (of resets, of grants, of overlaps, in any combination): every run that takes it has at most one leader per term if and only if it covers all three or the group has at most four members |
| `ElectionExact.TwoLeaders` | server/group.go:591-620 | For every group of five or more and every care that is not all three, two members win the same term: a voter forgets its vote by running for leader, or by a vote in an earlier term; or its own candidacy falls between the read of its term and the read of its vote record |
| `Polls.CastsVote` | server/group.go:559-632 | A voter can vote in term 3 after a first candidacy, after another candidacy that clears such a vote, after a vote for a delayed request of term 2, across a candidacy in the middle of its checks, or as a leader of a lower term; each way leaves the care it does not break |
| `ElectionExact.ElectsExactly` | server/vote.go:93-116 | Some run elects a leader, even with every care taken, if and only if the group has at least three members |
| `ElectionExact.OneLeader` | server/vote.go:33-123 | In every group of three or more a careful run makes a member leader by the votes of all others |
| `ElectionSafety.SmallGroupsAreSafe` | server/vote.go:93-107 | In groups of at most four every run has at most one leader per term, with no assumption on the voters |
| `ElectionSafety.NoElectionBelowThree` | server/group.go:586-590 | A candidate's request never passes its own term check, so no run of a group of one or two elects anyone (the other direction is ElectsExactly) |
| `ElectionSafety.ElectionRestriction` | server/group.go:565-598 | Behind every won candidacy of every run stand more than half of the group as distinct other members, each asked when its last index was no larger than the winner's and its term lower than the won term by at most 20 |
| `ElectionSafety.ReachableHasInv` | server/vote.go:33-138 | Every reachable state has the election invariant: requests never ahead of their sender's term, grants that passed the checks on what was read, one vote per voter and candidacy, a quorum behind each win, and no two members supporting each other in one term |
| `ElectionSafety.RunKeepsInv` | server/vote.go:33-138 | Any run from a state with the election invariant ends in one |
| `ElectionSafety.CarefulRunKeeps` | server/group.go:591-603 | Along careful runs every past grant stays covered: its term is over, outvoted, or still on record, a record that is half written counting as written; and no voter has granted two candidates of one term |
| `ElectionSafety.ResetCoversExactly` | server/vote.go:22-27 | A reset at or above the last voted term keeps every grant covered; a reset below it uncovers the grant on record |
| `ElectionSafety.QuietVoterKeepsInv` | server/group.go:567-603 | The checks on what was read, at whatever moments, establish that the granted term and index were those of a fair vote |
| `ElectionSafety.CarefulVoter` | server/group.go:565-618 | With every care each step of a vote keeps every past grant covered: the term read at the start is still the voter's term when its record is read |
| `ElectionSafety.CarefulCandidate` | server/vote.go:33-56 | With every care each write of a candidacy keeps every past grant covered, between the writes too |
| `Election.CandidacyInOneGo` | server/vote.go:33-56 | The writes of a candidacy one after the other are what BecomeCandidate does in one go |
| `Election.MarkAndGiveRecord` | server/group.go:618-619 | The two writes of a grant one after the other are the vote record |
| `Election.ChecksInOneGo` | server/group.go:565-603 | The reads and checks of a vote one after the other are those of RequestVote |
| `ElectionSafety.LookKeepsInv` | server/group.go:559-565 | Beginning a vote request keeps the election invariant: nobody starts to consider a candidate of a term in which that candidate has considered it |
| `ElectionSafety.GiveKeepsInv` | server/group.go:615-631 | Granting after the wait keeps the election invariant even when the voter's term, role or log moved since they were read |
| `ElectionSafety.CampaignKeepsInv` | server/vote.go:33-123 | Every step of a candidacy keeps the election invariant; the votes counted at a win come from a quorum of distinct members |
| `Election.LocalEffect` | server/group.go:257-266 | A local operation resets term and vote record, to a request term not below the current one, exactly when a peer claims leadership with votes that convince; in every other case, whatever arrives, it leaves both alone |
| `Wins.WinnerConvinces` | server/vote.go:100-105 | The votes a winner keeps make every member with the same membership accept it as leader, when members can check each other's signatures |
| `Wins.AnnouncementIsFollowed` | server/group.go:256-266 | The first heartbeat of a winner makes a member that does not follow it yet its follower, in the winner's term, exactly when the member's own term is not ahead |
| `Wins.SoundVotesCount` | server/vote.go:70-72 | Genuine votes from logs that are not longer are all counted, in the order they came in |
| `Batches.AcceptedLeadersShareAVoter` | server/vote.go:140-191 | Any two leaders that members of one membership accept have a voter in common who has signed a granted vote for each of them in its group |
| `VotingRules.RequestWaitsExactly` | server/group.go:565-603 | When nothing comes between the checks, a request waits for its vote if and only if its term is above the voter's by 1 to 20, its last index is not smaller, and the vote record does not name another candidate for that term; otherwise it is refused, and an empty log crashes |
| `VotingRules.JudgedExactly` | server/group.go:586-603 | The same of the term and last index that the voter has read, against the vote record as it is at that moment |
| `VotingRules.CandidacyDecidedExactly` | server/vote.go:66-123 | A candidate becomes leader if and only if more than half of its group answered with grants, signed by the hosts asked, from logs that are not longer; role and leader field change with a win alone, and the kept votes change only when there are enough |
| `VotingRules.KeptVotesMean` | server/vote.go:100-107 | The votes kept are those of the first answers that count, a quorum of them, in order of arrival |
| `VotingRules.ConvincedExactly` | server/vote.go:140-190 | A claim of leadership convinces if and only if every voting member's key is known and more than half of the group are voters of signed grants for that leader in that group |
| `VotingRules.KeyMissingExactly` | server/vote.go:145-162 | The check crashes if and only if enough votes came and one names a member whose key is not known |
| `VotingRules.AnswerMeans` | server/group.go:568-578 | An answer names the voter, its group, the candidate, and the term and last index that the voter read, and is signed as it stands |
| `VotingRules.RequestMeans` | server/vote.go:38-54 | A candidacy asks in its own name, group and term with index and term of its last entry, or zeros |
| `VotingRules.CandidacyMeans` | server/vote.go:33-39 | The state after a candidacy begins, field by field, with every peer and no one else marked for votes |
| `VotingRules.FollowMeans` | server/vote.go:179-182 | The state after a leader is accepted, field by field, with every peer and no one else marked for votes |
| `VotingRules.ResetMeans` | server/vote.go:22-29 | The state after a reset, field by field, with every peer and no one else marked for votes |
| `VotingRules.GrantMeans` | server/group.go:618-619 | A grant puts candidate and requested term on record and changes nothing else |
| `VotingRules.TimerMeans` | server/group.go:207-227 | What the timer does, by role: run for leader, panic, send a heartbeat or pull, each exactly when it should be |
| `MemberRuns.TermAndLogOnlyGrow` | server/vote.go:22-38 | Over every run of arbitrary events the term never decreases, no stored entry is overwritten or removed, and no applied command is forgotten |
| `MemberRuns.CandidacyRaisesTerm` | server/vote.go:33-38 | A candidacy anywhere in a run leaves the term strictly above where the run began |
| `MemberRuns.OwnAppendFailsOnlyOnWrap` | server/bftraft.go:74-84 | A leader's own append fails exactly when its uint64 index counter wraps onto a stored index 0, and then as an existing entry |
| `MemberRuns.EventGrows` | server/group.go:257-404 | Each single event grows term, log and applied commands only; a timeout that starts a candidacy adds exactly one to the term |
| `MemberRuns.LeaderFieldTracksRole` | server/group.go:207-227 | Over every honest run the leader field names the member itself exactly while its role is leader |
| `MemberRuns.TimerPanicExact` | server/group.go:212-215 | The panic "Follower is leader" is reachable from a start if and only if that start is the restart scan of a group with fewer than two known hosts |
| `Admission.OnlyLeaderRoleAppendsExactly` | server/bftraft.go:58-92 | From the start of a group's creator with another member, every honest run appends client commands in the leader role alone if and only if commands are appended only while the test that let them in still holds; the source tests the leader field before it takes the lock, and not again |
| `Admission.RoleIsTheTest` | server/bftraft.go:59 | In every honest run each append is made in the leader role exactly when the leader field still names the member at that moment |
| `Admission.DeposedLeaderAppends` | server/bftraft.go:58-92 | A leader lets a command in, becomes a follower of another, and appends the command as a follower |
| `MemberRuns.OnboardedNeverPull` | server/group.go:222-226 | From every start and over every run of arbitrary events a member never takes the observer role, so its timer never pulls |
| `MemberRuns.NeverObserves` | server/group.go:24-29 | No operation turns a member into an observer |
| `ChainRuns.ChainSurvivesRuns` | server/group.go:299-404 | Under any number of leaders and whatever events, the log of a member that is no observer stays one valid hash chain 1..n, is only extended at its end, and equals what was applied, in order and once each |
| `ChainRuns.PullKeepsChain` | server/observer.go:35-52 | An observer that pulls entries in index order keeps its chain and what it applied in step as well |
| `ChainRuns.MembersMatchDownward` | server/log_entries.go:120-139 | After any two such runs of two members, entries with equal hashes stand at one index, and contents and hashes agree from there down |
| `ChainRuns.VerifiedBatch` | server/group.go:309-376 | A verified batch of any sender is stored and applied up to its first command of another group, where it panics, and in full when there is none; the log stays a valid chain |
| `LogMatching.LogsMatch` | server/group.go:299-404 | Log matching over elections and replication together, leaders coming and going: where a run has had one leader per term and waiting commands were appended by members that still led, entries of two members with one index and one term are one entry, everything before them is the same, and each member has applied exactly its log |
| `LogMatching.GuardedLogsMatch` | server/group.go:559-632 | Hence, with commands so guarded, the logs match by index and term after every run with careful elections in any group and after every run of a group of at most four |
| `LogMatchingExact.LogsMatchExactly` | server/bftraft.go:58-92 | For each choice of care in elections and with or without the guard on waiting commands: the logs match by index and term after every run if and only if the guard is there and either every care is taken or the group has at most four members, or the group has at most two |
| `LogMatchingExact.LogsPart` | server/bftraft.go:70-92 | In every group of five or more, with any lesser care, two leaders of one term append different commands at one index |
| `LogMatchingExact.LateAppendParts` | server/bftraft.go:59-84 | Without the guard, in every group of three or more and with every care in elections, a command that waits while its leader is deposed is appended in the new leader's term, at an index where the new leader appends another |
| `OneAppender.PairsMatch` | server/group.go:299-404 | In groups of one or two the logs match after every run, guarded or not, since nobody but the founder ever leads |
| `LeaderCompleteness.LosesExactly` | server/consensus.go:15-28 | With whatever care and guard, some run leaves a leader of a later term without an entry that a quorum has stored and applied, if and only if the group has at least three members |
| `LeaderCompleteness.AppliedEntryIsLost` | server/bftraft.go:84-88 | In every such group the founder's entry can go round to all but a candidate that already has their votes |
| `LogMatching.RunKeepsInv` | server/group.go:232-507 | Along a run with one leader per term every entry can be traced to the log of the one owner of its term, and every request sent is a cut of its sender's log with the right predecessor |
| `LogMatching.RequestFollowsSender` | server/group.go:299-322 | A member whose log matches the sender's takes a cut of that log only onto the same prefix, so its log becomes a prefix of the sender's or stays |
| `LogMatching.HeartbeatIsCut` | server/peers.go:29-70 | Whatever the peer record says, the entries sent are the end of the sender's log, and if the predecessor index is the one before them its term is right |
| `LogChain.HeadHashDeterminesLog` | server/log_entries.go:78-87 | Without SHA-1 collisions among the hashed strings, equal head hashes mean the same group, the same length and the same contents, empty logs included |
| `LogChain.ContentsFixHashes` | utils/signature.go:67-70 | Conversely equal contents give equal hashes everywhere, whatever the hash function |
| `LogChain.HashesMatchDownward` | server/log_entries.go:129-132 | In two valid chains, entries with equal hashes stand at one index and all entries down to the first agree in content and hash |
| `LogChain.EntryTextInjective` | utils/signature.go:67-70 | The layout 20 + 8 + 8 + arguments makes the hashed string of an entry unambiguous |
| `LogChain.EntryLayout` | utils/signature.go:67-70 | Bytes 0 to 19 are the hash before, 20 to 27 the index, 28 to 35 the function, and the rest the argument |
| `LogChain.GenesisLayout` | server/log_entries.go:82 | The genesis text is "GROUP:" and the group's number |
| `LogChain.ChainWritten` | server/log_entries.go:120-139 | A valid chain written out: indexes from 1, this group, each hash over the entry before, index, function and argument |
| `LogChain.GenesisIsNoEntry` | server/log_entries.go:81-83 | A genesis text has at most 26 bytes and an entry text at least 36, so neither can pass for the other |
| `LogChain.EntryHashIsNoGenesis` | server/log_entries.go:78-87 | The head hash of a non-empty chain is never a genesis hash of any group |
| `LogChain.ChainExtend` | server/log_entries.go:120-136 | An entry linked to the head extends the chain, and AppendEntryToLocal stores it at the end |
| `LogChain.ChainIsAscending` | server/log_entries.go:89-96 | In a valid chain the last index is the length and exactly the indexes 1..n are stored |
| `LogChain.TermsAreNotCovered` | utils/signature.go:67-70 | For every hash function there are two valid logs that differ in a term under one hash: the chain does not protect terms |
| `LogChain.InsertKeepsOrder` | server/log_entries.go:125-135 | Storing an absent index keeps the log in index order and keeps every other entry |
| `Batches.BatchIsAllOrNothing` | server/group.go:299-404 | A batch of this group's commands is stored and applied whole if and only if it continues the follower's chain with the right predecessor; in every other case log and applied commands are unchanged |
| `AppendingRules.OthersAreTurnedAway` | server/group.go:253-269 | A request that does not come from the leader and does not convince, or comes from no peer, changes nothing at all and is answered with an error, or crashes for want of a voter's key exactly when votes of a peer were to be weighed |
| `AppendingRules.LeadersAreHeard` | server/group.go:242-283 | Any other request is taken by a member that its sender leads, from now on if not before; the reply carries the term and head of the log as they were, and without the leader's key nothing is stored and an error is answered |
| `AppendingRules.AnswersExactly` | server/group.go:284-415 | A batch of this group is answered with an error if and only if it follows in index and its predecessor has another term, with the report of a taken batch if and only if it continues the chain, and otherwise with where the member stands |
| `AppendingRules.ReplyMeans` | server/group.go:379-401 | Index, term and hash of the reply are those of the batch's last entry of a known client, and as before when there is none |
| `AppendingRules.BatchIsApplied` | server/group.go:371-378 | Every entry of a batch that does not panic is applied once and in order, even one that could not be stored |
| `AppendingRules.BatchPanicsExactly` | server/log_entries.go:121-124 | A batch panics if and only if it holds a command of another group |
| `AppendingRules.LoopRunsExactly` | server/group.go:309 | The verification loop runs over the whole batch, or not at all when the index after it does not fit 64 bits |
| `AppendingRules.StoredExactly` | server/log_entries.go:120-145 | The four ends of an append: another group, an index that is stored, a hash over the head of the log, index, function and argument, or another hash |
| `AppendingRules.CommandIsStored` | server/bftraft.go:74-90 | An executed command is stored as it came, in the member's term, at the next index, hashed onto the head of the log, and applied once |
| `AppendingRules.CutMeans` | server/peers.go:37-57 | For every peer record: the entries from NextIndex on, preceded by the entry before them, by nothing for a new peer, and by the first entry itself where there is none before |
| `AppendingRules.HeartbeatMeans` | server/group.go:438-456 | A heartbeat speaks for its sender in its group and term, and carries the kept votes exactly while the sender itself is marked for them |
| `AppendingRules.RecordedExactly` | server/group.go:477-505 | A reply of a peer with a known key sets its match to the reported index, be it more or less than before, and its mark to whether it still has to be convinced; any other reply changes nothing |
| `AppendingRules.RoundCrashesExactly` | server/group.go:471-490 | A round of replies crashes if and only if one with a known key names a host outside the group |
| `AppendingRules.LetInExactly` | server/bftraft.go:59 | Commands are let in on the leader field alone |
| `AppendingRules.PullMeans` | server/observer.go:35-52 | A pull applies, in order and once each, the entries up to the first that cannot be stored |
| `AppendingRules.PullPanicsExactly` | server/log_entries.go:121-124 | A pull panics if and only if the entry it stops at is of another group |
| `AppendingRules.PullStores` | server/observer.go:38-51 | What a pull applies it has stored, and nothing that was stored is lost |
| `Batches.VerifiedMeansChained` | server/group.go:308-322 | The verification loop passes if and only if the batch continues the valid chain it is checked against |
| `Batches.BatchVerifiedMeansChained` | server/group.go:292-322 | The same for the whole check with its uint64 loop bound, which covers the entire batch when no index wraps |
| `Batches.ChainedBatchIsStored` | server/group.go:337-376 | After verification every later append succeeds and every entry is applied once, in order |
| `Batches.ForeignCommandPanics` | server/log_entries.go:120-124 | A verified batch panics exactly at its first command of another group, everything before it being stored and applied |
| `Batches.OneAcceptProvesEverything` | server/group.go:299-322 | Accepting one batch cut from any sender's valid chain proves that the follower's log had the sender's contents before the batch and has them through its end afterwards |
| `Batches.ReportKeepsFlags` | server/group.go:379-401 | The reply keeps its flags and sender, and its index is the one read first or the index of an entry of the batch |
| `Batches.SuffixAfterMatch` | server/peers.go:29-70 | From a record (0, 0) or (k, k+1) the leader cuts exactly the ascending entries after k, with the entry at k (or 0, 0) as predecessor |
| `Batches.PredecessorExact` | server/peers.go:44-57 | For a record (k, k+1) the predecessor is right if and only if k is at least 1 or nothing is logged; (0, 1) sends the first entry both as predecessor and as content |
| `Replication.SingleLeaderSafety` | server/group.go:284-405 | While one node leads and no other member has commands waiting, with requests lost, delayed or processed repeatedly, every member's log is a prefix of the leader's and the commands it applied are exactly its log, in order and once each |
| `Replication.PhaseIsSafeExactly` | server/bftraft.go:59-84 | A phase of one leader is safe from every start with given waiting commands if and only if all of them are the leader's own: one that an earlier leader has let in breaks the prefix |
| `Replication.BatchesAreCutRight` | server/peers.go:29-70 | In every reachable state every peer record is (0, 0) or (k, k+1) with k not above the peer's log length, and PeerUncommittedLogEntries returns exactly the suffix after k with the right predecessor |
| `Replication.NoDeliveryPanics` | server/log_entries.go:120-124 | No request of a reachable state, however late it is delivered, makes a member panic over a foreign command |
| `Replication.RunKeepsInv` | server/group.go:418-507 | Any run from a state with the replication invariant ends in one |
| `Replication.DeliverAlongLog` | server/group.go:232-405 | A delivered cut of the leader's log moves a member from one prefix of that log to another, never back, and the reply names an index it really holds |
| `Replication.OwnAppend` | server/bftraft.go:74-90 | A leader's own append never fails: it extends log and applied commands by one and the same entry, and the chain stays valid |
| `CatchUp.ThreeRoundsSuffice` | server/group.go:471-506 | Against a fixed leader log two delivered heartbeat rounds make the follower's log equal to it and three make MatchIndex its length, even when replies lag behind for unknown clients |
| `CatchUp.RoundProgress` | server/group.go:489-505 | Every delivered round strictly closes the gap of missing entries and missing knowledge until nothing is missing, and keeps the pair in order |
| `CatchUp.MatchedRound` | server/group.go:379-401 | A follower at its record takes everything that is missing in one round; the reported index may lag anywhere in between |
| `CatchUp.ReportingRound` | server/group.go:405-415 | A follower ahead of its record, or complete, takes nothing and the leader learns its true length |
| `Pulling.PullKeepsPrefix` | server/observer.go:35-52 | Whatever entries of the responder's chain are offered in whatever order, the observer appends and applies exactly the leading run of next entries and then stops |
| `Pulling.OnlyTheNextIsStored` | server/log_entries.go:125-132 | Of all entries of a chain an observer at a prefix can store exactly the next one: earlier ones exist, later ones fail the hash |
| `Pulling.PullMakesNoProgress` | server/bftraft.go:186-199 | The observer asks for its next index, the responder drops that very entry, and nothing that is left can be chained: a pull leaves the observer unchanged |
| `Pulling.PullFromLastIndexCompletes` | server/observer.go:19-22 | Asked for the last index instead of the next, the same responder would bring a non-empty observer up to date in one pull |
| `Pulling.StoredKeepsChain` | server/log_entries.go:120-145 | A stored entry keeps the chain a chain if and only if its index is the next one, which AppendEntryToLocal leaves to its callers |
| `Quorum.PickMajority` | utils/consensus.go:48-65 | The result is a function of the multiset of hashes: independent of list order and of the order in which the map iterates |
| `Quorum.MajorityMeaning` | utils/consensus.go:58-64 | That function is the value held by more than half, and 0 exactly when there is none or 0 itself holds the majority |
| `Quorum.MajorityIsUnique` | utils/consensus.go:58-64 | At most one value can reach the threshold |
| `Quorum.MajorityResponse` | utils/consensus.go:67-112 | The answer is that of the last response with the majority feature whenever there is one and features do not collide, responses without a result not counting; otherwise it is a response that was received, and None only if none was |
| `Quorum.FeatureCounts` | utils/consensus.go:94-102 | A feature is counted once for each response that carries a result and this feature |
| `Quorum.MajorityFeatureHash` | utils/consensus.go:99-104 | Without feature collisions the majority hash is the hash of the majority feature |
| `Quorum.ExpectedPlayersIsMajority` | utils/consensus.go:32-46 | The branches of ExpectedPlayers are one formula, n/2 + 1, for every n |
| `Quorum.QuorumsIntersect` | utils/consensus.go:32-46 | Two quorums of one membership share a member |
| `ClientReplies.ExecCommand` | client/user_client.go:165-190 | With fewer replies than the quorum the client times out; otherwise its answer is determined by the first quorum of replies alone |
| `ClientReplies.ChosenReplyExact` | client/user_client.go:186-188 | That answer is a given non-empty reply with non-zero hash if and only if more than half of the collected replies are that reply |
| `ClientReplies.ChosenReplyMeans` | client/user_client.go:170-188 | In every case the answer is the last reply with the hash that more than half of the replies have, or with hash 0 when there is none, or empty when no reply has that hash |
| `ClientReplies.ClientFaultBound` | client/user_client.go:165-188 | With at most n/4 wrong replies among those collected the client answers the correct one, for every n |
| `ClientReplies.ClientFaultBoundIsTight` | client/user_client.go:165-188 | For every n, one wrong reply more can make the client answer something else |
| `ClientReplies.NestedQuorumSlack` | utils/consensus.go:32-46 | A quorum inside a quorum tolerates exactly n/4 deviations, for every n |
| `ClientReplies.NodeJoin` | server/membership.go:269-316 | A join succeeds if and only if more than half of the members invited; its leader is the majority of the first invitation of each of them, and 0 when that majority is the joining node itself |
| `ClientReplies.FirstInvitationsCount` | server/membership.go:274-279 | A leader is counted once for each member whose first invitation names it; later invitations and those of strangers are not counted |
| `ClientReplies.JoinFaultBound` | server/membership.go:272-309 | With at most n/4 of the counted invitations naming another leader, the joining node starts with the right one (or with 0 when it is that leader itself) |
| `ClientReplies.JoinFaultBoundIsTight` | server/membership.go:272-309 | For every non-empty group, one wrong invitation more among a quorum can make the joining node start with another leader or none |
| `ClientReplies.OneLeaderPerInviter` | server/membership.go:274-279 | Each inviting member contributes exactly one leader, however many invitations it sends |
| `Encoding.RecordKeyOrder` | server/store.go:23-25 | Byte order of composite keys is numeric order on (kind, group, id) |
| `Encoding.RecordKeyPrefix` | server/store.go:23-25 | A record key carries the prefix of its own kind and group and of no other |
| `Encoding.RecordKeyInjective` | server/log_entries.go:116-118 | A record key determines kind, group and id |
| `Encoding.KeyLayout` | server/store.go:9-25 | Log entries are kind 0, peers kind 1, group records kind 2; the group's eight bytes follow the four of the kind, and the id those of the group |
| `Encoding.U64RoundTrip` | utils/encoding.go:16-24 | Decoding undoes encoding wherever the eight bytes lie in a larger buffer |
| `Encoding.U64Order` | utils/encoding.go:16-20 | Byte order of encoded 64-bit numbers is numeric order |
| `Encoding.U32Order` | utils/encoding.go:10-14 | Byte order of encoded 32-bit numbers is numeric order |
| `OrderedStore.LastLogEntry` | server/log_entries.go:60-65 | The reverse seek from the largest index returns exactly the group's entry with the greatest index, and nothing when the group has none |
| `OrderedStore.ReverseSeekFindsLast` | server/log_entries.go:50-58 | The reverse seek lands on the group's last entry or outside the group, whatever else is stored |
| `OrderedStore.ReverseStepFindsPrevious` | server/log_entries.go:37-44 | Each reverse step moves to the entry with the next smaller index and finally leaves the group downward |
| `OrderedStore.LogEntryIterator.constructor` | server/log_entries.go:50-58 | A new reverse iterator has every entry of the group still to visit |
| `OrderedStore.LogEntryIterator.Current` | server/log_entries.go:29-35 | Current is the last entry not yet passed, and nothing once the cursor has left the group |
| `OrderedStore.LogEntryIterator.Next` | server/log_entries.go:37-44 | Next passes exactly one entry and then answers like Current |
| `OrderedStore.LogLookup` | server/log_entries.go:125-127 | A log key is present exactly when its index is stored in the group's log |
| `OrderedStore.StoreEntry` | server/log_entries.go:133-135 | Writing an absent index is inserting the entry into the log in index order |
| `OrderedStore.OtherKindsAreElsewhere` | server/store.go:9-16 | Peer and group records never lie under a log prefix and never share a key |
| `OrderedStore.StoreElsewhere` | server/store.go:23-25 | Writes outside the group's log prefix do not disturb its log |
| `OrderedStore.PullGroupLogs` | server/bftraft.go:182-209 | The forward scan returns everything after the requested index when that index is stored, and nothing otherwise |
| `OrderedStore.PulledMeans` | server/bftraft.go:186-206 | A pull of a stored index is answered with all entries of greater index in order, and of any other index with none |
| `OrderedStore.ForwardSeekFindsFirst` | server/bftraft.go:187-190 | The forward seek lands on the first entry at or above the index, or past the group |
| `OrderedStore.GetGroupPeers` | server/peers.go:12-27 | The prefix scan returns all peers of the group and no others |
| `OrderedStore.StorePeer` | server/peers.go:121-128 | Saving a peer record updates exactly that peer of that group |
| `SignText.ParseVoteRequest` | server/vote.go:14-16 | A signed vote request text can be parsed back to group, term, last index and candidate |
| `SignText.ParseVote` | server/vote.go:18-20 | A signed vote text can be parsed back to group, term, last index, candidate and verdict |
| `SignText.ParseAppend` | server/log_entries.go:156-158 | A signed append text can be parsed back to group, term and predecessor |
| `SignText.ParseInvitation` | server/membership.go:137-139 | A signed invitation text can be parsed back to group, node and leader |
| `SignText.VoteRequestLayout` | server/vote.go:14-16 | Group, term, last index, term again and candidate, in this order, with dashes between |
| `SignText.VoteLayout` | server/vote.go:18-20 | Group, term, last index, term again, candidate and true or false, in this order, with dashes between |
| `SignText.AppendLayout` | server/log_entries.go:156-158 | Group, term, index and term of the predecessor, in this order, with dashes between |
| `SignText.InvitationLayout` | server/membership.go:137-139 | Group, node and leader, in this order, with dashes between |
| `SignText.VoteTextInjective` | server/vote.go:18-20 | Two votes sign alike if and only if they agree on every field but voter and signature: the voter is not covered |
| `SignText.VoteRequestTextInjective` | server/vote.go:14-16 | Two vote requests sign alike if and only if they agree on every field but the last log term, which is not covered |
| `SignText.FormatsAreDisjoint` | server/vote.go:14-20 | No signed text of one of the four kinds is a text of another kind |
| `RTGroup.RTGroup.constructor` | server/group.go:47-68 | A new group starts with no votes, nothing applied, and the given leader, role, peers and stored log |
| `RTGroup.RTGroup.LastEntryIndex` | server/log_entries.go:89-96 | The index of the last stored entry, 0 for an empty log |
| `RTGroup.RTGroup.LastEntryHash` | server/log_entries.go:78-87 | The hash of the last stored entry, the group's genesis hash for an empty log |
| `RTGroup.RTGroup.AppendEntryToLocal` | server/log_entries.go:120-145 | Group panic, existing index, hash mismatch or stored, each exactly when it should be; only stored changes the store, by one entry at its index |
| `RTGroup.RTGroup.ResetTerm` | server/vote.go:22-31 | The whole new state: term set, votes and vote record cleared, every peer marked for votes, and the stored group record showing the new term |
| `RTGroup.RTGroup.BecomeCandidate` | server/vote.go:33-56 | The whole new state and the request sent: term incremented with wrap-around, saved, and asked for with the last index and term of the log |
| `RTGroup.RTGroup.FinishCandidacy` | server/vote.go:93-123 | With the responses that came in time: wins if and only if it is still a candidate and more than half of the group have granted, with a signature of the host asked and from logs that are not longer |
| `RTGroup.RTGroup.CollectVotes` | server/vote.go:96-110 | The counting goroutine, in time or after the candidacy has timed out: the first quorum of granted, signed votes from logs that are not longer replaces the stored votes, fewer change nothing |
| `RTGroup.RTGroup.BecomeLeader` | server/vote.go:125-135 | Role and leader field set, everything else unchanged, group record saved |
| `RTGroup.RTGroup.BecomeFollower` | server/vote.go:140-191 | Succeeds if and only if no voter's key is missing and at least a quorum of distinct group members have validly signed granted votes for that leader in that group; duplicates and outsiders never help; a missing key of a voting member crashes, but only once enough votes came; failure changes nothing |
| `RTGroup.RTGroup.BeginVote` | server/group.go:559-603 | When nothing comes between the checks: waits if and only if the term is above its own by 1 to 20, the last index is not smaller and the vote record does not stand against it; crashes on an empty log; the refusal carries the voter's own term and last index and is signed |
| `RTGroup.RTGroup.TryGrant` | server/group.go:612-624 | A follower keeps waiting unchanged; any other role grants, signs anew and records the vote |
| `RTGroup.RTGroup.AppendEntries` | server/group.go:232-416 | The whole new state and the outcome, leader transfer, error returns and both panics included; a request without votes, or in a term that is over, from anyone but the leader changes nothing and is answered with an error |
| `RTGroup.RTGroup.ReceiveEntries` | server/group.go:284-415 | The same past the leader check, over the real store |
| `RTGroup.RTGroup.StoreAndApply` | server/group.go:337-403 | Stores and applies in order, ignores failed appends, stops at a foreign command, and reports only the entries of known clients |
| `RTGroup.RTGroup.PeerUncommittedLogEntries` | server/peers.go:29-70 | Scan, special case and in-place reversal together return the ascending suffix the value-level cut describes, whatever the peer record |
| `RTGroup.RTGroup.PrepareHeartbeat` | server/group.go:427-456 | One request for every peer but itself, each with its own suffix and predecessor, and votes while this member is itself marked for votes |
| `RTGroup.RTGroup.HandleReply` | server/group.go:477-505 | MatchIndex and NextIndex move together exactly when the reported index differs, and the changed record alone is saved under its own key; a verifiable reply in the name of an outsider crashes and one without a key is passed over |
| `RTGroup.RTGroup.HandleReplies` | server/group.go:471-506 | All replies of a round in turn up to the first that crashes; every peer whose record changed is stored as changed |
| `RTGroup.RTGroup.ExecCommand` | server/bftraft.go:60-92 | Under the lock, without asking again who leads: refused, not appended, executed or crashed, each exactly when it should be; an executed command is the new last entry of log and applied commands, as it came and in the member's term; the requests of the heartbeat in between carry it, and a crash there leaves it appended but not applied |
| `RTGroup.RTGroup.AppendOwn` | server/bftraft.go:74-84 | The store update of a command: the next entry holds the command as it came, and is stored exactly when its index is free |
| `RTGroup.RTGroup.AdmitCommand` | server/bftraft.go:58-59 | A command is let in exactly when the leader field names this member, and otherwise belongs at the leader it names |
| `RTGroup.RTGroup.PullAndCommit` | server/observer.go:35-52 | Appends and applies entries one by one and stops at the first that cannot be appended |
| `RTGroup.VerifiedVoters` | server/vote.go:152-172 | The map filled by the loop has as keys exactly the members with a granted vote for this leader in this group that they have signed; there is none if and only if a voting member's key is missing |
| `RTGroup.VerifyBatch` | server/group.go:308-322 | The loop passes if and only if indexes and chained hashes match, for the number of iterations its uint64 bound allows |
| `RTGroup.ScanBack` | server/peers.go:37-50 | The backward scan collects exactly the entries down to NextIndex, greatest first, and ends on the entry before them or on the first of the log |
| `RTGroup.ReverseInPlace` | server/peers.go:58-64 | The swaps reverse the whole slice in place, for every length |

## Left out

- gRPC, dialing, server start-up, configuration, Badger internals, protobuf encoding: library code; the store keeps records
  unmarshalled and its updates do not fail.
- RSA, X.509, SHA-1 and FNV themselves: abstract functions, as described above.
- Timers, random timeouts and goroutine scheduling: a timeout, a delivery or a lost call is a step that may happen at any
  time. Work under the group lock is one step, except for the writes of a candidacy and for the admission of a command,
  which is before the lock.
- The three reads of the vote record at server/group.go:599 are one step, since a reset between them makes them answer
  as one before or after them would; so are the read of the last log entry and that of the term that is signed after it.
- The host, group, key and RPC caches: saving does not refresh them, so no agreement holds.
- The approval protocol (ApproveAppend, PeerApprovedAppend, SetLogAppended): disabled in the source, where WaitLogApproved
  always returns true; commands are therefore applied as soon as they are stored, and no commit quorum is stated.
- Append and command signature checks whose failure the source ignores.
- Changes of membership during a run: elections and replication are stated for a fixed membership.
- ScanHostedGroups and SyncAlphaGroup beyond the initial state they give a group.
- Effects of the membership commands on other nodes; CommitGroupLog records the command as applied, every function id
  being registered.
- SendFollowersHeartbeat giving up when a peer's host record is missing: a run covers it as calls that were never sent;
  the term in those already on their way may be one of a later moment.
- RTGroup.RTGroup.ExecCommand: verification of the command's signature is a parameter; sending a command on that was not
  let in and signing the reply to the client are not part of the class.
- RTGroup.RTGroup.CollectVotes: a response of a host whose key is missing, which crashes the source, is not counted here.
- Quorum.MajorityResponse: a nil client makes the source wait forever; the model has one arrival for each client.
- An empty log at a candidate or voter, which the source dereferences: the checks answer Crash, and no election step
  counts a vote for such a candidate.
- MemberRuns.TermAndLogOnlyGrow: assumes that no candidacy starts at the largest term; the model itself wraps there.
- ElectionSafety.ElectionSafety: no candidacy starts at the largest term in the election steps, so neither this theorem nor
  those of ElectionExact and LogMatching speak of terms that wrap.
- ChainRuns.ChainSurvivesRuns: assumes that log length plus batch length stays below 2^64; observers are left to
  PullKeepsChain, with entries in index order, since StoredKeepsChain says that others break the chain.
- LogMatching.LogsMatch: requests are ones that a member has sent, from whatever member and at whatever time; the logs at
  the start are cut from one log, with terms that no candidacy of the run reaches; log length plus batch length stays below
  2^64. The same goes for the other theorems about the whole system.
- Replication.SingleLeaderSafety: assumes a log shorter than 2^64 - 2 entries, requests under way at the start that are
  cuts of the leader's log, and that the leader handles a reply only for the call it has open.
- Wins.WinnerConvinces: a late vote count of an earlier candidacy that replaces the kept votes before they are sent is a
  step of its own in a run.
- ClientReplies.ExecCommand: the command counter, the reply channels and the lookup of the leader are not
  modelled; the replies that arrive in time are its argument.
