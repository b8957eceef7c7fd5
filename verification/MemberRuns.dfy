/**
 What a single member keeps over every run of its own operations, whatever the rest of the network sends it
 (server/group.go, server/vote.go, server/bftraft.go, server/membership.go, server/alpha.go, server/peers.go).
 */
module MemberRuns {
  import opened Words
  import opened Messages
  import opened LogChain
  import opened Replica

  datatype Event =
    | Timeout(env: Env)
    | Responses(env: Env, responses: seq<Response>)
    | LateVotes(env: Env, lastIndex: u64, quorum: nat, responses: seq<Response>)  // of a candidacy that timed out
    | Vote(env: Env, ballot: VoteRequest)
    | Request(env: Env, req: AppendRequest)
    | ClientCommand(env: Env, cmd: Command)  // one that was let in, here or earlier
    | Reply(env: Env, reply: AppendReply)
    | Pull(env: Env, entries: seq<LogEntry>)

  /** The member after one event; events its guards turn away leave it unchanged. */
  function After(r: Replica, ev: Event): Replica {
    match ev
    case Timeout(env) => if TimerTick(env, r) == RunForLeader then StartCandidacy(r) else r
    case Responses(env, responses) => if r.role == Candidate then FinishCandidacy(env, r, responses) else r
    case LateVotes(env, lastIndex, quorum, responses) => KeepVotes(env, r, lastIndex, quorum, responses)
    case Vote(env, ballot) => if r.role == Follower then r else RecordVote(r, ballot)
    case Request(env, req) => AppendEntries(env, r, req).0
    case ClientCommand(env, cmd) => ExecAdmitted(env, r, cmd)
    case Reply(env, reply) => HandleReply(env, r, reply)
    case Pull(env, entries) => if r.role == Observer then PullEntries(env, r, entries).0 else r
  }

  function Run(r: Replica, events: seq<Event>): Replica
    decreases |events|
  {
    if events == [] then r else Run(After(r, events[0]), events[1..])
  }

  // ---------- terms and stored entries only grow ----------

  /** No candidacy of the run starts at the largest term. */
  predicate TermsFit(r: Replica, events: seq<Event>)
    decreases |events|
  {
    events == [] || ((events[0].Timeout? ==> r.term < MAX_U64) && TermsFit(After(r, events[0]), events[1..]))
  }

  /** Every stored entry is still stored, unchanged, under its index. */
  ghost predicate Keeps(log: seq<LogEntry>, later: seq<LogEntry>) {
    forall e :: e in log ==> e in later
  }

  lemma LocalAppendKeeps(h: Hasher, gid: u64, log: seq<LogEntry>, e: LogEntry)
    requires Ascending(log) && AppendLocal(h, gid, log, e) == Stored
    ensures Keeps(log, Insert(log, e)) && Ascending(Insert(log, e))
  {
    InsertKeepsOrder(log, e);
  }

  lemma {:induction false} AppendAllKeeps(env: Env, log: seq<LogEntry>, applied: seq<LogEntry>, entries: seq<LogEntry>)
    requires Ascending(log)
    ensures Keeps(log, AppendAll(env, log, applied, entries).log)
    ensures Ascending(AppendAll(env, log, applied, entries).log)
    ensures applied <= AppendAll(env, log, applied, entries).applied
    decreases |entries|
  {
    if entries != [] {
      match AppendLocal(env.sha1, env.gid, log, entries[0])
      case GroupPanic =>
      case Stored =>
        LocalAppendKeeps(env.sha1, env.gid, log, entries[0]);
        AppendAllKeeps(env, Insert(log, entries[0]), applied + [entries[0]], entries[1..]);
      case _ =>
        AppendAllKeeps(env, log, applied + [entries[0]], entries[1..]);
    }
  }

  lemma {:induction false} PullKeeps(env: Env, r: Replica, entries: seq<LogEntry>)
    requires Ascending(r.log)
    ensures var r' := PullEntries(env, r, entries).0;
            Keeps(r.log, r'.log) && Ascending(r'.log) && r.applied <= r'.applied &&
            r'.term == r.term && r'.role == r.role && r'.leader == r.leader
    decreases |entries|
  {
    if entries != [] && AppendLocal(env.sha1, env.gid, r.log, entries[0]) == Stored {
      LocalAppendKeeps(env.sha1, env.gid, r.log, entries[0]);
      PullKeeps(env, r.(log := Insert(r.log, entries[0]), applied := r.applied + [entries[0]]), entries[1..]);
    }
  }

  /** The monotone part of a member's state. */
  ghost predicate Grown(r: Replica, later: Replica) {
    r.term <= later.term && Keeps(r.log, later.log) && Ascending(later.log) && r.applied <= later.applied
  }

  lemma RequestGrows(env: Env, r: Replica, req: AppendRequest)
    requires Ascending(r.log)
    ensures Grown(r, AppendEntries(env, r, req).0)
  {
    AppendAllKeeps(env, r.log, r.applied, req.entries);
  }

  lemma CommandGrows(env: Env, r: Replica, cmd: Command)
    requires Ascending(r.log)
    ensures Grown(r, ExecAdmitted(env, r, cmd))
  {
    if AppendLocal(env.sha1, env.gid, r.log, NextEntry(env, r, cmd)) == Stored {
      LocalAppendKeeps(env.sha1, env.gid, r.log, NextEntry(env, r, cmd));
    }
  }

  /** Elections, votes and replies leave log and applied commands alone; only a timeout moves the term. */
  lemma OtherEventsKeepLog(r: Replica, ev: Event)
    requires ev.Timeout? || ev.Responses? || ev.LateVotes? || ev.Vote? || ev.Reply?
    ensures After(r, ev).log == r.log && After(r, ev).applied == r.applied
    ensures After(r, ev).term == if ev.Timeout? && TimerTick(ev.env, r) == RunForLeader then Inc64(r.term) else r.term
  {
  }

  lemma EventGrows(r: Replica, ev: Event)
    requires Ascending(r.log) && (ev.Timeout? ==> r.term < MAX_U64)
    ensures Grown(r, After(r, ev))
    ensures ev.Timeout? && TimerTick(ev.env, r) == RunForLeader ==> After(r, ev).term == r.term + 1
  {
    match ev
    case Request(env, req) => RequestGrows(env, r, req);
    case ClientCommand(env, cmd) => CommandGrows(env, r, cmd);
    case Pull(env, entries) => PullKeeps(env, r, entries);
    case _ => OtherEventsKeepLog(r, ev);
  }

  /**
   Over every run the term never decreases, no stored entry is overwritten or removed, and no applied command is
   forgotten, whatever requests, replies, votes and pulled entries arrive.
   */
  lemma {:induction false} TermAndLogOnlyGrow(r: Replica, events: seq<Event>)
    requires Ascending(r.log) && TermsFit(r, events)
    ensures Grown(r, Run(r, events))
    decreases |events|
  {
    if events != [] {
      EventGrows(r, events[0]);
      TermAndLogOnlyGrow(After(r, events[0]), events[1..]);
    }
  }

  /** A candidacy anywhere in a run leaves the term strictly above where the run began. */
  lemma CandidacyRaisesTerm(r: Replica, before: seq<Event>, env: Env, after: seq<Event>)
    requires Ascending(r.log) && TermsFit(r, before)
    requires TimerTick(env, Run(r, before)) == RunForLeader && Run(r, before).term < MAX_U64
    requires TermsFit(After(Run(r, before), Timeout(env)), after)
    ensures r.term < Run(After(Run(r, before), Timeout(env)), after).term
  {
    TermAndLogOnlyGrow(r, before);
    var mid := Run(r, before);
    EventGrows(mid, Timeout(env));
    TermAndLogOnlyGrow(After(mid, Timeout(env)), after);
  }

  /** A leader's own append fails exactly when its index counter wraps onto a stored index 0. */
  lemma OwnAppendFailsOnlyOnWrap(env: Env, r: Replica, cmd: Command)
    requires Ascending(r.log) && cmd.group == env.gid
    ensures AppendLocal(env.sha1, env.gid, r.log, NextEntry(env, r, cmd)) ==
            if LastIndex(r.log) == MAX_U64 && HasIndex(r.log, 0) then Existed else Stored
  {
    if i :| 0 <= i < |r.log| && r.log[i].index == Inc64(LastIndex(r.log)) {
      assert i < |r.log| - 1 ==> r.log[i].index < r.log[|r.log| - 1].index;
    }
  }

  // ---------- leader role and leader field ----------

  ghost predicate LeaderFieldMatchesRole(self: u64, r: Replica) {
    r.leader == self <==> r.role == Leader
  }

  function NewMember(leader: u64, role: Role, term: u64, peers: map<u64, Peer>, log: seq<LogEntry>): Replica {
    Replica(term, role, leader, 0, 0, [], map[], peers, log, [])
  }

  /** The ways a group comes on board: creator of a group (ColdStart, SMNewGroup), or joiner named leader or not. */
  datatype Start = Created | Joined(majority: u64) | Scanned(hosts: nat)

  /** NodeJoin replaces its own id by 0; a restart scan names itself leader of a group of fewer than two hosts. */
  function Onboard(self: u64, start: Start, term: u64, peers: map<u64, Peer>, log: seq<LogEntry>): Replica {
    match start
    case Created => NewMember(self, Leader, term, peers, log)
    case Joined(majority) => NewMember(if majority == self then 0 else majority, Follower, term, peers, log)
    case Scanned(hosts) => NewMember(if hosts < 2 then self else 0, Follower, term, peers, log)
  }

  lemma StaysNoObserver(r: Replica, ev: Event)
    requires r.role != Observer
    ensures After(r, ev).role != Observer
  {
  }

  /** No start makes an observer and no operation turns a member into one, so an onboarded member never pulls. */
  lemma {:induction false} NeverObserves(r: Replica, events: seq<Event>)
    requires r.role != Observer
    ensures Run(r, events).role != Observer
    decreases |events|
  {
    if events != [] {
      StaysNoObserver(r, events[0]);
      NeverObserves(After(r, events[0]), events[1..]);
    }
  }

  lemma OnboardedNeverPull(self: u64, start: Start, term: u64, peers: map<u64, Peer>, log: seq<LogEntry>,
                           events: seq<Event>, env: Env)
    ensures Run(Onboard(self, start, term, peers, log), events).role != Observer
    ensures TimerTick(env, Run(Onboard(self, start, term, peers, log), events)) != PullLogs
  {
    NeverObserves(Onboard(self, start, term, peers, log), events);
  }

  /** Events run at this member, and nobody sends a request in its name. */
  ghost predicate HonestTo(self: u64, ev: Event) {
    ev.env.self == self && (ev.Request? ==> ev.req.leaderId != self)
  }

  lemma RequestKeepsRole(self: u64, env: Env, r: Replica, req: AppendRequest)
    requires LeaderFieldMatchesRole(self, r) && req.leaderId != self
    ensures LeaderFieldMatchesRole(self, AppendEntries(env, r, req).0)
  {
  }

  lemma EventKeepsRole(self: u64, r: Replica, ev: Event)
    requires LeaderFieldMatchesRole(self, r) && HonestTo(self, ev) && Ascending(r.log)
    ensures LeaderFieldMatchesRole(self, After(r, ev))
  {
    match ev
    case Request(env, req) => RequestKeepsRole(self, env, r, req);
    case Pull(env, entries) => PullKeeps(env, r, entries);
    case _ =>
  }

  /**
   From every start but a restart scan of a lone host, and for every honest run: the member takes itself for leader
   exactly when it holds the leader role. So the timer never panics.
   */
  lemma {:induction false} LeaderFieldTracksRole(self: u64, r: Replica, events: seq<Event>)
    requires LeaderFieldMatchesRole(self, r) && Ascending(r.log) && TermsFit(r, events)
    requires forall i :: 0 <= i < |events| ==> HonestTo(self, events[i])
    ensures LeaderFieldMatchesRole(self, Run(r, events))
    decreases |events|
  {
    if events != [] {
      EventKeepsRole(self, r, events[0]);
      EventGrows(r, events[0]);
      LeaderFieldTracksRole(self, After(r, events[0]), events[1..]);
    }
  }

  /** The panic "Follower is leader" can be reached from a start if and only if it is a restart scan of a lone host. */
  lemma TimerPanicExact(self: u64, start: Start, term: u64, peers: map<u64, Peer>, log: seq<LogEntry>, env: Env)
    requires self != 0 && env.self == self && Ascending(log)
    ensures (exists events :: TermsFit(Onboard(self, start, term, peers, log), events) &&
                              (forall i :: 0 <= i < |events| ==> HonestTo(self, events[i])) &&
                              TimerTick(env, Run(Onboard(self, start, term, peers, log), events)) == Panic)
            <==> start.Scanned? && start.hosts < 2
  {
    var r := Onboard(self, start, term, peers, log);
    if start.Scanned? && start.hosts < 2 {
      assert TermsFit(r, []) && TimerTick(env, Run(r, [])) == Panic;
    } else {
      assert LeaderFieldMatchesRole(self, r);
      forall events | TermsFit(r, events) && forall i :: 0 <= i < |events| ==> HonestTo(self, events[i])
        ensures TimerTick(env, Run(r, events)) != Panic
      {
        LeaderFieldTracksRole(self, r, events);
      }
    }
  }
}
