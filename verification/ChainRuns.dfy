/**
 One member over whole runs under any number of leaders, honest or not: its log stays one valid hash chain that only
 gets longer, and it has applied exactly that log.
 */
module ChainRuns {
  import opened Words
  import opened Messages
  import opened LogChain
  import opened Replica
  import opened Batches
  import opened MemberRuns
  import Pulling
  import Replication

  // ---------- one batch, whoever sent it ----------

  /** Where a batch stops being this group's. */
  function OwnPart(gid: u64, entries: seq<LogEntry>): (n: nat)
    ensures n <= |entries|
    ensures OwnGroup(gid, entries[..n])
    ensures n < |entries| ==> entries[n].command.group != gid
    decreases |entries|
  {
    if entries == [] || entries[0].command.group != gid then 0
    else
      var n := OwnPart(gid, entries[1..]);
      assert forall i :: 0 < i <= n ==> entries[i] == entries[1..][..n][i - 1];
      n + 1
  }

  lemma {:induction false} VerifiedPart(h: Hasher, expected: Bytes, next: u64, entries: seq<LogEntry>, n: nat)
    requires VerifyFrom(h, expected, next, entries) && n <= |entries|
    ensures VerifyFrom(h, expected, next, entries[..n])
    decreases |entries|
  {
    if n > 0 {
      var e := entries[0];
      assert entries[..n][1..] == entries[1..][..n - 1];
      VerifiedPart(h, LogHash(h, expected, next, e.command.funcId, e.command.arg), Inc64(next), entries[1..], n - 1);
    }
  }

  lemma PartIsChained(env: Env, log: seq<LogEntry>, entries: seq<LogEntry>, n: nat)
    requires ChainValid(env.sha1, env.gid, log) && |log| + |entries| + 1 < U64_LIMIT
    requires BatchVerified(env, log, entries) && n <= |entries| && OwnGroup(env.gid, entries[..n])
    ensures ChainValid(env.sha1, env.gid, log + entries[..n])
  {
    ChainIsAscending(env.sha1, env.gid, log);
    assert entries[..LoopCount(|log| + 1, |entries|)] == entries;
    VerifiedPart(env.sha1, HeadHash(env.sha1, env.gid, log), |log| + 1, entries, n);
    VerifiedMeansChained(env, log, entries[..n]);
  }

  /** A verified batch extends log and applied commands by its own-group part, all of it unless it panics there. */
  lemma VerifiedBatch(env: Env, log: seq<LogEntry>, applied: seq<LogEntry>, entries: seq<LogEntry>)
    requires ChainValid(env.sha1, env.gid, log) && |log| + |entries| + 1 < U64_LIMIT
    requires BatchVerified(env, log, entries)
    ensures var n := OwnPart(env.gid, entries);
            && ChainValid(env.sha1, env.gid, log + entries[..n])
            && AppendAll(env, log, applied, entries) ==
               BatchResult(log + entries[..n], applied + entries[..n], n < |entries|)
  {
    var n := OwnPart(env.gid, entries);
    PartIsChained(env, log, entries, n);
    if n == |entries| {
      assert entries[..n] == entries;
      ChainedBatchIsStored(env, log, applied, entries);
    } else {
      ForeignCommandPanics(env, log, applied, entries, n);
    }
  }

  // ---------- one event ----------

  /** A chain that was applied as it was stored. */
  ghost predicate Intact(h: Hasher, gid: u64, r: Replica) {
    ChainValid(h, gid, r.log) && r.applied == r.log
  }

  /** Entries that a pull offers in the order of their indexes, from the next one on. */
  predicate InOrder(log: seq<LogEntry>, entries: seq<LogEntry>) {
    forall i :: 0 <= i < |entries| ==> entries[i].index == |log| + 1 + i
  }

  /** The event runs on this member's group and hash, and indexes do not wrap. */
  ghost predicate Fits(h: Hasher, gid: u64, r: Replica, ev: Event) {
    && ev.env.sha1 == h && ev.env.gid == gid
    && |r.log| + 1 < U64_LIMIT
    && (ev.Request? ==> |r.log| + |ev.req.entries| + 1 < U64_LIMIT)
  }

  ghost predicate AllFit(h: Hasher, gid: u64, r: Replica, events: seq<Event>)
    decreases |events|
  {
    events == [] || (Fits(h, gid, r, events[0]) && AllFit(h, gid, After(r, events[0]), events[1..]))
  }

  lemma RequestKeepsChain(env: Env, r: Replica, req: AppendRequest)
    requires Intact(env.sha1, env.gid, r) && |r.log| + |req.entries| + 1 < U64_LIMIT
    ensures var r' := AppendEntries(env, r, req).0; Intact(env.sha1, env.gid, r') && r.log <= r'.log
  {
    if BatchVerified(env, r.log, req.entries) {
      VerifiedBatch(env, r.log, r.applied, req.entries);
    }
  }

  lemma CommandKeepsChain(env: Env, r: Replica, cmd: Command)
    requires Intact(env.sha1, env.gid, r) && |r.log| + 1 < U64_LIMIT
    ensures var r' := ExecAdmitted(env, r, cmd); Intact(env.sha1, env.gid, r') && r.log <= r'.log
  {
    if cmd.group == env.gid {
      Replication.OwnAppend(env, r, cmd);
    }
  }

  /** An observer that pulls entries in the order of their indexes keeps its chain as well. */
  lemma {:induction false} PullKeepsChain(env: Env, r: Replica, entries: seq<LogEntry>)
    requires Intact(env.sha1, env.gid, r) && |r.log| + |entries| + 1 < U64_LIMIT && InOrder(r.log, entries)
    ensures var r' := PullEntries(env, r, entries).0; Intact(env.sha1, env.gid, r') && r.log <= r'.log
    decreases |entries|
  {
    if entries != [] && AppendLocal(env.sha1, env.gid, r.log, entries[0]) == Stored {
      var e := entries[0];
      ChainIsAscending(env.sha1, env.gid, r.log);
      assert Insert(r.log, e) == r.log + [e];
      Pulling.StoredKeepsChain(env.sha1, env.gid, r.log, e);
      assert forall i :: 0 <= i < |entries[1..]| ==> entries[1..][i] == entries[i + 1];
      PullKeepsChain(env, r.(log := r.log + [e], applied := r.applied + [e]), entries[1..]);
    }
  }

  lemma EventKeepsChain(h: Hasher, gid: u64, r: Replica, ev: Event)
    requires Intact(h, gid, r) && r.role != Observer && Fits(h, gid, r, ev)
    ensures Intact(h, gid, After(r, ev)) && r.log <= After(r, ev).log
  {
    match ev
    case Request(env, req) => RequestKeepsChain(env, r, req);
    case ClientCommand(env, cmd) => CommandKeepsChain(env, r, cmd);
    case Pull(_, _) =>
    case _ => OtherEventsKeepLog(r, ev);
  }

  // ---------- whole runs ----------

  /**
   Whatever events come to an onboarded member, from however many leaders: the log stays a valid chain with
   indexes 1 to n, it is only ever extended, and what was applied is exactly the log, in order and once each.
   */
  lemma {:induction false} ChainSurvivesRuns(h: Hasher, gid: u64, r: Replica, events: seq<Event>)
    requires Intact(h, gid, r) && r.role != Observer && AllFit(h, gid, r, events)
    ensures Intact(h, gid, Run(r, events)) && r.log <= Run(r, events).log
    decreases |events|
  {
    if events != [] {
      EventKeepsChain(h, gid, r, events[0]);
      StaysNoObserver(r, events[0]);
      ChainSurvivesRuns(h, gid, After(r, events[0]), events[1..]);
    }
  }

  /**
   Log matching across any number of leaders: after any two runs of two members, where two of their entries carry one
   hash they stand at one index, and the two logs have the same contents and hashes from there down.
   */
  lemma MembersMatchDownward(h: Hasher, gid: u64, r1: Replica, run1: seq<Event>, r2: Replica, run2: seq<Event>,
                             i: nat, j: nat)
    requires Intact(h, gid, r1) && r1.role != Observer && AllFit(h, gid, r1, run1)
    requires Intact(h, gid, r2) && r2.role != Observer && AllFit(h, gid, r2, run2)
    requires var (a, b) := (Run(r1, run1).log, Run(r2, run2).log);
             && NoCollision(h, Preimages(h, gid, a) + Preimages(h, gid, b))
             && i < |a| && j < |b| && a[i].hash == b[j].hash
    ensures var (a, b) := (Run(r1, run1), Run(r2, run2));
            && a.applied == a.log && b.applied == b.log
            && i == j
            && forall k :: 0 <= k <= i ==> SameContent(a.log[k], b.log[k]) && a.log[k].hash == b.log[k].hash
  {
    ChainSurvivesRuns(h, gid, r1, run1);
    ChainSurvivesRuns(h, gid, r2, run2);
    HashesMatchDownward(h, gid, Run(r1, run1).log, Run(r2, run2).log, i, j);
  }
}
