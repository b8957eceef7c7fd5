/** Catching up by pulling (server/observer.go, server/bftraft.go PullGroupLogs). */
module Pulling {
  import opened Words
  import opened Messages
  import opened LogChain
  import opened OrderedStore
  import opened Replica

  function AttemptText(h: Hasher, gid: u64, log: seq<LogEntry>, i: nat, j: nat): Bytes
    requires i <= |log| && j < |log|
  {
    EntryText(PrevHash(h, gid, log, i), log[j].index, log[j].command.funcId, log[j].command.arg)
  }

  /** Every string an observer may hash while it tries entries of `log` on top of prefixes of `log`. */
  ghost function Attempts(h: Hasher, gid: u64, log: seq<LogEntry>): set<Bytes> {
    {GenesisText(gid)} +
    set i, j | 0 <= i <= |log| && 0 <= j < |log| :: AttemptText(h, gid, log, i, j)
  }

  lemma PreimagesAreAttempts(h: Hasher, gid: u64, log: seq<LogEntry>)
    ensures Preimages(h, gid, log) <= Attempts(h, gid, log)
  {
    forall i | 0 <= i < |log| ensures Preimage(h, gid, log, i) in Attempts(h, gid, log) {
      assert Preimage(h, gid, log, i) == AttemptText(h, gid, log, i, i);
    }
  }

  /** Different prefixes of one valid chain have different heads. */
  lemma HeadsDiffer(h: Hasher, gid: u64, log: seq<LogEntry>, i: nat, j: nat)
    requires ChainValid(h, gid, log) && i <= |log| && j <= |log| && i != j
    requires NoCollision(h, Preimages(h, gid, log))
    ensures PrevHash(h, gid, log, i) != PrevHash(h, gid, log, j)
  {
    ChainPrefix(h, gid, log, i);
    ChainPrefix(h, gid, log, j);
    PreimagesOfPrefix(h, gid, log, i);
    PreimagesOfPrefix(h, gid, log, j);
    if PrevHash(h, gid, log, i) == PrevHash(h, gid, log, j) {
      HeadHashDeterminesLog(h, gid, log[..i], gid, log[..j]);
      assert false;
    }
  }

  /** Of all entries of the chain, an observer at prefix `f` can append exactly entry `f`. */
  lemma OnlyTheNextIsStored(h: Hasher, gid: u64, log: seq<LogEntry>, f: nat, j: nat)
    requires ChainValid(h, gid, log) && f <= |log| && j < |log|
    requires NoCollision(h, Attempts(h, gid, log))
    ensures AppendLocal(h, gid, log[..f], log[j]) == if j < f then Existed else if j == f then Stored else HashMismatch
    ensures j == f ==> Insert(log[..f], log[j]) == log[..f + 1]
  {
    assert Linked(h, gid, log, j);
    ChainPrefix(h, gid, log, f);
    ChainIsAscending(h, gid, log[..f]);
    if j == f {
      ChainStep(h, gid, log, f);
    } else if j > f {
      PreimagesAreAttempts(h, gid, log);
      HeadsDiffer(h, gid, log, f, j);
      ChainPrefix(h, gid, log, j);
      ChainHashSize(h, gid, log[..f]);
      ChainHashSize(h, gid, log[..j]);
      var mine, theirs := AttemptText(h, gid, log, f, j), AttemptText(h, gid, log, j, j);
      assert mine in Attempts(h, gid, log) && theirs in Attempts(h, gid, log);
      if h(mine) == h(theirs) {
        EntryTextInjective(PrevHash(h, gid, log, f), log[j].index, log[j].command.funcId, log[j].command.arg,
                           PrevHash(h, gid, log, j), log[j].index, log[j].command.funcId, log[j].command.arg);
        assert false;
      }
    }
  }

  /** How many leading offers are the next entries of the chain, one after the other. */
  function RunLength(offered: seq<LogEntry>, rest: seq<LogEntry>): (n: nat)
    ensures n <= |offered| && n <= |rest|
    decreases |offered|
  {
    if offered == [] || rest == [] || offered[0] != rest[0] then 0 else 1 + RunLength(offered[1..], rest[1..])
  }

  /** The observer after `n` further entries of the chain. */
  function Advanced(r: Replica, log: seq<LogEntry>, f: nat, n: nat): Replica
    requires f + n <= |log|
  {
    r.(log := log[..f + n], applied := r.applied + log[f..f + n])
  }

  lemma AdvancedByNone(r: Replica, log: seq<LogEntry>, f: nat)
    requires f <= |log| && r.log == log[..f]
    ensures Advanced(r, log, f, 0) == r
  {
    assert log[f..f] == [] && r.applied + [] == r.applied;
  }

  lemma AdvancedByOneMore(r: Replica, log: seq<LogEntry>, f: nat, n: nat)
    requires f + 1 + n <= |log|
    ensures Advanced(Advanced(r, log, f, 1), log, f + 1, n) == Advanced(r, log, f, 1 + n)
  {
    assert log[f..f + 1] + log[f + 1..f + 1 + n] == log[f..f + 1 + n];
    assert r.applied + log[f..f + 1] + log[f + 1..f + 1 + n] == r.applied + (log[f..f + 1] + log[f + 1..f + 1 + n]);
  }

  /** A first offer that is not the next entry ends the pull at once. */
  lemma WrongOfferStops(env: Env, r: Replica, offered: seq<LogEntry>, log: seq<LogEntry>, f: nat, j: nat)
    requires ChainValid(env.sha1, env.gid, log) && NoCollision(env.sha1, Attempts(env.sha1, env.gid, log))
    requires f <= |log| && r.log == log[..f]
    requires offered != [] && j < |log| && offered[0] == log[j] && j != f
    ensures RunLength(offered, log[f..]) == 0
    ensures PullEntries(env, r, offered) == (r, false)
  {
    OnlyTheNextIsStored(env.sha1, env.gid, log, f, j);
    assert Linked(env.sha1, env.gid, log, j);
    if f < |log| {
      assert Linked(env.sha1, env.gid, log, f);
      assert log[f..][0] == log[f];
    }
  }

  /**
   Pulling never skips, forks or repeats: whatever entries of the responder's chain are offered, in whatever order, the
   observer appends and applies exactly the leading run of next entries and stops.
   */
  lemma {:induction false} PullKeepsPrefix(env: Env, r: Replica, offered: seq<LogEntry>, log: seq<LogEntry>, f: nat)
    requires ChainValid(env.sha1, env.gid, log) && NoCollision(env.sha1, Attempts(env.sha1, env.gid, log))
    requires f <= |log| && r.log == log[..f]
    requires forall e :: e in offered ==> e in log
    ensures PullEntries(env, r, offered) == (Advanced(r, log, f, RunLength(offered, log[f..])), false)
    decreases |offered|
  {
    AdvancedByNone(r, log, f);
    if offered != [] {
      assert offered[0] in log;
      var j :| 0 <= j < |log| && log[j] == offered[0];
      if j == f {
        OnlyTheNextIsStored(env.sha1, env.gid, log, f, f);
        var r' := Advanced(r, log, f, 1);
        assert log[f..f + 1] == [offered[0]];
        assert log[f..][0] == log[f] && log[f..][1..] == log[f + 1..];
        PullKeepsPrefix(env, r', offered[1..], log, f + 1);
        AdvancedByOneMore(r, log, f, RunLength(offered[1..], log[f + 1..]));
      } else {
        WrongOfferStops(env, r, offered, log, f, j);
      }
    }
  }

  lemma PulledFromChain(h: Hasher, gid: u64, log: seq<LogEntry>, f: nat)
    requires ChainValid(h, gid, log) && f <= |log| && f + 1 < U64_LIMIT
    ensures PulledEntries(log, f + 1) == if f < |log| then log[f + 1..] else []
    ensures f > 0 ==> PulledEntries(log, f) == log[f..]
  {
    ChainIsAscending(h, gid, log);
    forall i | 0 <= i < |log| ensures log[i].index == i + 1 {
      assert Linked(h, gid, log, i);
    }
    CountBelowSplits(log, f + 1);
    CountBelowSplits(log, f);
    if f < |log| {
      assert HasIndex(log, f + 1);
      assert log[CountBelow(log, f + 1)].index == f + 1;
    }
    if f > 0 {
      assert HasIndex(log, f);
      assert log[CountBelow(log, f)].index == f;
    }
  }

  lemma PrefixLastIndex(h: Hasher, gid: u64, log: seq<LogEntry>, prefix: seq<LogEntry>)
    requires ChainValid(h, gid, log) && prefix <= log
    ensures LastIndex(prefix) == |prefix|
    ensures |prefix| + 1 < U64_LIMIT ==> Inc64(LastIndex(prefix)) == |prefix| + 1
  {
    assert log[..|prefix|] == prefix;
    ChainPrefix(h, gid, log, |prefix|);
    ChainIsAscending(h, gid, prefix);
  }

  /**
   As the two ends are written, pulling makes no progress: the observer asks for its next index, the responder leaves
   that very entry out, and what is left cannot be chained.
   */
  lemma PullMakesNoProgress(env: Env, r: Replica, log: seq<LogEntry>)
    requires ChainValid(env.sha1, env.gid, log) && NoCollision(env.sha1, Attempts(env.sha1, env.gid, log))
    requires r.log <= log && |r.log| + 1 < U64_LIMIT
    ensures PullEntries(env, r, PulledEntries(log, Inc64(LastIndex(r.log)))) == (r, false)
  {
    var f := |r.log|;
    PrefixLastIndex(env.sha1, env.gid, log, r.log);
    assert log[..f] == r.log;
    PulledFromChain(env.sha1, env.gid, log, f);
    var offered := PulledEntries(log, f + 1);
    if offered != [] {
      assert offered[0] == log[f + 1];
      WrongOfferStops(env, r, offered, log, f, f + 1);
    }
  }

  lemma {:induction false} RunOfItself(s: seq<LogEntry>)
    ensures RunLength(s, s) == |s|
    decreases |s|
  {
    if s != [] {
      RunOfItself(s[1..]);
    }
  }

  /** Asked for the index the observer already has, the same responder would bring it up to date in one pull. */
  lemma PullFromLastIndexCompletes(env: Env, r: Replica, log: seq<LogEntry>)
    requires ChainValid(env.sha1, env.gid, log) && NoCollision(env.sha1, Attempts(env.sha1, env.gid, log))
    requires r.log <= log && r.log != [] && |r.log| + 1 < U64_LIMIT
    ensures PullEntries(env, r, PulledEntries(log, LastIndex(r.log))).0.log == log
  {
    var f := |r.log|;
    PrefixLastIndex(env.sha1, env.gid, log, r.log);
    assert log[..f] == r.log;
    PulledFromChain(env.sha1, env.gid, log, f);
    PullKeepsPrefix(env, r, log[f..], log, f);
    RunOfItself(log[f..]);
    assert log[..f + |log[f..]|] == log;
  }

  lemma {:induction false} InsertGrows(log: seq<LogEntry>, e: LogEntry)
    ensures |Insert(log, e)| == |log| + 1
    decreases |log|
  {
    if !(log == [] || log[|log| - 1].index < e.index) {
      InsertGrows(log[..|log| - 1], e);
    }
  }

  /** A stored entry keeps the chain exactly when its index is the next one; AppendEntryToLocal does not check that. */
  lemma StoredKeepsChain(h: Hasher, gid: u64, log: seq<LogEntry>, e: LogEntry)
    requires ChainValid(h, gid, log) && |log| + 1 < U64_LIMIT
    requires AppendLocal(h, gid, log, e) == Stored
    ensures ChainValid(h, gid, Insert(log, e)) <==> e.index == |log| + 1
  {
    ChainIsAscending(h, gid, log);
    if e.index == |log| + 1 {
      ChainExtend(h, gid, log, e);
    }
    if ChainValid(h, gid, Insert(log, e)) {
      InsertKeepsOrder(log, e);
      InsertGrows(log, e);
      ChainIsAscending(h, gid, Insert(log, e));
      assert e in Insert(log, e) && HasIndex(Insert(log, e), e.index);
    }
  }
}
