/**
 The ordered byte-keyed store and the scans the server runs over it
 (server/store.go, server/log_entries.go, server/peers.go, server/bftraft.go PullGroupLogs).
 Records are kept unmarshalled.
 */
module OrderedStore {
  import opened Words
  import opened Encoding
  import opened Messages
  import opened LogChain

  datatype Value =
    | EntryValue(entry: LogEntry)
    | PeerValue(peer: Peer)
    | GroupValue(group: u64, term: u64)
    | OtherValue

  type Store = map<Bytes, Value>

  // ---------- cursors ----------

  lemma {:induction false} GreatestExists(keys: set<Bytes>) returns (m: Bytes)
    requires keys != {}
    ensures m in keys && forall k :: k in keys ==> LexLeq(k, m)
    decreases |keys|
  {
    var x :| x in keys;
    if keys == {x} {
      m := x;
    } else {
      assert keys - {x} != {};
      m := GreatestExists(keys - {x});
      LexTotal(x, m);
      if LexLess(m, x) {
        forall k | k in keys ensures LexLeq(k, x) {
          if k != x && k != m {
            assert k in keys - {x};
            LexTransitive(k, m, x);
          }
        }
        m := x;
      }
    }
  }

  lemma {:induction false} LeastExists(keys: set<Bytes>) returns (m: Bytes)
    requires keys != {}
    ensures m in keys && forall k :: k in keys ==> LexLeq(m, k)
    decreases |keys|
  {
    var x :| x in keys;
    if keys == {x} {
      m := x;
    } else {
      assert keys - {x} != {};
      m := LeastExists(keys - {x});
      LexTotal(x, m);
      if LexLess(x, m) {
        forall k | k in keys ensures LexLeq(x, k) {
          if k != x && k != m {
            assert k in keys - {x};
            LexTransitive(x, m, k);
          }
        }
        m := x;
      }
    }
  }

  predicate IsGreatest(keys: set<Bytes>, m: Bytes) {
    m in keys && forall k :: k in keys ==> LexLeq(k, m)
  }

  predicate IsLeast(keys: set<Bytes>, m: Bytes) {
    m in keys && forall k :: k in keys ==> LexLeq(m, k)
  }

  function Greatest(keys: set<Bytes>): (r: Option<Bytes>)
    ensures r.None? <==> keys == {}
    ensures r.Some? ==> IsGreatest(keys, r.value)
  {
    if keys == {} then None
    else
      assert exists m :: IsGreatest(keys, m) by {
        var m := GreatestExists(keys);
        assert IsGreatest(keys, m);
      }
      assert forall m, n :: IsGreatest(keys, m) && IsGreatest(keys, n) ==> m == n by {
        forall m, n | IsGreatest(keys, m) && IsGreatest(keys, n) ensures m == n {
          LexTotal(m, n);
        }
      }
      var m :| m in keys && IsGreatest(keys, m);
      Some(m)
  }

  function Least(keys: set<Bytes>): (r: Option<Bytes>)
    ensures r.None? <==> keys == {}
    ensures r.Some? ==> IsLeast(keys, r.value)
  {
    if keys == {} then None
    else
      assert exists m :: IsLeast(keys, m) by {
        var m := LeastExists(keys);
        assert IsLeast(keys, m);
      }
      assert forall m, n :: IsLeast(keys, m) && IsLeast(keys, n) ==> m == n by {
        forall m, n | IsLeast(keys, m) && IsLeast(keys, n) ensures m == n {
          LexTotal(m, n);
        }
      }
      var m :| m in keys && IsLeast(keys, m);
      Some(m)
  }

  /** A reverse iterator seeks the greatest key at or below the bound and steps to the next smaller one. */
  function SeekReverse(db: Store, bound: Bytes): Option<Bytes> {
    Greatest(set k | k in db && LexLeq(k, bound))
  }

  function StepReverse(db: Store, at: Bytes): Option<Bytes> {
    Greatest(set k | k in db && LexLess(k, at))
  }

  /** A forward iterator seeks the least key at or above the bound and steps to the next greater one. */
  function SeekForward(db: Store, bound: Bytes): Option<Bytes> {
    Least(set k | k in db && LexLeq(bound, k))
  }

  function StepForward(db: Store, at: Bytes): Option<Bytes> {
    Least(set k | k in db && LexLess(at, k))
  }

  lemma PrefixByHead(x: Bytes, p: Bytes)
    ensures HasPrefix(x, p) <==> p == [] || (x != [] && x[0] == p[0] && HasPrefix(x[1..], p[1..]))
  {
    if p != [] && x != [] && |p| <= |x| {
      assert x[..|p|] == [x[0]] + x[1..][..|p| - 1];
      assert p == [p[0]] + p[1..];
    }
  }

  lemma ExtensionHasPrefix(p: Bytes, s: Bytes)
    ensures HasPrefix(p + s, p)
  {
  }

  /** Keys outside a prefix that lie below some extension of it lie below the prefix itself. */
  lemma {:induction false} OutsideBelow(x: Bytes, p: Bytes, s: Bytes)
    requires LexLeq(x, p + s) && !HasPrefix(x, p)
    ensures LexLess(x, p)
    decreases |p|
  {
    ExtensionHasPrefix(p, s);
    PrefixByHead(x, p);
    if x != [] && x[0] == p[0] {
      assert (p + s)[1..] == p[1..] + s;
      OutsideBelow(x[1..], p[1..], s);
    }
  }

  /** Keys outside a prefix that lie above some extension of it lie above all of them. */
  lemma {:induction false} OutsideAbove(x: Bytes, p: Bytes, s: Bytes, t: Bytes)
    requires LexLeq(p + s, x) && !HasPrefix(x, p)
    ensures LexLess(p + t, x)
    decreases |p|
  {
    ExtensionHasPrefix(p, s);
    PrefixByHead(x, p);
    if x != [] && x[0] == p[0] {
      assert (p + s)[1..] == p[1..] + s && (p + t)[1..] == p[1..] + t;
      OutsideAbove(x[1..], p[1..], s, t);
    }
  }

  lemma {:induction false} BelowHasNoPrefix(x: Bytes, p: Bytes)
    requires LexLess(x, p)
    ensures !HasPrefix(x, p)
    decreases |p|
  {
    if HasPrefix(x, p) {
      LexConcat(p, p, x[|p|..], []);
      assert x == p + x[|p|..] && p == p + [];
      LexTotal(p, p);
    }
  }

  // ---------- the log of one group ----------

  function LogPrefix(gid: u64): Bytes {
    ComposeKeyPrefix(gid, LOG_ENTRIES)
  }

  /** The records under the group's log prefix are exactly these entries, each under the key of its index. */
  ghost predicate StoresLog(db: Store, gid: u64, log: seq<LogEntry>) {
    && Ascending(log)
    && (forall i {:trigger LogEntryKey(gid, log[i].index)} :: 0 <= i < |log| ==>
          LogEntryKey(gid, log[i].index) in db && db[LogEntryKey(gid, log[i].index)] == EntryValue(log[i]))
    && (forall k {:trigger HasPrefix(k, LogPrefix(gid))} :: k in db && HasPrefix(k, LogPrefix(gid)) ==>
          exists i :: 0 <= i < |log| && k == LogEntryKey(gid, log[i].index))
  }

  lemma LogKeyOrder(gid: u64, i: u64, j: u64)
    ensures LexLess(LogEntryKey(gid, i), LogEntryKey(gid, j)) <==> i < j
    ensures HasPrefix(LogEntryKey(gid, i), LogPrefix(gid))
    ensures LogEntryKey(gid, i) == LogEntryKey(gid, j) ==> i == j
  {
    RecordKeyOrder(gid, LOG_ENTRIES, i, gid, LOG_ENTRIES, j);
    RecordKeyPrefix(gid, LOG_ENTRIES, i, gid, LOG_ENTRIES);
    if LogEntryKey(gid, i) == LogEntryKey(gid, j) {
      RecordKeyInjective(gid, LOG_ENTRIES, i, gid, LOG_ENTRIES, j);
    }
  }

  /** Looking up one log key answers whether, and with what, its index is stored. */
  lemma LogLookup(db: Store, gid: u64, log: seq<LogEntry>, index: u64)
    requires StoresLog(db, gid, log)
    ensures LogEntryKey(gid, index) in db <==> HasIndex(log, index)
  {
    LogKeyOrder(gid, index, index);
    if LogEntryKey(gid, index) in db {
      var i :| 0 <= i < |log| && LogEntryKey(gid, index) == LogEntryKey(gid, log[i].index);
      LogKeyOrder(gid, index, log[i].index);
    }
  }

  /** Writing an absent index is inserting the entry. */
  lemma StoreEntry(db: Store, gid: u64, log: seq<LogEntry>, e: LogEntry)
    requires StoresLog(db, gid, log) && !HasIndex(log, e.index)
    ensures StoresLog(db[LogEntryKey(gid, e.index) := EntryValue(e)], gid, Insert(log, e))
  {
    InsertKeepsOrder(log, e);
    var longer := Insert(log, e);
    var key := LogEntryKey(gid, e.index);
    var db' := db[key := EntryValue(e)];
    forall i | 0 <= i < |longer|
      ensures LogEntryKey(gid, longer[i].index) in db'
      ensures db'[LogEntryKey(gid, longer[i].index)] == EntryValue(longer[i])
    {
      assert longer[i] in longer;
      if longer[i] != e {
        var j :| 0 <= j < |log| && log[j] == longer[i];
        LogKeyOrder(gid, e.index, log[j].index);
      }
    }
    forall k | k in db' && HasPrefix(k, LogPrefix(gid))
      ensures exists i :: 0 <= i < |longer| && k == LogEntryKey(gid, longer[i].index)
    {
      var x := e;
      if k != key {
        var j :| 0 <= j < |log| && k == LogEntryKey(gid, log[j].index);
        x := log[j];
      }
      assert x in longer;
      var i :| 0 <= i < |longer| && longer[i] == x;
      assert k == LogEntryKey(gid, longer[i].index);
    }
  }

  /** Records of another kind or group do not disturb the log. */
  lemma StoreElsewhere(db: Store, gid: u64, log: seq<LogEntry>, key: Bytes, v: Value)
    requires StoresLog(db, gid, log) && !HasPrefix(key, LogPrefix(gid))
    ensures StoresLog(db[key := v], gid, log)
  {
    forall i | 0 <= i < |log| ensures LogEntryKey(gid, log[i].index) != key {
      LogKeyOrder(gid, log[i].index, log[i].index);
    }
  }

  lemma OtherKindsAreElsewhere(gid: u64, group: u64, id: u64)
    ensures !HasPrefix(PeerKey(group, id), LogPrefix(gid))
    ensures !HasPrefix(GroupKey(group), LogPrefix(gid))
    ensures PeerKey(group, id) != GroupKey(gid)
  {
    RecordKeyPrefix(group, GROUP_PEERS, id, gid, LOG_ENTRIES);
    if HasPrefix(GroupKey(group), LogPrefix(gid)) {
      assert GroupKey(group)[..12] == GroupKey(group);
      PrefixInjective(group, GROUP_META, gid, LOG_ENTRIES);
    }
  }

  /**
   A reverse cursor of the group's log with `left` entries still to visit: it stands on the key of the last of them,
   or, when none is left, nowhere or below every key of the prefix.
   */
  ghost predicate StandsReverse(gid: u64, log: seq<LogEntry>, left: nat, at: Option<Bytes>)
    requires left <= |log|
  {
    if left > 0 then at == Some(LogEntryKey(gid, log[left - 1].index))
    else at.None? || LexLess(at.value, LogPrefix(gid))
  }

  lemma OutsideIsLess(x: Bytes, gid: u64, index: u64)
    requires LexLess(x, LogPrefix(gid))
    ensures !LexLeq(LogEntryKey(gid, index), x)
  {
    var p, k := LogPrefix(gid), LogEntryKey(gid, index);
    LexConcat(p, p, [], U64Bytes(index));
    assert p == p + [];
    LexTransitive(x, p, k);
    LexTotal(x, k);
  }

  /** The greatest of the candidate keys is the last log entry among them, if the candidates hold any. */
  lemma ReverseLanding(db: Store, gid: u64, log: seq<LogEntry>, left: nat, index: u64,
                       at: Option<Bytes>, candidates: set<Bytes>)
    requires StoresLog(db, gid, log) && left <= |log|
    requires at == Greatest(candidates)
    requires forall k :: k in candidates ==> k in db && LexLeq(k, LogEntryKey(gid, index))
    requires forall i :: 0 <= i < |log| ==> (LogEntryKey(gid, log[i].index) in candidates <==> i < left)
    ensures StandsReverse(gid, log, left, at)
  {
    var p := LogPrefix(gid);
    if left > 0 {
      var n := log[left - 1].index;
      assert LogEntryKey(gid, n) in candidates;
      LogKeyOrder(gid, n, n);
      if HasPrefix(at.value, p) {
        var i :| 0 <= i < |log| && at.value == LogEntryKey(gid, log[i].index);
        LogKeyOrder(gid, n, log[i].index);
      } else {
        OutsideBelow(at.value, p, U64Bytes(index));
        OutsideIsLess(at.value, gid, n);
        assert false;
      }
    } else if at.Some? {
      assert !HasPrefix(at.value, p);
      OutsideBelow(at.value, p, U64Bytes(index));
    }
  }

  lemma KeysBelowBound(db: Store, gid: u64, log: seq<LogEntry>)
    requires StoresLog(db, gid, log)
    ensures forall i :: 0 <= i < |log| ==>
              LogEntryKey(gid, log[i].index) in db &&
              LexLeq(LogEntryKey(gid, log[i].index), LogEntryKey(gid, MAX_U64))
  {
    forall i | 0 <= i < |log| ensures LexLeq(LogEntryKey(gid, log[i].index), LogEntryKey(gid, MAX_U64)) {
      LogKeyOrder(gid, log[i].index, MAX_U64);
    }
  }

  /** Seeking from the largest possible index lands on the entry with the greatest index, or outside the group. */
  lemma ReverseSeekFindsLast(db: Store, gid: u64, log: seq<LogEntry>)
    requires StoresLog(db, gid, log)
    ensures StandsReverse(gid, log, |log|, SeekReverse(db, LogPrefix(gid) + U64Bytes(MAX_U64)))
  {
    var bound := LogEntryKey(gid, MAX_U64);
    var candidates := set k | k in db && LexLeq(k, bound);
    KeysBelowBound(db, gid, log);
    assert LogPrefix(gid) + U64Bytes(MAX_U64) == bound;
    ReverseLanding(db, gid, log, |log|, MAX_U64, SeekReverse(db, bound), candidates);
  }

  /** Each reverse step moves to the entry with the next smaller index and finally leaves the group downward. */
  lemma ReverseStepFindsPrevious(db: Store, gid: u64, log: seq<LogEntry>, left: nat)
    requires StoresLog(db, gid, log) && 0 < left <= |log|
    ensures StandsReverse(gid, log, left - 1, StepReverse(db, LogEntryKey(gid, log[left - 1].index)))
  {
    var from := LogEntryKey(gid, log[left - 1].index);
    var candidates := set k | k in db && LexLess(k, from);
    forall i | 0 <= i < |log| ensures LogEntryKey(gid, log[i].index) in candidates <==> i < left - 1 {
      LogKeyOrder(gid, log[i].index, log[left - 1].index);
    }
    ReverseLanding(db, gid, log, left - 1, log[left - 1].index, StepReverse(db, from), candidates);
  }

  /** LogEntryIterator over one group's entries, greatest index first. */
  class LogEntryIterator {
    const gid: u64
    const db: Store
    const prefix: Bytes
    var at: Option<Bytes>
    ghost const log: seq<LogEntry>
    ghost var left: nat  // entries not yet passed

    ghost predicate Valid()
      reads this
    {
      && prefix == LogPrefix(gid)
      && StoresLog(db, gid, log)
      && left <= |log|
      && StandsReverse(gid, log, left, at)
    }

    constructor Reversed(db: Store, gid: u64, ghost log: seq<LogEntry>)
      requires StoresLog(db, gid, log)
      ensures Valid() && this.db == db && this.gid == gid && this.log == log && left == |log|
    {
      this.gid := gid;
      this.db := db;
      this.prefix := LogPrefix(gid);
      this.log := log;
      this.left := |log|;
      this.at := SeekReverse(db, LogPrefix(gid) + U64Bytes(MAX_U64));
      new;
      ReverseSeekFindsLast(db, gid, log);
    }

    method Current() returns (entry: Option<LogEntry>)
      requires Valid()
      ensures entry == if left == 0 then None else Some(log[left - 1])
    {
      if left > 0 {
        LogKeyOrder(gid, log[left - 1].index, log[left - 1].index);
      } else if at.Some? {
        BelowHasNoPrefix(at.value, prefix);
      }
      if at.Some? && HasPrefix(at.value, prefix) {
        return Some(db[at.value].entry);
      }
      return None;
    }

    method Next() returns (entry: Option<LogEntry>)
      requires Valid()
      modifies this
      ensures Valid() && left == if old(left) == 0 then 0 else old(left) - 1
      ensures entry == if left == 0 then None else Some(log[left - 1])
    {
      if at.None? {
        return None;
      }
      if left > 0 {
        ReverseStepFindsPrevious(db, gid, log, left);
        left := left - 1;
      } else {
        var down := StepReverse(db, at.value);
        if down.Some? {
          LexTransitive(down.value, at.value, prefix);
        }
      }
      at := StepReverse(db, at.value);
      entry := Current();
    }
  }

  method LastLogEntry(db: Store, gid: u64, ghost log: seq<LogEntry>) returns (entry: Option<LogEntry>)
    requires StoresLog(db, gid, log)
    ensures entry == if log == [] then None else Some(log[|log| - 1])
  {
    var iter := new LogEntryIterator.Reversed(db, gid, log);
    entry := iter.Current();
  }

  // ---------- forward scans ----------

  predicate InPrefix(at: Option<Bytes>, prefix: Bytes) {
    at.Some? && HasPrefix(at.value, prefix)
  }

  /** A forward cursor standing on entry `i`, or past every key of the prefix. */
  ghost predicate StandsForward(gid: u64, log: seq<LogEntry>, i: nat, at: Option<Bytes>)
    requires i <= |log|
  {
    if i < |log| then at == Some(LogEntryKey(gid, log[i].index))
    else at.None? || (!HasPrefix(at.value, LogPrefix(gid)) && LexLess(LogPrefix(gid), at.value))
  }

  /** The least of the candidate keys is the first log entry among them, if the candidates hold any. */
  lemma ForwardLanding(db: Store, gid: u64, log: seq<LogEntry>, n: nat, bound: Bytes, index: u64,
                       at: Option<Bytes>, candidates: set<Bytes>)
    requires StoresLog(db, gid, log) && n <= |log| && bound == LogEntryKey(gid, index)
    requires at == Least(candidates)
    requires forall k :: k in candidates ==> k in db && LexLeq(bound, k)
    requires forall i :: 0 <= i < |log| ==> (LogEntryKey(gid, log[i].index) in candidates <==> i >= n)
    ensures StandsForward(gid, log, n, at)
  {
    var p := LogPrefix(gid);
    if n < |log| {
      var key := LogEntryKey(gid, log[n].index);
      LexTotal(key, at.value);
      if !HasPrefix(at.value, p) {
        OutsideAbove(at.value, p, U64Bytes(index), U64Bytes(log[n].index));
        assert false;
      }
      var i :| 0 <= i < |log| && at.value == LogEntryKey(gid, log[i].index);
      LogKeyOrder(gid, log[n].index, log[i].index);
      assert i >= n;
    } else if at.Some? {
      assert !HasPrefix(at.value, p);
      OutsideAbove(at.value, p, U64Bytes(index), []);
      assert p + [] == p;
    }
  }

  lemma ForwardSeekFindsFirst(db: Store, gid: u64, log: seq<LogEntry>, index: u64)
    requires StoresLog(db, gid, log)
    ensures StandsForward(gid, log, CountBelow(log, index), SeekForward(db, LogPrefix(gid) + U64Bytes(index)))
  {
    var bound := LogEntryKey(gid, index);
    var n := CountBelow(log, index);
    CountBelowSplits(log, index);
    var candidates := set k | k in db && LexLeq(bound, k);
    forall i | 0 <= i < |log| ensures LogEntryKey(gid, log[i].index) in candidates <==> i >= n {
      LogKeyOrder(gid, index, log[i].index);
      LogKeyOrder(gid, log[i].index, index);
      LexTotal(bound, LogEntryKey(gid, log[i].index));
    }
    ForwardLanding(db, gid, log, n, bound, index, SeekForward(db, bound), candidates);
  }

  lemma ForwardStepFindsNext(db: Store, gid: u64, log: seq<LogEntry>, i: nat)
    requires StoresLog(db, gid, log) && i < |log|
    ensures StandsForward(gid, log, i + 1, StepForward(db, LogEntryKey(gid, log[i].index)))
  {
    var from := LogEntryKey(gid, log[i].index);
    var candidates := set k | k in db && LexLess(from, k);
    forall j | 0 <= j < |log| ensures LogEntryKey(gid, log[j].index) in candidates <==> j >= i + 1 {
      LogKeyOrder(gid, log[i].index, log[j].index);
    }
    ForwardLanding(db, gid, log, i + 1, from, log[i].index, StepForward(db, from), candidates);
  }

  /**
   PullGroupLogs: everything after the requested index, and nothing at all when that index is not stored.
   The entry at the requested index itself is dropped.
   */
  function PulledEntries(log: seq<LogEntry>, index: u64): seq<LogEntry> {
    var n := CountBelow(log, index);
    if n < |log| && log[n].index == index then log[n + 1..] else []
  }

  /** What a forward cursor standing at position `i` lets the scan read. */
  ghost predicate Reads(db: Store, gid: u64, log: seq<LogEntry>, i: nat, at: Option<Bytes>) {
    && i <= |log|
    && (InPrefix(at, LogPrefix(gid)) <==> i < |log|)
    && (i < |log| ==> at.value in db && db[at.value] == EntryValue(log[i]))
  }

  lemma StandingReads(db: Store, gid: u64, log: seq<LogEntry>, i: nat, at: Option<Bytes>)
    requires StoresLog(db, gid, log) && i <= |log| && StandsForward(gid, log, i, at)
    ensures Reads(db, gid, log, i, at)
  {
    if i < |log| {
      LogKeyOrder(gid, log[i].index, log[i].index);
    }
  }

  lemma SeekReads(db: Store, gid: u64, log: seq<LogEntry>, index: u64)
    requires StoresLog(db, gid, log)
    ensures Reads(db, gid, log, CountBelow(log, index), SeekForward(db, LogPrefix(gid) + U64Bytes(index)))
  {
    ForwardSeekFindsFirst(db, gid, log, index);
    StandingReads(db, gid, log, CountBelow(log, index), SeekForward(db, LogPrefix(gid) + U64Bytes(index)));
  }

  lemma StepReads(db: Store, gid: u64, log: seq<LogEntry>, i: nat, at: Option<Bytes>)
    requires StoresLog(db, gid, log) && i < |log| && Reads(db, gid, log, i, at)
    ensures Reads(db, gid, log, i + 1, StepForward(db, at.value))
  {
    var j :| 0 <= j < |log| && at.value == LogEntryKey(gid, log[j].index);
    assert log[j] == log[i];
    ForwardStepFindsNext(db, gid, log, i);
    StandingReads(db, gid, log, i + 1, StepForward(db, at.value));
  }

  method PullGroupLogs(db: Store, gid: u64, index: u64, ghost log: seq<LogEntry>) returns (result: seq<LogEntry>)
    requires StoresLog(db, gid, log)
    ensures result == PulledEntries(log, index)
  {
    SeekReads(db, gid, log, index);
    ghost var first := CountBelow(log, index);
    var prefix := LogPrefix(gid);
    result := [];
    var at := SeekForward(db, prefix + U64Bytes(index));
    if InPrefix(at, prefix) {
      var firstEntry := db[at.value].entry;
      if firstEntry.index == index {
        ghost var i := first;
        while true
          invariant first <= i < |log|
          invariant result == log[first + 1..i + 1]
          invariant Reads(db, gid, log, i, at)
          decreases |log| - i
        {
          StepReads(db, gid, log, i, at);
          at := StepForward(db, at.value);
          i := i + 1;
          if InPrefix(at, prefix) {
            result := result + [db[at.value].entry];
          } else {
            break;
          }
        }
      }
    }
  }

  // ---------- the peers of one group ----------

  ghost predicate StoresPeers(db: Store, gid: u64, peers: map<u64, Peer>) {
    && (forall id {:trigger PeerKey(gid, id)} :: id in peers ==>
          PeerKey(gid, id) in db && db[PeerKey(gid, id)] == PeerValue(peers[id]) && peers[id].id == id)
    && (forall k {:trigger HasPrefix(k, ComposeKeyPrefix(gid, GROUP_PEERS))} ::
          k in db && HasPrefix(k, ComposeKeyPrefix(gid, GROUP_PEERS)) ==>
          exists id :: id in peers && k == PeerKey(gid, id))
  }

  ghost predicate IsNextPeer(peers: map<u64, Peer>, lo: nat, id: u64) {
    id in peers && lo <= id && forall j :: j in peers && lo <= j ==> id <= j
  }

  /** Among the peers with id at least `lo`, the scan stands on the least, or has left the prefix if there is none. */
  ghost predicate StandsOnPeer(gid: u64, peers: map<u64, Peer>, lo: nat, at: Option<Bytes>) {
    if InPrefix(at, ComposeKeyPrefix(gid, GROUP_PEERS)) then
      exists id :: IsNextPeer(peers, lo, id) && at == Some(PeerKey(gid, id))
    else
      forall id :: id in peers ==> id < lo
  }

  lemma PeerLanding(db: Store, gid: u64, peers: map<u64, Peer>, lo: nat, from: u64,
                    at: Option<Bytes>, candidates: set<Bytes>)
    requires StoresPeers(db, gid, peers)
    requires at == Least(candidates)
    requires forall k :: k in candidates ==> k in db && LexLeq(PeerKey(gid, from), k)
    requires forall id :: id in peers ==> (PeerKey(gid, id) in candidates <==> lo <= id)
    ensures StandsOnPeer(gid, peers, lo, at)
  {
    var p := ComposeKeyPrefix(gid, GROUP_PEERS);
    if InPrefix(at, p) {
      var id :| id in peers && at.value == PeerKey(gid, id);
      forall j | j in peers && lo <= j ensures id <= j {
        RecordKeyOrder(gid, GROUP_PEERS, j, gid, GROUP_PEERS, id);
        LexTotal(PeerKey(gid, j), PeerKey(gid, id));
      }
      assert IsNextPeer(peers, lo, id);
    } else {
      forall id | id in peers ensures id < lo {
        if lo <= id {
          OutsideAbove(at.value, p, U64Bytes(from), U64Bytes(id));
          LexTotal(at.value, PeerKey(gid, id));
          assert false;
        }
      }
    }
  }

  lemma PeerSeek(db: Store, gid: u64, peers: map<u64, Peer>, from: u64)
    requires StoresPeers(db, gid, peers)
    ensures StandsOnPeer(gid, peers, from, SeekForward(db, PeerKey(gid, from)))
  {
    var candidates := set k | k in db && LexLeq(PeerKey(gid, from), k);
    forall id | id in peers ensures PeerKey(gid, id) in candidates <==> from <= id {
      RecordKeyOrder(gid, GROUP_PEERS, from, gid, GROUP_PEERS, id);
      LexTotal(PeerKey(gid, from), PeerKey(gid, id));
      if PeerKey(gid, from) == PeerKey(gid, id) {
        RecordKeyInjective(gid, GROUP_PEERS, from, gid, GROUP_PEERS, id);
      }
    }
    PeerLanding(db, gid, peers, from, from, SeekForward(db, PeerKey(gid, from)), candidates);
  }

  lemma PeerStep(db: Store, gid: u64, peers: map<u64, Peer>, id: u64)
    requires StoresPeers(db, gid, peers)
    ensures StandsOnPeer(gid, peers, id + 1, StepForward(db, PeerKey(gid, id)))
  {
    var candidates := set k | k in db && LexLess(PeerKey(gid, id), k);
    forall j | j in peers ensures PeerKey(gid, j) in candidates <==> id + 1 <= j {
      RecordKeyOrder(gid, GROUP_PEERS, id, gid, GROUP_PEERS, j);
    }
    PeerLanding(db, gid, peers, id + 1, id, StepForward(db, PeerKey(gid, id)), candidates);
  }

  /** GetGroupPeersFromKV: the prefix scan returns the peers of this group, all of them and no others. */
  method GetGroupPeers(db: Store, gid: u64, ghost peers: map<u64, Peer>) returns (found: map<u64, Peer>)
    requires StoresPeers(db, gid, peers)
    ensures found == peers
  {
    var prefix := ComposeKeyPrefix(gid, GROUP_PEERS);
    found := map[];
    var lowest: u64 := 0;
    PeerSeek(db, gid, peers, lowest);
    var at := SeekForward(db, prefix + U64Bytes(lowest));
    ghost var lo: nat := lowest;
    while InPrefix(at, prefix)
      invariant StandsOnPeer(gid, peers, lo, at)
      invariant forall id :: id in found <==> id in peers && id < lo
      invariant forall id :: id in found ==> found[id] == peers[id]
      decreases U64_LIMIT - lo
    {
      ghost var id: u64 :| IsNextPeer(peers, lo, id) && at == Some(PeerKey(gid, id));
      var peer := db[at.value].peer;
      found := found[peer.id := peer];
      PeerStep(db, gid, peers, id);
      at := StepForward(db, at.value);
      lo := id + 1;
    }
  }

  /** Saving a peer record updates exactly that peer. */
  lemma StorePeer(db: Store, gid: u64, peers: map<u64, Peer>, peer: Peer)
    requires StoresPeers(db, gid, peers) && peer.group == gid
    ensures StoresPeers(db[PeerKey(gid, peer.id) := PeerValue(peer)], gid, peers[peer.id := peer])
  {
    forall id | id in peers && id != peer.id ensures PeerKey(gid, id) != PeerKey(gid, peer.id) {
      if PeerKey(gid, id) == PeerKey(gid, peer.id) {
        RecordKeyInjective(gid, GROUP_PEERS, id, gid, GROUP_PEERS, peer.id);
      }
    }
    var db', peers' := db[PeerKey(gid, peer.id) := PeerValue(peer)], peers[peer.id := peer];
    forall k | k in db' && HasPrefix(k, ComposeKeyPrefix(gid, GROUP_PEERS))
      ensures exists id :: id in peers' && k == PeerKey(gid, id)
    {
      if k == PeerKey(gid, peer.id) {
        assert peer.id in peers';
      } else {
        var id :| id in peers && k == PeerKey(gid, id);
        assert id in peers';
      }
    }
  }

  lemma OneEntryPerIndex(log: seq<LogEntry>, i: nat, j: nat)
    requires Ascending(log) && i < |log| && j < |log| && log[i].index == log[j].index
    ensures i == j
  {
  }

  /** A pull of a stored index is answered with all entries of greater index, in order; of another index, with none. */
  lemma PulledMeans(log: seq<LogEntry>, index: u64)
    requires Ascending(log)
    ensures !HasIndex(log, index) ==> PulledEntries(log, index) == []
    ensures forall k :: 0 <= k < |log| && log[k].index == index ==> PulledEntries(log, index) == log[k + 1..]
  {
    CountBelowSplits(log, index);
    forall k | 0 <= k < |log| && log[k].index == index ensures CountBelow(log, index) == k {
      assert HasIndex(log, index);
      OneEntryPerIndex(log, CountBelow(log, index), k);
    }
  }
}
