/**
 The hash-chained log (utils/signature.go LogHash, server/log_entries.go).
 SHA-1 is a parameter: any function from byte strings to 20-byte digests.
 Freedom from collisions is only ever assumed of the finitely many strings that were actually hashed.
 */
module LogChain {
  import opened Words
  import opened Encoding
  import opened Messages
  import opened SignText

  type Digest = d: Bytes | |d| == 20 witness seq(20, _ => 0)
  type Hasher = Bytes -> Digest

  function GenesisText(gid: u64): Bytes {
    GROUP_TEXT + Decimal(gid)
  }

  function EntryText(prevHash: Bytes, index: u64, funcId: u64, arg: Bytes): Bytes {
    prevHash + U64Bytes(index) + U64Bytes(funcId) + arg
  }

  function LogHash(h: Hasher, prevHash: Bytes, index: u64, funcId: u64, arg: Bytes): Digest {
    h(EntryText(prevHash, index, funcId, arg))
  }

  // ---------- logs in index order ----------

  /** A log is the list of stored entries, smallest index first. */
  predicate Ascending(log: seq<LogEntry>) {
    forall i, j :: 0 <= i < j < |log| ==> log[i].index < log[j].index
  }

  predicate HasIndex(log: seq<LogEntry>, index: u64) {
    exists i :: 0 <= i < |log| && log[i].index == index
  }

  function LastIndex(log: seq<LogEntry>): u64 {
    if log == [] then 0 else log[|log| - 1].index
  }

  function LastTerm(log: seq<LogEntry>): u64 {
    if log == [] then 0 else log[|log| - 1].term
  }

  /** The hash the next entry is chained to: the last entry's, or the group's genesis hash. */
  function HeadHash(h: Hasher, gid: u64, log: seq<LogEntry>): Bytes {
    if log == [] then h(GenesisText(gid)) else log[|log| - 1].hash
  }

  function Insert(log: seq<LogEntry>, e: LogEntry): seq<LogEntry> {
    if log == [] || log[|log| - 1].index < e.index then log + [e]
    else Insert(log[..|log| - 1], e) + [log[|log| - 1]]
  }

  lemma {:induction false} InsertKeepsOrder(log: seq<LogEntry>, e: LogEntry)
    requires Ascending(log) && !HasIndex(log, e.index)
    ensures Ascending(Insert(log, e))
    ensures forall x :: x in Insert(log, e) <==> x == e || x in log
  {
    if !(log == [] || log[|log| - 1].index < e.index) {
      var init, last := log[..|log| - 1], log[|log| - 1];
      InsertKeepsOrder(init, e);
      assert log == init + [last];
      assert forall x :: x in init ==> x.index < last.index;
      assert e.index < last.index;
    }
  }

  /** Number of entries below an index: where a forward seek to that index lands and a backward scan for it stops. */
  function CountBelow(log: seq<LogEntry>, index: u64): (n: nat)
    ensures n <= |log|
  {
    if log == [] || log[|log| - 1].index < index then |log| else CountBelow(log[..|log| - 1], index)
  }

  lemma {:induction false} CountBelowSplits(log: seq<LogEntry>, index: u64)
    requires Ascending(log)
    ensures forall i :: 0 <= i < |log| ==> (log[i].index < index <==> i < CountBelow(log, index))
    ensures HasIndex(log, index) <==> CountBelow(log, index) < |log| && log[CountBelow(log, index)].index == index
  {
    if !(log == [] || log[|log| - 1].index < index) {
      var init := log[..|log| - 1];
      CountBelowSplits(init, index);
      forall i | 0 <= i < |log| ensures log[i].index < index <==> i < CountBelow(log, index) {
        if i < |init| {
          assert init[i].index < index <==> i < CountBelow(init, index);
        }
      }
    }
    if i :| 0 <= i < |log| && log[i].index == index {
      var n := CountBelow(log, index);
      assert n <= i && log[n].index <= log[i].index;
    }
  }

  datatype LocalAppend = GroupPanic | Existed | HashMismatch | Stored

  /**
   How AppendEntryToLocal ends; a stored entry is inserted into the log, any other end leaves the log alone.
   Note that the index is never asked to be the next one.
   */
  function AppendLocal(h: Hasher, gid: u64, log: seq<LogEntry>, e: LogEntry): LocalAppend {
    if e.command.group != gid then GroupPanic
    else if HasIndex(log, e.index) then Existed
    else if e.hash != LogHash(h, HeadHash(h, gid, log), e.index, e.command.funcId, e.command.arg) then HashMismatch
    else Stored
  }

  // ---------- valid chains ----------

  function PrevHash(h: Hasher, gid: u64, log: seq<LogEntry>, i: nat): Bytes
    requires i <= |log|
  {
    HeadHash(h, gid, log[..i])
  }

  /** The string whose hash entry `i` carries. */
  function Preimage(h: Hasher, gid: u64, log: seq<LogEntry>, i: nat): Bytes
    requires i < |log|
  {
    EntryText(PrevHash(h, gid, log, i), log[i].index, log[i].command.funcId, log[i].command.arg)
  }

  predicate Linked(h: Hasher, gid: u64, log: seq<LogEntry>, i: nat)
    requires i < |log|
  {
    && log[i].index == i + 1
    && log[i].command.group == gid
    && log[i].hash == h(Preimage(h, gid, log, i))
  }

  /** Indexes 1..n without gaps, every entry of this group and hashed onto its predecessor. */
  predicate ChainValid(h: Hasher, gid: u64, log: seq<LogEntry>) {
    forall i :: 0 <= i < |log| ==> Linked(h, gid, log, i)
  }

  lemma ChainIsAscending(h: Hasher, gid: u64, log: seq<LogEntry>)
    requires ChainValid(h, gid, log)
    ensures Ascending(log)
    ensures LastIndex(log) == |log|
    ensures forall i: u64 :: HasIndex(log, i) <==> 1 <= i <= |log|
  {
    forall i | 0 <= i < |log| ensures log[i].index == i + 1 {
      assert Linked(h, gid, log, i);
    }
    forall i: u64 | 1 <= i <= |log| ensures HasIndex(log, i) {
      assert log[i - 1].index == i;
    }
  }

  lemma ChainPrefix(h: Hasher, gid: u64, log: seq<LogEntry>, k: nat)
    requires ChainValid(h, gid, log) && k <= |log|
    ensures ChainValid(h, gid, log[..k])
  {
    forall i | 0 <= i < k ensures Linked(h, gid, log[..k], i) {
      assert Linked(h, gid, log, i);
      assert log[..k][..i] == log[..i];
    }
  }

  /** An entry linked to the head extends the chain, and AppendEntryToLocal accepts it. */
  lemma ChainExtend(h: Hasher, gid: u64, log: seq<LogEntry>, e: LogEntry)
    requires ChainValid(h, gid, log)
    requires e.index == |log| + 1 && e.command.group == gid
    requires e.hash == LogHash(h, HeadHash(h, gid, log), e.index, e.command.funcId, e.command.arg)
    ensures ChainValid(h, gid, log + [e])
    ensures AppendLocal(h, gid, log, e) == Stored && Insert(log, e) == log + [e]
  {
    ChainIsAscending(h, gid, log);
    var longer := log + [e];
    forall i | 0 <= i < |longer| ensures Linked(h, gid, longer, i) {
      if i < |log| {
        assert Linked(h, gid, log, i);
        assert longer[..i] == log[..i];
      } else {
        assert longer[..i] == log;
      }
    }
  }

  /** In a valid chain each entry is exactly what AppendEntryToLocal takes on top of the entries before it. */
  lemma ChainStep(h: Hasher, gid: u64, log: seq<LogEntry>, i: nat)
    requires ChainValid(h, gid, log) && i < |log|
    ensures AppendLocal(h, gid, log[..i], log[i]) == Stored && Insert(log[..i], log[i]) == log[..i + 1]
  {
    assert Linked(h, gid, log, i);
    ChainPrefix(h, gid, log, i);
    ChainExtend(h, gid, log[..i], log[i]);
    assert log[..i] + [log[i]] == log[..i + 1];
  }

  // ---------- what equal hashes prove ----------

  /** Index, function and argument: the part of an entry that its hash covers. */
  predicate SameContent(a: LogEntry, b: LogEntry) {
    a.index == b.index && a.command.funcId == b.command.funcId && a.command.arg == b.command.arg
  }

  predicate SameContents(a: seq<LogEntry>, b: seq<LogEntry>) {
    |a| == |b| && forall i :: 0 <= i < |a| ==> SameContent(a[i], b[i])
  }

  /** Every string that was hashed to build the chain. */
  ghost function Preimages(h: Hasher, gid: u64, log: seq<LogEntry>): set<Bytes> {
    {GenesisText(gid)} + set i | 0 <= i < |log| :: Preimage(h, gid, log, i)
  }

  ghost predicate NoCollision(h: Hasher, texts: set<Bytes>) {
    forall x, y :: x in texts && y in texts && h(x) == h(y) ==> x == y
  }

  lemma ChainHashSize(h: Hasher, gid: u64, log: seq<LogEntry>)
    requires ChainValid(h, gid, log)
    ensures |HeadHash(h, gid, log)| == 20
  {
    if log != [] {
      assert Linked(h, gid, log, |log| - 1);
    }
  }

  /** The fixed layout (20 + 8 + 8 + rest) makes the hashed string unambiguous. */
  lemma EntryTextInjective(p: Bytes, i: u64, f: u64, a: Bytes, q: Bytes, j: u64, g: u64, b: Bytes)
    requires |p| == |q| == 20
    requires EntryText(p, i, f, a) == EntryText(q, j, g, b)
    ensures p == q && i == j && f == g && a == b
  {
    var s, t := EntryText(p, i, f, a), EntryText(q, j, g, b);
    assert s[..20] == p && t[..20] == q;
    assert s[20..28] == U64Bytes(i) && t[20..28] == U64Bytes(j);
    assert s[28..36] == U64Bytes(f) && t[28..36] == U64Bytes(g);
    assert s[36..] == a && t[36..] == b;
    U64BytesInjective(i, j);
    U64BytesInjective(f, g);
  }

  /** A genesis text has at most 26 bytes and an entry text at least 36, so neither can pass for the other. */
  lemma GenesisIsNoEntry(gid: u64, prevHash: Bytes, index: u64, funcId: u64, arg: Bytes)
    requires |prevHash| == 20
    ensures |GenesisText(gid)| <= 26 < 36 <= |EntryText(prevHash, index, funcId, arg)|
    ensures GenesisText(gid) != EntryText(prevHash, index, funcId, arg)
  {
    U64DecimalLength(gid);
  }

  lemma GenesisInjective(g1: u64, g2: u64)
    requires GenesisText(g1) == GenesisText(g2)
    ensures g1 == g2
  {
    assert GenesisText(g1)[6..] == Decimal(g1) && GenesisText(g2)[6..] == Decimal(g2);
    DecimalInjective(g1, g2);
  }

  lemma PreimagesOfPrefix(h: Hasher, gid: u64, log: seq<LogEntry>, k: nat)
    requires k <= |log|
    ensures Preimages(h, gid, log[..k]) <= Preimages(h, gid, log)
    ensures k > 0 ==> Preimage(h, gid, log[..k], k - 1) == Preimage(h, gid, log, k - 1)
  {
    forall i | 0 <= i < k ensures Preimage(h, gid, log[..k], i) == Preimage(h, gid, log, i) {
      assert log[..k][..i] == log[..i];
    }
  }

  /** An entry's hash is never a genesis hash. */
  lemma EntryHashIsNoGenesis(h: Hasher, g: u64, log: seq<LogEntry>, other: u64)
    requires ChainValid(h, g, log) && log != []
    requires NoCollision(h, Preimages(h, g, log) + {GenesisText(other)})
    ensures HeadHash(h, g, log) != h(GenesisText(other))
  {
    var n := |log| - 1;
    assert Linked(h, g, log, n);
    ChainPrefix(h, g, log, n);
    ChainHashSize(h, g, log[..n]);
    GenesisIsNoEntry(other, PrevHash(h, g, log, n), log[n].index, log[n].command.funcId, log[n].command.arg);
    assert Preimage(h, g, log, n) in Preimages(h, g, log);
  }

  /** Entries with one hash have one content and sit on heads with one hash. */
  lemma LastHashesMatch(h: Hasher, g1: u64, a: seq<LogEntry>, g2: u64, b: seq<LogEntry>)
    requires ChainValid(h, g1, a) && ChainValid(h, g2, b) && a != [] && b != []
    requires NoCollision(h, Preimages(h, g1, a) + Preimages(h, g2, b))
    requires HeadHash(h, g1, a) == HeadHash(h, g2, b)
    ensures SameContent(a[|a| - 1], b[|b| - 1])
    ensures HeadHash(h, g1, a[..|a| - 1]) == HeadHash(h, g2, b[..|b| - 1])
  {
    var m, n := |a| - 1, |b| - 1;
    assert Linked(h, g1, a, m) && Linked(h, g2, b, n);
    assert Preimage(h, g1, a, m) in Preimages(h, g1, a);
    assert Preimage(h, g2, b, n) in Preimages(h, g2, b);
    ChainPrefix(h, g1, a, m);
    ChainPrefix(h, g2, b, n);
    ChainHashSize(h, g1, a[..m]);
    ChainHashSize(h, g2, b[..n]);
    EntryTextInjective(PrevHash(h, g1, a, m), a[m].index, a[m].command.funcId, a[m].command.arg,
                       PrevHash(h, g2, b, n), b[n].index, b[n].command.funcId, b[n].command.arg);
  }

  lemma SameContentsExtend(a: seq<LogEntry>, b: seq<LogEntry>)
    requires a != [] && b != []
    requires SameContents(a[..|a| - 1], b[..|b| - 1]) && SameContent(a[|a| - 1], b[|b| - 1])
    ensures SameContents(a, b)
  {
    forall i | 0 <= i < |a| ensures SameContent(a[i], b[i]) {
      if i < |a| - 1 {
        assert SameContent(a[..|a| - 1][i], b[..|b| - 1][i]);
      }
    }
  }

  /**
   Equal head hashes mean equal logs: same group, same length, same contents throughout.
   It holds for empty logs too, because a genesis text is never an entry text.
   */
  lemma {:induction false} HeadHashDeterminesLog(h: Hasher, g1: u64, a: seq<LogEntry>, g2: u64, b: seq<LogEntry>)
    requires ChainValid(h, g1, a) && ChainValid(h, g2, b)
    requires NoCollision(h, Preimages(h, g1, a) + Preimages(h, g2, b))
    requires HeadHash(h, g1, a) == HeadHash(h, g2, b)
    ensures g1 == g2 && SameContents(a, b)
    decreases |a|
  {
    assert GenesisText(g1) in Preimages(h, g1, a) && GenesisText(g2) in Preimages(h, g2, b);
    if a == [] && b == [] {
      GenesisInjective(g1, g2);
    } else if a == [] {
      EntryHashIsNoGenesis(h, g2, b, g1);
    } else if b == [] {
      EntryHashIsNoGenesis(h, g1, a, g2);
    } else {
      LastHashesMatch(h, g1, a, g2, b);
      ChainPrefix(h, g1, a, |a| - 1);
      ChainPrefix(h, g2, b, |b| - 1);
      PreimagesOfPrefix(h, g1, a, |a| - 1);
      PreimagesOfPrefix(h, g2, b, |b| - 1);
      HeadHashDeterminesLog(h, g1, a[..|a| - 1], g2, b[..|b| - 1]);
      SameContentsExtend(a, b);
    }
  }

  /** The converse: equal contents give equal hashes, whatever the hash function. */
  lemma {:induction false} ContentsFixHashes(h: Hasher, gid: u64, a: seq<LogEntry>, b: seq<LogEntry>)
    requires ChainValid(h, gid, a) && ChainValid(h, gid, b) && SameContents(a, b)
    ensures HeadHash(h, gid, a) == HeadHash(h, gid, b)
    ensures forall i :: 0 <= i < |a| ==> a[i].hash == b[i].hash
    decreases |a|
  {
    if a != [] {
      var n := |a| - 1;
      ChainPrefix(h, gid, a, n);
      ChainPrefix(h, gid, b, n);
      assert SameContents(a[..n], b[..n]) by {
        assert forall i :: 0 <= i < n ==> SameContent(a[i], b[i]);
      }
      ContentsFixHashes(h, gid, a[..n], b[..n]);
      assert SameContent(a[n], b[n]) && Linked(h, gid, a, n) && Linked(h, gid, b, n);
      forall i | 0 <= i < |a| ensures a[i].hash == b[i].hash {
        if i < n {
          assert a[..n][i].hash == b[..n][i].hash;
        }
      }
    }
  }

  /** Equal hashes at two entries make the logs up to those entries the same. */
  lemma EqualHashesEqualPrefixes(h: Hasher, gid: u64, a: seq<LogEntry>, b: seq<LogEntry>, i: nat, j: nat)
    requires ChainValid(h, gid, a) && ChainValid(h, gid, b)
    requires NoCollision(h, Preimages(h, gid, a) + Preimages(h, gid, b))
    requires i < |a| && j < |b| && a[i].hash == b[j].hash
    ensures SameContents(a[..i + 1], b[..j + 1])
  {
    ChainPrefix(h, gid, a, i + 1);
    ChainPrefix(h, gid, b, j + 1);
    PreimagesOfPrefix(h, gid, a, i + 1);
    PreimagesOfPrefix(h, gid, b, j + 1);
    HeadHashDeterminesLog(h, gid, a[..i + 1], gid, b[..j + 1]);
  }

  /**
   Log matching across any number of leaders: where two entries carry one hash, they stand at one index, and from
   there down to the first entry both the contents and the hashes agree.
   */
  lemma HashesMatchDownward(h: Hasher, gid: u64, a: seq<LogEntry>, b: seq<LogEntry>, i: nat, j: nat)
    requires ChainValid(h, gid, a) && ChainValid(h, gid, b)
    requires NoCollision(h, Preimages(h, gid, a) + Preimages(h, gid, b))
    requires i < |a| && j < |b| && a[i].hash == b[j].hash
    ensures i == j
    ensures forall k :: 0 <= k <= i ==> SameContent(a[k], b[k]) && a[k].hash == b[k].hash
  {
    EqualHashesEqualPrefixes(h, gid, a, b, i, j);
    var p, q := a[..i + 1], b[..j + 1];
    ChainPrefix(h, gid, a, i + 1);
    ChainPrefix(h, gid, b, j + 1);
    ContentsFixHashes(h, gid, p, q);
    forall k | 0 <= k <= i ensures SameContent(a[k], b[k]) && a[k].hash == b[k].hash {
      assert SameContent(p[k], q[k]) && p[k].hash == q[k].hash;
    }
  }

  /** The chain does not cover terms: for every hash function two valid logs differ in a term under one hash. */
  lemma TermsAreNotCovered(h: Hasher, gid: u64)
    ensures exists a: seq<LogEntry>, b: seq<LogEntry> ::
              && ChainValid(h, gid, a) && ChainValid(h, gid, b) && |a| == |b| == 1
              && a[0].hash == b[0].hash && a[0].term != b[0].term
  {
    var cmd := Command(gid, 0, 0, 0, [], []);
    var hash := LogHash(h, h(GenesisText(gid)), 1, 0, []);
    var e, f := LogEntry(1, 1, hash, cmd), LogEntry(2, 1, hash, cmd);
    assert ChainValid(h, gid, []);
    ChainExtend(h, gid, [], e);
    ChainExtend(h, gid, [], f);
    assert [] + [e] == [e] && [] + [f] == [f];
    var a, b := [e], [f];
    assert a[0].hash == b[0].hash && a[0].term != b[0].term;
  }

  // ---------- the hashed texts, byte by byte ----------

  /** The hash before, the index and the function in eight bytes each, and the argument, in this order. */
  lemma EntryLayout(prevHash: Bytes, index: u64, funcId: u64, arg: Bytes)
    requires |prevHash| == 20
    ensures var text := EntryText(prevHash, index, funcId, arg);
            && |text| == 36 + |arg|
            && text[0..20] == prevHash && text[20..28] == U64Bytes(index) && text[28..36] == U64Bytes(funcId)
            && text[36..] == arg
  {
  }

  /** "GROUP:" and the group's number. */
  lemma GenesisLayout(gid: u64)
    ensures GenesisText(gid) == [71, 82, 79, 85, 80, 58] + Decimal(gid)
  {
  }

  /** Entry `i` has the next index, is of the group, and carries the hash of the text over the one before it. */
  predicate LinkWritten(h: Hasher, gid: u64, log: seq<LogEntry>, i: nat)
    requires i < |log|
  {
    && log[i].index == i + 1 && log[i].command.group == gid
    && log[i].hash == h((if i == 0 then h(GenesisText(gid)) else log[i - 1].hash)
                        + U64Bytes(log[i].index) + U64Bytes(log[i].command.funcId) + log[i].command.arg)
  }

  lemma LinkIsWritten(h: Hasher, gid: u64, log: seq<LogEntry>, i: nat)
    requires i < |log|
    ensures Linked(h, gid, log, i) <==> LinkWritten(h, gid, log, i)
  {
    assert PrevHash(h, gid, log, i) == if i == 0 then h(GenesisText(gid)) else log[i - 1].hash;
  }

  /** A valid chain is one of such links. */
  lemma ChainWritten(h: Hasher, gid: u64, log: seq<LogEntry>)
    ensures ChainValid(h, gid, log) <==> forall i :: 0 <= i < |log| ==> LinkWritten(h, gid, log, i)
  {
    forall i | 0 <= i < |log| ensures Linked(h, gid, log, i) <==> LinkWritten(h, gid, log, i) {
      LinkIsWritten(h, gid, log, i);
    }
  }
}
