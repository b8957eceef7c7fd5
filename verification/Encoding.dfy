/**
 Big-endian integers and the composite keys of the ordered store
 (utils/encoding.go, server/store.go).
 */
module Encoding {
  import opened Words

  const LOG_ENTRIES: u32 := 0
  const GROUP_PEERS: u32 := 1
  const GROUP_META: u32 := 2

  function Pow256(w: nat): (p: nat)
    ensures p > 0
  {
    if w == 0 then 1 else 256 * Pow256(w - 1)
  }

  /** The `width` low-order base-256 digits of `n`, most significant first. */
  function BigEndian(n: nat, width: nat): (bs: Bytes)
    ensures |bs| == width
  {
    if width == 0 then [] else BigEndian(n / 256, width - 1) + [n % 256]
  }

  /** The number a byte string denotes when read most significant byte first. */
  function Number(bs: Bytes): nat {
    if bs == [] then 0 else Number(bs[..|bs| - 1]) * 256 + bs[|bs| - 1]
  }

  function U32Bytes(t: u32): (bs: Bytes)
    ensures |bs| == 4
  {
    BigEndian(t, 4)
  }

  function U64Bytes(n: u64): (bs: Bytes)
    ensures |bs| == 8
  {
    BigEndian(n, 8)
  }

  /** `None` stands for the slice-bounds panic of the source. */
  function BytesU64(bs: Bytes, offset: nat): Option<nat> {
    if offset + 8 <= |bs| then Some(Number(bs[offset..offset + 8])) else None
  }

  lemma PowWidths()
    ensures Pow256(4) == 0x1_0000_0000
    ensures Pow256(8) == 0x1_0000_0000_0000_0000
  {
    assert Pow256(4) == 256 * Pow256(3) == 256 * (256 * Pow256(2)) == 256 * (256 * (256 * Pow256(1)));
    assert Pow256(8) == 256 * Pow256(7) == 256 * (256 * Pow256(6)) == 256 * (256 * (256 * Pow256(5)));
  }

  lemma {:induction false} NumberOfBigEndian(n: nat, width: nat)
    requires n < Pow256(width)
    ensures Number(BigEndian(n, width)) == n
  {
    if width > 0 {
      NumberOfBigEndian(n / 256, width - 1);
      var bs := BigEndian(n, width);
      assert bs[..|bs| - 1] == BigEndian(n / 256, width - 1);
    }
  }

  lemma {:induction false} BigEndianOfNumber(bs: Bytes)
    ensures Number(bs) < Pow256(|bs|)
    ensures BigEndian(Number(bs), |bs|) == bs
  {
    if bs != [] {
      var init, last := bs[..|bs| - 1], bs[|bs| - 1];
      BigEndianOfNumber(init);
      assert Number(bs) / 256 == Number(init) && Number(bs) % 256 == last;
      assert bs == init + [last];
    }
  }

  /** Decoding undoes encoding wherever the eight bytes lie in a larger buffer. */
  lemma U64RoundTrip(n: u64, before: Bytes, after: Bytes)
    ensures BytesU64(before + U64Bytes(n) + after, |before|) == Some(n)
  {
    PowWidths();
    NumberOfBigEndian(n, 8);
    assert (before + U64Bytes(n) + after)[|before|..|before| + 8] == U64Bytes(n);
  }

  lemma U64BytesInjective(a: u64, b: u64)
    requires U64Bytes(a) == U64Bytes(b)
    ensures a == b
  {
    PowWidths();
    NumberOfBigEndian(a, 8);
    NumberOfBigEndian(b, 8);
  }

  lemma U32BytesInjective(a: u32, b: u32)
    requires U32Bytes(a) == U32Bytes(b)
    ensures a == b
  {
    PowWidths();
    NumberOfBigEndian(a, 4);
    NumberOfBigEndian(b, 4);
  }

  // ---------- lexicographic order, the order of the store ----------

  predicate LexLess(a: Bytes, b: Bytes)
    decreases |a|
  {
    if b == [] then false
    else if a == [] then true
    else if a[0] != b[0] then a[0] < b[0]
    else LexLess(a[1..], b[1..])
  }

  predicate LexLeq(a: Bytes, b: Bytes) {
    a == b || LexLess(a, b)
  }

  lemma {:induction false} LexTotal(a: Bytes, b: Bytes)
    ensures LexLess(a, b) || a == b || LexLess(b, a)
    ensures !(LexLess(a, b) && LexLess(b, a))
    ensures !LexLess(a, a)
    decreases |a|
  {
    if a != [] {
      LexTotal(a[1..], a[1..]);
      if b != [] {
        LexTotal(a[1..], b[1..]);
        assert a == [a[0]] + a[1..] && b == [b[0]] + b[1..];
      }
    }
  }

  lemma {:induction false} LexTransitive(a: Bytes, b: Bytes, c: Bytes)
    requires LexLess(a, b) && LexLess(b, c)
    ensures LexLess(a, c)
    decreases |a|
  {
    if a != [] && a[0] == b[0] == c[0] {
      LexTransitive(a[1..], b[1..], c[1..]);
    }
  }

  /** Heads of equal length decide the order; only equal heads let the tails speak. */
  lemma {:induction false} LexConcat(a: Bytes, b: Bytes, x: Bytes, y: Bytes)
    requires |a| == |b|
    ensures LexLess(a + x, b + y) <==> LexLess(a, b) || (a == b && LexLess(x, y))
    decreases |a|
  {
    if a == [] {
      assert a + x == x && b + y == y;
    } else {
      LexConcat(a[1..], b[1..], x, y);
      assert (a + x)[1..] == a[1..] + x && (b + y)[1..] == b[1..] + y;
      assert a == [a[0]] + a[1..] && b == [b[0]] + b[1..];
    }
  }

  /** On strings of one length, byte order is numeric order. */
  lemma {:induction false} LexIsNumeric(a: Bytes, b: Bytes)
    requires |a| == |b|
    ensures LexLess(a, b) <==> Number(a) < Number(b)
    decreases |a|
  {
    if a != [] {
      var k := |a| - 1;
      LexIsNumeric(a[..k], b[..k]);
      LexConcat(a[..k], b[..k], [a[k]], [b[k]]);
      assert a == a[..k] + [a[k]] && b == b[..k] + [b[k]];
      BigEndianOfNumber(a[..k]);
      BigEndianOfNumber(b[..k]);
      assert LexLess([a[k]], [b[k]]) <==> a[k] < b[k] by {
        assert [a[k]][1..] == [] && [b[k]][1..] == [];
      }
    }
  }

  lemma U64Order(a: u64, b: u64)
    ensures LexLess(U64Bytes(a), U64Bytes(b)) <==> a < b
  {
    PowWidths();
    NumberOfBigEndian(a, 8);
    NumberOfBigEndian(b, 8);
    LexIsNumeric(U64Bytes(a), U64Bytes(b));
  }

  lemma U32Order(a: u32, b: u32)
    ensures LexLess(U32Bytes(a), U32Bytes(b)) <==> a < b
  {
    PowWidths();
    NumberOfBigEndian(a, 4);
    NumberOfBigEndian(b, 4);
    LexIsNumeric(U32Bytes(a), U32Bytes(b));
  }

  // ---------- composite keys ----------

  function ComposeKeyPrefix(group: u64, kind: u32): (k: Bytes)
    ensures |k| == 12
  {
    U32Bytes(kind) + U64Bytes(group)
  }

  /** The key of the record `id` of one kind in one group. */
  function RecordKey(group: u64, kind: u32, id: u64): (k: Bytes)
    ensures |k| == 20
  {
    ComposeKeyPrefix(group, kind) + U64Bytes(id)
  }

  function LogEntryKey(group: u64, index: u64): Bytes {
    RecordKey(group, LOG_ENTRIES, index)
  }

  function PeerKey(group: u64, id: u64): Bytes {
    RecordKey(group, GROUP_PEERS, id)
  }

  function GroupKey(group: u64): Bytes {
    ComposeKeyPrefix(group, GROUP_META)
  }

  predicate HasPrefix(k: Bytes, p: Bytes) {
    |p| <= |k| && k[..|p|] == p
  }

  lemma PrefixInjective(g1: u64, k1: u32, g2: u64, k2: u32)
    requires ComposeKeyPrefix(g1, k1) == ComposeKeyPrefix(g2, k2)
    ensures g1 == g2 && k1 == k2
  {
    var a, b := ComposeKeyPrefix(g1, k1), ComposeKeyPrefix(g2, k2);
    assert a[..4] == U32Bytes(k1) && b[..4] == U32Bytes(k2);
    assert a[4..] == U64Bytes(g1) && b[4..] == U64Bytes(g2);
    U32BytesInjective(k1, k2);
    U64BytesInjective(g1, g2);
  }

  /** A record key carries the prefix of its own kind and group and of no other. */
  lemma RecordKeyPrefix(g1: u64, k1: u32, id: u64, g2: u64, k2: u32)
    ensures HasPrefix(RecordKey(g1, k1, id), ComposeKeyPrefix(g2, k2)) <==> g1 == g2 && k1 == k2
  {
    assert RecordKey(g1, k1, id)[..12] == ComposeKeyPrefix(g1, k1);
    if ComposeKeyPrefix(g1, k1) == ComposeKeyPrefix(g2, k2) {
      PrefixInjective(g1, k1, g2, k2);
    }
  }

  lemma RecordKeyInjective(g1: u64, k1: u32, i1: u64, g2: u64, k2: u32, i2: u64)
    requires RecordKey(g1, k1, i1) == RecordKey(g2, k2, i2)
    ensures g1 == g2 && k1 == k2 && i1 == i2
  {
    var a, b := RecordKey(g1, k1, i1), RecordKey(g2, k2, i2);
    assert a[..12] == ComposeKeyPrefix(g1, k1) && b[..12] == ComposeKeyPrefix(g2, k2);
    assert a[12..] == U64Bytes(i1) && b[12..] == U64Bytes(i2);
    PrefixInjective(g1, k1, g2, k2);
    U64BytesInjective(i1, i2);
  }

  /** Byte order of record keys is the numeric order on (kind, group, id). */
  lemma RecordKeyOrder(g1: u64, k1: u32, i1: u64, g2: u64, k2: u32, i2: u64)
    ensures LexLess(RecordKey(g1, k1, i1), RecordKey(g2, k2, i2)) <==>
            k1 < k2 || (k1 == k2 && (g1 < g2 || (g1 == g2 && i1 < i2)))
  {
    LexConcat(ComposeKeyPrefix(g1, k1), ComposeKeyPrefix(g2, k2), U64Bytes(i1), U64Bytes(i2));
    LexConcat(U32Bytes(k1), U32Bytes(k2), U64Bytes(g1), U64Bytes(g2));
    U32Order(k1, k2);
    U64Order(g1, g2);
    U64Order(i1, i2);
    if ComposeKeyPrefix(g1, k1) == ComposeKeyPrefix(g2, k2) {
      PrefixInjective(g1, k1, g2, k2);
    }
    if U32Bytes(k1) == U32Bytes(k2) {
      U32BytesInjective(k1, k2);
    }
  }

  lemma SmallKind(kind: u32)
    requires kind < 256
    ensures U32Bytes(kind) == [0, 0, 0, kind]
  {
    PowWidths();
    assert Number([]) == 0 && [0][..0] == [] && [0, 0][..1] == [0] && [0, 0, 0][..2] == [0, 0];
    assert [0, 0, 0, kind][..3] == [0, 0, 0];
    assert Number([0, 0, 0, kind]) == kind;
    BigEndianOfNumber([0, 0, 0, kind]);
  }

  /** Log entries are kind 0, peers kind 1, group records kind 2; the group follows the kind and the id the group. */
  lemma KeyLayout(group: u64, id: u64)
    ensures LogEntryKey(group, id) == [0, 0, 0, 0] + U64Bytes(group) + U64Bytes(id)
    ensures PeerKey(group, id) == [0, 0, 0, 1] + U64Bytes(group) + U64Bytes(id)
    ensures GroupKey(group) == [0, 0, 0, 2] + U64Bytes(group)
  {
    SmallKind(0);
    SmallKind(1);
    SmallKind(2);
  }
}
