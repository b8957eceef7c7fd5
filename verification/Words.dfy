/** Machine words, byte strings and the small datatypes every module shares. */
module Words {

  const U64_LIMIT: int := 0x1_0000_0000_0000_0000
  const MAX_U64: u64 := 0xFFFF_FFFF_FFFF_FFFF

  type u64 = x: int | 0 <= x < 0x1_0000_0000_0000_0000
  type u32 = x: int | 0 <= x < 0x1_0000_0000
  type byte = x: int | 0 <= x < 256
  type Bytes = seq<byte>

  datatype Option<+T> = None | Some(value: T)

  /** Go's uint64 addition, which wraps around. */
  function Add64(a: u64, b: nat): u64 {
    (a + b) % U64_LIMIT
  }

  function Inc64(a: u64): u64 {
    Add64(a, 1)
  }

  function Sub64(a: u64, b: u64): u64 {
    (a - b) % U64_LIMIT
  }

  /** A subset with the same number of elements is the whole set; a smaller set has no more elements. */
  lemma SubsetSize<T>(a: set<T>, b: set<T>)
    requires a <= b
    ensures |a| <= |b|
  {
    assert b == a + (b - a);
  }
}
