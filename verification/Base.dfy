/** Machine widths and small datatypes shared by every component. */
module Base {

  datatype Option<+T> = None | Some(value: T)

  type Byte = x: nat | x < 256
  type Bytes = seq<Byte>

  const TWO_TO_32: nat := 0x1_0000_0000
  const TWO_TO_64: nat := 0x1_0000_0000_0000_0000

  type U32 = x: nat | x < TWO_TO_32
  type U64 = x: nat | x < TWO_TO_64

  function Max(a: int, b: int): int {
    if a < b then b else a
  }

  function Min(a: int, b: int): int {
    if a < b then a else b
  }

  lemma SubsetSize<T>(a: set<T>, b: set<T>)
    requires a <= b
    ensures |a| <= |b|
    ensures |a| == |b| ==> a == b
  {
    assert b == a + (b - a);
  }
}
