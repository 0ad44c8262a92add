/** Bytes and byte strings. */
module Bytes {
  type Byte = b: int | 0 <= b < 256
  type Data = seq<Byte>

  /** All chunks, end to end. */
  function Flatten(chunks: seq<Data>): Data {
    if chunks == [] then [] else Flatten(chunks[..|chunks| - 1]) + chunks[|chunks| - 1]
  }

  lemma {:induction false} FlattenBound(chunks: seq<Data>, i: nat)
    requires i <= |chunks|
    ensures |Flatten(chunks[..i])| <= |Flatten(chunks)|
  {
    if i < |chunks| {
      var n := |chunks| - 1;
      assert chunks[..n][..i] == chunks[..i];
      FlattenBound(chunks[..n], i);
    } else {
      assert chunks[..i] == chunks;
    }
  }
}
