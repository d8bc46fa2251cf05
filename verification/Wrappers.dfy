/** What several modules share. */
module Wrappers {

  const INT32_LIMIT := 0x8000_0000

  /** A result, or none where the source throws, waits or finds nothing. */
  datatype Option<T> = None | Some(value: T)

  function Remove<T>(xs: seq<T>, i: nat): (ys: seq<T>)
    requires i < |xs|
    ensures |ys| == |xs| - 1
    ensures forall k | 0 <= k < |ys| :: ys[k] == xs[if k < i then k else k + 1]
  {
    xs[..i] + xs[i + 1..]
  }
}
