/** Small helpers shared by the chunker, the batcher and the ingestion handler. */
module Common {

  /** A value that may be absent. */
  datatype Option<+T> = None | Some(value: T)

  /** `Math.min` on non-negative integers. */
  function Min(a: nat, b: nat): (m: nat)
    ensures m <= a && m <= b
    ensures m == a || m == b
  {
    if a <= b then a else b
  }
}
