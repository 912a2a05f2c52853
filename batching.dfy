/**
 * How the ingestion handler cuts the chunk list into batches: the loop
 * `for (i = 0; i < chunks.length; i += batchSize)` takes
 * `chunks.slice(i, i + batchSize)` each time round.
 */
module Batching {
  import opened Common

  /** The consecutive slices of at most `size` elements that the batch loop visits, in order. */
  function Batches<T>(s: seq<T>, size: nat): (bs: seq<seq<T>>)
    requires size > 0
    ensures forall b :: 0 <= b < |bs| ==> 0 < |bs[b]| <= size
    decreases |s|
  {
    if s == [] then []
    else
      var m := Min(size, |s|);
      [s[..m]] + Batches(s[m..], size)
  }

  /** The concatenation of a sequence of batches. */
  function Flatten<T>(bs: seq<seq<T>>): seq<T> {
    if bs == [] then [] else bs[0] + Flatten(bs[1..])
  }

  /** Concatenated in order, the batches are exactly the list: nothing skipped, nothing repeated. */
  lemma {:induction false} FlattenBatches<T>(s: seq<T>, size: nat)
    requires size > 0
    ensures Flatten(Batches(s, size)) == s
    decreases |s|
  {
    if s != [] {
      var m := Min(size, |s|);
      var bs := Batches(s, size);
      assert bs[1..] == Batches(s[m..], size);
      FlattenBatches(s[m..], size);
      assert s == s[..m] + s[m..];
    }
  }

  /**
   * There are `ceil(|s| / size)` batches: enough to hold `|s|` elements, and
   * one fewer would not be.
   */
  lemma {:induction false} BatchCount<T>(s: seq<T>, size: nat)
    requires size > 0
    ensures var k := |Batches(s, size)|;
      k * size >= |s| && (s != [] ==> (k - 1) * size < |s|)
    decreases |s|
  {
    if s != [] {
      var m := Min(size, |s|);
      var rest := s[m..];
      var k := |Batches(s, size)|;
      assert Batches(s, size)[1..] == Batches(rest, size);
      BatchCount(rest, size);
      assert k * size == (k - 1) * size + size;
    }
  }

  /**
   * Batch `b` is the slice `[b * size, min(b * size + size, |s|))`, so every
   * batch but the last holds exactly `size` elements.
   */
  lemma {:induction false} BatchAt<T>(s: seq<T>, size: nat, b: nat)
    requires size > 0 && b < |Batches(s, size)|
    ensures b * size < |s|
    ensures Batches(s, size)[b] == s[b * size..Min(b * size + size, |s|)]
    decreases |s|
  {
    var bs := Batches(s, size);
    var m := Min(size, |s|);
    var rest := s[m..];
    if b > 0 {
      assert bs[1..] == Batches(rest, size);
      assert bs[b] == Batches(rest, size)[b - 1];
      BatchAt(rest, size, b - 1);
      var lo := (b - 1) * size;
      var hi := Min(lo + size, |rest|);
      assert m == size;
      assert lo + size == b * size;
      DropSlice(s, m, lo, hi, b * size, Min(b * size + size, |s|));
    }
  }

  /** A slice of `s[m..]` is the slice of `s` shifted by `m`. */
  lemma {:induction false} DropSlice<T>(s: seq<T>, m: nat, lo: nat, hi: nat, lo2: nat, hi2: nat)
    requires m <= |s| && lo <= hi <= |s| - m && lo2 == m + lo && hi2 == m + hi
    ensures s[m..][lo..hi] == s[lo2..hi2]
  {
    forall k | 0 <= k < hi - lo ensures s[m..][lo..hi][k] == s[lo2..hi2][k] {
      assert s[m..][lo..hi][k] == s[m + lo + k];
    }
  }
}
