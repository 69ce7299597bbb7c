/** `Array.prototype.slice` as ECMA-262 defines it: indices may be negative
    (counted from the end) and are clamped into the array, so a slice never
    fails. */
module JsArrays {

  /** The index conversion `slice` applies to both of its arguments: a
      negative `k` stands for `len + k`, and the outcome is clamped into
      `[0, len]`. */
  function RelativeIndex(k: int, len: nat): (r: nat)
    ensures r <= len
  {
    if k < 0 then (if len + k < 0 then 0 else len + k)
    else if k < len then k else len
  }

  /** `a.slice(start, end)`: the elements from the clamped start up to the
      clamped end, in order, and nothing when the end does not lie past the
      start. */
  function Slice<T>(a: seq<T>, start: int, end: int): (r: seq<T>)
    ensures |r| == if RelativeIndex(start, |a|) < RelativeIndex(end, |a|)
                   then RelativeIndex(end, |a|) - RelativeIndex(start, |a|) else 0
    ensures forall i :: 0 <= i < |r| ==> r[i] == a[RelativeIndex(start, |a|) + i]
  {
    var from := RelativeIndex(start, |a|);
    var to := RelativeIndex(end, |a|);
    if from < to then a[from..to] else []
  }

  /** `a.slice(start)`: the end defaults to the length, so the result is
      the whole suffix from the clamped start. */
  function SliceFrom<T>(a: seq<T>, start: int): (r: seq<T>)
    ensures r == a[RelativeIndex(start, |a|)..]
  {
    Slice(a, start, |a|)
  }

  /** `a.slice(0, k)` and `a.slice(k)` cut `a` at the same clamped point, so
      together they are exactly `a`, whatever the sign or size of `k`. */
  lemma SlicePartition<T>(a: seq<T>, k: int)
    ensures Slice(a, 0, k) == a[..RelativeIndex(k, |a|)]
    ensures SliceFrom(a, k) == a[RelativeIndex(k, |a|)..]
    ensures Slice(a, 0, k) + SliceFrom(a, k) == a
  {
  }
}
