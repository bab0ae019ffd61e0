/** The index arithmetic of containers/vector.h: negative indices count from the end and stop at the front. */
module Vector {
  import opened Arithmetic
  import opened Wrappers

  function Normalize(size: nat, i: int): nat {
    if i >= 0 then i
    else if -i >= size then 0
    else size + i
  }

  /** operator() on a constant vector: bounds-checked after normalising. */
  function At<T>(v: seq<T>, i: int): Option<T> {
    var k := Normalize(|v|, i);
    if k < |v| then Some(v[k]) else None
  }

  function Span<T>(v: seq<T>, start: int, end: int): seq<T>
    requires Normalize(|v|, start) <= Normalize(|v|, end) <= |v|
  {
    v[Normalize(|v|, start)..Normalize(|v|, end)]
  }

  function LastN<T>(v: seq<T>, n: int): seq<T>
    requires n >= 0
  {
    Span(v, -n, |v|)
  }

  function PreviousN<T>(v: seq<T>, n: int): seq<T>
    requires n >= 0
  {
    Span(v, -n - 1, |v| - 1)
  }

  /** Counting back k + 1 from the end reaches entry |v| - 1 - k, clamped at the first entry. */
  lemma AtCountsBack<T>(v: seq<T>, k: int)
    requires k >= 0
    ensures v == [] <==> At(v, -k - 1).None?
    ensures k < |v| ==> At(v, -k - 1) == Some(v[|v| - 1 - k])
    ensures 0 < |v| <= k ==> At(v, -k - 1) == Some(v[0])
  {
  }

  /** last_n gives the last n entries, or all there are; asked for none it gives the whole vector, so its
      promise of n entries holds for n = 0 only on an empty one. */
  lemma LastNIsSuffix<T>(v: seq<T>, n: int)
    requires n >= 0
    ensures LastN(v, n) == v[|v| - |LastN(v, n)|..]
    ensures |LastN(v, n)| == Min(n, |v|) <==> n > 0 || v == []
  {
    assert LastN(v, n) == v[Normalize(|v|, -n)..];
  }

  /** previous_n gives the up to n entries just before the last one. */
  lemma PreviousNIsBeforeLast<T>(v: seq<T>, n: int)
    requires n >= 0
    ensures v == [] ==> PreviousN(v, n) == []
    ensures v != [] ==> PreviousN(v, n) == v[|v| - 1 - Min(n, |v| - 1)..|v| - 1]
  {
  }
}
