/** The nearest-facility distances of app/modules/tab_notes2.py: the
    chunked minimum-distance loop `_nearest_distance_batch`, the
    compute-only-if-missing guard around it, and `_valid_latlon`. The
    haversine kernel is the parameter `dist`. */
module Notes2 {
  import opened Common
  import opened Parsers
  import opened Coordinates

  /** `np.min(dist, axis=1)` for one query: the least distance to any reference. */
  function MinDist<Q, R>(q: Q, refs: seq<R>, dist: (Q, R) -> real): (m: real)
    requires |refs| > 0
    ensures forall r :: r in refs ==> m <= dist(q, r)
    ensures exists r :: r in refs && m == dist(q, r)
  {
    if |refs| == 1 then dist(q, refs[0])
    else
      var rest := MinDist(q, refs[1..], dist);
      assert forall r :: r in refs ==> r == refs[0] || r in refs[1..];
      if dist(q, refs[0]) <= rest then dist(q, refs[0]) else rest
  }

  /** `range(start, stop, step)` for a positive step. */
  function RangeStep(start: int, stop: int, step: int): (r: seq<int>)
    requires step > 0
    ensures |r| > 0 <==> start < stop
    ensures |r| > 0 ==> r[0] == start
    ensures forall t :: 0 <= t < |r| - 1 ==> r[t + 1] == r[t] + step
    ensures forall t :: 0 <= t < |r| ==> start <= r[t] < stop
    ensures |r| > 0 ==> r[|r| - 1] + step >= stop
    decreases stop - start
  {
    if start >= stop then [] else [start] + RangeStep(start + step, stop, step)
  }

  /** The chunk starting at `start` covers `start .. min(start + chunk, n)`. */
  function ChunkEnd(start: int, chunk: int, n: int): int
  {
    if start + chunk < n then start + chunk else n
  }

  /** Index `k` lies in the `t`-th chunk `[i, min(i + chunk, n))` of
      `for i in range(start, n, chunk)`. */
  predicate InChunk(start: int, n: int, chunk: int, t: int, k: int)
    requires chunk > 0
  {
    var starts := RangeStep(start, n, chunk);
    0 <= t < |starts| && starts[t] <= k < ChunkEnd(starts[t], chunk, n)
  }

  /** The chunks are non-empty slices of `start .. n` ... */
  lemma ChunksInBounds(start: int, n: int, chunk: int)
    requires chunk > 0
    ensures var starts := RangeStep(start, n, chunk);
      forall t :: 0 <= t < |starts| ==> start <= starts[t] < ChunkEnd(starts[t], chunk, n) <= n
  {
  }

  /** ... every index of `start .. n` lies in one of them ... */
  lemma {:induction false} ChunksCover(start: int, n: int, chunk: int, k: int)
    requires chunk > 0 && start <= k < n
    ensures exists t :: InChunk(start, n, chunk, t, k)
    decreases n - start
  {
    var starts := RangeStep(start, n, chunk);
    if k < ChunkEnd(start, chunk, n) {
      assert InChunk(start, n, chunk, 0, k);
    } else {
      ChunksCover(start + chunk, n, chunk, k);
      var t :| InChunk(start + chunk, n, chunk, t, k);
      assert starts == [start] + RangeStep(start + chunk, n, chunk);
      assert InChunk(start, n, chunk, t + 1, k);
    }
  }

  /** Chunk starts grow by at least a whole chunk from one to any later one. */
  lemma {:induction false} StartsSpread(starts: seq<int>, chunk: int, t: int, u: int)
    requires chunk > 0 && forall i :: 0 <= i < |starts| - 1 ==> starts[i + 1] == starts[i] + chunk
    requires 0 <= t < u < |starts|
    ensures starts[t] + chunk <= starts[u]
    decreases u
  {
    if t < u - 1 {
      StartsSpread(starts, chunk, t, u - 1);
    }
  }

  /** ... and in only one. */
  lemma ChunksDisjoint(start: int, n: int, chunk: int, k: int, t: int, u: int)
    requires chunk > 0 && InChunk(start, n, chunk, t, k) && InChunk(start, n, chunk, u, k)
    ensures t == u
  {
    var starts := RangeStep(start, n, chunk);
    if t < u {
      StartsSpread(starts, chunk, t, u);
    } else if u < t {
      StartsSpread(starts, chunk, u, t);
    }
  }

  /** `_nearest_distance_batch`: the output starts as all NaN and each chunk
      `out[i:j]` receives the minimum over every reference. A negative chunk
      makes the `range` empty and leaves the NaNs; `range` refuses a zero
      step, and `np.min` refuses an empty reference set once a chunk is
      non-empty. */
  method NearestDistanceBatch<Q, R>(qs: seq<Q>, refs: seq<R>, chunk: int, dist: (Q, R) -> real)
    returns (out: array<Float>)
    requires chunk != 0
    requires chunk > 0 && |qs| > 0 ==> |refs| > 0
    ensures out.Length == |qs|
    ensures chunk > 0 ==> forall k :: 0 <= k < |qs| ==> out[k] == Num(MinDist(qs[k], refs, dist))
    ensures chunk < 0 ==> forall k :: 0 <= k < |qs| ==> out[k] == NaN
  {
    var n := |qs|;
    out := new Float[n](_ => NaN);
    if chunk < 0 {
      return;
    }
    var starts := RangeStep(0, n, chunk);
    for t := 0 to |starts|
      invariant out.Length == n
      invariant var done := if t < |starts| then starts[t] else n;
        (forall k :: 0 <= k < done ==> out[k] == Num(MinDist(qs[k], refs, dist)))
        && (forall k :: done <= k < n ==> out[k] == NaN)
    {
      var i := starts[t];
      var j := ChunkEnd(i, chunk, n);
      assert t + 1 < |starts| ==> starts[t + 1] == j;
      forall k | i <= k < j {
        out[k] := Num(MinDist(qs[k], refs, dist));
      }
    }
  }

  /** The guard at lines 246-259: distances are computed only when the
      column is absent or entirely NaN, and only against a non-empty
      reference table. */
  predicate NeedsDistances(col: Option<seq<Float>>)
  {
    col.None? || forall k :: 0 <= k < |col.value| ==> col.value[k].NaN?
  }

  /** The column after the guard, with the source's chunk of 1500. */
  method FillDistanceIfMissing<Q, R>(col: Option<seq<Float>>, qs: seq<Q>, refs: seq<R>, dist: (Q, R) -> real)
    returns (res: Option<seq<Float>>)
    requires col.Some? ==> |col.value| == |qs|
    ensures NeedsDistances(col) && |refs| > 0 ==>
      res.Some? && |res.value| == |qs|
      && forall k :: 0 <= k < |qs| ==> res.value[k] == Num(MinDist(qs[k], refs, dist))
    ensures !(NeedsDistances(col) && |refs| > 0) ==> res == col
  {
    if NeedsDistances(col) && |refs| > 0 {
      var out := NearestDistanceBatch(qs, refs, 1500, dist);
      res := Some(out[..]);
    } else {
      res := col;
    }
  }

  /** `_valid_latlon`: without both coordinate columns, the rows come back
      with both set to NaN; otherwise the valid rows, coerced. */
  function ValidLatLon<T>(ps: seq<Point<T>>, hasColumns: bool): (r: seq<Point<T>>)
    ensures !hasColumns ==> |r| == |ps| && forall i :: 0 <= i < |ps| ==>
      r[i] == Point(FloatNaN, FloatNaN, ps[i].data)
    ensures hasColumns ==> forall q :: q in r ==> Valid(q)
  {
    if !hasColumns then Map(ps, (p: Point<T>) => Point(FloatNaN, FloatNaN, p.data))
    else FilterValid(ps)
  }

  /** With the columns present, the rows returned are exactly the valid
      input rows, coerced, and filtering again changes nothing. */
  lemma ValidLatLonExact<T>(ps: seq<Point<T>>, q: Point<T>)
    ensures q in ValidLatLon(ps, true) <==>
      exists i :: 0 <= i < |ps| && Valid(ps[i]) && q == Coerce(ps[i])
    ensures ValidLatLon(ValidLatLon(ps, true), true) == ValidLatLon(ps, true)
  {
    FilterValidMembership(ps, q);
    FilterValidIdempotent(ps);
  }
}
