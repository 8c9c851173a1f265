/** A wave's inner product: every lane multiplies its own slice, then the lanes are reduced. */
module WaveDot {
  import opened LinearAlgebra
  import opened Layout
  import opened Butterfly

  const PLUS: (real, real) -> real := (a, b) => a + b

  lemma PlusIsSemigroup()
    ensures CommutativeSemigroup(PLUS)
  {}

  lemma ZeroIsUnit()
    ensures Unit(PLUS, 0.0)
  {}

  function Total(v: Vec, n: nat): real
    requires n <= |v|
  {
    Fold(PLUS, 0.0, v, n)
  }

  lemma TreeTotal(v: Vec, k: nat)
    requires |v| == Pow2(k)
    ensures Tree(PLUS, v, k) == Total(v, |v|)
  {
    PlusIsSemigroup();
    ZeroIsUnit();
    TreeIsFold(PLUS, 0.0, v, k);
  }

  /** The products of entries [lo, lo + n). */
  function DotFrom(x: Vec, y: Vec, lo: nat, n: nat): real
    requires lo + n <= |x| && lo + n <= |y|
  {
    if n == 0 then 0.0 else DotFrom(x, y, lo, n - 1) + x[lo + n - 1] * y[lo + n - 1]
  }

  lemma {:induction false} DotExtends(x: Vec, y: Vec, lo: nat, n: nat)
    requires lo + n <= |x| && lo + n <= |y|
    ensures Dot(x, y, lo + n) == Dot(x, y, lo) + DotFrom(x, y, lo, n)
  {
    if n != 0 {
      DotExtends(x, y, lo, n - 1);
      DotUnfold(x, y, lo + n);
    }
  }

  /** What one lane contributes. */
  function LanePart(x: Vec, y: Vec, lane: nat, width: nat): real
    requires At(lane, 0, width) + width <= |x| && At(lane, 0, width) + width <= |y|
  {
    DotFrom(x, y, At(lane, 0, width), width)
  }

  /** The lanes' slices cover the whole vector exactly once. */
  lemma {:induction false} LanesCover(x: Vec, y: Vec, parts: Vec, width: nat, n: nat)
    requires n <= |parts| && |x| == |y| == |parts| * width
    requires forall l :: 0 <= l < |parts| ==> At(l, 0, width) + width <= |x| && parts[l] == LanePart(x, y, l, width)
    ensures n * width <= |x| && Total(parts, n) == Dot(x, y, n * width)
  {
    if n == 0 {
      DotEmpty(x, y);
    } else {
      LanesCover(x, y, parts, width, n - 1);
      ProductOrder(n, |parts|, width);
      assert parts[n - 1] == LanePart(x, y, n - 1, width);
      assert At(n - 1, 0, width) == (n - 1) * width;
      assert n * width == (n - 1) * width + width;
      DotExtends(x, y, (n - 1) * width, width);
    }
  }

  /** Every lane's part is in its place. */
  ghost predicate PartsTo(parts: Vec, queries: seq<Vec>, keys: seq<Vec>, k: nat, width: nat, n: nat)
    requires n <= |queries| == |keys| && |parts| >= Lanes(n, Pow2(k))
    requires forall q :: 0 <= q < |queries| ==> |queries[q]| == |keys[q]| == Lanes(Pow2(k), width)
  {
    forall q, i {:trigger At(q, i, Pow2(k))} :: 0 <= q < n && 0 <= i < Pow2(k) ==>
      At(q, i, Pow2(k)) < |parts| && At(i, 0, width) + width <= |queries[q]|
      && parts[At(q, i, Pow2(k))] == LanePart(queries[q], keys[q], i, width)
  }

  /** One lane's slice of the inner product. */
  method LaneDot(x: Vec, y: Vec, lane: nat, width: nat) returns (dot: real)
    requires At(lane, 0, width) + width <= |x| && At(lane, 0, width) + width <= |y|
    ensures dot == LanePart(x, y, lane, width)
  {
    dot := 0.0;
    for j := 0 to width
      invariant dot == DotFrom(x, y, At(lane, 0, width), j)
    {
      dot := dot + x[At(lane, 0, width) + j] * y[At(lane, 0, width) + j];
    }
  }

  /** The reduction of one sub-wave's lanes is the whole inner product. */
  lemma BlockIsDot(parts: Vec, queries: seq<Vec>, keys: seq<Vec>, k: nat, width: nat, q: nat)
    requires |queries| == |keys| && |parts| == Lanes(|queries|, Pow2(k)) && q < |queries|
    requires forall q :: 0 <= q < |queries| ==> |queries[q]| == |keys[q]| == Lanes(Pow2(k), width)
    requires PartsTo(parts, queries, keys, k, width, |queries|)
    ensures At(q, 0, Pow2(k)) + Pow2(k) <= |parts|
    ensures Tree(PLUS, Block(parts, q, Pow2(k)), k) == Dot(queries[q], keys[q], |queries[q]|)
  {
    Pow2Positive(k);
    LaneBound(q, |queries|, 0, Pow2(k));
    var b := Block(parts, q, Pow2(k));
    TreeTotal(b, k);
    forall i | 0 <= i < |b|
      ensures At(i, 0, width) + width <= |queries[q]| && b[i] == LanePart(queries[q], keys[q], i, width)
    {
      BlockAt(parts, q, Pow2(k), i);
    }
    LanesCover(queries[q], keys[q], b, width, Pow2(k));
  }

  /** Every lane of sub-wave q ends with queries[q] . keys[q]. The value is read from the
      sub-wave's first lane, as the broadcast in the kernels does. */
  method WaveDots(queries: seq<Vec>, keys: seq<Vec>, k: nat, width: nat) returns (dots: seq<real>)
    requires |queries| == |keys| && 0 < width
    requires forall q :: 0 <= q < |queries| ==> |queries[q]| == |keys[q]| == Lanes(Pow2(k), width)
    ensures |dots| == |queries|
    ensures forall q :: 0 <= q < |queries| ==> dots[q] == Dot(queries[q], keys[q], |queries[q]|)
  {
    hide Pow2, At, Lanes, Tree, Block, Dot, LanePart, CommutativeSemigroup, PartsTo;
    var parts := LaneParts(queries, keys, k, width);
    PlusIsSemigroup();
    var v := Reduce(PLUS, parts, |queries|, k);
    Pow2Positive(k);
    dots := [];
    for q := 0 to |queries|
      invariant |dots| == q
      invariant forall p :: 0 <= p < q ==> dots[p] == Dot(queries[p], keys[p], |queries[p]|)
    {
      BlockIsDot(parts, queries, keys, k, width, q);
      assert LaneHolds(PLUS, v, parts, q, k, At(q, 0, Pow2(k)));
      dots := dots + [v[At(q, 0, Pow2(k))]];
    }
  }

  /** The lanes of one sub-wave compute their own slices. */
  method SubWaveParts(query: Vec, key: Vec, w: nat, width: nat) returns (parts: seq<real>)
    requires |query| == |key| == Lanes(w, width) && 0 < width
    ensures |parts| == w
    ensures forall j :: 0 <= j < w ==> At(j, 0, width) + width <= |query| && parts[j] == LanePart(query, key, j, width)
  {
    hide LanePart;
    parts := [];
    for i := 0 to w
      invariant |parts| == i
      invariant forall j :: 0 <= j < i ==>
        At(j, 0, width) + width <= |query| && parts[j] == LanePart(query, key, j, width)
    {
      LaneBound(i, w, 0, width);
      var part := LaneDot(query, key, i, width);
      parts := parts + [part];
    }
  }

  lemma PartsExtend(parts: Vec, more: Vec, queries: seq<Vec>, keys: seq<Vec>, k: nat, width: nat, n: nat)
    requires n < |queries| == |keys| && |parts| == Lanes(n, Pow2(k)) && |more| == Pow2(k)
    requires forall q :: 0 <= q < |queries| ==> |queries[q]| == |keys[q]| == Lanes(Pow2(k), width)
    requires PartsTo(parts, queries, keys, k, width, n)
    requires forall j :: 0 <= j < |more| ==>
      At(j, 0, width) + width <= |queries[n]| && more[j] == LanePart(queries[n], keys[n], j, width)
    ensures |parts + more| == Lanes(n + 1, Pow2(k))
    ensures PartsTo(parts + more, queries, keys, k, width, n + 1)
  {
    hide LanePart, Pow2;
    var w := Pow2(k);
    assert Lanes(n + 1, w) == Lanes(n, w) + w;
    forall q, i {:trigger At(q, i, w)} | 0 <= q < n + 1 && 0 <= i < w
      ensures At(q, i, w) < |parts + more| && At(i, 0, width) + width <= |queries[q]|
           && (parts + more)[At(q, i, w)] == LanePart(queries[q], keys[q], i, width)
    {
      if q < n {
        LaneBound(q, n, i, w);
        assert (parts + more)[At(q, i, w)] == parts[At(q, i, w)];
      } else {
        assert At(q, i, w) == |parts| + i;
      }
    }
  }

  /** All lanes of the wave. */
  method LaneParts(queries: seq<Vec>, keys: seq<Vec>, k: nat, width: nat) returns (parts: seq<real>)
    requires |queries| == |keys| && 0 < width
    requires forall q :: 0 <= q < |queries| ==> |queries[q]| == |keys[q]| == Lanes(Pow2(k), width)
    ensures |parts| == Lanes(|queries|, Pow2(k))
    ensures PartsTo(parts, queries, keys, k, width, |queries|)
  {
    hide Pow2, LanePart, At;
    parts := [];
    assert Lanes(0, Pow2(k)) == 0;
    for q := 0 to |queries|
      invariant |parts| == Lanes(q, Pow2(k))
      invariant PartsTo(parts, queries, keys, k, width, q)
    {
      var more := SubWaveParts(queries[q], keys[q], Pow2(k), width);
      PartsExtend(parts, more, queries, keys, k, width, q);
      parts := parts + more;
    }
  }
}
