/** Reductions over a whole wave of 64 lanes. */
module Wave64 {
  import opened Softmax
  import opened Butterfly
  import opened WaveDot

  const LANES: nat := 64

  const MAX: (Bound, Bound) -> Bound := (a, b) => MaxBound(a, b)

  lemma MaxAssociates(a: Bound, b: Bound, c: Bound)
    ensures MaxBound(a, b) == MaxBound(b, a)
    ensures MaxBound(MaxBound(a, b), c) == MaxBound(a, MaxBound(b, c))
    ensures MaxBound(a, NegInf) == a
  {}

  lemma MaxIsSemigroup()
    ensures CommutativeSemigroup(MAX) && Unit(MAX, NegInf)
  {
    hide MaxBound;
    var max := MAX;
    forall a, b ensures max(a, b) == max(b, a) { MaxAssociates(a, b, b); }
    forall a, b, c ensures max(max(a, b), c) == max(a, max(b, c)) { MaxAssociates(a, b, c); }
    forall a ensures max(a, NegInf) == a { MaxAssociates(a, a, a); }
  }

  lemma SixLevels()
    ensures Pow2(6) == LANES
  {
    assert Pow2(3) == 8;
    assert Pow2(5) == 4 * Pow2(3);
  }

  /** d_wave_max; every lane holds the result, the first is read. */
  method WaveMax(values: seq<Bound>) returns (m: Bound)
    requires |values| == LANES
    ensures m == Fold(MAX, NegInf, values, LANES)
  {
    hide Fold, CommutativeSemigroup, Unit, Pow2, MaxBound;
    SixLevels();
    MaxIsSemigroup();
    var reduced := AllReduce(MAX, NegInf, values, 6);
    m := reduced[0];
  }

  /** d_wave_sum */
  method WaveSum(values: seq<real>) returns (sum: real)
    requires |values| == LANES
    ensures sum == Fold(PLUS, 0.0, values, LANES)
  {
    hide Fold, CommutativeSemigroup, Unit, Pow2;
    SixLevels();
    PlusIsSemigroup();
    ZeroIsUnit();
    var reduced := AllReduce(PLUS, 0.0, values, 6);
    sum := reduced[0];
  }
}
