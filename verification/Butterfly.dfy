/** The cross-lane reductions: in every step each lane combines its value with the one held by
    the lane whose number differs in one bit. */
module Butterfly {
  import opened Layout

  function Pow2(k: nat): nat { if k == 0 then 1 else 2 * Pow2(k - 1) }

  /** The number of lanes in `blocks` blocks of width `w`. */
  function Lanes(blocks: nat, w: nat): nat { blocks * w }

  lemma LaneBound(q: nat, blocks: nat, i: nat, w: nat)
    requires q < blocks && i < w
    ensures At(q, i, w) < Lanes(blocks, w)
    ensures At(q, 0, w) + w <= Lanes(blocks, w)
  {
    AtBound(q, blocks, i, w);
  }

  /** lane ^ offset, for an offset that is a power of two. */
  function Partner(lane: nat, offset: nat): (other: nat)
    requires 0 < offset
  {
    if (lane / offset) % 2 == 0 then lane + offset else if offset <= lane then lane - offset else lane
  }

  lemma XorWith1(lane: bv8)
    requires lane < 64
    ensures Partner(lane as int, 1) == (lane ^ 1) as int
  {}

  lemma XorWith2(lane: bv8)
    requires lane < 64
    ensures Partner(lane as int, 2) == (lane ^ 2) as int
  {}

  lemma XorWith4(lane: bv8)
    requires lane < 64
    ensures Partner(lane as int, 4) == (lane ^ 4) as int
  {}

  lemma XorWith8(lane: bv8)
    requires lane < 64
    ensures Partner(lane as int, 8) == (lane ^ 8) as int
  {}

  lemma XorWith16(lane: bv8)
    requires lane < 64
    ensures Partner(lane as int, 16) == (lane ^ 16) as int
  {}

  lemma XorWith32(lane: bv8)
    requires lane < 64
    ensures Partner(lane as int, 32) == (lane ^ 32) as int
  {}

  /** For wave lanes this is the machine's exclusive-or. */
  lemma PartnerIsXor(lane: bv8, offset: bv8)
    requires offset == 1 || offset == 2 || offset == 4 || offset == 8 || offset == 16 || offset == 32
    requires lane < 64
    ensures Partner(lane as int, offset as int) == (lane ^ offset) as int
  {
    hide Partner;
    XorWith1(lane);
    XorWith2(lane);
    XorWith4(lane);
    XorWith8(lane);
    XorWith16(lane);
    XorWith32(lane);
  }

  ghost predicate CommutativeSemigroup<T(!new)>(op: (T, T) -> T) {
    && (forall a, b :: op(a, b) == op(b, a))
    && (forall a, b, c :: op(op(a, b), c) == op(a, op(b, c)))
  }

  lemma Interchange<T(!new)>(op: (T, T) -> T, a: T, b: T, c: T, d: T)
    requires CommutativeSemigroup(op)
    ensures op(op(a, b), op(c, d)) == op(op(a, c), op(b, d))
  {
    calc {
      op(op(a, b), op(c, d));
      op(a, op(b, op(c, d)));
      op(a, op(op(b, c), d));
      op(a, op(op(c, b), d));
      op(a, op(c, op(b, d)));
      op(op(a, c), op(b, d));
    }
  }

  /** Every one of `n` lanes has a partner at this offset. */
  ghost predicate Paired(n: nat, offset: nat) {
    0 < offset && forall l :: 0 <= l < n ==> Partner(l, offset) < n
  }

  /** value = op(value, __shfl_xor(value, offset)) on every lane at once. */
  function Exchange<T>(op: (T, T) -> T, v: seq<T>, offset: nat): (r: seq<T>)
    requires Paired(|v|, offset)
    ensures |r| == |v|
    ensures forall l :: 0 <= l < |v| ==> r[l] == op(v[l], v[Partner(l, offset)])
  {
    seq(|v|, l requires 0 <= l < |v| => op(v[l], v[Partner(l, offset)]))
  }

  /** 2^k values combined pairwise. */
  function Tree<T>(op: (T, T) -> T, v: seq<T>, k: nat): T
    requires |v| == Pow2(k)
    decreases k
  {
    if k == 0 then v[0]
    else op(Tree(op, v[..Pow2(k - 1)], k - 1), Tree(op, v[Pow2(k - 1)..], k - 1))
  }

  /** The values combined one by one. */
  function Fold<T>(op: (T, T) -> T, unit: T, v: seq<T>, n: nat): T
    requires n <= |v|
  {
    if n == 0 then unit else op(Fold(op, unit, v, n - 1), v[n - 1])
  }

  lemma {:induction false} FoldPrefix<T>(op: (T, T) -> T, unit: T, v: seq<T>, w: seq<T>, n: nat)
    requires n <= |v| && n <= |w| && forall i :: 0 <= i < n ==> v[i] == w[i]
    ensures Fold(op, unit, v, n) == Fold(op, unit, w, n)
  {
    if n != 0 { FoldPrefix(op, unit, v, w, n - 1); }
  }

  ghost predicate Unit<T(!new)>(op: (T, T) -> T, unit: T) {
    forall x :: op(x, unit) == x
  }

  lemma UnitOnRight<T(!new)>(op: (T, T) -> T, unit: T, a: T)
    requires Unit(op, unit)
    ensures op(a, unit) == a
  {}

  lemma Associates<T(!new)>(op: (T, T) -> T, a: T, b: T, c: T)
    requires CommutativeSemigroup(op)
    ensures op(op(a, b), c) == op(a, op(b, c))
  {}

  lemma {:induction false} FoldSplit<T(!new)>(op: (T, T) -> T, unit: T, v: seq<T>, w: seq<T>, n: nat)
    requires CommutativeSemigroup(op) && Unit(op, unit) && n <= |w|
    ensures Fold(op, unit, v + w, |v| + n) == op(Fold(op, unit, v, |v|), Fold(op, unit, w, n))
  {
    hide CommutativeSemigroup, Unit;
    if n == 0 {
      FoldPrefix(op, unit, v + w, v, |v|);
      UnitOnRight(op, unit, Fold(op, unit, v, |v|));
    } else {
      FoldSplit(op, unit, v, w, n - 1);
      assert (v + w)[|v| + n - 1] == w[n - 1];
      Associates(op, Fold(op, unit, v, |v|), Fold(op, unit, w, n - 1), w[n - 1]);
    }
  }

  lemma FoldOne<T(!new)>(op: (T, T) -> T, unit: T, v: seq<T>)
    requires CommutativeSemigroup(op) && Unit(op, unit) && |v| == 1
    ensures Fold(op, unit, v, 1) == v[0]
  {
    assert Fold(op, unit, v, 1) == op(Fold(op, unit, v, 0), v[0]);
    assert op(unit, v[0]) == op(v[0], unit);
  }

  /** Combining pairwise is combining one by one. */
  lemma {:induction false} TreeIsFold<T(!new)>(op: (T, T) -> T, unit: T, v: seq<T>, k: nat)
    requires CommutativeSemigroup(op) && Unit(op, unit) && |v| == Pow2(k)
    ensures Tree(op, v, k) == Fold(op, unit, v, |v|)
    decreases k
  {
    hide CommutativeSemigroup, Unit, Fold;
    if k == 0 {
      FoldOne(op, unit, v);
    } else {
      var h := Pow2(k - 1);
      TreeIsFold(op, unit, v[..h], k - 1);
      TreeIsFold(op, unit, v[h..], k - 1);
      FoldSplit(op, unit, v[..h], v[h..], h);
      assert v[..h] + v[h..] == v;
    }
  }

  lemma {:induction false} TreeZip<T(!new)>(op: (T, T) -> T, r: seq<T>, v: seq<T>, w: seq<T>, k: nat)
    requires CommutativeSemigroup(op) && |r| == |v| == |w| == Pow2(k)
    requires forall i :: 0 <= i < Pow2(k) ==> r[i] == op(v[i], w[i])
    ensures Tree(op, r, k) == op(Tree(op, v, k), Tree(op, w, k))
    decreases k
  {
    hide CommutativeSemigroup;
    if k != 0 {
      var h := Pow2(k - 1);
      TreeZip(op, r[..h], v[..h], w[..h], k - 1);
      TreeZip(op, r[h..], v[h..], w[h..], k - 1);
      Interchange(op, Tree(op, v[..h], k - 1), Tree(op, w[..h], k - 1), Tree(op, v[h..], k - 1),
                  Tree(op, w[h..], k - 1));
    }
  }

  lemma BlockOf(q: nat, h: nat, i: nat)
    requires i < h
    ensures At(q, i, h) / h == q
  {
    var x := At(q, i, h);
    AtInjective(q, i, x / h, x % h, h);
  }

  /** Within a block of 2h lanes the exchange pairs the lower half with the upper half. */
  lemma PartnerInBlock(q: nat, h: nat, i: nat)
    requires i < h
    ensures Partner(At(2 * q, i, h), h) == At(2 * q + 1, i, h)
    ensures Partner(At(2 * q + 1, i, h), h) == At(2 * q, i, h)
    ensures At(2 * q, i, h) == At(q, i, 2 * h) && At(2 * q + 1, i, h) == At(q, h + i, 2 * h)
  {
    BlockOf(2 * q, h, i);
    BlockOf(2 * q + 1, h, i);
    assert (2 * q + 1) * h == 2 * q * h + h;
    assert 2 * q * h == q * (2 * h);
  }

  /** Every lane lies in the lower or upper half of one block, and its partner in the other. */
  lemma SplitLane(l: nat, blocks: nat, h: nat) returns (q: nat, i: nat)
    requires 0 < h && l < Lanes(blocks, 2 * h)
    ensures q < blocks && i < h && (l == At(q, i, 2 * h) || l == At(q, h + i, 2 * h))
    ensures Partner(l, h) == if l == At(q, i, 2 * h) then At(q, h + i, 2 * h) else At(q, i, 2 * h)
    ensures Partner(l, h) < Lanes(blocks, 2 * h)
  {
    var j;
    q, j := AtSurjective(l, blocks, 2 * h);
    i := if j < h then j else j - h;
    PartnerInBlock(q, h, i);
    LaneBound(q, blocks, i, 2 * h);
    LaneBound(q, blocks, h + i, 2 * h);
  }

  /** When the lanes come in whole blocks of 2h, every partner exists. */
  lemma PartnersExist(n: nat, blocks: nat, h: nat)
    requires 0 < h && n == Lanes(blocks, 2 * h)
    ensures Paired(n, h)
  {
    forall l | 0 <= l < n ensures Partner(l, h) < n {
      var q, i := SplitLane(l, blocks, h);
    }
  }

  /** Block q of width w. */
  function Block<T>(v: seq<T>, q: nat, w: nat): (b: seq<T>)
    requires At(q, 0, w) + w <= |v|
    ensures |b| == w
  {
    v[At(q, 0, w)..At(q, 0, w) + w]
  }

  lemma ExchangeAt<T(!new)>(op: (T, T) -> T, v: seq<T>, blocks: nat, h: nat, q: nat, i: nat)
    requires CommutativeSemigroup(op) && |v| == Lanes(blocks, 2 * h) && q < blocks && i < h && Paired(|v|, h)
    ensures At(2 * q, i, h) < |v| && At(2 * q + 1, i, h) < |v|
    ensures Exchange(op, v, h)[At(2 * q, i, h)] == op(v[At(2 * q, i, h)], v[At(2 * q + 1, i, h)])
    ensures Exchange(op, v, h)[At(2 * q + 1, i, h)] == op(v[At(2 * q, i, h)], v[At(2 * q + 1, i, h)])
  {
    hide At, Partner;
    PartnerInBlock(q, h, i);
    LaneBound(q, blocks, i, 2 * h);
    LaneBound(q, blocks, h + i, 2 * h);
  }

  /** After one exchange both halves of every block hold the same values: the halves combined. */
  lemma ExchangeBlock<T(!new)>(op: (T, T) -> T, v: seq<T>, blocks: nat, h: nat, q: nat)
    requires CommutativeSemigroup(op) && |v| == Lanes(blocks, 2 * h) && q < blocks && Paired(|v|, h)
    ensures At(q, 0, 2 * h) + 2 * h <= |v|
    ensures At(2 * q, 0, h) + h <= |v| && At(2 * q + 1, 0, h) + h <= |v|
    ensures forall i :: 0 <= i < h ==>
      Block(Exchange(op, v, h), 2 * q, h)[i] == op(Block(v, q, 2 * h)[..h][i], Block(v, q, 2 * h)[h..][i])
    ensures forall i :: 0 <= i < h ==>
      Block(Exchange(op, v, h), 2 * q + 1, h)[i] == op(Block(v, q, 2 * h)[..h][i], Block(v, q, 2 * h)[h..][i])
  {
    hide *;
    PairedPositive(|v|, h);
    BlockBounds(blocks, h, q);
    var b, r := Block(v, q, 2 * h), Exchange(op, v, h);
    forall i | 0 <= i < h
      ensures Block(r, 2 * q, h)[i] == op(b[..h][i], b[h..][i])
      ensures Block(r, 2 * q + 1, h)[i] == op(b[..h][i], b[h..][i])
    {
      PartnerInBlock(q, h, i);
      ExchangeAt(op, v, blocks, h, q, i);
      BlockAt(v, q, 2 * h, i);
      BlockAt(v, q, 2 * h, h + i);
      BlockAt(r, 2 * q, h, i);
      BlockAt(r, 2 * q + 1, h, i);
    }
  }

  lemma BlockBounds(blocks: nat, h: nat, q: nat)
    requires 0 < h && q < blocks
    ensures At(q, 0, 2 * h) + 2 * h <= Lanes(blocks, 2 * h)
    ensures At(2 * q, 0, h) == At(q, 0, 2 * h) && At(2 * q + 1, 0, h) == At(q, 0, 2 * h) + h
  {
    LaneBound(q, blocks, 0, 2 * h);
    PartnerInBlock(q, h, 0);
    AtOffset(q, h, 2 * h);
  }

  lemma BlockAt<T>(v: seq<T>, q: nat, w: nat, i: nat)
    requires At(q, 0, w) + w <= |v| && i < w
    ensures At(q, i, w) < |v| && Block(v, q, w)[i] == v[At(q, i, w)]
  {
    AtOffset(q, i, w);
  }

  lemma Pow2Positive(k: nat)
    ensures 0 < Pow2(k)
  {}

  lemma HalveBlocks(blocks: nat, k: nat)
    requires 0 < k
    ensures Lanes(blocks, Pow2(k)) == Lanes(blocks, 2 * Pow2(k - 1)) == Lanes(2 * blocks, Pow2(k - 1))
  {}

  /** Offsets 2^(k-1), ..., 2, 1. */
  function Descend<T(!new)>(op: (T, T) -> T, v: seq<T>, blocks: nat, k: nat): (r: seq<T>)
    requires |v| == Lanes(blocks, Pow2(k))
    ensures |r| == |v|
    decreases k
  {
    if k == 0 then v
    else
      HalveBlocks(blocks, k);
      Pow2Positive(k - 1);
      PartnersExist(|v|, blocks, Pow2(k - 1));
      Descend(op, Exchange(op, v, Pow2(k - 1)), 2 * blocks, k - 1)
  }

  /** After an exchange either half of a block combines to the whole block. */
  lemma HalfCombines<T(!new)>(op: (T, T) -> T, v: seq<T>, blocks: nat, k: nat, q: nat, upper: bool)
    requires CommutativeSemigroup(op) && 0 < k && |v| == Lanes(blocks, Pow2(k)) && q < blocks
    requires Paired(|v|, Pow2(k - 1))
    ensures var h := Pow2(k - 1); var q' := if upper then 2 * q + 1 else 2 * q;
      && At(q, 0, Pow2(k)) + Pow2(k) <= |v| && At(q', 0, h) + h <= |v|
      && Tree(op, Block(Exchange(op, v, h), q', h), k - 1) == Tree(op, Block(v, q, Pow2(k)), k)
  {
    var h := Pow2(k - 1);
    HalveBlocks(blocks, k);
    ExchangeBlock(op, v, blocks, h, q);
    var b := Block(v, q, Pow2(k));
    assert b == Block(v, q, 2 * h);
    hide CommutativeSemigroup, At, Exchange, Partner, Block;
    TreeZip(op, Block(Exchange(op, v, h), if upper then 2 * q + 1 else 2 * q, h), b[..h], b[h..], k - 1);
  }

  lemma DescendUnfold<T(!new)>(op: (T, T) -> T, v: seq<T>, blocks: nat, k: nat)
    requires 0 < k && |v| == Lanes(blocks, Pow2(k))
    ensures |v| == Lanes(2 * blocks, Pow2(k - 1)) && Paired(|v|, Pow2(k - 1))
    ensures Descend(op, v, blocks, k) == Descend(op, Exchange(op, v, Pow2(k - 1)), 2 * blocks, k - 1)
  {
    HalveBlocks(blocks, k);
    Pow2Positive(k - 1);
    PartnersExist(|v|, blocks, Pow2(k - 1));
  }

  lemma HalfIndex(q: nat, k: nat, i: nat)
    requires 0 < k && i < Pow2(k)
    ensures i < Pow2(k - 1) ==> At(q, i, Pow2(k)) == At(2 * q, i, Pow2(k - 1))
    ensures i >= Pow2(k - 1) ==> i - Pow2(k - 1) < Pow2(k - 1)
    ensures i >= Pow2(k - 1) ==> At(q, i, Pow2(k)) == At(2 * q + 1, i - Pow2(k - 1), Pow2(k - 1))
  {
    PartnerInBlock(q, Pow2(k - 1), if i < Pow2(k - 1) then i else i - Pow2(k - 1));
  }

  /** The lane a block's value is read from, and the value itself. */
  ghost predicate LaneHolds<T(!new)>(op: (T, T) -> T, r: seq<T>, v: seq<T>, q: nat, k: nat, lane: nat) {
    && At(q, 0, Pow2(k)) + Pow2(k) <= |v| && lane < |r|
    && r[lane] == Tree(op, Block(v, q, Pow2(k)), k)
  }

  lemma LaneHoldsLifts<T(!new)>(op: (T, T) -> T, r: seq<T>, v: seq<T>, blocks: nat, q: nat, k: nat, lane: nat,
                                upper: bool)
    requires CommutativeSemigroup(op) && 0 < k && |v| == Lanes(blocks, Pow2(k)) && q < blocks
    requires Paired(|v|, Pow2(k - 1))
    requires LaneHolds(op, r, Exchange(op, v, Pow2(k - 1)), if upper then 2 * q + 1 else 2 * q, k - 1, lane)
    ensures LaneHolds(op, r, v, q, k, lane)
  {
    hide At, Block, Tree, Exchange, CommutativeSemigroup;
    HalfCombines(op, v, blocks, k, q, upper);
  }

  /** Halving offsets leave every lane of a block holding the whole block combined. */
  lemma {:induction false} DescendReduces<T(!new)>(op: (T, T) -> T, v: seq<T>, blocks: nat, k: nat, q: nat, i: nat)
    requires CommutativeSemigroup(op) && |v| == Lanes(blocks, Pow2(k)) && q < blocks && i < Pow2(k)
    ensures LaneHolds(op, Descend(op, v, blocks, k), v, q, k, At(q, i, Pow2(k)))
    decreases k
  {
    LaneBound(q, blocks, i, Pow2(k));
    if k != 0 {
      hide *;
      DescendUnfold(op, v, blocks, k);
      HalfIndex(q, k, i);
      var h := Pow2(k - 1);
      if i < h {
        DescendReduces(op, Exchange(op, v, h), 2 * blocks, k - 1, 2 * q, i);
        LaneHoldsLifts(op, Descend(op, v, blocks, k), v, blocks, q, k, At(q, i, Pow2(k)), false);
      } else {
        DescendReduces(op, Exchange(op, v, h), 2 * blocks, k - 1, 2 * q + 1, i - h);
        LaneHoldsLifts(op, Descend(op, v, blocks, k), v, blocks, q, k, At(q, i, Pow2(k)), true);
      }
    }
  }

  /** for (offset = 2^(k-1); offset > 0; offset /= 2) value = op(value, __shfl_xor(value, offset)) */
  method Reduce<T(!new)>(op: (T, T) -> T, values: seq<T>, blocks: nat, k: nat) returns (v: seq<T>)
    requires CommutativeSemigroup(op) && |values| == Lanes(blocks, Pow2(k))
    ensures |v| == |values|
    ensures forall q, i {:trigger At(q, i, Pow2(k))} :: 0 <= q < blocks && 0 <= i < Pow2(k) ==>
      LaneHolds(op, v, values, q, k, At(q, i, Pow2(k)))
  {
    v := values;
    var offset := Pow2(k) / 2;
    ghost var j: nat, b: nat := k, blocks;
    while offset > 0
      invariant 0 <= j <= k && offset == Pow2(j) / 2
      invariant |v| == |values| == Lanes(b, Pow2(j))
      invariant Descend(op, v, b, j) == Descend(op, values, blocks, k)
      decreases offset
    {
      assert j != 0;
      HalveBlocks(b, j);
      PartnersExist(|v|, b, offset);
      v := Exchange(op, v, offset);
      offset := offset / 2;
      j, b := j - 1, 2 * b;
    }
    assert j == 0 by { if j != 0 { Pow2Positive(j - 1); } }
    forall q, i {:trigger At(q, i, Pow2(k))} | 0 <= q < blocks && 0 <= i < Pow2(k)
      ensures LaneHolds(op, v, values, q, k, At(q, i, Pow2(k)))
    {
      DescendReduces(op, values, blocks, k, q, i);
    }
  }

  /** Doubling offsets do the same: one exchange merges neighbouring finished blocks. */
  lemma DoubleStep<T(!new)>(op: (T, T) -> T, v0: seq<T>, v: seq<T>, blocks: nat, k: nat, q: nat, i: nat)
    requires CommutativeSemigroup(op) && |v| == |v0| == Lanes(blocks, Pow2(k + 1)) && q < blocks && i < Pow2(k + 1)
    requires Paired(|v|, Pow2(k))
    requires forall p, j {:trigger At(p, j, Pow2(k))} :: 0 <= p < 2 * blocks && 0 <= j < Pow2(k) ==>
      LaneHolds(op, v, v0, p, k, At(p, j, Pow2(k)))
    ensures LaneHolds(op, Exchange(op, v, Pow2(k)), v0, q, k + 1, At(q, i, Pow2(k + 1)))
  {
    hide At, Block, Tree, Exchange, CommutativeSemigroup, Partner, Paired;
    var h := Pow2(k);
    PairedPositive(|v|, h);
    LaneBound(q, blocks, i, 2 * h);
    HalfIndex(q, k + 1, i);
    var j := if i < h then i else i - h;
    assert LaneHolds(op, v, v0, 2 * q, k, At(2 * q, j, h)) && LaneHolds(op, v, v0, 2 * q + 1, k, At(2 * q + 1, j, h));
    ExchangeAt(op, v, blocks, h, q, j);
    TreeUnfold(op, Block(v0, q, 2 * h), k + 1);
    BlockHalves(v0, blocks, h, q);
  }

  /** value = op(value, __shfl_xor(value, 1)); value = op(value, __shfl_xor(value, 2)): every group of four lanes. */
  method ReduceQuads<T(!new)>(op: (T, T) -> T, values: seq<T>, blocks: nat) returns (v: seq<T>)
    requires CommutativeSemigroup(op) && |values| == Lanes(blocks, 4)
    ensures |v| == |values|
    ensures forall q, i {:trigger At(q, i, 4)} :: 0 <= q < blocks && 0 <= i < 4 ==>
      LaneHolds(op, v, values, q, 2, At(q, i, 4))
  {
    assert Pow2(0) == 1 && Pow2(1) == 2 && Pow2(2) == 4;
    HalveBlocks(blocks, 2);
    HalveBlocks(2 * blocks, 1);
    hide At, Block, Tree, Exchange, CommutativeSemigroup, Partner, Paired, Lanes;
    PartnersExist(|values|, 2 * blocks, 1);
    v := Exchange(op, values, 1);
    forall p, j {:trigger At(p, j, 2)} | 0 <= p < 2 * blocks && 0 <= j < 2
      ensures LaneHolds(op, v, values, p, 1, At(p, j, 2))
    {
      forall p', j' {:trigger At(p', j', 1)} | 0 <= p' < 2 * (2 * blocks) && 0 <= j' < 1
        ensures LaneHolds(op, values, values, p', 0, At(p', j', 1))
      {
        SingleLane(op, values, 2 * (2 * blocks), p');
      }
      DoubleStep(op, values, values, 2 * blocks, 0, p, j);
    }
    PartnersExist(|values|, blocks, 2);
    ghost var v1 := v;
    v := Exchange(op, v, 2);
    forall q, i {:trigger At(q, i, 4)} | 0 <= q < blocks && 0 <= i < 4
      ensures LaneHolds(op, v, values, q, 2, At(q, i, 4))
    {
      DoubleStep(op, values, v1, blocks, 1, q, i);
    }
  }

  lemma SingleLane<T(!new)>(op: (T, T) -> T, v: seq<T>, blocks: nat, q: nat)
    requires |v| == Lanes(blocks, 1) && q < blocks
    ensures LaneHolds(op, v, v, q, 0, At(q, 0, 1))
  {
    LaneBound(q, blocks, 0, 1);
  }

  lemma PairedPositive(n: nat, offset: nat)
    requires Paired(n, offset)
    ensures 0 < offset
  {}

  lemma TreeUnfold<T>(op: (T, T) -> T, v: seq<T>, k: nat)
    requires 0 < k && |v| == Pow2(k)
    ensures Pow2(k) == 2 * Pow2(k - 1)
    ensures Tree(op, v, k) == op(Tree(op, v[..Pow2(k - 1)], k - 1), Tree(op, v[Pow2(k - 1)..], k - 1))
  {}

  lemma BlockHalves<T>(v: seq<T>, blocks: nat, h: nat, q: nat)
    requires 0 < h && q < blocks && |v| == Lanes(blocks, 2 * h)
    ensures At(q, 0, 2 * h) + 2 * h <= |v| && At(2 * q, 0, h) + h <= |v| && At(2 * q + 1, 0, h) + h <= |v|
    ensures Block(v, q, 2 * h)[..h] == Block(v, 2 * q, h) && Block(v, q, 2 * h)[h..] == Block(v, 2 * q + 1, h)
  {
    BlockBounds(blocks, h, q);
    hide At;
  }

  /** d_wave_sum and d_wave_max: one wave of 2^k lanes, every lane ends with all lanes combined. */
  method AllReduce<T(!new)>(op: (T, T) -> T, ghost unit: T, values: seq<T>, k: nat) returns (v: seq<T>)
    requires CommutativeSemigroup(op) && Unit(op, unit) && |values| == Pow2(k)
    ensures |v| == |values|
    ensures forall lane :: 0 <= lane < |v| ==> v[lane] == Fold(op, unit, values, |values|)
  {
    hide CommutativeSemigroup, Unit, Fold, Tree, Pow2;
    v := Reduce(op, values, 1, k);
    TreeIsFold(op, unit, values, k);
    assert Block(values, 0, Pow2(k)) == values;
    forall lane | 0 <= lane < |v| ensures v[lane] == Fold(op, unit, values, |values|) {
      assert At(0, lane, Pow2(k)) == lane;
      assert LaneHolds(op, v, values, 0, k, At(0, lane, Pow2(k)));
    }
  }
}
