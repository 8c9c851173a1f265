/** The stage 2 of suffix_attention_bakeoff.cpp: maximum and denominator are reduced over 64 lanes,
    one split a lane, while the values are accumulated over all splits. Splits from lane 64 on
    never reach the denominator. */
module Stage2Lanes {
  import opened Wrappers
  import opened LinearAlgebra
  import opened Layout
  import opened ExpLog
  import opened Softmax
  import opened OnlineSoftmax
  import opened Butterfly
  import opened WaveDot
  import opened Wave64
  import opened AttentionProblem
  import opened MergeAlgebra
  import opened Attention
  import opened SplitMerge
  import opened Stage2

  /** The splits that own a lane. */
  function Reached(lanes: nat, splits: nat): nat { if lanes < splits then lanes else splits }

  function LaneMerge(exp: real -> real, parts: seq<Partial>, size: nat, lanes: nat): (z: Vec)
    requires PartsSized(parts, size)
    ensures |z| == size
  {
    var n := Reached(lanes, |parts|);
    var m := Reference(MaxOf(parts, n));
    Normalised(Partial(MaxOf(parts, n), WeighedSum(exp, parts, m, n), WeighedAcc(exp, parts, m, size, |parts|)))
  }

  // ----- what it computes -----

  /** How much too large the result is when only positions [0, reached) are in the denominator. */
  function Inflation(exp: real -> real, s: seq<real>, reached: nat, n: nat): real
    requires Exponential(exp) && 0 < reached <= n <= |s|
  {
    SumPositive(exp, s, 0.0, 0, reached);
    SumExp(exp, s, 0.0, 0, n) / SumExp(exp, s, 0.0, 0, reached)
  }

  lemma QuotientAtLeastOne(a: real, b: real)
    requires 0.0 < b
    ensures a > b ==> a / b > 1.0
    ensures a == b ==> a / b == 1.0
  {
    if a > b { var q := a / b; assert a == q * b; ProductOrders(q, 1.0, b); }
  }

  /** The inflation is one exactly when every position is reached. */
  lemma InflationIsOne(exp: real -> real, s: seq<real>, reached: nat, n: nat)
    requires Exponential(exp) && 0 < reached <= n <= |s|
    ensures Inflation(exp, s, reached, n) >= 1.0
    ensures Inflation(exp, s, reached, n) == 1.0 <==> reached == n
  {
    hide Exponential, SumExp;
    SumSplit(exp, s, 0.0, 0, reached, n);
    SumPositive(exp, s, 0.0, 0, reached);
    SumEmpty(exp, s, n);
    if reached < n { SumPositive(exp, s, 0.0, reached, n); }
    QuotientAtLeastOne(SumExp(exp, s, 0.0, 0, n), SumExp(exp, s, 0.0, 0, reached));
  }

  lemma SumEmpty(exp: real -> real, s: seq<real>, n: nat)
    requires n <= |s|
    ensures SumExp(exp, s, 0.0, n, n) == 0.0
  {}

  /** (a e) / (part e) is (total / part) (a / total). */
  lemma InflatedRatio(a: real, total: real, part: real, e: real, part': real, a': real)
    requires total > 0.0 && part' > 0.0 && e > 0.0 && part == part' * e && a == a' * e
    ensures part > 0.0 && a' * (1.0 / part') == a * (1.0 / total) * (total / part)
  {
    Ratio(a', part', e, a, part);
    Cancel(a, total, part);
  }

  lemma Cancel(a: real, total: real, part: real)
    requires total > 0.0 && part > 0.0
    ensures a * (1.0 / part) == a * (1.0 / total) * (total / part)
  {
    assert (1.0 / total) * (total / part) == 1.0 / part;
    TimesAssociates(a, 1.0 / total, total / part);
  }

  lemma TimesAssociates(a: real, b: real, c: real)
    ensures a * (b * c) == a * b * c
  {}

  /** Numerator over every position, denominator over the reached ones. */
  lemma LaneMergeQuotient(exp: real -> real, s: seq<real>, v: seq<Vec>, size: nat, cuts: seq<nat>, lanes: nat, m: real)
    requires Exponential(exp) && |s| == |v| && Sized(v, size) && 1 < |cuts|
    requires Cuts(cuts, |s|) && cuts[0] == 0 && cuts[|cuts| - 1] == |s| && 0 < cuts[Reached(lanes, |cuts| - 1)] <= |s|
    requires m == Reference(MaxScore(s, 0, cuts[Reached(lanes, |cuts| - 1)]))
    ensures LaneMerge(exp, Pieces(exp, s, v, size, cuts), size, lanes)
         == Scale(Reciprocal(SumExp(exp, s, m, 0, cuts[Reached(lanes, |cuts| - 1)])),
                  AccExp(exp, s, v, size, m, 0, |s|))
  {
    hide Exponential, MaxScore, SumExp, AccExp, Sized, MaxOf, WeighedSum, WeighedAcc, Scale, Summary, Reciprocal, Cuts,
         Reference;
    PiecesWeigh(exp, s, v, size, cuts, m, Reached(lanes, |cuts| - 1));
    PiecesWeigh(exp, s, v, size, cuts, m, |cuts| - 1);
  }

  /** The result is the exact mean times the inflation. */
  lemma LaneMergeInflates(exp: real -> real, s: seq<real>, v: seq<Vec>, size: nat, cuts: seq<nat>, lanes: nat)
    requires Exponential(exp) && |s| == |v| && 0 < |s| && Sized(v, size) && 1 < |cuts|
    requires Cuts(cuts, |s|) && cuts[0] == 0 && cuts[|cuts| - 1] == |s| && 0 < cuts[Reached(lanes, |cuts| - 1)] <= |s|
    ensures LaneMerge(exp, Pieces(exp, s, v, size, cuts), size, lanes)
         == Scale(Inflation(exp, s, cuts[Reached(lanes, |cuts| - 1)], |s|), Mean(exp, s, v, size, |s|))
  {
    hide Exponential, MaxScore, SumExp, AccExp, Sized, Scale, LaneMerge, Cuts, Pieces;
    var reached := cuts[Reached(lanes, |cuts| - 1)];
    var m := Reference(MaxScore(s, 0, reached));
    LaneMergeQuotient(exp, s, v, size, cuts, lanes, m);
    QuotientInflates(exp, s, v, size, reached, m);
  }

  lemma QuotientInflates(exp: real -> real, s: seq<real>, v: seq<Vec>, size: nat, reached: nat, m: real)
    requires Exponential(exp) && |s| == |v| && Sized(v, size) && 0 < reached <= |s|
    ensures Scale(Reciprocal(SumExp(exp, s, m, 0, reached)), AccExp(exp, s, v, size, m, 0, |s|))
         == Scale(Inflation(exp, s, reached, |s|), Mean(exp, s, v, size, |s|))
  {
    hide Exponential, SumExp, AccExp, Sized, Scale, Reciprocal;
    ShiftSum(exp, s, m, 0.0, 0, reached);
    ShiftAcc(exp, s, v, size, m, 0.0, 0, |s|);
    SumPositive(exp, s, m, 0, reached);
    SumPositive(exp, s, 0.0, 0, reached);
    SumPositive(exp, s, 0.0, 0, |s|);
    ExpPositive(exp, m - 0.0);
    var acc, acc0, e := AccExp(exp, s, v, size, m, 0, |s|), AccExp(exp, s, v, size, 0.0, 0, |s|), exp(m - 0.0);
    var part, part0, total := SumExp(exp, s, m, 0, reached), SumExp(exp, s, 0.0, 0, reached),
        SumExp(exp, s, 0.0, 0, |s|);
    var f, mean := Inflation(exp, s, reached, |s|), Mean(exp, s, v, size, |s|);
    ScaledQuotient(acc, acc0, e, part, part0, total, mean, f);
  }

  lemma ScaledQuotient(acc: Vec, acc0: Vec, e: real, part: real, part0: real, total: real, mean: Vec, f: real)
    requires part > 0.0 && part0 > 0.0 && total > 0.0 && e > 0.0
    requires acc0 == Scale(e, acc) && part0 == part * e && mean == Scale(1.0 / total, acc0) && f == total / part0
    ensures Scale(Reciprocal(part), acc) == Scale(f, mean)
  {
    forall d | 0 <= d < |acc| ensures Scale(Reciprocal(part), acc)[d] == Scale(f, mean)[d] {
      hide *;
      ScaleAt(Reciprocal(part), acc, d);
      ScaleAt(1.0 / total, acc0, d);
      ScaleAt(f, mean, d);
      ScaleAt(e, acc, d);
      InflatedRatio(acc0[d], total, part0, e, part, acc[d]);
      SameReciprocal(part);
    }
  }

  lemma SameReciprocal(sum: real)
    requires sum > 0.0
    ensures Reciprocal(sum) == 1.0 / sum
  {}

  // ----- for a launch whose splits are cut in chunks of any size that covers the causal length -----

  /** The positions whose splits own a lane. */
  function ReachedPositions(l: Launch, chunk: nat, token: nat): nat {
    Cut(chunk, Reached(LANES, l.splits), Length(l, token))
  }

  lemma CutReaches(chunk: nat, splits: nat, length: nat)
    requires 0 < splits && 0 < length && Cut(chunk, splits, length) == length
    ensures 0 < Cut(chunk, Reached(LANES, splits), length)
    ensures Cut(chunk, Reached(LANES, splits), length) == length <==> length <= 64 * chunk
  {
    ProductZero(splits, chunk);
    ProductOrder(1, Reached(LANES, splits), chunk);
    ProductOrder(splits, LANES, chunk);
  }

  /** The ungated row after stage 1 and the lane-limited stage 2. */
  function LaneOutput(exp: real -> real, l: Launch, chunk: nat, token: nat, head: nat): (z: Vec)
    requires Exponential(exp) && l.Valid() && token < l.tokens && head < l.heads && Length(l, token) <= l.capacity
    ensures |z| == l.dim
  {
    LaneMerge(exp, ExactParts(exp, l, chunk, token, head), l.dim, LANES)
  }

  /** It is exact attention times the inflation of the reached positions. */
  lemma LaneOutputInflates(exp: real -> real, l: Launch, chunk: nat, token: nat, head: nat)
    requires Exponential(exp) && l.Valid() && token < l.tokens && head < l.heads && Length(l, token) <= l.capacity
    requires Cut(chunk, l.splits, Length(l, token)) == Length(l, token)
    ensures 0 < ReachedPositions(l, chunk, token) <= Length(l, token)
    ensures var n := Length(l, token);
      LaneOutput(exp, l, chunk, token, head)
      == Scale(Inflation(exp, Scores(l, token, head, n), ReachedPositions(l, chunk, token), n),
               Attend(exp, l, token, head))
  {
    hide Exponential, Score, ValueRow, KvHead, LaneMerge, Inflation, Mean, Cut, Pieces, Sized, Cuts;
    var n := Length(l, token);
    CutReaches(chunk, l.splits, n);
    BoundariesAreCuts(chunk, l.splits, n);
    LaneMergeInflates(exp, Scores(l, token, head, n), Values(l, head, n), l.dim, Boundaries(chunk, l.splits, n), LANES);
  }

  lemma ScaleFixes(f: real, x: Vec)
    requires f >= 1.0
    ensures Scale(f, x) == x <==> f == 1.0 || x == Zero(|x|)
  {
    if f == 1.0 {
      ScaleOne(x);
    } else {
      ScaleZero(f, |x|);
      if Scale(f, x) == x {
        forall d | 0 <= d < |x| ensures x[d] == 0.0 {
          ScaleAt(f, x, d);
          hide *;
          OnlyZeroIsFixed(f, x[d]);
        }
      }
    }
  }

  lemma OnlyZeroIsFixed(f: real, x: real)
    requires f > 1.0 && x * f == x
    ensures x == 0.0
  {
    if x > 0.0 { ProductOrders(1.0, f, x); }
    if x < 0.0 { ProductOrders(1.0, f, -x); }
  }

  /** For one input the lane-limited stage 2 is right exactly when every split with a position
      owns a lane, or attention happens to vanish. */
  lemma LaneOutputIsRight(exp: real -> real, l: Launch, chunk: nat, token: nat, head: nat)
    requires Exponential(exp) && l.Valid() && token < l.tokens && head < l.heads && Length(l, token) <= l.capacity
    requires Cut(chunk, l.splits, Length(l, token)) == Length(l, token)
    ensures LaneOutput(exp, l, chunk, token, head) == Attend(exp, l, token, head)
      <==> Length(l, token) <= 64 * chunk || Attend(exp, l, token, head) == Zero(l.dim)
  {
    hide Exponential, Score, ValueRow, KvHead, Mean, Cut, LaneOutput, Attend, Scale, Inflation;
    var n := Length(l, token);
    LaneOutputInflates(exp, l, chunk, token, head);
    CutReaches(chunk, l.splits, n);
    var s := Scores(l, token, head, n);
    InflationIsOne(exp, s, ReachedPositions(l, chunk, token), n);
    ScaleFixes(Inflation(exp, s, ReachedPositions(l, chunk, token), n), Attend(exp, l, token, head));
  }

  /** Up to 64 splits it is always right. */
  lemma SixtyFourSplitsSuffice(exp: real -> real, l: Launch, chunk: nat, token: nat, head: nat)
    requires Exponential(exp) && l.Valid() && token < l.tokens && head < l.heads && Length(l, token) <= l.capacity
    requires Cut(chunk, l.splits, Length(l, token)) == Length(l, token) && l.splits <= 64
    ensures LaneOutput(exp, l, chunk, token, head) == Attend(exp, l, token, head)
  {
    hide Exponential, LaneOutput, Attend;
    LaneOutputIsRight(exp, l, chunk, token, head);
    CutReaches(chunk, l.splits, Length(l, token));
  }

  /** The launch with another value cache. */
  function WithValues(l: Launch, values: Vec): (r: Launch) { l.(valueCache := values) }

  ghost predicate RightWith(exp: real -> real, l: Launch, values: Vec, chunk: nat, token: nat, head: nat)
    requires Exponential(exp) && l.Valid() && token < l.tokens && head < l.heads && Length(l, token) <= l.capacity
    requires |values| == |l.valueCache|
  {
    LaneOutput(exp, WithValues(l, values), chunk, token, head) == Attend(exp, WithValues(l, values), token, head)
  }

  /** Right for every value cache. */
  ghost predicate AlwaysRight(exp: real -> real, l: Launch, chunk: nat, token: nat, head: nat)
    requires Exponential(exp) && l.Valid() && token < l.tokens && head < l.heads && Length(l, token) <= l.capacity
  {
    forall values :: |values| == |l.valueCache| ==> RightWith(exp, l, values, chunk, token, head)
  }

  /** It is right for every value cache exactly when 64 chunks cover the causal length. */
  lemma LaneLimitIsExact(exp: real -> real, l: Launch, chunk: nat, token: nat, head: nat)
    requires Exponential(exp) && l.Valid() && token < l.tokens && head < l.heads && Length(l, token) <= l.capacity
    requires Cut(chunk, l.splits, Length(l, token)) == Length(l, token) && 0 < l.dim
    ensures AlwaysRight(exp, l, chunk, token, head) <==> Length(l, token) <= 64 * chunk
  {
    hide Exponential, LaneOutput, Attend, Cut;
    var ones := Ones(|l.valueCache|);
    OnesAttendToOne(exp, l, token, head);
    LaneOutputIsRight(exp, WithValues(l, ones), chunk, token, head);
    assert RightWith(exp, l, ones, chunk, token, head) <==> Length(l, token) <= 64 * chunk;
    forall values | |values| == |l.valueCache| && Length(l, token) <= 64 * chunk
      ensures RightWith(exp, l, values, chunk, token, head)
    {
      LaneOutputIsRight(exp, WithValues(l, values), chunk, token, head);
    }
  }

  function Ones(n: nat): (v: Vec)
    ensures |v| == n && forall i :: 0 <= i < n ==> v[i] == 1.0
  {
    seq(n, i => 1.0)
  }

  lemma OnesAttendToOne(exp: real -> real, l: Launch, token: nat, head: nat)
    requires Exponential(exp) && l.Valid() && token < l.tokens && head < l.heads && Length(l, token) <= l.capacity
    requires 0 < l.dim
    ensures Attend(exp, WithValues(l, Ones(|l.valueCache|)), token, head) != Zero(l.dim)
  {
    hide Exponential, Attend, KvHead, ValueRow;
    var l' := WithValues(l, Ones(|l.valueCache|));
    forall pos | 0 <= pos < Length(l, token) ensures 1.0 <= ValueRow(l', KvHead(l', head), pos)[0] <= 1.0 {
      hide *;
      RowOfOnes(l', KvHead(l', head), pos);
    }
    AttendIsBetween(exp, l', token, head, 0, 1.0, 1.0);
  }

  lemma RowOfOnes(l: Launch, kv: nat, pos: nat)
    requires l.Valid() && kv < l.kvHeads && pos < l.capacity && 0 < l.dim && l.valueCache == Ones(|l.valueCache|)
    ensures ValueRow(l, kv, pos)[0] == 1.0
  {
    RowInside(kv, l.kvHeads, pos, l.capacity, l.dim);
    hide At;
  }

  // ----- the kernel -----

  lemma {:induction false} LanesFoldMax(locals: seq<Bound>, parts: seq<Partial>, n: nat)
    requires n <= |locals|
    requires forall lane :: 0 <= lane < |locals| ==> locals[lane] == if lane < |parts| then parts[lane].max else NegInf
    ensures Fold(MAX, NegInf, locals, n) == MaxOf(parts, Reached(n, |parts|))
  {
    if n != 0 { LanesFoldMax(locals, parts, n - 1); }
  }

  /** What one lane adds to the denominator. */
  function LaneTerm(exp: real -> real, parts: seq<Partial>, reference: real, lane: nat): real {
    if lane < |parts| then parts[lane].sum * Fade(exp, parts[lane].max, reference) else 0.0
  }

  lemma {:induction false} LanesFoldSum(exp: real -> real, locals: seq<real>, parts: seq<Partial>, reference: real,
                                        n: nat)
    requires n <= |locals|
    requires forall lane :: 0 <= lane < |locals| ==> locals[lane] == LaneTerm(exp, parts, reference, lane)
    ensures Fold(PLUS, 0.0, locals, n) == WeighedSum(exp, parts, reference, Reached(n, |parts|))
  {
    hide Fade;
    if n != 0 { LanesFoldSum(exp, locals, parts, reference, n - 1); }
  }

  /** Step 1: one split a lane, reduced over the wave. */
  method LaneMax(l: Launch, w: Workspace, token: nat, head: nat) returns (locals: seq<Bound>, m: Bound)
    requires Fits(w, l) && token < l.tokens && head < l.heads
    ensures |locals| == LANES
    ensures forall lane :: 0 <= lane < LANES ==>
      locals[lane] == if lane < l.splits then PartsOf(w, l, token, head)[lane].max else NegInf
    ensures m == MaxOf(PartsOf(w, l, token, head), Reached(LANES, l.splits))
  {
    hide SlotIndex, SlotCount, PartsOf, Fits, Fold, CommutativeSemigroup, Unit, Pow2, MaxOf;
    ghost var parts := PartsOf(w, l, token, head);
    locals := [];
    for lane := 0 to LANES
      invariant |locals| == lane
      invariant forall i :: 0 <= i < lane ==> locals[i] == if i < l.splits then parts[i].max else NegInf
    {
      var local := NegInf;
      if lane < l.splits {
        PartAt(w, l, token, head, lane);
        local := w.max[SlotIndex(l, lane, token, head)];
      }
      locals := locals + [local];
    }
    m := WaveMax(locals);
    LanesFoldMax(locals, parts, LANES);
  }

  lemma ProductCommutes(a: real, b: real)
    ensures a * b == b * a
  {}

  /** One lane's term, skipping splits without positions. */
  method LaneDenominatorTerm(exp: real -> real, l: Launch, w: Workspace, token: nat, head: nat, lane: nat,
                             localMax: Bound, m: real)
    returns (local: real)
    requires Fits(w, l) && token < l.tokens && head < l.heads
    requires localMax == if lane < l.splits then PartsOf(w, l, token, head)[lane].max else NegInf
    ensures local == LaneTerm(exp, PartsOf(w, l, token, head), m, lane)
  {
    hide SlotIndex, SlotCount, PartsOf, Fits;
    local := 0.0;
    if lane < l.splits && localMax.Fin? {
      PartAt(w, l, token, head, lane);
      var weight, sum := Fade(exp, localMax, m), w.sum[SlotIndex(l, lane, token, head)];
      local := weight * sum;
      ProductCommutes(weight, sum);
    }
  }

  /** Step 2: the denominator, reduced over the wave. */
  method LaneDenominator(exp: real -> real, l: Launch, w: Workspace, token: nat, head: nat, locals: seq<Bound>,
                         m: Bound)
    returns (denominator: real)
    requires Fits(w, l) && token < l.tokens && head < l.heads && m.Fin? && |locals| == LANES
    requires forall lane :: 0 <= lane < LANES ==>
      locals[lane] == if lane < l.splits then PartsOf(w, l, token, head)[lane].max else NegInf
    ensures denominator == WeighedSum(exp, PartsOf(w, l, token, head), m.value, Reached(LANES, l.splits))
  {
    hide SlotIndex, SlotCount, PartsOf, Fits, Fold, CommutativeSemigroup, Unit, Pow2, WeighedSum, LaneTerm;
    ghost var parts := PartsOf(w, l, token, head);
    var terms := [];
    for lane := 0 to LANES
      invariant |terms| == lane
      invariant forall i :: 0 <= i < lane ==> terms[i] == LaneTerm(exp, parts, m.value, i)
    {
      var local := LaneDenominatorTerm(exp, l, w, token, head, lane, locals[lane], m.value);
      terms := terms + [local];
    }
    denominator := WaveSum(terms);
    LanesFoldSum(exp, terms, parts, m.value, LANES);
  }

  lemma WeighedAccEmpty(exp: real -> real, parts: seq<Partial>, reference: real, size: nat)
    requires PartsSized(parts, size)
    ensures WeighedAcc(exp, parts, reference, size, 0) == Zero(size)
  {}

  lemma WeighedAccNext(exp: real -> real, parts: seq<Partial>, reference: real, size: nat, s: nat, d: nat)
    requires s < |parts| && PartsSized(parts, size) && d < size
    ensures WeighedAcc(exp, parts, reference, size, s + 1)[d]
         == WeighedAcc(exp, parts, reference, size, s)[d] + AccTerm(exp, parts[s], reference, d)
  {
    hide Fade, Axpy;
    AxpyAt(Fade(exp, parts[s].max, reference), parts[s].acc, WeighedAcc(exp, parts, reference, size, s), d);
  }

  /** What one split adds to a coordinate. */
  function AccTerm(exp: real -> real, p: Partial, reference: real, d: nat): real
    requires d < |p.acc|
  {
    Fade(exp, p.max, reference) * p.acc[d]
  }

  method LaneAccTerm(exp: real -> real, l: Launch, w: Workspace, token: nat, head: nat, s: nat, m: real, d: nat)
    returns (term: real)
    requires Fits(w, l) && token < l.tokens && head < l.heads && d < l.dim && s < l.splits
    ensures term == AccTerm(exp, PartsOf(w, l, token, head)[s], m, d)
  {
    hide SlotIndex, SlotCount, PartsOf, Fits, Fade;
    PartAt(w, l, token, head, s);
    var slot := SlotIndex(l, s, token, head);
    term := 0.0;
    if w.max[slot].Fin? {
      term := Fade(exp, w.max[slot], m) * w.acc[At(slot, 0, l.dim) + d];
    } else {
      EmptyFade(exp, m);
    }
  }

  /** Step 3: one coordinate, over every split. */
  method LaneAcc(exp: real -> real, l: Launch, w: Workspace, token: nat, head: nat, m: Bound, d: nat)
    returns (acc: real)
    requires Fits(w, l) && token < l.tokens && head < l.heads && m.Fin? && d < l.dim
    ensures acc == WeighedAcc(exp, PartsOf(w, l, token, head), m.value, l.dim, l.splits)[d]
  {
    hide SlotIndex, SlotCount, PartsOf, Fits, Axpy, Fade, WeighedAcc, AccTerm;
    ghost var parts := PartsOf(w, l, token, head);
    WeighedAccEmpty(exp, parts, m.value, l.dim);
    acc := 0.0;
    for s := 0 to l.splits
      invariant acc == WeighedAcc(exp, parts, m.value, l.dim, s)[d]
    {
      WeighedAccNext(exp, parts, m.value, l.dim, s, d);
      var term := LaneAccTerm(exp, l, w, token, head, s, m.value, d);
      acc := acc + term;
    }
  }

  /** All coordinates. When none of the first 64 splits saw a position the global maximum is minus
      infinity and every coordinate is zero times infinity, or zero: it is left open here. */
  method LaneRow(exp: real -> real, l: Launch, w: Workspace, token: nat, head: nat) returns (x: Vec)
    requires Fits(w, l) && token < l.tokens && head < l.heads
    ensures |x| == l.dim
    ensures MaxOf(PartsOf(w, l, token, head), Reached(LANES, l.splits)).Fin? ==>
      x == LaneMerge(exp, PartsOf(w, l, token, head), l.dim, LANES)
  {
    hide PartsOf, Fits, MaxOf, WeighedSum, WeighedAcc, Scale;
    var locals, m := LaneMax(l, w, token, head);
    if m.NegInf? {
      x := Unspecified(l.dim);
      return;
    }
    var denominator := LaneDenominator(exp, l, w, token, head, locals, m);
    var inverse := Reciprocal(denominator);
    ghost var acc := WeighedAcc(exp, PartsOf(w, l, token, head), m.value, l.dim, l.splits);
    x := [];
    for d := 0 to l.dim
      invariant |x| == d
      invariant forall i :: 0 <= i < d ==> x[i] == Scale(inverse, acc)[i]
    {
      var total := LaneAcc(exp, l, w, token, head, m, d);
      ScaleAt(inverse, acc, d);
      x := x + [total * inverse];
    }
  }

  method Unspecified(n: nat) returns (x: Vec)
    ensures |x| == n
  {
    x := [];
    for d := 0 to n
      invariant |x| == d
    {
      var value: real := *;
      x := x + [value];
    }
  }

  /** The lane-limited stage 2 for one row, over any workspace. */
  method MergeOverLanes(exp: real -> real, l: Launch, w: Workspace, gate: Vec, output: array<real>, token: nat,
                        head: nat)
    requires Exponential(exp) && l.Valid() && Fits(w, l) && |gate| == output.Length == |l.query|
    requires token < l.tokens && head < l.heads
    modifies output
    ensures OutputRow(l, token, head) + l.dim <= output.Length
    ensures old(MaxOf(PartsOf(w, l, token, head), Reached(LANES, l.splits))).Fin? ==>
      output[OutputRow(l, token, head)..OutputRow(l, token, head) + l.dim]
      == Gated(exp, l, Some(gate), token, head, LaneMerge(exp, old(PartsOf(w, l, token, head)), l.dim, LANES))
      && forall d :: 0 <= d < l.dim ==>
        CellStored(exp, l, Some(gate), output[..], token, head, d,
                   LaneMerge(exp, old(PartsOf(w, l, token, head)), l.dim, LANES)[d])
    ensures OtherRowsKept(l, old(output[..]), output[..], token, head)
  {
    hide Exponential, PartsOf, MaxOf, LaneMerge, Fits, OutputRow, Gated, OtherRowsKept, CellStored;
    var x := LaneRow(exp, l, w, token, head);
    StoreRow(exp, l, Some(gate), output, token, head, x);
  }

  /** A finished stage 1 leaves a number in one of the first 64 splits. */
  lemma FirstSplitIsLive(exp: real -> real, l: Launch, chunk: nat, token: nat, head: nat)
    requires Exponential(exp) && l.Valid() && token < l.tokens && head < l.heads && Length(l, token) <= l.capacity
    requires Cut(chunk, l.splits, Length(l, token)) == Length(l, token)
    ensures MaxOf(ExactParts(exp, l, chunk, token, head), Reached(LANES, l.splits)).Fin?
  {
    hide Exponential, MaxOf, Cut, Pieces, Cuts, Score, ValueRow, KvHead, Sized, MaxScore;
    var n := Length(l, token);
    BoundariesAreCuts(chunk, l.splits, n);
    CutReaches(chunk, l.splits, n);
    var s := Scores(l, token, head, n);
    PiecesWeigh(exp, s, Values(l, head, n), l.dim, Boundaries(chunk, l.splits, n), 0.0, Reached(LANES, l.splits));
    MaxScoreIsMax(s, 0, Cut(chunk, Reached(LANES, l.splits), n));
  }
}
