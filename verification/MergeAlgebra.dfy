/** Partial results form a commutative monoid under merging, so splits may be merged in any
    grouping and any order. */
module MergeAlgebra {
  import opened LinearAlgebra
  import opened ExpLog
  import opened Softmax
  import opened OnlineSoftmax

  /** A partial result without positions is exactly the empty one. */
  ghost predicate Proper(p: Partial, size: nat) {
    |p.acc| == size && (p.max.NegInf? ==> p == Empty(size))
  }

  lemma FadeChain(exp: real -> real, a: Bound, m: real, reference: real)
    requires Exponential(exp)
    ensures Fade(exp, a, m) * exp(m - reference) == Fade(exp, a, reference)
  {
    hide Exponential;
    if a.Fin? { ExpSum(exp, a.value - m, m - reference, a.value - reference); }
  }

  lemma SumThrough(x: real, a: real, y: real, b: real, f: real, af: real, bf: real)
    requires af == a * f && bf == b * f
    ensures (x * a + y * b) * f == x * af + y * bf
  {
    assert (x * a) * f == x * (a * f);
    assert (y * b) * f == y * (b * f);
  }

  lemma ScaleBlend(f: real, a: real, x: Vec, b: real, y: Vec, af: real, bf: real)
    requires |x| == |y| && af == a * f && bf == b * f
    ensures Scale(f, Blend(a, x, b, y)) == Blend(af, x, bf, y)
  {
    forall i | 0 <= i < |x| ensures Scale(f, Blend(a, x, b, y))[i] == Blend(af, x, bf, y)[i] {
      hide *;
      BlendAt(a, x, b, y, i);
      BlendAt(af, x, bf, y, i);
      ScaleAt(f, Blend(a, x, b, y), i);
      SumThrough(x[i], a, y[i], b, f, af, bf);
    }
  }

  lemma BlendAt(a: real, x: Vec, b: real, y: Vec, i: nat)
    requires |x| == |y| && i < |x|
    ensures Blend(a, x, b, y)[i] == x[i] * a + y[i] * b
  {}

  /** Seen from any reference, a merge is the sum of its parts. */
  lemma MergeAt(exp: real -> real, a: Partial, b: Partial, size: nat, reference: real)
    requires Exponential(exp) && Proper(a, size) && Proper(b, size)
    ensures var r := Merge(exp, a, b);
      && Proper(r, size)
      && r.sum * Fade(exp, r.max, reference) == a.sum * Fade(exp, a.max, reference) + b.sum * Fade(exp, b.max,
                                                                                                   reference)
      && Scale(Fade(exp, r.max, reference), r.acc)
         == Blend(Fade(exp, a.max, reference), a.acc, Fade(exp, b.max, reference), b.acc)
  {
    hide Exponential, Blend, Scale, Fade;
    var r := Merge(exp, a, b);
    if r.max.Fin? {
      var m := r.max.value;
      FadeAt(exp, m, reference);
      FadeChain(exp, a.max, m, reference);
      FadeChain(exp, b.max, m, reference);
      SumThrough(a.sum, Fade(exp, a.max, m), b.sum, Fade(exp, b.max, m), exp(m - reference),
                 Fade(exp, a.max, reference), Fade(exp, b.max, reference));
      ScaleBlend(exp(m - reference), Fade(exp, a.max, m), a.acc, Fade(exp, b.max, m), b.acc,
                 Fade(exp, a.max, reference), Fade(exp, b.max, reference));
    } else {
      EmptyFade(exp, reference);
      EmptyBlend(size);
    }
  }

  lemma EmptyFade(exp: real -> real, reference: real)
    ensures Fade(exp, NegInf, reference) == 0.0
  {}

  lemma EmptyBlend(size: nat)
    ensures Scale(0.0, Zero(size)) == Blend(0.0, Zero(size), 0.0, Zero(size))
  {}

  lemma MergeCommutes(exp: real -> real, a: Partial, b: Partial)
    requires |a.acc| == |b.acc|
    ensures Merge(exp, a, b) == Merge(exp, b, a)
  {
    var m := MaxBound(a.max, b.max);
    if m.Fin? {
      hide Fade;
      forall i | 0 <= i < |a.acc|
        ensures Merge(exp, a, b).acc[i] == Merge(exp, b, a).acc[i]
      {
        hide Blend;
        BlendAt(Fade(exp, a.max, m.value), a.acc, Fade(exp, b.max, m.value), b.acc, i);
        BlendAt(Fade(exp, b.max, m.value), b.acc, Fade(exp, a.max, m.value), a.acc, i);
      }
    }
  }

  lemma MergeIdentity(exp: real -> real, a: Partial, size: nat)
    requires Exponential(exp) && Proper(a, size)
    ensures Merge(exp, a, Empty(size)) == a
  {
    hide Exponential, Blend;
    if a.max.Fin? {
      ExpZero(exp, a.max.value - a.max.value);
      forall i | 0 <= i < size ensures Blend(1.0, a.acc, 0.0, Zero(size))[i] == a.acc[i] {
        BlendAt(1.0, a.acc, 0.0, Zero(size), i);
      }
    }
  }

  lemma BlendNested(f: real, x: Vec, y: Vec, z: Vec, w: Vec, a: real, b: real, c: real)
    requires |x| == |y| == |z| == |w|
    requires Scale(f, w) == Blend(a, x, b, y)
    ensures forall i :: 0 <= i < |x| ==> Blend(f, w, c, z)[i] == x[i] * a + y[i] * b + z[i] * c
  {
    forall i | 0 <= i < |x| ensures Blend(f, w, c, z)[i] == x[i] * a + y[i] * b + z[i] * c {
      hide *;
      BlendAt(f, w, c, z, i);
      BlendAt(a, x, b, y, i);
      ScaleAt(f, w, i);
    }
  }

  /** The merge of three, spelled out at its own maximum. */
  lemma MergeThree(exp: real -> real, a: Partial, b: Partial, c: Partial, size: nat, m: real)
    requires Exponential(exp) && Proper(a, size) && Proper(b, size) && Proper(c, size)
    requires MaxBound(MaxBound(a.max, b.max), c.max) == Fin(m)
    ensures var r := Merge(exp, Merge(exp, a, b), c);
      var fa, fb, fc := Fade(exp, a.max, m), Fade(exp, b.max, m), Fade(exp, c.max, m);
      && r.max == Fin(m) && |r.acc| == size
      && r.sum == a.sum * fa + b.sum * fb + c.sum * fc
      && (forall i :: 0 <= i < size ==> r.acc[i] == a.acc[i] * fa + b.acc[i] * fb + c.acc[i] * fc)
  {
    hide Exponential, Blend, Fade, Scale;
    var ab := Merge(exp, a, b);
    MergeMax(exp, a, b);
    MergeAt(exp, a, b, size, m);
    var f, fa, fb, fc := Fade(exp, ab.max, m), Fade(exp, a.max, m), Fade(exp, b.max, m), Fade(exp, c.max, m);
    MergeParts(exp, ab, c, m, f, fc);
    BlendNested(f, a.acc, b.acc, c.acc, ab.acc, fa, fb, fc);
  }

  lemma MergeMax(exp: real -> real, a: Partial, b: Partial)
    requires |a.acc| == |b.acc|
    ensures Merge(exp, a, b).max == MaxBound(a.max, b.max)
  {}

  lemma MergeAssociates(exp: real -> real, a: Partial, b: Partial, c: Partial, size: nat)
    requires Exponential(exp) && Proper(a, size) && Proper(b, size) && Proper(c, size)
    ensures Merge(exp, Merge(exp, a, b), c) == Merge(exp, a, Merge(exp, b, c))
  {
    hide Exponential, Merge, Fade;
    var left, right := Merge(exp, Merge(exp, a, b), c), Merge(exp, Merge(exp, b, c), a);
    MergeCommutes(exp, Merge(exp, b, c), a);
    MergeMax(exp, a, b);
    MergeMax(exp, b, c);
    MergeMax(exp, Merge(exp, a, b), c);
    MergeMax(exp, Merge(exp, b, c), a);
    match MaxBound(MaxBound(a.max, b.max), c.max) {
      case Fin(m) =>
        MergeThree(exp, a, b, c, size, m);
        MergeThree(exp, b, c, a, size, m);
      case NegInf =>
        MergeIdentity(exp, Empty(size), size);
    }
  }

  // ----- merging many -----

  ghost predicate AllProper(parts: seq<Partial>, size: nat) {
    forall i :: 0 <= i < |parts| ==> Proper(parts[i], size)
  }

  function MergeAll(exp: real -> real, parts: seq<Partial>, size: nat): (r: Partial)
    requires forall i :: 0 <= i < |parts| ==> |parts[i].acc| == size
    ensures |r.acc| == size
  {
    if |parts| == 0 then Empty(size)
    else Merge(exp, MergeAll(exp, parts[..|parts| - 1], size), parts[|parts| - 1])
  }

  lemma {:induction false} MergeAllProper(exp: real -> real, parts: seq<Partial>, size: nat)
    requires Exponential(exp) && AllProper(parts, size)
    ensures Proper(MergeAll(exp, parts, size), size)
  {
    hide Exponential, Merge;
    if |parts| != 0 {
      MergeAllProper(exp, parts[..|parts| - 1], size);
      MergeAt(exp, MergeAll(exp, parts[..|parts| - 1], size), parts[|parts| - 1], size, 0.0);
    }
  }

  function Without(parts: seq<Partial>, j: nat): (r: seq<Partial>)
    requires j < |parts|
    ensures |r| == |parts| - 1
  {
    parts[..j] + parts[j + 1..]
  }

  /** Any one part may be merged last. */
  lemma {:induction false} MergeLast(exp: real -> real, parts: seq<Partial>, size: nat, j: nat)
    requires Exponential(exp) && AllProper(parts, size) && j < |parts|
    ensures AllProper(Without(parts, j), size)
    ensures MergeAll(exp, parts, size) == Merge(exp, MergeAll(exp, Without(parts, j), size), parts[j])
  {
    hide Exponential, Merge;
    var n := |parts|;
    if j == n - 1 {
      assert Without(parts, j) == parts[..n - 1];
    } else {
      var init, rest := parts[..n - 1], Without(parts, j);
      assert rest[..|rest| - 1] == Without(init, j) && rest[|rest| - 1] == parts[n - 1];
      MergeLast(exp, init, size, j);
      var core := MergeAll(exp, Without(init, j), size);
      MergeAllProper(exp, Without(init, j), size);
      MergeAssociates(exp, core, parts[j], parts[n - 1], size);
      MergeAssociates(exp, core, parts[n - 1], parts[j], size);
      MergeCommutes(exp, parts[j], parts[n - 1]);
    }
  }

  lemma WithoutMultiset(parts: seq<Partial>, j: nat)
    requires j < |parts|
    ensures multiset(parts) == multiset(Without(parts, j)) + multiset{parts[j]}
  {
    assert parts == parts[..j] + [parts[j]] + parts[j + 1..];
  }

  lemma FindLast(parts: seq<Partial>, parts': seq<Partial>) returns (j: nat)
    requires 0 < |parts| && multiset(parts) == multiset(parts')
    ensures j < |parts'| && parts'[j] == parts[|parts| - 1]
    ensures multiset(parts[..|parts| - 1]) == multiset(Without(parts', j))
  {
    var n := |parts|;
    var last := parts[n - 1];
    WithoutMultiset(parts, n - 1);
    assert Without(parts, n - 1) == parts[..n - 1];
    assert last in multiset(parts');
    j :| 0 <= j < |parts'| && parts'[j] == last;
    WithoutMultiset(parts', j);
    assert multiset(parts[..n - 1]) == multiset(parts) - multiset{last};
  }

  /** Splits may be merged in any order: reordering the parts changes nothing. */
  lemma {:induction false} MergeOrderIrrelevant(exp: real -> real, parts: seq<Partial>, parts': seq<Partial>, size: nat)
    requires Exponential(exp) && AllProper(parts, size) && AllProper(parts', size)
    requires multiset(parts) == multiset(parts')
    ensures MergeAll(exp, parts, size) == MergeAll(exp, parts', size)
  {
    if |parts| == 0 {
      assert |multiset(parts')| == 0;
    } else {
      hide Exponential, Merge, Proper, Without;
      var j := FindLast(parts, parts');
      MergeLast(exp, parts', size, j);
      MergeOrderIrrelevant(exp, parts[..|parts| - 1], Without(parts', j), size);
    }
  }
}
