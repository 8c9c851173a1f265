/** The buffers a chunk computes hold the corrections of the token recurrence. */
module GdnCorrections {
  import opened LinearAlgebra
  import opened TriangularSystem
  import opened GdnRecurrence
  import opened GdnChunk
  import opened GdnDecay
  import opened GdnProblem
  import opened GdnBuild
  import opened GdnSolve

  /** The values and results of a chunk's build and solve phases, as rows. */
  datatype Solved = Solved(system: seq<Vec>, intra: seq<Vec>, newValues: seq<Vec>, decayedK: seq<Vec>,
                           inverse: seq<Vec>, values: seq<Vec>, keys: seq<Vec>)

  ghost predicate WellShaped(s: Solved, chunk: nat, size: nat) {
    && Square(s.system, chunk) && Square(s.intra, chunk) && Square(s.inverse, chunk)
    && |s.newValues| == |s.decayedK| == |s.values| == |s.keys| == chunk
    && (forall i :: 0 <= i < chunk ==> |s.newValues[i]| == |s.decayedK[i]| == |s.values[i]| == |s.keys[i]| == size)
  }

  ghost predicate IsSolved(p: Problem, head: nat, start: nat, chunk: nat, scale: real, s: Solved)
    requires p.Valid() && head < p.valueHeads && start + chunk <= p.tokens
  {
    && WellShaped(s, chunk, p.size)
    && RowsBuilt(p, head, start, chunk, scale, chunk, s.system, s.intra, s.newValues, s.decayedK)
    && UnitLower(s.inverse, chunk) && RightInverse(s.system, s.inverse, chunk)
    && SolvedTo(s.values, s.inverse, s.newValues, p.size, chunk)
    && SolvedTo(s.keys, s.inverse, s.decayedK, p.size, chunk)
  }

  lemma SystemOfStream(p: Problem, head: nat, start: nat, chunk: nat, scale: real, s: Solved, dim: nat)
    requires p.Valid() && head < p.valueHeads && start + chunk <= p.tokens && dim < p.size
    requires IsSolved(p, head, start, chunk, scale, s)
    ensures IsSystem(s.system, Stream(p, head, dim, start, chunk), p.size)
  {
    var shared, stream := Shared(p, head, start, chunk), Stream(p, head, dim, start, chunk);
    StreamIsShared(p, head, dim, start, chunk);
    hide SystemRow, Shared, Stream, DecayedKey, Scale, Uniform, SameButValue, SolvedTo, UnitLower, RightInverse,
         RowBuilt, SystemRowBuilt, IntraRowBuilt;
    forall r, c | 0 <= c < r < chunk ensures s.system[r][c] == SystemRow(stream, p.size, r)[c] {
      assert RowBuilt(p, head, start, chunk, scale, r, s.system[r], s.intra[r], s.newValues[r], s.decayedK[r]);
      BuiltSystemRow(p, head, start, chunk, scale, r, s.system[r], s.intra[r], s.newValues[r], s.decayedK[r]);
      SystemRowSame(shared, stream, p.size, r);
    }
  }

  lemma BuiltSystemRow(p: Problem, head: nat, start: nat, chunk: nat, scale: real, r: nat,
                       system: Vec, intra: Vec, newValues: Vec, decayedK: Vec)
    requires p.Valid() && head < p.valueHeads && start + chunk <= p.tokens && r < chunk == |system| == |intra|
    requires RowBuilt(p, head, start, chunk, scale, r, system, intra, newValues, decayedK)
    ensures forall c :: 0 <= c < r ==> system[c] == SystemRow(Shared(p, head, start, chunk), p.size, r)[c]
  {
    hide SystemRow, Shared, IntraRowBuilt;
  }

  lemma KeysOfStream(p: Problem, head: nat, start: nat, chunk: nat, scale: real, s: Solved, dim: nat)
    requires p.Valid() && head < p.valueHeads && start + chunk <= p.tokens && dim < p.size
    requires IsSolved(p, head, start, chunk, scale, s)
    ensures s.decayedK == DecayedKeys(Stream(p, head, dim, start, chunk), p.size)
  {
    var shared, stream := Shared(p, head, start, chunk), Stream(p, head, dim, start, chunk);
    StreamIsShared(p, head, dim, start, chunk);
    hide SystemRow, Shared, Stream, DecayedKey, Scale, Uniform, SameButValue, SolvedTo, UnitLower, RightInverse;
    forall r | 0 <= r < chunk ensures s.decayedK[r] == DecayedKeys(stream, p.size)[r] {
      assert RowBuilt(p, head, start, chunk, scale, r, s.system[r], s.intra[r], s.newValues[r], s.decayedK[r]);
      DecayedKeySame(shared, stream, p.size, r);
    }
  }

  lemma StreamAt(p: Problem, head: nat, dim: nat, start: nat, n: nat, t: nat)
    requires p.Valid() && head < p.valueHeads && dim < p.size && start + n <= p.tokens && t < n
    ensures Stream(p, head, dim, start, n)[t].value == ValueOf(p, head, start + t)[dim]
    ensures Stream(p, head, dim, start, n)[t].beta == BetaOf(p, head, start + t)
    ensures Stream(p, head, dim, start, n)[t].query == QueryOf(p, head, start + t)
    ensures Stream(p, head, dim, start, n)[t].key == KeyOf(p, head, start + t)
  {
    hide ValueOf, BetaOf, QueryOf, KeyOf, DecayOf;
  }

  lemma ValuesOfStream(p: Problem, head: nat, start: nat, chunk: nat, scale: real, s: Solved, dim: nat)
    requires p.Valid() && head < p.valueHeads && start + chunk <= p.tokens && dim < p.size
    requires IsSolved(p, head, start, chunk, scale, s)
    ensures Entries(s.newValues, dim) == GatedValues(Stream(p, head, dim, start, chunk))
  {
    var stream := Stream(p, head, dim, start, chunk);
    hide *;
    SolvedShape(p, head, start, chunk, scale, s);
    forall r | 0 <= r < chunk ensures s.newValues[r][dim] == GatedValues(stream)[r] {
      NewValueIsGated(p, head, start, chunk, scale, s, dim, r);
    }
  }

  lemma NewValueIsGated(p: Problem, head: nat, start: nat, chunk: nat, scale: real, s: Solved, dim: nat, r: nat)
    requires p.Valid() && head < p.valueHeads && start + chunk <= p.tokens && dim < p.size && r < chunk
    requires IsSolved(p, head, start, chunk, scale, s)
    ensures |s.newValues| == chunk && |s.newValues[r]| == p.size
    ensures s.newValues[r][dim] == GatedValues(Stream(p, head, dim, start, chunk))[r]
  {
    hide *;
    NewValuesAt(p, head, start, chunk, scale, s, r);
    ScaleAt(BetaOf(p, head, start + r), ValueOf(p, head, start + r), dim);
    StreamAt(p, head, dim, start, chunk, r);
    SameProduct(ValueOf(p, head, start + r)[dim], BetaOf(p, head, start + r),
                Stream(p, head, dim, start, chunk)[r].value, Stream(p, head, dim, start, chunk)[r].beta);
  }

  lemma SolvedShape(p: Problem, head: nat, start: nat, chunk: nat, scale: real, s: Solved)
    requires p.Valid() && head < p.valueHeads && start + chunk <= p.tokens
    requires IsSolved(p, head, start, chunk, scale, s)
    ensures WellShaped(s, chunk, p.size) && |s.newValues| == chunk
    ensures forall i :: 0 <= i < chunk ==> |s.newValues[i]| == p.size
  {}

  lemma NewValuesAt(p: Problem, head: nat, start: nat, chunk: nat, scale: real, s: Solved, r: nat)
    requires p.Valid() && head < p.valueHeads && start + chunk <= p.tokens && r < chunk
    requires IsSolved(p, head, start, chunk, scale, s)
    ensures |s.newValues| == chunk
    ensures s.newValues[r] == Scale(BetaOf(p, head, start + r), ValueOf(p, head, start + r))
  {
    assert RowBuilt(p, head, start, chunk, scale, r, s.system[r], s.intra[r], s.newValues[r], s.decayedK[r]);
  }

  /** Every column of the corrected values lists the corrections the token recurrence writes. */
  lemma CorrectedAreDeltas(p: Problem, head: nat, start: nat, chunk: nat, scale: real, s: Solved, dim: nat,
                           column: Vec, u: Vec)
    requires p.Valid() && head < p.valueHeads && start + chunk <= p.tokens && dim < p.size && |column| == p.size
    requires IsSolved(p, head, start, chunk, scale, s) && |u| == chunk
    requires forall r {:trigger u[r]} :: 0 <= r < chunk ==> u[r] == s.values[r][dim] - Dot(s.keys[r], column, p.size)
    ensures AreDeltas(u, column, Stream(p, head, dim, start, chunk), chunk)
  {
    var stream := Stream(p, head, dim, start, chunk);
    forall r {:trigger u[r]} | 0 <= r < chunk
      ensures u[r] == Delta(Run(column, stream, r), stream[r])
    {
      CorrectedIsDeltaAt(p, head, start, chunk, scale, s, dim, column, r);
    }
  }

  lemma CorrectedIsDeltaAt(p: Problem, head: nat, start: nat, chunk: nat, scale: real, s: Solved, dim: nat,
                           column: Vec, r: nat)
    requires p.Valid() && head < p.valueHeads && start + chunk <= p.tokens && dim < p.size && |column| == p.size
    requires IsSolved(p, head, start, chunk, scale, s) && r < chunk
    ensures s.values[r][dim] - Dot(s.keys[r], column, p.size)
         == Delta(Run(column, Stream(p, head, dim, start, chunk), r), Stream(p, head, dim, start, chunk)[r])
  {
    hide RowsBuilt, Stream, Dot, Combination, Delta, Run, DecayedKeys, GatedValues, UnitLower, RightInverse, IsSystem,
         Uniform;
    var stream := Stream(p, head, dim, start, chunk);
    SystemOfStream(p, head, start, chunk, scale, s, dim);
    KeysOfStream(p, head, start, chunk, scale, s, dim);
    ValuesOfStream(p, head, start, chunk, scale, s, dim);
    CombinationEntry(s.inverse[r], s.newValues, p.size, r + 1, dim);
    CorrectedIsDelta(column, stream, s.system, s.inverse, r);
  }
}
