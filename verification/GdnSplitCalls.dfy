/** Running a sequence in two calls, the second from the state the first leaves behind. */
module GdnSplitCalls {
  import opened LinearAlgebra
  import opened Layout
  import opened GdnRecurrence
  import opened GdnProblem

  /** `part` is tokens [start, start + part.tokens) of `whole`. */
  ghost predicate PartOf(part: Problem, whole: Problem, start: nat) {
    && part.Valid() && whole.Valid() && part.valueHeads == whole.valueHeads && part.size == whole.size
    && start + part.tokens <= whole.tokens
    && forall head, dim, token {:trigger TokenOf(part, head, dim, token)} ::
      0 <= head < part.valueHeads && 0 <= dim < part.size && 0 <= token < part.tokens ==>
      TokenOf(part, head, dim, token) == TokenOf(whole, head, dim, start + token)
  }

  lemma PartStream(part: Problem, whole: Problem, start: nat, head: nat, dim: nat)
    requires PartOf(part, whole, start) && head < part.valueHeads && dim < part.size
    ensures Stream(part, head, dim, 0, part.tokens)
         == Stream(whole, head, dim, 0, whole.tokens)[start..start + part.tokens]
  {
    hide TokenOf, Problem.Valid;
    var ts, all := Stream(part, head, dim, 0, part.tokens), Stream(whole, head, dim, 0, whole.tokens);
    forall token | 0 <= token < part.tokens ensures ts[token] == all[start + token] {
      assert ts[token] == TokenOf(part, head, dim, 0 + token);
      assert all[start + token] == TokenOf(whole, head, dim, 0 + (start + token));
    }
  }

  /** The first part's run is a prefix of the whole. */
  lemma FirstRun(column: Vec, all: seq<Token>, n: nat, t: nat)
    requires t <= n <= |all| && Uniform(all, |column|)
    ensures Uniform(all[..n], |column|) && Run(column, all[..n], t) == Run(column, all, t)
  {
    hide Run;
    RunPrefix(column, all[..n], all, t);
  }

  /** One column: first the tokens before `m`, then the rest from the carried column. */
  lemma ColumnSplits(column: Vec, all: seq<Token>, m: nat, n: nat)
    requires m + n == |all| && Uniform(all, |column|) && Uniform(all[..m], |column|) && Uniform(all[m..], |column|)
    ensures Run(Run(column, all[..m], m), all[m..], n) == Run(column, all, m + n)
  {
    hide *;
    FirstRun(column, all, m, m);
    RunSplits(column, all, m, n);
  }

  /** What a token of the first part emits. */
  lemma EmitFirst(column: Vec, all: seq<Token>, m: nat, t: nat, scale: real)
    requires t < m <= |all| && Uniform(all, |column|) && Uniform(all[..m], |column|)
    ensures Emit(column, all[..m], t, scale) == Emit(column, all, t, scale)
  {
    hide Run, Uniform, ReadOut;
    FirstRun(column, all, m, t + 1);
  }

  /** ... and of the second, from the carried column. */
  lemma EmitSecond(column: Vec, all: seq<Token>, m: nat, t: nat, scale: real)
    requires m <= t < |all| && Uniform(all, |column|) && Uniform(all[..m], |column|) && Uniform(all[m..], |column|)
    ensures Emit(Run(column, all[..m], m), all[m..], t - m, scale) == Emit(column, all, t, scale)
  {
    hide *;
    FirstRun(column, all, m, m);
    EmitSplits(column, all, m, t - m, scale);
  }

  lemma UniformParts(all: seq<Token>, m: nat, size: nat)
    requires m <= |all| && Uniform(all, size)
    ensures Uniform(all[..m], size) && Uniform(all[m..], size)
  {}

  lemma StateSplits(p: Problem, first: Problem, second: Problem, initial: seq<real>, mid: seq<real>, final: seq<real>,
                    head: nat, dim: nat)
    requires PartOf(first, p, 0) && PartOf(second, p, first.tokens) && first.tokens + second.tokens == p.tokens
    requires |initial| == |mid| == |final| == p.valueHeads * Area(p.size) && head < p.valueHeads && dim < p.size
    requires ColumnOf(mid, p.valueHeads, head, p.size, dim) == StateAfter(first, initial, head, dim, first.tokens)
    requires ColumnOf(final, p.valueHeads, head, p.size, dim) == StateAfter(second, mid, head, dim, second.tokens)
    ensures ColumnOf(final, p.valueHeads, head, p.size, dim) == StateAfter(p, initial, head, dim, p.tokens)
  {
    hide Run, ColumnOf, Uniform;
    var column, all := ColumnOf(initial, p.valueHeads, head, p.size, dim), Stream(p, head, dim, 0, p.tokens);
    PartStream(first, p, 0, head, dim);
    PartStream(second, p, first.tokens, head, dim);
    assert all[first.tokens..p.tokens] == all[first.tokens..] && all[0..0 + first.tokens] == all[..first.tokens];
    UniformParts(all, first.tokens, |column|);
    ColumnSplits(column, all, first.tokens, second.tokens);
  }

  lemma OutputSplits(p: Problem, first: Problem, second: Problem, scale: real, initial: seq<real>, mid: seq<real>,
                     head: nat, dim: nat, token: nat)
    requires PartOf(first, p, 0) && PartOf(second, p, first.tokens) && first.tokens + second.tokens == p.tokens
    requires |initial| == |mid| == p.valueHeads * Area(p.size) && head < p.valueHeads && dim < p.size
    requires token < p.tokens
    requires ColumnOf(mid, p.valueHeads, head, p.size, dim) == StateAfter(first, initial, head, dim, first.tokens)
    ensures OutputAt(p, initial, scale, head, token, dim)
         == if token < first.tokens then OutputAt(first, initial, scale, head, token, dim)
            else OutputAt(second, mid, scale, head, token - first.tokens, dim)
  {
    hide Run, ColumnOf, Uniform, Emit, Stream, TokenOf;
    var column, all := ColumnOf(initial, p.valueHeads, head, p.size, dim), Stream(p, head, dim, 0, p.tokens);
    var m := first.tokens;
    PartStream(first, p, 0, head, dim);
    PartStream(second, p, m, head, dim);
    assert all[m..m + second.tokens] == all[m..] && all[0..0 + m] == all[..m];
    UniformParts(all, m, |column|);
    if token < m {
      EmitFirst(column, all, m, token, scale);
    } else {
      EmitSecond(column, all, m, token, scale);
    }
  }

  /** Two calls, the second on the state of the first, leave the state of one call over all tokens
      and produce its outputs, each part its own. */
  lemma SplitCallsAgree(p: Problem, first: Problem, second: Problem, scale: real, initial: seq<real>,
                        mid: seq<real>, firstOutput: seq<real>, final: seq<real>, secondOutput: seq<real>,
                        whole: seq<real>, output: seq<real>)
    requires PartOf(first, p, 0) && PartOf(second, p, first.tokens) && first.tokens + second.tokens == p.tokens
    requires |initial| == p.valueHeads * Area(p.size)
    requires Recurred(first, scale, initial, mid, firstOutput) && Recurred(second, scale, mid, final, secondOutput)
    requires Recurred(p, scale, initial, whole, output)
    ensures final == whole
    ensures forall head, token, dim {:trigger OutputIndex(p, head, token, dim)} ::
      0 <= head < p.valueHeads && 0 <= token < p.tokens && 0 <= dim < p.size ==>
      OutputIndex(p, head, token, dim) < |output|
      && FromPart(first, second, firstOutput, secondOutput, head, token,
                  dim) == Cell(output[OutputIndex(p, head, token, dim)])
  {
    hide StateAfter, OutputAt, PartOf, ColumnOf, Area, OutputIndex, FromPart;
    PartsValid(p, first, second);
    forall head, dim | 0 <= head < p.valueHeads && 0 <= dim < p.size
      ensures ColumnOf(final, p.valueHeads, head, p.size, dim) == StateAfter(p, initial, head, dim, p.tokens)
    {
      StateSplits(p, first, second, initial, mid, final, head, dim);
    }
    RecurredIsUnique(p, scale, initial, final, output, whole, output);
    forall head, token, dim {:trigger OutputIndex(p, head, token, dim)}
      | 0 <= head < p.valueHeads && 0 <= token < p.tokens && 0 <= dim < p.size
      ensures OutputIndex(p, head, token, dim) < |output|
        && FromPart(first, second, firstOutput, secondOutput, head, token,
                    dim) == Cell(output[OutputIndex(p, head, token, dim)])
    {
      OutputSplits(p, first, second, scale, initial, mid, head, dim, token);
      PartCell(first, second, scale, initial, mid, firstOutput, final, secondOutput, head, token, dim);
    }
  }

  datatype Cell = Missing | Cell(value: real)

  /** The output cell of token `token` in the part that ran it. */
  function FromPart(first: Problem, second: Problem, firstOutput: seq<real>, secondOutput: seq<real>, head: nat,
                    token: nat, dim: nat): Cell {
    if token < first.tokens then
      if OutputIndex(first, head, token, dim) < |firstOutput|
      then Cell(firstOutput[OutputIndex(first, head, token, dim)]) else Missing
    else
      if OutputIndex(second, head, token - first.tokens, dim) < |secondOutput|
      then Cell(secondOutput[OutputIndex(second, head, token - first.tokens, dim)]) else Missing
  }

  lemma PartCell(first: Problem, second: Problem, scale: real, initial: seq<real>, mid: seq<real>,
                 firstOutput: seq<real>, final: seq<real>, secondOutput: seq<real>, head: nat, token: nat, dim: nat)
    requires first.Valid() && second.Valid() && first.valueHeads == second.valueHeads && first.size == second.size
    requires |initial| == first.valueHeads * Area(first.size)
    requires Recurred(first, scale, initial, mid, firstOutput) && Recurred(second, scale, mid, final, secondOutput)
    requires head < first.valueHeads && dim < first.size && token < first.tokens + second.tokens
    ensures FromPart(first, second, firstOutput, secondOutput, head, token, dim)
         == Cell(if token < first.tokens then OutputAt(first, initial, scale, head, token, dim)
                 else OutputAt(second, mid, scale, head, token - first.tokens, dim))
  {
    hide StateAfter, OutputAt, ColumnOf, Area, OutputIndex;
  }

  lemma PartsValid(p: Problem, first: Problem, second: Problem)
    requires PartOf(first, p, 0) && PartOf(second, p, first.tokens)
    ensures p.Valid() && first.Valid() && second.Valid()
    ensures first.valueHeads == second.valueHeads == p.valueHeads && first.size == second.size == p.size
  {}
}
