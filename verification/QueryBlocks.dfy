/** Blocks of query tokens that share one walk over the cache: splits are cut from the block's
    longest causal length and every token masks what it may not see. */
module QueryBlocks {
  import opened ExpLog
  import opened Softmax
  import opened OnlineSoftmax
  import opened TileSoftmax
  import opened AttentionProblem
  import opened Stage1

  /** What a token has accumulated when the block's walk, begun at `start`, stands before `pos`. */
  function Seen(exp: real -> real, l: Launch, token: nat, head: nat, start: nat, pos: nat): (p: Partial)
    requires l.Valid() && token < l.tokens && head < l.heads && Length(l, token) <= l.capacity && start <= pos
    ensures |p.acc| == l.dim
  {
    Exact(exp, l, token, head, Min(start, Length(l, token)), Min(pos, Length(l, token)))
  }

  lemma SeenNone(exp: real -> real, l: Launch, token: nat, head: nat, start: nat)
    requires l.Valid() && token < l.tokens && head < l.heads && Length(l, token) <= l.capacity
    ensures Seen(exp, l, token, head, start, start) == Empty(l.dim)
  {
    hide Exact;
    ExactNone(exp, l, token, head, Min(start, Length(l, token)));
  }

  /** A visible position is pushed; an invisible one changes nothing. */
  lemma SeenNext(exp: real -> real, l: Launch, token: nat, head: nat, start: nat, pos: nat)
    requires Exponential(exp) && l.Valid() && token < l.tokens && head < l.heads && Length(l, token) <= l.capacity
    requires start <= pos
    ensures pos < Length(l, token) ==>
      Seen(exp, l, token, head, start, pos + 1)
      == Push(exp, Seen(exp, l, token, head, start, pos), Score(l, token, head, pos), ValueRow(l, KvHead(l, head), pos))
    ensures Length(l, token) <= pos ==>
      Seen(exp, l, token, head, start, pos + 1) == Seen(exp, l, token, head, start, pos)
  {
    hide Exponential, Exact, Push, Score, ValueRow, KvHead;
    if pos < Length(l, token) { ExactNext(exp, l, token, head, start, pos); }
  }

  /** Walking the block's share of the positions leaves each token with its own share of its own
      causal prefix, even where the split begins beyond that prefix. */
  lemma SeenIsItem(exp: real -> real, l: Launch, chunk: nat, split: nat, token: nat, head: nat, longest: nat)
    requires l.Valid() && token < l.tokens && head < l.heads && Length(l, token) <= longest <= l.capacity
    ensures var start := split * chunk; var end := Min(start + chunk, longest);
      if start < longest
      then start <= end && Seen(exp, l, token, head, start, end) == ItemState(exp, l, chunk, split, token, head)
      else ItemState(exp, l, chunk, split, token, head) == Empty(l.dim)
  {
    hide Exact;
    Distributes(split, chunk);
    CutMonotone(chunk, split, split + 1, Length(l, token));
    if longest <= split * chunk { ExactNone(exp, l, token, head, Length(l, token)); }
  }

  /** Splits cut from a longer length still cover a shorter one. */
  lemma LongerChunkCovers(longest: nat, splits: nat, length: nat)
    requires 0 < splits && length <= longest
    ensures Cut(ChunkSize(longest, splits), splits, length) == length
  {
    ChunkCovers(longest, splits);
  }

  // ----- blocks -----

  /** The tokens [first, first + count) share a walk. */
  datatype Span = Span(first: nat, count: nat)

  predicate InBlock(b: Span, token: int) { b.first <= token < b.first + b.count }

  /** Every token of the block has its slot filled. */
  ghost predicate BlockDone(exp: real -> real, w: Workspace, l: Launch, chunk: nat, split: nat, head: nat, b: Span)
    requires l.Valid() && Fits(w, l) && split < l.splits && head < l.heads && b.first + b.count <= l.tokens
    requires l.base + b.first + b.count <= l.capacity
    reads w.max, w.sum, w.acc
  {
    forall token {:trigger InBlock(b, token)} :: InBlock(b, token) ==> ItemDone(exp, w, l, chunk, split, token, head)
  }

  ghost predicate OfBlock(l: Launch, split: nat, head: nat, b: Span, slot: nat) {
    exists token {:trigger InBlock(b, token)} :: InBlock(b, token) && slot == SlotIndex(l, split, token, head)
  }

  ghost predicate StatesAt(exp: real -> real, states: seq<Partial>, l: Launch, head: nat, b: Span, start: nat, pos: nat)
    requires l.Valid() && head < l.heads && b.first + b.count <= l.tokens && l.base + b.first + b.count <= l.capacity
    requires start <= pos
  {
    |states| == b.count
    && forall t {:trigger states[t]} :: 0 <= t < b.count ==> states[t] == Seen(exp, l, b.first + t, head, start, pos)
  }

  /** In the middle of the block: the tokens before `t` already stand before `next`. */
  ghost predicate StatesSplit(exp: real -> real, states: seq<Partial>, l: Launch, head: nat, b: Span, start: nat,
                              pos: nat, next: nat, t: nat)
    requires l.Valid() && head < l.heads && b.first + b.count <= l.tokens && l.base + b.first + b.count <= l.capacity
    requires start <= pos && start <= next
  {
    |states| == b.count
    && forall i {:trigger states[i]} :: 0 <= i < b.count ==>
      states[i] == Seen(exp, l, b.first + i, head, start, if i < t then next else pos)
  }

  /** All states are empty at the start of the walk. */
  lemma StatesBegin(exp: real -> real, states: seq<Partial>, l: Launch, head: nat, b: Span, start: nat)
    requires l.Valid() && head < l.heads && b.first + b.count <= l.tokens && l.base + b.first + b.count <= l.capacity
    requires |states| == b.count && forall t :: 0 <= t < b.count ==> states[t] == Empty(l.dim)
    ensures StatesAt(exp, states, l, head, b, start, start)
  {
    hide Seen;
    forall t {:trigger states[t]}
      | 0 <= t < b.count
      ensures states[t] == Seen(exp, l, b.first + t, head, start, start) {
      SeenNone(exp, l, b.first + t, head, start);
    }
  }

  /** The states at the end of the walk are the work items' exact states. */
  lemma StatesEnd(exp: real -> real, states: seq<Partial>, l: Launch, chunk: nat, split: nat, head: nat, b: Span,
                  longest: nat)
    requires l.Valid() && head < l.heads && b.first + b.count <= l.tokens
    requires l.base + b.first + b.count <= longest <= l.capacity
    requires |states| == b.count
    requires var start := split * chunk; var end := Min(start + chunk, longest);
      if start < longest
      then start <= end && StatesAt(exp, states, l, head, b, start, end)
      else forall t :: 0 <= t < b.count ==> states[t] == Empty(l.dim)
    ensures forall t {:trigger states[t]} :: 0 <= t < b.count ==>
      states[t] == ItemState(exp, l, chunk, split, b.first + t, head)
  {
    hide Seen, ItemState;
    forall t {:trigger states[t]}
      | 0 <= t < b.count
      ensures states[t] == ItemState(exp, l, chunk, split, b.first + t, head) {
      SeenIsItem(exp, l, chunk, split, b.first + t, head, longest);
    }
  }

  /** Store every token's state. */
  method FinishBlock(exp: real -> real, l: Launch, w: Workspace, chunk: nat, split: nat, head: nat, b: Span,
                     states: seq<Partial>)
    requires l.Valid() && Fits(w, l) && split < l.splits && head < l.heads && b.first + b.count <= l.tokens
    requires l.base + b.first + b.count <= l.capacity && |states| == b.count
    requires forall t {:trigger states[t]} :: 0 <= t < b.count ==>
      states[t] == ItemState(exp, l, chunk, split, b.first + t, head)
    modifies w.max, w.sum, w.acc
    ensures BlockDone(exp, w, l, chunk, split, head, b)
    ensures forall o :: 0 <= o < SlotCount(l) && !OfBlock(l, split, head, b, o) ==> Slot(w, l, o) == old(Slot(w, l, o))
  {
    hide Slot, ItemState, SlotCount, SlotIndex, Fits;
    for t := 0 to b.count
      invariant forall token {:trigger InBlock(b, token)} :: InBlock(b, token) && token < b.first + t ==>
        ItemDone(exp, w, l, chunk, split, token, head)
      invariant forall o :: 0 <= o < SlotCount(l) && !OfBlock(l, split, head, b, o) ==>
        Slot(w, l, o) == old(Slot(w, l, o))
    {
      StoreToken(exp, l, w, chunk, split, head, b, t, states[t]);
    }
  }

  method StoreToken(exp: real -> real, l: Launch, w: Workspace, chunk: nat, split: nat, head: nat, b: Span, t: nat,
                    state: Partial)
    requires l.Valid() && Fits(w, l) && split < l.splits && head < l.heads && b.first + b.count <= l.tokens
    requires t < b.count
    requires l.base + b.first + b.count <= l.capacity
    requires state == ItemState(exp, l, chunk, split, b.first + t, head)
    requires forall token {:trigger InBlock(b, token)} :: InBlock(b, token) && token < b.first + t ==>
      ItemDone(exp, w, l, chunk, split, token, head)
    modifies w.max, w.sum, w.acc
    ensures forall token {:trigger InBlock(b, token)} :: InBlock(b, token) && token < b.first + t + 1 ==>
      ItemDone(exp, w, l, chunk, split, token, head)
    ensures forall o :: 0 <= o < SlotCount(l) && !OfBlock(l, split, head, b, o) ==> Slot(w, l, o) == old(Slot(w, l, o))
  {
    hide Slot, ItemState, SlotCount, SlotIndex, Fits;
    var own := b.first + t;
    assert InBlock(b, own);
    FinishItem(exp, l, w, chunk, split, own, head, state);
    forall token {:trigger InBlock(b, token)} | InBlock(b, token) && token < own
      ensures ItemDone(exp, w, l, chunk, split, token, head)
    {
      SlotInside(l, split, token, head);
      SlotInjective(l, split, token, head, split, own, head);
    }
  }
}
