/** The Q5_K and Q6_K decoders lose nothing: the 256 decoded values determine every packed byte, so
    no byte is ignored and no two elements share a bit. */
module KLossless {
  import opened KQuant
  import opened KExpand

  // ----- Q6_K -----

  lemma Q6Fields(low: seq<bv8>, high: seq<bv8>, h: nat, quarter: nat, i: nat)
    requires |low| == 128 && |high| == 64 && h < 2 && quarter < 4 && i < 32
    ensures 128 * h + 32 * quarter + i < 256
    ensures var ql := low[64 * h + 32 * (quarter % 2) + i];
      MxQ6Quant(low, high, 128 * h + 32 * quarter + i)
      == Joined(if quarter < 2 then ql & 0x0f else ql >> 4, (high[32 * h + i] >> (2 * quarter)) & 3)
  {
    var index := 128 * h + 32 * quarter + i;
    assert index / 128 == h && index % 128 == 32 * quarter + i;
    assert (32 * quarter + i) / 32 == quarter && (32 * quarter + i) % 32 == i;
  }

  /** Four low bits and two high bits, centred. */
  function Joined(lowBits: bv8, highBits: bv8): int { ((lowBits | (highBits << 4)) as int) - 32 }

  lemma SameBits(a: bv8, b: bv8, c: bv8, d: bv8)
    requires a < 16 && c < 16 && b < 4 && d < 4 && a | (b << 4) == c | (d << 4)
    ensures a == c && b == d
  {}

  lemma SixBitRange(a: bv8, b: bv8)
    requires a < 16 && b < 4
    ensures a | (b << 4) < 64
  {}

  lemma JoinedRange(a: bv8, b: bv8)
    requires a < 16 && b < 4
    ensures -32 <= Joined(a, b) < 32
  {
    SixBitRange(a, b);
    var joined := a | (b << 4);
    assert joined as int < 64;
  }

  lemma JoinedInjective(a: bv8, b: bv8, c: bv8, d: bv8)
    requires a < 16 && c < 16 && b < 4 && d < 4 && Joined(a, b) == Joined(c, d)
    ensures a == c && b == d
  {
    var x, y := a | (b << 4), c | (d << 4);
    assert x as int == y as int;
    assert x == y;
    SameBits(a, b, c, d);
  }

  lemma FieldBounds(ql: bv8, qh: bv8, quarter: nat)
    requires quarter < 4
    ensures ql & 0x0f < 16 && ql >> 4 < 16 && (qh >> (2 * quarter)) & 3 < 4
  {
    FourBits(ql);
    TwoBits(qh >> (2 * quarter));
  }

  lemma TwoBits(a: bv8)
    ensures a & 3 < 4
  {}

  /** Every Q6_K value is a signed six-bit number. */
  lemma Q6Range(low: seq<bv8>, high: seq<bv8>, index: nat)
    requires |low| == 128 && |high| == 64 && index < 256
    ensures -32 <= MxQ6Quant(low, high, index) < 32
  {
    var h, quarter, i := index / 128, index % 128 / 32, index % 128 % 32;
    assert index == 128 * h + 32 * quarter + i;
    Q6Fields(low, high, h, quarter, i);
    var ql, qh := low[64 * h + 32 * (quarter % 2) + i], high[32 * h + i];
    FieldBounds(ql, qh, quarter);
    JoinedRange(if quarter < 2 then ql & 0x0f else ql >> 4, (qh >> (2 * quarter)) & 3);
  }

  /** Element 128 h + 32 quarter + i as an integer: a nibble of low byte i of half block h, the upper
      32 bytes for odd quarters and the high nibble from the second on, and two bits of high byte i. */
  lemma Q6QuantIs(low: seq<bv8>, high: seq<bv8>, h: nat, quarter: nat, i: nat)
    requires |low| == 128 && |high| == 64 && h < 2 && quarter < 4 && i < 32
    ensures var ql, qh := low[64 * h + 32 * (quarter % 2) + i], high[32 * h + i];
      MxQ6Quant(low, high, 128 * h + 32 * quarter + i)
      == (if quarter < 2 then ql as int % 16 else ql as int / 16) + 16 * (((qh >> (2 * quarter)) & 3) as int) - 32
  {
    Q6Fields(low, high, h, quarter, i);
    var ql, qh := low[64 * h + 32 * (quarter % 2) + i], high[32 * h + i];
    hide MxQ6Quant;
    FieldBounds(ql, qh, quarter);
    NibbleFields(ql);
    JoinedBits(if quarter < 2 then ql & 0x0f else ql >> 4, (qh >> (2 * quarter)) & 3);
  }

  /** One element fixes its nibble and its two high bits. */
  lemma Q6ElementFixes(low: seq<bv8>, high: seq<bv8>, low': seq<bv8>, high': seq<bv8>, h: nat, quarter: nat, i: nat)
    requires |low| == |low'| == 128 && |high| == |high'| == 64 && h < 2 && quarter < 4 && i < 32
    requires forall index :: 0 <= index < 256 ==> MxQ6Quant(low, high, index) == MxQ6Quant(low', high', index)
    ensures var ql, ql' := low[64 * h + 32 * (quarter % 2) + i], low'[64 * h + 32 * (quarter % 2) + i];
      if quarter < 2 then ql & 0x0f == ql' & 0x0f else ql >> 4 == ql' >> 4
    ensures (high[32 * h + i] >> (2 * quarter)) & 3 == (high'[32 * h + i] >> (2 * quarter)) & 3
  {
    var ql, ql' := low[64 * h + 32 * (quarter % 2) + i], low'[64 * h + 32 * (quarter % 2) + i];
    var qh, qh' := high[32 * h + i], high'[32 * h + i];
    Q6Fields(low, high, h, quarter, i);
    Q6Fields(low', high', h, quarter, i);
    FieldBounds(ql, qh, quarter);
    FieldBounds(ql', qh', quarter);
    hide MxQ6Quant, Joined;
    JoinedInjective(if quarter < 2 then ql & 0x0f else ql >> 4, (qh >> (2 * quarter)) & 3,
                    if quarter < 2 then ql' & 0x0f else ql' >> 4, (qh' >> (2 * quarter)) & 3);
  }

  lemma NibblesFix(a: bv8, b: bv8)
    requires a & 0x0f == b & 0x0f && a >> 4 == b >> 4
    ensures a == b
  {}

  lemma PairsFix(a: bv8, b: bv8)
    requires (a >> 0) & 3 == (b >> 0) & 3 && (a >> 2) & 3 == (b >> 2) & 3
    requires (a >> 4) & 3 == (b >> 4) & 3 && (a >> 6) & 3 == (b >> 6) & 3
    ensures a == b
  {}

  lemma Q6LowByteFixes(low: seq<bv8>, high: seq<bv8>, low': seq<bv8>, high': seq<bv8>, h: nat, part: nat, i: nat)
    requires |low| == |low'| == 128 && |high| == |high'| == 64 && h < 2 && part < 2 && i < 32
    requires forall index :: 0 <= index < 256 ==> MxQ6Quant(low, high, index) == MxQ6Quant(low', high', index)
    ensures low[64 * h + 32 * part + i] == low'[64 * h + 32 * part + i]
  {
    hide MxQ6Quant;
    Q6ElementFixes(low, high, low', high', h, part, i);
    Q6ElementFixes(low, high, low', high', h, part + 2, i);
    NibblesFix(low[64 * h + 32 * part + i], low'[64 * h + 32 * part + i]);
  }

  lemma Q6HighByteFixes(low: seq<bv8>, high: seq<bv8>, low': seq<bv8>, high': seq<bv8>, h: nat, i: nat)
    requires |low| == |low'| == 128 && |high| == |high'| == 64 && h < 2 && i < 32
    requires forall index :: 0 <= index < 256 ==> MxQ6Quant(low, high, index) == MxQ6Quant(low', high', index)
    ensures high[32 * h + i] == high'[32 * h + i]
  {
    hide MxQ6Quant;
    Q6ElementFixes(low, high, low', high', h, 0, i);
    Q6ElementFixes(low, high, low', high', h, 1, i);
    Q6ElementFixes(low, high, low', high', h, 2, i);
    Q6ElementFixes(low, high, low', high', h, 3, i);
    PairsFix(high[32 * h + i], high'[32 * h + i]);
  }

  /** Two Q6_K blocks that decode alike are packed alike. */
  lemma Q6Lossless(low: seq<bv8>, high: seq<bv8>, low': seq<bv8>, high': seq<bv8>)
    requires |low| == |low'| == 128 && |high| == |high'| == 64
    requires forall index :: 0 <= index < 256 ==> MxQ6Quant(low, high, index) == MxQ6Quant(low', high', index)
    ensures low == low' && high == high'
  {
    hide MxQ6Quant;
    forall l | 0 <= l < 128 ensures low[l] == low'[l] {
      assert l == 64 * (l / 64) + 32 * (l % 64 / 32) + l % 32;
      Q6LowByteFixes(low, high, low', high', l / 64, l % 64 / 32, l % 32);
    }
    forall l | 0 <= l < 64 ensures high[l] == high'[l] {
      Q6HighByteFixes(low, high, low', high', l / 32, l % 32);
    }
  }

  // ----- Q5_K -----

  lemma LowAndBit(low: bv8, bit: bv8, low': bv8, bit': bv8)
    requires low < 16 && low' < 16 && bit < 2 && bit' < 2 && low | (bit << 4) == low' | (bit' << 4)
    ensures low == low' && bit == bit'
  {}

  lemma BitIsBit(a: bv8, group: nat)
    requires group < 8
    ensures (a >> group) & 1 < 2
  {
    var shifted := a >> group;
    LastBit(shifted);
  }

  lemma LastBit(a: bv8)
    ensures a & 1 < 2
  {}

  lemma Q5ElementFixes(b: Block, b': Block, index: nat)
    requires b.Q5K? && b'.Q5K? && b.Valid() && b'.Valid() && index < 256
    requires MxAffineQuant(b, index) == MxAffineQuant(b', index)
    ensures Q4Quant(b.ql, index) == Q4Quant(b'.ql, index)
    ensures (b.qh[index % 32] >> (index / 32)) & 1 == (b'.qh[index % 32] >> (index / 32)) & 1
  {
    hide Q4Quant, MxAffineQuant;
    Q5QuantIs(b, index);
    Q5QuantIs(b', index);
    NibbleIsFourBits(b.ql, index);
    NibbleIsFourBits(b'.ql, index);
    BitIsBit(b.qh[index % 32], index / 32);
    BitIsBit(b'.qh[index % 32], index / 32);
    LowAndBit(Q4Quant(b.ql, index), (b.qh[index % 32] >> (index / 32)) & 1, Q4Quant(b'.ql, index),
              (b'.qh[index % 32] >> (index / 32)) & 1);
  }

  lemma BitsFix(a: bv8, b: bv8)
    requires (a >> 0) & 1 == (b >> 0) & 1 && (a >> 1) & 1 == (b >> 1) & 1 && (a >> 2) & 1 == (b >> 2) & 1
    requires (a >> 3) & 1 == (b >> 3) & 1 && (a >> 4) & 1 == (b >> 4) & 1 && (a >> 5) & 1 == (b >> 5) & 1
    requires (a >> 6) & 1 == (b >> 6) & 1 && (a >> 7) & 1 == (b >> 7) & 1
    ensures a == b
  {}

  lemma HighBitFixes(b: Block, b': Block, i: nat, group: nat)
    requires b.Q5K? && b'.Q5K? && b.Valid() && b'.Valid() && i < 32 && group < 8
    requires forall index :: 0 <= index < 256 ==> MxAffineQuant(b, index) == MxAffineQuant(b', index)
    ensures (b.qh[i] >> group) & 1 == (b'.qh[i] >> group) & 1
  {
    hide MxAffineQuant;
    var index := 32 * group + i;
    assert index % 32 == i && index / 32 == group;
    Q5ElementFixes(b, b', index);
  }

  lemma LowByteFixes(b: Block, b': Block, i: nat)
    requires b.Q5K? && b'.Q5K? && b.Valid() && b'.Valid() && i < 128
    requires forall index :: 0 <= index < 256 ==> MxAffineQuant(b, index) == MxAffineQuant(b', index)
    ensures b.ql[i] == b'.ql[i]
  {
    hide MxAffineQuant, QByte, QPart, ElementAt;
    ElementAtInverts(i, 0);
    ElementAtInverts(i, 1);
    Q5ElementFixes(b, b', ElementAt(i, 0));
    Q5ElementFixes(b, b', ElementAt(i, 1));
    NibblesFix(b.ql[i], b'.ql[i]);
  }

  /** Two Q5_K blocks whose 256 elements decode alike have the same low and high bytes. */
  lemma Q5Lossless(b: Block, b': Block)
    requires b.Q5K? && b'.Q5K? && b.Valid() && b'.Valid()
    requires forall index :: 0 <= index < 256 ==> MxAffineQuant(b, index) == MxAffineQuant(b', index)
    ensures b.ql == b'.ql && b.qh == b'.qh
  {
    hide MxAffineQuant;
    forall i | 0 <= i < 128 ensures b.ql[i] == b'.ql[i] { LowByteFixes(b, b', i); }
    forall i | 0 <= i < 32 ensures b.qh[i] == b'.qh[i] {
      HighBitFixes(b, b', i, 0);
      HighBitFixes(b, b', i, 1);
      HighBitFixes(b, b', i, 2);
      HighBitFixes(b, b', i, 3);
      HighBitFixes(b, b', i, 4);
      HighBitFixes(b, b', i, 5);
      HighBitFixes(b, b', i, 6);
      HighBitFixes(b, b', i, 7);
      BitsFix(b.qh[i], b'.qh[i]);
    }
  }
}
