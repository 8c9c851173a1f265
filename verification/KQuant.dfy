/** K-quant blocks of 256 weights and their decoders. Bytes are bit-vectors, so masks and shifts are
    the program's own; every combined field fits eight bits, so widening to int changes nothing. */
module KQuant {

  /** Q4_K, Q5_K and Q6_K device blocks; the half-precision fields are given reals. */
  datatype Block =
    | Q4K(d: real, dmin: real, scales: seq<bv8>, qs: seq<bv8>)
    | Q5K(d: real, dmin: real, scales: seq<bv8>, qh: seq<bv8>, ql: seq<bv8>)
    | Q6K(low: seq<bv8>, high: seq<bv8>, signedScales: seq<int>, d: real)
  {
    predicate Valid() {
      match this
      case Q4K(_, _, s, q) => |s| == 12 && |q| == 128
      case Q5K(_, _, s, h, q) => |s| == 12 && |h| == 32 && |q| == 128
      case Q6K(l, h, s, _) => |l| == 128 && |h| == 64 && |s| == 16 && forall i :: 0 <= i < 16 ==> -128 <= s[i] < 128
    }
  }

  // ----- m12_dense_stage_bench.cpp -----

  function Q4Scale(scales: seq<bv8>, group: nat): (scale: bv8)
    requires |scales| == 12 && group < 8
  {
    if group < 4 then scales[group] & 63 else (scales[group + 4] & 0x0f) | ((scales[group - 4] >> 6) << 4)
  }

  function Q4Minimum(scales: seq<bv8>, group: nat): (minimum: bv8)
    requires |scales| == 12 && group < 8
  {
    if group < 4 then scales[group + 4] & 63 else (scales[group + 4] >> 4) | ((scales[group] >> 6) << 4)
  }

  /** The byte q4_value reads, and which of its nibbles. */
  function QByte(index: nat): (byte: nat)
    ensures index < 256 ==> byte < 128
  {
    (index / 64) * 32 + index % 32
  }

  function QPart(index: nat): (part: nat)
    ensures part < 2
  {
    (index / 32) % 2
  }

  /** The nibble q4_value multiplies by the scale. */
  function Q4Quant(qs: seq<bv8>, index: nat): (q: bv8)
    requires |qs| == 128 && index < 256
  {
    var packed := qs[QByte(index)];
    if QPart(index) == 0 then packed & 0x0f else packed >> 4
  }

  /** d * float(scale * quantized) */
  function Scaled(d: real, scale: int, quant: int): real { d * ((scale * quant) as real) }

  /** dmin * float(minimum) */
  function Lowered(dmin: real, minimum: int): real { dmin * (minimum as real) }

  function Dequantized(d: real, dmin: real, scale: bv8, minimum: bv8, q: bv8): real {
    Scaled(d, scale as int, q as int) - Lowered(dmin, minimum as int)
  }

  function Q4Value(b: Block, index: nat): real
    requires b.Q4K? && b.Valid() && index < 256
  {
    Dequantized(b.d, b.dmin, Q4Scale(b.scales, index / 32), Q4Minimum(b.scales, index / 32), Q4Quant(b.qs, index))
  }

  // ----- m24_projection_bakeoff.cpp -----

  /** The byte mx_affine_quant reads. */
  function MxByte(index: nat): nat {
    var group, inGroup := index / 32, index % 32;
    var pair, half, inHalf := group / 2, inGroup / 16, inGroup % 16;
    pair * 32 + (inHalf / 4) * 4 + (if half != 0 then 16 else 0) + inHalf % 4
  }

  lemma MxByteInRange(index: nat)
    requires index < 256
    ensures MxByte(index) == QByte(index) < 128
  {
    var inGroup := index % 32;
    assert inGroup == 16 * (inGroup / 16) + inGroup % 16;
    assert inGroup % 16 == 4 * (inGroup % 16 / 4) + inGroup % 16 % 4;
    assert index / 32 / 2 == index / 64;
  }

  /** mx_affine_quant: the low nibble, and for Q5_K one high bit. */
  function MxAffineQuant(b: Block, index: nat): (value: bv8)
    requires (b.Q4K? || b.Q5K?) && b.Valid() && index < 256
  {
    MxByteInRange(index);
    var group, inGroup := index / 32, index % 32;
    var pair, part := group / 2, group % 2;
    var half, inHalf := inGroup / 16, inGroup % 16;
    var low := if b.Q5K? then b.ql else b.qs;
    var value := (low[MxByte(index)] >> (4 * part)) & 0x0f;
    if b.Q5K? then
      value | (((b.qh[inHalf + if half != 0 then 16 else 0] >> (2 * pair + part)) & 1) << 4)
    else value
  }

  datatype ScaleMin = ScaleMin(scale: bv8, minimum: bv8)

  function MxScaleMin(scales: seq<bv8>, group: nat): (r: ScaleMin)
    requires |scales| == 12 && group < 8
  {
    if group < 4 then ScaleMin(scales[group] & 63, scales[group + 4] & 63)
    else ScaleMin((scales[group + 4] & 15) | ((scales[group - 4] >> 6) << 4),
                  (scales[group + 4] >> 4) | ((scales[group] >> 6) << 4))
  }

  function MxQ6Quant(low: seq<bv8>, high: seq<bv8>, index: nat): (q: int)
    requires |low| == 128 && |high| == 64 && index < 256
  {
    var halfBlock, lane := index / 128, index % 128;
    var quarter, inQuarter := lane / 32, lane % 32;
    var lowIndex := inQuarter + if quarter == 1 || quarter == 3 then 32 else 0;
    var ql, qh := low[halfBlock * 64 + lowIndex], high[halfBlock * 32 + inQuarter];
    var lowBits := if quarter < 2 then ql & 0x0f else ql >> 4;
    var highBits := (qh >> (2 * quarter)) & 3;
    ((lowBits | (highBits << 4)) as int) - 32
  }

  // ----- the decoders agree -----

  /** At every element of every Q4_K block the two decoders read the same nibble. */
  lemma QuantDecodersAgree(b: Block, index: nat)
    requires b.Q4K? && b.Valid() && index < 256
    ensures MxAffineQuant(b, index) == Q4Quant(b.qs, index)
  {
    MxByteInRange(index);
    NibbleShift(b.qs[MxByte(index)]);
  }

  lemma NibbleShift(packed: bv8)
    ensures (packed >> 0) & 0x0f == packed & 0x0f
    ensures (packed >> 4) & 0x0f == packed >> 4
  {}

  lemma ScaleDecodersAgree(scales: seq<bv8>, group: nat)
    requires |scales| == 12 && group < 8
    ensures MxScaleMin(scales, group) == ScaleMin(Q4Scale(scales, group), Q4Minimum(scales, group))
  {}

  /** Scales and minimums are six bits. */
  lemma ScaleIsSixBits(scales: seq<bv8>, group: nat)
    requires |scales| == 12 && group < 8
    ensures Q4Scale(scales, group) < 64 && Q4Minimum(scales, group) < 64
  {
    if group < 4 {
      SixBits(scales[group], scales[group + 4], 0);
      SixBits(scales[group + 4], scales[group + 4], 0);
    } else {
      SixBits(scales[group - 4], scales[group - 4], scales[group + 4]);
      SixBits(scales[group], scales[group], scales[group + 4]);
    }
  }

  lemma SixBits(a: bv8, b: bv8, c: bv8)
    ensures a & 63 < 64 && b & 63 < 64
    ensures (c & 15) | ((a >> 6) << 4) < 64 && (c >> 4) | ((b >> 6) << 4) < 64
  {}

  lemma NibbleIsFourBits(qs: seq<bv8>, index: nat)
    requires |qs| == 128 && index < 256
    ensures Q4Quant(qs, index) < 16
  {
    FourBits(qs[QByte(index)]);
  }

  lemma FourBits(a: bv8)
    ensures a & 0x0f < 16 && a >> 4 < 16
  {}

  // ----- the fields as integers -----

  /** Scales and minimums, six bits each, taken apart by division: the first four groups lie in the
      low bits of bytes 0 to 7, the last four in the nibbles of bytes 8 to 11 and the high bits. */
  lemma ScaleFields(scales: seq<bv8>, group: nat)
    requires |scales| == 12 && group < 8
    ensures Q4Scale(scales, group) as int
         == if group < 4 then scales[group] as int % 64
            else scales[group + 4] as int % 16 + 16 * (scales[group - 4] as int / 64)
    ensures Q4Minimum(scales, group) as int
         == if group < 4 then scales[group + 4] as int % 64
            else scales[group + 4] as int / 16 + 16 * (scales[group] as int / 64)
  {
    if group < 4 {
      LowSix(scales[group]);
      LowSix(scales[group + 4]);
    } else {
      var a := scales[group + 4];
      FourBits(a);
      NibbleFields(a);
      TopBits(scales[group - 4]);
      TopBits(scales[group]);
      JoinedBits(a & 0x0f, scales[group - 4] >> 6);
      JoinedBits(a >> 4, scales[group] >> 6);
    }
  }

  lemma LowSix(a: bv8)
    ensures (a & 63) as int == a as int % 64
  {}

  lemma TopBits(a: bv8)
    ensures a >> 6 < 4 && (a >> 6) as int == a as int / 64
  {}

  /** Joining disjoint bits is adding. */
  lemma JoinedBits(low: bv8, high: bv8)
    requires low < 16 && high < 4
    ensures (low | (high << 4)) as int == low as int + 16 * (high as int)
  {
    assert low | (high << 4) == low + 16 * high;
  }

  lemma NibbleFields(a: bv8)
    ensures (a & 0x0f) as int == a as int % 16 && (a >> 4) as int == a as int / 16
  {}

  /** Of the 64 elements that share 32 bytes the first 32 are the low nibbles. */
  lemma NibbleField(qs: seq<bv8>, index: nat)
    requires |qs| == 128 && index < 256
    ensures Q4Quant(qs, index) as int
         == if index % 64 < 32 then qs[index / 64 * 32 + index % 32] as int % 16
            else qs[index / 64 * 32 + index % 32] as int / 16
  {
    NibbleFields(qs[QByte(index)]);
  }

  // ----- Q5_K: four low bits and one high bit -----

  /** Element `index` is its nibble of the low bytes, decoded as in Q4_K, plus sixteen times bit
      index / 32 of high byte index % 32. */
  lemma Q5QuantIs(b: Block, index: nat)
    requires b.Q5K? && b.Valid() && index < 256
    ensures MxAffineQuant(b, index) == Q4Quant(b.ql, index) | (((b.qh[index % 32] >> (index / 32)) & 1) << 4)
    ensures MxAffineQuant(b, index) < 32
  {
    MxByteInRange(index);
    NibbleShift(b.ql[MxByte(index)]);
    NibbleIsFourBits(b.ql, index);
    var group, inGroup := index / 32, index % 32;
    assert inGroup % 16 + (if inGroup / 16 != 0 then 16 else 0) == inGroup;
    assert 2 * (group / 2) + group % 2 == group;
    FiveBits(Q4Quant(b.ql, index), b.qh[index % 32], index / 32);
  }

  lemma FiveBits(low: bv8, high: bv8, group: nat)
    requires low < 16 && group < 8
    ensures low | (((high >> group) & 1) << 4) < 32
  {
    var bit := (high >> group) & 1;
    assert bit < 2;
    OneBit(low, bit);
  }

  lemma OneBit(low: bv8, bit: bv8)
    requires low < 16 && bit < 2
    ensures low | (bit << 4) < 32
  {}
}
