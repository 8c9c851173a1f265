/** Expanding canonical Q4_K blocks to one byte a scale, a minimum and a nibble, and back. */
module KExpand {
  import opened KQuant

  datatype Expanded = Expanded(d: real, dmin: real, scales: seq<bv8>, minimums: seq<bv8>, qs: seq<bv8>)
  {
    /** Eight scales and minimums of six bits, 256 nibbles. */
    predicate Valid() {
      && |scales| == |minimums| == 8 && |qs| == 256
      && (forall g :: 0 <= g < 8 ==> scales[g] < 64 && minimums[g] < 64)
      && forall j :: 0 <= j < 256 ==> qs[j] < 16
    }
  }

  // ----- the permutation -----

  /** The element in nibble `part` of canonical byte `i`. */
  function ElementAt(i: nat, part: nat): nat { 64 * (i / 32) + 32 * part + i % 32 }

  /** The element whose nibble lands in expanded byte `j`. */
  function ElementOf(j: nat): nat { ElementAt(j / 2, j % 2) }

  /** Where element `index` lands. */
  function PlaceOf(index: nat): nat { 2 * QByte(index) + QPart(index) }

  lemma ElementDigits(a: nat, part: nat, b: nat, index: nat)
    requires part < 2 && b < 32 && index == 64 * a + 32 * part + b
    ensures index / 64 == a && index % 32 == b && (index / 32) % 2 == part
  {
    assert index / 32 == 2 * a + part;
  }

  lemma ElementAtInverts(i: nat, part: nat)
    requires i < 128 && part < 2
    ensures ElementAt(i, part) < 256 && QByte(ElementAt(i, part)) == i && QPart(ElementAt(i, part)) == part
  {
    ElementDigits(i / 32, part, i % 32, ElementAt(i, part));
  }

  lemma QByteInverts(index: nat)
    requires index < 256
    ensures ElementAt(QByte(index), QPart(index)) == index
  {
    var a, part, b := index / 64, (index / 32) % 2, index % 32;
    assert QByte(index) / 32 == a && QByte(index) % 32 == b;
    assert index == 32 * (index / 32) + b && index / 32 == 2 * (index / 64) + part;
  }

  /** The stated permutation is one: a bijection of 0..255. */
  lemma PlacesPermute(n: nat)
    requires n < 256
    ensures PlaceOf(n) < 256 && ElementOf(PlaceOf(n)) == n
    ensures ElementOf(n) < 256 && PlaceOf(ElementOf(n)) == n
  {
    hide ElementAt, QByte, QPart;
    QByteInverts(n);
    ElementAtInverts(n / 2, n % 2);
  }

  // ----- expansion -----

  /** What a faithful expansion is: each element's nibble, scale and minimum, under the permutation. */
  ghost predicate Expands(b: Block, e: Expanded)
    requires b.Q4K? && b.Valid()
  {
    && |e.scales| == |e.minimums| == 8 && |e.qs| == 256 && e.d == b.d && e.dmin == b.dmin
    && (forall g :: 0 <= g < 8 ==> e.scales[g] == Q4Scale(b.scales, g) && e.minimums[g] == Q4Minimum(b.scales, g))
    && forall index {:trigger PlaceOf(index)} :: 0 <= index < 256 ==>
      PlaceOf(index) < 256 && e.qs[PlaceOf(index)] == Q4Quant(b.qs, index)
  }

  /** The scale loop of one block. */
  method ExpandScales(src: seq<bv8>) returns (scales: array<bv8>, minimums: array<bv8>)
    requires |src| == 12
    ensures fresh(scales) && fresh(minimums) && scales.Length == minimums.Length == 8
    ensures forall g :: 0 <= g < 8 ==> scales[g] == Q4Scale(src, g) && minimums[g] == Q4Minimum(src, g)
  {
    scales, minimums := new bv8[8], new bv8[8];
    for g := 0 to 8
      invariant forall h :: 0 <= h < g ==> scales[h] == Q4Scale(src, h) && minimums[h] == Q4Minimum(src, h)
    {
      scales[g] := if g < 4 then src[g] & 63 else (src[g + 4] & 15) | ((src[g - 4] >> 6) << 4);
      minimums[g] := if g < 4 then src[g + 4] & 63 else (src[g + 4] >> 4) | ((src[g] >> 6) << 4);
    }
  }

  /** The nibble loop of one block. */
  method ExpandNibbles(src: seq<bv8>) returns (qs: array<bv8>)
    requires |src| == 128
    ensures fresh(qs) && qs.Length == 256
    ensures forall i :: 0 <= i < 128 ==> qs[2 * i] == src[i] & 15 && qs[2 * i + 1] == src[i] >> 4
  {
    qs := new bv8[256];
    for i := 0 to 128
      invariant forall h :: 0 <= h < i ==> qs[2 * h] == src[h] & 15 && qs[2 * h + 1] == src[h] >> 4
    {
      qs[2 * i] := src[i] & 15;
      qs[2 * i + 1] := src[i] >> 4;
    }
  }

  method ExpandBlock(b: Block) returns (e: Expanded)
    requires b.Q4K? && b.Valid()
    ensures Expands(b, e)
  {
    hide QByte, QPart, Q4Scale, Q4Minimum;
    var scales, minimums := ExpandScales(b.scales);
    var qs := ExpandNibbles(b.qs);
    e := Expanded(b.d, b.dmin, scales[..], minimums[..], qs[..]);
    forall index {:trigger PlaceOf(index)} | 0 <= index < 256
      ensures PlaceOf(index) < 256 && e.qs[PlaceOf(index)] == Q4Quant(b.qs, index)
    {
      var i := QByte(index);
      assert qs[2 * i] == b.qs[i] & 15 && qs[2 * i + 1] == b.qs[i] >> 4;
    }
  }

  /** The whole tensor. */
  method ExpandAll(source: seq<Block>) returns (expanded: array<Expanded>)
    requires forall b :: 0 <= b < |source| ==> source[b].Q4K? && source[b].Valid()
    ensures expanded.Length == |source| && forall b :: 0 <= b < |source| ==> Expands(source[b], expanded[b])
  {
    expanded := new Expanded[|source|](i => Expanded(0.0, 0.0, [], [], []));
    for b := 0 to |source|
      invariant forall c :: 0 <= c < b ==> Expands(source[c], expanded[c])
    {
      expanded[b] := ExpandBlock(source[b]);
    }
  }

  // ----- decoding the expanded layout -----

  function ExpandedValue(e: Expanded, index: nat): real
    requires |e.scales| == |e.minimums| == 8 && |e.qs| == 256 && index < 256
  {
    PlacesPermute(index);
    Dequantized(e.d, e.dmin, e.scales[index / 32], e.minimums[index / 32], e.qs[PlaceOf(index)])
  }

  /** Expansion preserves the value of every weight. */
  lemma ExpansionKeepsValues(b: Block, e: Expanded, index: nat)
    requires b.Q4K? && b.Valid() && Expands(b, e) && index < 256
    ensures ExpandedValue(e, index) == Q4Value(b, index)
  {
    hide Q4Scale, Q4Minimum, Q4Quant, QByte, QPart, Dequantized;
    PlacesPermute(index);
    var g := index / 32;
    assert e.scales[g] == Q4Scale(b.scales, g) && e.minimums[g] == Q4Minimum(b.scales, g);
  }

  /** ... and agrees with the other decoder at every element. */
  lemma ExpansionMatchesMx(b: Block, e: Expanded, index: nat)
    requires b.Q4K? && b.Valid() && Expands(b, e) && index < 256
    ensures PlaceOf(index) < 256 && e.qs[PlaceOf(index)] == MxAffineQuant(b, index)
    ensures MxScaleMin(b.scales, index / 32) == ScaleMin(e.scales[index / 32], e.minimums[index / 32])
  {
    hide Q4Quant, Q4Scale, Q4Minimum, QByte, QPart, MxAffineQuant, MxScaleMin;
    QuantDecodersAgree(b, index);
    ScaleDecodersAgree(b.scales, index / 32);
    PlacesPermute(index);
  }

  /** The permutation read from the other side. */
  lemma ExpandedByte(b: Block, e: Expanded, j: nat)
    requires b.Q4K? && b.Valid() && Expands(b, e) && j < 256
    ensures ElementOf(j) < 256 && e.qs[j] == Q4Quant(b.qs, ElementOf(j))
  {
    hide ElementOf, Q4Quant, Q4Scale, Q4Minimum;
    PlacesPermute(j);
    assert PlaceOf(ElementOf(j)) == j;
  }

  lemma ExpansionIsValid(b: Block, e: Expanded)
    requires b.Q4K? && b.Valid() && Expands(b, e)
    ensures e.Valid()
  {
    forall g | 0 <= g < 8 ensures e.scales[g] < 64 && e.minimums[g] < 64 { ScaleIsSixBits(b.scales, g); }
    forall j | 0 <= j < 256 ensures e.qs[j] < 16 {
      ExpandedByte(b, e, j);
      NibbleIsFourBits(b.qs, ElementOf(j));
    }
  }

  // ----- nothing is lost -----

  /** The packed scale byte `i` rebuilt from the expanded scales and minimums. */
  function PackedScale(e: Expanded, i: nat): bv8
    requires |e.scales| == |e.minimums| == 8 && i < 12
  {
    if i < 4 then e.scales[i] | ((e.scales[i + 4] >> 4) << 6)
    else if i < 8 then e.minimums[i - 4] | ((e.minimums[i] >> 4) << 6)
    else (e.scales[i - 4] & 15) | ((e.minimums[i - 4] & 15) << 4)
  }

  function PackedByte(e: Expanded, i: nat): bv8
    requires |e.qs| == 256 && i < 128
  {
    e.qs[2 * i] | (e.qs[2 * i + 1] << 4)
  }

  function Contract(e: Expanded): (b: Block)
    requires |e.scales| == |e.minimums| == 8 && |e.qs| == 256
    ensures b.Q4K? && b.Valid()
  {
    Q4K(e.d, e.dmin, seq(12, i requires 0 <= i < 12 => PackedScale(e, i)),
        seq(128, i requires 0 <= i < 128 => PackedByte(e, i)))
  }

  lemma ScaleByteRebuilds(a: bv8, x: bv8)
    ensures (a & 63) | ((((x & 15) | ((a >> 6) << 4)) >> 4) << 6) == a
    ensures (a & 63) | ((((x >> 4) | ((a >> 6) << 4)) >> 4) << 6) == a
  {}

  lemma SplitByteRebuilds(x: bv8, a: bv8, b: bv8)
    ensures (((x & 15) | ((a >> 6) << 4)) & 15) | ((((x >> 4) | ((b >> 6) << 4)) & 15) << 4) == x
  {}

  lemma NibblesRebuild(x: bv8)
    ensures (x & 15) | ((x >> 4) << 4) == x
  {}

  lemma PackedLow(s: seq<bv8>, i: nat)
    requires |s| == 12 && i < 4
    ensures Q4Scale(s, i) | ((Q4Scale(s, i + 4) >> 4) << 6) == s[i]
    ensures Q4Minimum(s, i) | ((Q4Minimum(s, i + 4) >> 4) << 6) == s[i + 4]
  {
    ScaleByteRebuilds(s[i], s[i + 8]);
    ScaleByteRebuilds(s[i + 4], s[i + 8]);
  }

  lemma PackedHigh(s: seq<bv8>, i: nat)
    requires |s| == 12 && i < 4
    ensures (Q4Scale(s, i + 4) & 15) | ((Q4Minimum(s, i + 4) & 15) << 4) == s[i + 8]
  {
    SplitByteRebuilds(s[i + 8], s[i], s[i + 4]);
  }

  lemma PackedScaleIs(b: Block, e: Expanded, i: nat)
    requires b.Q4K? && b.Valid() && Expands(b, e) && i < 12
    ensures PackedScale(e, i) == b.scales[i]
  {
    hide Q4Scale, Q4Minimum, Q4Quant;
    var h := if i < 4 then i else if i < 8 then i - 4 else i - 8;
    ExpandedGroups(b, e, h);
    hide Expands;
    PackedLow(b.scales, h);
    PackedHigh(b.scales, h);
  }

  lemma ExpandedGroups(b: Block, e: Expanded, h: nat)
    requires b.Q4K? && b.Valid() && Expands(b, e) && h < 4
    ensures |e.scales| == |e.minimums| == 8
    ensures e.scales[h] == Q4Scale(b.scales, h) && e.scales[h + 4] == Q4Scale(b.scales, h + 4)
    ensures e.minimums[h] == Q4Minimum(b.scales, h) && e.minimums[h + 4] == Q4Minimum(b.scales, h + 4)
  {
    hide Q4Scale, Q4Minimum, Q4Quant;
  }

  lemma PackedNibbleIs(b: Block, e: Expanded, i: nat)
    requires b.Q4K? && b.Valid() && Expands(b, e) && i < 128
    ensures PackedByte(e, i) == b.qs[i]
  {
    hide ElementAt, QByte, QPart, Q4Scale, Q4Minimum;
    ExpandedByte(b, e, 2 * i);
    ExpandedByte(b, e, 2 * i + 1);
    ElementAtInverts(i, 0);
    ElementAtInverts(i, 1);
    NibblesRebuild(b.qs[i]);
  }

  /** Expansion is lossless: packing the expanded block gives the canonical block back. */
  lemma ContractExpand(b: Block, e: Expanded)
    requires b.Q4K? && b.Valid() && Expands(b, e)
    ensures Contract(e) == b
  {
    hide Q4Scale, Q4Minimum, Q4Quant, Expands, PackedScale, PackedByte;
    Lengths(b, e);
    forall i | 0 <= i < 12 ensures PackedScale(e, i) == b.scales[i] { PackedScaleIs(b, e, i); }
    forall i | 0 <= i < 128 ensures PackedByte(e, i) == b.qs[i] { PackedNibbleIs(b, e, i); }
    var c := Contract(e);
    assert c.scales == b.scales && c.qs == b.qs;
  }

  lemma Lengths(b: Block, e: Expanded)
    requires b.Q4K? && b.Valid() && Expands(b, e)
    ensures |e.scales| == |e.minimums| == 8 && |e.qs| == 256 && e.d == b.d && e.dmin == b.dmin
  {}

  /** Two different canonical blocks never expand to the same block. */
  lemma ExpansionIsInjective(b: Block, b': Block, e: Expanded)
    requires b.Q4K? && b.Valid() && b'.Q4K? && b'.Valid() && Expands(b, e) && Expands(b', e)
    ensures b == b'
  {
    ContractExpand(b, e);
    ContractExpand(b', e);
  }

  lemma SixBitsSplit(a: bv8, b: bv8)
    requires a < 64 && b < 64
    ensures (a | ((b >> 4) << 6)) & 63 == a && (a | ((b >> 4) << 6)) >> 6 == b >> 4
  {}

  lemma NibblesSplit(a: bv8, b: bv8)
    ensures ((a & 15) | ((b & 15) << 4)) & 15 == a & 15 && ((a & 15) | ((b & 15) << 4)) >> 4 == b & 15
    ensures (a & 15) | ((a >> 4) << 4) == a
  {}

  lemma NibblePair(a: bv8, b: bv8)
    requires a < 16 && b < 16
    ensures (a | (b << 4)) & 0x0f == a && (a | (b << 4)) >> 4 == b
  {}

  /** Every expanded block with six-bit scales and four-bit nibbles is an expansion. */
  lemma ExpandContract(e: Expanded)
    requires e.Valid()
    ensures Expands(Contract(e), e)
  {
    hide QByte, QPart, Q4Scale, Q4Minimum, PackedScale;
    var b := Contract(e);
    forall g | 0 <= g < 8 ensures e.scales[g] == Q4Scale(b.scales, g) && e.minimums[g] == Q4Minimum(b.scales, g) {
      ContractedScale(e, g);
    }
    forall index {:trigger PlaceOf(index)} | 0 <= index < 256
      ensures PlaceOf(index) < 256 && e.qs[PlaceOf(index)] == Q4Quant(b.qs, index)
    {
      var i := QByte(index);
      assert b.qs[i] == PackedByte(e, i);
      NibblePair(e.qs[2 * i], e.qs[2 * i + 1]);
    }
  }

  lemma ContractedScale(e: Expanded, g: nat)
    requires e.Valid() && g < 8
    ensures var s := Contract(e).scales; e.scales[g] == Q4Scale(s, g) && e.minimums[g] == Q4Minimum(s, g)
  {
    var s := Contract(e).scales;
    var h := if g < 4 then g else g - 4;
    assert s[h] == PackedScale(e, h) && s[h + 4] == PackedScale(e, h + 4) && s[h + 8] == PackedScale(e, h + 8);
    SixBitsSplit(e.scales[h], e.scales[h + 4]);
    SixBitsSplit(e.minimums[h], e.minimums[h + 4]);
    NibblesSplit(e.scales[h + 4], e.minimums[h + 4]);
    NibblesSplit(e.minimums[h + 4], e.minimums[h + 4]);
  }
}
