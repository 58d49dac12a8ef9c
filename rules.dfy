/** The rule engine: an integer rule number becomes a local transition
    function (left, middle, right) -> new middle.

    The elementary rule for binary cells builds a one-bit mask by composing
    left shifts (by 1 for the left cell, 2 for the middle, 4 for the right)
    and tests that bit of the rule number. The mask index is l + 2m + 4r:
    the mirror image of the textbook elementary-automaton numbering, which
    indexes by 4l + 2m + r. The model keeps the generator's order.

    The rules for quad and RGB cells are written out by hand around a binary
    rule; module Lifting states what they compute. */
module Rules {
  import opened Cells

  /** The rule number is a 32-bit integer, as in the generator. */
  type RuleNumber = bv32

  /** Reads a 32-bit pattern as a two's-complement integer. */
  function ToSigned(x: bv32): (v: int)
    ensures -0x8000_0000 <= v < 0x8000_0000
    ensures v > 0 <==> x != 0 && x & 0x8000_0000 == 0
  {
    if x < 0x8000_0000 then x as int else x as int - 0x1_0000_0000
  }

  /** The index of the rule-number bit selected by a neighbourhood. */
  function MaskIndex(l: bool, m: bool, r: bool): (k: nat)
    ensures k < 8
  {
    (if l then 1 else 0) + (if m then 2 else 0) + (if r then 4 else 0)
  }

  /** The mask, built as the generator builds it: start from 1 and shift it
      left by 1, then by 2, then by 4, each shift applied to the result of
      the previous ones. The composition is a single bit, 2^(l + 2m + 4r). */
  function BitMask(l: bool, m: bool, r: bool): (mask: bv32)
    ensures mask == 1 << MaskIndex(l, m, r)
    ensures 1 <= mask <= 128
    ensures mask & (mask - 1) == 0
  {
    var mask0: bv32 := 1;
    var mask1 := if l then mask0 << 1 else mask0;
    var mask2 := if m then mask1 << 2 else mask1;
    if r then mask2 << 4 else mask2
  }

  /** The elementary rule on bits: the signed test `(ruleNumber and mask) > 0`.
      It holds exactly when bit l + 2m + 4r of the rule number is set. */
  function Elementary(n: RuleNumber, l: bool, m: bool, r: bool): (on: bool)
    ensures on <==> (n >> MaskIndex(l, m, r)) & 1 == 1
  {
    var mask := BitMask(l, m, r);
    assert n & mask != 0 <==> (n >> MaskIndex(l, m, r)) & 1 == 1;
    assert (n & mask) & 0x8000_0000 == 0;
    ToSigned(n & mask) > 0
  }

  /** A local rule on binary cells, (left, middle, right) -> new middle. */
  type BinaryRule = (BinaryCell, BinaryCell, BinaryCell) -> BinaryCell

  /** The elementary rule for a rule number, as a closure over binary cells:
      the new middle cell is on exactly when bit l + 2m + 4r of the rule
      number is set. */
  function CreateBinaryRule(n: RuleNumber): (rule: BinaryRule)
    ensures forall l: BinaryCell, m: BinaryCell, r: BinaryCell ::
      rule(l, m, r) == Binary((n >> MaskIndex(l.state, m.state, r.state)) & 1 == 1)
  {
    (l: BinaryCell, m: BinaryCell, r: BinaryCell) => Binary(Elementary(n, l.state, m.state, r.state))
  }

  /** The textbook elementary-automaton rule, indexed by 4l + 2m + r. */
  function TextbookRule(n: RuleNumber, l: bool, m: bool, r: bool): bool
  {
    var k := (if l then 4 else 0) + (if m then 2 else 0) + (if r then 1 else 0);
    (n >> k) & 1 == 1
  }

  /** The generator's rule is the textbook rule with the neighbourhood
      mirrored (left and right exchanged). */
  lemma ElementaryIsMirroredTextbook(n: RuleNumber, l: bool, m: bool, r: bool)
    ensures Elementary(n, l, m, r) == TextbookRule(n, r, m, l)
  {
  }

  /** Rule 2 tells the two numberings apart: the textbook rule 2 maps
      (false, false, true) to true, the generator's rule 2 maps it to false. */
  lemma ElementaryDiffersFromTextbook()
    ensures !Elementary(2, false, false, true)
    ensures TextbookRule(2, false, false, true)
  {
  }

  /** Only the low eight bits of the rule number matter; no range check is
      made, so out-of-range numbers are silently well defined. */
  lemma ElementaryLowByteOnly(n: RuleNumber, l: bool, m: bool, r: bool)
    ensures Elementary(n, l, m, r) == Elementary(n & 0xFF, l, m, r)
  {
    var k := MaskIndex(l, m, r);
    assert (n >> k) & 1 == ((n & 0xFF) >> k) & 1 by {
      assert k < 8;
    }
  }

  /** Rule 256, which a draw from 0..256 can produce, behaves as rule 0:
      every neighbourhood dies. */
  lemma Rule256IsRule0(l: bool, m: bool, r: bool)
    ensures Elementary(256, l, m, r) == Elementary(0, l, m, r) == false
  {
    ElementaryLowByteOnly(256, l, m, r);
  }

  /** Rule 102 = 0b01100110 on two neighbourhoods: with no shift the mask is 1
      and bit 0 of 102 is clear; shifting once for the left cell gives mask 2,
      and bit 1 of 102 is set. */
  lemma Rule102Examples()
    ensures BitMask(false, false, false) == 1 && !Elementary(102, false, false, false)
    ensures BitMask(true, false, false) == 2 && Elementary(102, true, false, false)
  {
    var n: RuleNumber := 102;
    assert BitMask(false, false, false) == 1;
    assert n & 1 == 0;
    assert BitMask(true, false, false) == 2;
    assert n & 2 == 2;
  }

  /** The quad rule as the generator writes it out around a binary rule:
      six binary cells in generation 0, four in generation 1, two in
      generation 2. */
  function QuadRuleOf(binaryRule: BinaryRule, l: QuadCell, m: QuadCell, r: QuadCell): QuadCell
  {
    var g0c1 := Binary(l.g);
    var g0c2 := Binary(l.rb);
    var g0c3 := Binary(m.g);
    var g0c4 := Binary(m.rb);
    var g0c5 := Binary(r.g);
    var g0c6 := Binary(r.rb);
    var g1c2 := binaryRule(g0c1, g0c2, g0c3);
    var g1c3 := binaryRule(g0c2, g0c3, g0c4);
    var g1c4 := binaryRule(g0c3, g0c4, g0c5);
    var g1c5 := binaryRule(g0c4, g0c5, g0c6);
    var g2c3 := binaryRule(g1c2, g1c3, g1c4);
    var g2c4 := binaryRule(g1c3, g1c4, g1c5);
    Quad(g2c3.state, g2c4.state)
  }

  /** The RGB rule as the generator writes it out around a binary rule:
      nine binary cells in generation 0, then seven, five and three. */
  function RgbRuleOf(binaryRule: BinaryRule, l: RgbCell, m: RgbCell, r: RgbCell): RgbCell
  {
    var g0c1 := Binary(l.r);
    var g0c2 := Binary(l.g);
    var g0c3 := Binary(l.b);
    var g0c4 := Binary(m.r);
    var g0c5 := Binary(m.g);
    var g0c6 := Binary(m.b);
    var g0c7 := Binary(r.r);
    var g0c8 := Binary(r.g);
    var g0c9 := Binary(r.b);
    var g1c2 := binaryRule(g0c1, g0c2, g0c3);
    var g1c3 := binaryRule(g0c2, g0c3, g0c4);
    var g1c4 := binaryRule(g0c3, g0c4, g0c5);
    var g1c5 := binaryRule(g0c4, g0c5, g0c6);
    var g1c6 := binaryRule(g0c5, g0c6, g0c7);
    var g1c7 := binaryRule(g0c6, g0c7, g0c8);
    var g1c8 := binaryRule(g0c7, g0c8, g0c9);
    var g2c3 := binaryRule(g1c2, g1c3, g1c4);
    var g2c4 := binaryRule(g1c3, g1c4, g1c5);
    var g2c5 := binaryRule(g1c4, g1c5, g1c6);
    var g2c6 := binaryRule(g1c5, g1c6, g1c7);
    var g2c7 := binaryRule(g1c6, g1c7, g1c8);
    var g3c4 := binaryRule(g2c3, g2c4, g2c5);
    var g3c5 := binaryRule(g2c4, g2c5, g2c6);
    var g3c6 := binaryRule(g2c5, g2c6, g2c7);
    Rgb(g3c4.state, g3c5.state, g3c6.state)
  }

  /** The quad rule for a rule number. */
  function CreateQuadRule(n: RuleNumber): (QuadCell, QuadCell, QuadCell) -> QuadCell
  {
    var binaryRule := CreateBinaryRule(n);
    (l: QuadCell, m: QuadCell, r: QuadCell) => QuadRuleOf(binaryRule, l, m, r)
  }

  /** The RGB rule for a rule number. */
  function CreateRgbRule(n: RuleNumber): (RgbCell, RgbCell, RgbCell) -> RgbCell
  {
    var binaryRule := CreateBinaryRule(n);
    (l: RgbCell, m: RgbCell, r: RgbCell) => RgbRuleOf(binaryRule, l, m, r)
  }

  /** Rule 0 gives false and rule 255 gives true for every neighbourhood. */
  lemma ConstantRules(l: bool, m: bool, r: bool)
    ensures !Elementary(0, l, m, r)
    ensures Elementary(255, l, m, r)
  {
  }

  /** Rule 0 maps every neighbourhood to the off cell and rule 255 to the
      on cell. */
  lemma ConstantBinaryRules()
    ensures forall l: BinaryCell, m: BinaryCell, r: BinaryCell :: CreateBinaryRule(0)(l, m, r) == Binary(false)
    ensures forall l: BinaryCell, m: BinaryCell, r: BinaryCell :: CreateBinaryRule(255)(l, m, r) == Binary(true)
  {
    forall l: BinaryCell, m: BinaryCell, r: BinaryCell
      ensures CreateBinaryRule(0)(l, m, r) == Binary(false)
      ensures CreateBinaryRule(255)(l, m, r) == Binary(true)
    {
      ConstantRules(l.state, m.state, r.state);
    }
  }

  /** Around a binary rule with a constant result the unrolled quad rule
      is constant too. */
  lemma QuadRuleOfConstant(rule: BinaryRule, v: bool, l: QuadCell, m: QuadCell, r: QuadCell)
    requires forall a: BinaryCell, b: BinaryCell, c: BinaryCell :: rule(a, b, c) == Binary(v)
    ensures QuadRuleOf(rule, l, m, r) == Quad(v, v)
  {
  }

  /** Around a binary rule with a constant result the unrolled RGB rule is
      constant too. */
  lemma RgbRuleOfConstant(rule: BinaryRule, v: bool, l: RgbCell, m: RgbCell, r: RgbCell)
    requires forall a: BinaryCell, b: BinaryCell, c: BinaryCell :: rule(a, b, c) == Binary(v)
    ensures RgbRuleOf(rule, l, m, r) == Rgb(v, v, v)
  {
  }

  /** Rule 0 turns every quad cell off and rule 255 turns every quad cell
      to all-true (yellow). */
  lemma QuadRuleConstants(l: QuadCell, m: QuadCell, r: QuadCell)
    ensures CreateQuadRule(0)(l, m, r) == Quad(false, false)
    ensures CreateQuadRule(255)(l, m, r) == Quad(true, true)
  {
    ConstantBinaryRules();
    QuadRuleOfConstant(CreateBinaryRule(0), false, l, m, r);
    QuadRuleOfConstant(CreateBinaryRule(255), true, l, m, r);
  }

  /** Rule 0 turns every RGB cell black and rule 255 turns every RGB cell
      white. */
  lemma RgbRuleConstants(l: RgbCell, m: RgbCell, r: RgbCell)
    ensures CreateRgbRule(0)(l, m, r) == Rgb(false, false, false)
    ensures CreateRgbRule(255)(l, m, r) == Rgb(true, true, true)
  {
    ConstantBinaryRules();
    RgbRuleOfConstant(CreateBinaryRule(0), false, l, m, r);
    RgbRuleOfConstant(CreateBinaryRule(255), true, l, m, r);
  }
}
