/** What the hand-unrolled quad and RGB rules compute. The bits of the
    three input cells are laid out in a row of 3k binary cells, the binary
    rule is applied k times over a shrinking window (a triangular reduction,
    with no wraparound) and the k surviving centre bits form the output
    cell. The lemmas here prove the unrolled rules equal to this generic
    lifting, for any binary rule. */
module Lifting {
  import opened Cells
  import opened Rules
  import opened Triangles

  /** A binary-cell rule applied to three bits: wrap each bit in a binary
      cell, apply the rule, read the state back. */
  function ApplyBits(rule: BinaryRule, l: bool, m: bool, r: bool): bool
  {
    rule(Binary(l), Binary(m), Binary(r)).state
  }

  /** One generation of the local reduction: each consecutive triple of `s`
      yields one bit, so the row loses one cell at each end. */
  function Step(rule: BinaryRule, s: seq<bool>): (t: seq<bool>)
    requires |s| >= 2
    ensures |t| == |s| - 2
    ensures forall i :: 0 <= i < |t| ==> t[i] == ApplyBits(rule, s[i], s[i + 1], s[i + 2])
    decreases |s|
  {
    if |s| == 2 then [] else [ApplyBits(rule, s[0], s[1], s[2])] + Step(rule, s[1..])
  }

  /** k generations of the triangular reduction. */
  function Reduce(rule: BinaryRule, s: seq<bool>, k: nat): (t: seq<bool>)
    requires |s| >= 2 * k
    ensures |t| == |s| - 2 * k
    decreases k
  {
    if k == 0 then s else Reduce(rule, Step(rule, s), k - 1)
  }

  /** Bits as binary cells. */
  function AsCells(s: seq<bool>): (g: seq<BinaryCell>)
  {
    seq(|s|, i requires 0 <= i < |s| => Binary(s[i]))
  }

  /** A triangle of height k over one reduction step is the triangle of
      height k + 1 over the original bits. */
  lemma {:induction false} TriangleStep(rule: BinaryRule, s: seq<bool>, k: nat, i: nat)
    requires i + 2 * k + 2 < |s|
    ensures Triangle(rule, AsCells(Step(rule, s)), k, i) == Triangle(rule, AsCells(s), k + 1, i)
    decreases k
  {
    if k == 0 {
      var c := rule(Binary(s[i]), Binary(s[i + 1]), Binary(s[i + 2]));
      assert AsCells(Step(rule, s))[i] == Binary(c.state) == c;
    } else {
      TriangleStep(rule, s, k - 1, i);
      TriangleStep(rule, s, k - 1, i + 1);
      TriangleStep(rule, s, k - 1, i + 2);
    }
  }

  /** Each bit that survives k generations of the reduction is the apex of
      the triangle of height k above it. */
  lemma {:induction false} ReduceAt(rule: BinaryRule, s: seq<bool>, k: nat, i: nat)
    requires i + 2 * k < |s|
    ensures Binary(Reduce(rule, s, k)[i]) == Triangle(rule, AsCells(s), k, i)
    decreases k
  {
    if k > 0 {
      ReduceAt(rule, Step(rule, s), k - 1, i);
      TriangleStep(rule, s, k - 1, i);
    }
  }

  /** The generic lifted rule for k-bit cells given as bit sequences: lay out
      the 3k bits and reduce k times with the same rule, leaving k centre
      bits. */
  function LiftedRule(rule: BinaryRule, k: nat, l: seq<bool>, m: seq<bool>, r: seq<bool>): (t: seq<bool>)
    requires |l| == |m| == |r| == k
    ensures |t| == k
  {
    Reduce(rule, l + m + r, k)
  }

  /** With one bit per cell the lifted rule is the elementary rule itself. */
  lemma SingleBitLiftIsElementary(n: RuleNumber, l: bool, m: bool, r: bool)
    ensures LiftedRule(CreateBinaryRule(n), 1, [l], [m], [r]) == [Elementary(n, l, m, r)]
  {
    var rule := CreateBinaryRule(n);
    assert LiftedRule(rule, 1, [l], [m], [r]) == Step(rule, [l, m, r]);
  }

  /** The bits of a quad cell in declaration order. */
  function QuadBits(c: QuadCell): (bits: seq<bool>)
    ensures |bits| == 2
  {
    [c.g, c.rb]
  }

  /** The bits of an RGB cell in declaration order. */
  function RgbBits(c: RgbCell): (bits: seq<bool>)
    ensures |bits| == 3
  {
    [c.r, c.g, c.b]
  }

  /** Three quad cells laid out as six binary cells. */
  lemma QuadLayout(l: QuadCell, m: QuadCell, r: QuadCell)
    ensures var g := AsCells(QuadBits(l) + QuadBits(m) + QuadBits(r));
      |g| == 6 &&
      g[0] == Binary(l.g) && g[1] == Binary(l.rb) && g[2] == Binary(m.g) &&
      g[3] == Binary(m.rb) && g[4] == Binary(r.g) && g[5] == Binary(r.rb)
  {
  }

  /** Three RGB cells laid out as nine binary cells. */
  lemma RgbLayout(l: RgbCell, m: RgbCell, r: RgbCell)
    ensures var g := AsCells(RgbBits(l) + RgbBits(m) + RgbBits(r));
      |g| == 9 &&
      g[0] == Binary(l.r) && g[1] == Binary(l.g) && g[2] == Binary(l.b) &&
      g[3] == Binary(m.r) && g[4] == Binary(m.g) && g[5] == Binary(m.b) &&
      g[6] == Binary(r.r) && g[7] == Binary(r.g) && g[8] == Binary(r.b)
  {
  }

  /** The hand-unrolled quad rule is the generic lifted rule with k = 2,
      whatever the binary rule it is built around. */
  lemma QuadRuleIsLifted(rule: BinaryRule, l: QuadCell, m: QuadCell, r: QuadCell)
    ensures var t := LiftedRule(rule, 2, QuadBits(l), QuadBits(m), QuadBits(r));
      QuadRuleOf(rule, l, m, r) == Quad(t[0], t[1])
  {
    var s := QuadBits(l) + QuadBits(m) + QuadBits(r);
    QuadLayout(l, m, r);
    QuadRuleIsTriangle(rule, l, m, r, AsCells(s));
    ReduceAt(rule, s, 2, 0);
    ReduceAt(rule, s, 2, 1);
  }

  /** The hand-unrolled RGB rule is the generic lifted rule with k = 3,
      whatever the binary rule it is built around. */
  lemma RgbRuleIsLifted(rule: BinaryRule, l: RgbCell, m: RgbCell, r: RgbCell)
    ensures var t := LiftedRule(rule, 3, RgbBits(l), RgbBits(m), RgbBits(r));
      RgbRuleOf(rule, l, m, r) == Rgb(t[0], t[1], t[2])
  {
    var s := RgbBits(l) + RgbBits(m) + RgbBits(r);
    RgbLayout(l, m, r);
    RgbRuleIsTriangle(rule, l, m, r, AsCells(s));
    ReduceAt(rule, s, 3, 0);
    ReduceAt(rule, s, 3, 1);
    ReduceAt(rule, s, 3, 2);
  }
}
