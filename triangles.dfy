/** The triangle of nested binary-rule applications that the generator's
    hand-unrolled quad and RGB rules compute, one cell at a time. */
module Triangles {
  import opened Cells
  import opened Rules

  /** The cell at position i after k generations, computed from the
      triangle of cells i .. i + 2k above it by nested rule applications,
      as the generator's unrolled rules compute it. */
  function Triangle(rule: BinaryRule, g: seq<BinaryCell>, k: nat, i: nat): BinaryCell
    requires i + 2 * k < |g|
  {
    if k == 0 then g[i]
    else rule(Triangle(rule, g, k - 1, i), Triangle(rule, g, k - 1, i + 1), Triangle(rule, g, k - 1, i + 2))
  }

  /** A triangle of height 2 written out as nested rule applications. */
  lemma TriangleTwo(rule: BinaryRule, g: seq<BinaryCell>, i: nat)
    requires i + 4 < |g|
    ensures Triangle(rule, g, 2, i) ==
      rule(rule(g[i], g[i + 1], g[i + 2]), rule(g[i + 1], g[i + 2], g[i + 3]), rule(g[i + 2], g[i + 3], g[i + 4]))
  {
    assert Triangle(rule, g, 1, i) == rule(g[i], g[i + 1], g[i + 2]);
    assert Triangle(rule, g, 1, i + 1) == rule(g[i + 1], g[i + 2], g[i + 3]);
    assert Triangle(rule, g, 1, i + 2) == rule(g[i + 2], g[i + 3], g[i + 4]);
  }

  /** The three apexes of the triangles of height 3 over nine cells,
      written out generation by generation. */
  lemma TriangleNine(rule: BinaryRule, g: seq<BinaryCell>)
    requires |g| == 9
    ensures var u0, u1, u2, u3, u4, u5, u6 :=
      rule(g[0], g[1], g[2]), rule(g[1], g[2], g[3]), rule(g[2], g[3], g[4]), rule(g[3], g[4], g[5]),
      rule(g[4], g[5], g[6]), rule(g[5], g[6], g[7]), rule(g[6], g[7], g[8]);
      var v0, v1, v2, v3, v4 :=
      rule(u0, u1, u2), rule(u1, u2, u3), rule(u2, u3, u4), rule(u3, u4, u5), rule(u4, u5, u6);
      Triangle(rule, g, 3, 0) == rule(v0, v1, v2) && Triangle(rule, g, 3, 1) == rule(v1, v2, v3) &&
      Triangle(rule, g, 3, 2) == rule(v2, v3, v4)
  {
    TriangleTwo(rule, g, 0);
    TriangleTwo(rule, g, 1);
    TriangleTwo(rule, g, 2);
    TriangleTwo(rule, g, 3);
    TriangleTwo(rule, g, 4);
  }

  /** The hand-unrolled quad rule reads its two output bits off the apexes
      of the triangles of height 2 over the six laid-out cells g. */
  lemma QuadRuleIsTriangle(rule: BinaryRule, l: QuadCell, m: QuadCell, r: QuadCell, g: seq<BinaryCell>)
    requires |g| == 6
    requires g[0] == Binary(l.g) && g[1] == Binary(l.rb) && g[2] == Binary(m.g) &&
             g[3] == Binary(m.rb) && g[4] == Binary(r.g) && g[5] == Binary(r.rb)
    ensures QuadRuleOf(rule, l, m, r) == Quad(Triangle(rule, g, 2, 0).state, Triangle(rule, g, 2, 1).state)
  {
    TriangleTwo(rule, g, 0);
    TriangleTwo(rule, g, 1);
  }

  /** The hand-unrolled RGB rule reads its three output bits off the apexes
      of the triangles of height 3 over the nine laid-out cells g. */
  lemma RgbRuleIsTriangle(rule: BinaryRule, l: RgbCell, m: RgbCell, r: RgbCell, g: seq<BinaryCell>)
    requires |g| == 9
    requires g[0] == Binary(l.r) && g[1] == Binary(l.g) && g[2] == Binary(l.b) &&
             g[3] == Binary(m.r) && g[4] == Binary(m.g) && g[5] == Binary(m.b) &&
             g[6] == Binary(r.r) && g[7] == Binary(r.g) && g[8] == Binary(r.b)
    ensures RgbRuleOf(rule, l, m, r) ==
      Rgb(Triangle(rule, g, 3, 0).state, Triangle(rule, g, 3, 1).state, Triangle(rule, g, 3, 2).state)
  {
    TriangleNine(rule, g);
  }
}
