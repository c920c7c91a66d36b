/**
 * The parameter sweep of the `deps-old` property test
 * (test/techs/deps-old-fix-vs-orig.test.js:37-44): for each node count, for
 * edge counts 5, 10, ..., 100 and must-rates 0, 5, ..., 100 percent, one case
 * with `floor(edges * rate / 100)` must-edges and the remaining edges as
 * should-edges.
 */
module TestCases {

  /** The arguments of `createTestCase(nodes, must, should)`. */
  datatype TestCase = TestCase(nodes: int, must: int, should: int)

  const NodeCounts: seq<int> := [5, 10, 20, 50]

  /**
   * One case: the must-edges are `edges * rate / 100` rounded down, the
   * should-edges the rest; with a rate between 0 and 100 both are between 0
   * and `edges`.
   */
  function CaseFor(nodes: int, edges: int, rate: int): (c: TestCase)
    ensures c.nodes == nodes && c.must + c.should == edges
    ensures c.must * 100 <= edges * rate < c.must * 100 + 100
    ensures 0 <= edges && 0 <= rate <= 100 ==> 0 <= c.must <= edges && 0 <= c.should
  {
    var must := edges * rate / 100;
    assert 0 <= edges && 0 <= rate <= 100 ==> edges * rate <= edges * 100;
    TestCase(nodes, must, edges - must)
  }

  /** The 21 cases for one node and edge count: rates 0, 5, ..., 100. */
  function RateSweep(nodes: int, edges: int): (cases: seq<TestCase>)
    ensures |cases| == 21
  {
    seq(21, i requires 0 <= i < 21 => CaseFor(nodes, edges, 5 * i))
  }

  /** The 20 * 21 cases for one node count: edge counts 5, 10, ..., 100, each with every rate. */
  function EdgeSweep(nodes: int): (cases: seq<TestCase>)
    ensures |cases| == 420
  {
    seq(420, i requires 0 <= i < 420 => CaseFor(nodes, 5 + 5 * (i / 21), 5 * (i % 21)))
  }

  /** The cases for each node count of `counts`, one block of 420 after the other. */
  function NodeSweep(counts: seq<int>): (cases: seq<TestCase>)
    ensures |cases| == 420 * |counts|
  {
    seq(420 * |counts|, i requires 0 <= i < 420 * |counts| => EdgeSweep(counts[i / 420])[i % 420])
  }

  /**
   * The nested loops that create the test cases, in creation order; the
   * test runs them over `NodeCounts`.
   */
  method GenerateCases(counts: seq<int>) returns (cases: seq<TestCase>)
    ensures cases == NodeSweep(counts)
  {
    cases := [];
    for n := 0 to |counts|
      invariant cases == NodeSweep(counts)[..420 * n]
    {
      var forNodes := EdgeLoop(counts[n]);
      NodeSweepStep(counts, n);
      cases := cases + forNodes;
    }
  }

  /** The node sweep up to node count `n + 1` extends the one up to `n` by the edge sweep for `counts[n]`. */
  lemma NodeSweepStep(counts: seq<int>, n: int)
    requires 0 <= n < |counts|
    ensures NodeSweep(counts)[..420 * (n + 1)] == NodeSweep(counts)[..420 * n] + EdgeSweep(counts[n])
  {
    forall r | 0 <= r < 420
      ensures NodeSweep(counts)[420 * n + r] == EdgeSweep(counts[n])[r]
    {
      NodeBlockIndex(n, r);
    }
  }

  /** The loop over the edge counts, for one node count. */
  method EdgeLoop(nodes: int) returns (cases: seq<TestCase>)
    ensures cases == EdgeSweep(nodes)
  {
    cases := [];
    var edges := 5;
    while edges <= 100
      invariant 5 <= edges <= 105 && edges % 5 == 0
      invariant cases == EdgeSweep(nodes)[..21 * (edges / 5 - 1)]
    {
      var forEdges := RateLoop(nodes, edges);
      EdgeSweepStep(nodes, edges / 5 - 1);
      cases := cases + forEdges;
      edges := edges + 5;
    }
  }

  /** The edge sweep up to edge count index `j + 1` extends the one up to `j` by the rate sweep for `5 + 5 * j` edges. */
  lemma EdgeSweepStep(nodes: int, j: int)
    requires 0 <= j < 20
    ensures EdgeSweep(nodes)[..21 * (j + 1)] == EdgeSweep(nodes)[..21 * j] + RateSweep(nodes, 5 + 5 * j)
  {
    var rates := RateSweep(nodes, 5 + 5 * j);
    forall r | 0 <= r < 21
      ensures EdgeSweep(nodes)[21 * j + r] == rates[r]
    {
      EdgeBlockIndex(j, r);
    }
  }

  /** The innermost loop over the must-rates, for one node and edge count. */
  method RateLoop(nodes: int, edges: int) returns (cases: seq<TestCase>)
    ensures cases == RateSweep(nodes, edges)
  {
    cases := [];
    var rate := 0;
    while rate <= 100
      invariant 0 <= rate <= 105 && rate % 5 == 0
      invariant |cases| == rate / 5
      invariant forall k :: 0 <= k < |cases| ==> cases[k] == RateSweep(nodes, edges)[k]
    {
      var mustEdges := edges * rate / 100;
      cases := cases + [TestCase(nodes, mustEdges, edges - mustEdges)];
      rate := rate + 5;
    }
  }

  /**
   * The test's own sweep over `NodeCounts`: 1680 cases, each for 5, 10, 20 or
   * 50 nodes, from 5 nodes with no must-edges to 50 nodes with 100 must-edges.
   */
  lemma TestSuite()
    ensures |NodeSweep(NodeCounts)| == 1680
    ensures forall c :: c in NodeSweep(NodeCounts) ==> c.nodes in {5, 10, 20, 50} && 0 <= c.must <= c.must + c.should <= 100
    ensures NodeSweep(NodeCounts)[0] == TestCase(5, 0, 5)
    ensures NodeSweep(NodeCounts)[1679] == TestCase(50, 100, 0)
  {
    var cases := NodeSweep(NodeCounts);
    SweepFacts(NodeCounts);
    assert forall n :: n in NodeCounts ==> n in {5, 10, 20, 50};
    assert cases[0] == CaseFor(5, 5, 0) by {
      assert cases[0] == EdgeSweep(NodeCounts[0])[0];
    }
    assert cases[1679] == CaseFor(50, 100, 100) by {
      assert 1679 / 420 == 3 && 1679 % 420 == 419;
      assert 419 / 21 == 19 && 419 % 21 == 20;
      assert cases[1679] == EdgeSweep(NodeCounts[3])[419];
    }
  }

  /**
   * Each generated case has one of the node counts, between 5 and 100 edges
   * in steps of 5, and no more must-edges than edges.
   */
  lemma SweepFacts(counts: seq<int>)
    ensures forall c :: c in NodeSweep(counts) ==>
              c.nodes in counts && 5 <= c.must + c.should <= 100 && (c.must + c.should) % 5 == 0
              && 0 <= c.must <= c.must + c.should
  {
    forall i | 0 <= i < |NodeSweep(counts)|
      ensures var c := NodeSweep(counts)[i];
              c.nodes in counts && 5 <= c.must + c.should <= 100 && (c.must + c.should) % 5 == 0
              && 0 <= c.must <= c.must + c.should
    {
      EdgeSweepFacts(counts[i / 420], i % 420);
    }
  }

  /** One case of the sweep for `nodes`: its node count, 5 to 100 edges in steps of 5, and 0 <= must <= edges. */
  lemma EdgeSweepFacts(nodes: int, i: int)
    requires 0 <= i < 420
    ensures var c := EdgeSweep(nodes)[i];
            c.nodes == nodes && 5 <= c.must + c.should <= 100 && (c.must + c.should) % 5 == 0
            && 0 <= c.must <= c.must + c.should
  {
    var j := i / 21;
    assert 0 <= j < 20;
    assert (5 + 5 * j) % 5 == 0;
  }

  /** Index `420 * n + r` of a node sweep is case `r` of the block for the `n`-th node count. */
  lemma NodeBlockIndex(n: int, r: int)
    requires 0 <= n && 0 <= r < 420
    ensures (420 * n + r) / 420 == n && (420 * n + r) % 420 == r
  {
  }

  /** Index `21 * j + r` of an edge sweep is rate `r` of the `j`-th edge count. */
  lemma EdgeBlockIndex(j: int, r: int)
    requires 0 <= j && 0 <= r < 21
    ensures (21 * j + r) / 21 == j && (21 * j + r) % 21 == r
  {
  }
}
