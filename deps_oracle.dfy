/**
 * The oracle that the property test of the `deps-old` technology uses to
 * judge a resolved dependency order (test/techs/deps-old-fix-vs-orig.test.js):
 * the name -> position map of a result, the correctness predicate over a
 * dependency graph, the displacement count between two orders, the merging
 * of the per-run rollback flags, and the test's expectation.
 */
module DepsOracle {
  import opened Wrappers

  /** An item of a resolved deps list. */
  datatype Dep = Dep(block: string, elem: Option<string>, mod: Option<string>, val: Option<string>)

  /** One deps list as a technology run returns it, with its optional `rollbackHappened` mark. */
  datatype DepsResult = DepsResult(deps: seq<Dep>, rollbackHappened: bool)

  /** The array `getResults` resolves to, with its own `rollbackHappened` mark. */
  datatype Aggregate = Aggregate(results: seq<DepsResult>, rollbackHappened: bool)

  /**
   * The loop over the four results in `getResults`: the combined flag is set
   * iff some result carried it, and no result carries it afterwards
   * (test/techs/deps-old-fix-vs-orig.test.js:92-105).
   */
  method AggregateRollback(results: seq<DepsResult>) returns (agg: Aggregate)
    ensures agg.rollbackHappened <==> exists k :: 0 <= k < |results| && results[k].rollbackHappened
    ensures |agg.results| == |results|
    ensures forall k :: 0 <= k < |results| ==> agg.results[k] == results[k].(rollbackHappened := false)
  {
    var rollbackHappened := false;
    var cleared: seq<DepsResult> := [];
    for i := 0 to |results|
      invariant |cleared| == i
      invariant forall k :: 0 <= k < i ==> cleared[k] == results[k].(rollbackHappened := false)
      invariant rollbackHappened <==> exists k :: 0 <= k < i && results[k].rollbackHappened
    {
      var deps := results[i];
      if deps.rollbackHappened {
        rollbackHappened := true;
        deps := deps.(rollbackHappened := false);
      }
      cleared := cleared + [deps];
    }
    agg := Aggregate(cleared, rollbackHappened);
  }

  /**
   * Block name -> index in `deps`; when a block occurs more than once, the
   * last index wins. Every block of `deps` is a key, every value is an index
   * of `deps` holding that block, and no later item has that block.
   */
  function Positions(deps: seq<Dep>): (pos: map<string, int>)
    ensures forall b :: b in pos <==> exists j :: 0 <= j < |deps| && deps[j].block == b
    ensures forall b :: b in pos ==> 0 <= pos[b] < |deps| && deps[pos[b]].block == b
    ensures forall b, j :: b in pos && pos[b] < j < |deps| ==> deps[j].block != b
    decreases |deps|
  {
    if |deps| == 0 then map[]
    else
      var init := deps[..|deps| - 1];
      assert forall j :: 0 <= j < |deps| - 1 ==> init[j] == deps[j];
      Positions(init)[deps[|deps| - 1].block := |deps| - 1]
  }

  /**
   * `convertToObjResult`: the position map of the second deps list of a
   * result (test/techs/deps-old-fix-vs-orig.test.js:133-139).
   */
  method ConvertToObjResult(result: Aggregate) returns (objResult: map<string, int>)
    requires |result.results| > 1
    ensures objResult == Positions(result.results[1].deps)
    ensures forall b :: b in objResult ==> 0 <= objResult[b] < |result.results[1].deps|
  {
    var deps := result.results[1].deps;
    objResult := map[];
    for idx := 0 to |deps|
      invariant objResult == Positions(deps[..idx])
    {
      assert deps[..idx + 1][..idx] == deps[..idx];
      objResult := objResult[deps[idx].block := idx];
    }
    assert deps[..|deps|] == deps;
  }

  /** `graph.must[id]` and `graph.should[id]`: the targets of the must- and should-edges of `id`. */
  datatype DepsGraph = DepsGraph(must: map<string, set<string>>, should: map<string, set<string>>)

  /**
   * `isCorrect` (test/techs/deps-old-fix-vs-orig.test.js:141-155): the
   * must part and the should part below. `idToName` is `DepsGraph.idToName`.
   */
  predicate IsCorrect(graph: DepsGraph, idToName: string -> string, result: map<string, int>) {
    MustHold(graph, idToName, result) && ShouldHold(graph, idToName, result)
  }

  /** Every entity with must-edges is placed, and each of its must-targets strictly earlier. */
  predicate MustHold(graph: DepsGraph, idToName: string -> string, result: map<string, int>) {
    forall id :: id in graph.must ==>
      idToName(id) in result
      && forall mustId :: mustId in graph.must[id] ==>
           idToName(mustId) in result && result[idToName(mustId)] < result[idToName(id)]
  }

  /** Every entity with should-edges is placed, and so is each of its should-targets, anywhere. */
  predicate ShouldHold(graph: DepsGraph, idToName: string -> string, result: map<string, int>) {
    forall id :: id in graph.should ==>
      idToName(id) in result
      && forall shouldId :: shouldId in graph.should[id] ==> idToName(shouldId) in result
  }

  /** No block occurs twice in an order. */
  predicate Distinct(order: seq<Dep>) {
    forall i, j :: 0 <= i < j < |order| ==> order[i].block != order[j].block
  }

  ghost predicate Occurs(order: seq<Dep>, name: string) {
    exists i :: 0 <= i < |order| && order[i].block == name
  }

  ghost predicate OccursBefore(order: seq<Dep>, a: string, b: string) {
    exists i, j :: 0 <= i < j < |order| && order[i].block == a && order[j].block == b
  }

  /**
   * What a resolved order owes the graph, stated on the order itself: every
   * must-target comes strictly before its dependent, every should-target
   * and every entity with edges is present.
   */
  ghost predicate Respects(graph: DepsGraph, idToName: string -> string, order: seq<Dep>) {
    RespectsMust(graph, idToName, order) && RespectsShould(graph, idToName, order)
  }

  ghost predicate RespectsMust(graph: DepsGraph, idToName: string -> string, order: seq<Dep>) {
    forall id :: id in graph.must ==>
      Occurs(order, idToName(id))
      && forall mustId :: mustId in graph.must[id] ==> OccursBefore(order, idToName(mustId), idToName(id))
  }

  ghost predicate RespectsShould(graph: DepsGraph, idToName: string -> string, order: seq<Dep>) {
    forall id :: id in graph.should ==>
      Occurs(order, idToName(id))
      && forall shouldId :: shouldId in graph.should[id] ==> Occurs(order, idToName(shouldId))
  }

  /** In a duplicate-free order the position map gives each block its own index. */
  lemma PositionsOfDistinct(order: seq<Dep>, a: string, b: string)
    requires Distinct(order)
    ensures Occurs(order, a) <==> a in Positions(order)
    ensures OccursBefore(order, a, b) <==> a in Positions(order) && b in Positions(order) && Positions(order)[a] < Positions(order)[b]
  {
    var pos := Positions(order);
    forall i | 0 <= i < |order|
      ensures pos[order[i].block] == i
    {
      var p := pos[order[i].block];
      assert order[p].block == order[i].block;
    }
    if a in pos && b in pos && pos[a] < pos[b] {
      assert order[pos[a]].block == a && order[pos[b]].block == b;
    }
  }

  lemma MustHoldIffRespects(graph: DepsGraph, idToName: string -> string, order: seq<Dep>)
    requires Distinct(order)
    ensures MustHold(graph, idToName, Positions(order)) <==> RespectsMust(graph, idToName, order)
  {
    var pos := Positions(order);
    forall id
      ensures idToName(id) in pos <==> Occurs(order, idToName(id))
    {
      PositionsOfDistinct(order, idToName(id), idToName(id));
    }
    forall id, mustId
      ensures OccursBefore(order, idToName(mustId), idToName(id))
              <==> idToName(mustId) in pos && idToName(id) in pos && pos[idToName(mustId)] < pos[idToName(id)]
    {
      PositionsOfDistinct(order, idToName(mustId), idToName(id));
    }
  }

  lemma ShouldHoldIffRespects(graph: DepsGraph, idToName: string -> string, order: seq<Dep>)
    requires Distinct(order)
    ensures ShouldHold(graph, idToName, Positions(order)) <==> RespectsShould(graph, idToName, order)
  {
    forall id
      ensures idToName(id) in Positions(order) <==> Occurs(order, idToName(id))
    {
      PositionsOfDistinct(order, idToName(id), idToName(id));
    }
  }

  /** For a duplicate-free order, `isCorrect` on its position map says exactly that the order respects the graph. */
  lemma IsCorrectIffRespects(graph: DepsGraph, idToName: string -> string, order: seq<Dep>)
    requires Distinct(order)
    ensures IsCorrect(graph, idToName, Positions(order)) <==> Respects(graph, idToName, order)
  {
    MustHoldIffRespects(graph, idToName, order);
    ShouldHoldIffRespects(graph, idToName, order);
  }

  function Identity(id: string): string { id }

  /** The single-edge case: with A must-depending on B, `[B, A]` is correct and `[A, B]` is not. */
  lemma MustEdgeExample()
    ensures IsCorrect(DepsGraph(map["A" := {"B"}], map[]), Identity,
                      Positions([Dep("B", None, None, None), Dep("A", None, None, None)]))
    ensures !IsCorrect(DepsGraph(map["A" := {"B"}], map[]), Identity,
                       Positions([Dep("A", None, None, None), Dep("B", None, None, None)]))
  {
    var a, b := Dep("A", None, None, None), Dep("B", None, None, None);
    var graph := DepsGraph(map["A" := {"B"}], map[]);
    assert [b, a][..1] == [b] && [a, b][..1] == [a];
    assert [b][..0] == [] && [a][..0] == [];
    assert Positions([b]) == map["B" := 0] && Positions([a]) == map["A" := 0];
    var good := Positions([b, a]);
    var bad := Positions([a, b]);
    assert good == map["B" := 0, "A" := 1];
    assert bad == map["A" := 0, "B" := 1];
    assert "A" in graph.must && "B" in graph.must["A"] && !(bad["B"] < bad["A"]);
  }

  /** What one block adds to `countDifferences`: how many places earlier `fix` puts it, if earlier at all. */
  function Gain(orig: map<string, int>, fix: map<string, int>, block: string): (g: int)
    requires block in orig
    ensures g >= 0
    ensures g > 0 <==> block in fix && fix[block] < orig[block]
    ensures g > 0 ==> g == orig[block] - fix[block]
  {
    if block in fix && fix[block] < orig[block] then orig[block] - fix[block] else 0
  }

  /** The sum of the gains of `blocks`, in no particular order. */
  ghost function Displacement(orig: map<string, int>, fix: map<string, int>, blocks: set<string>): int
    requires blocks <= orig.Keys
    decreases blocks
  {
    if blocks == {} then 0
    else
      var b :| b in blocks;
      Gain(orig, fix, b) + Displacement(orig, fix, blocks - {b})
  }

  /** Any block can be taken out of the sum first. */
  lemma {:induction false} DisplacementPick(orig: map<string, int>, fix: map<string, int>, blocks: set<string>, b: string)
    requires blocks <= orig.Keys && b in blocks
    ensures Displacement(orig, fix, blocks) == Gain(orig, fix, b) + Displacement(orig, fix, blocks - {b})
    decreases blocks
  {
    var c :| c in blocks && Displacement(orig, fix, blocks) == Gain(orig, fix, c) + Displacement(orig, fix, blocks - {c});
    if c != b {
      DisplacementPick(orig, fix, blocks - {c}, b);
      DisplacementPick(orig, fix, blocks - {b}, c);
      assert blocks - {c} - {b} == blocks - {b} - {c};
    }
  }

  /** The displacement is never negative. */
  lemma {:induction false} DisplacementNonNegative(orig: map<string, int>, fix: map<string, int>, blocks: set<string>)
    requires blocks <= orig.Keys
    ensures Displacement(orig, fix, blocks) >= 0
    decreases blocks
  {
    if blocks != {} {
      var b :| b in blocks;
      DisplacementPick(orig, fix, blocks, b);
      DisplacementNonNegative(orig, fix, blocks - {b});
    }
  }

  /** Two equal position maps are no displacement apart. */
  lemma {:induction false} DisplacementSame(pos: map<string, int>, blocks: set<string>)
    requires blocks <= pos.Keys
    ensures Displacement(pos, pos, blocks) == 0
    decreases blocks
  {
    if blocks != {} {
      var b :| b in blocks;
      DisplacementPick(pos, pos, blocks, b);
      DisplacementSame(pos, blocks - {b});
    }
  }

  /** A block missing from `fix` adds nothing. */
  lemma DisplacementMissing(orig: map<string, int>, fix: map<string, int>, blocks: set<string>, b: string)
    requires blocks <= orig.Keys && b in blocks && b !in fix
    ensures Displacement(orig, fix, blocks) == Displacement(orig, fix, blocks - {b})
  {
    DisplacementPick(orig, fix, blocks, b);
  }

  /**
   * `countDifferences` (test/techs/deps-old-fix-vs-orig.test.js:157-166):
   * fails with "different array contents" iff `fix` maps some block of
   * `orig` to -1, and otherwise returns the total displacement.
   */
  method CountDifferences(orig: map<string, int>, fix: map<string, int>) returns (r: Result<int>)
    ensures r.Failure? <==> exists b :: b in orig && b in fix && fix[b] == -1
    ensures r.Success? ==> r.value == Displacement(orig, fix, orig.Keys) && r.value >= 0
  {
    var count := 0;
    var todo := orig.Keys;
    while todo != {}
      invariant todo <= orig.Keys
      invariant count + Displacement(orig, fix, todo) == Displacement(orig, fix, orig.Keys)
      invariant count >= 0
      invariant forall b :: b in orig && b !in todo && b in fix ==> fix[b] != -1
      decreases todo
    {
      var block :| block in todo;
      if block in fix && fix[block] == -1 {
        return Failure("different array contents");
      }
      if block in fix && fix[block] < orig[block] {
        count := count + orig[block] - fix[block];
      }
      DisplacementPick(orig, fix, todo, block);
      todo := todo - {block};
    }
    DisplacementNonNegative(orig, fix, orig.Keys);
    return Success(count);
  }

  /** Position maps never hold -1, so `countDifferences` never throws on them. */
  lemma PositionsNeverMinusOne(orig: seq<Dep>, fix: seq<Dep>)
    ensures !exists b :: b in Positions(orig) && b in Positions(fix) && Positions(fix)[b] == -1
  {
  }

  /**
   * The guard of `countDifferences` cannot see a block that `fix` lacks: with
   * `orig` placing A and `fix` empty, no block of `orig` is mapped to -1, so
   * the count succeeds (with 0) although the two orders hold different blocks.
   */
  lemma MissingBlockPassesGuard()
    ensures "A" in Positions([Dep("A", None, None, None)]) && "A" !in Positions([])
    ensures !exists b :: b in Positions([Dep("A", None, None, None)]) && b in Positions([])
                         && Positions([])[b] == -1
    ensures Displacement(Positions([Dep("A", None, None, None)]), Positions([]),
                         Positions([Dep("A", None, None, None)]).Keys) == 0
  {
    var orig := Positions([Dep("A", None, None, None)]);
    assert [Dep("A", None, None, None)][..0] == [];
    assert orig == map["A" := 0];
    DisplacementPick(orig, map[], orig.Keys, "A");
    assert orig.Keys - {"A"} == {};
  }

  /**
   * `countDifferences` with the check its error message describes: it fails
   * with "different array contents" iff some block of `orig` is missing
   * from `fix`, and otherwise returns the total displacement.
   */
  method CountDifferencesChecked(orig: map<string, int>, fix: map<string, int>) returns (r: Result<int>)
    ensures r.Failure? <==> exists b :: b in orig && b !in fix
    ensures r.Success? ==> r.value == Displacement(orig, fix, orig.Keys) && r.value >= 0
  {
    var count := 0;
    var todo := orig.Keys;
    while todo != {}
      invariant todo <= orig.Keys
      invariant count + Displacement(orig, fix, todo) == Displacement(orig, fix, orig.Keys)
      invariant count >= 0
      invariant forall b :: b in orig && b !in todo ==> b in fix
      decreases todo
    {
      var block :| block in todo;
      if block !in fix {
        return Failure("different array contents");
      }
      if fix[block] < orig[block] {
        count := count + orig[block] - fix[block];
      }
      DisplacementPick(orig, fix, todo, block);
      todo := todo - {block};
    }
    DisplacementNonNegative(orig, fix, orig.Keys);
    return Success(count);
  }

  /** On the position maps of two orders, the checked count fails iff some block of the first is absent from the second. */
  lemma CheckedDetectsMissing(orig: seq<Dep>, fix: seq<Dep>)
    ensures (exists b :: b in Positions(orig) && b !in Positions(fix))
            <==> exists i :: 0 <= i < |orig| && !Occurs(fix, orig[i].block)
  {
    if exists i :: 0 <= i < |orig| && !Occurs(fix, orig[i].block) {
      var i :| 0 <= i < |orig| && !Occurs(fix, orig[i].block);
      assert orig[i].block in Positions(orig);
    }
  }

  /** The aggregate without its `rollbackHappened` mark (`delete fixResult.rollbackHappened`). */
  function Cleared(a: Aggregate): Aggregate {
    a.(rollbackHappened := false)
  }

  /**
   * What `compareResult` asserts (test/techs/deps-old-fix-vs-orig.test.js:116-126):
   * after a rollback the original result differs from the fixed one, the
   * original order is incorrect and the fixed one correct; without one both
   * results are equal and the fixed order is correct.
   */
  predicate TestPasses(graph: DepsGraph, idToName: string -> string, orig: Aggregate, fix: Aggregate)
    requires |orig.results| > 1 && |fix.results| > 1
  {
    if fix.rollbackHappened then
      && orig != Cleared(fix)
      && !IsCorrect(graph, idToName, Positions(orig.results[1].deps))
      && IsCorrect(graph, idToName, Positions(fix.results[1].deps))
    else
      && orig == fix
      && IsCorrect(graph, idToName, Positions(fix.results[1].deps))
  }

  /**
   * A passing case: the two technologies agree iff no rollback happened;
   * the fixed order is correct, and, being duplicate-free, respects every
   * edge of the graph; without a rollback the original order does too.
   */
  lemma TestPassesMeaning(graph: DepsGraph, idToName: string -> string, orig: Aggregate, fix: Aggregate)
    requires |orig.results| > 1 && |fix.results| > 1
    requires TestPasses(graph, idToName, orig, fix)
    requires Distinct(fix.results[1].deps)
    ensures orig == Cleared(fix) <==> !fix.rollbackHappened
    ensures Respects(graph, idToName, fix.results[1].deps)
    ensures !fix.rollbackHappened ==> Respects(graph, idToName, orig.results[1].deps)
    ensures fix.rollbackHappened && Distinct(orig.results[1].deps) ==>
              !Respects(graph, idToName, orig.results[1].deps)
  {
    IsCorrectIffRespects(graph, idToName, fix.results[1].deps);
    if Distinct(orig.results[1].deps) {
      IsCorrectIffRespects(graph, idToName, orig.results[1].deps);
    }
  }
}
