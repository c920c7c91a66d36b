# enb-bem: level structure and dependency-order oracle, in Dafny

This project models two self-contained parts of the `enb-bem` build
technologies for BEM (Block / Element / Modifier) projects.

1. **The redefinition level** (`lib/levels/level.js`). A `Level` object scans a
   directory tree and files every entry under a nested table:
   block → elements → modifier name → modifier value → `{files, dirs}`. A file
   is accepted only if it sits in the directory its BEM name calls for. Its
   BEM name is the part of its base name before the first dot, and its suffix
   the part after. The block, element, modifier and value records are looked
   up, or created when missing, and the file is pushed onto the matching list.
   Entries whose names start with a dot are skipped. `load` does nothing once
   loading has completed, and `loadFromCache` replaces the table wholesale.
2. **The oracle of the `deps-old` property test**
   (`test/techs/deps-old-fix-vs-orig.test.js`). This test compares the original
   and the fixed dependency resolvers on random graphs. It contains:
   - the block → position map of a resolved list (`convertToObjResult`);
   - the correctness predicate (`isCorrect`): every must-target is placed
     strictly before its dependent, and every should-target is present;
   - the displacement count between two orders (`countDifferences`);
   - the merging of the per-run `rollbackHappened` flags;
   - the test's expectation on the two resolvers;
   - the sweep of test-case parameters.

Modules:
- `Wrappers`: `Option` and `Result`.
- `BemNotation`: the parsed notation, its four kinds and the directory rule.
- `LevelScan`: JavaScript `split`/`join`, BEM name and suffix, the dot-file
  filter, and the file infos of one directory listing.
- `Levels`: the records, the get-or-create placement, and the `Level` class.
- `DepsOracle`: the test's oracle.
- `TestCases`: the parameter sweep.

The level's records are Dafny values kept in the map field `blocks`. The
methods reassign that field. Where the source mutates a nested record in
place, the model writes the updated record back into the table.

## Model

| member | source | states |
|---|---|---|
| `BemNotation.DirMatches` | lib/levels/level.js:86-90 | The source's condition, with JavaScript's `&&`-over-`||` grouping, accepts exactly the files whose parent directory is the block name (for a block), `__` + element (for an element), or `_` + modifier name (for a block or element modifier). |
| `LevelScan.JoinSplit` | lib/levels/level.js:140 | Joining the pieces of `split(sep)` with `sep` gives back the original string. |
| `LevelScan.BemNameSuffix` | lib/levels/level.js:83 | The BEM name holds no dot. With a dot in the name, BEM name + `.` + suffix is the name. Without a dot, the BEM name is the whole name and the suffix is empty. |
| `LevelScan.ScanListing` | lib/levels/level.js:132-163 | An entry of a listing yields a callback iff its name does not start with `.`. Each callback carries the entry's name, its directory flag, the suffix of its name and the scanned directory's name as parent. |
| `LevelScan.ScanListingOnce` | lib/levels/level.js:132-163 | Each visible entry yields exactly one callback per occurrence in the listing, and an entry whose name starts with `.` yields none. No file is reported twice. |
| `Levels.PlacedSlot` | lib/levels/level.js:91-117 | Recording an accepted file grows exactly one list by that file at its end. For a modifier notation that list is `mods[modName][modVal]` of the block or element. Otherwise it is the entity's own `dirs` (for a directory) or `files`. Every other list of the table keeps its contents. |
| `Levels.PlacedShape` | lib/levels/level.js:92-108 | Recording adds at most the block key, and other blocks are untouched. An existing block or element record is reused with its name. A new one is named after the notation. An element key is added only for a notation with an element. |
| `Levels.PlacedFrame` | lib/levels/level.js:92-114 | Recording a file changes nothing else in its block. Sibling element records stay as they were. The block's own lists and modifier table stay as they were unless the notation reaches them, and likewise the element's. A modifier table the notation reaches gains at most its modifier name and, under it, its value key. Every other modifier and value keeps its entry. |
| `Levels.PlacedWellNamed` | lib/levels/level.js:92-107 | If every block and element record is named after its key, recording a file keeps it so. |
| `Levels.AcceptAllSlot` | lib/levels/level.js:81-119 | After a sequence of scan callbacks, every list of the table is its former contents followed by the accepted files that belong to it, in callback order. |
| `Levels.AcceptAllWellNamed` | lib/levels/level.js:81-119 | A scan keeps every record named after its key. |
| `Levels.Level.constructor` | lib/levels/level.js:23-28 | A new level has the given path and an empty table, and is not loaded. |
| `Levels.Level.LoadFromCache` | lib/levels/level.js:33-36 | The table becomes the cached data wholesale, and loading completes. |
| `Levels.Level.HasBlock` | lib/levels/level.js:51-53 | The answer is truthy (a record) iff the table has a record for the name. That record is the block's own entry. |
| `Levels.Level.OnFile` | lib/levels/level.js:81-118 | A file in the wrong directory leaves the table unchanged. An accepted file leaves the table as `Placed` describes (see `PlacedSlot`, `PlacedShape`, `PlacedFrame`). |
| `Levels.Level.Load` | lib/levels/level.js:66-125 | Once loaded, `load` returns without touching the table. Otherwise the table is the result of applying every callback in turn, and loading completes. |
| `DepsOracle.AggregateRollback` | test/techs/deps-old-fix-vs-orig.test.js:92-105 | The combined flag is set iff at least one result carried it. Afterwards no result carries it, and every result is otherwise unchanged. |
| `DepsOracle.Positions` | test/techs/deps-old-fix-vs-orig.test.js:133-139 | The keys are exactly the blocks of the list. Each value is an index in `[0, length)` that holds that block, and no later item has the same block, so the last index wins. |
| `DepsOracle.ConvertToObjResult` | test/techs/deps-old-fix-vs-orig.test.js:133-139 | The `forEach` loop builds the position map of the second deps list of the result. |
| `DepsOracle.MustHoldIffRespects` | test/techs/deps-old-fix-vs-orig.test.js:142-147 | For a duplicate-free order, the must part of `isCorrect` holds iff every entity with must-edges occurs, and each of its must-targets occurs strictly before it. |
| `DepsOracle.ShouldHoldIffRespects` | test/techs/deps-old-fix-vs-orig.test.js:148-153 | For a duplicate-free order, the should part of `isCorrect` holds iff every entity with should-edges and each of its should-targets occurs, in any order. |
| `DepsOracle.IsCorrectIffRespects` | test/techs/deps-old-fix-vs-orig.test.js:141-155 | For a duplicate-free order, `isCorrect` on its position map holds iff the order respects both kinds of edges. |
| `DepsOracle.MustEdgeExample` | test/techs/deps-old-fix-vs-orig.test.js:141-147 | With A must-depending on B, `[B, A]` is correct and `[A, B]` is not. |
| `DepsOracle.Gain` | test/techs/deps-old-fix-vs-orig.test.js:160-163 | A block adds a positive amount iff `fix` places it strictly earlier, and that amount is `oi - fi`. Otherwise it adds 0, including when `fix` lacks it. |
| `DepsOracle.DisplacementPick` | test/techs/deps-old-fix-vs-orig.test.js:159-164 | The sum does not depend on the order in which `Object.keys` visits the blocks. |
| `DepsOracle.DisplacementNonNegative` | test/techs/deps-old-fix-vs-orig.test.js:157-166 | The displacement is never negative. |
| `DepsOracle.DisplacementSame` | test/techs/deps-old-fix-vs-orig.test.js:157-166 | Two equal maps have displacement 0. |
| `DepsOracle.DisplacementMissing` | test/techs/deps-old-fix-vs-orig.test.js:160-163 | A block missing from `fix` adds nothing. |
| `DepsOracle.CountDifferences` | test/techs/deps-old-fix-vs-orig.test.js:157-166 | Fails with "different array contents" iff `fix` maps some block of `orig` to -1. Otherwise returns the displacement, which is at least 0. |
| `DepsOracle.PositionsNeverMinusOne` | test/techs/deps-old-fix-vs-orig.test.js:162 | Position maps never hold -1, so the throw is unreachable in the test. |
| `DepsOracle.MissingBlockPassesGuard` | test/techs/deps-old-fix-vs-orig.test.js:162 | With `orig` placing A and `fix` empty, the guard does not fire and the count is 0. |
| `DepsOracle.CountDifferencesChecked` | test/techs/deps-old-fix-vs-orig.test.js:157-166 | Corrected count: fails iff some block of `orig` is missing from `fix`. Otherwise returns the displacement. |
| `DepsOracle.CheckedDetectsMissing` | test/techs/deps-old-fix-vs-orig.test.js:157-166 | On position maps, a block of `orig` missing from `fix` means exactly that some item of the first order does not occur in the second. |
| `DepsOracle.TestPassesMeaning` | test/techs/deps-old-fix-vs-orig.test.js:116-126 | In a passing case the two resolvers agree iff no rollback happened. The fixed order, if duplicate-free, respects every must- and should-edge. Without a rollback the original order does too. After a rollback a duplicate-free original order does not. |
| `TestCases.CaseFor` | test/techs/deps-old-fix-vs-orig.test.js:40-41 | The must-edge count is `edges * rate / 100` rounded down, and must + should == edges. For a rate between 0 and 100, both counts lie between 0 and `edges`. |
| `TestCases.GenerateCases` | test/techs/deps-old-fix-vs-orig.test.js:37-44 | The loop over node counts creates, in order, 420 cases per node count. |
| `TestCases.EdgeLoop` | test/techs/deps-old-fix-vs-orig.test.js:38-43 | For one node count, the cases for edges 5, 10, …, 100, each with all 21 rates. |
| `TestCases.RateLoop` | test/techs/deps-old-fix-vs-orig.test.js:39-42 | For one node and edge count, the cases for rates 0, 5, …, 100. |
| `TestCases.TestSuite` | test/techs/deps-old-fix-vs-orig.test.js:37-44 | The test's own sweep over node counts 5, 10, 20 and 50 creates 1680 cases. Each case has one of those node counts and at most 100 edges, with 0 ≤ must ≤ edges. The first case is 5 nodes, 0 must-edges, 5 should-edges. The last is 50 nodes, 100 must-edges, 0 should-edges. |
| `TestCases.SweepFacts` | test/techs/deps-old-fix-vs-orig.test.js:37-44 | Every generated case has one of the node counts, an edge total between 5 and 100 in steps of 5, and no more must-edges than edges. |

## Left out

- `bem-naming` parsing is not part of this model. A notation is given as already parsed, and the null-notation case is not modelled. The four kinds are defined from which of `elem` and `modName` are truthy, the same test that lines 101 and 110 use.
- A boolean modifier's value key is taken as the JavaScript property key of an absent `modVal`, `"undefined"`. How `bem-naming` represents boolean modifiers is not modelled.
- The recursive asynchronous directory walk (`vfs.listDir`, `vfs.stats`, promises) is not modelled. `Load` takes the sequence of callbacks as input, one run order among those the promises allow. `ScanListing` covers a single directory, in listing order.
- `path.basename`/`path.dirname`/`path.join` are not modelled: the parent directory's name is a given string. A file info keeps `name`, `isDirectory` and `suffix` but not `fullname`, `mtime` or a directory's nested `files`.
- The `schemeBuilder`/`LevelBuilder` branch of `load` is not modelled, because `level-builder` is not part of this model. `getPath` (the `path` constant) and `getBlocks` (`GetBlocks`, the `blocks` field) are plain accessors with nothing to prove.
- Levels.Level.Load: models a scan that completes before `load` returns. In the source, a second `load` called while the first scan is still pending would start a second scan.
- Levels.Level.GetBlocks: returns the table as a value. In the source the caller receives the level's own `blocks` object, so changes the caller makes reach the level. That sharing is not modelled.
- Aliasing of nested records is not modelled: the records are values, and updated records are written back into `blocks`.
- Keys that JavaScript objects inherit from their prototype (such as `toString`) are not modelled.
- `stat` (fail and total counters, the displacement list and its log with a floating-point mean) is not modelled. It only feeds console output.
- `DepsGraph.random`, `toTestScheme` and `DepsGraph.idToName` are not part of this model. `idToName` is a function parameter. Neither resolver (`deps-old`, `deps-old-orig`) is part of this model, nor is the mock file system or the test node harness. So the model gives only the expectation on their results (`TestPasses`), not that they meet it.
- DepsOracle.AggregateRollback: builds a new list of results instead of deleting the property on the shared result objects.
- TestCases.GenerateCases: `Math.floor(edges * rate / 100)` on doubles is modelled as integer division. The two agree here because `edges * rate` is a small non-negative integer. Each nested loop level is its own method.
- The techs that wrap declaration algebra (`intersect-bemdecl`, `intersect-deps`, `subtract-deps`, `bemjson-to-bemdecl`), `html-beautify` and `index.js` are not modelled. They are build-tool plumbing around libraries that are not part of this model.

## Findings

| source | as written | input that shows it | evidently intended | confidence | as-written member | corrected member |
|---|---|---|---|---|---|---|
| test/techs/deps-old-fix-vs-orig.test.js:162 | `if (fi === -1) throw Error('different array contents')`, where `fi = fix[block]` is an index ≥ 0 or `undefined`, never -1 | `orig = {A: 0}`, `fix = {}`: no throw, and the count is 0 | throw when a block of `orig` is missing from `fix` | medium, not executed | `DepsOracle.MissingBlockPassesGuard` (about `DepsOracle.CountDifferences`) | `DepsOracle.CountDifferencesChecked` |
