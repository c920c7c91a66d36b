/**
 * The object model of a redefinition level (lib/levels/level.js): a table
 * block -> elements -> modifiers -> modifier values, each node holding the
 * `files` and `dirs` found for it, filled by the scan callback of `load`.
 *
 * The records are values kept in the map field `blocks`; where the source
 * mutates a nested record in place, the model writes the updated record back.
 */
module Levels {
  import opened Wrappers
  import opened BemNotation
  import opened LevelScan

  /** The `files` and `dirs` lists of one entity or modifier value. */
  datatype Entries = Entries(files: seq<FileInfo>, dirs: seq<FileInfo>)

  const NoEntries := Entries([], [])

  /** `dest[collectionKey].push(fileInfo)`: directories go to `dirs`, the rest to `files`. */
  function Push(e: Entries, info: FileInfo): Entries {
    if info.isDirectory then e.(dirs := e.dirs + [info]) else e.(files := e.files + [info])
  }

  function Append(e: Entries, more: Entries): Entries {
    Entries(e.files + more.files, e.dirs + more.dirs)
  }

  lemma AppendAssoc(a: Entries, b: Entries, c: Entries)
    ensures Append(Append(a, b), c) == Append(a, Append(b, c))
  {
    assert (a.files + b.files) + c.files == a.files + (b.files + c.files);
    assert (a.dirs + b.dirs) + c.dirs == a.dirs + (b.dirs + c.dirs);
  }

  /** `mods`: modifier name -> modifier value -> `{files, dirs}`. */
  type ModTable = map<string, map<string, Entries>>

  datatype ElemRecord = ElemRecord(name: string, own: Entries, mods: ModTable)

  datatype BlockRecord = BlockRecord(
    name: string,
    own: Entries,
    elements: map<string, ElemRecord>,
    mods: ModTable)

  /** The property key `mod[notation.modVal]` uses: an absent value becomes `"undefined"`. */
  function ModValKey(modVal: Option<string>): string {
    if modVal.Some? then modVal.value else "undefined"
  }

  /** Get-or-create `mods[modName][modVal]` and push the file onto it (lib/levels/level.js:111-114). */
  function PushMod(mods: ModTable, n: Notation, info: FileInfo): ModTable
    requires HasMod(n)
  {
    var name := n.modName.value;
    var key := ModValKey(n.modVal);
    var vals := if name in mods then mods[name] else map[];
    var slot := if key in vals then vals[key] else NoEntries;
    mods[name := vals[key := Push(slot, info)]]
  }

  /** The record of a block, created empty when the table has none. */
  function BlockOrNew(blocks: map<string, BlockRecord>, name: string): BlockRecord {
    if name in blocks then blocks[name] else BlockRecord(name, NoEntries, map[], map[])
  }

  /** The record of an element, created empty when the block has none. */
  function ElemOrNew(elements: map<string, ElemRecord>, name: string): ElemRecord {
    if name in elements then elements[name] else ElemRecord(name, NoEntries, map[])
  }

  /** The table after an accepted file of notation `n` has been recorded (lib/levels/level.js:91-117). */
  function Placed(blocks: map<string, BlockRecord>, n: Notation, info: FileInfo): map<string, BlockRecord> {
    var block := BlockOrNew(blocks, n.block);
    var block' :=
      if HasElem(n) then
        var dest := ElemOrNew(block.elements, n.elem.value);
        var dest' := if HasMod(n) then dest.(mods := PushMod(dest.mods, n, info))
                     else dest.(own := Push(dest.own, info));
        block.(elements := block.elements[n.elem.value := dest'])
      else if HasMod(n) then block.(mods := PushMod(block.mods, n, info))
      else block.(own := Push(block.own, info));
    blocks[n.block := block']
  }

  function ModSlot(mods: ModTable, n: Notation): Entries
    requires HasMod(n)
  {
    var name := n.modName.value;
    var key := ModValKey(n.modVal);
    if name in mods && key in mods[name] then mods[name][key] else NoEntries
  }

  /**
   * Where a file of notation `n` is listed in the table: the lists of the
   * block, of the element, or of the modifier value; empty when missing.
   */
  function Slot(blocks: map<string, BlockRecord>, n: Notation): Entries {
    if n.block !in blocks then NoEntries
    else
      var b := blocks[n.block];
      if HasElem(n) then
        if n.elem.value !in b.elements then NoEntries
        else
          var e := b.elements[n.elem.value];
          if HasMod(n) then ModSlot(e.mods, n) else e.own
      else if HasMod(n) then ModSlot(b.mods, n)
      else b.own
  }

  /** Two notations that the table files under the same lists. */
  predicate SameSlot(m: Notation, n: Notation) {
    && m.block == n.block
    && HasElem(m) == HasElem(n)
    && (HasElem(n) ==> m.elem.value == n.elem.value)
    && HasMod(m) == HasMod(n)
    && (HasMod(n) ==> m.modName.value == n.modName.value && ModValKey(m.modVal) == ModValKey(n.modVal))
  }

  /**
   * Recording a file grows exactly one list, the one of its own slot, by
   * that file at the end; every other list of the table keeps its contents.
   */
  lemma PlacedSlot(blocks: map<string, BlockRecord>, n: Notation, info: FileInfo, m: Notation)
    ensures Slot(Placed(blocks, n, info), m)
            == if SameSlot(m, n) then Push(Slot(blocks, n), info) else Slot(blocks, m)
  {
  }

  /**
   * Recording a file adds at most the block key; other blocks are untouched;
   * an existing block or element record is reused (its name kept) and a new
   * one is named after the notation; an element is only added for a
   * notation with an element.
   */
  lemma PlacedShape(blocks: map<string, BlockRecord>, n: Notation, info: FileInfo)
    ensures Placed(blocks, n, info).Keys == blocks.Keys + {n.block}
    ensures forall b :: b in blocks && b != n.block ==> Placed(blocks, n, info)[b] == blocks[b]
    ensures Placed(blocks, n, info)[n.block].name == BlockOrNew(blocks, n.block).name
    ensures n.block !in blocks ==> Placed(blocks, n, info)[n.block].name == n.block
    ensures Placed(blocks, n, info)[n.block].elements.Keys
            == BlockOrNew(blocks, n.block).elements.Keys + (if HasElem(n) then {n.elem.value} else {})
    ensures HasElem(n) ==>
              Placed(blocks, n, info)[n.block].elements[n.elem.value].name
              == ElemOrNew(BlockOrNew(blocks, n.block).elements, n.elem.value).name
  {
  }

  /**
   * `mods'` differs from `mods` only along `mods[modName][modVal]`: at most
   * that modifier name and that value key are added, and every other
   * modifier and every other value of the modifier keeps its entry.
   */
  predicate ModsTouchOnly(mods: ModTable, mods': ModTable, n: Notation)
    requires HasMod(n)
  {
    var name := n.modName.value;
    var key := ModValKey(n.modVal);
    var vals := if name in mods then mods[name] else map[];
    && mods'.Keys == mods.Keys + {name}
    && (forall k :: k in mods && k != name ==> mods'[k] == mods[k])
    && mods'[name].Keys == vals.Keys + {key}
    && (forall v :: v in vals && v != key ==> mods'[name][v] == vals[v])
  }

  lemma PushModTouchOnly(mods: ModTable, n: Notation, info: FileInfo)
    requires HasMod(n)
    ensures ModsTouchOnly(mods, PushMod(mods, n, info), n)
  {
  }

  /**
   * Recording a file changes nothing else in its block: sibling elements
   * keep their records, the lists and modifier tables the notation does not
   * reach are unchanged, and a modifier table gains at most the notation's
   * own modifier name and value.
   */
  lemma PlacedFrame(blocks: map<string, BlockRecord>, n: Notation, info: FileInfo)
    ensures var ob := BlockOrNew(blocks, n.block);
            var nb := Placed(blocks, n, info)[n.block];
            && (forall e :: e in ob.elements && (!HasElem(n) || e != n.elem.value) ==>
                  e in nb.elements && nb.elements[e] == ob.elements[e])
            && (HasElem(n) || HasMod(n) ==> nb.own == ob.own)
            && (HasElem(n) || !HasMod(n) ==> nb.mods == ob.mods)
            && (!HasElem(n) && HasMod(n) ==> ModsTouchOnly(ob.mods, nb.mods, n))
    ensures HasElem(n) ==>
              var oe := ElemOrNew(BlockOrNew(blocks, n.block).elements, n.elem.value);
              var ne := Placed(blocks, n, info)[n.block].elements[n.elem.value];
              && (HasMod(n) ==> ne.own == oe.own && ModsTouchOnly(oe.mods, ne.mods, n))
              && (!HasMod(n) ==> ne.mods == oe.mods)
  {
    if HasMod(n) {
      var ob := BlockOrNew(blocks, n.block);
      if HasElem(n) {
        PushModTouchOnly(ElemOrNew(ob.elements, n.elem.value).mods, n, info);
      } else {
        PushModTouchOnly(ob.mods, n, info);
      }
    }
  }

  /** Every block and element record is named after its key. */
  ghost predicate WellNamed(blocks: map<string, BlockRecord>) {
    forall b :: b in blocks ==>
      blocks[b].name == b && forall e :: e in blocks[b].elements ==> blocks[b].elements[e].name == e
  }

  lemma PlacedWellNamed(blocks: map<string, BlockRecord>, n: Notation, info: FileInfo)
    requires WellNamed(blocks)
    ensures WellNamed(Placed(blocks, n, info))
  {
  }

  /** One callback of the scan: parse the BEM name, check the directory, record the file. */
  function Accept(blocks: map<string, BlockRecord>, v: Visit, parse: string -> Notation): map<string, BlockRecord> {
    var n := parse(BemName(v.info.name));
    if DirMatches(v.parentDir, n) then Placed(blocks, n, v.info) else blocks
  }

  /** The table after the callbacks `visits`, in that order. */
  function AcceptAll(blocks: map<string, BlockRecord>, visits: seq<Visit>, parse: string -> Notation): map<string, BlockRecord>
    decreases |visits|
  {
    if |visits| == 0 then blocks else AcceptAll(Accept(blocks, visits[0], parse), visits[1..], parse)
  }

  /** What one callback adds to the slot of `m`: its file, or nothing. */
  function Landed(v: Visit, parse: string -> Notation, m: Notation): Entries {
    var n := parse(BemName(v.info.name));
    if DirMatches(v.parentDir, n) && SameSlot(m, n) then Push(NoEntries, v.info) else NoEntries
  }

  /** The files and directories among `visits` that land in the slot of `m`, in order. */
  function Collected(visits: seq<Visit>, parse: string -> Notation, m: Notation): Entries
    decreases |visits|
  {
    if |visits| == 0 then NoEntries
    else Append(Landed(visits[0], parse, m), Collected(visits[1..], parse, m))
  }

  lemma AcceptSlot(blocks: map<string, BlockRecord>, v: Visit, parse: string -> Notation, m: Notation)
    ensures Slot(Accept(blocks, v, parse), m) == Append(Slot(blocks, m), Landed(v, parse, m))
  {
    var n := parse(BemName(v.info.name));
    if DirMatches(v.parentDir, n) {
      PlacedSlot(blocks, n, v.info, m);
    }
  }

  /**
   * After a scan every list of the table is its earlier contents followed by
   * the accepted files that belong to it, in callback order.
   */
  lemma {:induction false} AcceptAllSlot(blocks: map<string, BlockRecord>, visits: seq<Visit>, parse: string -> Notation, m: Notation)
    ensures Slot(AcceptAll(blocks, visits, parse), m) == Append(Slot(blocks, m), Collected(visits, parse, m))
    decreases |visits|
  {
    if |visits| == 0 {
      assert Append(Slot(blocks, m), NoEntries) == Slot(blocks, m);
    } else {
      var next := Accept(blocks, visits[0], parse);
      var first := Landed(visits[0], parse, m);
      var rest := Collected(visits[1..], parse, m);
      AcceptAllSlot(next, visits[1..], parse, m);
      AcceptSlot(blocks, visits[0], parse, m);
      AppendAssoc(Slot(blocks, m), first, rest);
    }
  }

  /** The scan keeps every record named after its key. */
  lemma {:induction false} AcceptAllWellNamed(blocks: map<string, BlockRecord>, visits: seq<Visit>, parse: string -> Notation)
    requires WellNamed(blocks)
    ensures WellNamed(AcceptAll(blocks, visits, parse))
    decreases |visits|
  {
    if |visits| > 0 {
      var n := parse(BemName(visits[0].info.name));
      if DirMatches(visits[0].parentDir, n) {
        PlacedWellNamed(blocks, n, visits[0].info);
      }
      AcceptAllWellNamed(Accept(blocks, visits[0], parse), visits[1..], parse);
    }
  }

  /** A level: its path, its table of blocks and whether loading has completed. */
  class Level {
    const path: string
    var blocks: map<string, BlockRecord>
    /** The state of `_loadDeferred`: resolved once loaded from cache or by a scan. */
    var loaded: bool

    constructor (path: string)
      ensures this.path == path && blocks == map[] && !loaded
    {
      this.path := path;
      blocks := map[];
      loaded := false;
    }

    /** Replaces the table wholesale with cached data and resolves loading. */
    method LoadFromCache(data: map<string, BlockRecord>)
      modifies this
      ensures blocks == data && loaded
    {
      blocks := data;
      loaded := true;
    }

    /** The table, as a value. */
    function GetBlocks(): (r: map<string, BlockRecord>)
      reads this
      ensures r == blocks
    {
      blocks
    }

    /** `this.blocks[blockName]`: the record when there is one, `undefined` otherwise. */
    function HasBlock(blockName: string): (r: Option<BlockRecord>)
      reads this
      ensures r.Some? <==> blockName in blocks
      ensures r.Some? ==> r.value == blocks[blockName] && Slot(blocks, Notation(blockName, None, None, None)) == r.value.own
    {
      if blockName in blocks then Some(blocks[blockName]) else None
    }

    /**
     * The scan callback for a file whose BEM name parsed as `n`: a file in
     * the wrong directory is ignored; otherwise the block, the element, the
     * modifier and its value are looked up or created and the file is
     * pushed onto the matching list (lib/levels/level.js:86-117).
     */
    method OnFile(v: Visit, n: Notation)
      modifies this
      ensures blocks == if DirMatches(v.parentDir, n) then Placed(old(blocks), n, v.info) else old(blocks)
      ensures loaded == old(loaded)
    {
      if !DirMatches(v.parentDir, n) {
        return;
      }
      var block: BlockRecord;
      if n.block in blocks {
        block := blocks[n.block];
      } else {
        block := BlockRecord(n.block, NoEntries, map[], map[]);
        blocks := blocks[n.block := block];
      }
      if HasElem(n) {
        var elem := n.elem.value;
        var dest: ElemRecord;
        if elem in block.elements {
          dest := block.elements[elem];
        } else {
          dest := ElemRecord(elem, NoEntries, map[]);
        }
        if HasMod(n) {
          dest := dest.(mods := PushMod(dest.mods, n, v.info));
        } else {
          dest := dest.(own := Push(dest.own, v.info));
        }
        block := block.(elements := block.elements[elem := dest]);
      } else if HasMod(n) {
        block := block.(mods := PushMod(block.mods, n, v.info));
      } else {
        block := block.(own := Push(block.own, v.info));
      }
      blocks := blocks[n.block := block];
    }

    /**
     * `load` without a scheme builder: nothing happens once loading has
     * completed; otherwise every callback of the scan is applied in turn and
     * loading completes. `visits` are the callbacks of the directory walk.
     */
    method Load(visits: seq<Visit>, parse: string -> Notation)
      modifies this
      ensures old(loaded) ==> blocks == old(blocks)
      ensures !old(loaded) ==> blocks == AcceptAll(old(blocks), visits, parse)
      ensures loaded
    {
      if loaded {
        return;
      }
      var i := 0;
      while i < |visits|
        invariant 0 <= i <= |visits|
        invariant AcceptAll(blocks, visits[i..], parse) == AcceptAll(old(blocks), visits, parse)
      {
        var v := visits[i];
        assert visits[i..][1..] == visits[i + 1..];
        OnFile(v, parse(BemName(v.info.name)));
        i := i + 1;
      }
      loaded := true;
    }
  }
}
