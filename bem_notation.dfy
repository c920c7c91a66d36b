/**
 * The parsed BEM notation of a file's base name, as the `bem-naming` library
 * hands it to the level scanner, and the rule (lib/levels/level.js:86-90) that
 * decides whether a file sits in the directory its name belongs to.
 *
 * Parsing itself belongs to `bem-naming` and is not part of this model: a
 * notation is taken as already parsed.
 */
module BemNotation {
  import opened Wrappers

  /** `{block, elem?, modName?, modVal?}` as returned by `naming.parse`. */
  datatype Notation = Notation(
    block: string,
    elem: Option<string>,
    modName: Option<string>,
    modVal: Option<string>)

  /** JavaScript truthiness of an optional string field: present and non-empty. */
  predicate Truthy(field: Option<string>) {
    field.Some? && field.value != ""
  }

  predicate HasElem(n: Notation) { Truthy(n.elem) }

  predicate HasMod(n: Notation) { Truthy(n.modName) }

  // The four kinds of `bem-naming`, told apart by which parts are set.
  predicate IsBlock(n: Notation) { !HasElem(n) && !HasMod(n) }

  predicate IsElem(n: Notation) { HasElem(n) && !HasMod(n) }

  predicate IsBlockMod(n: Notation) { !HasElem(n) && HasMod(n) }

  predicate IsElemMod(n: Notation) { HasElem(n) && HasMod(n) }

  /** The name of the directory a file of notation `n` must live in. */
  function ExpectedDirName(n: Notation): string {
    if HasMod(n) then "_" + n.modName.value
    else if HasElem(n) then "__" + n.elem.value
    else n.block
  }

  /**
   * The acceptance condition of the scan callback. In JavaScript `&&` binds
   * tighter than `||`, so the source's `notation &&` guard only covers the
   * block disjunct; with a notation always present it drops out, and the
   * three disjuncts are written here with that grouping made explicit.
   */
  function DirMatches(dirname: string, n: Notation): (ok: bool)
    ensures ok <==> dirname == ExpectedDirName(n)
    ensures IsBlock(n) ==> (ok <==> dirname == n.block)
    ensures IsElem(n) ==> (ok <==> dirname == "__" + n.elem.value)
    ensures IsBlockMod(n) || IsElemMod(n) ==> (ok <==> dirname == "_" + n.modName.value)
  {
    (IsBlock(n) && dirname == n.block)
    || (IsElem(n) && dirname == "__" + n.elem.value)
    || ((IsBlockMod(n) || IsElemMod(n)) && dirname == "_" + n.modName.value)
  }
}
