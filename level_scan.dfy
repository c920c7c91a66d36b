/**
 * String rules of the level scanner (lib/levels/level.js): the BEM name of a
 * file is the part of its base name before the first dot (line 83), its
 * suffix the part after it (line 140), and directory entries whose name
 * starts with a dot are skipped (lines 132-134).
 */
module LevelScan {

  /** `s.split(sep)` in JavaScript: never empty, `"".split(sep) == [""]`. */
  function Split(s: string, sep: char): (parts: seq<string>)
    ensures |parts| >= 1
    ensures forall k :: 0 <= k < |parts| ==> sep !in parts[k]
    decreases |s|
  {
    if |s| == 0 then [""]
    else if s[0] == sep then [""] + Split(s[1..], sep)
    else
      var rest := Split(s[1..], sep);
      [[s[0]] + rest[0]] + rest[1..]
  }

  /** `parts.join(sep)` in JavaScript: `[].join(sep) == ""`. */
  function Join(parts: seq<string>, sep: char): string
  {
    if |parts| == 0 then ""
    else if |parts| == 1 then parts[0]
    else parts[0] + [sep] + Join(parts[1..], sep)
  }

  /** Joining the pieces of a split with the same separator gives back the string. */
  lemma {:induction false} JoinSplit(s: string, sep: char)
    ensures Join(Split(s, sep), sep) == s
    decreases |s|
  {
    if |s| == 0 {
    } else if s[0] == sep {
      JoinSplit(s[1..], sep);
      assert s == [sep] + s[1..];
    } else {
      JoinSplit(s[1..], sep);
      var rest := Split(s[1..], sep);
      if |rest| > 1 {
        assert ([[s[0]] + rest[0]] + rest[1..])[1..] == rest[1..];
        assert Join(rest, sep) == rest[0] + [sep] + Join(rest[1..], sep);
      }
      assert s == [s[0]] + s[1..];
    }
  }

  /** A string without the separator splits into itself alone. */
  lemma {:induction false} SplitWithoutSep(s: string, sep: char)
    requires sep !in s
    ensures Split(s, sep) == [s]
    decreases |s|
  {
    if |s| > 0 {
      SplitWithoutSep(s[1..], sep);
      assert s == [s[0]] + s[1..];
    }
  }

  /** The BEM name of a file: `name.split('.')[0]` (lib/levels/level.js:83). */
  function BemName(name: string): string {
    Split(name, '.')[0]
  }

  /** The suffix of a file: `name.split('.').slice(1).join('.')` (lib/levels/level.js:140). */
  function Suffix(name: string): string {
    Join(Split(name, '.')[1..], '.')
  }

  /**
   * The BEM name holds no dot; with a dot in the name, BEM name, a dot and the
   * suffix give back the name; without one the BEM name is the whole name and
   * the suffix is empty.
   */
  lemma BemNameSuffix(name: string)
    ensures '.' !in BemName(name)
    ensures '.' in name ==> BemName(name) + "." + Suffix(name) == name
    ensures '.' !in name ==> BemName(name) == name && Suffix(name) == ""
  {
    var parts := Split(name, '.');
    JoinSplit(name, '.');
    if '.' in name {
      assert |parts| > 1;
      assert Join(parts, '.') == parts[0] + ['.'] + Join(parts[1..], '.');
    } else {
      SplitWithoutSep(name, '.');
    }
  }

  /** `filename.charAt(0) !== '.'`: an empty name passes, `charAt(0)` being `""`. */
  predicate Visible(basename: string) {
    !(|basename| > 0 && basename[0] == '.')
  }

  /** The information the scanner builds for one directory entry. */
  datatype FileInfo = FileInfo(name: string, isDirectory: bool, suffix: string)

  /** A directory entry with the answer of `stat.isDirectory()`. */
  datatype Entry = Entry(basename: string, isDirectory: bool)

  /** One call of the scan callback: the file info and the name of its parent directory. */
  datatype Visit = Visit(info: FileInfo, parentDir: string)

  function InfoOf(e: Entry): FileInfo {
    FileInfo(e.basename, e.isDirectory, Suffix(e.basename))
  }

  /**
   * The callbacks that scanning one directory, named `dirName`, makes for its
   * own entries, in listing order: dot-entries are dropped before any stat or
   * callback happens (lib/levels/level.js:132-163).
   */
  function ScanListing(dirName: string, listing: seq<Entry>): (visits: seq<Visit>)
    ensures |visits| <= |listing|
    ensures forall k :: 0 <= k < |visits| ==> Visible(visits[k].info.name)
    ensures forall k :: 0 <= k < |visits| ==> visits[k].parentDir == dirName
    ensures forall k :: 0 <= k < |visits| ==> visits[k].info.suffix == Suffix(visits[k].info.name)
    ensures forall e :: e in listing && Visible(e.basename) <==> Visit(InfoOf(e), dirName) in visits
  {
    if |listing| == 0 then []
    else
      var rest := ScanListing(dirName, listing[1..]);
      assert forall e :: e in listing <==> e == listing[0] || e in listing[1..];
      if Visible(listing[0].basename) then [Visit(InfoOf(listing[0]), dirName)] + rest
      else rest
  }

  /**
   * Each visible entry yields exactly as many callbacks as it occurs in the
   * listing (once, for a directory listing), and a dot-entry yields none.
   */
  lemma {:induction false} ScanListingOnce(dirName: string, listing: seq<Entry>, e: Entry)
    ensures multiset(ScanListing(dirName, listing))[Visit(InfoOf(e), dirName)]
            == if Visible(e.basename) then multiset(listing)[e] else 0
  {
    if |listing| > 0 {
      ScanListingOnce(dirName, listing[1..], e);
      assert listing == [listing[0]] + listing[1..];
      assert multiset(listing) == multiset([listing[0]]) + multiset(listing[1..]);
      assert Visit(InfoOf(listing[0]), dirName) == Visit(InfoOf(e), dirName) <==> listing[0] == e;
    }
  }
}
