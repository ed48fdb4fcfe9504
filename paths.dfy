/**
 * File-system paths as strings, the order Swift's `<` and `>` put on them,
 * and the filter/sort pipelines the capture-folder gallery runs over a
 * directory listing. A listing is given as a sequence of entries instead
 * of being read from disk.
 */
module Paths {
  import opened Wrappers

  // ---------------------------------------------------------------------
  // Lexicographic order on strings
  // ---------------------------------------------------------------------

  /** `a < b` on strings: character by character, a proper prefix first. */
  predicate StrLt(a: string, b: string)
    ensures StrLt(a, b) ==> a != b
    ensures |a| < |b| && a == b[..|a|] ==> StrLt(a, b)
  {
    if |a| == 0 then |b| > 0
    else |b| > 0 && (a[0] < b[0] || (a[0] == b[0] && StrLt(a[1..], b[1..])))
  }

  lemma {:induction false} StrLtIrreflexive(a: string)
    ensures !StrLt(a, a)
  {
    if |a| > 0 {
      StrLtIrreflexive(a[1..]);
    }
  }

  /** Any two strings are equal or one is strictly before the other, never both. */
  lemma {:induction false} StrLtTrichotomy(a: string, b: string)
    ensures StrLt(a, b) || a == b || StrLt(b, a)
    ensures !(StrLt(a, b) && StrLt(b, a))
  {
    if |a| > 0 && |b| > 0 && a[0] == b[0] {
      StrLtTrichotomy(a[1..], b[1..]);
      if a[1..] == b[1..] {
        assert a == [a[0]] + a[1..] && b == [b[0]] + b[1..];
      }
    }
  }

  lemma {:induction false} StrLtTransitive(a: string, b: string, c: string)
    requires StrLt(a, b) && StrLt(b, c)
    ensures StrLt(a, c)
  {
    if |a| > 0 && a[0] == b[0] && b[0] == c[0] {
      StrLtTransitive(a[1..], b[1..], c[1..]);
    }
  }

  // ---------------------------------------------------------------------
  // Path components
  // ---------------------------------------------------------------------

  /** The separator `URL.appendingPathComponent` puts between a path and a component. */
  function Separator(path: string): string
  {
    if |path| > 0 && path[|path| - 1] == '/' then "" else "/"
  }

  /** `URL.appendingPathComponent` on the path of a directory URL: one separator, then the component. */
  function AppendingPathComponent(path: string, component: string): (r: string)
    ensures |path| <= |r| && r[..|path|] == path
    ensures r[|path|..] == if |path| > 0 && path[|path| - 1] == '/' then component else "/" + component
    ensures '/' !in component && component != "" ==> LastPathComponent(r) == component
  {
    var r := path + Separator(path) + component;
    assert r[..|path|] == path && r[|path|..] == Separator(path) + component;
    LastOfAppended(path, component);
    r
  }

  /** A non-empty component without '/' is the last component of the path it is appended to. */
  lemma LastOfAppended(path: string, component: string)
    ensures '/' !in component && component != "" ==> LastPathComponent(path + Separator(path) + component) == component
  {
    if '/' !in component && component != "" {
      var prefix := if Separator(path) == "" then path[..|path| - 1] else path;
      assert prefix + "/" + component == path + Separator(path) + component;
      LastOfSeparated(prefix, component);
    }
  }

  /** The path without its trailing '/' characters. */
  function TrimTrailingSlashes(path: string): (r: string)
    ensures |r| <= |path| && r == path[..|r|]
    ensures |r| == 0 || r[|r| - 1] != '/'
    ensures forall i :: |r| <= i < |path| ==> path[i] == '/'
  {
    if |path| > 0 && path[|path| - 1] == '/' then TrimTrailingSlashes(path[..|path| - 1]) else path
  }

  /** The longest suffix without a '/'. */
  function AfterLastSlash(s: string): (r: string)
    ensures '/' !in r
    ensures |r| <= |s| && r == s[|s| - |r|..]
    ensures |r| == |s| || s[|s| - |r| - 1] == '/'
  {
    if |s| == 0 || s[|s| - 1] == '/' then ""
    else AfterLastSlash(s[..|s| - 1]) + [s[|s| - 1]]
  }

  /**
   * `URL.lastPathComponent`: trailing '/' characters are ignored, then the
   * text after the last '/' is taken; a path of '/' characters alone is the
   * root, "/".
   */
  function LastPathComponent(path: string): (r: string)
    ensures path == "" ==> r == ""
    ensures path != "" && (forall i :: 0 <= i < |path| ==> path[i] == '/') ==> r == "/"
    ensures var t := TrimTrailingSlashes(path);
            t != "" ==> && r != "" && '/' !in r
                        && |r| <= |t| && r == t[|t| - |r|..]
                        && (|r| == |t| || t[|t| - |r| - 1] == '/')
  {
    var t := TrimTrailingSlashes(path);
    if t == "" then (if path == "" then "" else "/") else AfterLastSlash(t)
  }

  lemma {:induction false} LastOfSeparated(prefix: string, component: string)
    requires '/' !in component && component != ""
    ensures LastPathComponent(prefix + "/" + component) == component
  {
    var p := prefix + "/" + component;
    assert TrimTrailingSlashes(p) == p;
    AfterLastSlashOfSeparated(prefix, component);
  }

  lemma {:induction false} AfterLastSlashOfSeparated(prefix: string, component: string)
    requires '/' !in component
    ensures AfterLastSlash(prefix + "/" + component) == component
  {
    var p := prefix + "/" + component;
    if |component| > 0 {
      var init := component[..|component| - 1];
      assert p[..|p| - 1] == prefix + "/" + init;
      AfterLastSlashOfSeparated(prefix, init);
      assert component == init + [component[|component| - 1]];
    } else {
      assert p[|p| - 1] == '/';
    }
  }

  // ---------------------------------------------------------------------
  // Directory listings
  // ---------------------------------------------------------------------

  /** One URL returned by `FileManager.contentsOfDirectory`. */
  datatype DirEntry = DirEntry(path: string, isDir: bool)

  function Directories(entries: seq<DirEntry>): (r: seq<DirEntry>)
    ensures forall e :: multiset(r)[e] == if e.isDir then multiset(entries)[e] else 0
  {
    if entries == [] then []
    else
      assert entries == [entries[0]] + entries[1..];
      (if entries[0].isDir then [entries[0]] else []) + Directories(entries[1..])
  }

  function Files(entries: seq<DirEntry>): (r: seq<DirEntry>)
    ensures forall e :: multiset(r)[e] == if e.isDir then 0 else multiset(entries)[e]
  {
    if entries == [] then []
    else
      assert entries == [entries[0]] + entries[1..];
      (if entries[0].isDir then [] else [entries[0]]) + Files(entries[1..])
  }

  // ---------------------------------------------------------------------
  // sorted(by:) with a strict comparator on paths
  // ---------------------------------------------------------------------

  datatype SortOrder = Ascending | Descending

  /** The comparator handed to `sorted(by:)`: `$0.path < $1.path` or `$0.path > $1.path`. */
  predicate Before(a: DirEntry, b: DirEntry, order: SortOrder)
  {
    match order
    case Ascending => StrLt(a.path, b.path)
    case Descending => StrLt(b.path, a.path)
  }

  /** No entry is strictly before an entry that precedes it. */
  predicate Sorted(s: seq<DirEntry>, order: SortOrder)
  {
    forall i, j :: 0 <= i < j < |s| ==> !Before(s[j], s[i], order)
  }

  lemma BeforeAsymmetric(a: DirEntry, b: DirEntry, order: SortOrder)
    ensures !(Before(a, b, order) && Before(b, a, order))
  {
    StrLtTrichotomy(a.path, b.path);
  }

  /** "Not before" is transitive: the comparator is a strict weak order. */
  lemma NotBeforeTransitive(a: DirEntry, b: DirEntry, c: DirEntry, order: SortOrder)
    requires !Before(b, a, order) && !Before(c, b, order)
    ensures !Before(c, a, order)
  {
    StrLtTrichotomy(a.path, b.path);
    StrLtTrichotomy(b.path, c.path);
    StrLtTrichotomy(a.path, c.path);
    if Before(c, a, order) {
      match order
      case Ascending =>
        if StrLt(a.path, b.path) { StrLtTransitive(c.path, a.path, b.path); }
        if StrLt(b.path, c.path) { StrLtTransitive(b.path, c.path, a.path); }
      case Descending =>
        if StrLt(b.path, a.path) { StrLtTransitive(b.path, a.path, c.path); }
        if StrLt(c.path, b.path) { StrLtTransitive(a.path, c.path, b.path); }
    }
  }

  function Insert(x: DirEntry, s: seq<DirEntry>, order: SortOrder): (r: seq<DirEntry>)
    requires Sorted(s, order)
    ensures multiset(r) == multiset(s) + multiset{x}
    ensures Sorted(r, order)
  {
    if s == [] || !Before(s[0], x, order) then
      InsertFront(x, s, order);
      [x] + s
    else
      var tail := Insert(x, s[1..], order);
      assert s == [s[0]] + s[1..];
      InsertBehind(s[0], x, s[1..], tail, order);
      [s[0]] + tail
  }

  lemma InsertFront(x: DirEntry, s: seq<DirEntry>, order: SortOrder)
    requires Sorted(s, order)
    requires s == [] || !Before(s[0], x, order)
    ensures Sorted([x] + s, order)
  {
    var r := [x] + s;
    forall i, j | 0 <= i < j < |r| ensures !Before(r[j], r[i], order) {
      if i == 0 && j > 1 {
        NotBeforeTransitive(x, s[0], s[j - 1], order);
      }
    }
  }

  lemma InsertBehind(h: DirEntry, x: DirEntry, rest: seq<DirEntry>, tail: seq<DirEntry>, order: SortOrder)
    requires Sorted([h] + rest, order) && Sorted(tail, order)
    requires Before(h, x, order)
    requires multiset(tail) == multiset(rest) + multiset{x}
    ensures Sorted([h] + tail, order)
  {
    var r := [h] + tail;
    forall i, j | 0 <= i < j < |r| ensures !Before(r[j], r[i], order) {
      if i == 0 {
        var y := tail[j - 1];
        assert r[0] == h && r[j] == y;
        assert y in multiset(tail);
        if y == x {
          BeforeAsymmetric(h, x, order);
        } else {
          assert y in multiset(rest);
          var k :| 0 <= k < |rest| && rest[k] == y;
          assert ([h] + rest)[k + 1] == y && ([h] + rest)[0] == h;
          assert !Before(([h] + rest)[k + 1], ([h] + rest)[0], order);
        }
      } else {
        assert r[i] == tail[i - 1] && r[j] == tail[j - 1];
      }
    }
  }

  /** `sorted(by:)`: a permutation of its input that the comparator finds in order. */
  function Sort(s: seq<DirEntry>, order: SortOrder): (r: seq<DirEntry>)
    ensures multiset(r) == multiset(s)
    ensures Sorted(r, order)
  {
    if s == [] then []
    else
      assert s == [s[0]] + s[1..];
      Insert(s[0], Sort(s[1..], order), order)
  }
}
