/** Which rows a restore request selects (restore/restore.go:498-572, 619-653). */
module Selection {
  // ----- SQLite's LIKE -----------------------------------------------------------------------------

  /** LIKE's own character equality: upper and lower case ASCII letters are the same. */
  function Fold(c: char): char {
    if 'A' <= c <= 'Z' then c - 'A' + 'a' else c
  }

  /** `text LIKE pattern ESCAPE '\'` */
  predicate Like(pattern: string, text: string)
    decreases |pattern| + |text|
  {
    if pattern == "" then text == ""
    else if pattern[0] == '%' then Like(pattern[1..], text) || (text != "" && Like(pattern, text[1..]))
    else if pattern[0] == '_' then text != "" && Like(pattern[1..], text[1..])
    else if pattern[0] == '\\' then
      |pattern| >= 2 && text != "" && Fold(pattern[1]) == Fold(text[0]) && Like(pattern[2..], text[1..])
    else text != "" && Fold(pattern[0]) == Fold(text[0]) && Like(pattern[1..], text[1..])
  }

  function EscapeChar(c: char): string {
    if c == '\\' || c == '%' || c == '_' then ['\\', c] else [c]
  }

  /** The replacer that protects the escape character and the two wildcards. */
  function Escape(s: string): string {
    if |s| == 0 then "" else EscapeChar(s[0]) + Escape(s[1..])
  }

  /** `prefix` is a prefix of `text`, up to LIKE's character equality. */
  predicate FoldPrefix(prefix: string, text: string) {
    |prefix| <= |text| && forall i | 0 <= i < |prefix| :: Fold(prefix[i]) == Fold(text[i])
  }

  lemma {:induction false} PercentMatchesAll(text: string)
    ensures Like("%", text)
    decreases |text|
  {
    if text != "" {
      PercentMatchesAll(text[1..]);
      assert Like("%", text[1..]);
    } else {
      assert Like("%"[1..], "");
    }
  }

  /** LIKE on an escaped text followed by `%` matches exactly the strings with that text as prefix. */
  lemma {:induction false} EscapedPrefix(prefix: string, text: string)
    ensures Like(Escape(prefix) + "%", text) <==> FoldPrefix(prefix, text)
    decreases |prefix|
  {
    var pattern := Escape(prefix) + "%";
    if prefix == "" {
      assert pattern == "%";
      PercentMatchesAll(text);
    } else {
      var rest := Escape(prefix[1..]) + "%";
      assert pattern[|EscapeChar(prefix[0])|..] == rest;
      if text != "" {
        EscapedPrefix(prefix[1..], text[1..]);
        FoldPrefixStep(prefix, text);
      }
    }
  }

  /** A percent sign stands for any text, an underscore for one character, and an escaped text for itself. */
  lemma {:induction false} PercentIsAnyText(rest: string, text: string)
    ensures Like("%" + rest, text) <==> exists i | 0 <= i <= |text| :: Like(rest, text[i..])
    decreases |text|
  {
    assert ("%" + rest)[1..] == rest && text[0..] == text;
    if text != "" {
      PercentIsAnyText(rest, text[1..]);
      assert forall i | 0 <= i <= |text| - 1 :: text[1..][i..] == text[i + 1..];
      if i :| 0 < i <= |text| && Like(rest, text[i..]) {
        assert text[1..][i - 1..] == text[i..];
      }
    }
  }

  lemma {:induction false} UnderscoreIsOneCharacter(rest: string, text: string)
    ensures Like("_" + rest, text) <==> text != "" && Like(rest, text[1..])
  {
    assert ("_" + rest)[1..] == rest;
  }

  lemma {:induction false} EscapedIsItself(s: string, text: string)
    ensures Like(Escape(s), text) <==> |text| == |s| && FoldPrefix(s, text)
    decreases |s|
  {
    if s != "" {
      assert Escape(s)[|EscapeChar(s[0])|..] == Escape(s[1..]);
      if text != "" {
        EscapedIsItself(s[1..], text[1..]);
        FoldPrefixStep(s, text);
      }
    }
  }

  lemma FoldPrefixStep(prefix: string, text: string)
    requires prefix != "" && text != ""
    ensures FoldPrefix(prefix, text) <==> Fold(prefix[0]) == Fold(text[0]) && FoldPrefix(prefix[1..], text[1..])
  {
    if Fold(prefix[0]) == Fold(text[0]) && FoldPrefix(prefix[1..], text[1..]) {
      forall i | 0 <= i < |prefix| ensures Fold(prefix[i]) == Fold(text[i]) {
        if i > 0 {
          assert Fold(prefix[1..][i - 1]) == Fold(text[1..][i - 1]);
        }
      }
    }
  }

  // ----- requested paths ---------------------------------------------------------------------------

  predicate IsSeparator(c: char) {
    c == '/' || c == '\\'
  }

  predicate IsRoot(path: string) {
    path == "/" || (|path| == 3 && path[1] == ':')
  }

  /** The first `n` characters end in a separator and are no root. */
  ghost predicate Strippable(path: string, n: nat)
    requires 0 < n <= |path|
  {
    IsSeparator(path[n - 1]) && !IsRoot(path[..n])
  }

  /** `stripTrailingSeparators`: the longest prefix that ends in no separator, or a root on the way to it. */
  method StripTrailing(path: string) returns (r: string)
    ensures r <= path && (r == "" || !IsSeparator(r[|r| - 1]) || IsRoot(r))
    ensures forall n :: |r| < n <= |path| ==> Strippable(path, n)
  {
    r := path;
    while |r| > 0
      invariant r <= path
      invariant forall n :: |r| < n <= |path| ==> Strippable(path, n)
    {
      if !IsSeparator(r[|r| - 1]) || IsRoot(r) {
        return;
      }
      assert r == path[..|r|] && r[..|r| - 1] == path[..|r| - 1];
      r := r[..|r| - 1];
    }
  }

  // ----- selection ---------------------------------------------------------------------------------

  /** A row of the source job's collection, as the manifest query returns it. */
  datatype Row = Row(uuid: string, path: string, isDir: bool)

  /** The rows with a property, in the order of the table (both queries order by type and path). */
  function Where(rows: seq<Row>, keep: Row -> bool): seq<Row> {
    if |rows| == 0 then [] else Where(rows[..|rows| - 1], keep) + (if keep(rows[|rows| - 1]) then [rows[|rows| - 1]] else [])
  }

  lemma {:induction false} WhereIs(rows: seq<Row>, keep: Row -> bool, r: Row)
    ensures r in Where(rows, keep) <==> r in rows && keep(r)
  {
    if |rows| > 0 {
      WhereIs(rows[..|rows| - 1], keep, r);
      assert rows == rows[..|rows| - 1] + [rows[|rows| - 1]];
    }
  }

  ghost predicate DistinctUuids(rows: seq<Row>) {
    forall i, j | 0 <= i < j < |rows| :: rows[i].uuid != rows[j].uuid
  }

  lemma {:induction false} WhereDistinct(rows: seq<Row>, keep: Row -> bool)
    requires DistinctUuids(rows)
    ensures DistinctUuids(Where(rows, keep))
  {
    if |rows| > 0 {
      var init, last := rows[..|rows| - 1], rows[|rows| - 1];
      WhereDistinct(init, keep);
      forall i | 0 <= i < |Where(init, keep)| ensures Where(init, keep)[i].uuid != last.uuid {
        WhereIs(init, keep, Where(init, keep)[i]);
      }
    }
  }

  /** The patterns of the second query match the path. */
  predicate MatchesAny(dirs: seq<string>, separator: char, path: string) {
    exists d | d in dirs :: Like(ChildPattern(d, separator), path)
  }

  /** The requested directories that have a row. */
  function DirsOf(exact: seq<Row>): seq<string> {
    if |exact| == 0 then []
    else DirsOf(exact[..|exact| - 1]) + (if exact[|exact| - 1].isDir then [exact[|exact| - 1].path] else [])
  }

  lemma {:induction false} DirsOfIs(exact: seq<Row>, d: string)
    ensures d in DirsOf(exact) <==> exists r | r in exact :: r.isDir && r.path == d
  {
    if |exact| > 0 {
      DirsOfIs(exact[..|exact| - 1], d);
      assert exact == exact[..|exact| - 1] + [exact[|exact| - 1]];
    }
  }

  /** The row is requested, or lies below a requested directory with a row of its own, up to LIKE's equality. */
  ghost predicate Selected(rows: seq<Row>, files: seq<string>, separator: char, r: Row) {
    || r.path in files
    || exists d | d in rows :: d.isDir && d.path in files && FoldPrefix(d.path + [separator], r.path)
  }

  lemma {:induction false} EscapeConcat(a: string, b: string)
    ensures Escape(a + b) == Escape(a) + Escape(b)
    decreases |a|
  {
    var all := a + b;
    if |a| == 0 {
      assert all == b;
    } else {
      EscapeConcat(a[1..], b);
      assert all[1..] == a[1..] + b;
      assert Escape(all) == EscapeChar(a[0]) + (Escape(a[1..]) + Escape(b));
    }
  }

  /** The second query finds exactly the rows below the requested directories. */
  lemma {:induction false} MatchesAnyIs(rows: seq<Row>, files: seq<string>, exact: seq<Row>, separator: char, path: string)
    requires forall r :: r in exact <==> r in rows && r.path in files
    ensures MatchesAny(DirsOf(exact), separator, path) <==>
            exists d | d in rows :: d.isDir && d.path in files && FoldPrefix(d.path + [separator], path)
  {
    forall d: string ensures Like(ChildPattern(d, separator), path) <==> FoldPrefix(d + [separator], path) {
      ChildPatternIs(d, separator, path);
    }
    if MatchesAny(DirsOf(exact), separator, path) {
      var d :| d in DirsOf(exact) && Like(ChildPattern(d, separator), path);
      DirsOfIs(exact, d);
    }
    if d :| d in rows && d.isDir && d.path in files && FoldPrefix(d.path + [separator], path) {
      DirsOfIs(exact, d.path);
    }
  }

  /** A uuid is the key of the table of rows. */
  ghost predicate UuidIsKey(rows: seq<Row>) {
    forall a, b | a in rows && b in rows && a.uuid == b.uuid :: a == b
  }

  function Exact(rows: seq<Row>, files: seq<string>): seq<Row> {
    Where(rows, (r: Row) => r.path in files)
  }

  function Children(rows: seq<Row>, dirs: seq<string>, separator: char): seq<Row> {
    Where(rows, (r: Row) => MatchesAny(dirs, separator, r.path))
  }

  lemma QueriesAre(rows: seq<Row>, files: seq<string>, separator: char, r: Row)
    ensures var exact := Exact(rows, files);
            && (r in exact <==> r in rows && r.path in files)
            && (r in exact || r in Children(rows, DirsOf(exact), separator) <==> r in rows && Selected(rows, files, separator, r))
  {
    var exact := Exact(rows, files);
    forall x: Row ensures x in exact <==> x in rows && x.path in files {
      WhereIs(rows, (r: Row) => r.path in files, x);
    }
    WhereIs(rows, (r: Row) => MatchesAny(DirsOf(exact), separator, r.path), r);
    MatchesAnyIs(rows, files, exact, separator, r.path);
  }

  /**
   * `fetchItems`: the rows with a requested path, then the rows below a requested directory that has a row of its own.
   * Without requested paths it is every row of the job. No uuid is repeated unless the join repeats one.
   */
  method FetchItems(rows: seq<Row>, allFiles: bool, files: seq<string>, separator: char) returns (items: seq<Row>)
    requires UuidIsKey(rows)
    ensures forall r :: r in items <==> r in rows && (allFiles || files == [] || Selected(rows, files, separator, r))
    ensures DistinctUuids(rows) ==> DistinctUuids(items)
  {
    if allFiles || files == [] {
      return rows;
    }
    items := Exact(rows, files);
    var children := Children(rows, DirsOf(items), separator);
    forall r: Row
      ensures r in items || r in children <==> r in rows && Selected(rows, files, separator, r)
    {
      QueriesAre(rows, files, separator, r);
    }
    if DistinctUuids(rows) {
      WhereDistinct(rows, (r: Row) => r.path in files);
    }
    items := MergeUnseen(items, children);
  }

  /** The merge that leaves out rows already seen. */
  method MergeUnseen(exact: seq<Row>, children: seq<Row>) returns (items: seq<Row>)
    requires UuidIsKey(exact + children)
    ensures forall r :: r in items <==> r in exact || r in children
    ensures DistinctUuids(exact) ==> DistinctUuids(items)
  {
    items := exact;
    var seen := set r | r in exact :: r.uuid;
    for k := 0 to |children|
      invariant forall r :: r in items <==> r in exact || r in children[..k]
      invariant seen == set r | r in items :: r.uuid
      invariant DistinctUuids(exact) ==> DistinctUuids(items)
    {
      var child := children[k];
      assert child in exact + children;
      if child.uuid !in seen {
        seen := seen + {child.uuid};
        items := items + [child];
      } else {
        var r :| r in items && r.uuid == child.uuid;
        assert r in exact + children;
      }
    }
  }

  predicate EndsIn(dir: string, separator: char) {
    dir != "" && dir[|dir| - 1] == separator
  }

  /** `path` names something inside the directory; a root such as `/` ends in the separator already. */
  ghost predicate Inside(dir: string, separator: char, path: string) {
    if EndsIn(dir, separator) then dir <= path && dir != path else dir + [separator] <= path
  }

  predicate IsLetter(c: char) {
    'a' <= c <= 'z' || 'A' <= c <= 'Z'
  }

  /** The same letter in the other case. */
  function Swap(c: char): char {
    if 'a' <= c <= 'z' then c - 'a' + 'A' else if 'A' <= c <= 'Z' then c - 'A' + 'a' else c
  }

  /** The pattern of the second query for a directory. */
  function ChildPattern(dir: string, separator: char): string {
    Escape(dir) + Escape([separator]) + "%"
  }

  lemma {:induction false} ChildPatternIs(dir: string, separator: char, path: string)
    ensures Like(ChildPattern(dir, separator), path) <==> FoldPrefix(dir + [separator], path)
  {
    EscapeConcat(dir, [separator]);
    EscapedPrefix(dir + [separator], path);
  }

  /**
   * The second query finds exactly what is inside a directory, whatever the paths on record, exactly when the name of the
   * directory has no ASCII letter and does not end in the separator.
   */
  lemma ExactIff(dir: string, separator: char)
    requires !IsLetter(separator)
    ensures (forall path :: Like(ChildPattern(dir, separator), path) <==> Inside(dir, separator, path)) <==>
            !EndsIn(dir, separator) && forall i | 0 <= i < |dir| :: !IsLetter(dir[i])
  {
    var prefix := dir + [separator];
    forall path ensures Like(ChildPattern(dir, separator), path) <==> FoldPrefix(prefix, path) {
      ChildPatternIs(dir, separator, path);
    }
    if EndsIn(dir, separator) {
      var child := dir + ['x'];
      assert Inside(dir, separator, child);
      assert prefix[|dir|] == separator && child[|dir|] == 'x';
      assert !FoldPrefix(prefix, child);
    } else if i :| 0 <= i < |dir| && IsLetter(dir[i]) {
      var variant := prefix[i := Swap(dir[i])];
      assert FoldPrefix(prefix, variant);
      assert variant[i] != prefix[i];
      assert !Inside(dir, separator, variant);
    } else {
      forall path ensures FoldPrefix(prefix, path) <==> prefix <= path {
        if FoldPrefix(prefix, path) {
          forall i | 0 <= i < |prefix| ensures prefix[i] == path[i] {
            assert !IsLetter(prefix[i]) && Fold(prefix[i]) == Fold(path[i]);
          }
        }
      }
    }
  }

  /** So the selection is exact when every requested directory is of that kind. */
  lemma SelectedExactly(rows: seq<Row>, files: seq<string>, separator: char, r: Row)
    requires !IsLetter(separator)
    requires forall d | d in rows && d.isDir && d.path in files ::
               !EndsIn(d.path, separator) && forall i | 0 <= i < |d.path| :: !IsLetter(d.path[i])
    ensures Selected(rows, files, separator, r) <==>
            r.path in files || exists d | d in rows :: d.isDir && d.path in files && Inside(d.path, separator, r.path)
  {
    forall d | d in rows && d.isDir && d.path in files
      ensures FoldPrefix(d.path + [separator], r.path) <==> Inside(d.path, separator, r.path)
    {
      ExactIff(d.path, separator);
      ChildPatternIs(d.path, separator, r.path);
      assert Like(ChildPattern(d.path, separator), r.path) <==> Inside(d.path, separator, r.path);
    }
  }

  /** Asking for `/a` also restores what is inside `/A`; asking for `/` restores nothing that is inside it. */
  lemma CaseAndRoot()
    ensures var rows := [Row("1", "/a", true), Row("2", "/A/x", false)];
            Selected(rows, ["/a"], '/', rows[1]) && !Inside("/a", '/', rows[1].path)
    ensures var rows := [Row("1", "/", true), Row("2", "/x", false)];
            !Selected(rows, ["/"], '/', rows[1]) && Inside("/", '/', rows[1].path)
  {
    var rows := [Row("1", "/a", true), Row("2", "/A/x", false)];
    assert rows[0] in rows;
    assert rows[0].path + ['/'] == "/a/";
    forall i | 0 <= i < 3 ensures Fold("/a/"[i]) == Fold("/A/x"[i]) {
      assert i == 0 || i == 1 || i == 2;
    }
    assert FoldPrefix("/a/", rows[1].path);
    assert !Inside("/a", '/', "/A/x") by {
      assert "/a"[1] == 'a' && "/a" + ['/'] == "/a/" && "/a/"[1] == 'a' && "/A/x"[1] == 'A';
    }
    assert "/" + ['/'] == "//" && "//"[1] == '/' && "/x"[1] == 'x';
  }
}
