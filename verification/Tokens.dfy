/**
 * Pagination: the `next` tokens of the report endpoints and the paging of the restore report list
 * (httpd/api_rest_report.go:280-323, 553-617, 991-1027, 1172-1177). Go strings are byte strings here.
 */
module Tokens {
  import opened Common
  import opened Base64

  const COLON: Byte := 58
  const MINUS: Byte := 45
  const PLUS: Byte := 43
  const TWO_TO_63 := 0x8000_0000_0000_0000
  const TWO_TO_64 := 0x1_0000_0000_0000_0000

  type Uint64 = x: int | 0 <= x < TWO_TO_64
  type Int64 = x: int | -TWO_TO_63 <= x < TWO_TO_63

  // ----- strconv and strings ----------------------------------------------------------------------

  /** The bytes of an ASCII string. */
  function Ascii(s: string): Bytes {
    seq(|s|, i requires 0 <= i < |s| => if s[i] as int < 128 then s[i] as int else 63)
  }

  function FormatUint(n: nat): Bytes {
    Ascii(Decimal(n))
  }

  function FormatInt(n: int): Bytes {
    if n < 0 then [MINUS] + FormatUint(-n) else FormatUint(n)
  }

  function FormatBool(b: bool): Bytes {
    Ascii(if b then "true" else "false")
  }

  function Digits(s: Bytes): Option<nat> {
    if s == [] then None
    else
      var d: int := s[|s| - 1];
      if !(48 <= d <= 57) then None
      else if |s| == 1 then Some(d - 48)
      else
        var high := Digits(s[..|s| - 1]);
        if high.None? then None else Some(high.value * 10 + d - 48)
  }

  function ParseUint(s: Bytes): Result<Uint64> {
    var n := Digits(s);
    if n.None? || n.value >= TWO_TO_64 then Err else Ok(n.value)
  }

  function ParseInt(s: Bytes): Result<Int64> {
    if s == [] then Err
    else
      var negative := s[0] == MINUS;
      var n := ParseUint(if negative || s[0] == PLUS then s[1..] else s);
      if n.Err? then Err
      else if negative then (if n.value > TWO_TO_63 then Err else Ok(0 - n.value))
      else if n.value >= TWO_TO_63 then Err else Ok(n.value)
  }

  function ParseBool(s: Bytes): Result<bool> {
    if s in {Ascii("1"), Ascii("t"), Ascii("T"), Ascii("true"), Ascii("TRUE"), Ascii("True")} then Ok(true)
    else if s in {Ascii("0"), Ascii("f"), Ascii("F"), Ascii("false"), Ascii("FALSE"), Ascii("False")} then Ok(false)
    else Err
  }

  /** `strings.Split(s, ":")` */
  function Split(s: Bytes): (parts: seq<Bytes>)
    ensures |parts| >= 1
  {
    if s == [] then [[]]
    else
      var rest := Split(s[1..]);
      if s[0] == COLON then [[]] + rest else [[s[0]] + rest[0]] + rest[1..]
  }

  /** `strings.Join(parts, ":")` */
  function Join(parts: seq<Bytes>): Bytes {
    if parts == [] then [] else if |parts| == 1 then parts[0] else parts[0] + [COLON] + Join(parts[1..])
  }

  predicate ColonFree(s: Bytes) {
    forall i | 0 <= i < |s| :: s[i] != COLON
  }

  lemma FormatUintSnoc(n: nat)
    ensures var digit := [48 + n % 10];
            FormatUint(n) == if n < 10 then digit else FormatUint(n / 10) + digit
  {}

  lemma {:induction false} DigitsSnoc(s: Bytes, d: Byte)
    requires s != [] && 48 <= d <= 57
    ensures Digits(s + [d]) == if Digits(s).None? then None else Some(Digits(s).value * 10 + d - 48)
  {
    assert (s + [d])[..|s|] == s;
  }

  lemma {:induction false} DigitsOfDecimal(n: nat)
    ensures Digits(FormatUint(n)) == Some(n) && ColonFree(FormatUint(n)) && 48 <= FormatUint(n)[0] <= 57
  {
    FormatUintSnoc(n);
    if n >= 10 {
      DigitsOfDecimal(n / 10);
      DigitsSnoc(FormatUint(n / 10), 48 + n % 10);
    }
  }

  lemma ParseOfFormatUint(n: Uint64)
    ensures ParseUint(FormatUint(n)) == Ok(n) && ColonFree(FormatUint(n))
  {
    DigitsOfDecimal(n);
  }

  lemma {:induction false} ParseSigned(s: Bytes, n: nat)
    requires s != [] && 48 <= s[0] <= 57 && Digits(s) == Some(n)
    ensures n < TWO_TO_63 ==> ParseInt(s) == Ok(n)
    ensures n < TWO_TO_63 ==> ParseInt([PLUS] + s) == Ok(n)
    ensures n <= TWO_TO_63 ==> ParseInt([MINUS] + s) == Ok(0 - n)
  {
    assert ([MINUS] + s)[1..] == s && ([PLUS] + s)[1..] == s;
  }

  lemma ParseOfFormatInt(n: Int64)
    ensures ParseInt(FormatInt(n)) == Ok(n) && ColonFree(FormatInt(n)) && (n >= 0 ==> FormatInt(n) == FormatUint(n))
  {
    var magnitude: int := if n < 0 then 0 - n else n;
    DigitsOfDecimal(magnitude);
    ParseSigned(FormatUint(magnitude), magnitude);
  }

  lemma ParseOfFormatBool(b: bool)
    ensures ParseBool(FormatBool(b)) == Ok(b) && ColonFree(FormatBool(b))
  {
    if !b {
      var f := Ascii("false");
      assert f[0] == 102 && |f| == 5;
      assert Ascii("1")[0] == 49 && Ascii("t")[0] == 116 && Ascii("T")[0] == 84;
      assert Ascii("true")[0] == 116 && Ascii("TRUE")[0] == 84 && Ascii("True")[0] == 84;
    }
  }

  /** A colon-free field at the front is the first part. */
  lemma {:induction false} SplitFront(a: Bytes, s: Bytes)
    requires ColonFree(a)
    ensures Split(a + [COLON] + s) == [a] + Split(s)
  {
    var t := a + [COLON] + s;
    if a == [] {
      assert t[1..] == s;
    } else {
      SplitFront(a[1..], s);
      assert t[1..] == a[1..] + [COLON] + s && t[0] == a[0];
      assert Split(t)[0] == a && Split(t)[1..] == Split(s);
    }
  }

  lemma {:induction false} SplitAlone(a: Bytes)
    requires ColonFree(a)
    ensures Split(a) == [a]
  {
    if a != [] {
      SplitAlone(a[1..]);
      assert Split(a)[0] == a;
    }
  }

  /** A colon-free field at the back is the last part, whatever is in front of it. */
  lemma {:induction false} SplitBack(s: Bytes, b: Bytes)
    requires ColonFree(b)
    ensures Split(s + [COLON] + b) == Split(s) + [b]
  {
    var t := s + [COLON] + b;
    if s == [] {
      SplitAlone(b);
      assert t[1..] == b;
    } else {
      SplitBack(s[1..], b);
      assert t[1..] == s[1..] + [COLON] + b;
    }
  }

  lemma {:induction false} JoinOfSplit(s: Bytes)
    ensures Join(Split(s)) == s
  {
    if s != [] {
      JoinOfSplit(s[1..]);
      var rest := Split(s[1..]);
      if s[0] == COLON {
        assert Split(s)[1..] == rest;
      } else {
        assert Split(s)[1..] == rest[1..];
      }
    }
  }

  // ----- the two kinds of token -------------------------------------------------------------------

  datatype ListToken = ListToken(limit: Uint64, offset: Uint64, earliest: Int64, latest: Int64)

  datatype FileToken = FileToken(limit: Uint64, offset: Uint64, jobId: Bytes, path: Bytes, descend: bool)

  /** `buildNextTokenOfReportBackupList` */
  function BuildList(t: ListToken): string {
    Encode(FormatUint(t.limit) + [COLON] + (FormatUint(t.offset) + [COLON] + (FormatInt(t.earliest) + [COLON] + FormatInt(t.latest))))
  }

  /** `decodeNextTokenOfReportBackupList` */
  function DecodeList(token: string): Result<ListToken> {
    var decoded := Decode(token);
    if decoded.Err? then Err
    else
      var parts := Split(decoded.value);
      if |parts| != 4 then Err
      else
        var limit, offset := ParseUint(parts[0]), ParseUint(parts[1]);
        var earliest, latest := ParseInt(parts[2]), ParseInt(parts[3]);
        if limit.Err? || offset.Err? || earliest.Err? || latest.Err? then Err
        else Ok(ListToken(limit.value, offset.value, earliest.value, latest.value))
  }

  /** `buildNextTokenOfReportBackupFileList` */
  function BuildFile(t: FileToken): string {
    Encode(FormatUint(t.limit) + [COLON] + (FormatUint(t.offset) + [COLON] + (t.jobId + [COLON] + (t.path + [COLON] + FormatBool(t.descend)))))
  }

  /** `decodeNextTokenOfReportBackupFileList`: the path is everything between the third and the last part. */
  function DecodeFile(token: string): Result<FileToken> {
    var decoded := Decode(token);
    if decoded.Err? then Err
    else
      var parts := Split(decoded.value);
      if |parts| < 5 then Err
      else
        var limit, offset, descend := ParseUint(parts[0]), ParseUint(parts[1]), ParseBool(parts[|parts| - 1]);
        if limit.Err? || offset.Err? || descend.Err? then Err
        else Ok(FileToken(limit.value, offset.value, parts[2], Join(parts[3..|parts| - 1]), descend.value))
  }

  /** Decoding a list token gives back every value it was built from. */
  lemma ListTokenRoundTrip(t: ListToken)
    ensures DecodeList(BuildList(t)) == Ok(t)
  {
    var a, b, c, d := FormatUint(t.limit), FormatUint(t.offset), FormatInt(t.earliest), FormatInt(t.latest);
    Base64RoundTrip(a + [COLON] + (b + [COLON] + (c + [COLON] + d)));
    ParseOfFormatUint(t.limit);
    ParseOfFormatUint(t.offset);
    ParseOfFormatInt(t.earliest);
    ParseOfFormatInt(t.latest);
    SplitFront(a, b + [COLON] + (c + [COLON] + d));
    SplitFront(b, c + [COLON] + d);
    SplitFront(c, d);
    SplitAlone(d);
  }

  lemma Regroup<T>(a: T, b: T, c: T, s: seq<T>, e: T)
    ensures [a] + ([b] + ([c] + (s + [e]))) == [a, b, c] + s + [e]
  {}

  /** The parts of a file token: whatever the path contains, the fields around it are found from both ends. */
  lemma {:induction false} FileTokenParts(a: Bytes, b: Bytes, jobId: Bytes, path: Bytes, e: Bytes)
    requires ColonFree(a) && ColonFree(b) && ColonFree(jobId) && ColonFree(e)
    ensures Split(a + [COLON] + (b + [COLON] + (jobId + [COLON] + (path + [COLON] + e)))) == [a, b, jobId] + Split(path) + [e]
  {
    var tail := path + [COLON] + e;
    SplitBack(path, e);
    var third := jobId + [COLON] + tail;
    SplitFront(jobId, tail);
    var second := b + [COLON] + third;
    SplitFront(b, third);
    SplitFront(a, second);
    Regroup(a, b, jobId, Split(path), e);
  }

  lemma {:induction false} PartsAreColonFree(s: Bytes, i: nat)
    requires i < |Split(s)|
    ensures ColonFree(Split(s)[i])
  {
    if s != [] {
      if s[0] == COLON {
        if i > 0 {
          PartsAreColonFree(s[1..], i - 1);
        }
      } else {
        PartsAreColonFree(s[1..], i);
      }
    }
  }

  /** A file token survives the round trip exactly when its job id has no colon; the path may contain any bytes. */
  lemma FileTokenRoundTrip(t: FileToken)
    ensures DecodeFile(BuildFile(t)) == Ok(t) <==> ColonFree(t.jobId)
  {
    var a, b, e := FormatUint(t.limit), FormatUint(t.offset), FormatBool(t.descend);
    var plain := a + [COLON] + (b + [COLON] + (t.jobId + [COLON] + (t.path + [COLON] + e)));
    var parts := Split(plain);
    Base64RoundTrip(plain);
    if ColonFree(t.jobId) {
      ParseOfFormatUint(t.limit);
      ParseOfFormatUint(t.offset);
      ParseOfFormatBool(t.descend);
      FileTokenParts(a, b, t.jobId, t.path, e);
      assert parts[3..|parts| - 1] == Split(t.path);
      JoinOfSplit(t.path);
    } else if |parts| > 2 {
      PartsAreColonFree(plain, 2);
    }
  }

  // ----- the restore report list ------------------------------------------------------------------

  /** A restore job as the report shows it; `start` is the text of the start time, by which the list is sorted. */
  datatype ReportRow = ReportRow(jobId: string, start: string, end: string, state: string)

  /** Go compares strings lexicographically. */
  predicate Less(a: string, b: string) {
    b != "" && (a == "" || a[0] < b[0] || (a[0] == b[0] && Less(a[1..], b[1..])))
  }

  lemma {:induction false} LessIsOrder(a: string, b: string, c: string)
    ensures !(Less(a, b) && Less(b, a))
    ensures !Less(b, a) && !Less(c, b) ==> !Less(c, a)
  {
    if a != "" && b != "" {
      LessIsOrder(a[1..], b[1..], if c == "" then "" else c[1..]);
    }
  }

  /** Insert behind every row whose start text is no greater. */
  function Insert(rows: seq<ReportRow>, r: ReportRow): seq<ReportRow> {
    if rows == [] || !Less(r.start, rows[|rows| - 1].start) then rows + [r]
    else Insert(rows[..|rows| - 1], r) + [rows[|rows| - 1]]
  }

  /** What `sort.SliceStable` by the text of the start time makes of the merged rows. */
  function Sorted(rows: seq<ReportRow>): seq<ReportRow> {
    if rows == [] then [] else Insert(Sorted(rows[..|rows| - 1]), rows[|rows| - 1])
  }

  ghost predicate InOrder(rows: seq<ReportRow>) {
    forall i, j | 0 <= i < j < |rows| :: !Less(rows[j].start, rows[i].start)
  }

  /** The rows with one start text, in order: what stability keeps. */
  function With(rows: seq<ReportRow>, start: string): seq<ReportRow> {
    if rows == [] then []
    else With(rows[..|rows| - 1], start) + (if rows[|rows| - 1].start == start then [rows[|rows| - 1]] else [])
  }

  lemma {:induction false} WithSnoc(rows: seq<ReportRow>, r: ReportRow, start: string)
    ensures With(rows + [r], start) == With(rows, start) + (if r.start == start then [r] else [])
  {
    assert (rows + [r])[..|rows|] == rows;
  }

  lemma {:induction false} LessIrreflexive(a: string)
    ensures !Less(a, a)
  {
    if a != "" {
      LessIrreflexive(a[1..]);
    }
  }

  lemma {:induction false} InsertMembers(rows: seq<ReportRow>, r: ReportRow)
    ensures multiset(Insert(rows, r)) == multiset(rows) + multiset{r}
  {
    if rows != [] && Less(r.start, rows[|rows| - 1].start) {
      InsertMembers(rows[..|rows| - 1], r);
      assert rows == rows[..|rows| - 1] + [rows[|rows| - 1]];
    }
  }

  /** Insertion goes behind equals, so it adds at the end of its own class and leaves the others alone. */
  lemma {:induction false} InsertStable(rows: seq<ReportRow>, r: ReportRow, start: string)
    ensures With(Insert(rows, r), start) == With(rows, start) + (if r.start == start then [r] else [])
  {
    if rows == [] || !Less(r.start, rows[|rows| - 1].start) {
      WithSnoc(rows, r, start);
    } else {
      var init, last := rows[..|rows| - 1], rows[|rows| - 1];
      InsertStable(init, r, start);
      WithSnoc(Insert(init, r), last, start);
      LessIrreflexive(start);
    }
  }

  lemma {:induction false} InsertInOrder(rows: seq<ReportRow>, r: ReportRow)
    requires InOrder(rows)
    ensures InOrder(Insert(rows, r))
  {
    if rows == [] || !Less(r.start, rows[|rows| - 1].start) {
      var all := rows + [r];
      forall i | 0 <= i < |rows| ensures !Less(r.start, rows[i].start) {
        LessIsOrder(rows[i].start, rows[|rows| - 1].start, r.start);
        LessIrreflexive(rows[i].start);
      }
    } else {
      var init, last := rows[..|rows| - 1], rows[|rows| - 1];
      InsertInOrder(init, r);
      InsertMembers(init, r);
      LessIsOrder(r.start, last.start, last.start);
      var all := Insert(init, r);
      forall i | 0 <= i < |all| ensures !Less(last.start, all[i].start) {
        assert all[i] in multiset(all);
        assert all[i] == r || all[i] in multiset(init);
        assert all[i] == r || all[i] in init;
      }
    }
  }

  lemma {:induction false} SortedMembers(rows: seq<ReportRow>)
    ensures multiset(Sorted(rows)) == multiset(rows) && |Sorted(rows)| == |rows|
  {
    if rows != [] {
      var init, last := rows[..|rows| - 1], rows[|rows| - 1];
      SortedMembers(init);
      InsertMembers(Sorted(init), last);
      assert rows == init + [last];
      assert |multiset(Sorted(rows))| == |multiset(rows)|;
    }
  }

  /** The sorted rows are in the order of their start texts, and those of equal text are in their old order. */
  lemma {:induction false} SortedIsStable(rows: seq<ReportRow>, start: string)
    ensures InOrder(Sorted(rows)) && With(Sorted(rows), start) == With(rows, start)
  {
    if rows != [] {
      SortedIsStable(rows[..|rows| - 1], start);
      InsertInOrder(Sorted(rows[..|rows| - 1]), rows[|rows| - 1]);
      InsertStable(Sorted(rows[..|rows| - 1]), rows[|rows| - 1], start);
    }
  }

  function Merged(perTarget: seq<seq<ReportRow>>): seq<ReportRow> {
    if perTarget == [] then [] else Merged(perTarget[..|perTarget| - 1]) + perTarget[|perTarget| - 1]
  }

  /** The sum of two numbers in 64 bits. */
  function Sum64(a: Uint64, b: Uint64): Uint64 {
    if a + b < TWO_TO_64 then a + b else a + b - TWO_TO_64
  }

  /** One page; the sum wraps in 64 bits, and a slice that ends before it starts is a run-time error. */
  function Page(rows: seq<ReportRow>, limit: Uint64, offset: Uint64): Result<seq<ReportRow>> {
    if offset >= |rows| then Ok([])
    else
      var sum := Sum64(offset, limit);
      var end := if sum > |rows| then |rows| else sum;
      if end < offset then Err else Ok(rows[offset..end])
  }

  /** A page fails exactly when it starts inside the list and its end does not fit 64 bits. */
  lemma PageFailsIff(rows: seq<ReportRow>, limit: Uint64, offset: Uint64)
    ensures Page(rows, limit, offset).Err? <==> offset < |rows| && offset + limit >= TWO_TO_64
  {}

  /** `getRowsForHandlerPostReportRestoreList`: append the rows of each target, sort, and cut out the page. */
  method RestoreListPage(perTarget: seq<seq<ReportRow>>, limit: Uint64, offset: Uint64) returns (page: Result<seq<ReportRow>>)
    ensures page == Page(Sorted(Merged(perTarget)), limit, offset)
  {
    var merged := [];
    for k := 0 to |perTarget|
      invariant merged == Merged(perTarget[..k])
    {
      assert perTarget[..k + 1][..k] == perTarget[..k];
      merged := merged + perTarget[k];
    }
    assert perTarget[..|perTarget|] == perTarget;
    page := Page(Sorted(merged), limit, offset);
  }

  /** The handler's rule: a full page is followed by a token, built from these values. */
  function Next(t: ListToken, page: seq<ReportRow>): Option<ListToken> {
    if |page| == t.limit then Some(t.(offset := Sum64(t.offset, t.limit))) else None
  }

  /** What the handler makes of the token that its previous answer carried. */
  function Resumed(t: ListToken): (u: ListToken)
    ensures u == t
  {
    ListTokenRoundTrip(t);
    DecodeList(BuildList(t)).value
  }

  /** A page that does not fail is full exactly when that many rows are left; the page after a full one does not fail. */
  lemma PageFacts(rows: seq<ReportRow>, t: ListToken)
    requires t.limit >= 1 && t.offset <= |rows| < TWO_TO_63 && Page(rows, t.limit, t.offset).Ok?
    ensures var page := Page(rows, t.limit, t.offset).value;
            && page == rows[t.offset..if t.offset + t.limit <= |rows| then t.offset + t.limit else |rows|]
            && Next(t, page) == (if t.offset + t.limit <= |rows| then Some(t.(offset := t.offset + t.limit)) else None)
            && (Next(t, page).Some? ==> Page(rows, t.limit, t.offset + t.limit).Ok?)
  {
    PageFailsIff(rows, t.limit, t.offset);
    if t.offset + t.limit <= |rows| {
      PageFailsIff(rows, t.limit, t.offset + t.limit);
    }
  }

  /** All rows a client receives that starts at `t` and follows the tokens to the end. */
  function Follow(list: (Int64, Int64) -> seq<ReportRow>, t: ListToken): (all: seq<ReportRow>)
    requires t.limit >= 1 && t.offset <= |list(t.earliest, t.latest)| < TWO_TO_63
    requires Page(list(t.earliest, t.latest), t.limit, t.offset).Ok?
    ensures all == list(t.earliest, t.latest)[t.offset..]
    decreases |list(t.earliest, t.latest)| - t.offset
  {
    var rows := list(t.earliest, t.latest);
    PageFacts(rows, t);
    var page := Page(rows, t.limit, t.offset).value;
    var next := Next(t, page);
    if next.None? then page else page + Follow(list, Resumed(next.value))
  }

  /** Following the tokens from the start delivers every merged row exactly once, in order, and stops, for every limit but zero. */
  lemma PagingIsComplete(perTarget: (Int64, Int64) -> seq<seq<ReportRow>>, limit: Uint64, earliest: Int64, latest: Int64)
    requires limit >= 1 && |Sorted(Merged(perTarget(earliest, latest)))| < TWO_TO_63
    ensures var list := (a: Int64, b: Int64) => Sorted(Merged(perTarget(a, b)));
            && Page(list(earliest, latest), limit, 0).Ok?
            && var all := Follow(list, ListToken(limit, 0, earliest, latest));
               all == list(earliest, latest) && InOrder(all) && multiset(all) == multiset(Merged(perTarget(earliest, latest)))
  {
    PageFailsIff(Sorted(Merged(perTarget(earliest, latest))), limit, 0);
    SortedMembers(Merged(perTarget(earliest, latest)));
    SortedIsStable(Merged(perTarget(earliest, latest)), "");
  }

  /** A token is answered with itself, so that following it never stops, exactly when its limit is zero. */
  lemma NeverStopsIffLimitZero(rows: seq<ReportRow>, t: ListToken)
    ensures var page := Page(rows, t.limit, t.offset); page.Ok? && Next(t, page.value) == Some(t) <==> t.limit == 0
  {}
}
