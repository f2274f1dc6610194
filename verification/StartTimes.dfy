/**
 * The texts the restore report is sorted by (httpd/api_rest_report.go:604-607, 667): times in the format RFC3339Nano, which
 * drops trailing zeros of the fraction, and the whole fraction when it is zero.
 */
module StartTimes {
  import opened Tokens

  /** A formatted time: date and time up to the second, the nine digits of the fraction, and the zone. */
  datatype Stamp = Stamp(second: string, digits: string, zone: string)

  ghost predicate Digits(d: string) {
    forall i | 0 <= i < |d| :: '0' <= d[i] <= '9'
  }

  /** Seconds have a fixed width, fractions nine digits, and a zone is `Z` or an offset from it. */
  ghost predicate StampOk(s: Stamp) {
    |s.second| == 19 && |s.digits| == 9 && Digits(s.digits) && |s.zone| > 0 && s.zone[0] in {'Z', '+', '-'}
  }

  /** The fraction without its trailing zeros. */
  function Trim(d: string): string {
    if |d| == 0 then ""
    else
      var rest := Trim(d[1..]);
      if rest == "" && d[0] == '0' then "" else [d[0]] + rest
  }

  /** What is written behind the second: a point and the fraction, unless that is zero, and the zone. */
  function Rest(s: Stamp): string {
    if Trim(s.digits) == "" then s.zone else "." + (Trim(s.digits) + s.zone)
  }

  function Text(s: Stamp): string {
    s.second + Rest(s)
  }

  function Pow10(n: nat): nat {
    if n == 0 then 1 else 10 * Pow10(n - 1)
  }

  function Value(d: string): int {
    if |d| == 0 then 0 else (d[0] as int - '0' as int) * Pow10(|d| - 1) + Value(d[1..])
  }

  /** Of two times in one zone: the seconds, most significant part first, and then the value of the fraction. */
  predicate Earlier(a: Stamp, b: Stamp) {
    Less(a.second, b.second) || (a.second == b.second && Value(a.digits) < Value(b.digits))
  }

  /** The texts that compare the wrong way: in UTC and in one second, with a fraction that continues the other. */
  predicate Misread(a: Stamp, b: Stamp) {
    "Z" <= a.zone && a.second == b.second && Trim(a.digits) <= Trim(b.digits)
  }

  // ----- texts of one width ------------------------------------------------------------------------

  lemma {:induction false} ValueBounds(d: string)
    requires Digits(d)
    ensures 0 <= Value(d) < Pow10(|d|)
  {
    if |d| > 0 {
      ValueBounds(d[1..]);
      var x := d[0] as int - '0' as int;
      assert 0 <= x * Pow10(|d| - 1) <= 9 * Pow10(|d| - 1);
    }
  }

  /** Digits of one width compare as their values do. */
  lemma {:induction false} DigitsOrder(a: string, b: string)
    requires |a| == |b| && Digits(a) && Digits(b)
    ensures Less(a, b) <==> Value(a) < Value(b)
  {
    if |a| > 0 {
      DigitsOrder(a[1..], b[1..]);
      ValueBounds(a[1..]);
      ValueBounds(b[1..]);
      LeadingDigit(a[0] as int - '0' as int, b[0] as int - '0' as int, Pow10(|a| - 1));
    }
  }

  lemma LeadingDigit(x: int, y: int, p: int)
    requires p > 0
    ensures x < y ==> x * p + p <= y * p
    ensures y < x ==> y * p + p <= x * p
  {
    if x < y {
      StepsOf(y - x, p);
      assert y * p == x * p + (y - x) * p;
    } else if y < x {
      StepsOf(x - y, p);
      assert x * p == y * p + (x - y) * p;
    }
  }

  lemma StepsOf(d: int, p: int)
    requires d >= 1 && p > 0
    ensures d * p >= p
  {}

  lemma {:induction false} AfterPrefix(p: string, a: string, b: string)
    ensures Less(p + a, p + b) <==> Less(a, b)
  {
    if |p| == 0 {
      assert p + a == a && p + b == b;
    } else {
      AfterPrefix(p[1..], a, b);
      assert (p + a)[1..] == p[1..] + a && (p + b)[1..] == p[1..] + b;
    }
  }

  lemma {:induction false} FirstDifference(x: string, y: string, a: string, b: string)
    requires |x| == |y| && Less(x, y)
    ensures Less(x + a, y + b)
  {
    assert (x + a)[1..] == x[1..] + a && (y + b)[1..] == y[1..] + b;
    if x[0] == y[0] {
      FirstDifference(x[1..], y[1..], a, b);
    }
  }

  // ----- fractions ---------------------------------------------------------------------------------

  lemma {:induction false} GreaterIsNotZero(a: string, b: string)
    requires |a| == |b| && Digits(a) && Less(a, b)
    ensures Trim(b) != ""
  {
    if a[0] == b[0] {
      GreaterIsNotZero(a[1..], b[1..]);
    }
  }

  lemma PrefixCons(c: char, s: string, t: string)
    ensures [c] + s <= [c] + t <==> s <= t
  {
    if [c] + s <= [c] + t {
      assert forall i | 0 <= i < |s| :: s[i] == ([c] + s)[i + 1] == ([c] + t)[i + 1] == t[i];
    }
  }

  /** Without the zeros, the greater fraction still compares as greater, unless it continues the other before a `Z`. */
  lemma {:induction false} TrimmedOrder(a: string, b: string, zone: string)
    requires |a| == |b| && Digits(a) && Digits(b) && Less(a, b) && |zone| > 0 && zone[0] in {'Z', '+', '-'}
    ensures Less(Trim(a) + zone, Trim(b) + zone) <==> !(zone[0] == 'Z' && Trim(a) <= Trim(b))
  {
    GreaterIsNotZero(a, b);
    var x, y := Trim(a), Trim(b);
    assert y == [b[0]] + Trim(b[1..]) by {
      if a[0] == b[0] {
        GreaterIsNotZero(a[1..], b[1..]);
      }
    }
    if x == "" {
      assert (x + zone)[0] == zone[0] && (y + zone)[0] == b[0];
    } else {
      assert x == [a[0]] + Trim(a[1..]);
      assert (x + zone)[1..] == Trim(a[1..]) + zone && (y + zone)[1..] == Trim(b[1..]) + zone;
      if a[0] == b[0] {
        TrimmedOrder(a[1..], b[1..], zone);
        PrefixCons(a[0], Trim(a[1..]), Trim(b[1..]));
      }
    }
  }

  /** The same with the point in front, which a fraction of zero does not have. */
  lemma {:induction false} RestOrder(a: Stamp, b: Stamp)
    requires StampOk(a) && StampOk(b) && a.zone == b.zone && Less(a.digits, b.digits)
    ensures Less(Rest(a), Rest(b)) <==> !(a.zone[0] == 'Z' && Trim(a.digits) <= Trim(b.digits))
  {
    GreaterIsNotZero(a.digits, b.digits);
    TrimmedOrder(a.digits, b.digits, a.zone);
    if Trim(a.digits) != "" {
      AfterPrefix(".", Trim(a.digits) + a.zone, Trim(b.digits) + b.zone);
    }
  }

  // ----- the order of the report -------------------------------------------------------------------

  /** Of two times written in one zone the earlier has the smaller text, exactly if the later does not continue it. */
  lemma {:induction false} TextOrderIff(a: Stamp, b: Stamp)
    requires StampOk(a) && StampOk(b) && a.zone == b.zone && Earlier(a, b)
    ensures Less(Text(a), Text(b)) <==> !Misread(a, b)
  {
    if a.second == b.second {
      LessIrreflexive(a.second);
      DigitsOrder(a.digits, b.digits);
      RestOrder(a, b);
      AfterPrefix(a.second, Rest(a), Rest(b));
    } else {
      FirstDifference(a.second, b.second, Rest(a), Rest(b));
    }
  }

  /** So the rows of a report written in one zone are in the order of time, except where the texts misread it. */
  lemma {:induction false} ReportOrder(rows: seq<ReportRow>, at: seq<Stamp>, i: nat, j: nat)
    requires |at| == |rows| && i < j < |rows| && InOrder(rows) && StampOk(at[i]) && StampOk(at[j]) && at[i].zone == at[j].zone
    requires rows[i].start == Text(at[i]) && rows[j].start == Text(at[j])
    ensures Earlier(at[j], at[i]) ==> Misread(at[j], at[i])
  {
    if Earlier(at[j], at[i]) {
      TextOrderIff(at[j], at[i]);
    }
  }

  lemma {:induction false} TextOfFraction(second: string, d: string, n: nat)
    requires |d| > 0 && d[|d| - 1] != '0'
    ensures Text(Stamp(second, d + Zeros(n), "Z")) == second + ("." + (d + "Z"))
  {
    TrimZeros(d, n);
  }

  lemma {:induction false} ContinuedIsLess(second: string, d: string, e: string)
    requires |e| > 0 && e[0] < 'Z'
    ensures Less(second + ("." + (d + e + "Z")), second + ("." + (d + "Z")))
  {
    AfterPrefix(second + "." + d, e + "Z", "Z");
    assert second + "." + d + (e + "Z") == second + ("." + (d + e + "Z"));
    assert second + "." + d + "Z" == second + ("." + (d + "Z"));
  }

  /** In UTC a tenth of a second is sorted behind fifteen hundredths. */
  lemma {:induction false} MisreadExample(second: string)
    ensures var a, b := Stamp(second, "1" + Zeros(8), "Z"), Stamp(second, "15" + Zeros(7), "Z");
            && Text(a) == second + ("." + ("1" + "Z")) && Text(b) == second + ("." + ("15" + "Z"))
            && Earlier(a, b) && Less(Text(b), Text(a))
  {
    TextOfFraction(second, "1", 8);
    TextOfFraction(second, "15", 7);
    TenthIsLess(Zeros(8), Zeros(7));
    assert "1" + "5" == "15" && "1" + ("5" + Zeros(7)) == "15" + Zeros(7);
    ContinuedIsLess(second, "1", "5");
  }

  lemma {:induction false} TenthIsLess(x: string, y: string)
    requires Digits(x) && Digits(y) && |x| == |y| + 1 && x[0] == '0'
    ensures Value("1" + x) < Value("1" + ("5" + y))
  {
    assert Less(x, "5" + y);
    DigitsOrder(x, "5" + y);
    assert ("1" + x)[1..] == x && ("1" + ("5" + y))[1..] == "5" + y;
  }

  function Zeros(n: nat): (z: string)
    ensures |z| == n && forall i | 0 <= i < n :: z[i] == '0'
  {
    if n == 0 then "" else "0" + Zeros(n - 1)
  }

  lemma {:induction false} TrimZeros(d: string, n: nat)
    requires |d| == 0 || d[|d| - 1] != '0'
    ensures Trim(d + Zeros(n)) == d
  {
    if |d| > 0 {
      TrimZeros(d[1..], n);
      assert (d + Zeros(n))[1..] == d[1..] + Zeros(n);
    } else if n > 0 {
      TrimZeros(d, n - 1);
      assert d + Zeros(n) == Zeros(n) && (d + Zeros(n))[1..] == d + Zeros(n - 1);
    }
  }
}
