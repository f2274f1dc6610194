/** Standard base64 with padding (section 4 of RFC 4648), decoded as Go's `base64.StdEncoding` does. */
module Base64 {
  import opened Common

  type Sextet = x: int | 0 <= x < 64

  function Char(x: Sextet): char {
    if x < 26 then 'A' + x as char
    else if x < 52 then 'a' + (x - 26) as char
    else if x < 62 then '0' + (x - 52) as char
    else if x == 62 then '+' else '/'
  }

  function Value(c: char): Option<Sextet> {
    if 'A' <= c <= 'Z' then Some(c as int - 'A' as int)
    else if 'a' <= c <= 'z' then Some(c as int - 'a' as int + 26)
    else if '0' <= c <= '9' then Some(c as int - '0' as int + 52)
    else if c == '+' then Some(62)
    else if c == '/' then Some(63)
    else None
  }

  function Encode(b: Bytes): string {
    if |b| == 0 then ""
    else if |b| == 1 then
      [Char(b[0] / 4), Char(b[0] % 4 * 16), '=', '=']
    else if |b| == 2 then
      [Char(b[0] / 4), Char(b[0] % 4 * 16 + b[1] / 16), Char(b[1] % 16 * 4), '=']
    else
      [Char(b[0] / 4), Char(b[0] % 4 * 16 + b[1] / 16), Char(b[1] % 16 * 4 + b[2] / 64), Char(b[2] % 64)] + Encode(b[3..])
  }

  /** Line breaks are ignored wherever they stand. */
  function Unbroken(s: string): string {
    if s == "" then ""
    else (if s[0] == '\r' || s[0] == '\n' then "" else [s[0]]) + Unbroken(s[1..])
  }

  /** Groups of four; only the last may be padded. The bits that padding leaves over are not looked at. */
  function Groups(s: string): Result<Bytes> {
    if s == "" then Ok([])
    else if |s| < 4 then Err
    else
      var a, b, c, d := Value(s[0]), Value(s[1]), Value(s[2]), Value(s[3]);
      if a.None? || b.None? then Err
      else
        var first: Byte := a.value * 4 + b.value / 16;
        if s[2] == '=' then
          if s[3] == '=' && |s| == 4 then Ok([first]) else Err
        else if c.None? then Err
        else
          var second: Byte := b.value % 16 * 16 + c.value / 4;
          if s[3] == '=' then
            if |s| == 4 then Ok([first, second]) else Err
          else if d.None? then Err
          else
            var third: Byte := c.value % 4 * 64 + d.value;
            var rest := Groups(s[4..]);
            if rest.Err? then Err else Ok([first, second, third] + rest.value)
  }

  function Decode(s: string): Result<Bytes> {
    Groups(Unbroken(s))
  }

  lemma ValueOfChar(x: Sextet)
    ensures Value(Char(x)) == Some(x) && Char(x) != '=' && Char(x) != '\r' && Char(x) != '\n'
  {}

  /** Splitting a value at a bit boundary and putting it together again. */
  lemma Split(hi: int, lo: int, n: int, x: Sextet)
    requires n in {4, 16} && 0 <= hi < 64 / n && 0 <= lo < n && x == hi * n + lo
    ensures x / n == hi && x % n == lo
  {}

  lemma OneByte(x: Byte)
    ensures Groups(Encode([x])) == Ok([x])
  {
    ValueOfChar(x / 4);
    ValueOfChar(x % 4 * 16);
    Split(x % 4, 0, 16, x % 4 * 16);
  }

  lemma TwoBytes(x: Byte, y: Byte)
    ensures Groups(Encode([x, y])) == Ok([x, y])
  {
    ValueOfChar(x / 4);
    ValueOfChar(x % 4 * 16 + y / 16);
    ValueOfChar(y % 16 * 4);
    Split(x % 4, y / 16, 16, x % 4 * 16 + y / 16);
    Split(y % 16, 0, 4, y % 16 * 4);
  }

  lemma {:induction false} FullGroup(x: Byte, y: Byte, z: Byte, rest: string)
    requires Groups(rest).Ok?
    ensures Groups([Char(x / 4), Char(x % 4 * 16 + y / 16), Char(y % 16 * 4 + z / 64), Char(z % 64)] + rest) ==
            Ok([x, y, z] + Groups(rest).value)
  {
    var a, b, c, d := x / 4, x % 4 * 16 + y / 16, y % 16 * 4 + z / 64, z % 64;
    ValueOfChar(a);
    ValueOfChar(b);
    ValueOfChar(c);
    ValueOfChar(d);
    Split(x % 4, y / 16, 16, b);
    Split(y % 16, z / 64, 4, c);
    var s := [Char(a), Char(b), Char(c), Char(d)] + rest;
    assert s[4..] == rest;
    assert a * 4 + b / 16 == x && b % 16 * 16 + c / 4 == y && c % 4 * 64 + d == z;
  }

  lemma {:induction false} GroupsOfEncode(b: Bytes)
    ensures Groups(Encode(b)) == Ok(b)
  {
    if |b| == 1 {
      OneByte(b[0]);
      assert b == [b[0]];
    } else if |b| == 2 {
      TwoBytes(b[0], b[1]);
      assert b == [b[0], b[1]];
    } else if |b| > 2 {
      GroupsOfEncode(b[3..]);
      FullGroup(b[0], b[1], b[2], Encode(b[3..]));
      assert b == [b[0], b[1], b[2]] + b[3..];
    }
  }

  lemma {:induction false} EncodeHasNoBreaks(b: Bytes)
    ensures forall i | 0 <= i < |Encode(b)| :: Encode(b)[i] != '\r' && Encode(b)[i] != '\n'
  {
    if |b| > 2 {
      EncodeHasNoBreaks(b[3..]);
    }
  }

  lemma {:induction false} UnbrokenSame(s: string)
    requires forall i | 0 <= i < |s| :: s[i] != '\r' && s[i] != '\n'
    ensures Unbroken(s) == s
  {
    if s != "" {
      UnbrokenSame(s[1..]);
    }
  }

  /** Decoding inverts encoding, for every byte string. */
  lemma {:induction false} Base64RoundTrip(b: Bytes)
    ensures Decode(Encode(b)) == Ok(b)
  {
    EncodeHasNoBreaks(b);
    UnbrokenSame(Encode(b));
    GroupsOfEncode(b);
  }
}
