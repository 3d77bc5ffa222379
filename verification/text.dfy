/**
 Character-level helpers the middleware relies on implicitly: Python's `str()` of
 an integer, the `in` substring test, splitting a string at the last
 occurrence of a separator (used to read a cache key back into its parts), and
 Python 2's `repr` of a byte string (the `%r` in the CSRF error) with its inverse.
 */
module Text {
  import opened Wrappers

  predicate IsDigit(c: char) {
    '0' <= c <= '9'
  }

  predicate AllDigits(s: string) {
    forall i :: 0 <= i < |s| ==> IsDigit(s[i])
  }

  function DigitChar(d: nat): (c: char)
    requires d < 10
    ensures IsDigit(c)
  {
    (48 + d) as char
  }

  function DigitValue(c: char): (d: nat)
    requires IsDigit(c)
    ensures d < 10
  {
    (c as int) - 48
  }

  /** Decimal digits of `n`, most significant first, without leading zeros. */
  function NatToString(n: nat): (r: string)
    ensures |r| > 0 && AllDigits(r)
    ensures r[0] == '0' ==> n == 0
    decreases n
  {
    if n < 10 then [DigitChar(n)] else NatToString(n / 10) + [DigitChar(n % 10)]
  }

  /** Value of a string of decimal digits (the empty string reads as 0). */
  function ParseNat(s: string): nat
    requires AllDigits(s)
    decreases |s|
  {
    if |s| == 0 then 0 else ParseNat(s[..|s| - 1]) * 10 + DigitValue(s[|s| - 1])
  }

  lemma {:induction false} ParseNatOfNatToString(n: nat)
    ensures ParseNat(NatToString(n)) == n
    decreases n
  {
    if n >= 10 {
      var s := NatToString(n);
      assert s[..|s| - 1] == NatToString(n / 10);
      ParseNatOfNatToString(n / 10);
    }
  }

  /** Python's `str(i)` for an integer: a '-' sign for negatives, then the digits. */
  function IntToString(i: int): (r: string)
    ensures |r| > 0
    ensures forall k :: 0 <= k < |r| ==> IsDigit(r[k]) || r[k] == '-'
    ensures ':' !in r
    ensures r[0] == '0' ==> r == "0"
    ensures r[0] == '-' <==> i < 0
    ensures i < 0 ==> |r| > 1 && r[1] != '0'
  {
    if i < 0 then "-" + NatToString(-i) else NatToString(i)
  }

  /** The strings `IntToString` can produce have this shape (leading zeros aside). */
  predicate IsIntString(s: string) {
    || (|s| > 0 && AllDigits(s))
    || (|s| > 1 && s[0] == '-' && AllDigits(s[1..]))
  }

  function ParseInt(s: string): int
    requires IsIntString(s)
  {
    if s[0] == '-' then -(ParseNat(s[1..]) as int) else ParseNat(s)
  }

  /** Reading back `str(i)` gives `i`. */
  lemma ParseIntOfIntToString(i: int)
    ensures IsIntString(IntToString(i))
    ensures ParseInt(IntToString(i)) == i
  {
    if i < 0 {
      var s := IntToString(i);
      assert s[1..] == NatToString(-i);
      ParseNatOfNatToString(-i);
    } else {
      ParseNatOfNatToString(i);
    }
  }

  /** Distinct integers render to distinct strings. */
  lemma IntToStringInjective(a: int, b: int)
    ensures IntToString(a) == IntToString(b) <==> a == b
  {
    ParseIntOfIntToString(a);
    ParseIntOfIntToString(b);
  }

  /** `pat` occurs in `s` starting at index `i`. */
  ghost predicate OccursAt(s: string, pat: string, i: int) {
    0 <= i && i + |pat| <= |s| && s[i..i + |pat|] == pat
  }

  lemma OccursAtShift(s: string, pat: string)
    requires |s| >= |pat| > 0
    requires s[..|pat|] != pat
    ensures (exists i :: OccursAt(s[1..], pat, i)) <==> (exists i :: OccursAt(s, pat, i))
  {
    if i :| OccursAt(s[1..], pat, i) {
      assert s[i + 1..i + 1 + |pat|] == s[1..][i..i + |pat|];
      assert OccursAt(s, pat, i + 1);
    }
    if i :| OccursAt(s, pat, i) {
      assert i != 0;
      assert s[1..][i - 1..i - 1 + |pat|] == s[i..i + |pat|];
      assert OccursAt(s[1..], pat, i - 1);
    }
  }

  /** Python's `pat in s` on strings. */
  function Contains(s: string, pat: string): (r: bool)
    ensures r <==> exists i :: OccursAt(s, pat, i)
    decreases |s|
  {
    if |s| < |pat| then false
    else if s[..|pat|] == pat then assert OccursAt(s, pat, 0); true
    else OccursAtShift(s, pat); Contains(s[1..], pat)
  }

  lemma ContainsInfix(a: string, b: string, c: string)
    ensures Contains(a + b + c, b)
  {
    assert (a + b + c)[|a|..|a| + |b|] == b;
    assert OccursAt(a + b + c, b, |a|);
  }

  /** Splits `s` at the last occurrence of `c` into the text before and after it. */
  function SplitLast(s: string, c: char): (r: Option<(string, string)>)
    ensures r.None? ==> c !in s
    ensures r.Some? ==> s == r.value.0 + [c] + r.value.1 && c !in r.value.1
    decreases |s|
  {
    if |s| == 0 then None
    else if s[|s| - 1] == c then Some((s[..|s| - 1], []))
    else
      match SplitLast(s[..|s| - 1], c)
      case None => None
      case Some((before, after)) => Some((before, after + [s[|s| - 1]]))
  }

  /** Any decomposition `a + [c] + b` with `c` absent from `b` is the one `SplitLast` finds. */
  lemma SplitLastUnique(s: string, c: char, a: string, b: string)
    requires s == a + [c] + b && c !in b
    ensures SplitLast(s, c) == Some((a, b))
  {
    assert s[|a|] == c;
    var r := SplitLast(s, c);
    var (a', b') := r.value;
    assert s[|a'|] == c;
    if |b'| < |b| {
      assert false;
    } else if |b| < |b'| {
      assert false;
    }
    assert a == s[..|a|] == a';
    assert b == s[|a| + 1..] == b';
  }

  /** A character Python 2's `repr` of a byte string writes as itself. */
  predicate IsPrintable(c: char) {
    32 <= c as int && !(127 <= c as int <= 255)
  }

  /** Lower-case hexadecimal digit for `d`, as `%02x` writes it. */
  function HexChar(d: nat): (c: char)
    requires d < 16
    ensures IsPrintable(c) && c != '\\' && c != '\'' && c != '"'
  {
    if d < 10 then (48 + d) as char else (87 + d) as char
  }

  function HexValue(c: char): (d: nat)
    ensures d < 16
  {
    if '0' <= c <= '9' then (c as int) - 48
    else if 'a' <= c <= 'f' then (c as int) - 87
    else 0
  }

  /**
   The quote Python 2's `repr` puts around `s`: a double quote when `s`
   holds a single quote and no double quote, otherwise a single quote.
   */
  function ReprQuote(s: string): (q: char)
    ensures q == '\'' || q == '"'
    ensures q == '"' <==> '\'' in s && '"' !in s
  {
    if '\'' in s && '"' !in s then '"' else '\''
  }

  /** How `repr` writes one character inside quotes `q`. */
  function EscapeChar(c: char, q: char): (r: string)
    requires q == '\'' || q == '"'
    ensures 0 < |r| <= 4
    ensures forall i :: 0 <= i < |r| ==> IsPrintable(r[i])
    ensures IsPrintable(c) && c != '\\' && c != q ==> r == [c]
    ensures r != [c] ==> r[0] == '\\'
  {
    if c == q || c == '\\' then ['\\', c]
    else if c == '\t' then "\\t"
    else if c == '\n' then "\\n"
    else if c == '\r' then "\\r"
    else if c as int < 32 || 127 <= c as int <= 255 then
      ['\\', 'x', HexChar((c as int) / 16), HexChar((c as int) % 16)]
    else [c]
  }

  /** Every character of `s` escaped for quotes `q`. */
  function EscapeAll(s: string, q: char): (r: string)
    requires q == '\'' || q == '"'
    ensures |s| <= |r| <= 4 * |s|
    ensures forall i :: 0 <= i < |r| ==> IsPrintable(r[i])
    decreases |s|
  {
    if |s| == 0 then [] else EscapeChar(s[0], q) + EscapeAll(s[1..], q)
  }

  /** Text without quotes, backslashes or unprintable characters is written unchanged. */
  lemma {:induction false} EscapeAllPlain(s: string, q: char)
    requires q == '\'' || q == '"'
    requires forall i :: 0 <= i < |s| ==> IsPrintable(s[i]) && s[i] != '\\' && s[i] != q
    ensures EscapeAll(s, q) == s
    decreases |s|
  {
    if |s| > 0 {
      EscapeAllPlain(s[1..], q);
      assert s == [s[0]] + s[1..];
    }
  }

  /**
   Undoes `EscapeAll`: reads `\t`, `\n`, `\r` and `\xhh` back as the
   characters they stand for, and any other `\c` as `c`.
   */
  function Unescape(s: string): string
    decreases |s|
  {
    if |s| == 0 then []
    else if s[0] == '\\' && |s| >= 2 then
      if s[1] == 't' then ['\t'] + Unescape(s[2..])
      else if s[1] == 'n' then ['\n'] + Unescape(s[2..])
      else if s[1] == 'r' then ['\r'] + Unescape(s[2..])
      else if s[1] == 'x' && |s| >= 4 then [(HexValue(s[2]) * 16 + HexValue(s[3])) as char] + Unescape(s[4..])
      else [s[1]] + Unescape(s[2..])
    else [s[0]] + Unescape(s[1..])
  }

  lemma UnescapeEscapeChar(c: char, q: char, rest: string)
    requires q == '\'' || q == '"'
    ensures Unescape(EscapeChar(c, q) + rest) == [c] + Unescape(rest)
  {
    var e := EscapeChar(c, q);
    if |e| == 4 {
      var hi, lo := (c as int) / 16, (c as int) % 16;
      assert (e + rest)[4..] == rest;
      assert HexValue(HexChar(hi)) == hi && HexValue(HexChar(lo)) == lo;
      assert ((hi * 16 + lo) as char) == c;
    } else if |e| == 2 {
      assert (e + rest)[2..] == rest;
    } else {
      assert (e + rest)[1..] == rest;
    }
  }

  lemma {:induction false} UnescapeEscapeAll(s: string, q: char)
    requires q == '\'' || q == '"'
    ensures Unescape(EscapeAll(s, q)) == s
    decreases |s|
  {
    if |s| > 0 {
      UnescapeEscapeChar(s[0], q, EscapeAll(s[1..], q));
      UnescapeEscapeAll(s[1..], q);
      assert s == [s[0]] + s[1..];
    }
  }

  /** Reads a `repr` rendering back: drops the quotes and undoes the escapes. */
  function Unrepr(r: string): string {
    if |r| >= 2 then Unescape(r[1..|r| - 1]) else r
  }

  /**
   Python 2's `repr` of a byte string, as `%r` formats it: quoted, with
   backslash, the quote, tab, newline and carriage return escaped and other
   unprintable bytes written as `\xhh`. The result is one printable line
   from which the string can be read back.
   */
  function Repr(s: string): (r: string)
    ensures |r| >= 2 && r[0] == r[|r| - 1] == ReprQuote(s)
    ensures forall i :: 0 <= i < |r| ==> IsPrintable(r[i])
    ensures Unrepr(r) == s
  {
    var q := ReprQuote(s);
    var r := [q] + EscapeAll(s, q) + [q];
    assert r[1..|r| - 1] == EscapeAll(s, q);
    UnescapeEscapeAll(s, q);
    r
  }

  /** Two strings render alike exactly when they are equal. */
  lemma ReprInjective(a: string, b: string)
    ensures Repr(a) == Repr(b) <==> a == b
  {
  }

  /** Plain printable text without quotes or backslashes is rendered as itself between single quotes. */
  lemma ReprOfPlainText(s: string)
    requires forall i :: 0 <= i < |s| ==> IsPrintable(s[i]) && s[i] != '\\' && s[i] != '\'' && s[i] != '"'
    ensures Repr(s) == "'" + s + "'"
  {
    EscapeAllPlain(s, '\'');
  }
}
