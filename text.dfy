/**
 * The JavaScript string and number conversions the application relies on:
 * comparison of strings, `Number.prototype.toString` on integers and
 * `parseInt` without a radix.
 */
module Text {
  import opened Wrappers

  // ---------------------------------------------------------------------
  // Order: JavaScript compares strings element by element (`a <= b`).
  // ---------------------------------------------------------------------

  /** `a <= b` on JavaScript strings: lexicographic on characters. */
  predicate LexLe(a: string, b: string)
  {
    if a == [] then true
    else if b == [] then false
    else if a[0] != b[0] then a[0] < b[0]
    else LexLe(a[1..], b[1..])
  }

  /** `a < b` on JavaScript strings. */
  predicate LexLess(a: string, b: string)
  {
    LexLe(a, b) && a != b
  }

  lemma {:induction false} LexLeTotal(a: string, b: string)
    ensures LexLe(a, b) || LexLe(b, a)
  {
    if a != [] && b != [] && a[0] == b[0] {
      LexLeTotal(a[1..], b[1..]);
    }
  }

  lemma {:induction false} LexLeTransitive(a: string, b: string, c: string)
    requires LexLe(a, b) && LexLe(b, c)
    ensures LexLe(a, c)
  {
    if a != [] && b != [] && c != [] && a[0] == b[0] && b[0] == c[0] {
      LexLeTransitive(a[1..], b[1..], c[1..]);
    }
  }

  lemma {:induction false} LexLeAntisymmetric(a: string, b: string)
    requires LexLe(a, b) && LexLe(b, a)
    ensures a == b
  {
    if a != [] && b != [] {
      LexLeAntisymmetric(a[1..], b[1..]);
    }
  }

  // ---------------------------------------------------------------------
  // Printing integers: `n.toString()` for integral numbers.
  // ---------------------------------------------------------------------

  predicate IsDigit(c: char)
  {
    '0' <= c <= '9'
  }

  function DigitChar(d: nat): (c: char)
    requires d < 10
    ensures IsDigit(c) && c as int - '0' as int == d
  {
    ('0' as int + d) as char
  }

  function DigitValue(c: char): (d: nat)
    requires IsDigit(c)
    ensures d < 10 && DigitChar(d) == c
  {
    c as int - '0' as int
  }

  /** Decimal digits of `n`, most significant first, without leading zeros. */
  function NatToString(n: nat): (s: string)
    ensures s != [] && AllDigits(s)
    ensures n > 0 ==> s[0] != '0'
    decreases n
  {
    if n < 10 then [DigitChar(n)] else NatToString(n / 10) + [DigitChar(n % 10)]
  }

  /** `Number.prototype.toString()` of an integral number: a minus sign exactly for a negative one, then digits. */
  function IntToString(i: int): (s: string)
    ensures s != [] && (s[0] == '-' <==> i < 0)
    ensures AllDigits(if i < 0 then s[1..] else s)
  {
    if i < 0 then "-" + NatToString(-i) else NatToString(i)
  }

  predicate AllDigits(s: string)
  {
    forall k :: 0 <= k < |s| ==> IsDigit(s[k])
  }

  /** Value of a string of decimal digits. */
  function DigitsValue(s: string): nat
    requires AllDigits(s)
  {
    if s == [] then 0 else DigitsValue(s[..|s| - 1]) * 10 + DigitValue(s[|s| - 1])
  }

  lemma {:induction false} NatToStringShape(n: nat)
    ensures NatToString(n) != [] && AllDigits(NatToString(n))
    ensures DigitsValue(NatToString(n)) == n
    ensures n > 0 ==> NatToString(n)[0] != '0'
    decreases n
  {
    var s := NatToString(n);
    if n >= 10 {
      NatToStringShape(n / 10);
      var p := NatToString(n / 10);
      assert s == p + [DigitChar(n % 10)];
      assert s[..|s| - 1] == p;
      assert s[0] == p[0];
    }
  }

  /** Decimal printing is injective: different integers print differently. */
  lemma IntToStringInjective(i: int, j: int)
    requires IntToString(i) == IntToString(j)
    ensures i == j
  {
    NatToStringShape(if i < 0 then -i else i);
    NatToStringShape(if j < 0 then -j else j);
    if i < 0 && j < 0 {
      assert NatToString(-i) == IntToString(i)[1..];
    }
  }

  // ---------------------------------------------------------------------
  // Parsing integers: `parseInt(s)` with no radix argument.
  // ---------------------------------------------------------------------

  /** The white space `parseInt` skips before the number (ECMAScript StrWhiteSpaceChar). */
  predicate IsJsSpace(c: char)
  {
    c == ' ' || c == '\t' || c == '\n' || c == '\r' || c == '\U{000B}' || c == '\U{000C}'
    || c == '\U{00A0}' || c == '\U{FEFF}' || c == '\U{1680}' || ('\U{2000}' <= c <= '\U{200A}')
    || c == '\U{2028}' || c == '\U{2029}' || c == '\U{202F}' || c == '\U{205F}' || c == '\U{3000}'
  }

  /** `s` without its leading white space: what is dropped is all white space, and what is kept starts with none. */
  function TrimStart(s: string): (r: string)
    ensures |r| <= |s| && r == s[|s| - |r|..]
    ensures forall k :: 0 <= k < |s| - |r| ==> IsJsSpace(s[k])
    ensures r == [] || !IsJsSpace(r[0])
  {
    if s != [] && IsJsSpace(s[0]) then
      var r := TrimStart(s[1..]);
      assert forall k :: 1 <= k < |s| - |r| ==> s[k] == s[1..][k - 1];
      r
    else s
  }

  /** The longest prefix of `s` made of characters satisfying `ok`. */
  function PrefixWhile(s: string, ok: char -> bool): (r: string)
    ensures r <= s
    ensures forall k :: 0 <= k < |r| ==> ok(r[k])
    ensures |r| < |s| ==> !ok(s[|r|])
  {
    if s != [] && ok(s[0]) then [s[0]] + PrefixWhile(s[1..], ok) else []
  }

  predicate IsHexDigit(c: char)
  {
    IsDigit(c) || 'a' <= c <= 'f' || 'A' <= c <= 'F'
  }

  function HexDigitValue(c: char): (d: nat)
    requires IsHexDigit(c)
    ensures d < 16
  {
    if IsDigit(c) then DigitValue(c)
    else if 'a' <= c <= 'f' then c as int - 'a' as int + 10
    else c as int - 'A' as int + 10
  }

  function HexValue(s: string): nat
    requires forall k :: 0 <= k < |s| ==> IsHexDigit(s[k])
  {
    if s == [] then 0 else HexValue(s[..|s| - 1]) * 16 + HexDigitValue(s[|s| - 1])
  }

  /** The magnitude `parseInt` reads after the sign: a `0x`/`0X` prefix selects hexadecimal. */
  function UnsignedPrefixValue(s: string): (r: Option<nat>)
    ensures r.Some? ==> s != [] && IsDigit(s[0])
  {
    if |s| >= 2 && s[0] == '0' && (s[1] == 'x' || s[1] == 'X') then
      var h := PrefixWhile(s[2..], IsHexDigit);
      if h == [] then None else Some(HexValue(h))
    else
      var d := PrefixWhile(s, IsDigit);
      if d == [] then None else Some(DigitsValue(d))
  }

  /**
   * `parseInt(s)`: skip leading white space, read an optional sign and the
   * longest run of digits; `None` stands for NaN (no digit at all).
   */
  function ParseInt(s: string): (r: Option<int>)
    ensures r.Some? ==> exists k :: 0 <= k < |s| && IsDigit(s[k])
    ensures r.Some? && r.value < 0 ==> TrimStart(s)[0] == '-'
    ensures r.Some? && r.value > 0 ==> TrimStart(s)[0] != '-'
  {
    var t := TrimStart(s);
    var negative := t != [] && t[0] == '-';
    var body := if t != [] && (t[0] == '-' || t[0] == '+') then t[1..] else t;
    match UnsignedPrefixValue(body)
    case None => None
    case Some(n) =>
      assert body == s[|s| - |body|..];
      assert IsDigit(s[|s| - |body|]);
      var v: int := n; Some(if negative then -v else v)
  }

  /** `parseInt` of a run of decimal digits (not a hexadecimal prefix) is its value. */
  lemma ParseUnsignedDigits(d: string)
    requires d != [] && AllDigits(d)
    ensures UnsignedPrefixValue(d) == Some(DigitsValue(d))
  {
    PrefixWhileAll(d, IsDigit);
  }

  /** One step of `ParseInt` on a string that starts with no white space. */
  lemma ParseIntUnfold(s: string, body: string, v: nat)
    requires s != [] && !IsJsSpace(s[0])
    requires body == if s[0] == '-' || s[0] == '+' then s[1..] else s
    requires UnsignedPrefixValue(body) == Some(v)
    ensures var w: int := v; ParseInt(s) == Some(if s[0] == '-' then -w else w)
  {
    assert TrimStart(s) == s;
  }

  /** A run of decimal digits parses to its value. */
  lemma ParseDigits(s: string)
    requires s != [] && AllDigits(s)
    ensures ParseInt(s) == Some(DigitsValue(s))
  {
    ParseUnsignedDigits(s);
    ParseIntUnfold(s, s, DigitsValue(s));
  }

  /** A minus followed by a run of decimal digits parses to the negated value. */
  lemma ParseMinusDigits(s: string)
    requires |s| >= 2 && s[0] == '-' && AllDigits(s[1..])
    ensures var v: int := DigitsValue(s[1..]); ParseInt(s) == Some(-v)
  {
    ParseUnsignedDigits(s[1..]);
    ParseIntUnfold(s, s[1..], DigitsValue(s[1..]));
  }

  /** Reading back what `toString` printed gives the same integer. */
  lemma ParseIntOfIntToString(i: int)
    ensures ParseInt(IntToString(i)) == Some(i)
  {
    var n: nat := if i < 0 then -i else i;
    NatToStringShape(n);
    var s := IntToString(i);
    if i < 0 {
      assert s[1..] == NatToString(n);
      ParseMinusDigits(s);
    } else {
      ParseDigits(s);
    }
  }

  /** A single decimal digit parses to its value. */
  lemma ParseDigit(c: char)
    requires IsDigit(c)
    ensures ParseInt([c]) == Some(DigitValue(c))
  {
    assert TrimStart([c]) == [c];
    assert PrefixWhile([c], IsDigit) == [c];
    assert DigitsValue([c]) == DigitValue(c) by {
      assert [c][..0] == [];
    }
  }

  lemma {:induction false} PrefixWhileAll(s: string, ok: char -> bool)
    requires forall k :: 0 <= k < |s| ==> ok(s[k])
    ensures PrefixWhile(s, ok) == s
  {
    if s != [] {
      PrefixWhileAll(s[1..], ok);
    }
  }

  // ---------------------------------------------------------------------
  // Counting characters.
  // ---------------------------------------------------------------------

  function CountChar(s: string, c: char): nat
  {
    if s == [] then 0 else (if s[0] == c then 1 else 0) + CountChar(s[1..], c)
  }

  lemma {:induction false} CountCharConcat(a: string, b: string, c: char)
    ensures CountChar(a + b, c) == CountChar(a, c) + CountChar(b, c)
  {
    if a == [] {
      assert a + b == b;
    } else {
      assert (a + b)[0] == a[0];
      assert (a + b)[1..] == a[1..] + b;
      CountCharConcat(a[1..], b, c);
    }
  }
}
