/**
 * Decimal text for integers, as JavaScript writes an integer of magnitude
 * below 10^21 in a template literal (`${n}`), and JavaScript's `parseInt`
 * (no radix) applied to text.
 */
module Decimal {

  import opened Opt

  predicate IsDigit(c: char)
  {
    '0' <= c <= '9'
  }

  predicate AllDigits(s: string)
  {
    forall i :: 0 <= i < |s| ==> IsDigit(s[i])
  }

  function DigitChar(d: nat): (c: char)
    requires d < 10
    ensures IsDigit(c)
  {
    (('0' as int) + d) as char
  }

  function DigitValue(c: char): (d: nat)
    requires IsDigit(c)
    ensures d < 10
    ensures DigitChar(d) == c
  {
    (c as int) - ('0' as int)
  }

  /** Decimal digits of `n`, most significant first, without leading zeros. */
  function NatToString(n: nat): (s: string)
    ensures |s| >= 1 && AllDigits(s)
    ensures n > 0 ==> s[0] != '0'
    decreases n
  {
    if n < 10 then [DigitChar(n)] else NatToString(n / 10) + [DigitChar(n % 10)]
  }

  /** `${n}` for an integer `n`: a minus sign before the digits of |n| when negative. */
  function IntToString(n: int): (s: string)
    ensures |s| >= 1
    ensures forall i :: 0 <= i < |s| ==> IsDigit(s[i]) || (i == 0 && s[i] == '-')
    ensures s[0] == '-' <==> n < 0
    ensures s[0] == '0' ==> s == "0"
    ensures s[0] == '-' ==> |s| >= 2 && s[1] != '0'
  {
    if n < 0 then "-" + NatToString(-n) else NatToString(n)
  }

  /** The number a string of decimal digits denotes (the empty string denotes 0). */
  function ParseDigits(s: string): (n: nat)
    requires AllDigits(s)
    decreases |s|
  {
    if s == [] then 0 else ParseDigits(s[..|s| - 1]) * 10 + DigitValue(s[|s| - 1])
  }

  lemma {:induction false} ParseNatToString(n: nat)
    ensures ParseDigits(NatToString(n)) == n
    decreases n
  {
    var s := NatToString(n);
    if n >= 10 {
      assert s[..|s| - 1] == NatToString(n / 10);
      ParseNatToString(n / 10);
    }
  }

  /** Strict reading of integer text: an optional minus sign and at least one digit, nothing else. */
  function ParseInteger(s: string): (r: Option<int>)
    ensures r.Some? ==> |s| >= 1
    ensures AllDigits(s) && |s| >= 1 ==> r == Some(ParseDigits(s))
  {
    if |s| >= 1 && AllDigits(s) then Some(ParseDigits(s))
    else if |s| >= 2 && s[0] == '-' && AllDigits(s[1..]) then Some(-(ParseDigits(s[1..]) as int))
    else None
  }

  /** Reading back what IntToString wrote gives the same integer. */
  lemma IntToStringRoundTrip(n: int)
    ensures ParseInteger(IntToString(n)) == Some(n)
  {
    var s := IntToString(n);
    if n < 0 {
      assert s[1..] == NatToString(-n);
      assert !AllDigits(s) by { assert !IsDigit(s[0]); }
      ParseNatToString(-n);
    } else {
      ParseNatToString(n);
    }
  }

  /** IntToString is injective: distinct integers are never shown as the same text. */
  lemma IntToStringInjective(a: int, b: int)
    requires IntToString(a) == IntToString(b)
    ensures a == b
  {
    IntToStringRoundTrip(a);
    IntToStringRoundTrip(b);
  }

  /** A JavaScript number as `parseInt` can return it. */
  datatype Num = Int(value: int) | NaN

  /** Length of the longest prefix of `s` made of decimal digits. */
  function DigitPrefixLength(s: string): (k: nat)
    ensures k <= |s|
    ensures AllDigits(s[..k])
    ensures k < |s| ==> !IsDigit(s[k])
    decreases |s|
  {
    if s == [] || !IsDigit(s[0]) then 0
    else
      var k := 1 + DigitPrefixLength(s[1..]);
      assert s[..k] == [s[0]] + s[1..][..k - 1];
      k
  }

  /**
   * The white space `parseInt` skips at the start of its argument: the
   * ECMAScript WhiteSpace characters (tab, vertical tab, form feed, the byte
   * order mark and every Unicode space separator) and its line terminators.
   */
  predicate IsJsWhiteSpace(c: char)
  {
    || c == '\t' || c == '\n' || c == '\U{000B}' || c == '\U{000C}' || c == '\r'
    || c == ' ' || c == '\U{00A0}' || c == '\U{1680}' || ('\U{2000}' <= c <= '\U{200A}')
    || c == '\U{2028}' || c == '\U{2029}' || c == '\U{202F}' || c == '\U{205F}'
    || c == '\U{3000}' || c == '\U{FEFF}'
  }

  /** How many white-space characters `s` starts with. */
  function LeadingWhiteSpace(s: string): (n: nat)
    ensures n <= |s|
    ensures forall i :: 0 <= i < n ==> IsJsWhiteSpace(s[i])
    ensures n < |s| ==> !IsJsWhiteSpace(s[n])
    decreases |s|
  {
    if s != [] && IsJsWhiteSpace(s[0]) then 1 + LeadingWhiteSpace(s[1..]) else 0
  }

  /** `s` without its leading white space. */
  function TrimStart(s: string): string
  {
    s[LeadingWhiteSpace(s)..]
  }

  /** The text after an optional leading sign. */
  function Unsigned(t: string): string
  {
    if |t| >= 1 && (t[0] == '-' || t[0] == '+') then t[1..] else t
  }

  /** `body[..k]` is a non-empty run of digits that cannot be extended. */
  predicate LongestDigitRun(body: string, k: int)
  {
    1 <= k <= |body| && AllDigits(body[..k]) && (k == |body| || !IsDigit(body[k]))
  }

  /**
   * JavaScript's `parseInt(s)` with no radix: leading white space is
   * skipped, then an optional sign, then the longest run of decimal digits;
   * the rest of the text is ignored, and text with no digit after the sign
   * gives NaN.
   */
  function ParseIntPrefix(s: string): (r: Num)
    ensures r.Int? <==> |Unsigned(TrimStart(s))| >= 1 && IsDigit(Unsigned(TrimStart(s))[0])
    ensures r.Int? ==>
              var t := TrimStart(s);
              var body := Unsigned(t);
              exists k :: LongestDigitRun(body, k) &&
                r.value == (if t[0] == '-' then -(ParseDigits(body[..k]) as int) else ParseDigits(body[..k]))
  {
    var t := TrimStart(s);
    var signed := |t| >= 1 && (t[0] == '-' || t[0] == '+');
    var body := Unsigned(t);
    var k := DigitPrefixLength(body);
    if k == 0 then NaN
    else
      assert LongestDigitRun(body, k);
      if signed && t[0] == '-' then Int(-(ParseDigits(body[..k]) as int))
      else Int(ParseDigits(body[..k]))
  }

  lemma {:induction false} TrimStartSkipsWhiteSpace(ws: string, s: string)
    requires forall i :: 0 <= i < |ws| ==> IsJsWhiteSpace(ws[i])
    ensures LeadingWhiteSpace(ws + s) == |ws| + LeadingWhiteSpace(s)
    ensures TrimStart(ws + s) == TrimStart(s)
    decreases |ws|
  {
    if ws != [] {
      assert (ws + s)[1..] == ws[1..] + s;
      TrimStartSkipsWhiteSpace(ws[1..], s);
    }
    assert (ws + s)[|ws| + LeadingWhiteSpace(s)..] == s[LeadingWhiteSpace(s)..];
  }

  /** parseInt skips any white space in front of the number. */
  lemma LeadingWhiteSpaceSkipped(ws: string, s: string)
    requires forall i :: 0 <= i < |ws| ==> IsJsWhiteSpace(ws[i])
    ensures ParseIntPrefix(ws + s) == ParseIntPrefix(s)
  {
    TrimStartSkipsWhiteSpace(ws, s);
  }

  lemma AllDigitsPrefixIsWhole(s: string, t: string)
    requires AllDigits(s) && |s| >= 1
    requires t == [] || !IsDigit(t[0])
    ensures DigitPrefixLength(s + t) == |s| && (s + t)[..|s|] == s
  {
  }

  /**
   * parseInt reads back what `${n}` wrote, even when other text follows that
   * does not start with a digit (JavaScript's partial parse: "12abc" gives 12).
   */
  lemma ParseIntPrefixOfIntToString(n: int, t: string)
    requires t == [] || !IsDigit(t[0])
    ensures ParseIntPrefix(IntToString(n) + t) == Int(n)
  {
    var m := if n < 0 then -n else n;
    var digits := NatToString(m);
    var u := IntToString(n) + t;
    assert TrimStart(u) == u by {
      assert u[0] == IntToString(n)[0];
      assert LeadingWhiteSpace(u) == 0;
      assert u[0..] == u;
    }
    ParseNatToString(m);
    if n < 0 {
      assert IntToString(n) + t == ['-'] + (digits + t);
      assert (IntToString(n) + t)[1..] == digits + t;
    } else {
      assert IntToString(n) + t == digits + t;
      assert IsDigit((digits + t)[0]);
    }
    AllDigitsPrefixIsWhole(digits, t);
  }

  /**
   * Text that starts with neither white space, nor a digit, nor a sign gives
   * NaN ("abc", and the empty text); with LeadingWhiteSpaceSkipped this
   * covers " abc" too.
   */
  lemma ParseIntPrefixNaN(s: string)
    requires s == [] || (!IsDigit(s[0]) && s[0] != '-' && s[0] != '+' && !IsJsWhiteSpace(s[0]))
    ensures ParseIntPrefix(s) == NaN
  {
  }
}
