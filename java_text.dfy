/** The pieces of `java.lang.String` and `Integer` the catalog relies on:
    decimal rendering of an `int` (`%d`, string concatenation), parsing it
    back with `Integer.parseInt`, `indexOf`, `substring` and `isBlank`. */
module JavaText {
  import opened Basics

  predicate IsDigit(c: char) {
    '0' <= c <= '9'
  }

  predicate AllDigits(s: string) {
    forall i :: 0 <= i < |s| ==> IsDigit(s[i])
  }

  function DigitChar(d: int): (c: char)
    requires 0 <= d < 10
    ensures IsDigit(c)
  {
    (('0' as int) + d) as char
  }

  function DigitValue(c: char): int
    requires IsDigit(c)
  {
    c as int - '0' as int
  }

  /** The decimal digits of `n`, most significant first, without leading zeros. */
  function Digits(n: nat): (s: string)
    ensures |s| > 0 && AllDigits(s)
    decreases n
  {
    if n < 10 then [DigitChar(n)] else Digits(n / 10) + [DigitChar(n % 10)]
  }

  /** How Java renders an `int` in text: an optional minus sign and the
      ASCII digits (the digits of a locale whose script is Latin). */
  function Decimal(n: int): (s: string)
    ensures |s| > 0 && ']' !in s
  {
    if n < 0 then "-" + Digits(-n) else Digits(n)
  }

  /** The value of a string of decimal digits, read left to right. */
  function DigitsValue(s: string): nat
    requires AllDigits(s)
    decreases |s|
  {
    if s == [] then 0 else DigitsValue(s[..|s| - 1]) * 10 + DigitValue(s[|s| - 1])
  }

  lemma {:induction false} DigitsRoundTrip(n: nat)
    ensures DigitsValue(Digits(n)) == n
    decreases n
  {
    if n >= 10 {
      var s := Digits(n);
      assert s == Digits(n / 10) + [DigitChar(n % 10)];
      assert s[..|s| - 1] == Digits(n / 10);
      DigitsRoundTrip(n / 10);
    }
  }

  /** `Integer.parseInt(s)`: an optional sign followed by at least one
      ASCII digit, with a value a Java `int` can hold; `None` is the
      `NumberFormatException` thrown otherwise. Digits of other scripts are
      not modelled. */
  function ParseInt(s: string): (r: Option<int>)
    ensures r.Some? ==> InIntRange(r.value)
    ensures r.Some? ==> |s| > 0
  {
    if |s| > 0 && (s[0] == '-' || s[0] == '+') then
      var body := s[1..];
      if body == [] || !AllDigits(body) then None
      else
        var magnitude: int := DigitsValue(body);
        var v := if s[0] == '-' then -magnitude else magnitude;
        if InIntRange(v) then Some(v) else None
    else if s == [] || !AllDigits(s) then None
    else if InIntRange(DigitsValue(s)) then Some(DigitsValue(s))
    else None
  }

  /** Parsing the rendering of any `int` gives that `int` back. */
  lemma DecimalRoundTrip(n: int)
    requires InIntRange(n)
    ensures ParseInt(Decimal(n)) == Some(n)
  {
    var s := Decimal(n);
    if n < 0 {
      assert s[0] == '-' && s[1..] == Digits(-n);
      DigitsRoundTrip(-n);
    } else {
      assert s == Digits(n) && IsDigit(s[0]);
      DigitsRoundTrip(n);
    }
  }

  /** `s.indexOf(c)`: the first position of `c`, or -1. */
  function IndexOf(s: string, c: char): (i: int)
    ensures -1 <= i < |s|
    ensures i >= 0 ==> s[i] == c && c !in s[..i]
    ensures i == -1 ==> c !in s
    decreases |s|
  {
    if s == [] then -1
    else if s[0] == c then 0
    else
      var j := IndexOf(s[1..], c);
      if j < 0 then -1 else j + 1
  }

  lemma IndexOfAfterPrefix(p: string, c: char, q: string)
    requires c !in p
    ensures IndexOf(p + [c] + q, c) == |p|
  {
    var s := p + [c] + q;
    var i := IndexOf(s, c);
    assert s[|p|] == c;
    assert s[..|p|] == p;
  }

  /** `s.substring(b, e)`; `None` is the `StringIndexOutOfBoundsException`. */
  function Substring(s: string, b: int, e: int): (r: Option<string>)
    ensures r.Some? <==> 0 <= b <= e <= |s|
    ensures r.Some? ==> |r.value| == e - b && forall k :: 0 <= k < e - b ==> r.value[k] == s[b + k]
  {
    if 0 <= b <= e <= |s| then Some(s[b..e]) else None
  }

  /** `Character.isWhitespace`: the Unicode space, line and paragraph
      separators other than the no-break spaces, and the ASCII controls
      HT, LF, VT, FF, CR and FS, GS, RS, US. */
  predicate IsJavaWhitespace(c: char)
    ensures c == ' ' || c == '\t' || c == '\n' || c == '\r' ==> IsJavaWhitespace(c)
    ensures c == '\U{00A0}' || c == '\U{2007}' || c == '\U{202F}' ==> !IsJavaWhitespace(c)
    ensures '!' <= c <= '~' ==> !IsJavaWhitespace(c)
  {
    || '\t' <= c <= '\r'
    || '\U{1C}' <= c <= '\U{1F}'
    || c == ' '
    || c == '\U{1680}'
    || ('\U{2000}' <= c <= '\U{200A}' && c != '\U{2007}')
    || c == '\U{2028}' || c == '\U{2029}'
    || c == '\U{205F}' || c == '\U{3000}'
  }

  /** `s.isBlank()`: empty, or white space only. */
  predicate IsBlank(s: string)
    ensures IsBlank(s) <==> forall c :: c in s ==> IsJavaWhitespace(c)
    ensures s == [] ==> IsBlank(s)
  {
    forall i :: 0 <= i < |s| ==> IsJavaWhitespace(s[i])
  }
}
