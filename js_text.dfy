/** The small part of JavaScript's string semantics the store forms rely on:
    the white-space class shared by `\s` and `String.prototype.trim`, `trim`
    itself, the phone-number rule `^[0-9]{10,13}$`, and the decimal text of an
    integer that `String(n)` produces (for magnitudes below 1e21, where
    JavaScript switches to exponent form). */
module JsText {

  /** The characters JavaScript treats as white space or line terminators:
      tab, line feed, vertical tab, form feed, carriage return, space, no-break
      space, the Unicode space separators, the line and paragraph separators
      and the byte-order mark. */
  predicate IsSpace(c: char) {
    || '\t' <= c <= '\r'
    || c == ' ' || c == '\U{A0}' || c == '\U{1680}'
    || '\U{2000}' <= c <= '\U{200A}'
    || c == '\U{2028}' || c == '\U{2029}' || c == '\U{202F}' || c == '\U{205F}'
    || c == '\U{3000}' || c == '\U{FEFF}'
  }

  /** Every character of `s` is white space (so `s.trim()` is empty). */
  predicate IsBlank(s: string) {
    forall i :: 0 <= i < |s| ==> IsSpace(s[i])
  }

  predicate IsDigit(c: char) {
    '0' <= c <= '9'
  }

  /** The declarative reading of `/^[0-9]{10,13}$/.test(s)`: the whole string,
      with nothing trimmed, is 10 to 13 ASCII digits. */
  predicate IsPhoneNumber(s: string) {
    10 <= |s| <= 13 && forall i :: 0 <= i < |s| ==> IsDigit(s[i])
  }

  /** The number of ASCII digits at the front of `s`. */
  function LeadingDigits(s: string): (n: nat)
    ensures n <= |s|
    ensures forall i :: 0 <= i < n ==> IsDigit(s[i])
    ensures n == |s| || !IsDigit(s[n])
  {
    if s != [] && IsDigit(s[0]) then 1 + LeadingDigits(s[1..]) else 0
  }

  /** `/^[0-9]{10,13}$/.test(s)` as the regular-expression engine runs it:
      10 to 13 digits from the start, then the end of the input. */
  function PhonePatternTest(s: string): bool {
    var n := LeadingDigits(s);
    10 <= n <= 13 && n == |s|
  }

  /** The engine's test agrees with the declarative rule `IsPhoneNumber`. */
  lemma PhonePatternMeaning(s: string)
    ensures PhonePatternTest(s) <==> IsPhoneNumber(s)
  {
    var n := LeadingDigits(s);
    if n < |s| {
      assert !IsDigit(s[n]);
    }
  }

  /** Drops the leading white space. */
  function TrimStart(s: string): (r: string)
    ensures |r| <= |s| && r == s[|s| - |r|..]
    ensures IsBlank(s[..|s| - |r|])
    ensures r == [] || !IsSpace(r[0])
    decreases |s|
  {
    if s != [] && IsSpace(s[0]) then
      var r := TrimStart(s[1..]);
      assert s[1..][..|s| - 1 - |r|] == s[1..|s| - |r|];
      r
    else
      s
  }

  /** Drops the trailing white space. */
  function TrimEnd(s: string): (r: string)
    ensures |r| <= |s| && r == s[..|r|]
    ensures IsBlank(s[|r|..])
    ensures r == [] || !IsSpace(r[|r| - 1])
    decreases |s|
  {
    if s != [] && IsSpace(s[|s| - 1]) then
      var r := TrimEnd(s[..|s| - 1]);
      assert s[..|s| - 1][|r|..] == s[|r|..|s| - 1];
      assert s[|r|..] == s[|r|..|s| - 1] + [s[|s| - 1]];
      BlankConcat(s[|r|..|s| - 1], [s[|s| - 1]]);
      r
    else
      s
  }

  /** `s.trim()`: `s` with the white space at both ends removed. */
  function Trim(s: string): string {
    TrimEnd(TrimStart(s))
  }

  /** Nothing but white space is cut off by `Trim`, so the result is empty
      exactly when the input is blank; a non-empty result starts and ends
      with a character that is not white space. */
  lemma TrimResult(s: string)
    ensures Trim(s) == [] <==> IsBlank(s)
    ensures Trim(s) != [] ==> !IsSpace(Trim(s)[0]) && !IsSpace(Trim(s)[|Trim(s)| - 1])
  {
    TrimEmptyIffBlank(s);
    var t := TrimStart(s);
    var r := TrimEnd(t);
    if r != [] {
      assert r[0] == t[0];
    }
  }

  /** The step of `TrimResult` about emptiness, on the two halves of `Trim`. */
  lemma TrimEmptyIffBlank(s: string)
    ensures TrimEnd(TrimStart(s)) == [] <==> IsBlank(s)
  {
    TrimStartEmptyIffBlank(s);
    TrimEndKeepsFirst(TrimStart(s));
  }

  /** Only a blank text loses all of its characters to `TrimStart`. */
  lemma {:induction false} TrimStartEmptyIffBlank(s: string)
    ensures TrimStart(s) == [] <==> IsBlank(s)
  {
    if s != [] && IsSpace(s[0]) {
      TrimStartEmptyIffBlank(s[1..]);
      BlankCons(s);
    }
  }

  /** A text whose first character is white space is blank exactly when
      the rest of it is. */
  lemma BlankCons(s: string)
    requires s != [] && IsSpace(s[0])
    ensures IsBlank(s) <==> IsBlank(s[1..])
  {
    if IsBlank(s[1..]) {
      forall k | 1 <= k < |s| ensures IsSpace(s[k]) {
        assert s[k] == s[1..][k - 1];
      }
    }
  }

  /** `TrimEnd` empties a text that starts with a character other than
      white space only if the text was empty already. */
  lemma TrimEndKeepsFirst(t: string)
    requires t == [] || !IsSpace(t[0])
    ensures TrimEnd(t) == [] <==> t == []
  {
  }

  lemma BlankConcat(a: string, b: string)
    requires IsBlank(a) && IsBlank(b)
    ensures IsBlank(a + b)
  {
    forall k | 0 <= k < |a + b| ensures IsSpace((a + b)[k]) {
      if k < |a| { assert (a + b)[k] == a[k]; } else { assert (a + b)[k] == b[k - |a|]; }
    }
  }

  function DigitChar(d: nat): (c: char)
    requires d < 10
    ensures IsDigit(c)
  {
    "0123456789"[d]
  }

  /** The decimal text of a natural number, as `String(n)` writes it for
      numbers below 1e21. */
  function NatText(n: nat): (t: string)
    ensures |t| > 0 && forall i :: 0 <= i < |t| ==> IsDigit(t[i])
  {
    if n < 10 then [DigitChar(n)] else NatText(n / 10) + [DigitChar(n % 10)]
  }

  /** The decimal text of an integer, as `String(n)` writes it for
      magnitudes below 1e21. */
  function IntText(n: int): string {
    if n < 0 then "-" + NatText(-n) else NatText(n)
  }
}
