/** The few ECMAScript string primitives the client relies on. */
module JsText {

  /** ECMAScript LineTerminator: what `.` in a regular expression never matches. */
  predicate IsLineTerminator(c: char) {
    c == '\n' || c == '\r' || c == '\U{2028}' || c == '\U{2029}'
  }

  /** ECMAScript WhiteSpace or LineTerminator: what `String.prototype.trim` strips. */
  predicate IsTrimmable(c: char) {
    || IsLineTerminator(c)
    || c == '\t' || c == '\U{000B}' || c == '\U{000C}' || c == ' '
    || c == '\U{00A0}' || c == '\U{FEFF}' || c == '\U{1680}'
    || ('\U{2000}' <= c <= '\U{200A}')
    || c == '\U{202F}' || c == '\U{205F}' || c == '\U{3000}'
  }

  /** The number of trimmable characters at the start of `s`. */
  function LeadingSpace(s: string): (n: nat)
    ensures n <= |s|
    ensures forall i :: 0 <= i < n ==> IsTrimmable(s[i])
    ensures n < |s| ==> !IsTrimmable(s[n])
  {
    if s != [] && IsTrimmable(s[0]) then 1 + LeadingSpace(s[1..]) else 0
  }

  /** The number of trimmable characters at the end of `s`. */
  function TrailingSpace(s: string): (n: nat)
    ensures n <= |s|
    ensures forall i :: |s| - n <= i < |s| ==> IsTrimmable(s[i])
    ensures n < |s| ==> !IsTrimmable(s[|s| - 1 - n])
  {
    if s != [] && IsTrimmable(s[|s| - 1]) then 1 + TrailingSpace(s[..|s| - 1]) else 0
  }

  /** `r` sits in `s` at offset `a`, and everything around it is white space. */
  ghost predicate IsCoreAt(s: string, r: string, a: int) {
    && 0 <= a <= |s| - |r|
    && r == s[a..a + |r|]
    && forall i :: 0 <= i < |s| && (i < a || a + |r| <= i) ==> IsTrimmable(s[i])
  }

  /** `s.trim()`: `s` without its leading and trailing white space. */
  function Trim(s: string): (r: string)
    ensures r == [] <==> forall i :: 0 <= i < |s| ==> IsTrimmable(s[i])
    ensures r != [] ==> !IsTrimmable(r[0]) && !IsTrimmable(r[|r| - 1])
    ensures |r| <= |s|
    ensures r != [] ==> exists a :: IsCoreAt(s, r, a)
  {
    var lead := LeadingSpace(s);
    if lead == |s| then []
    else
      var trail := TrailingSpace(s);
      assert !IsTrimmable(s[lead]);
      assert lead < |s| - trail;
      assert IsCoreAt(s, s[lead..|s| - trail], lead);
      s[lead..|s| - trail]
  }

  /** Trimming a trimmed string changes nothing. */
  lemma TrimIdempotent(s: string)
    ensures Trim(Trim(s)) == Trim(s)
  {
    var r := Trim(s);
    if r != [] {
      assert LeadingSpace(r) == 0;
      assert TrailingSpace(r) == 0;
      assert r[0..|r|] == r;
    }
  }

  /** The decimal digit for `d`. */
  function DigitChar(d: nat): (c: char)
    requires d < 10
    ensures '0' <= c <= '9'
  {
    "0123456789"[d]
  }

  /** A non-negative integer written in decimal, as a template literal prints it. */
  function NatToString(n: nat): (r: string)
    ensures r != [] && forall i :: 0 <= i < |r| ==> '0' <= r[i] <= '9'
    ensures |r| > 1 ==> r[0] != '0'
  {
    if n < 10 then [DigitChar(n)] else NatToString(n / 10) + [DigitChar(n % 10)]
  }

  /** The value of a string of decimal digits. */
  function DigitsValue(s: string): nat
    requires forall i :: 0 <= i < |s| ==> '0' <= s[i] <= '9'
  {
    if s == [] then 0 else 10 * DigitsValue(s[..|s| - 1]) + (s[|s| - 1] as int - '0' as int)
  }

  /** Reading the printed number back gives the number. */
  lemma {:induction false} NatToStringRoundTrip(n: nat)
    ensures DigitsValue(NatToString(n)) == n
  {
    if n >= 10 {
      var r := NatToString(n);
      NatToStringRoundTrip(n / 10);
      assert r[..|r| - 1] == NatToString(n / 10);
    }
  }
}
