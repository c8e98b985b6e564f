/** String helpers shared by the models: the whitespace sets of Python's
    `str.strip()` and JavaScript's `String.prototype.trim()`, a trim that is
    parameterised by one of them, and decimal rendering of numbers. */
module Text {

  /** Characters for which Python's `str.isspace()` holds; `str.strip()` with
      no argument removes exactly these from both ends. */
  predicate IsPySpace(c: char) {
    ('\t' <= c <= '\r') || ('\U{1C}' <= c <= '\U{1F}') || c == ' '
    || c == '\U{85}' || c == '\U{A0}' || c == '\U{1680}'
    || ('\U{2000}' <= c <= '\U{200A}') || c == '\U{2028}' || c == '\U{2029}'
    || c == '\U{202F}' || c == '\U{205F}' || c == '\U{3000}'
  }

  /** ECMAScript WhiteSpace and LineTerminator code points, which `trim()`
      removes from both ends. */
  predicate IsJsSpace(c: char) {
    ('\t' <= c <= '\r') || c == ' ' || c == '\U{A0}' || c == '\U{1680}'
    || ('\U{2000}' <= c <= '\U{200A}') || c == '\U{2028}' || c == '\U{2029}'
    || c == '\U{202F}' || c == '\U{205F}' || c == '\U{3000}' || c == '\U{FEFF}'
  }

  predicate AllSpace(s: string, isSpace: char -> bool) {
    forall i :: 0 <= i < |s| ==> isSpace(s[i])
  }

  /** Drops the leading characters that satisfy `isSpace`. */
  function TrimStart(s: string, isSpace: char -> bool): (r: string)
    ensures |r| <= |s| && r == s[|s| - |r|..]
    ensures AllSpace(s[..|s| - |r|], isSpace)
    ensures |r| > 0 ==> !isSpace(r[0])
    decreases |s|
  {
    if |s| > 0 && isSpace(s[0]) then TrimStart(s[1..], isSpace) else s
  }

  /** Drops the trailing characters that satisfy `isSpace`. */
  function TrimEnd(s: string, isSpace: char -> bool): (r: string)
    ensures |r| <= |s| && r == s[..|r|]
    ensures AllSpace(s[|r|..], isSpace)
    ensures |r| > 0 ==> !isSpace(r[|r| - 1])
    decreases |s|
  {
    if |s| > 0 && isSpace(s[|s| - 1]) then TrimEnd(s[..|s| - 1], isSpace) else s
  }

  /** `s` with the maximal runs of `isSpace` characters removed from both ends. */
  function Trim(s: string, isSpace: char -> bool): (r: string)
    ensures |r| <= |s|
    ensures |r| > 0 ==> !isSpace(r[0]) && !isSpace(r[|r| - 1])
  {
    TrimEnd(TrimStart(s, isSpace), isSpace)
  }

  /** `r` sits at offset `i` of `s` and everything around it is whitespace. */
  ghost predicate TrimmedAt(s: string, r: string, i: int, isSpace: char -> bool) {
    0 <= i && i + |r| <= |s| && s[i..i + |r|] == r
    && AllSpace(s[..i], isSpace) && AllSpace(s[i + |r|..], isSpace)
  }

  /** The trimmed string is the middle of `s`, surrounded only by whitespace. */
  lemma TrimIsMiddle(s: string, isSpace: char -> bool)
    ensures TrimmedAt(s, Trim(s, isSpace), |s| - |TrimStart(s, isSpace)|, isSpace)
  {
    var t := TrimStart(s, isSpace);
    MiddleOf(s, t, TrimEnd(t, isSpace), isSpace);
  }

  /** A suffix `t` after spaces, cut before trailing spaces, is a middle slice. */
  lemma MiddleOf(s: string, t: string, r: string, isSpace: char -> bool)
    requires |t| <= |s| && t == s[|s| - |t|..] && AllSpace(s[..|s| - |t|], isSpace)
    requires |r| <= |t| && r == t[..|r|] && AllSpace(t[|r|..], isSpace)
    ensures TrimmedAt(s, r, |s| - |t|, isSpace)
  {
    var i := |s| - |t|;
    var n := |r|;
    assert s[i..i + n] == t[..n];
    assert s[i + n..] == t[n..];
  }

  /** Trimming yields the empty string exactly when every character is whitespace. */
  lemma TrimEmptyIff(s: string, isSpace: char -> bool)
    ensures Trim(s, isSpace) == [] <==> AllSpace(s, isSpace)
  {
    var r := Trim(s, isSpace);
    var i := |s| - |TrimStart(s, isSpace)|;
    TrimIsMiddle(s, isSpace);
    if r == [] {
      var t := TrimStart(s, isSpace);
      assert t == [];
      assert s[..i] == s;
    }
  }

  /** Trimming twice changes nothing more than trimming once. */
  lemma TrimIdempotent(s: string, isSpace: char -> bool)
    ensures Trim(Trim(s, isSpace), isSpace) == Trim(s, isSpace)
  {
    var r := Trim(s, isSpace);
    if |r| > 0 {
      assert TrimStart(r, isSpace) == r;
      assert TrimEnd(r, isSpace) == r;
    }
  }

  /** The decimal digit for `d`. */
  function Digit(d: nat): (c: char)
    requires d < 10
    ensures '0' <= c <= '9' && (c as int) - ('0' as int) == d
  {
    ['0', '1', '2', '3', '4', '5', '6', '7', '8', '9'][d]
  }

  /** Decimal rendering of a natural number, as both `String(n)` in
      JavaScript and `str(n)` in Python produce it. */
  function NatToString(n: nat): (r: string)
    ensures |r| > 0
    ensures forall i :: 0 <= i < |r| ==> '0' <= r[i] <= '9'
    ensures r[0] == '0' ==> n == 0
    decreases n
  {
    if n < 10 then [Digit(n)] else NatToString(n / 10) + [Digit(n % 10)]
  }

  /** The value of a string of decimal digits, the reference reading of a number. */
  function DecimalValue(s: string): int
    decreases |s|
  {
    if s == [] then 0
    else DecimalValue(s[..|s| - 1]) * 10 + ((s[|s| - 1] as int) - ('0' as int))
  }

  /** Rendering a number and reading it back gives the same number. */
  lemma {:induction false} DecimalRoundTrip(n: nat)
    ensures DecimalValue(NatToString(n)) == n
    decreases n
  {
    if n >= 10 {
      DecimalRoundTrip(n / 10);
      var s := NatToString(n);
      assert s[..|s| - 1] == NatToString(n / 10);
    }
  }
}
