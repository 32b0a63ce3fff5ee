/** The JavaScript string primitives the application relies on: `trim`,
    the case mappings behind priority normalisation, decimal rendering of
    numbers in template strings and `Number` on numeric strings. */
module Text {
  import opened Wrappers

  // ---------------------------------------------------------------------
  // trim
  // ---------------------------------------------------------------------

  /** The characters `String.prototype.trim` removes: ECMAScript's
      WhiteSpace (TAB, VT, FF, SPACE, NBSP, ZWNBSP and the Zs category)
      and LineTerminator (LF, CR, LS, PS) code points. */
  predicate IsJsSpace(c: char) {
    var n := c as int;
    || n == 0x09 || n == 0x0A || n == 0x0B || n == 0x0C || n == 0x0D
    || n == 0x20 || n == 0xA0 || n == 0x1680
    || (0x2000 <= n <= 0x200A)
    || n == 0x2028 || n == 0x2029 || n == 0x202F || n == 0x205F
    || n == 0x3000 || n == 0xFEFF
  }

  /** Every character of `s` is one `trim` removes. */
  predicate IsBlank(s: string) {
    forall k :: 0 <= k < |s| ==> IsJsSpace(s[k])
  }

  /** The index of the first character at or after `i` that is not white
      space, or `|s|` when there is none. */
  function SkipLeading(s: string, i: nat): (j: nat)
    requires i <= |s|
    ensures i <= j <= |s|
    ensures forall k :: i <= k < j ==> IsJsSpace(s[k])
    ensures j == |s| || !IsJsSpace(s[j])
    decreases |s| - i
  {
    if i < |s| && IsJsSpace(s[i]) then SkipLeading(s, i + 1) else i
  }

  /** The end of `s[lo..j]` once its trailing white space is dropped. */
  function SkipTrailing(s: string, lo: nat, j: nat): (e: nat)
    requires lo <= j <= |s|
    ensures lo <= e <= j
    ensures forall k :: e <= k < j ==> IsJsSpace(s[k])
    ensures e == lo || !IsJsSpace(s[e - 1])
    decreases j - lo
  {
    if lo < j && IsJsSpace(s[j - 1]) then SkipTrailing(s, lo, j - 1) else j
  }

  /** Where the trimmed text starts. */
  function TrimStartIndex(s: string): nat
    ensures TrimStartIndex(s) <= |s|
  {
    SkipLeading(s, 0)
  }

  /** JavaScript's `s.trim()`: the infix of `s` that neither starts nor
      ends with white space and outside which there is only white space;
      empty exactly when `s` is blank. */
  function Trim(s: string): (r: string)
    ensures var i := TrimStartIndex(s); i + |r| <= |s| && r == s[i..i + |r|]
    ensures forall k :: 0 <= k < TrimStartIndex(s) ==> IsJsSpace(s[k])
    ensures forall k :: TrimStartIndex(s) + |r| <= k < |s| ==> IsJsSpace(s[k])
    ensures r == [] || (!IsJsSpace(r[0]) && !IsJsSpace(r[|r| - 1]))
    ensures r == [] <==> IsBlank(s)
  {
    var i := SkipLeading(s, 0);
    var e := SkipTrailing(s, i, |s|);
    assert e > i ==> !IsJsSpace(s[i]);
    s[i..e]
  }

  /** A string that neither starts nor ends with white space is its own trim. */
  lemma TrimKeepsTrimmed(s: string)
    requires s == [] || (!IsJsSpace(s[0]) && !IsJsSpace(s[|s| - 1]))
    ensures Trim(s) == s
  {
    assert SkipLeading(s, 0) == 0;
    assert SkipTrailing(s, 0, |s|) == |s|;
    assert s[0..|s|] == s;
  }

  /** Trimming twice is trimming once. */
  lemma TrimIdempotent(s: string)
    ensures Trim(Trim(s)) == Trim(s)
  {
    TrimKeepsTrimmed(Trim(s));
  }

  // ---------------------------------------------------------------------
  // case mapping
  // ---------------------------------------------------------------------

  /** `toUpperCase` on one character of Basic Latin or Latin-1, as a
      string because U+00DF (sharp s) upper-cases to "SS". The lower-case
      letters a-z and U+00E0-U+00FE except U+00F7 move down by 32, U+00B5
      (micro sign) becomes U+039C and U+00FF becomes U+0178; every other
      character is left as it is. */
  function UpperCase(c: char): string {
    var n := c as int;
    if n == 0xDF then "SS"
    else if n == 0xB5 then ['\U{039C}']
    else if n == 0xFF then ['\U{0178}']
    else if 'a' <= c <= 'z' || (0xE0 <= n <= 0xFE && n != 0xF7) then [(n - 32) as char]
    else [c]
  }

  /** `toLowerCase` on one character: A-Z and U+00C0-U+00DE except U+00D7. */
  function LowerChar(c: char): char {
    var n := c as int;
    if 'A' <= c <= 'Z' || (0xC0 <= n <= 0xDE && n != 0xD7) then (n + 32) as char else c
  }

  function LowerString(s: string): (r: string)
    ensures |r| == |s|
    ensures forall k :: 0 <= k < |s| ==> r[k] == LowerChar(s[k])
  {
    seq(|s|, k requires 0 <= k < |s| => LowerChar(s[k]))
  }

  /** `s.charAt(0).toUpperCase() + s.slice(1).toLowerCase()`; the empty
      string stays empty. */
  function Capitalise(s: string): string {
    if s == [] then [] else UpperCase(s[0]) + LowerString(s[1..])
  }

  /** Upper-casing a character that is not the sharp s yields one
      character, which upper-cases to itself. */
  lemma UpperCaseSingle(c: char)
    requires c as int != 0xDF
    ensures |UpperCase(c)| == 1 && UpperCase(UpperCase(c)[0]) == UpperCase(c)
  {
  }

  /** Normalising a word that does not start with the sharp s keeps its
      length and changes nothing the second time, so on such words the
      normalisation is a projection onto capitalised words. A word that
      starts with the sharp s grows by one character and is not stable:
      "SS..." normalises again to "Ss...". */
  lemma {:induction false} CapitaliseIdempotent(s: string)
    ensures s != [] && s[0] as int != 0xDF ==> |Capitalise(s)| == |s|
    ensures s == [] || s[0] as int != 0xDF ==> Capitalise(Capitalise(s)) == Capitalise(s)
    ensures s != [] && s[0] as int == 0xDF ==>
      && |Capitalise(s)| == |s| + 1
      && Capitalise(s)[1] == 'S' && Capitalise(Capitalise(s))[1] == 's'
  {
    if s != [] && s[0] as int != 0xDF {
      UpperCaseSingle(s[0]);
      var c := Capitalise(s);
      var u := UpperCase(s[0])[0];
      assert c == [u] + LowerString(s[1..]);
      assert c[0] == u && c[1..] == LowerString(s[1..]);
      var c2 := Capitalise(c);
      assert c2 == [u] + LowerString(c[1..]);
      assert LowerString(c[1..]) == c[1..];
      assert c2 == c;
    } else if s != [] {
      var c := Capitalise(s);
      assert c == "SS" + LowerString(s[1..]);
      assert c[0] == 'S' && c[1] == 'S';
      var c2 := Capitalise(c);
      assert c2 == "S" + LowerString(c[1..]);
      assert LowerString(c[1..])[0] == LowerChar(c[1]);
    }
  }

  /** The four priority words are already in normal form. */
  lemma PriorityWordsNormal(w: string)
    requires w in ["Baja", "Media", "Alta", "Cr\U{00ED}tica"]
    ensures Capitalise(w) == w
  {
    assert UpperCase(w[0]) == [w[0]];
    assert LowerString(w[1..]) == w[1..];
    assert [w[0]] + w[1..] == w;
  }

  // ---------------------------------------------------------------------
  // decimal numbers
  // ---------------------------------------------------------------------

  predicate IsDigit(c: char) {
    '0' <= c <= '9'
  }

  predicate AllDigits(s: string) {
    forall k :: 0 <= k < |s| ==> IsDigit(s[k])
  }

  function DigitChar(d: nat): (c: char)
    requires d < 10
    ensures IsDigit(c) && c as int - '0' as int == d
  {
    ('0' as int + d) as char
  }

  /** The value of a string of decimal digits, most significant first. */
  function DecimalValue(s: string): nat
    requires AllDigits(s)
  {
    if s == [] then 0 else DecimalValue(s[..|s| - 1]) * 10 + (s[|s| - 1] as int - '0' as int)
  }

  /** How a template string renders a non-negative integer: its digits,
      most significant first, with no leading zero. */
  function NatToString(n: nat): (r: string)
    ensures |r| >= 1 && AllDigits(r)
    ensures r[0] == '0' ==> n == 0
  {
    if n < 10 then [DigitChar(n)] else NatToString(n / 10) + [DigitChar(n % 10)]
  }

  /** Reading the rendered digits back yields the number rendered. */
  lemma {:induction false} DecimalRoundTrip(n: nat)
    ensures DecimalValue(NatToString(n)) == n
  {
    if n >= 10 {
      var a := NatToString(n / 10);
      var r := NatToString(n);
      assert r == a + [DigitChar(n % 10)];
      assert r[..|r| - 1] == a;
      DecimalRoundTrip(n / 10);
    }
  }

  /** Rendering is injective: two numbers with the same text are equal. */
  lemma NatToStringInjective(m: nat, n: nat)
    requires NatToString(m) == NatToString(n)
    ensures m == n
  {
    DecimalRoundTrip(m);
    DecimalRoundTrip(n);
  }

  /** How a template string renders any integer. */
  function IntToString(i: int): string {
    if i < 0 then "-" + NatToString(-i) else NatToString(i)
  }

  /** `Number(s)` for the strings the model feeds it: after trimming, the
      empty string is 0 and a run of decimal digits is its value; any other
      string is `NaN`, written `None`. */
  function NumberOf(s: string): (r: Option<int>)
    ensures r.Some? ==> r.value >= 0
    ensures IsBlank(s) ==> r == Some(0)
  {
    var t := Trim(s);
    if AllDigits(t) then Some(DecimalValue(t)) else None
  }

  /** `Number` reads back every rendered non-negative integer, so a string
      made by `toString` on an id converts to that id. */
  lemma NumberOfRendered(n: nat)
    ensures NumberOf(NatToString(n)) == Some(n)
  {
    var s := NatToString(n);
    assert !IsJsSpace(s[0]) && !IsJsSpace(s[|s| - 1]);
    TrimKeepsTrimmed(s);
    DecimalRoundTrip(n);
  }

  // ---------------------------------------------------------------------
  // joining
  // ---------------------------------------------------------------------

  /** `xs.join(sep)`. */
  function Join(xs: seq<string>, sep: string): string {
    if |xs| == 0 then ""
    else if |xs| == 1 then xs[0]
    else xs[0] + sep + Join(xs[1..], sep)
  }
}
