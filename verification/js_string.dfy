/**
  The JavaScript string operations the editor relies on, over UTF-16 code
  units: `length`, `indexOf`, `includes`, `substring` and `trim` all count and
  compare code units, so a text here is a sequence of them.
 */
module JsString {

  /** One UTF-16 code unit. */
  newtype CodeUnit = x: int | 0 <= x < 0x1_0000

  type Text = seq<CodeUnit>

  /** The UTF-16 encoding of a Dafny string whose characters all lie in the
      Basic Multilingual Plane, where each character is one code unit. Used
      to write the application's string literals, which are all of that kind; any other
      character would become U+FFFD. */
  function Utf16(s: string): (t: Text)
    ensures |t| == |s|
    ensures forall i :: 0 <= i < |s| && s[i] as int < 0x1_0000 ==> t[i] as int == s[i] as int
  {
    seq(|s|, i requires 0 <= i < |s| => if s[i] as int < 0x1_0000 then s[i] as int as CodeUnit else 0xFFFD)
  }

  /** The code units `String.prototype.trim` removes: the WhiteSpace and
      LineTerminator productions of ECMAScript (section 12.2 and 12.3 of
      ECMA-262), i.e. TAB, VT, FF, ZWNBSP, every space separator, LF, CR,
      LS and PS. */
  predicate IsWhiteSpace(c: CodeUnit) {
    || c == 0x09 || c == 0x0A || c == 0x0B || c == 0x0C || c == 0x0D
    || c == 0x20 || c == 0xA0 || c == 0x1680
    || (0x2000 <= c <= 0x200A)
    || c == 0x2028 || c == 0x2029 || c == 0x202F || c == 0x205F
    || c == 0x3000 || c == 0xFEFF
  }

  predicate AllWhiteSpace(s: Text) {
    forall i :: 0 <= i < |s| ==> IsWhiteSpace(s[i])
  }

  /** The number of leading white-space code units of `s[i..]`, counted from `i`. */
  function FirstNonSpace(s: Text, i: nat): (n: nat)
    requires i <= |s|
    ensures i <= n <= |s|
    ensures forall k :: i <= k < n ==> IsWhiteSpace(s[k])
    ensures n < |s| ==> !IsWhiteSpace(s[n])
    decreases |s| - i
  {
    if i < |s| && IsWhiteSpace(s[i]) then FirstNonSpace(s, i + 1) else i
  }

  /** The end of `s[..j]` once its trailing white space is dropped. */
  function LastNonSpaceEnd(s: Text, lo: nat, j: nat): (n: nat)
    requires lo <= j <= |s|
    ensures lo <= n <= j
    ensures forall k :: n <= k < j ==> IsWhiteSpace(s[k])
    ensures n > lo ==> !IsWhiteSpace(s[n - 1])
    decreases j
  {
    if j > lo && IsWhiteSpace(s[j - 1]) then LastNonSpaceEnd(s, lo, j - 1) else j
  }

  /** `r` is `s` with the white space at `s[..a]` and after `r` dropped. */
  predicate TrimmedAt(s: Text, r: Text, a: int) {
    && OccursAt(s, r, a)
    && (forall k :: 0 <= k < a ==> IsWhiteSpace(s[k]))
    && (forall k :: a + |r| <= k < |s| ==> IsWhiteSpace(s[k]))
  }

  /** `s.trim()`: the text between the leading and the trailing white space. */
  function Trim(s: Text): (r: Text)
    ensures exists a :: TrimmedAt(s, r, a)
    ensures |r| > 0 ==> !IsWhiteSpace(r[0]) && !IsWhiteSpace(r[|r| - 1])
    ensures |r| == 0 <==> AllWhiteSpace(s)
  {
    var a := FirstNonSpace(s, 0);
    var b := LastNonSpaceEnd(s, a, |s|);
    var r := s[a..b];
    assert TrimmedAt(s, r, a);
    if a < b then
      assert r[0] == s[a];
      r
    else
      r
  }

  /** `!s.trim()`: the text is empty once trimmed. */
  predicate Blank(s: Text) {
    |Trim(s)| == 0
  }

  /** `t` occurs in `s` starting at code unit `j`. */
  predicate OccursAt(s: Text, t: Text, j: int) {
    0 <= j && j + |t| <= |s| && s[j..j + |t|] == t
  }

  /** `s.indexOf(t, from)`. */
  function IndexOfFrom(s: Text, t: Text, from: nat): (r: int)
    requires from <= |s|
    ensures r == -1 || (from <= r && OccursAt(s, t, r))
    ensures forall j :: from <= j && (r == -1 || j < r) ==> !OccursAt(s, t, j)
    decreases |s| - from
  {
    if from + |t| > |s| then -1
    else if s[from..from + |t|] == t then from
    else IndexOfFrom(s, t, from + 1)
  }

  /** `s.indexOf(t)`: the first position at which `t` occurs in `s`, or -1. */
  function IndexOf(s: Text, t: Text): (r: int)
    ensures r == -1 <==> forall j :: !OccursAt(s, t, j)
    ensures r != -1 ==> OccursAt(s, t, r) && forall j :: 0 <= j < r ==> !OccursAt(s, t, j)
  {
    IndexOfFrom(s, t, 0)
  }

  /** `s.includes(t)`. */
  predicate Includes(s: Text, t: Text) {
    IndexOf(s, t) != -1
  }

  lemma IncludesIff(s: Text, t: Text)
    ensures Includes(s, t) <==> exists j :: OccursAt(s, t, j)
  {
  }

  /** Trimming a trimmed text changes nothing. */
  lemma TrimIdempotent(s: Text)
    ensures Trim(Trim(s)) == Trim(s)
  {
    var t := Trim(s);
    var u := Trim(t);
    var a :| TrimmedAt(t, u, a);
    if |t| > 0 {
      assert a == 0 && |u| == |t|;
      assert t[0..|t|] == t;
    }
  }
}
