/** The two JavaScript string built-ins the setup screen relies on:
    `String.prototype.length` (counted in UTF-16 code units) and
    `String.prototype.trim` (strips ECMAScript white space and line terminators). */
module JsString {

  /** A character outside the Basic Multilingual Plane. */
  predicate IsAstral(c: char)
  {
    c as int > 0xFFFF
  }

  /** The positions of `s` that hold characters outside the Basic Multilingual Plane. */
  function AstralPositions(s: string): set<nat>
  {
    set i: nat | i < |s| && IsAstral(s[i])
  }

  /** Number of UTF-16 code units JavaScript reports as `s.length`: a character
      outside the Basic Multilingual Plane is a surrogate pair and counts twice. */
  function Utf16Length(s: string): (n: nat)
    ensures n == |s| + |AstralPositions(s)|
    ensures |s| <= n <= 2 * |s|
  {
    if s == [] then 0
    else
      var init := s[..|s| - 1];
      assert AstralPositions(s) == AstralPositions(init) + (if IsAstral(s[|s| - 1]) then {|s| - 1} else {}) by {
        forall i: nat | i < |init| ensures init[i] == s[i] { }
      }
      Utf16Length(init) + (if IsAstral(s[|s| - 1]) then 2 else 1)
  }

  /** ECMAScript WhiteSpace (TAB, VT, FF, ZWNBSP and the Zs category) and
      LineTerminator code points, the characters `trim` removes. */
  predicate IsJsWhitespace(c: char)
  {
    var u := c as int;
    || u == 0x09 || u == 0x0B || u == 0x0C || u == 0x20 || u == 0xA0 || u == 0xFEFF
    || u == 0x1680 || (0x2000 <= u <= 0x200A) || u == 0x202F || u == 0x205F || u == 0x3000
    || u == 0x0A || u == 0x0D || u == 0x2028 || u == 0x2029
  }

  /** The index of the first character at or after `from` that is not white space. */
  function SkipWhitespace(s: string, from: nat): (k: nat)
    requires from <= |s|
    ensures from <= k <= |s|
    ensures forall i :: from <= i < k ==> IsJsWhitespace(s[i])
    ensures k < |s| ==> !IsJsWhitespace(s[k])
    decreases |s| - from
  {
    if from == |s| || !IsJsWhitespace(s[from]) then from else SkipWhitespace(s, from + 1)
  }

  /** The end of the last character before `hi`, and not before `lo`, that is
      not white space. */
  function SkipWhitespaceBack(s: string, lo: nat, hi: nat): (k: nat)
    requires lo <= hi <= |s|
    ensures lo <= k <= hi
    ensures forall i :: k <= i < hi ==> IsJsWhitespace(s[i])
    ensures lo < k ==> !IsJsWhitespace(s[k - 1])
    decreases hi
  {
    if hi == lo || !IsJsWhitespace(s[hi - 1]) then hi else SkipWhitespaceBack(s, lo, hi - 1)
  }

  /** `s.trim()`: the slice of `s` left after cutting white space from both
      ends. It neither starts nor ends with white space, every character cut
      off is white space, and it is empty exactly when `s` is all white space. */
  function Trim(s: string): (t: string)
    ensures var a := SkipWhitespace(s, 0); a + |t| <= |s| && t == s[a..a + |t|]
    ensures var a := SkipWhitespace(s, 0);
      forall i :: 0 <= i < |s| && !(a <= i < a + |t|) ==> IsJsWhitespace(s[i])
    ensures t != [] ==> !IsJsWhitespace(t[0]) && !IsJsWhitespace(t[|t| - 1])
    ensures t == [] <==> forall i :: 0 <= i < |s| ==> IsJsWhitespace(s[i])
  {
    var a := SkipWhitespace(s, 0);
    var b := SkipWhitespaceBack(s, a, |s|);
    var t := s[a..b];
    assert forall i :: 0 <= i < |s| && !(a <= i < b) ==> IsJsWhitespace(s[i]);
    if a < b then
      assert t[0] == s[a] && t[|t| - 1] == s[b - 1];
      t
    else
      t
  }
}
