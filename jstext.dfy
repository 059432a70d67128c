/** The JavaScript string primitives the study app relies on
    (`toLowerCase`, `trim`, `includes` and the regular-expression class `\s`),
    stated over Dafny's `string`, a sequence of Unicode scalar values. */
module JsText {

  /** Membership in JavaScript's `\s` class. This is the union of ECMA-262's
      WhiteSpace and LineTerminator productions, which is also exactly the set of
      characters that `String.prototype.trim` removes from both ends. */
  predicate IsSpace(c: char) {
    || c == '\t' || c == '\n' || c == '\U{000B}' || c == '\U{000C}' || c == '\r'
    || c == ' ' || c == '\U{00A0}' || c == '\U{1680}'
    || ('\U{2000}' <= c <= '\U{200A}')
    || c == '\U{2028}' || c == '\U{2029}' || c == '\U{202F}' || c == '\U{205F}'
    || c == '\U{3000}' || c == '\U{FEFF}'
  }

  /** Every character of `s` is whitespace (true of the empty string). */
  predicate IsBlank(s: string) {
    forall i :: 0 <= i < |s| ==> IsSpace(s[i])
  }

  predicate IsUpperAscii(c: char) {
    'A' <= c <= 'Z'
  }

  /** `x` and `y` are the same character, or the same ASCII letter in the two
      cases: the lower-case letter's code is the capital's plus 32. */
  predicate SameCharUpToCase(x: char, y: char) {
    || x == y
    || (IsUpperAscii(x) && y as int == x as int + 32)
    || (IsUpperAscii(y) && x as int == y as int + 32)
  }

  /** `toLowerCase` on one character, restricted to the ASCII letters. */
  function LowerChar(c: char): (r: char)
    ensures !IsUpperAscii(r) && SameCharUpToCase(c, r)
    ensures !IsUpperAscii(c) ==> r == c
  {
    if IsUpperAscii(c) then (c as int + 32) as char else c
  }

  /** `String.prototype.toLowerCase`, character by character: the result has
      no capital ASCII letter and differs from `s` only in letter case. */
  function ToLower(s: string): (r: string)
    ensures |r| == |s|
    ensures forall i :: 0 <= i < |r| ==> !IsUpperAscii(r[i]) && SameCharUpToCase(s[i], r[i])
  {
    seq(|s|, i requires 0 <= i < |s| => LowerChar(s[i]))
  }

  /** Two strings that differ at most in the case of their letters. */
  predicate SameUpToCase(a: string, b: string) {
    |a| == |b| && forall i :: 0 <= i < |a| ==> SameCharUpToCase(a[i], b[i])
  }

  /** Two characters lower-case to the same character exactly when they differ
      at most in letter case. */
  lemma SameCharIffSameLower(x: char, y: char)
    ensures SameCharUpToCase(x, y) <==> LowerChar(x) == LowerChar(y)
  {
  }

  /** Lower-casing forgets exactly the letter case, in both directions. */
  lemma SameUpToCaseIffSameLower(a: string, b: string)
    ensures SameUpToCase(a, b) <==> ToLower(a) == ToLower(b)
  {
    if SameUpToCase(a, b) {
      forall i | 0 <= i < |a| ensures ToLower(a)[i] == ToLower(b)[i] {
        SameCharIffSameLower(a[i], b[i]);
      }
    }
    if ToLower(a) == ToLower(b) {
      forall i | 0 <= i < |a| ensures SameCharUpToCase(a[i], b[i]) {
        assert ToLower(a)[i] == ToLower(b)[i];
        SameCharIffSameLower(a[i], b[i]);
      }
    }
  }

  /** Lower-casing distributes over concatenation. */
  lemma ToLowerConcat(a: string, b: string)
    ensures ToLower(a + b) == ToLower(a) + ToLower(b)
  {
  }

  /** `trimStart`: drops the leading whitespace. */
  function TrimStart(s: string): (r: string)
    ensures |r| <= |s| && r == s[|s| - |r|..]
    ensures r == [] || !IsSpace(r[0])
    ensures IsBlank(s[..|s| - |r|])
  {
    if s != [] && IsSpace(s[0]) then TrimStart(s[1..]) else s
  }

  /** `trimEnd`: drops the trailing whitespace. */
  function TrimEnd(s: string): (r: string)
    ensures |r| <= |s| && r == s[..|r|]
    ensures r == [] || !IsSpace(r[|r| - 1])
    ensures IsBlank(s[|r|..])
  {
    if s != [] && IsSpace(s[|s| - 1]) then TrimEnd(s[..|s| - 1]) else s
  }

  /** `r` stands in `s` at index `i`, with only whitespace before and after it. */
  ghost predicate TrimmedAt(s: string, r: string, i: int) {
    0 <= i && i + |r| <= |s| && s[i..i + |r|] == r && IsBlank(s[..i]) && IsBlank(s[i + |r|..])
  }

  /** `String.prototype.trim`: the part of `s` between its leading and its
      trailing whitespace, which begins and ends with a non-whitespace
      character unless it is empty. */
  function Trim(s: string): (r: string)
    ensures r == [] || (!IsSpace(r[0]) && !IsSpace(r[|r| - 1]))
    ensures exists i :: TrimmedAt(s, r, i)
  {
    var t := TrimStart(s);
    var r := TrimEnd(t);
    TrimmedBetween(s, t, r);
    r
  }

  /** Cutting a blank prefix and then a blank suffix leaves a part that stands
      between blank runs. */
  lemma TrimmedBetween(s: string, t: string, r: string)
    requires |t| <= |s| && t == s[|s| - |t|..] && IsBlank(s[..|s| - |t|])
    requires |r| <= |t| && r == t[..|r|] && IsBlank(t[|r|..])
    ensures TrimmedAt(s, r, |s| - |t|)
  {
    assert s[|s| - |t|..][|r|..] == s[|s| - |t| + |r|..];
  }

  /** `s.trim()` is the empty string, that is falsy, exactly when `s` is blank. */
  lemma TrimEmptyIffBlank(s: string)
    ensures Trim(s) == [] <==> IsBlank(s)
  {
    var t := TrimStart(s);
    if Trim(s) == [] {
      assert IsBlank(t[0..]);
      forall i | 0 <= i < |s| ensures IsSpace(s[i]) {
        assert s[i] == s[..|s| - |t|][i];
      }
    }
  }

  /** `needle` stands in `hay` starting at index `i`. */
  ghost predicate OccursAt(hay: string, needle: string, i: int) {
    0 <= i && i + |needle| <= |hay| && hay[i..i + |needle|] == needle
  }

  /** When `needle` is not a prefix of `hay`, it stands in `hay` exactly when
      it stands in `hay` without its first character. */
  lemma OccursInTail(hay: string, needle: string)
    requires hay != [] && !(needle <= hay)
    ensures (exists i :: OccursAt(hay, needle, i)) <==> (exists i :: OccursAt(hay[1..], needle, i))
  {
    if exists i :: OccursAt(hay[1..], needle, i) {
      var i :| OccursAt(hay[1..], needle, i);
      assert hay[i + 1..i + 1 + |needle|] == hay[1..][i..i + |needle|];
      assert OccursAt(hay, needle, i + 1);
    }
    if exists i :: OccursAt(hay, needle, i) {
      var i :| OccursAt(hay, needle, i);
      if i > 0 {
        assert hay[1..][i - 1..i - 1 + |needle|] == hay[i..i + |needle|];
        assert OccursAt(hay[1..], needle, i - 1);
      }
    }
  }

  /** `String.prototype.includes`: `needle` stands at some position of `hay`. */
  function Includes(hay: string, needle: string): (r: bool)
    ensures r <==> exists i :: OccursAt(hay, needle, i)
  {
    if needle <= hay then
      assert OccursAt(hay, needle, 0);
      true
    else if hay == [] then
      false
    else
      OccursInTail(hay, needle);
      Includes(hay[1..], needle)
  }

  /** A substring of `hay` is a substring of any text that contains `hay`. */
  lemma IncludesWithin(hay: string, needle: string, before: string, after: string)
    requires Includes(hay, needle)
    ensures Includes(before + hay + after, needle)
  {
    var i :| OccursAt(hay, needle, i);
    var big := before + hay + after;
    assert big[|before| + i..|before| + i + |needle|] == hay[i..i + |needle|];
    assert OccursAt(big, needle, |before| + i);
  }

  /** Only the empty string is included in the empty string. */
  lemma IncludedInEmpty(needle: string)
    ensures Includes([], needle) <==> needle == []
  {
  }
}
