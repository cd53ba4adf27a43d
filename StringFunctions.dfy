/**
 * The per-row string functions that the direct-pass mapping operations apply:
 * case mapping, trimming, substrings, padding, common prefix and suffix, and
 * joining two values with a delimiter.
 */
module StringFunctions {
  import opened Wrappers

  function Max(x: int, y: int): int { if x < y then y else x }

  // ---------------------------------------------------------------------------
  // Case mapping (ASCII letters; other characters are left alone)
  // ---------------------------------------------------------------------------

  predicate IsLowerAscii(c: char) { 'a' <= c <= 'z' }
  predicate IsUpperAscii(c: char) { 'A' <= c <= 'Z' }

  function UpperChar(c: char): char
  {
    if IsLowerAscii(c) then (c as int - 32) as char else c
  }

  function LowerChar(c: char): char
  {
    if IsUpperAscii(c) then (c as int + 32) as char else c
  }

  /** String.toUpperCase restricted to ASCII: every character is mapped on its own. */
  function ToUpperCase(s: string): (r: string)
    ensures |r| == |s|
    ensures forall i :: 0 <= i < |s| ==> r[i] == UpperChar(s[i])
    ensures forall i :: 0 <= i < |r| ==> !IsLowerAscii(r[i])
  {
    if s == [] then [] else [UpperChar(s[0])] + ToUpperCase(s[1..])
  }

  /** String.toLowerCase restricted to ASCII. */
  function ToLowerCase(s: string): (r: string)
    ensures |r| == |s|
    ensures forall i :: 0 <= i < |s| ==> r[i] == LowerChar(s[i])
    ensures forall i :: 0 <= i < |r| ==> !IsUpperAscii(r[i])
  {
    if s == [] then [] else [LowerChar(s[0])] + ToLowerCase(s[1..])
  }

  /** Upper-casing twice is upper-casing once. */
  lemma UpperCaseIdempotent(s: string)
    ensures ToUpperCase(ToUpperCase(s)) == ToUpperCase(s)
  {
    var u := ToUpperCase(s);
    assert forall i :: 0 <= i < |u| ==> ToUpperCase(u)[i] == u[i];
  }

  /** Lower-casing forgets an earlier upper-casing: the two agree case-insensitively. */
  lemma LowerCaseAfterUpperCase(s: string)
    ensures ToLowerCase(ToUpperCase(s)) == ToLowerCase(s)
  {
    var u := ToUpperCase(s);
    assert forall i :: 0 <= i < |s| ==> ToLowerCase(u)[i] == ToLowerCase(s)[i];
  }

  // ---------------------------------------------------------------------------
  // String.trim: drop leading and trailing characters at or below U+0020
  // ---------------------------------------------------------------------------

  predicate IsTrimmed(c: char) { c <= ' ' }

  /** The index of the first character trim keeps, searching up from `i`. */
  function TrimStart(s: string, i: nat): (st: nat)
    requires i <= |s|
    ensures i <= st <= |s|
    ensures forall k :: i <= k < st ==> IsTrimmed(s[k])
    ensures st == |s| || !IsTrimmed(s[st])
    decreases |s| - i
  {
    if i < |s| && IsTrimmed(s[i]) then TrimStart(s, i + 1) else i
  }

  /** One past the last character trim keeps, searching down from `len` to `st`. */
  function TrimEnd(s: string, st: nat, len: nat): (en: nat)
    requires st <= len <= |s|
    ensures st <= en <= len
    ensures forall k :: en <= k < len ==> IsTrimmed(s[k])
    ensures en == st || !IsTrimmed(s[en - 1])
    decreases len
  {
    if st < len && IsTrimmed(s[len - 1]) then TrimEnd(s, st, len - 1) else len
  }

  /** The slice of `s` left once its whitespace border is removed. */
  function Trim(s: string): (r: string)
    ensures r == [] || (!IsTrimmed(r[0]) && !IsTrimmed(r[|r| - 1]))
    ensures var st := TrimStart(s, 0);
      st + |r| <= |s| && (forall k :: 0 <= k < |r| ==> r[k] == s[st + k])
      && (forall k :: 0 <= k < st ==> IsTrimmed(s[k]))
      && (forall k :: st + |r| <= k < |s| ==> IsTrimmed(s[k]))
  {
    var st := TrimStart(s, 0);
    s[st..TrimEnd(s, st, |s|)]
  }

  /** Trimming a trimmed string changes nothing. */
  lemma TrimIdempotent(s: string)
    ensures Trim(Trim(s)) == Trim(s)
  {
    var r := Trim(s);
    assert TrimStart(r, 0) == 0;
    assert TrimEnd(r, 0, |r|) == |r|;
    assert r[0..|r|] == r;
  }

  // ---------------------------------------------------------------------------
  // String.substring
  // ---------------------------------------------------------------------------

  /** substring(start, end): characters [start, end), or an exception instead of clamping. */
  function Substring(s: string, start: int, end: int): (r: Result<string, Error>)
    ensures r.Success? <==> 0 <= start <= end <= |s|
    ensures r.Failure? ==> r.error == StringIndexOutOfBounds
    ensures r.Success? ==> |r.value| == end - start
                           && forall i :: 0 <= i < |r.value| ==> r.value[i] == s[start + i]
  {
    if 0 <= start <= end <= |s| then Success(s[start..end]) else Failure(StringIndexOutOfBounds)
  }

  /** substring(start): the suffix from `start`, or an exception. */
  function SubstringFrom(s: string, start: int): (r: Result<string, Error>)
    ensures r.Success? <==> 0 <= start <= |s|
    ensures r.Failure? ==> r.error == StringIndexOutOfBounds
    ensures r.Success? ==> r.value == s[start..] && |r.value| == |s| - start
  {
    if 0 <= start <= |s| then Success(s[start..]) else Failure(StringIndexOutOfBounds)
  }

  /** The one-argument form is the two-argument form with `end` at the length. */
  lemma SubstringFromIsSubstringToEnd(s: string, start: int)
    ensures SubstringFrom(s, start) == Substring(s, start, |s|)
  {
    if 0 <= start <= |s| {
      assert s[start..] == s[start..|s|];
    }
  }

  /** Cutting at any valid index and concatenating the two pieces gives the string back. */
  lemma SubstringSplitJoin(s: string, k: int)
    requires 0 <= k <= |s|
    ensures Substring(s, 0, k).Success? && SubstringFrom(s, k).Success?
    ensures Substring(s, 0, k).value + SubstringFrom(s, k).value == s
  {
    assert s[..k] + s[k..] == s;
  }

  // ---------------------------------------------------------------------------
  // Padding (Guava Strings.padEnd / Strings.padStart)
  // ---------------------------------------------------------------------------

  function Repeat(c: char, n: nat): (r: string)
    ensures |r| == n && forall i :: 0 <= i < n ==> r[i] == c
  {
    if n == 0 then [] else Repeat(c, n - 1) + [c]
  }

  /** Appends `padChar` until the string is `minLength` long. */
  function PadEnd(s: string, minLength: int, padChar: char): (r: string)
    ensures |r| == Max(|s|, minLength)
    ensures forall i :: 0 <= i < |s| ==> r[i] == s[i]
    ensures forall i :: |s| <= i < |r| ==> r[i] == padChar
    ensures |s| >= minLength ==> r == s
  {
    if |s| >= minLength then s else s + Repeat(padChar, minLength - |s|)
  }

  /** Prepends `padChar` until the string is `minLength` long. */
  function PadStart(s: string, minLength: int, padChar: char): (r: string)
    ensures |r| == Max(|s|, minLength)
    ensures forall i :: 0 <= i < |s| ==> r[|r| - |s| + i] == s[i]
    ensures forall i :: 0 <= i < |r| - |s| ==> r[i] == padChar
    ensures |s| >= minLength ==> r == s
  {
    if |s| >= minLength then s else Repeat(padChar, minLength - |s|) + s
  }

  /** Padding a padded string again changes nothing. */
  lemma PadIdempotent(s: string, minLength: int, padChar: char)
    ensures PadEnd(PadEnd(s, minLength, padChar), minLength, padChar) == PadEnd(s, minLength, padChar)
    ensures PadStart(PadStart(s, minLength, padChar), minLength, padChar) == PadStart(s, minLength, padChar)
  {
  }

  // ---------------------------------------------------------------------------
  // Common prefix and suffix (Guava Strings.commonPrefix / commonSuffix)
  // ---------------------------------------------------------------------------

  predicate IsPrefix(p: string, s: string) { |p| <= |s| && p == s[..|p|] }
  predicate IsSuffix(p: string, s: string) { |p| <= |s| && p == s[|s| - |p|..] }

  /** The count of equal leading characters, counting on from `p` as the library's loop does. */
  function PrefixLength(a: string, b: string, p: nat): (n: nat)
    requires p <= |a| && p <= |b|
    ensures p <= n <= |a| && n <= |b|
    ensures forall i :: p <= i < n ==> a[i] == b[i]
    ensures n < |a| && n < |b| ==> a[n] != b[n]
    decreases |a| - p
  {
    if p < |a| && p < |b| && a[p] == b[p] then PrefixLength(a, b, p + 1) else p
  }

  /** The character `i` places before the end of `s`. */
  function FromEnd(s: string, i: nat): char
    requires i < |s|
  {
    s[|s| - 1 - i]
  }

  /** The count of equal trailing characters, counting on from `p`. */
  function SuffixLength(a: string, b: string, p: nat): (n: nat)
    requires p <= |a| && p <= |b|
    ensures p <= n <= |a| && n <= |b|
    ensures forall i :: p <= i < n ==> FromEnd(a, i) == FromEnd(b, i)
    ensures n < |a| && n < |b| ==> FromEnd(a, n) != FromEnd(b, n)
    decreases |a| - p
  {
    if p < |a| && p < |b| && FromEnd(a, p) == FromEnd(b, p) then SuffixLength(a, b, p + 1) else p
  }

  /** A common prefix of `a` and `b` that cannot be extended by one more character. */
  function CommonPrefix(a: string, b: string): (r: string)
    ensures IsPrefix(r, a) && IsPrefix(r, b)
    ensures |r| < |a| && |r| < |b| ==> a[|r|] != b[|r|]
  {
    var n := PrefixLength(a, b, 0);
    assert a[..n] == b[..n];
    a[..n]
  }

  /** A common suffix of `a` and `b` that cannot be extended by one more character. */
  function CommonSuffix(a: string, b: string): (r: string)
    ensures |r| <= |a| && |r| <= |b|
    ensures forall i :: 0 <= i < |r| ==> FromEnd(r, i) == FromEnd(a, i) == FromEnd(b, i)
    ensures |r| < |a| && |r| < |b| ==> FromEnd(a, |r|) != FromEnd(b, |r|)
  {
    var n := SuffixLength(a, b, 0);
    a[|a| - n..]
  }

  /** Every common prefix is a prefix of CommonPrefix: no longer common prefix exists. */
  lemma CommonPrefixIsLongest(a: string, b: string, p: string)
    requires IsPrefix(p, a) && IsPrefix(p, b)
    ensures IsPrefix(p, CommonPrefix(a, b))
  {
  }

  /** Every common suffix is a suffix of CommonSuffix: no longer common suffix exists. */
  lemma CommonSuffixIsLongest(a: string, b: string, p: string)
    requires IsSuffix(p, a) && IsSuffix(p, b)
    ensures IsSuffix(p, CommonSuffix(a, b))
  {
  }

  // ---------------------------------------------------------------------------
  // Joining two values (commons-lang StringUtils.join over a two-element array)
  // ---------------------------------------------------------------------------

  /** A missing element joins as the empty string. */
  function OrEmpty(v: Option<string>): string
  {
    if v.Some? then v.value else ""
  }

  function Join(v1: Option<string>, v2: Option<string>, delimiter: string): (r: string)
    ensures |r| == |OrEmpty(v1)| + |delimiter| + |OrEmpty(v2)|
  {
    OrEmpty(v1) + delimiter + OrEmpty(v2)
  }

  /** The delimiter sits between the two values: each part is recovered by position. */
  lemma JoinRecoversParts(v1: Option<string>, v2: Option<string>, delimiter: string)
    ensures var r, a, b := Join(v1, v2, delimiter), OrEmpty(v1), OrEmpty(v2);
      |r| == |a| + |delimiter| + |b|
      && r[..|a|] == a
      && r[|a|..|a| + |delimiter|] == delimiter
      && r[|a| + |delimiter|..] == b
  {
  }
}
