/**
 * Character and string primitives that the scripts take from JavaScript:
 * the `\s` class and `String.prototype.trim`, `toLowerCase` and `includes`.
 */
module Strings {

  /** The characters JavaScript's `\s` matches and `trim` removes (WhiteSpace and LineTerminator). */
  predicate IsSpace(c: char) {
    || c == ' ' || c == '\t' || c == '\n' || c == '\r' || c == '\U{000B}' || c == '\U{000C}'
    || c == '\U{00A0}' || c == '\U{1680}' || ('\U{2000}' <= c <= '\U{200A}')
    || c == '\U{2028}' || c == '\U{2029}' || c == '\U{202F}' || c == '\U{205F}'
    || c == '\U{3000}' || c == '\U{FEFF}'
  }

  predicate AllSpace(s: string) {
    forall i :: 0 <= i < |s| ==> IsSpace(s[i])
  }

  predicate NoSpace(s: string) {
    forall i :: 0 <= i < |s| ==> !IsSpace(s[i])
  }

  /** `trim` without its right half: drops leading whitespace. */
  function TrimStart(s: string): (r: string)
    ensures |r| <= |s|
    ensures r == [] || !IsSpace(r[0])
  {
    if s != [] && IsSpace(s[0]) then TrimStart(s[1..]) else s
  }

  /** `trim` without its left half: drops trailing whitespace. */
  function TrimEnd(s: string): (r: string)
    ensures |r| <= |s|
    ensures r == [] || !IsSpace(r[|r| - 1])
  {
    if s != [] && IsSpace(s[|s| - 1]) then TrimEnd(s[..|s| - 1]) else s
  }

  /** What `TrimStart` removes is a whitespace prefix: the result is the rest of `s`. */
  lemma {:induction false} TrimStartIsSuffix(s: string)
    ensures TrimStart(s) == s[|s| - |TrimStart(s)|..]
    ensures AllSpace(s[..|s| - |TrimStart(s)|])
  {
    if s != [] && IsSpace(s[0]) {
      var p := s[1..];
      TrimStartIsSuffix(p);
      var n := |s| - |TrimStart(p)|;
      assert p[n - 1..] == s[n..];
      forall i | 0 <= i < n ensures IsSpace(s[..n][i]) {
        if 0 < i {
          assert s[..n][i] == p[..n - 1][i - 1];
        }
      }
    } else {
      assert s[0..] == s;
    }
  }

  /** What `TrimEnd` removes is a whitespace suffix: the result is the start of `s`. */
  lemma {:induction false} TrimEndIsPrefix(s: string)
    ensures TrimEnd(s) == s[..|TrimEnd(s)|]
    ensures AllSpace(s[|TrimEnd(s)|..])
  {
    if s != [] && IsSpace(s[|s| - 1]) {
      var p := s[..|s| - 1];
      TrimEndIsPrefix(p);
      var n := |TrimEnd(p)|;
      assert p[..n] == s[..n];
      forall i | 0 <= i < |s| - n ensures IsSpace(s[n..][i]) {
        if i < |s| - 1 - n {
          assert s[n..][i] == p[n..][i];
        } else {
          assert s[n..][i] == s[|s| - 1];
        }
      }
    } else {
      assert s[..|s|] == s;
    }
  }

  /** `String.prototype.trim`: leading and trailing whitespace removed. */
  function Trim(s: string): (r: string)
    ensures |r| <= |s|
    ensures r == [] || (!IsSpace(r[0]) && !IsSpace(r[|r| - 1]))
  {
    var t := TrimStart(s);
    var r := TrimEnd(t);
    assert r != [] ==> r[0] == t[0] by {
      if r != [] {
        TrimEndIsPrefix(t);
      }
    }
    r
  }

  /** The trimmed string is the slice of `s` left once its whitespace margins are cut off. */
  lemma TrimIsSlice(s: string)
    ensures exists i :: (0 <= i <= |s| - |Trim(s)| && s[i..i + |Trim(s)|] == Trim(s)
                         && AllSpace(s[..i]) && AllSpace(s[i + |Trim(s)|..]))
  {
    var t := TrimStart(s);
    var r := TrimEnd(t);
    TrimStartIsSuffix(s);
    TrimEndIsPrefix(t);
    var i := |s| - |t|;
    assert s[i..i + |r|] == r;
    assert s[i + |r|..] == t[|r|..];
  }

  /** `trim` leaves nothing exactly when the string is all whitespace. */
  lemma TrimEmpty(s: string)
    ensures Trim(s) == [] <==> AllSpace(s)
  {
    var t := TrimStart(s);
    TrimStartIsSuffix(s);
    TrimEndIsPrefix(t);
    assert t[0..] == t && s[..|s|] == s;
    assert t != [] ==> t[0] == s[|s| - |t|];
  }

  /**
   * `toLowerCase` of one character wherever its lower case is ASCII: the
   * capitals A-Z, and U+212A KELVIN SIGN, which lower-cases to 'k'. Every
   * other character is left as it is.
   */
  function LowerChar(c: char): char {
    if 'A' <= c <= 'Z' then (c as int + 32) as char
    else if c == '\U{212A}' then 'k'
    else c
  }

  /** U+0130 LATIN CAPITAL LETTER I WITH DOT ABOVE, the one character whose lower case is two characters. */
  const DottedCapitalI: char := '\U{130}'

  /** U+0130 spelled as its decomposition, 'I' followed by U+0307 COMBINING DOT ABOVE. */
  function Decomposed(s: string): (r: string)
    ensures |s| <= |r| <= 2 * |s|
    ensures DottedCapitalI !in s ==> r == s
  {
    if s == [] then [] else (if s[0] == DottedCapitalI then "I\U{307}" else [s[0]]) + Decomposed(s[1..])
  }

  /**
   * `toLowerCase`: `LowerChar` on every character, U+0130 first becoming
   * 'I' and U+0307, so that it lower-cases to 'i' followed by U+0307.
   */
  function Lower(s: string): (r: string)
    ensures |s| <= |r| <= 2 * |s|
  {
    var d := if DottedCapitalI in s then Decomposed(s) else s;
    seq(|d|, i requires 0 <= i < |d| => LowerChar(d[i]))
  }

  predicate OccursAt(s: string, p: string, i: int) {
    0 <= i <= |s| - |p| && s[i..i + |p|] == p
  }

  /** `s.includes(p)`. */
  predicate Contains(s: string, p: string) {
    exists i :: 0 <= i <= |s| && OccursAt(s, p, i)
  }

  lemma ContainsSelf(s: string)
    ensures Contains(s, s)
  {
    assert OccursAt(s, s, 0);
  }

  /** A substring has no character the enclosing string lacks. */
  lemma ContainsKeepsChars(s: string, p: string, c: char)
    requires Contains(s, p) && c in p
    ensures c in s
  {
    var i :| 0 <= i <= |s| && OccursAt(s, p, i);
    var k :| 0 <= k < |p| && p[k] == c;
    assert s[i + k] == s[i..i + |p|][k];
  }

  /** A substring is never longer than the string it occurs in, and one of equal length is the string itself. */
  lemma ContainsLength(s: string, p: string)
    requires Contains(s, p)
    ensures |p| <= |s|
    ensures |p| == |s| ==> p == s
  {
    var i :| 0 <= i <= |s| && OccursAt(s, p, i);
    assert |p| == |s| ==> i == 0 && s[0..|s|] == s;
  }

  /** JavaScript's `length`: UTF-16 code units, two for a character outside the Basic Multilingual Plane. */
  function Utf16Length(s: string): (n: nat)
    ensures |s| <= n <= 2 * |s|
  {
    if s == [] then 0 else (if s[0] as int > 0xFFFF then 2 else 1) + Utf16Length(s[1..])
  }

  /**
   * The UTF-16 code units of `s`, which `charAt` indexes: a character above
   * U+FFFF becomes a high surrogate followed by a low surrogate.
   */
  function Utf16(s: string): (u: seq<int>)
    ensures |u| == Utf16Length(s)
  {
    if s == [] then []
    else
      var c := s[0] as int;
      (if c > 0xFFFF then [0xD800 + (c - 0x10000) / 0x400, 0xDC00 + (c - 0x10000) % 0x400] else [c]) + Utf16(s[1..])
  }

  /** Within the Basic Multilingual Plane the code units are the characters themselves. */
  lemma {:induction false} Utf16Bmp(s: string)
    requires forall i :: 0 <= i < |s| ==> s[i] as int <= 0xFFFF
    ensures |Utf16(s)| == |s|
    ensures forall i :: 0 <= i < |s| ==> Utf16(s)[i] == s[i] as int
  {
    if s != [] {
      Utf16Bmp(s[1..]);
      assert Utf16(s) == [s[0] as int] + Utf16(s[1..]);
    }
  }

  /** A character above U+FFFF takes two code units: a high surrogate, then a low one. */
  lemma Utf16Astral(c: char)
    requires c as int > 0xFFFF
    ensures |Utf16([c])| == 2
    ensures 0xD800 <= Utf16([c])[0] < 0xDC00 && 0xDC00 <= Utf16([c])[1] < 0xE000
  {
    assert [c][1..] == [];
  }

  /** Without U+0130, lower-casing goes character by character and keeps the length. */
  lemma LowerPointwise(s: string)
    requires DottedCapitalI !in s
    ensures |Lower(s)| == |s|
    ensures forall i :: 0 <= i < |s| ==> Lower(s)[i] == LowerChar(s[i])
  {
  }

  /** Lower-casing twice is lower-casing once. */
  lemma LowerIdempotent(s: string)
    ensures Lower(Lower(s)) == Lower(s)
  {
    var d := if DottedCapitalI in s then Decomposed(s) else s;
    DecomposedHasNoDottedI(s);
    var r := Lower(s);
    assert forall i :: 0 <= i < |r| ==> r[i] == LowerChar(d[i]) && d[i] != DottedCapitalI;
    assert DottedCapitalI !in r;
    LowerPointwise(r);
  }

  /** The decomposition leaves no U+0130 behind. */
  lemma {:induction false} DecomposedHasNoDottedI(s: string)
    ensures DottedCapitalI !in Decomposed(s)
  {
    if s != [] {
      DecomposedHasNoDottedI(s[1..]);
    }
  }

  /** Trimming a trimmed string changes nothing. */
  lemma TrimIdempotent(s: string)
    ensures Trim(Trim(s)) == Trim(s)
  {
    var t := Trim(s);
    assert TrimStart(t) == t;
    assert TrimEnd(t) == t;
  }
}
