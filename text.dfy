/** Character and string primitives that the Python and Cypher code relies on:
    `str.isspace`, ASCII tests, lower-casing, substring containment (`in`,
    `CONTAINS`), slicing `s[:n]`, decimal rendering of integers and the
    lexicographic string order used by Cypher comparisons. */
module Text {

  /** Python's `str.isspace()`: the characters `str.strip()` and `str.split()`
      treat as whitespace. */
  predicate IsSpace(c: char) {
    ('\t' <= c <= '\r') || ('\U{1c}' <= c <= ' ') || c == '\U{85}' || c == '\U{a0}'
    || c == '\U{1680}' || ('\U{2000}' <= c <= '\U{200a}') || c == '\U{2028}' || c == '\U{2029}'
    || c == '\U{202f}' || c == '\U{205f}' || c == '\U{3000}'
  }

  predicate IsAsciiChar(c: char) {
    c < 128 as char
  }

  predicate IsAscii(s: string) {
    forall i :: 0 <= i < |s| ==> IsAsciiChar(s[i])
  }

  lemma AsciiSlice(s: string, i: nat, j: nat)
    requires IsAscii(s) && i <= j <= |s|
    ensures IsAscii(s[i..j])
  {
    forall k | 0 <= k < j - i
      ensures IsAsciiChar(s[i..j][k])
    {
      assert s[i..j][k] == s[i + k];
    }
  }

  /** `[A-Z]` in a Python regular expression: ASCII upper-case letters only. */
  predicate IsUpperAscii(c: char) {
    'A' <= c <= 'Z'
  }

  /** Lower-casing; only ASCII letters are mapped. For Python's `str.lower`
      in a containment test of an ASCII keyword ("copa", "brasil",
      "libertadores") this loses nothing: the only other characters whose
      lower case holds an ASCII letter are U+0130, which becomes "i"
      followed by U+0307, and U+212A, which becomes "k". No keyword has a
      "k", and in each keyword an "i" is followed by an ASCII letter, never
      by U+0307. */
  function LowerChar(c: char): (r: char)
    ensures IsUpperAscii(c) ==> r as int == c as int + 32
    ensures !IsUpperAscii(c) ==> r == c
  {
    if IsUpperAscii(c) then (c as int + 32) as char else c
  }

  function Lower(s: string): (r: string)
    ensures |r| == |s|
    ensures forall i :: 0 <= i < |s| ==> r[i] == LowerChar(s[i])
  {
    if s == [] then [] else [LowerChar(s[0])] + Lower(s[1..])
  }

  predicate IsPrefix(p: string, s: string) {
    |p| <= |s| && s[..|p|] == p
  }

  /** `sub in s` in Python, `s CONTAINS sub` in Cypher. */
  predicate Contains(s: string, sub: string)
    decreases |s|
  {
    IsPrefix(sub, s) || (s != [] && Contains(s[1..], sub))
  }

  /** `sub` occurs in `s` starting at index `i`. */
  predicate OccursAt(s: string, sub: string, i: int) {
    0 <= i <= |s| - |sub| && s[i..i + |sub|] == sub
  }

  /** An occurrence at the start is a prefix. */
  lemma OccursFirst(s: string, sub: string)
    ensures OccursAt(s, sub, 0) <==> IsPrefix(sub, s)
  {
  }

  /** Dropping the first character shifts every occurrence by one. */
  lemma OccursShift(s: string, sub: string, i: nat)
    requires s != []
    ensures OccursAt(s[1..], sub, i) <==> OccursAt(s, sub, i + 1)
  {
    if 0 <= i <= |s| - 1 - |sub| {
      assert s[1..][i..i + |sub|] == s[i + 1..i + 1 + |sub|];
    }
  }

  /** `Contains` holds exactly when `sub` occurs at some position of `s`. */
  lemma {:induction false} ContainsAt(s: string, sub: string)
    ensures Contains(s, sub) <==> exists i :: OccursAt(s, sub, i)
    decreases |s|
  {
    OccursFirst(s, sub);
    if s == [] {
      forall i | OccursAt(s, sub, i)
        ensures i == 0
      {
      }
    } else {
      ContainsAt(s[1..], sub);
      forall i | OccursAt(s, sub, i) && i != 0
        ensures Contains(s[1..], sub)
      {
        OccursShift(s, sub, i - 1);
      }
      if Contains(s[1..], sub) {
        var i :| OccursAt(s[1..], sub, i);
        OccursShift(s, sub, i);
      }
    }
  }

  /** Python's `s[:n]` for `n >= 0`. */
  function Take(s: string, n: nat): (r: string)
    ensures |r| == if n < |s| then n else |s|
    ensures IsPrefix(r, s)
  {
    if n < |s| then s[..n] else s
  }

  function DigitChar(d: nat): char
    requires d < 10
  {
    ('0' as int + d) as char
  }

  predicate IsDigits(s: string) {
    forall i :: 0 <= i < |s| ==> '0' <= s[i] <= '9'
  }

  /** Decimal digits of a natural number, as `str(n)` renders them. */
  function NatToString(n: nat): (r: string)
    ensures |r| > 0 && IsDigits(r)
  {
    if n < 10 then [DigitChar(n)] else NatToString(n / 10) + [DigitChar(n % 10)]
  }

  /** `str(n)` / an f-string field for a Python int. */
  function IntToString(n: int): (r: string)
    ensures |r| > 0
  {
    if n < 0 then "-" + NatToString(-n) else NatToString(n)
  }

  /** `NatToString(n)` left-padded with zeros to `width` characters. */
  function PadNat(n: nat, width: nat): (r: string)
    ensures |r| >= width
  {
    var s := NatToString(n);
    if |s| >= width then s else Zeros(width - |s|) + s
  }

  function Zeros(k: nat): (r: string)
    ensures |r| == k
  {
    if k == 0 then "" else "0" + Zeros(k - 1)
  }

  /** Lexicographic order on strings by code point: `a <= b` in Cypher. */
  predicate StrLe(a: string, b: string)
    decreases |a|
  {
    a == [] || (b != [] && (a[0] < b[0] || (a[0] == b[0] && StrLe(a[1..], b[1..]))))
  }

  /** Any two strings are ordered one way or the other. */
  lemma {:induction false} StrLeTotal(a: string, b: string)
    ensures StrLe(a, b) || StrLe(b, a)
    decreases |a|
  {
    if a != [] && b != [] && a[0] == b[0] {
      StrLeTotal(a[1..], b[1..]);
    }
  }

  lemma {:induction false} StrLeTrans(a: string, b: string, c: string)
    requires StrLe(a, b) && StrLe(b, c)
    ensures StrLe(a, c)
    decreases |a|
  {
    if a != [] && b != [] && c != [] && a[0] == b[0] && b[0] == c[0] {
      StrLeTrans(a[1..], b[1..], c[1..]);
    }
  }

  /** A proper extension of `b` is strictly greater than `b`. */
  lemma {:induction false} LongerExtensionNotLe(a: string, b: string)
    requires |a| > |b| && a[..|b|] == b
    ensures !StrLe(a, b)
    decreases |b|
  {
    if b != [] {
      assert a[0] == b[0];
      assert a[1..][..|b[1..]|] == b[1..];
      LongerExtensionNotLe(a[1..], b[1..]);
    }
  }
}
