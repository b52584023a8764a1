/**
 * The JavaScript string operations the source relies on, with their ECMAScript semantics:
 * `trim`, `startsWith`, `indexOf`, `split` on a non-empty separator, `join`, `replace` of the
 * first occurrence, ASCII `toLowerCase`, and decimal rendering of integers.
 */
module JsString {

  /** ECMAScript WhiteSpace or LineTerminator: what `trim` removes and what `\s` matches. */
  predicate IsSpace(c: char) {
    c == '\t' || c == '\n' || c == '\U{000B}' || c == '\U{000C}' || c == '\r' || c == ' '
    || c == '\U{00A0}' || c == '\U{1680}' || ('\U{2000}' <= c <= '\U{200A}')
    || c == '\U{2028}' || c == '\U{2029}' || c == '\U{202F}' || c == '\U{205F}'
    || c == '\U{3000}' || c == '\U{FEFF}'
  }

  /** The characters a JavaScript regular expression `.` refuses (no `s` flag). */
  predicate IsLineTerminator(c: char) {
    c == '\n' || c == '\r' || c == '\U{2028}' || c == '\U{2029}'
  }

  /** `\w`: ASCII letters, digits and underscore. */
  predicate IsWordChar(c: char) {
    ('a' <= c <= 'z') || ('A' <= c <= 'Z') || ('0' <= c <= '9') || c == '_'
  }

  predicate AllSpace(s: string) {
    forall k | 0 <= k < |s| :: IsSpace(s[k])
  }

  /** Removes leading whitespace: the result is a suffix and only whitespace was dropped. */
  function TrimStart(s: string): (r: string)
    ensures |r| <= |s| && r == s[|s| - |r|..]
    ensures AllSpace(s[..|s| - |r|])
    ensures r == [] || !IsSpace(r[0])
    decreases |s|
  {
    if s != [] && IsSpace(s[0]) then TrimStart(s[1..]) else s
  }

  /** Removes trailing whitespace: the result is a prefix and only whitespace was dropped. */
  function TrimEnd(s: string): (r: string)
    ensures |r| <= |s| && r == s[..|r|]
    ensures AllSpace(s[|r|..])
    ensures r == [] || !IsSpace(r[|r| - 1])
    decreases |s|
  {
    if s != [] && IsSpace(s[|s| - 1]) then
      var r := TrimEnd(s[..|s| - 1]);
      assert s[|r|..] == s[..|s| - 1][|r|..] + [s[|s| - 1]];
      r
    else s
  }

  /** `String.prototype.trim`. */
  function Trim(s: string): string {
    TrimEnd(TrimStart(s))
  }

  /** What `trim` keeps starts and ends with a non-whitespace character. */
  lemma TrimEnds(s: string)
    ensures Trim(s) == [] || (!IsSpace(Trim(s)[0]) && !IsSpace(Trim(s)[|Trim(s)| - 1]))
  {
    var t := TrimStart(s);
    var r := TrimEnd(t);
    if r != [] {
      assert r == t[..|r|];
      assert r[0] == t[0];
    }
  }

  lemma TrimOfTrimmed(s: string)
    requires s == [] || (!IsSpace(s[0]) && !IsSpace(s[|s| - 1]))
    ensures Trim(s) == s
  {
  }

  /** `trim` is idempotent. */
  lemma TrimIdempotent(s: string)
    ensures Trim(Trim(s)) == Trim(s)
  {
    TrimEnds(s);
    TrimOfTrimmed(Trim(s));
  }

  /** String `s` begins with `p`. */
  predicate StartsWith(s: string, p: string) {
    |p| <= |s| && s[..|p|] == p
  }

  /** String `s` ends with `p`. */
  predicate EndsWith(s: string, p: string) {
    |p| <= |s| && s[|s| - |p|..] == p
  }

  /** `sub` occurs in `s` at position `i`. */
  predicate OccursAt(s: string, sub: string, i: int) {
    0 <= i && i + |sub| <= |s| && s[i..i + |sub|] == sub
  }

  /** `s.indexOf(sub)` for a non-empty `sub`: the least position of an occurrence, or -1. */
  function IndexOf(s: string, sub: string): (r: int)
    requires |sub| > 0
    ensures -1 <= r <= |s|
    ensures r >= 0 ==> OccursAt(s, sub, r)
    ensures forall k | 0 <= k < |s| && (r < 0 || k < r) :: !OccursAt(s, sub, k)
    decreases |s|
  {
    if |s| < |sub| then -1
    else if s[..|sub|] == sub then 0
    else
      var t := IndexOf(s[1..], sub);
      OccursShift(s, sub);
      if t < 0 then -1 else t + 1
  }

  lemma OccursShift(s: string, sub: string)
    requires |s| > 0
    ensures forall k | 1 <= k < |s| :: OccursAt(s, sub, k) == OccursAt(s[1..], sub, k - 1)
  {
    forall k | 1 <= k < |s|
      ensures OccursAt(s, sub, k) == OccursAt(s[1..], sub, k - 1)
    {
      if k + |sub| <= |s| {
        assert s[k..k + |sub|] == s[1..][k - 1..k - 1 + |sub|];
      }
    }
  }

  /** `s.includes(sub)`. */
  predicate Contains(s: string, sub: string)
    requires |sub| > 0
  {
    IndexOf(s, sub) >= 0
  }

  /** `s.indexOf(c)` for one character. */
  function IndexOfChar(s: string, c: char): (r: int)
    ensures -1 <= r < |s|
    ensures r >= 0 ==> s[r] == c
    ensures forall k | 0 <= k < |s| && (r < 0 || k < r) :: s[k] != c
    decreases |s|
  {
    if s == [] then -1
    else if s[0] == c then 0
    else
      var t := IndexOfChar(s[1..], c);
      if t < 0 then -1 else t + 1
  }

  /** `parts.join(sep)`. */
  function Join(parts: seq<string>, sep: string): string
    decreases |parts|
  {
    if parts == [] then ""
    else if |parts| == 1 then parts[0]
    else parts[0] + sep + Join(parts[1..], sep)
  }

  /** `s.split(sep)` for a non-empty separator: cut at the leftmost occurrence, then split the rest. */
  function Split(s: string, sep: string): (r: seq<string>)
    requires |sep| > 0
    ensures |r| >= 1
    decreases |s|
  {
    var i := IndexOf(s, sep);
    if i < 0 then [s] else [s[..i]] + Split(s[i + |sep|..], sep)
  }

  /**
   * Joining the pieces gives back `s`, and every piece but the last is followed by the FIRST
   * occurrence of `sep` that starts at or after the piece (the leftmost-match rule).
   */
  lemma {:induction false} SplitSpec(s: string, sep: string)
    requires |sep| > 0
    ensures Join(Split(s, sep), sep) == s
    ensures forall k | 0 <= k < |Split(s, sep)| - 1 ::
      IndexOf(Split(s, sep)[k] + sep, sep) == |Split(s, sep)[k]|
    ensures IndexOf(Split(s, sep)[|Split(s, sep)| - 1], sep) < 0
    decreases |s|
  {
    var i := IndexOf(s, sep);
    if i >= 0 {
      var head := s[..i];
      var rest := Split(s[i + |sep|..], sep);
      SplitSpec(s[i + |sep|..], sep);
      assert s == head + sep + s[i + |sep|..];
      PrefixIndexOf(s, head + sep, sep, i);
      assert Split(s, sep) == [head] + rest;
      assert ([head] + rest)[1..] == rest;
    }
  }

  /** The first occurrence of `sep` in a prefix that contains it is the first occurrence in the whole. */
  lemma PrefixIndexOf(s: string, p: string, sep: string, i: int)
    requires |sep| > 0 && p <= s && IndexOf(s, sep) == i && i >= 0 && i + |sep| <= |p|
    ensures IndexOf(p, sep) == i
  {
    var j := IndexOf(p, sep);
    OccursInPrefix(s, p, sep, i);
    if 0 <= j < i {
      OccursInPrefix(s, p, sep, j);
    }
  }

  /** An occurrence that ends inside a prefix is an occurrence in the prefix. */
  lemma OccursInPrefix(s: string, p: string, sub: string, k: int)
    requires p <= s && 0 <= k && k + |sub| <= |p|
    ensures OccursAt(p, sub, k) <==> OccursAt(s, sub, k)
  {
    assert p[k..k + |sub|] == s[k..k + |sub|];
  }

  /** A one-character pattern is found at its first occurrence. */
  lemma IndexOfFirstChar(s: string, c: char, i: nat)
    requires i < |s| && s[i] == c && forall k | 0 <= k < i :: s[k] != c
    ensures IndexOf(s, [c]) == i
  {
    assert OccursAt(s, [c], i) by { assert s[i..i + 1] == [s[i]]; }
    forall k | 0 <= k < i ensures !OccursAt(s, [c], k) {
      assert s[k..k + 1] == [s[k]];
    }
  }

  /** A one-character pattern that does not occur is not found. */
  lemma IndexOfAbsentChar(s: string, c: char)
    requires forall k | 0 <= k < |s| :: s[k] != c
    ensures IndexOf(s, [c]) < 0
  {
    forall k | 0 <= k < |s| ensures !OccursAt(s, [c], k) {
      assert s[k..k + 1] == [s[k]];
    }
  }

  /** `trimStart` drops exactly a whitespace indent that is followed by a non-space. */
  lemma {:induction false} TrimStartAt(s: string, n: nat)
    requires n <= |s| && AllSpace(s[..n]) && (n < |s| ==> !IsSpace(s[n]))
    ensures TrimStart(s) == s[n..]
    decreases n
  {
    if n > 0 {
      assert IsSpace(s[..n][0]);
      assert s[1..][..n - 1] == s[..n][1..];
      TrimStartAt(s[1..], n - 1);
      assert s[1..][n - 1..] == s[n..];
    }
  }

  /** `trimEnd` keeps everything up to the last non-space character. */
  lemma TrimEndKeeps(s: string, k: nat)
    requires k < |s| && !IsSpace(s[k])
    ensures k < |TrimEnd(s)| && TrimEnd(s)[k] == s[k]
  {
    var r := TrimEnd(s);
    forall q | |r| <= q < |s| ensures IsSpace(s[q]) {
      assert s[|r|..][q - |r|] == s[q];
    }
  }

  /** Splitting on a single character. */
  function SplitChar(s: string, c: char): (r: seq<string>)
    ensures |r| >= 1
  {
    Split(s, [c])
  }

  /** `s.replace(pat, rep)` with a string pattern: only the first occurrence is replaced. */
  function ReplaceFirst(s: string, pat: string, rep: string): (r: string)
    requires |pat| > 0
    ensures IndexOf(s, pat) < 0 ==> r == s
    ensures IndexOf(s, pat) >= 0 ==>
      r == s[..IndexOf(s, pat)] + rep + s[IndexOf(s, pat) + |pat|..]
  {
    var i := IndexOf(s, pat);
    if i < 0 then s else s[..i] + rep + s[i + |pat|..]
  }

  /** `toLowerCase` on one character, for the ASCII range only. */
  function LowerChar(c: char): char {
    if 'A' <= c <= 'Z' then (c as int + 32) as char else c
  }

  /** `toLowerCase`, ASCII letters only. */
  function Lower(s: string): (r: string)
    ensures |r| == |s| && forall k | 0 <= k < |s| :: r[k] == LowerChar(s[k])
  {
    seq(|s|, k requires 0 <= k < |s| => LowerChar(s[k]))
  }

  /** `s.slice(0, n)` for n >= 0. */
  function Prefix(s: string, n: nat): (r: string)
    ensures |r| == if n < |s| then n else |s|
    ensures r <= s
  {
    if n < |s| then s[..n] else s
  }

  function DigitChar(d: nat): char
    requires d < 10
  {
    ['0', '1', '2', '3', '4', '5', '6', '7', '8', '9'][d]
  }

  predicate IsDigit(c: char) {
    '0' <= c <= '9'
  }

  /** The number a string of decimal digits denotes. */
  function DecimalValue(s: string): nat
    requires forall k | 0 <= k < |s| :: IsDigit(s[k])
    decreases |s|
  {
    if s == [] then 0
    else
      var d := s[|s| - 1];
      assert IsDigit(d);
      DecimalValue(s[..|s| - 1]) * 10 + (d as int - '0' as int)
  }

  /** Template-literal rendering `${n}` of a natural number. */
  function NatToString(n: nat): (r: string)
    ensures |r| >= 1 && forall k | 0 <= k < |r| :: IsDigit(r[k])
    decreases n
  {
    if n < 10 then [DigitChar(n)] else NatToString(n / 10) + [DigitChar(n % 10)]
  }

  /** Decimal rendering reads back as the same number. */
  lemma {:induction false} NatToStringValue(n: nat)
    ensures DecimalValue(NatToString(n)) == n
  {
    if n >= 10 {
      var s := NatToString(n);
      assert s[..|s| - 1] == NatToString(n / 10);
      NatToStringValue(n / 10);
    }
  }

  /** The longest prefix of `s` made of decimal digits. */
  function DigitPrefix(s: string): (r: string)
    ensures |r| <= |s| && r == s[..|r|]
    ensures forall k | 0 <= k < |r| :: IsDigit(r[k])
    ensures |r| == |s| || !IsDigit(s[|r|])
    decreases |s|
  {
    if s != [] && IsDigit(s[0]) then [s[0]] + DigitPrefix(s[1..]) else []
  }

  /** The digits of a number are read back whatever follows them. */
  lemma {:induction false} DigitPrefixOf(d: string, t: string)
    requires forall k | 0 <= k < |d| :: IsDigit(d[k])
    requires t == [] || !IsDigit(t[0])
    ensures DigitPrefix(d + t) == d
    decreases |d|
  {
    if d != [] {
      assert (d + t)[1..] == d[1..] + t;
      DigitPrefixOf(d[1..], t);
      assert d == [d[0]] + d[1..];
    }
  }

  /** Template-literal rendering `${i}` of an integer. */
  function IntToString(i: int): (r: string)
    ensures |r| >= 1
    ensures (r[0] == '-') <==> i < 0
  {
    if i < 0 then "-" + NatToString(-i) else NatToString(i)
  }

  /** Lexicographic order on character codes (how the string columns sort). */
  predicate StrLe(a: string, b: string)
    decreases |a|
  {
    a == [] || (b != [] && (a[0] < b[0] || (a[0] == b[0] && StrLe(a[1..], b[1..]))))
  }

  lemma {:induction false} StrLeTotal(a: string, b: string)
    ensures StrLe(a, b) || StrLe(b, a)
    decreases |a|
  {
    if a != [] && b != [] && a[0] == b[0] {
      StrLeTotal(a[1..], b[1..]);
    }
  }

  lemma {:induction false} StrLeTrans(a: string, b: string, c: string)
    requires StrLe(a, b) && StrLe(b, c)
    ensures StrLe(a, c)
    decreases |a|
  {
    if a != [] && a[0] == b[0] && b[0] == c[0] {
      StrLeTrans(a[1..], b[1..], c[1..]);
    }
  }

  lemma {:induction false} StrLeAntisym(a: string, b: string)
    requires StrLe(a, b) && StrLe(b, a)
    ensures a == b
    decreases |a|
  {
    if a != [] {
      StrLeAntisym(a[1..], b[1..]);
      assert a == [a[0]] + a[1..] && b == [b[0]] + b[1..];
    }
  }
}
