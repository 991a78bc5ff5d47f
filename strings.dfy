/**
  String helpers that mirror the Python built-ins the report code relies on:
  code-point ordering of `str` (used by `sorted` and tuple comparison),
  `str.strip()`, `str.split(sep)` and the slice `s[n:]`.
*/
module Strings {

  /** Python's `a < b` on `str`: lexicographic by code point, a proper prefix is smaller. */
  predicate StrLt(a: string, b: string)
  {
    if b == [] then false
    else if a == [] then true
    else if a[0] != b[0] then a[0] < b[0]
    else StrLt(a[1..], b[1..])
  }

  /** Python's `a <= b` on `str`. */
  predicate StrLe(a: string, b: string)
  {
    a == b || StrLt(a, b)
  }

  lemma {:induction false} StrLtIrreflexive(a: string)
    ensures !StrLt(a, a)
  {
    if a != [] {
      StrLtIrreflexive(a[1..]);
    }
  }

  lemma {:induction false} StrLtAsymmetric(a: string, b: string)
    ensures !(StrLt(a, b) && StrLt(b, a))
  {
    if a != [] && b != [] && a[0] == b[0] {
      StrLtAsymmetric(a[1..], b[1..]);
    }
  }

  lemma {:induction false} StrLtTransitive(a: string, b: string, c: string)
    requires StrLt(a, b) && StrLt(b, c)
    ensures StrLt(a, c)
  {
    if a != [] && a[0] == b[0] && b[0] == c[0] {
      StrLtTransitive(a[1..], b[1..], c[1..]);
    }
  }

  lemma {:induction false} StrLtTotal(a: string, b: string)
    ensures a == b || StrLt(a, b) || StrLt(b, a)
  {
    if a != [] && b != [] && a[0] == b[0] {
      StrLtTotal(a[1..], b[1..]);
      if a[1..] == b[1..] {
        assert a == [a[0]] + a[1..] && b == [b[0]] + b[1..];
      }
    }
  }

  lemma StrLeTransitive(a: string, b: string, c: string)
    requires StrLe(a, b) && StrLe(b, c)
    ensures StrLe(a, c)
  {
    if a != b && b != c {
      StrLtTransitive(a, b, c);
    }
  }

  lemma StrLeAntisymmetric(a: string, b: string)
    requires StrLe(a, b) && StrLe(b, a)
    ensures a == b
  {
    StrLtAsymmetric(a, b);
  }

  /** Python's `str.isspace()` for one character (the Unicode whitespace set). */
  predicate IsSpace(c: char)
  {
    || c == ' '
    || ('\t' <= c <= '\r')
    || ('\U{1C}' <= c <= '\U{1F}')
    || c == '\U{85}'
    || c == '\U{A0}'
    || c == '\U{1680}'
    || ('\U{2000}' <= c <= '\U{200A}')
    || c == '\U{2028}'
    || c == '\U{2029}'
    || c == '\U{202F}'
    || c == '\U{205F}'
    || c == '\U{3000}'
  }

  /** Number of leading whitespace characters. */
  function LeadingSpaces(s: string): (n: nat)
    ensures n <= |s|
    ensures forall k :: 0 <= k < n ==> IsSpace(s[k])
    ensures n < |s| ==> !IsSpace(s[n])
  {
    if s != [] && IsSpace(s[0]) then 1 + LeadingSpaces(s[1..]) else 0
  }

  /** Number of trailing whitespace characters. */
  function TrailingSpaces(s: string): (n: nat)
    ensures n <= |s|
    ensures forall k :: |s| - n <= k < |s| ==> IsSpace(s[k])
    ensures n < |s| ==> !IsSpace(s[|s| - 1 - n])
  {
    if s != [] && IsSpace(s[|s| - 1]) then 1 + TrailingSpaces(s[..|s| - 1]) else 0
  }

  /** Python's `s.strip()`: drop leading and trailing whitespace. */
  function Strip(s: string): (r: string)
    ensures r == [] || (!IsSpace(r[0]) && !IsSpace(r[|r| - 1]))
    ensures exists i, j :: 0 <= i <= j <= |s| && r == s[i..j]
                           && (forall k :: 0 <= k < i ==> IsSpace(s[k]))
                           && (forall k :: j <= k < |s| ==> IsSpace(s[k]))
  {
    var i := LeadingSpaces(s);
    var t := s[i..];
    var j := |t| - TrailingSpaces(t);
    assert t[..j] == s[i..i + j];
    t[..j]
  }

  lemma StripIdempotent(s: string)
    ensures Strip(Strip(s)) == Strip(s)
  {
    var r := Strip(s);
    assert LeadingSpaces(r) == 0;
    assert TrailingSpaces(r) == 0;
    assert r[0..] == r;
    assert r[..|r|] == r;
  }

  /** Python's `s.split(d)` for a one-character separator `d`. */
  function Split(s: string, d: char): (parts: seq<string>)
    ensures |parts| >= 1
    ensures forall i :: 0 <= i < |parts| ==> d !in parts[i]
  {
    if s == [] then [""]
    else
      var rest := Split(s[1..], d);
      if s[0] == d then [""] + rest
      else [[s[0]] + rest[0]] + rest[1..]
  }

  /** Python's `d.join(parts)`. */
  function Join(parts: seq<string>, d: char): string
    requires |parts| >= 1
  {
    if |parts| == 1 then parts[0] else parts[0] + [d] + Join(parts[1..], d)
  }

  /** Splitting and re-joining on the same separator gives back the input. */
  lemma {:induction false} JoinSplit(s: string, d: char)
    ensures Join(Split(s, d), d) == s
  {
    if s != [] {
      var rest := Split(s[1..], d);
      JoinSplit(s[1..], d);
      if s[0] != d {
        if |rest| > 1 {
          assert Join(rest, d) == rest[0] + [d] + Join(rest[1..], d);
          assert ([[s[0]] + rest[0]] + rest[1..])[1..] == rest[1..];
        }
      } else {
        assert ([""] + rest)[1..] == rest;
      }
    }
  }

  lemma {:induction false} SplitPrefix(x: string, y: string, d: char)
    requires d !in x
    ensures Split(x + y, d) == [x + Split(y, d)[0]] + Split(y, d)[1..]
  {
    if x != [] {
      var p := Split(y, d);
      assert (x + y)[0] == x[0] && x[0] != d;
      assert (x + y)[1..] == x[1..] + y;
      SplitPrefix(x[1..], y, d);
      var rest := Split(x[1..] + y, d);
      assert rest[0] == x[1..] + p[0] && rest[1..] == p[1..];
      assert [x[0]] + (x[1..] + p[0]) == x + p[0];
    } else {
      var p := Split(y, d);
      assert x + y == y && x + p[0] == p[0];
      assert p == [p[0]] + p[1..];
    }
  }

  /** Joining separator-free pieces and splitting again gives back the pieces. */
  lemma {:induction false} SplitJoin(parts: seq<string>, d: char)
    requires |parts| >= 1
    requires forall i :: 0 <= i < |parts| ==> d !in parts[i]
    ensures Split(Join(parts, d), d) == parts
  {
    if |parts| == 1 {
      SplitPrefix(parts[0], "", d);
      assert parts[0] + "" == parts[0];
    } else {
      var tail := Join(parts[1..], d);
      SplitJoin(parts[1..], d);
      SplitPrefix(parts[0], [d] + tail, d);
      assert ([d] + tail)[1..] == tail;
      assert Split([d] + tail, d) == [""] + parts[1..];
      assert parts[0] + "" == parts[0];
      assert parts[0] + [d] + tail == parts[0] + ([d] + tail);
      assert parts == [parts[0]] + parts[1..];
    }
  }

  /**
    Python's slice `s[n:]`: empty when `s` is shorter than `n`. On the lines of a file it is
    also what is left to iterate after `n` calls of `readline()`.
  */
  function SliceFrom<T>(s: seq<T>, n: nat): (r: seq<T>)
    ensures |s| >= n ==> |r| == |s| - n && forall k :: 0 <= k < |r| ==> r[k] == s[n + k]
    ensures |s| < n ==> r == []
  {
    if |s| >= n then s[n..] else []
  }

  /** Concatenation is associative; stated once so that loops appending to a list need not rediscover it. */
  lemma AppendAssoc<T>(a: seq<T>, b: seq<T>, c: seq<T>)
    ensures (a + b) + c == a + (b + c)
  {
  }

  /** Appending to an empty list yields what was appended. */
  lemma EmptyAppend<T>(a: seq<T>)
    ensures [] + a == a
  {
  }
}
