/**
  Python's ordering of tuples and its `sorted` built-in, for the record types the
  report sorts (named tuples whose fields are strings or floats).
  A record is compared through its key: the sequence of its fields in declaration order.
*/
module Sorting {
  import opened Strings

  /** One field of a named tuple: a `str` or a `float`. */
  datatype Field = Text(s: string) | Number(x: real)

  /**
    Strict order on one field. Python compares two strings by code point and two floats
    numerically; a string against a float raises TypeError there, which cannot happen for
    the keys below (each position always holds the same kind), so any fixed choice is fine.
  */
  predicate FieldLt(a: Field, b: Field)
  {
    match (a, b)
    case (Text(s), Text(t)) => StrLt(s, t)
    case (Number(x), Number(y)) => x < y
    case (Text(_), Number(_)) => true
    case (Number(_), Text(_)) => false
  }

  /** Python's `a <= b` on tuples: the first differing field decides; a prefix is smaller. */
  predicate KeyLe(a: seq<Field>, b: seq<Field>)
  {
    if a == [] then true
    else if b == [] then false
    else if a[0] != b[0] then FieldLt(a[0], b[0])
    else KeyLe(a[1..], b[1..])
  }

  lemma FieldLtTotal(a: Field, b: Field)
    ensures a == b || FieldLt(a, b) || FieldLt(b, a)
  {
    if a.Text? && b.Text? {
      StrLtTotal(a.s, b.s);
    }
  }

  lemma FieldLtAsymmetric(a: Field, b: Field)
    ensures !(FieldLt(a, b) && FieldLt(b, a))
  {
    if a.Text? && b.Text? {
      StrLtAsymmetric(a.s, b.s);
    }
  }

  lemma FieldLtTransitive(a: Field, b: Field, c: Field)
    requires FieldLt(a, b) && FieldLt(b, c)
    ensures FieldLt(a, c)
  {
    if a.Text? && b.Text? && c.Text? {
      StrLtTransitive(a.s, b.s, c.s);
    }
  }

  lemma {:induction false} KeyLeTotal(a: seq<Field>, b: seq<Field>)
    ensures KeyLe(a, b) || KeyLe(b, a)
  {
    if a != [] && b != [] {
      if a[0] == b[0] {
        KeyLeTotal(a[1..], b[1..]);
      } else {
        FieldLtTotal(a[0], b[0]);
      }
    }
  }

  lemma {:induction false} KeyLeAntisymmetric(a: seq<Field>, b: seq<Field>)
    requires KeyLe(a, b) && KeyLe(b, a)
    ensures a == b
  {
    if a != [] && b != [] {
      if a[0] == b[0] {
        KeyLeAntisymmetric(a[1..], b[1..]);
        assert a == [a[0]] + a[1..] && b == [b[0]] + b[1..];
      } else {
        FieldLtAsymmetric(a[0], b[0]);
      }
    }
  }

  lemma {:induction false} KeyLeTransitive(a: seq<Field>, b: seq<Field>, c: seq<Field>)
    requires KeyLe(a, b) && KeyLe(b, c)
    ensures KeyLe(a, c)
  {
    if a != [] && b != [] && c != [] {
      if a[0] == b[0] && b[0] == c[0] {
        KeyLeTransitive(a[1..], b[1..], c[1..]);
      } else if a[0] != b[0] && b[0] != c[0] {
        FieldLtTransitive(a[0], b[0], c[0]);
        FieldLtAsymmetric(a[0], c[0]);
      }
    }
  }

  /** Ordering two keys orders their first fields. */
  lemma KeyLeFirstField(a: seq<Field>, b: seq<Field>)
    requires a != [] && b != [] && KeyLe(a, b)
    ensures a[0] == b[0] || FieldLt(a[0], b[0])
  {
  }

  /** `s` is in ascending order of `key`. */
  ghost predicate SortedBy<T>(s: seq<T>, key: T -> seq<Field>)
  {
    forall i, j :: 0 <= i < j < |s| ==> KeyLe(key(s[i]), key(s[j]))
  }

  /** A permutation of `s` plus `x` has every key at least `lo` when `x` and every element of `s` do. */
  lemma BoundedPermutation<T>(r: seq<T>, s: seq<T>, x: T, lo: T, key: T -> seq<Field>)
    requires multiset(r) == multiset(s) + multiset{x}
    requires KeyLe(key(lo), key(x)) && forall j :: 0 <= j < |s| ==> KeyLe(key(lo), key(s[j]))
    ensures forall j :: 0 <= j < |r| ==> KeyLe(key(lo), key(r[j]))
  {
    forall j | 0 <= j < |r|
      ensures KeyLe(key(lo), key(r[j]))
    {
      assert r[j] in multiset(r);
      if r[j] != x {
        assert r[j] in multiset(s);
        var k :| 0 <= k < |s| && s[k] == r[j];
      }
    }
  }

  /** Insert `x` into the sorted `s` before the first element it does not exceed. */
  function Insert<T>(x: T, s: seq<T>, key: T -> seq<Field>): (r: seq<T>)
    requires SortedBy(s, key)
    ensures SortedBy(r, key)
    ensures multiset(r) == multiset(s) + multiset{x}
  {
    if s == [] then [x]
    else if KeyLe(key(x), key(s[0])) then
      assert forall j :: 0 <= j < |s| ==> KeyLe(key(x), key(s[j])) by {
        forall j | 0 <= j < |s| ensures KeyLe(key(x), key(s[j])) {
          if j > 0 { KeyLeTransitive(key(x), key(s[0]), key(s[j])); }
        }
      }
      [x] + s
    else
      KeyLeTotal(key(x), key(s[0]));
      var rest := Insert(x, s[1..], key);
      assert s == [s[0]] + s[1..];
      BoundedPermutation(rest, s[1..], x, s[0], key);
      [s[0]] + rest
  }

  /** Python's `sorted(s)`: an ascending permutation of `s` (insertion sort). */
  function Sort<T>(s: seq<T>, key: T -> seq<Field>): (r: seq<T>)
    ensures SortedBy(r, key)
    ensures multiset(r) == multiset(s)
  {
    if s == [] then []
    else
      assert s == [s[0]] + s[1..];
      Insert(s[0], Sort(s[1..], key), key)
  }

  /** The first element of an ascending sequence is below every element of it. */
  lemma SortedHeadIsLeast<T>(a: seq<T>, key: T -> seq<Field>, x: T)
    requires SortedBy(a, key) && x in multiset(a)
    ensures KeyLe(key(a[0]), key(x))
  {
    var i :| 0 <= i < |a| && a[i] == x;
    if i == 0 {
      KeyLeTotal(key(x), key(x));
    }
  }

  lemma MultisetTail<T>(a: seq<T>, b: seq<T>)
    requires a != [] && b != [] && a[0] == b[0] && multiset(a) == multiset(b)
    ensures multiset(a[1..]) == multiset(b[1..])
  {
    assert a == [a[0]] + a[1..];
    assert b == [b[0]] + b[1..];
    assert multiset(a) == multiset{a[0]} + multiset(a[1..]);
    assert multiset(b) == multiset{a[0]} + multiset(b[1..]);
    forall y ensures multiset(a[1..])[y] == multiset(b[1..])[y] {
      assert multiset(a)[y] == multiset(b)[y];
    }
  }

  /**
    When the key determines the record, a sorted permutation is unique: any two ascending
    arrangements of the same records are equal (so `sorted` has one possible result).
  */
  lemma {:induction false} SortedPermutationUnique<T>(a: seq<T>, b: seq<T>, key: T -> seq<Field>)
    requires forall x, y :: key(x) == key(y) ==> x == y
    requires SortedBy(a, key) && SortedBy(b, key)
    requires multiset(a) == multiset(b)
    ensures a == b
  {
    if a != [] {
      assert |b| == |multiset(b)| == |multiset(a)| == |a|;
      assert a[0] in multiset(b) && b[0] in multiset(a);
      SortedHeadIsLeast(b, key, a[0]);
      SortedHeadIsLeast(a, key, b[0]);
      KeyLeAntisymmetric(key(a[0]), key(b[0]));
      MultisetTail(a, b);
      SortedPermutationUnique(a[1..], b[1..], key);
      assert a == [a[0]] + a[1..] && b == [b[0]] + b[1..];
    }
  }
}
