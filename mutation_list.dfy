/**
  The reference table of graded mutations (mutation_list.py). Each data line of the
  comma-separated reference file arrives already split into its fields; the two
  header lines are skipped, and only mutations with a p-value below 0.05 are kept.
*/
module MutationTable {
  import opened Strings
  import opened Sorting

  /** Python's `Mutation` named tuple. */
  datatype Mutation = Mutation(gene: string, nuchange: string, aachange: string, drug: string,
                               pvalue: real, likelihood: real)

  const SignificanceLevel: real := 0.05

  /** Tuple-order key: the fields in declaration order. */
  function MutationKey(m: Mutation): seq<Field>
  {
    [Text(m.gene), Text(m.nuchange), Text(m.aachange), Text(m.drug), Number(m.pvalue), Number(m.likelihood)]
  }

  /** Every row has the 23 fields the loader indexes (up to `fields[22]`). */
  predicate WellFormed(rows: seq<seq<string>>)
  {
    forall i :: 0 <= i < |rows| ==> |rows[i]| > 22
  }

  /** The record built from one row; `toReal` stands for Python's `float()`. */
  function ToMutation(f: seq<string>, toReal: string -> real): (m: Mutation)
    requires |f| > 22
    ensures m.gene == f[1] && m.nuchange == f[6] && m.aachange == f[7] && m.drug == f[0]
    ensures m.pvalue == toReal(f[22]) && m.likelihood == toReal(f[17])
  {
    Mutation(f[1], f[6], f[7], f[0], toReal(f[22]), toReal(f[17]))
  }

  predicate Significant(f: seq<string>, toReal: string -> real)
    requires |f| > 22
  {
    ToMutation(f, toReal).pvalue < SignificanceLevel
  }

  /** The mutations the loader keeps from `rows`, in file order. */
  function Retained(rows: seq<seq<string>>, toReal: string -> real): seq<Mutation>
    requires WellFormed(rows)
  {
    if rows == [] then []
    else
      var last := rows[|rows| - 1];
      Retained(rows[..|rows| - 1], toReal)
        + (if Significant(last, toReal) then [ToMutation(last, toReal)] else [])
  }

  /** Keeping rows commutes with concatenating them: file order is preserved. */
  lemma {:induction false} RetainedAppend(a: seq<seq<string>>, b: seq<seq<string>>, toReal: string -> real)
    requires WellFormed(a) && WellFormed(b)
    ensures WellFormed(a + b)
    ensures Retained(a + b, toReal) == Retained(a, toReal) + Retained(b, toReal)
  {
    if b != [] {
      var b' := b[..|b| - 1];
      assert (a + b)[..|a + b| - 1] == a + b';
      RetainedAppend(a, b', toReal);
    } else {
      assert a + b == a;
    }
  }

  /** Every kept mutation is significant and comes from one of the rows. */
  lemma {:induction false} RetainedSound(rows: seq<seq<string>>, toReal: string -> real)
    requires WellFormed(rows)
    ensures forall m :: m in Retained(rows, toReal) ==> m.pvalue < SignificanceLevel
    ensures forall m :: m in Retained(rows, toReal) ==> exists i :: 0 <= i < |rows| && m == ToMutation(rows[i], toReal)
  {
    if rows != [] {
      var rows' := rows[..|rows| - 1];
      RetainedSound(rows', toReal);
      forall m | m in Retained(rows, toReal)
        ensures exists i :: 0 <= i < |rows| && m == ToMutation(rows[i], toReal)
      {
        if m in Retained(rows', toReal) {
          var i :| 0 <= i < |rows'| && m == ToMutation(rows'[i], toReal);
          assert rows[i] == rows'[i];
        } else {
          assert m == ToMutation(rows[|rows| - 1], toReal);
        }
      }
    }
  }

  /** Every significant row is kept; no other filter applies. */
  lemma {:induction false} RetainedComplete(rows: seq<seq<string>>, toReal: string -> real, i: nat)
    requires WellFormed(rows) && i < |rows|
    requires toReal(rows[i][22]) < SignificanceLevel
    ensures ToMutation(rows[i], toReal) in Retained(rows, toReal)
  {
    var rows' := rows[..|rows| - 1];
    if i < |rows| - 1 {
      assert rows'[i] == rows[i];
      RetainedComplete(rows', toReal, i);
    }
  }

  /** The number of significant rows. */
  function CountSignificant(rows: seq<seq<string>>, toReal: string -> real): nat
    requires WellFormed(rows)
  {
    if rows == [] then 0
    else CountSignificant(rows[..|rows| - 1], toReal) + (if Significant(rows[|rows| - 1], toReal) then 1 else 0)
  }

  lemma {:induction false} RetainedCount(rows: seq<seq<string>>, toReal: string -> real)
    requires WellFormed(rows)
    ensures |Retained(rows, toReal)| == CountSignificant(rows, toReal)
  {
    if rows != [] {
      RetainedCount(rows[..|rows| - 1], toReal);
    }
  }

  /** Python's `MutationList`: the graded reference mutations. */
  class MutationList {
    var mutations: seq<Mutation>
    var itemCount: nat

    ghost predicate Valid()
      reads this
    {
      itemCount == |mutations|
    }

    /** Loads the table from the lines of the reference file, header lines included. */
    constructor (rows: seq<seq<string>>, toReal: string -> real)
      requires WellFormed(SliceFrom(rows, 2))
      ensures Valid()
      ensures mutations == Retained(SliceFrom(rows, 2), toReal)
      ensures itemCount == CountSignificant(SliceFrom(rows, 2), toReal)
    {
      mutations := [];
      itemCount := 0;
      new;
      var data := SliceFrom(rows, 2);
      var i := 0;
      while i < |data|
        invariant 0 <= i <= |data|
        invariant WellFormed(data[..i])
        invariant mutations == Retained(data[..i], toReal)
        invariant itemCount == |mutations|
      {
        var fields := data[i];
        var gradedMutation := Mutation(fields[1], fields[6], fields[7], fields[0],
                                       toReal(fields[22]), toReal(fields[17]));
        if gradedMutation.pvalue < SignificanceLevel {
          mutations := mutations + [gradedMutation];
          itemCount := itemCount + 1;
        }
        assert data[..i + 1][..i] == data[..i];
        i := i + 1;
      }
      assert data[..i] == data;
      RetainedCount(data, toReal);
    }

    /** Python's `size` property. */
    function Size(): (n: nat)
      reads this
      requires Valid()
      ensures n == |mutations|
    {
      itemCount
    }

    /** Python's `mutation_list` property: a sorted copy; the table itself is left in file order. */
    function SortedMutations(): (r: seq<Mutation>)
      reads this
      ensures SortedBy(r, MutationKey)
      ensures multiset(r) == multiset(mutations)
    {
      Sort(mutations, MutationKey)
    }
  }
}
