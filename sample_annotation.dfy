/**
  The isolate's annotated variants (sample_annotation.py). Each data line of the
  tab-separated annotation file arrives already split into its fields; the single
  header line is skipped and every other line becomes one record.
*/
module SampleAnnotation {
  import opened Strings
  import opened Sorting

  /** Python's `IsolateMutation` named tuple. */
  datatype IsolateMutation = IsolateMutation(gene: string, nuchange: string, aachange: string,
                                             refpos: string, refnuc: string, altnuc: string,
                                             annotation: string, codonpos: string)

  /** Tuple-order key: the fields in declaration order. */
  function AnnotationKey(m: IsolateMutation): seq<Field>
  {
    [Text(m.gene), Text(m.nuchange), Text(m.aachange), Text(m.refpos), Text(m.refnuc),
     Text(m.altnuc), Text(m.annotation), Text(m.codonpos)]
  }

  /** Every row has the 17 fields the loader indexes (up to `fields[16]`). */
  predicate WellFormed(rows: seq<seq<string>>)
  {
    forall i :: 0 <= i < |rows| ==> |rows[i]| > 16
  }

  /** The record built from one row: the change columns lose their two-character prefix ("c." / "p."). */
  function ToIsolateMutation(f: seq<string>): (m: IsolateMutation)
    requires |f| > 16
    ensures m.gene == f[16] && m.refpos == f[2] && m.refnuc == f[3] && m.altnuc == f[4]
    ensures m.annotation == f[8] && m.codonpos == f[15]
    ensures |f[10]| >= 2 ==> f[10] == f[10][..2] + m.nuchange
    ensures |f[12]| >= 2 ==> f[12] == f[12][..2] + m.aachange
    ensures |f[10]| < 2 ==> m.nuchange == ""
    ensures |f[12]| < 2 ==> m.aachange == ""
  {
    var m := IsolateMutation(f[16], SliceFrom(f[10], 2), SliceFrom(f[12], 2), f[2], f[3], f[4], f[8], f[15]);
    assert |f[10]| >= 2 ==> f[10] == f[10][..2] + m.nuchange;
    assert |f[12]| >= 2 ==> f[12] == f[12][..2] + m.aachange;
    m
  }

  /** The records of `rows`, one per row, in file order. */
  function Records(rows: seq<seq<string>>): (r: seq<IsolateMutation>)
    requires WellFormed(rows)
    ensures |r| == |rows|
  {
    if rows == [] then []
    else Records(rows[..|rows| - 1]) + [ToIsolateMutation(rows[|rows| - 1])]
  }

  /** Nothing is filtered: the i-th record comes from the i-th row. */
  lemma {:induction false} RecordsPointwise(rows: seq<seq<string>>, i: nat)
    requires WellFormed(rows) && i < |rows|
    ensures Records(rows)[i] == ToIsolateMutation(rows[i])
  {
    if i < |rows| - 1 {
      var rows' := rows[..|rows| - 1];
      RecordsPointwise(rows', i);
      assert rows'[i] == rows[i];
    }
  }

  /** In ascending tuple order, the genes are ascending. */
  lemma SortedGenesAscending(s: seq<IsolateMutation>, i: nat, j: nat)
    requires SortedBy(s, AnnotationKey) && i <= j < |s|
    ensures StrLe(s[i].gene, s[j].gene)
  {
    if i < j {
      KeyLeFirstField(AnnotationKey(s[i]), AnnotationKey(s[j]));
    }
  }

  /**
    In ascending tuple order, equal genes are adjacent: nothing with another gene lies
    between two records of the same gene.
  */
  lemma SortedGenesContiguous(s: seq<IsolateMutation>, i: nat, j: nat, k: nat)
    requires SortedBy(s, AnnotationKey) && i <= j <= k < |s|
    requires s[i].gene == s[k].gene
    ensures s[j].gene == s[i].gene
  {
    SortedGenesAscending(s, i, j);
    SortedGenesAscending(s, j, k);
    StrLeAntisymmetric(s[i].gene, s[j].gene);
  }

  /** Python's `AnnotationList`: the isolate's variants. */
  class AnnotationList {
    var mutations: seq<IsolateMutation>
    var itemCount: nat

    ghost predicate Valid()
      reads this
    {
      itemCount == |mutations|
    }

    /** Loads the variants from the lines of the annotation file, header line included. */
    constructor (rows: seq<seq<string>>)
      requires WellFormed(SliceFrom(rows, 1))
      ensures Valid()
      ensures mutations == Records(SliceFrom(rows, 1))
      ensures itemCount == |SliceFrom(rows, 1)|
    {
      mutations := [];
      itemCount := 0;
      new;
      var data := SliceFrom(rows, 1);
      var i := 0;
      while i < |data|
        invariant 0 <= i <= |data|
        invariant WellFormed(data[..i])
        invariant mutations == Records(data[..i])
        invariant itemCount == |mutations|
      {
        var fields := data[i];
        var isolatedMutation := IsolateMutation(fields[16], SliceFrom(fields[10], 2), SliceFrom(fields[12], 2),
                                                fields[2], fields[3], fields[4], fields[8], fields[15]);
        mutations := mutations + [isolatedMutation];
        itemCount := itemCount + 1;
        assert data[..i + 1][..i] == data[..i];
        i := i + 1;
      }
      assert data[..i] == data;
    }

    /** Python's `size` property. */
    function Size(): (n: nat)
      reads this
      requires Valid()
      ensures n == |mutations|
    {
      itemCount
    }

    /**
      Python's `annotation_list` property: a sorted copy. Being a function it cannot
      change `mutations`, which stay in file order.
    */
    function SortedAnnotations(): (r: seq<IsolateMutation>)
      reads this
      ensures SortedBy(r, AnnotationKey)
      ensures multiset(r) == multiset(mutations)
    {
      Sort(mutations, AnnotationKey)
    }
  }
}
