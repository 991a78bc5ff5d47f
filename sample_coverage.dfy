/**
  Coverage statistics of one sample (sample_coverage.py): genome-wide depth and
  percentage, per-region coverage of the genes of interest, coverage gaps and deleted
  loci. Region and deletion lines arrive already split on tabs; the genes-of-interest
  file and the two statistics lines arrive as raw text and are stripped and split here.
*/
module Coverage {
  import opened Wrappers
  import opened Strings

  /** The genes of interest: the stripped contents of the targets file, split on commas. */
  function GenesOfInterest(text: string): (genes: seq<string>)
    ensures |genes| >= 1
    ensures forall i :: 0 <= i < |genes| ==> ',' !in genes[i]
    ensures Join(genes, ',') == Strip(text)
  {
    JoinSplit(Strip(text), ',');
    Split(Strip(text), ',')
  }

  /** The second `':'`-separated field of a stripped statistics line, when there is one. */
  function StatValue(line: string): (v: Option<string>)
    ensures v.Some? <==> ':' in Strip(line)
  {
    var fields := Split(Strip(line), ':');
    SplitCount(Strip(line), ':');
    if |fields| >= 2 then Some(fields[1]) else None
  }

  /** Splitting yields more than one piece exactly when the separator occurs. */
  lemma {:induction false} SplitCount(s: string, d: char)
    ensures |Split(s, d)| >= 2 <==> d in s
  {
    if s != [] {
      SplitCount(s[1..], d);
      assert s == [s[0]] + s[1..];
    }
  }

  /** The coverage of one region: Python's `[float(fields[5]), float(fields[6])]`. */
  datatype RegionCoverage = RegionCoverage(depth: real, percent: real)

  /** A named region and its coverage: a dictionary item, or a gap `[fields[3], [depth, percent]]`. */
  datatype NamedRegion = NamedRegion(name: string, value: RegionCoverage)

  /** One entry of the coverage dictionary. */
  type CoverageEntry = NamedRegion

  /** A coverage gap. */
  type Gap = NamedRegion

  /** A deleted locus: Python's `[fields[15], fields[8]]`. */
  datatype Deletion = Deletion(gene: string, kind: string)

  const GapThreshold: real := 90.0

  /**
    A Python dict in insertion order: an association list whose names are distinct.
  */
  predicate DistinctNames(d: seq<CoverageEntry>)
  {
    forall i, j :: 0 <= i < j < |d| ==> d[i].name != d[j].name
  }

  function Names(d: seq<CoverageEntry>): seq<string>
  {
    if d == [] then [] else [d[0].name] + Names(d[1..])
  }

  lemma {:induction false} NamesIndex(d: seq<CoverageEntry>)
    ensures |Names(d)| == |d|
    ensures forall i :: 0 <= i < |d| ==> Names(d)[i] == d[i].name
  {
    if d != [] {
      NamesIndex(d[1..]);
    }
  }

  /** Assignment keeps the dictionary's keys distinct. */
  lemma PutDistinct(d: seq<CoverageEntry>, k: string, v: RegionCoverage)
    requires DistinctNames(d)
    ensures DistinctNames(Put(d, k, v))
  {
    var r := Put(d, k, v);
    NamesIndex(d);
    NamesIndex(r);
    forall i, j | 0 <= i < j < |r| ensures r[i].name != r[j].name {
      if j == |d| {
        assert Names(r)[j] == k && Names(r)[i] == Names(d)[i];
      } else {
        assert Names(r)[i] == Names(d)[i] && Names(r)[j] == Names(d)[j];
      }
    }
  }

  /** Python's `d[k]`, as an Option for a missing key. */
  function Lookup(d: seq<CoverageEntry>, k: string): Option<RegionCoverage>
  {
    if d == [] then None
    else if d[0].name == k then Some(d[0].value)
    else Lookup(d[1..], k)
  }

  /**
    Python's `d[k] = v`: a present key keeps its place and takes the new value; a new
    key goes at the end.
  */
  function Put(d: seq<CoverageEntry>, k: string, v: RegionCoverage): (r: seq<CoverageEntry>)
    ensures |r| == if k in Names(d) then |d| else |d| + 1
    ensures Names(r) == if k in Names(d) then Names(d) else Names(d) + [k]
  {
    if d == [] then [NamedRegion(k, v)]
    else if d[0].name == k then [NamedRegion(k, v)] + d[1..]
    else
      assert Names(d) == [d[0].name] + Names(d[1..]);
      var r := [d[0]] + Put(d[1..], k, v);
      assert r[1..] == Put(d[1..], k, v);
      r
  }

  /** After `d[k] = v`, `k` maps to `v` and every other key is unchanged. */
  lemma {:induction false} LookupPut(d: seq<CoverageEntry>, k: string, v: RegionCoverage, q: string)
    ensures Lookup(Put(d, k, v), q) == if q == k then Some(v) else Lookup(d, q)
  {
    if d != [] && d[0].name != k {
      LookupPut(d[1..], k, v, q);
      assert Put(d, k, v)[1..] == Put(d[1..], k, v);
    }
  }

  lemma {:induction false} LookupNames(d: seq<CoverageEntry>, q: string)
    ensures Lookup(d, q).Some? <==> q in Names(d)
  {
    if d != [] {
      LookupNames(d[1..], q);
      assert Names(d) == [d[0].name] + Names(d[1..]);
    }
  }

  /** Every region and deletion line has the fields the loader indexes. */
  predicate RegionRowsWellFormed(rows: seq<seq<string>>)
  {
    forall i :: 0 <= i < |rows| ==> |rows[i]| > 6
  }

  predicate DeletionRowsWellFormed(rows: seq<seq<string>>)
  {
    forall i :: 0 <= i < |rows| ==> |rows[i]| > 15
  }

  function RegionOf(f: seq<string>, toReal: string -> real): RegionCoverage
    requires |f| > 6
  {
    RegionCoverage(toReal(f[5]), toReal(f[6]))
  }

  /** The dictionary after the region lines `rows` have been read into `d`. */
  function CoverageAfter(d: seq<CoverageEntry>, rows: seq<seq<string>>, genes: seq<string>,
                         toReal: string -> real): seq<CoverageEntry>
    requires RegionRowsWellFormed(rows)
  {
    if rows == [] then d
    else
      var f := rows[|rows| - 1];
      var d' := CoverageAfter(d, rows[..|rows| - 1], genes, toReal);
      if f[3] in genes then Put(d', f[3], RegionOf(f, toReal)) else d'
  }

  /** The gaps found in the region lines `rows`, in file order. */
  function GapsOf(rows: seq<seq<string>>, toReal: string -> real): seq<Gap>
    requires RegionRowsWellFormed(rows)
  {
    if rows == [] then []
    else
      var f := rows[|rows| - 1];
      GapsOf(rows[..|rows| - 1], toReal)
        + (if toReal(f[6]) < GapThreshold then [NamedRegion(f[3], RegionOf(f, toReal))] else [])
  }

  /** Reading one more region line: its entry is stored when its gene is of interest, and its gap kept when below the threshold. */
  lemma RegionRowsSnoc(d: seq<CoverageEntry>, rows: seq<seq<string>>, genes: seq<string>, toReal: string -> real, i: nat)
    requires RegionRowsWellFormed(rows) && i < |rows|
    ensures RegionRowsWellFormed(rows[..i]) && RegionRowsWellFormed(rows[..i + 1])
    ensures CoverageAfter(d, rows[..i + 1], genes, toReal)
            == if rows[i][3] in genes then Put(CoverageAfter(d, rows[..i], genes, toReal), rows[i][3], RegionOf(rows[i], toReal))
               else CoverageAfter(d, rows[..i], genes, toReal)
    ensures toReal(rows[i][6]) < GapThreshold ==>
              GapsOf(rows[..i + 1], toReal) == GapsOf(rows[..i], toReal) + [NamedRegion(rows[i][3], RegionOf(rows[i], toReal))]
    ensures toReal(rows[i][6]) >= GapThreshold ==> GapsOf(rows[..i + 1], toReal) == GapsOf(rows[..i], toReal)
  {
    assert rows[..i + 1][..i] == rows[..i];
    var g := GapsOf(rows[..i], toReal);
    assert g + [] == g;
  }

  /** The deletions of genes of interest in the deletion lines `rows`, in file order. */
  function DeletionsOf(rows: seq<seq<string>>, genes: seq<string>): seq<Deletion>
    requires DeletionRowsWellFormed(rows)
  {
    if rows == [] then []
    else
      var f := rows[|rows| - 1];
      DeletionsOf(rows[..|rows| - 1], genes) + (if f[15] in genes then [Deletion(f[15], f[8])] else [])
  }

  /**
    A key is in the dictionary after reading `rows` exactly when it was there before, or
    it is a gene of interest named by some row.
  */
  lemma {:induction false} CoverageKeys(d: seq<CoverageEntry>, rows: seq<seq<string>>, genes: seq<string>,
                                        toReal: string -> real, q: string)
    requires RegionRowsWellFormed(rows)
    ensures q in Names(CoverageAfter(d, rows, genes, toReal)) <==>
              q in Names(d) || (q in genes && exists i :: 0 <= i < |rows| && rows[i][3] == q)
  {
    if rows != [] {
      var rows' := rows[..|rows| - 1];
      CoverageKeys(d, rows', genes, toReal, q);
      if q in genes && (exists i :: 0 <= i < |rows| && rows[i][3] == q) {
        var i :| 0 <= i < |rows| && rows[i][3] == q;
        if i < |rows| - 1 {
          assert rows'[i][3] == q;
        }
      }
      if q in genes && (exists i :: 0 <= i < |rows'| && rows'[i][3] == q) {
        var i :| 0 <= i < |rows'| && rows'[i][3] == q;
        assert rows[i][3] == q;
      }
    }
  }

  /**
    A later row overwrites an earlier one: the value under a gene of interest is the one
    from the last row naming it.
  */
  lemma {:induction false} CoverageLastWins(d: seq<CoverageEntry>, rows: seq<seq<string>>, genes: seq<string>,
                                            toReal: string -> real, i: nat)
    requires RegionRowsWellFormed(rows) && i < |rows| && rows[i][3] in genes
    requires forall j :: i < j < |rows| ==> rows[j][3] != rows[i][3]
    ensures Lookup(CoverageAfter(d, rows, genes, toReal), rows[i][3]) == Some(RegionOf(rows[i], toReal))
  {
    var rows' := rows[..|rows| - 1];
    var f := rows[|rows| - 1];
    var d' := CoverageAfter(d, rows', genes, toReal);
    if i < |rows| - 1 {
      assert rows'[i] == rows[i];
      CoverageLastWins(d, rows', genes, toReal, i);
      if f[3] in genes {
        LookupPut(d', f[3], RegionOf(f, toReal), rows[i][3]);
      }
    } else {
      LookupPut(d', f[3], RegionOf(f, toReal), f[3]);
    }
  }

  /** The dictionary built from the region lines has distinct keys. */
  lemma {:induction false} CoverageDistinct(d: seq<CoverageEntry>, rows: seq<seq<string>>, genes: seq<string>,
                                            toReal: string -> real)
    requires RegionRowsWellFormed(rows) && DistinctNames(d)
    ensures DistinctNames(CoverageAfter(d, rows, genes, toReal))
  {
    if rows != [] {
      var f := rows[|rows| - 1];
      CoverageDistinct(d, rows[..|rows| - 1], genes, toReal);
      if f[3] in genes {
        PutDistinct(CoverageAfter(d, rows[..|rows| - 1], genes, toReal), f[3], RegionOf(f, toReal));
      }
    }
  }

  /** A key no row names keeps its old value. */
  lemma {:induction false} CoverageUntouched(d: seq<CoverageEntry>, rows: seq<seq<string>>, genes: seq<string>,
                                             toReal: string -> real, q: string)
    requires RegionRowsWellFormed(rows)
    requires forall j :: 0 <= j < |rows| ==> rows[j][3] != q
    ensures Lookup(CoverageAfter(d, rows, genes, toReal), q) == Lookup(d, q)
  {
    if rows != [] {
      var rows' := rows[..|rows| - 1];
      var f := rows[|rows| - 1];
      CoverageUntouched(d, rows', genes, toReal, q);
      if f[3] in genes {
        LookupPut(CoverageAfter(d, rows', genes, toReal), f[3], RegionOf(f, toReal), q);
      }
    }
  }

  /** Every gap is below the threshold and comes from a row. */
  lemma {:induction false} GapsSound(rows: seq<seq<string>>, toReal: string -> real)
    requires RegionRowsWellFormed(rows)
    ensures forall g :: g in GapsOf(rows, toReal) ==>
              g.value.percent < GapThreshold
              && exists i :: 0 <= i < |rows| && g == NamedRegion(rows[i][3], RegionOf(rows[i], toReal))
  {
    if rows != [] {
      var rows' := rows[..|rows| - 1];
      GapsSound(rows', toReal);
      forall g | g in GapsOf(rows, toReal)
        ensures exists i :: 0 <= i < |rows| && g == NamedRegion(rows[i][3], RegionOf(rows[i], toReal))
      {
        if g in GapsOf(rows', toReal) {
          var i :| 0 <= i < |rows'| && g == NamedRegion(rows'[i][3], RegionOf(rows'[i], toReal));
          assert rows[i] == rows'[i];
        } else {
          assert g == NamedRegion(rows[|rows| - 1][3], RegionOf(rows[|rows| - 1], toReal));
        }
      }
    }
  }

  /** Every row below the threshold is a gap, whether or not its region is a gene of interest. */
  lemma {:induction false} GapsComplete(rows: seq<seq<string>>, toReal: string -> real, i: nat)
    requires RegionRowsWellFormed(rows) && i < |rows| && toReal(rows[i][6]) < GapThreshold
    ensures NamedRegion(rows[i][3], RegionOf(rows[i], toReal)) in GapsOf(rows, toReal)
  {
    var rows' := rows[..|rows| - 1];
    if i < |rows| - 1 {
      assert rows'[i] == rows[i];
      GapsComplete(rows', toReal, i);
    }
  }

  /** Every deletion is of a gene of interest and comes from a row. */
  lemma {:induction false} DeletionsSound(rows: seq<seq<string>>, genes: seq<string>)
    requires DeletionRowsWellFormed(rows)
    ensures forall x :: x in DeletionsOf(rows, genes) ==>
              x.gene in genes && exists i :: 0 <= i < |rows| && x == Deletion(rows[i][15], rows[i][8])
  {
    if rows != [] {
      var rows' := rows[..|rows| - 1];
      DeletionsSound(rows', genes);
      forall x | x in DeletionsOf(rows, genes)
        ensures exists i :: 0 <= i < |rows| && x == Deletion(rows[i][15], rows[i][8])
      {
        if x in DeletionsOf(rows', genes) {
          var i :| 0 <= i < |rows'| && x == Deletion(rows'[i][15], rows'[i][8]);
          assert rows[i] == rows'[i];
        }
      }
    }
  }

  /** Every deletion row of a gene of interest is reported. */
  lemma {:induction false} DeletionsComplete(rows: seq<seq<string>>, genes: seq<string>, i: nat)
    requires DeletionRowsWellFormed(rows) && i < |rows| && rows[i][15] in genes
    ensures Deletion(rows[i][15], rows[i][8]) in DeletionsOf(rows, genes)
  {
    var rows' := rows[..|rows| - 1];
    if i < |rows| - 1 {
      assert rows'[i] == rows[i];
      DeletionsComplete(rows', genes, i);
    }
  }

  /** Python's `SampleCoverage`. */
  class SampleCoverage {
    var genomeDepth: string
    var genomePercentage: string
    const genesOfInterest: seq<string>
    var coverageDict: seq<CoverageEntry>
    var coverageGaps: seq<Gap>
    var deletions: seq<Deletion>

    /**
      Reads all three files: the two statistics lines, the region lines and the deletion
      lines (the latter two with their header line).
    */
    constructor (targetsText: string, statLine1: string, statLine2: string,
                 regionRows: seq<seq<string>>, deletionRows: seq<seq<string>>, toReal: string -> real)
      requires ':' in Strip(statLine1) && ':' in Strip(statLine2)
      requires RegionRowsWellFormed(SliceFrom(regionRows, 1))
      requires DeletionRowsWellFormed(SliceFrom(deletionRows, 1))
      ensures genesOfInterest == GenesOfInterest(targetsText)
      ensures Some(genomeDepth) == StatValue(statLine1) && Some(genomePercentage) == StatValue(statLine2)
      ensures coverageDict == CoverageAfter([], SliceFrom(regionRows, 1), genesOfInterest, toReal)
      ensures coverageGaps == GapsOf(SliceFrom(regionRows, 1), toReal)
      ensures deletions == DeletionsOf(SliceFrom(deletionRows, 1), genesOfInterest)
    {
      genomeDepth := "0";
      genomePercentage := "0";
      genesOfInterest := GenesOfInterest(targetsText);
      coverageDict := [];
      coverageGaps := [];
      deletions := [];
      new;
      Load(statLine1, statLine2, regionRows, deletionRows, toReal);
      EmptyAppend(GapsOf(SliceFrom(regionRows, 1), toReal));
      EmptyAppend(DeletionsOf(SliceFrom(deletionRows, 1), genesOfInterest));
    }

    /** The constructor's three readers, in order: statistics, regions, deletions. */
    method Load(statLine1: string, statLine2: string, regionRows: seq<seq<string>>, deletionRows: seq<seq<string>>,
                toReal: string -> real)
      requires ':' in Strip(statLine1) && ':' in Strip(statLine2)
      requires RegionRowsWellFormed(SliceFrom(regionRows, 1))
      requires DeletionRowsWellFormed(SliceFrom(deletionRows, 1))
      modifies this
      ensures Some(genomeDepth) == StatValue(statLine1) && Some(genomePercentage) == StatValue(statLine2)
      ensures coverageDict == CoverageAfter(old(coverageDict), SliceFrom(regionRows, 1), genesOfInterest, toReal)
      ensures coverageGaps == old(coverageGaps) + GapsOf(SliceFrom(regionRows, 1), toReal)
      ensures deletions == old(deletions) + DeletionsOf(SliceFrom(deletionRows, 1), genesOfInterest)
    {
      GetSampleStats(statLine1, statLine2);
      GetRegionStats(regionRows, toReal);
      GetDeletions(deletionRows);
    }

    /** Python's `get_sample_stats`: field 1 of the first two lines, split on `':'` after stripping. */
    method GetSampleStats(line1: string, line2: string)
      requires ':' in Strip(line1) && ':' in Strip(line2)
      modifies this`genomeDepth, this`genomePercentage
      ensures Some(genomeDepth) == StatValue(line1) && Some(genomePercentage) == StatValue(line2)
    {
      SplitCount(Strip(line1), ':');
      SplitCount(Strip(line2), ':');
      var fields := Split(Strip(line1), ':');
      genomeDepth := fields[1];
      fields := Split(Strip(line2), ':');
      genomePercentage := fields[1];
    }

    /** Python's `get_region_stats`: skips the header line, then fills the dictionary and the gaps. */
    method GetRegionStats(rows: seq<seq<string>>, toReal: string -> real)
      requires RegionRowsWellFormed(SliceFrom(rows, 1))
      modifies this`coverageDict, this`coverageGaps
      ensures coverageDict == CoverageAfter(old(coverageDict), SliceFrom(rows, 1), genesOfInterest, toReal)
      ensures coverageGaps == old(coverageGaps) + GapsOf(SliceFrom(rows, 1), toReal)
    {
      var data := SliceFrom(rows, 1);
      ghost var dict0, gaps0 := coverageDict, coverageGaps;
      var i := 0;
      while i < |data|
        invariant 0 <= i <= |data|
        invariant RegionRowsWellFormed(data[..i])
        invariant coverageDict == CoverageAfter(dict0, data[..i], genesOfInterest, toReal)
        invariant coverageGaps == gaps0 + GapsOf(data[..i], toReal)
      {
        RegionRowsSnoc(dict0, data, genesOfInterest, toReal, i);
        AppendAssoc(gaps0, GapsOf(data[..i], toReal), [NamedRegion(data[i][3], RegionOf(data[i], toReal))]);
        ReadRegionRow(data[i], toReal);
        i := i + 1;
      }
      assert data[..i] == data;
    }

    /** The body of the loop in `get_region_stats`: one region line updates the dictionary and the gaps. */
    method ReadRegionRow(fields: seq<string>, toReal: string -> real)
      requires |fields| > 6
      modifies this`coverageDict, this`coverageGaps
      ensures fields[3] in genesOfInterest ==> coverageDict == Put(old(coverageDict), fields[3], RegionOf(fields, toReal))
      ensures fields[3] !in genesOfInterest ==> coverageDict == old(coverageDict)
      ensures toReal(fields[6]) < GapThreshold ==> coverageGaps == old(coverageGaps) + [NamedRegion(fields[3], RegionOf(fields, toReal))]
      ensures toReal(fields[6]) >= GapThreshold ==> coverageGaps == old(coverageGaps)
    {
      if fields[3] in genesOfInterest {
        coverageDict := Put(coverageDict, fields[3], RegionCoverage(toReal(fields[5]), toReal(fields[6])));
      }
      if toReal(fields[6]) < GapThreshold {
        var gapRecord := NamedRegion(fields[3], RegionCoverage(toReal(fields[5]), toReal(fields[6])));
        coverageGaps := coverageGaps + [gapRecord];
      }
    }

    /** Python's `get_deletions`: skips the header line, then keeps deletions of genes of interest. */
    method GetDeletions(rows: seq<seq<string>>)
      requires DeletionRowsWellFormed(SliceFrom(rows, 1))
      modifies this`deletions
      ensures deletions == old(deletions) + DeletionsOf(SliceFrom(rows, 1), genesOfInterest)
    {
      var data := SliceFrom(rows, 1);
      var i := 0;
      while i < |data|
        invariant 0 <= i <= |data|
        invariant DeletionRowsWellFormed(data[..i])
        invariant deletions == old(deletions) + DeletionsOf(data[..i], genesOfInterest)
      {
        var fields := data[i];
        if fields[15] in genesOfInterest {
          var delRecord := Deletion(fields[15], fields[8]);
          deletions := deletions + [delRecord];
        }
        assert data[..i + 1][..i] == data[..i];
        i := i + 1;
      }
      assert data[..i] == data;
    }
  }
}
