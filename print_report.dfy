/**
  The report reader (print_report.py): the parsed report document is read back into
  printable rows. A row is the Python list the reader builds: attribute values, which
  are always present, and element texts, which are None for an element without text.
*/
module PrintReport {
  import opened Wrappers
  import opened ElementTree
  import opened Strings
  import opened Grouping
  import Report
  import Resistance
  import Coverage

  type Row = seq<Option<string>>

  /**
    Python's `e.find(tag).text`: the text of the first child `tag`. Where that child is
    missing Python raises; the reader's methods require it, so the None here is never read.
  */
  function TextOf(e: Element, tag: string): Option<string>
  {
    match Find(e, tag)
    case Some(c) => c.text
    case None => None
  }

  /** Python's `e.attrib[name]`, as a row field; the reader's methods require the attribute. */
  function AttrOf(e: Element, name: string): Option<string>
  {
    if name in e.attrs then Some(e.attrs[name]) else None
  }

  /** The children matched by the path `a/b`: the `b` children of every `a` child, in document order. */
  function PathMatches(e: Element, a: string, b: string): seq<Element>
  {
    var parents := FindAll(e, a);
    Flatten(seq(|parents|, i requires 0 <= i < |parents| => FindAll(parents[i], b)))
  }

  /** Python's `e.find('a/b')`: the first element matched by the path. */
  function FindPath(e: Element, a: string, b: string): (r: Option<Element>)
    ensures r.None? <==> PathMatches(e, a, b) == []
  {
    var m := PathMatches(e, a, b);
    if m == [] then None else Some(m[0])
  }

  /** Python's `iterfind('mutations/snp')`. */
  function Snps(root: Element): seq<Element>
  {
    PathMatches(root, "mutations", "snp")
  }

  /** Every element of `s` satisfies `p`; stated element by element from the front. */
  predicate All<T>(s: seq<T>, p: T -> bool)
  {
    s == [] || (All(s[..|s| - 1], p) && p(s[|s| - 1]))
  }

  lemma {:induction false} AllAt<T>(s: seq<T>, p: T -> bool, i: nat)
    requires All(s, p) && i < |s|
    ensures p(s[i])
  {
    if i < |s| - 1 {
      AllAt(s[..|s| - 1], p, i);
    }
  }

  // ---------------------------------------------------------------------------
  // Coverage and gap rows.

  predicate RegionReadable(e: Element)
  {
    "name" in e.attrs && Find(e, "depth").Some? && Find(e, "percent").Some?
  }

  /** `[name, depth text, percent text]` of one region element. */
  function RegionRow(e: Element): Row
  {
    [AttrOf(e, "name"), TextOf(e, "depth"), TextOf(e, "percent")]
  }

  predicate RegionsReadable(es: seq<Element>)
  {
    All(es, RegionReadable)
  }

  /** The rows of a coverage or gap section, one per child, in order. */
  function RegionRows(es: seq<Element>): seq<Row>
  {
    if es == [] then [] else RegionRows(es[..|es| - 1]) + [RegionRow(es[|es| - 1])]
  }

  /** One row per child, the i-th row read from the i-th child. */
  lemma {:induction false} RegionRowsPointwise(es: seq<Element>)
    ensures |RegionRows(es)| == |es|
    ensures forall i :: 0 <= i < |es| ==> RegionRows(es)[i] == RegionRow(es[i])
  {
    if es != [] {
      RegionRowsPointwise(es[..|es| - 1]);
    }
  }

  /** The texts of a deletions section's children, in order. */
  function DeletionTexts(es: seq<Element>): seq<Option<string>>
  {
    if es == [] then [] else DeletionTexts(es[..|es| - 1]) + [es[|es| - 1].text]
  }

  lemma {:induction false} DeletionTextsPointwise(es: seq<Element>)
    ensures |DeletionTexts(es)| == |es|
    ensures forall i :: 0 <= i < |es| ==> DeletionTexts(es)[i] == es[i].text
  {
    if es != [] {
      DeletionTextsPointwise(es[..|es| - 1]);
    }
  }

  // ---------------------------------------------------------------------------
  // Mutation rows.

  predicate ResistanceReadable(r: Element)
  {
    Find(r, "drug").Some? && Find(r, "confidence").Some?
  }

  predicate NuchangeReadable(n: Element)
  {
    && "name" in n.attrs && "aachange" in n.attrs
    && ResistancesReadable(FindAll(n, "resistance"))
  }

  predicate ResistancesReadable(rs: seq<Element>)
  {
    All(rs, ResistanceReadable)
  }

  predicate NuchangesReadable(ns: seq<Element>)
  {
    All(ns, NuchangeReadable)
  }

  predicate SnpReadable(s: Element)
  {
    "gene" in s.attrs && NuchangesReadable(FindAll(s, "nuchange"))
  }

  predicate SnpsReadable(snps: seq<Element>)
  {
    All(snps, SnpReadable)
  }

  /** `[gene, name, aachange]`: the row of a nuchange before any drug is added. */
  function Head(gene: Option<string>, n: Element): Row
  {
    [gene, AttrOf(n, "name"), AttrOf(n, "aachange")]
  }

  /** One five-field row per resistance: the head followed by drug and confidence. */
  function ResistanceRows(head: Row, rs: seq<Element>): seq<Row>
  {
    if rs == [] then []
    else
      var r := rs[|rs| - 1];
      ResistanceRows(head, rs[..|rs| - 1]) + [head + [TextOf(r, "drug"), TextOf(r, "confidence")]]
  }

  /** The rows of one nuchange: one per resistance, or the bare head when it has none. */
  function NuchangeRows(gene: Option<string>, n: Element): seq<Row>
  {
    var rs := FindAll(n, "resistance");
    if rs == [] then [Head(gene, n)] else ResistanceRows(Head(gene, n), rs)
  }

  function NuchangesRows(gene: Option<string>, ns: seq<Element>): seq<Row>
  {
    if ns == [] then []
    else NuchangesRows(gene, ns[..|ns| - 1]) + NuchangeRows(gene, ns[|ns| - 1])
  }

  function SnpsRows(snps: seq<Element>): seq<Row>
  {
    if snps == [] then []
    else
      var s := snps[|snps| - 1];
      SnpsRows(snps[..|snps| - 1]) + NuchangesRows(AttrOf(s, "gene"), FindAll(s, "nuchange"))
  }

  /** Reading one more resistance appends its row. */
  lemma ResistanceRowsSnoc(head: Row, rs: seq<Element>, k: nat)
    requires k < |rs|
    ensures ResistanceRows(head, rs[..k + 1])
            == ResistanceRows(head, rs[..k]) + [head + [TextOf(rs[k], "drug"), TextOf(rs[k], "confidence")]]
  {
    assert rs[..k + 1][..k] == rs[..k];
  }

  lemma NuchangesRowsSnoc(gene: Option<string>, ns: seq<Element>, j: nat)
    requires j < |ns|
    ensures NuchangesRows(gene, ns[..j + 1]) == NuchangesRows(gene, ns[..j]) + NuchangeRows(gene, ns[j])
  {
    assert ns[..j + 1][..j] == ns[..j];
  }

  lemma SnpsRowsSnoc(snps: seq<Element>, i: nat)
    requires i < |snps|
    ensures SnpsRows(snps[..i + 1]) == SnpsRows(snps[..i]) + NuchangesRows(AttrOf(snps[i], "gene"), FindAll(snps[i], "nuchange"))
  {
    assert snps[..i + 1][..i] == snps[..i];
  }

  lemma {:induction false} ResistanceRowsPointwise(head: Row, rs: seq<Element>)
    ensures |ResistanceRows(head, rs)| == |rs|
    ensures forall k :: 0 <= k < |rs| ==>
              ResistanceRows(head, rs)[k] == head + [TextOf(rs[k], "drug"), TextOf(rs[k], "confidence")]
  {
    if rs != [] {
      var rs' := rs[..|rs| - 1];
      ResistanceRowsPointwise(head, rs');
    }
  }

  /**
    A nuchange yields exactly one three-field row `[gene, name, aachange]` when it has no
    resistance, and otherwise one five-field row per resistance, each starting with that head.
  */
  lemma NuchangeRowsShape(gene: Option<string>, n: Element)
    ensures FindAll(n, "resistance") == [] <==> NuchangeRows(gene, n) == [Head(gene, n)]
    ensures FindAll(n, "resistance") != [] ==>
              |NuchangeRows(gene, n)| == |FindAll(n, "resistance")|
              && forall k :: 0 <= k < |NuchangeRows(gene, n)| ==>
                   |NuchangeRows(gene, n)[k]| == 5 && NuchangeRows(gene, n)[k][..3] == Head(gene, n)
                   && NuchangeRows(gene, n)[k][3] == TextOf(FindAll(n, "resistance")[k], "drug")
                   && NuchangeRows(gene, n)[k][4] == TextOf(FindAll(n, "resistance")[k], "confidence")
  {
    var rs := FindAll(n, "resistance");
    if rs != [] {
      ResistanceRowsPointwise(Head(gene, n), rs);
      assert |NuchangeRows(gene, n)[0]| == 5;
    }
  }

  /** How many rows a nuchange yields: at least one. */
  function Weight(n: Element): nat
  {
    if FindAll(n, "resistance") == [] then 1 else |FindAll(n, "resistance")|
  }

  function NuchangesWeight(ns: seq<Element>): nat
  {
    if ns == [] then 0 else NuchangesWeight(ns[..|ns| - 1]) + Weight(ns[|ns| - 1])
  }

  function SnpsWeight(snps: seq<Element>): nat
  {
    if snps == [] then 0 else SnpsWeight(snps[..|snps| - 1]) + NuchangesWeight(FindAll(snps[|snps| - 1], "nuchange"))
  }

  lemma {:induction false} NuchangesRowCount(gene: Option<string>, ns: seq<Element>)
    ensures |NuchangesRows(gene, ns)| == NuchangesWeight(ns)
  {
    if ns != [] {
      var ns' := ns[..|ns| - 1];
      NuchangesRowCount(gene, ns');
      var n := ns[|ns| - 1];
      if FindAll(n, "resistance") != [] {
        ResistanceRowsPointwise(Head(gene, n), FindAll(n, "resistance"));
      }
    }
  }

  /** The number of mutation rows is the sum over all nuchanges of max(1, number of resistances). */
  lemma {:induction false} MutationRowCount(snps: seq<Element>)
    ensures |SnpsRows(snps)| == SnpsWeight(snps)
  {
    if snps != [] {
      var snps' := snps[..|snps| - 1];
      MutationRowCount(snps');
      var s := snps[|snps| - 1];
      NuchangesRowCount(AttrOf(s, "gene"), FindAll(s, "nuchange"));
    }
  }

  // ---------------------------------------------------------------------------
  // The reader.

  /** Everything the reader's constructor looks up is present. */
  predicate Readable(root: Element)
  {
    && Find(root, "title").Some? && Find(root, "date").Some? && Find(root, "sample_id").Some?
    && FindPath(root, "pipeline", "name").Some? && FindPath(root, "pipeline", "version").Some?
    && FindPath(root, "lineage", "code").Some? && FindPath(root, "lineage", "name").Some?
    && Find(root, "coverage").Some? && RegionsReadable(Find(root, "coverage").value.children)
    && Find(root, "deletions").Some?
    && SnpsReadable(Snps(root))
  }

  /** Python's `PrintableReport`, from the parsed document. */
  class PrintableReport {
    const root: Element
    const title: Option<string>
    const testDate: Option<string>
    const sampleId: Option<string>
    const pipelineName: Option<string>
    const pipelineVersion: Option<string>
    const lineageCode: Option<string>
    const lineageName: Option<string>
    var coverageMap: seq<Row>
    var gapMap: seq<Row>
    var deleteList: seq<Option<string>>
    var mutationList: seq<Row>

    /**
      Reads the header texts, then the coverage map, the deletions and the mutation list;
      the gap map stays empty, since the constructor never builds it.
    */
    constructor (root: Element)
      requires Readable(root)
      ensures this.root == root
      ensures title == TextOf(root, "title") && testDate == TextOf(root, "date") && sampleId == TextOf(root, "sample_id")
      ensures pipelineName == FindPath(root, "pipeline", "name").value.text
      ensures pipelineVersion == FindPath(root, "pipeline", "version").value.text
      ensures lineageCode == FindPath(root, "lineage", "code").value.text
      ensures lineageName == FindPath(root, "lineage", "name").value.text
      ensures coverageMap == RegionRows(Find(root, "coverage").value.children)
      ensures gapMap == []
      ensures deleteList == DeletionTexts(Find(root, "deletions").value.children)
      ensures mutationList == SnpsRows(Snps(root))
    {
      this.root := root;
      title := Find(root, "title").value.text;
      testDate := Find(root, "date").value.text;
      sampleId := Find(root, "sample_id").value.text;
      pipelineName := FindPath(root, "pipeline", "name").value.text;
      pipelineVersion := FindPath(root, "pipeline", "version").value.text;
      lineageCode := FindPath(root, "lineage", "code").value.text;
      lineageName := FindPath(root, "lineage", "name").value.text;
      coverageMap := [];
      gapMap := [];
      deleteList := [];
      mutationList := [];
      new;
      Load();
      EmptyAppend(RegionRows(Find(root, "coverage").value.children));
      EmptyAppend(DeletionTexts(Find(root, "deletions").value.children));
      EmptyAppend(SnpsRows(Snps(root)));
    }

    /** The constructor's build calls, in order: coverage map, deletions list, mutation list. */
    method Load()
      requires Readable(root)
      modifies this`coverageMap, this`deleteList, this`mutationList
      ensures coverageMap == old(coverageMap) + RegionRows(Find(root, "coverage").value.children)
      ensures deleteList == old(deleteList) + DeletionTexts(Find(root, "deletions").value.children)
      ensures mutationList == old(mutationList) + SnpsRows(Snps(root))
    {
      BuildCoverageMap();
      BuildDeletionsList();
      BuildMutationList();
    }

    /** Python's `build_coverage_map`: one row per child of `coverage`, appended in order. */
    method BuildCoverageMap()
      requires Find(root, "coverage").Some? && RegionsReadable(Find(root, "coverage").value.children)
      modifies this`coverageMap
      ensures coverageMap == old(coverageMap) + RegionRows(Find(root, "coverage").value.children)
    {
      var covList := Find(root, "coverage").value.children;
      for i := 0 to |covList|
        invariant coverageMap == old(coverageMap) + RegionRows(covList[..i])
      {
        AllAt(covList, RegionReadable, i);
        var region := covList[i];
        var itemList := [Some(region.attrs["name"]), Find(region, "depth").value.text, Find(region, "percent").value.text];
        assert covList[..i + 1][..i] == covList[..i];
        assert RegionRows(covList[..i + 1]) == RegionRows(covList[..i]) + [itemList];
        coverageMap := coverageMap + [itemList];
      }
      assert covList[..|covList|] == covList;
    }

    /** Python's `build_gap_map`: one row per child of `coverage_gaps`, appended in order. */
    method BuildGapMap()
      requires Find(root, "coverage_gaps").Some? && RegionsReadable(Find(root, "coverage_gaps").value.children)
      modifies this`gapMap
      ensures gapMap == old(gapMap) + RegionRows(Find(root, "coverage_gaps").value.children)
    {
      var gapList := Find(root, "coverage_gaps").value.children;
      for i := 0 to |gapList|
        invariant gapMap == old(gapMap) + RegionRows(gapList[..i])
      {
        AllAt(gapList, RegionReadable, i);
        var gene := gapList[i];
        var itemList := [Some(gene.attrs["name"]), Find(gene, "depth").value.text, Find(gene, "percent").value.text];
        assert gapList[..i + 1][..i] == gapList[..i];
        assert RegionRows(gapList[..i + 1]) == RegionRows(gapList[..i]) + [itemList];
        gapMap := gapMap + [itemList];
      }
      assert gapList[..|gapList|] == gapList;
    }

    /** Python's `build_deletions_list`: the text of each child of `deletions`, appended in order. */
    method BuildDeletionsList()
      requires Find(root, "deletions").Some?
      modifies this`deleteList
      ensures deleteList == old(deleteList) + DeletionTexts(Find(root, "deletions").value.children)
    {
      var delList := Find(root, "deletions").value.children;
      for i := 0 to |delList|
        invariant deleteList == old(deleteList) + DeletionTexts(delList[..i])
      {
        var loci := delList[i];
        assert delList[..i + 1][..i] == delList[..i];
        deleteList := deleteList + [loci.text];
      }
      assert delList[..|delList|] == delList;
    }

    /**
      Python's `build_mutation_list`: for every `mutations/snp` and each of its nuchanges,
      one row per resistance, or the bare head when the nuchange has none.
    */
    method BuildMutationList()
      requires SnpsReadable(Snps(root))
      modifies this`mutationList
      ensures mutationList == old(mutationList) + SnpsRows(Snps(root))
    {
      var snps := PathMatches(root, "mutations", "snp");
      for i := 0 to |snps|
        invariant mutationList == old(mutationList) + SnpsRows(snps[..i])
      {
        AllAt(snps, SnpReadable, i);
        AppendSnpRows(snps[i]);
        SnpsRowsSnoc(snps, i);
        AppendAssoc(old(mutationList), SnpsRows(snps[..i]), NuchangesRows(AttrOf(snps[i], "gene"), FindAll(snps[i], "nuchange")));
      }
      assert snps[..|snps|] == snps;
    }

    /** The body of `build_mutation_list` for one `snp`: the rows of each of its nuchanges, in order. */
    method AppendSnpRows(gene: Element)
      requires SnpReadable(gene)
      modifies this`mutationList
      ensures mutationList == old(mutationList) + NuchangesRows(AttrOf(gene, "gene"), FindAll(gene, "nuchange"))
    {
      var geneName := Some(gene.attrs["gene"]);
      var nuchanges := FindAll(gene, "nuchange");
      for j := 0 to |nuchanges|
        invariant mutationList == old(mutationList) + NuchangesRows(geneName, nuchanges[..j])
      {
        AllAt(nuchanges, NuchangeReadable, j);
        AppendNuchangeRows(geneName, nuchanges[j]);
        NuchangesRowsSnoc(geneName, nuchanges, j);
        AppendAssoc(old(mutationList), NuchangesRows(geneName, nuchanges[..j]), NuchangeRows(geneName, nuchanges[j]));
      }
      assert nuchanges[..|nuchanges|] == nuchanges;
    }

    /**
      The body of `build_mutation_list` for one nuchange of gene `geneName`: one row per
      resistance, or the bare head when no resistance was recorded.
    */
    method AppendNuchangeRows(geneName: Option<string>, nuchange: Element)
      requires NuchangeReadable(nuchange)
      modifies this`mutationList
      ensures mutationList == old(mutationList) + NuchangeRows(geneName, nuchange)
    {
      var mutation := [geneName, Some(nuchange.attrs["name"]), Some(nuchange.attrs["aachange"])];
      var recorded := false;
      var resistances := FindAll(nuchange, "resistance");
      for k := 0 to |resistances|
        invariant recorded <==> k > 0
        invariant mutationList == old(mutationList) + ResistanceRows(mutation, resistances[..k])
      {
        AllAt(resistances, ResistanceReadable, k);
        var resistance := resistances[k];
        var drugResistance := [Find(resistance, "drug").value.text, Find(resistance, "confidence").value.text];
        ResistanceRowsSnoc(mutation, resistances, k);
        AppendAssoc(old(mutationList), ResistanceRows(mutation, resistances[..k]), [mutation + drugResistance]);
        // the extended row is appended and `mutation` starts again from the bare head
        mutationList := mutationList + [mutation + drugResistance];
        recorded := true;
      }
      assert resistances[..|resistances|] == resistances;
      if !recorded {
        mutationList := mutationList + [mutation];
      }
    }

    /** The `coverage_map` setter appends its argument rather than replacing the map. */
    method SetCoverageMap(newList: Row)
      modifies this`coverageMap
      ensures coverageMap == old(coverageMap) + [newList]
    {
      coverageMap := coverageMap + [newList];
    }

    /** The `gap_map` setter appends its argument rather than replacing the map. */
    method SetGapMap(newList: Row)
      modifies this`gapMap
      ensures gapMap == old(gapMap) + [newList]
    {
      gapMap := gapMap + [newList];
    }

    /** The `mutation_list` setter appends its argument rather than replacing the list. */
    method SetMutationList(newItem: Row)
      modifies this`mutationList
      ensures mutationList == old(mutationList) + [newItem]
    {
      mutationList := mutationList + [newItem];
    }
  }

  // ---------------------------------------------------------------------------
  // Page coordinates.

  /** Python's `pdf_coord`: scales by `unit` and flips the vertical axis to count from the page bottom. */
  function PdfCoord(x: real, y: real, height: real, unit: real := 1.0): (p: (real, real))
    ensures unit != 0.0 ==> p.0 / unit == x && (height - p.1) / unit == y
  {
    (x * unit, height - y * unit)
  }

  /** With a positive unit, a point further down the page gets a smaller PDF ordinate. */
  lemma PdfCoordFlips(x: real, y1: real, y2: real, height: real, unit: real)
    requires unit > 0.0 && y1 < y2
    ensures PdfCoord(x, y1, height, unit).1 > PdfCoord(x, y2, height, unit).1
  {
    var d := y2 - y1;
    assert d * unit > 0.0;
    assert y2 * unit == y1 * unit + d * unit;
  }
}
