/**
  Writing a report and reading it back: the document the assembler (surveillance_report.py)
  builds is one the reader (print_report.py) accepts, and the rows the reader prints are
  those described here directly from the assembler's inputs, without any tree in between.
*/
module ReportRoundTrip {
  import opened Wrappers
  import opened Strings
  import opened ElementTree
  import opened Grouping
  import opened Report
  import opened PrintReport
  import Resistance
  import Coverage
  import SA = SampleAnnotation
  import MT = MutationTable

  // ---------------------------------------------------------------------------
  // The printed rows, stated on the assembler's inputs.

  /** `[gene, name, aachange]` of a record: fields 0 and 1 are the nucleotide and amino-acid changes. */
  function HeadRow(gene: string, r: Resistance.NucRecord): Row
    requires |r.fields| == 7
  {
    [Some(gene), Some(r.fields[0]), Some(r.fields[1])]
  }

  /** One row per drug call: the head, the drug and its confidence. */
  function CallRows(head: Row, cs: seq<Resistance.DrugCall>): seq<Row>
  {
    if cs == [] then []
    else CallRows(head, cs[..|cs| - 1]) + [head + [Some(Last(cs).drug), Some(Last(cs).confidence)]]
  }

  /**
    The rows of one record: a row per call of its first drug list, or the bare head when
    the record has no drug list or an empty one.
  */
  function RecordRows(gene: string, r: Resistance.NucRecord): seq<Row>
    requires |r.fields| == 7
  {
    if |r.drugLists| == 0 || r.drugLists[0] == [] then [HeadRow(gene, r)]
    else CallRows(HeadRow(gene, r), r.drugLists[0])
  }

  function RecordsRows(gene: string, rs: seq<Resistance.NucRecord>): seq<Row>
    requires forall j :: 0 <= j < |rs| ==> |rs[j].fields| == 7
  {
    if rs == [] then [] else RecordsRows(gene, rs[..|rs| - 1]) + RecordRows(gene, rs[|rs| - 1])
  }

  /** The whole mutation table: the rows of every group's records, group after group. */
  function GroupRows(gs: seq<Resistance.GeneGroup>): seq<Row>
    requires forall i :: 0 <= i < |gs| ==> SevenFields(gs[i])
  {
    if gs == [] then []
    else
      var g := gs[|gs| - 1];
      assert SevenFields(g);
      GroupRows(gs[..|gs| - 1]) + RecordsRows(g.gene, g.records)
  }

  /** `[name, depth, percent]` of each named region (coverage entry or gap), the numbers printed with `fmt`. */
  function NamedRows(rs: seq<Coverage.NamedRegion>, fmt: real -> string): (rows: seq<Row>)
    ensures |rows| == |rs|
    ensures forall i :: 0 <= i < |rs| ==>
              rows[i] == [Some(rs[i].name), Some(fmt(rs[i].value.depth)), Some(fmt(rs[i].value.percent))]
  {
    seq(|rs|, i requires 0 <= i < |rs| =>
      [Some(rs[i].name), Some(fmt(rs[i].value.depth)), Some(fmt(rs[i].value.percent))])
  }

  // ---------------------------------------------------------------------------
  // Generic facts.

  lemma {:induction false} AllFromForall<T>(s: seq<T>, p: T -> bool)
    requires forall i :: 0 <= i < |s| ==> p(s[i])
    ensures All(s, p)
  {
    if s != [] {
      AllFromForall(s[..|s| - 1], p);
    }
  }

  lemma FlattenOne<T>(x: seq<T>)
    ensures Flatten([x]) == x
  {
    assert [x][..0] == [];
    EmptyAppend(x);
  }

  /** Searching two children: the first has priority. */
  lemma FindInPair(a: Element, b: Element, tag: string)
    ensures FindIn([a, b], tag) == if a.tag == tag then Some(a) else if b.tag == tag then Some(b) else None
  {
    assert [b][1..] == [];
    assert FindIn([b], tag) == if b.tag == tag then Some(b) else None;
    assert [a, b][1..] == [b];
  }

  // ---------------------------------------------------------------------------
  // Element by element.

  /** A region element is readable and reads back as its name, depth and percent. */
  lemma RegionElementRead(name: string, depth: string, percent: string)
    ensures RegionReadable(RegionElement(name, depth, percent))
    ensures RegionRow(RegionElement(name, depth, percent)) == [Some(name), Some(depth), Some(percent)]
  {
    FindInPair(Leaf("depth", depth), Leaf("percent", percent), "depth");
    FindInPair(Leaf("depth", depth), Leaf("percent", percent), "percent");
  }

  /** A resistance element reads back as its drug and confidence. */
  lemma ResistanceElementRead(c: Resistance.DrugCall)
    ensures ResistanceReadable(ResistanceElement(c))
    ensures TextOf(ResistanceElement(c), "drug") == Some(c.drug)
    ensures TextOf(ResistanceElement(c), "confidence") == Some(c.confidence)
  {
    FindInPair(Leaf("drug", c.drug), Leaf("confidence", c.confidence), "drug");
    FindInPair(Leaf("drug", c.drug), Leaf("confidence", c.confidence), "confidence");
  }

  lemma {:induction false} ResistanceRowsOfCalls(head: Row, cs: seq<Resistance.DrugCall>)
    ensures ResistanceRows(head, ResistanceElements(cs)) == CallRows(head, cs)
  {
    if cs != [] {
      var n := |cs| - 1;
      assert ResistanceElements(cs)[..n] == ResistanceElements(cs[..n]);
      ResistanceRowsOfCalls(head, cs[..n]);
      ResistanceElementRead(cs[n]);
    }
  }

  lemma NuchangeElementReadable(r: Resistance.NucRecord)
    requires |r.fields| == 7
    ensures NuchangeReadable(NuchangeElement(r))
  {
    NuchangeResistances(r);
    var rs := RecordResistances(r);
    forall k | 0 <= k < |rs|
      ensures ResistanceReadable(rs[k])
    {
      ResistanceElementRead(r.drugLists[0][k]);
    }
    AllFromForall(rs, ResistanceReadable);
  }

  /** A nuchange element is printed as the rows of its record. */
  lemma NuchangeRead(gene: string, r: Resistance.NucRecord)
    requires |r.fields| == 7
    ensures NuchangeRows(Some(gene), NuchangeElement(r)) == RecordRows(gene, r)
  {
    NuchangeResistances(r);
    assert Head(Some(gene), NuchangeElement(r)) == HeadRow(gene, r);
    if |r.drugLists| > 0 {
      ResistanceRowsOfCalls(HeadRow(gene, r), r.drugLists[0]);
    }
  }

  lemma {:induction false} NuchangesRead(gene: string, rs: seq<Resistance.NucRecord>)
    requires forall j :: 0 <= j < |rs| ==> |rs[j].fields| == 7
    ensures NuchangesRows(Some(gene), NuchangeElements(rs)) == RecordsRows(gene, rs)
  {
    if rs != [] {
      var n := |rs| - 1;
      assert NuchangeElements(rs)[..n] == NuchangeElements(rs[..n]);
      NuchangesRead(gene, rs[..n]);
      NuchangeRead(gene, rs[n]);
    }
  }

  /** `findall('nuchange')` on an snp element yields one nuchange per record, in order. */
  lemma SnpNuchanges(g: Resistance.GeneGroup)
    requires SevenFields(g)
    ensures FindAll(SnpElement(g), "nuchange") == NuchangeElements(g.records)
  {
    FilterTagAll(NuchangeElements(g.records), "nuchange");
  }

  lemma SnpElementReadable(g: Resistance.GeneGroup)
    requires SevenFields(g)
    ensures SnpReadable(SnpElement(g))
  {
    SnpNuchanges(g);
    var ns := NuchangeElements(g.records);
    forall j | 0 <= j < |ns|
      ensures NuchangeReadable(ns[j])
    {
      NuchangeElementReadable(g.records[j]);
    }
    AllFromForall(ns, NuchangeReadable);
  }

  /** The snp elements of the mutations section are printed as the rows of their groups. */
  lemma {:induction false} SnpsRead(gs: seq<Resistance.GeneGroup>)
    requires forall i :: 0 <= i < |gs| ==> SevenFields(gs[i])
    ensures SnpsReadable(SnpElements(gs))
    ensures SnpsRows(SnpElements(gs)) == GroupRows(gs)
  {
    if gs != [] {
      var n := |gs| - 1;
      assert SnpElements(gs)[..n] == SnpElements(gs[..n]);
      SnpsRead(gs[..n]);
      SnpElementReadable(gs[n]);
      SnpNuchanges(gs[n]);
      NuchangesRead(gs[n].gene, gs[n].records);
    }
  }

  // ---------------------------------------------------------------------------
  // Section by section.

  lemma FilterTagPair(a: Element, b: Element, tag: string)
    ensures FilterTag([a, b], tag) == (if a.tag == tag then [a] else []) + (if b.tag == tag then [b] else [])
  {
    assert [a, b][..1] == [a];
    assert [a][..0] == [];
  }

  /** The path `a/b` from the document root, with `a` a fixed section: the `b` children of that section. */
  lemma SectionPath(sampleId: string, date: string, lineage: seq<Element>, coverage: seq<Element>,
                    gaps: seq<Element>, deletions: seq<Element>, mutations: seq<Element>,
                    lowQuality: seq<seq<Element>>, i: nat, b: string)
    requires i < |SkeletonTags|
    ensures PathMatches(Document(sampleId, date, lineage, coverage, gaps, deletions, mutations, lowQuality), SkeletonTags[i], b)
            == FindAll(Skeleton(sampleId, date, lineage, coverage, gaps, deletions, mutations)[i], b)
  {
    DocumentFindAll(sampleId, date, lineage, coverage, gaps, deletions, mutations, lowQuality, i);
    var parent := Skeleton(sampleId, date, lineage, coverage, gaps, deletions, mutations)[i];
    var parents := FindAll(Document(sampleId, date, lineage, coverage, gaps, deletions, mutations, lowQuality), SkeletonTags[i]);
    assert parents == [parent];
    assert seq(|parents|, k requires 0 <= k < |parents| => FindAll(parents[k], b)) == [FindAll(parent, b)];
    FlattenOne(FindAll(parent, b));
  }

  /** Whatever the sections hold, the reader finds the title, the date, the sample id and the pipeline. */
  lemma HeaderRead(sampleId: string, date: string, lineage: seq<Element>, coverage: seq<Element>,
                   gaps: seq<Element>, deletions: seq<Element>, mutations: seq<Element>,
                   lowQuality: seq<seq<Element>>)
    ensures var doc := Document(sampleId, date, lineage, coverage, gaps, deletions, mutations, lowQuality);
            && TextOf(doc, "title") == Some(Title)
            && TextOf(doc, "date") == Some(date)
            && TextOf(doc, "sample_id") == Some(sampleId)
            && FindPath(doc, "pipeline", "name") == Some(Leaf("name", PipelineName))
            && FindPath(doc, "pipeline", "version") == Some(Leaf("version", PipelineVersion))
  {
    DocumentFind(sampleId, date, lineage, coverage, gaps, deletions, mutations, lowQuality, 0);
    DocumentFind(sampleId, date, lineage, coverage, gaps, deletions, mutations, lowQuality, 1);
    DocumentFind(sampleId, date, lineage, coverage, gaps, deletions, mutations, lowQuality, 2);
    SectionPath(sampleId, date, lineage, coverage, gaps, deletions, mutations, lowQuality, 3, "name");
    SectionPath(sampleId, date, lineage, coverage, gaps, deletions, mutations, lowQuality, 3, "version");
    FilterTagPair(Leaf("name", PipelineName), Leaf("version", PipelineVersion), "name");
    FilterTagPair(Leaf("name", PipelineName), Leaf("version", PipelineVersion), "version");
  }

  /** The lineage section `report_lineage` fills is read back as its code and name. */
  lemma LineageRead(sampleId: string, date: string, code: string, name: string, coverage: seq<Element>,
                    gaps: seq<Element>, deletions: seq<Element>, mutations: seq<Element>,
                    lowQuality: seq<seq<Element>>)
    ensures var doc := Document(sampleId, date, [Leaf("code", code), Leaf("name", name)], coverage, gaps, deletions, mutations, lowQuality);
            && FindPath(doc, "lineage", "code") == Some(Leaf("code", code))
            && FindPath(doc, "lineage", "name") == Some(Leaf("name", name))
  {
    var lineage := [Leaf("code", code), Leaf("name", name)];
    SectionPath(sampleId, date, lineage, coverage, gaps, deletions, mutations, lowQuality, 4, "code");
    SectionPath(sampleId, date, lineage, coverage, gaps, deletions, mutations, lowQuality, 4, "name");
    FilterTagPair(Leaf("code", code), Leaf("name", name), "code");
    FilterTagPair(Leaf("code", code), Leaf("name", name), "name");
  }

  /** The coverage section is read back as the whole-genome row followed by one row per entry, in order. */
  lemma CoverageRead(genome: seq<string>, entries: seq<Coverage.CoverageEntry>, fmt: real -> string)
    requires |genome| >= 2
    ensures RegionsReadable([RegionElement("whole_genome", genome[0], genome[1])] + RegionElements(entries, fmt))
    ensures RegionRows([RegionElement("whole_genome", genome[0], genome[1])] + RegionElements(entries, fmt))
            == [[Some("whole_genome"), Some(genome[0]), Some(genome[1])]] + NamedRows(entries, fmt)
  {
    var cov := [RegionElement("whole_genome", genome[0], genome[1])] + RegionElements(entries, fmt);
    var rows := [[Some("whole_genome"), Some(genome[0]), Some(genome[1])]] + NamedRows(entries, fmt);
    forall i | 0 <= i < |cov|
      ensures RegionReadable(cov[i]) && RegionRow(cov[i]) == rows[i]
    {
      if i == 0 {
        RegionElementRead("whole_genome", genome[0], genome[1]);
      } else {
        var e := entries[i - 1];
        RegionElementRead(e.name, fmt(e.value.depth), fmt(e.value.percent));
      }
    }
    AllFromForall(cov, RegionReadable);
    RegionRowsPointwise(cov);
  }

  /** The coverage-gaps section is read back as one row per gap, in order. */
  lemma GapsRead(gaps: seq<Coverage.Gap>, fmt: real -> string)
    ensures RegionsReadable(RegionElements(gaps, fmt))
    ensures RegionRows(RegionElements(gaps, fmt)) == NamedRows(gaps, fmt)
  {
    var es := RegionElements(gaps, fmt);
    forall i | 0 <= i < |es|
      ensures RegionReadable(es[i]) && RegionRow(es[i]) == NamedRows(gaps, fmt)[i]
    {
      RegionElementRead(gaps[i].name, fmt(gaps[i].value.depth), fmt(gaps[i].value.percent));
    }
    AllFromForall(es, RegionReadable);
    RegionRowsPointwise(es);
  }

  /**
    The deletions section reads back as one None per deletion: the assembler puts the
    gene in an attribute and the type in a child, and never sets the text the reader takes.
  */
  lemma DeletionsRead(ds: seq<Coverage.Deletion>)
    ensures |DeletionTexts(DeletionElements(ds))| == |ds|
    ensures forall i :: 0 <= i < |ds| ==> DeletionTexts(DeletionElements(ds))[i] == None
  {
    DeletionTextsPointwise(DeletionElements(ds));
  }

  /** `iterfind('mutations/snp')` yields exactly the snp elements of the mutations section. */
  lemma SnpsOfDocument(sampleId: string, date: string, lineage: seq<Element>, coverage: seq<Element>,
                       gaps: seq<Element>, deletions: seq<Element>, gs: seq<Resistance.GeneGroup>,
                       lowQuality: seq<seq<Element>>)
    requires forall i :: 0 <= i < |gs| ==> SevenFields(gs[i])
    ensures Snps(Document(sampleId, date, lineage, coverage, gaps, deletions, SnpElements(gs), lowQuality)) == SnpElements(gs)
  {
    SectionPath(sampleId, date, lineage, coverage, gaps, deletions, SnpElements(gs), lowQuality, 8, "snp");
    FilterTagAll(SnpElements(gs), "snp");
  }

  // ---------------------------------------------------------------------------
  // The whole report.

  /**
    The document a fresh report holds once every section has been added once: the lineage's
    code and name, the whole genome and the coverage entries, the gaps, the deletions, the
    groups, and any number of low-quality sections.
  */
  function Assembled(sampleId: string, date: string, code: string, name: string, genome: seq<string>,
                     entries: seq<Coverage.CoverageEntry>, gaps: seq<Coverage.Gap>, dels: seq<Coverage.Deletion>,
                     gs: seq<Resistance.GeneGroup>, lowQuality: seq<seq<Element>>, fmt: real -> string): Element
    requires |genome| >= 2
    requires forall i :: 0 <= i < |gs| ==> SevenFields(gs[i])
  {
    Document(sampleId, date, [Leaf("code", code), Leaf("name", name)],
             [RegionElement("whole_genome", genome[0], genome[1])] + RegionElements(entries, fmt),
             RegionElements(gaps, fmt), DeletionElements(dels), SnpElements(gs), lowQuality)
  }

  /**
    The reader accepts an assembled document and reads back the header it was given, the
    coverage rows, the gap rows, no deletion texts, and the mutation rows of the groups.
  */
  lemma ReadBack(sampleId: string, date: string, code: string, name: string, genome: seq<string>,
                 entries: seq<Coverage.CoverageEntry>, gaps: seq<Coverage.Gap>, dels: seq<Coverage.Deletion>,
                 gs: seq<Resistance.GeneGroup>, lowQuality: seq<seq<Element>>, fmt: real -> string)
    requires |genome| >= 2
    requires forall i :: 0 <= i < |gs| ==> SevenFields(gs[i])
    ensures var doc := Assembled(sampleId, date, code, name, genome, entries, gaps, dels, gs, lowQuality, fmt);
            && Readable(doc)
            && TextOf(doc, "title") == Some(Title) && TextOf(doc, "date") == Some(date)
            && TextOf(doc, "sample_id") == Some(sampleId)
            && FindPath(doc, "pipeline", "name").value.text == Some(PipelineName)
            && FindPath(doc, "pipeline", "version").value.text == Some(PipelineVersion)
            && FindPath(doc, "lineage", "code").value.text == Some(code)
            && FindPath(doc, "lineage", "name").value.text == Some(name)
            && RegionRows(Find(doc, "coverage").value.children)
               == [[Some("whole_genome"), Some(genome[0]), Some(genome[1])]] + NamedRows(entries, fmt)
            && Find(doc, "coverage_gaps").Some?
            && RegionsReadable(Find(doc, "coverage_gaps").value.children)
            && RegionRows(Find(doc, "coverage_gaps").value.children) == NamedRows(gaps, fmt)
            && |DeletionTexts(Find(doc, "deletions").value.children)| == |dels|
            && (forall i :: 0 <= i < |dels| ==> DeletionTexts(Find(doc, "deletions").value.children)[i] == None)
            && SnpsRows(Snps(doc)) == GroupRows(gs)
  {
    var lineage := [Leaf("code", code), Leaf("name", name)];
    var coverage := [RegionElement("whole_genome", genome[0], genome[1])] + RegionElements(entries, fmt);
    var gapElements := RegionElements(gaps, fmt);
    var deletions := DeletionElements(dels);
    var mutations := SnpElements(gs);
    HeaderRead(sampleId, date, lineage, coverage, gapElements, deletions, mutations, lowQuality);
    LineageRead(sampleId, date, code, name, coverage, gapElements, deletions, mutations, lowQuality);
    DocumentFind(sampleId, date, lineage, coverage, gapElements, deletions, mutations, lowQuality, 5);
    DocumentFind(sampleId, date, lineage, coverage, gapElements, deletions, mutations, lowQuality, 6);
    DocumentFind(sampleId, date, lineage, coverage, gapElements, deletions, mutations, lowQuality, 7);
    CoverageRead(genome, entries, fmt);
    GapsRead(gaps, fmt);
    DeletionsRead(dels);
    SnpsOfDocument(sampleId, date, lineage, coverage, gapElements, deletions, gs, lowQuality);
    SnpsRead(gs);
  }

  /** The matcher's groups can be handed to `add_mutation_list_section`: every record has seven fields. */
  lemma MatchedGroupsAssemblable(ts: seq<SA.IsolateMutation>, refs: seq<MT.Mutation>)
    requires ts == [] || ts[0].gene != Resistance.Sentinel
    ensures forall i :: 0 <= i < |Resistance.Scan(ts, refs).result| ==> SevenFields(Resistance.Scan(ts, refs).result[i])
  {
    var gs := Resistance.Scan(ts, refs).result;
    Resistance.ScanIsMatchedGroups(ts, refs);
    Resistance.MatchedGroupsWellFormed(ts, refs);
    forall i | 0 <= i < |gs|
      ensures SevenFields(gs[i])
    {
      assert gs[i] in Resistance.MatchedGroups(ts, refs);
      forall j | 0 <= j < |gs[i].records|
        ensures |gs[i].records[j].fields| == 7
      {
        assert gs[i].records[j] in gs[i].records;
      }
    }
  }

  /** The first half of the assembler's main sequence on a fresh report: lineage, coverage and gaps. */
  method WriteCoverage(sampleId: string, date: string, lineageLine: string, genome: seq<string>,
                       entries: seq<Coverage.CoverageEntry>, gaps: seq<Coverage.Gap>, fmt: real -> string)
    returns (report: SurveillanceReport)
    requires |LineageFields(lineageLine)| > 3 && |genome| >= 2
    ensures fresh(report) && report.sampleId == sampleId && report.date == date
    ensures report.lineage == [Leaf("code", LineageFields(lineageLine)[3]), Leaf("name", LineageFields(lineageLine)[2])]
    ensures report.coverage == [RegionElement("whole_genome", genome[0], genome[1])] + RegionElements(entries, fmt)
    ensures report.coverageGaps == RegionElements(gaps, fmt)
    ensures report.deletions == [] && report.mutations == [] && report.lowQualitySegments == []
  {
    report := new SurveillanceReport(sampleId, date);
    report.ReportLineage(lineageLine);
    report.AddCoverageSection(entries, genome, fmt);
    report.AddCoverageGapsSection(gaps, fmt);
    EmptyAppend(report.coverage);
    EmptyAppend(report.coverageGaps);
  }

  /**
    The assembler's main sequence on a fresh report: lineage, coverage, gaps, deletions,
    mutations, then the low-quality segments.
  */
  method Write(sampleId: string, date: string, lineageLine: string, genome: seq<string>,
               entries: seq<Coverage.CoverageEntry>, gaps: seq<Coverage.Gap>, dels: seq<Coverage.Deletion>,
               gs: seq<Resistance.GeneGroup>, lowQuals: seq<seq<string>>, fmt: real -> string)
    returns (report: SurveillanceReport)
    requires |LineageFields(lineageLine)| > 3 && |genome| >= 2
    requires forall i :: 0 <= i < |gs| ==> SevenFields(gs[i])
    requires forall i :: 0 <= i < |lowQuals| ==> |lowQuals[i]| >= 5
    ensures fresh(report) && report.sampleId == sampleId && report.date == date
    ensures report.lineage == [Leaf("code", LineageFields(lineageLine)[3]), Leaf("name", LineageFields(lineageLine)[2])]
    ensures report.coverage == [RegionElement("whole_genome", genome[0], genome[1])] + RegionElements(entries, fmt)
    ensures report.coverageGaps == RegionElements(gaps, fmt)
    ensures report.deletions == DeletionElements(dels)
    ensures report.mutations == SnpElements(gs)
    ensures report.lowQualitySegments == [SegmentElements(lowQuals)]
  {
    report := WriteCoverage(sampleId, date, lineageLine, genome, entries, gaps, fmt);
    report.AddDeletionsSection(dels);
    report.AddMutationListSection(gs);
    report.AddLowQualitySection(lowQuals);
    EmptyAppend(report.deletions);
    EmptyAppend(report.mutations);
    EmptyAppend(report.lowQualitySegments);
  }

  /**
    A report written by the assembler's main sequence and read back by the reader's
    constructor: every field the reader fills is determined by what was written.
  */
  method WriteThenRead(sampleId: string, date: string, lineageLine: string, genome: seq<string>,
                       entries: seq<Coverage.CoverageEntry>, gaps: seq<Coverage.Gap>, dels: seq<Coverage.Deletion>,
                       gs: seq<Resistance.GeneGroup>, lowQuals: seq<seq<string>>, fmt: real -> string)
    returns (printable: PrintableReport)
    requires |LineageFields(lineageLine)| > 3 && |genome| >= 2
    requires forall i :: 0 <= i < |gs| ==> SevenFields(gs[i])
    requires forall i :: 0 <= i < |lowQuals| ==> |lowQuals[i]| >= 5
    ensures printable.title == Some(Title) && printable.testDate == Some(date) && printable.sampleId == Some(sampleId)
    ensures printable.pipelineName == Some(PipelineName) && printable.pipelineVersion == Some(PipelineVersion)
    ensures printable.lineageCode == Some(LineageFields(lineageLine)[3])
    ensures printable.lineageName == Some(LineageFields(lineageLine)[2])
    ensures printable.coverageMap == [[Some("whole_genome"), Some(genome[0]), Some(genome[1])]] + NamedRows(entries, fmt)
    ensures printable.gapMap == []
    ensures |printable.deleteList| == |dels| && forall i :: 0 <= i < |dels| ==> printable.deleteList[i] == None
    ensures printable.mutationList == GroupRows(gs)
  {
    var report := Write(sampleId, date, lineageLine, genome, entries, gaps, dels, gs, lowQuals, fmt);
    assert report.Page() == Assembled(sampleId, date, LineageFields(lineageLine)[3], LineageFields(lineageLine)[2],
                                      genome, entries, gaps, dels, gs, [SegmentElements(lowQuals)], fmt);
    ReadBack(sampleId, date, LineageFields(lineageLine)[3], LineageFields(lineageLine)[2],
             genome, entries, gaps, dels, gs, [SegmentElements(lowQuals)], fmt);
    printable := new PrintableReport(report.Page());
  }
}
