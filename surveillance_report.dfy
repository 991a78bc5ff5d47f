/**
  The report assembler (surveillance_report.py): a fixed document skeleton whose
  section elements the `add_*` methods fill, in input order. Numbers are printed with
  `fmt`, which stands for Python's `str()` of a float.
*/
module Report {
  import opened Wrappers
  import opened Strings
  import opened ElementTree
  import Coverage
  import Resistance

  const Title: string := "Sample Surveillance Report"
  const PipelineName: string := "UVP"
  const PipelineVersion: string := "1.1"

  /** The tags of the document's fixed children, in order. */
  const SkeletonTags: seq<string> :=
    ["title", "sample_id", "date", "pipeline", "lineage", "coverage", "coverage_gaps", "deletions", "mutations"]

  /** The nine fixed children of the document, from the contents of its sections. */
  function Skeleton(sampleId: string, date: string, lineage: seq<Element>, coverage: seq<Element>,
                    gaps: seq<Element>, deletions: seq<Element>, mutations: seq<Element>): (r: seq<Element>)
    ensures |r| == |SkeletonTags| && forall i :: 0 <= i < |r| ==> r[i].tag == SkeletonTags[i]
  {
    [Leaf("title", Title), Leaf("sample_id", sampleId), Leaf("date", date),
     Node("pipeline", map[], [Leaf("name", PipelineName), Leaf("version", PipelineVersion)]),
     Node("lineage", map[], lineage), Node("coverage", map[], coverage),
     Node("coverage_gaps", map[], gaps), Node("deletions", map[], deletions),
     Node("mutations", map[], mutations)]
  }

  /** A `low_quality` section per list of segment elements. */
  function LowQualityElements(sections: seq<seq<Element>>): (r: seq<Element>)
    ensures |r| == |sections|
    ensures forall i :: 0 <= i < |sections| ==> r[i] == Node("low_quality", map[], sections[i])
  {
    seq(|sections|, i requires 0 <= i < |sections| => Node("low_quality", map[], sections[i]))
  }

  /** The whole document: the skeleton, then one `low_quality` section per call that added one. */
  function Document(sampleId: string, date: string, lineage: seq<Element>, coverage: seq<Element>,
                    gaps: seq<Element>, deletions: seq<Element>, mutations: seq<Element>,
                    lowQuality: seq<seq<Element>>): (d: Element)
    ensures d.tag == "surveillance_report" && d.text == None
    ensures |d.children| == |SkeletonTags| + |lowQuality|
    ensures forall i :: 0 <= i < |SkeletonTags| ==> d.children[i].tag == SkeletonTags[i]
    ensures forall i :: |SkeletonTags| <= i < |d.children| ==> d.children[i].tag == "low_quality"
  {
    Node("surveillance_report", map[],
         Skeleton(sampleId, date, lineage, coverage, gaps, deletions, mutations) + LowQualityElements(lowQuality))
  }

  /** The fixed tags are pairwise distinct. */
  lemma SkeletonTagsDistinct(i: nat, j: nat)
    requires i < j < |SkeletonTags|
    ensures SkeletonTags[i] != SkeletonTags[j]
  {
  }

  /** `find` on any fixed tag reaches that section of the skeleton, whatever follows it. */
  lemma DocumentFind(sampleId: string, date: string, lineage: seq<Element>, coverage: seq<Element>,
                     gaps: seq<Element>, deletions: seq<Element>, mutations: seq<Element>,
                     lowQuality: seq<seq<Element>>, i: nat)
    requires i < |SkeletonTags|
    ensures Find(Document(sampleId, date, lineage, coverage, gaps, deletions, mutations, lowQuality), SkeletonTags[i])
            == Some(Skeleton(sampleId, date, lineage, coverage, gaps, deletions, mutations)[i])
  {
    var fixed := Skeleton(sampleId, date, lineage, coverage, gaps, deletions, mutations);
    var rest := LowQualityElements(lowQuality);
    FindInAppend(fixed, rest, SkeletonTags[i]);
    var found := FindIn(fixed, SkeletonTags[i]);
    assert found.Some? by {
      FindInNone(fixed, SkeletonTags[i]);
      assert fixed[i].tag == SkeletonTags[i];
    }
    var j := FindInFirst(fixed, SkeletonTags[i]);
    if j < i {
      SkeletonTagsDistinct(j, i);
    }
  }

  /** `findall` on any fixed tag yields exactly that one section: no other child shares its tag. */
  lemma DocumentFindAll(sampleId: string, date: string, lineage: seq<Element>, coverage: seq<Element>,
                        gaps: seq<Element>, deletions: seq<Element>, mutations: seq<Element>,
                        lowQuality: seq<seq<Element>>, i: nat)
    requires i < |SkeletonTags|
    ensures FindAll(Document(sampleId, date, lineage, coverage, gaps, deletions, mutations, lowQuality), SkeletonTags[i])
            == [Skeleton(sampleId, date, lineage, coverage, gaps, deletions, mutations)[i]]
  {
    var tag := SkeletonTags[i];
    var fixed := Skeleton(sampleId, date, lineage, coverage, gaps, deletions, mutations);
    var rest := LowQualityElements(lowQuality);
    FilterTagAppend(fixed, rest, tag);
    FilterTagNone(rest, tag);
    forall j | 0 <= j < |fixed| && j != i
      ensures fixed[j].tag != tag
    {
      if j < i {
        SkeletonTagsDistinct(j, i);
      } else {
        SkeletonTagsDistinct(i, j);
      }
    }
    FilterTagUnique(fixed, tag, i);
  }

  // ---------------------------------------------------------------------------
  // The elements each section builder appends.

  /** A `gene` element of the coverage or gap sections. */
  function RegionElement(name: string, depth: string, percent: string): Element
  {
    Node("gene", map["name" := name], [Leaf("depth", depth), Leaf("percent", percent)])
  }

  /** The `gene` elements of a sequence of named regions, one per region in order, the numbers printed with `fmt`. */
  function RegionElements(rs: seq<Coverage.NamedRegion>, fmt: real -> string): (r: seq<Element>)
    ensures |r| == |rs|
    ensures forall i :: 0 <= i < |rs| ==>
              r[i] == RegionElement(rs[i].name, fmt(rs[i].value.depth), fmt(rs[i].value.percent))
  {
    seq(|rs|, i requires 0 <= i < |rs| =>
      RegionElement(rs[i].name, fmt(rs[i].value.depth), fmt(rs[i].value.percent)))
  }

  /** A `loci` element: the gene as an attribute and the deletion type as a child; no text. */
  function DeletionElement(d: Coverage.Deletion): Element
  {
    Node("loci", map["name" := d.gene], [Leaf("type", d.kind)])
  }

  function DeletionElements(ds: seq<Coverage.Deletion>): (r: seq<Element>)
    ensures |r| == |ds| && forall i :: 0 <= i < |ds| ==> r[i] == DeletionElement(ds[i])
  {
    seq(|ds|, i requires 0 <= i < |ds| => DeletionElement(ds[i]))
  }

  function ResistanceElement(c: Resistance.DrugCall): Element
  {
    Node("resistance", map[], [Leaf("drug", c.drug), Leaf("confidence", c.confidence)])
  }

  function ResistanceElements(cs: seq<Resistance.DrugCall>): (r: seq<Element>)
    ensures |r| == |cs| && forall i :: 0 <= i < |cs| ==> r[i] == ResistanceElement(cs[i])
  {
    seq(|cs|, i requires 0 <= i < |cs| => ResistanceElement(cs[i]))
  }

  /** The tags of the five leaves of a `nuchange` element, in order. */
  const LeafTags: seq<string> := ["annotation", "codonpos", "refpos", "refnuc", "altnuc"]

  /** The record field each of those leaves carries. */
  const LeafSources: seq<nat> := [5, 6, 2, 3, 4]

  /** The five leaves of a `nuchange` element, from fields 5, 6, 2, 3 and 4 of a seven-field record. */
  function RecordLeaves(r: Resistance.NucRecord): (leaves: seq<Element>)
    requires |r.fields| == 7
    ensures |leaves| == 5
    ensures forall i :: 0 <= i < 5 ==> leaves[i] == Leaf(LeafTags[i], r.fields[LeafSources[i]])
    ensures forall i :: 0 <= i < 5 ==> leaves[i].tag != "resistance"
  {
    [Leaf("annotation", r.fields[5]), Leaf("codonpos", r.fields[6]), Leaf("refpos", r.fields[2]),
     Leaf("refnuc", r.fields[3]), Leaf("altnuc", r.fields[4])]
  }

  /**
    One `resistance` per call of Python's `record[7]`, the record's first drug list; none
    when the record has no drug list and the indexing raises IndexError.
  */
  function RecordResistances(r: Resistance.NucRecord): (rs: seq<Element>)
    ensures |r.drugLists| > 0 ==> |rs| == |r.drugLists[0]|
    ensures |r.drugLists| == 0 ==> rs == []
    ensures forall i :: 0 <= i < |rs| ==> rs[i].tag == "resistance"
  {
    if |r.drugLists| > 0 then ResistanceElements(r.drugLists[0]) else []
  }

  /** A `nuchange` element: name and aachange attributes, five leaves, then the resistances. */
  function NuchangeElement(r: Resistance.NucRecord): Element
    requires |r.fields| == 7
  {
    Node("nuchange", map["name" := r.fields[0], "aachange" := r.fields[1]], RecordLeaves(r) + RecordResistances(r))
  }

  predicate SevenFields(g: Resistance.GeneGroup)
  {
    forall j :: 0 <= j < |g.records| ==> |g.records[j].fields| == 7
  }

  function NuchangeElements(rs: seq<Resistance.NucRecord>): (r: seq<Element>)
    requires forall j :: 0 <= j < |rs| ==> |rs[j].fields| == 7
    ensures |r| == |rs| && forall j :: 0 <= j < |rs| ==> r[j] == NuchangeElement(rs[j])
  {
    seq(|rs|, j requires 0 <= j < |rs| => NuchangeElement(rs[j]))
  }

  /** An `snp` element: the gene as an attribute and one `nuchange` per record. */
  function SnpElement(g: Resistance.GeneGroup): Element
    requires SevenFields(g)
  {
    Node("snp", map["gene" := g.gene], NuchangeElements(g.records))
  }

  function SnpElements(gs: seq<Resistance.GeneGroup>): (r: seq<Element>)
    requires forall i :: 0 <= i < |gs| ==> SevenFields(gs[i])
    ensures |r| == |gs| && forall i :: 0 <= i < |gs| ==> r[i] == SnpElement(gs[i])
  {
    seq(|gs|, i requires 0 <= i < |gs| => SnpElement(gs[i]))
  }

  /** A `segment` element: `refpos` from field 1, then ref, alt and qual_det from fields 2 to 4. */
  function SegmentElement(s: seq<string>): Element
    requires |s| >= 5
  {
    Node("segment", map["refpos" := s[1]], [Leaf("ref", s[2]), Leaf("alt", s[3]), Leaf("qual_det", s[4])])
  }

  function SegmentElements(ss: seq<seq<string>>): (r: seq<Element>)
    requires forall i :: 0 <= i < |ss| ==> |ss[i]| >= 5
    ensures |r| == |ss| && forall i :: 0 <= i < |ss| ==> r[i] == SegmentElement(ss[i])
  {
    seq(|ss|, i requires 0 <= i < |ss| => SegmentElement(ss[i]))
  }

  /** The tab-separated fields of the lineage report's data line, after stripping. */
  function LineageFields(line: string): seq<string>
  {
    Split(Strip(line), '\t')
  }

  /** `findall('resistance')` on a `nuchange` element yields exactly the calls of the record's first drug list. */
  lemma NuchangeResistances(r: Resistance.NucRecord)
    requires |r.fields| == 7
    ensures FindAll(NuchangeElement(r), "resistance") == RecordResistances(r)
  {
    FilterTagAppend(RecordLeaves(r), RecordResistances(r), "resistance");
    FilterTagNone(RecordLeaves(r), "resistance");
    FilterTagAll(RecordResistances(r), "resistance");
  }

  /** The outer loop body of `add_mutation_list_section`: the `snp` element of one gene group. */
  method BuildSnp(resistance: Resistance.GeneGroup) returns (snp: Element)
    requires SevenFields(resistance)
    ensures snp == SnpElement(resistance)
  {
    var nuchanges: seq<Element> := [];
    for index := 0 to |resistance.records|
      invariant nuchanges == NuchangeElements(resistance.records[..index])
    {
      var nuchangeElt := BuildNuchange(resistance.records[index]);
      nuchanges := nuchanges + [nuchangeElt];
    }
    assert resistance.records[..|resistance.records|] == resistance.records;
    snp := Node("snp", map["gene" := resistance.gene], nuchanges);
  }

  /** The inner loop body of `add_mutation_list_section`: the `nuchange` element of one record. */
  method BuildNuchange(resistanceRecord: Resistance.NucRecord) returns (nuchangeElt: Element)
    requires |resistanceRecord.fields| == 7
    ensures nuchangeElt == NuchangeElement(resistanceRecord)
  {
    var children := [Leaf("annotation", resistanceRecord.fields[5]), Leaf("codonpos", resistanceRecord.fields[6]),
                     Leaf("refpos", resistanceRecord.fields[2]), Leaf("refnuc", resistanceRecord.fields[3]),
                     Leaf("altnuc", resistanceRecord.fields[4])];
    ghost var leaves := children;
    if |resistanceRecord.drugLists| > 0 {
      var drugs := resistanceRecord.drugLists[0];
      for k := 0 to |drugs|
        invariant |children| == 5 + k && children[..5] == leaves
        invariant children[5..] == ResistanceElements(drugs[..k])
      {
        var drug := drugs[k];
        children := children + [Node("resistance", map[], [Leaf("drug", drug.drug), Leaf("confidence", drug.confidence)])];
      }
      assert drugs[..|drugs|] == drugs;
      assert children == children[..5] + children[5..];
    } else {
      assert children == leaves + [];
    }
    nuchangeElt := Node("nuchange", map["name" := resistanceRecord.fields[0], "aachange" := resistanceRecord.fields[1]],
                        children);
  }

  /** Python's `SurveillanceReport`: the document under construction. */
  class SurveillanceReport {
    const sampleId: string
    const date: string
    var lineage: seq<Element>
    var coverage: seq<Element>
    var coverageGaps: seq<Element>
    var deletions: seq<Element>
    var mutations: seq<Element>
    /** The segments of each `low_quality` section added so far, in the order added. */
    var lowQualitySegments: seq<seq<Element>>

    /** The document as it stands. */
    function Page(): Element
      reads this
    {
      Document(sampleId, date, lineage, coverage, coverageGaps, deletions, mutations, lowQualitySegments)
    }

    /** The skeleton: title, sample id, the run's `date`, pipeline, and five empty sections. */
    constructor (sampleId: string, date: string)
      ensures this.sampleId == sampleId && this.date == date
      ensures lineage == [] && coverage == [] && coverageGaps == [] && deletions == [] && mutations == []
      ensures lowQualitySegments == []
    {
      this.sampleId := sampleId;
      this.date := date;
      lineage := [];
      coverage := [];
      coverageGaps := [];
      deletions := [];
      mutations := [];
      lowQualitySegments := [];
    }

    /** Python's `report_lineage`: code and name from fields 3 and 2 of the lineage report's second line. */
    method ReportLineage(line: string)
      requires |LineageFields(line)| > 3
      modifies this`lineage
      ensures lineage == old(lineage) + [Leaf("code", LineageFields(line)[3]), Leaf("name", LineageFields(line)[2])]
    {
      var fields := Split(Strip(line), '\t');
      lineage := lineage + [Leaf("code", fields[3])];
      lineage := lineage + [Leaf("name", fields[2])];
    }

    /** Python's `add_coverage_section`: the whole genome first, then one `gene` per entry of the map, in order. */
    method AddCoverageSection(coverageMap: seq<Coverage.CoverageEntry>, genomeCoverage: seq<string>, fmt: real -> string)
      requires |genomeCoverage| >= 2
      modifies this`coverage
      ensures coverage == old(coverage)
                          + [RegionElement("whole_genome", genomeCoverage[0], genomeCoverage[1])]
                          + RegionElements(coverageMap, fmt)
    {
      coverage := coverage + [RegionElement("whole_genome", genomeCoverage[0], genomeCoverage[1])];
      ghost var start := coverage;
      for i := 0 to |coverageMap|
        invariant coverage == start + RegionElements(coverageMap[..i], fmt)
      {
        var entry := coverageMap[i];
        coverage := coverage + [RegionElement(entry.name, fmt(entry.value.depth), fmt(entry.value.percent))];
      }
      assert coverageMap[..|coverageMap|] == coverageMap;
    }

    /** Python's `add_coverage_gaps_section`: one `gene` per gap, in order. */
    method AddCoverageGapsSection(gapMap: seq<Coverage.Gap>, fmt: real -> string)
      modifies this`coverageGaps
      ensures coverageGaps == old(coverageGaps) + RegionElements(gapMap, fmt)
    {
      for i := 0 to |gapMap|
        invariant coverageGaps == old(coverageGaps) + RegionElements(gapMap[..i], fmt)
      {
        var gap := gapMap[i];
        coverageGaps := coverageGaps + [RegionElement(gap.name, fmt(gap.value.depth), fmt(gap.value.percent))];
      }
      assert gapMap[..|gapMap|] == gapMap;
    }

    /** Python's `add_low_quality_section`: a new `low_quality` element at the end of the document. */
    method AddLowQualitySection(lowQualList: seq<seq<string>>)
      requires forall i :: 0 <= i < |lowQualList| ==> |lowQualList[i]| >= 5
      modifies this`lowQualitySegments
      ensures lowQualitySegments == old(lowQualitySegments) + [SegmentElements(lowQualList)]
    {
      var segments: seq<Element> := [];
      for i := 0 to |lowQualList|
        invariant segments == SegmentElements(lowQualList[..i])
      {
        var segment := lowQualList[i];
        segments := segments + [Node("segment", map["refpos" := segment[1]],
                                     [Leaf("ref", segment[2]), Leaf("alt", segment[3]), Leaf("qual_det", segment[4])])];
      }
      assert lowQualList[..|lowQualList|] == lowQualList;
      lowQualitySegments := lowQualitySegments + [segments];
    }

    /** Python's `add_deletions_section`: one `loci` per deletion, in order. */
    method AddDeletionsSection(deletionList: seq<Coverage.Deletion>)
      modifies this`deletions
      ensures deletions == old(deletions) + DeletionElements(deletionList)
    {
      for i := 0 to |deletionList|
        invariant deletions == old(deletions) + DeletionElements(deletionList[..i])
      {
        var delete := deletionList[i];
        deletions := deletions + [Node("loci", map["name" := delete.gene], [Leaf("type", delete.kind)])];
      }
      assert deletionList[..|deletionList|] == deletionList;
    }

    /**
      Python's `add_mutation_list_section`: one `snp` per group and one `nuchange` per
      record; a record without a drug list gets no `resistance` (the caught IndexError).
    */
    method AddMutationListSection(resistanceMutations: seq<Resistance.GeneGroup>)
      requires forall i :: 0 <= i < |resistanceMutations| ==> SevenFields(resistanceMutations[i])
      modifies this`mutations
      ensures mutations == old(mutations) + SnpElements(resistanceMutations)
    {
      for i := 0 to |resistanceMutations|
        invariant mutations == old(mutations) + SnpElements(resistanceMutations[..i])
      {
        var snp := BuildSnp(resistanceMutations[i]);
        mutations := mutations + [snp];
      }
      assert resistanceMutations[..|resistanceMutations|] == resistanceMutations;
    }
  }
}
