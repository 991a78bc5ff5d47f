# mutation_report, modelled in Dafny

This project models the core of `mutation_report`, a tool that turns the outputs of a
tuberculosis genome pipeline into a surveillance report. The model covers:

- **Table loaders.** The reference table of graded mutations (`mutation_list.py`), the
  isolate's annotated variants (`sample_annotation.py`), the coverage statistics
  (`sample_coverage.py`) and the low-quality segments (`low_quals.py`). Each takes the
  lines of its file already split into fields.
- **Resistance matcher** (`resistance_list.py`). It walks the sorted variants, groups them
  by gene and then by nucleotide change, and attaches the drug calls of every reference
  mutation with the same gene and nucleotide change. A gene group is flushed only when a
  variant of another gene arrives, and only when its last record has a drug list.
- **Report assembler** (`surveillance_report.py`). It builds the report document: a fixed
  skeleton of nine children, then sections appended by the `add_*` methods.
- **Report reader** (`print_report.py`). It reads that document back into printable rows.
- **Write-then-read.** A report assembled by the main sequence of
  `surveillance_report.py` and read back by the reader yields rows determined by the
  assembler's inputs.

Modules:

- `Wrappers`: `Option`.
- `Strings`: Python's `str` order, `strip`, `split` and slicing.
- `Sorting`: Python's tuple order, and `sorted` as insertion sort.
- `Grouping`: maximal runs of equal key.
- One module per source file: `MutationTable`, `SampleAnnotation`, `LowQuality`,
  `Coverage`, `Resistance`, `Report` and `PrintReport`.
- `ElementTree`: an abstract element tree standing in for lxml.
- `ReportRoundTrip`: the assembler and the reader together.

The loaders, the matcher, the assembler and the reader are classes whose methods update
their fields in loops, as the Python does. Each loop is proved against a specification
function of the rows seen so far (`Retained`, `Records`, `Kept`, `CoverageAfter`,
`GapsOf`, `DeletionsOf`, `Scan`, `SnpElements`, `SnpsRows`). Lemmas then state what those
functions mean.

The matcher's loop is specified one iteration at a time: `Step` is one iteration and
`Scan` folds it over the variants. Independently of that, `MatchedGroups` describes the
result through maximal runs of genes and, inside a gene, of nucleotide changes.
`Resistance.ScanIsMatchedGroups` proves the two agree.

Where the specification and the code disagree, the model follows the code:

- **Single-record genes.** A gene with a single record is emitted when that record has a
  drug list and another gene follows it (`Resistance.ScenarioSingleRecordEmitted`).
  Emission depends only on the pending last record having a drug list. It does not
  depend on the number of records.
- **Dropped groups.** A gene whose last record has no drug list is dropped whole, even when
  earlier records have drug calls (`Resistance.ScenarioGroupDroppedByLastRecord`).
- **The last gene.** The last gene of the variant list is never emitted, because nothing
  flushes after the loop (`Resistance.SortedScanOmitsLast`,
  `Resistance.ScenarioLastGeneDropped`).
- **Deletions.** The reader's deletion list holds `loci.text`, which the assembler never
  sets, so it reads back as one `None` per deletion (`ReportRoundTrip.DeletionsRead`).
- **The gap map.** The reader's constructor never builds the gap map, because the call is
  commented out, so the map stays empty (`PrintReport.PrintableReport.constructor`).

## Model

| member | source | states |
|---|---|---|
| Sorting.Sort | mutation_list.py:34-36 | `sorted`: the result is in ascending tuple order and is a permutation of the input |
| Sorting.SortedPermutationUnique | mutation_list.py:34-36 | two ascending permutations of the same records are equal, so `sorted` has one possible result |
| MutationTable.ToMutation | mutation_list.py:24-25 | gene = f[1], nuchange = f[6], aachange = f[7], drug = f[0], pvalue = float(f[22]), likelihood = float(f[17]) |
| MutationTable.RetainedSound | mutation_list.py:26-27 | every kept mutation has p-value below 0.05 and is the record of one of the rows |
| MutationTable.RetainedComplete | mutation_list.py:22-28 | every row with p-value below 0.05 is kept; no other filter applies |
| MutationTable.RetainedAppend | mutation_list.py:22-28 | filtering commutes with concatenating rows, so file order is preserved |
| MutationTable.RetainedCount | mutation_list.py:26-28 | the number of kept mutations is the number of significant rows |
| MutationTable.MutationList.constructor | mutation_list.py:15-28 | skips two lines; `mutations` is the significant rows' records in file order; `item_count` counts them |
| MutationTable.MutationList.Size | mutation_list.py:30-32 | `size` is the number of kept mutations |
| MutationTable.MutationList.SortedMutations | mutation_list.py:34-36 | `mutation_list` is a sorted permutation of the kept mutations |
| SampleAnnotation.ToIsolateMutation | sample_annotation.py:26-28 | the field mapping; nuchange and aachange are f[10] and f[12] without their first two characters |
| SampleAnnotation.Records | sample_annotation.py:23-30 | one record per data line: as many records as lines |
| SampleAnnotation.RecordsPointwise | sample_annotation.py:25-29 | nothing is filtered: the i-th record comes from the i-th line |
| SampleAnnotation.SortedGenesAscending | sample_annotation.py:32-34 | in `annotation_list` order, the genes ascend |
| SampleAnnotation.SortedGenesContiguous | sample_annotation.py:32-34 | in `annotation_list` order, records of one gene are adjacent |
| SampleAnnotation.AnnotationList.constructor | sample_annotation.py:16-30 | skips the header line; one record per remaining line, in file order; `item_count` is their number |
| SampleAnnotation.AnnotationList.Size | sample_annotation.py:36-38 | `size` is the number of records |
| SampleAnnotation.AnnotationList.SortedAnnotations | sample_annotation.py:32-34 | `annotation_list` is a sorted permutation of `mutations`, which keep file order |
| LowQuality.KeptSound | low_quals.py:29-31 | every kept record is fields 0 to 4 of a line whose first field is the sample |
| LowQuality.KeptComplete | low_quals.py:26-31 | every line of the sample is kept; no header is skipped |
| LowQuality.KeptAppend | low_quals.py:26-31 | filtering commutes with concatenating lines, so file order is preserved |
| LowQuality.LowQuals.constructor | low_quals.py:16-31 | the list is the kept records of every line, in file order |
| Coverage.GenesOfInterest | sample_coverage.py:20-22 | the genes are comma-free pieces whose comma-join is the stripped file contents |
| Coverage.StatValue | sample_coverage.py:32-37 | a statistics line has a second `:` field exactly when its stripped text contains `:` |
| Coverage.Put | sample_coverage.py:46 | `d[k] = v`: an existing key keeps its place, a new key goes last |
| Coverage.LookupPut | sample_coverage.py:46 | after `d[k] = v`, k maps to v and every other key is unchanged |
| Coverage.CoverageKeys | sample_coverage.py:45-46 | a key is in the dictionary exactly when it was already there or is a gene of interest named by some row |
| Coverage.CoverageLastWins | sample_coverage.py:46 | a gene's value comes from the last row naming it |
| Coverage.CoverageDistinct | sample_coverage.py:45-46 | the dictionary's keys stay distinct |
| Coverage.CoverageUntouched | sample_coverage.py:45-46 | a key that no row names keeps its old value |
| Coverage.GapsSound | sample_coverage.py:47-49 | every gap has percent below 90.0 and is the name and coverage of some row |
| Coverage.GapsComplete | sample_coverage.py:47-49 | every row below 90.0 is a gap, whether or not its gene is of interest |
| Coverage.DeletionsSound | sample_coverage.py:55-58 | every deletion is of a gene of interest and is `[f[15], f[8]]` of some row |
| Coverage.DeletionsComplete | sample_coverage.py:55-58 | every row whose f[15] is a gene of interest gives a deletion |
| Coverage.SampleCoverage.constructor | sample_coverage.py:14-28 | genes of interest, depth and percentage, dictionary, gaps and deletions after reading all three files |
| Coverage.SampleCoverage.Load | sample_coverage.py:26-28 | the three readers in order extend the dictionary, gaps and deletions by the rows' contributions |
| Coverage.SampleCoverage.GetSampleStats | sample_coverage.py:30-38 | depth and percentage are field 1 of the stripped first and second lines split on `:` |
| Coverage.SampleCoverage.GetRegionStats | sample_coverage.py:40-49 | skips one line; the dictionary becomes `CoverageAfter` of the rows and the gaps grow by `GapsOf` |
| Coverage.SampleCoverage.ReadRegionRow | sample_coverage.py:44-49 | one region line: sets the entry of a gene of interest and appends a gap below 90.0 |
| Coverage.SampleCoverage.GetDeletions | sample_coverage.py:51-58 | skips one line; the deletions grow by those of genes of interest, in file order |
| Resistance.Confidence | resistance_list.py:16-22 | "High" iff lr >= 10, "Medium" iff 5 <= lr < 10, "Low" iff lr < 5 |
| Resistance.ConfidenceMonotone | resistance_list.py:16-22 | a larger likelihood ratio never gets a lower tier |
| Resistance.DrugCallsAppend | resistance_list.py:53-58 | matching distributes over concatenated references: reference order is kept |
| Resistance.DrugCallsSound | resistance_list.py:53-58 | every drug call is `[drug, confidence]` of a reference with equal gene and nuchange |
| Resistance.DrugCallsComplete | resistance_list.py:53-58 | every matching reference contributes a call, not only the first |
| Resistance.DrugCallsEmpty | resistance_list.py:53-61 | there are no calls exactly when no reference matches |
| Resistance.ResistanceList.FindDrugResistances | resistance_list.py:50-61 | returns the drug calls of all matching references in order, and success iff there is one |
| Resistance.ResistanceList.constructor | resistance_list.py:26-48 | the loop, sentinel start state included, leaves the result `Scan(targets, references).result` |
| Resistance.StepOpensGene | resistance_list.py:35-41 | a new gene flushes the pending group only when its last record has a drug list, then restarts both records |
| Resistance.StepNewNuchange | resistance_list.py:42-45 | a new nuchange in the same gene pushes the pending record, with or without drugs |
| Resistance.StepSameNuchange | resistance_list.py:46-48 | a repeated gene and nuchange appends another drug list to the same record |
| Resistance.SummaryFacts | resistance_list.py:35-38 | the pending record is longer than 7 exactly when the gene's last nuchange run has a drug list |
| Resistance.ScanSummarizes | resistance_list.py:34-48 | after any non-empty prefix the loop variables are described by the prefix's runs |
| Resistance.ScanIsMatchedGroups | resistance_list.py:34-48 | the result is the emittable groups of every gene run except the last |
| Resistance.EmitGroupsFrom | resistance_list.py:35-38 | every emitted group is the group of one run whose last record has a drug list |
| Resistance.EmitGroupsOrdered | resistance_list.py:37-39 | groups come out in the order of their runs |
| Resistance.DrugListsNonEmpty | resistance_list.py:46-48 | only non-empty drug lists are attached |
| Resistance.MatchedGroupsWellFormed | resistance_list.py:37-45 | every emitted group has records; each has 7 fields and non-empty drug lists; the last has a drug list |
| Resistance.SortedScanOrdered | resistance_list.py:34-39 | on sorted variants the emitted genes strictly ascend, so each gene is emitted at most once |
| Resistance.SortedScanOmitsLast | resistance_list.py:34-48 | on sorted variants every emitted gene precedes the last variant's gene: the last gene is never flushed |
| Resistance.SingleGeneEmitsNothing | resistance_list.py:34-48 | variants of a single gene produce no group |
| Resistance.ScenarioSingleRecordEmitted | resistance_list.py:34-48 | one graded rpoB variant followed by katG gives one group with a single "High" INH call |
| Resistance.ScenarioLastGeneDropped | resistance_list.py:34-48 | the same variant alone gives nothing |
| Resistance.ScenarioGroupDroppedByLastRecord | resistance_list.py:35-38 | a gene whose last record is ungraded is dropped even though an earlier record had a call |
| Grouping.RunsIsPartition | resistance_list.py:35-45 | `Runs` splits a sequence into non-empty runs of one key, neighbours differing |
| Grouping.RunPartitionUnique | resistance_list.py:35-45 | any such partition is `Runs`: the grouping is determined by the keys |
| Report.Skeleton | surveillance_report.py:40-57 | nine children tagged title, sample_id, date, pipeline, lineage, coverage, coverage_gaps, deletions, mutations |
| Report.Document | surveillance_report.py:40-57 | the root is `surveillance_report`: the skeleton followed by one `low_quality` per added section |
| Report.DocumentFind | surveillance_report.py:40-57 | `find` on a fixed tag reaches that section whatever was appended |
| Report.DocumentFindAll | surveillance_report.py:40-57 | `findall` on a fixed tag yields that one section |
| Report.RegionElements | surveillance_report.py:103-108 | one `gene` per dictionary entry or gap, in order, with its name, printed depth and printed percent |
| Report.RecordLeaves | surveillance_report.py:166-175 | five leaves tagged annotation, codonpos, refpos, refnuc, altnuc carrying record[5], [6], [2], [3], [4]; none is a resistance |
| Report.RecordResistances | surveillance_report.py:176-184 | one resistance per call of the first drug list; none without a drug list; later lists ignored |
| Report.NuchangeResistances | surveillance_report.py:164-184 | `findall('resistance')` on a nuchange yields exactly its record's first drug list |
| Report.BuildSnp | surveillance_report.py:160-184 | the loop over a group's records builds its `snp` element |
| Report.BuildNuchange | surveillance_report.py:163-184 | the loop over a record's first drug list builds its `nuchange` element |
| Report.SurveillanceReport.constructor | surveillance_report.py:28-57 | the skeleton with the given sample id and date, and every section empty |
| Report.SurveillanceReport.ReportLineage | surveillance_report.py:59-73 | appends code = field 3 and name = field 2 of the stripped, tab-split line |
| Report.SurveillanceReport.AddCoverageSection | surveillance_report.py:87-108 | appends the whole genome first, then one `gene` per entry; no other section changes |
| Report.SurveillanceReport.AddCoverageGapsSection | surveillance_report.py:110-124 | appends one `gene` per gap, in order; no other section changes |
| Report.SurveillanceReport.AddLowQualitySection | surveillance_report.py:126-142 | appends a new `low_quality` section with one `segment` per entry |
| Report.SurveillanceReport.AddDeletionsSection | surveillance_report.py:144-149 | appends one `loci` per deletion, in order; no other section changes |
| Report.SurveillanceReport.AddMutationListSection | surveillance_report.py:151-184 | appends one `snp` per group with one `nuchange` per record; no other section changes |
| PrintReport.FindPath | print_report.py:41-44 | `find('a/b')` finds nothing exactly when the path matches nothing |
| PrintReport.RegionRowsPointwise | print_report.py:94-96 | one `[name, depth, percent]` row per region, in order |
| PrintReport.DeletionTextsPointwise | print_report.py:112-113 | one entry per deletion child: its text |
| PrintReport.ResistanceRowsPointwise | print_report.py:125-130 | one five-field row per resistance, in document order |
| PrintReport.NuchangeRowsShape | print_report.py:122-132 | a nuchange gives exactly the head row iff it has no resistance; otherwise one row per resistance |
| PrintReport.NuchangesRowCount | print_report.py:122-132 | a gene's rows number the sum of max(1, resistances) over its nuchanges |
| PrintReport.MutationRowCount | print_report.py:121-132 | the mutation list has the sum over all nuchanges of max(1, resistances) rows |
| PrintReport.PrintableReport.constructor | print_report.py:29-52 | header texts, coverage map, deletions and mutation list from the document; gap map empty |
| PrintReport.PrintableReport.Load | print_report.py:45-52 | the build calls in order extend the coverage map, deletions and mutation list |
| PrintReport.PrintableReport.BuildCoverageMap | print_report.py:85-96 | appends one row per child of `coverage`, in order |
| PrintReport.PrintableReport.BuildGapMap | print_report.py:98-108 | appends one row per child of `coverage_gaps`, in order |
| PrintReport.PrintableReport.BuildDeletionsList | print_report.py:110-113 | appends the text of each child of `deletions`, in order |
| PrintReport.PrintableReport.BuildMutationList | print_report.py:115-132 | appends the rows of every `mutations/snp`, in document order |
| PrintReport.PrintableReport.AppendSnpRows | print_report.py:121-132 | one snp: the rows of each of its nuchanges, in order |
| PrintReport.PrintableReport.AppendNuchangeRows | print_report.py:122-132 | one nuchange: one row per resistance, or the head alone when none was recorded |
| PrintReport.PrintableReport.SetCoverageMap | print_report.py:234-236 | the setter appends its argument |
| PrintReport.PrintableReport.SetGapMap | print_report.py:247-249 | the setter appends its argument |
| PrintReport.PrintableReport.SetMutationList | print_report.py:260-262 | the setter appends its argument |
| PrintReport.PdfCoord | print_report.py:277-292 | with a non-zero unit the conversion is invertible: the original position is recovered from the PDF one |
| PrintReport.PdfCoordFlips | print_report.py:277-292 | with a positive unit, a lower position on the page gets a smaller PDF ordinate |
| ReportRoundTrip.RegionElementRead | print_report.py:94-96 | a written region reads back as its name, depth and percent |
| ReportRoundTrip.ResistanceElementRead | print_report.py:125-126 | a written resistance reads back as its drug and confidence |
| ReportRoundTrip.ResistanceRowsOfCalls | print_report.py:125-130 | the resistances of a call list read back as one row per call |
| ReportRoundTrip.NuchangeRead | print_report.py:122-132 | a written nuchange reads back as the rows of its record |
| ReportRoundTrip.SnpsRead | print_report.py:121-132 | the written snps are readable and read back as the rows of their groups |
| ReportRoundTrip.HeaderRead | print_report.py:38-42 | title, date, sample id and pipeline name and version read back as written |
| ReportRoundTrip.LineageRead | print_report.py:43-44 | the lineage code and name read back as written |
| ReportRoundTrip.CoverageRead | print_report.py:92-96 | the coverage section reads back as the whole-genome row then one row per entry |
| ReportRoundTrip.GapsRead | print_report.py:105-108 | the gap section reads back as one row per gap |
| ReportRoundTrip.DeletionsRead | print_report.py:110-113 | the deletions read back as one None per deletion |
| ReportRoundTrip.SnpsOfDocument | print_report.py:121 | `iterfind('mutations/snp')` yields exactly the written snps |
| ReportRoundTrip.ReadBack | print_report.py:29-52 | the assembled document is readable and every field the reader takes is determined by the inputs |
| ReportRoundTrip.MatchedGroupsAssemblable | surveillance_report.py:160-175 | every group the matcher emits can be written: each record has seven fields |
| ReportRoundTrip.WriteCoverage | surveillance_report.py:215-221 | a fresh report after lineage, coverage and gaps holds exactly those sections |
| ReportRoundTrip.Write | surveillance_report.py:215-224 | the main sequence fills each section exactly once, from its input |
| ReportRoundTrip.WriteThenRead | surveillance_report.py:215-224 | the written report reads back with the given header, lineage, coverage rows, no gaps, None deletions and the groups' mutation rows |

## Left out

- Reading files and splitting lines into fields. Each loader takes its lines as sequences
  of fields; the statistics lines, the lineage line and the genes-of-interest text are
  passed as strings and stripped and split in the model.
- Python's `float()` is a parameter `toReal: string -> real`, and `str()` of a float is a
  parameter `fmt: real -> string`. NaN, infinities and malformed numbers are not modelled.
- `datetime.now()` is a `date` parameter of the report constructor.
- lxml: parsing, `ElementTree.write` (`write_report_xml`), the XSLT transform. The
  document is an abstract element tree whose attributes are a map, so attribute order in
  the serialised XML is not modelled.
- `write_csv_data`, `write_pdf_version`, `page_number`, `write_text_version` and
  `__repr__`: output layout only.
- The read-only properties (`resistance_list`, `coverage_dict`, `title` and the like):
  they return fields, which the model exposes directly.
- The `__main__` blocks, `argparse`, `ConfigParser`, `logging`, and the hard-coded
  reference file name of `ResistanceList.__init__`. The references are a constructor
  parameter.
- PrintReport.PdfCoord: Python's default `unit=1` is an integer; the model uses the real
  1.0.
- MutationTable.MutationList.constructor: requires every data row to have at least 23 fields. This excludes exactly the rows on which the source raises IndexError (`fields[22]`); the abort is not modelled.
- SampleAnnotation.AnnotationList.constructor: requires every data row to have at least 17 fields. This excludes exactly the rows on which the source raises IndexError (`fields[16]`); the abort is not modelled.
- LowQuality.LowQuals.constructor: requires every row of the sample to have at least 5 fields. This excludes exactly the rows on which the source raises IndexError (`fields[4]`); the abort is not modelled.
- Coverage.SampleCoverage.constructor: requires both statistics lines to contain `:`, every region row to have at least 7 fields and every deletion row at least 16. This excludes exactly the inputs on which the source raises IndexError; the abort is not modelled.
- Coverage.SampleCoverage.Load: the same preconditions as the constructor, for the same reason.
- Coverage.SampleCoverage.GetSampleStats: requires both lines to contain `:`. On a line without one the source raises IndexError (`fields[1]`); the abort is not modelled.
- Coverage.SampleCoverage.GetRegionStats: requires every data row to have at least 7 fields. This excludes exactly the rows on which the source raises IndexError (`fields[6]`); the abort is not modelled.
- Coverage.SampleCoverage.ReadRegionRow: the same row precondition as Coverage.SampleCoverage.GetRegionStats.
- Coverage.SampleCoverage.GetDeletions: requires every data row to have at least 16 fields. This excludes exactly the rows on which the source raises IndexError (`fields[15]`); the abort is not modelled.
- Report.SurveillanceReport.ReportLineage: requires the lineage line to have at least 4 tab-separated fields. This excludes exactly the lines on which the source raises IndexError (`fields[3]`); the abort is not modelled.
- ReportRoundTrip.ReadBack: the reader reads the abstract tree the assembler built, so writing to XML and parsing back are taken as lossless. In lxml they are not: an element whose text is the empty string is written as an empty element and parses back with text None. The model's reader sees `Some("")` where the program's reader sees None. This arises for an empty lineage field or an empty statistics value.
- ReportRoundTrip.HeaderRead, ReportRoundTrip.LineageRead, ReportRoundTrip.CoverageRead, ReportRoundTrip.GapsRead, ReportRoundTrip.RegionElementRead, ReportRoundTrip.ResistanceElementRead, ReportRoundTrip.ResistanceRowsOfCalls, ReportRoundTrip.NuchangeRead, ReportRoundTrip.SnpsRead and ReportRoundTrip.WriteThenRead: the same lossless-serialisation assumption as ReportRoundTrip.ReadBack. An empty drug name from the reference table would read back as None in the program.
- PrintReport.PrintableReport.constructor: requires every element the reader looks up to
  be present (`Readable`), where Python would raise. `TextOf` and `AttrOf` return None
  for a missing element, a value the reader never uses.
- Report.SurveillanceReport.AddMutationListSection: requires every record to have exactly
  seven text fields. Python would raise on fewer, and more cannot arise because the
  matcher builds records from seven fields (`ReportRoundTrip.MatchedGroupsAssemblable`).
- Resistance.ScanIsMatchedGroups: the run description requires that the first variant's
  gene is not the placeholder "xxxx". `Scan` and the constructor model that case as well.
- Resistance.SortedScanOrdered: stated for sorted variants, which is how the constructor
  receives them (`annotation_list`). Unsorted input is covered by
  `Resistance.ScanIsMatchedGroups` alone.
- Coverage.SampleCoverage.Load, PrintReport.PrintableReport.Load,
  PrintReport.PrintableReport.AppendSnpRows, PrintReport.PrintableReport.AppendNuchangeRows,
  Report.BuildSnp, Report.BuildNuchange, Coverage.SampleCoverage.ReadRegionRow and
  ReportRoundTrip.WriteCoverage are inline code in the source, factored out as methods.
