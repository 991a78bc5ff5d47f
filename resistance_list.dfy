/**
  The resistance matcher (resistance_list.py): walks the sorted isolate variants, groups
  them by gene and then by nucleotide change, and attaches to every variant the drug
  calls of the reference mutations with the same gene and nucleotide change.

  The loop is specified one iteration at a time (`Step`, folded by `Scan`) and then
  characterised independently through maximal runs (`MatchedGroups`).
*/
module Resistance {
  import opened Strings
  import opened Sorting
  import opened Grouping
  import MT = MutationTable
  import SA = SampleAnnotation

  /** Python's `confidence(lr)`: the tier of a likelihood ratio. */
  function Confidence(lr: real): (c: string)
    ensures c == "High" <==> lr >= 10.0
    ensures c == "Medium" <==> 5.0 <= lr < 10.0
    ensures c == "Low" <==> lr < 5.0
  {
    if lr >= 10.0 then "High"
    else if 10.0 > lr >= 5.0 then "Medium"
    else "Low"
  }

  function Rank(c: string): nat
  {
    if c == "High" then 2 else if c == "Medium" then 1 else 0
  }

  /** A larger likelihood ratio never gets a lower tier. */
  lemma ConfidenceMonotone(lr1: real, lr2: real)
    requires lr1 <= lr2
    ensures Rank(Confidence(lr1)) <= Rank(Confidence(lr2))
  {
  }

  /** Python's `[drug, confidence]` pair. */
  datatype DrugCall = DrugCall(drug: string, confidence: string)

  function CallOf(m: MT.Mutation): DrugCall
  {
    DrugCall(m.drug, Confidence(m.likelihood))
  }

  predicate Matches(m: MT.Mutation, gene: string, nuchange: string)
  {
    m.gene == gene && m.nuchange == nuchange
  }

  /** The drug calls of every reference matching `(gene, nuchange)`, in reference order. */
  function DrugCalls(refs: seq<MT.Mutation>, gene: string, nuchange: string): seq<DrugCall>
  {
    if refs == [] then []
    else
      var m := refs[|refs| - 1];
      DrugCalls(refs[..|refs| - 1], gene, nuchange) + (if Matches(m, gene, nuchange) then [CallOf(m)] else [])
  }

  /** Matching distributes over concatenation of the reference table: order is kept. */
  lemma {:induction false} DrugCallsAppend(a: seq<MT.Mutation>, b: seq<MT.Mutation>, gene: string, nuchange: string)
    ensures DrugCalls(a + b, gene, nuchange) == DrugCalls(a, gene, nuchange) + DrugCalls(b, gene, nuchange)
  {
    if b != [] {
      assert (a + b)[..|a + b| - 1] == a + b[..|b| - 1];
      DrugCallsAppend(a, b[..|b| - 1], gene, nuchange);
    } else {
      assert a + b == a;
    }
  }

  /** Every drug call comes from a matching reference. */
  lemma {:induction false} DrugCallsSound(refs: seq<MT.Mutation>, gene: string, nuchange: string)
    ensures forall c :: c in DrugCalls(refs, gene, nuchange) ==>
              exists i :: 0 <= i < |refs| && Matches(refs[i], gene, nuchange) && c == CallOf(refs[i])
  {
    if refs != [] {
      var refs' := refs[..|refs| - 1];
      DrugCallsSound(refs', gene, nuchange);
      forall c | c in DrugCalls(refs, gene, nuchange)
        ensures exists i :: 0 <= i < |refs| && Matches(refs[i], gene, nuchange) && c == CallOf(refs[i])
      {
        if c in DrugCalls(refs', gene, nuchange) {
          var i :| 0 <= i < |refs'| && Matches(refs'[i], gene, nuchange) && c == CallOf(refs'[i]);
          assert refs[i] == refs'[i];
        } else {
          assert Matches(refs[|refs| - 1], gene, nuchange);
        }
      }
    }
  }

  /** Every matching reference contributes a drug call, not only the first. */
  lemma {:induction false} DrugCallsComplete(refs: seq<MT.Mutation>, gene: string, nuchange: string, i: nat)
    requires i < |refs| && Matches(refs[i], gene, nuchange)
    ensures CallOf(refs[i]) in DrugCalls(refs, gene, nuchange)
  {
    if i < |refs| - 1 {
      assert refs[..|refs| - 1][i] == refs[i];
      DrugCallsComplete(refs[..|refs| - 1], gene, nuchange, i);
    }
  }

  /** There are drug calls exactly when some reference matches. */
  lemma DrugCallsEmpty(refs: seq<MT.Mutation>, gene: string, nuchange: string)
    ensures DrugCalls(refs, gene, nuchange) == [] <==>
              forall i :: 0 <= i < |refs| ==> !Matches(refs[i], gene, nuchange)
  {
    if DrugCalls(refs, gene, nuchange) == [] {
      forall i | 0 <= i < |refs| ensures !Matches(refs[i], gene, nuchange) {
        if Matches(refs[i], gene, nuchange) {
          DrugCallsComplete(refs, gene, nuchange, i);
        }
      }
    } else {
      DrugCallsSound(refs, gene, nuchange);
      var c := DrugCalls(refs, gene, nuchange)[0];
      assert c in DrugCalls(refs, gene, nuchange);
    }
  }

  /**
    Python's `nuc_record`: seven text fields of a variant followed by the drug lists
    appended to it; its `len` is the number of fields plus the number of drug lists.
  */
  datatype NucRecord = NucRecord(fields: seq<string>, drugLists: seq<seq<DrugCall>>)

  /** Python's `gene_record`: the gene name followed by its nuc_records. */
  datatype GeneGroup = GeneGroup(gene: string, records: seq<NucRecord>)

  function PyLen(n: NucRecord): nat
  {
    |n.fields| + |n.drugLists|
  }

  /** The seven fields a variant opens a nuc_record with. */
  function TargetFields(t: SA.IsolateMutation): (f: seq<string>)
    ensures |f| == 7 && f[0] == t.nuchange
  {
    [t.nuchange, t.aachange, t.refpos, t.refnuc, t.altnuc, t.annotation, t.codonpos]
  }

  /** The loop's variables: the result so far and the pending gene and nuc records. */
  datatype ScanState = ScanState(result: seq<GeneGroup>, geneRecord: GeneGroup, nucRecord: NucRecord)

  const Sentinel: string := "xxxx"

  /** The state before the first variant: placeholder records named "xxxx". */
  function Init(): ScanState
  {
    ScanState([], GeneGroup(Sentinel, []), NucRecord([Sentinel, Sentinel, Sentinel, Sentinel, Sentinel], []))
  }

  /** One iteration of the loop of `ResistanceList.__init__`, for variant `t`. */
  function Step(st: ScanState, t: SA.IsolateMutation, refs: seq<MT.Mutation>): (r: ScanState)
    requires |st.nucRecord.fields| >= 5
    ensures |r.nucRecord.fields| >= 5
  {
    var st1 :=
      if t.gene != st.geneRecord.gene then
        var flushed :=
          if PyLen(st.nucRecord) > 7 then
            st.result + [GeneGroup(st.geneRecord.gene, st.geneRecord.records + [st.nucRecord])]
          else st.result;
        ScanState(flushed, GeneGroup(t.gene, []), NucRecord(TargetFields(t), []))
      else st;
    var st2 :=
      if t.nuchange != st1.nucRecord.fields[0] then
        ScanState(st1.result, GeneGroup(st1.geneRecord.gene, st1.geneRecord.records + [st1.nucRecord]),
                  NucRecord(TargetFields(t), []))
      else st1;
    var drugList := DrugCalls(refs, t.gene, t.nuchange);
    if drugList != [] then
      st2.(nucRecord := NucRecord(st2.nucRecord.fields, st2.nucRecord.drugLists + [drugList]))
    else st2
  }

  /** The loop's state after the variants `ts`. */
  function Scan(ts: seq<SA.IsolateMutation>, refs: seq<MT.Mutation>): (r: ScanState)
    ensures |r.nucRecord.fields| >= 5
  {
    if ts == [] then Init() else Step(Scan(ts[..|ts| - 1], refs), Last(ts), refs)
  }

  /** One more variant is one more step. */
  lemma ScanSnoc(ts: seq<SA.IsolateMutation>, refs: seq<MT.Mutation>, i: nat)
    requires i < |ts|
    ensures Scan(ts[..i + 1], refs) == Step(Scan(ts[..i], refs), ts[i], refs)
  {
    assert ts[..i + 1][..i] == ts[..i];
  }

  // ---------------------------------------------------------------------------
  // An independent description of the result, by maximal runs.

  function GeneOf(t: SA.IsolateMutation): string { t.gene }

  function NuchangeOf(t: SA.IsolateMutation): string { t.nuchange }

  /** The drug lists attached to a run of variants: one per variant that has a match. */
  function DrugListsOf(run: seq<SA.IsolateMutation>, refs: seq<MT.Mutation>): seq<seq<DrugCall>>
  {
    if run == [] then []
    else
      var t := Last(run);
      var d := DrugCalls(refs, t.gene, t.nuchange);
      DrugListsOf(run[..|run| - 1], refs) + (if d != [] then [d] else [])
  }

  /** The record of one nucleotide-change run: its first variant's fields and its drug lists. */
  function RunRecord(run: seq<SA.IsolateMutation>, refs: seq<MT.Mutation>): NucRecord
    requires run != []
  {
    NucRecord(TargetFields(run[0]), DrugListsOf(run, refs))
  }

  predicate NonEmptyRuns(runs: seq<seq<SA.IsolateMutation>>)
  {
    forall i :: 0 <= i < |runs| ==> runs[i] != []
  }

  function RunRecords(runs: seq<seq<SA.IsolateMutation>>, refs: seq<MT.Mutation>): seq<NucRecord>
    requires NonEmptyRuns(runs)
  {
    if runs == [] then [] else RunRecords(runs[..|runs| - 1], refs) + [RunRecord(Last(runs), refs)]
  }

  /** The group of one gene run: a record per nucleotide-change run, drugs or not. */
  function GroupOf(run: seq<SA.IsolateMutation>, refs: seq<MT.Mutation>): GeneGroup
    requires run != []
  {
    GeneGroup(run[0].gene, RunRecords(Runs(run, NuchangeOf), refs))
  }

  /** A gene run is kept only when its last nucleotide-change run has a drug list. */
  predicate Emittable(run: seq<SA.IsolateMutation>, refs: seq<MT.Mutation>)
    requires run != []
  {
    DrugListsOf(Last(Runs(run, NuchangeOf)), refs) != []
  }

  function EmitGroups(runs: seq<seq<SA.IsolateMutation>>, refs: seq<MT.Mutation>): seq<GeneGroup>
    requires NonEmptyRuns(runs)
  {
    if runs == [] then []
    else
      EmitGroups(runs[..|runs| - 1], refs)
        + (if Emittable(Last(runs), refs) then [GroupOf(Last(runs), refs)] else [])
  }

  /** The groups of every gene run except the last, those whose last record carries drugs. */
  function MatchedGroups(ts: seq<SA.IsolateMutation>, refs: seq<MT.Mutation>): seq<GeneGroup>
  {
    if ts == [] then []
    else
      var g := Runs(ts, GeneOf);
      EmitGroups(g[..|g| - 1], refs)
  }

  /** The loop state after `ts`, described by the runs of `ts`. */
  predicate Summarizes(st: ScanState, ts: seq<SA.IsolateMutation>, refs: seq<MT.Mutation>)
    requires ts != []
  {
    var g := Runs(ts, GeneOf);
    var n := Runs(Last(g), NuchangeOf);
    && st.result == EmitGroups(g[..|g| - 1], refs)
    && st.geneRecord == GeneGroup(Last(g)[0].gene, RunRecords(n[..|n| - 1], refs))
    && st.nucRecord == RunRecord(Last(n), refs)
  }

  /** What a summary says about the loop variables that `Step` inspects. */
  lemma SummaryFacts(st: ScanState, ts: seq<SA.IsolateMutation>, refs: seq<MT.Mutation>)
    requires ts != [] && Summarizes(st, ts, refs)
    ensures st.geneRecord.gene == Last(ts).gene
    ensures st.nucRecord.fields[0] == Last(ts).nuchange
    ensures PyLen(st.nucRecord) > 7 <==> Emittable(Last(Runs(ts, GeneOf)), refs)
    ensures GeneGroup(st.geneRecord.gene, st.geneRecord.records + [st.nucRecord]) == GroupOf(Last(Runs(ts, GeneOf)), refs)
  {
    var g := Runs(ts, GeneOf);
    var n := Runs(Last(g), NuchangeOf);
    RunsShareKey(ts, GeneOf);
    assert Last(g)[|Last(g)| - 1] == Last(ts);
    RunsShareKey(Last(g), NuchangeOf);
    assert Last(n)[|Last(n)| - 1] == Last(ts);
  }

  lemma RunRecordSingle(t: SA.IsolateMutation, refs: seq<MT.Mutation>)
    ensures RunRecord([t], refs) ==
              var d := DrugCalls(refs, t.gene, t.nuchange);
              NucRecord(TargetFields(t), if d != [] then [d] else [])
  {
    assert [t][..0] == [] && Last([t]) == t;
    var d := DrugCalls(refs, t.gene, t.nuchange);
    assert DrugListsOf([t], refs) == [] + (if d != [] then [d] else []);
  }

  lemma RunRecordSnoc(run: seq<SA.IsolateMutation>, t: SA.IsolateMutation, refs: seq<MT.Mutation>)
    requires run != []
    ensures RunRecord(run + [t], refs) ==
              var d := DrugCalls(refs, t.gene, t.nuchange);
              NucRecord(RunRecord(run, refs).fields, RunRecord(run, refs).drugLists + if d != [] then [d] else [])
  {
    assert (run + [t])[..|run|] == run;
  }

  /** A variant of a new gene flushes the pending group when its last record has drugs, then starts afresh. */
  lemma StepOpensGene(st: ScanState, t: SA.IsolateMutation, refs: seq<MT.Mutation>)
    requires |st.nucRecord.fields| >= 5 && t.gene != st.geneRecord.gene
    ensures Step(st, t, refs) ==
              ScanState(st.result + (if PyLen(st.nucRecord) > 7
                                     then [GeneGroup(st.geneRecord.gene, st.geneRecord.records + [st.nucRecord])]
                                     else []),
                        GeneGroup(t.gene, []), RunRecord([t], refs))
  {
    RunRecordSingle(t, refs);
  }

  /** The summary after a variant that opens a new gene, with the result so far `result`. */
  lemma OpenGene(ts: seq<SA.IsolateMutation>, t: SA.IsolateMutation, refs: seq<MT.Mutation>)
    requires ts == [] || t.gene != Last(ts).gene
    ensures Runs(ts + [t], GeneOf) == Runs(ts, GeneOf) + [[t]]
    ensures Summarizes(
              ScanState(MatchedGroups(ts + [t], refs), GeneGroup(t.gene, []),
                        RunRecord([t], refs)),
              ts + [t], refs)
  {
    RunsSnoc(ts, t, GeneOf);
    var g' := Runs(ts + [t], GeneOf);
    assert g'[..|g'| - 1] == Runs(ts, GeneOf);
    RunsSnoc([], t, NuchangeOf);
    assert [] + [t] == [t];
  }

  lemma StepFirst(t: SA.IsolateMutation, refs: seq<MT.Mutation>)
    requires t.gene != Sentinel
    ensures Summarizes(Step(Init(), t, refs), [t], refs)
  {
    OpenGene([], t, refs);
    assert [] + [t] == [t];
    StepOpensGene(Init(), t, refs);
  }

  lemma StepNewGene(st: ScanState, ts: seq<SA.IsolateMutation>, t: SA.IsolateMutation, refs: seq<MT.Mutation>)
    requires ts != [] && Summarizes(st, ts, refs) && t.gene != Last(ts).gene
    ensures Summarizes(Step(st, t, refs), ts + [t], refs)
  {
    SummaryFacts(st, ts, refs);
    OpenGene(ts, t, refs);
    var g' := Runs(ts + [t], GeneOf);
    assert g'[..|g'| - 1] == Runs(ts, GeneOf);
    StepOpensGene(st, t, refs);
  }

  lemma StepNewNuchange(st: ScanState, ts: seq<SA.IsolateMutation>, t: SA.IsolateMutation, refs: seq<MT.Mutation>)
    requires ts != [] && Summarizes(st, ts, refs)
    requires t.gene == Last(ts).gene && t.nuchange != Last(ts).nuchange
    ensures Summarizes(Step(st, t, refs), ts + [t], refs)
  {
    SummaryFacts(st, ts, refs);
    var g := Runs(ts, GeneOf);
    RunsSnoc(ts, t, GeneOf);
    var g' := Runs(ts + [t], GeneOf);
    assert g'[..|g'| - 1] == g[..|g| - 1];
    assert Last(g') == Last(g) + [t];
    var n := Runs(Last(g), NuchangeOf);
    RunsSnoc(Last(g), t, NuchangeOf);
    var n' := Runs(Last(g'), NuchangeOf);
    assert n' == n + [[t]];
    assert n'[..|n'| - 1] == n;
    RunRecordSingle(t, refs);
  }

  lemma StepSameNuchange(st: ScanState, ts: seq<SA.IsolateMutation>, t: SA.IsolateMutation, refs: seq<MT.Mutation>)
    requires ts != [] && Summarizes(st, ts, refs)
    requires t.gene == Last(ts).gene && t.nuchange == Last(ts).nuchange
    ensures Summarizes(Step(st, t, refs), ts + [t], refs)
  {
    SummaryFacts(st, ts, refs);
    var g := Runs(ts, GeneOf);
    RunsSnoc(ts, t, GeneOf);
    var g' := Runs(ts + [t], GeneOf);
    assert g'[..|g'| - 1] == g[..|g| - 1];
    assert Last(g') == Last(g) + [t];
    var n := Runs(Last(g), NuchangeOf);
    RunsSnoc(Last(g), t, NuchangeOf);
    var n' := Runs(Last(g'), NuchangeOf);
    assert n' == n[..|n| - 1] + [Last(n) + [t]];
    assert n'[..|n'| - 1] == n[..|n| - 1];
    RunRecordSnoc(Last(n), t, refs);
  }

  /** The loop state after any nonempty prefix is summarised by the runs of that prefix. */
  lemma {:induction false} ScanSummarizes(ts: seq<SA.IsolateMutation>, refs: seq<MT.Mutation>)
    requires ts != [] && ts[0].gene != Sentinel
    ensures Summarizes(Scan(ts, refs), ts, refs)
  {
    var ts' := ts[..|ts| - 1];
    var t := Last(ts);
    assert ts == ts' + [t];
    if ts' == [] {
      StepFirst(t, refs);
    } else {
      ScanSummarizes(ts', refs);
      if t.gene != Last(ts').gene {
        StepNewGene(Scan(ts', refs), ts', t, refs);
      } else if t.nuchange != Last(ts').nuchange {
        StepNewNuchange(Scan(ts', refs), ts', t, refs);
      } else {
        StepSameNuchange(Scan(ts', refs), ts', t, refs);
      }
    }
  }

  /**
    The matcher's result is the groups of every gene run but the last, each kept only
    when its last nucleotide-change record carries a drug list. It holds whenever the
    first variant's gene is not the placeholder name.
  */
  lemma ScanIsMatchedGroups(ts: seq<SA.IsolateMutation>, refs: seq<MT.Mutation>)
    requires ts == [] || ts[0].gene != Sentinel
    ensures Scan(ts, refs).result == MatchedGroups(ts, refs)
  {
    if ts != [] {
      ScanSummarizes(ts, refs);
    }
  }

  // ---------------------------------------------------------------------------
  // Consequences of the run description.

  /** Every emitted group is the group of one of the runs, and that run is emittable. */
  lemma {:induction false} EmitGroupsFrom(runs: seq<seq<SA.IsolateMutation>>, refs: seq<MT.Mutation>, k: nat)
    returns (i: nat)
    requires NonEmptyRuns(runs) && k < |EmitGroups(runs, refs)|
    ensures i < |runs| && Emittable(runs[i], refs) && EmitGroups(runs, refs)[k] == GroupOf(runs[i], refs)
  {
    var runs' := runs[..|runs| - 1];
    var e' := EmitGroups(runs', refs);
    if k < |e'| {
      assert EmitGroups(runs, refs)[k] == e'[k];
      i := EmitGroupsFrom(runs', refs, k);
      assert runs[i] == runs'[i];
    } else {
      i := |runs| - 1;
    }
  }

  /** When the runs' genes strictly increase, so do the emitted groups' genes. */
  lemma {:induction false} EmitGroupsOrdered(runs: seq<seq<SA.IsolateMutation>>, refs: seq<MT.Mutation>, k: nat, l: nat)
    requires NonEmptyRuns(runs)
    requires forall i, j :: 0 <= i < j < |runs| ==> StrLt(runs[i][0].gene, runs[j][0].gene)
    requires k < l < |EmitGroups(runs, refs)|
    ensures StrLt(EmitGroups(runs, refs)[k].gene, EmitGroups(runs, refs)[l].gene)
  {
    var runs' := runs[..|runs| - 1];
    var e' := EmitGroups(runs', refs);
    assert EmitGroups(runs, refs)[k] == e'[k];
    if l < |e'| {
      assert EmitGroups(runs, refs)[l] == e'[l];
      forall i, j | 0 <= i < j < |runs'| ensures StrLt(runs'[i][0].gene, runs'[j][0].gene) {
        assert runs'[i] == runs[i] && runs'[j] == runs[j];
      }
      EmitGroupsOrdered(runs', refs, k, l);
    } else {
      var i := EmitGroupsFrom(runs', refs, k);
      assert runs'[i] == runs[i];
      assert EmitGroups(runs, refs)[l] == GroupOf(runs[|runs| - 1], refs);
    }
  }

  /** A record of a run carries the run's first variant's seven fields and only nonempty drug lists. */
  lemma {:induction false} DrugListsNonEmpty(run: seq<SA.IsolateMutation>, refs: seq<MT.Mutation>)
    ensures forall d :: d in DrugListsOf(run, refs) ==> d != []
  {
    if run != [] {
      DrugListsNonEmpty(run[..|run| - 1], refs);
    }
  }

  predicate WellFormedRecord(r: NucRecord)
  {
    |r.fields| == 7 && forall d :: d in r.drugLists ==> d != []
  }

  lemma {:induction false} RunRecordsWellFormed(runs: seq<seq<SA.IsolateMutation>>, refs: seq<MT.Mutation>)
    requires NonEmptyRuns(runs)
    ensures |RunRecords(runs, refs)| == |runs|
    ensures forall r :: r in RunRecords(runs, refs) ==> WellFormedRecord(r)
  {
    if runs != [] {
      RunRecordsWellFormed(runs[..|runs| - 1], refs);
      DrugListsNonEmpty(Last(runs), refs);
    }
  }

  /**
    Every group the matcher emits holds at least one record; every record has seven fields
    and only nonempty drug lists, and the last record has at least one drug list.
  */
  lemma MatchedGroupsWellFormed(ts: seq<SA.IsolateMutation>, refs: seq<MT.Mutation>)
    ensures forall g :: g in MatchedGroups(ts, refs) ==>
              g.records != [] && Last(g.records).drugLists != []
              && forall r :: r in g.records ==> WellFormedRecord(r)
  {
    if ts != [] {
      var runs := Runs(ts, GeneOf);
      var rs := runs[..|runs| - 1];
      forall g | g in MatchedGroups(ts, refs)
        ensures g.records != [] && Last(g.records).drugLists != []
        ensures forall r :: r in g.records ==> WellFormedRecord(r)
      {
        var k :| 0 <= k < |EmitGroups(rs, refs)| && EmitGroups(rs, refs)[k] == g;
        var i := EmitGroupsFrom(rs, refs, k);
        var n := Runs(rs[i], NuchangeOf);
        RunRecordsWellFormed(n, refs);
      }
    }
  }

  /**
    With the variants in ascending tuple order (as `annotation_list` returns them), the emitted groups are in strictly
    ascending gene order, so each gene yields at most one group, and the last gene is never
    emitted: there is no flush after the loop.
  */
  lemma SortedScanOrdered(ts: seq<SA.IsolateMutation>, refs: seq<MT.Mutation>)
    requires ts != [] && ts[0].gene != Sentinel
    requires SortedBy(ts, SA.AnnotationKey)
    ensures forall k, l :: 0 <= k < l < |Scan(ts, refs).result| ==>
              StrLt(Scan(ts, refs).result[k].gene, Scan(ts, refs).result[l].gene)
  {
    ScanIsMatchedGroups(ts, refs);
    var runs := Runs(ts, GeneOf);
    var rs := runs[..|runs| - 1];
    SortedGenesAscending(ts);
    RunKeysIncrease(ts, GeneOf);
    forall k, l | 0 <= k < l < |Scan(ts, refs).result|
      ensures StrLt(Scan(ts, refs).result[k].gene, Scan(ts, refs).result[l].gene)
    {
      EmitGroupsOrdered(rs, refs, k, l);
    }
  }

  /** With the variants sorted, every emitted gene comes before the last variant's gene: the last gene is never emitted. */
  lemma SortedScanOmitsLast(ts: seq<SA.IsolateMutation>, refs: seq<MT.Mutation>)
    requires ts != [] && ts[0].gene != Sentinel
    requires SortedBy(ts, SA.AnnotationKey)
    ensures forall g :: g in Scan(ts, refs).result ==> StrLt(g.gene, Last(ts).gene)
  {
    ScanIsMatchedGroups(ts, refs);
    var runs := Runs(ts, GeneOf);
    var rs: seq<seq<SA.IsolateMutation>> := runs[..|runs| - 1];
    SortedGenesAscending(ts);
    RunKeysIncrease(ts, GeneOf);
    LastRunKey(ts, GeneOf);
    forall i | 0 <= i < |rs| ensures StrLt(rs[i][0].gene, Last(ts).gene) {
      assert rs[i] == runs[i];
      assert StrLt(GeneOf(runs[i][0]), GeneOf(runs[|runs| - 1][0]));
    }
    EmitGroupsBelow(rs, refs, Last(ts).gene);
  }

  /** Groups emitted from runs whose genes all come before `bound` come before `bound` too. */
  lemma {:induction false} EmitGroupsBelow(runs: seq<seq<SA.IsolateMutation>>, refs: seq<MT.Mutation>, bound: string)
    requires NonEmptyRuns(runs)
    requires forall i :: 0 <= i < |runs| ==> StrLt(runs[i][0].gene, bound)
    ensures forall g :: g in EmitGroups(runs, refs) ==> StrLt(g.gene, bound)
  {
    if runs != [] {
      var runs' := runs[..|runs| - 1];
      assert forall i :: 0 <= i < |runs'| ==> runs'[i] == runs[i];
      EmitGroupsBelow(runs', refs, bound);
    }
  }

  /** Sorted variants have ascending genes. */
  lemma SortedGenesAscending(ts: seq<SA.IsolateMutation>)
    requires SortedBy(ts, SA.AnnotationKey)
    ensures forall i, j :: 0 <= i < j < |ts| ==> StrLe(GeneOf(ts[i]), GeneOf(ts[j]))
  {
    forall i, j | 0 <= i < j < |ts| ensures StrLe(GeneOf(ts[i]), GeneOf(ts[j])) {
      SA.SortedGenesAscending(ts, i, j);
    }
  }

  /** Variants of a single gene never produce a group. */
  lemma SingleGeneEmitsNothing(ts: seq<SA.IsolateMutation>, refs: seq<MT.Mutation>)
    requires ts != [] && ts[0].gene != Sentinel
    requires forall i :: 0 <= i < |ts| ==> ts[i].gene == ts[0].gene
    ensures Scan(ts, refs).result == []
  {
    ScanIsMatchedGroups(ts, refs);
    RunsOfOneKey(ts, GeneOf);
  }

  // ---------------------------------------------------------------------------
  // Worked scenarios.

  const RpoB := SA.IsolateMutation("rpoB", "761A>G", "Asp327Gly", "761110", "A", "G", "missense_variant", "3")
  const KatG := SA.IsolateMutation("katG", "944C>G", "Ser315Thr", "2155168", "C", "G", "missense_variant", "2")
  const InhRef := MT.Mutation("rpoB", "761A>G", "Asp327Gly", "INH", 0.01, 12.0)

  /**
    A graded variant gets one "High" call for a likelihood ratio of 12; its gene, with a
    single record, is emitted once a variant of another gene follows it.
  */
  lemma ScenarioSingleRecordEmitted()
    ensures Scan([RpoB, KatG], [InhRef]).result ==
              [GeneGroup("rpoB", [NucRecord(TargetFields(RpoB), [[DrugCall("INH", "High")]])])]
  {
    assert [RpoB, KatG][..1] == [RpoB];
    assert [RpoB][..0] == [];
    assert [InhRef][..0] == [];
    assert DrugCalls([InhRef], "rpoB", "761A>G") == [DrugCall("INH", "High")];
    assert DrugCalls([InhRef], "katG", "944C>G") == [];
    var first := Scan([RpoB], [InhRef]);
    assert Last([RpoB]) == RpoB && Scan([], [InhRef]) == Init();
    assert first == Step(Init(), RpoB, [InhRef]);
    StepOpensGene(Init(), RpoB, [InhRef]);
    RunRecordSingle(RpoB, [InhRef]);
    assert first == ScanState([], GeneGroup("rpoB", []), NucRecord(TargetFields(RpoB), [[DrugCall("INH", "High")]]));
    assert Last([RpoB, KatG]) == KatG;
    assert Scan([RpoB, KatG], [InhRef]) == Step(first, KatG, [InhRef]);
    StepOpensGene(first, KatG, [InhRef]);
    assert [] + [first.nucRecord] == [first.nucRecord];
    assert [] + [GeneGroup("rpoB", [first.nucRecord])] == [GeneGroup("rpoB", [first.nucRecord])];
  }

  /** The same variant alone is never emitted: the last gene is not flushed. */
  lemma ScenarioLastGeneDropped()
    ensures Scan([RpoB], [InhRef]).result == []
  {
    assert [RpoB][..0] == [];
  }

  const RpoBUngraded := SA.IsolateMutation("rpoB", "1349C>T", "Ser450Leu", "761698", "C", "T", "missense_variant", "2")

  /**
    A gene whose last record has no drug list is dropped as a whole, even though an
    earlier record of it carries a call.
  */
  lemma ScenarioGroupDroppedByLastRecord()
    ensures Scan([RpoB, RpoBUngraded, KatG], [InhRef]).result == []
  {
    var ts := [RpoB, RpoBUngraded, KatG];
    assert ts[..2] == [RpoB, RpoBUngraded] && [RpoB, RpoBUngraded][..1] == [RpoB] && [RpoB][..0] == [];
    assert Last(ts) == KatG && Last([RpoB, RpoBUngraded]) == RpoBUngraded && Last([RpoB]) == RpoB;
    assert [InhRef][..0] == [];
    assert DrugCalls([InhRef], "rpoB", "1349C>T") == [];
    assert DrugCalls([InhRef], "katG", "944C>G") == [];
    var first := Scan([RpoB], [InhRef]);
    assert Scan([], [InhRef]) == Init() && first == Step(Init(), RpoB, [InhRef]);
    StepOpensGene(Init(), RpoB, [InhRef]);
    assert first.result == [] && first.geneRecord.gene == "rpoB";
    var second := Scan([RpoB, RpoBUngraded], [InhRef]);
    assert second == Step(first, RpoBUngraded, [InhRef]);
    assert second.result == [] && second.nucRecord == NucRecord(TargetFields(RpoBUngraded), []);
    StepOpensGene(second, KatG, [InhRef]);
  }

  /** Python's `ResistanceList`: the drug resistances found in one isolate. */
  class ResistanceList {
    const targets: seq<SA.IsolateMutation>
    const references: seq<MT.Mutation>
    var resistanceList: seq<GeneGroup>

    /**
      Groups the isolate variants `targets` (sorted annotation list) and attaches the drug
      calls of the graded `references` (sorted mutation list).
    */
    constructor (targets: seq<SA.IsolateMutation>, references: seq<MT.Mutation>)
      ensures this.targets == targets && this.references == references
      ensures resistanceList == Scan(targets, references).result
    {
      this.targets := targets;
      this.references := references;
      resistanceList := [];
      new;
      var geneRecord := GeneGroup(Sentinel, []);
      var nucRecord := NucRecord([Sentinel, Sentinel, Sentinel, Sentinel, Sentinel], []);
      for i := 0 to |targets|
        invariant ScanState(resistanceList, geneRecord, nucRecord) == Scan(targets[..i], references)
      {
        var target := targets[i];
        ghost var before := ScanState(resistanceList, geneRecord, nucRecord);
        ScanSnoc(targets, references, i);
        if target.gene != geneRecord.gene {
          if |nucRecord.fields| + |nucRecord.drugLists| > 7 {
            geneRecord := GeneGroup(geneRecord.gene, geneRecord.records + [nucRecord]);
            resistanceList := resistanceList + [geneRecord];
          }
          geneRecord := GeneGroup(target.gene, []);
          nucRecord := NucRecord(TargetFields(target), []);
        }
        if target.nuchange != nucRecord.fields[0] {
          geneRecord := GeneGroup(geneRecord.gene, geneRecord.records + [nucRecord]);
          nucRecord := NucRecord(TargetFields(target), []);
        }
        var found, drugList := FindDrugResistances(target.gene, target.nuchange);
        if found {
          nucRecord := NucRecord(nucRecord.fields, nucRecord.drugLists + [drugList]);
        }
        assert ScanState(resistanceList, geneRecord, nucRecord) == Step(before, target, references);
      }
      assert targets[..|targets|] == targets;
    }

    /**
      Python's `find_drug_resistances`: one drug call per matching reference, in
      reference order, and whether there was any.
    */
    method FindDrugResistances(targetGene: string, targetNuchange: string)
      returns (success: bool, drugResistances: seq<DrugCall>)
      ensures drugResistances == DrugCalls(references, targetGene, targetNuchange)
      ensures success <==> drugResistances != []
    {
      drugResistances := [];
      success := false;
      for i := 0 to |references|
        invariant drugResistances == DrugCalls(references[..i], targetGene, targetNuchange)
      {
        var reference := references[i];
        assert references[..i + 1][..i] == references[..i];
        if reference.gene == targetGene && reference.nuchange == targetNuchange {
          if |drugResistances| == 0 {
            drugResistances := [DrugCall(reference.drug, Confidence(reference.likelihood))];
          } else {
            drugResistances := drugResistances + [DrugCall(reference.drug, Confidence(reference.likelihood))];
          }
        }
      }
      assert references[..|references|] == references;
      if |drugResistances| > 0 {
        success := true;
      }
    }
  }
}
