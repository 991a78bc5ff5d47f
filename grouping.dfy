/**
  Maximal runs: the split of a sequence into consecutive stretches whose elements share
  a key (a gene name, a nucleotide change). This is the grouping the resistance matcher
  performs while it walks the sorted isolate mutations.
*/
module Grouping {
  import opened Strings

  function Last<T>(s: seq<T>): T
    requires s != []
  {
    s[|s| - 1]
  }

  /** The runs of `s`, built element by element from the front. */
  function Runs<T>(s: seq<T>, key: T -> string): (r: seq<seq<T>>)
    ensures |r| <= |s|
    ensures s == [] <==> r == []
    ensures forall i :: 0 <= i < |r| ==> r[i] != []
    ensures r != [] ==> Last(Last(r)) == Last(s)
  {
    if s == [] then []
    else
      var p := Runs(s[..|s| - 1], key);
      var x := s[|s| - 1];
      if p != [] && key(Last(Last(p))) == key(x) then
        p[..|p| - 1] + [Last(p) + [x]]
      else
        p + [[x]]
  }

  /** Appending one element either extends the last run or opens a new one. */
  lemma RunsSnoc<T>(s: seq<T>, x: T, key: T -> string)
    ensures Runs(s + [x], key) ==
              if s != [] && key(Last(s)) == key(x) then
                Runs(s, key)[..|Runs(s, key)| - 1] + [Last(Runs(s, key)) + [x]]
              else
                Runs(s, key) + [[x]]
  {
    assert (s + [x])[..|s|] == s;
  }

  /** All elements of a run share its first element's key. */
  lemma {:induction false} RunsShareKey<T>(s: seq<T>, key: T -> string)
    ensures forall i, j :: 0 <= i < |Runs(s, key)| && 0 <= j < |Runs(s, key)[i]| ==>
              key(Runs(s, key)[i][j]) == key(Runs(s, key)[i][0])
  {
    if s != [] {
      var p := Runs(s[..|s| - 1], key);
      RunsShareKey(s[..|s| - 1], key);
      var r := Runs(s, key);
      forall i, j | 0 <= i < |r| && 0 <= j < |r[i]| ensures key(r[i][j]) == key(r[i][0]) {
        if i < |p| && j < |p[i]| {
          assert r[i][j] == p[i][j] && r[i][0] == p[i][0];
        } else if i < |p| {
          assert key(r[i][0]) == key(Last(Last(p)));
        }
      }
    }
  }

  /** Every element of a run is an element of the sequence. */
  lemma {:induction false} RunsElements<T>(s: seq<T>, key: T -> string)
    ensures forall i, j :: 0 <= i < |Runs(s, key)| && 0 <= j < |Runs(s, key)[i]| ==> Runs(s, key)[i][j] in s
  {
    if s != [] {
      var p := Runs(s[..|s| - 1], key);
      RunsElements(s[..|s| - 1], key);
      var r := Runs(s, key);
      forall i, j | 0 <= i < |r| && 0 <= j < |r[i]| ensures r[i][j] in s {
        if i < |p| && j < |p[i]| {
          assert r[i][j] == p[i][j];
          assert p[i][j] in s[..|s| - 1];
        }
      }
    }
  }

  /** Concatenation of the runs, appended from the front. */
  function Flatten<T>(rs: seq<seq<T>>): seq<T>
  {
    if rs == [] then [] else Flatten(rs[..|rs| - 1]) + Last(rs)
  }

  /** `rs` splits `s` into non-empty stretches of one key, neighbouring stretches differing in key. */
  ghost predicate IsRunPartition<T>(rs: seq<seq<T>>, s: seq<T>, key: T -> string)
  {
    && Flatten(rs) == s
    && (forall i :: 0 <= i < |rs| ==> rs[i] != [])
    && (forall i, j :: 0 <= i < |rs| && 0 <= j < |rs[i]| ==> key(rs[i][j]) == key(rs[i][0]))
    && (forall i :: 0 <= i < |rs| - 1 ==> key(rs[i][0]) != key(rs[i + 1][0]))
  }

  /** Flattening one more run appends its elements. */
  lemma FlattenSnoc<T>(rs: seq<seq<T>>, run: seq<T>)
    ensures Flatten(rs + [run]) == Flatten(rs) + run
  {
    assert (rs + [run])[..|rs|] == rs;
  }

  lemma {:induction false} RunsFlatten<T>(s: seq<T>, key: T -> string)
    ensures Flatten(Runs(s, key)) == s
  {
    if s != [] {
      var s' := s[..|s| - 1];
      var x := Last(s);
      var p := Runs(s', key);
      RunsFlatten(s', key);
      FrontLast(s);
      if p != [] && key(Last(Last(p))) == key(x) {
        var init := p[..|p| - 1];
        FrontLast(p);
        RunsExtend(s, key, init, Last(p));
        FlattenSnoc(init, Last(p) + [x]);
        FlattenSnoc(init, Last(p));
        AppendAssoc(Flatten(init), Last(p), [x]);
      } else {
        RunsOpen(s, key);
        FlattenSnoc(p, [x]);
      }
    }
  }

  lemma {:induction false} RunsNeighboursDiffer<T>(s: seq<T>, key: T -> string)
    ensures forall i :: 0 <= i < |Runs(s, key)| - 1 ==> key(Runs(s, key)[i][0]) != key(Runs(s, key)[i + 1][0])
  {
    if s != [] {
      var s' := s[..|s| - 1];
      var x := s[|s| - 1];
      var p := Runs(s', key);
      var r := Runs(s, key);
      RunsNeighboursDiffer(s', key);
      RunsShareKey(s', key);
      if p != [] && key(Last(Last(p))) == key(x) {
        assert r == p[..|p| - 1] + [Last(p) + [x]];
        forall i | 0 <= i < |r| - 1 ensures key(r[i][0]) != key(r[i + 1][0]) {
          assert r[i][0] == p[i][0];
          assert r[i + 1][0] == p[i + 1][0];
          assert key(p[i][0]) != key(p[i + 1][0]);
        }
      } else {
        forall i | 0 <= i < |r| - 1 ensures key(r[i][0]) != key(r[i + 1][0]) {
          assert r[i] == p[i];
          if i + 1 < |p| {
            assert r[i + 1] == p[i + 1];
          } else {
            assert key(Last(Last(p))) == key(Last(p)[0]);
          }
        }
      }
    }
  }

  /** `Runs` is a partition into maximal runs. */
  lemma RunsIsPartition<T>(s: seq<T>, key: T -> string)
    ensures IsRunPartition(Runs(s, key), s, key)
  {
    RunsFlatten(s, key);
    RunsShareKey(s, key);
    RunsNeighboursDiffer(s, key);
  }

  /** Removing a final one-element run leaves a partition of the rest. */
  lemma PartitionDropLast<T>(rs: seq<seq<T>>, s: seq<T>, key: T -> string)
    requires IsRunPartition(rs, s, key)
    requires rs != [] && |Last(rs)| == 1
    ensures s != [] && IsRunPartition(rs[..|rs| - 1], s[..|s| - 1], key)
  {
    var init := rs[..|rs| - 1];
    assert s == Flatten(init) + Last(rs);
    assert s[..|s| - 1] == Flatten(init);
  }

  /** Removing the last element of a longer final run leaves a partition of the rest. */
  lemma PartitionShortenLast<T>(rs: seq<seq<T>>, s: seq<T>, key: T -> string)
    requires IsRunPartition(rs, s, key)
    requires rs != [] && |Last(rs)| > 1
    ensures s != []
    ensures IsRunPartition(rs[..|rs| - 1] + [Last(rs)[..|Last(rs)| - 1]], s[..|s| - 1], key)
  {
    ShortenLastFlatten(rs, s);
    ShortenLastKeys(rs, s, key);
  }

  /** Removing the last element of a non-empty final run removes the last element of the flattening. */
  lemma ShortenLastFlatten<T>(rs: seq<seq<T>>, s: seq<T>)
    requires Flatten(rs) == s && rs != [] && Last(rs) != []
    ensures s != []
    ensures Flatten(rs[..|rs| - 1] + [Last(rs)[..|Last(rs)| - 1]]) == s[..|s| - 1]
  {
    var init := rs[..|rs| - 1];
    var run := Last(rs);
    var run' := run[..|run| - 1];
    FrontLast(rs);
    FlattenSnoc(init, run);
    FrontLast(run);
    FlattenSnoc(init, run');
    AppendAssoc(Flatten(init), run', [Last(run)]);
    assert s == (Flatten(init) + run') + [Last(run)];
  }

  /** Removing the last element of a longer final run keeps every run non-empty and of one key. */
  lemma ShortenLastKeys<T>(rs: seq<seq<T>>, s: seq<T>, key: T -> string)
    requires IsRunPartition(rs, s, key)
    requires rs != [] && |Last(rs)| > 1
    ensures var rs' := rs[..|rs| - 1] + [Last(rs)[..|Last(rs)| - 1]];
            && (forall i :: 0 <= i < |rs'| ==> rs'[i] != [])
            && (forall i, j :: 0 <= i < |rs'| && 0 <= j < |rs'[i]| ==> key(rs'[i][j]) == key(rs'[i][0]))
            && (forall i :: 0 <= i < |rs'| - 1 ==> key(rs'[i][0]) != key(rs'[i + 1][0]))
  {
    var rs' := rs[..|rs| - 1] + [Last(rs)[..|Last(rs)| - 1]];
    forall i, j | 0 <= i < |rs'| && 0 <= j < |rs'[i]|
      ensures key(rs'[i][j]) == key(rs'[i][0])
    {
      assert rs'[i][j] == rs[i][j] && rs'[i][0] == rs[i][0];
    }
    forall i | 0 <= i < |rs'| - 1
      ensures key(rs'[i][0]) != key(rs'[i + 1][0])
    {
      assert rs'[i][0] == rs[i][0] && rs'[i + 1][0] == rs[i + 1][0];
    }
  }

  /** `Runs` of a sequence whose last element opens a new run. */
  lemma RunsOpen<T>(s: seq<T>, key: T -> string)
    requires s != []
    requires Runs(s[..|s| - 1], key) == [] || key(Last(Last(Runs(s[..|s| - 1], key)))) != key(Last(s))
    ensures Runs(s, key) == Runs(s[..|s| - 1], key) + [[Last(s)]]
  {
  }

  /** One step of uniqueness: a final one-element run starts a new run of `Runs`. */
  lemma UniqueStepNewRun<T>(rs: seq<seq<T>>, s: seq<T>, key: T -> string)
    requires IsRunPartition(rs, s, key)
    requires rs != [] && |Last(rs)| == 1 && s != []
    requires rs[..|rs| - 1] == Runs(s[..|s| - 1], key)
    ensures rs == Runs(s, key)
  {
    var init := rs[..|rs| - 1];
    LastRunSingleton(rs, s);
    if init != [] {
      PrevRunDiffers(rs, s, key);
      assert Last(init) == rs[|rs| - 2];
    }
    RunsOpen(s, key);
  }

  /** A last run of one element holds the last element of the partitioned sequence. */
  lemma LastRunSingleton<T>(rs: seq<seq<T>>, s: seq<T>)
    requires Flatten(rs) == s && rs != [] && |Last(rs)| == 1
    ensures Last(rs) == [Last(s)]
  {
    FrontLast(rs);
    FlattenSnoc(rs[..|rs| - 1], Last(rs));
    assert s == Flatten(rs[..|rs| - 1]) + Last(rs);
    assert Last(rs)[0] == s[|s| - 1];
  }

  /** In a run partition, the run before the last one ends on a different key. */
  lemma PrevRunDiffers<T>(rs: seq<seq<T>>, s: seq<T>, key: T -> string)
    requires IsRunPartition(rs, s, key) && |rs| >= 2
    ensures rs[|rs| - 2] != [] && key(Last(rs[|rs| - 2])) != key(Last(rs)[0])
  {
    var prev := rs[|rs| - 2];
    assert key(prev[|prev| - 1]) == key(prev[0]);
    assert key(prev[0]) != key(rs[|rs| - 1][0]);
  }

  /** A nonempty sequence is its front followed by its last element. */
  lemma FrontLast<T>(s: seq<T>)
    requires s != []
    ensures s[..|s| - 1] + [Last(s)] == s
  {
  }

  /** The front and the last element of `a + [x]`. */
  lemma SnocParts<T>(a: seq<T>, x: T)
    ensures (a + [x])[..|a|] == a && Last(a + [x]) == x
  {
  }

  /** `Runs` of a sequence whose last element continues the last run. */
  lemma RunsExtend<T>(s: seq<T>, key: T -> string, init: seq<seq<T>>, run: seq<T>)
    requires s != [] && Runs(s[..|s| - 1], key) == init + [run]
    requires run != [] && key(Last(run)) == key(Last(s))
    ensures Runs(s, key) == init + [run + [Last(s)]]
  {
    SnocParts(init, run);
  }

  /** One step of uniqueness: a longer final run extends the last run of `Runs`. */
  lemma UniqueStepExtend<T>(rs: seq<seq<T>>, s: seq<T>, key: T -> string)
    requires rs != [] && |Last(rs)| > 1 && s != []
    requires Last(s) == Last(Last(rs))
    requires key(Last(rs)[|Last(rs)| - 2]) == key(Last(s))
    requires rs[..|rs| - 1] + [Last(rs)[..|Last(rs)| - 1]] == Runs(s[..|s| - 1], key)
    ensures rs == Runs(s, key)
  {
    var run := Last(rs);
    var run' := run[..|run| - 1];
    assert Last(run') == run[|run| - 2];
    RunsExtend(s, key, rs[..|rs| - 1], run');
    FrontLast(run);
    FrontLast(rs);
  }

  /** Maximal runs are unique: every such partition of `s` is `Runs(s)`. */
  lemma {:induction false} RunPartitionUnique<T>(rs: seq<seq<T>>, s: seq<T>, key: T -> string)
    requires IsRunPartition(rs, s, key)
    ensures rs == Runs(s, key)
    decreases |s|
  {
    if rs == [] {
      assert s == [];
    } else if |Last(rs)| == 1 {
      PartitionDropLast(rs, s, key);
      RunPartitionUnique(rs[..|rs| - 1], s[..|s| - 1], key);
      UniqueStepNewRun(rs, s, key);
    } else {
      PartitionShortenLast(rs, s, key);
      RunPartitionUnique(rs[..|rs| - 1] + [Last(rs)[..|Last(rs)| - 1]], s[..|s| - 1], key);
      assert s == Flatten(rs[..|rs| - 1]) + Last(rs);
      UniqueStepExtend(rs, s, key);
    }
  }

  /** The last run carries the key of the last element. */
  lemma LastRunKey<T>(s: seq<T>, key: T -> string)
    requires s != []
    ensures key(Last(Runs(s, key))[0]) == key(Last(s))
  {
    var r := Runs(s, key);
    RunsShareKey(s, key);
    assert key(r[|r| - 1][|Last(r)| - 1]) == key(r[|r| - 1][0]);
  }

  /** When the keys of `s` never decrease, every run has a strictly larger key than the runs before it. */
  lemma {:induction false} RunKeysIncrease<T>(s: seq<T>, key: T -> string)
    requires forall i, j :: 0 <= i < j < |s| ==> StrLe(key(s[i]), key(s[j]))
    ensures forall i, j :: 0 <= i < j < |Runs(s, key)| ==> StrLt(key(Runs(s, key)[i][0]), key(Runs(s, key)[j][0]))
    ensures s != [] ==> forall i :: 0 <= i < |Runs(s, key)| ==> StrLe(key(Runs(s, key)[i][0]), key(Last(s)))
  {
    if s != [] {
      var s' := s[..|s| - 1];
      var x := s[|s| - 1];
      var p := Runs(s', key);
      var r := Runs(s, key);
      RunKeysIncrease(s', key);
      if p != [] && key(Last(Last(p))) == key(x) {
        assert r == p[..|p| - 1] + [Last(p) + [x]];
        forall i, j | 0 <= i < j < |r| ensures StrLt(key(r[i][0]), key(r[j][0])) {
          assert r[i][0] == p[i][0] && r[j][0] == p[j][0];
        }
        forall i | 0 <= i < |r| ensures StrLe(key(r[i][0]), key(x)) {
          assert r[i][0] == p[i][0];
          assert key(p[i][0]) == key(Last(p)[0]) || StrLt(key(p[i][0]), key(Last(p)[0]));
        }
      } else {
        assert r == p + [[x]];
        if p != [] {
          var y := Last(s');
          assert StrLe(key(y), key(x));
          assert key(y) == key(Last(Last(p)));
          assert StrLt(key(y), key(x));
          forall i | 0 <= i < |p| ensures StrLt(key(p[i][0]), key(x)) {
            if key(p[i][0]) != key(y) {
              StrLtTransitive(key(p[i][0]), key(y), key(x));
            }
          }
        }
        forall i | 0 <= i < |r| ensures StrLe(key(r[i][0]), key(x)) {
          if i < |p| {
            assert r[i][0] == p[i][0];
          }
        }
      }
    }
  }

  /** If all elements share one key there is at most one run. */
  lemma {:induction false} RunsOfOneKey<T>(s: seq<T>, key: T -> string)
    requires forall i :: 0 <= i < |s| ==> key(s[i]) == key(s[0])
    ensures |Runs(s, key)| <= 1
  {
    if |s| > 1 {
      var s' := s[..|s| - 1];
      RunsOfOneKey(s', key);
      var p := Runs(s', key);
      assert key(Last(Last(p))) == key(s[|s| - 2]) == key(s[|s| - 1]);
    }
  }
}
