/**
  The low-quality segments of one sample (low_quals.py). Every line of the tab-separated
  file arrives already split into its fields; there is no header line.
*/
module LowQuality {

  /** A row the loader can read: it has a first field, and five when it belongs to `sample`. */
  predicate Readable(f: seq<string>, sample: string)
  {
    |f| >= 1 && (f[0] == sample ==> |f| >= 5)
  }

  predicate AllReadable(rows: seq<seq<string>>, sample: string)
  {
    forall i :: 0 <= i < |rows| ==> Readable(rows[i], sample)
  }

  /** The records kept from `rows`: the first five fields of each row of `sample`, in file order. */
  function Kept(rows: seq<seq<string>>, sample: string): seq<seq<string>>
    requires AllReadable(rows, sample)
  {
    if rows == [] then []
    else
      var f := rows[|rows| - 1];
      Kept(rows[..|rows| - 1], sample) + (if f[0] == sample then [f[..5]] else [])
  }

  lemma {:induction false} KeptAppend(a: seq<seq<string>>, b: seq<seq<string>>, sample: string)
    requires AllReadable(a, sample) && AllReadable(b, sample)
    ensures AllReadable(a + b, sample)
    ensures Kept(a + b, sample) == Kept(a, sample) + Kept(b, sample)
  {
    if b != [] {
      var b' := b[..|b| - 1];
      assert (a + b)[..|a + b| - 1] == a + b';
      KeptAppend(a, b', sample);
    } else {
      assert a + b == a;
    }
  }

  /** Every kept record is a five-field prefix of a row of the sample. */
  lemma {:induction false} KeptSound(rows: seq<seq<string>>, sample: string)
    requires AllReadable(rows, sample)
    ensures forall r :: r in Kept(rows, sample) ==>
              |r| == 5 && r[0] == sample && exists i :: 0 <= i < |rows| && rows[i][0] == sample && r == rows[i][..5]
  {
    if rows != [] {
      var rows' := rows[..|rows| - 1];
      KeptSound(rows', sample);
      forall r | r in Kept(rows, sample)
        ensures |r| == 5 && r[0] == sample && exists i :: 0 <= i < |rows| && rows[i][0] == sample && r == rows[i][..5]
      {
        if r in Kept(rows', sample) {
          var i :| 0 <= i < |rows'| && rows'[i][0] == sample && r == rows'[i][..5];
          assert rows[i] == rows'[i];
        } else {
          assert r == rows[|rows| - 1][..5];
        }
      }
    }
  }

  /** Every row of the sample is kept. */
  lemma {:induction false} KeptComplete(rows: seq<seq<string>>, sample: string, i: nat)
    requires AllReadable(rows, sample) && i < |rows| && rows[i][0] == sample
    ensures rows[i][..5] in Kept(rows, sample)
  {
    var rows' := rows[..|rows| - 1];
    if i < |rows| - 1 {
      assert rows'[i] == rows[i];
      KeptComplete(rows', sample, i);
    }
  }

  /** Python's `LowQuals`. */
  class LowQuals {
    var lowqualList: seq<seq<string>>

    /** Loads the segments of `sample` from every line of the file. */
    constructor (rows: seq<seq<string>>, sample: string)
      requires AllReadable(rows, sample)
      ensures lowqualList == Kept(rows, sample)
    {
      lowqualList := [];
      new;
      var i := 0;
      while i < |rows|
        invariant 0 <= i <= |rows|
        invariant AllReadable(rows[..i], sample)
        invariant lowqualList == Kept(rows[..i], sample)
      {
        var fields := rows[i];
        if fields[0] == sample {
          var lowqualRec := [fields[0], fields[1], fields[2], fields[3], fields[4]];
          assert lowqualRec == fields[..5];
          lowqualList := lowqualList + [lowqualRec];
        }
        assert rows[..i + 1][..i] == rows[..i];
        i := i + 1;
      }
      assert rows[..i] == rows;
    }
  }
}
