/** `load_inputs` without the file reading: every (locus name, locus) pair
    of every `GenotypingResults` entry is normalised, in document order, and
    the result is sorted by contig rank and start position. The first
    malformed locus aborts the load. */
module Loader {
  import opened Wrappers
  import opened Text
  import opened Stripy
  import opened Loci
  import opened LocusSort

  /** The number of (locus name, locus) pairs across the entries. */
  function PairCount(entries: seq<Entry>): nat {
    if |entries| == 0 then 0 else |entries[0]| + PairCount(entries[1..])
  }

  /** Pair `j` of entry `i` sits in `pairs` after every pair of the entries
      before it. */
  predicate PairAt(entries: seq<Entry>, pairs: seq<(string, LocusReport)>, i: nat, j: nat)
    requires i < |entries| && j < |entries[i]|
  {
    PairCount(entries[..i]) + j < |pairs| && pairs[PairCount(entries[..i]) + j] == entries[i][j]
  }

  /** The pairs of all entries, entry by entry, each in document order. */
  function LocusPairs(entries: seq<Entry>): (pairs: seq<(string, LocusReport)>)
    ensures |pairs| == PairCount(entries)
    ensures forall i: nat, j: nat :: i < |entries| && j < |entries[i]| ==> PairAt(entries, pairs, i, j)
    ensures forall e, p :: e in entries && p in e ==> p in pairs
    ensures forall p :: p in pairs ==> exists e :: e in entries && p in e
  {
    if |entries| == 0 then []
    else
      var rest := LocusPairs(entries[1..]);
      assert forall e :: e in entries ==> e == entries[0] || e in entries[1..];
      PairsInOrder(entries, rest);
      entries[0] + rest
  }

  /** Placing the first entry's pairs before the pairs of the others puts
      every pair at its document-order position. */
  lemma PairsInOrder(entries: seq<Entry>, rest: seq<(string, LocusReport)>)
    requires |entries| > 0
    requires forall i: nat, j: nat :: i < |entries[1..]| && j < |entries[1..][i]| ==> PairAt(entries[1..], rest, i, j)
    ensures forall i: nat, j: nat :: i < |entries| && j < |entries[i]| ==> PairAt(entries, entries[0] + rest, i, j)
  {
    var pairs := entries[0] + rest;
    forall i: nat, j: nat | i < |entries| && j < |entries[i]|
      ensures PairAt(entries, pairs, i, j)
    {
      if i == 0 {
        assert entries[..0] == [];
        assert pairs[j] == entries[0][j];
      } else {
        assert PairAt(entries[1..], rest, i - 1, j);
        var k := PairCount(entries[1..][..i - 1]) + j;
        assert entries[..i][1..] == entries[1..][..i - 1];
        assert entries[i] == entries[1..][i - 1];
        assert PairCount(entries[..i]) == |entries[0]| + k - j;
        assert pairs[|entries[0]| + k] == rest[k];
      }
    }
  }

  /** `J.get("GenotypingResults", [])`: a missing key means no loci. */
  function ReportPairs(report: Report): (pairs: seq<(string, LocusReport)>)
    ensures report.genotypingResults.None? ==> pairs == []
    ensures report.genotypingResults.Some? ==> pairs == LocusPairs(report.genotypingResults.value)
  {
    match report.genotypingResults
    case None => []
    case Some(entries) => LocusPairs(entries)
  }

  /** Outcome `i` is the first failure, with error `e`. */
  predicate FirstFailure(rs: seq<Result<Locus, LoadError>>, i: nat, e: LoadError) {
    && i < |rs|
    && rs[i] == Failure(e)
    && forall j :: 0 <= j < i ==> rs[j].Success?
  }

  /** Gathers the loci of a list of outcomes, stopping at the first error:
      the loop's behaviour, where the first exception ends the run. */
  function CollectAll(rs: seq<Result<Locus, LoadError>>): (r: Result<seq<Locus>, LoadError>)
    ensures r.Success? <==> forall i :: 0 <= i < |rs| ==> rs[i].Success?
    ensures r.Success? ==>
      && |r.value| == |rs|
      && forall i :: 0 <= i < |rs| ==> rs[i] == Success(r.value[i])
    ensures r.Failure? ==> exists i :: FirstFailure(rs, i, r.error)
  {
    if |rs| == 0 then Success([])
    else
      match rs[0]
      case Failure(e) =>
        assert FirstFailure(rs, 0, e);
        Failure(e)
      case Success(l) =>
        match CollectAll(rs[1..])
        case Failure(e) =>
          var i: nat :| FirstFailure(rs[1..], i, e);
          assert FirstFailure(rs, i + 1, e) by {
            assert forall j :: 1 <= j < i + 1 ==> rs[j] == rs[1..][j - 1];
          }
          Failure(e)
        case Success(ls) =>
          assert forall i :: 1 <= i < |rs| ==> rs[i] == rs[1..][i - 1];
          Success([l] + ls)
  }

  /** The outcome of normalising each pair. */
  function Outcomes(pairs: seq<(string, LocusReport)>): (rs: seq<Result<Locus, LoadError>>)
    ensures |rs| == |pairs|
    ensures forall i :: 0 <= i < |pairs| ==> rs[i] == NormalizeLocus(pairs[i].0, pairs[i].1)
  {
    seq(|pairs|, i requires 0 <= i < |pairs| => NormalizeLocus(pairs[i].0, pairs[i].1))
  }

  /** Normalises every pair in order, stopping at the first error. */
  function NormalizeAll(pairs: seq<(string, LocusReport)>): (r: Result<seq<Locus>, LoadError>)
    ensures r.Success? <==> forall i :: 0 <= i < |pairs| ==> NormalizeLocus(pairs[i].0, pairs[i].1).Success?
    ensures r.Success? ==>
      && |r.value| == |pairs|
      && forall i :: 0 <= i < |pairs| ==> NormalizeLocus(pairs[i].0, pairs[i].1) == Success(r.value[i])
    ensures r.Failure? ==>
      exists i :: 0 <= i < |pairs|
        && NormalizeLocus(pairs[i].0, pairs[i].1) == Failure(r.error)
        && forall j :: 0 <= j < i ==> NormalizeLocus(pairs[j].0, pairs[j].1).Success?
  {
    FailureIsFirstFailingPair(pairs);
    CollectAll(Outcomes(pairs))
  }

  /** A failed collection carries the error of the first pair that fails. */
  lemma FailureIsFirstFailingPair(pairs: seq<(string, LocusReport)>)
    ensures var r := CollectAll(Outcomes(pairs));
      r.Failure? ==>
        exists i :: 0 <= i < |pairs|
          && NormalizeLocus(pairs[i].0, pairs[i].1) == Failure(r.error)
          && forall j :: 0 <= j < i ==> NormalizeLocus(pairs[j].0, pairs[j].1).Success?
  {
    var rs := Outcomes(pairs);
    var r := CollectAll(rs);
    if r.Failure? {
      var i: nat :| FirstFailure(rs, i, r.error);
    }
  }

  /** `load_inputs`: one normalised locus per pair, as a stable sort by
      `(chrom_key(chrom), pos)`. */
  function LoadInputs(report: Report): (r: Result<seq<Locus>, LoadError>)
    ensures report.genotypingResults.None? ==> r == Success([])
    ensures r.Success? <==> NormalizeAll(ReportPairs(report)).Success?
    ensures r.Failure? ==> r.error == NormalizeAll(ReportPairs(report)).error
    ensures r.Success? ==>
      var loaded := NormalizeAll(ReportPairs(report)).value;
      && |r.value| == |ReportPairs(report)|
      && Sorted(r.value)
      && multiset(r.value) == multiset(loaded)
      && forall k :: WithKey(r.value, k) == WithKey(loaded, k)
  {
    match NormalizeAll(ReportPairs(report))
    case Failure(e) => Failure(e)
    case Success(loaded) =>
      var sorted := SortLoci(loaded);
      assert forall k :: WithKey(sorted, k) == WithKey(loaded, k) by {
        forall k ensures WithKey(sorted, k) == WithKey(loaded, k) {
          SortStable(loaded, k);
        }
      }
      Success(sorted)
  }

  /** Every loaded locus carries a canonical contig and its motif's length
      as period. */
  lemma LoadedLociNormalized(report: Report)
    requires LoadInputs(report).Success?
    ensures forall l :: l in LoadInputs(report).value ==>
      StartsWith(l.chrom, "chr") && l.period == |l.motif|
  {
    var loaded := NormalizeAll(ReportPairs(report)).value;
    var out := LoadInputs(report).value;
    NormalizedShape(ReportPairs(report));
    forall l | l in out ensures StartsWith(l.chrom, "chr") && l.period == |l.motif| {
      assert l in multiset(out);
      assert l in multiset(loaded);
    }
  }

  /** Every normalised locus has a "chr" contig and a period equal to its
      motif length. */
  lemma NormalizedShape(pairs: seq<(string, LocusReport)>)
    requires NormalizeAll(pairs).Success?
    ensures forall l :: l in NormalizeAll(pairs).value ==>
      StartsWith(l.chrom, "chr") && l.period == |l.motif|
  {
    var loaded := NormalizeAll(pairs).value;
    forall l | l in loaded ensures StartsWith(l.chrom, "chr") && l.period == |l.motif| {
      var i :| 0 <= i < |loaded| && loaded[i] == l;
      assert NormalizeLocus(pairs[i].0, pairs[i].1) == Success(l);
    }
  }
}
