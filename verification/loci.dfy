/** The normalisation half of `load_inputs`: one report locus becomes one
    normalised locus record, or a fatal error. */
module Loci {
  import opened Wrappers
  import opened Text
  import opened Coords
  import opened Stripy

  /** A Python float as the converter produces it: a finite number or NaN. */
  datatype Float = Num(value: real) | NaN

  datatype AlleleCall = AlleleCall(repeats: Float, ci: string, outlier: nat, zscore: Float)

  /** The normalised locus dictionary `load_inputs` builds. */
  datatype Locus = Locus(
    chrom: string,
    pos: nat,
    end: nat,
    id: string,
    motif: string,
    period: nat,
    a1: AlleleCall,
    a2: AlleleCall,
    coverage: int,
    filter: string,
    diseases: string)

  /** Where the converter would raise: `None` unpacked as the coordinate triple,
      or an allele list that does not unpack into two alleles. */
  datatype LoadError =
    | MalformedCoordinates(locus: string, coordinates: string)
    | AlleleCount(locus: string, count: nat)

  /** `to_float`: NaN whenever `float()` does not give a finite number. */
  function ToFloat(x: Option<real>): (f: Float)
    ensures f.Num? <==> x.Some?
    ensures x.Some? ==> f.value == x.value
  {
    match x
    case Some(v) => Num(v)
    case None => NaN
  }

  /** `ci_str`: "<Min>-<Max>", a missing bound rendered as "". The text is
      the lower bound's text, one '-', then the upper bound's text, so it
      splits back into the two bounds whenever neither contains '-'. */
  function CiString(ci: Interval): (s: string)
    ensures var lo, hi := ci.min.GetOr(""), ci.max.GetOr("");
      && |s| == |lo| + 1 + |hi|
      && s[..|lo|] == lo && s[|lo|] == '-' && s[|lo| + 1..] == hi
    ensures NoChar(ci.min.GetOr(""), '-') && NoChar(ci.max.GetOr(""), '-') ==>
      Split(s, '-') == [ci.min.GetOr(""), ci.max.GetOr("")]
  {
    var lo, hi := ci.min.GetOr(""), ci.max.GetOr("");
    BoundsSplit(lo, hi);
    lo + "-" + hi
  }

  lemma BoundsSplit(lo: string, hi: string)
    ensures (lo + "-" + hi)[..|lo|] == lo && (lo + "-" + hi)[|lo| + 1..] == hi
    ensures NoChar(lo, '-') && NoChar(hi, '-') ==> Split(lo + "-" + hi, '-') == [lo, hi]
  {
    var s := lo + "-" + hi;
    assert s[..|lo|] == lo && s[|lo| + 1..] == hi;
    if NoChar(lo, '-') && NoChar(hi, '-') {
      var parts := [lo, hi];
      assert Join(parts, '-') == s by {
        assert parts[1..] == [hi];
      }
      SplitJoin(parts, '-');
    }
  }

  /** `int()` of the outlier boolean. */
  function OutlierFlag(b: bool): (f: nat)
    ensures f <= 1 && (f == 1 <==> b)
  {
    if b then 1 else 0
  }

  /** The per-allele fields of the locus record: repeat count and z-score
      as floats (NaN when unparseable), the CI text and the 0/1 flag. */
  function NormalizeAllele(a: AlleleReport): (c: AlleleCall)
    ensures c.repeats.Num? <==> a.repeats.Some?
    ensures a.repeats.Some? ==> c.repeats.value == a.repeats.value
    ensures c.zscore.Num? <==> a.populationZscore.Some?
    ensures a.populationZscore.Some? ==> c.zscore.value == a.populationZscore.value
    ensures c.ci == CiString(a.ci)
    ensures c.outlier <= 1 && (c.outlier == 1 <==> a.isPopulationOutlier)
  {
    AlleleCall(ToFloat(a.repeats), CiString(a.ci), OutlierFlag(a.isPopulationOutlier), ToFloat(a.populationZscore))
  }

  /** `tl.get("LocusID") or locus_name`: the explicit id unless it is
      missing or empty. */
  function ResolveId(name: string, locusId: Option<string>): (id: string)
    ensures locusId.Some? && locusId.value != "" ==> id == locusId.value
    ensures locusId.None? || locusId.value == "" ==> id == name
  {
    match locusId
    case Some(x) => if x != "" then x else name
    case None => name
  }

  // ---------------------------------------------------------------------
  // Disease aggregation: `"|".join(sorted(set(diseases)))`.

  predicate StrictlyIncreasing(s: seq<string>) {
    forall i, j :: 0 <= i < j < |s| ==> StrLt(s[i], s[j])
  }

  function DiseaseSymbols(corr: seq<(string, DiseaseInfo)>): (syms: seq<string>)
    ensures |syms| == |corr|
    ensures forall i :: 0 <= i < |corr| ==> syms[i] == corr[i].1.diseaseSymbol
  {
    if |corr| == 0 then [] else [corr[0].1.diseaseSymbol] + DiseaseSymbols(corr[1..])
  }

  lemma StrLtTransitive(a: string, b: string, c: string)
    requires StrLt(a, b) && StrLt(b, c)
    ensures StrLt(a, c)
  {
    StrLeTransitive(a, b, c);
    if a == c {
      StrLeAntisymmetric(a, b);
    }
  }

  /** Adds `x` to a strictly increasing list unless it is already there. */
  function InsertDistinct(x: string, s: seq<string>): (r: seq<string>)
    requires StrictlyIncreasing(s)
    ensures StrictlyIncreasing(r)
    ensures forall y :: y in r <==> y == x || y in s
  {
    if |s| == 0 then [x]
    else if x == s[0] then s
    else if StrLe(x, s[0]) then
      assert forall j :: 0 < j < |s| ==> StrLt(x, s[j]) by {
        forall j | 0 < j < |s| ensures StrLt(x, s[j]) {
          StrLtTransitive(x, s[0], s[j]);
        }
      }
      [x] + s
    else
      StrLeTotal(x, s[0]);
      var rest := InsertDistinct(x, s[1..]);
      assert forall y :: y in rest ==> StrLt(s[0], y) by {
        forall y | y in rest ensures StrLt(s[0], y) {
          if y != x {
            var j :| 1 <= j < |s| && s[j] == y;
          }
        }
      }
      [s[0]] + rest
  }

  /** `sorted(set(xs))`: strictly increasing, with the same elements. */
  function SortedDistinct(xs: seq<string>): (r: seq<string>)
    ensures StrictlyIncreasing(r)
    ensures forall y :: y in r <==> y in xs
  {
    if |xs| == 0 then [] else InsertDistinct(xs[0], SortedDistinct(xs[1..]))
  }

  /** A strictly increasing list is determined by its elements, so
      `SortedDistinct` is the one sorted, duplicate-free listing of them. */
  lemma {:induction false} StrictlyIncreasingUnique(a: seq<string>, b: seq<string>)
    requires StrictlyIncreasing(a) && StrictlyIncreasing(b)
    requires forall y :: y in a <==> y in b
    ensures a == b
    decreases |a|
  {
    assert |a| > 0 ==> a[0] in a;
    assert |b| > 0 ==> b[0] in b;
    if |a| > 0 && |b| > 0 {
      if a[0] != b[0] {
        var i :| 0 <= i < |b| && b[i] == a[0];
        var j :| 0 <= j < |a| && a[j] == b[0];
        assert i > 0 && j > 0;
        assert StrLt(a[0], b[0]);
        assert StrLt(b[0], a[0]);
        StrLeAntisymmetric(a[0], b[0]);
      }
      assert a == [a[0]] + a[1..] && b == [b[0]] + b[1..];
      forall y ensures y in a[1..] <==> y in b[1..] {
        if y in a[1..] {
          var k :| 1 <= k < |a| && a[k] == y;
          assert StrLt(a[0], a[k]);
          assert y in a;
          assert y in b;
          var m :| 0 <= m < |b| && b[m] == y;
          assert b[1..][m - 1] == y;
        }
        if y in b[1..] {
          var k :| 1 <= k < |b| && b[k] == y;
          assert StrLt(b[0], b[k]);
          assert y in b;
          assert y in a;
          var m :| 0 <= m < |a| && a[m] == y;
          assert a[1..][m - 1] == y;
        }
      }
      StrictlyIncreasingUnique(a[1..], b[1..]);
    }
  }

  /** The disease field, `"|".join(sorted(set(diseases)))`: for every
      mapping, the '|'-join of a strictly increasing list holding exactly
      the mapping's symbols, so "" when there are none. When no symbol
      itself contains '|', splitting the field at '|' gives that list back. */
  function DiseasesString(corr: seq<(string, DiseaseInfo)>): (s: string)
    ensures |corr| == 0 ==> s == ""
    ensures exists r :: && StrictlyIncreasing(r)
                        && (forall y :: y in r <==> exists i :: 0 <= i < |corr| && corr[i].1.diseaseSymbol == y)
                        && s == Join(r, '|')
    ensures |corr| > 0 && (forall i :: 0 <= i < |corr| ==> NoChar(corr[i].1.diseaseSymbol, '|')) ==>
      var pieces := Split(s, '|');
      && StrictlyIncreasing(pieces)
      && (forall y :: y in pieces <==> exists i :: 0 <= i < |corr| && corr[i].1.diseaseSymbol == y)
  {
    DiseaseFieldFacts(corr);
    Join(SortedDistinct(DiseaseSymbols(corr)), '|')
  }

  /** The sorted distinct symbols are exactly the mapping's symbols, and
      their join splits back into them when no symbol contains '|'. */
  lemma DiseaseFieldFacts(corr: seq<(string, DiseaseInfo)>)
    ensures var r := SortedDistinct(DiseaseSymbols(corr));
      && (forall y :: y in r <==> exists i :: 0 <= i < |corr| && corr[i].1.diseaseSymbol == y)
      && (|corr| > 0 && (forall i :: 0 <= i < |corr| ==> NoChar(corr[i].1.diseaseSymbol, '|')) ==>
            Split(Join(r, '|'), '|') == r)
  {
    var syms := DiseaseSymbols(corr);
    var r := SortedDistinct(syms);
    forall y ensures y in r <==> exists i :: 0 <= i < |corr| && corr[i].1.diseaseSymbol == y {
      if y in syms {
        var i :| 0 <= i < |syms| && syms[i] == y;
      }
    }
    if |corr| > 0 && (forall i :: 0 <= i < |corr| ==> NoChar(corr[i].1.diseaseSymbol, '|')) {
      assert syms[0] in r;
      forall i | 0 <= i < |r| ensures NoChar(r[i], '|') {
        assert r[i] in syms;
      }
      SplitJoin(r, '|');
    }
  }

  // ---------------------------------------------------------------------
  // One locus.

  /** The body of the loop in `load_inputs` for one (locus name, locus)
      pair. The coordinates are unpacked before the alleles, so a malformed
      coordinate string is the error reported when both are wrong. */
  function NormalizeLocus(name: string, body: LocusReport): (r: Result<Locus, LoadError>)
    ensures ParseCoords(body.targetedLocus.coordinates).None? ==>
              r == Failure(MalformedCoordinates(name, body.targetedLocus.coordinates))
    ensures ParseCoords(body.targetedLocus.coordinates).Some? && |body.alleles| != 2 ==>
              r == Failure(AlleleCount(name, |body.alleles|))
    ensures r.Success? <==> ParseCoords(body.targetedLocus.coordinates).Some? && |body.alleles| == 2
    ensures r.Success? ==>
      var l := r.value;
      && (l.chrom, l.pos, l.end) == ParseCoords(body.targetedLocus.coordinates).value
      && StartsWith(l.chrom, "chr")
      && l.id == ResolveId(name, body.targetedLocus.locusId)
      && l.motif == body.targetedLocus.motif
      && l.period == |l.motif|
      && l.a1 == NormalizeAllele(body.alleles[0])
      && l.a2 == NormalizeAllele(body.alleles[1])
      && l.coverage == body.metadata.coverage
      && l.filter == body.filter
      && l.diseases == DiseasesString(body.targetedLocus.correspondingDisease)
  {
    var tl := body.targetedLocus;
    match ParseCoords(tl.coordinates)
    case None => Failure(MalformedCoordinates(name, tl.coordinates))
    case Some((chrom, start, end)) =>
      if |body.alleles| != 2 then Failure(AlleleCount(name, |body.alleles|))
      else
        Success(Locus(
          chrom, start, end,
          ResolveId(name, tl.locusId),
          tl.motif, |tl.motif|,
          NormalizeAllele(body.alleles[0]), NormalizeAllele(body.alleles[1]),
          body.metadata.coverage, body.filter,
          DiseasesString(tl.correspondingDisease)))
  }
}
