/** The converter's `main` after argument parsing: load the report, then
    build the header and records. */
module Convert {
  import opened Wrappers
  import opened Text
  import opened Stripy
  import opened Loci
  import opened ContigOrder
  import opened LocusSort
  import opened Loader
  import opened Vcf

  function ConvertReport(report: Report, sample: string): (r: Result<(Header, seq<Record>), LoadError>)
    ensures r.Success? <==> LoadInputs(report).Success?
    ensures r.Failure? ==> r.error == LoadInputs(report).error
    ensures r.Success? ==> r.value == WriteVcf(LoadInputs(report).value, sample)
  {
    match LoadInputs(report)
    case Failure(e) => Failure(e)
    case Success(loci) => Success(WriteVcf(loci, sample))
  }

  /** Records in output order: by contig rank, then by POS. */
  predicate RecordLe(a: Record, b: Record) {
    var ka, kb := ChromKeyOf(a.contig), ChromKeyOf(b.contig);
    (ka != kb && KeyLe(ka, kb)) || (ka == kb && Pos(a) <= Pos(b))
  }

  /** A successful conversion writes one record per (locus name, locus)
      pair of the report, position-sorted as the output format needs, each
      on a canonical contig the header declares, and the header declares
      only contigs some record uses. */
  lemma ConvertedOutput(report: Report, sample: string)
    requires ConvertReport(report, sample).Success?
    ensures var (h, recs) := ConvertReport(report, sample).value;
      && |recs| == |ReportPairs(report)|
      && (forall i, j :: 0 <= i < j < |recs| ==> RecordLe(recs[i], recs[j]))
      && (forall r :: r in recs ==> RecordFitsHeader(h, r) && StartsWith(r.contig, "chr"))
      && h.contigs == set r | r in recs :: r.contig
  {
    var loci := LoadInputs(report).value;
    WrittenRecordsFitHeader(loci, sample);
    LoadedLociNormalized(report);
    WrittenInOrder(loci, sample);
    WrittenOnChrContigs(loci, sample);
  }

  /** Writing sorted loci gives records sorted by contig rank and POS. */
  lemma WrittenInOrder(loci: seq<Locus>, sample: string)
    requires Sorted(loci)
    ensures var recs := WriteVcf(loci, sample).1;
      forall i, j :: 0 <= i < j < |recs| ==> RecordLe(recs[i], recs[j])
  {
    var recs := WriteVcf(loci, sample).1;
    forall i, j | 0 <= i < j < |recs| ensures RecordLe(recs[i], recs[j]) {
      assert LocusLe(loci[i], loci[j]);
    }
  }

  /** Loci on "chr" contigs give records on "chr" contigs. */
  lemma WrittenOnChrContigs(loci: seq<Locus>, sample: string)
    requires forall l :: l in loci ==> StartsWith(l.chrom, "chr")
    ensures forall r :: r in WriteVcf(loci, sample).1 ==> StartsWith(r.contig, "chr")
  {
    var recs := WriteVcf(loci, sample).1;
    forall r | r in recs ensures StartsWith(r.contig, "chr") {
      var i :| 0 <= i < |recs| && recs[i] == r;
      assert loci[i] in loci;
    }
  }

  /** With no `GenotypingResults` key the conversion succeeds with a header
      and no records. */
  lemma MissingResultsConvertsToNothing(report: Report, sample: string)
    requires report.genotypingResults.None?
    ensures ConvertReport(report, sample).Success?
    ensures ConvertReport(report, sample).value.1 == []
    ensures ConvertReport(report, sample).value.0.contigs == {}
  {
  }
}
