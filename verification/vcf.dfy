/** `write_with_pysam` without the library calls: the header it declares
    and the record it builds for each locus, as plain values. Field
    identifiers, counts and types follow the header lines the converter
    adds; the meaning of Number and Type is that of sections 1.4.2 (INFO)
    and 1.4.4 (FORMAT) of the VCF v4.2 specification, and the record's
    positional fields that of section 1.6.1. */
module Vcf {
  import opened Wrappers
  import opened Text
  import opened Loci

  /** The Number of a header line: a fixed count, or "." for any number. */
  datatype Number = Count(n: nat) | Unbounded

  datatype ValueType = IntegerType | FloatType | StringType

  datatype FieldDef = FieldDef(id: string, number: Number, valueType: ValueType, description: string)

  datatype Header = Header(
    source: string,
    info: seq<FieldDef>,
    format: seq<FieldDef>,
    contigs: set<string>,
    samples: seq<string>)

  /** The INFO lines, in the order the converter adds them. */
  const InfoSchema: seq<FieldDef> := [
    FieldDef("END", Count(1), IntegerType, "Stop position of the interval"),
    FieldDef("SVTYPE", Count(1), StringType, "Type of structural variant"),
    FieldDef("RU", Count(1), StringType, "Repeat unit sequence (motif)"),
    FieldDef("PERIOD", Count(1), IntegerType, "Length of the repeat unit"),
    FieldDef("REPCN", Count(2), FloatType, "Allelic repeat counts (A1,A2) from STRipy"),
    FieldDef("REPCI", Count(2), StringType, "Allelic 95% CI on repeat counts as min-max,min-max"),
    FieldDef("OUTLIER", Count(2), IntegerType, "Allelic population outlier flags (0/1)"),
    FieldDef("ZSCORE", Count(2), FloatType, "Allelic population Z-scores"),
    FieldDef("DP", Count(1), IntegerType, "Depth (coverage) at locus, from STRipy"),
    FieldDef("DISEASES", Unbounded, StringType, "Associated disease symbols for this locus (| separated)"),
    FieldDef("LOCUS", Count(1), StringType, "Gene/locus identifier from STRipy")
  ]

  /** The FORMAT lines. */
  const FormatSchema: seq<FieldDef> := [
    FieldDef("GT", Count(1), StringType, "Unphased genotype"),
    FieldDef("AR", Count(2), IntegerType, "Allelic repeat counts (A1,A2) from STRipy")
  ]

  const Source := "STRipy2VCF"

  /** The header: the converter's source name, fixed schema, one contig line
      per distinct locus contig, and the single sample. */
  function BuildHeader(loci: seq<Locus>, sample: string): (h: Header)
    ensures forall l :: l in loci ==> l.chrom in h.contigs
    ensures forall c :: c in h.contigs ==> exists l :: l in loci && l.chrom == c
    ensures h.samples == [sample]
    ensures h.source == "STRipy2VCF"
    ensures h.info == InfoSchema && h.format == FormatSchema
  {
    Header(Source, InfoSchema, FormatSchema, set l | l in loci :: l.chrom, [sample])
  }

  // ---------------------------------------------------------------------
  // Records.

  datatype Value = IntValue(i: int) | FloatValue(f: Float) | StringValue(s: string)

  datatype Info = Info(
    svtype: string,
    ru: Option<string>,
    period: Option<nat>,
    repcn: (Float, Float),
    repci: (string, string),
    outlier: (nat, nat),
    zscore: (Float, Float),
    dp: int,
    diseases: string,
    locus: string)

  datatype SampleFields = SampleFields(gt: (nat, nat), ar: (Float, Float))

  /** A record as pysam holds it: `start` is 0-based, `stop` is the end. */
  datatype Record = Record(
    contig: string,
    start: int,
    stop: nat,
    id: string,
    ref: string,
    alts: seq<string>,
    filter: string,
    info: Info,
    sample: SampleFields)

  /** The 1-based POS column. */
  function Pos(r: Record): int {
    r.start + 1
  }

  const StrAllele := "<STR>"

  /** The record the converter builds for one locus. */
  function RecordOf(l: Locus): (r: Record)
    ensures r.contig == l.chrom && Pos(r) == l.pos && r.stop == l.end
    ensures r.id == l.id && r.info.locus == l.id
    ensures r.ref == "N" && r.alts == [StrAllele]
    ensures r.filter != ""
    ensures l.filter != "" ==> r.filter == l.filter
    ensures l.filter == "" ==> r.filter == "PASS"
    ensures r.info.svtype == "STR"
    ensures r.info.ru.Some? <==> l.motif != ""
    ensures r.info.ru.Some? ==> r.info.ru.value == l.motif
    ensures r.info.period.Some? <==> l.motif != "" && l.period != 0
    ensures r.info.period.Some? ==> r.info.period.value == l.period
    ensures r.info.repcn == r.sample.ar == (l.a1.repeats, l.a2.repeats)
    ensures r.info.dp == l.coverage && r.info.diseases == l.diseases
    ensures r.sample.gt == (0, 0)
  {
    var info := Info(
      "STR",
      if l.motif != "" then Some(l.motif) else None,
      if l.motif != "" && l.period != 0 then Some(l.period) else None,
      (l.a1.repeats, l.a2.repeats),
      (l.a1.ci, l.a2.ci),
      (l.a1.outlier, l.a2.outlier),
      (l.a1.zscore, l.a2.zscore),
      l.coverage,
      l.diseases,
      l.id);
    Record(
      l.chrom, l.pos - 1, l.end, l.id, "N", [StrAllele],
      if l.filter != "" then l.filter else "PASS",
      info,
      SampleFields((0, 0), (l.a1.repeats, l.a2.repeats)))
  }

  /** Reads a locus back out of a record: the inverse of `RecordOf` up to
      the filter default. */
  function LocusOf(r: Record): Locus
    requires r.start >= -1
  {
    Locus(
      r.contig, r.start + 1, r.stop, r.id,
      r.info.ru.GetOr(""), r.info.period.GetOr(0),
      AlleleCall(r.info.repcn.0, r.info.repci.0, r.info.outlier.0, r.info.zscore.0),
      AlleleCall(r.info.repcn.1, r.info.repci.1, r.info.outlier.1, r.info.zscore.1),
      r.info.dp, r.filter, r.info.diseases)
  }

  /** The record loses nothing about a loaded locus except whether its
      filter was empty: reading it back gives the locus with "PASS" in
      place of an empty filter. */
  lemma RecordRoundTrip(l: Locus)
    requires l.period == |l.motif|
    ensures RecordOf(l).start >= -1
    ensures LocusOf(RecordOf(l)) == l.(filter := if l.filter == "" then "PASS" else l.filter)
  {
  }

  /** The converter writes one record per locus, in the order given. */
  function WriteVcf(loci: seq<Locus>, sample: string): (out: (Header, seq<Record>))
    ensures out.0 == BuildHeader(loci, sample)
    ensures |out.1| == |loci|
    ensures forall i :: 0 <= i < |loci| ==> out.1[i] == RecordOf(loci[i])
  {
    (BuildHeader(loci, sample), seq(|loci|, i requires 0 <= i < |loci| => RecordOf(loci[i])))
  }

  // ---------------------------------------------------------------------
  // Agreement between records and header.

  /** The INFO values of a record, in the order the converter sets them:
      SVTYPE, RU and PERIOD when present, then the allele pairs, depth,
      diseases and locus id. */
  function InfoFields(info: Info): seq<(string, seq<Value>)> {
    [("SVTYPE", [StringValue(info.svtype)])] + MotifFields(info) + AlleleFields(info)
  }

  function MotifFields(info: Info): seq<(string, seq<Value>)> {
    (if info.ru.Some? then [("RU", [StringValue(info.ru.value)])] else [])
    + (if info.period.Some? then [("PERIOD", [IntValue(info.period.value)])] else [])
  }

  function AlleleFields(info: Info): seq<(string, seq<Value>)> {
    [ ("REPCN", [FloatValue(info.repcn.0), FloatValue(info.repcn.1)]),
      ("REPCI", [StringValue(info.repci.0), StringValue(info.repci.1)]),
      ("OUTLIER", [IntValue(info.outlier.0), IntValue(info.outlier.1)]),
      ("ZSCORE", [FloatValue(info.zscore.0), FloatValue(info.zscore.1)]),
      ("DP", [IntValue(info.dp)]),
      ("DISEASES", [StringValue(info.diseases)]),
      ("LOCUS", [StringValue(info.locus)]) ]
  }

  /** The unphased genotype text, "0/0" for the converter's `(0, 0)`. */
  function GenotypeText(gt: (nat, nat)): string {
    DecimalString(gt.0) + "/" + DecimalString(gt.1)
  }

  /** The FORMAT values of the single sample. */
  function FormatFields(sample: SampleFields): seq<(string, seq<Value>)> {
    [ ("GT", [StringValue(GenotypeText(sample.gt))]),
      ("AR", [FloatValue(sample.ar.0), FloatValue(sample.ar.1)]) ]
  }

  function Lookup(defs: seq<FieldDef>, id: string): Option<FieldDef>
  {
    LookupFrom(defs, id, 0)
  }

  function LookupFrom(defs: seq<FieldDef>, id: string, k: nat): Option<FieldDef>
    decreases |defs| - k
  {
    if k >= |defs| then None
    else if defs[k].id == id then Some(defs[k])
    else LookupFrom(defs, id, k + 1)
  }

  lemma {:induction false} LookupFromFindsFirst(defs: seq<FieldDef>, id: string, k: nat, i: nat)
    requires k <= i < |defs| && defs[i].id == id
    requires forall j :: k <= j < i ==> defs[j].id != id
    ensures LookupFrom(defs, id, k) == Some(defs[i])
    decreases i - k
  {
    if k < i {
      LookupFromFindsFirst(defs, id, k + 1, i);
    }
  }

  lemma LookupFindsFirst(defs: seq<FieldDef>, id: string, i: nat)
    requires i < |defs| && defs[i].id == id
    requires forall j :: 0 <= j < i ==> defs[j].id != id
    ensures Lookup(defs, id) == Some(defs[i])
  {
    LookupFromFindsFirst(defs, id, 0, i);
  }

  predicate HasType(v: Value, t: ValueType) {
    match t
    case IntegerType => v.IntValue?
    case FloatType => v.FloatValue?
    case StringType => v.StringValue?
  }

  predicate ArityFits(n: Number, values: seq<Value>) {
    match n
    case Count(k) => |values| == k
    case Unbounded => true
  }

  /** Every field is declared, with a count that fits its values, and, when
      `typed`, a type that every value has. */
  predicate FieldsDeclared(defs: seq<FieldDef>, fields: seq<(string, seq<Value>)>, typed: bool) {
    forall i :: 0 <= i < |fields| ==>
      match Lookup(defs, fields[i].0)
      case None => false
      case Some(d) =>
        && ArityFits(d.number, fields[i].1)
        && (typed ==> forall j :: 0 <= j < |fields[i].1| ==> HasType(fields[i].1[j], d.valueType))
  }

  /** A record agrees with the header: its contig is declared, its INFO
      values have the declared counts and types, its FORMAT values the
      declared counts, and there is exactly one sample. */
  predicate RecordFitsHeader(h: Header, r: Record) {
    && r.contig in h.contigs
    && FieldsDeclared(h.info, InfoFields(r.info), true)
    && FieldsDeclared(h.format, FormatFields(r.sample), false)
    && |h.samples| == 1
  }

  /** In a schema without repeated identifiers, `Lookup` finds each
      definition by its own identifier. */
  lemma LookupDistinct(defs: seq<FieldDef>, i: nat)
    requires i < |defs|
    requires forall a, b :: 0 <= a < b < |defs| ==> defs[a].id != defs[b].id
    ensures Lookup(defs, defs[i].id) == Some(defs[i])
  {
    LookupFindsFirst(defs, defs[i].id, i);
  }

  /** Where `Lookup` finds the INFO identifiers a record sets first. */
  lemma MotifLookups()
    ensures Lookup(InfoSchema, "SVTYPE") == Some(InfoSchema[1])
    ensures Lookup(InfoSchema, "RU") == Some(InfoSchema[2])
    ensures Lookup(InfoSchema, "PERIOD") == Some(InfoSchema[3])
  {
    SchemaIdsDistinct();
    LookupDistinct(InfoSchema, 1);
    LookupDistinct(InfoSchema, 2);
    LookupDistinct(InfoSchema, 3);
  }

  /** Where `Lookup` finds the remaining INFO identifiers. */
  lemma AlleleLookups()
    ensures Lookup(InfoSchema, "REPCN") == Some(InfoSchema[4])
    ensures Lookup(InfoSchema, "REPCI") == Some(InfoSchema[5])
    ensures Lookup(InfoSchema, "OUTLIER") == Some(InfoSchema[6])
    ensures Lookup(InfoSchema, "ZSCORE") == Some(InfoSchema[7])
    ensures Lookup(InfoSchema, "DP") == Some(InfoSchema[8])
    ensures Lookup(InfoSchema, "DISEASES") == Some(InfoSchema[9])
    ensures Lookup(InfoSchema, "LOCUS") == Some(InfoSchema[10])
  {
    SchemaIdsDistinct();
    LookupDistinct(InfoSchema, 4);
    LookupDistinct(InfoSchema, 5);
    LookupDistinct(InfoSchema, 6);
    LookupDistinct(InfoSchema, 7);
    LookupDistinct(InfoSchema, 8);
    LookupDistinct(InfoSchema, 9);
    LookupDistinct(InfoSchema, 10);
  }

  lemma FieldsDeclaredAppend(defs: seq<FieldDef>, a: seq<(string, seq<Value>)>, b: seq<(string, seq<Value>)>, typed: bool)
    requires FieldsDeclared(defs, a, typed) && FieldsDeclared(defs, b, typed)
    ensures FieldsDeclared(defs, a + b, typed)
  {
    forall i | 0 <= i < |a + b|
      ensures (a + b)[i] == if i < |a| then a[i] else b[i - |a|]
    {
    }
  }

  lemma MotifFieldsDeclared(info: Info)
    ensures FieldsDeclared(InfoSchema, MotifFields(info), true)
  {
    MotifLookups();
  }

  lemma AlleleFieldsDeclared(info: Info)
    ensures FieldsDeclared(InfoSchema, AlleleFields(info), true)
  {
    AlleleLookups();
  }

  lemma InfoFieldsDeclared(info: Info)
    ensures FieldsDeclared(InfoSchema, InfoFields(info), true)
  {
    var head := [("SVTYPE", [StringValue(info.svtype)])];
    assert FieldsDeclared(InfoSchema, head, true) by {
      MotifLookups();
    }
    MotifFieldsDeclared(info);
    AlleleFieldsDeclared(info);
    FieldsDeclaredAppend(InfoSchema, head, MotifFields(info), true);
    FieldsDeclaredAppend(InfoSchema, head + MotifFields(info), AlleleFields(info), true);
  }

  lemma FormatFieldsDeclared(sample: SampleFields)
    ensures FieldsDeclared(FormatSchema, FormatFields(sample), false)
  {
  }

  /** Every record the converter writes agrees with the header it writes,
      and the header declares no contig that no record uses. */
  lemma WrittenRecordsFitHeader(loci: seq<Locus>, sample: string)
    ensures forall r :: r in WriteVcf(loci, sample).1 ==> RecordFitsHeader(WriteVcf(loci, sample).0, r)
    ensures WriteVcf(loci, sample).0.contigs == set r | r in WriteVcf(loci, sample).1 :: r.contig
  {
    var (h, recs) := WriteVcf(loci, sample);
    forall r | r in recs ensures RecordFitsHeader(h, r) {
      var i :| 0 <= i < |recs| && recs[i] == r;
      assert loci[i] in loci;
      InfoFieldsDeclared(r.info);
      FormatFieldsDeclared(r.sample);
    }
    forall c | c in h.contigs ensures c in set r | r in recs :: r.contig {
      var l :| l in loci && l.chrom == c;
      var i :| 0 <= i < |loci| && loci[i] == l;
      assert recs[i] in recs;
    }
  }

  /** No two INFO lines and no two FORMAT lines share an ID. */
  lemma SchemaIdsDistinct()
    ensures forall i, j :: 0 <= i < j < |InfoSchema| ==> InfoSchema[i].id != InfoSchema[j].id
    ensures forall i, j :: 0 <= i < j < |FormatSchema| ==> FormatSchema[i].id != FormatSchema[j].id
  {
  }
}
