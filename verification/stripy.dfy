/** The STRipy genotyping report, already read from JSON, as typed records:
    report -> entries -> locus -> targeted locus, alleles and metadata.
    Keys the converter reads with `[...]` are plain fields; keys it reads
    with `.get(...)` are `Option`s. JSON objects whose insertion order
    matters (an entry, the disease mapping) are sequences of key/value
    pairs in document order. */
module Stripy {
  import opened Wrappers

  /** A confidence interval: the `Min` and `Max` values, as Python's
      f-string renders them, when present. */
  datatype Interval = Interval(min: Option<string>, max: Option<string>)

  /** One allele. `repeats` and `populationZscore` hold what Python's
      `float()` makes of the JSON value: `Some(v)` for a finite number and
      `None` when it raises (for instance on "N/A") or gives NaN. */
  datatype AlleleReport = AlleleReport(
    repeats: Option<real>,
    ci: Interval,
    isPopulationOutlier: bool,
    populationZscore: Option<real>)

  datatype DiseaseInfo = DiseaseInfo(diseaseSymbol: string)

  datatype TargetedLocus = TargetedLocus(
    coordinates: string,
    motif: string,
    locusId: Option<string>,
    correspondingDisease: seq<(string, DiseaseInfo)>)

  /** `Coverage` is held as an integer; the converter passes whatever value
      the report has on to DP unchanged. */
  datatype Metadata = Metadata(coverage: int)

  /** A locus body. `alleles` is a list in the document; the converter
      unpacks it into exactly two alleles. */
  datatype LocusReport = LocusReport(
    targetedLocus: TargetedLocus,
    alleles: seq<AlleleReport>,
    metadata: Metadata,
    filter: string)

  /** One element of `GenotypingResults`: locus names to locus bodies. */
  type Entry = seq<(string, LocusReport)>

  datatype Report = Report(genotypingResults: Option<seq<Entry>>)
}
