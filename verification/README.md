# STRipy report to VCF converter: a Dafny model

This project models the converter `docker/scripts/stripy_to_vcf.py`, which
turns a STRipy genotyping report into single-sample VCF records for short
tandem repeat (STR) loci. The model covers the converter's three pure parts:

- **Coordinate parsing** (`parse_coords`, module `Coords`). The converter
  matches `(chr)?(?P<chrom>[^:]+):(?P<start>\d+)-(?P<end>\d+)` at the start
  of the string, then prepends `chr` to the contig only when it is absent. The model
  writes the matcher out step by step. It includes the backtracking of the
  optional `chr` group, so `"chr:1-2"` yields contig `"chr"`. It is proved
  against a reference description of the strings the pattern matches.
- **Contig ranking and locus order** (`chrom_key` and the sort in
  `load_inputs`, modules `ContigOrder` and `LocusSort`). The key is
  `Ranked(tier, rank)` for Python's integer tuples `(0, n)`, `(1, 23)`,
  `(1, 24)` and `(2, 25)`, and `Unplaced(name)` for `(9, name)`. The sort is
  a stable insertion sort. It is proved sorted, a permutation and stable. It
  is also proved equal to every other stable sort of the same list, so it
  gives the same result as Python's `list.sort`.
- **Normalisation and record building** (`load_inputs` and
  `write_with_pysam`, modules `Loci`, `Loader`, `Vcf` and `Convert`). The
  report arrives as typed Dafny records (`Stripy`). Each locus becomes a
  normalised `Locus`, or a `LoadError`. Each `Locus` becomes an abstract VCF
  `Record`. The header is a value holding the fixed INFO/FORMAT schema, the
  contig set and the sample.

The model departs from the code in two places. The code unpacks the result of
`parse_coords` straight into three names (line 37). A malformed coordinate
string therefore crashes it with a Python `TypeError`. The model returns
`Failure(MalformedCoordinates(name, coordinates))` instead. In the same way,
an allele list that does not unpack into two alleles (line 39) becomes
`Failure(AlleleCount(name, count))`. The coordinates are unpacked first, so
when both are wrong the coordinate error is the one reported.

Two details of the code are easy to miss, and the model keeps both:
- Not every INFO field is set on every record. RU is set only for a
  non-empty motif, and PERIOD only when the period is also non-zero
  (lines 117-120).
- The header declares an INFO line `END` (line 86), although the record
  loop never sets it directly.

Integers are unbounded, as in Python. Positions are `nat` because they come
from digit runs.

## Model

| member | source | states |
|---|---|---|
| Coords.ParseCoords | docker/scripts/stripy_to_vcf.py:13-20 | a successful parse always returns a contig that starts with "chr" |
| Coords.ParseCoordsComplete | docker/scripts/stripy_to_vcf.py:14-20 | every string of the form name ':' digits '-' digits, followed by anything, parses. The contig is the name after the optional `chr` group, normalised. start is the value of the start digits. end is the value of the longest digit run after '-' |
| Coords.ParseCoordsSound | docker/scripts/stripy_to_vcf.py:14-16 | whatever parses has the pattern's shape at its beginning |
| Coords.ParseCoordsNoneIff | docker/scripts/stripy_to_vcf.py:14-16 | the parser returns None exactly when the string does not match the pattern at its beginning |
| Coords.TrailingTextIgnored | docker/scripts/stripy_to_vcf.py:14 | appending text that does not begin with a digit to a parseable string leaves the result unchanged (re.match is anchored only at the start) |
| Coords.Canonical | docker/scripts/stripy_to_vcf.py:18-19 | the normalised contig starts with "chr". It is the raw contig when that already has the prefix, and otherwise the raw contig behind one added "chr" |
| Coords.PrefixAddedOnlyWhenAbsent | docker/scripts/stripy_to_vcf.py:17-19 | the parsed contig starts with "chr", and "chr" is added exactly when the name lacks it. Normalising again changes nothing |
| Coords.ParseRenderedCoords | docker/scripts/stripy_to_vcf.py:13-20 | rendering a contig and two numbers as "contig:start-end" parses back to the same triple when the contig starts with "chr", has no ':', and its text after "chr" does not itself start with "chr" |
| Coords.PrefixAddedExample | docker/scripts/stripy_to_vcf.py:18-19 | "4:3-9" parses to ("chr4", 3, 9) |
| Coords.BacktrackingExample | docker/scripts/stripy_to_vcf.py:14 | "chr:1-2" parses to contig "chr", because the optional group backtracks |
| Coords.DoubledPrefixExample | docker/scripts/stripy_to_vcf.py:14-19 | "chrchr7:5-9x" parses to ("chr7", 5, 9): the `chr` group takes one prefix, and the text after the end digits is ignored |
| Coords.TripledPrefixExample | docker/scripts/stripy_to_vcf.py:14-19 | "chrchrchr1:1-2" parses to ("chrchr1", 1, 2): the group takes only one "chr" and normalisation removes none, so a repeated prefix survives |
| Coords.NoColonNoParse | docker/scripts/stripy_to_vcf.py:14-16 | a string without ':' (such as "chr4-bad") never parses |
| ContigOrder.ChromKeyOf | docker/scripts/stripy_to_vcf.py:22-27 | every integer-tuple key has tier at most 2, so it sorts before the (9, name) keys |
| ContigOrder.NumberedDigitsIff | docker/scripts/stripy_to_vcf.py:23 | `chr(\d+)$` captures d exactly when the contig is "chr"+d, or "chr"+d followed by a final newline (Python's `$`), with d a non-empty digit run |
| ContigOrder.NumberedByValue | docker/scripts/stripy_to_vcf.py:23-25 | numbered contigs are ordered by their integer value |
| ContigOrder.NumberedFirst | docker/scripts/stripy_to_vcf.py:22-27 | every numbered contig sorts strictly before every contig that is not numbered |
| ContigOrder.SexAndMitochondrialOrder | docker/scripts/stripy_to_vcf.py:26-27 | chrX < chrY < chrM, and chrM and chrMT have the same key |
| ContigOrder.UnplacedLast | docker/scripts/stripy_to_vcf.py:26-27 | numbered contigs, chrX, chrY, chrM and chrMT all sort strictly before any other contig |
| ContigOrder.UnplacedByName | docker/scripts/stripy_to_vcf.py:27 | other contigs are ordered by name, code point by code point |
| ContigOrder.EqualKeys | docker/scripts/stripy_to_vcf.py:22-27 | two contigs tie only if they are the same name, are both numbered, or are chrM and chrMT |
| ContigOrder.KeyLeTotal | docker/scripts/stripy_to_vcf.py:22-27 | any two keys are comparable |
| ContigOrder.KeyLeTransitive | docker/scripts/stripy_to_vcf.py:22-27 | the key order is transitive |
| ContigOrder.KeyLeAntisymmetric | docker/scripts/stripy_to_vcf.py:22-27 | keys that are each at most the other are equal |
| Loci.ToFloat | docker/scripts/stripy_to_vcf.py:40-44 | an unparseable value becomes NaN, and a parseable one keeps its value |
| Loci.OutlierFlag | docker/scripts/stripy_to_vcf.py:48-49 | the flag is 0 or 1, and it is 1 exactly when the outlier boolean is true |
| Loci.ResolveId | docker/scripts/stripy_to_vcf.py:58 | the id is LocusID when that is present and non-empty, and otherwise the locus key name |
| Loci.SortedDistinct | docker/scripts/stripy_to_vcf.py:54 | the list is strictly increasing (so it has no duplicates) and has exactly the input's elements |
| Loci.StrictlyIncreasingUnique | docker/scripts/stripy_to_vcf.py:54 | two strictly increasing lists with the same elements are equal, so sorted(set(...)) has one possible result |
| Loci.DiseasesString | docker/scripts/stripy_to_vcf.py:50-54 | for every mapping the field is the '\|'-join of a strictly increasing list holding exactly the DiseaseSymbol values, so "" when there are none. When no symbol contains '\|', splitting the field at '\|' gives that list back |
| Loci.CiString | docker/scripts/stripy_to_vcf.py:45-47 | the text is the Min text, one '-', then the Max text, with "" for a missing bound. When neither bound contains '-', splitting it at '-' gives back exactly the two bound texts |
| Loci.NormalizeAllele | docker/scripts/stripy_to_vcf.py:66-73 | the repeat count and z-score are NaN exactly when unparseable and otherwise keep their value. The CI text is the allele's ci_str. The outlier flag is 0 or 1, and 1 exactly when IsPopulationOutlier is true |
| Loci.NormalizeLocus | docker/scripts/stripy_to_vcf.py:35-77 | a malformed coordinate string gives MalformedCoordinates. A wrong allele count gives AlleleCount. Otherwise the locus takes its contig and positions from the parser and its id from the id rule. Its period is the motif length. The alleles, coverage, filter and disease field come from the report |
| LocusSort.SortLoci | docker/scripts/stripy_to_vcf.py:78 | the result is sorted by (contig key, pos) and is a permutation of the input |
| LocusSort.SortStable | docker/scripts/stripy_to_vcf.py:78 | loci with equal keys keep their input order |
| LocusSort.StableSortUnique | docker/scripts/stripy_to_vcf.py:78 | every sorted list that keeps each key's subsequence equals SortLoci's result |
| Loader.LocusPairs | docker/scripts/stripy_to_vcf.py:33-34 | pair j of entry i sits at position (pairs of entries 0..i-1) + j, so the list holds every (entry, locus name) pair exactly once, in document order |
| Loader.ReportPairs | docker/scripts/stripy_to_vcf.py:33 | a missing GenotypingResults key gives no loci. A present one gives the pairs of its entries in document order |
| Loader.NormalizeAll | docker/scripts/stripy_to_vcf.py:33-77 | success means every pair normalised. The i-th locus is the i-th pair's normalisation. A failure is the error of the first pair that fails |
| Loader.LoadInputs | docker/scripts/stripy_to_vcf.py:29-79 | one locus per pair. The output is sorted, a permutation of the normalised loci, and stable on ties. A missing key gives an empty list |
| Loader.LoadedLociNormalized | docker/scripts/stripy_to_vcf.py:59-65 | every loaded locus has a "chr" contig, and its period equals its motif length |
| Vcf.BuildHeader | docker/scripts/stripy_to_vcf.py:83-105 | the header names the source "STRipy2VCF" (line 85) and declares the contig of every locus and no other contig. It carries the fixed INFO and FORMAT schema and exactly one sample |
| Vcf.RecordOf | docker/scripts/stripy_to_vcf.py:107-129 | POS is the locus pos (start is pos - 1) and stop is its end. ID and LOCUS are the id. REF is "N" and ALT is "\<STR\>". FILTER is the filter, or "PASS" when that is empty. SVTYPE is "STR". RU is present exactly when the motif is non-empty. PERIOD is present exactly when the motif is non-empty and the period is non-zero. REPCN and AR carry the repeat counts. GT is (0,0) |
| Vcf.RecordRoundTrip | docker/scripts/stripy_to_vcf.py:107-129 | reading a loaded locus back from its record gives the locus again, except that an empty filter comes back as "PASS" |
| Vcf.WriteVcf | docker/scripts/stripy_to_vcf.py:82-131 | one record per locus, in input order, with the header built from the same loci |
| Vcf.WrittenRecordsFitHeader | docker/scripts/stripy_to_vcf.py:85-129 | every written record's contig is declared. Its INFO values have the declared counts and types, and its FORMAT values the declared counts. The header's contigs are exactly the records' contigs |
| Vcf.InfoFieldsDeclared | docker/scripts/stripy_to_vcf.py:116-127 | every INFO value a record carries is declared with a matching count and type |
| Vcf.FormatFieldsDeclared | docker/scripts/stripy_to_vcf.py:128-129 | GT and AR are declared FORMAT fields with matching counts |
| Vcf.SchemaIdsDistinct | docker/scripts/stripy_to_vcf.py:86-98 | no two INFO lines and no two FORMAT lines share an ID |
| Convert.ConvertReport | docker/scripts/stripy_to_vcf.py:143-144 | the conversion fails exactly when loading fails, with the same error. Otherwise it writes the loaded loci |
| Convert.ConvertedOutput | docker/scripts/stripy_to_vcf.py:143-144 | one record per locus pair of the report. The records are sorted by (contig key, POS), each sits on a declared "chr" contig, and the header declares only contigs some record uses |
| Convert.MissingResultsConvertsToNothing | docker/scripts/stripy_to_vcf.py:33 | a report without GenotypingResults converts to a header without contigs and no records |

## Left out

- File reading and `json.load` (lines 30-31): the report is given as typed records.
- A missing required key (`KeyError` on `TargetedLocus`, `Coordinates`, `Motif`, `Alleles`, `CI`, `IsPopulationOutlier`, `Repeats`, `PopulationZscore`, `CorrespondingDisease`, `DiseaseSymbol`, `Metadata`, `Coverage`, `Filter`): the typed input always carries these fields. Only the keys read with `.get` (`GenotypingResults`, `LocusID`, `Min`, `Max`) are optional.
- Python's `float()` parsing (lines 40-44) is not modelled, being floating-point behaviour. The input holds its outcome as `Option<real>`, and infinities are not represented.
- `int()` of a non-boolean `IsPopulationOutlier` (line 49): the flag is a boolean.
- `str()` of non-string coordinates, ids and CI bounds: these are strings in the model. CI bounds are held as the text Python would render.
- A non-string `DiseaseSymbol` (line 53) makes the join on line 54 raise `TypeError`: disease symbols are strings in the model.
- The type of `Coverage`: its value (line 57) reaches DP unchanged (line 125), whatever its JSON type. The model holds it as an integer, so a fractional or non-numeric coverage is not modelled.
- `\d` in Python also matches non-ASCII decimal digits, but the model accepts ASCII digits only.
- A JSON object with a duplicate key: an entry and a disease mapping are sequences of pairs, and a duplicate is not collapsed.
- A `null` filter: the filter is a string, and `null` behaves like the empty string.
- All pysam calls (lines 83-131) are foreign library I/O: building the header object, opening, writing, compressing and closing the file. This also covers:
  - whether the library adds an INFO `END` when `stop` is set;
  - its errors for a stop before the start, or for a position of 0;
  - how it converts the float repeat counts given to `AR`, which is declared `Integer`;
  - whether it accepts a filter name that the header does not declare.
- Vcf.WrittenRecordsFitHeader: FORMAT values are checked for count but not type, because `AR` is declared `Integer` but receives the float repeat counts.
- The order of the header's contig lines: the code iterates a Python set, and the model keeps the contigs as a set.
- The argparse command line and the `Path(out).stem` default sample name in `main` (lines 133-141): the sample name is a parameter.
