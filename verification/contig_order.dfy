/** `chrom_key`: the contig rank used to order loci. Python builds the tuple
    `(0, n)` for `chr<digits>`, `(1, 23)` / `(1, 24)` for chrX / chrY,
    `(2, 25)` for both chrM and chrMT, and `(9, name)` for everything else,
    and compares tuples lexicographically. `Ranked(tier, rank)` stands for the
    integer tuples and `Unplaced(name)` for `(9, name)`. */
module ContigOrder {
  import opened Wrappers
  import opened Text

  datatype ChromKey = Ranked(tier: nat, rank: nat) | Unplaced(name: string)

  /** The digits `chr(\d+)$` captures. Python's `$` matches at the very end
      of the string and also just before a final newline. */
  function NumberedDigits(c: string): (d: Option<string>)
    ensures d.Some? ==> |d.value| > 0 && AllDigits(d.value)
  {
    if !StartsWith(c, "chr") then None
    else
      var body := if |c| > 3 && c[|c| - 1] == '\n' then c[3..|c| - 1] else c[3..];
      if |body| > 0 && AllDigits(body) then Some(body) else None
  }

  function ChromKeyOf(c: string): (k: ChromKey)
    ensures k.Ranked? ==> k.tier <= 2
  {
    match NumberedDigits(c)
    case Some(d) => Ranked(0, DigitsValue(d))
    case None =>
      if c == "chrX" then Ranked(1, 23)
      else if c == "chrY" then Ranked(1, 24)
      else if c == "chrM" || c == "chrMT" then Ranked(2, 25)
      else Unplaced(c)
  }

  /** Python's `<=` on the key tuples. A ranked key's tier is at most 2
      (`ChromKeyOf` ensures it), so it always sorts before tier 9; the
      integer and string second components are therefore never compared
      with each other. */
  predicate KeyLe(a: ChromKey, b: ChromKey) {
    match (a, b)
    case (Ranked(t1, r1), Ranked(t2, r2)) => t1 < t2 || (t1 == t2 && r1 <= r2)
    case (Ranked(_, _), Unplaced(_)) => true
    case (Unplaced(_), Ranked(_, _)) => false
    case (Unplaced(x), Unplaced(y)) => StrLe(x, y)
  }

  lemma KeyLeReflexive(a: ChromKey)
    ensures KeyLe(a, a)
  {
    if a.Unplaced? {
      StrLeReflexive(a.name);
    }
  }

  lemma KeyLeTotal(a: ChromKey, b: ChromKey)
    ensures KeyLe(a, b) || KeyLe(b, a)
  {
    if a.Unplaced? && b.Unplaced? {
      StrLeTotal(a.name, b.name);
    }
  }

  lemma KeyLeAntisymmetric(a: ChromKey, b: ChromKey)
    requires KeyLe(a, b) && KeyLe(b, a)
    ensures a == b
  {
    if a.Unplaced? && b.Unplaced? {
      StrLeAntisymmetric(a.name, b.name);
    }
  }

  lemma KeyLeTransitive(a: ChromKey, b: ChromKey, c: ChromKey)
    requires KeyLe(a, b) && KeyLe(b, c)
    ensures KeyLe(a, c)
  {
    if a.Unplaced? && b.Unplaced? && c.Unplaced? {
      StrLeTransitive(a.name, b.name, c.name);
    }
  }

  // ---------------------------------------------------------------------
  // The order on contig names that the key induces.

  predicate ContigLe(a: string, b: string) {
    KeyLe(ChromKeyOf(a), ChromKeyOf(b))
  }

  /** `a` sorts strictly before `b`. */
  predicate ContigLt(a: string, b: string) {
    ContigLe(a, b) && !ContigLe(b, a)
  }

  /** `c` is the numbered contig "chr" + `d`, possibly with the final newline
      that `$` tolerates. */
  predicate IsNumbered(c: string, d: string) {
    |d| > 0 && AllDigits(d) && (c == "chr" + d || c == "chr" + d + "\n")
  }

  ghost predicate Numbered(c: string) {
    exists d :: IsNumbered(c, d)
  }

  /** The contigs with a fixed place in the karyotype. */
  ghost predicate Placed(c: string) {
    Numbered(c) || c == "chrX" || c == "chrY" || c == "chrM" || c == "chrMT"
  }

  /** `NumberedDigits` finds exactly the digits of a numbered contig. */
  lemma NumberedDigitsIff(c: string, d: string)
    ensures NumberedDigits(c) == Some(d) <==> IsNumbered(c, d)
  {
    if IsNumbered(c, d) {
      if c == "chr" + d {
        assert c[3..] == d;
        assert c[|c| - 1] == d[|d| - 1];
        assert c[|c| - 1] != '\n';
      } else {
        assert c[3..|c| - 1] == d;
      }
    }
    if NumberedDigits(c) == Some(d) {
      if |c| > 3 && c[|c| - 1] == '\n' {
        assert c == "chr" + d + "\n";
      } else {
        assert c == "chr" + d;
      }
    }
  }

  lemma NumberedKey(c: string, d: string)
    requires IsNumbered(c, d)
    ensures ChromKeyOf(c) == Ranked(0, DigitsValue(d))
  {
    NumberedDigitsIff(c, d);
  }

  lemma UnnumberedHasNoDigits(c: string)
    requires !Numbered(c)
    ensures NumberedDigits(c) == None
  {
    if NumberedDigits(c).Some? {
      NumberedDigitsIff(c, NumberedDigits(c).value);
    }
  }

  /** Numbered contigs are ordered by their integer value ("chr2" before
      "chr10", and "chr01" ties with "chr1"). */
  lemma NumberedByValue(a: string, da: string, b: string, db: string)
    requires IsNumbered(a, da) && IsNumbered(b, db)
    ensures ContigLe(a, b) <==> DigitsValue(da) <= DigitsValue(db)
  {
    NumberedKey(a, da);
    NumberedKey(b, db);
  }

  /** Every numbered contig sorts before every contig that is not numbered. */
  lemma NumberedFirst(a: string, da: string, b: string)
    requires IsNumbered(a, da) && !Numbered(b)
    ensures ContigLt(a, b)
  {
    NumberedKey(a, da);
    UnnumberedHasNoDigits(b);
  }

  lemma NotNumbered(c: string)
    requires c == "chrX" || c == "chrY" || c == "chrM" || c == "chrMT"
    ensures !Numbered(c)
  {
    assert !IsDigit(c[3]);
    forall d | |d| > 0
      ensures ("chr" + d)[3] == d[0] && ("chr" + d + "\n")[3] == d[0]
    {
    }
  }

  /** chrX, then chrY, then chrM and chrMT with equal rank. */
  lemma SexAndMitochondrialOrder()
    ensures ContigLt("chrX", "chrY")
    ensures ContigLt("chrY", "chrM")
    ensures ChromKeyOf("chrM") == ChromKeyOf("chrMT")
  {
    NotNumbered("chrX");
    NotNumbered("chrY");
    NotNumbered("chrM");
    NotNumbered("chrMT");
    UnnumberedHasNoDigits("chrX");
    UnnumberedHasNoDigits("chrY");
    UnnumberedHasNoDigits("chrM");
    UnnumberedHasNoDigits("chrMT");
  }

  /** Every contig with a fixed place sorts before every other contig. */
  lemma UnplacedLast(a: string, b: string)
    requires Placed(a) && !Placed(b)
    ensures ContigLt(a, b)
  {
    UnnumberedHasNoDigits(b);
    if Numbered(a) {
      var d :| IsNumbered(a, d);
      NumberedKey(a, d);
    } else {
      UnnumberedHasNoDigits(a);
    }
  }

  /** Contigs without a fixed place are ordered by name, code point by code
      point. */
  lemma UnplacedByName(a: string, b: string)
    requires !Placed(a) && !Placed(b)
    ensures ContigLe(a, b) <==> StrLe(a, b)
  {
    UnnumberedHasNoDigits(a);
    UnnumberedHasNoDigits(b);
  }

  /** Two contigs tie only when they are the same name, two spellings of the
      same number, or chrM and chrMT. */
  lemma EqualKeys(a: string, b: string)
    requires ChromKeyOf(a) == ChromKeyOf(b)
    ensures || a == b
            || (Numbered(a) && Numbered(b))
            || ({a, b} == {"chrM", "chrMT"})
  {
    if NumberedDigits(a).Some? {
      NumberedDigitsIff(a, NumberedDigits(a).value);
      NumberedDigitsIff(b, NumberedDigits(b).value);
    }
  }
}
