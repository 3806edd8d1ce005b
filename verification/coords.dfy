/** `parse_coords`: the pattern `(chr)?(?P<chrom>[^:]+):(?P<start>\d+)-(?P<end>\d+)`
    matched at the beginning of the string (Python `re.match`, so anything
    after the end digits is ignored), followed by contig normalisation, which
    prepends `chr` only when it is absent. The matcher is written out step by step, including
    the backtracking of the optional `chr` group. */
module Coords {
  import opened Wrappers
  import opened Text

  /** Index of the first ':' in `s`, or `|s|` when there is none. */
  function ColonIndex(s: string): (c: nat)
    ensures c <= |s|
    ensures forall k :: 0 <= k < c ==> s[k] != ':'
    ensures c < |s| ==> s[c] == ':'
  {
    if |s| == 0 || s[0] == ':' then 0 else 1 + ColonIndex(s[1..])
  }

  /** The longest run of digits at the front of `s` (greedy `\d+`). */
  function LeadingDigits(s: string): (d: string)
    ensures AllDigits(d) && StartsWith(s, d)
    ensures |s| > |d| ==> !IsDigit(s[|d|])
  {
    if |s| == 0 || !IsDigit(s[0]) then "" else [s[0]] + LeadingDigits(s[1..])
  }

  /** `[^:]+:\d+-\d+` matched at the beginning of `t`: the raw contig group
      and the two numbers. `[^:]+` cannot usefully give back characters,
      since the next pattern character is ':', so it always ends at the
      first colon; likewise the start digits always end where '-' must
      follow. */
  function MatchTail(t: string): Option<(string, nat, nat)>
  {
    var c := ColonIndex(t);
    if c == 0 || c == |t| then None
    else
      var u := t[c + 1..];
      var start := LeadingDigits(u);
      if |start| == 0 || |start| == |u| || u[|start|] != '-' then None
      else
        var end := LeadingDigits(u[|start| + 1..]);
        if |end| == 0 then None
        else Some((t[..c], DigitsValue(start), DigitsValue(end)))
  }

  /** The whole pattern: the greedy optional group `(chr)?` is tried first,
      and on failure the matcher backtracks to the empty alternative. */
  function RegexMatch(s: string): Option<(string, nat, nat)>
  {
    if StartsWith(s, "chr") && MatchTail(s[3..]).Some? then MatchTail(s[3..]) else MatchTail(s)
  }

  /** Contig normalisation: prepend "chr" unless it is already there. */
  function Canonical(raw: string): (contig: string)
    ensures StartsWith(contig, "chr")
    ensures StartsWith(raw, "chr") ==> contig == raw
    ensures !StartsWith(raw, "chr") ==> contig[3..] == raw
  {
    if StartsWith(raw, "chr") then raw else "chr" + raw
  }

  /** The converter's coordinate parser: `None` when the pattern does not
      match at the beginning of the string. */
  function ParseCoords(s: string): (r: Option<(string, nat, nat)>)
    ensures r.Some? ==> StartsWith(r.value.0, "chr")
  {
    match RegexMatch(s)
    case None => None
    case Some((raw, start, end)) => Some((Canonical(raw), start, end))
  }

  // ---------------------------------------------------------------------
  // Reference description of the strings the pattern matches.

  /** The three groups as the pattern admits them. The optional `chr` group
      needs no part of its own: "chr" followed by a contig name is itself a
      non-empty colon-free name. */
  predicate WellFormedParts(name: string, start: string, end: string) {
    && |name| > 0 && NoChar(name, ':')
    && |start| > 0 && AllDigits(start)
    && |end| > 0 && AllDigits(end)
  }

  function Assemble(name: string, start: string, end: string, rest: string): string {
    name + ":" + start + "-" + end + rest
  }

  /** The string has, at its beginning, a contig name, ':', digits, '-',
      digits, followed by anything. */
  ghost predicate MatchesPattern(s: string) {
    exists name, start, end, rest ::
      WellFormedParts(name, start, end) && Assemble(name, start, end, rest) == s
  }

  /** The contig a matched name yields: the `chr` group is taken when the
      name has more than "chr" in it, then the rest is normalised. */
  function ContigFor(name: string): string {
    if StartsWith(name, "chr") && |name| > 3 then Canonical(name[3..]) else Canonical(name)
  }

  lemma {:induction false} ColonIndexAfterName(name: string, w: string)
    requires NoChar(name, ':')
    ensures ColonIndex(name + ":" + w) == |name|
    decreases |name|
  {
    if |name| > 0 {
      assert (name + ":" + w)[1..] == name[1..] + ":" + w;
      ColonIndexAfterName(name[1..], w);
    }
  }

  lemma {:induction false} LeadingDigitsAppend(d: string, w: string)
    requires AllDigits(d)
    ensures LeadingDigits(d + w) == d + LeadingDigits(w)
    decreases |d|
  {
    if |d| > 0 {
      assert (d + w)[1..] == d[1..] + w;
      LeadingDigitsAppend(d[1..], w);
      assert [d[0]] + d[1..] == d;
    } else {
      assert d + w == w;
    }
  }

  lemma AssembledNameAndColon(name: string, start: string, end: string, rest: string)
    requires WellFormedParts(name, start, end)
    ensures ColonIndex(Assemble(name, start, end, rest)) == |name|
    ensures Assemble(name, start, end, rest)[|name| + 1..] == start + "-" + end + rest
    ensures Assemble(name, start, end, rest)[..|name|] == name
  {
    var w := start + "-" + end + rest;
    assert Assemble(name, start, end, rest) == name + ":" + w;
    ColonIndexAfterName(name, w);
  }

  lemma AssembledStartDigits(start: string, end: string, rest: string)
    requires |start| > 0 && AllDigits(start)
    ensures LeadingDigits(start + "-" + end + rest) == start
    ensures (start + "-" + end + rest)[|start|] == '-'
    ensures (start + "-" + end + rest)[|start| + 1..] == end + rest
  {
    LeadingDigitsAppend(start, "-" + end + rest);
    assert LeadingDigits("-" + end + rest) == "";
    assert start + "-" + end + rest == start + ("-" + end + rest);
    assert start + "" == start;
  }

  /** `MatchTail` reads the groups back exactly, the end digits running on
      into `rest` as far as `rest` has digits. */
  lemma MatchTailReads(name: string, start: string, end: string, rest: string)
    requires WellFormedParts(name, start, end)
    ensures MatchTail(Assemble(name, start, end, rest))
         == Some((name, DigitsValue(start), DigitsValue(end + LeadingDigits(rest))))
  {
    AssembledNameAndColon(name, start, end, rest);
    AssembledStartDigits(start, end, rest);
    LeadingDigitsAppend(end, rest);
  }

  lemma RegexMatchTakesPrefix(name: string, start: string, end: string, rest: string)
    requires WellFormedParts(name, start, end)
    requires StartsWith(name, "chr") && |name| > 3
    ensures RegexMatch(Assemble(name, start, end, rest))
         == Some((name[3..], DigitsValue(start), DigitsValue(end + LeadingDigits(rest))))
  {
    var s := Assemble(name, start, end, rest);
    var tail := name[3..];
    assert s[3..] == Assemble(tail, start, end, rest);
    MatchTailReads(tail, start, end, rest);
    assert StartsWith(s, "chr");
  }

  lemma RegexMatchWithoutPrefix(name: string, start: string, end: string, rest: string)
    requires WellFormedParts(name, start, end)
    requires !(StartsWith(name, "chr") && |name| > 3)
    ensures RegexMatch(Assemble(name, start, end, rest))
         == Some((name, DigitsValue(start), DigitsValue(end + LeadingDigits(rest))))
  {
    var s := Assemble(name, start, end, rest);
    MatchTailReads(name, start, end, rest);
    assert s[|name|] == ':';
    assert |name| < 3 ==> s[..3][|name|] == ':';
    if StartsWith(s, "chr") {
      // The name is exactly "chr": the `chr` group leaves `[^:]+` nothing
      // before the colon, and the matcher backtracks.
      assert s[3] == ':';
      assert ColonIndex(s[3..]) == 0;
    }
  }

  /** Completeness: every string of the pattern's shape parses, to the
      contig the name yields and the values of the two digit runs (the end
      run being the longest one, so the text after it does not matter). */
  lemma ParseCoordsComplete(name: string, start: string, end: string, rest: string)
    requires WellFormedParts(name, start, end)
    ensures ParseCoords(Assemble(name, start, end, rest))
         == Some((ContigFor(name), DigitsValue(start), DigitsValue(end + LeadingDigits(rest))))
  {
    if StartsWith(name, "chr") && |name| > 3 {
      RegexMatchTakesPrefix(name, start, end, rest);
    } else {
      RegexMatchWithoutPrefix(name, start, end, rest);
    }
  }

  lemma SplitAround(u: string, k: nat)
    requires k < |u|
    ensures u == u[..k] + [u[k]] + u[k + 1..]
  {
  }

  lemma SplitAfterColon(t: string, c: nat) returns (u: string)
    requires 0 < c < |t| && t[c] == ':'
    ensures t == t[..c] + ":" + u
  {
    u := t[c + 1..];
    SplitAround(t, c);
  }

  lemma SplitAfterStart(u: string, start: string) returns (v: string)
    requires start == LeadingDigits(u)
    requires 0 < |start| < |u| && u[|start|] == '-'
    ensures u == start + "-" + v
  {
    v := u[|start| + 1..];
    SplitAround(u, |start|);
  }

  lemma SplitAfterEnd(v: string, end: string) returns (rest: string)
    requires end == LeadingDigits(v)
    ensures v == end + rest
  {
    rest := v[|end|..];
  }

  lemma AssembleNested(name: string, start: string, end: string, rest: string)
    ensures name + ":" + (start + "-" + (end + rest)) == Assemble(name, start, end, rest)
  {
  }

  /** The groups `MatchTail` found, with what follows them. */
  lemma MatchTailParts(t: string) returns (name: string, start: string, end: string, rest: string)
    requires MatchTail(t).Some?
    ensures WellFormedParts(name, start, end) && Assemble(name, start, end, rest) == t
  {
    var c := ColonIndex(t);
    var u := SplitAfterColon(t, c);
    start := LeadingDigits(t[c + 1..]);
    var v := SplitAfterStart(u, start);
    end := LeadingDigits(v);
    rest := SplitAfterEnd(v, end);
    name := t[..c];
    AssembleNested(name, start, end, rest);
  }

  lemma MatchesPatternWitness(s: string, name: string, start: string, end: string, rest: string)
    requires WellFormedParts(name, start, end) && Assemble(name, start, end, rest) == s
    ensures MatchesPattern(s)
  {
  }

  /** A colon-free prefix joins the name part. */
  lemma PrefixIntoName(p: string, name: string, start: string, end: string, rest: string)
    requires NoChar(p, ':') && WellFormedParts(name, start, end)
    ensures WellFormedParts(p + name, start, end)
    ensures Assemble(p + name, start, end, rest) == p + Assemble(name, start, end, rest)
  {
    forall i | 0 <= i < |p + name| ensures (p + name)[i] != ':' {
      if i >= |p| {
        assert (p + name)[i] == name[i - |p|];
      }
    }
  }

  lemma PrefixedMatchSound(s: string)
    requires StartsWith(s, "chr") && MatchTail(s[3..]).Some?
    ensures MatchesPattern(s)
  {
    var p := s[..3];
    var name, start, end, rest := MatchTailParts(s[3..]);
    assert p == "chr";
    assert NoChar(p, ':');
    PrefixIntoName(p, name, start, end, rest);
    assert s == p + s[3..];
    MatchesPatternWitness(s, p + name, start, end, rest);
  }

  lemma PlainMatchSound(s: string)
    requires MatchTail(s).Some?
    ensures MatchesPattern(s)
  {
    var name, start, end, rest := MatchTailParts(s);
    MatchesPatternWitness(s, name, start, end, rest);
  }

  /** Soundness: whatever parses has the pattern's shape. */
  lemma ParseCoordsSound(s: string)
    requires ParseCoords(s).Some?
    ensures MatchesPattern(s)
  {
    if StartsWith(s, "chr") && MatchTail(s[3..]).Some? {
      PrefixedMatchSound(s);
    } else {
      PlainMatchSound(s);
    }
  }

  /** `parse_coords` returns `None` exactly when the string does not have
      the pattern's shape at its beginning. */
  lemma ParseCoordsNoneIff(s: string)
    ensures ParseCoords(s).None? <==> !MatchesPattern(s)
  {
    if MatchesPattern(s) {
      var name, start, end, rest :| WellFormedParts(name, start, end) && Assemble(name, start, end, rest) == s;
      ParseCoordsComplete(name, start, end, rest);
    } else if ParseCoords(s).Some? {
      ParseCoordsSound(s);
    }
  }

  lemma LeadingDigitsIgnoreTail(r: string, t: string)
    requires |t| == 0 || !IsDigit(t[0])
    ensures LeadingDigits(r + t) == LeadingDigits(r)
  {
    var d := LeadingDigits(r);
    var x := r[|d|..];
    assert r == d + x;
    assert r + t == d + (x + t);
    LeadingDigitsAppend(d, x);
    LeadingDigitsAppend(d, x + t);
    assert LeadingDigits(x) == "";
    assert LeadingDigits(x + t) == "" by {
      if |x| > 0 {
        assert (x + t)[0] == x[0];
      } else {
        assert x + t == t;
      }
    }
  }

  /** Text after the end digits does not affect the result: appending
      anything that does not begin with a digit to a parseable string leaves
      the parse unchanged. */
  lemma TrailingTextIgnored(s: string, t: string)
    requires ParseCoords(s).Some?
    requires |t| == 0 || !IsDigit(t[0])
    ensures ParseCoords(s + t) == ParseCoords(s)
  {
    ParseCoordsSound(s);
    var name, start, end, rest :| WellFormedParts(name, start, end) && Assemble(name, start, end, rest) == s;
    AssembleAppend(name, start, end, rest, t);
    TrailingPartsIgnored(name, start, end, rest, t);
  }

  lemma AssembleAppend(name: string, start: string, end: string, rest: string, t: string)
    ensures Assemble(name, start, end, rest + t) == Assemble(name, start, end, rest) + t
  {
  }

  lemma TrailingPartsIgnored(name: string, start: string, end: string, rest: string, t: string)
    requires WellFormedParts(name, start, end)
    requires |t| == 0 || !IsDigit(t[0])
    ensures ParseCoords(Assemble(name, start, end, rest + t)) == ParseCoords(Assemble(name, start, end, rest))
  {
    ParseCoordsComplete(name, start, end, rest);
    ParseCoordsComplete(name, start, end, rest + t);
    LeadingDigitsIgnoreTail(rest, t);
  }

  /** `chr` is prepended only when it is absent: a parsed contig is the name
      with "chr" added exactly when the name does not start with it, or the
      name itself or the name after the optional `chr` group when it does;
      normalising it again changes nothing. A name that repeats the prefix
      more than once keeps the repeats (see `TripledPrefixExample`). */
  lemma PrefixAddedOnlyWhenAbsent(name: string)
    ensures StartsWith(ContigFor(name), "chr")
    ensures !StartsWith(name, "chr") ==> ContigFor(name) == "chr" + name
    ensures StartsWith(name, "chr") ==> ContigFor(name) == name || ContigFor(name) == name[3..]
    ensures Canonical(ContigFor(name)) == ContigFor(name)
  {
  }

  /** Rendering a contig and two numbers as "contig:start-end" parses back
      to the same triple, when the contig starts with "chr", has no ':', and
      its text after "chr" does not itself start with "chr" (the optional
      group would otherwise take one of the repeated prefixes). */
  lemma ParseRenderedCoords(contig: string, start: nat, end: nat)
    requires StartsWith(contig, "chr") && NoChar(contig, ':')
    requires |contig| == 3 || !StartsWith(contig[3..], "chr")
    ensures ParseCoords(Assemble(contig, DecimalString(start), DecimalString(end), "")) == Some((contig, start, end))
  {
    ParseCoordsComplete(contig, DecimalString(start), DecimalString(end), "");
    assert DecimalString(end) + LeadingDigits("") == DecimalString(end);
    DecimalStringRoundTrip(start);
    DecimalStringRoundTrip(end);
    if |contig| > 3 {
      assert "chr" + contig[3..] == contig;
    }
  }

  lemma DigitsValueSmall(d: string, n: nat)
    requires |d| == 1 && IsDigit(d[0]) && DigitValue(d[0]) == n
    ensures AllDigits(d) && DigitsValue(d) == n
  {
    assert d[..0] == "";
  }

  /** A missing prefix is added ("4:3074877-3074933" is another instance). */
  lemma PrefixAddedExample(s: string)
    requires s == "4:3-9"
    ensures ParseCoords(s) == Some(("chr4", 3, 9))
  {
    assert Assemble("4", "3", "9", "") == s;
    ParseCoordsComplete("4", "3", "9", "");
    DigitsValueSmall("3", 3);
    DigitsValueSmall("9", 9);
    assert !StartsWith("4", "chr");
    assert "chr" + "4" == "chr4";
    assert "9" + LeadingDigits("") == "9";
  }

  /** When the `chr` group leaves nothing for the contig name the matcher
      backtracks, so "chr:1-2" yields the contig "chr". */
  lemma BacktrackingExample(s: string)
    requires s == "chr:1-2"
    ensures ParseCoords(s) == Some(("chr", 1, 2))
  {
    assert Assemble("chr", "1", "2", "") == s;
    ParseCoordsComplete("chr", "1", "2", "");
    assert ContigFor("chr") == "chr" by {
      assert StartsWith("chr", "chr");
    }
    assert "2" + LeadingDigits("") == "2";
    DigitsValueSmall("1", 1);
    DigitsValueSmall("2", 2);
  }

  /** A doubled prefix collapses, and trailing text is ignored. */
  lemma DoubledPrefixExample(s: string)
    requires s == "chrchr7:5-9x"
    ensures ParseCoords(s) == Some(("chr7", 5, 9))
  {
    assert Assemble("chrchr7", "5", "9", "x") == s;
    ParseCoordsComplete("chrchr7", "5", "9", "x");
    assert ContigFor("chrchr7") == "chr7" by {
      assert "chrchr7"[3..] == "chr7";
      assert StartsWith("chr7", "chr");
    }
    assert "9" + LeadingDigits("x") == "9" by {
      assert !IsDigit('x');
    }
    DigitsValueSmall("5", 5);
    DigitsValueSmall("9", 9);
  }

  /** The group takes one prefix only, and normalisation adds none, so a
      tripled prefix leaves a doubled one in the contig. */
  lemma TripledPrefixExample(s: string)
    requires s == "chrchrchr1:1-2"
    ensures ParseCoords(s) == Some(("chrchr1", 1, 2))
  {
    assert Assemble("chrchrchr1", "1", "2", "") == s;
    ParseCoordsComplete("chrchrchr1", "1", "2", "");
    assert ContigFor("chrchrchr1") == "chrchr1" by {
      assert "chrchrchr1"[3..] == "chrchr1";
      assert StartsWith("chrchr1", "chr");
    }
    assert "2" + LeadingDigits("") == "2";
    DigitsValueSmall("1", 1);
    DigitsValueSmall("2", 2);
  }

  /** A string without a colon never parses ("chr4-bad" is one). */
  lemma NoColonNoParse(s: string)
    requires NoChar(s, ':')
    ensures ParseCoords(s) == None
  {
    assert ColonIndex(s) == |s|;
    if StartsWith(s, "chr") {
      assert ColonIndex(s[3..]) == |s| - 3;
    }
  }
}
