/** `loci.sort(key=lambda x: (chrom_key(x["chrom"]), x["pos"]))`: a stable
    sort on the contig rank, then the start position. It is modelled as a
    stable insertion sort; `StableSortUnique` shows that every stable sort
    yields the same list, so the choice of algorithm does not matter. */
module LocusSort {
  import opened ContigOrder
  import opened Loci

  type SortKey = (ChromKey, nat)

  function SortKeyOf(l: Locus): SortKey {
    (ChromKeyOf(l.chrom), l.pos)
  }

  /** Python's `<=` on `(chrom_key(chrom), pos)`. */
  predicate SortKeyLe(a: SortKey, b: SortKey) {
    (a.0 != b.0 && KeyLe(a.0, b.0)) || (a.0 == b.0 && a.1 <= b.1)
  }

  lemma SortKeyLeTotal(a: SortKey, b: SortKey)
    ensures SortKeyLe(a, b) || SortKeyLe(b, a)
  {
    KeyLeTotal(a.0, b.0);
  }

  lemma SortKeyLeAntisymmetric(a: SortKey, b: SortKey)
    requires SortKeyLe(a, b) && SortKeyLe(b, a)
    ensures a == b
  {
    if a.0 != b.0 {
      KeyLeAntisymmetric(a.0, b.0);
    }
  }

  lemma SortKeyLeTransitive(a: SortKey, b: SortKey, c: SortKey)
    requires SortKeyLe(a, b) && SortKeyLe(b, c)
    ensures SortKeyLe(a, c)
  {
    if a.0 != b.0 && b.0 != c.0 {
      KeyLeTransitive(a.0, b.0, c.0);
      if a.0 == c.0 {
        KeyLeAntisymmetric(a.0, b.0);
      }
    }
  }

  predicate LocusLe(x: Locus, y: Locus) {
    SortKeyLe(SortKeyOf(x), SortKeyOf(y))
  }

  predicate Sorted(s: seq<Locus>) {
    forall i, j :: 0 <= i < j < |s| ==> LocusLe(s[i], s[j])
  }

  /** The loci of `s` whose sort key is `k`, in their order in `s`. A sort
      is stable when it leaves each of these subsequences unchanged. */
  function WithKey(s: seq<Locus>, k: SortKey): seq<Locus>
  {
    if |s| == 0 then [] else (if SortKeyOf(s[0]) == k then [s[0]] else []) + WithKey(s[1..], k)
  }

  lemma {:induction false} WithKeyMembers(s: seq<Locus>, k: SortKey, x: Locus)
    ensures x in WithKey(s, k) <==> x in s && SortKeyOf(x) == k
    decreases |s|
  {
    if |s| > 0 {
      WithKeyMembers(s[1..], k, x);
      assert s == [s[0]] + s[1..];
    }
  }

  /** A locus no greater than every element can go in front. */
  lemma ConsSorted(h: Locus, s: seq<Locus>)
    requires Sorted(s)
    requires forall y :: y in s ==> LocusLe(h, y)
    ensures Sorted([h] + s)
  {
    forall i, j | 0 <= i < j < |[h] + s| ensures LocusLe(([h] + s)[i], ([h] + s)[j]) {
      assert ([h] + s)[j] == s[j - 1];
      assert s[j - 1] in s;
    }
  }

  /** A locus below the head of a sorted list is below all of it. */
  lemma BelowHead(x: Locus, s: seq<Locus>)
    requires Sorted(s) && |s| > 0 && LocusLe(x, s[0])
    ensures forall y :: y in s ==> LocusLe(x, y)
  {
    forall y | y in s ensures LocusLe(x, y) {
      var j :| 0 <= j < |s| && s[j] == y;
      if j > 0 {
        SortKeyLeTransitive(SortKeyOf(x), SortKeyOf(s[0]), SortKeyOf(s[j]));
      }
    }
  }

  /** A lower bound of `x` and of `s` bounds every element of a list with
      the elements of both. */
  lemma BoundOfUnion(h: Locus, x: Locus, s: seq<Locus>, r: seq<Locus>)
    requires LocusLe(h, x)
    requires forall y :: y in s ==> LocusLe(h, y)
    requires multiset(r) == multiset(s) + multiset{x}
    ensures forall y :: y in r ==> LocusLe(h, y)
  {
    forall y | y in r ensures LocusLe(h, y) {
      assert y in multiset(r);
      if y != x {
        assert y in multiset(s);
      }
    }
  }

  /** Places `x` before the first locus it does not sort after. */
  function Insert(x: Locus, s: seq<Locus>): (r: seq<Locus>)
    requires Sorted(s)
    ensures Sorted(r)
    ensures multiset(r) == multiset(s) + multiset{x}
  {
    if |s| == 0 then [x]
    else if LocusLe(x, s[0]) then
      BelowHead(x, s);
      ConsSorted(x, s);
      [x] + s
    else
      SortKeyLeTotal(SortKeyOf(x), SortKeyOf(s[0]));
      var rest := Insert(x, s[1..]);
      assert s == [s[0]] + s[1..];
      BelowHead(s[0], s);
      BoundOfUnion(s[0], x, s[1..], rest);
      ConsSorted(s[0], rest);
      [s[0]] + rest
  }

  /** The converter's sort: ordered by key, a permutation of its input. */
  function SortLoci(s: seq<Locus>): (r: seq<Locus>)
    ensures Sorted(r)
    ensures multiset(r) == multiset(s)
    ensures |r| == |s|
  {
    if |s| == 0 then []
    else
      assert s == [s[0]] + s[1..];
      Insert(s[0], SortLoci(s[1..]))
  }

  lemma WithKeyCons(x: Locus, s: seq<Locus>, k: SortKey)
    ensures WithKey([x] + s, k) == (if SortKeyOf(x) == k then [x] else []) + WithKey(s, k)
  {
    assert ([x] + s)[1..] == s;
  }

  /** Inserting `x` adds it to its own key's subsequence, at the front, and
      changes no other. */
  lemma {:induction false} InsertStable(x: Locus, s: seq<Locus>, k: SortKey)
    requires Sorted(s)
    ensures WithKey(Insert(x, s), k) == (if SortKeyOf(x) == k then [x] else []) + WithKey(s, k)
    decreases |s|
  {
    if |s| == 0 {
      WithKeyCons(x, [], k);
    } else if LocusLe(x, s[0]) {
      WithKeyCons(x, s, k);
    } else {
      InsertStable(x, s[1..], k);
      WithKeyCons(s[0], Insert(x, s[1..]), k);
      WithKeyCons(s[0], s[1..], k);
      assert [s[0]] + s[1..] == s;
      if SortKeyOf(x) == k && SortKeyOf(s[0]) == k {
        SortKeyLeTotal(k, k);
      }
    }
  }

  /** Stability: loci with equal keys keep their relative input order. */
  lemma {:induction false} SortStable(s: seq<Locus>, k: SortKey)
    ensures WithKey(SortLoci(s), k) == WithKey(s, k)
    decreases |s|
  {
    if |s| > 0 {
      SortStable(s[1..], k);
      InsertStable(s[0], SortLoci(s[1..]), k);
      WithKeyCons(s[0], s[1..], k);
      assert [s[0]] + s[1..] == s;
    }
  }

  /** The head of a sorted list has the least key of the list. */
  lemma HeadLeast(a: seq<Locus>, x: Locus)
    requires Sorted(a) && |a| > 0 && x in a
    ensures LocusLe(a[0], x)
  {
    var i :| 0 <= i < |a| && a[i] == x;
    if i == 0 {
      SortKeyLeTotal(SortKeyOf(x), SortKeyOf(x));
    }
  }

  /** The head of `a` appears in `b` when both have the same loci with the
      head's key, so `b`'s head is no greater. */
  lemma HeadBelow(a: seq<Locus>, b: seq<Locus>)
    requires Sorted(b) && |a| > 0 && |b| > 0
    requires WithKey(a, SortKeyOf(a[0])) == WithKey(b, SortKeyOf(a[0]))
    ensures LocusLe(b[0], a[0])
  {
    var k := SortKeyOf(a[0]);
    assert a[0] in a;
    WithKeyMembers(a, k, a[0]);
    WithKeyMembers(b, k, a[0]);
    HeadLeast(b, a[0]);
  }

  /** The first locus with a list's head key is the head itself. */
  lemma HeadOfGroup(a: seq<Locus>)
    requires |a| > 0
    ensures WithKey(a, SortKeyOf(a[0])) == [a[0]] + WithKey(a[1..], SortKeyOf(a[0]))
  {
  }

  /** Sorted lists with the same subsequence for every key start alike. */
  lemma SameHead(a: seq<Locus>, b: seq<Locus>)
    requires Sorted(a) && Sorted(b) && |a| > 0 && |b| > 0
    requires forall k :: WithKey(a, k) == WithKey(b, k)
    ensures a[0] == b[0]
  {
    var ka, kb := SortKeyOf(a[0]), SortKeyOf(b[0]);
    assert WithKey(a, ka) == WithKey(b, ka);
    assert WithKey(b, kb) == WithKey(a, kb);
    HeadBelow(a, b);
    HeadBelow(b, a);
    SortKeyLeAntisymmetric(ka, kb);
    HeadOfGroup(a);
    HeadOfGroup(b);
    assert WithKey(a, ka)[0] == a[0];
    assert WithKey(b, kb)[0] == b[0];
  }

  lemma DropCommonPrefix(p: seq<Locus>, x: seq<Locus>, y: seq<Locus>)
    requires p + x == p + y
    ensures x == y
  {
    assert (p + x)[|p|..] == x;
    assert (p + y)[|p|..] == y;
  }

  lemma SameTailGroups(a: seq<Locus>, b: seq<Locus>, k: SortKey)
    requires |a| > 0 && |b| > 0 && a[0] == b[0]
    requires WithKey(a, k) == WithKey(b, k)
    ensures WithKey(a[1..], k) == WithKey(b[1..], k)
  {
    var p := if SortKeyOf(a[0]) == k then [a[0]] else [];
    assert WithKey(a, k) == p + WithKey(a[1..], k);
    assert WithKey(b, k) == p + WithKey(b[1..], k);
    DropCommonPrefix(p, WithKey(a[1..], k), WithKey(b[1..], k));
  }

  /** Two sorted lists with the same subsequence for every key are equal:
      a stable sort has exactly one possible result. */
  lemma {:induction false} SortedSameGroupsEqual(a: seq<Locus>, b: seq<Locus>)
    requires Sorted(a) && Sorted(b)
    requires forall k :: WithKey(a, k) == WithKey(b, k)
    ensures a == b
    decreases |a|
  {
    if |a| > 0 {
      WithKeyMembers(a, SortKeyOf(a[0]), a[0]);
      WithKeyMembers(b, SortKeyOf(a[0]), a[0]);
    }
    if |b| > 0 {
      WithKeyMembers(b, SortKeyOf(b[0]), b[0]);
      WithKeyMembers(a, SortKeyOf(b[0]), b[0]);
    }
    if |a| > 0 && |b| > 0 {
      SameHead(a, b);
      forall k ensures WithKey(a[1..], k) == WithKey(b[1..], k) {
        SameTailGroups(a, b, k);
      }
      SortedSameGroupsEqual(a[1..], b[1..]);
      assert a == [a[0]] + a[1..] && b == [b[0]] + b[1..];
    }
  }

  /** Any stable sort of `s` (sorted, and keeping every key's subsequence)
      is `SortLoci(s)`; Python's stable `list.sort` in particular. */
  lemma StableSortUnique(s: seq<Locus>, t: seq<Locus>)
    requires Sorted(t)
    requires forall k :: WithKey(t, k) == WithKey(s, k)
    ensures t == SortLoci(s)
  {
    forall k ensures WithKey(t, k) == WithKey(SortLoci(s), k) {
      SortStable(s, k);
    }
    SortedSameGroupsEqual(t, SortLoci(s));
  }
}
