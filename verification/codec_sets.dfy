/** Intersection and union of preference lists, in place (sccp_codec.c). */
module CodecSets {
  import opened Codec

  function Cut(l: seq<Codec>, n: nat): seq<Codec> {
    if |l| <= n then l else l[..n]
  }

  /** c once for every time it stands among the first n of keep. */
  function MatchesTo(c: Codec, keep: seq<Codec>, n: nat): (m: seq<Codec>)
    requires n <= |keep|
  {
    if n == 0 then [] else MatchesTo(c, keep, n - 1) + if keep[n - 1] == c then [c] else []
  }

  /** What the two nested loops collect before any limit: each of the first n codecs once per match. */
  function CollectedTo(base: seq<Codec>, keep: seq<Codec>, n: nat): seq<Codec>
    requires n <= |base|
  {
    if n == 0 then [] else CollectedTo(base, keep, n - 1) + MatchesTo(base[n - 1], keep, |keep|)
  }

  function Collected(base: seq<Codec>, keep: seq<Codec>): seq<Codec> {
    CollectedTo(base, keep, |base|)
  }

  /** Of the first n of l those that k contains (want) or does not contain (!want), in order. */
  function Select(l: seq<Codec>, k: seq<Codec>, want: bool, n: nat): (r: seq<Codec>)
    requires n <= |l|
    ensures |r| <= n
  {
    if n == 0 then [] else Select(l, k, want, n - 1) + if (l[n - 1] in k) == want then [l[n - 1]] else []
  }

  function Filter(l: seq<Codec>, k: seq<Codec>): seq<Codec> {
    Select(l, k, true, |l|)
  }

  function Without(l: seq<Codec>, k: seq<Codec>): seq<Codec> {
    Select(l, k, false, |l|)
  }

  lemma {:induction false} Members(l: seq<Codec>, k: seq<Codec>, want: bool, n: nat, c: Codec)
    requires n <= |l|
    ensures c in Select(l, k, want, n) <==> c in l[..n] && (c in k) == want
  {
    if n > 0 {
      Members(l, k, want, n - 1, c);
      assert l[..n] == l[..n - 1] + [l[n - 1]];
    }
  }

  function Reduce(base: seq<Codec>, keep: seq<Codec>): seq<Codec> {
    Cut(Filter(base, keep), MAX_CAPABILITIES - 1)
  }

  function Combine(base: seq<Codec>, extra: seq<Codec>): seq<Codec> {
    CombineTo(base, extra, |extra|)
  }

  function CombineTo(base: seq<Codec>, extra: seq<Codec>, n: nat): seq<Codec>
    requires n <= |extra|
  {
    Cut(base + Select(extra, base, false, n), MAX_CAPABILITIES)
  }

  /** A list in an array of capabilities: its codecs, then NONE to the end. */
  function Padded(l: seq<Codec>): (s: seq<Codec>)
    requires |l| <= MAX_CAPABILITIES
    ensures |s| == MAX_CAPABILITIES
  {
    l + seq(MAX_CAPABILITIES - |l|, _ => NONE)
  }

  // ---------------------------------------------------------------- the loops

  lemma {:induction false} MatchesGrow(c: Codec, keep: seq<Codec>, y: nat, n: nat)
    requires y <= n <= |keep|
    ensures MatchesTo(c, keep, y) <= MatchesTo(c, keep, n)
  {
    if y < n { MatchesGrow(c, keep, y, n - 1); }
  }

  lemma {:induction false} CollectedGrow(base: seq<Codec>, keep: seq<Codec>, x: nat, n: nat)
    requires x <= n <= |base|
    ensures CollectedTo(base, keep, x) <= CollectedTo(base, keep, n)
  {
    if x < n { CollectedGrow(base, keep, x, n - 1); }
  }

  /** sccp_codec_getReducedSet: stops one short of the capacity, so at most 17 are written. */
  method GetReducedSet(base: array<Codec>, keep: array<Codec>, result: array<Codec>) returns (z: nat)
    requires base.Length == keep.Length == result.Length == MAX_CAPABILITIES
    requires result != base && result != keep
    modifies result
    ensures z <= MAX_CAPABILITIES - 1
    ensures result[..z] == Cut(Collected(Listed(base[..]), Listed(keep[..])), MAX_CAPABILITIES - 1)
    ensures forall i :: z <= i < MAX_CAPABILITIES ==> result[i] == old(result[i])
  {
    ghost var lb, lk := Listed(base[..]), Listed(keep[..]);
    var x := 0;
    z := 0;
    while x < MAX_CAPABILITIES && z + 1 < MAX_CAPABILITIES && base[x] != NONE
      invariant x <= |lb| && z <= MAX_CAPABILITIES - 1
      invariant result[..z] == Cut(CollectedTo(lb, lk, x), MAX_CAPABILITIES - 1)
      invariant forall i :: z <= i < MAX_CAPABILITIES ==> result[i] == old(result[i])
    {
      z := CollectMatches(base[x], keep, result, z, CollectedTo(lb, lk, x));
      x := x + 1;
    }
    CollectedGrow(lb, lk, x, |lb|);
  }

  /** The inner loop: one base codec against the whole list of codecs to keep. */
  method CollectMatches(c: Codec, keep: array<Codec>, result: array<Codec>, start: nat, ghost done: seq<Codec>)
    returns (z: nat)
    requires keep.Length == result.Length == MAX_CAPABILITIES && result != keep
    requires start < MAX_CAPABILITIES && result[..start] == done
    modifies result
    ensures start <= z <= MAX_CAPABILITIES - 1
    ensures result[..z]
         == Cut(done + MatchesTo(c, Listed(keep[..]), |Listed(keep[..])|), MAX_CAPABILITIES - 1)
    ensures forall i :: z <= i < MAX_CAPABILITIES ==> result[i] == old(result[i])
  {
    ghost var lk := Listed(keep[..]);
    var y := 0;
    z := start;
    while y < MAX_CAPABILITIES && z + 1 < MAX_CAPABILITIES && keep[y] != NONE
      invariant y <= |lk| && start <= z <= MAX_CAPABILITIES - 1
      invariant result[..z] == done + MatchesTo(c, lk, y)
      invariant forall i :: z <= i < MAX_CAPABILITIES ==> result[i] == old(result[i])
    {
      if c == keep[y] {
        result[z] := c;
        z := z + 1;
      }
      y := y + 1;
    }
    MatchesGrow(c, lk, y, |lk|);
  }

  /** sccp_codec_reduceSet: the reduced list replaces the base, padded with NONE. */
  method ReduceSet(base: array<Codec>, keep: array<Codec>)
    requires base.Length == keep.Length == MAX_CAPABILITIES
    modifies base
    ensures base[..] == Padded(Cut(Collected(old(Listed(base[..])), old(Listed(keep[..]))), MAX_CAPABILITIES - 1))
  {
    var temp := new Codec[MAX_CAPABILITIES](_ => NONE);
    var z := GetReducedSet(base, keep, temp);
    assert temp[..] == Padded(temp[..z]);
    forall i | 0 <= i < MAX_CAPABILITIES { base[i] := temp[i]; }
    assert base[..] == temp[..];
  }

  lemma PaddedLists(l: seq<Codec>)
    requires |l| <= MAX_CAPABILITIES && NONE !in l
    ensures Listed(Padded(l)) == l && Clean(Padded(l))
  {
    ListedIs(Padded(l), |l|);
  }

  lemma CleanIsPadded(s: seq<Codec>)
    requires |s| == MAX_CAPABILITIES && Clean(s)
    ensures s == Padded(Listed(s)) && NONE !in Listed(s)
  {
  }

  /** What one more codec adds to the union. */
  lemma CombineStep(base: seq<Codec>, extra: seq<Codec>, y: nat)
    requires y < |extra| && NONE !in base && NONE !in extra
    ensures var f, c := CombineTo(base, extra, y), extra[y];
            CombineTo(base, extra, y + 1) == if c in base then f else Cut(f + [c], MAX_CAPABILITIES)
    ensures NONE !in CombineTo(base, extra, y)
  {
    Members(extra, base, false, y, NONE);
    assert (base + Select(extra, base, false, y)) + [extra[y]] == base + (Select(extra, base, false, y) + [extra[y]]);
  }

  /** The bounded search finds exactly the codecs of the original list. */
  lemma SearchSeesBase(base: seq<Codec>, extra: seq<Codec>, y: nat, limit: nat)
    requires y < |extra| && NoDuplicates(extra) && |base| <= limit <= MAX_CAPABILITIES
    ensures var f := CombineTo(base, extra, y);
            extra[y] in f && extra[y] in Padded(f)[..limit] <==> extra[y] in base
  {
    var f := CombineTo(base, extra, y);
    assert extra[y] !in extra[..y];
    Members(extra, base, false, y, extra[y]);
    if extra[y] in base {
      var i :| 0 <= i < |base| && base[i] == extra[y];
      assert f[i] == extra[y] && Padded(f)[..limit][i] == extra[y];
    }
  }

  /** The array after one more codec, when the search for it stops at limit. */
  function Added(s: seq<Codec>, c: Codec, limit: nat): seq<Codec>
    requires limit <= |s|
  {
    var n := |Listed(s)|;
    if (c in Listed(s) && c in s[..limit]) || n == |s| then s else s[n := c]
  }

  /** The state of the union loop on a regular list, after y codecs of extra. */
  ghost predicate Combined(s: seq<Codec>, base: seq<Codec>, extra: seq<Codec>, y: nat)
    requires y <= |extra|
  {
    NoDuplicates(extra) && NONE !in base && NONE !in extra && s == Padded(CombineTo(base, extra, y))
  }

  lemma CombinedAtStart(s: seq<Codec>, extra: seq<Codec>)
    requires |s| == MAX_CAPABILITIES && Clean(s) && NoDuplicates(extra) && NONE !in extra
    ensures Combined(s, Listed(s), extra, 0)
  {
    CleanIsPadded(s);
    assert Listed(s) + [] == Listed(s);
  }

  /** On a regular list the bounded search and the write compute the next union. */
  lemma CombinedAfterRound(s: seq<Codec>, base: seq<Codec>, extra: seq<Codec>, y: nat, limit: nat)
    requires y < |extra| && Combined(s, base, extra, y) && |base| <= limit <= MAX_CAPABILITIES
    ensures Combined(Added(s, extra[y], limit), base, extra, y + 1)
  {
    CombineStep(base, extra, y);
    SearchSeesBase(base, extra, y, limit);
    PaddedLists(CombineTo(base, extra, y));
  }

  /** sccp_codec_combineSets. The search for a codec stops at demarquation, the place of the
      last codec added, and the place to write never moves back. */
  method CombineSets(base: array<Codec>, extra: array<Codec>)
    requires base.Length == extra.Length == MAX_CAPABILITIES && base != extra
    modifies base
    ensures Clean(old(base[..])) && NoDuplicates(Listed(extra[..]))
            ==> base[..] == Padded(Combine(Listed(old(base[..])), Listed(extra[..])))
  {
    ghost var lb, le := Listed(base[..]), Listed(extra[..]);
    ghost var regular := Clean(base[..]) && NoDuplicates(le);
    if regular { CombinedAtStart(base[..], le); }
    var y, z, demarquation := 0, 0, MAX_CAPABILITIES;
    while y < MAX_CAPABILITIES && extra[y] != NONE
      invariant y <= |le| && |lb| <= demarquation <= MAX_CAPABILITIES
      invariant 0 <= z <= |Listed(base[..])| && |lb| <= |Listed(base[..])|
      invariant regular ==> Combined(base[..], lb, le, y)
    {
      if regular { CombinedAfterRound(base[..], lb, le, y, demarquation); }
      z, demarquation := AddCodec(base, extra[y], z, demarquation);
      y := y + 1;
    }
  }

  /** One round of sccp_codec_combineSets. */
  method AddCodec(base: array<Codec>, c: Codec, from: nat, limit: nat) returns (z: nat, demarquation: nat)
    requires base.Length == MAX_CAPABILITIES && c != NONE
    requires from <= |Listed(base[..])| && limit <= MAX_CAPABILITIES
    modifies base
    ensures base[..] == Added(old(base[..]), c, limit)
    ensures z <= |Listed(base[..])| && |Listed(old(base[..]))| <= |Listed(base[..])|
    ensures demarquation == limit || demarquation == |Listed(old(base[..]))| < MAX_CAPABILITIES
  {
    z, demarquation := from, limit;
    var found := Contains(base, c, limit);
    if !found {
      z := WriteAtFirstFree(base, c, from);
      if z < MAX_CAPABILITIES && demarquation != 0 {
        demarquation := z;
      }
    }
  }

  /** The writing loop of sccp_codec_combineSets: c goes to the first free place from start on. */
  method WriteAtFirstFree(base: array<Codec>, c: Codec, start: nat) returns (z: nat)
    requires base.Length == MAX_CAPABILITIES && start <= |Listed(base[..])| && c != NONE
    modifies base
    ensures start <= z <= MAX_CAPABILITIES && z == |Listed(old(base[..]))|
    ensures base[..] == if z < MAX_CAPABILITIES then old(base[..])[z := c] else old(base[..])
    ensures forall i :: 0 <= i < z ==> base[i] != NONE
  {
    z := start;
    while z < MAX_CAPABILITIES && base[z] != NONE
      invariant start <= z <= MAX_CAPABILITIES
      invariant forall i :: 0 <= i < z ==> base[i] != NONE
    {
      z := z + 1;
    }
    ListedIs(base[..], z);
    if z < MAX_CAPABILITIES {
      base[z] := c;
    }
  }

  /** The search loop of sccp_codec_combineSets. */
  method Contains(s: array<Codec>, c: Codec, limit: nat) returns (found: bool)
    requires limit <= s.Length
    ensures found <==> c in Listed(s[..]) && c in s[..limit]
  {
    var x := 0;
    ghost var l := Listed(s[..]);
    while x < limit && s[x] != NONE
      invariant x <= limit && x <= |l|
      invariant forall i :: 0 <= i < x ==> s[i] != c
    {
      if s[x] == c {
        assert l[x] == c && s[..limit][x] == c;
        return true;
      }
      x := x + 1;
    }
    found := false;
  }

  // ---------------------------------------------------------------- the algebra

  lemma {:induction false} MatchesOnce(c: Codec, keep: seq<Codec>, n: nat)
    requires NoDuplicates(keep) && n <= |keep|
    ensures MatchesTo(c, keep, n) == if c in keep[..n] then [c] else []
  {
    if n > 0 {
      MatchesOnce(c, keep, n - 1);
      assert keep[..n] == keep[..n - 1] + [keep[n - 1]];
    }
  }

  /** Against a list without duplicates, the loops compute the order-keeping filter. */
  lemma {:induction false} CollectedIsFilter(base: seq<Codec>, keep: seq<Codec>, n: nat)
    requires NoDuplicates(keep) && n <= |base|
    ensures CollectedTo(base, keep, n) == Select(base, keep, true, n)
  {
    hide NoDuplicates, MatchesTo;
    if n > 0 {
      CollectedIsFilter(base, keep, n - 1);
      MatchesOnce(base[n - 1], keep, |keep|);
      assert keep[..|keep|] == keep;
    }
  }

  lemma {:induction false} SelectPrefix(a: seq<Codec>, b: seq<Codec>, k: seq<Codec>, want: bool, n: nat)
    requires n <= |a|
    ensures Select(a + b, k, want, n) == Select(a, k, want, n)
  {
    if n > 0 { SelectPrefix(a, b, k, want, n - 1); }
  }

  lemma {:induction false} SelectSuffix(a: seq<Codec>, b: seq<Codec>, k: seq<Codec>, want: bool, n: nat)
    requires n <= |b|
    ensures Select(a + b, k, want, |a| + n) == Select(a, k, want, |a|) + Select(b, k, want, n)
  {
    if n == 0 {
      SelectPrefix(a, b, k, want, |a|);
    } else {
      SelectSuffix(a, b, k, want, n - 1);
      assert (a + b)[|a| + n - 1] == b[n - 1];
    }
  }

  lemma {:induction false} SelectAll(l: seq<Codec>, k: seq<Codec>, want: bool, n: nat)
    requires n <= |l| && forall c :: c in l ==> c in k
    ensures Select(l, k, want, n) == if want then l[..n] else []
  {
    if n > 0 { SelectAll(l, k, want, n - 1); }
  }

  lemma {:induction false} SelectNone(l: seq<Codec>, k: seq<Codec>, n: nat)
    requires n <= |l| && forall c :: c in l ==> c !in k
    ensures Select(l, k, true, n) == []
  {
    if n > 0 { SelectNone(l, k, n - 1); }
  }

  lemma SelectOne(l: seq<Codec>, c: Codec, k: seq<Codec>, want: bool)
    ensures Select(l + [c], k, want, |l| + 1)
         == Select(l, k, want, |l|) + if (c in k) == want then [c] else []
  {
    SelectSuffix(l, [c], k, want, 0);
  }

  lemma {:induction false} FilterWithout(b: seq<Codec>, a: seq<Codec>, k: seq<Codec>, n: nat)
    requires n <= |b|
    ensures Filter(Select(b, a, false, n), k) == Without(Select(b, k, true, n), Filter(a, k))
  {
    hide Select;
    SelectStep(b, a, false, n);
    SelectStep(b, k, true, n);
    if n == 0 {
      SelectStep([], k, true, 0);
      SelectStep([], Filter(a, k), false, 0);
    } else {
      var c, w, f := b[n - 1], Select(b, a, false, n - 1), Select(b, k, true, n - 1);
      FilterWithout(b, a, k, n - 1);
      SelectOne(w, c, k, true);
      SelectOne(f, c, Filter(a, k), false);
      Members(a, k, true, |a|, c);
      assert a[..|a|] == a;
      assert Select(b, a, false, n) == if c in a then w else w + [c];
      assert Select(b, k, true, n) == if c in k then f + [c] else f;
    }
  }

  lemma SelectStep(l: seq<Codec>, k: seq<Codec>, want: bool, n: nat)
    requires n <= |l|
    ensures Select(l, k, want, n)
      == if n == 0 then [] else Select(l, k, want, n - 1) + if (l[n - 1] in k) == want then [l[n - 1]] else []
  {
  }

  lemma {:induction false} SelectKeepsDistinct(b: seq<Codec>, a: seq<Codec>, n: nat)
    requires n <= |b|
    ensures n == |Select(b, a, true, n)| + |Select(b, a, false, n)|
    ensures NoDuplicates(b) ==> NoDuplicates(Select(b, a, true, n))
  {
    if n > 0 {
      SelectKeepsDistinct(b, a, n - 1);
      Members(b, a, true, n - 1, b[n - 1]);
    }
  }

  lemma {:induction false} DistinctFits(l: seq<Codec>, a: seq<Codec>)
    requires NoDuplicates(l) && forall c :: c in l ==> c in a
    ensures |l| <= |a|
  {
    if l != [] {
      assert l[0] in l;
      var i :| 0 <= i < |a| && a[i] == l[0];
      var a' := a[..i] + a[i + 1..];
      forall c | c in l[1..]
        ensures c in a'
      {
        assert c in l;
        var k :| 0 <= k < |a| && a[k] == c;
        assert k != i;
        assert a'[if k < i then k else k - 1] == c;
      }
      DistinctFits(l[1..], a');
    }
  }

  /** Reducing a union by its first part gives the first part back. */
  lemma ReduceCombineAbsorbs(a: seq<Codec>, b: seq<Codec>)
    requires |a| <= MAX_CAPABILITIES - 1
    ensures Reduce(Combine(a, b), a) == a
  {
    var rest := Combine(a, b)[|a|..];
    assert Combine(a, b) == a + rest;
    forall c | c in rest
      ensures c !in a
    {
      assert c in Without(b, a);
      Members(b, a, false, |b|, c);
    }
    SelectSuffix(a, rest, a, true, |rest|);
    SelectAll(a, a, true, |a|);
    SelectNone(rest, a, |rest|);
  }

  /** Reduction distributes over union as long as the union stays below the capacity. */
  lemma ReduceCombineDistributes(a: seq<Codec>, b: seq<Codec>, c: seq<Codec>)
    requires NoDuplicates(b) && |a + Without(b, a)| <= MAX_CAPABILITIES - 1
    ensures Reduce(Combine(a, b), c) == Combine(Reduce(a, c), Reduce(b, c))
  {
    var w := Without(b, a);
    assert |b| <= MAX_CAPABILITIES - 1 by {
      SelectKeepsDistinct(b, a, |b|);
      forall c | c in Filter(b, a) ensures c in a { Members(b, a, true, |b|, c); }
      DistinctFits(Filter(b, a), a);
    }
    SelectSuffix(a, w, c, true, |w|);
    FilterWithout(b, a, c, |b|);
  }

  /** For lists that reduction itself does not cut, that bound is exact: a union that reaches
      the capacity already loses its last codec on the left but not on the right. */
  lemma DistributesIffBelowCapacity(a: seq<Codec>, b: seq<Codec>)
    requires NoDuplicates(b) && |a| <= MAX_CAPABILITIES - 1 && |b| <= MAX_CAPABILITIES - 1
    ensures (forall c :: Reduce(Combine(a, b), c) == Combine(Reduce(a, c), Reduce(b, c)))
       <==> |a + Without(b, a)| <= MAX_CAPABILITIES - 1
  {
    if |a + Without(b, a)| <= MAX_CAPABILITIES - 1 {
      forall c
        ensures Reduce(Combine(a, b), c) == Combine(Reduce(a, c), Reduce(b, c))
      {
        ReduceCombineDistributes(a, b, c);
      }
    } else {
      var c := a + b;
      SelectAll(a, c, true, |a|);
      SelectAll(b, c, true, |b|);
      assert Reduce(a, c) == a && Reduce(b, c) == b;
      assert |Reduce(Combine(a, b), c)| < |Combine(a, b)|;
    }
  }

  /** Reducing twice by the same list changes nothing more. */
  lemma ReduceIsIdempotent(a: seq<Codec>, k: seq<Codec>)
    ensures Reduce(Reduce(a, k), k) == Reduce(a, k)
  {
    forall x | x in Reduce(a, k)
      ensures x in k
    {
      assert x in Filter(a, k);
      Members(a, k, true, |a|, x);
    }
    SelectAll(Reduce(a, k), k, true, |Reduce(a, k)|);
  }
}
