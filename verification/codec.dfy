/** Codec preference lists: fixed arrays of SKINNY_MAX_CAPABILITIES entries, of which the
    entries before the first NONE count (sccp_codec.c). */
module Codec {

  type Codec = nat

  const NONE: Codec := 0
  const WIDEBAND_256K: Codec := 0x19
  const MAX_CAPABILITIES: nat := 18

  function UsedFrom(s: seq<Codec>, k: nat): (n: nat)
    requires k <= |s|
    ensures k <= n <= |s| && (n < |s| ==> s[n] == NONE)
    ensures forall i :: k <= i < n ==> s[i] != NONE
    decreases |s| - k
  {
    if k == |s| || s[k] == NONE then k else UsedFrom(s, k + 1)
  }

  /** The codecs a list holds: the entries before the first NONE. */
  function Listed(s: seq<Codec>): (l: seq<Codec>)
    ensures |l| <= |s|
  {
    s[..UsedFrom(s, 0)]
  }

  /** No codec hides behind the terminator. */
  ghost predicate Clean(s: seq<Codec>) {
    forall i, j :: 0 <= i < j < |s| && s[i] == NONE ==> s[j] == NONE
  }

  ghost predicate NoDuplicates(s: seq<Codec>) {
    forall i, j :: 0 <= i < j < |s| ==> s[i] != s[j]
  }

  lemma ListedIs(s: seq<Codec>, n: nat)
    requires n <= |s| && (n < |s| ==> s[n] == NONE)
    requires forall i :: 0 <= i < n ==> s[i] != NONE
    ensures Listed(s) == s[..n]
  {
  }

  // ---------------------------------------------------------------- removal and append

  /** memmove of everything behind x one place to the left; the last entry stays. */
  function ShiftedAt(s: seq<Codec>, x: nat): (r: seq<Codec>)
    requires x < |s|
    ensures |r| == |s|
  {
    s[..x] + s[x + 1..] + [s[|s| - 1]]
  }

  /** The rest of the removal loop from index x on; it shifts at every index once found. */
  function RemovedFrom(s: seq<Codec>, c: Codec, x: nat, found: bool): (r: seq<Codec>)
    requires x <= |s|
    ensures |r| == |s|
    decreases |s| - x
  {
    if x == |s| || s[x] == NONE then s
    else if found || s[x] == c then RemovedFrom(ShiftedAt(s, x), c, x + 1, true)
    else RemovedFrom(s, c, x + 1, false)
  }

  function Removed(s: seq<Codec>, c: Codec): seq<Codec> {
    RemovedFrom(s, c, 0, false)
  }

  /** Every other entry, starting with the first. */
  function Alternate(l: seq<Codec>): seq<Codec> {
    if |l| <= 1 then l else [l[0]] + Alternate(l[2..])
  }

  lemma {:induction false} AlternateShrinks(l: seq<Codec>)
    ensures |Alternate(l)| <= |l| && (|l| >= 2 ==> |Alternate(l)| < |l|)
  {
    if |l| >= 2 { AlternateShrinks(l[2..]); }
  }

  lemma {:induction false} AlternateIsSublist(l: seq<Codec>)
    ensures forall c :: c in Alternate(l) ==> c in l
    ensures NoDuplicates(l) ==> NoDuplicates(Alternate(l))
  {
    if |l| >= 2 {
      AlternateIsSublist(l[2..]);
      var rest := Alternate(l[2..]);
      forall i | 0 <= i < |rest| && NoDuplicates(l)
        ensures rest[i] != l[0]
      {
        assert rest[i] in l[2..];
      }
    }
  }

  function IndexFrom(l: seq<Codec>, c: Codec, k: nat): (n: nat)
    requires k <= |l| && c in l[k..]
    ensures k <= n < |l| && l[n] == c && forall i :: k <= i < n ==> l[i] != c
    decreases |l| - k
  {
    if l[k] == c then k else IndexFrom(l, c, k + 1)
  }

  function IndexOf(l: seq<Codec>, c: Codec): nat
    requires c in l
  {
    IndexFrom(l, c, 0)
  }

  /** Deleting the first occurrence of c, as the name of the operation promises. */
  function Deleted(l: seq<Codec>, c: Codec): seq<Codec> {
    if c in l then l[..IndexOf(l, c)] + l[IndexOf(l, c) + 1..] else l
  }

  /** What the removal leaves of a list that ends in NONE. */
  function Thinned(l: seq<Codec>, c: Codec): seq<Codec> {
    if c in l then l[..IndexOf(l, c)] + Alternate(l[IndexOf(l, c) + 1..]) else l
  }

  lemma ShiftListed(s: seq<Codec>, x: nat)
    requires x < |Listed(s)| < |s|
    ensures Listed(ShiftedAt(s, x)) == Listed(s)[..x] + Listed(s)[x + 1..]
  {
    ListedIs(ShiftedAt(s, x), |Listed(s)| - 1);
  }

  lemma ShiftBehindListed(s: seq<Codec>, x: nat)
    requires |Listed(s)| < x < |s|
    ensures Listed(ShiftedAt(s, x)) == Listed(s)
  {
    ListedIs(ShiftedAt(s, x), |Listed(s)|);
  }

  lemma {:induction false} RemovedBehindListed(s: seq<Codec>, c: Codec, x: nat)
    requires |Listed(s)| <= x <= |s| && |Listed(s)| < |s|
    ensures Listed(RemovedFrom(s, c, x, true)) == Listed(s)
    decreases |s| - x
  {
    if x < |s| && s[x] != NONE {
      ShiftBehindListed(s, x);
      RemovedBehindListed(ShiftedAt(s, x), c, x + 1);
    }
  }

  lemma ThinStep(l: seq<Codec>, x: nat)
    requires x < |l|
    ensures var l' := l[..x] + l[x + 1..];
            l[..x] + Alternate(l[x + 1..])
              == if x + 1 < |l'| then l'[..x + 1] + Alternate(l'[x + 2..]) else l'
  {
    var l', rest := l[..x] + l[x + 1..], l[x + 1..];
    if |rest| >= 2 {
      assert l'[x + 2..] == rest[2..];
      assert l'[..x + 1] == l[..x] + [rest[0]];
    }
  }

  lemma {:induction false} RemovedOnceFound(s: seq<Codec>, c: Codec, x: nat)
    requires x < |Listed(s)| < |s|
    ensures Listed(RemovedFrom(s, c, x, true)) == Listed(s)[..x] + Alternate(Listed(s)[x + 1..])
    decreases |Listed(s)| - x
  {
    var r := ShiftedAt(s, x);
    ShiftListed(s, x);
    ThinStep(Listed(s), x);
    if x + 1 < |Listed(r)| {
      RemovedOnceFound(r, c, x + 1);
    } else {
      RemovedBehindListed(r, c, x + 1);
    }
  }

  lemma {:induction false} RemovedBeforeFound(s: seq<Codec>, c: Codec, x: nat)
    requires x <= |Listed(s)| < |s| && forall i :: 0 <= i < x ==> s[i] != c
    ensures Listed(RemovedFrom(s, c, x, false)) == Thinned(Listed(s), c)
    decreases |s| - x
  {
    var l := Listed(s);
    if x < |l| {
      if s[x] == c {
        assert IndexOf(l, c) == x;
        RemovedOnceFound(s, c, x);
        assert RemovedFrom(s, c, x, false) == RemovedFrom(s, c, x, true);
      } else {
        RemovedBeforeFound(s, c, x + 1);
      }
    }
  }

  /** On every list with room for its terminator, removing c keeps what stands before c and
      alternate entries of what stands behind it. */
  lemma RemoveThins(s: seq<Codec>, c: Codec)
    requires |Listed(s)| < |s|
    ensures Listed(Removed(s, c)) == Thinned(Listed(s), c)
  {
    RemovedBeforeFound(s, c, 0);
  }

  /** Removal deletes exactly c if and only if at most one entry follows it. */
  lemma RemoveDeletesIff(s: seq<Codec>, c: Codec)
    requires |Listed(s)| < |s| && c in Listed(s)
    ensures Listed(Removed(s, c)) == Deleted(Listed(s), c)
       <==> |Listed(s)| <= IndexOf(Listed(s), c) + 2
  {
    RemoveThins(s, c);
    var k := IndexOf(Listed(s), c);
    var rest := Listed(s)[k + 1..];
    AlternateShrinks(rest);
  }

  lemma {:induction false} RemovedFromKeepsClean(s: seq<Codec>, c: Codec, x: nat, found: bool)
    requires x <= |s| && Clean(s)
    ensures Clean(RemovedFrom(s, c, x, found))
    decreases |s| - x
  {
    if x < |s| && s[x] != NONE {
      if found || s[x] == c {
        RemovedFromKeepsClean(ShiftedAt(s, x), c, x + 1, true);
      } else {
        RemovedFromKeepsClean(s, c, x + 1, false);
      }
    }
  }

  /** Append: remove first, then write over the first NONE. */
  function Appended(s: seq<Codec>, c: Codec): (r: seq<Codec>)
    ensures |r| == |s|
  {
    var r := Removed(s, c);
    if |Listed(r)| < |r| then r[|Listed(r)| := c] else r
  }

  lemma AppendKeepsClean(s: seq<Codec>, c: Codec)
    requires Clean(s)
    ensures Clean(Appended(s, c))
  {
    RemovedFromKeepsClean(s, c, 0, false);
    var r := Removed(s, c);
    var n := |Listed(r)|;
    if n < |r| {
      assert forall i :: 0 <= i < n ==> r[i] == Listed(r)[i] != NONE;
    }
  }

  lemma ThinnedShrinks(l: seq<Codec>, c: Codec)
    ensures |Thinned(l, c)| <= |l|
  {
    if c in l {
      AlternateShrinks(l[IndexOf(l, c) + 1..]);
    }
  }

  lemma WriteAtEnd(s: seq<Codec>, c: Codec)
    requires Clean(s) && |Listed(s)| < |s| && c != NONE
    ensures Listed(s[|Listed(s)| := c]) == Listed(s) + [c]
  {
    ListedIs(s[|Listed(s)| := c], |Listed(s)| + 1);
  }

  /** On a clean list with room, append puts c last. */
  lemma AppendPutsLast(s: seq<Codec>, c: Codec)
    requires Clean(s) && |Listed(s)| < |s| && c != NONE
    ensures Listed(Appended(s, c)) == Thinned(Listed(s), c) + [c]
  {
    RemoveThins(s, c);
    ThinnedShrinks(Listed(s), c);
    RemovedFromKeepsClean(s, c, 0, false);
    WriteAtEnd(Removed(s, c), c);
  }

  /** ... and leaves a list without duplicates without duplicates. */
  lemma AppendKeepsDistinct(s: seq<Codec>, c: Codec)
    requires Clean(s) && |Listed(s)| < |s| && c != NONE && NoDuplicates(Listed(s))
    ensures NoDuplicates(Listed(Appended(s, c)))
  {
    AppendPutsLast(s, c);
    ThinnedKeepsDistinct(Listed(s), c);
  }

  lemma ThinnedKeepsDistinct(l: seq<Codec>, c: Codec)
    requires NoDuplicates(l)
    ensures NoDuplicates(Thinned(l, c)) && c !in Thinned(l, c)
  {
    if c in l {
      var k := IndexOf(l, c);
      var rest := l[k + 1..];
      AlternateIsSublist(rest);
      AlternateShrinks(rest);
      forall i | 0 <= i < |Alternate(rest)|
        ensures Alternate(rest)[i] !in l[..k + 1]
      {
        assert Alternate(rest)[i] in rest;
      }
    }
  }

  /** codec_pref_remove: the scan goes on after the match and shifts again at each index. */
  method PrefRemove(prefs: array<Codec>, c: Codec)
    requires prefs.Length == MAX_CAPABILITIES
    modifies prefs
    ensures prefs[..] == Removed(old(prefs[..]), c)
  {
    var x, found := 0, false;
    while x < MAX_CAPABILITIES && prefs[x] != NONE
      invariant x <= MAX_CAPABILITIES
      invariant Removed(old(prefs[..]), c) == RemovedFrom(prefs[..], c, x, found)
    {
      if !found && prefs[x] == c {
        found := true;
      }
      if found {
        ghost var s := prefs[..];
        forall i | x <= i < MAX_CAPABILITIES - 1 {
          prefs[i] := prefs[i + 1];
        }
        assert prefs[..] == ShiftedAt(s, x);
      }
      x := x + 1;
    }
  }

  /** codec_pref_append: the index written, or -1 when no NONE is left. */
  method PrefAppend(prefs: array<Codec>, c: Codec) returns (at: int)
    requires prefs.Length == MAX_CAPABILITIES
    modifies prefs
    ensures prefs[..] == Appended(old(prefs[..]), c)
    ensures at == -1 <==> NONE !in Removed(old(prefs[..]), c)
    ensures at != -1 ==> at == |Listed(Removed(old(prefs[..]), c))| < MAX_CAPABILITIES && prefs[at] == c
  {
    PrefRemove(prefs, c);
    ghost var r := prefs[..];
    var x := 0;
    while x < MAX_CAPABILITIES
      invariant x <= MAX_CAPABILITIES
      invariant prefs[..] == r && forall i :: 0 <= i < x ==> r[i] != NONE
    {
      if prefs[x] == NONE {
        ListedIs(r, x);
        prefs[x] := c;
        return x;
      }
      x := x + 1;
    }
    ListedIs(r, x);
    return -1;
  }
}
