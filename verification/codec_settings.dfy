/** What allow= and disallow= settings leave of a preference list, for every setting, and when that is
    what they say (sccp_codec.c). */
module CodecSettings {
  import opened Text
  import opened Codec
  import opened CodecParse

  // ---------------------------------------------------------------- removal in every list

  function Filled(l: seq<Codec>, last: Codec, n: nat): (r: seq<Codec>)
    requires |l| <= n
    ensures |r| == n
  {
    l + seq(n - |l|, _ => last)
  }

  lemma {:induction false} AlternateAt(l: seq<Codec>)
    ensures |Alternate(l)| == (|l| + 1) / 2
    ensures forall i :: 0 <= i < |Alternate(l)| ==> Alternate(l)[i] == l[2 * i]
  {
    if |l| >= 2 {
      AlternateAt(l[2..]);
      forall i | 0 < i < |Alternate(l)| ensures Alternate(l)[i] == l[2 * i] {
        assert Alternate(l)[i] == Alternate(l[2..])[i - 1];
      }
    }
  }

  /** Where the j-th entry of what is left stood before. */
  function Before(k: nat, j: nat): nat {
    if j < k then j else 2 * j - k + 1
  }

  lemma JoinedAt(l: seq<Codec>, k: nat, j: nat)
    requires k < |l| && j < k + |Alternate(l[k + 1..])|
    ensures Before(k, j) < |l| && (l[..k] + Alternate(l[k + 1..]))[j] == l[Before(k, j)]
  {
    hide Alternate;
    var rest := l[k + 1..];
    AlternateAt(rest);
    if j >= k {
      assert Alternate(rest)[j - k] == rest[2 * (j - k)];
    }
  }

  lemma FilledStep(s: seq<Codec>, x: nat)
    requires x + 1 < |s|
    ensures var n, r := |s|, ShiftedAt(s, x);
      && x + |Alternate(s[x + 1..])| <= n && x + 1 + |Alternate(r[x + 2..])| <= n
      && Filled(s[..x] + Alternate(s[x + 1..]), s[n - 1], n) == Filled(r[..x + 1] + Alternate(r[x + 2..]), s[n - 1], n)
  {
    hide Alternate;
    var n, r := |s|, ShiftedAt(s, x);
    AlternateAt(s[x + 1..]);
    AlternateAt(r[x + 2..]);
    var a, b := s[..x] + Alternate(s[x + 1..]), r[..x + 1] + Alternate(r[x + 2..]);
    var fa, fb := Filled(a, s[n - 1], n), Filled(b, s[n - 1], n);
    forall i | 0 <= i < n ensures fa[i] == fb[i] {
      if i < |a| {
        JoinedAt(s, x, i);
      }
      if i < |b| {
        JoinedAt(r, x + 1, i);
      }
    }
  }

  /** A list in an array without a terminator loses nothing by its end: its last entry is repeated. */
  lemma {:induction false} RemovedInFull(s: seq<Codec>, c: Codec, x: nat)
    requires x < |s| && NONE !in s
    ensures x + |Alternate(s[x + 1..])| <= |s|
    ensures RemovedFrom(s, c, x, true) == Filled(s[..x] + Alternate(s[x + 1..]), s[|s| - 1], |s|)
    decreases |s| - x
  {
    hide Filled;
    var n, r := |s|, ShiftedAt(s, x);
    if x + 1 < n {
      FilledStep(s, x);
      RemovedInFull(r, c, x + 1);
    } else {
      FilledLast(s);
      assert r == s;
    }
  }

  lemma FilledLast(s: seq<Codec>)
    requires s != []
    ensures Filled(s[..|s| - 1] + Alternate(s[|s|..]), s[|s| - 1], |s|) == s
  {
    AlternateAt(s[|s|..]);
  }

  lemma {:induction false} RemovedInFullBefore(s: seq<Codec>, c: Codec, x: nat)
    requires x <= |s| && NONE !in s && c !in s[..x]
    ensures c !in s ==> RemovedFrom(s, c, x, false) == s
    ensures c in s ==> IndexOf(s, c) >= x && RemovedFrom(s, c, x, false) == RemovedFrom(s, c, IndexOf(s, c), true)
    decreases |s| - x
  {
    if x < |s| {
      if s[x] == c {
        assert IndexOf(s, c) == x;
      } else {
        RemovedInFullBefore(s, c, x + 1);
      }
    } else {
      assert s[..x] == s;
    }
  }

  /** What removing c leaves of the list l in an array of n entries. */
  function Left(l: seq<Codec>, c: Codec, n: nat): (r: seq<Codec>)
    requires |l| <= n
    ensures |r| <= |l| && (|l| == n ==> |r| == n)
  {
    ThinnedShrinks(l, c);
    if c in l && |l| == n then Filled(Thinned(l, c), l[n - 1], n) else Thinned(l, c)
  }

  lemma RemovedIsLeft(s: seq<Codec>, c: Codec)
    ensures Listed(Removed(s, c)) == Left(Listed(s), c, |s|)
  {
    if |Listed(s)| < |s| {
      RemoveThins(s, c);
    } else {
      assert Listed(s) == s;
      RemovedInFullBefore(s, c, 0);
      if c in s {
        RemovedInFull(s, c, IndexOf(s, c));
        AlternateIsSublist(s[IndexOf(s, c) + 1..]);
        assert forall x :: x in Thinned(s, c) ==> x in s;
      }
      ListedIs(Removed(s, c), |s|);
    }
  }

  // ---------------------------------------------------------------- settings as operations

  datatype Op = Put(c: Codec) | Take(c: Codec) | Empty

  /** What an operation leaves of the list l in an array of n entries: behind a codec that was listed,
      every other entry goes with it, and a full list takes nothing. */
  function Did(l: seq<Codec>, op: Op, n: nat): (r: seq<Codec>)
    requires |l| <= n
    ensures |r| <= n
  {
    match op
    case Put(c) => Left(l, c, n) + (if c == NONE || |l| == n then [] else [c])
    case Take(c) => Left(l, c, n)
    case Empty => []
  }

  function DidAll(l: seq<Codec>, ops: seq<Op>, n: nat): (r: seq<Codec>)
    requires |l| <= n
    ensures |r| <= n
    decreases |ops|
  {
    if ops == [] then l else Did(DidAll(l, ops[..|ops| - 1], n), ops[|ops| - 1], n)
  }

  lemma {:induction false} DidInParts(l: seq<Codec>, a: seq<Op>, b: seq<Op>, n: nat)
    requires |l| <= n
    ensures DidAll(l, a + b, n) == DidAll(DidAll(l, a, n), b, n)
    decreases |b|
  {
    hide Did;
    if b == [] {
      assert a + b == a;
    } else {
      assert (a + b)[..|a + b| - 1] == a + b[..|b| - 1];
      DidInParts(l, a, b[..|b| - 1], n);
    }
  }

  lemma DidOne(l: seq<Codec>, op: Op, n: nat)
    requires |l| <= n
    ensures DidAll(l, [op], n) == Did(l, op, n) && DidAll(l, [], n) == l
  {
    assert [op][..0] == [];
  }

  function OpsFor(table: seq<Row>, name: string, allow: bool): seq<Op> {
    if table == [] then []
    else
      var op := if allow then Put(table[0].codec) else Take(table[0].codec);
      (if Hits(table[0], name) then [op] else []) + OpsFor(table[1..], name, allow)
  }

  function TokenOps(table: seq<Row>, token: string, allowing: bool): seq<Op> {
    if token == "" then []
    else if Clears(token, allowing) then [Empty]
    else OpsFor(table, Name(token), allowing == (token[0] != '!'))
  }

  function SettingOps(table: seq<Row>, tokens: seq<string>, allowing: bool): seq<Op> {
    if tokens == [] then [] else TokenOps(table, Strip(tokens[0]), allowing) + SettingOps(table, tokens[1..], allowing)
  }

  lemma AppendedIsPut(s: seq<Codec>, c: Codec)
    requires Clean(s)
    ensures Listed(Appended(s, c)) == Did(Listed(s), Put(c), |s|)
  {
    var r := Removed(s, c);
    RemovedIsLeft(s, c);
    RemovedFromKeepsClean(s, c, 0, false);
    if |Listed(r)| < |r| {
      if c == NONE {
        assert Appended(s, c) == r;
      } else {
        WriteAtEnd(r, c);
      }
    }
  }

  lemma {:induction false} RowsDo(prefs: seq<Codec>, table: seq<Row>, name: string, allow: bool)
    requires Clean(prefs)
    ensures |RowsApplied(prefs, table, name, allow)| == |prefs| && Clean(RowsApplied(prefs, table, name, allow))
    ensures Listed(RowsApplied(prefs, table, name, allow)) == DidAll(Listed(prefs), OpsFor(table, name, allow), |prefs|)
    decreases table
  {
    hide Clean, Listed, Removed, Appended, Hits, Did, DidAll;
    if table == [] {
      DidOne(Listed(prefs), Empty, |prefs|);
    } else {
      var c := table[0].codec;
      AppendKeepsClean(prefs, c);
      RemovedKeeps(prefs, c);
      AppendedIsPut(prefs, c);
      RemovedIsLeft(prefs, c);
      var op := if allow then Put(c) else Take(c);
      var next := if !Hits(table[0], name) then prefs else if allow then Appended(prefs, c) else Removed(prefs, c);
      RowsDo(next, table[1..], name, allow);
      TakeLeaves(Listed(prefs), c, |prefs|);
      DidOne(Listed(prefs), op, |prefs|);
      DidInParts(Listed(prefs), [op], OpsFor(table[1..], name, allow), |prefs|);
      assert [] + OpsFor(table[1..], name, allow) == OpsFor(table[1..], name, allow);
    }
  }

  lemma RemovedKeeps(s: seq<Codec>, c: Codec)
    requires Clean(s)
    ensures Clean(Removed(s, c)) && |Removed(s, c)| == |s|
  {
    RemovedFromKeepsClean(s, c, 0, false);
  }

  lemma TakeLeaves(l: seq<Codec>, c: Codec, n: nat)
    requires |l| <= n
    ensures Did(l, Take(c), n) == Left(l, c, n)
  {
  }

  lemma ClearedIsEmpty(prefs: seq<Codec>)
    ensures Clean(Cleared(prefs)) && Listed(Cleared(prefs)) == [] && |Cleared(prefs)| == |prefs|
  {
  }

  lemma {:induction false} TokensDo(table: seq<Row>, p: Progress, tokens: seq<string>, allowing: bool)
    requires Clean(p.prefs)
    ensures var r := TokensApplied(table, p, tokens, allowing).prefs;
      |r| == |p.prefs| && Listed(r) == DidAll(Listed(p.prefs), SettingOps(table, tokens, allowing), |p.prefs|)
    decreases |tokens|
  {
    hide Clean, Listed, Did, DidAll, Strip, Clears, Known, RowsApplied, OpsFor;
    var l, n := Listed(p.prefs), |p.prefs|;
    DidOne(l, Empty, n);
    if tokens != [] {
      var token := Strip(tokens[0]);
      ClearedIsEmpty(p.prefs);
      if token != "" {
        RowsDo(p.prefs, table, Name(token), allowing == (token[0] != '!'));
      }
      TokensDo(table, TokenApplied(table, p, token, allowing), tokens[1..], allowing);
      DidInParts(l, TokenOps(table, token, allowing), SettingOps(table, tokens[1..], allowing), n);
      EmptyEmpties(l, n);
    }
  }

  lemma EmptyEmpties(l: seq<Codec>, n: nat)
    requires |l| <= n
    ensures Did(l, Empty, n) == []
  {
  }

  /** Every allow or disallow setting does its operations one after the other. */
  lemma SettingMeans(table: seq<Row>, prefs: seq<Codec>, list: string, allowing: bool)
    requires Clean(prefs)
    ensures Listed(Parsed(table, prefs, list, allowing).prefs)
      == DidAll(Listed(prefs), SettingOps(table, Split(list, ','), allowing), |prefs|)
  {
    TokensDo(table, Progress(prefs, false, 0), Split(list, ','), allowing);
  }

  /** After disallow=all nothing is left of what was there before. */
  lemma DisallowAllThenAllow(table: seq<Row>, prefs: seq<Codec>, list: string)
    ensures var none := Parsed(table, prefs, "all", false).prefs;
      && Listed(Parsed(table, none, list, true).prefs) == DidAll([], SettingOps(table, Split(list, ','), true), |prefs|)
      && (AllExact([], SettingOps(table, Split(list, ','), true), |prefs|) ==>
           Listed(Parsed(table, none, list, true).prefs) == SaidAll([], SettingOps(table, Split(list, ','), true)))
  {
    hide Parsed, SettingOps, DidAll, SaidAll, AllExact;
    DisallowAllClears(table, prefs);
    ClearedIsEmpty(prefs);
    SettingMeans(table, Cleared(prefs), list, true);
    AsSaidIff([], SettingOps(table, Split(list, ','), true), |prefs|);
  }

  // ---------------------------------------------------------------- when a setting does what it says

  /** What an operation says: the codec once, behind the others; or not; or nothing at all. */
  function Said(l: seq<Codec>, op: Op): seq<Codec> {
    match op
    case Put(c) => if c == NONE then l else Deleted(l, c) + [c]
    case Take(c) => Deleted(l, c)
    case Empty => []
  }

  function SaidAll(l: seq<Codec>, ops: seq<Op>): seq<Codec>
    decreases |ops|
  {
    if ops == [] then l else Said(SaidAll(l, ops[..|ops| - 1]), ops[|ops| - 1])
  }

  predicate NearEnd(l: seq<Codec>, c: Codec) {
    c in l ==> |l| <= IndexOf(l, c) + 2
  }

  /** A codec that is listed is one of the last two, and there is room; or the last one, named again. */
  predicate Exact(l: seq<Codec>, op: Op, n: nat) {
    |l| <= n &&
    match op
    case Put(c) => c == NONE || (if |l| < n then NearEnd(l, c) else n > 0 && l[n - 1] == c)
    case Take(c) => c !in l || (|l| < n && NearEnd(l, c))
    case Empty => true
  }

  lemma DeletedKeepsDistinct(l: seq<Codec>, c: Codec)
    requires NoDuplicates(l)
    ensures NoDuplicates(Deleted(l, c)) && c !in Deleted(l, c) && (NONE !in l ==> NONE !in Deleted(l, c))
    ensures if c in l then |Deleted(l, c)| == |l| - 1 else Deleted(l, c) == l
  {
  }

  lemma ThinnedDeletesIff(l: seq<Codec>, c: Codec)
    ensures Thinned(l, c) == Deleted(l, c) <==> NearEnd(l, c)
  {
    if c in l {
      AlternateAt(l[IndexOf(l, c) + 1..]);
    }
  }

  lemma SameFront(a: seq<Codec>, b: seq<Codec>, c: Codec)
    ensures a + [c] == b + [c] <==> a == b
  {
    assert (a + [c])[..|a + [c]| - 1] == a && (b + [c])[..|b + [c]| - 1] == b;
  }

  lemma DidIsSaidIff(l: seq<Codec>, op: Op, n: nat)
    requires |l| <= n && NoDuplicates(l) && NONE !in l
    ensures Did(l, op, n) == Said(l, op) <==> Exact(l, op, n)
  {
    hide NoDuplicates, NearEnd, Thinned, Deleted;
    if op.Put? || op.Take? {
      ThinnedDeletesIff(l, op.c);
      DeletedKeepsDistinct(l, op.c);
      ThinnedHere(l, op.c);
      SameFront(Thinned(l, op.c), Deleted(l, op.c), op.c);
      assert n > 0 && |l| == n ==> l[n - 1] in l;
      if op.Put? && |l| == n > 0 && op.c != NONE && op.c in l {
        if l[n - 1] == op.c {
          LastOfDistinct(l, op.c);
          assert Did(l, op, n) == Said(l, op);
        } else {
          assert Did(l, op, n)[n - 1] == l[n - 1] by { LastIsRepeated(l, op.c); }
        }
      }
    }
  }

  lemma ThinnedHere(l: seq<Codec>, c: Codec)
    ensures c !in l ==> Thinned(l, c) == l
  {
  }

  lemma LastOfDistinct(l: seq<Codec>, c: Codec)
    requires NoDuplicates(l) && l != [] && l[|l| - 1] == c
    ensures Thinned(l, c) == l[..|l| - 1] == Deleted(l, c)
  {
    assert IndexOf(l, c) == |l| - 1;
  }

  lemma LastIsRepeated(l: seq<Codec>, c: Codec)
    requires c in l
    ensures Left(l, c, |l|)[|l| - 1] == l[|l| - 1]
  {
    AlternateAt(l[IndexOf(l, c) + 1..]);
  }

  lemma SaidKeeps(l: seq<Codec>, op: Op)
    requires NoDuplicates(l) && NONE !in l
    ensures NoDuplicates(Said(l, op)) && NONE !in Said(l, op)
  {
    if op.Put? || op.Take? {
      DeletedKeepsDistinct(l, op.c);
    }
  }

  lemma {:induction false} SaidAllKeeps(l: seq<Codec>, ops: seq<Op>)
    requires NoDuplicates(l) && NONE !in l
    ensures NoDuplicates(SaidAll(l, ops)) && NONE !in SaidAll(l, ops)
    decreases |ops|
  {
    hide Said, NoDuplicates;
    if ops != [] {
      SaidAllKeeps(l, ops[..|ops| - 1]);
      SaidKeeps(SaidAll(l, ops[..|ops| - 1]), ops[|ops| - 1]);
    }
  }

  /** The list is at each point of the setting what the setting says. */
  predicate AsSaid(l: seq<Codec>, ops: seq<Op>, n: nat)
    requires |l| <= n
    decreases |ops|
  {
    ops == [] || (AsSaid(l, ops[..|ops| - 1], n) && DidAll(l, ops, n) == SaidAll(l, ops))
  }

  predicate AllExact(l: seq<Codec>, ops: seq<Op>, n: nat)
    decreases |ops|
  {
    ops == [] || (AllExact(l, ops[..|ops| - 1], n) && Exact(SaidAll(l, ops[..|ops| - 1]), ops[|ops| - 1], n))
  }

  /** It is, the named codecs once and in the order of their last naming, exactly if each codec named
      again is one of the last two at that point and the codecs fit. */
  lemma {:induction false} AsSaidIff(l: seq<Codec>, ops: seq<Op>, n: nat)
    requires |l| <= n && NoDuplicates(l) && NONE !in l
    ensures AsSaid(l, ops, n) <==> AllExact(l, ops, n)
    ensures AsSaid(l, ops, n) ==> DidAll(l, ops, n) == SaidAll(l, ops)
    decreases |ops|
  {
    hide NoDuplicates, Did, Said, Exact;
    if ops != [] {
      var before := ops[..|ops| - 1];
      AsSaidIff(l, before, n);
      SaidAllKeeps(l, before);
      if AsSaid(l, before, n) {
        DidIsSaidIff(SaidAll(l, before), ops[|ops| - 1], n);
      }
    }
  }

  // ---------------------------------------------------------------- which codecs survive

  /** Removing c leaves e where it stands: before c, or an odd number of places behind. */
  predicate Spared(l: seq<Codec>, c: Codec, e: Codec) {
    c in l && e in l ==> IndexOf(l, e) < IndexOf(l, c) || (IndexOf(l, e) - IndexOf(l, c)) % 2 == 1
  }

  predicate Stays(l: seq<Codec>, op: Op, e: Codec, n: nat) {
    e in l &&
    match op
    case Put(c) => Spared(l, c, e) || (if |l| < n then c == e else e == l[|l| - 1])
    case Take(c) => Spared(l, c, e) || (|l| == n && e == l[|l| - 1])
    case Empty => false
  }

  /** A codec enters where it is named while there is room. */
  predicate Enters(l: seq<Codec>, op: Op, e: Codec, n: nat) {
    op == Put(e) && e != NONE && |l| < n
  }

  /** Only the last codec of a full list is ever listed twice. */
  ghost predicate Tidy(l: seq<Codec>, n: nat) {
    && |l| <= n && NONE !in l
    && (forall i, j :: 0 <= i < j < |l| && l[i] == l[j] ==> |l| == n && l[i] == l[n - 1])
  }

  /** What is left of the list behind c, for an entry that stands there once. */
  lemma AlternateHas(r: seq<Codec>, e: Codec, p: nat)
    requires p < |r| && r[p] == e && forall i :: 0 <= i < |r| && r[i] == e ==> i == p
    ensures e in Alternate(r) <==> p % 2 == 0
  {
    AlternateAt(r);
    if p % 2 == 0 {
      assert Alternate(r)[p / 2] == e;
    }
  }

  lemma InEither(a: seq<Codec>, b: seq<Codec>, e: Codec)
    ensures e in a + b <==> e in a || e in b
  {
  }

  lemma ThinnedHasOnce(l: seq<Codec>, c: Codec, e: Codec, p: nat)
    requires c in l && p < |l| && l[p] == e && forall i :: 0 <= i < |l| && i != p ==> l[i] != e
    ensures e in Thinned(l, c) <==> p < IndexOf(l, c) || (p - IndexOf(l, c)) % 2 == 1
  {
    hide Alternate;
    var k := IndexOf(l, c);
    var front, rest := l[..k], l[k + 1..];
    InEither(front, Alternate(rest), e);
    if p < k {
      assert front[p] == e;
    } else if p > k {
      assert e !in front;
      assert forall i :: 0 <= i < |rest| ==> rest[i] == l[k + 1 + i];
      AlternateHas(rest, e, p - k - 1);
    } else {
      AlternateIsSublist(rest);
      assert e !in rest && e !in front;
    }
  }

  lemma ThinnedHas(l: seq<Codec>, c: Codec, e: Codec, n: nat)
    requires Tidy(l, n) && e in l && (|l| == n ==> e != l[n - 1])
    ensures e in Thinned(l, c) <==> Spared(l, c, e)
  {
    hide Alternate, Thinned;
    ThinnedHere(l, c);
    if c in l {
      var p := IndexOf(l, e);
      assert forall i :: 0 <= i < |l| && i != p ==> l[i] != e;
      ThinnedHasOnce(l, c, e, p);
    }
  }

  lemma LeftHas(l: seq<Codec>, c: Codec, e: Codec, n: nat)
    requires Tidy(l, n)
    ensures e in Left(l, c, n) <==> e in l && (Spared(l, c, e) || (|l| == n && e == l[n - 1]))
  {
    ThinnedIsPart(l, c);
    if e in l {
      if |l| == n && e == l[n - 1] {
        if c in l {
          LastIsRepeated(l, c);
        }
      } else {
        ThinnedHas(l, c, e, n);
      }
    }
  }

  lemma ThinnedIsPart(l: seq<Codec>, c: Codec)
    ensures forall x :: x in Thinned(l, c) ==> x in l
  {
    if c in l {
      AlternateIsSublist(l[IndexOf(l, c) + 1..]);
    }
  }

  lemma DidHas(l: seq<Codec>, op: Op, e: Codec, n: nat)
    requires Tidy(l, n)
    ensures e in Did(l, op, n) <==> Enters(l, op, e, n) || Stays(l, op, e, n)
  {
    hide Tidy, Left, Spared;
    TidySize(l, n);
    if op.Put? || op.Take? {
      LeftHas(l, op.c, e, n);
    }
  }

  lemma TidySize(l: seq<Codec>, n: nat)
    requires Tidy(l, n)
    ensures |l| <= n && NONE !in l && (|l| < n ==> NoDuplicates(l))
  {
  }

  lemma ThinnedAt(l: seq<Codec>, c: Codec, j: nat)
    requires c in l && j < |Thinned(l, c)|
    ensures Before(IndexOf(l, c), j) < |l| && Thinned(l, c)[j] == l[Before(IndexOf(l, c), j)]
  {
    hide Alternate, Before;
    JoinedAt(l, IndexOf(l, c), j);
  }

  lemma LeftIsTidy(l: seq<Codec>, c: Codec, n: nat)
    requires Tidy(l, n)
    ensures Tidy(Left(l, c, n), n) && (|l| < n ==> c !in Left(l, c, n))
  {
    hide Tidy;
    TidySize(l, n);
    ThinnedIsPart(l, c);
    if |l| < n {
      ThinnedKeepsDistinct(l, c);
      TidyWithRoom(Left(l, c, n), n);
    } else if c in l {
      FullIsTidy(l, c);
    }
  }

  lemma TidyWithRoom(l: seq<Codec>, n: nat)
    requires |l| < n && NoDuplicates(l) && NONE !in l
    ensures Tidy(l, n)
  {
  }

  lemma FullIsTidy(l: seq<Codec>, c: Codec)
    requires Tidy(l, |l|) && c in l
    ensures Tidy(Left(l, c, |l|), |l|)
  {
    hide Thinned;
    var n, r, t := |l|, Left(l, c, |l|), Thinned(l, c);
    LastIsRepeated(l, c);
    ThinnedIsPart(l, c);
    forall i, j | 0 <= i < j < n && r[i] == r[j] ensures r[i] == r[n - 1] {
      if j < |t| {
        ThinnedAt(l, c, i);
        ThinnedAt(l, c, j);
        assert r[i] == t[i] && r[j] == t[j];
      }
    }
  }

  lemma DidIsTidy(l: seq<Codec>, op: Op, n: nat)
    requires Tidy(l, n)
    ensures Tidy(Did(l, op, n), n)
  {
    hide Left;
    if op.Put? || op.Take? {
      LeftIsTidy(l, op.c, n);
    }
  }

  lemma {:induction false} DidAllIsTidy(l: seq<Codec>, ops: seq<Op>, n: nat)
    requires Tidy(l, n)
    ensures Tidy(DidAll(l, ops, n), n)
    decreases |ops|
  {
    hide Did, Tidy;
    TidySize(l, n);
    if ops != [] {
      DidAllIsTidy(l, ops[..|ops| - 1], n);
      TidySize(DidAll(l, ops[..|ops| - 1], n), n);
      DidIsTidy(DidAll(l, ops[..|ops| - 1], n), ops[|ops| - 1], n);
    }
  }

  /** Named at i while there was room, and spared by everything that came after. */
  ghost predicate SurvivesFrom(ops: seq<Op>, i: int, e: Codec, n: nat) {
    && 0 <= i < |ops| && Enters(DidAll([], ops[..i], n), ops[i], e, n)
    && forall j :: i < j < |ops| ==> Stays(DidAll([], ops[..j], n), ops[j], e, n)
  }

  lemma SurvivesOneMore(ops: seq<Op>, i: int, e: Codec, n: nat)
    requires 0 <= i < |ops|
    ensures var m := |ops| - 1;
      && (i < m ==> (SurvivesFrom(ops, i, e, n) <==>
           SurvivesFrom(ops[..m], i, e, n) && Stays(DidAll([], ops[..m], n), ops[m], e, n)))
      && (i == m ==> (SurvivesFrom(ops, i, e, n) <==> Enters(DidAll([], ops[..m], n), ops[m], e, n)))
  {
    hide DidAll, Enters, Stays;
    var before := ops[..|ops| - 1];
    assert forall j :: 0 <= j < |ops| ==> before[..j] == ops[..j];
  }

  /** A codec is in the final list exactly if it survives from one of the places where it was named. */
  lemma {:induction false} SurvivesIff(ops: seq<Op>, e: Codec, n: nat)
    ensures e in DidAll([], ops, n) <==> exists i :: SurvivesFrom(ops, i, e, n)
    decreases |ops|
  {
    hide Did, Enters, Stays, SurvivesFrom;
    if ops == [] {
      NowhereInNothing(e, n);
    } else {
      var m := |ops| - 1;
      var before := ops[..m];
      var l := DidAll([], before, n);
      DidAllIsTidy([], before, n);
      DidHas(l, ops[m], e, n);
      SurvivesIff(before, e, n);
      SurvivesOneMore(ops, m, e, n);
      if Stays(l, ops[m], e, n) {
        StaysListed(l, ops[m], e, n);
        var i :| SurvivesFrom(before, i, e, n);
        SurvivesInRange(before, i, e, n);
        SurvivesOneMore(ops, i, e, n);
      }
      if exists i :: SurvivesFrom(ops, i, e, n) {
        var i :| SurvivesFrom(ops, i, e, n);
        SurvivesInRange(ops, i, e, n);
        SurvivesOneMore(ops, i, e, n);
      }
    }
  }

  lemma SurvivesInRange(ops: seq<Op>, i: int, e: Codec, n: nat)
    requires SurvivesFrom(ops, i, e, n)
    ensures 0 <= i < |ops|
  {
  }

  lemma NowhereInNothing(e: Codec, n: nat)
    ensures forall i :: !SurvivesFrom([], i, e, n)
  {
  }

  lemma StaysListed(l: seq<Codec>, op: Op, e: Codec, n: nat)
    requires Stays(l, op, e, n)
    ensures e in l
  {
  }

  // ---------------------------------------------------------------- examples

  /** Naming the first of three codecs again loses the last: allowing 1, 2, 3 and 1 leaves 2 and 1. */
  lemma NamedAgain()
    ensures DidAll([], [Put(1), Put(2), Put(3), Put(1)], 18) == [2, 1]
  {
    hide Did, DidAll;
    var n := 18;
    DidOne([], Put(1), n);
    PutNew([], 1, n);
    assert [] + [1] == [1];
    DidNext([], [Put(1)], Put(2), n);
    PutNew([1], 2, n);
    assert [1] + [2] == [1, 2] && [1, 2] + [3] == [1, 2, 3];
    assert [Put(1)] + [Put(2)] == [Put(1), Put(2)];
    DidNext([], [Put(1), Put(2)], Put(3), n);
    PutNew([1, 2], 3, n);
    assert [Put(1), Put(2)] + [Put(3)] == [Put(1), Put(2), Put(3)];
    DidNext([], [Put(1), Put(2), Put(3)], Put(1), n);
    assert [Put(1), Put(2), Put(3)] + [Put(1)] == [Put(1), Put(2), Put(3), Put(1)];
    PutFirstOfThree(1, 2, 3, n);
  }

  lemma DidNext(l: seq<Codec>, ops: seq<Op>, op: Op, n: nat)
    requires |l| <= n
    ensures DidAll(l, ops + [op], n) == Did(DidAll(l, ops, n), op, n)
  {
    assert (ops + [op])[..|ops|] == ops;
  }

  lemma PutNew(l: seq<Codec>, c: Codec, n: nat)
    requires |l| < n && c !in l && c != NONE
    ensures Did(l, Put(c), n) == l + [c]
  {
  }

  lemma PutFirstOfThree(a: Codec, b: Codec, c: Codec, n: nat)
    requires n > 3 && a != NONE
    ensures Did([a, b, c], Put(a), n) == [b, a]
  {
    var l := [a, b, c];
    assert IndexOf(l, a) == 0 && l[1..] == [b, c];
    assert Alternate([b, c]) == [b] + Alternate([]);
    assert Thinned(l, a) == [b];
  }

  /** A full list loses the codec that is named again, unless it is the last. */
  lemma FullLosesNamedAgain(l: seq<Codec>, c: Codec)
    requires NoDuplicates(l) && NONE !in l && c in l
    ensures c in Did(l, Put(c), |l|) <==> c == l[|l| - 1]
  {
    hide NoDuplicates, Did;
    TidyDistinct(l);
    DidHas(l, Put(c), c, |l|);
  }

  lemma TidyDistinct(l: seq<Codec>)
    requires NoDuplicates(l) && NONE !in l
    ensures Tidy(l, |l|)
  {
  }

  // ---------------------------------------------------------------- settings that name each codec once

  predicate NoExclusion(tokens: seq<string>) {
    forall i :: 0 <= i < |tokens| && Strip(tokens[i]) != "" ==> Strip(tokens[i])[0] != '!'
  }

  /** The codecs that the rows with this key stand for, in table order. */
  function CodecsFor(table: seq<Row>, name: string): seq<Codec> {
    if table == [] then []
    else (if Hits(table[0], name) then [table[0].codec] else []) + CodecsFor(table[1..], name)
  }

  function WantedBy(table: seq<Row>, token: string): seq<Codec> {
    if token == "" then [] else CodecsFor(table, token)
  }

  function Wanted(table: seq<Row>, tokens: seq<string>): seq<Codec> {
    if tokens == [] then [] else WantedBy(table, Strip(tokens[0])) + Wanted(table, tokens[1..])
  }

  function Puts(cs: seq<Codec>): seq<Op> {
    seq(|cs|, i requires 0 <= i < |cs| => Put(cs[i]))
  }

  lemma {:induction false} RowsPut(table: seq<Row>, name: string)
    ensures OpsFor(table, name, true) == Puts(CodecsFor(table, name))
  {
    hide Hits;
    if table != [] {
      RowsPut(table[1..], name);
    }
  }

  lemma {:induction false} TokensPut(table: seq<Row>, tokens: seq<string>)
    requires NoExclusion(tokens)
    ensures SettingOps(table, tokens, true) == Puts(Wanted(table, tokens))
  {
    hide Strip;
    if tokens != [] {
      var token := Strip(tokens[0]);
      TokensPut(table, tokens[1..]);
      if token != "" {
        assert !Clears(token, true);
        RowsPut(table, token);
      }
    }
  }

  lemma {:induction false} DistinctAreAdded(cs: seq<Codec>, n: nat)
    requires NoDuplicates(cs) && NONE !in cs && |cs| <= n
    ensures DidAll([], Puts(cs), n) == cs
    decreases |cs|
  {
    if cs != [] {
      var m := |cs| - 1;
      DistinctAreAdded(cs[..m], n);
      assert Puts(cs)[..m] == Puts(cs[..m]);
      assert cs == cs[..m] + [cs[m]];
    }
  }

  /** disallow=all followed by an allow setting that names no codec twice leaves the named codecs, in
      the order named. */
  lemma DistinctNamesStay(table: seq<Row>, prefs: seq<Codec>, list: string)
    requires NoExclusion(Split(list, ','))
    requires var wanted := Wanted(table, Split(list, ','));
             |wanted| <= |prefs| && NONE !in wanted && NoDuplicates(wanted)
    ensures var none := Parsed(table, prefs, "all", false).prefs;
            Listed(Parsed(table, none, list, true).prefs) == Wanted(table, Split(list, ','))
  {
    DisallowAllThenAllow(table, prefs, list);
    TokensPut(table, Split(list, ','));
    DistinctAreAdded(Wanted(table, Split(list, ',')), |prefs|);
  }
}
