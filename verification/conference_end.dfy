/** The end of a conference: any number of threads may call for it at once, while participants leave and
    change their roles (sccp_conference.c). */
module ConferenceEnd {

  /** Where a caller of sccp_conference_end is: before its atomic fetch-and-add, at participant i of
      the first loop or the second, about to take the conference off the global list, or back. */
  datatype Pc = Calling | Ordinary(i: nat) | Moderators(i: nat) | Unlisting | Back

  /** What a loop finds when it comes to a participant. */
  datatype Look = Look(moderator: bool, pending: bool)

  /** moderators, pending, phones: per participant, whether it is a moderator, is leaving already, and
      has a channel and a device; count: the moderator count; first, second: what each loop has found
      so far; asked: those the bridge was asked to remove, in order; released: releases of the global
      list's reference. */
  datatype World = World(finishing: nat, pcs: seq<Pc>, moderators: seq<bool>, pending: seq<bool>, phones: seq<bool>,
                         count: int, first: seq<Look>, second: seq<Look>, asked: seq<nat>,
                         listed: bool, teardowns: nat, released: nat)

  /** A caller takes its next step, a participant starts or fails to leave, or a moderator changes the
      role of a participant, which takes no lock and does not ask whether the conference is ending. */
  datatype Event = Caller(t: nat) | Leaving(i: nat, pending: bool) | ChangeRole(i: nat)

  predicate Works(pc: Pc) {
    pc.Ordinary? || pc.Moderators? || pc.Unlisting?
  }

  predicate Shaped(w: World) {
    |w.moderators| == |w.pending| == |w.phones|
  }

  /** One turn of the first loop, or of the second, which asks the moderators. */
  function AfterVisit(w: World, i: nat, moderator: bool): (v: World)
    requires Shaped(w) && i < |w.moderators|
    ensures Shaped(v)
  {
    var look := Look(w.moderators[i], w.pending[i]);
    var asked := if look == Look(moderator, false) then w.asked + [i] else w.asked;
    if moderator then w.(second := w.second + [look], asked := asked) else w.(first := w.first + [look], asked := asked)
  }

  function CallerStep(w: World, t: nat): (v: World)
    requires Shaped(w) && t < |w.pcs|
    ensures Shaped(v)
  {
    match w.pcs[t]
    case Calling => w.(finishing := w.finishing + 1, pcs := w.pcs[t := if w.finishing != 0 then Back else Ordinary(0)])
    case Ordinary(i) =>
      if i < |w.moderators| then AfterVisit(w, i, false).(pcs := w.pcs[t := Ordinary(i + 1)])
      else w.(pcs := w.pcs[t := Moderators(0)])
    case Moderators(i) =>
      if i < |w.moderators| then AfterVisit(w, i, true).(pcs := w.pcs[t := Moderators(i + 1)])
      else w.(pcs := w.pcs[t := Unlisting])
    case Unlisting =>
      w.(listed := false, teardowns := w.teardowns + 1, released := w.released + (if w.listed then 1 else 0),
         pcs := w.pcs[t := Back])
    case Back => w
  }

  /** sccp_conference_promote_demote_participant; a demotion raises the count, too. */
  function AfterRoleChange(w: World, i: nat): (v: World)
    requires Shaped(w) && i < |w.moderators|
    ensures Shaped(v)
  {
    if w.phones[i] && (!w.moderators[i] || w.count > 1) then
      w.(moderators := w.moderators[i := !w.moderators[i]], count := w.count + 1)
    else w
  }

  function Step(w: World, e: Event): (v: World)
    requires Shaped(w)
    ensures Shaped(v)
  {
    match e
    case Caller(t) => if t < |w.pcs| then CallerStep(w, t) else w
    case Leaving(i, p) => if i < |w.pending| then w.(pending := w.pending[i := p]) else w
    case ChangeRole(i) => if i < |w.moderators| then AfterRoleChange(w, i) else w
  }

  /** A role changes by a change of that role alone, for a phone, the last moderator excepted, and each
      change adds one to the count; somebody starts or fails to leave by its own event alone. */
  lemma RolesAndLeaving(w: World, e: Event)
    requires Shaped(w)
    ensures forall i :: 0 <= i < |w.moderators| ==>
      (Step(w, e).moderators[i] != w.moderators[i] <==>
        e == ChangeRole(i) && w.phones[i] && (!w.moderators[i] || w.count > 1))
    ensures Step(w, e).count == w.count + (if Step(w, e).moderators == w.moderators then 0 else 1)
    ensures forall i :: 0 <= i < |w.pending| ==>
      Step(w, e).pending[i] == if e.Leaving? && e.i == i then e.pending else w.pending[i]
    ensures Step(w, e).phones == w.phones
  {
    if e.ChangeRole? && e.i < |w.moderators| {
      var v := Step(w, e);
      assert v.moderators != w.moderators ==> v.moderators[e.i] != w.moderators[e.i];
    }
  }

  function Run(w: World, events: seq<Event>): (r: World)
    requires Shaped(w)
    ensures Shaped(r)
    decreases |events|
  {
    if events == [] then w else Step(Run(w, events[..|events| - 1]), events[|events| - 1])
  }

  predicate Initial(w: World) {
    && w.finishing == 0 && w.asked == [] && w.first == w.second == [] && w.listed && w.teardowns == 0 && w.released == 0
    && Shaped(w) && forall t :: 0 <= t < |w.pcs| ==> w.pcs[t] == Calling
  }

  // ---------------------------------------------------------------- the one that does the work

  /** Before the first call nobody works; after it everybody but one caller is calling or back. */
  ghost predicate OneWorker(w: World, worker: int) {
    if w.finishing == 0 then worker == -1 && forall t :: 0 <= t < |w.pcs| ==> w.pcs[t] == Calling
    else
      && 0 <= worker < |w.pcs| && w.pcs[worker] != Calling
      && forall t :: 0 <= t < |w.pcs| && t != worker ==> w.pcs[t] in {Calling, Back}
  }

  function Worker(w: World, worker: int, e: Event): int {
    if worker == -1 && e.Caller? && e.t < |w.pcs| then e.t else worker
  }

  /** How far the two loops have come. */
  function Reached(w: World, worker: int): (nat, nat)
  {
    if worker < 0 || worker >= |w.pcs| then (0, 0)
    else match w.pcs[worker]
      case Calling => (0, 0)
      case Ordinary(i) => (i, 0)
      case Moderators(i) => (|w.moderators|, i)
      case _ => (|w.moderators|, |w.moderators|)
  }

  /** The participants that a loop has found to be of its kind and staying, in order. */
  function Picked(looks: seq<Look>, moderator: bool): (s: seq<nat>)
    ensures |s| <= |looks| && forall k :: 0 <= k < |s| ==> s[k] < |looks| && looks[s[k]] == Look(moderator, false)
    decreases |looks|
  {
    if looks == [] then []
    else
      var n := |looks| - 1;
      Picked(looks[..n], moderator) + (if looks[n] == Look(moderator, false) then [n] else [])
  }

  /** The bridge was asked to remove exactly those that the loops found of their kind and staying. */
  ghost predicate AskedAsSeen(asked: seq<nat>, first: seq<Look>, second: seq<Look>, n: nat) {
    && asked == Picked(first, false) + Picked(second, true)
    && |first| <= n && |second| <= n && (second != [] ==> |first| == n)
  }

  /** The reference of the list is released when, and only when, the worker is through. */
  ghost predicate ReleasedOnce(w: World, worker: int) {
    if 0 <= worker < |w.pcs| && w.pcs[worker] == Back then !w.listed && w.teardowns == w.released == 1
    else w.listed && w.teardowns == w.released == 0
  }

  ghost predicate Inv(w: World, worker: int) {
    && Shaped(w) && OneWorker(w, worker) && ReleasedOnce(w, worker)
    && AskedAsSeen(w.asked, w.first, w.second, |w.moderators|)
    && (|w.first|, |w.second|) == Reached(w, worker)
  }

  lemma OneWorkerStays(w: World, worker: int, e: Event)
    requires Shaped(w) && OneWorker(w, worker)
    ensures OneWorker(Step(w, e), Worker(w, worker, e))
  {
  }

  lemma PickedOneMore(looks: seq<Look>, look: Look, moderator: bool)
    ensures Picked(looks + [look], moderator)
         == Picked(looks, moderator) + (if look == Look(moderator, false) then [|looks|] else [])
  {
    assert (looks + [look])[..|looks|] == looks;
  }

  lemma PickedNone(moderator: bool)
    ensures Picked([], moderator) == []
  {
  }

  lemma VisitFirst(asked: seq<nat>, first: seq<Look>, n: nat, look: Look)
    requires AskedAsSeen(asked, first, [], n) && |first| < n
    ensures AskedAsSeen(if look == Look(false, false) then asked + [|first|] else asked, first + [look], [], n)
  {
    hide Picked;
    PickedOneMore(first, look, false);
    PickedNone(true);
  }

  lemma VisitSecond(asked: seq<nat>, first: seq<Look>, second: seq<Look>, n: nat, look: Look)
    requires AskedAsSeen(asked, first, second, n) && |first| == n && |second| < n
    ensures AskedAsSeen(if look == Look(true, false) then asked + [|second|] else asked, first, second + [look], n)
  {
    hide Picked;
    PickedOneMore(second, look, true);
  }

  /** One step of anybody. */
  lemma StepKeeps(w: World, worker: int, e: Event)
    requires Inv(w, worker)
    ensures Inv(Step(w, e), Worker(w, worker, e))
  {
    hide AskedAsSeen;
    OneWorkerStays(w, worker, e);
    if e.Caller? && e.t < |w.pcs| {
      var n := |w.moderators|;
      AskedWithin(w.asked, w.first, w.second, n);
      match w.pcs[e.t] {
        case Ordinary(i) =>
          if i < n {
            assert w.second == [];
            VisitFirst(w.asked, w.first, n, Look(w.moderators[i], w.pending[i]));
          }
        case Moderators(i) =>
          if i < n {
            VisitSecond(w.asked, w.first, w.second, n, Look(w.moderators[i], w.pending[i]));
          }
        case _ =>
      }
    }
  }

  lemma AskedWithin(asked: seq<nat>, first: seq<Look>, second: seq<Look>, n: nat)
    requires AskedAsSeen(asked, first, second, n)
    ensures |first| <= n && |second| <= n
  {
  }

  function WorkerOf(w: World, events: seq<Event>): int
    requires Shaped(w)
    decreases |events|
  {
    if events == [] then -1
    else Worker(Run(w, events[..|events| - 1]), WorkerOf(w, events[..|events| - 1]), events[|events| - 1])
  }

  lemma InitialInv(w: World)
    requires Initial(w)
    ensures Inv(w, -1)
  {
    PickedNone(false);
    PickedNone(true);
  }

  lemma StepSizes(w: World, worker: int, e: Event)
    requires Inv(w, worker)
    ensures |Step(w, e).moderators| == |w.moderators| && |Step(w, e).pcs| == |w.pcs|
    ensures worker != -1 <==> w.finishing > 0
  {
    hide AskedAsSeen;
  }

  lemma {:induction false} RunKeeps(w: World, events: seq<Event>)
    requires Initial(w)
    ensures Inv(Run(w, events), WorkerOf(w, events))
    ensures WorkerOf(w, events) != -1 <==> Run(w, events).finishing > 0
    ensures |Run(w, events).moderators| == |w.moderators| && |Run(w, events).pcs| == |w.pcs|
    decreases |events|
  {
    hide Inv, Step, Worker;
    if events == [] {
      InitialInv(w);
    } else {
      var before, e := events[..|events| - 1], events[|events| - 1];
      RunKeeps(w, before);
      StepKeeps(Run(w, before), WorkerOf(w, before), e);
      StepSizes(Run(w, before), WorkerOf(w, before), e);
    }
    StepSizes(Run(w, events), WorkerOf(w, events), Caller(0));
  }

  /** On every interleaving at most one call works on the end, at most one gets through with it, and
      the list's reference is released at most once; when every caller is back it was one call, and one
      release. */
  lemma ReleasedExactlyOnce(w: World, events: seq<Event>)
    requires Initial(w)
    ensures var v := Run(w, events);
      && v.teardowns <= 1 && v.released <= 1
      && (forall t, u :: 0 <= t < |v.pcs| && 0 <= u < |v.pcs| && Works(v.pcs[t]) && Works(v.pcs[u]) ==> t == u)
      && (v.pcs != [] && (forall t :: 0 <= t < |v.pcs| ==> v.pcs[t] == Back) ==>
           v.teardowns == 1 && v.released == 1 && !v.listed)
  {
    hide AskedAsSeen, Run, WorkerOf;
    RunKeeps(w, events);
    var v := Run(w, events);
    if v.pcs != [] && v.pcs[0] == Back {
      assert v.finishing != 0;
    }
  }

  // ---------------------------------------------------------------- the requests

  function Bit(b: bool): nat {
    if b then 1 else 0
  }

  function Times(s: seq<nat>, i: nat): nat {
    multiset(s)[i]
  }

  predicate Increasing(s: seq<nat>) {
    forall j, k :: 0 <= j < k < |s| ==> s[j] < s[k]
  }

  predicate Picks(looks: seq<Look>, moderator: bool, i: nat) {
    i < |looks| && looks[i] == Look(moderator, false)
  }

  lemma {:induction false} PickedOnce(looks: seq<Look>, moderator: bool, i: nat)
    ensures Increasing(Picked(looks, moderator))
    ensures Times(Picked(looks, moderator), i) == Bit(Picks(looks, moderator, i))
    decreases |looks|
  {
    hide Picked, Times, Increasing, Picks;
    if looks == [] {
      PickedNone(moderator);
      NothingPicked(moderator, i);
    } else {
      var n := |looks| - 1;
      assert looks == looks[..n] + [looks[n]];
      PickedOneMore(looks[..n], looks[n], moderator);
      PickedOnce(looks[..n], moderator, i);
      PicksOneMore(looks, moderator, i);
      if looks[n] == Look(moderator, false) {
        OneMore(Picked(looks[..n], moderator), n);
        TimesJoin(Picked(looks[..n], moderator), [n], i);
      } else {
        assert Picked(looks[..n], moderator) + [] == Picked(looks[..n], moderator);
      }
    }
  }

  lemma NothingPicked(moderator: bool, i: nat)
    ensures Increasing([]) && Times([], i) == 0 == Bit(Picks([], moderator, i))
  {
  }

  lemma PicksOneMore(looks: seq<Look>, moderator: bool, i: nat)
    requires looks != []
    ensures var n := |looks| - 1;
      && Bit(Picks(looks, moderator, i))
           == Bit(Picks(looks[..n], moderator, i)) + Bit(i == n && looks[n] == Look(moderator, false))
      && Times([n], i) == Bit(i == n)
  {
  }

  lemma TimesJoin(a: seq<nat>, b: seq<nat>, i: nat)
    ensures Times(a + b, i) == Times(a, i) + Times(b, i)
  {
  }

  lemma OneMore(s: seq<nat>, n: nat)
    requires Increasing(s) && forall k :: 0 <= k < |s| ==> s[k] < n
    ensures Increasing(s + [n])
  {
  }

  /** The requests follow what the loops found, on every run: ordinary participants first, in order, then
      moderators, in order. A participant is asked twice exactly if it was found an ordinary one by the
      first loop and a moderator by the second, staying both times; when the conference is off the list,
      it was never asked exactly if neither loop found it of its kind and staying. */
  lemma AskedAsFound(w: World, events: seq<Event>, i: nat)
    requires Initial(w) && i < |w.moderators|
    ensures var v := Run(w, events);
      && v.asked == Picked(v.first, false) + Picked(v.second, true)
      && Increasing(Picked(v.first, false)) && Increasing(Picked(v.second, true))
      && Times(v.asked, i) == Bit(Picks(v.first, false, i)) + Bit(Picks(v.second, true, i))
      && (Times(v.asked, i) == 2 <==> Picks(v.first, false, i) && Picks(v.second, true, i))
      && (!v.listed ==>
           && |v.first| == |v.second| == |w.moderators|
           && (i !in v.asked <==>
                (v.first[i].moderator || v.first[i].pending) && (!v.second[i].moderator || v.second[i].pending)))
  {
    hide Run, WorkerOf, Picked, OneWorker;
    RunKeeps(w, events);
    var v := Run(w, events);
    PickedOnce(v.first, false, i);
    PickedOnce(v.second, true, i);
    TimesJoin(Picked(v.first, false), Picked(v.second, true), i);
    assert i in v.asked <==> Times(v.asked, i) > 0;
    if !v.listed {
      Unlisted(v, WorkerOf(w, events));
    }
  }

  lemma Unlisted(w: World, worker: int)
    requires Inv(w, worker) && !w.listed
    ensures |w.first| == |w.second| == |w.moderators|
  {
  }

  /** Some step of a caller came to participant i in the first loop, or the second, and found look. */
  ghost predicate Found(w: World, events: seq<Event>, pc: Pc, i: nat, look: Look)
    requires Shaped(w)
  {
    exists k :: 0 <= k < |events| && FoundAt(w, events, k, pc, i, look)
  }

  ghost predicate FoundAt(w: World, events: seq<Event>, k: nat, pc: Pc, i: nat, look: Look)
    requires Shaped(w) && k < |events|
  {
    var v, e := Run(w, events[..k]), events[k];
    e.Caller? && e.t < |v.pcs| && v.pcs[e.t] == pc && i < |v.moderators| && look == Look(v.moderators[i], v.pending[i])
  }

  lemma FoundBefore(w: World, events: seq<Event>, pc: Pc, i: nat, look: Look)
    requires Shaped(w) && events != [] && Found(w, events[..|events| - 1], pc, i, look)
    ensures Found(w, events, pc, i, look)
  {
    var before := events[..|events| - 1];
    var k :| 0 <= k < |before| && FoundAt(w, before, k, pc, i, look);
    assert before[..k] == events[..k];
    assert FoundAt(w, events, k, pc, i, look);
  }

  /** What one step adds to a loop's findings: nothing, or the participant that it comes to. */
  ghost predicate LooksOn(v: World, before: seq<Look>, after: seq<Look>) {
    after == before
      || (|before| < |v.moderators| == |v.pending|
           && after == before + [Look(v.moderators[|before|], v.pending[|before|])])
  }

  lemma LooksOneMore(v: World, worker: int, e: Event)
    requires Inv(v, worker)
    ensures var u := Step(v, e);
      && LooksOn(v, v.first, u.first) && LooksOn(v, v.second, u.second)
      && (u.first != v.first ==> e.Caller? && e.t < |v.pcs| && v.pcs[e.t] == Ordinary(|v.first|))
      && (u.second != v.second ==> e.Caller? && e.t < |v.pcs| && v.pcs[e.t] == Moderators(|v.second|))
      && (!e.ChangeRole? ==> u.moderators == v.moderators) && (e.Caller? ==> u.pending == v.pending)
  {
    hide AskedAsSeen;
  }

  /** What the loops found are the roles at the moment they came by. */
  lemma {:induction false} LooksAreFound(w: World, events: seq<Event>, i: nat)
    requires Initial(w)
    ensures i < |Run(w, events).first| ==> Found(w, events, Ordinary(i), i, Run(w, events).first[i])
    ensures i < |Run(w, events).second| ==> Found(w, events, Moderators(i), i, Run(w, events).second[i])
    decreases |events|
  {
    hide Found, FoundAt, Step, WorkerOf, Inv;
    if events != [] {
      var before, e := events[..|events| - 1], events[|events| - 1];
      var v, u := Run(w, before), Run(w, events);
      LooksAreFound(w, before, i);
      RunKeeps(w, before);
      LooksOneMore(v, WorkerOf(w, before), e);
      if i < |u.first| {
        FoundOneMore(w, events, Ordinary(i), i, v.first, u.first);
      }
      if i < |u.second| {
        FoundOneMore(w, events, Moderators(i), i, v.second, u.second);
      }
    }
  }

  lemma FoundOneMore(w: World, events: seq<Event>, pc: Pc, i: nat, looks: seq<Look>, more: seq<Look>)
    requires Shaped(w) && events != [] && LooksOn(Run(w, events[..|events| - 1]), looks, more) && i < |more|
    requires i < |looks| ==> Found(w, events[..|events| - 1], pc, i, looks[i])
    requires var v, e := Run(w, events[..|events| - 1]), events[|events| - 1];
      i == |looks| ==> e.Caller? && e.t < |v.pcs| && v.pcs[e.t] == pc
    ensures Found(w, events, pc, i, more[i])
  {
    hide Run;
    if i < |looks| {
      FoundBefore(w, events, pc, i, looks[i]);
    } else {
      assert FoundAt(w, events, |events| - 1, pc, i, more[i]);
    }
  }

  // ---------------------------------------------------------------- runs without changes of role

  ghost predicate KeepsRoles(events: seq<Event>) {
    forall k :: 0 <= k < |events| ==> !events[k].ChangeRole?
  }

  ghost predicate SameRoles(looks: seq<Look>, moderators: seq<bool>) {
    |looks| <= |moderators| && forall i :: 0 <= i < |looks| ==> looks[i].moderator == moderators[i]
  }

  lemma {:induction false} RolesStay(w: World, events: seq<Event>)
    requires Initial(w) && KeepsRoles(events)
    ensures var v := Run(w, events);
      v.moderators == w.moderators && SameRoles(v.first, w.moderators) && SameRoles(v.second, w.moderators)
    decreases |events|
  {
    hide Step, WorkerOf, Inv;
    if events != [] {
      var before := events[..|events| - 1];
      RolesStay(w, before);
      RunKeeps(w, before);
      LooksOneMore(Run(w, before), WorkerOf(w, before), events[|events| - 1]);
    }
  }

  /** The loop for its kind found the participant leaving already. */
  predicate FoundLeaving(v: World, i: nat)
    requires i < |v.moderators|
  {
    if v.moderators[i] then i < |v.second| && v.second[i].pending else i < |v.first| && v.first[i].pending
  }

  /** As long as nobody changes its role, the bridge is asked to remove ordinary participants before
      moderators, nobody twice; and by the time the conference is off the list everybody was asked for
      but those found leaving. */
  lemma AskedOnceInOrder(w: World, events: seq<Event>)
    requires Initial(w) && KeepsRoles(events)
    ensures var v := Run(w, events);
      && (forall j, k :: 0 <= j < k < |v.asked| ==>
            v.asked[j] != v.asked[k] && v.asked[j] < |v.moderators| && v.asked[k] < |v.moderators|)
      && (forall j, k :: 0 <= j < k < |v.asked| && v.asked[j] < |v.moderators| && v.asked[k] < |v.moderators| ==>
            (v.moderators[v.asked[j]] ==> v.moderators[v.asked[k]]))
      && (forall i :: 0 <= i < |v.moderators| && i in v.asked ==> !FoundLeaving(v, i))
      && (!v.listed ==> forall i :: 0 <= i < |v.moderators| ==> (i in v.asked <==> !FoundLeaving(v, i)))
  {
    hide Run, Picked, Inv, WorkerOf;
    var v := Run(w, events);
    RolesStay(w, events);
    RunKeeps(w, events);
    forall i | 0 <= i < |v.moderators|
      ensures i in v.asked ==> !FoundLeaving(v, i)
      ensures !v.listed ==> (i in v.asked <==> !FoundLeaving(v, i))
    {
      AskedAsFound(w, events, i);
      assert i in v.asked <==> Times(v.asked, i) > 0;
    }
    if v.asked != [] {
      SomeoneThere(w, events);
      AskedAsFound(w, events, 0);
      PickedInOrder(v.first, v.second, v.moderators);
    }
  }

  lemma SomeoneThere(w: World, events: seq<Event>)
    requires Initial(w) && Run(w, events).asked != []
    ensures |w.moderators| > 0 && |Run(w, events).moderators| == |w.moderators|
  {
    RunKeeps(w, events);
  }

  lemma PickedInOrder(first: seq<Look>, second: seq<Look>, moderators: seq<bool>)
    requires SameRoles(first, moderators) && SameRoles(second, moderators)
    requires Increasing(Picked(first, false)) && Increasing(Picked(second, true))
    ensures var asked := Picked(first, false) + Picked(second, true);
      forall j, k :: 0 <= j < k < |asked| ==>
        && asked[j] != asked[k] && asked[j] < |moderators| && asked[k] < |moderators|
        && (moderators[asked[j]] ==> moderators[asked[k]])
  {
  }

  ghost predicate OnlyCallers(events: seq<Event>) {
    forall k :: 0 <= k < |events| ==> events[k].Caller?
  }

  ghost predicate SameLooks(looks: seq<Look>, moderators: seq<bool>, pending: seq<bool>) {
    && |looks| <= |moderators| == |pending|
    && forall i :: 0 <= i < |looks| ==> looks[i] == Look(moderators[i], pending[i])
  }

  lemma {:induction false} CallersFindSame(w: World, events: seq<Event>)
    requires Initial(w) && OnlyCallers(events)
    ensures var v := Run(w, events);
      && v.pending == w.pending && v.moderators == w.moderators
      && SameLooks(v.first, w.moderators, w.pending) && SameLooks(v.second, w.moderators, w.pending)
    decreases |events|
  {
    hide Step, WorkerOf, Inv;
    if events != [] {
      var before := events[..|events| - 1];
      CallersFindSame(w, before);
      RunKeeps(w, before);
      LooksOneMore(Run(w, before), WorkerOf(w, before), events[|events| - 1]);
    }
  }

  /** When nobody leaves or changes its role meanwhile, a conference that is off the list has asked the
      bridge to remove exactly the participants that were not leaving already. */
  lemma AsksExactlyTheStaying(w: World, events: seq<Event>)
    requires Initial(w) && OnlyCallers(events)
    requires !Run(w, events).listed
    ensures forall i :: 0 <= i < |w.pending| ==> (i in Run(w, events).asked <==> !w.pending[i])
  {
    hide Run, Picked;
    CallersFindSame(w, events);
    forall i | 0 <= i < |w.pending| ensures i in Run(w, events).asked <==> !w.pending[i] {
      AskedAsFound(w, events, i);
    }
  }

  // ---------------------------------------------------------------- changes of role in between

  lemma RunOneMore(w: World, events: seq<Event>, e: Event)
    requires Shaped(w)
    ensures Run(w, events + [e]) == Step(Run(w, events), e)
  {
    assert (events + [e])[..|events|] == events;
  }

  /** Two staying participants with phones, and one thread in the end. */
  function Pair(pc: Pc, moderators: seq<bool>, count: int, first: seq<Look>, second: seq<Look>,
    asked: seq<nat>): World {
    World(Bit(pc != Calling), [pc], moderators, [false, false], [true, true], count, first, second, asked,
          pc != Back, Bit(pc == Back), Bit(pc == Back))
  }

  /** The first loop over two participants. */
  lemma FirstLoop(w: World, a: bool, b: bool, count: int) returns (events: seq<Event>)
    requires w == Pair(Calling, [a, b], count, [], [], [])
    ensures Run(w, events)
      == Pair(Ordinary(2), [a, b], count, [Look(a, false), Look(b, false)], [],
              (if a then [] else [0]) + (if b then [] else [1]))
  {
    hide Run;
    events := [Caller(0)];
    RunOneMore(w, [], Caller(0));
    RunOfNothing(w);
    assert [] + [Caller(0)] == events;
    RunOneMore(w, events, Caller(0));
    events := events + [Caller(0)];
    assert Run(w, events) == Pair(Ordinary(1), [a, b], count, [Look(a, false)], [], if a then [] else [0]);
    RunOneMore(w, events, Caller(0));
    events := events + [Caller(0)];
  }

  lemma RunOfNothing(w: World)
    requires Shaped(w)
    ensures Run(w, []) == w
  {
  }

  /** The second loop, and the rest. */
  lemma SecondLoop(w: World, before: seq<Event>, a: bool, b: bool, count: int, first: seq<Look>, asked: seq<nat>)
    returns (events: seq<Event>)
    requires Shaped(w) && Run(w, before) == Pair(Ordinary(2), [a, b], count, first, [], asked)
    ensures Run(w, events) == Pair(Back, [a, b], count, first, [Look(a, false), Look(b, false)],
                                   asked + (if a then [0] else []) + (if b then [1] else []))
  {
    hide Run;
    RunOneMore(w, before, Caller(0));
    events := before + [Caller(0)];
    assert Run(w, events) == Pair(Moderators(0), [a, b], count, first, [], asked);
    RunOneMore(w, events, Caller(0));
    events := events + [Caller(0)];
    assert Run(w, events) == Pair(Moderators(1), [a, b], count, first, [Look(a, false)], asked + if a then [0] else []);
    RunOneMore(w, events, Caller(0));
    events := events + [Caller(0)];
    assert Run(w, events) == Pair(Moderators(2), [a, b], count, first, [Look(a, false), Look(b, false)],
                                  asked + (if a then [0] else []) + (if b then [1] else []));
    RunOneMore(w, events, Caller(0));
    events := events + [Caller(0)];
    RunOneMore(w, events, Caller(0));
    events := events + [Caller(0)];
  }

  /** Promoted between the two loops, a participant is asked twice. */
  lemma PromotedIsAskedTwice() returns (w: World, events: seq<Event>)
    ensures Initial(w) && w.moderators == [true, false] && w.count == 1
    ensures Run(w, events).asked == [1, 0, 1] && !Run(w, events).listed
  {
    hide Run;
    w := Pair(Calling, [true, false], 1, [], [], []);
    events := FirstLoop(w, true, false, 1);
    RunOneMore(w, events, ChangeRole(1));
    var asked: seq<nat> := [1];
    assert Run(w, events + [ChangeRole(1)])
      == Pair(Ordinary(2), [true, true], 2, [Look(true, false), Look(false, false)], [], asked);
    events := SecondLoop(w, events + [ChangeRole(1)], true, true, 2, [Look(true, false), Look(false, false)], asked);
  }

  /** Demoted between them, a moderator is never asked. */
  lemma DemotedIsNeverAsked() returns (w: World, events: seq<Event>)
    ensures Initial(w) && w.moderators == [true, true] && w.count == 2
    ensures Run(w, events).asked == [1] && !Run(w, events).listed
  {
    hide Run;
    w := Pair(Calling, [true, true], 2, [], [], []);
    events := FirstLoop(w, true, true, 2);
    RunOneMore(w, events, ChangeRole(0));
    assert Run(w, events + [ChangeRole(0)])
      == Pair(Ordinary(2), [false, true], 3, [Look(true, false), Look(true, false)], [], []);
    events := SecondLoop(w, events + [ChangeRole(0)], false, true, 3, [Look(true, false), Look(true, false)], []);
  }
}
