/** Every run of the hold and resume operations, and exactly which runs leave each device one talking
    call (sccp_channel.c, sccp_pbx.c, sccp_indicate.c). */
module HoldRuns {
  import opened HoldWorld

  datatype Event =
    | NewCallOn(line: nat, device: nat) | ArriveOn(line: nat) | AnswerAt(call: nat, device: nat)
    | Digits(call: nat, some: bool) | Dial(call: nat)
    | Indicate(call: nat, state: CallState) | PressHold(call: nat)
    | PressResume(call: nat, device: nat, swap: bool, atOnce: bool)
    | End(call: nat, atOnce: bool, someDevice: bool) | HungUp(call: nat, someDevice: bool)

  /** sccp_indicate does nothing for a call without a device. */
  predicate Indicated(w: World, c: nat, s: CallState) {
    c < |w.calls| && w.calls[c].device != NONE && s !in {OnHold, Ringing}
  }

  function Next(w: World, e: Event): World {
    match e
    case NewCallOn(l, d) => if l < |w.held| && d < |w.actives| then AfterNewCall(w, l, d) else w
    case ArriveOn(l) => if l < |w.held| then Added(w, FreshCall(l, NONE)) else w
    case AnswerAt(c, d) => if c < |w.calls| && d < |w.actives| then Answered(w, c, d) else w
    case Digits(c, some) =>
      if c < |w.calls| && w.calls[c].state in {OffHook, Dialing} then Change(w, c, w.calls[c].(dialed := some)) else w
    case Dial(c) => if c < |w.calls| && w.calls[c].state == OffHook then
      Change(w, c, w.calls[c].(state := Dialing)) else w
    case Indicate(c, s) => if Indicated(w, c, s) then Change(w, c, w.calls[c].(state := s)) else w
    case PressHold(c) => if c < |w.calls| then TryHold(w, c) else w
    case PressResume(c, d, swap, atOnce) =>
      if c < |w.calls| && d < |w.actives| then Resumed(w, d, c, swap, atOnce) else w
    case End(c, atOnce, someDevice) => if c < |w.calls| then Ended(w, c, atOnce, someDevice) else w
    case HungUp(c, someDevice) => if c < |w.calls| then AfterHangUp(w, c, someDevice) else w
  }

  // ---------------------------------------------------------------- the guard of each event

  /** The call has begun to end and does not talk any more. */
  predicate Idle(call: Call) {
    call.ending && !Talks(call.state)
  }

  /** Attached to a device whose active call it is not. */
  predicate Stray(call: Call, c: int, actives: seq<int>) {
    0 <= call.device < |actives| && actives[call.device] != c
  }

  /** The device has an active call other than c that may still talk. */
  predicate Taken(w: World, d: int, c: int) {
    0 <= d < |w.actives| && 0 <= w.actives[d] < |w.calls| && w.actives[d] != c && !Idle(w.calls[w.actives[d]])
  }

  predicate Resumable(call: Call) {
    call.listed && (call.state == OnHold || CanHold(call))
  }

  /** No stray call that has begun to end is connected, a resume that does not swap finds the device
      free, and a call is not hung up while another one is active on its device. */
  predicate Guard(w: World, e: Event) {
    match e
    case Indicate(c, s) => c < |w.calls| && Talks(s) && Stray(w.calls[c], c, w.actives) ==> !w.calls[c].ending
    case PressResume(c, d, swap, _) => c < |w.calls| && Resumable(w.calls[c]) && !swap ==> !Taken(w, d, c)
    case End(c, atOnce, _) => c < |w.calls| && atOnce ==> !Taken(w, w.calls[c].device, c)
    case HungUp(c, _) => c < |w.calls| ==> !Taken(w, w.calls[c].device, c)
    case _ => true
  }

  /** A stray call has begun to end and does not talk any more. */
  ghost predicate Tracked(w: World) {
    forall i :: 0 <= i < |w.calls| && Stray(w.calls[i], i, w.actives) ==> Idle(w.calls[i])
  }

  lemma TrackedIsOrderly(w: World)
    requires Tracked(w)
    ensures TalkersActive(w.calls, w.actives)
  {
    assert forall i :: 0 <= i < |w.calls| && Talks(w.calls[i].state) ==> !Idle(w.calls[i]);
    forall i | 0 <= i < |w.calls| && 0 <= w.calls[i].device < |w.actives| && w.actives[w.calls[i].device] != i
      ensures Stray(w.calls[i], i, w.actives)
    {
    }
  }

  lemma ActiveOf(w: World, d: int)
    requires Good(w) && 0 <= d < |w.actives|
    ensures NONE <= w.actives[d] < |w.calls|
    ensures w.actives[d] != NONE ==> w.calls[w.actives[d]].device == d
  {
    hide Counted, Shaped;
    ShapedHere(w.calls, w.actives, |w.held|, NONE, d);
  }

  lemma DetachTracked(w: World, c: nat, call: Call)
    requires Good(w) && Tracked(w) && c < |w.calls| && call.device == NONE
    ensures Tracked(Detach(w, c, call)) <==> !Taken(w, w.calls[c].device, c)
  {
    hide Good, Recounted, Idle;
    var d := w.calls[c].device;
    var v := Detach(w, c, call);
    if 0 <= d < |w.actives| {
      ActiveOf(w, d);
      if Taken(w, d, c) {
        var a := w.actives[d];
        assert v.calls[a] == w.calls[a] && Stray(v.calls[a], a, v.actives);
      }
    }
  }

  lemma AttachTracked(w: World, c: nat, call: Call)
    requires Good(w) && Tracked(w) && c < |w.calls| && w.calls[c].device == NONE && 0 <= call.device < |w.actives|
    ensures Tracked(Attach(w, c, call)) <==> !Taken(w, call.device, c)
  {
    hide Good, Recounted, Idle;
    var d := call.device;
    var v := Attach(w, c, call);
    ActiveOf(w, d);
    if Taken(w, d, c) {
      var a := w.actives[d];
      assert v.calls[a] == w.calls[a] && Stray(v.calls[a], a, v.actives);
    }
  }

  lemma ChangeTracked(w: World, c: nat, call: Call)
    requires Tracked(w) && c < |w.calls| && call.device == w.calls[c].device
    ensures Tracked(Change(w, c, call)) <==> (Stray(call, c, w.actives) ==> Idle(call))
  {
    hide Recounted, Idle;
    var v := Change(w, c, call);
    assert v.calls[c] == call;
    assert forall i :: 0 <= i < |w.calls| && i != c ==> v.calls[i] == w.calls[i];
  }

  lemma AddedTracked(w: World, line: int, d: int)
    requires Good(w) && Tracked(w) && (0 <= d < |w.actives| ==> w.actives[d] == NONE)
    ensures Tracked(Added(w, FreshCall(line, d)))
  {
    hide Good, Idle;
    var v := Added(w, FreshCall(line, d));
    assert forall i :: 0 <= i < |w.calls| ==> v.calls[i] == w.calls[i];
  }

  /** Holding a call keeps the order, and no device is taken that was free. */
  lemma TryHoldTracked(w: World, c: nat)
    requires Good(w) && Tracked(w) && c < |w.calls|
    ensures Tracked(TryHold(w, c))
    ensures forall d :: Taken(TryHold(w, c), d, c) <==> Taken(w, d, c)
  {
    hide Good, Tracked, Recounted;
    var call := w.calls[c];
    if CanHold(call) {
      if Stray(call, c, w.actives) {
        StrayIsIdle(w, c);
      }
      DetachTracked(w, c, call.(state := OnHold, device := NONE));
    }
  }

  lemma StrayIsIdle(w: World, c: nat)
    requires Tracked(w) && c < |w.calls| && Stray(w.calls[c], c, w.actives)
    ensures Idle(w.calls[c])
  {
  }

  lemma EndedTracked(w: World, c: nat, atOnce: bool, someDevice: bool)
    requires Good(w) && Tracked(w) && c < |w.calls|
    ensures Tracked(Ended(w, c, atOnce, someDevice)) <==> (atOnce ==> !Taken(w, w.calls[c].device, c))
  {
    hide Good, Tracked, Recounted, Detach;
    var call := w.calls[c].(ending := true);
    var v := Change(w, c, call);
    if Stray(w.calls[c], c, w.actives) {
      StrayIsIdle(w, c);
    }
    ChangeTracked(w, c, call);
    HeldHasNoDevice(w, c);
    ChangeIsGood(w, c, call);
    DetachTracked(v, c, Gone(v.calls[c], someDevice));
  }

  lemma AfterNewCallTracked(w: World, line: nat, d: nat)
    requires Good(w) && Tracked(w) && d < |w.actives|
    ensures Tracked(AfterNewCall(w, line, d))
  {
    hide Good, Tracked, Added, Recounted, CanHold;
    ActiveOf(w, d);
    var a := w.actives[d];
    if a == NONE {
      AddedTracked(w, line, d);
    } else {
      TryHoldTracked(w, a);
      TryHoldIsGood(w, a);
      if CanHold(w.calls[a]) {
        AddedTracked(TryHold(w, a), line, d);
      }
    }
  }

  lemma AnsweredTracked(w: World, c: nat, d: nat)
    requires Good(w) && Tracked(w) && c < |w.calls| && d < |w.actives|
    ensures Tracked(Answered(w, c, d))
  {
    hide Good, Tracked, Recounted, CanHold, Attach;
    ActiveOf(w, d);
    var a := w.actives[d];
    var v := if a != NONE && a != c then TryHold(w, a) else w;
    if a != NONE && a != c {
      TryHoldTracked(w, a);
      TryHoldIsGood(w, a);
    }
    if v.calls[c].state == Ringing && v.calls[c].listed && !v.calls[c].answering {
      HeldHasNoDevice(v, c);
      AttachTracked(v, c, v.calls[c].(answering := true, device := d));
    }
  }

  lemma AsideTracked(w: World, d: nat, c: nat, atOnce: bool)
    requires Good(w) && Tracked(w) && d < |w.actives| && StepsAside(w, d, c)
    ensures Tracked(Aside(w, d, c, atOnce)) && !Taken(Aside(w, d, c, atOnce), d, c)
  {
    hide Good, Tracked, Recounted;
    ActiveOf(w, d);
    var a := w.actives[d];
    if a != NONE && a != c {
      EndedTracked(w, a, atOnce, true);
      TryHoldTracked(w, a);
    }
  }

  lemma ResumedTracked(w: World, d: nat, c: nat, swap: bool, atOnce: bool)
    requires Good(w) && Tracked(w) && c < |w.calls| && d < |w.actives|
    ensures Tracked(Resumed(w, d, c, swap, atOnce)) <==> (Resumable(w.calls[c]) && !swap ==> !Taken(w, d, c))
  {
    hide Good, Tracked, Taken, Attach, Aside, TryHold, StepsAside, CanHold;
    if w.calls[c].listed && (swap ==> StepsAside(w, d, c)) {
      var u := if swap then Aside(w, d, c, atOnce) else w;
      AsideIsGood(w, d, c, atOnce);
      if swap {
        AsideTracked(w, d, c, atOnce);
      }
      TryHoldIsGood(u, c);
      TryHoldTracked(u, c);
      AsideKeepsOthers(w, d, c, swap, atOnce);
      var v := Cleared(w, d, c, swap, atOnce);
      if v.calls[c].state == OnHold {
        HeldHasNoDevice(v, c);
        AttachTracked(v, c, v.calls[c].(device := d, state := Connected));
      }
    }
  }

  // ---------------------------------------------------------------- one event

  lemma NextIsGood(w: World, e: Event)
    requires Good(w)
    ensures Good(Next(w, e)) && |Next(w, e).actives| == |w.actives| && |Next(w, e).held| == |w.held|
  {
    hide Good, AfterNewCall, Added, Answered, TryHold, Resumed, Ended, AfterHangUp;
    match e
    case NewCallOn(l, d) => if l < |w.held| && d < |w.actives| { AfterNewCallIsGood(w, l, d); }
    case ArriveOn(l) => if l < |w.held| { AddedIsGood(w, l, NONE); }
    case AnswerAt(c, d) => if c < |w.calls| && d < |w.actives| { AnsweredIsGood(w, c, d); }
    case Digits(c, some) => if c < |w.calls| { HeldHasNoDevice(w, c); ChangeIsGood(w, c, w.calls[c].(dialed := some)); }
    case Dial(c) =>
      if c < |w.calls| && w.calls[c].state == OffHook {
        HeldHasNoDevice(w, c);
        ChangeIsGood(w, c, w.calls[c].(state := Dialing));
      }
    case Indicate(c, s) => if Indicated(w, c, s) { HeldHasNoDevice(w, c); ChangeIsGood(w, c, w.calls[c].(state := s)); }
    case PressHold(c) => if c < |w.calls| { TryHoldIsGood(w, c); }
    case PressResume(c, d, swap, atOnce) =>
      if c < |w.calls| && d < |w.actives| { ResumedIsGood(w, d, c, swap, atOnce); }
    case End(c, atOnce, someDevice) => if c < |w.calls| { EndedIsGood(w, c, atOnce, someDevice); }
    case HungUp(c, someDevice) => if c < |w.calls| { AfterHangUpIsGood(w, c, someDevice); }
  }

  /** The guard of an event is exactly what keeps every stray call idle. */
  lemma StepTrackedIff(w: World, e: Event)
    requires Good(w) && Tracked(w)
    ensures Tracked(Next(w, e)) <==> Guard(w, e)
  {
    hide Good, Tracked, AfterNewCall, Added, Answered, TryHold, Resumed, Ended, Detach, Change;
    match e
    case NewCallOn(l, d) => if l < |w.held| && d < |w.actives| { AfterNewCallTracked(w, l, d); }
    case ArriveOn(l) => AddedTracked(w, l, NONE);
    case AnswerAt(c, d) => if c < |w.calls| && d < |w.actives| { AnsweredTracked(w, c, d); }
    case Digits(c, some) =>
      if c < |w.calls| {
        if Stray(w.calls[c], c, w.actives) { StrayIsIdle(w, c); }
        ChangeTracked(w, c, w.calls[c].(dialed := some));
      }
    case Dial(c) =>
      if c < |w.calls| && w.calls[c].state == OffHook {
        if Stray(w.calls[c], c, w.actives) { StrayIsIdle(w, c); }
        ChangeTracked(w, c, w.calls[c].(state := Dialing));
      }
    case Indicate(c, s) =>
      if Indicated(w, c, s) {
        if Stray(w.calls[c], c, w.actives) { StrayIsIdle(w, c); }
        ChangeTracked(w, c, w.calls[c].(state := s));
      }
    case PressHold(c) => if c < |w.calls| { TryHoldTracked(w, c); }
    case PressResume(c, d, swap, atOnce) =>
      if c < |w.calls| && d < |w.actives| {
        ResumedTracked(w, d, c, swap, atOnce);
      }
    case End(c, atOnce, someDevice) => if c < |w.calls| { EndedTracked(w, c, atOnce, someDevice); }
    case HungUp(c, someDevice) => if c < |w.calls| { DetachTracked(w, c, Gone(w.calls[c], someDevice)); }
  }

  // ---------------------------------------------------------------- runs

  function RunOf(w: World, es: seq<Event>): World
    decreases |es|
  {
    if es == [] then w else RunOf(Next(w, es[0]), es[1..])
  }

  /** Every event of the run meets its guard. */
  predicate GuardedRun(w: World, es: seq<Event>)
    decreases |es|
  {
    es == [] || (Guard(w, es[0]) && GuardedRun(Next(w, es[0]), es[1..]))
  }

  /** No device has two talking calls. */
  ghost predicate OneTalkerEach(w: World) {
    forall i, j, d :: 0 <= i < |w.calls| && 0 <= j < |w.calls| && 0 <= d < |w.actives| ==>
      (TalksOn(w.calls[i], d) && TalksOn(w.calls[j], d) ==> i == j)
  }

  /** However a guarded run goes on from here, each device keeps at most one talking call. */
  ghost predicate Safe(w: World) {
    forall es :: GuardedRun(w, es) ==> OneTalkerEach(RunOf(w, es))
  }

  lemma RunOfNothing(w: World)
    ensures RunOf(w, []) == w && GuardedRun(w, [])
  {
  }

  lemma {:induction false} RunAppend(w: World, es: seq<Event>, e: Event)
    ensures RunOf(w, es + [e]) == Next(RunOf(w, es), e)
    ensures GuardedRun(w, es + [e]) <==> GuardedRun(w, es) && Guard(RunOf(w, es), e)
    decreases |es|
  {
    hide Next, Guard;
    if es == [] {
      assert es + [e] == [e];
    } else {
      assert (es + [e])[1..] == es[1..] + [e];
      RunAppend(Next(w, es[0]), es[1..], e);
    }
  }

  lemma {:induction false} RunIsGood(w: World, es: seq<Event>)
    requires Good(w)
    ensures Good(RunOf(w, es)) && |RunOf(w, es).actives| == |w.actives| && |RunOf(w, es).held| == |w.held|
    decreases |es|
  {
    hide Good, Next;
    if es != [] {
      NextIsGood(w, es[0]);
      RunIsGood(Next(w, es[0]), es[1..]);
    }
  }

  lemma {:induction false} RunTracked(w: World, es: seq<Event>)
    requires Good(w) && Tracked(w) && GuardedRun(w, es)
    ensures Tracked(RunOf(w, es))
    decreases |es|
  {
    hide Good, Tracked, Next, Guard;
    if es != [] {
      NextIsGood(w, es[0]);
      StepTrackedIff(w, es[0]);
      RunTracked(Next(w, es[0]), es[1..]);
    }
  }

  lemma TrackedHasOneTalkerEach(w: World)
    requires Tracked(w)
    ensures OneTalkerEach(w)
  {
    hide Tracked, TalkersActive;
    TrackedIsOrderly(w);
    forall i, j, d | 0 <= i < |w.calls| && 0 <= j < |w.calls| && 0 <= d < |w.actives| && TalksOn(w.calls[i], d)
      && TalksOn(w.calls[j], d)
      ensures i == j
    {
      OneTalker(w.calls, w.actives, d, i, j);
    }
  }

  /** A stray talking call gets company from the active call of its device. */
  lemma ActiveJoins(w: World, i: nat) returns (es: seq<Event>)
    requires Good(w) && i < |w.calls| && Stray(w.calls[i], i, w.actives) && Talks(w.calls[i].state)
    requires w.actives[w.calls[i].device] != NONE
    ensures GuardedRun(w, es) && !OneTalkerEach(RunOf(w, es))
  {
    hide Good, Recounted;
    var d := w.calls[i].device;
    var a := w.actives[d];
    ActiveOf(w, d);
    var e := Indicate(a, Connected);
    es := [e];
    var v := Next(w, e);
    assert es[1..] == [];
    RunOfNothing(v);
    assert TalksOn(v.calls[i], d) && TalksOn(v.calls[a], d);
  }

  /** Or from a new call, if the device has no active one. */
  lemma SomeoneJoins(w: World, i: nat) returns (es: seq<Event>)
    requires Good(w) && i < |w.calls| && Stray(w.calls[i], i, w.actives) && Talks(w.calls[i].state)
    ensures GuardedRun(w, es) && !OneTalkerEach(RunOf(w, es))
  {
    hide Good, Recounted, OneTalkerEach;
    var d := w.calls[i].device;
    ActiveOf(w, d);
    if w.actives[d] != NONE {
      es := ActiveJoins(w, i);
    } else {
      HeldHasNoDevice(w, i);
      var e := NewCallOn(w.calls[i].line, d);
      NextIsGood(w, e);
      var v := Next(w, e);
      assert v.calls[i] == w.calls[i] && v.actives[d] == |w.calls|;
      var rest := ActiveJoins(v, i);
      es := [e] + rest;
      assert es[1..] == rest;
    }
  }

  /** So a stray call that is not idle is one too many, or soon will be. */
  lemma {:induction false} UntrackedIsUnsafe(w: World)
    requires Good(w) && !Tracked(w)
    ensures !Safe(w)
  {
    hide Good, Recounted, OneTalkerEach;
    var i :| 0 <= i < |w.calls| && Stray(w.calls[i], i, w.actives) && !Idle(w.calls[i]);
    var es;
    if Talks(w.calls[i].state) {
      es := SomeoneJoins(w, i);
    } else {
      var e := Indicate(i, Connected);
      NextIsGood(w, e);
      var rest := SomeoneJoins(Next(w, e), i);
      es := [e] + rest;
      assert es[1..] == rest;
    }
    assert GuardedRun(w, es) && !OneTalkerEach(RunOf(w, es));
  }

  lemma TrackedIffSafe(w: World)
    requires Good(w)
    ensures Tracked(w) <==> Safe(w)
  {
    hide Good, Tracked, OneTalkerEach;
    if Tracked(w) {
      forall es | GuardedRun(w, es) ensures OneTalkerEach(RunOf(w, es)) {
        RunTracked(w, es);
        TrackedHasOneTalkerEach(RunOf(w, es));
      }
    } else {
      UntrackedIsUnsafe(w);
    }
  }

  /** A run meets the guards exactly if at each of its points no guarded continuation puts a second
      talking call on a device. */
  lemma {:induction false} GuardedIffSafeThroughout(w: World, es: seq<Event>)
    requires Good(w) && Tracked(w)
    ensures GuardedRun(w, es) <==> forall k :: 0 <= k <= |es| ==> Safe(RunOf(w, es[..k]))
    decreases |es|
  {
    hide Good, Tracked, Safe, Next, Guard;
    TrackedIffSafe(w);
    assert RunOf(w, es[..0]) == w;
    if es != [] {
      var v := Next(w, es[0]);
      NextIsGood(w, es[0]);
      StepTrackedIff(w, es[0]);
      TrackedIffSafe(v);
      forall k | 1 <= k <= |es| ensures RunOf(w, es[..k]) == RunOf(v, es[1..][..k - 1]) {
        assert es[..k][1..] == es[1..][..k - 1];
      }
      assert RunOf(w, es[..1]) == v by { assert es[1..][..0] == []; }
      if Tracked(v) {
        GuardedIffSafeThroughout(v, es[1..]);
        forall k | 0 <= k <= |es[1..]| ensures RunOf(v, es[1..][..k]) == RunOf(w, es[..k + 1]) {
        }
      }
    }
  }
}
