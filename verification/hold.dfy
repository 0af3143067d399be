/** Hold and resume: the held counter of a line, the device of a held call, and the one talking call
    of a device (sccp_channel.c, sccp_line.c, sccp_pbx.c, sccp_device.c). */
module HoldResume {
  import opened HoldWorld
  import opened HoldRuns

  class Office {
    var calls: seq<Call>
    var actives: seq<int>
    var held: seq<nat>

    function State(): World
      reads this
    {
      World(calls, actives, held)
    }

    ghost predicate Valid()
      reads this
    {
      Good(State())
    }

    ghost predicate Orderly()
      reads this
    {
      TalkersActive(calls, actives)
    }

    constructor (devices: nat, lines: nat)
      ensures Valid() && Orderly() && calls == [] && |actives| == devices && |held| == lines
      ensures forall d :: 0 <= d < devices ==> actives[d] == NONE
      ensures State() == Quiet(devices, lines) && Tracked(State())
    {
      calls := [];
      actives := seq(devices, _ => NONE);
      held := seq(lines, _ => 0);
    }

    /** A state change that has no part in holding. */
    method SetState(c: int, state: CallState)
      requires Valid() && 0 <= c < |calls| && state != OnHold && state != Ringing && calls[c].state != OnHold
      modifies this`calls
      ensures Valid() && calls == old(calls)[c := old(calls)[c].(state := state)]
      ensures State() == Change(old(State()), c, old(calls)[c].(state := state))
      ensures old(Orderly()) ==>
        (Orderly() <==> !Talks(state) || calls[c].device == NONE || actives[calls[c].device] == c)
    {
      CountedUpdate(calls, held, c, calls[c].(state := state));
      calls := calls[c := calls[c].(state := state)];
    }

    /** Digits are typed, or taken back. */
    method SetDialed(c: int, some: bool)
      requires Valid() && 0 <= c < |calls|
      modifies this`calls
      ensures Valid() && calls == old(calls)[c := old(calls)[c].(dialed := some)]
      ensures State() == Change(old(State()), c, old(calls)[c].(dialed := some))
      ensures old(Orderly()) <==> Orderly()
    {
      hide Counted, Shaped, TalkersActive;
      HeldHasNoDevice(State(), c);
      ChangeIsGood(State(), c, calls[c].(dialed := some));
      OrderlyChanged(calls, actives, c, calls[c].(dialed := some));
      calls := calls[c := calls[c].(dialed := some)];
    }

    /** sccp_channel_hold on a phone without hook flash. */
    method Hold(c: int) returns (ok: bool)
      requires Valid() && 0 <= c < |calls|
      modifies this
      ensures Valid() && (old(Orderly()) ==> Orderly())
      ensures ok == CanHold(old(calls)[c]) && State() == TryHold(old(State()), c)
      ensures !ok ==> calls == old(calls) && actives == old(actives) && held == old(held)
      ensures |calls| == |old(calls)| && |actives| == |old(actives)| && |held| == |old(held)|
      ensures NONE <= old(calls)[c].device < |actives| && 0 <= calls[c].line < |held|
      ensures ok ==>
        && calls == old(calls)[c := old(calls)[c].(state := OnHold, device := NONE)]
        && actives == old(actives)[old(calls)[c].device := NONE]
        && held == old(held)[calls[c].line := (old(held)[calls[c].line] + 1) % 256]
    {
      hide Counted, Shaped, TalkersActive;
      ShapedHere(calls, actives, |held|, c, calls[c].device);
      var d := calls[c].device;
      if d == NONE {
        return false;
      }
      if calls[c].state == OnHold {
        return false;
      }
      if calls[c].state != Connected && calls[c].state != ConnectedConference && calls[c].state != Proceed {
        return false;
      }
      var line := calls[c].line;
      CountedUpdate(calls, held, c, calls[c].(state := OnHold, device := NONE));
      ShapedDetached(calls, actives, |held|, c, calls[c].(state := OnHold, device := NONE));
      if Orderly() {
        OrderlyDetached(calls, actives, |held|, c, calls[c].(state := OnHold, device := NONE));
        ActiveIfTalks(calls, actives, c);
      }
      calls := calls[c := calls[c].(state := OnHold, device := NONE)];
      actives := actives[d := NONE];
      held := held[line := (held[line] + 1) % 256];
      ok := true;
    }

    /** No other talking call is the active one of the device that c is attached to. */
    predicate HidesNobody(c: int)
      reads this
      requires 0 <= c < |calls| && NONE <= calls[c].device < |actives|
      requires calls[c].device != NONE ==> NONE <= actives[calls[c].device] < |calls|
    {
      var d := calls[c].device;
      d == NONE || actives[d] == NONE || actives[d] == c || !TalksOn(calls[actives[d]], d)
    }

    /** sccp_pbx_hangup: the call leaves its line and its device. Detaching it also takes the active
        call from the device, so another call that talks there is no longer its active one. */
    method HangUp(c: int, someDevice: bool)
      requires Valid() && 0 <= c < |calls|
      modifies this
      ensures Valid() && State() == AfterHangUp(old(State()), c, someDevice)
      ensures |calls| == |old(calls)| && |actives| == |old(actives)| && |held| == |old(held)|
      ensures calls == old(calls)[c := calls[c]] && calls[c].line == old(calls)[c].line && !calls[c].listed
        && calls[c].device == NONE
      ensures var d := old(calls)[c].device;
        NONE <= d < |actives| && (d == NONE ==> actives == old(actives))
          && (d != NONE ==> actives == old(actives)[d := NONE])
      ensures var line := calls[c].line;
        && 0 <= line < |held|
        && (IsHeld(old(calls)[c], line) ==> held == old(held)[line := (old(held)[line] + 255) % 256])
        && (!IsHeld(old(calls)[c], line) ==> held == old(held))
      ensures var d := old(calls)[c].device;
        d != NONE ==> NONE <= old(actives)[d] < |calls|
      ensures old(Orderly()) ==> (Orderly() <==> old(HidesNobody(c)))
      ensures calls[c] == Gone(old(calls)[c], someDevice)
    {
      hide Counted, Shaped, TalkersActive;
      ghost var before := State();
      ShapedHere(calls, actives, |held|, c, calls[c].device);
      TakeDown(c, someDevice);
      AfterHangUpIsGood(before, c, someDevice);
      if TalkersActive(before.calls, before.actives) {
        OrderlyDetached(before.calls, before.actives, |held|, c, calls[c]);
      }
    }

    /** Its field updates, in order. */
    method TakeDown(c: int, someDevice: bool)
      requires 0 <= c < |calls| && NONE <= calls[c].device < |actives| && 0 <= calls[c].line < |held|
      modifies this
      ensures State() == AfterHangUp(old(State()), c, someDevice)
    {
      ghost var before := calls[c];
      LeaveLine(c);
      LeaveDevice(c, someDevice);
      assert calls == old(calls)[c := Gone(before, someDevice)];
    }

    method LeaveLine(c: int)
      requires 0 <= c < |calls| && 0 <= calls[c].line < |held|
      modifies this`calls, this`held
      ensures calls == old(calls)[c := old(calls)[c].(ending := true, listed := false)]
      ensures held == Recounted(old(held), old(calls)[c], calls[c])
    {
      var line := calls[c].line;
      calls := calls[c := calls[c].(ending := true)];
      if calls[c].listed {
        if calls[c].state == OnHold {
          held := held[line := (held[line] + 255) % 256];
        }
        calls := calls[c := calls[c].(listed := false)];
      }
    }

    method LeaveDevice(c: int, someDevice: bool)
      requires 0 <= c < |calls| && NONE <= calls[c].device < |actives|
      modifies this`calls, this`actives
      ensures calls == old(calls)[c := old(calls)[c].(device := NONE,
        state := if (old(calls)[c].device != NONE || someDevice) && old(calls)[c].state != OnHook then Down
          else old(calls)[c].state)]
      ensures actives == SetActive(old(actives), old(calls)[c].device, NONE)
    {
      var d := calls[c].device;
      if d != NONE || someDevice {
        if calls[c].state != Down && calls[c].state != OnHook {
          calls := calls[c := calls[c].(state := Down)];
        }
        if d != NONE {
          if actives[d] == c {
            actives := actives[d := NONE];
          }
          calls := calls[c := calls[c].(device := NONE)];
          actives := actives[d := NONE];
        }
      }
    }

    /** sccp_channel_endcall: Asterisk hangs the call up at once, or later. */
    method EndCall(c: int, atOnce: bool, someDevice: bool)
      requires Valid() && 0 <= c < |calls|
      modifies this
      ensures Valid() && |calls| == |old(calls)| && |actives| == |old(actives)| && |held| == |old(held)|
      ensures forall i :: 0 <= i < |calls| && i != c ==> calls[i] == old(calls)[i]
      ensures State() == Ended(old(State()), c, atOnce, someDevice) && calls[c].ending
      ensures !atOnce ==>
        calls == old(calls)[c := old(calls)[c].(ending := true)] && actives == old(actives) && held == old(held)
      ensures atOnce ==> !calls[c].listed && calls[c].device == NONE
      ensures forall d :: 0 <= d < |actives| ==>
        actives[d] == old(actives)[d] || (actives[d] == NONE && old(calls)[c].device == d)
      ensures NONE <= old(calls)[c].device < |actives|
      ensures old(calls)[c].device != NONE ==> NONE <= old(actives)[old(calls)[c].device] < |calls|
      ensures old(Orderly()) && (!atOnce || old(HidesNobody(c))) ==> Orderly()
    {
      hide Counted, Shaped, TalkersActive;
      ShapedHere(calls, actives, |held|, c, calls[c].device);
      ghost var ending := calls[c].(ending := true);
      CountedUpdate(calls, held, c, ending);
      ShapedChanged(calls, actives, |held|, c, ending);
      OrderlyChanged(calls, actives, c, ending);
      calls := calls[c := calls[c].(ending := true)];
      if atOnce {
        HangUp(c, someDevice);
      }
    }

    /** sccp_channel_getEmptyChannel and sccp_channel_newcall: an unused off-hook call is used again,
        any other call of the device has to go on hold first. */
    method NewCall(line: nat, d: int) returns (c: int)
      requires Valid() && line < |held| && 0 <= d < |actives|
      modifies this
      ensures Valid() && (old(Orderly()) ==> Orderly())
      ensures NONE <= c < |calls|
        && (c != NONE ==>
             c == old(actives)[d] || (calls[c].device == d && actives[d] == c && calls[c].state == OffHook))
      ensures State() == AfterNewCall(old(State()), line, d)
      ensures old(actives)[d] == NONE ==>
        c == |old(calls)| && calls == old(calls) + [Call(line, true, OffHook, false, false, false, d)]
          && actives == old(actives)[d := c]
      ensures c == if old(actives)[d] == NONE then |old(calls)|
        else if old(calls)[old(actives)[d]].state == OffHook && !old(calls)[old(actives)[d]].dialed then old(actives)[d]
        else if old(calls)[old(actives)[d]].device == d && !CanHold(old(calls)[old(actives)[d]]) then NONE
        else |old(calls)|
    {
      hide Counted, Shaped, TryHold, CanHold, TalkersActive;
      AfterNewCallIsGood(State(), line, d);
      ShapedHere(calls, actives, |held|, actives[d], d);
      var active := actives[d];
      if active != NONE {
        if calls[active].state == OffHook && !calls[active].dialed {
          return active;
        } else if calls[active].device == d {
          var ok := Hold(active);
          if !ok {
            return NONE;
          }
        }
      }
      if Orderly() {
        OrderlyAdded(calls, actives, d, FreshCall(line, d));
      }
      c := |calls|;
      calls := calls + [FreshCall(line, d)];
      actives := actives[d := c];
    }

    /** A call arrives on a line; it has no device until it is answered. */
    method Arrive(line: nat) returns (c: int)
      requires Valid() && line < |held|
      modifies this`calls
      ensures Valid() && (old(Orderly()) ==> Orderly())
      ensures State() == Added(old(State()), FreshCall(line, NONE))
      ensures c == |old(calls)| && calls == old(calls) + [Call(line, true, Ringing, false, false, false, NONE)]
    {
      hide Counted;
      CountedNew(calls, held, Call(line, true, Ringing, false, false, false, NONE));
      c := |calls|;
      calls := calls + [Call(line, true, Ringing, false, false, false, NONE)];
    }

    /** sccp_channel_answer. */
    method Answer(c: int, d: int) returns (ok: bool)
      requires Valid() && 0 <= c < |calls| && 0 <= d < |actives|
      modifies this
      ensures Valid() && |calls| == |old(calls)| && |actives| == |old(actives)| && |held| == |old(held)|
      ensures old(Orderly()) ==> Orderly()
      ensures State() == Answered(old(State()), c, d)
      ensures ok ==> calls[c] == old(calls)[c].(answering := true, device := d) && actives[d] == c
      ensures !ok ==> calls[c] == old(calls)[c]
      ensures old(actives)[d] in {NONE, c} ==>
        old(calls)[c].state == Ringing && old(calls)[c].listed && !old(calls)[c].answering ==>
        ok && calls == old(calls)[c := calls[c]] && actives == old(actives)[d := c]
      ensures ok == (old(calls)[c].state == Ringing && old(calls)[c].listed && !old(calls)[c].answering
        && (old(actives)[d] in {NONE, c} || CanHold(old(calls)[old(actives)[d]])))
    {
      hide Counted, Shaped, TalkersActive;
      ShapedHere(calls, actives, |held|, c, d);
      var previous := actives[d];
      if previous != NONE && previous != c {
        var gone := Hold(previous);
        if !gone {
          return false;
        }
      }
      if calls[c].state != Ringing || !calls[c].listed || calls[c].answering {
        return false;
      }
      ShapedHere(calls, actives, |held|, c, d);
      CountedUpdate(calls, held, c, calls[c].(answering := true, device := d));
      ShapedAttached(calls, actives, |held|, c, calls[c].(answering := true, device := d));
      if Orderly() {
        NobodyElseTalks(calls, actives, c, d);
        OrderlyAttached(calls, actives, c, calls[c].(answering := true, device := d));
      }
      calls := calls[c := calls[c].(answering := true, device := d)];
      actives := actives[d := c];
      ok := true;
    }

    /** The active call of the device leaves it to c without giving it up yet. */
    predicate Yields(d: int, c: int, swap: bool, atOnce: bool)
      reads this
      requires 0 <= d < |actives| && NONE <= actives[d] < |calls|
    {
      !swap || actives[d] in {NONE, c} || (calls[actives[d]].state in {Down, OnHook, OffHook} && !atOnce)
    }

    /** What channel_resume_locked does with the active call of the device when it swaps. */
    method PutAside(d: int, c: int, atOnce: bool) returns (ok: bool)
      requires Valid() && 0 <= c < |calls| && 0 <= d < |actives|
      modifies this
      ensures Valid() && |calls| == |old(calls)| && |actives| == |old(actives)| && |held| == |old(held)|
      ensures old(Orderly()) ==> Orderly()
      ensures ok && old(Orderly()) ==> forall i :: 0 <= i < |calls| && i != c ==> !TalksOn(calls[i], d)
      ensures calls[c] == old(calls)[c]
      ensures actives[d] == NONE || actives[d] == old(actives)[d]
      ensures NONE <= old(actives)[d] < |calls|
      ensures ok == StepsAside(old(State()), d, c)
      ensures State() == if ok then Aside(old(State()), d, c, atOnce) else old(State())
      ensures old(Yields(d, c, true, atOnce)) ==> ok && actives == old(actives) && held == old(held)
      ensures old(actives)[d] in {NONE, c} ==> calls == old(calls)
    {
      hide Counted, Shaped, TalkersActive;
      ShapedHere(calls, actives, |held|, c, d);
      var active := actives[d];
      ok := true;
      if active != NONE && active != c {
        if calls[active].state in {Down, OnHook, OffHook} {
          EndCall(active, atOnce, true);
        } else {
          ok := Hold(active);
        }
      }
      if ok && old(Orderly()) {
        NobodyElseTalks(old(calls), old(actives), if active == NONE then c else active, d);
      }
    }

    /** channel_resume_locked, outside transfers and conferences in the making. Before it runs,
        sccp_channel_resume looks for the Asterisk channel through sccp_channel_lock_full; a call that
        left the list of its line was hung up and has none any more, so that is what listed tests. */
    method Resume(d: int, c: int, swap: bool, atOnce: bool) returns (ok: bool)
      requires Valid() && 0 <= c < |calls| && 0 <= d < |actives|
      modifies this
      ensures Valid() && |calls| == |old(calls)| && |actives| == |old(actives)| && |held| == |old(held)|
      ensures old(Orderly()) && (swap || !ok || old(actives)[d] in {NONE, c}) ==> Orderly()
      ensures ok ==> calls[c].state == Connected && calls[c].device == d && actives[d] == c
      ensures ok ==> old(calls)[c].state == OnHold || CanHold(old(calls)[c])
      ensures NONE <= old(actives)[d] < |calls| && 0 <= calls[c].line < |held| && calls[c].line == old(calls)[c].line
      ensures State() == Resumed(old(State()), d, c, swap, atOnce)
      ensures old(actives)[d] in {NONE, c} || !swap ==> calls == old(calls)[c := calls[c]]
      ensures old(Yields(d, c, swap, atOnce)) && old(calls)[c].listed && old(calls)[c].state == OnHold ==>
        && ok && calls[c] == old(calls)[c].(device := d, state := Connected) && actives == old(actives)[d := c]
        && held == old(held)[calls[c].line := (old(held)[calls[c].line] + 255) % 256]
      ensures ok == (old(calls)[c].listed && (old(calls)[c].state == OnHold || CanHold(old(calls)[c]))
        && (swap ==> StepsAside(old(State()), d, c)))
    {
      hide Counted, Shaped, TalkersActive, Cleared, StepsAside;
      ShapedHere(calls, actives, |held|, c, d);
      if !calls[c].listed {
        return false;
      }
      AsideKeepsOthers(State(), d, c, swap, atOnce);
      ok := MakeReady(d, c, swap, atOnce);
      if ok {
        Connect(d, c);
      }
    }

    /** Up to the test that the call is on hold. */
    method MakeReady(d: int, c: int, swap: bool, atOnce: bool) returns (ok: bool)
      requires Valid() && 0 <= c < |calls| && 0 <= d < |actives| && calls[c].listed
      modifies this
      ensures Valid() && |calls| == |old(calls)| && |actives| == |old(actives)| && |held| == |old(held)|
      ensures old(Orderly()) ==> Orderly()
      ensures ok && old(Orderly()) && (swap || old(actives)[d] in {NONE, c}) ==>
        forall i :: 0 <= i < |calls| && i != c ==> !TalksOn(calls[i], d)
      ensures State() ==
        if swap && !StepsAside(old(State()), d, c) then old(State()) else Cleared(old(State()), d, c, swap, atOnce)
      ensures ok == (calls[c].state == OnHold && !(swap && !StepsAside(old(State()), d, c)))
      ensures NONE <= old(actives)[d] < |calls| && calls[c].line == old(calls)[c].line && calls[c].listed
      ensures calls[c] == old(calls)[c]
        || (calls[c] == old(calls)[c].(state := OnHold, device := NONE) && CanHold(old(calls)[c]))
      ensures old(actives)[d] in {NONE, c} || !swap ==> calls == old(calls)[c := calls[c]]
      ensures old(Yields(d, c, swap, atOnce)) && old(calls)[c].state == OnHold ==>
        ok && calls[c] == old(calls)[c] && actives == old(actives) && held == old(held)
    {
      hide Counted, Shaped, TalkersActive, Aside, Detach, Yields, StepsAside;
      ok := MakeRoom(d, c, swap, atOnce);
      if !ok {
        return;
      }
      if Talks(calls[c].state) {
        ok := Hold(c);
        if !ok {
          return;
        }
      }
      if calls[c].state != OnHold {
        return false;
      }
    }

    method MakeRoom(d: int, c: int, swap: bool, atOnce: bool) returns (ok: bool)
      requires Valid() && 0 <= c < |calls| && 0 <= d < |actives|
      modifies this
      ensures Valid() && |calls| == |old(calls)| && |actives| == |old(actives)| && |held| == |old(held)|
      ensures old(Orderly()) ==> Orderly()
      ensures ok && old(Orderly()) && (swap || old(actives)[d] in {NONE, c}) ==>
        forall i :: 0 <= i < |calls| && i != c ==> !TalksOn(calls[i], d)
      ensures ok == (swap ==> StepsAside(old(State()), d, c)) && NONE <= old(actives)[d] < |calls|
      ensures 0 <= calls[c].line < |held| && NONE <= calls[c].device < |actives|
      ensures State() == if ok && swap then Aside(old(State()), d, c, atOnce) else old(State())
      ensures calls[c] == old(calls)[c]
      ensures old(actives)[d] in {NONE, c} || !swap ==> calls == old(calls)
      ensures old(Yields(d, c, swap, atOnce)) ==> ok && actives == old(actives) && held == old(held)
    {
      hide Counted, Shaped, TalkersActive, Aside, Detach;
      ShapedHere(calls, actives, |held|, c, d);
      ok := true;
      if swap {
        ok := PutAside(d, c, atOnce);
      } else if old(Orderly()) && actives[d] in {NONE, c} {
        NobodyElseTalks(calls, actives, c, d);
      }
      ShapedHere(calls, actives, |held|, c, d);
    }

    /** Its last part: the held call gets the device and talks again. */
    method Connect(d: int, c: int)
      requires Valid() && 0 <= c < |calls| && 0 <= d < |actives| && calls[c].state == OnHold && calls[c].listed
      modifies this
      ensures Valid()
      ensures calls == old(calls)[c := old(calls)[c].(device := d, state := Connected)]
        && actives == old(actives)[d := c]
      ensures |held| == |old(held)| && 0 <= calls[c].line < |held|
      ensures held == old(held)[calls[c].line := (old(held)[calls[c].line] + 255) % 256]
      ensures State() == Attach(old(State()), c, old(calls)[c].(device := d, state := Connected))
      ensures old(Orderly() && forall i :: 0 <= i < |calls| && i != c ==> !TalksOn(calls[i], d)) ==> Orderly()
    {
      hide Counted, Shaped, TalkersActive;
      ShapedHere(calls, actives, |held|, c, d);
      var line := calls[c].line;
      ghost var connected := calls[c].(device := d, state := Connected);
      CountedUpdate(calls, held, c, connected);
      ShapedAttached(calls, actives, |held|, c, connected);
      if Orderly() && forall i :: 0 <= i < |calls| && i != c ==> !TalksOn(calls[i], d) {
        OrderlyAttached(calls, actives, c, connected);
      }
      assert calls[c := calls[c].(device := d)][c := connected] == calls[c := connected];
      calls := calls[c := calls[c].(device := d)];
      actives := actives[d := c];
      calls := calls[c := calls[c].(state := Connected)];
      held := held[line := (held[line] + 255) % 256];
    }
  }

  // ---------------------------------------------------------------- runs

  /** Events that name what does not exist, or that the state refuses, do nothing. */
  method Step(o: Office, e: Event)
    requires o.Valid()
    modifies o
    ensures o.Valid() && o.State() == Next(old(o.State()), e)
    ensures old(Tracked(o.State())) ==> (Tracked(o.State()) <==> old(Guard(o.State(), e)))
  {
    hide Good, Tracked, Next, Guard;
    ghost var before := o.State();
    Act(o, e);
    if Tracked(before) {
      StepTrackedIff(before, e);
    }
  }

  method Act(o: Office, e: Event)
    requires o.Valid()
    modifies o
    ensures o.Valid() && o.State() == Next(old(o.State()), e)
  {
    hide Counted, Shaped, TalkersActive, AfterNewCall, Added, Answered, TryHold, Resumed, Ended, AfterHangUp, Recounted;
    match e {
      case NewCallOn(l, d) => if l < |o.held| && d < |o.actives| { var _ := o.NewCall(l, d); }
      case ArriveOn(l) => if l < |o.held| { var _ := o.Arrive(l); }
      case AnswerAt(c, d) => if c < |o.calls| && d < |o.actives| { var _ := o.Answer(c, d); }
      case Digits(c, some) => if c < |o.calls| && o.calls[c].state in {OffHook, Dialing} { o.SetDialed(c, some); }
      case Dial(c) => if c < |o.calls| && o.calls[c].state == OffHook { o.SetState(c, Dialing); }
      case Indicate(c, s) =>
        if Indicated(o.State(), c, s) {
          HeldHasNoDevice(o.State(), c);
          o.SetState(c, s);
        }
      case PressHold(c) => if c < |o.calls| { var _ := o.Hold(c); }
      case PressResume(c, d, swap, atOnce) =>
        if c < |o.calls| && d < |o.actives| { var _ := o.Resume(d, c, swap, atOnce); }
      case End(c, atOnce, someDevice) => if c < |o.calls| { o.EndCall(c, atOnce, someDevice); }
      case HungUp(c, someDevice) => if c < |o.calls| { o.HangUp(c, someDevice); }
    }
  }

  /** Over every run each line's counter is the number of its calls on hold, and a call on hold has
      no device. */
  method Run(devices: nat, lines: nat, events: seq<Event>) returns (o: Office)
    ensures forall l :: 0 <= l < |o.held| ==> o.held[l] == HeldOn(o.calls, l) % 256
    ensures forall c :: 0 <= c < |o.calls| && o.calls[c].state == OnHold ==> o.calls[c].device == NONE
    ensures |o.held| == lines && |o.actives| == devices
    ensures o.State() == RunOf(Quiet(devices, lines), events)
  {
    o := new Office(devices, lines);
    Perform(o, events);
    RunIsGood(Quiet(devices, lines), events);
  }

  method Perform(o: Office, events: seq<Event>)
    requires o.Valid()
    modifies o
    ensures o.Valid() && o.State() == RunOf(old(o.State()), events)
  {
    hide *;
    ghost var start := o.State();
    assert events[..0] == [];
    RunOfNothing(start);
    for i := 0 to |events|
      invariant o.Valid() && o.State() == RunOf(start, events[..i])
    {
      assert events[..i + 1] == events[..i] + [events[i]];
      RunAppend(start, events[..i], events[i]);
      Step(o, events[i]);
    }
    assert events[..|events|] == events;
  }

  /** A guarded run leaves each device at most one talking call, its active one. */
  method CarefulRun(o: Office, events: seq<Event>)
    requires o.Valid() && Tracked(o.State()) && GuardedRun(o.State(), events)
    modifies o
    ensures o.Valid() && o.State() == RunOf(old(o.State()), events)
    ensures Tracked(o.State()) && o.Orderly() && OneTalkerEach(o.State())
  {
    hide Good, Tracked, GuardedRun, RunOf, TalkersActive, OneTalkerEach;
    ghost var start := o.State();
    Perform(o, events);
    RunTracked(start, events);
    TrackedIsOrderly(o.State());
    TrackedHasOneTalkerEach(o.State());
  }

  /** A call arrives, is answered, connected and put on hold. */
  method HeldCall(o: Office) returns (c: int)
    requires o.Valid() && |o.actives| == 1 && |o.held| == 1 && o.actives[0] == NONE
    modifies o
    ensures o.Valid() && |o.actives| == 1 && |o.held| == 1 && o.actives[0] == NONE && c == |old(o.calls)|
    ensures o.calls == old(o.calls) + [Call(0, true, OnHold, false, true, false, NONE)]
  {
    hide Counted, Shaped, TalkersActive;
    c := o.Arrive(0);
    var answered := o.Answer(c, 0);
    o.SetState(c, Connected);
    var holding := o.Hold(c);
  }

  /** Of two held calls the first is resumed in favour of a fresh third call, which begins to end. */
  method ResumedWhileEnding() returns (o: Office, third: int)
    ensures fresh(o) && o.Valid() && |o.actives| == 1 && |o.held| == 1 && third == 2 && o.actives == [0]
    ensures o.calls
      == [Call(0, true, Connected, false, true, false, 0), Call(0, true, OnHold, false, true, false, NONE),
                        Call(0, true, OffHook, false, false, true, 0)]
  {
    hide Counted, Shaped, TalkersActive;
    o := new Office(1, 1);
    var first := HeldCall(o);
    var second := HeldCall(o);
    third := o.NewCall(0, 0);
    var resumed := o.Resume(0, first, true, false);
  }

  /** Without the guard of hangups it fails, although every resume swaps: the hangup of the third call
      is carried out later and takes the active call from the device, and the next resume finds
      nobody to put aside. */
  method TwoTalkers() returns (o: Office)
    ensures o.Valid() && |o.calls| == 3 && TalksOn(o.calls[0], 0) && TalksOn(o.calls[1], 0)
  {
    hide Counted, Shaped, TalkersActive;
    var third;
    o, third := ResumedWhileEnding();
    assert !Guard(o.State(), HungUp(third, true));
    o.HangUp(third, true);
    var resumed := o.Resume(0, 1, true, false);
  }

  /** Nor is it enough that no hangup takes a talking call from its device: the call that is active
      while the late hangup is carried out only dials, and is connected afterwards. */
  method TwoTalkersLater() returns (o: Office)
    ensures o.Valid() && |o.calls| == 4 && TalksOn(o.calls[1], 0) && TalksOn(o.calls[3], 0)
  {
    hide Counted, Shaped, TalkersActive;
    var third, fourth;
    o, third, fourth := DialsWhileEnding();
    assert o.HidesNobody(third) && !Guard(o.State(), HungUp(third, true));
    o.HangUp(third, true);
    o.SetState(fourth, Connected);
    var resumed := o.Resume(0, 1, true, false);
  }

  /** The first call goes on hold again, and a fourth call dials on the device. */
  method DialsWhileEnding() returns (o: Office, third: int, fourth: int)
    ensures fresh(o) && o.Valid() && |o.actives| == 1 && |o.held| == 1 && third == 2 && fourth == 3
      && o.actives == [fourth]
    ensures o.calls
      == [Call(0, true, OnHold, false, true, false, NONE), Call(0, true, OnHold, false, true, false, NONE),
                        Call(0, true, OffHook, false, false, true, 0), Call(0, true, Dialing, false, false, false, 0)]
  {
    hide Counted, Shaped, TalkersActive;
    o, third := ResumedWhileEnding();
    var holding := o.Hold(0);
    fourth := o.NewCall(0, 0);
    o.SetState(fourth, Dialing);
  }
}
