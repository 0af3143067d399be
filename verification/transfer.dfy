/** The transfer pair of a device: two call slots that own references (sccp_channel.c), with the
    hold, resume and hangup paths that touch them and the direct transfer of sccp_softkeys.c. */
module Transfer {
  import opened TransferWorld

  class Exchange {
    var devices: seq<Device>
    var calls: seq<Call>

    function State(): World
      reads this
    {
      World(devices, calls)
    }

    ghost predicate SoundBut(busy: int)
      reads this
    {
      Sound(devices, calls, busy)
    }

    ghost predicate Valid()
      reads this
    {
      SoundBut(NONE)
    }

    /** Idle devices, and no calls. */
    constructor (n: nat)
      ensures Valid() && calls == [] && |devices| == n
      ensures forall i :: 0 <= i < n ==> devices[i] == Device(NONE, NONE, NONE, false, multiset{}, multiset{})
    {
      devices := seq(n, _ => Device(NONE, NONE, NONE, false, multiset{}, multiset{}));
      calls := [];
    }

    method SetState(c: int, state: CallState, ghost busy: int)
      requires SoundBut(busy) && 0 <= c < |calls|
      modifies this`calls
      ensures SoundBut(busy)
      ensures calls == old(calls)[c := old(calls)[c].(state := state)]
      ensures State() == WithState(old(State()), c, state)
    {
      hide Sound;
      SoundHere(devices, calls, busy, NONE, c);
      SoundCall(devices, calls, busy, c, calls[c].(state := state));
      calls := calls[c := calls[c].(state := state)];
    }

    /** sccp_channel_setDevice(channel, NULL): the device forgets its active call, whichever it is. */
    method ClearDevice(c: int, ghost busy: int)
      requires SoundBut(busy) && 0 <= c < |calls|
      modifies this
      ensures SoundBut(busy) && SameSlots(old(devices), devices) && |devices| == |old(devices)|
      ensures calls == old(calls)[c := old(calls)[c].(device := NONE)]
      ensures forall i :: 0 <= i < |devices| ==>
        devices[i].active == if i == old(calls)[c].device then NONE else old(devices)[i].active
      ensures State() == Detached(old(State()), c)
    {
      hide Sound;
      var d := calls[c].device;
      SoundHere(devices, calls, busy, d, c);
      if d != NONE {
        SoundDevice(devices, calls, busy, d, devices[d].(active := NONE));
        devices := devices[d := devices[d].(active := NONE)];
      }
      SoundCall(devices, calls, busy, c, calls[c].(device := NONE));
      calls := calls[c := calls[c].(device := NONE)];
    }

    /** sccp_channel_transfer_release; sccp_channel_release clears the pointer it is given. */
    method TransferRelease(d: int, c: int)
      requires Valid() && 0 <= d < |devices|
      modifies this`devices
      ensures Valid() && SameLeaks(old(devices), devices) && OnlyReleases(old(devices), devices)
      ensures devices == old(devices)[d := Released(old(devices)[d], c)]
      ensures !InSlots(devices[d], c)
    {
      hide Sound, SameLeaks, OnlyReleases, OthersKeepSlots, LineLoses, SameSlots, Ok, Released;
      SoundHere(devices, calls, NONE, d, NONE);
      ReleasedIsOk(devices[d], c);
      ReleasedIn(devices[d], c, |calls|);
      LeaksStep(devices, d, Released(devices[d], c));
      SoundDevice(devices, calls, NONE, d, Released(devices[d], c));
      ReleaseSlots(d, c);
    }

    /** The body of the release, slot by slot. */
    method ReleaseSlots(d: int, c: int)
      requires 0 <= d < |devices|
      modifies this`devices
      ensures devices == old(devices)[d := Released(old(devices)[d], c)]
    {
      var device := devices[d];
      assert devices[d := device] == devices;
      if c == NONE {
        return;
      }
      if (device.transferee != NONE && c == device.transferee)
        || (device.transferer != NONE && c == device.transferer) {
        if device.transferee != NONE {
          device := device.(transferee := NONE, owned := device.owned - multiset{device.transferee});
        }
        if device.transferer != NONE {
          device := device.(transferer := NONE, owned := device.owned - multiset{device.transferer});
        }
        assert device.owned == devices[d].owned - One(devices[d].transferee) - One(devices[d].transferer);
        devices := devices[d := device];
      }
    }

    /** sccp_channel_transfer_cancel: the transferee goes on hold, without a device, unless it is the
        call itself. */
    method TransferCancel(d: int, c: int)
      requires Valid() && 0 <= d < |devices| && 0 <= c < |calls|
      modifies this
      ensures Valid() && SameLeaks(old(devices), devices) && OnlyReleases(old(devices), devices)
        && |devices| == |old(devices)| && |calls| == |old(calls)|
      ensures OthersKeepSlots(old(devices), devices, d)
      ensures var transferee := old(devices)[d].transferee;
        if transferee == NONE || transferee == c then
          devices == old(devices) && calls == old(calls)
        else
          0 <= transferee < |calls| && devices[d].transferee == NONE && devices[d].transferer == NONE
          && calls == old(calls)[transferee := old(calls)[transferee].(state := OnHold, device := NONE)]
      ensures State() == Cancelled(old(State()), d, c)
    {
      hide Sound, SameLeaks, OnlyReleases, OthersKeepSlots, LineLoses, SameSlots, Ok, Released;
      SoundHere(devices, calls, NONE, d, c);
      LeaksSelf(devices);
      OthersSelf(devices, d);
      var transferee := devices[d].transferee;
      if transferee == NONE {
        return;
      }
      if transferee != c {
        SetState(transferee, OnHold, NONE);
        ClearDevice(transferee, NONE);
        SlotsHere(old(devices), devices, d);
        SlotsAreLeaks(old(devices), devices);
        ghost var cleared := devices;
        TransferRelease(d, transferee);
        LeaksJoin(old(devices), cleared, devices);
        OthersAreSame(old(devices), cleared, d);
        OthersStep(cleared, d, devices[d]);
        OthersJoin(old(devices), cleared, devices, d);
        InSlotsClears(cleared[d], transferee);
      }
    }

    /** The device slots of sccp_channel_clean. */
    method Clean(c: int)
      requires Valid() && 0 <= c < |calls|
      modifies this
      ensures Valid() && SameLeaks(old(devices), devices) && OnlyReleases(old(devices), devices)
        && |devices| == |old(devices)|
      ensures calls == old(calls)[c := old(calls)[c].(device := NONE)]
      ensures OthersKeepSlots(old(devices), devices, old(calls)[c].device)
      ensures forall i :: 0 <= i < |devices| && !InSlots(old(devices)[i], c) ==> !InSlots(devices[i], c)
      ensures old(calls)[c].device != NONE ==>
        NONE < old(calls)[c].device < |devices| && !InSlots(devices[old(calls)[c].device], c)
      ensures State() == Cleaned(old(State()), c)
    {
      hide Sound, SameLeaks, OnlyReleases, OthersKeepSlots, LineLoses, SameSlots, Ok, Released;
      var d := calls[c].device;
      SoundHere(devices, calls, NONE, d, c);
      LeaksSelf(devices);
      OthersSelf(devices, d);
      if d != NONE {
        TransferRelease(d, c);
        ReleasedNever(old(devices)[d], c);
        OthersStep(old(devices), d, devices[d]);
      }
      ghost var released := devices;
      ClearDevice(c, NONE);
      SlotsAreLeaks(released, devices);
      LeaksJoin(old(devices), released, devices);
      OthersAreSame(released, devices, d);
      OthersJoin(old(devices), released, devices, d);
      forall i | 0 <= i < |devices| ensures devices[i] == released[i].(active := devices[i].active) {
        SlotsHere(released, devices, i);
      }
    }

    /** sccp_pbx_hangup: afterwards the call is in no slot of its device or of its line's devices. */
    method PbxHangUp(c: int)
      requires Valid() && 0 <= c < |calls|
      modifies this
      ensures Valid() && SameLeaks(old(devices), devices) && OnlyReleases(old(devices), devices)
        && |devices| == |old(devices)| && |calls| == |old(calls)|
      ensures forall k :: 0 <= k < |old(calls)[c].lineDevices| ==> !InSlots(devices[old(calls)[c].lineDevices[k]], c)
      ensures var d := old(calls)[c].device;
        && calls[c].device == NONE
        && (d != NONE ==> !InSlots(devices[d], c))
        && (d == NONE || old(devices)[d].transferee == NONE ==>
             calls == old(calls)[c := old(calls)[c].(device := NONE)])
      ensures LineLoses(old(devices), devices, old(calls)[c].lineDevices, c, old(calls)[c].device)
      ensures forall i :: 0 <= i < |calls| && old(calls)[i].state == OnHold ==> calls[i].state == OnHold
      ensures State() == AfterHangUp(old(State()), c)
    {
      hide Sound, SameLeaks, OnlyReleases, OthersKeepSlots, LineLoses, SameSlots, Ok, Released, Cancelled, Cleaned,
        Detached;
      var d := calls[c].device;
      SoundHere(devices, calls, NONE, d, c);
      LeaksSelf(devices);
      OthersSelf(devices, d);
      if d != NONE {
        TransferCancel(d, c);
      }
      SoundHere(devices, calls, NONE, d, c);
      ghost var cancelled := devices;
      ReleaseOnLine(c);
      LeaksJoin(old(devices), cancelled, devices);
      ghost var left := devices;
      Clean(c);
      LeaksJoin(old(devices), left, devices);
      LineReleases(cancelled, left, old(calls)[c].lineDevices, c, d);
      LineJoin(old(devices), cancelled, left, devices, old(calls)[c].lineDevices, c, d);
    }

    /** Its loop over the devices of the line. */
    method ReleaseOnLine(c: int)
      requires Valid() && 0 <= c < |calls|
      modifies this`devices
      ensures Valid() && SameLeaks(old(devices), devices) && OnlyReleases(old(devices), devices)
        && |devices| == |old(devices)|
      ensures forall k :: 0 <= k < |calls[c].lineDevices| ==>
        0 <= calls[c].lineDevices[k] < |devices| && !InSlots(devices[calls[c].lineDevices[k]], c)
      ensures forall i :: 0 <= i < |devices| ==>
        devices[i] == if i in calls[c].lineDevices then Released(old(devices)[i], c) else old(devices)[i]
      ensures devices == LineReleased(old(devices), calls[c].lineDevices, c)
    {
      hide Sound, SameLeaks, OnlyReleases, OthersKeepSlots, LineLoses, SameSlots, Ok, Released;
      SoundHere(devices, calls, NONE, NONE, c);
      LeaksSelf(devices);
      var line := calls[c].lineDevices;
      for k := 0 to |line|
        invariant Valid() && SameLeaks(old(devices), devices) && OnlyReleases(old(devices), devices)
          && |devices| == |old(devices)|
        invariant forall j :: 0 <= j < k ==> !InSlots(devices[line[j]], c)
        invariant forall i :: 0 <= i < |devices| ==>
          devices[i] == if i in line[..k] then Released(old(devices)[i], c) else old(devices)[i]
      {
        ghost var before := devices;
        assert line[..k + 1] == line[..k] + [line[k]];
        TransferRelease(line[k], c);
        LeaksJoin(old(devices), before, devices);
        ReleasedNever(before[line[k]], c);
        ReleasedTwice(old(devices)[line[k]], c);
      }
    }

    /** sccp_channel_endcall: ending any call but the transferee cancels the transfer of its device;
        atOnce: Asterisk carries the hangup out at once. */
    method EndCall(c: int, atOnce: bool)
      requires Valid() && 0 <= c < |calls|
      modifies this
      ensures Valid() && SameLeaks(old(devices), devices) && OnlyReleases(old(devices), devices)
        && |devices| == |old(devices)| && |calls| == |old(calls)|
      ensures var d := old(calls)[c].device;
        var t := if d == NONE then NONE else old(devices)[d].transferee;
        t != NONE && t != c ==>
          calls[t].state == OnHold && calls[t].device == NONE && calls[t].hasOwner == old(calls)[t].hasOwner
      ensures
        if atOnce && old(calls)[c].hasOwner then
          LineLoses(old(devices), devices, old(calls)[c].lineDevices, c, old(calls)[c].device)
        else OthersKeepSlots(old(devices), devices, old(calls)[c].device)
      ensures forall i :: 0 <= i < |calls| && old(calls)[i].state == OnHold ==> calls[i].state == OnHold
      ensures var d := old(calls)[c].device;
        d != NONE && 0 <= d < |old(devices)| ==>
          if old(devices)[d].transferee == c && !(atOnce && old(calls)[c].hasOwner) then
            devices == old(devices) && calls == old(calls)
          else devices[d].transferee == NONE
      ensures State() == Ended(old(State()), c, atOnce)
    {
      hide Sound, SameLeaks, OnlyReleases, OthersKeepSlots, LineLoses, SameSlots, Ok, Released, Cancelled, AfterHangUp;
      var d := calls[c].device;
      SoundHere(devices, calls, NONE, d, c);
      LeaksSelf(devices);
      OthersSelf(devices, d);
      if d != NONE {
        if devices[d].transferee != c {
          TransferCancel(d, c);
        }
      }
      SoundHere(devices, calls, NONE, d, c);
      if calls[c].hasOwner {
        if atOnce {
          ghost var before := devices;
          PbxHangUp(c);
          LeaksJoin(old(devices), before, devices);
          if d != NONE {
            ReleasesHere(old(devices), before, d);
            ReleasesHere(before, devices, d);
          }
          OthersSelf(devices, d);
          LineJoin(old(devices), before, devices, devices, old(calls)[c].lineDevices, c, d);
        }
      }
    }

    /** sccp_channel_hold; busy: a device whose transfer is being set up. */
    method Hold(c: int, atOnce: bool, ghost busy: int) returns (ok: bool)
      requires SoundBut(busy) && 0 <= c < |calls|
      requires busy != NONE && calls[c].device != NONE ==>
        NONE <= calls[c].device < |devices| && devices[calls[c].device].transferer != c
      modifies this
      ensures SoundBut(busy) && SameLeaks(old(devices), devices) && OnlyReleases(old(devices), devices)
        && |devices| == |old(devices)| && |calls| == |old(calls)|
      ensures ok == CanHold(old(calls)[c])
      ensures !ok ==> devices == old(devices) && calls == old(calls)
      ensures NONE <= old(calls)[c].device < |old(devices)|
      ensures ok && Flashes(old(State()), c) && busy == NONE ==>
        var d := old(calls)[c].device;
        && devices[d].transferee == NONE
        && (if atOnce && old(calls)[c].hasOwner then LineLoses(old(devices), devices, old(calls)[c].lineDevices, c, d)
            else OthersKeepSlots(old(devices), devices, d))
        && (forall i :: 0 <= i < |calls| && old(calls)[i].state == OnHold ==>
              calls[i].state == OnHold || (calls[i].state == Connected && calls[i].device == d))
      ensures ok && !Flashes(old(State()), c) ==>
        forall i :: 0 <= i < |devices| ==>
          devices[i].active == if i == old(calls)[c].device then NONE else old(devices)[i].active
      ensures ok && !Flashes(old(State()), c) ==>
        SameSlots(old(devices), devices) && calls == old(calls)[c := old(calls)[c].(state := OnHold, device := NONE)]
      ensures State() == Held(old(State()), c, atOnce)
      decreases 1, 0
    {
      hide Sound, SameLeaks, OnlyReleases, OthersKeepSlots, LineLoses, SameSlots, Ok, Released, Ended, Reconnected,
        Aside, Detached, WithState, Yields;
      var d := calls[c].device;
      SoundHere(devices, calls, busy, d, c);
      LeaksSelf(devices);
      if d == NONE {
        return false;
      }
      if calls[c].state == OnHold {
        return false;
      }
      if calls[c].state != Connected && calls[c].state != ConnectedConference && calls[c].state != Proceed {
        return false;
      }
      if devices[d].useHookFlash && devices[d].transferer == c {
        OkPairs(devices[d]);
        var resumed := devices[d].transferee;
        if resumed != NONE {
          EndCall(c, atOnce);
          ghost var before := devices;
          var _ := Resume(d, resumed, false, atOnce);
          LeaksJoin(old(devices), before, devices);
          ReleasesHere(before, devices, d);
          if atOnce && old(calls)[c].hasOwner {
            OthersSelf(old(devices), d);
            LineJoin(old(devices), old(devices), before, devices, old(calls)[c].lineDevices, c, d);
          } else {
            OthersJoin(old(devices), before, devices, d);
          }
        }
        return true;
      }
      SetState(c, OnHold, busy);
      ClearDevice(c, busy);
      SlotsAreLeaks(old(devices), devices);
      ok := true;
    }

    /** Asterisk hangs a up at once, and that takes the pair from device d, on a's line. */
    predicate HangUpReleases(d: int, a: int, atOnce: bool)
      reads this
      requires 0 <= d < |devices| && 0 <= a < |calls|
    {
      atOnce && calls[a].hasOwner && d in calls[a].lineDevices && InSlots(devices[d], a)
    }

    /** Does the pair of the device go when its active call a makes room for c? An unused one is ended,
        and so is a consultation call on a phone with hook flash. */
    predicate AsideReleases(d: int, c: int, atOnce: bool)
      reads this
      requires 0 <= d < |devices| && NONE <= devices[d].active < |calls|
      requires devices[d].active != NONE ==> NONE <= calls[devices[d].active].device < |devices|
    {
      var a := devices[d].active;
      a != NONE && a != c &&
      if calls[a].state in {Down, OnHook, OffHook} then
        if calls[a].device == d then devices[d].transferee != a || (atOnce && calls[a].hasOwner)
          else HangUpReleases(d, a, atOnce)
      else CanHold(calls[a]) && Flashes(State(), a) && (calls[a].device == d || HangUpReleases(d, a, atOnce))
    }

    /** The active call makes room for the one that is resumed: an unused one ends, others go on hold. */
    method PutAside(d: int, c: int, atOnce: bool) returns (ok: bool)
      requires Valid() && 0 <= d < |devices| && 0 <= c < |calls|
      modifies this
      ensures Valid() && SameLeaks(old(devices), devices) && OnlyReleases(old(devices), devices)
        && |devices| == |old(devices)| && |calls| == |old(calls)|
      ensures !ok ==> devices == old(devices) && calls == old(calls)
      ensures old(devices)[d].active in {NONE, c} ==> ok && devices == old(devices) && calls == old(calls)
      ensures NONE <= old(devices)[d].active < |calls|
      ensures old(devices)[d].active != NONE ==> NONE <= old(calls)[old(devices)[d].active].device < |devices|
      ensures ok == Yields(old(State()), d, c)
      ensures devices[d].transferee == NONE <==> old(devices)[d].transferee == NONE || old(AsideReleases(d, c, atOnce))
      ensures old(calls)[c].state == OnHold ==>
        || calls[c].state == OnHold
        || (calls[c].state == Connected && 0 <= calls[c].device < |devices|
             && devices[calls[c].device].transferee == NONE)
      ensures State() == if ok then Aside(old(State()), d, c, atOnce) else old(State())
      decreases 1, 1
    {
      hide Sound, SameLeaks, OnlyReleases, OthersKeepSlots, LineLoses, SameSlots, Ok, Released, Ended, Held;
      SoundHere(devices, calls, NONE, d, c);
      LeaksSelf(devices);
      SoundHere(devices, calls, NONE, d, devices[d].active);
      var active := devices[d].active;
      ok := true;
      if active != NONE && active != c {
        if calls[active].state in {Down, OnHook, OffHook} {
          EndCall(active, atOnce);
          SlotsElsewhere(old(devices), devices, old(calls)[active], active, d, atOnce);
        } else {
          ok := Hold(active, atOnce, NONE);
          if ok && !Flashes(old(State()), active) {
            SlotsHere(old(devices), devices, d);
          } else if ok {
            SlotsElsewhere(old(devices), devices, old(calls)[active], active, d, atOnce);
          }
        }
        ReleasesHere(old(devices), devices, d);
      }
      SoundHere(devices, calls, NONE, d, c);
      OkPairs(devices[d]);
    }

    /** sccp_channel_setDevice(channel, device) for a call that is connected again. */
    method Attach(d: int, c: int)
      requires Valid() && 0 <= d < |devices| && 0 <= c < |calls|
      modifies this
      ensures Valid() && SameSlots(old(devices), devices) && |devices| == |old(devices)|
      ensures devices == old(devices)[d := old(devices)[d].(active := c)]
      ensures calls == old(calls)[c := old(calls)[c].(device := d, state := Connected)]
      ensures State() == Attached(old(State()), d, c)
    {
      hide Sound;
      SoundHere(devices, calls, NONE, d, c);
      SoundCall(devices, calls, NONE, c, calls[c].(device := d, state := Connected));
      calls := calls[c := calls[c].(device := d, state := Connected)];
      SoundDevice(devices, calls, NONE, d, devices[d].(active := c));
      devices := devices[d := devices[d].(active := c)];
    }

    /** Does the pair of the device go when its held call c is resumed? */
    predicate GivesBack(d: int, c: int, atOnce: bool)
      reads this
      requires 0 <= d < |devices| && NONE <= devices[d].active < |calls|
      requires devices[d].active != NONE ==> NONE <= calls[devices[d].active].device < |devices|
    {
      AsideReleases(d, c, atOnce) || (Yields(State(), d, c) && devices[d].transferer == c)
    }

    /** sccp_channel_resume, once Asterisk's channel is locked, and channel_resume_locked. */
    method Resume(d: int, c: int, swap: bool, atOnce: bool) returns (ok: bool)
      requires Valid() && 0 <= d < |devices| && 0 <= c < |calls|
      modifies this
      ensures Valid() && SameLeaks(old(devices), devices) && OnlyReleases(old(devices), devices)
        && |devices| == |old(devices)| && |calls| == |old(calls)|
      ensures ok ==> calls[c].state == Connected && calls[c].device == d && devices[d].active == c
      ensures ok ==> devices[d].transferer != c
      ensures NONE <= old(devices)[d].active < |calls|
      ensures old(devices)[d].active != NONE ==> NONE <= old(calls)[old(devices)[d].active].device < |devices|
      ensures swap && old(calls)[c].state == OnHold ==>
        (devices[d].transferee == NONE <==> old(devices)[d].transferee == NONE || old(GivesBack(d, c, atOnce)))
      ensures !swap && old(calls)[c].state == OnHold ==>
        OthersKeepSlots(old(devices), devices, d)
          && forall i :: 0 <= i < |calls| && i != c ==> calls[i] == old(calls)[i]
      ensures old(calls)[c].state in {OnHold, CallTransfer, CallConference} ==>
        (!swap || old(devices)[d].active in {NONE, c} ==> ok)
      ensures State() == Resumed(old(State()), d, c, swap, atOnce)
      ensures ok == ((swap ==> Yields(old(State()), d, c))
        && Resumable(Ready(old(State()), d, c, swap, atOnce).calls[c].state))
      decreases if swap || calls[c].state in {Connected, ConnectedConference, Proceed} then 2 else 0, 0
    {
      hide Sound, SameLeaks, OnlyReleases, OthersKeepSlots, LineLoses, SameSlots, Ok, Released, AsideReleases,
        Yields, Aside, Held, Reconnected;
      SoundHere(devices, calls, NONE, d, c);
      DeviceInHere(devices, calls, NONE, d);
      SoundHere(devices, calls, NONE, d, devices[d].active);
      LeaksSelf(devices);
      if swap {
        ok := PutAside(d, c, atOnce);
        if !ok {
          return;
        }
      }
      ghost var aside := devices;
      SoundHere(devices, calls, NONE, d, c);
      SoundHere(devices, calls, NONE, calls[c].device, c);
      if calls[c].device != NONE {
        OkPairs(devices[calls[c].device]);
      }
      ReleasesHere(old(devices), aside, d);
      if calls[c].state in {Connected, ConnectedConference, Proceed} {
        Refusals(State(), d, c, atOnce);
        ok := Hold(c, atOnce, NONE);
        LeaksJoin(old(devices), aside, devices);
        if !ok {
          return;
        }
        ReleasesHere(aside, devices, d);
        if old(calls)[c].state == OnHold {
          SlotsHere(aside, devices, d);
        }
      }
      ghost var held := devices;
      ok := Reconnect(d, c);
      LeaksJoin(old(devices), held, devices);
      ReleasesHere(old(devices), devices, d);
      ReleasesHere(held, devices, d);
    }

    /** Its last part: a call on hold gets the device and talks again, and is no consultation call any
        more. */
    method Reconnect(d: int, c: int) returns (ok: bool)
      requires Valid() && 0 <= d < |devices| && 0 <= c < |calls|
      modifies this
      ensures Valid() && SameLeaks(old(devices), devices) && OnlyReleases(old(devices), devices)
        && |devices| == |old(devices)| && |calls| == |old(calls)|
      ensures ok == (old(calls)[c].state in {OnHold, CallTransfer, CallConference})
      ensures !ok ==> devices == old(devices) && calls == old(calls)
      ensures ok ==>
        calls[c].state == Connected && calls[c].device == d && devices[d].active == c && devices[d].transferer != c
      ensures OthersKeepSlots(old(devices), devices, d)
        && forall i :: 0 <= i < |calls| && i != c ==> calls[i] == old(calls)[i]
      ensures ok ==> (devices[d].transferee == NONE <==>
        old(devices)[d].transferee == NONE || old(devices)[d].transferer == c)
      ensures State() == Reconnected(old(State()), d, c)
    {
      hide Sound, SameLeaks, OnlyReleases, OthersKeepSlots, LineLoses, SameSlots, Ok, Released;
      SoundHere(devices, calls, NONE, d, c);
      LeaksSelf(devices);
      OthersSelf(devices, d);
      if calls[c].state != OnHold && calls[c].state != CallTransfer && calls[c].state != CallConference {
        return false;
      }
      OkPairs(devices[d]);
      if devices[d].transferee != c {
        TransferRelease(d, c);
        OthersStep(old(devices), d, devices[d]);
        ReleasedNever(old(devices)[d], c);
        if InSlots(old(devices)[d], c) {
          InSlotsClears(old(devices)[d], c);
        }
      }
      SoundHere(devices, calls, NONE, d, c);
      OkPairs(devices[d]);
      ghost var ready := devices;
      Attach(d, c);
      SlotsAreLeaks(ready, devices);
      LeaksJoin(old(devices), ready, devices);
      OthersStep(ready, d, devices[d]);
      OthersJoin(old(devices), ready, devices, d);
      ok := true;
    }

    /** sccp_channel_transfer_complete: the slots of the destination's device are given back before
        Asterisk is asked to join the parties, and stay as they are when it does not come to that. */
    method TransferComplete(dest: int, bridged: bool, joined: bool) returns (result: bool)
      requires Valid() && 0 <= dest < |calls|
      modifies this`devices
      ensures Valid() && SameLeaks(old(devices), devices) && |devices| == |old(devices)|
      ensures NONE <= calls[dest].device < |devices|
      ensures var d := calls[dest].device;
        var source := if d == NONE then NONE else old(devices)[d].transferee;
        var goes := source != NONE && 0 <= source < |calls| && bridged
          && calls[dest].state in {RingOut, Connected, Progress} && calls[dest].hasOwner && calls[source].hasOwner;
        && result == (goes && joined)
        && (goes ==>
             devices[d].transferee == NONE && devices[d].transferer == NONE && devices[d].owned == devices[d].leaked)
        && (!goes ==> devices == old(devices))
        && forall i :: 0 <= i < |devices| && i != d ==> devices[i] == old(devices)[i]
      ensures State() == Completed(old(State()), dest, bridged)
    {
      hide Sound, SameLeaks, OnlyReleases, OthersKeepSlots, LineLoses, SameSlots, Ok, Released;
      result := false;
      var d := calls[dest].device;
      SoundHere(devices, calls, NONE, d, dest);
      LeaksSelf(devices);
      if d == NONE {
        return;
      }
      var source := devices[d].transferee;
      if calls[dest].state != RingOut && calls[dest].state != Connected && calls[dest].state != Progress {
        return;
      }
      if !calls[dest].hasOwner || source == NONE || !calls[source].hasOwner {
        return;
      }
      if !bridged {
        return;
      }
      ReleasedIsOk(devices[d], source);
      InSlotsClears(devices[d], source);
      TransferRelease(d, source);
      if !joined {
        return;
      }
      result := true;
    }

    /** sccp_channel_transfer_on_hangup; up: the state of Asterisk's channel allows it. */
    method TransferOnHangUp(c: int, enabled: bool, up: bool, bridged: bool, joined: bool) returns (result: bool)
      requires Valid() && 0 <= c < |calls|
      modifies this`devices
      ensures Valid() && SameLeaks(old(devices), devices) && |devices| == |old(devices)|
      ensures NONE <= calls[c].device < |devices|
      ensures result ==
        (enabled && up && calls[c].device != NONE && UnderWay(calls[c].state)
          && c == old(devices)[calls[c].device].transferer)
      ensures !result ==> devices == old(devices)
      ensures State() == if result then Completed(old(State()), c, bridged) else old(State())
    {
      hide Sound, SameLeaks, OnlyReleases, OthersKeepSlots, LineLoses, SameSlots, Ok, Released;
      result := false;
      var d := calls[c].device;
      SoundHere(devices, calls, NONE, d, c);
      LeaksSelf(devices);
      if !enabled || d == NONE || !UnderWay(calls[c].state) {
        return;
      }
      OkPairs(devices[d]);
      if devices[d].transferee != NONE && devices[d].transferer != NONE && c == devices[d].transferer && up {
        var _ := TransferComplete(c, bridged, joined);
        result := true;
      }
    }

    /** sccp_channel_getEmptyChannel for the active call: an unused off-hook call is used again, any
        other call of the device goes on hold first; allowed: the call is created, with its Asterisk
        channel. If that fails a call without one may be left behind. */
    method GetEmptyChannel(line: seq<int>, d: int, allowed: bool, atOnce: bool, leftBehind: bool, ghost busy: int)
      returns (c: int)
      requires SoundBut(busy) && 0 <= d < |devices| && CallIn(Call(Down, false, true, d, line), |devices|)
      requires busy != NONE ==> busy == d && devices[d].transferer == NONE
      modifies this
      ensures SoundBut(busy) && SameLeaks(old(devices), devices) && |devices| == |old(devices)|
        && |calls| >= |old(calls)|
      ensures NONE <= c < |calls|
      ensures c != NONE && c < |old(calls)| ==> old(calls)[c].state == OffHook && !old(calls)[c].dialed
      ensures allowed && old(devices)[d].active == NONE ==>
        c == |old(calls)| && calls == old(calls) + [Call(Down, false, true, d, line)]
          && devices == old(devices)[d := old(devices)[d].(active := c)]
      ensures busy != NONE ==> devices[d] == old(devices)[d].(active := devices[d].active)
      ensures busy != NONE ==>
        forall i :: 0 <= i < |old(calls)| && old(calls)[i].state == CallTransfer ==> calls[i] == old(calls)[i]
      ensures c == NewIndex(old(State()), d, allowed)
        && State() == WithNewCall(old(State()), line, d, allowed, atOnce, leftBehind)
    {
      hide Sound, SameLeaks, OnlyReleases, OthersKeepSlots, LineLoses, SameSlots, Ok, Released, CallIn, Held, Allocated;
      var active := devices[d].active;
      SoundHere(devices, calls, busy, d, active);
      DeviceInHere(devices, calls, busy, d);
      LeaksSelf(devices);
      c := NONE;
      if active != NONE {
        if calls[active].state == OffHook && !calls[active].dialed {
          return active;
        } else if calls[active].device == d {
          var held := Hold(active, atOnce, busy);
          if !held {
            return NONE;
          }
          if busy != NONE { SlotsHere(old(devices), devices, d); }
        }
      }
      ghost var before := devices;
      if !allowed {
        if leftBehind {
          var _ := Allocate(line, d, false, busy);
          LeaksJoin(old(devices), before, devices);
        }
        return NONE;
      }
      c := Allocate(line, d, true, busy);
      LeaksJoin(old(devices), before, devices);
    }

    /** sccp_channel_allocate: the call belongs to the device from the start, whether or not Asterisk
        gives it a channel afterwards. */
    method Allocate(line: seq<int>, d: int, hasOwner: bool, ghost busy: int) returns (c: int)
      requires SoundBut(busy) && 0 <= d < |devices| && CallIn(Call(Down, false, true, d, line), |devices|)
      modifies this
      ensures SoundBut(busy) && SameLeaks(old(devices), devices) && |devices| == |old(devices)|
      ensures c == |old(calls)| && calls == old(calls) + [Call(Down, false, hasOwner, d, line)]
      ensures devices == old(devices)[d := old(devices)[d].(active := c)]
      ensures State() == Allocated(old(State()), line, d, hasOwner)
    {
      hide Sound, SameLeaks, OnlyReleases, OthersKeepSlots, LineLoses, SameSlots, Ok, Released;
      var call := Call(Down, false, hasOwner, d, line);
      assert CallIn(call, |devices|);
      SoundNewCall(devices, calls, busy, call);
      calls := calls + [call];
      c := |calls| - 1;
      SoundHere(devices, calls, busy, d, c);
      DeviceInHere(devices, calls, busy, d);
      SoundDevice(devices, calls, busy, d, devices[d].(active := c));
      LeaksStep(devices, d, devices[d].(active := c));
      devices := devices[d := devices[d].(active := c)];
    }

    /** sccp_channel_newcall without a number to dial. */
    method NewCall(line: seq<int>, d: int, allowed: bool, atOnce: bool, leftBehind: bool, ghost busy: int)
      returns (c: int)
      requires SoundBut(busy) && 0 <= d < |devices| && CallIn(Call(Down, false, true, d, line), |devices|)
      requires busy != NONE ==> busy == d && devices[d].transferer == NONE
      modifies this
      ensures SoundBut(busy) && SameLeaks(old(devices), devices) && |devices| == |old(devices)|
        && |calls| >= |old(calls)|
      ensures NONE <= c < |calls|
      ensures c != NONE && c < |old(calls)| ==> old(calls)[c].state == OffHook && !old(calls)[c].dialed
      ensures allowed && old(devices)[d].active == NONE ==>
        c == |old(calls)| && calls == old(calls) + [Call(OffHook, false, true, d, line)]
          && devices == old(devices)[d := old(devices)[d].(active := c)]
      ensures c != NONE ==> calls[c].state == OffHook
      ensures busy != NONE ==>
        forall i :: 0 <= i < |old(calls)| && old(calls)[i].state == CallTransfer ==> calls[i] == old(calls)[i]
      ensures busy != NONE ==> devices[d] == old(devices)[d].(active := devices[d].active)
      ensures c == NewIndex(old(State()), d, allowed)
      ensures State() == WithNewCallOffHook(old(State()), line, d, allowed, atOnce, leftBehind)
    {
      hide WithNewCall, NewIndex, Sound, SameLeaks;
      c := GetEmptyChannel(line, d, allowed, atOnce, leftBehind, busy);
      if c != NONE {
        SetState(c, OffHook, busy);
      }
    }

    /** sccp_channel_transfer: the second press completes, the first sets the pair up or leaves the
        slots empty. Its case for a transferer without a transferee cannot arise. */
    method TransferRequest(c: int, device: int, allowed: bool, newCallAllowed: bool, bridged: bool, joined: bool,
                           leftBehind: bool)
      requires Valid() && 0 <= c < |calls| && 0 <= device < |devices|
      modifies this
      ensures Valid() && SameLeaks(old(devices), devices) && |devices| == |old(devices)| && |calls| >= |old(calls)|
      ensures NONE <= old(calls)[c].device < |devices|
      ensures RequestPromise(old(State()), State(), c, TransferDevice(old(State()), c, device), allowed,
        newCallAllowed, bridged)
      ensures State() == Requested(old(State()), c, device, allowed, newCallAllowed, bridged, leftBehind)
    {
      hide Sound, SameLeaks, OnlyReleases, OthersKeepSlots, LineLoses, SameSlots, Ok, Released, SetUp, Completed;
      SoundHere(devices, calls, NONE, device, c);
      LeaksSelf(devices);
      var d := TransferDevice(State(), c, device);
      SoundHere(devices, calls, NONE, d, c);
      if d == NONE || !allowed {
        return;
      }
      OkPairs(devices[d]);
      if devices[d].transferee != NONE && devices[d].transferer != NONE {
        var _ := TransferComplete(devices[d].transferer, bridged, joined);
        return;
      }
      assert devices[d].transferee == NONE && devices[d].transferer == NONE;
      BeginsHalf(devices[d], c);
      var half := devices[d].(transferee := c, owned := devices[d].owned + multiset{c});
      LeaksStep(devices, d, half);
      SoundBusy(devices, calls, d, half);
      devices := devices[d := half];
      ghost var begun := devices;
      SetUpPair(d, c, newCallAllowed, bridged, leftBehind);
      LeaksJoin(old(devices), begun, devices);
    }

    /** The rest of it, with the transferee in its slot. */
    method SetUpPair(d: int, c: int, newCallAllowed: bool, bridged: bool, leftBehind: bool)
      requires 0 <= d < |devices| && 0 <= c < |calls| && SoundBut(d) && Half(devices[d], c)
      requires calls[c].device in {NONE, d}
      modifies this
      ensures Valid() && SameLeaks(old(devices), devices) && |devices| == |old(devices)| && |calls| >= |old(calls)|
      ensures devices[d].transferee == c ==>
        NONE < devices[d].transferer < |calls| && calls[devices[d].transferer].state == OffHook
          && calls[c].state == CallTransfer
      ensures devices[d].transferee in {NONE, c}
      ensures !bridged || !old(calls)[c].hasOwner ==> devices[d].transferee == NONE
      ensures !old(calls)[c].hasOwner ==> calls[c].state == old(calls)[c].state
      ensures bridged && old(calls)[c].hasOwner && newCallAllowed && old(devices)[d].active == NONE
        && old(calls)[c].state in {OffHook, OnHold, CallTransfer}
        ==> devices[d].transferee == c && devices[d].transferer == |old(calls)|
      ensures State() == SetUp(old(State()), d, c, newCallAllowed, bridged, leftBehind)
      ensures bridged && old(calls)[c].hasOwner && newCallAllowed && old(calls)[c].device == d && CanHold(old(calls)[c])
        ==> devices[d].transferee == c && devices[d].transferer == |old(calls)|
    {
      hide Sound, SameLeaks, OnlyReleases, OthersKeepSlots, LineLoses, SameSlots, Ok, Released, Half, Paired,
        Abandoned, Held, WithState;
      HalfMeans(devices[d], c);
      LeaksSelf(devices);
      var previous := calls[c].state;
      if calls[c].state != OffHook && calls[c].state != OnHold && calls[c].state != CallTransfer {
        var held := Hold(c, false, d);
        if !held {
          AbandonPair(d, c);
          return;
        }
        SlotsHere(old(devices), devices, d);
        HalfStays(old(devices)[d], devices[d], c);
      }
      ghost var before := devices;
      if calls[c].hasOwner {
        CallAndPair(d, c, newCallAllowed, bridged, leftBehind);
      } else {
        SetState(c, previous, d);
        AbandonPair(d, c);
      }
      LeaksJoin(old(devices), before, devices);
    }

    /** With an Asterisk channel to transfer: the consultation call, and its slot if the transferee has
        a bridged peer. */
    method CallAndPair(d: int, c: int, newCallAllowed: bool, bridged: bool, leftBehind: bool)
      requires 0 <= d < |devices| && 0 <= c < |calls| && SoundBut(d) && Half(devices[d], c)
      modifies this
      ensures Valid() && SameLeaks(old(devices), devices) && |devices| == |old(devices)| && |calls| >= |old(calls)|
      ensures devices[d].transferee in {NONE, c}
      ensures devices[d].transferee == c ==>
        NONE < devices[d].transferer < |calls| && calls[devices[d].transferer].state == OffHook
          && calls[c].state == CallTransfer
      ensures !bridged ==> devices[d].transferee == NONE
      ensures bridged && newCallAllowed && old(devices)[d].active == NONE ==>
        devices[d].transferee == c && devices[d].transferer == |old(calls)|
      ensures State() == Paired(old(State()), d, c, newCallAllowed, bridged, leftBehind)
    {
      hide Sound, SameLeaks, OnlyReleases, OthersKeepSlots, LineLoses, SameSlots, Ok, Released, Half,
        WithNewCallOffHook, NewIndex, Abandoned;
      HalfMeans(devices[d], c);
      assert calls[c].state == CallTransfer ==> WithState(State(), c, CallTransfer) == State();
      if calls[c].state != CallTransfer {
        SetState(c, CallTransfer, d);
      }
      SoundHere(devices, calls, d, d, c);
      var consult := NewCall(calls[c].lineDevices, d, newCallAllowed, false, leftBehind, d);
      HalfStays(old(devices)[d], devices[d], c);
      ghost var before := devices;
      if consult != NONE && bridged {
        CompletesPair(devices[d], c, consult);
        var paired := devices[d].(transferer := consult, owned := devices[d].owned + multiset{consult});
        LeaksStep(devices, d, paired);
        SoundHere(devices, calls, d, d, c);
        SoundAgain(devices, calls, d, paired);
        HalfMeans(devices[d], c);
        devices := devices[d := paired];
      } else {
        SetState(c, Congestion, d);
        AbandonPair(d, c);
      }
      LeaksJoin(old(devices), before, devices);
    }

    /** sccp_channel_release(&d->transferChannels.transferee) on the failing paths. */
    method AbandonPair(d: int, c: int)
      requires 0 <= d < |devices| && SoundBut(d) && Half(devices[d], c)
      modifies this`devices
      ensures Valid() && SameLeaks(old(devices), devices) && |devices| == |old(devices)|
      ensures devices[d].transferee == NONE && devices[d].transferer == NONE
      ensures State() == Abandoned(old(State()), d)
    {
      hide Sound, SameLeaks, Ok;
      SoundHere(devices, calls, d, d, NONE);
      var empty := devices[d].(transferee := NONE, owned := devices[d].owned - multiset{c});
      AbandonsHalf(devices[d], c);
      LeaksStep(devices, d, empty);
      SoundAgain(devices, calls, d, empty);
      devices := devices[d := empty];
    }

    /** The end of the direct transfer softkey: chan1 and chan2 go into the slots of the device, and
        what was in them is never given back. */
    method PairDirectly(d: int, chan1: int, chan2: int, bridged: bool, joined: bool)
      requires Valid() && 0 <= d < |devices| && 0 <= chan1 < |calls| && 0 <= chan2 < |calls| && chan1 != chan2
      modifies this`devices
      ensures Valid() && |devices| == |old(devices)|
      ensures devices[d].leaked == old(devices)[d].leaked + Slots(old(devices)[d])
      ensures devices[d].leaked == old(devices)[d].leaked <==> old(devices)[d].transferee == NONE
      ensures forall i :: 0 <= i < |devices| && i != d ==> devices[i].leaked == old(devices)[i].leaked
      ensures State() == Completed(Overwritten(old(State()), d, chan1, chan2), chan2, bridged)
    {
      hide Sound, SameLeaks, OnlyReleases, OthersKeepSlots, LineLoses, SameSlots, Ok, Released, Slots;
      SoundHere(devices, calls, NONE, d, chan2);
      OverwritesPair(devices[d], chan1, chan2);
      var paired := devices[d].(transferee := chan1, transferer := chan2,
                                owned := devices[d].owned + multiset{chan1} + multiset{chan2},
                                leaked := devices[d].leaked + Slots(devices[d]));
      SoundDevice(devices, calls, NONE, d, paired);
      devices := devices[d := paired];
      ghost var before := devices;
      var _ := TransferComplete(chan2, bridged, joined);
      forall i | 0 <= i < |devices| ensures devices[i].leaked == before[i].leaked {
        LeaksHere(before, devices, i);
      }
    }

    /** sccp_sk_dirtrfr from its two calls on: the connected call becomes the second one, and of two
        held calls the second is resumed first. */
    method DirectTransfer(d: int, first: int, second: int, bridged: bool, joined: bool, atOnce: bool)
      requires Valid() && 0 <= d < |devices| && 0 <= first < |calls| && 0 <= second < |calls| && first != second
      modifies this
      ensures Valid() && |devices| == |old(devices)| && |calls| >= |old(calls)|
      ensures !old(calls[first].state == OnHold && calls[second].state == OnHold && calls[second].hasOwner) ==>
        && devices[d].leaked == old(devices)[d].leaked + Slots(old(devices)[d])
        && (devices[d].leaked == old(devices)[d].leaked <==> old(devices)[d].transferee == NONE)
      ensures devices[d].leaked == old(devices)[d].leaked
        || devices[d].leaked == old(devices)[d].leaked + Slots(old(devices)[d])
      ensures old(devices)[d].transferee == NONE ==> devices[d].leaked == old(devices)[d].leaked
      ensures NONE <= old(devices)[d].active < |old(calls)|
      ensures old(devices)[d].active != NONE ==> NONE <= old(calls)[old(devices)[d].active].device < |devices|
      ensures old(calls[first].state == OnHold && calls[second].state == OnHold && calls[second].hasOwner) ==>
        && devices[d].leaked
             == old(devices)[d].leaked
               + (if old(GivesBack(d, second, atOnce)) then multiset{} else Slots(old(devices)[d]))
        && (devices[d].leaked == old(devices)[d].leaked <==>
             old(devices)[d].transferee == NONE || old(GivesBack(d, second, atOnce)))
      ensures State() == DirectlyTransferred(old(State()), d, first, second, bridged, atOnce)
    {
      hide Sound, SameLeaks, OnlyReleases, OthersKeepSlots, LineLoses, SameSlots, Ok, Released, Slots, GivesBack,
        AsideReleases, Yields, Resumed, Completed;
      SoundHere(devices, calls, NONE, d, second);
      DeviceInHere(devices, calls, NONE, d);
      SoundHere(devices, calls, NONE, d, devices[d].active);
      OkPairs(devices[d]);
      var chan1, chan2 := first, second;
      if calls[chan2].state != Connected && calls[chan1].state == Connected {
        chan1, chan2 := chan2, chan1;
      } else if calls[chan1].state == OnHold && calls[chan2].state == OnHold && calls[chan2].hasOwner {
        var _ := Resume(d, chan2, true, atOnce);
        LeaksHere(old(devices), devices, d);
        ReleasesHere(old(devices), devices, d);
        SoundHere(devices, calls, NONE, d, chan2);
        OkPairs(devices[d]);
        SlotsOfPair(old(devices)[d], devices[d]);
        SlotsOfPair(old(devices)[d], old(devices)[d]);
      }
      PairDirectly(d, chan1, chan2, bridged, joined);
    }
  }

  /** A released pair has nothing left to leak. */
  lemma SlotsOfPair(before: Device, after: Device)
    requires Shrunk(before, after)
    ensures after.transferee == NONE && after.transferer == NONE ==> Slots(after) == multiset{}
    ensures after.transferee != NONE ==> Slots(after) == Slots(before)
  {
  }

  // ---------------------------------------------------------------- runs

  datatype Event =
    | Dialled | StateIndicated(state: CallState) | Answered | NewCallPressed | TransferPressed | HoldPressed
    | ResumePressed(swap: bool)
    | CallEnded | HungUp | HangUpTransfers

  /** One event on a call and a device of the exchange's choosing, with every outcome that other
      code decides left open. */
  method Step(x: Exchange, e: Event)
    requires x.Valid()
    modifies x
    ensures x.Valid() && SameLeaks(old(x.devices), x.devices)
  {
    hide Sound, SameLeaks, OnlyReleases, OthersKeepSlots, LineLoses, SameSlots, Ok, Released;
    LeaksSelf(x.devices);
    var c: int, d: int := *, *;
    if !(0 <= c < |x.calls| && 0 <= d < |x.devices|) {
      return;
    }
    SoundHere(x.devices, x.calls, NONE, d, c);
    var p: bool, q: bool, r: bool, s: bool := *, *, *, *;
    match e {
      case Dialled =>
        SoundCall(x.devices, x.calls, NONE, c, x.calls[c].(dialed := true));
        x.calls := x.calls[c := x.calls[c].(dialed := true)];
      case StateIndicated(state) => x.SetState(c, state, NONE);
      case Answered =>
        x.Attach(d, c);
        SlotsAreLeaks(old(x.devices), x.devices);
      case NewCallPressed => var _ := x.NewCall(x.calls[c].lineDevices, d, p, q, r, NONE);
      case TransferPressed =>
        var leftBehind: bool := *;
        x.TransferRequest(c, d, p, q, r, s, leftBehind);
      case HoldPressed => var _ := x.Hold(c, p, NONE);
      case ResumePressed(swap) => var _ := x.Resume(d, c, swap, p);
      case CallEnded => x.EndCall(c, p);
      case HungUp => x.PbxHangUp(c);
      case HangUpTransfers => var _ := x.TransferOnHangUp(c, p, q, r, s);
    }
  }

  /** Over every run each device has both slots set, to different calls, or neither, every set slot
      owns exactly one reference, and not one reference is leaked. */
  method Run(x: Exchange, events: seq<Event>)
    requires x.Valid() && forall i :: 0 <= i < |x.devices| ==> x.devices[i].leaked == multiset{}
    modifies x
    ensures forall i :: 0 <= i < |x.devices| ==>
      && (x.devices[i].transferee == NONE <==> x.devices[i].transferer == NONE)
      && (x.devices[i].transferee != NONE ==> x.devices[i].transferee != x.devices[i].transferer)
      && x.devices[i].owned == Slots(x.devices[i])
  {
    hide SameLeaks;
    ghost var start := x.devices;
    LeaksSelf(start);
    for k := 0 to |events|
      invariant x.Valid() && SameLeaks(start, x.devices)
    {
      ghost var before := x.devices;
      Step(x, events[k]);
      LeaksJoin(start, before, x.devices);
    }
    forall i | 0 <= i < |x.devices|
      ensures Ok(x.devices[i]) && x.devices[i].owned == Slots(x.devices[i])
    {
      SoundHere(x.devices, x.calls, NONE, i, NONE);
      LeaksLength(start, x.devices);
      LeaksHere(start, x.devices, i);
      assert Slots(x.devices[i]) + multiset{} == Slots(x.devices[i]);
    }
  }

  /** The softkey loses references: a call is put on hold and its transfer begun, and then the direct
      transfer is pressed for the two calls of that pair. */
  method DirectTransferLeaks() returns (x: Exchange)
    ensures x.Valid() && |x.devices| == 1 && x.devices[0].leaked != multiset{}
  {
    hide Sound, SameLeaks, OnlyReleases, OthersKeepSlots, LineLoses, SameSlots, Ok, Released;
    x := new Exchange(1);
    assert CallIn(Call(Down, false, true, 0, [0]), 1);
    var c := x.NewCall([0], 0, true, false, false, NONE);
    x.SetState(c, Connected, NONE);
    ghost var before := x.devices;
    var held := x.Hold(c, false, NONE);
    SlotsHere(before, x.devices, 0);
    x.TransferRequest(c, 0, true, true, true, true, false);
    SoundHere(x.devices, x.calls, NONE, 0, c);
    OkPairs(x.devices[0]);
    SlotsFilled(x.devices[0]);
    x.DirectTransfer(0, c, x.devices[0].transferer, true, true, false);
  }

  lemma SlotsFilled(d: Device)
    requires d.transferee != NONE
    ensures d.transferee in Slots(d)
  {
  }
}
