/** The transfer pair of a device on values: slots, the references they own, and what each operation
    makes of all devices and calls (sccp_channel.c, sccp_pbx.c). */
module TransferWorld {

  /** Calls and devices are known by their place in the lists of the exchange; NONE is NULL. */
  const NONE: int := -1

  /** The channel states that the transfer code tells apart. */
  datatype CallState =
    | Down | OnHook | OffHook | Dialing
    | RingOut | RingOutAlerting | Ringing | Proceed | Progress
    | Connected | ConnectedConference | OnHold | CallConference | CallTransfer | OtherConnection
    | Congestion | OtherTermination

  /** SCCP_CHANNELSTATE_IsSettingUp or SCCP_CHANNELSTATE_IsConnected. */
  predicate UnderWay(s: CallState) {
    !(s in {Down, OnHook, OffHook, Dialing, Congestion, OtherTermination})
  }

  /** A channel: its device, if any, and the devices of its line. */
  datatype Call = Call(state: CallState, dialed: bool, hasOwner: bool, device: int, lineDevices: seq<int>)

  /** A device: its transferChannels, its active channel, the references its slots took and have not
      given back, and the part of them whose slot was overwritten. */
  datatype Device = Device(transferee: int, transferer: int, active: int, useHookFlash: bool,
                           owned: multiset<int>, leaked: multiset<int>)

  function One(c: int): multiset<int> {
    if c == NONE then multiset{} else multiset{c}
  }

  function Slots(d: Device): multiset<int> {
    One(d.transferee) + One(d.transferer)
  }

  predicate InSlots(d: Device, c: int) {
    c != NONE && (c == d.transferee || c == d.transferer)
  }

  /** Both slots are set, to different calls, or neither; each set slot owns exactly one reference,
      and no other reference is owned but the leaked ones. */
  predicate Ok(d: Device) {
    && (d.transferee == NONE <==> d.transferer == NONE)
    && (d.transferee != NONE ==> d.transferee != d.transferer)
    && d.owned == Slots(d) + d.leaked
  }

  predicate Half(d: Device, c: int) {
    c != NONE && d.transferee == c && d.transferer == NONE && d.owned == One(c) + d.leaked
  }

  function Released(d: Device, c: int): Device {
    if InSlots(d, c) then
      d.(transferee := NONE, transferer := NONE, owned := d.owned - One(d.transferee) - One(d.transferer)) else d
  }

  /** Releasing any call leaves a device in order, and the released pair owns nothing any more. */
  lemma ReleasedIsOk(d: Device, c: int)
    requires Ok(d)
    ensures Ok(Released(d, c)) && !InSlots(Released(d, c), c) && Released(d, c).leaked == d.leaked
    ensures InSlots(d, c) ==> Released(d, c).owned == d.leaked
  {
    if InSlots(d, c) {
      assert One(d.transferee) + One(d.transferer) + d.leaked - One(d.transferee) - One(d.transferer) == d.leaked;
      assert Slots(Released(d, c)) + d.leaked == d.leaked;
    }
  }

  lemma OkPairs(d: Device)
    requires Ok(d)
    ensures d.transferer == NONE <==> d.transferee == NONE
    ensures d.transferee != NONE ==> d.transferee != d.transferer
  {
  }

  lemma BeginsHalf(d: Device, c: int)
    requires Ok(d) && d.transferee == NONE && c != NONE
    ensures Half(d.(transferee := c, owned := d.owned + multiset{c}), c) && d.transferer == NONE
  {
  }

  lemma HalfMeans(d: Device, c: int)
    requires Half(d, c)
    ensures d.transferee == c && d.transferer == NONE && c != NONE
  {
  }

  lemma HalfStays(d: Device, e: Device, c: int)
    requires Half(d, c) && e == d.(active := e.active)
    ensures Half(e, c)
  {
  }

  lemma CompletesPair(d: Device, c: int, x: int)
    requires Half(d, c) && x != c && x != NONE
    ensures Ok(d.(transferer := x, owned := d.owned + multiset{x}))
  {
    assert One(c) + One(x) + d.leaked == One(c) + d.leaked + multiset{x};
  }

  lemma AbandonsHalf(d: Device, c: int)
    requires Half(d, c)
    ensures Ok(d.(transferee := NONE, owned := d.owned - multiset{c}))
  {
    assert One(c) + d.leaked - multiset{c} == d.leaked;
    assert One(NONE) + One(NONE) + d.leaked == d.leaked;
  }

  lemma OverwritesPair(d: Device, a: int, b: int)
    requires Ok(d) && a != b && a != NONE && b != NONE
    ensures Ok(d.(transferee := a, transferer := b,
                  owned := d.owned + multiset{a} + multiset{b}, leaked := d.leaked + Slots(d)))
    ensures d.leaked + Slots(d) == d.leaked <==> d.transferee == NONE
  {
    assert One(a) + One(b) + (d.leaked + Slots(d)) == Slots(d) + d.leaked + multiset{a} + multiset{b};
    if d.transferee != NONE {
      assert (d.leaked + Slots(d))[d.transferee] > d.leaked[d.transferee];
    } else {
      assert d.leaked + Slots(d) == d.leaked;
    }
  }

  lemma ReleasedNever(d: Device, c: int)
    ensures !InSlots(d, c) ==> Released(d, c) == d
  {
  }

  lemma ReleasedTwice(d: Device, c: int)
    ensures Released(Released(d, c), c) == Released(d, c)
    ensures d.transferee == NONE && d.transferer == NONE ==> Released(d, c) == d
  {
  }

  lemma InSlotsClears(d: Device, c: int)
    requires InSlots(d, c)
    ensures Released(d, c).transferee == NONE && Released(d, c).transferer == NONE
  {
  }

  lemma ReleasedEmpties(d: Device, c: int)
    ensures Released(d, c).transferee == NONE <==> d.transferee == NONE || InSlots(d, c)
  {
  }

  lemma ReleasedIn(d: Device, c: int, calls: nat)
    requires DeviceIn(d, calls)
    ensures DeviceIn(Released(d, c), calls) && Released(d, c).useHookFlash == d.useHookFlash
    ensures Shrunk(d, Released(d, c))
  {
  }

  // ---------------------------------------------------------------- all devices and calls

  predicate DeviceIn(d: Device, calls: nat) {
    NONE <= d.transferee < calls && NONE <= d.transferer < calls && NONE <= d.active < calls
  }

  predicate CallIn(c: Call, devices: nat) {
    NONE <= c.device < devices && forall k :: 0 <= k < |c.lineDevices| ==> 0 <= c.lineDevices[k] < devices
  }

  /** Every device is in order but the one, if any, whose transfer is being set up. */
  ghost predicate Sound(ds: seq<Device>, cs: seq<Call>, busy: int) {
    && (forall i :: 0 <= i < |ds| ==> DeviceIn(ds[i], |cs|) && (i == busy || Ok(ds[i])))
    && (forall i :: 0 <= i < |cs| ==> CallIn(cs[i], |ds|))
  }

  lemma SoundHere(ds: seq<Device>, cs: seq<Call>, busy: int, d: int, c: int)
    requires Sound(ds, cs, busy)
    ensures 0 <= d < |ds| ==> DeviceIn(ds[d], |cs|) && (d == busy || Ok(ds[d]))
    ensures 0 <= c < |cs| ==> CallIn(cs[c], |ds|)
  {
  }

  lemma DeviceInHere(ds: seq<Device>, cs: seq<Call>, busy: int, d: int)
    requires Sound(ds, cs, busy) && 0 <= d < |ds|
    ensures NONE <= ds[d].active < |cs| && NONE <= ds[d].transferee < |cs| && NONE <= ds[d].transferer < |cs|
    ensures forall c :: NONE < c < |cs| && (d == busy || Ok(ds[d])) ==> d == busy || Ok(ds[d].(active := c))
  {
  }

  lemma SoundDevice(ds: seq<Device>, cs: seq<Call>, busy: int, i: int, d: Device)
    requires Sound(ds, cs, busy) && 0 <= i < |ds| && DeviceIn(d, |cs|) && (i == busy || Ok(d))
    ensures Sound(ds[i := d], cs, busy)
  {
  }

  lemma SoundCall(ds: seq<Device>, cs: seq<Call>, busy: int, i: int, c: Call)
    requires Sound(ds, cs, busy) && 0 <= i < |cs| && CallIn(c, |ds|)
    ensures Sound(ds, cs[i := c], busy)
  {
  }

  lemma SoundBusy(ds: seq<Device>, cs: seq<Call>, i: int, d: Device)
    requires Sound(ds, cs, NONE) && 0 <= i < |ds| && DeviceIn(d, |cs|)
    ensures Sound(ds[i := d], cs, i)
  {
  }

  lemma SoundAgain(ds: seq<Device>, cs: seq<Call>, i: int, d: Device)
    requires Sound(ds, cs, i) && 0 <= i < |ds| && DeviceIn(d, |cs|) && Ok(d)
    ensures Sound(ds[i := d], cs, NONE)
  {
  }

  lemma SoundNewCall(ds: seq<Device>, cs: seq<Call>, busy: int, c: Call)
    requires Sound(ds, cs, busy) && CallIn(c, |ds|)
    ensures Sound(ds, cs + [c], busy)
  {
  }

  /** No device lost a reference. */
  ghost predicate SameLeaks(before: seq<Device>, after: seq<Device>) {
    |after| == |before|
    && forall i :: 0 <= i < |after| ==>
         after[i].leaked == before[i].leaked && after[i].useHookFlash == before[i].useHookFlash
  }

  /** No slot changed. */
  ghost predicate SameSlots(before: seq<Device>, after: seq<Device>) {
    |after| == |before| && forall i :: 0 <= i < |after| ==> after[i] == before[i].(active := after[i].active)
  }

  /** The pair is still there, or was released. */
  predicate Shrunk(before: Device, after: Device) {
    || (after.transferee == before.transferee && after.transferer == before.transferer)
    || (after.transferee == NONE && after.transferer == NONE)
  }

  /** Nothing changed in the slots of the devices but d. */
  ghost predicate OthersKeepSlots(before: seq<Device>, after: seq<Device>, d: int) {
    |after| == |before| && forall i :: 0 <= i < |after| && i != d ==> after[i] == before[i].(active := after[i].active)
  }

  /** Of the devices but d those lost their pair that are on the line and had c in it. */
  ghost predicate LineLoses(before: seq<Device>, after: seq<Device>, line: seq<int>, c: int, d: int) {
    && |after| == |before|
    && forall i :: 0 <= i < |after| && i != d ==>
         (after[i].transferee == NONE <==> before[i].transferee == NONE || (i in line && InSlots(before[i], c)))
  }

  lemma OthersHere(a: seq<Device>, b: seq<Device>, d: int, i: int)
    requires OthersKeepSlots(a, b, d) && 0 <= i < |a| && i != d
    ensures |a| == |b| && b[i] == a[i].(active := b[i].active)
  {
  }

  lemma OthersSelf(a: seq<Device>, d: int)
    ensures OthersKeepSlots(a, a, d)
  {
  }

  lemma OthersStep(a: seq<Device>, d: int, x: Device)
    requires 0 <= d < |a|
    ensures OthersKeepSlots(a, a[d := x], d)
  {
  }

  lemma OthersAreSame(a: seq<Device>, b: seq<Device>, d: int)
    requires SameSlots(a, b)
    ensures OthersKeepSlots(a, b, d)
  {
  }

  lemma OthersJoin(a: seq<Device>, b: seq<Device>, c: seq<Device>, d: int)
    requires OthersKeepSlots(a, b, d) && OthersKeepSlots(b, c, d)
    ensures OthersKeepSlots(a, c, d)
  {
  }

  lemma LineReleases(a: seq<Device>, b: seq<Device>, line: seq<int>, c: int, d: int)
    requires |b| == |a| && forall i :: 0 <= i < |b| ==> b[i] == if i in line then Released(a[i], c) else a[i]
    ensures LineLoses(a, b, line, c, d)
  {
    hide Released, InSlots;
    forall i | 0 <= i < |a| ensures Released(a[i], c).transferee == NONE <==>
      a[i].transferee == NONE || InSlots(a[i], c) {
      ReleasedEmpties(a[i], c);
    }
  }

  lemma LineJoin(a: seq<Device>, b: seq<Device>, x: seq<Device>, y: seq<Device>, line: seq<int>, c: int, d: int)
    requires OthersKeepSlots(a, b, d) && LineLoses(b, x, line, c, d) && OthersKeepSlots(x, y, d)
    ensures LineLoses(a, y, line, c, d)
  {
    forall i | 0 <= i < |a| && i != d
      ensures y[i].transferee == x[i].transferee && b[i].transferee == a[i].transferee
        && InSlots(b[i], c) == InSlots(a[i], c)
    {
      OthersHere(a, b, d, i);
      OthersHere(x, y, d, i);
    }
  }

  /** What the end of a call does to a device that it is not attached to. */
  lemma SlotsElsewhere(a: seq<Device>, b: seq<Device>, call: Call, c: int, i: int, atOnce: bool)
    requires if atOnce && call.hasOwner then LineLoses(a, b, call.lineDevices, c, call.device)
      else OthersKeepSlots(a, b, call.device)
    requires 0 <= i < |a|
    ensures |a| == |b|
    ensures i != call.device ==>
      (b[i].transferee == NONE <==>
        a[i].transferee == NONE || (atOnce && call.hasOwner && i in call.lineDevices && InSlots(a[i], c)))
  {
  }

  lemma LineHere(a: seq<Device>, b: seq<Device>, line: seq<int>, c: int, d: int, i: int)
    requires LineLoses(a, b, line, c, d) && 0 <= i < |a| && i != d
    ensures |a| == |b| && (b[i].transferee == NONE <==> a[i].transferee == NONE || (i in line && InSlots(a[i], c)))
  {
  }

  ghost predicate OnlyReleases(before: seq<Device>, after: seq<Device>) {
    |after| == |before| && forall i :: 0 <= i < |after| ==> Shrunk(before[i], after[i])
  }

  lemma ReleasesHere(a: seq<Device>, b: seq<Device>, i: int)
    requires OnlyReleases(a, b) && 0 <= i < |a|
    ensures |a| == |b| && Shrunk(a[i], b[i])
  {
  }

  lemma SlotsHere(a: seq<Device>, b: seq<Device>, i: int)
    requires SameSlots(a, b) && 0 <= i < |a|
    ensures |a| == |b| && b[i] == a[i].(active := b[i].active)
  {
  }

  lemma LeaksHere(a: seq<Device>, b: seq<Device>, i: int)
    requires SameLeaks(a, b) && 0 <= i < |a|
    ensures |a| == |b| && b[i].leaked == a[i].leaked && b[i].useHookFlash == a[i].useHookFlash
  {
  }

  lemma SlotsAreLeaks(a: seq<Device>, b: seq<Device>)
    requires SameSlots(a, b)
    ensures SameLeaks(a, b) && OnlyReleases(a, b) && |a| == |b|
  {
  }

  lemma LeaksJoin(a: seq<Device>, b: seq<Device>, c: seq<Device>)
    requires SameLeaks(a, b) && SameLeaks(b, c)
    ensures SameLeaks(a, c) && |a| == |c|
    ensures OnlyReleases(a, b) && OnlyReleases(b, c) ==> OnlyReleases(a, c)
  {
  }

  lemma LeaksLength(a: seq<Device>, b: seq<Device>)
    requires SameLeaks(a, b)
    ensures |a| == |b|
  {
  }

  lemma LeaksSelf(a: seq<Device>)
    ensures SameLeaks(a, a) && SameSlots(a, a) && OnlyReleases(a, a)
  {
  }

  lemma LeaksStep(a: seq<Device>, i: int, d: Device)
    requires 0 <= i < |a| && d.leaked == a[i].leaked && d.useHookFlash == a[i].useHookFlash
    ensures SameLeaks(a, a[i := d])
    ensures d == a[i].(active := d.active) ==> SameSlots(a, a[i := d])
    ensures Shrunk(a[i], d) ==> OnlyReleases(a, a[i := d])
  {
  }

  /** Both calls of the pair of device d are there to be joined, and the second one is on d. */
  predicate CanComplete(device: Device, cs: seq<Call>, d: int) {
    && 0 <= device.transferee < |cs| && 0 <= device.transferer < |cs| && cs[device.transferer].device == d
    && cs[device.transferer].state in {RingOut, Connected, Progress} && cs[device.transferer].hasOwner
         && cs[device.transferee].hasOwner
  }

  // ---------------------------------------------------------------- the operations on values

  datatype World = World(devices: seq<Device>, calls: seq<Call>)

  predicate IsCall(w: World, c: int) {
    0 <= c < |w.calls|
  }

  predicate IsDevice(w: World, d: int) {
    0 <= d < |w.devices|
  }

  function WithState(w: World, c: int, state: CallState): World
    requires IsCall(w, c)
  {
    w.(calls := w.calls[c := w.calls[c].(state := state)])
  }

  function WithDevice(w: World, d: int, device: Device): World
    requires IsDevice(w, d)
  {
    w.(devices := w.devices[d := device])
  }

  /** c has no device any more, which forgets its active call, whichever it is. */
  function Detached(w: World, c: int): World
    requires IsCall(w, c)
  {
    var d := w.calls[c].device;
    World(if IsDevice(w, d) then w.devices[d := w.devices[d].(active := NONE)] else w.devices,
          w.calls[c := w.calls[c].(device := NONE)])
  }

  function Attached(w: World, d: int, c: int): World
    requires IsCall(w, c) && IsDevice(w, d)
  {
    World(w.devices[d := w.devices[d].(active := c)], w.calls[c := w.calls[c].(device := d, state := Connected)])
  }

  /** The transferee of d, if there is one besides c, goes on hold without a device, and the pair is
      released. */
  function Cancelled(w: World, d: int, c: int): (v: World)
    requires IsDevice(w, d)
    ensures |v.devices| == |w.devices| && |v.calls| == |w.calls|
  {
    var t := w.devices[d].transferee;
    if !IsCall(w, t) || t == c then w
    else
      var held := Detached(WithState(w, t, OnHold), t);
      WithDevice(held, d, Released(held.devices[d], t))
  }

  /** Of the devices those on the line lose a pair with c. */
  function LineReleased(ds: seq<Device>, line: seq<int>, c: int): (r: seq<Device>)
    ensures |r| == |ds|
  {
    seq(|ds|, i requires 0 <= i < |ds| => if i in line then Released(ds[i], c) else ds[i])
  }

  function Cleaned(w: World, c: int): (v: World)
    requires IsCall(w, c)
    ensures |v.devices| == |w.devices| && |v.calls| == |w.calls|
  {
    var d := w.calls[c].device;
    Detached(if IsDevice(w, d) then WithDevice(w, d, Released(w.devices[d], c)) else w, c)
  }

  /** The transfer of its device is cancelled, and c leaves all slots and its device. */
  function AfterHangUp(w: World, c: int): (v: World)
    requires IsCall(w, c)
    ensures |v.devices| == |w.devices| && |v.calls| == |w.calls|
  {
    var d := w.calls[c].device;
    var u := if IsDevice(w, d) then Cancelled(w, d, c) else w;
    Cleaned(u.(devices := LineReleased(u.devices, u.calls[c].lineDevices, c)), c)
  }

  function Ended(w: World, c: int, atOnce: bool): (v: World)
    requires IsCall(w, c)
    ensures |v.devices| == |w.devices| && |v.calls| == |w.calls|
  {
    var d := w.calls[c].device;
    var u := if IsDevice(w, d) && w.devices[d].transferee != c then Cancelled(w, d, c) else w;
    if u.calls[c].hasOwner && atOnce then AfterHangUp(u, c) else u
  }

  predicate Resumable(s: CallState) {
    s in {OnHold, CallTransfer, CallConference}
  }

  function Reconnected(w: World, d: int, c: int): (v: World)
    requires IsCall(w, c) && IsDevice(w, d)
    ensures |v.devices| == |w.devices| && |v.calls| == |w.calls|
  {
    if !Resumable(w.calls[c].state) then w
    else Attached(if w.devices[d].transferee != c then WithDevice(w, d, Released(w.devices[d], c)) else w, d, c)
  }

  predicate CanHold(call: Call) {
    call.device != NONE && call.state in {Connected, ConnectedConference, Proceed}
  }

  /** A phone without transfer softkeys cancels its transfer by holding the consultation call. */
  predicate Flashes(w: World, c: int)
    requires IsCall(w, c)
  {
    var d := w.calls[c].device;
    IsDevice(w, d) && w.devices[d].useHookFlash && w.devices[d].transferer == c
  }

  /** c goes on hold, or, where that is a hook flash, ends in favour of the transferee. */
  function Held(w: World, c: int, atOnce: bool): (v: World)
    requires IsCall(w, c)
    ensures |v.devices| == |w.devices| && |v.calls| == |w.calls|
  {
    var d := w.calls[c].device;
    if !CanHold(w.calls[c]) then w
    else if !Flashes(w, c) then Detached(WithState(w, c, OnHold), c)
    else
      var t := w.devices[d].transferee;
      if IsCall(w, t) then Reconnected(Ended(w, c, atOnce), d, t) else w
  }

  lemma Refusals(w: World, d: int, c: int, atOnce: bool)
    requires IsCall(w, c) && IsDevice(w, d)
    ensures !CanHold(w.calls[c]) ==> Held(w, c, atOnce) == w
    ensures !Resumable(w.calls[c].state) ==> Reconnected(w, d, c) == w
  {
  }

  predicate Unused(s: CallState) {
    s in {Down, OnHook, OffHook}
  }

  predicate Yields(w: World, d: int, c: int)
    requires IsDevice(w, d)
  {
    var a := w.devices[d].active;
    IsCall(w, a) && a != c ==> Unused(w.calls[a].state) || CanHold(w.calls[a])
  }

  /** The active call makes room for c: an unused one ends, others go on hold. */
  function Aside(w: World, d: int, c: int, atOnce: bool): (v: World)
    requires IsDevice(w, d)
    ensures |v.devices| == |w.devices| && |v.calls| == |w.calls|
  {
    var a := w.devices[d].active;
    if !IsCall(w, a) || a == c then w
    else if Unused(w.calls[a].state) then Ended(w, a, atOnce)
    else Held(w, a, atOnce)
  }

  /** What a resume starts from: the active call aside, if it swaps, and the call itself on hold. */
  function Ready(w: World, d: int, c: int, swap: bool, atOnce: bool): (v: World)
    requires IsCall(w, c) && IsDevice(w, d)
    ensures |v.devices| == |w.devices| && |v.calls| == |w.calls|
  {
    var u := if swap then Aside(w, d, c, atOnce) else w;
    if u.calls[c].state in {Connected, ConnectedConference, Proceed} then Held(u, c, atOnce) else u
  }

  function Resumed(w: World, d: int, c: int, swap: bool, atOnce: bool): (v: World)
    requires IsCall(w, c) && IsDevice(w, d)
    ensures |v.devices| == |w.devices| && |v.calls| == |w.calls|
  {
    if swap && !Yields(w, d, c) then w else Reconnected(Ready(w, d, c, swap, atOnce), d, c)
  }

  /** Both calls are there to be joined. */
  predicate Joinable(w: World, dest: int, bridged: bool)
    requires IsCall(w, dest)
  {
    var d := w.calls[dest].device;
    && bridged && IsDevice(w, d) && w.calls[dest].state in {RingOut, Connected, Progress} && w.calls[dest].hasOwner
    && var t := w.devices[d].transferee; IsCall(w, t) && w.calls[t].hasOwner
  }

  function Completed(w: World, dest: int, bridged: bool): World
    requires IsCall(w, dest)
  {
    var d := w.calls[dest].device;
    if Joinable(w, dest, bridged) then WithDevice(w, d, Released(w.devices[d], w.devices[d].transferee)) else w
  }

  /** The active call is an unused off-hook one. */
  predicate Reuses(w: World, d: int)
    requires IsDevice(w, d)
  {
    var a := w.devices[d].active;
    IsCall(w, a) && w.calls[a].state == OffHook && !w.calls[a].dialed
  }

  /** Any other active call of the device cannot go on hold. */
  predicate Blocks(w: World, d: int)
    requires IsDevice(w, d)
  {
    var a := w.devices[d].active;
    IsCall(w, a) && w.calls[a].device == d && !CanHold(w.calls[a])
  }

  /** Whether a new call fails, what of the device's calls it holds, and what it adds. */
  function MadeRoom(w: World, d: int, atOnce: bool): (v: World)
    requires IsDevice(w, d)
    ensures |v.devices| == |w.devices| && |v.calls| == |w.calls|
  {
    var a := w.devices[d].active;
    if IsCall(w, a) && w.calls[a].device == d then Held(w, a, atOnce) else w
  }

  function Allocated(w: World, line: seq<int>, d: int, hasOwner: bool): World
    requires IsDevice(w, d)
  {
    World(w.devices[d := w.devices[d].(active := |w.calls|)], w.calls + [Call(Down, false, hasOwner, d, line)])
  }

  /** The call that a device gets for a new call, or NONE. */
  function NewIndex(w: World, d: int, allowed: bool): int
    requires IsDevice(w, d)
  {
    if Reuses(w, d) then w.devices[d].active else if Blocks(w, d) || !allowed then NONE else |w.calls|
  }

  function WithNewCall(w: World, line: seq<int>, d: int, allowed: bool, atOnce: bool, leftBehind: bool): World
    requires IsDevice(w, d)
  {
    if Reuses(w, d) || Blocks(w, d) then w
    else
      var u := MadeRoom(w, d, atOnce);
      if allowed || leftBehind then Allocated(u, line, d, allowed) else u
  }

  function WithNewCallOffHook(w: World, line: seq<int>, d: int, allowed: bool, atOnce: bool,
    leftBehind: bool): (v: World)
    requires IsDevice(w, d)
  {
    var c := NewIndex(w, d, allowed);
    var v := WithNewCall(w, line, d, allowed, atOnce, leftBehind);
    if IsCall(v, c) then WithState(v, c, OffHook) else v
  }

  /** The first half of a transfer request: which device it is for, or NONE. */
  function TransferDevice(w: World, c: int, device: int): (d: int)
    requires IsCall(w, c) && IsDevice(w, device)
  {
    if w.calls[c].device != NONE then w.calls[c].device
    else if c == w.devices[device].transferee && w.devices[device].transferer != NONE then device
    else if w.calls[c].state == OnHold && |w.calls[c].lineDevices| == 1 then device
    else NONE
  }

  /** A call that is attached is transferred on its device; of the others the device that asks can
      transfer exactly the transferee of its own pair, and held calls of lines that no other device has. */
  lemma TransferDeviceIs(w: World, c: int, device: int)
    requires IsCall(w, c) && IsDevice(w, device)
    ensures w.calls[c].device != NONE ==> TransferDevice(w, c, device) == w.calls[c].device
    ensures w.calls[c].device == NONE ==> TransferDevice(w, c, device) in {NONE, device}
    ensures w.calls[c].device == NONE ==>
      (TransferDevice(w, c, device) == device <==>
        || (w.devices[device].transferer != NONE && w.devices[device].transferee == c)
        || (w.calls[c].state == OnHold && |w.calls[c].lineDevices| == 1))
  {
  }

  /** c in the transferee slot. */
  function Begun(w: World, d: int, c: int): World
    requires IsDevice(w, d)
  {
    WithDevice(w, d, w.devices[d].(transferee := c, owned := w.devices[d].owned + multiset{c}))
  }

  /** ... and out of it again. */
  function Abandoned(w: World, d: int): World
    requires IsDevice(w, d)
  {
    WithDevice(w, d, w.devices[d].(transferee := NONE, owned := w.devices[d].owned - multiset{w.devices[d].transferee}))
  }

  /** The second slot is filled by a new call, if there is one and the first call has a peer. */
  function Paired(w: World, d: int, c: int, newCallAllowed: bool, bridged: bool, leftBehind: bool): World
    requires IsDevice(w, d) && IsCall(w, c)
  {
    var u := WithState(w, c, CallTransfer);
    var x := NewIndex(u, d, newCallAllowed);
    var v := WithNewCallOffHook(u, w.calls[c].lineDevices, d, newCallAllowed, false, leftBehind);
    if !IsDevice(v, d) || !IsCall(v, c) then v
    else if x != NONE && bridged then
      WithDevice(v, d, v.devices[d].(transferer := x, owned := v.devices[d].owned + multiset{x}))
    else Abandoned(WithState(v, c, Congestion), d)
  }

  function SetUp(w: World, d: int, c: int, newCallAllowed: bool, bridged: bool, leftBehind: bool): World
    requires IsDevice(w, d) && IsCall(w, c)
  {
    var still := w.calls[c].state in {OffHook, OnHold, CallTransfer};
    if !still && !CanHold(w.calls[c]) then Abandoned(w, d)
    else
      var u := if still then w else Held(w, c, false);
      if u.calls[c].hasOwner then Paired(u, d, c, newCallAllowed, bridged, leftBehind)
      else Abandoned(WithState(u, c, w.calls[c].state), d)
  }

  function Requested(w: World, c: int, device: int, allowed: bool, newCallAllowed: bool, bridged: bool,
    leftBehind: bool): World
    requires IsCall(w, c) && IsDevice(w, device)
  {
    var d := TransferDevice(w, c, device);
    if !IsDevice(w, d) || !allowed then w
    else if IsCall(w, w.devices[d].transferee) && IsCall(w, w.devices[d].transferer) then
      Completed(w, w.devices[d].transferer, bridged)
    else SetUp(Begun(w, d, c), d, c, newCallAllowed, bridged, leftBehind)
  }

  /** What a transfer request of c for device d promises: nothing where it is refused; the second press
      releases a pair that can be completed; the first sets the pair up whenever the call can be held, or
      is no obstacle to the consultation call, and has an Asterisk channel with a peer. */
  ghost predicate RequestPromise(w: World, v: World, c: int, d: int, allowed: bool, newCallAllowed: bool, bridged: bool)
    requires IsCall(w, c) && |v.calls| >= |w.calls| && |v.devices| == |w.devices|
  {
    if !IsDevice(w, d) || !allowed then v == w
    else if w.devices[d].transferee != NONE then
      && v.calls == w.calls && (!bridged ==> v.devices == w.devices)
      && (bridged && CanComplete(w.devices[d], w.calls, d) ==>
           v.devices[d].transferee == NONE && v.devices[d].owned == v.devices[d].leaked)
    else
      var call, device := w.calls[c], v.devices[d];
      var fits := (call.device == d && CanHold(call))
        || (w.devices[d].active == NONE && call.state in {OffHook, OnHold, CallTransfer});
      && device.transferee in {NONE, c}
      && (device.transferee == c ==>
           IsCall(v, device.transferer) && v.calls[device.transferer].state == OffHook
             && v.calls[c].state == CallTransfer)
      && (!bridged || !call.hasOwner ==> device.transferee == NONE)
      && (newCallAllowed && bridged && call.hasOwner && fits ==>
           device.transferee == c && device.transferer == |w.calls|)
  }

  /** Two calls over whatever was in the slots. */
  function Overwritten(w: World, d: int, first: int, second: int): World
    requires IsDevice(w, d)
  {
    var device := w.devices[d];
    WithDevice(w, d, device.(transferee := first, transferer := second,
                             owned := device.owned + multiset{first} + multiset{second},
                             leaked := device.leaked + Slots(device)))
  }

  function DirectlyTransferred(w: World, d: int, first: int, second: int, bridged: bool, atOnce: bool): World
    requires IsDevice(w, d) && IsCall(w, first) && IsCall(w, second)
  {
    if w.calls[second].state != Connected && w.calls[first].state == Connected then
      Completed(Overwritten(w, d, second, first), first, bridged)
    else if w.calls[first].state == OnHold && w.calls[second].state == OnHold && w.calls[second].hasOwner then
      Completed(Overwritten(Resumed(w, d, second, true, atOnce), d, first, second), second, bridged)
    else Completed(Overwritten(w, d, first, second), second, bridged)
  }

  // ---------------------------------------------------------------- what they come to

  /** The device without its pair, and with this active call. */
  function Emptied(d: Device, active: int): (e: Device)
    ensures e.active == active && e.transferee == NONE && e.transferer == NONE
  {
    d.(transferee := NONE, transferer := NONE, active := active,
       owned := d.owned - One(d.transferee) - One(d.transferer))
  }

  lemma ReleasedEmptied(d: Device, c: int)
    requires Ok(d)
    ensures Released(d, c) == if InSlots(d, c) then Emptied(d, d.active) else d
    ensures d.transferee == NONE ==> Emptied(d, d.active) == d
    ensures !InSlots(Released(d, c), c)
  {
    assert d.owned - multiset{} - multiset{} == d.owned;
  }

  /** The call whose transfer a hangup of c cancels, or NONE. */
  function CancelledBy(w: World, c: int): int
    requires IsCall(w, c)
  {
    var d := w.calls[c].device;
    if IsDevice(w, d) && w.devices[d].transferee != c then w.devices[d].transferee else NONE
  }

  lemma CancelEffect(w: World, d: int, c: int)
    requires Sound(w.devices, w.calls, NONE) && IsDevice(w, d) && IsCall(w, c)
    ensures var v, t := Cancelled(w, d, c), w.devices[d].transferee;
      && (t in {NONE, c} ==> v == w)
      && (t !in {NONE, c} ==>
           && IsCall(w, t) && v.calls == w.calls[t := w.calls[t].(state := OnHold, device := NONE)]
           && forall i :: 0 <= i < |w.devices| ==>
                var active := if i == w.calls[t].device then NONE else w.devices[i].active;
                v.devices[i] == if i == d then Emptied(w.devices[d], active) else w.devices[i].(active := active))
  {
    hide Sound, Released, Ok, Emptied;
    SoundHere(w.devices, w.calls, NONE, d, c);
    var t := w.devices[d].transferee;
    SoundHere(w.devices, w.calls, NONE, d, t);
    if t !in {NONE, c} {
      ReleasedWith(w.devices[d], t, if w.calls[t].device == d then NONE else w.devices[d].active);
    }
  }

  lemma ReleasedWith(d: Device, t: int, active: int)
    requires d.transferee == t != NONE
    ensures Released(d.(active := active), t) == Emptied(d, active)
    ensures d.(active := d.active) == d
  {
  }

  /** A hangup of c: whichever pair is on its device is gone, and so is each pair on its line that has c;
      its device, and that of the transferee, which goes on hold, have no active call; c has no device. */
  lemma HangUpEffect(w: World, c: int)
    requires Sound(w.devices, w.calls, NONE) && IsCall(w, c)
    ensures var v, d, t := AfterHangUp(w, c), w.calls[c].device, CancelledBy(w, c);
      && NONE <= t < |w.calls|
      && (t == NONE ==> v.calls == w.calls[c := w.calls[c].(device := NONE)])
      && (t != NONE ==>
           v.calls == w.calls[t := w.calls[t].(state := OnHold, device := NONE)][c := w.calls[c].(device := NONE)])
      && forall i :: 0 <= i < |w.devices| ==>
           var active := if i == d || (t != NONE && i == w.calls[t].device) then NONE else w.devices[i].active;
           var gone := i == d || (i in w.calls[c].lineDevices && InSlots(w.devices[i], c));
           v.devices[i] == if gone then Emptied(w.devices[i], active) else w.devices[i].(active := active)
  {
    hide Sound, Cancelled, Released, Emptied;
    var d := w.calls[c].device;
    SoundHere(w.devices, w.calls, NONE, d, c);
    if d != NONE {
      CancelEffect(w, d, c);
    }
    var t := CancelledBy(w, c);
    var u := if d != NONE then Cancelled(w, d, c) else w;
    assert u.calls[c] == w.calls[c];
    forall i | 0 <= i < |w.devices|
      ensures var active := if i == d || (t != NONE && i == w.calls[t].device) then NONE else w.devices[i].active;
              var gone := i == d || (i in w.calls[c].lineDevices && InSlots(w.devices[i], c));
              AfterHangUp(w, c).devices[i] ==
                if gone then Emptied(w.devices[i], active) else w.devices[i].(active := active)
    {
      SoundHere(w.devices, w.calls, NONE, i, c);
      HungUpAt(w, c, i);
      DeviceAfterHangUp(w.devices[i], u.devices[i].active, c, i == d && t != NONE, i in w.calls[c].lineDevices, i == d);
    }
  }

  lemma HungUpAt(w: World, c: int, i: int)
    requires IsCall(w, c) && IsDevice(w, i)
    requires var d := w.calls[c].device; IsDevice(w, d) ==> Cancelled(w, d, c).calls[c] == w.calls[c]
    ensures var d := w.calls[c].device;
      var u := if IsDevice(w, d) then Cancelled(w, d, c) else w;
      var l := if i in w.calls[c].lineDevices then Released(u.devices[i], c) else u.devices[i];
      AfterHangUp(w, c).devices[i] == if i == d then Released(l, c).(active := NONE) else l
  {
    hide Released, Cancelled;
  }

  /** One device in the course of a hangup: cancelled or not, then on the line, then cleaned. */
  lemma DeviceAfterHangUp(d: Device, active: int, c: int, cancelled: bool, onLine: bool, cleaned: bool)
    requires Ok(d) && (cleaned && !cancelled ==> d.transferee in {NONE, c}) && (cancelled ==> cleaned) && c != NONE
    ensures var u := if cancelled then Emptied(d, active) else d.(active := active);
      var l := if onLine then Released(u, c) else u;
      var r := if cleaned then Released(l, c).(active := NONE) else l;
      var gone := cleaned || (onLine && InSlots(d, c));
      var last := if cleaned then NONE else active;
      r == if gone then Emptied(d, last) else d.(active := last)
  {
    assert d.owned - multiset{} - multiset{} == d.owned;
  }

  /** An end that Asterisk carries out at once is a hangup; otherwise it cancels the transfer of another
      call on its device, and nothing more. */
  lemma EndEffect(w: World, c: int, atOnce: bool)
    requires Sound(w.devices, w.calls, NONE) && IsCall(w, c)
    ensures var d := w.calls[c].device;
      if atOnce && w.calls[c].hasOwner then Ended(w, c, atOnce) == AfterHangUp(w, c)
      else Ended(w, c, atOnce) == if IsDevice(w, d) then Cancelled(w, d, c) else w
  {
    hide Sound, Released;
    var d := w.calls[c].device;
    SoundHere(w.devices, w.calls, NONE, d, c);
    if d != NONE {
      CancelEffect(w, d, c);
      CancelTwice(w, d, c);
    }
  }

  lemma CancelTwice(w: World, d: int, c: int)
    requires Sound(w.devices, w.calls, NONE) && IsDevice(w, d) && IsCall(w, c)
    ensures Cancelled(Cancelled(w, d, c), d, c) == Cancelled(w, d, c)
    ensures w.devices[d].transferee == c ==> Cancelled(w, d, c) == w
  {
    hide Sound, Released;
    CancelEffect(w, d, c);
  }

  /** A swapping resume of a held call puts a talking active call on hold, without a device, and gives its
      device to the held call; nothing happens to any other call. */
  lemma SwapEffect(w: World, d: int, c: int, atOnce: bool)
    requires IsDevice(w, d) && IsCall(w, c) && w.calls[c].state == OnHold
    requires var a := w.devices[d].active; IsCall(w, a) && a != c && CanHold(w.calls[a]) && !Flashes(w, a)
    ensures var v, a := Resumed(w, d, c, true, atOnce), w.devices[d].active;
      && v.calls == w.calls[a := w.calls[a].(state := OnHold, device := NONE)]
                           [c := w.calls[c].(state := Connected, device := d)]
      && v.devices[d].active == c && Yields(w, d, c)
      && forall i :: 0 <= i < |w.devices| && i != d ==>
           v.devices[i] == w.devices[i].(active := if i == w.calls[a].device then NONE else w.devices[i].active)
  {
    hide Released;
  }

  /** A hook flash: the transferee talks on the device again, which has no pair any more. */
  lemma FlashEffect(w: World, c: int, atOnce: bool)
    requires Sound(w.devices, w.calls, NONE) && IsCall(w, c) && CanHold(w.calls[c]) && Flashes(w, c)
    ensures var d := w.calls[c].device;
      var t, v := w.devices[d].transferee, Held(w, c, atOnce);
      && IsCall(w, t) && t != c && v.calls[t] == w.calls[t].(state := Connected, device := d)
      && v.devices[d] == Emptied(w.devices[d], t)
      && v.calls[c] == (if atOnce && w.calls[c].hasOwner then w.calls[c].(device := NONE) else w.calls[c])
      && forall i :: 0 <= i < |w.calls| && i != c && i != t ==> v.calls[i] == w.calls[i]
  {
    hide Sound, Cancelled, AfterHangUp, Ended;
    var d := w.calls[c].device;
    SoundHere(w.devices, w.calls, NONE, d, c);
    OkPairs(w.devices[d]);
    EndEffect(w, c, atOnce);
    HangUpEffect(w, c);
    CancelEffect(w, d, c);
    assert w.devices[d].owned - One(w.devices[d].transferee) - One(w.devices[d].transferer) == w.devices[d].leaked by {
      ReleasedIsOk(w.devices[d], c);
    }
  }
}
