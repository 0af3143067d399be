/** Hold and resume on values: calls, active calls and held counters, what each operation makes of
    them, and what is kept (sccp_channel.c, sccp_line.c, sccp_pbx.c, sccp_device.c). */
module HoldWorld {

  /** Calls, devices and lines are known by their place in the lists of the office; NONE is NULL. */
  const NONE: int := -1

  datatype CallState =
    | Down | OnHook | OffHook | Dialing | RingOut | Ringing | Proceed | Connected | ConnectedConference | OnHold | Other

  /** listed: the call is in the channel list of its line, and has an Asterisk channel; answering: a
      device has begun to answer it; ending: isHangingUp. */
  datatype Call = Call(line: int, listed: bool, state: CallState, dialed: bool, answering: bool, ending: bool,
    device: int)

  predicate Talks(s: CallState) {
    s in {Connected, ConnectedConference, Proceed}
  }

  // ---------------------------------------------------------------- counting held calls

  predicate IsHeld(c: Call, line: int) {
    c.listed && c.line == line && c.state == OnHold
  }

  function Bit(b: bool): nat {
    if b then 1 else 0
  }

  /** How many of the calls listed on the line are on hold. */
  function HeldOn(cs: seq<Call>, line: int): nat
    decreases |cs|
  {
    if cs == [] then 0 else HeldOn(cs[..|cs| - 1], line) + Bit(IsHeld(cs[|cs| - 1], line))
  }

  lemma {:induction false} HeldAfterUpdate(cs: seq<Call>, i: nat, c: Call, line: int)
    requires i < |cs|
    ensures HeldOn(cs[i := c], line) == HeldOn(cs, line) - Bit(IsHeld(cs[i], line)) + Bit(IsHeld(c, line))
    decreases |cs|
  {
    hide IsHeld;
    var n := |cs| - 1;
    if i == n {
      assert cs[i := c][..n] == cs[..n];
    } else {
      HeldAfterUpdate(cs[..n], i, c, line);
      assert cs[i := c][..n] == cs[..n][i := c];
    }
  }

  lemma HeldAfterNew(cs: seq<Call>, c: Call, line: int)
    ensures HeldOn(cs + [c], line) == HeldOn(cs, line) + Bit(IsHeld(c, line))
  {
    assert (cs + [c])[..|cs|] == cs;
  }

  /** The counters, which are bytes, are the numbers of held calls. */
  ghost predicate Counted(cs: seq<Call>, counters: seq<nat>) {
    forall l :: 0 <= l < |counters| ==> counters[l] == HeldOn(cs, l) % 256
  }

  lemma CountedUpdate(cs: seq<Call>, counters: seq<nat>, i: nat, c: Call)
    requires i < |cs| && Counted(cs, counters) && c.line == cs[i].line && 0 <= c.line < |counters|
    ensures IsHeld(c, c.line) == IsHeld(cs[i], c.line) ==> Counted(cs[i := c], counters)
    ensures IsHeld(c, c.line) && !IsHeld(cs[i], c.line) ==>
      Counted(cs[i := c], counters[c.line := (counters[c.line] + 1) % 256])
    ensures !IsHeld(c, c.line) && IsHeld(cs[i], c.line) ==>
      Counted(cs[i := c], counters[c.line := (counters[c.line] + 255) % 256])
  {
    hide HeldOn, IsHeld;
    forall l | 0 <= l < |counters|
      ensures HeldOn(cs[i := c], l) == HeldOn(cs, l) - Bit(IsHeld(cs[i], l)) + Bit(IsHeld(c, l))
      ensures l != c.line ==> !IsHeld(c, l) && !IsHeld(cs[i], l)
      ensures l != c.line ==> HeldOn(cs[i := c], l) == HeldOn(cs, l)
    {
      HeldAfterUpdate(cs, i, c, l);
      HeldOnItsLine(c, l);
      HeldOnItsLine(cs[i], l);
    }
    CounterStep(HeldOn(cs, c.line));
  }

  lemma HeldOnItsLine(c: Call, line: int)
    ensures IsHeld(c, line) ==> line == c.line
  {
  }

  lemma CounterStep(n: nat)
    ensures (n % 256 + 1) % 256 == (n + 1) % 256
    ensures n > 0 ==> (n % 256 + 255) % 256 == (n - 1) % 256
  {
  }

  lemma CountedNew(cs: seq<Call>, counters: seq<nat>, c: Call)
    requires Counted(cs, counters) && c.state != OnHold
    ensures Counted(cs + [c], counters)
  {
    forall l | 0 <= l < |counters| ensures HeldOn(cs + [c], l) == HeldOn(cs, l) {
      HeldAfterNew(cs, c, l);
    }
  }

  // ---------------------------------------------------------------- devices and calls

  /** actives: the active channel of each device, which is attached to it. */
  ghost predicate Shaped(cs: seq<Call>, actives: seq<int>, lines: nat) {
    && (forall i :: 0 <= i < |cs| ==> CallShaped(cs[i], |actives|, lines))
    && (forall d :: 0 <= d < |actives| ==>
         NONE <= actives[d] < |cs| && (actives[d] != NONE ==> cs[actives[d]].device == d))
  }

  /** A held call has no device, and neither has one that left its line or that nobody answered. */
  predicate CallShaped(c: Call, devices: nat, lines: nat) {
    && NONE <= c.device < devices && 0 <= c.line < lines
    && (c.state == OnHold || !c.listed || (c.state == Ringing && !c.answering) ==> c.device == NONE)
  }

  predicate TalksOn(c: Call, d: int) {
    Talks(c.state) && c.device == d
  }

  /** Every talking call is the active call of its device. */
  ghost predicate TalkersActive(cs: seq<Call>, actives: seq<int>) {
    forall i :: 0 <= i < |cs| && Talks(cs[i].state) && 0 <= cs[i].device < |actives| ==> actives[cs[i].device] == i
  }

  /** So a device has at most one talking call. */
  lemma OneTalker(cs: seq<Call>, actives: seq<int>, d: int, i: int, j: int)
    requires TalkersActive(cs, actives) && 0 <= d < |actives|
    requires 0 <= i < |cs| && 0 <= j < |cs| && TalksOn(cs[i], d) && TalksOn(cs[j], d)
    ensures i == j == actives[d]
  {
  }

  lemma ShapedHere(cs: seq<Call>, actives: seq<int>, lines: nat, c: int, d: int)
    requires Shaped(cs, actives, lines)
    ensures 0 <= c < |cs| ==> CallShaped(cs[c], |actives|, lines)
    ensures 0 <= d < |actives| ==> NONE <= actives[d] < |cs| && (actives[d] != NONE ==> cs[actives[d]].device == d)
  {
  }

  /** c, detached from its device, which forgets its active call. */
  lemma ShapedDetached(cs: seq<Call>, actives: seq<int>, lines: nat, c: int, call: Call)
    requires Shaped(cs, actives, lines) && 0 <= c < |cs| && CallShaped(call, |actives|, lines) && call.device == NONE
    ensures var d := cs[c].device;
      && NONE <= d < |actives|
      && (d == NONE ==> Shaped(cs[c := call], actives, lines))
      && (d != NONE ==> Shaped(cs[c := call], actives[d := NONE], lines))
  {
  }

  lemma ShapedAttached(cs: seq<Call>, actives: seq<int>, lines: nat, c: int, call: Call)
    requires Shaped(cs, actives, lines) && 0 <= c < |cs| && cs[c].device == NONE
    requires CallShaped(call, |actives|, lines) && call.device != NONE
    ensures Shaped(cs[c := call], actives[call.device := c], lines)
  {
  }

  lemma ShapedChanged(cs: seq<Call>, actives: seq<int>, lines: nat, c: int, call: Call)
    requires Shaped(cs, actives, lines) && 0 <= c < |cs| && CallShaped(call, |actives|, lines)
      && call.device == cs[c].device
    ensures Shaped(cs[c := call], actives, lines)
  {
  }

  lemma OrderlyChanged(cs: seq<Call>, actives: seq<int>, c: int, call: Call)
    requires 0 <= c < |cs| && call.device == cs[c].device && call.state == cs[c].state
    ensures TalkersActive(cs[c := call], actives) <==> TalkersActive(cs, actives)
  {
    assert forall i :: 0 <= i < |cs| ==>
      cs[c := call][i].state == cs[i].state && cs[c := call][i].device == cs[i].device;
  }

  /** Detaching a call keeps every talking call active exactly when none but c was active. */
  lemma OrderlyDetached(cs: seq<Call>, actives: seq<int>, lines: nat, c: int, call: Call)
    requires Shaped(cs, actives, lines) && 0 <= c < |cs| && call.device == NONE && TalkersActive(cs, actives)
    ensures var d := cs[c].device;
      && NONE <= d < |actives|
      && (d == NONE ==> TalkersActive(cs[c := call], actives))
      && (d != NONE ==>
           NONE <= actives[d] < |cs| &&
           (TalkersActive(cs[c := call], actives[d := NONE]) <==>
             actives[d] == NONE || actives[d] == c || !TalksOn(cs[actives[d]], d)))
  {
    var d := cs[c].device;
    if d != NONE && actives[d] != NONE && actives[d] != c && TalksOn(cs[actives[d]], d) {
      assert cs[c := call][actives[d]] == cs[actives[d]];
    }
  }

  lemma OrderlyAttached(cs: seq<Call>, actives: seq<int>, c: int, call: Call)
    requires TalkersActive(cs, actives) && 0 <= c < |cs| && 0 <= call.device < |actives|
    requires forall i :: 0 <= i < |cs| && i != c ==> !TalksOn(cs[i], call.device)
    ensures TalkersActive(cs[c := call], actives[call.device := c])
  {
  }

  lemma OrderlyAdded(cs: seq<Call>, actives: seq<int>, d: int, call: Call)
    requires TalkersActive(cs, actives) && 0 <= d < |actives| && actives[d] == NONE && !Talks(call.state)
    ensures TalkersActive(cs + [call], actives[d := |cs|])
  {
  }

  lemma ActiveIfTalks(cs: seq<Call>, actives: seq<int>, c: int)
    requires TalkersActive(cs, actives) && 0 <= c < |cs| && Talks(cs[c].state) && 0 <= cs[c].device < |actives|
    ensures actives[cs[c].device] == c
  {
  }

  lemma NobodyElseTalks(cs: seq<Call>, actives: seq<int>, c: int, d: int)
    requires TalkersActive(cs, actives) && 0 <= d < |actives| && actives[d] in {NONE, c}
    ensures forall i :: 0 <= i < |cs| && i != c ==> !TalksOn(cs[i], d)
  {
  }

  // ---------------------------------------------------------------- the operations on values

  /** held: the counter of each line. */
  datatype World = World(calls: seq<Call>, actives: seq<int>, held: seq<nat>)

  /** No calls. */
  function Quiet(devices: nat, lines: nat): World {
    World([], seq(devices, _ => NONE), seq(lines, _ => 0))
  }

  ghost predicate Good(w: World) {
    Shaped(w.calls, w.actives, |w.held|) && Counted(w.calls, w.held)
  }

  function SetActive(actives: seq<int>, d: int, c: int): (r: seq<int>)
    ensures |r| == |actives|
  {
    if 0 <= d < |actives| then actives[d := c] else actives
  }

  /** The counters after one call of a line became another. */
  function Recounted(held: seq<nat>, before: Call, after: Call): (r: seq<nat>)
    ensures |r| == |held|
  {
    var l := before.line;
    if !(0 <= l < |held|) || IsHeld(before, l) == IsHeld(after, l) then held
    else held[l := (held[l] + if IsHeld(after, l) then 1 else 255) % 256]
  }

  /** c becomes call; its device forgets its active call. */
  function Detach(w: World, c: nat, call: Call): World
    requires c < |w.calls|
  {
    World(w.calls[c := call], SetActive(w.actives, w.calls[c].device, NONE), Recounted(w.held, w.calls[c], call))
  }

  /** c becomes call, the active one of its device. */
  function Attach(w: World, c: nat, call: Call): World
    requires c < |w.calls|
  {
    World(w.calls[c := call], SetActive(w.actives, call.device, c), Recounted(w.held, w.calls[c], call))
  }

  /** c becomes call where it is. */
  function Change(w: World, c: nat, call: Call): World
    requires c < |w.calls|
  {
    World(w.calls[c := call], w.actives, Recounted(w.held, w.calls[c], call))
  }

  function Added(w: World, call: Call): (r: World)
    ensures |r.actives| == |w.actives| && |r.held| == |w.held|
  {
    World(w.calls + [call], SetActive(w.actives, call.device, |w.calls|), w.held)
  }

  predicate CanHold(call: Call) {
    call.device != NONE && Talks(call.state)
  }

  function TryHold(w: World, c: nat): (r: World)
    requires c < |w.calls|
    ensures |r.calls| == |w.calls| && |r.actives| == |w.actives| && |r.held| == |w.held|
  {
    if CanHold(w.calls[c]) then Detach(w, c, w.calls[c].(state := OnHold, device := NONE)) else w
  }

  /** A call that is hung up: off its line and device, and down if some device hears of it. */
  function Gone(call: Call, someDevice: bool): Call {
    call.(listed := false, ending := true, device := NONE,
          state := if (call.device != NONE || someDevice) && call.state != OnHook then Down else call.state)
  }

  function AfterHangUp(w: World, c: nat, someDevice: bool): (r: World)
    requires c < |w.calls|
    ensures |r.calls| == |w.calls| && |r.actives| == |w.actives| && |r.held| == |w.held|
  {
    Detach(w, c, Gone(w.calls[c], someDevice))
  }

  function Ended(w: World, c: nat, atOnce: bool, someDevice: bool): (r: World)
    requires c < |w.calls|
    ensures |r.calls| == |w.calls| && |r.actives| == |w.actives| && |r.held| == |w.held|
  {
    var v := Change(w, c, w.calls[c].(ending := true));
    if atOnce then AfterHangUp(v, c, someDevice) else v
  }

  function FreshCall(line: int, d: int): Call {
    Call(line, true, if d == NONE then Ringing else OffHook, false, false, false, d)
  }

  function AfterNewCall(w: World, line: int, d: nat): (r: World)
    requires d < |w.actives|
    ensures |r.actives| == |w.actives| && |r.held| == |w.held|
  {
    var a := w.actives[d];
    if !(0 <= a < |w.calls|) then Added(w, FreshCall(line, d))
    else if w.calls[a].state == OffHook && !w.calls[a].dialed then w
    else if w.calls[a].device == d && !CanHold(w.calls[a]) then w
    else Added(if w.calls[a].device == d then TryHold(w, a) else w, FreshCall(line, d))
  }

  function Answered(w: World, c: nat, d: nat): (r: World)
    requires c < |w.calls| && d < |w.actives|
    ensures |r.calls| == |w.calls| && |r.actives| == |w.actives| && |r.held| == |w.held|
  {
    var a := w.actives[d];
    var other := 0 <= a < |w.calls| && a != c;
    if other && !CanHold(w.calls[a]) then w
    else
      var v := if other then TryHold(w, a) else w;
      if v.calls[c].state != Ringing || !v.calls[c].listed || v.calls[c].answering then v
      else Attach(v, c, v.calls[c].(answering := true, device := d))
  }

  predicate Unused(s: CallState) {
    s in {Down, OnHook, OffHook}
  }

  predicate StepsAside(w: World, d: nat, c: nat)
    requires d < |w.actives|
  {
    var a := w.actives[d];
    0 <= a < |w.calls| && a != c ==> Unused(w.calls[a].state) || CanHold(w.calls[a])
  }

  /** The active call is attached, so a device hears of it if it is hung up. */
  function Aside(w: World, d: nat, c: nat, atOnce: bool): (r: World)
    requires d < |w.actives|
    ensures |r.calls| == |w.calls| && |r.actives| == |w.actives| && |r.held| == |w.held|
  {
    var a := w.actives[d];
    if !(0 <= a < |w.calls|) || a == c then w
    else if Unused(w.calls[a].state) then Ended(w, a, atOnce, true)
    else TryHold(w, a)
  }

  /** What a resume starts from: the active call aside, if it swaps, and the call itself on hold. */
  function Cleared(w: World, d: nat, c: nat, swap: bool, atOnce: bool): (r: World)
    requires c < |w.calls| && d < |w.actives|
    ensures |r.calls| == |w.calls| && |r.actives| == |w.actives| && |r.held| == |w.held|
  {
    TryHold(if swap then Aside(w, d, c, atOnce) else w, c)
  }

  function Resumed(w: World, d: nat, c: nat, swap: bool, atOnce: bool): (r: World)
    requires c < |w.calls| && d < |w.actives|
    ensures |r.calls| == |w.calls| && |r.actives| == |w.actives| && |r.held| == |w.held|
  {
    if !w.calls[c].listed || (swap && !StepsAside(w, d, c)) then w
    else
      var v := Cleared(w, d, c, swap, atOnce);
      if v.calls[c].state != OnHold then v else Attach(v, c, v.calls[c].(device := d, state := Connected))
  }

  // What the primitives keep.

  lemma CountedRecounted(w: World, c: nat, call: Call)
    requires Good(w) && c < |w.calls| && call.line == w.calls[c].line
    ensures Counted(w.calls[c := call], Recounted(w.held, w.calls[c], call))
  {
    hide Counted;
    ShapedHere(w.calls, w.actives, |w.held|, c, NONE);
    CountedUpdate(w.calls, w.held, c, call);
  }

  lemma DetachIsGood(w: World, c: nat, call: Call)
    requires Good(w) && c < |w.calls| && call.line == w.calls[c].line && call.device == NONE
    ensures Good(Detach(w, c, call))
  {
    hide Counted, Shaped;
    CountedRecounted(w, c, call);
    ShapedHere(w.calls, w.actives, |w.held|, c, NONE);
    ShapedDetached(w.calls, w.actives, |w.held|, c, call);
  }

  lemma AttachIsGood(w: World, c: nat, call: Call)
    requires Good(w) && c < |w.calls| && call.line == w.calls[c].line && w.calls[c].device == NONE
    requires CallShaped(call, |w.actives|, |w.held|) && call.device != NONE
    ensures Good(Attach(w, c, call))
  {
    hide Counted, Shaped;
    CountedRecounted(w, c, call);
    ShapedAttached(w.calls, w.actives, |w.held|, c, call);
  }

  lemma ChangeIsGood(w: World, c: nat, call: Call)
    requires Good(w) && c < |w.calls| && call.line == w.calls[c].line && call.device == w.calls[c].device
    requires CallShaped(call, |w.actives|, |w.held|)
    ensures Good(Change(w, c, call))
  {
    hide Counted, Shaped;
    CountedRecounted(w, c, call);
    ShapedChanged(w.calls, w.actives, |w.held|, c, call);
  }

  lemma AddedIsGood(w: World, line: nat, d: int)
    requires Good(w) && line < |w.held| && NONE <= d < |w.actives|
    ensures Good(Added(w, FreshCall(line, d)))
  {
    hide Counted;
    CountedNew(w.calls, w.held, FreshCall(line, d));
  }

  lemma TryHoldIsGood(w: World, c: nat)
    requires Good(w) && c < |w.calls|
    ensures Good(TryHold(w, c))
  {
    hide Good, Detach;
    DetachIsGood(w, c, w.calls[c].(state := OnHold, device := NONE));
  }

  lemma AfterHangUpIsGood(w: World, c: nat, someDevice: bool)
    requires Good(w) && c < |w.calls|
    ensures Good(AfterHangUp(w, c, someDevice))
  {
    hide Good, Detach;
    DetachIsGood(w, c, Gone(w.calls[c], someDevice));
  }

  lemma EndedIsGood(w: World, c: nat, atOnce: bool, someDevice: bool)
    requires Good(w) && c < |w.calls|
    ensures Good(Ended(w, c, atOnce, someDevice))
  {
    hide Counted, Shaped, AfterHangUp;
    ShapedHere(w.calls, w.actives, |w.held|, c, NONE);
    var ending := w.calls[c].(ending := true);
    ChangeIsGood(w, c, ending);
    AfterHangUpIsGood(Change(w, c, ending), c, someDevice);
  }

  lemma AfterNewCallIsGood(w: World, line: nat, d: nat)
    requires Good(w) && line < |w.held| && d < |w.actives|
    ensures Good(AfterNewCall(w, line, d))
  {
    hide Good, Detach, Added;
    AddedIsGood(w, line, d);
    var a := w.actives[d];
    if 0 <= a < |w.calls| {
      TryHoldIsGood(w, a);
      AddedIsGood(TryHold(w, a), line, d);
    }
  }

  lemma AsideIsGood(w: World, d: nat, c: nat, atOnce: bool)
    requires Good(w) && d < |w.actives|
    ensures Good(Aside(w, d, c, atOnce))
  {
    hide Good, Detach, Ended, TryHold;
    var a := w.actives[d];
    if 0 <= a < |w.calls| {
      EndedIsGood(w, a, atOnce, true);
      TryHoldIsGood(w, a);
    }
  }

  lemma HeldHasNoDevice(w: World, c: nat)
    requires Good(w) && c < |w.calls|
    ensures var call := w.calls[c];
      && CallShaped(call, |w.actives|, |w.held|)
      && (call.state == OnHold || !call.listed || (call.state == Ringing && !call.answering) ==> call.device == NONE)
  {
    hide Counted, Shaped;
    ShapedHere(w.calls, w.actives, |w.held|, c, NONE);
  }

  lemma AnsweredIsGood(w: World, c: nat, d: nat)
    requires Good(w) && c < |w.calls| && d < |w.actives|
    ensures Good(Answered(w, c, d))
  {
    hide Good, Detach, Attach;
    var a := w.actives[d];
    var v := if 0 <= a < |w.calls| && a != c then TryHold(w, a) else w;
    if 0 <= a < |w.calls| && a != c {
      TryHoldIsGood(w, a);
    }
    if v.calls[c].state == Ringing && v.calls[c].listed && !v.calls[c].answering {
      HeldHasNoDevice(v, c);
      AttachIsGood(v, c, v.calls[c].(answering := true, device := d));
    }
  }

  lemma ResumedIsGood(w: World, d: nat, c: nat, swap: bool, atOnce: bool)
    requires Good(w) && c < |w.calls| && d < |w.actives|
    ensures Good(Resumed(w, d, c, swap, atOnce))
  {
    hide Good, Detach, Attach, Aside, TryHold;
    AsideIsGood(w, d, c, atOnce);
    TryHoldIsGood(if swap then Aside(w, d, c, atOnce) else w, c);
    var v := Cleared(w, d, c, swap, atOnce);
    if w.calls[c].listed && v.calls[c].state == OnHold {
      AsideKeepsOthers(w, d, c, swap, atOnce);
      HeldHasNoDevice(v, c);
      AttachIsGood(v, c, v.calls[c].(device := d, state := Connected));
    }
  }

  /** The call to be resumed is at most put on hold before. */
  lemma AsideKeepsOthers(w: World, d: nat, c: nat, swap: bool, atOnce: bool)
    requires c < |w.calls| && d < |w.actives|
    ensures Aside(w, d, c, atOnce).calls[c] == w.calls[c]
    ensures Cleared(w, d, c, swap, atOnce).calls[c] ==
      if CanHold(w.calls[c]) then w.calls[c].(state := OnHold, device := NONE) else w.calls[c]
  {
    hide Recounted, SetActive;
  }

  // ---------------------------------------------------------------- what the operations come to

  /** The counters after one more held call of a line, and one less. */
  function More(held: seq<nat>, l: int): (r: seq<nat>)
    requires 0 <= l < |held|
  {
    held[l := (held[l] + 1) % 256]
  }

  function Less(held: seq<nat>, l: int): (r: seq<nat>)
    requires 0 <= l < |held|
  {
    held[l := (held[l] + 255) % 256]
  }

  /** Taking one up and down again, or the other way round, changes nothing. */
  lemma MoreAndLess(held: seq<nat>, l: int, m: int)
    requires 0 <= l < |held| && 0 <= m < |held| && held[l] < 256
    ensures l == m ==> Less(More(held, l), m) == held
  {
  }

  lemma CountersFit(w: World, l: int)
    requires Good(w) && 0 <= l < |w.held|
    ensures w.held[l] < 256
  {
    hide HeldOn;
  }

  /** A swapping resume of a held call while another one talks: they change places, the other one being
      held without a device, and nothing else changes; within one line neither does the counter. */
  lemma SwapEffect(w: World, d: nat, c: nat, atOnce: bool)
    requires Good(w) && d < |w.actives| && c < |w.calls| && w.calls[c].listed && w.calls[c].state == OnHold
    requires var a := w.actives[d]; 0 <= a < |w.calls| && a != c && CanHold(w.calls[a])
    ensures var v, a := Resumed(w, d, c, true, atOnce), w.actives[d];
      && StepsAside(w, d, c) && 0 <= w.calls[a].line < |w.held| && 0 <= w.calls[c].line < |w.held|
      && v.calls == w.calls[a := w.calls[a].(state := OnHold, device := NONE)]
                           [c := w.calls[c].(state := Connected, device := d)]
      && v.actives == w.actives[d := c]
      && v.held == (if w.calls[a].line == w.calls[c].line then w.held
           else Less(More(w.held, w.calls[a].line), w.calls[c].line))
  {
    hide Counted, Shaped;
    var a := w.actives[d];
    ShapedHere(w.calls, w.actives, |w.held|, a, d);
    ShapedHere(w.calls, w.actives, |w.held|, c, d);
    CountersFit(w, w.calls[a].line);
    MoreAndLess(w.held, w.calls[a].line, w.calls[c].line);
  }

  /** In favour of a held call an unused active call is ended: it begins to end, and what Asterisk
      carries out at once takes it from its line and device. */
  lemma ResumeUnusedEffect(w: World, d: nat, c: nat, atOnce: bool)
    requires Good(w) && d < |w.actives| && c < |w.calls| && w.calls[c].listed && w.calls[c].state == OnHold
    requires var a := w.actives[d]; 0 <= a < |w.calls| && a != c && Unused(w.calls[a].state)
    ensures var v, a := Resumed(w, d, c, true, atOnce), w.actives[d];
      var ended := w.calls[a].(ending := true);
      var down := ended.(listed := false, device := NONE, state := if ended.state == OnHook then OnHook else Down);
      && StepsAside(w, d, c) && 0 <= w.calls[c].line < |w.held|
      && v.calls == w.calls[a := if atOnce then down else ended][c := w.calls[c].(state := Connected, device := d)]
      && v.actives == w.actives[d := c] && v.held == Less(w.held, w.calls[c].line)
  {
    hide Counted, Shaped;
    var a := w.actives[d];
    ShapedHere(w.calls, w.actives, |w.held|, a, d);
    ShapedHere(w.calls, w.actives, |w.held|, c, d);
  }

  /** A talking call that is resumed, on its own device or from another one, moves there, as far as that
      is free, and the counters stay. */
  lemma ResumeTalkingEffect(w: World, d: nat, c: nat, swap: bool, atOnce: bool)
    requires Good(w) && d < |w.actives| && c < |w.calls| && w.calls[c].listed && CanHold(w.calls[c])
    requires w.actives[d] in {NONE, c} || !swap
    ensures var v, e := Resumed(w, d, c, swap, atOnce), w.calls[c].device;
      && 0 <= e < |w.actives| && v.held == w.held
      && v.calls == w.calls[c := w.calls[c].(state := Connected, device := d)]
      && v.actives == w.actives[e := NONE][d := c]
  {
    hide Counted, Shaped;
    ShapedHere(w.calls, w.actives, |w.held|, c, d);
    CountersFit(w, w.calls[c].line);
    MoreAndLess(w.held, w.calls[c].line, w.calls[c].line);
  }

  /** An arriving call is answered although another one talks: that one is held. */
  lemma AnswerEffect(w: World, c: nat, d: nat)
    requires Good(w) && c < |w.calls| && d < |w.actives|
    requires w.calls[c].state == Ringing && w.calls[c].listed && !w.calls[c].answering
    requires var a := w.actives[d]; 0 <= a < |w.calls| && a != c && CanHold(w.calls[a])
    ensures var v, a := Answered(w, c, d), w.actives[d];
      && 0 <= w.calls[a].line < |w.held| && v.held == More(w.held, w.calls[a].line)
      && v.calls == w.calls[a := w.calls[a].(state := OnHold, device := NONE)]
                           [c := w.calls[c].(answering := true, device := d)]
      && v.actives == w.actives[d := c]
  {
    hide Counted, Shaped;
    ShapedHere(w.calls, w.actives, |w.held|, w.actives[d], d);
    ShapedHere(w.calls, w.actives, |w.held|, c, d);
  }

  /** A new call while another one talks: that one is held, and the new one is off hook and active. */
  lemma NewCallEffect(w: World, line: nat, d: nat)
    requires Good(w) && line < |w.held| && d < |w.actives|
    requires var a := w.actives[d]; 0 <= a < |w.calls| && CanHold(w.calls[a])
    ensures var v, a := AfterNewCall(w, line, d), w.actives[d];
      && 0 <= w.calls[a].line < |w.held| && v.held == More(w.held, w.calls[a].line)
      && v.calls == w.calls[a := w.calls[a].(state := OnHold, device := NONE)]
           + [Call(line, true, OffHook, false, false, false, d)]
      && v.actives == w.actives[d := |w.calls|]
  {
    hide Counted, Shaped;
    ShapedHere(w.calls, w.actives, |w.held|, w.actives[d], d);
  }

  /** A hangup takes a held call from the counter, and no other; the call is down where a phone hears of
      it, and its device forgets its active call. */
  lemma HangUpEffect(w: World, c: nat, someDevice: bool)
    requires Good(w) && c < |w.calls|
    ensures var v, call := AfterHangUp(w, c, someDevice), w.calls[c];
      && 0 <= call.line < |w.held|
      && v.held == (if call.listed && call.state == OnHold then Less(w.held, call.line) else w.held)
      && v.actives == (if call.device == NONE then w.actives else w.actives[call.device := NONE])
      && v.calls == w.calls[c := call.(listed := false, ending := true, device := NONE,
           state := if call.device == NONE && !someDevice then call.state
             else if call.state == OnHook then OnHook else Down)]
  {
    hide Counted, Shaped;
    ShapedHere(w.calls, w.actives, |w.held|, c, NONE);
  }

  /** What begins to end stays otherwise as it is until Asterisk hangs up. */
  lemma EndEffect(w: World, c: nat, atOnce: bool, someDevice: bool)
    requires Good(w) && c < |w.calls|
    ensures Ended(w, c, false, someDevice) == w.(calls := w.calls[c := w.calls[c].(ending := true)])
    ensures Ended(w, c, true, someDevice) == AfterHangUp(w, c, someDevice)
  {
    hide Counted, Shaped;
    ShapedHere(w.calls, w.actives, |w.held|, c, NONE);
  }
}
