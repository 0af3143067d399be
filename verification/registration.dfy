/** The registration state of devices: tokens, registrations, the message dispatcher, and what ends
    sessions (sccp_actions.c, sccp_session.c, sccp_device.c). */
module Registration {

  /** Devices and sessions are known by their place in the lists of the server; NONE is NULL. */
  const NONE: int := -1

  datatype State = Failed | TimedOut | Cleaning | Unregistered | Token | InProgress | Registered

  /** session: the connection of the device; since: its registrationTime. */
  datatype Device = Device(state: State, session: int, since: int)

  datatype Session = Session(device: int, stopped: bool)

  /** One change of a registration state; age: the seconds since the registration time. */
  datatype Change = Change(device: int, was: State, to: State, age: int)

  predicate IsDown(s: State) {
    s in {Failed, TimedOut, Cleaning, Unregistered}
  }

  /** What a change may be: a token is given to a failed or unregistered device, a registration is
      accepted from a device that is down or holds a token no older than a minute, and only a
      registration in progress is completed. */
  predicate Lawful(c: Change) {
    && (c.to == Token ==> c.was in {Failed, Unregistered})
    && (c.to == InProgress ==> IsDown(c.was) || (c.was == Token && c.age <= 60))
    && (c.to == Registered ==> c.was == InProgress)
  }

  // ---------------------------------------------------------------- histories

  /** The state a device is in after the changes; a device starts unregistered. */
  function StateAfter(log: seq<Change>, d: int): State
    decreases |log|
  {
    if log == [] then Unregistered
    else if log[|log| - 1].device == d then log[|log| - 1].to
    else StateAfter(log[..|log| - 1], d)
  }

  /** Every change starts from the state that the changes before it left, and is lawful. */
  ghost predicate History(log: seq<Change>) {
    forall i :: 0 <= i < |log| ==>
      log[i].was == StateAfter(log[..i], log[i].device) && log[i].was != log[i].to && Lawful(log[i])
  }

  /** From registering or registered a lawful change goes down or to the other of the two. */
  lemma UpOrDown(log: seq<Change>, i: nat)
    requires History(log) && i < |log|
    ensures log[i].was == StateAfter(log[..i], log[i].device)
    ensures log[i].was in {InProgress, Registered} ==> IsDown(log[i].to) || log[i].to in {InProgress, Registered}
    ensures log[i].to in {Token, InProgress} ==> log[i].was !in {InProgress, Registered}
  {
    hide StateAfter;
  }

  /** A device that is not down since position i was registering or registered all the time: the
      changes on it go from one of these states to the other. */
  lemma {:induction false} StaysUp(log: seq<Change>, d: int, i: nat, n: nat)
    requires History(log) && i < n <= |log|
    requires log[i].device == d && log[i].to in {InProgress, Registered}
    requires forall k :: i < k < n && log[k].device == d ==> !IsDown(log[k].to)
    ensures StateAfter(log[..n], d) in {InProgress, Registered}
    decreases n
  {
    hide History, Lawful;
    assert log[..n][..n - 1] == log[..n - 1];
    if i < n - 1 {
      StaysUp(log, d, i, n - 1);
      UpOrDown(log, n - 1);
    }
  }

  /** A device that is registering or registered cannot get a token or register again before it
      went down. */
  lemma NoSecondRegistration(log: seq<Change>, d: int, i: nat, j: nat)
    requires History(log) && i < j < |log|
    requires log[i].device == d && log[i].to in {InProgress, Registered}
    requires log[j].device == d && log[j].to in {Token, InProgress}
    ensures exists k :: i < k < j && log[k].device == d && IsDown(log[k].to)
  {
    hide History;
    UpOrDown(log, j);
    if forall k :: i < k < j && log[k].device == d ==> !IsDown(log[k].to) {
      StaysUp(log, d, i, j);
    }
  }

  predicate IsChange(log: seq<Change>, d: int, k: int) {
    0 <= k < |log| && log[k].device == d
  }

  /** A registration of d is accepted at i and again at j. */
  predicate Registers(log: seq<Change>, d: int, i: int, j: int) {
    i < j && IsChange(log, d, i) && IsChange(log, d, j) && log[i].to == InProgress && log[j].to == InProgress
  }

  predicate GoesDown(log: seq<Change>, d: int, i: int, k: int, j: int) {
    i < k < j && IsChange(log, d, k) && IsDown(log[k].to)
  }

  /** The last time before j that d goes down. */
  ghost predicate LastDown(log: seq<Change>, d: int, i: int, k: int, j: int) {
    GoesDown(log, d, i, k, j) && forall m :: k < m < j ==> !GoesDown(log, d, i, m, j)
  }

  /** Between i and j the device is neither failed nor unregistered. */
  ghost predicate Skips(log: seq<Change>, d: int, i: int, j: int) {
    forall k :: i < k < j && IsChange(log, d, k) ==> log[k].to !in {Failed, Unregistered}
  }

  lemma {:induction false} LastDownExists(log: seq<Change>, d: int, i: int, j: int, n: int)
    requires i < n <= j && exists k :: k < n && GoesDown(log, d, i, k, j)
    requires forall m :: n <= m < j ==> !GoesDown(log, d, i, m, j)
    ensures exists k :: LastDown(log, d, i, k, j)
    decreases n - i
  {
    if GoesDown(log, d, i, n - 1, j) {
      assert LastDown(log, d, i, n - 1, j);
    } else {
      LastDownExists(log, d, i, j, n - 1);
    }
  }

  /** After the last time it goes down a device keeps that state, or gets a token for it, which only a
      failed or unregistered device does. */
  lemma {:induction false} StaysDown(log: seq<Change>, d: int, k: nat, n: nat)
    requires History(log) && k < n <= |log| && log[k].device == d && IsDown(log[k].to)
    requires forall m :: k < m < n && log[m].device == d ==> !IsDown(log[m].to) && log[m].to != InProgress
    ensures StateAfter(log[..n], d) == log[k].to
      || (StateAfter(log[..n], d) == Token && log[k].to in {Failed, Unregistered})
    decreases n
  {
    hide History;
    assert log[..n][..n - 1] == log[..n - 1];
    if k < n - 1 {
      StaysDown(log, d, k, n - 1);
      LawfulHere(log, n - 1);
    }
  }

  lemma LawfulHere(log: seq<Change>, i: nat)
    requires History(log) && i < |log|
    ensures Lawful(log[i]) && log[i].was == StateAfter(log[..i], log[i].device) && log[i].was != log[i].to
  {
  }

  /** Whether a second registration comes straight from a timeout or a cleaning is seen in the state it
      finds: that is the last down state, and otherwise it finds a failed or unregistered device or a
      token. So a device that went down once in between passed neither failed nor unregistered
      exactly if the second registration finds it timed out or being cleaned. */
  lemma SkipsIff(log: seq<Change>, d: int, i: int, j: int)
    requires History(log) && Registers(log, d, i, j)
    requires forall k :: i < k < j && IsChange(log, d, k) ==> log[k].to != InProgress
    ensures exists k :: LastDown(log, d, i, k, j)
    ensures forall k :: LastDown(log, d, i, k, j) ==>
      (log[k].to in {TimedOut, Cleaning} <==> log[j].was in {TimedOut, Cleaning})
    ensures forall k :: LastDown(log, d, i, k, j) && log[j].was != Token ==> log[k].to == log[j].was
    ensures Skips(log, d, i, j) <==> forall k :: GoesDown(log, d, i, k, j) ==> log[k].to in {TimedOut, Cleaning}
    ensures Skips(log, d, i, j) <==>
      log[j].was in {TimedOut, Cleaning}
        && forall k, m :: GoesDown(log, d, i, k, j) && LastDown(log, d, i, m, j) && k < m ==>
             log[k].to in {TimedOut, Cleaning}
  {
    hide History, Lawful, StateAfter;
    NoSecondRegistration(log, d, i, j);
    var k :| i < k < j && log[k].device == d && IsDown(log[k].to);
    assert GoesDown(log, d, i, k, j);
    LastDownExists(log, d, i, j, j);
    forall k | LastDown(log, d, i, k, j)
      ensures log[j].was == log[k].to || (log[j].was == Token && log[k].to in {Failed, Unregistered})
    {
      forall m | k < m < j && log[m].device == d ensures !IsDown(log[m].to) && log[m].to != InProgress {
        assert !GoesDown(log, d, i, m, j) && IsChange(log, d, m);
      }
      StaysDown(log, d, k, j);
      LawfulHere(log, j);
    }
    assert forall k :: i < k < j && IsChange(log, d, k) && log[k].to in {Failed, Unregistered} ==>
      GoesDown(log, d, i, k, j);
  }

  // ---------------------------------------------------------------- the server

  lemma HistoryGrows(log: seq<Change>, c: Change)
    requires History(log) && c.was == StateAfter(log, c.device) && c.was != c.to && Lawful(c)
    ensures History(log + [c])
    ensures forall d :: StateAfter(log + [c], d) == if d == c.device then c.to else StateAfter(log, d)
  {
    assert (log + [c])[..|log|] == log;
    forall i | 0 <= i < |log| ensures (log + [c])[..i] == log[..i] {
    }
  }

  // ---------------------------------------------------------------- devices and sessions

  ghost predicate Linked(devices: seq<Device>, sessions: seq<Session>) {
    && (forall d :: 0 <= d < |devices| ==> NONE <= devices[d].session < |sessions|)
    && (forall s :: 0 <= s < |sessions| ==> NONE <= sessions[s].device < |devices|)
  }

  /** The states are the ones the history ends in; a device yet to be created is unregistered. */
  ghost predicate Recorded(devices: seq<Device>, log: seq<Change>) {
    && (forall d :: 0 <= d < |devices| ==> devices[d].state == StateAfter(log, d))
    && (forall d :: d >= |devices| ==> StateAfter(log, d) == Unregistered)
    && History(log)
  }

  lemma LinkedHere(devices: seq<Device>, sessions: seq<Session>, d: int, s: int)
    requires Linked(devices, sessions)
    ensures 0 <= d < |devices| ==> NONE <= devices[d].session < |sessions|
    ensures 0 <= s < |sessions| ==> NONE <= sessions[s].device < |devices|
  {
  }

  lemma LinkedDevice(devices: seq<Device>, sessions: seq<Session>, d: int, device: Device)
    requires Linked(devices, sessions) && 0 <= d < |devices| && NONE <= device.session < |sessions|
    ensures Linked(devices[d := device], sessions)
  {
  }

  lemma LinkedSession(devices: seq<Device>, sessions: seq<Session>, s: int, session: Session)
    requires Linked(devices, sessions) && 0 <= s < |sessions| && NONE <= session.device < |devices|
    ensures Linked(devices, sessions[s := session])
  {
  }

  lemma LinkedNew(devices: seq<Device>, sessions: seq<Session>, d: Device, s: Session)
    requires Linked(devices, sessions) && d.session == NONE && s.device == NONE
    ensures Linked(devices + [d], sessions) && Linked(devices, sessions + [s])
  {
  }

  lemma RecordedSame(devices: seq<Device>, log: seq<Change>, d: int, device: Device)
    requires Recorded(devices, log) && 0 <= d < |devices| && device.state == devices[d].state
    ensures Recorded(devices[d := device], log)
  {
  }

  lemma RecordedNew(devices: seq<Device>, log: seq<Change>, device: Device)
    requires Recorded(devices, log) && device.state == Unregistered
    ensures Recorded(devices + [device], log)
  {
  }

  lemma RecordedChange(devices: seq<Device>, log: seq<Change>, d: int, device: Device, age: int)
    requires Recorded(devices, log) && 0 <= d < |devices| && device.state != devices[d].state
    requires Lawful(Change(d, devices[d].state, device.state, age))
    ensures Recorded(devices[d := device], log + [Change(d, devices[d].state, device.state, age)])
  {
    hide History;
    HistoryGrows(log, Change(d, devices[d].state, device.state, age));
  }

  // ---------------------------------------------------------------- the operations on values

  datatype World = World(devices: seq<Device>, sessions: seq<Session>, log: seq<Change>)

  predicate IsDevice(w: World, d: int) {
    0 <= d < |w.devices|
  }

  predicate IsSession(w: World, s: int) {
    0 <= s < |w.sessions|
  }

  /** Of the same devices and sessions, or of more devices. */
  predicate Extends(w: World, v: World) {
    |v.sessions| == |w.sessions| && |v.devices| >= |w.devices|
  }

  /** sccp_device_setRegistrationState, which notes only a real change. */
  function Moved(w: World, now: int, d: int, state: State): (v: World)
    requires IsDevice(w, d)
    ensures Extends(w, v) && |v.devices| == |w.devices|
  {
    var device := w.devices[d];
    World(w.devices[d := device.(state := state)], w.sessions,
          w.log + (if device.state == state then [] else [Change(d, device.state, state, now - device.since)]))
  }

  function Placed(w: World, d: int, session: int, since: int): (v: World)
    requires IsDevice(w, d)
    ensures Extends(w, v) && |v.devices| == |w.devices|
  {
    w.(devices := w.devices[d := w.devices[d].(session := session, since := since)])
  }

  /** The thread of the session stops, and the device attached to it takes the state. */
  function Stopped(w: World, now: int, s: int, state: State): (v: World)
    requires IsSession(w, s)
    ensures Extends(w, v) && |v.devices| == |w.devices|
  {
    var v := w.(sessions := w.sessions[s := w.sessions[s].(stopped := true)]);
    if IsDevice(w, w.sessions[s].device) then Moved(v, now, w.sessions[s].device, state) else v
  }

  /** The session gives up its device, which is unregistered if that was its session. */
  function Removed(w: World, now: int, s: int): (v: World)
    requires IsSession(w, s)
    ensures Extends(w, v) && |v.devices| == |w.devices|
  {
    var d := w.sessions[s].device;
    var v := w.(sessions := w.sessions[s := w.sessions[s].(device := NONE)]);
    if IsDevice(w, d) && w.devices[d].session == s then
      var u := Moved(v, now, d, Unregistered);
      Placed(u, d, NONE, u.devices[d].since)
    else v
  }

  /** The session takes the device, if that is not being removed, and gives up another one. */
  function Retained(w: World, now: int, s: int, d: int, alive: bool): (v: World)
    requires IsSession(w, s) && IsDevice(w, d)
    ensures Extends(w, v) && |v.devices| == |w.devices|
  {
    if w.sessions[s].device == d then w
    else
      var u := if w.sessions[s].device != NONE then Removed(w, now, s) else w;
      if alive then Placed(u, d, s, u.devices[d].since).(sessions := u.sessions[s := u.sessions[s].(device := d)])
        else u
  }

  function CleanedUp(w: World, now: int, s: int, other: int, ended: bool): (v: World)
    ensures Extends(w, v) && |v.devices| == |w.devices|
  {
    if IsSession(w, other) && other != s && ended then Removed(w, now, other) else w
  }

  /** Both connections are closed, and the device is without one, and failed if that is wanted. */
  function Refused(w: World, now: int, s: int, d: int, ended: bool, failDevice: bool): (v: World)
    requires IsSession(w, s) && IsDevice(w, d)
    ensures Extends(w, v) && |v.devices| == |w.devices|
  {
    var u := CleanedUp(w, now, s, w.devices[d].session, ended);
    var f := if failDevice then Moved(u, now, d, Failed) else u;
    var v := Stopped(f, now, s, Failed);
    Placed(v, d, NONE, v.devices[d].since)
  }

  /** sccp_session_check_crossdevice. */
  predicate Cross(devices: seq<Device>, sessions: seq<Session>, s: int, d: int)
    requires 0 <= s < |sessions| && 0 <= d < |devices|
  {
    (sessions[s].device != NONE && sessions[s].device != d) || (devices[d].session != NONE && devices[d].session != s)
  }

  function WithNew(w: World): (v: World)
    ensures Extends(w, v)
  {
    w.(devices := w.devices + [Device(Unregistered, NONE, 0)])
  }

  /** A registration by a device that may register. */
  function Admitted(w: World, now: int, s: int, d: int, alive: bool, allowed: bool): (v: World)
    requires IsSession(w, s) && IsDevice(w, d)
    ensures Extends(w, v) && |v.devices| == |w.devices|
  {
    var attached := w.sessions[s].device == d || alive;
    var u := Retained(w, now, s, d, alive);
    if attached && allowed then
      var v := Moved(u, now, d, InProgress);
      Placed(v, d, v.devices[d].session, now)
    else
      var f := if attached then Moved(u, now, d, Failed) else u;
      var v := Stopped(f, now, s, Failed);
      Placed(v, d, NONE, v.devices[d].since)
  }

  /** The device is registering or registered, or holds a token for more than a minute, or the
      connection is for another one. */
  predicate RegisterClashes(w: World, now: int, s: int, d: int)
    requires IsSession(w, s) && IsDevice(w, d)
  {
    Cross(w.devices, w.sessions, s, d) || w.devices[d].state in {InProgress, Registered}
      || (w.devices[d].state == Token && now - w.devices[d].since > 60)
  }

  function RegisterAsked(w: World, now: int, s: int, known: int, reloading: bool, found: bool, alive: bool,
    allowed: bool, ended: bool):
    (v: World)
    requires IsSession(w, s)
    ensures Extends(w, v)
  {
    if reloading then w
    else if IsDevice(w, known) then
      if RegisterClashes(w, now, s, known) then Refused(w, now, s, known, ended, true)
      else Admitted(w, now, s, known, alive, allowed)
    else if found then Admitted(WithNew(w), now, s, |w.devices|, alive, allowed)
    else w
  }

  /** A token request by a device that may get one; the time of the request is noted. */
  function TokenTaken(w: World, now: int, s: int, d: int, alive: bool, allowed: bool): (v: World)
    requires IsSession(w, s) && IsDevice(w, d)
    ensures Extends(w, v) && |v.devices| == |w.devices|
  {
    var u := Retained(w, now, s, d, alive);
    var v := if !(w.sessions[s].device == d || alive) then u else Moved(u, now, d, if allowed then Token else Failed);
    Placed(v, d, v.devices[d].session, now)
  }

  function TokenAsked(w: World, now: int, s: int, known: int, reloading: bool, backoff: int, found: bool, alive: bool,
                      allowed: bool, ended: bool): (v: World)
    requires IsSession(w, s)
    ensures Extends(w, v)
  {
    if reloading then w
    else if IsDevice(w, known) then
      var device := w.devices[known];
      if device.state == Token && now < device.since + backoff then Placed(w, known, device.session, now)
      else if Cross(w.devices, w.sessions, s, known) || device.state !in {Failed, Unregistered} then
        Refused(Placed(w, known, device.session, now), now, s, known, ended, false)
      else TokenTaken(w, now, s, known, alive, allowed)
    else if found then TokenTaken(WithNew(w), now, s, |w.devices|, alive, allowed)
    else w
  }

  function Handled(w: World, now: int, s: int, sessionValid: bool, finishing: bool, handlerStops: bool,
    ended: bool): (v: World)
    requires IsSession(w, s)
    ensures Extends(w, v)
  {
    var d := w.sessions[s].device;
    if !sessionValid || !IsDevice(w, d) then w
    else if Cross(w.devices, w.sessions, s, d) then CleanedUp(w, now, s, w.devices[d].session, ended)
    else if w.devices[d].state !in {InProgress, Registered} then w
    else
      var u := if handlerStops then Stopped(w, now, s, Failed) else w;
      if u.devices[d].state == InProgress && finishing then
        var v := Moved(u, now, d, Registered);
        Placed(v, d, v.devices[d].session, now)
      else u
  }

  class Server {
    var devices: seq<Device>
    var sessions: seq<Session>
    var now: int
    ghost var log: seq<Change>

    ghost function Now(): World
      reads this
    {
      World(devices, sessions, log)
    }

    ghost predicate Valid()
      reads this
    {
      Linked(devices, sessions) && Recorded(devices, log)
    }

    constructor ()
      ensures Valid() && log == [] && devices == [] && sessions == [] && now == 0
    {
      devices, sessions, now, log := [], [], 0, [];
    }

    /** A phone connects. */
    method Connect() returns (s: int)
      requires Valid()
      modifies this`sessions
      ensures Valid() && s == |old(sessions)| && sessions == old(sessions) + [Session(NONE, false)]
    {
      hide Linked, Recorded;
      LinkedNew(devices, sessions, Device(Unregistered, NONE, 0), Session(NONE, false));
      s := |sessions|;
      sessions := sessions + [Session(NONE, false)];
    }

    /** destroy_session, up to the cleaning of the device. */
    method Detach(s: int)
      requires Valid() && 0 <= s < |sessions|
      modifies this`devices
      ensures Valid() && NONE <= sessions[s].device < |old(devices)|
      ensures var d := sessions[s].device;
        devices == if d != NONE && old(devices)[d].session == s then
          old(devices)[d := old(devices)[d].(session := NONE)] else old(devices)
    {
      hide Linked, Recorded;
      var d := sessions[s].device;
      LinkedHere(devices, sessions, d, s);
      if d != NONE && devices[d].session == s {
        SetDevice(d, NONE, devices[d].since);
      }
    }

    /** sccp_device_setRegistrationState. */
    method SetState(d: int, state: State)
      requires Valid() && 0 <= d < |devices|
      requires Lawful(Change(d, devices[d].state, state, now - devices[d].since))
      modifies this`devices, this`log
      ensures Valid() && devices == old(devices)[d := old(devices)[d].(state := state)]
      ensures log == old(log)
        + (if old(devices)[d].state == state then []
          else [Change(d, old(devices)[d].state, state, now - old(devices)[d].since)])
      ensures Now() == Moved(old(Now()), now, d, state)
    {
      hide Linked, Recorded, Lawful;
      if devices[d].state != state {
        LinkedHere(devices, sessions, d, NONE);
        LinkedDevice(devices, sessions, d, devices[d].(state := state));
        RecordedChange(devices, log, d, devices[d].(state := state), now - devices[d].since);
        log := log + [Change(d, devices[d].state, state, now - devices[d].since)];
        devices := devices[d := devices[d].(state := state)];
      }
    }

    /** A change of the connection or the registration time of a device. */
    method SetDevice(d: int, session: int, since: int)
      requires Valid() && 0 <= d < |devices| && NONE <= session < |sessions|
      modifies this`devices
      ensures Valid() && devices == old(devices)[d := old(devices)[d].(session := session, since := since)]
      ensures Now() == Placed(old(Now()), d, session, since)
    {
      hide Linked, Recorded;
      LinkedDevice(devices, sessions, d, devices[d].(session := session, since := since));
      RecordedSame(devices, log, d, devices[d].(session := session, since := since));
      devices := devices[d := devices[d].(session := session, since := since)];
    }

    method SetSession(s: int, session: Session)
      requires Valid() && 0 <= s < |sessions| && NONE <= session.device < |devices|
      modifies this`sessions
      ensures Valid() && sessions == old(sessions)[s := session]
    {
      hide Linked, Recorded;
      LinkedSession(devices, sessions, s, session);
      sessions := sessions[s := session];
    }

    /** __sccp_session_stopthread. */
    method StopThread(s: int, state: State)
      requires Valid() && 0 <= s < |sessions| && IsDown(state)
      modifies this`devices, this`sessions, this`log
      ensures Valid() && sessions == old(sessions)[s := old(sessions)[s].(stopped := true)]
      ensures NONE <= old(sessions)[s].device < |old(devices)|
      ensures var d := old(sessions)[s].device;
        devices == if d == NONE then old(devices) else old(devices)[d := old(devices)[d].(state := state)]
      ensures var d := old(sessions)[s].device;
        log == old(log)
          + if d == NONE || old(devices)[d].state == state then []
            else [Change(d, old(devices)[d].state, state, now - old(devices)[d].since)]
      ensures Now() == Stopped(old(Now()), now, s, state)
    {
      hide Linked, Recorded;
      LinkedHere(devices, sessions, NONE, s);
      var d := sessions[s].device;
      SetSession(s, sessions[s].(stopped := true));
      if d != NONE {
        SetState(d, state);
      }
    }

    /** __sccp_session_removeDevice. */
    method RemoveDevice(s: int)
      requires Valid() && 0 <= s < |sessions|
      modifies this`devices, this`sessions, this`log
      ensures Valid() && sessions == old(sessions)[s := old(sessions)[s].(device := NONE)]
      ensures NONE <= old(sessions)[s].device < |old(devices)| && |devices| == |old(devices)|
      ensures forall d :: 0 <= d < |devices| && d != old(sessions)[s].device ==> devices[d] == old(devices)[d]
      ensures var d := old(sessions)[s].device;
        d != NONE ==>
          devices[d] == if old(devices)[d].session != s then old(devices)[d]
                        else old(devices)[d].(state := Unregistered, session := NONE)
      ensures Now() == Removed(old(Now()), now, s)
    {
      hide Linked, Recorded;
      LinkedHere(devices, sessions, NONE, s);
      var d := sessions[s].device;
      SetSession(s, sessions[s].(device := NONE));
      if d != NONE {
        if devices[d].session == s {
          SetState(d, Unregistered);
          SetDevice(d, NONE, devices[d].since);
        }
      }
    }

    /** sccp_session_retainDevice: negative when the device is being removed. */
    method RetainDevice(s: int, d: int, alive: bool) returns (res: int)
      requires Valid() && 0 <= s < |sessions| && 0 <= d < |devices|
      modifies this`devices, this`sessions, this`log
      ensures Valid() && |devices| == |old(devices)| && |sessions| == |old(sessions)|
      ensures NONE <= old(sessions)[s].device < |devices|
      ensures devices[d].state == old(devices)[d].state && devices[d].since == old(devices)[d].since
      ensures res == if old(sessions)[s].device == d then 0 else if alive then 1 else -1
      ensures res >= 0 ==> sessions[s].device == d
      ensures old(sessions)[s].device in {NONE, d} ==> log == old(log)
      ensures devices[d].session ==
        if res == 1 then s else if res == 0 then old(devices)[d].session else devices[d].session
      ensures Now() == Retained(old(Now()), now, s, d, alive)
    {
      hide Linked, Recorded;
      LinkedHere(devices, sessions, NONE, s);
      res := 0;
      if sessions[s].device != d {
        if sessions[s].device != NONE {
          RemoveDevice(s);
        }
        if alive {
          SetDevice(d, s, devices[d].since);
          SetSession(s, sessions[s].(device := d));
          res := 1;
        } else {
          res := -1;
        }
      }
    }

    /** sccp_session_crossdevice_cleanup: the thread of another session is ended, which may have
        given its device back by the time this returns. */
    method CrossDeviceCleanup(s: int, other: int, ended: bool)
      requires Valid() && 0 <= s < |sessions| && NONE <= other < |sessions|
      modifies this`devices, this`sessions, this`log
      ensures Valid() && |devices| == |old(devices)| && |sessions| == |old(sessions)|
      ensures sessions[s] == old(sessions)[s]
      ensures Now() == CleanedUp(old(Now()), now, s, other, ended)
    {
      if other != NONE && other != s && ended {
        RemoveDevice(other);
      }
    }

    /** The device a token or registration request is for when it is not in memory: one found in the
        realtime configuration or a new anonymous one, or NONE. */
    method FindOrCreate(found: bool) returns (d: int)
      requires Valid()
      modifies this`devices
      ensures Valid() && NONE <= d < |devices|
      ensures if found then d == |old(devices)| && devices == old(devices) + [Device(Unregistered, NONE, 0)]
              else d == NONE && devices == old(devices)
    {
      hide Linked, Recorded;
      d := NONE;
      if found {
        LinkedNew(devices, sessions, Device(Unregistered, NONE, 0), Session(NONE, false));
        RecordedNew(devices, log, Device(Unregistered, NONE, 0));
        d := |devices|;
        devices := devices + [Device(Unregistered, NONE, 0)];
      }
    }

    /** A request for a device that is attached elsewhere or not ready for it: the other connection and
        this one are closed. */
    method RefuseConnection(s: int, d: int, ended: bool, failDevice: bool)
      requires Valid() && 0 <= s < |sessions| && 0 <= d < |devices|
      modifies this`devices, this`sessions, this`log
      ensures Valid() && |devices| == |old(devices)| && |sessions| == |old(sessions)|
      ensures devices[d].session == NONE && sessions[s].stopped
      ensures failDevice ==> devices[d].state == Failed
      ensures Now() == Refused(old(Now()), now, s, d, ended, failDevice)
      ensures var other := old(devices)[d].session;
        ended && other != s && 0 <= other < |sessions| ==> sessions[other].device == NONE
    {
      hide Linked, Recorded;
      LinkedHere(devices, sessions, d, s);
      CrossDeviceCleanup(s, devices[d].session, ended);
      if failDevice {
        SetState(d, Failed);
      }
      LinkedHere(devices, sessions, d, s);
      StopThread(s, Failed);
      SetDevice(d, NONE, devices[d].since);
    }

    /** handle_token_request and handle_SPCPTokenReq: known is the device if it is in memory. The test
        for a second connection that follows in the latter can no longer succeed. fallback: what the
        fallback setting says to the phone; the device holds the token either way. */
    method TokenRequest(s: int, known: int, reloading: bool, backoff: int, found: bool, alive: bool, allowed: bool,
      ended: bool, fallback: bool)
      returns (d: int, held: bool, granted: bool)
      requires Valid() && 0 <= s < |sessions| && NONE <= known < |devices|
      modifies this`devices, this`sessions, this`log
      ensures Valid() && |sessions| == |old(sessions)| && |devices| >= |old(devices)|
      ensures held ==>
        0 <= d < |devices| && devices[d].state == Token && devices[d].since == now && sessions[s].device == d
      ensures granted == (held && fallback)
      ensures held == (!reloading && allowed && (alive || (known != NONE && old(sessions)[s].device == known)) &&
        (if known == NONE then found
          else !Cross(old(devices), old(sessions), s, known) && old(devices)[known].state in {Failed, Unregistered}))
      ensures Now() == TokenAsked(old(Now()), now, s, known, reloading, backoff, found, alive, allowed, ended)
      ensures d == if known != NONE || reloading then known else if found then |old(devices)| else NONE
      ensures known != NONE && !reloading && !held ==>
        var before, after := old(devices)[known], devices[known];
        if before.state == Token && now < before.since + backoff then
          Now() == Placed(old(Now()), known, before.session, now)
        else if Cross(old(devices), old(sessions), s, known) || before.state !in {Failed, Unregistered} then
          after.session == NONE && sessions[s].stopped
        else after.since == now && (alive || old(sessions)[s].device == known ==> after.state == Failed)
      ensures reloading || (known == NONE && !found) ==> Now() == old(Now())
    {
      hide Linked, Recorded, Moved, Refused, Retained, TokenTaken;
      held, granted := false, false;
      d := known;
      if reloading {
        return;
      }
      if known != NONE {
        var state := devices[known].state;
        LinkedHere(devices, sessions, known, s);
        if state == Token && now < devices[known].since + backoff {
          SetDevice(known, devices[known].session, now);
          return;
        }
        if Cross(devices, sessions, s, known) || (state != Failed && state != Unregistered) {
          SetDevice(known, devices[known].session, now);
          RefuseConnection(s, known, ended, false);
          return;
        }
      } else {
        LinkedHere(devices, sessions, NONE, s);
        d := FindOrCreate(found);
        if d == NONE {
          return;
        }
      }
      held := TakeToken(s, d, alive, allowed);
      granted := held && fallback;
    }

    /** The end of both, for a device that may get a token. */
    method TakeToken(s: int, d: int, alive: bool, allowed: bool) returns (held: bool)
      requires Valid() && 0 <= s < |sessions| && 0 <= d < |devices| && devices[d].state in {Failed, Unregistered}
      modifies this`devices, this`sessions, this`log
      ensures Valid() && |sessions| == |old(sessions)| && |devices| == |old(devices)|
      ensures held == (allowed && (alive || old(sessions)[s].device == d))
      ensures devices[d].since == now && (held ==> devices[d].state == Token && sessions[s].device == d)
      ensures !allowed && (alive || old(sessions)[s].device == d) ==> devices[d].state == Failed
      ensures Now() == TokenTaken(old(Now()), now, s, d, alive, allowed)
    {
      hide Linked, Recorded, Retained, Moved;
      var res := RetainDevice(s, d, alive);
      LinkedHere(devices, sessions, d, s);
      if res < 0 {
        SetDevice(d, devices[d].session, now);
        return false;
      }
      if !allowed {
        SetState(d, Failed);
        SetDevice(d, devices[d].session, now);
        return false;
      }
      SetState(d, Token);
      SetDevice(d, devices[d].session, now);
      held := true;
    }

    /** handle_register. */
    method Register(s: int, known: int, reloading: bool, found: bool, alive: bool, allowed: bool, ended: bool)
      returns (d: int, accepted: bool)
      requires Valid() && 0 <= s < |sessions| && NONE <= known < |devices|
      modifies this`devices, this`sessions, this`log
      ensures Valid() && |sessions| == |old(sessions)| && |devices| >= |old(devices)|
      ensures accepted ==>
        0 <= d < |devices| && devices[d].state == InProgress && devices[d].since == now && sessions[s].device == d
      ensures accepted == (!reloading && allowed && (alive || (known != NONE && old(sessions)[s].device == known)) &&
        (if known == NONE then found else
          && !Cross(old(devices), old(sessions), s, known)
          && (IsDown(old(devices)[known].state)
               || (old(devices)[known].state == Token && now - old(devices)[known].since <= 60))))
      ensures known != NONE && !reloading && !accepted ==> sessions[s].stopped && devices[known].session == NONE
      ensures accepted ==>
        d == (if known == NONE then |old(devices)| else known)
          && |devices| == |old(devices)| + (if known == NONE then 1 else 0)
      ensures accepted && (known == NONE || old(sessions)[s].device != known) ==> devices[d].session == s
      ensures accepted && (known != NONE || old(sessions)[s].device == NONE) ==>
        log == old(log)
          + [if known == NONE then Change(d, Unregistered, InProgress, now)
            else Change(d, old(devices)[known].state, InProgress, now - old(devices)[known].since)]
      ensures Now() == RegisterAsked(old(Now()), now, s, known, reloading, found, alive, allowed, ended)
      ensures d == if known != NONE || reloading then known else if found then |old(devices)| else NONE
      ensures known != NONE && !reloading && RegisterClashes(old(Now()), now, s, known) ==>
        !accepted && devices[known].state == Failed && devices[known].session == NONE
      ensures known != NONE && !reloading && !RegisterClashes(old(Now()), now, s, known) ==>
        (alive || old(sessions)[s].device == known) && !allowed ==> devices[known].state == Failed
      ensures reloading || (known == NONE && !found) ==> Now() == old(Now())
    {
      hide Linked, Recorded, Refused, Admitted, Moved;
      accepted := false;
      d := known;
      if reloading {
        return;
      }
      if known != NONE {
        var state := devices[known].state;
        if Cross(devices, sessions, s, known) || state == InProgress || state == Registered
          || (state == Token && now - devices[known].since > 60) {
          RefuseConnection(s, known, ended, true);
          return;
        }
      } else {
        LinkedHere(devices, sessions, NONE, s);
        d := FindOrCreate(found);
        if d == NONE {
          return;
        }
      }
      accepted := Admit(s, d, alive, allowed);
    }

    /** The end of handle_register, for a device that may register. */
    method Admit(s: int, d: int, alive: bool, allowed: bool) returns (accepted: bool)
      requires Valid() && 0 <= s < |sessions| && 0 <= d < |devices|
      requires IsDown(devices[d].state) || (devices[d].state == Token && now - devices[d].since <= 60)
      modifies this`devices, this`sessions, this`log
      ensures Valid() && |sessions| == |old(sessions)| && |devices| == |old(devices)|
      ensures accepted == (allowed && (alive || old(sessions)[s].device == d))
      ensures accepted ==> devices[d].state == InProgress && devices[d].since == now && sessions[s].device == d
      ensures accepted && old(sessions)[s].device != d ==> devices[d].session == s
      ensures accepted && old(sessions)[s].device in {NONE, d} ==>
        log == old(log) + [Change(d, old(devices)[d].state, InProgress, now - old(devices)[d].since)]
      ensures !accepted ==> sessions[s].stopped && devices[d].session == NONE
      ensures Now() == Admitted(old(Now()), now, s, d, alive, allowed)
      ensures !allowed && (alive || old(sessions)[s].device == d) ==> devices[d].state == Failed
    {
      hide Linked, Recorded;
      var res := RetainDevice(s, d, alive);
      LinkedHere(devices, sessions, d, s);
      if res < 0 {
        StopThread(s, Failed);
        SetDevice(d, NONE, devices[d].since);
        return false;
      }
      if !allowed {
        SetState(d, Failed);
        StopThread(s, Failed);
        SetDevice(d, NONE, devices[d].since);
        return false;
      }
      SetState(d, InProgress);
      SetDevice(d, devices[d].session, now);
      accepted := true;
    }

    /** sccp_handle_message for a message whose handler needs a device: it runs only for the device of
        this connection, and only while that is registering or registered; the handler may end the
        connection; and only here a registration becomes complete, by the protocol's last message. */
    method HandleDeviceMessage(s: int, sessionValid: bool, finishing: bool, handlerStops: bool, ended: bool)
      returns (ran: bool)
      requires Valid() && 0 <= s < |sessions|
      modifies this`devices, this`sessions, this`log
      ensures Valid() && |sessions| == |old(sessions)| && |devices| == |old(devices)|
      ensures NONE <= old(sessions)[s].device < |devices|
      ensures var d := old(sessions)[s].device;
        && ran == (sessionValid && d != NONE && !Cross(old(devices), old(sessions), s, d)
             && old(devices)[d].state in {InProgress, Registered})
        && (ran && handlerStops ==> devices[d].state == Failed)
        && (ran && !handlerStops && finishing ==> devices[d].state == Registered)
        && (ran && !handlerStops && !finishing ==> devices[d].state == old(devices)[d].state)
      ensures Now() == Handled(old(Now()), now, s, sessionValid, finishing, handlerStops, ended)
      ensures var d := old(sessions)[s].device;
        && (ran && handlerStops ==> sessions[s].stopped)
        && (ran && !handlerStops ==> sessions == old(sessions))
        && (ran && !handlerStops && finishing && old(devices)[d].state == InProgress ==> devices[d].since == now)
        && (!ran && !(sessionValid && d != NONE && Cross(old(devices), old(sessions), s, d)) ==> Now() == old(Now()))
    {
      hide Linked, Recorded;
      ran := false;
      var d := sessions[s].device;
      LinkedHere(devices, sessions, d, s);
      if !sessionValid || d == NONE {
        return;
      }
      if Cross(devices, sessions, s, d) {
        CrossDeviceCleanup(s, devices[d].session, ended);
        return;
      }
      if devices[d].state != InProgress && devices[d].state != Registered {
        return;
      }
      ran := true;
      if handlerStops {
        StopThread(s, Failed);
      }
      if devices[d].state == InProgress && finishing {
        SetState(d, Registered);
        LinkedHere(devices, sessions, d, s);
        SetDevice(d, devices[d].session, now);
      }
    }
  }

  // ---------------------------------------------------------------- runs

  /** Messages and the events that end connections; the latter come in steps, for other connections
      can be served between them. */
  datatype Event =
    | Connect | Tick(seconds: nat) | RequestToken(session: int, device: int)
    | RequestRegistration(session: int, device: int)
    | DeviceMessage(session: int, finishing: bool) | Unregister(session: int) | ConnectionLost(session: int)
    | KeepAliveLost(session: int)
    | Detach(session: int) | CleanBegins(device: int) | CleanEnds(device: int) | Release(session: int)

  method Step(x: Server, e: Event)
    requires x.Valid()
    modifies x
    ensures x.Valid()
  {
    hide Linked, Recorded;
    var p: bool, q: bool, r: bool, t: bool, u: bool := *, *, *, *, *;
    var backoff: int := *;
    match e {
      case Connect => var _ := x.Connect();
      case Tick(seconds) => x.now := x.now + seconds;
      case RequestToken(s, d) =>
        if 0 <= s < |x.sessions| && NONE <= d < |x.devices| {
          var _, _, _ := x.TokenRequest(s, d, false, backoff, p, q, r, t, u);
        }
      case RequestRegistration(s, d) =>
        if 0 <= s < |x.sessions| && NONE <= d < |x.devices| {
          var _, _ := x.Register(s, d, false, p, q, r, t);
        }
      case DeviceMessage(s, finishing) =>
        if 0 <= s < |x.sessions| {
          var _ := x.HandleDeviceMessage(s, p, finishing, q, r);
        }
      case Unregister(s) => if 0 <= s < |x.sessions| { x.StopThread(s, Unregistered); }
      case ConnectionLost(s) => if 0 <= s < |x.sessions| { x.StopThread(s, Failed); }
      case KeepAliveLost(s) => if 0 <= s < |x.sessions| { x.StopThread(s, TimedOut); }
      case Detach(s) => if 0 <= s < |x.sessions| { x.Detach(s); }
      case CleanBegins(d) => if 0 <= d < |x.devices| { x.SetState(d, Cleaning); }
      case CleanEnds(d) => if 0 <= d < |x.devices| { x.SetState(d, Unregistered); }
      case Release(s) => if 0 <= s < |x.sessions| { x.RemoveDevice(s); }
    }
  }

  /** Every change of a registration state on every run is lawful and starts where the last one ended. */
  method Run(events: seq<Event>) returns (x: Server)
    ensures History(x.log)
    ensures forall d :: 0 <= d < |x.devices| ==> x.devices[d].state == StateAfter(x.log, d)
  {
    x := new Server();
    for i := 0 to |events|
      invariant x.Valid()
    {
      Step(x, events[i]);
    }
  }

  /** A new phone registers, its keep-alive times out, and its session is taken from the device. */
  method TimesOut() returns (x: Server)
    ensures fresh(x) && x.Valid() && |x.devices| == 1 && |x.sessions| == 1 && x.devices[0].state == TimedOut
      && x.devices[0].session == NONE
    ensures x.log == [Change(0, Unregistered, InProgress, 0), Change(0, InProgress, TimedOut, 0)]
    ensures x.now == 0 && x.devices[0].since == 0
  {
    hide Linked, Recorded;
    x := new Server();
    var s := x.Connect();
    var d, accepted := x.Register(s, NONE, false, true, true, true, false);
    x.StopThread(s, TimedOut);
    x.Detach(s);
  }

  /** It connects again and is registered, before or while its old session is cleaned up, and was never
      failed or unregistered in between. */
  method SkipsBoth(cleaning: bool) returns (x: Server)
    ensures x.Valid() && |x.devices| == 1 && x.devices[0].state == InProgress
    ensures var j := |x.log| - 1;
      Registers(x.log, 0, 0, j) && Skips(x.log, 0, 0, j) && x.log[j].was == if cleaning then Cleaning else TimedOut
  {
    hide Linked, Recorded;
    x := TimesOut();
    if cleaning {
      x.SetState(0, Cleaning);
    }
    var s := x.Connect();
    var d, accepted := x.Register(s, 0, false, false, true, true, false);
  }

  /** A registration that is refused since the device looks registered, or is registering, or sits on
      another connection or an old token, is not the end: the next one, on a fresh connection, is
      accepted, whether or not the old connection was gone by then. */
  method RefusedThenAccepted(x: Server, s: int, known: int, ended: bool) returns (t: int)
    requires x.Valid() && 0 <= s < |x.sessions| && 0 <= known < |x.devices|
    requires RegisterClashes(x.Now(), x.now, s, known)
    modifies x
    ensures x.Valid() && 0 <= t < |x.sessions| && |x.devices| == |old(x.devices)|
    ensures x.devices[known].state == InProgress && x.devices[known].session == t && x.sessions[t].device == known
  {
    hide Linked, Recorded, Refused, Admitted;
    var d, refused := x.Register(s, known, false, false, true, true, ended);
    t := x.Connect();
    var e, accepted := x.Register(t, known, false, false, true, true, ended);
  }
}
