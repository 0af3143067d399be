/** The button template of a phone: configured buttons take the placeholder slots of the model
    (sccp_actions.c). */
module Buttons {

  // Placeholder types and the real types that take their place.
  const MULTI: nat := 0xF1
  const LINE: nat := 0xF2
  const SPEEDDIAL: nat := 0xF3
  const HINT: nat := 0xF4
  const ABBRDIAL: nat := 0xF5

  const UNUSED: nat := 0x00
  const SPEEDDIAL_BUTTON: nat := 0x02
  const LINE_BUTTON: nat := 0x09
  const FEATURE_BUTTON: nat := 0x13
  const SERVICEURL_BUTTON: nat := 0x14
  const BLFSPEEDDIAL_BUTTON: nat := 0x15
  const MULTIBLINK_BUTTON: nat := 0x26

  predicate Placeholder(t: nat) {
    MULTI <= t <= ABBRDIAL
  }

  datatype Feature =
    | Hold | TransferCall | DevState | Monitor | MultiBlink | Dnd | ParkingLot | Mobility | Conference | Pickup
    | DoNotDisturb | ConfList | RemoveLastParticipant | HuntGroup | QualityReport | CallBack | OtherPickup | VideoMode
    | NewCall | EndCall | TestF | TestI | TestG | TestH | TestJ | AnyOther

  /** A configured button; named, labelled: the string is not empty; defined: the line exists. */
  datatype Config =
    | Line(named: bool, defined: bool, asDefault: bool)
    | SpeedDial(labelled: bool, hinted: bool)
    | Service
    | FeatureKey(labelled: bool, feature: Feature, hasOptions: bool)
    | Empty

  /** What the template depends on besides the buttons. */
  datatype Model = Model(protocol: nat, is894x: bool, dynamicSpeedDial: bool, parkObserver: bool)

  predicate Eligible(c: Config) {
    match c
    case Line(named, _, _) => named
    case SpeedDial(labelled, _) => labelled
    case FeatureKey(labelled, _, _) => labelled
    case _ => true
  }

  function BlinkOr(m: Model, blinks: bool): nat {
    if blinks then MULTIBLINK_BUTTON else FEATURE_BUTTON
  }

  function FeatureType(f: Feature, hasOptions: bool, m: Model): (t: nat)
    ensures !Placeholder(t)
  {
    match f
    case Hold => 0x03
    case TransferCall => 0x04
    case DevState | Monitor | MultiBlink => BlinkOr(m, m.protocol >= 15 && !m.is894x)
    case Dnd => BlinkOr(m, !hasOptions && m.protocol >= 15)
    case ParkingLot => if m.parkObserver then BlinkOr(m, m.protocol > 15) else 0xC0
    case Mobility => 0x81
    case Conference => 0x7D
    case Pickup => 0x80
    case DoNotDisturb => 0x82
    case ConfList => 0x83
    case RemoveLastParticipant => 0x84
    case HuntGroup => 0x8B
    case QualityReport => 0x85
    case CallBack => 0x86
    case OtherPickup => 0x87
    case VideoMode => 0x88
    case NewCall => 0x89
    case EndCall => 0x8A
    case TestF => 0xC1
    case TestI => 0xC4
    case TestG => 0xC2
    case TestH => 0xC3
    case TestJ => 0xC5
    case AnyOther => FEATURE_BUTTON
  }

  /** The counter an instance comes from; Zero: the instance is cleared; Untouched: it stays. */
  datatype Counter = Lines | Services | Dials | Zero | Untouched

  datatype Outcome = Outcome(kind: nat, counter: Counter)

  const SKIPPED := Outcome(UNUSED, Untouched)

  /** What a button makes of the placeholder it meets. */
  function Meets(c: Config, t: nat, m: Model): (o: Outcome)
    requires Eligible(c) && Placeholder(t)
    ensures !Placeholder(o.kind)
  {
    match c
    case Line(_, defined, _) =>
      if t == MULTI || t == LINE then (if defined then Outcome(LINE_BUTTON, Lines) else Outcome(UNUSED, Zero))
        else SKIPPED
    case Empty =>
      if t == MULTI || t == LINE || t == SPEEDDIAL then Outcome(UNUSED, Zero) else SKIPPED
    case Service =>
      if t == MULTI then Outcome(SERVICEURL_BUTTON, Services) else SKIPPED
    case SpeedDial(_, hinted) =>
      if t == MULTI || t == SPEEDDIAL then
        if hinted && t == MULTI then
          if m.dynamicSpeedDial && m.protocol >= 15 then Outcome(BLFSPEEDDIAL_BUTTON, Dials)
            else Outcome(LINE_BUTTON, Lines)
        else Outcome(SPEEDDIAL_BUTTON, Dials)
      else if t == ABBRDIAL then Outcome(SPEEDDIAL_BUTTON, Dials)
      else SKIPPED
    case FeatureKey(_, f, hasOptions) =>
      if t == MULTI then Outcome(FeatureType(f, hasOptions, m), Dials) else SKIPPED
  }

  // ---------------------------------------------------------------- one button after the other

  /** The template under construction: slot types and instances, the instance of each configured
      button, the next instance of each counter, and the default line of the device. */
  datatype Template = Template(types: seq<nat>, instances: seq<nat>, given: seq<nat>,
                               line: nat, service: nat, dial: nat, defaultLine: nat)

  predicate Fits(t: Template, configs: seq<Config>) {
    |t.instances| == |t.types| && |t.given| == |configs|
  }

  /** The first placeholder from slot i on, or the number of slots. */
  function FirstFrom(types: seq<nat>, i: nat): (j: nat)
    requires i <= |types|
    ensures i <= j <= |types|
    ensures forall k :: i <= k < j ==> !Placeholder(types[k])
    ensures j < |types| ==> Placeholder(types[j])
    decreases |types| - i
  {
    if i == |types| || Placeholder(types[i]) then i else FirstFrom(types, i + 1)
  }

  function Numbered(t: Template, i: nat, k: nat, n: nat): Template
    requires i < |t.types| && |t.instances| == |t.types| && k < |t.given|
  {
    t.(instances := t.instances[i := n], given := t.given[k := n])
  }

  /** Slot i goes to button k with the given outcome. */
  function Given(t: Template, configs: seq<Config>, k: nat, i: nat, o: Outcome): (r: Template)
    requires Fits(t, configs) && k < |configs| && i < |t.types|
    ensures Fits(r, configs)
  {
    var u := t.(types := t.types[i := o.kind]);
    match o.counter
    case Lines =>
      Numbered(u, i, k, t.line).(line := t.line + 1,
        defaultLine := if configs[k].Line? && t.defaultLine == 0 then t.line else t.defaultLine)
    case Services => Numbered(u, i, k, t.service).(service := t.service + 1)
    case Dials => Numbered(u, i, k, t.dial).(dial := t.dial + 1)
    case Zero => Numbered(u, i, k, 0)
    case Untouched => u
  }

  /** Button k takes the first placeholder, unless it has an instance already. */
  function Place(t: Template, configs: seq<Config>, k: nat, m: Model): (r: Template)
    requires Fits(t, configs) && k < |configs|
    ensures Fits(r, configs) && |r.types| == |t.types|
  {
    var i := FirstFrom(t.types, 0);
    if t.given[k] > 0 || !Eligible(configs[k]) || i == |t.types| then t
    else Given(t, configs, k, i, Meets(configs[k], t.types[i], m))
  }

  lemma KeptButton(t: Template, configs: seq<Config>, k: nat, m: Model)
    requires Fits(t, configs) && k < |configs| && t.given[k] > 0
    ensures Place(t, configs, k, m) == t
  {
  }

  /** The first n buttons, in order. */
  function Filled(t: Template, configs: seq<Config>, n: nat, m: Model): (r: Template)
    requires Fits(t, configs) && n <= |configs|
    ensures Fits(r, configs) && |r.types| == |t.types|
    decreases n
  {
    if n == 0 then t else Place(Filled(t, configs, n - 1, m), configs, n - 1, m)
  }

  // ---------------------------------------------------------------- who gets what

  /** The placeholder slots below n, in order. */
  function Slots(types: seq<nat>, n: nat): (s: seq<nat>)
    requires n <= |types|
    ensures |s| <= n && forall e :: 0 <= e < |s| ==> s[e] < n && Placeholder(types[s[e]])
    decreases n
  {
    if n == 0 then [] else Slots(types, n - 1) + (if Placeholder(types[n - 1]) then [n - 1] else [])
  }

  /** The eligible buttons below n, in order. */
  function Takers(configs: seq<Config>, n: nat): (s: seq<nat>)
    requires n <= |configs|
    ensures |s| <= n && forall e :: 0 <= e < |s| ==> s[e] < n && Eligible(configs[s[e]])
    decreases n
  {
    if n == 0 then [] else Takers(configs, n - 1) + (if Eligible(configs[n - 1]) then [n - 1] else [])
  }

  predicate Increasing(s: seq<nat>) {
    forall e, f :: 0 <= e < f < |s| ==> s[e] < s[f]
  }

  lemma {:induction false} SlotsAreAll(types: seq<nat>, n: nat)
    requires n <= |types|
    ensures Increasing(Slots(types, n))
    ensures forall i :: 0 <= i < n && Placeholder(types[i]) ==> i in Slots(types, n)
  {
    if n > 0 {
      SlotsAreAll(types, n - 1);
    }
  }

  lemma {:induction false} TakersAreAll(configs: seq<Config>, n: nat)
    requires n <= |configs|
    ensures Increasing(Takers(configs, n))
    ensures forall k :: 0 <= k < n && Eligible(configs[k]) ==> k in Takers(configs, n)
  {
    if n > 0 {
      TakersAreAll(configs, n - 1);
    }
  }

  lemma {:induction false} TakersGrow(configs: seq<Config>, n: nat)
    requires n <= |configs|
    ensures Takers(configs, n) <= Takers(configs, |configs|)
    ensures n < |configs| && Eligible(configs[n]) ==>
      |Takers(configs, n)| < |Takers(configs, |configs|)| && Takers(configs, |configs|)[|Takers(configs, n)|] == n
    decreases |configs| - n
  {
    if n < |configs| {
      TakersGrow(configs, n + 1);
    }
  }

  function Min(a: nat, b: nat): nat {
    if a < b then a else b
  }

  /** How many buttons are placed. */
  function PlacedCount(types: seq<nat>, configs: seq<Config>): (n: nat)
    ensures n <= |Slots(types, |types|)| && n <= |Takers(configs, |configs|)|
  {
    Min(|Slots(types, |types|)|, |Takers(configs, |configs|)|)
  }

  /** What becomes of the e-th placeholder slot: it is met by the e-th eligible button. */
  function OutcomeAt(types: seq<nat>, configs: seq<Config>, m: Model, e: nat): Outcome
    requires e < PlacedCount(types, configs)
  {
    Meets(configs[Takers(configs, |configs|)[e]], types[Slots(types, |types|)[e]], m)
  }

  /** How many of the first e placeholder slots took an instance from the counter. */
  function Before(types: seq<nat>, configs: seq<Config>, m: Model, e: nat, c: Counter): nat
    requires e <= PlacedCount(types, configs)
    decreases e
  {
    if e == 0 then 0
      else Before(types, configs, m, e - 1, c) + (if OutcomeAt(types, configs, m, e - 1).counter == c then 1 else 0)
  }

  /** Counted from 1 within its own counter. */
  function InstanceAt(types: seq<nat>, configs: seq<Config>, m: Model, e: nat, untouched: nat): nat
    requires e < PlacedCount(types, configs)
  {
    var c := OutcomeAt(types, configs, m, e).counter;
    if c == Zero then 0 else if c == Untouched then untouched else 1 + Before(types, configs, m, e, c)
  }

  /** The first e placeholder slots have their type and their instance, the others are as they were. */
  ghost predicate SlotsTaken(t: Template, start: Template, configs: seq<Config>, m: Model, e: nat)
    requires Fits(start, configs)
  {
    var slots := Slots(start.types, |start.types|);
    && |t.types| == |t.instances| == |start.types| && e <= PlacedCount(start.types, configs)
    && (forall f :: 0 <= f < e ==>
          && t.types[slots[f]] == OutcomeAt(start.types, configs, m, f).kind
          && t.instances[slots[f]] == InstanceAt(start.types, configs, m, f, start.instances[slots[f]]))
    && (forall i :: 0 <= i < |t.types| && i !in slots[..e] ==>
         t.types[i] == start.types[i] && t.instances[i] == start.instances[i])
  }

  /** The first e eligible buttons have the instance of their slot, the others have none. */
  ghost predicate ButtonsGiven(t: Template, start: Template, configs: seq<Config>, m: Model, e: nat)
    requires Fits(start, configs)
  {
    var takers := Takers(configs, |configs|);
    && |t.given| == |configs| && e <= PlacedCount(start.types, configs)
    && (forall f :: 0 <= f < e ==> t.given[takers[f]] == InstanceAt(start.types, configs, m, f, 0))
    && (forall k :: 0 <= k < |t.given| && k !in takers[..e] ==> t.given[k] == 0)
  }

  /** The closed form of a template in which the first e placeholder slots are taken. */
  ghost predicate Taken(t: Template, start: Template, configs: seq<Config>, m: Model, e: nat)
    requires Fits(start, configs)
  {
    && SlotsTaken(t, start, configs, m, e) && ButtonsGiven(t, start, configs, m, e)
    && t.line == 1 + Before(start.types, configs, m, e, Lines)
    && t.service == 1 + Before(start.types, configs, m, e, Services)
    && t.dial == 1 + Before(start.types, configs, m, e, Dials)
  }

  predicate Fresh(t: Template, configs: seq<Config>) {
    Fits(t, configs) && t.line == 1 && t.service == 1 && t.dial == 1
      && forall k :: 0 <= k < |t.given| ==> t.given[k] == 0
  }

  /** The placeholders that are left are the slots from e on. */
  lemma StillFree(t: Template, start: Template, configs: seq<Config>, m: Model, e: nat, i: nat)
    requires Fits(start, configs) && Taken(t, start, configs, m, e) && i < |t.types|
    ensures var slots := Slots(start.types, |start.types|);
      Placeholder(t.types[i]) <==> exists f :: e <= f < |slots| && slots[f] == i
  {
    hide Slots, Takers, Meets, Before, OutcomeAt, InstanceAt, ButtonsGiven;
    var slots := Slots(start.types, |start.types|);
    SlotsAreAll(start.types, |start.types|);
    if i in slots[..e] {
      var f :| 0 <= f < e && slots[f] == i;
      KindIsReal(start.types, configs, m, f);
      assert forall g :: e <= g < |slots| ==> slots[f] < slots[g];
    } else {
      assert t.types[i] == start.types[i];
      if Placeholder(start.types[i]) {
        assert i in slots;
        var f :| 0 <= f < |slots| && slots[f] == i;
        assert forall g :: 0 <= g < e ==> slots[..e][g] == slots[g] && slots[g] in slots[..e];
      }
    }
  }

  lemma KindIsReal(types: seq<nat>, configs: seq<Config>, m: Model, f: nat)
    requires f < PlacedCount(types, configs)
    ensures !Placeholder(OutcomeAt(types, configs, m, f).kind)
  {
  }

  /** The next button in line meets the next slot in line. */
  lemma FirstIsNext(t: Template, start: Template, configs: seq<Config>, m: Model, e: nat)
    requires Fits(start, configs) && Taken(t, start, configs, m, e)
    ensures var slots := Slots(start.types, |start.types|);
      FirstFrom(t.types, 0) == if e < |slots| then slots[e] else |t.types|
  {
    hide Slots, Takers, Meets, Before, Taken, FirstFrom;
    var slots := Slots(start.types, |start.types|);
    SlotsAreAll(start.types, |start.types|);
    var j := FirstFrom(t.types, 0);
    TakenFits(t, start, configs, m, e);
    if j < |t.types| {
      StillFree(t, start, configs, m, e, j);
    }
    if e < |slots| {
      StillFree(t, start, configs, m, e, slots[e]);
    }
  }

  lemma TakenFits(t: Template, start: Template, configs: seq<Config>, m: Model, e: nat)
    requires Fits(start, configs) && Taken(t, start, configs, m, e)
    ensures Fits(t, configs) && |t.types| == |start.types| && e <= PlacedCount(start.types, configs)
  {
  }

  /** The instance that Given hands out. */
  function NextInstance(t: Template, c: Counter, untouched: nat): nat {
    match c
    case Lines => t.line
    case Services => t.service
    case Dials => t.dial
    case Zero => 0
    case Untouched => untouched
  }

  lemma GivenIs(t: Template, configs: seq<Config>, k: nat, i: nat, o: Outcome)
    requires Fits(t, configs) && k < |configs| && i < |t.types|
    ensures var r := Given(t, configs, k, i, o);
      && r.types == t.types[i := o.kind]
      && r.instances == t.instances[i := NextInstance(t, o.counter, t.instances[i])]
      && r.given == t.given[k := NextInstance(t, o.counter, t.given[k])]
      && r.line == t.line + (if o.counter == Lines then 1 else 0)
      && r.service == t.service + (if o.counter == Services then 1 else 0)
      && r.dial == t.dial + (if o.counter == Dials then 1 else 0)
  {
  }

  lemma NextIs(t: Template, start: Template, configs: seq<Config>, m: Model, e: nat, untouched: nat)
    requires Fits(start, configs) && Taken(t, start, configs, m, e) && e < PlacedCount(start.types, configs)
    ensures NextInstance(t, OutcomeAt(start.types, configs, m, e).counter, untouched)
      == InstanceAt(start.types, configs, m, e, untouched)
  {
    hide Slots, Takers, Meets, Before, SlotsTaken, ButtonsGiven;
  }

  lemma TakeNextSlot(t: Template, r: Template, start: Template, configs: seq<Config>, m: Model, e: nat)
    requires Fits(start, configs) && SlotsTaken(t, start, configs, m, e) && e < PlacedCount(start.types, configs)
    requires var i := Slots(start.types, |start.types|)[e];
      && r.types == t.types[i := OutcomeAt(start.types, configs, m, e).kind]
      && r.instances == t.instances[i := InstanceAt(start.types, configs, m, e, start.instances[i])]
    ensures SlotsTaken(r, start, configs, m, e + 1)
  {
    hide Slots, Takers, OutcomeAt, InstanceAt;
    var slots := Slots(start.types, |start.types|);
    SlotsAreAll(start.types, |start.types|);
    assert slots[..e + 1] == slots[..e] + [slots[e]];
  }

  lemma GivenOneMore(given: seq<nat>, takers: seq<nat>, e: nat, v: nat)
    requires e < |takers| && Increasing(takers) && forall f :: 0 <= f < |takers| ==> takers[f] < |given|
    ensures var r := given[takers[e] := v];
      && r[takers[e]] == v
      && (forall f :: 0 <= f < e ==> r[takers[f]] == given[takers[f]])
      && (forall k :: 0 <= k < |r| && k !in takers[..e + 1] ==> r[k] == given[k] && k !in takers[..e])
  {
    assert takers[..e + 1] == takers[..e] + [takers[e]];
  }

  lemma GiveNextButton(t: Template, r: Template, start: Template, configs: seq<Config>, m: Model, e: nat)
    requires Fits(start, configs) && ButtonsGiven(t, start, configs, m, e) && e < PlacedCount(start.types, configs)
    requires r.given == t.given[Takers(configs, |configs|)[e] := InstanceAt(start.types, configs, m, e, 0)]
    ensures ButtonsGiven(r, start, configs, m, e + 1)
  {
    hide Slots, Takers, OutcomeAt, InstanceAt, Increasing, Before, Eligible, Placeholder;
    TakersAreAll(configs, |configs|);
    var takers := Takers(configs, |configs|);
    GivenOneMore(t.given, takers, e, InstanceAt(start.types, configs, m, e, 0));
    forall f | 0 <= f < e + 1 ensures r.given[takers[f]] == InstanceAt(start.types, configs, m, f, 0) {
      if f < e {
        assert t.given[takers[f]] == InstanceAt(start.types, configs, m, f, 0);
      }
    }
  }

  lemma NotTakenYet(t: Template, start: Template, configs: seq<Config>, m: Model, e: nat)
    requires Fits(start, configs) && Taken(t, start, configs, m, e) && e < PlacedCount(start.types, configs)
    ensures var i := Slots(start.types, |start.types|)[e];
      && Fits(t, configs) && |t.types| == |start.types|
      && t.given[Takers(configs, |configs|)[e]] == 0 && t.types[i] == start.types[i]
           && t.instances[i] == start.instances[i]
  {
    hide Meets, Slots, Takers, Before;
    TakersAreAll(configs, |configs|);
    SlotsAreAll(start.types, |start.types|);
    assert Takers(configs, |configs|)[e] !in Takers(configs, |configs|)[..e];
    assert Slots(start.types, |start.types|)[e] !in Slots(start.types, |start.types|)[..e];
  }

  /** Taking the next slot keeps the closed form. */
  lemma TakeNext(t: Template, start: Template, configs: seq<Config>, m: Model, e: nat)
    requires Fits(start, configs) && Taken(t, start, configs, m, e) && e < PlacedCount(start.types, configs)
    ensures Fits(t, configs) && |t.types| == |start.types|
    ensures var i, k := Slots(start.types, |start.types|)[e], Takers(configs, |configs|)[e];
      && t.types[i] == start.types[i] && t.given[k] == 0
      && Taken(Given(t, configs, k, i, OutcomeAt(start.types, configs, m, e)), start, configs, m, e + 1)
  {
    hide Slots, Takers, Given, SlotsTaken, ButtonsGiven, InstanceAt, NextInstance, OutcomeAt;
    var i, k := Slots(start.types, |start.types|)[e], Takers(configs, |configs|)[e];
    NotTakenYet(t, start, configs, m, e);
    var r := Given(t, configs, k, i, OutcomeAt(start.types, configs, m, e));
    GivenIs(t, configs, k, i, OutcomeAt(start.types, configs, m, e));
    NextIs(t, start, configs, m, e, start.instances[i]);
    NextIs(t, start, configs, m, e, 0);
    TakeNextSlot(t, r, start, configs, m, e);
    GiveNextButton(t, r, start, configs, m, e);
  }

  lemma TakersStep(configs: seq<Config>, n: nat)
    requires n < |configs|
    ensures |Takers(configs, n + 1)| == |Takers(configs, n)| + (if Eligible(configs[n]) then 1 else 0)
    ensures |Takers(configs, n)| <= |Takers(configs, |configs|)|
    ensures Eligible(configs[n]) ==>
      |Takers(configs, n)| < |Takers(configs, |configs|)| && Takers(configs, |configs|)[|Takers(configs, n)|] == n
  {
    TakersGrow(configs, n);
  }

  lemma OutcomeMeets(start: Template, configs: seq<Config>, m: Model, e: nat)
    requires e < PlacedCount(start.types, configs)
    ensures OutcomeAt(start.types, configs, m, e)
         == Meets(configs[Takers(configs, |configs|)[e]], start.types[Slots(start.types, |start.types|)[e]], m)
  {
  }

  /** The next button, if there is a slot left. */
  lemma PlaceNext(t: Template, start: Template, configs: seq<Config>, m: Model, n: nat, e: nat)
    requires Fits(start, configs) && n < |configs|
    requires e == Min(|Slots(start.types, |start.types|)|, |Takers(configs, n)|) && Taken(t, start, configs, m, e)
    ensures Fits(t, configs)
    ensures Taken(Place(t, configs, n, m), start, configs, m,
      Min(|Slots(start.types, |start.types|)|, |Takers(configs, n + 1)|))
  {
    hide Meets, Taken, Slots, Takers, FirstFrom, Given, Eligible, OutcomeAt, Fits;
    TakersStep(configs, n);
    TakenFits(t, start, configs, m, e);
    FirstIsNext(t, start, configs, m, e);
    if Eligible(configs[n]) && e < |Slots(start.types, |start.types|)| {
      TakeNext(t, start, configs, m, e);
      OutcomeMeets(start, configs, m, e);
    }
  }

  /** After any number of buttons the template has its closed form. */
  lemma {:induction false} FilledIsTaken(start: Template, configs: seq<Config>, n: nat, m: Model)
    requires Fresh(start, configs) && n <= |configs|
    ensures Taken(Filled(start, configs, n, m), start, configs, m,
      Min(|Slots(start.types, |start.types|)|, |Takers(configs, n)|))
  {
    hide Taken, Slots, Takers, Place, Eligible, Fits;
    if n == 0 {
      NothingTaken(start, configs, m);
    } else {
      FilledIsTaken(start, configs, n - 1, m);
      var e := Min(|Slots(start.types, |start.types|)|, |Takers(configs, n - 1)|);
      PlaceNext(Filled(start, configs, n - 1, m), start, configs, m, n - 1, e);
    }
  }

  lemma NothingTaken(start: Template, configs: seq<Config>, m: Model)
    requires Fresh(start, configs)
    ensures Taken(start, start, configs, m, 0)
  {
  }

  /** The k-th eligible button takes exactly the k-th placeholder slot, and both get the same
      instance; no slot is taken twice, for both lists increase, and nothing else changes. */
  lemma KthTakesKth(start: Template, configs: seq<Config>, m: Model)
    requires Fresh(start, configs)
    ensures var slots, takers, done := Slots(start.types, |start.types|), Takers(configs, |configs|),
      Filled(start, configs, |configs|, m);
      && Increasing(slots) && Increasing(takers)
      && (forall i :: 0 <= i < |start.types| && Placeholder(start.types[i]) ==> i in slots)
      && (forall k :: 0 <= k < |configs| && Eligible(configs[k]) ==> k in takers)
      && (forall e :: 0 <= e < |slots| && e < |takers| ==>
            var o := Meets(configs[takers[e]], start.types[slots[e]], m);
            && done.types[slots[e]] == o.kind
            && (o.counter == Untouched ==>
                 done.given[takers[e]] == 0 && done.instances[slots[e]] == start.instances[slots[e]])
            && (o.counter == Zero ==> done.given[takers[e]] == 0 && done.instances[slots[e]] == 0)
            && (o.counter in {Lines, Services, Dials} ==>
                  done.given[takers[e]] == done.instances[slots[e]]
                    == 1 + Before(start.types, configs, m, e, o.counter)))
      && (forall i :: 0 <= i < |start.types| && i !in slots[..PlacedCount(start.types, configs)] ==>
            done.types[i] == start.types[i] && done.instances[i] == start.instances[i])
  {
    hide Slots, Takers, Meets, Before;
    SlotsAreAll(start.types, |start.types|);
    TakersAreAll(configs, |configs|);
    FilledIsTaken(start, configs, |configs|, m);
    var slots, takers, done := Slots(start.types, |start.types|), Takers(configs, |configs|),
      Filled(start, configs, |configs|, m);
    forall e | 0 <= e < |slots| && e < |takers|
      ensures done.types[slots[e]] == OutcomeAt(start.types, configs, m, e).kind
      ensures done.instances[slots[e]] == InstanceAt(start.types, configs, m, e, start.instances[slots[e]])
      ensures done.given[takers[e]] == InstanceAt(start.types, configs, m, e, 0)
    {
    }
  }

  /** Within a counter instances read 1, 2, 3 from left to right: the first slot of the counter has
      instance 1, and each next one the instance after that of the one before. */
  lemma {:induction false} InstancesReadUp(types: seq<nat>, configs: seq<Config>, m: Model, e: nat, f: nat,
    untouched: nat)
    requires e < f < PlacedCount(types, configs)
    requires var c := OutcomeAt(types, configs, m, f).counter;
      && c in {Lines, Services, Dials}
      && OutcomeAt(types, configs, m, e).counter == c
      && forall g :: e < g < f ==> OutcomeAt(types, configs, m, g).counter != c
    ensures InstanceAt(types, configs, m, f, untouched) == InstanceAt(types, configs, m, e, untouched) + 1
  {
    NoneBetween(types, configs, m, e + 1, f, OutcomeAt(types, configs, m, f).counter);
  }

  lemma FirstOfCounter(types: seq<nat>, configs: seq<Config>, m: Model, f: nat, untouched: nat)
    requires f < PlacedCount(types, configs)
    requires var c := OutcomeAt(types, configs, m, f).counter;
      c in {Lines, Services, Dials} && forall g :: 0 <= g < f ==> OutcomeAt(types, configs, m, g).counter != c
    ensures InstanceAt(types, configs, m, f, untouched) == 1
  {
    NoneBetween(types, configs, m, 0, f, OutcomeAt(types, configs, m, f).counter);
  }

  lemma {:induction false} NoneBetween(types: seq<nat>, configs: seq<Config>, m: Model, e: nat, f: nat, c: Counter)
    requires e <= f <= PlacedCount(types, configs)
    requires forall g :: e <= g < f ==> OutcomeAt(types, configs, m, g).counter != c
    ensures Before(types, configs, m, f, c) == Before(types, configs, m, e, c)
    decreases f
  {
    hide OutcomeAt;
    if e < f {
      NoneBetween(types, configs, m, e, f - 1, c);
    }
  }

  /** The line counter numbers exactly the line buttons, real lines and hinted speed dials together,
      and the service counter exactly the service buttons. */
  lemma CountersAreKinds(c: Config, t: nat, m: Model)
    requires Eligible(c) && Placeholder(t)
    ensures Meets(c, t, m).kind == LINE_BUTTON <==> Meets(c, t, m).counter == Lines
    ensures Meets(c, t, m).kind == SERVICEURL_BUTTON <==> Meets(c, t, m).counter == Services
    ensures Meets(c, t, m).counter == Dials ==> c.SpeedDial? || c.FeatureKey?
    ensures Meets(c, t, m).kind == UNUSED <==> Meets(c, t, m).counter in {Zero, Untouched}
  {
  }

  // ---------------------------------------------------------------- what each button makes of each slot

  /** Which placeholders a button can use. */
  function Uses(c: Config): set<nat> {
    match c
    case Line(_, _, _) => {MULTI, LINE}
    case Empty => {MULTI, LINE, SPEEDDIAL}
    case SpeedDial(_, _) => {MULTI, SPEEDDIAL, ABBRDIAL}
    case _ => {MULTI}
  }

  /** A dial with a hint on a multi-purpose slot, which newer phones can show as what it is. */
  predicate ShowsHint(c: Config, t: nat) {
    c.SpeedDial? && c.hinted && t == MULTI
  }

  /** Only a line without a name, and a dial or a feature without a label, take no slot. */
  lemma WhoIsPassedOver(c: Config)
    ensures !Eligible(c) <==> (c.Line? && !c.named) || ((c.SpeedDial? || c.FeatureKey?) && !c.labelled)
  {
  }

  /** A placeholder of the wrong sort is used up, its instance and that of the button staying as they
      were; an empty button and a line that does not exist have instance 0; all others are numbered by
      the counter of what they are shown as. */
  lemma MeetsMeans(c: Config, t: nat, m: Model)
    requires Eligible(c) && Placeholder(t)
    ensures Meets(c, t, m).counter == Untouched <==> t !in Uses(c)
    ensures Meets(c, t, m).counter == Zero <==> t in Uses(c) && (c.Empty? || (c.Line? && !c.defined))
    ensures Meets(c, t, m).counter == Services <==> t in Uses(c) && c.Service?
    ensures Meets(c, t, m).counter == Lines <==>
      (t in Uses(c) && c.Line? && c.defined) || (ShowsHint(c, t) && !(m.dynamicSpeedDial && m.protocol >= 15))
    ensures Meets(c, t, m).kind == BLFSPEEDDIAL_BUTTON <==> ShowsHint(c, t) && m.dynamicSpeedDial && m.protocol >= 15
    ensures Meets(c, t, m).kind == SPEEDDIAL_BUTTON <==> c.SpeedDial? && t in Uses(c) && !ShowsHint(c, t)
    ensures c.FeatureKey? && t == MULTI ==> Meets(c, t, m).kind == FeatureType(c.feature, c.hasOptions, m)
  {
  }

  /** The buttons that blink in several ways need a newer phone, and parking one newer still. */
  lemma BlinksIf(f: Feature, hasOptions: bool, m: Model)
    ensures FeatureType(f, hasOptions, m) == MULTIBLINK_BUTTON <==>
      || (f in {DevState, Monitor, MultiBlink} && m.protocol >= 15 && !m.is894x)
      || (f == Dnd && !hasOptions && m.protocol >= 15)
      || (f == ParkingLot && m.parkObserver && m.protocol >= 16)
    ensures FeatureType(f, hasOptions, m) == FEATURE_BUTTON <==>
      || (f in {DevState, Monitor, MultiBlink} && (m.protocol < 15 || m.is894x))
      || (f == Dnd && (hasOptions || m.protocol < 15))
      || (f == ParkingLot && m.parkObserver && m.protocol < 16)
      || f == AnyOther
  {
  }

  /** All the others have a button type of their own: three ranges of codes, in this order. */
  lemma FeatureCodes(hasOptions: bool, m: Model, i: nat)
    ensures i < 2 ==> FeatureType([Hold, TransferCall][i], hasOptions, m) == 0x03 + i
    ensures i < 12 ==>
      FeatureType([Pickup, Mobility, DoNotDisturb, ConfList, RemoveLastParticipant, QualityReport, CallBack,
                   OtherPickup, VideoMode, NewCall, EndCall, HuntGroup][i], hasOptions, m) == 0x80 + i
    ensures i < 6 && !m.parkObserver ==>
      FeatureType([ParkingLot, TestF, TestG, TestH, TestI, TestJ][i], hasOptions, m) == 0xC0 + i
    ensures FeatureType(Conference, hasOptions, m) == 0x7D
  {
  }

  // ---------------------------------------------------------------- the default line

  /** Slot e shows a real line, not a hinted dial. */
  predicate IsLineAt(types: seq<nat>, configs: seq<Config>, m: Model, e: nat)
    requires e < PlacedCount(types, configs)
  {
    configs[Takers(configs, |configs|)[e]].Line? && OutcomeAt(types, configs, m, e).counter == Lines
  }

  /** The first of the slots from e on that shows a real line, or n. */
  function FirstLine(types: seq<nat>, configs: seq<Config>, m: Model, e: nat, n: nat): (f: nat)
    requires e <= n <= PlacedCount(types, configs)
    ensures e <= f <= n && (f < n ==> IsLineAt(types, configs, m, f))
    ensures forall g :: e <= g < f ==> !IsLineAt(types, configs, m, g)
    decreases n - e
  {
    if e == n || IsLineAt(types, configs, m, e) then e else FirstLine(types, configs, m, e + 1, n)
  }

  /** A default line stays; without one it is the instance of the first real line that was placed. */
  function DefaultAfter(start: Template, configs: seq<Config>, m: Model, e: nat): nat
    requires e <= PlacedCount(start.types, configs)
  {
    if start.defaultLine != 0 then start.defaultLine
    else
      var f := FirstLine(start.types, configs, m, 0, e);
      if f < e then InstanceAt(start.types, configs, m, f, 0) else 0
  }

  /** How many slots the first n buttons take. */
  function Reached(types: seq<nat>, configs: seq<Config>, n: nat): (e: nat)
    requires n <= |configs|
    ensures e <= PlacedCount(types, configs) && e == Min(|Slots(types, |types|)|, |Takers(configs, n)|)
  {
    TakersGrow(configs, n);
    Min(|Slots(types, |types|)|, |Takers(configs, n)|)
  }

  lemma GivenDefault(t: Template, configs: seq<Config>, k: nat, i: nat, o: Outcome)
    requires Fits(t, configs) && k < |configs| && i < |t.types|
    ensures Given(t, configs, k, i, o).defaultLine
         == if configs[k].Line? && o.counter == Lines && t.defaultLine == 0 then t.line else t.defaultLine
  {
  }

  lemma LineHasInstance(types: seq<nat>, configs: seq<Config>, m: Model, f: nat)
    requires f < PlacedCount(types, configs) && IsLineAt(types, configs, m, f)
    ensures InstanceAt(types, configs, m, f, 0) == 1 + Before(types, configs, m, f, Lines)
  {
  }

  lemma DefaultNext(start: Template, configs: seq<Config>, m: Model, e: nat)
    requires Fits(start, configs) && e < PlacedCount(start.types, configs)
    ensures var line := DefaultAfter(start, configs, m, e);
      DefaultAfter(start, configs, m, e + 1)
        == if IsLineAt(start.types, configs, m, e) && line == 0 then 1 + Before(start.types, configs, m, e, Lines)
           else line
  {
    hide IsLineAt, InstanceAt, OutcomeAt, Slots, Takers, Before, PlacedCount, FirstLine;
    var f, g := FirstLine(start.types, configs, m, 0, e), FirstLine(start.types, configs, m, 0, e + 1);
    if f < e {
      LineHasInstance(start.types, configs, m, f);
      assert f == g;
    } else {
      assert g >= e;
      if IsLineAt(start.types, configs, m, e) {
        assert g == e;
        LineHasInstance(start.types, configs, m, e);
      }
    }
  }

  lemma PlaceGives(t: Template, start: Template, configs: seq<Config>, m: Model, n: nat, e: nat)
    requires Fits(start, configs) && n < |configs|
    requires e == Reached(start.types, configs, n) && Taken(t, start, configs, m, e)
    ensures Fits(t, configs) && |t.types| == |start.types|
    ensures Eligible(configs[n]) && e < |Slots(start.types, |start.types|)| ==> e < PlacedCount(start.types, configs)
    ensures Place(t, configs, n, m) ==
      if Eligible(configs[n]) && e < |Slots(start.types, |start.types|)|
      then Given(t, configs, n, Slots(start.types, |start.types|)[e], OutcomeAt(start.types, configs, m, e)) else t
  {
    hide Meets, Taken, Slots, Takers, FirstFrom, Given, Eligible, OutcomeAt, Fits;
    TakersStep(configs, n);
    TakenFits(t, start, configs, m, e);
    FirstIsNext(t, start, configs, m, e);
    if Eligible(configs[n]) && e < |Slots(start.types, |start.types|)| {
      TakeNext(t, start, configs, m, e);
      OutcomeMeets(start, configs, m, e);
    }
  }

  /** Whatever the buttons are, the default line is the one that DefaultAfter says. */
  lemma {:induction false} DefaultIsFirstLine(start: Template, configs: seq<Config>, n: nat, m: Model)
    requires Fresh(start, configs) && n <= |configs|
    ensures Filled(start, configs, n, m).defaultLine
         == DefaultAfter(start, configs, m, Reached(start.types, configs, n))
  {
    hide Taken, Slots, Place, Eligible, DefaultAfter, Given, OutcomeAt, IsLineAt, Before;
    if n == 0 {
      NothingBefore(start, configs, m);
    } else {
      DefaultIsFirstLine(start, configs, n - 1, m);
      DefaultStep(start, configs, n, m);
    }
  }

  lemma NothingBefore(start: Template, configs: seq<Config>, m: Model)
    requires Fits(start, configs)
    ensures DefaultAfter(start, configs, m, 0) == start.defaultLine
  {
  }

  lemma LineCounter(t: Template, start: Template, configs: seq<Config>, m: Model, e: nat)
    requires Fits(start, configs) && Taken(t, start, configs, m, e)
    ensures e <= PlacedCount(start.types, configs) && t.line == 1 + Before(start.types, configs, m, e, Lines)
  {
  }

  lemma DefaultStep(start: Template, configs: seq<Config>, n: nat, m: Model)
    requires Fresh(start, configs) && 0 < n <= |configs|
    requires Filled(start, configs, n - 1, m).defaultLine
          == DefaultAfter(start, configs, m, Reached(start.types, configs, n - 1))
    ensures Filled(start, configs, n, m).defaultLine
         == DefaultAfter(start, configs, m, Reached(start.types, configs, n))
  {
    hide Taken, Slots, Takers, Place, Eligible, DefaultAfter, Given, OutcomeAt, Before;
    FilledIsTaken(start, configs, n - 1, m);
    var e := Reached(start.types, configs, n - 1);
    var t := Filled(start, configs, n - 1, m);
    PlaceGives(t, start, configs, m, n - 1, e);
    TakersStep(configs, n - 1);
    if Eligible(configs[n - 1]) && e < |Slots(start.types, |start.types|)| {
      GivenDefault(t, configs, n - 1, Slots(start.types, |start.types|)[e], OutcomeAt(start.types, configs, m, e));
      LineCounter(t, start, configs, m, e);
      DefaultNext(start, configs, m, e);
    }
  }

  // ---------------------------------------------------------------- sccp_make_button_template

  /** What the clean-up makes of a slot nobody took: the multi-purpose ones are unused. */
  function Cleaned(types: seq<nat>, n: nat): (r: seq<nat>)
    requires n <= |types|
    ensures |r| == |types|
      && forall i :: 0 <= i < |r| ==> r[i] == if i < n && types[i] in {MULTI, ABBRDIAL} then UNUSED else types[i]
  {
    seq(|types|, i requires 0 <= i < |types| => if i < n && types[i] in {MULTI, ABBRDIAL} then UNUSED else types[i])
  }

  /** The first line button marked as default, or none. */
  function DefaultFrom(configs: seq<Config>, k: nat): (r: nat)
    requires k <= |configs|
    ensures k <= r <= |configs|
    ensures forall j :: k <= j < r ==> !(configs[j].Line? && configs[j].asDefault)
    ensures r < |configs| ==> configs[r].Line? && configs[r].asDefault
    decreases |configs| - k
  {
    if k == |configs| || (configs[k].Line? && configs[k].asDefault) then k else DefaultFrom(configs, k + 1)
  }

  class Phone {
    const configs: seq<Config>
    const model: Model
    /** The slots that the model provides, and the instance of each configured button. */
    const types: array<nat>
    const instances: array<nat>
    const given: array<nat>
    const isAnonymous: bool
    var defaultLineInstance: nat

    constructor (configs: seq<Config>, model: Model, types: array<nat>, instances: array<nat>, given: array<nat>,
      isAnonymous: bool)
      requires types.Length == instances.Length && given.Length == |configs|
      requires types != instances && types != given && instances != given
      ensures this.configs == configs && this.model == model && this.types == types && this.instances == instances
      ensures this.given == given && this.isAnonymous == isAnonymous && defaultLineInstance == 0
    {
      this.configs, this.model, this.types, this.instances, this.given := configs, model, types, instances, given;
      this.isAnonymous := isAnonymous;
      defaultLineInstance := 0;
    }

    predicate Valid()
      reads this
    {
      && types.Length == instances.Length && given.Length == |configs|
      && types != instances && types != given && instances != given
    }

    ghost function State(line: nat, service: nat, dial: nat): (t: Template)
      reads this, types, instances, given
      requires Valid()
      ensures Fits(t, configs) && |t.types| == types.Length
    {
      Template(types[..], instances[..], given[..], line, service, dial, defaultLineInstance)
    }

    /** The inner loop of sccp_make_button_template for button k. */
    method PlaceButton(k: nat, line: nat, service: nat, dial: nat) returns (line': nat, service': nat, dial': nat)
      requires Valid() && k < |configs| && given[k] == 0
      modifies this`defaultLineInstance, types, instances, given
      ensures State(line', service', dial') == Place(old(State(line, service, dial)), configs, k, model)
    {
      line', service', dial' := line, service, dial;
      ghost var before := State(line, service, dial);
      var c := configs[k];
      for i := 0 to types.Length
        invariant Eligible(c) ==> FirstFrom(types[..], 0) == FirstFrom(types[..], i)
        invariant line' == line && service' == service && dial' == dial && State(line, service, dial) == before
      {
        if !(MULTI <= types[i] <= ABBRDIAL) {
          continue;
        }
        if Eligible(c) {
          line', service', dial' := Fill(k, i, Meets(c, types[i], model), line, service, dial);
          return;
        }
      }
    }

    /** Slot i becomes button k. */
    method Fill(k: nat, i: nat, o: Outcome, line: nat, service: nat, dial: nat)
      returns (line': nat, service': nat, dial': nat)
      requires Valid() && k < |configs| && i < types.Length
      modifies this`defaultLineInstance, types, instances, given
      ensures State(line', service', dial') == Given(old(State(line, service, dial)), configs, k, i, o)
    {
      line', service', dial' := line, service, dial;
      types[i] := o.kind;
      match o.counter {
        case Lines =>
          instances[i] := line;
          given[k] := instances[i];
          line' := line + 1;
          if configs[k].Line? && defaultLineInstance == 0 {
            defaultLineInstance := given[k];
          }
        case Services =>
          instances[i] := service;
          given[k] := instances[i];
          service' := service + 1;
        case Dials =>
          instances[i] := dial;
          given[k] := instances[i];
          dial' := dial + 1;
        case Zero =>
          instances[i] := 0;
          given[k] := instances[i];
        case Untouched =>
      }
      assert types[..] == old(types[..])[i := o.kind];
    }

    /** The loop over the configured buttons; one that has an instance keeps it. */
    method PlaceButtons()
      requires Valid()
      modifies this`defaultLineInstance, types, instances, given
      ensures var done := Filled(old(State(1, 1, 1)), configs, |configs|, model);
        types[..] == done.types && instances[..] == done.instances && given[..] == done.given
          && defaultLineInstance == done.defaultLine
    {
      hide Place;
      var line: nat, service: nat, dial: nat := 1, 1, 1;
      for k := 0 to |configs|
        invariant State(line, service, dial) == Filled(old(State(1, 1, 1)), configs, k, model)
      {
        if given[k] > 0 {
          KeptButton(State(line, service, dial), configs, k, model);
          continue;
        }
        line, service, dial := PlaceButton(k, line, service, dial);
      }
    }

    /** sccp_make_button_template: the buttons, or the one line of an anonymous phone; then unused
        multi-purpose slots are blanked, and a line marked as default overrides the first one. */
    method MakeTemplate()
      requires Valid() && (isAnonymous ==> types.Length > 0 && |configs| > 0)
      modifies this`defaultLineInstance, types, instances, given
      ensures !isAnonymous ==>
        var done := Filled(old(State(1, 1, 1)), configs, |configs|, model);
        && types[..] == Cleaned(done.types, types.Length) && instances[..] == done.instances && given[..] == done.given
        && defaultLineInstance
             == var d := DefaultFrom(configs, 0); if d < |configs| then done.given[d] else done.defaultLine
      ensures isAnonymous ==>
        && types[..] == Cleaned(old(types[..])[0 := LINE_BUTTON], types.Length)
        && instances[..] == old(instances[..])[0 := 1] && given[..] == old(given[..])[0 := 1]
        && defaultLineInstance
             == var d := DefaultFrom(configs, 0); if d < |configs| then old(given[..])[0 := 1][d] else 1
    {
      hide Filled, Place;
      if !isAnonymous {
        PlaceButtons();
      } else {
        types[0] := LINE_BUTTON;
        instances[0] := 1;
        given[0] := instances[0];
        defaultLineInstance := given[0];
        assert types[..] == old(types[..])[0 := LINE_BUTTON];
      }
      Clean();
      PickDefault();
    }

    method Clean()
      modifies types
      ensures types[..] == Cleaned(old(types[..]), types.Length)
    {
      for i := 0 to types.Length
        invariant types[..] == Cleaned(old(types[..]), i)
      {
        if types[i] == MULTI || types[i] == ABBRDIAL {
          types[i] := UNUSED;
        }
      }
    }

    method PickDefault()
      requires Valid()
      modifies this`defaultLineInstance
      ensures var d := DefaultFrom(configs, 0);
        defaultLineInstance == if d < |configs| then given[d] else old(defaultLineInstance)
    {
      for k := 0 to |configs|
        invariant DefaultFrom(configs, 0) == DefaultFrom(configs, k) && defaultLineInstance == old(defaultLineInstance)
      {
        if configs[k].Line? && configs[k].asDefault {
          defaultLineInstance := given[k];
          return;
        }
      }
    }
  }
}
