/** Conferences: hold by toggling mute, the moderator count, and the race to end one
    (sccp_conference.c). */
module Conference {

  /** phone: the participant has a channel and a device; hasMusic: its device names a music class. */
  datatype Participant = Participant(moderator: bool, phone: bool, hasMusic: bool, onMusic: bool, mute: bool,
    dtmf: bool)

  /** The participants whose hold is a mute. */
  predicate MutedByHold(p: Participant) {
    !p.moderator && p.phone && !p.hasMusic
  }

  predicate Odd(n: nat) {
    n % 2 == 1
  }

  /** What holds of every participant, whatever happened. */
  predicate Sane(p: Participant) {
    p.dtmf == p.mute && (p.onMusic ==> p.hasMusic)
  }

  /** The mute flag a participant has after a number of explicit toggles, if its role is fixed. */
  predicate MuteLaw(p: Participant, initial: bool, toggles: nat, onHold: bool) {
    p.mute == ((initial != Odd(toggles)) != (onHold && MutedByHold(p))) && Sane(p)
  }

  /** turns: the changes of its role during holds; each of them turns the mute of a phone without music,
      compared with that of a fixed role. */
  predicate TurnedLaw(p: Participant, initial: bool, toggles: nat, turns: nat, onHold: bool) {
    p.mute == (((initial != Odd(toggles)) != (onHold && MutedByHold(p))) != (Odd(turns) && !p.hasMusic)) && Sane(p)
  }

  /** The mute is as for a fixed role exactly if the role was changed during holds an even number of
      times, or hold is not a mute. */
  lemma TurnedLawIff(p: Participant, initial: bool, toggles: nat, turns: nat, onHold: bool)
    requires TurnedLaw(p, initial, toggles, turns, onHold)
    ensures MuteLaw(p, initial, toggles, onHold) <==> p.hasMusic || !Odd(turns)
  {
  }

  ghost predicate AllRight(ps: seq<Participant>, initial: seq<bool>, toggles: seq<nat>, onHold: bool) {
    && |initial| == |toggles| == |ps|
    && forall i :: 0 <= i < |ps| ==> MuteLaw(ps[i], initial[i], toggles[i], onHold)
  }

  ghost predicate AllTracked(ps: seq<Participant>, initial: seq<bool>, toggles: seq<nat>, turns: seq<nat>,
    onHold: bool) {
    && |initial| == |toggles| == |turns| == |ps|
    && forall i :: 0 <= i < |ps| ==> TurnedLaw(ps[i], initial[i], toggles[i], turns[i], onHold)
  }

  ghost predicate AllSane(ps: seq<Participant>) {
    forall i :: 0 <= i < |ps| ==> Sane(ps[i])
  }

  /** One participant toggles. */
  lemma ToggleKeeps(ps: seq<Participant>, initial: seq<bool>, toggles: seq<nat>, turns: seq<nat>, onHold: bool, i: nat)
    requires i < |ps| == |toggles|
    ensures var qs, more := ps[i := Toggled(ps[i])], toggles[i := toggles[i] + 1];
      && (AllSane(ps) ==> AllSane(qs))
      && (AllRight(ps, initial, toggles, onHold) ==> AllRight(qs, initial, more, onHold))
      && (AllTracked(ps, initial, toggles, turns, onHold) ==> AllTracked(qs, initial, more, turns, onHold))
  {
    hide MuteLaw, TurnedLaw, Sane;
    ToggledKeeps(ps[i]);
  }

  lemma ToggledKeeps(p: Participant)
    ensures Sane(p) ==> Sane(Toggled(p))
    ensures forall initial: bool, toggles: nat, onHold: bool ::
      MuteLaw(p, initial, toggles, onHold) ==> MuteLaw(Toggled(p), initial, toggles + 1, onHold)
    ensures forall initial: bool, toggles: nat, turns: nat, onHold: bool ::
      TurnedLaw(p, initial, toggles, turns, onHold) ==> TurnedLaw(Toggled(p), initial, toggles + 1, turns, onHold)
  {
  }

  function TurnedRole(p: Participant): Participant {
    p.(moderator := !p.moderator)
  }

  /** One participant changes its role. */
  lemma RoleKeeps(ps: seq<Participant>, initial: seq<bool>, toggles: seq<nat>, turns: seq<nat>, onHold: bool, i: nat)
    requires i < |ps| == |turns| && ps[i].phone
    ensures var qs, more := ps[i := TurnedRole(ps[i])], turns[i := turns[i] + if onHold then 1 else 0];
      && (AllSane(ps) ==> AllSane(qs))
      && (AllTracked(ps, initial, toggles, turns, onHold) ==> AllTracked(qs, initial, toggles, more, onHold))
      && (AllRight(ps, initial, toggles, onHold) ==>
           (AllRight(qs, initial, toggles, onHold) <==> !onHold || ps[i].hasMusic))
  {
    hide MuteLaw, TurnedLaw, Sane;
    RoleTurns(ps[i]);
    var qs := ps[i := TurnedRole(ps[i])];
    assert qs[i] == TurnedRole(ps[i]);
  }

  lemma RoleTurns(p: Participant)
    requires p.phone
    ensures Sane(p) ==> Sane(TurnedRole(p))
    ensures forall initial: bool, toggles: nat, turns: nat, onHold: bool ::
      TurnedLaw(p, initial, toggles, turns, onHold)
      ==> TurnedLaw(TurnedRole(p), initial, toggles, turns + (if onHold then 1 else 0), onHold)
    ensures forall initial: bool, toggles: nat, onHold: bool ::
      MuteLaw(p, initial, toggles, onHold)
      ==> (MuteLaw(TurnedRole(p), initial, toggles, onHold) <==> !onHold || p.hasMusic)
  {
  }

  /** Everybody goes on hold or comes back. */
  lemma HeldKeeps(ps: seq<Participant>, qs: seq<Participant>, initial: seq<bool>, toggles: seq<nat>,
    turns: seq<nat>, onHold: bool)
    requires |ps| == |qs| && forall i :: 0 <= i < |ps| ==> Held(ps[i], qs[i])
    ensures AllSane(qs)
    ensures AllRight(ps, initial, toggles, onHold) ==> AllRight(qs, initial, toggles, !onHold)
    ensures AllTracked(ps, initial, toggles, turns, onHold) ==> AllTracked(qs, initial, toggles, turns, !onHold)
  {
    hide MuteLaw, TurnedLaw, Sane, Held;
    forall i | 0 <= i < |ps|
      ensures Sane(qs[i])
      ensures AllRight(ps, initial, toggles, onHold) ==> MuteLaw(qs[i], initial[i], toggles[i], !onHold)
      ensures AllTracked(ps, initial, toggles, turns, onHold) ==>
        TurnedLaw(qs[i], initial[i], toggles[i], turns[i], !onHold)
    {
      HeldTurns(ps[i], qs[i]);
    }
  }

  lemma HeldTurns(p: Participant, q: Participant)
    requires Held(p, q)
    ensures Sane(q)
    ensures forall initial: bool, toggles: nat, onHold: bool :: MuteLaw(p, initial, toggles, onHold) ==>
      MuteLaw(q, initial, toggles, !onHold)
    ensures forall initial: bool, toggles: nat, turns: nat, onHold: bool ::
      TurnedLaw(p, initial, toggles, turns, onHold) ==> TurnedLaw(q, initial, toggles, turns, !onHold)
  {
  }

  predicate SameRole(p: Participant, q: Participant) {
    p.moderator == q.moderator && p.phone == q.phone && p.hasMusic == q.hasMusic
  }

  /** What the start or the end of a hold does to one participant. */
  predicate Held(p: Participant, q: Participant) {
    && SameRole(p, q) && q.mute == (p.mute != MutedByHold(p)) && q.dtmf == q.mute && (q.onMusic ==> q.hasMusic)
  }

  /** Music starts or ends for those whose hold is music, if the bridge lets go of their channel. */
  predicate MusicAfter(p: Participant, start: bool, suspended: bool) {
    if !p.moderator && p.phone && p.hasMusic && suspended then start else p.onMusic
  }

  function Toggled(p: Participant): Participant {
    p.(mute := !p.mute, dtmf := !p.mute)
  }

  function Live(ps: seq<Participant>): nat
    decreases |ps|
  {
    if ps == [] then 0 else Live(ps[..|ps| - 1]) + (if ps[|ps| - 1].moderator then 1 else 0)
  }

  lemma {:induction false} LiveSame(ps: seq<Participant>, qs: seq<Participant>)
    requires |ps| == |qs| && forall i :: 0 <= i < |ps| ==> SameRole(ps[i], qs[i])
    ensures Live(ps) == Live(qs)
    decreases |ps|
  {
    if ps != [] {
      LiveSame(ps[..|ps| - 1], qs[..|qs| - 1]);
      assert SameRole(ps[|ps| - 1], qs[|ps| - 1]);
    }
  }

  lemma {:induction false} LiveUpdate(ps: seq<Participant>, i: nat, p: Participant)
    requires i < |ps|
    ensures Live(ps[i := p]) == Live(ps) - (if ps[i].moderator then 1 else 0) + (if p.moderator then 1 else 0)
    decreases |ps|
  {
    var n := |ps| - 1;
    if i == n {
      assert ps[i := p][..n] == ps[..n];
    } else {
      LiveUpdate(ps[..n], i, p);
      assert ps[i := p][..n] == ps[..n][i := p];
    }
  }

  lemma LiveLast(ps: seq<Participant>, p: Participant)
    ensures Live(ps + [p]) == Live(ps) + (if p.moderator then 1 else 0)
  {
    assert (ps + [p])[..|ps|] == ps;
  }

  lemma {:induction false} LiveWithout(ps: seq<Participant>, i: nat)
    requires i < |ps|
    ensures Live(ps[..i] + ps[i + 1..]) == Live(ps) - (if ps[i].moderator then 1 else 0)
    decreases |ps|
  {
    hide Live;
    var n := |ps| - 1;
    var front := ps[..n];
    assert ps == front + [ps[n]];
    LiveLast(front, ps[n]);
    if i == n {
      assert ps[..i] + ps[i + 1..] == front;
    } else {
      LiveWithout(front, i);
      LiveLast(front[..i] + front[i + 1..], ps[n]);
      assert ps[..i] + ps[i + 1..] == front[..i] + front[i + 1..] + [ps[n]];
    }
  }

  class Room {
    var participants: seq<Participant>
    var isOnHold: bool
    var numModerators: int
    /** The mute flags at the start; since then the explicit toggles of each participant, the changes
        of its role during holds, and all demotions. */
    ghost var initial: seq<bool>
    ghost var toggles: seq<nat>
    ghost var turns: seq<nat>
    ghost var demotions: nat

    ghost predicate MutesRight()
      reads this
    {
      AllRight(participants, initial, toggles, isOnHold)
    }

    ghost predicate Tracked()
      reads this
    {
      AllTracked(participants, initial, toggles, turns, isOnHold)
    }

    ghost predicate Plausible()
      reads this
    {
      AllSane(participants)
    }

    /** A demotion adds to the count that it should take from. */
    ghost predicate CountsRight()
      reads this
    {
      numModerators == Live(participants) + 2 * demotions
    }

    /** A conference starts with one moderator; any other roster with the right count will do. */
    constructor (participants: seq<Participant>)
      requires forall i :: 0 <= i < |participants| ==>
        participants[i].dtmf == participants[i].mute && !participants[i].onMusic
      ensures this.participants == participants && !isOnHold && MutesRight() && Tracked() && CountsRight()
      ensures numModerators == Live(participants)
      ensures |initial| == |participants|
      ensures forall i :: 0 <= i < |participants| ==>
        initial[i] == participants[i].mute && toggles[i] == 0 && turns[i] == 0
    {
      this.participants := participants;
      isOnHold, numModerators := false, Live(participants);
      initial := seq(|participants|, i requires 0 <= i < |participants| => participants[i].mute);
      toggles := seq(|participants|, _ => 0);
      turns := seq(|participants|, _ => 0);
      demotions := 0;
    }

    /** sccp_conference_toggle_mute_participant. */
    method ToggleMute(i: nat)
      requires i < |participants| && participants[i].dtmf == participants[i].mute
      modifies this`participants
      ensures participants == old(participants)[i := Toggled(old(participants)[i])]
    {
      var p := participants[i];
      if !p.mute {
        participants := participants[i := p.(mute := true, dtmf := true)];
      } else {
        participants := participants[i := p.(mute := false, dtmf := false)];
      }
    }

    /** sccp_conference_play_music_on_hold_to_participant; suspended: the bridge lets go of the channel. */
    method PlayMusic(i: nat, start: bool, suspended: bool)
      requires i < |participants| && Sane(participants[i])
      modifies this`participants
      ensures |participants| == |old(participants)| && SameRole(participants[i], old(participants)[i])
      ensures participants == old(participants)[i := participants[i]]
      ensures participants[i].mute
        == (old(participants)[i].mute != (old(participants)[i].phone && !old(participants)[i].hasMusic))
      ensures Sane(participants[i])
      ensures participants[i].onMusic ==
        if old(participants)[i].phone && old(participants)[i].hasMusic && suspended then start
          else old(participants)[i].onMusic
    {
      var p := participants[i];
      if !p.phone {
        return;
      }
      if start {
        if !p.onMusic {
          if p.hasMusic {
            if suspended {
              participants := participants[i := p.(onMusic := true)];
            }
          } else {
            ToggleMute(i);
          }
        }
      } else {
        if p.hasMusic {
          if suspended {
            participants := participants[i := p.(onMusic := false)];
          }
        } else {
          ToggleMute(i);
        }
      }
    }

    /** The loops of hold and resume over everybody who is not a moderator. */
    method PlayMusicToAll(start: bool, suspended: nat -> bool)
      requires forall i :: 0 <= i < |participants| ==> Sane(participants[i])
      modifies this`participants
      ensures |participants| == |old(participants)|
      ensures forall i :: 0 <= i < |participants| ==>
        Held(old(participants)[i], participants[i])
        && participants[i].onMusic == MusicAfter(old(participants)[i], start, suspended(i))
    {
      for i := 0 to |participants|
        invariant |participants| == |old(participants)|
        invariant forall k :: 0 <= k < i ==>
          Held(old(participants)[k], participants[k])
          && participants[k].onMusic == MusicAfter(old(participants)[k], start, suspended(k))
        invariant forall k :: i <= k < |participants| ==> participants[k] == old(participants)[k]
      {
        if !participants[i].moderator {
          PlayMusic(i, start, suspended(i));
        }
      }
    }

    /** sccp_conference_hold. */
    method Hold(suspended: nat -> bool)
      requires Plausible() && CountsRight()
      modifies this`participants, this`isOnHold
      ensures Plausible() && CountsRight()
      ensures (old(Tracked()) ==> Tracked()) && (old(MutesRight()) ==> MutesRight())
      ensures isOnHold == (old(isOnHold) || numModerators >= 1)
      ensures |participants| == |old(participants)|
      ensures forall i :: 0 <= i < |participants| ==>
        && SameRole(participants[i], old(participants)[i])
        && participants[i].mute
             == (old(participants)[i].mute != (!old(isOnHold) && isOnHold && MutedByHold(old(participants)[i])))
      ensures forall i :: 0 <= i < |participants| ==>
        participants[i].onMusic
        == if !old(isOnHold) && isOnHold then MusicAfter(old(participants)[i], true, suspended(i))
          else old(participants)[i].onMusic
    {
      hide AllRight, AllTracked;
      if isOnHold {
        return;
      }
      if numModerators >= 1 {
        isOnHold := true;
        PlayMusicToAll(true, suspended);
        LiveSame(old(participants), participants);
        HeldKeeps(old(participants), participants, initial, toggles, turns, false);
      }
    }

    /** sccp_conference_resume. */
    method Resume(suspended: nat -> bool)
      requires Plausible() && CountsRight()
      modifies this`participants, this`isOnHold
      ensures Plausible() && CountsRight() && !isOnHold
      ensures (old(Tracked()) ==> Tracked()) && (old(MutesRight()) ==> MutesRight())
      ensures |participants| == |old(participants)|
      ensures forall i :: 0 <= i < |participants| ==>
        && SameRole(participants[i], old(participants)[i])
        && participants[i].mute == (old(participants)[i].mute != (old(isOnHold) && MutedByHold(old(participants)[i])))
      ensures forall i :: 0 <= i < |participants| ==>
        participants[i].onMusic
        == if old(isOnHold) then MusicAfter(old(participants)[i], false, suspended(i)) else old(participants)[i].onMusic
    {
      hide AllRight, AllTracked;
      if isOnHold {
        PlayMusicToAll(false, suspended);
        isOnHold := false;
        LiveSame(old(participants), participants);
        HeldKeeps(old(participants), participants, initial, toggles, turns, true);
      }
    }

    /** A mute asked for from the participant list. */
    method Toggle(i: nat)
      requires Plausible() && CountsRight() && i < |participants| == |toggles|
      modifies this`participants, this`toggles
      ensures Plausible() && CountsRight()
      ensures (old(Tracked()) ==> Tracked()) && (old(MutesRight()) ==> MutesRight())
      ensures participants == old(participants)[i := Toggled(old(participants)[i])]
      ensures toggles == old(toggles)[i := old(toggles)[i] + 1]
    {
      hide AllRight, AllTracked, Live;
      ToggleKeeps(participants, initial, toggles, turns, isOnHold, i);
      LiveUpdate(participants, i, Toggled(participants[i]));
      ToggleMute(i);
      toggles := toggles[i := toggles[i] + 1];
    }

    /** sccp_conference_promote_demote_participant. The count keeps its law; a change of role during a
        hold turns the mute of somebody held by mute, compared with the law for fixed roles. */
    method PromoteDemote(i: nat) returns (changed: bool)
      requires Plausible() && CountsRight() && i < |participants| == |turns|
      modifies this`participants, this`numModerators, this`demotions, this`turns
      ensures Plausible() && CountsRight() && (old(Tracked()) ==> Tracked())
      ensures changed == (old(participants)[i].phone && (!old(participants)[i].moderator || old(numModerators) > 1))
      ensures participants
           == old(participants)[i := if changed then
             old(participants)[i].(moderator := !old(participants)[i].moderator) else old(participants)[i]]
      ensures numModerators == old(numModerators) + (if changed then 1 else 0)
      ensures demotions == old(demotions) + (if changed && old(participants)[i].moderator then 1 else 0)
      ensures turns == old(turns)[i := old(turns)[i] + (if changed && isOnHold then 1 else 0)]
      ensures old(MutesRight()) ==> (MutesRight() <==> !(changed && isOnHold && !participants[i].hasMusic))
    {
      hide AllRight, AllTracked, AllSane, Live;
      var p := participants[i];
      LiveUpdate(participants, i, TurnedRole(p));
      if p.phone {
        RoleKeeps(participants, initial, toggles, turns, isOnHold, i);
      }
      assert turns[i := turns[i]] == turns && participants[i := p] == participants;
      changed := false;
      if p.phone {
        if !p.moderator {
          participants := participants[i := p.(moderator := true)];
          numModerators := numModerators + 1;
          changed := true;
        } else if numModerators > 1 {
          participants := participants[i := p.(moderator := false)];
          numModerators := numModerators + 1;
          demotions := demotions + 1;
          changed := true;
        }
      }
      turns := turns[i := turns[i] + (if changed && isOnHold then 1 else 0)];
    }

    /** A participant leaves and is destroyed. */
    method Leave(i: nat)
      requires Plausible() && CountsRight() && i < |participants| == |initial| == |toggles| == |turns|
      modifies this`participants, this`numModerators, this`initial, this`toggles, this`turns
      ensures Plausible() && CountsRight()
      ensures (old(Tracked()) ==> Tracked()) && (old(MutesRight()) ==> MutesRight())
      ensures participants == old(participants)[..i] + old(participants)[i + 1..]
      ensures numModerators == old(numModerators) - (if old(participants)[i].moderator then 1 else 0)
      ensures initial == old(initial)[..i] + old(initial)[i + 1..]
        && toggles == old(toggles)[..i] + old(toggles)[i + 1..]
      ensures turns == old(turns)[..i] + old(turns)[i + 1..]
    {
      hide MuteLaw, TurnedLaw, Sane, Live;
      if participants[i].moderator {
        numModerators := numModerators - 1;
      }
      LiveWithout(participants, i);
      participants := participants[..i] + participants[i + 1..];
      initial := initial[..i] + initial[i + 1..];
      toggles := toggles[..i] + toggles[i + 1..];
      turns := turns[..i] + turns[i + 1..];
    }
  }

  // ---------------------------------------------------------------- runs

  datatype Event = HoldAll | ResumeAll | ToggleOne(i: nat) | ChangeRole(i: nat)

  function TogglesOf(events: seq<Event>, i: nat): nat
    decreases |events|
  {
    if events == [] then 0
      else TogglesOf(events[..|events| - 1], i) + (if events[|events| - 1] == ToggleOne(i) then 1 else 0)
  }

  /** The law of mutes is kept by one event, which counts its explicit toggle. */
  method Step(room: Room, e: Event)
    requires room.Tracked() && room.CountsRight()
    modifies room
    ensures room.Tracked() && room.CountsRight() && |room.participants| == |old(room.participants)|
    ensures room.initial == old(room.initial)
    ensures room.isOnHold == match e
      case HoldAll => old(room.isOnHold) || old(room.numModerators) >= 1
      case ResumeAll => false
      case _ => old(room.isOnHold)
    ensures forall i :: 0 <= i < |room.participants| ==>
      && room.toggles[i] == old(room.toggles)[i] + (if e == ToggleOne(i) then 1 else 0)
      && room.participants[i].phone == old(room.participants)[i].phone
      && room.participants[i].hasMusic == old(room.participants)[i].hasMusic
      && (e != ChangeRole(i) ==>
           SameRole(room.participants[i], old(room.participants)[i]) && room.turns[i] == old(room.turns)[i])
  {
    hide TurnedLaw, MuteLaw, Sane, Live;
    TrackedIsPlausible(room);
    var suspended: nat -> bool := *;
    match e {
      case HoldAll => room.Hold(suspended);
      case ResumeAll => room.Resume(suspended);
      case ToggleOne(i) => if i < |room.participants| { room.Toggle(i); }
      case ChangeRole(i) => if i < |room.participants| { var _ := room.PromoteDemote(i); }
    }
  }

  lemma TrackedIsPlausible(room: Room)
    requires room.Tracked()
    ensures room.Plausible()
  {
  }

  /** Over any run of holds, resumes, toggles and changes of role, from any conference: a participant's
      mute is its first value, changed by every explicit toggle, once more while the conference is on
      hold if the participant is held by muting, and once more for every change of its role during a
      hold. So the law for fixed roles holds exactly where the number of these is even. */
  method RunFrom(room: Room, events: seq<Event>)
    requires room.Tracked() && room.CountsRight()
    modifies room
    ensures room.Tracked() && room.CountsRight() && |room.participants| == |old(room.participants)|
    ensures room.initial == old(room.initial)
    ensures forall i :: 0 <= i < |room.participants| ==>
      && room.toggles[i] == old(room.toggles)[i] + TogglesOf(events, i)
      && room.participants[i].hasMusic == old(room.participants)[i].hasMusic
      && (ChangeRole(i) !in events ==>
           SameRole(room.participants[i], old(room.participants)[i]) && room.turns[i] == old(room.turns)[i])
    ensures room.MutesRight() <==>
      forall i :: 0 <= i < |room.participants| ==> room.participants[i].hasMusic || !Odd(room.turns[i])
  {
    hide TurnedLaw, MuteLaw, Live, Odd;
    for k := 0 to |events|
      invariant room.Tracked() && room.CountsRight() && |room.participants| == |old(room.participants)|
      invariant room.initial == old(room.initial)
      invariant forall i :: 0 <= i < |room.participants| ==>
        && room.toggles[i] == old(room.toggles)[i] + TogglesOf(events[..k], i)
        && room.participants[i].hasMusic == old(room.participants)[i].hasMusic
        && (ChangeRole(i) !in events[..k] ==>
             SameRole(room.participants[i], old(room.participants)[i]) && room.turns[i] == old(room.turns)[i])
    {
      assert events[..k + 1][..k] == events[..k];
      assert events[..k + 1] == events[..k] + [events[k]];
      Step(room, events[k]);
    }
    assert events[..|events|] == events;
    forall i | 0 <= i < |room.participants|
      ensures MuteLaw(room.participants[i], room.initial[i], room.toggles[i], room.isOnHold)
         <==> room.participants[i].hasMusic || !Odd(room.turns[i])
    {
      TurnedLawIff(room.participants[i], room.initial[i], room.toggles[i], room.turns[i], room.isOnHold);
    }
  }

  /** The same from the start of a conference, with the mute of each participant given outright. */
  method Run(start: seq<Participant>, events: seq<Event>) returns (room: Room)
    requires forall i :: 0 <= i < |start| ==> start[i].dtmf == start[i].mute && !start[i].onMusic
    ensures |room.participants| == |room.turns| == |start|
    ensures forall i :: 0 <= i < |start| ==>
      && room.participants[i].mute
         == (((start[i].mute != Odd(TogglesOf(events, i))) != (room.isOnHold && MutedByHold(room.participants[i])))
             != (Odd(room.turns[i]) && !start[i].hasMusic))
      && room.participants[i].dtmf == room.participants[i].mute
    ensures forall i :: 0 <= i < |start| && ChangeRole(i) !in events ==>
      room.participants[i].mute
        == ((start[i].mute != Odd(TogglesOf(events, i))) != (room.isOnHold && MutedByHold(start[i])))
  {
    hide Live, Odd;
    room := new Room(start);
    RunFrom(room, events);
    NotOdd();
  }

  lemma NotOdd()
    ensures !Odd(0)
  {
  }

  /** Hold and then resume restores every mute flag. */
  method HoldThenResume(room: Room, suspended: nat -> bool)
    requires room.Plausible() && room.CountsRight() && !room.isOnHold
    modifies room
    ensures |room.participants| == |old(room.participants)|
    ensures forall i :: 0 <= i < |room.participants| ==> room.participants[i].mute == old(room.participants)[i].mute
  {
    room.Hold(suspended);
    room.Resume(suspended);
  }

  /** Promoting somebody in between does not: a phone without a music class has its mute turned, so that
      it ends up muted if it was not, and unmuted if it was. */
  method PromotedInBetween(room: Room, i: nat, suspended: nat -> bool)
    requires room.Plausible() && room.CountsRight() && !room.isOnHold && room.numModerators >= 1
    requires i < |room.participants| == |room.turns| && MutedByHold(room.participants[i])
    modifies room
    ensures |room.participants| == |old(room.participants)|
    ensures room.participants[i].mute != old(room.participants)[i].mute
  {
    room.Hold(suspended);
    var promoted := room.PromoteDemote(i);
    room.Resume(suspended);
  }

  /** Demoting it again in the same hold repairs that, if the count allows it. */
  method PromotedAndDemoted(room: Room, i: nat, suspended: nat -> bool)
    requires room.Plausible() && room.CountsRight() && !room.isOnHold && room.numModerators >= 1
    requires i < |room.participants| == |room.turns| && MutedByHold(room.participants[i])
    modifies room
    ensures |room.participants| == |old(room.participants)|
    ensures room.participants[i].mute == old(room.participants)[i].mute
  {
    room.Hold(suspended);
    var promoted := room.PromoteDemote(i);
    var demoted := room.PromoteDemote(i);
    room.Resume(suspended);
  }
}
