/** sccp_channel_lock_full (sccp_channel.c): any number of threads lock one call together with
    the Asterisk channel that owns it, while the owner changes under them. Each state change
    below is one lock, unlock, reference or read of the function or of its callers. */
module LockFull {
  type Tid = nat
  type Pbx = nat

  /** No thread or Asterisk channel, or this one. */
  datatype Maybe = None | Some(value: nat)

  datatype Pc =
    | WantCall                 // about to lock the call
    | ReadOwner                // call locked: look at the owner
    | LetCallGo(pbx: Pbx)      // owner referenced: unlock the call
    | WantPbx(pbx: Pbx)        // about to lock the owner
    | WantCallAgain(pbx: Pbx)  // owner locked: lock the call again
    | Compare(pbx: Pbx)        // both locked: is it still the owner?
    | DropCall(pbx: Pbx)       // it is not: undo the round
    | DropPbx(pbx: Pbx)
    | DropRef(pbx: Pbx)
    | Returned(result: Maybe)   // back in the caller, which works and then releases
    | CallerHoldsCall
    | Finished
    | ReturnedStale(pbx: Pbx)  // a single try that failed: its caller goes on as if it had not
    | UnlockedStale(pbx: Pbx)
    | ReleasedStale(pbx: Pbx)
    | FinishedStale(pbx: Pbx)

  datatype Thread = Thread(pc: Pc, retry: bool)

  /** refs: the references that the threads' calls of the function have taken and not given back;
      excess: those that callers have given back though the function had not taken them. */
  datatype State = State(owner: Maybe, callLock: Maybe, pbxLocks: map<Pbx, Tid>,
                         refs: multiset<Pbx>, threads: seq<Thread>, excess: multiset<Pbx>)

  /** In the caller with a channel that is neither locked nor referenced. */
  predicate IsStale(pc: Pc) {
    pc.ReturnedStale? || pc.UnlockedStale? || pc.ReleasedStale? || pc.FinishedStale?
  }

  /** The channel that a thread has released without a reference. */
  function Overreleased(pc: Pc): Maybe {
    match pc
    case ReleasedStale(p) => Some(p)
    case FinishedStale(p) => Some(p)
    case _ => None
  }

  /** How many of the first n threads have done that to p. */
  function Overreleasing(threads: seq<Thread>, n: nat, p: Pbx): nat
    requires n <= |threads|
  {
    if n == 0 then 0
    else Overreleasing(threads, n - 1, p) + if Overreleased(threads[n - 1].pc) == Some(p) then 1 else 0
  }

  predicate HoldsCall(pc: Pc) {
    pc.ReadOwner? || pc.LetCallGo? || pc.Compare? || pc.DropCall? || pc.Returned? || pc.CallerHoldsCall?
  }

  /** The owner channel that a thread has locked. */
  function Locked(pc: Pc): Maybe {
    match pc
    case WantCallAgain(p) => Some(p)
    case Compare(p) => Some(p)
    case DropCall(p) => Some(p)
    case DropPbx(p) => Some(p)
    case Returned(r) => r
    case _ => None
  }

  /** The owner channel that a thread holds a reference to. */
  function Referenced(pc: Pc): Maybe {
    match pc
    case LetCallGo(p) => Some(p)
    case WantPbx(p) => Some(p)
    case DropRef(p) => Some(p)
    case _ => Locked(pc)
  }

  /** How many of the first n threads hold a reference to p. */
  function Referencing(threads: seq<Thread>, n: nat, p: Pbx): nat
    requires n <= |threads|
  {
    if n == 0 then 0
    else Referencing(threads, n - 1, p) + if Referenced(threads[n - 1].pc) == Some(p) then 1 else 0
  }

  predicate Enabled(s: State, t: Tid) {
    t < |s.threads| &&
    match s.threads[t].pc
    case WantCall => s.callLock.None?
    case WantCallAgain(_) => s.callLock.None?
    case WantPbx(p) => p !in s.pbxLocks
    case FinishedStale(_) => false
    case Finished => false
    case _ => true
  }

  /** The position after the step: the control flow of the function and of its callers. */
  function PcAfter(pc: Pc, owner: Maybe, retry: bool): Pc {
    match pc
    case WantCall => ReadOwner
    case ReadOwner => if owner.None? then Returned(None) else LetCallGo(owner.value)
    case LetCallGo(p) => WantPbx(p)
    case WantPbx(p) => WantCallAgain(p)
    case WantCallAgain(p) => Compare(p)
    case Compare(p) => if owner == Some(p) then Returned(Some(p)) else DropCall(p)
    case DropCall(p) => DropPbx(p)
    case DropPbx(p) => DropRef(p)
    case DropRef(p) => if retry then WantCall else ReturnedStale(p)
    case Returned(_) => CallerHoldsCall
    case CallerHoldsCall => Finished
    case Finished => pc
    case ReturnedStale(p) => UnlockedStale(p)
    case UnlockedStale(p) => ReleasedStale(p)
    case ReleasedStale(p) => FinishedStale(p)
    case FinishedStale(_) => pc
  }

  /** The stale steps unlock what the thread has not locked, which leaves the mutexes as they are. */
  function CallLockAfter(lock: Maybe, t: Tid, pc: Pc): Maybe {
    match pc
    case WantCall => Some(t)
    case WantCallAgain(_) => Some(t)
    case LetCallGo(_) => None
    case DropCall(_) => None
    case CallerHoldsCall => None
    case _ => lock
  }

  function PbxLocksAfter(locks: map<Pbx, Tid>, t: Tid, pc: Pc): map<Pbx, Tid> {
    match pc
    case WantPbx(p) => locks[p := t]
    case DropPbx(p) => locks - {p}
    case Returned(Some(p)) => locks - {p}
    case _ => locks
  }

  function RefsAfter(refs: multiset<Pbx>, owner: Maybe, pc: Pc): multiset<Pbx> {
    match pc
    case ReadOwner => if owner.None? then refs else refs + multiset{owner.value}
    case DropRef(p) => refs - multiset{p}
    case Returned(Some(p)) => refs - multiset{p}
    case _ => refs
  }

  function ExcessAfter(excess: multiset<Pbx>, pc: Pc): multiset<Pbx> {
    if pc.UnlockedStale? then excess + multiset{pc.pbx} else excess
  }

  /** The next atomic step of thread t. */
  function Next(s: State, t: Tid): State
    requires Enabled(s, t)
  {
    var pc := s.threads[t].pc;
    State(s.owner, CallLockAfter(s.callLock, t, pc), PbxLocksAfter(s.pbxLocks, t, pc),
          RefsAfter(s.refs, s.owner, pc),
          s.threads[t := s.threads[t].(pc := PcAfter(pc, s.owner, s.threads[t].retry))],
          ExcessAfter(s.excess, pc))
  }

  /** What the rest of the driver and Asterisk may do: change the owner while the call is unlocked. */
  datatype Event = Step(t: Tid) | ChangeOwner(owner: Maybe)

  function Apply(s: State, e: Event): State {
    match e
    case Step(t) => if Enabled(s, t) then Next(s, t) else s
    case ChangeOwner(o) => if s.callLock.None? then s.(owner := o) else s
  }

  function Run(s: State, events: seq<Event>): State
    decreases events
  {
    if events == [] then s else Run(Apply(s, events[0]), events[1..])
  }

  ghost predicate Initial(s: State) {
    && s.callLock.None? && s.pbxLocks == map[] && s.refs == multiset{} && s.excess == multiset{}
    && forall t :: 0 <= t < |s.threads| ==> s.threads[t].pc == WantCall
  }

  /** The call is locked by the one thread whose position says so. */
  ghost predicate CallLockOk(s: State) {
    && (forall t :: 0 <= t < |s.threads| && HoldsCall(s.threads[t].pc) ==> s.callLock == Some(t))
    && (s.callLock.Some? ==> s.callLock.value < |s.threads| && HoldsCall(s.threads[s.callLock.value].pc))
  }

  /** So is every Asterisk channel. */
  ghost predicate PbxLocksOk(s: State) {
    && (forall t :: 0 <= t < |s.threads| && Locked(s.threads[t].pc).Some? ==>
          var p := Locked(s.threads[t].pc).value; p in s.pbxLocks && s.pbxLocks[p] == t)
    && (forall p :: p in s.pbxLocks ==>
          s.pbxLocks[p] < |s.threads| && Locked(s.threads[s.pbxLocks[p]].pc) == Some(p))
  }

  /** What a thread in the caller was given is the owner now, and only a single try goes stale. */
  ghost predicate ResultOk(s: State, t: Tid)
    requires t < |s.threads|
  {
    && (s.threads[t].pc.Returned? ==> s.threads[t].pc.result == s.owner)
    && (IsStale(s.threads[t].pc) ==> !s.threads[t].retry)
  }

  ghost predicate ResultsOk(s: State) {
    forall t :: 0 <= t < |s.threads| ==> ResultOk(s, t)
  }

  ghost predicate RefsOk(s: State) {
    forall p :: s.refs[p] == Referencing(s.threads, |s.threads|, p)
  }

  ghost predicate ExcessOk(s: State) {
    forall p :: s.excess[p] == Overreleasing(s.threads, |s.threads|, p)
  }

  ghost predicate Inv(s: State) {
    CallLockOk(s) && PbxLocksOk(s) && RefsOk(s) && ResultsOk(s) && ExcessOk(s)
  }

  lemma {:induction false} ReferencingUpdate(ts: seq<Thread>, t: Tid, x: Thread, n: nat, p: Pbx)
    requires t < |ts| && n <= |ts|
    ensures Referencing(ts[t := x], n, p)
         == Referencing(ts, n, p)
            - (if t < n && Referenced(ts[t].pc) == Some(p) then 1 else 0)
            + (if t < n && Referenced(x.pc) == Some(p) then 1 else 0)
  {
    if n > 0 { ReferencingUpdate(ts, t, x, n - 1, p); }
  }

  lemma {:induction false} ReferencingNone(ts: seq<Thread>, n: nat, p: Pbx)
    requires n <= |ts| && forall t :: 0 <= t < n ==> Referenced(ts[t].pc) != Some(p)
    ensures Referencing(ts, n, p) == 0
  {
    if n > 0 { ReferencingNone(ts, n - 1, p); }
  }

  lemma {:induction false} OverreleasingUpdate(ts: seq<Thread>, t: Tid, x: Thread, n: nat, p: Pbx)
    requires t < |ts| && n <= |ts|
    ensures Overreleasing(ts[t := x], n, p)
         == Overreleasing(ts, n, p)
            - (if t < n && Overreleased(ts[t].pc) == Some(p) then 1 else 0)
            + (if t < n && Overreleased(x.pc) == Some(p) then 1 else 0)
  {
    if n > 0 { OverreleasingUpdate(ts, t, x, n - 1, p); }
  }

  lemma {:induction false} OverreleasingNone(ts: seq<Thread>, n: nat, p: Pbx)
    requires n <= |ts|
    ensures Overreleasing(ts, n, p) == 0 <==> forall t :: 0 <= t < n ==> Overreleased(ts[t].pc) != Some(p)
  {
    if n > 0 { OverreleasingNone(ts, n - 1, p); }
  }

  lemma InitialInv(s: State)
    requires Initial(s)
    ensures Inv(s)
  {
    forall p ensures s.refs[p] == Referencing(s.threads, |s.threads|, p) {
      ReferencingNone(s.threads, |s.threads|, p);
    }
    forall p ensures s.excess[p] == Overreleasing(s.threads, |s.threads|, p) {
      OverreleasingNone(s.threads, |s.threads|, p);
    }
  }

  /** What a step of t does to the locks and references is what its position says. */
  ghost predicate Follows(s: State, t: Tid, s': State) {
    && t < |s.threads| == |s'.threads|
    && (forall u :: 0 <= u < |s.threads| && u != t ==> s'.threads[u] == s.threads[u])
    && CallFollows(s.callLock, s'.callLock, t, s.threads[t].pc, s'.threads[t].pc)
    && PbxFollows(s.pbxLocks, s'.pbxLocks, t, Locked(s.threads[t].pc), Locked(s'.threads[t].pc))
    && RefsFollow(s.refs, s'.refs, Referenced(s.threads[t].pc), Referenced(s'.threads[t].pc))
    && ExcessFollows(s.excess, s'.excess, Overreleased(s.threads[t].pc), Overreleased(s'.threads[t].pc))
    && s'.owner == s.owner
    && ResultOk(s', t)
  }

  ghost predicate CallFollows(lock: Maybe, lock': Maybe, t: Tid, before: Pc, now: Pc) {
    || (HoldsCall(before) == HoldsCall(now) && lock' == lock)
    || (!HoldsCall(before) && HoldsCall(now) && lock.None? && lock' == Some(t))
    || (HoldsCall(before) && !HoldsCall(now) && lock'.None?)
  }

  ghost predicate PbxFollows(locks: map<Pbx, Tid>, locks': map<Pbx, Tid>, t: Tid, before: Maybe, now: Maybe) {
    || (before == now && locks' == locks)
    || (before.None? && now.Some? && now.value !in locks && locks' == locks[now.value := t])
    || (before.Some? && now.None? && locks' == locks - {before.value})
  }

  ghost predicate RefsFollow(refs: multiset<Pbx>, refs': multiset<Pbx>, before: Maybe, now: Maybe) {
    || (before == now && refs' == refs)
    || (before.None? && now.Some? && refs' == refs + multiset{now.value})
    || (before.Some? && now.None? && refs' == refs - multiset{before.value})
  }

  ghost predicate ExcessFollows(excess: multiset<Pbx>, excess': multiset<Pbx>, before: Maybe, now: Maybe) {
    || (before == now && excess' == excess)
    || (before.None? && now.Some? && excess' == excess + multiset{now.value})
  }

  lemma CallLockFollows(lock: Maybe, t: Tid, pc: Pc, owner: Maybe, retry: bool)
    requires pc.WantCall? || pc.WantCallAgain? ==> lock.None?
    ensures CallFollows(lock, CallLockAfter(lock, t, pc), t, pc, PcAfter(pc, owner, retry))
  {
  }

  lemma PbxLocksFollow(locks: map<Pbx, Tid>, t: Tid, pc: Pc, owner: Maybe, retry: bool)
    requires pc.WantPbx? ==> pc.pbx !in locks
    ensures PbxFollows(locks, PbxLocksAfter(locks, t, pc), t, Locked(pc), Locked(PcAfter(pc, owner, retry)))
  {
  }

  lemma RefsAfterFollow(refs: multiset<Pbx>, pc: Pc, owner: Maybe, retry: bool)
    ensures RefsFollow(refs, RefsAfter(refs, owner, pc), Referenced(pc), Referenced(PcAfter(pc, owner, retry)))
  {
  }

  lemma ExcessAfterFollows(excess: multiset<Pbx>, pc: Pc, owner: Maybe, retry: bool)
    ensures ExcessFollows(excess, ExcessAfter(excess, pc), Overreleased(pc), Overreleased(PcAfter(pc, owner, retry)))
  {
  }

  lemma ResultAfterOk(pc: Pc, owner: Maybe, retry: bool)
    requires IsStale(pc) ==> !retry
    ensures var now := PcAfter(pc, owner, retry);
            (now.Returned? ==> now.result == owner) && (IsStale(now) ==> !retry)
  {
  }

  lemma NextFollows(s: State, t: Tid)
    requires Enabled(s, t) && ResultOk(s, t)
    ensures Follows(s, t, Next(s, t))
  {
    var th := s.threads[t];
    CallLockFollows(s.callLock, t, th.pc, s.owner, th.retry);
    PbxLocksFollow(s.pbxLocks, t, th.pc, s.owner, th.retry);
    RefsAfterFollow(s.refs, th.pc, s.owner, th.retry);
    ExcessAfterFollows(s.excess, th.pc, s.owner, th.retry);
    ResultAfterOk(th.pc, s.owner, th.retry);
  }

  lemma FollowingKeepsCallLock(s: State, t: Tid, s': State)
    requires Follows(s, t, s') && CallLockOk(s)
    ensures CallLockOk(s')
  {
  }

  lemma FollowingKeepsPbxLocks(s: State, t: Tid, s': State)
    requires Follows(s, t, s') && PbxLocksOk(s)
    ensures PbxLocksOk(s')
  {
    hide Locked, CallFollows, RefsFollow, ExcessFollows, ResultOk;
    forall u | 0 <= u < |s'.threads| && Locked(s'.threads[u].pc).Some?
      ensures var p := Locked(s'.threads[u].pc).value; p in s'.pbxLocks && s'.pbxLocks[p] == u
    {
      if u != t {
        assert s'.threads[u] == s.threads[u];
      }
    }
    forall p | p in s'.pbxLocks
      ensures s'.pbxLocks[p] < |s'.threads| && Locked(s'.threads[s'.pbxLocks[p]].pc) == Some(p)
    {
    }
  }

  lemma FollowingKeepsResults(s: State, t: Tid, s': State)
    requires Follows(s, t, s') && ResultsOk(s)
    ensures ResultsOk(s')
  {
    forall u | 0 <= u < |s'.threads|
      ensures ResultOk(s', u)
    {
      assert ResultOk(s, u);
    }
  }

  lemma OwnerChangeKeepsInv(s: State, o: Maybe)
    requires Inv(s) && s.callLock.None?
    ensures Inv(s.(owner := o))
  {
    forall u | 0 <= u < |s.threads|
      ensures ResultOk(s.(owner := o), u)
    {
      assert ResultOk(s, u);
    }
  }

  lemma FollowingKeepsRefs(s: State, t: Tid, s': State)
    requires Follows(s, t, s') && RefsOk(s)
    ensures RefsOk(s')
  {
    HeldReferenceCounts(s, t);
    assert s'.threads == s.threads[t := s'.threads[t]];
    forall p ensures s'.refs[p] == Referencing(s'.threads, |s'.threads|, p) {
      ReferencingUpdate(s.threads, t, s'.threads[t], |s.threads|, p);
    }
  }

  lemma FollowingKeepsExcess(s: State, t: Tid, s': State)
    requires Follows(s, t, s') && ExcessOk(s)
    ensures ExcessOk(s')
  {
    assert s'.threads == s.threads[t := s'.threads[t]];
    forall p ensures s'.excess[p] == Overreleasing(s'.threads, |s'.threads|, p) {
      OverreleasingUpdate(s.threads, t, s'.threads[t], |s.threads|, p);
    }
  }

  /** A reference that a thread still holds is counted. */
  lemma HeldReferenceCounts(s: State, t: Tid)
    requires RefsOk(s) && t < |s.threads|
    ensures Referenced(s.threads[t].pc).Some? ==> s.refs[Referenced(s.threads[t].pc).value] >= 1
  {
    if Referenced(s.threads[t].pc).Some? {
      var p := Referenced(s.threads[t].pc).value;
      ReferencingUpdate(s.threads, t, s.threads[t].(pc := WantCall), |s.threads|, p);
    }
  }

  lemma StepKeepsInv(s: State, t: Tid)
    requires Inv(s) && Enabled(s, t)
    ensures Inv(Next(s, t))
  {
    var s' := Next(s, t);
    NextFollows(s, t);
    FollowingKeepsCallLock(s, t, s');
    FollowingKeepsPbxLocks(s, t, s');
    FollowingKeepsResults(s, t, s');
    FollowingKeepsRefs(s, t, s');
    FollowingKeepsExcess(s, t, s');
  }

  lemma {:induction false} RunKeepsInv(s: State, events: seq<Event>)
    requires Inv(s)
    ensures Inv(Run(s, events))
    decreases events
  {
    if events != [] {
      if events[0].Step? && Enabled(s, events[0].t) {
        StepKeepsInv(s, events[0].t);
      } else if events[0].ChangeOwner? && s.callLock.None? {
        OwnerChangeKeepsInv(s, events[0].owner);
      }
      RunKeepsInv(Apply(s, events[0]), events[1..]);
    }
  }

  // ---------------------------------------------------------------- what every run keeps

  /** The references that the threads other than t hold to p. */
  function OthersReferencing(s: State, t: Tid, p: Pbx): nat
    requires t < |s.threads|
  {
    Referencing(s.threads[t := s.threads[t].(pc := Finished)], |s.threads|, p)
  }

  lemma OwnShare(s: State, t: Tid, p: Pbx)
    requires RefsOk(s) && t < |s.threads|
    ensures s.refs[p] == OthersReferencing(s, t, p) + if Referenced(s.threads[t].pc) == Some(p) then 1 else 0
  {
    ReferencingUpdate(s.threads, t, s.threads[t].(pc := Finished), |s.threads|, p);
  }

  /** Whatever the other threads and the owner do: a thread that the function has returned to
      has the call locked; its result is the owner, locked by it, with one reference of its own. */
  lemma ReturnsBothLocked(s0: State, events: seq<Event>, t: Tid)
    requires Initial(s0) && t < |Run(s0, events).threads| && Run(s0, events).threads[t].pc.Returned?
    ensures var s := Run(s0, events);
            var result := s.threads[t].pc.result;
            && s.callLock == Some(t)
            && s.owner == result
            && (result.Some? ==> result.value in s.pbxLocks && s.pbxLocks[result.value] == t)
            && (forall p :: s.refs[p] == OthersReferencing(s, t, p) + if result == Some(p) then 1 else 0)
  {
    hide Initial, Run, Inv, OthersReferencing;
    InitialInv(s0);
    RunKeepsInv(s0, events);
    ReturnedHolds(Run(s0, events), t);
  }

  lemma ReturnedHolds(s: State, t: Tid)
    requires Inv(s) && t < |s.threads| && s.threads[t].pc.Returned?
    ensures var result := s.threads[t].pc.result;
            && s.callLock == Some(t)
            && s.owner == result
            && (result.Some? ==> result.value in s.pbxLocks && s.pbxLocks[result.value] == t)
            && (forall p :: s.refs[p] == OthersReferencing(s, t, p) + if result == Some(p) then 1 else 0)
  {
    hide OthersReferencing, RefsOk, ExcessOk;
    assert ResultOk(s, t);
    forall p ensures s.refs[p] == OthersReferencing(s, t, p) + if s.owner == Some(p) then 1 else 0 {
      OwnShare(s, t, p);
    }
  }

  /** What a thread does not hold by its position, it does not hold. */
  lemma HoldsNothing(s: State, t: Tid)
    requires Inv(s) && t < |s.threads|
    requires !HoldsCall(s.threads[t].pc) && Locked(s.threads[t].pc).None? && Referenced(s.threads[t].pc).None?
    ensures s.callLock != Some(t) && (forall q :: q in s.pbxLocks ==> s.pbxLocks[q] != t)
    ensures forall q :: s.refs[q] == OthersReferencing(s, t, q)
  {
    hide HoldsCall, Locked, Referenced, OthersReferencing, RefsOk, ResultsOk, ExcessOk;
    forall q ensures s.refs[q] == OthersReferencing(s, t, q) {
      OwnShare(s, t, q);
    }
  }

  lemma IdleHasNothing(pc: Pc)
    requires pc.WantCall? || IsStale(pc)
    ensures !HoldsCall(pc) && Locked(pc).None? && Referenced(pc).None?
  {
  }

  /** A thread between two rounds, or one whose single try failed, holds no lock and no reference:
      a failed round has undone everything. */
  lemma FailedRoundLeavesNothing(s0: State, events: seq<Event>, t: Tid)
    requires Initial(s0) && t < |Run(s0, events).threads|
    requires Run(s0, events).threads[t].pc.WantCall? || IsStale(Run(s0, events).threads[t].pc)
    ensures var s := Run(s0, events);
            && s.callLock != Some(t)
            && (forall p :: p in s.pbxLocks ==> s.pbxLocks[p] != t)
            && (forall p :: s.refs[p] == OthersReferencing(s, t, p))
  {
    hide Initial, Inv, Run, OthersReferencing, HoldsCall, Locked, Referenced;
    InitialInv(s0);
    RunKeepsInv(s0, events);
    IdleHasNothing(Run(s0, events).threads[t].pc);
    HoldsNothing(Run(s0, events), t);
  }

  /** No thread waits for an Asterisk channel while it has the call locked. */
  lemma WaitsForPbxWithoutCall(s0: State, events: seq<Event>, t: Tid)
    requires Initial(s0) && t < |Run(s0, events).threads| && Run(s0, events).threads[t].pc.WantPbx?
    ensures Run(s0, events).callLock != Some(t)
  {
    InitialInv(s0);
    RunKeepsInv(s0, events);
  }

  /** The call's holder never waits. */
  lemma HolderCanStep(s: State, t: Tid)
    requires t < |s.threads| && HoldsCall(s.threads[t].pc)
    ensures Enabled(s, t)
  {
  }

  /** No deadlock: as long as some thread has not finished, some thread can step. */
  lemma SomeThreadCanStep(s0: State, events: seq<Event>, t: Tid) returns (u: Tid)
    requires Initial(s0) && t < |Run(s0, events).threads|
    requires !Run(s0, events).threads[t].pc.Finished? && !Run(s0, events).threads[t].pc.FinishedStale?
    ensures Enabled(Run(s0, events), u)
  {
    InitialInv(s0);
    RunKeepsInv(s0, events);
    var s := Run(s0, events);
    u := t;
    if s.threads[u].pc.WantPbx? && !Enabled(s, u) {
      u := s.pbxLocks[s.threads[u].pc.pbx];
    }
    if !Enabled(s, u) {
      u := s.callLock.value;
      HolderCanStep(s, u);
    }
  }

  // ---------------------------------------------------------------- retries

  /** As long as the owner stays the same, a thread does not get past the comparison in vain. */
  predicate OnTrack(pc: Pc, owner: Maybe) {
    match pc
    case LetCallGo(p) => owner == Some(p)
    case WantPbx(p) => owner == Some(p)
    case WantCallAgain(p) => owner == Some(p)
    case Compare(p) => owner == Some(p)
    case DropCall(_) => false
    case DropPbx(_) => false
    case DropRef(_) => false
    case _ => !IsStale(pc)
  }

  lemma OnTrackStep(pc: Pc, owner: Maybe, retry: bool)
    requires OnTrack(pc, owner)
    ensures OnTrack(PcAfter(pc, owner, retry), owner)
  {
  }

  /** A round can fail only if the owner changed during it: without owner changes no thread that
      is on track ever drops its locks to try again or goes stale. */
  lemma {:induction false} QuietOwnerNeedsNoRetry(s: State, events: seq<Event>, t: Tid)
    requires t < |s.threads| && OnTrack(s.threads[t].pc, s.owner)
    requires forall i :: 0 <= i < |events| ==> events[i].Step?
    ensures var s' := Run(s, events);
            s'.owner == s.owner && |s'.threads| == |s.threads| && OnTrack(s'.threads[t].pc, s.owner)
    decreases events
  {
    if events != [] {
      var s1 := Apply(s, events[0]);
      if s1.threads[t] != s.threads[t] {
        OnTrackStep(s.threads[t].pc, s.owner, s.threads[t].retry);
      }
      QuietOwnerNeedsNoRetry(s1, events[1..], t);
    }
  }

  /** The thread is back in its caller with a result, at some point of the run. */
  ghost predicate WasReturned(s: State, events: seq<Event>, t: Tid) {
    exists k :: 0 <= k <= |events| && ReturnedAt(s, events, k, t)
  }

  ghost predicate ReturnedAt(s: State, events: seq<Event>, k: nat, t: Tid)
    requires k <= |events|
  {
    var v := Run(s, events[..k]);
    t < |v.threads| && v.threads[t].pc.Returned?
  }

  /** Trying again, or already on the way back. */
  predicate Trying(pc: Pc) {
    !pc.Finished? && !pc.CallerHoldsCall? && !IsStale(pc)
  }

  lemma WasReturnedLater(s: State, events: seq<Event>, t: Tid)
    requires events != [] && WasReturned(Apply(s, events[0]), events[1..], t)
    ensures WasReturned(s, events, t)
  {
    var k :| 0 <= k <= |events[1..]| && ReturnedAt(Apply(s, events[0]), events[1..], k, t);
    assert events[..k + 1][1..] == events[1..][..k];
    assert ReturnedAt(s, events, k + 1, t);
  }

  lemma WasReturnedNow(s: State, events: seq<Event>, t: Tid)
    requires t < |s.threads| && s.threads[t].pc.Returned?
    ensures WasReturned(s, events, t)
  {
    assert events[..0] == [];
    assert ReturnedAt(s, events, 0, t);
  }

  lemma StillTrying(pc: Pc, owner: Maybe)
    requires Trying(pc) && !pc.Returned?
    ensures Trying(PcAfter(pc, owner, true))
  {
  }

  /** A caller that retries never gives up: once it is through, it had a result, which by
      ReturnsBothLocked was the owner or its absence, with everything locked. */
  lemma {:induction false} RetryingEndsWithResult(s: State, events: seq<Event>, t: Tid)
    requires t < |s.threads| && s.threads[t].retry && Trying(s.threads[t].pc)
    ensures var v := Run(s, events);
      t < |v.threads| && v.threads[t].retry && (!Trying(v.threads[t].pc) ==> WasReturned(s, events, t))
    decreases |events|
  {
    hide Apply, WasReturned, PcAfter;
    if s.threads[t].pc.Returned? {
      WasReturnedNow(s, events, t);
      KeepsThread(s, events, t);
    } else if events != [] {
      if events[0] == Step(t) {
        StepMoves(s, t);
        StillTrying(s.threads[t].pc, s.owner);
      } else {
        ApplyOthers(s, events[0], t);
      }
      RetryingEndsWithResult(Apply(s, events[0]), events[1..], t);
      if !Trying(Run(s, events).threads[t].pc) {
        WasReturnedLater(s, events, t);
      }
    }
  }

  lemma {:induction false} KeepsThread(s: State, events: seq<Event>, t: Tid)
    requires t < |s.threads|
    ensures t < |Run(s, events).threads| && Run(s, events).threads[t].retry == s.threads[t].retry
    decreases |events|
  {
    hide Apply;
    if events != [] {
      if events[0] == Step(t) {
        StepMoves(s, t);
      } else {
        ApplyOthers(s, events[0], t);
      }
      KeepsThread(Apply(s, events[0]), events[1..], t);
    }
  }

  // ---------------------------------------------------------------- getting there

  /** The steps that a thread with the locks to itself needs to its result. */
  function StepsLeft(pc: Pc, owner: Maybe): nat {
    var fromStart := if owner.None? then 2 else 6;
    match pc
    case WantCall => fromStart
    case ReadOwner => fromStart - 1
    case LetCallGo(p) => if owner == Some(p) then 4 else 7 + fromStart
    case WantPbx(p) => if owner == Some(p) then 3 else 6 + fromStart
    case WantCallAgain(p) => if owner == Some(p) then 2 else 5 + fromStart
    case Compare(p) => if owner == Some(p) then 1 else 4 + fromStart
    case DropCall(p) => 3 + fromStart
    case DropPbx(p) => 2 + fromStart
    case DropRef(p) => 1 + fromStart
    case _ => 0
  }

  /** No other thread holds a lock. */
  ghost predicate Undisturbed(s: State, t: Tid) {
    s.callLock in {None, Some(t)} && forall p :: p in s.pbxLocks ==> s.pbxLocks[p] == t
  }

  lemma UndisturbedStep(s: State, t: Tid)
    requires Inv(s) && Undisturbed(s, t) && t < |s.threads| && s.threads[t].retry
    requires Trying(s.threads[t].pc) && !s.threads[t].pc.Returned?
    ensures Enabled(s, t) && Undisturbed(Apply(s, Step(t)), t) && Apply(s, Step(t)).owner == s.owner
    ensures var pc := PcAfter(s.threads[t].pc, s.owner, true);
      StepsLeft(s.threads[t].pc, s.owner) == StepsLeft(pc, s.owner) + 1 && (pc.Returned? ==> pc.result == s.owner)
  {
    hide RefsOk, ExcessOk, ResultsOk, RefsAfter, ExcessAfter;
  }

  function Alone(t: Tid, n: nat): seq<Event> {
    seq(n, _ => Step(t))
  }

  /** A retrying thread that is left alone gets there: from any position, if the owner stays and nobody
      else holds a lock, it has locked both, or found no owner, after at most 13 steps. */
  lemma {:induction false} RetryingGetsThere(s: State, t: Tid)
    requires Inv(s) && Undisturbed(s, t) && t < |s.threads| && s.threads[t].retry && Trying(s.threads[t].pc)
    requires s.threads[t].pc.Returned? ==> s.threads[t].pc.result == s.owner
    ensures StepsLeft(s.threads[t].pc, s.owner) <= 13
    ensures var v := Run(s, Alone(t, StepsLeft(s.threads[t].pc, s.owner)));
      t < |v.threads| && v.threads[t].pc == Returned(s.owner) && v.owner == s.owner
    decreases StepsLeft(s.threads[t].pc, s.owner)
  {
    hide Inv, Undisturbed, Apply, PcAfter;
    var n := StepsLeft(s.threads[t].pc, s.owner);
    if !s.threads[t].pc.Returned? {
      UndisturbedStep(s, t);
      StepMoves(s, t);
      StillTrying(s.threads[t].pc, s.owner);
      RunKeepsInv(s, [Step(t)]);
      assert Run(s, [Step(t)]) == Run(Apply(s, Step(t)), []);
      RetryingGetsThere(Apply(s, Step(t)), t);
      assert Alone(t, n)[1..] == Alone(t, n - 1);
    }
  }

  /** Where n steps lead a single try that has compared, which no other thread can delay. */
  function AfterCompare(p: Pbx, same: bool, n: nat): Pc {
    if same then
      if n == 0 then Returned(Some(p)) else if n == 1 then CallerHoldsCall else Finished
    else
      match n
      case 0 => DropCall(p)
      case 1 => DropPbx(p)
      case 2 => DropRef(p)
      case 3 => ReturnedStale(p)
      case 4 => UnlockedStale(p)
      case 5 => ReleasedStale(p)
      case _ => FinishedStale(p)
  }

  function StepsOf(events: seq<Event>, t: Tid): nat {
    if events == [] then 0 else StepsOf(events[1..], t) + if events[0] == Step(t) then 1 else 0
  }

  lemma ApplyOthers(s: State, e: Event, t: Tid)
    requires t < |s.threads| && e != Step(t)
    ensures |Apply(s, e).threads| == |s.threads| && Apply(s, e).threads[t] == s.threads[t]
  {
  }

  lemma StepMoves(s: State, t: Tid)
    requires t < |s.threads|
    ensures var s' := Apply(s, Step(t));
      && |s'.threads| == |s.threads| && s'.threads[t].retry == s.threads[t].retry
      && s'.threads[t].pc ==
           if Enabled(s, t) then PcAfter(s.threads[t].pc, s.owner, s.threads[t].retry) else s.threads[t].pc
  {
    hide PcAfter, CallLockAfter, PbxLocksAfter, RefsAfter, ExcessAfter, Enabled;
  }

  lemma AfterCompareOn(p: Pbx, same: bool, n: nat, owner: Maybe)
    ensures var pc := AfterCompare(p, same, n);
      && (pc.Finished? || pc.FinishedStale? ==> AfterCompare(p, same, n + 1) == pc)
      && PcAfter(pc, owner, false) == AfterCompare(p, same, n + 1)
      && !pc.WantCall? && !pc.WantCallAgain? && !pc.WantPbx?
  {
  }

  lemma ComparedStep(s: State, t: Tid, p: Pbx, same: bool, n: nat)
    requires t < |s.threads| && !s.threads[t].retry && s.threads[t].pc == AfterCompare(p, same, n)
    ensures var s' := Apply(s, Step(t));
      |s'.threads| == |s.threads| && !s'.threads[t].retry && s'.threads[t].pc == AfterCompare(p, same, n + 1)
  {
    hide Apply, AfterCompare, PcAfter;
    StepMoves(s, t);
    AfterCompareOn(p, same, n, s.owner);
  }

  lemma {:induction false} ComparedRun(s: State, events: seq<Event>, t: Tid, p: Pbx, same: bool, n: nat)
    requires t < |s.threads| && !s.threads[t].retry && s.threads[t].pc == AfterCompare(p, same, n)
    ensures var s' := Run(s, events);
      |s'.threads| == |s.threads| && s'.threads[t].pc == AfterCompare(p, same, n + StepsOf(events, t))
    decreases events
  {
    hide Apply, AfterCompare;
    if events != [] {
      if events[0] == Step(t) {
        ComparedStep(s, t, p, same, n);
        ComparedRun(Apply(s, events[0]), events[1..], t, p, same, n + 1);
      } else {
        ApplyOthers(s, events[0], t);
        ComparedRun(Apply(s, events[0]), events[1..], t, p, same, n);
      }
    }
  }

  /** A single try that compares goes stale exactly if the owner is another one at that moment,
      whatever the other threads and the owner do later: after three more steps of its own it is back
      in its caller without any lock or reference, and after two more its caller has released the
      channel all the same. */
  lemma SingleTryGoesStaleIff(s0: State, before: seq<Event>, t: Tid, p: Pbx, later: seq<Event>)
    requires Initial(s0) && t < |s0.threads| && !s0.threads[t].retry
    requires var s := Run(s0, before); t < |s.threads| && s.threads[t] == Thread(Compare(p), false)
    ensures var s, s' := Run(s0, before), Run(Apply(Run(s0, before), Step(t)), later);
      && t < |s'.threads|
      && (StepsOf(later, t) >= 3 ==> (IsStale(s'.threads[t].pc) <==> s.owner != Some(p)))
      && (StepsOf(later, t) == 3 ==> (s'.threads[t].pc == ReturnedStale(p) <==> s.owner != Some(p)))
      && (StepsOf(later, t) >= 5 ==> (Overreleased(s'.threads[t].pc) == Some(p) <==> s.owner != Some(p)))
      && (IsStale(s'.threads[t].pc) ==>
           s'.callLock != Some(t) && (forall q :: q in s'.pbxLocks ==> s'.pbxLocks[q] != t)
             && forall q :: s'.refs[q] == OthersReferencing(s', t, q))
  {
    hide Inv, Run, Apply, Initial, OthersReferencing, StepsOf, HoldsCall, Locked, Referenced;
    var s := Run(s0, before);
    var s' := Run(Apply(s, Step(t)), later);
    StepMoves(s, t);
    ComparedRun(Apply(s, Step(t)), later, t, p, s.owner == Some(p), 0);
    InitialInv(s0);
    RunKeepsInv(s0, before);
    RunFrom(s, Step(t), later);
    RunKeepsInv(s, [Step(t)] + later);
    if IsStale(s'.threads[t].pc) {
      IdleHasNothing(s'.threads[t].pc);
      HoldsNothing(s', t);
    }
  }

  lemma RunFrom(s: State, e: Event, later: seq<Event>)
    ensures Run(s, [e] + later) == Run(Apply(s, e), later)
  {
    assert ([e] + later)[1..] == later;
  }

  /** On every run a reference too many is given back for each stale caller that has come so far, and
      for nobody else; callers that retry never do. */
  lemma ExcessIff(s0: State, events: seq<Event>, p: Pbx)
    requires Initial(s0)
    ensures var s := Run(s0, events);
      && (s.excess[p] > 0 <==> exists t :: 0 <= t < |s.threads| && Overreleased(s.threads[t].pc) == Some(p))
      && ((forall t :: 0 <= t < |s.threads| ==> s.threads[t].retry) ==> s.excess[p] == 0)
  {
    InitialInv(s0);
    RunKeepsInv(s0, events);
    var s := Run(s0, events);
    OverreleasingNone(s.threads, |s.threads|, p);
    if forall t :: 0 <= t < |s.threads| ==> s.threads[t].retry {
      forall t | 0 <= t < |s.threads| ensures Overreleased(s.threads[t].pc) != Some(p) {
        assert ResultOk(s, t);
      }
    }
  }

  lemma {:induction false} RunOneMore(s: State, events: seq<Event>, e: Event)
    ensures Run(s, events + [e]) == Apply(Run(s, events), e)
    decreases events
  {
    if events == [] {
      assert events + [e] == [e] && Run(s, [e]) == Run(Apply(s, e), []);
    } else {
      RunOneMore(Apply(s, events[0]), events[1..], e);
      assert (events + [e])[1..] == events[1..] + [e];
    }
  }

  function ExcessOf(pc: Pc): multiset<Pbx> {
    if Overreleased(pc).Some? then multiset{Overreleased(pc).value} else multiset{}
  }

  lemma ExcessOfStep(pc: Pc, owner: Maybe)
    ensures ExcessAfter(ExcessOf(pc), pc) == ExcessOf(PcAfter(pc, owner, false))
  {
  }

  function AloneAt(owner: Maybe, callLock: Maybe, pbxLocks: map<Pbx, Tid>, refs: multiset<Pbx>, pc: Pc): State {
    State(owner, callLock, pbxLocks, refs, [Thread(pc, false)], ExcessOf(pc))
  }

  lemma AloneStep(s0: State, run: seq<Event>, owner: Maybe, lock: Maybe, locks: map<Pbx, Tid>,
                  refs: multiset<Pbx>, pc: Pc) returns (longer: seq<Event>)
    requires Run(s0, run) == AloneAt(owner, lock, locks, refs, pc) && Enabled(AloneAt(owner, lock, locks, refs, pc), 0)
    ensures Run(s0, longer) == AloneAt(owner, CallLockAfter(lock, 0, pc), PbxLocksAfter(locks, 0, pc),
                                     RefsAfter(refs, owner, pc), PcAfter(pc, owner, false))
  {
    hide Run, PcAfter, CallLockAfter, PbxLocksAfter, RefsAfter, ExcessAfter, ExcessOf, Enabled;
    longer := run + [Step(0)];
    RunOneMore(s0, run, Step(0));
    ExcessOfStep(pc, owner);
  }

  lemma StaleRunStarts() returns (s0: State, run: seq<Event>)
    ensures Initial(s0) && Run(s0, run) == AloneAt(None, None, map[], multiset{7}, WantPbx(7))
  {
    s0 := AloneAt(Some(7), None, map[], multiset{}, WantCall);
    run := [];
    run := AloneStep(s0, run, Some(7), None, map[], multiset{}, WantCall);
    run := AloneStep(s0, run, Some(7), Some(0), map[], multiset{}, ReadOwner);
    run := AloneStep(s0, run, Some(7), Some(0), map[], multiset{7}, LetCallGo(7));
    RunOneMore(s0, run, ChangeOwner(None));
    run := run + [ChangeOwner(None)];
  }

  lemma StaleRunCompares() returns (s0: State, run: seq<Event>)
    ensures Initial(s0) && Run(s0, run) == AloneAt(None, Some(0), map[7 := 0], multiset{7}, DropCall(7))
  {
    s0, run := StaleRunStarts();
    run := AloneStep(s0, run, None, None, map[], multiset{7}, WantPbx(7));
    run := AloneStep(s0, run, None, None, map[7 := 0], multiset{7}, WantCallAgain(7));
    run := AloneStep(s0, run, None, Some(0), map[7 := 0], multiset{7}, Compare(7));
  }

  lemma StaleRunReturns() returns (s0: State, run: seq<Event>)
    ensures Initial(s0) && Run(s0, run) == AloneAt(None, None, map[], multiset{}, ReturnedStale(7))
  {
    hide Run, Initial;
    s0, run := StaleRunCompares();
    run := AloneStep(s0, run, None, Some(0), map[7 := 0], multiset{7}, DropCall(7));
    run := AloneStep(s0, run, None, None, map[7 := 0], multiset{7}, DropPbx(7));
    assert map[7 := 0] - {7} == map[];
    run := AloneStep(s0, run, None, None, map[], multiset{7}, DropRef(7));
    assert multiset{7} - multiset{7} == multiset{};
  }

  /** So without retrying the function can return a channel that it holds neither locked nor
      referenced, the call unlocked too, and its caller releases that channel: here the owner goes away
      while the function waits. */
  lemma SingleTryCanGoStale() returns (s0: State, run: seq<Event>, released: seq<Event>)
    ensures Initial(s0)
    ensures Run(s0, run) == State(None, None, map[], multiset{}, [Thread(ReturnedStale(7), false)], multiset{})
    ensures Run(s0, released) == State(None, None, map[], multiset{}, [Thread(FinishedStale(7), false)], multiset{7})
  {
    hide Run, Initial;
    s0, run := StaleRunReturns();
    released := AloneStep(s0, run, None, None, map[], multiset{}, ReturnedStale(7));
    released := AloneStep(s0, released, None, None, map[], multiset{}, UnlockedStale(7));
    released := AloneStep(s0, released, None, None, map[], multiset{}, ReleasedStale(7));
  }
}
