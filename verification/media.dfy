/** Audio media of one call: the receive channel, the transmission, and the acknowledgements of the
    phone (sccp_channel.c, the handlers of sccp_actions.c, and their callers in sccp_indicate.c,
    sccp_pbx.c, sccp_rtp.c and the Asterisk adapter). */
module Media {

  // ---------------------------------------------------------------- what the phone is told

  /** The messages of one call in the order they are sent, and the moment its hangup begins. */
  datatype Message = OpenReceive | CloseReceive | StartMedia | StopMedia | HangUp

  /** Between any two messages m there is a message ending it. */
  ghost predicate NeverTwice(log: seq<Message>, m: Message, ending: Message) {
    forall i, j :: 0 <= i < j < |log| && log[i] == m && log[j] == m ==> exists k :: i < k < j && log[k] == ending
  }

  /** Nothing is opened or started once the hangup has begun. */
  ghost predicate QuietAfterHangUp(log: seq<Message>) {
    forall i, j :: 0 <= i < j < |log| && log[i] == HangUp ==> log[j] != OpenReceive && log[j] != StartMedia
  }

  /** m was sent and nothing has ended it since. */
  predicate Pending(log: seq<Message>, m: Message, ending: Message) {
    log != [] && var last := log[|log| - 1];
    last == m || (last != ending && Pending(log[..|log| - 1], m, ending))
  }

  /** The same as a condition on each message when it is sent. */
  ghost predicate Disciplined(log: seq<Message>) {
    log == [] ||
    var last, before := log[|log| - 1], log[..|log| - 1];
    && Disciplined(before)
    && (last == OpenReceive ==> HangUp !in before && !Pending(before, OpenReceive, CloseReceive))
    && (last == StartMedia ==> HangUp !in before && !Pending(before, StartMedia, StopMedia))
  }

  lemma {:induction false} PendingMeans(log: seq<Message>, m: Message, ending: Message)
    requires m != ending
    ensures Pending(log, m, ending)
        <==> exists i :: 0 <= i < |log| && log[i] == m && forall k :: i < k < |log| ==> log[k] != ending
  {
    if log != [] {
      var n := |log| - 1;
      var before := log[..n];
      PendingMeans(before, m, ending);
      if log[n] == m {
        assert |log| == n + 1;
      } else if log[n] != ending {
        if Pending(before, m, ending) {
          var i :| 0 <= i < n && before[i] == m && forall k :: i < k < n ==> before[k] != ending;
          assert log[i] == m;
          forall k | i < k < |log| ensures log[k] != ending {
            if k < n { assert before[k] == log[k]; }
          }
        } else {
          assert forall k :: 0 <= k < n ==> before[k] == log[k];
        }
      }
    }
  }

  lemma {:induction false} DisciplinedNeverTwice(log: seq<Message>, m: Message, ending: Message)
    requires Disciplined(log)
    requires (m == OpenReceive && ending == CloseReceive) || (m == StartMedia && ending == StopMedia)
    ensures NeverTwice(log, m, ending)
  {
    if log != [] {
      var n := |log| - 1;
      var before := log[..n];
      DisciplinedNeverTwice(before, m, ending);
      PendingMeans(before, m, ending);
      forall i, j | 0 <= i < j < |log| && log[i] == m && log[j] == m
        ensures exists k :: i < k < j && log[k] == ending
      {
        assert before[i] == m;
        if j < n {
          assert before[j] == m;
          var k :| i < k < j && before[k] == ending;
          assert log[k] == ending;
        } else {
          var k :| i < k < n && before[k] == ending;
          assert log[k] == ending;
        }
      }
    }
  }

  lemma {:induction false} DisciplinedIsQuiet(log: seq<Message>)
    requires Disciplined(log)
    ensures QuietAfterHangUp(log)
  {
    if log != [] {
      var n := |log| - 1;
      var before := log[..n];
      DisciplinedIsQuiet(before);
      forall i, j | 0 <= i < j < |log| && log[i] == HangUp ensures log[j] != OpenReceive && log[j] != StartMedia {
        assert before[i] == HangUp;
        if j < n { assert before[j] == log[j]; }
      }
    }
  }

  lemma NeverTwiceBefore(log: seq<Message>, m: Message, ending: Message)
    requires log != [] && m != ending && NeverTwice(log, m, ending)
    ensures NeverTwice(log[..|log| - 1], m, ending)
    ensures log[|log| - 1] == m ==> !Pending(log[..|log| - 1], m, ending)
  {
    hide Pending;
    var before := log[..|log| - 1];
    forall i, j | 0 <= i < j < |before| && before[i] == m && before[j] == m
      ensures exists k :: i < k < j && before[k] == ending
    {
      assert log[i] == m && log[j] == m;
      var k :| i < k < j && log[k] == ending;
      assert before[k] == ending;
    }
    PendingMeans(before, m, ending);
    assert forall k :: 0 <= k < |before| ==> before[k] == log[k];
  }

  lemma {:induction false} QuietIsDisciplined(log: seq<Message>)
    requires NeverTwice(log, OpenReceive, CloseReceive) && NeverTwice(log, StartMedia, StopMedia)
    requires QuietAfterHangUp(log)
    ensures Disciplined(log)
  {
    if log != [] {
      var before := log[..|log| - 1];
      NeverTwiceBefore(log, OpenReceive, CloseReceive);
      NeverTwiceBefore(log, StartMedia, StopMedia);
      assert forall k :: 0 <= k < |before| ==> before[k] == log[k];
      QuietIsDisciplined(before);
    }
  }

  /** The step by step condition is exactly the three statements about positions in the log. */
  lemma DisciplinedIff(log: seq<Message>)
    ensures Disciplined(log)
        <==> (NeverTwice(log, OpenReceive, CloseReceive)
              && NeverTwice(log, StartMedia, StopMedia) && QuietAfterHangUp(log))
  {
    if Disciplined(log) {
      DisciplinedNeverTwice(log, OpenReceive, CloseReceive);
      DisciplinedNeverTwice(log, StartMedia, StopMedia);
      DisciplinedIsQuiet(log);
    }
    if NeverTwice(log, OpenReceive, CloseReceive) && NeverTwice(log, StartMedia, StopMedia) && QuietAfterHangUp(log) {
      QuietIsDisciplined(log);
    }
  }

  // ---------------------------------------------------------------- the call

  /** The bits of sccp_rtp_status_t; the empty set is SCCP_RTP_STATUS_INACTIVE. */
  datatype Status = Progress | Active | Failed

  /** The reception callback of the RTP structure. */
  datatype Callback = NoCallback | StartSending | CompleteAnswer

  /** The status in an acknowledgement: the phone's on-hook answer, its two refusals, any other. */
  datatype MediaStatus = Fine | OnHook | OutOfResources | Refused

  /** What Asterisk and the allocator do with a call that is ended: whether the hangup is carried out
      at once, and the call then cleaned, and whether the messages of either can be allocated. */
  datatype Ending = Ending(atOnce: bool, closes: bool, stops: bool, cleaned: bool, closesAgain: bool, stopsAgain: bool)

  function Closing(closes: bool, stops: bool): seq<Message> {
    (if closes then [CloseReceive] else []) + (if stops then [StopMedia] else [])
  }

  lemma NoClosing(log: seq<Message>)
    ensures log + Closing(false, false) == log && log + [] == log
  {
  }

  lemma ClosingInTurn(log: seq<Message>, closes: bool, stops: bool)
    ensures log + (if closes then [CloseReceive] else []) + (if stops then [StopMedia] else [])
      == log + Closing(closes, stops)
  {
  }

  function Left(s: set<Status>, closed: bool): set<Status> {
    if closed then {} else s
  }

  /** The end of a call closes the channel, or stops the transmission, of a call with an RTP instance. */
  predicate ClosesLate(o: Ending) {
    o.atOnce && (o.closes || (o.cleaned && o.closesAgain))
  }

  predicate StopsLate(o: Ending) {
    o.atOnce && (o.stops || (o.cleaned && o.stopsAgain))
  }

  /** What is sent when a call with the given directions open is ended. */
  function EndLog(o: Ending, hanging: bool, live: bool, open: bool, sending: bool): seq<Message> {
    (if hanging then [] else [HangUp])
    + Closing(o.atOnce && live && open && o.closes, o.atOnce && live && sending && o.stops)
    + Closing(o.atOnce && o.cleaned && live && open && !o.closes && o.closesAgain,
              o.atOnce && o.cleaned && live && sending && !o.stops && o.stopsAgain)
  }

  lemma NothingToClose(o: Ending, hanging: bool, open: bool, sending: bool)
    ensures EndLog(o, hanging, false, open, sending) == if hanging then [] else [HangUp]
  {
  }

  lemma EndLogInTurn(o: Ending, hanging: bool, live: bool, open: bool, sending: bool, log: seq<Message>)
    ensures var begun := log + (if hanging then [] else [HangUp]);
      var hungUp := begun + Closing(live && open && o.closes, live && sending && o.stops);
      var cleaned := hungUp
        + Closing(live && open && !o.closes && o.closesAgain, live && sending && !o.stops && o.stopsAgain);
      && (!o.atOnce ==> log + EndLog(o, hanging, live, open, sending) == begun)
      && (o.atOnce && !o.cleaned ==> log + EndLog(o, hanging, live, open, sending) == hungUp)
      && (o.atOnce && o.cleaned ==> log + EndLog(o, hanging, live, open, sending) == cleaned)
  {
    hide Closing;
    NoClosing([]);
  }

  /** What a refusal sends to a phone with the given directions open. */
  function RefusalLog(status: MediaStatus, closes: bool, stops: bool, o: Ending, hanging: bool, device: bool,
                      instance: bool, open: bool, sending: bool): seq<Message>
  {
    var closed, stopped := device && open && closes, device && sending && stops;
    Closing(closed, stopped)
    + (if status == OnHook then [] else EndLog(o, hanging, device && instance, open && !closed, sending && !stopped))
  }

  class Call {
    const outbound: bool
    var isHangingUp: bool
    var hasDevice: bool
    var behindNat: bool
    var hasInstance: bool
    var isAnswering: bool
    var progressSent: bool
    var holepunch: bool
    var callback: Callback
    var rx: set<Status>
    var tx: set<Status>
    ghost var log: seq<Message>

    /** What every step keeps: the log is disciplined, and until the hangup an unfinished open or
        start shows in the state of its direction. */
    ghost predicate Valid()
      reads this
    {
      && Disciplined(log)
      && (isHangingUp <==> HangUp in log)
      && (!isHangingUp && Pending(log, OpenReceive, CloseReceive) ==> rx != {})
      && (!isHangingUp && Pending(log, StartMedia, StopMedia) ==> tx != {})
    }

    /** What holds between two steps: a hole is punched once, as part of the call progress. */
    ghost predicate Settled()
      reads this
    {
      Valid() && (holepunch ==> progressSent)
    }

    constructor (outbound: bool)
      ensures Settled() && log == [] && rx == {} && tx == {} && !isHangingUp && this.outbound == outbound
      ensures !hasDevice && !hasInstance && !isAnswering && !progressSent && !holepunch && callback == NoCallback
    {
      this.outbound := outbound;
      isHangingUp, hasDevice, behindNat, hasInstance := false, false, false, false;
      isAnswering, progressSent, holepunch := false, false, false;
      callback := NoCallback;
      rx, tx := {}, {};
      log := [];
    }

    /** Hands one message to the phone. */
    ghost method Send(m: Message)
      modifies this`log
      ensures log == old(log) + [m]
      ensures HangUp in log <==> m == HangUp || HangUp in old(log)
      ensures Pending(log, OpenReceive, CloseReceive) <==>
        m == OpenReceive || (m != CloseReceive && Pending(old(log), OpenReceive, CloseReceive))
      ensures Pending(log, StartMedia, StopMedia) <==>
        m == StartMedia || (m != StopMedia && Pending(old(log), StartMedia, StopMedia))
      ensures Disciplined(log) <==>
        && Disciplined(old(log))
        && (m == OpenReceive ==> HangUp !in old(log) && !Pending(old(log), OpenReceive, CloseReceive))
        && (m == StartMedia ==> HangUp !in old(log) && !Pending(old(log), StartMedia, StopMedia))
    {
      log := log + [m];
      assert log[..|log| - 1] == old(log);
    }

    /** sccp_channel_openReceiveChannel; Asterisk may have the channel hanging up already, and may
        fail to create an RTP instance. */
    method OpenReceiveChannel(pbxLeaving: bool, instanceCreated: bool)
      requires Valid()
      modifies this`rx, this`hasInstance, this`log
      ensures Valid()
      ensures var opens := !isHangingUp && !pbxLeaving && old(rx) == {} && hasDevice
        && (old(hasInstance) || instanceCreated);
        && rx == (if opens then {Progress} else old(rx))
        && log == old(log) + (if opens then [OpenReceive] else [])
        && hasInstance == (old(hasInstance) || opens)
    {
      hide Disciplined, Pending;
      if isHangingUp || pbxLeaving {
        return;
      }
      if rx != {} {
        return;
      }
      if !hasDevice {
        return;
      }
      if !hasInstance && !instanceCreated {
        return;
      }
      hasInstance := true;
      rx := {Progress};
      Send(OpenReceive);
    }

    /** sccp_channel_closeReceiveChannel; there may be no memory for the message. */
    method CloseReceiveChannel(granted: bool)
      requires Valid()
      modifies this`rx, this`log
      ensures Valid()
      ensures var closes := hasDevice && old(rx) != {} && granted;
        && rx == (if closes then {} else old(rx))
        && log == old(log) + (if closes then [CloseReceive] else [])
    {
      hide Disciplined, Pending;
      if !hasDevice {
        return;
      }
      if rx != {} {
        if !granted {
          return;
        }
        Send(CloseReceive);
        rx := {};
      }
    }

    /** sccp_channel_startMediaTransmission. */
    method StartMediaTransmission(pbxLeaving: bool, granted: bool)
      requires Valid()
      modifies this`rx, this`tx, this`log
      ensures Valid()
      ensures var asked := !isHangingUp && !pbxLeaving && old(tx) == {} && hasDevice;
        var starts := asked && (holepunch || (hasInstance && old(rx) != {}));
        var closes := asked && !starts && old(rx) != {} && granted;
        && tx == (if starts then {Progress} else old(tx))
        && rx == (if closes then {} else old(rx))
        && log == old(log) + (if starts then [StartMedia] else if closes then [CloseReceive] else [])
    {
      hide Disciplined, Pending;
      if isHangingUp || pbxLeaving {
        return;
      }
      if tx != {} {
        return;
      }
      if !hasDevice {
        CloseReceiveChannel(granted);
        return;
      }
      if (!hasInstance || rx == {}) && !holepunch {
        CloseReceiveChannel(granted);
        return;
      }
      tx := tx + {Progress};
      Send(StartMedia);
    }

    /** sccp_channel_stopMediaTransmission. */
    method StopMediaTransmission(granted: bool)
      requires Valid()
      modifies this`tx, this`log
      ensures Valid()
      ensures var stops := hasDevice && old(tx) != {} && granted;
        && tx == (if stops then {} else old(tx))
        && log == old(log) + (if stops then [StopMedia] else [])
    {
      hide Disciplined, Pending;
      if !hasDevice {
        return;
      }
      if tx != {} {
        if !granted {
          return;
        }
        Send(StopMedia);
        tx := {};
      }
    }

    /** sccp_channel_updateMediaTransmission: a stop that fails also skips the start. */
    method UpdateMediaTransmission(granted: bool, pbxLeaving: bool, closeGranted: bool)
      requires Valid()
      modifies this`rx, this`tx, this`log
      ensures Valid()
      ensures var stops := old(tx) != {} && hasDevice && granted;
        var asked := (old(tx) == {} || stops) && hasDevice && !isHangingUp && !pbxLeaving;
        var starts := asked && (holepunch || (hasInstance && old(rx) != {}));
        var closes := asked && !starts && old(rx) != {} && closeGranted;
        && tx == (if starts then {Progress} else if stops then {} else old(tx))
        && rx == (if closes then {} else old(rx))
        && log == old(log) + (if stops then [StopMedia] else [])
                           + (if starts then [StartMedia] else if closes then [CloseReceive] else [])
    {
      hide Disciplined, Pending;
      if tx != {} {
        StopMediaTransmission(granted);
      }
      if tx == {} {
        StartMediaTransmission(pbxLeaving, closeGranted);
      }
    }

    /** sccp_channel_closeAllMediaTransmitAndReceive. */
    method CloseAllMedia(closeGranted: bool, stopGranted: bool) returns (res: set<Status>)
      requires Valid()
      modifies this`rx, this`tx, this`log
      ensures Valid() && res == {}
      ensures var closes := hasDevice && old(rx) != {} && closeGranted;
        var stops := hasDevice && old(tx) != {} && stopGranted;
        && rx == (if closes then {} else old(rx))
        && tx == (if stops then {} else old(tx))
        && log == old(log) + Closing(closes, stops)
    {
      hide Disciplined, Pending;
      ClosingInTurn(log, hasDevice && rx != {} && closeGranted, hasDevice && tx != {} && stopGranted);
      if rx != {} {
        CloseReceiveChannel(closeGranted);
      }
      if tx != {} {
        StopMediaTransmission(stopGranted);
      }
      res := {};
    }

    /** sccp_channel_startHolePunch. */
    method StartHolePunch(pbxLeaving: bool, granted: bool)
      requires Valid() && !holepunch
      modifies this`holepunch, this`rx, this`tx, this`log
      ensures Valid() && holepunch && rx == old(rx)
      ensures var starts := !isHangingUp && !pbxLeaving && old(tx) == {} && hasDevice;
        && tx == (if starts then {Progress} else old(tx))
        && log == old(log) + (if starts then [StartMedia] else [])
    {
      hide Disciplined, Pending;
      holepunch := true;
      StartMediaTransmission(pbxLeaving, granted);
    }

    /** sccp_channel_finishHolePunch. */
    method FinishHolePunch(keepChannelOpen: bool, granted: bool, pbxLeaving: bool, instanceCreated: bool)
      returns (stillPending: bool)
      requires Valid()
      modifies this`holepunch, this`hasInstance, this`rx, this`tx, this`log
      ensures Valid() && !holepunch && !stillPending
      ensures !old(holepunch) || keepChannelOpen ==>
        rx == old(rx) && tx == old(tx) && log == old(log) && hasInstance == old(hasInstance)
      ensures var stops := hasDevice && old(tx) != {} && granted;
        var opens := !isHangingUp && !pbxLeaving && old(rx) == {} && hasDevice && (old(hasInstance) || instanceCreated);
        old(holepunch) && !keepChannelOpen ==>
          && tx == (if stops then {} else old(tx))
          && rx == (if opens then {Progress} else old(rx)) && hasInstance == (old(hasInstance) || opens)
          && log == old(log) + (if stops then [StopMedia] else []) + (if opens then [OpenReceive] else [])
    {
      hide Disciplined, Pending;
      if holepunch {
        if !keepChannelOpen {
          StopMediaTransmission(granted);
          OpenReceiveChannel(pbxLeaving, instanceCreated);
        }
        holepunch := false;
      }
      stillPending := holepunch;
    }

    /** makeProgress: the only place that punches a hole. */
    method MakeProgress(wantsEarlyRtp: bool, pbxLeaving: bool, granted: bool, instanceCreated: bool)
      requires Settled()
      modifies this`progressSent, this`holepunch, this`hasInstance, this`rx, this`tx, this`log
      ensures Settled()
      ensures var early := wantsEarlyRtp && !old(progressSent);
        var punches := early && old(rx) == {} && hasDevice && outbound && behindNat;
        && progressSent == (old(progressSent) || (early && (old(rx) != {} || hasDevice)))
        && holepunch == (old(holepunch) || punches)
        && (!early || old(rx) != {} || !hasDevice ==> log == old(log) && rx == old(rx) && tx == old(tx))
        && var asked := early && old(rx) == {} && hasDevice && !isHangingUp && !pbxLeaving;
           var starts := asked && punches && old(tx) == {};
           var opens := asked && !punches && (old(hasInstance) || instanceCreated);
           && tx == (if starts then {Progress} else old(tx)) && rx == (if opens then {Progress} else old(rx))
           && log == old(log) + (if starts then [StartMedia] else []) + (if opens then [OpenReceive] else [])
           && hasInstance == (old(hasInstance) || opens)
    {
      hide Disciplined, Pending;
      if wantsEarlyRtp && !progressSent {
        if rx == {} {
          if !hasDevice {
            return;
          }
          if outbound && behindNat {
            StartHolePunch(pbxLeaving, granted);
          } else {
            OpenReceiveChannel(pbxLeaving, instanceCreated);
          }
        }
        progressSent := true;
      }
    }

    /** sccp_rtp_runCallback for the reception: a callback runs once, and only on an open channel;
        leaves, created: what IndicateConnected meets if it is an answer that is completed. */
    method RunCallback(pbxThere: bool, pbxLeaving: bool, granted: bool, leaves: bool, created: bool) returns (ran: bool)
      requires Settled()
      modifies this`callback, this`holepunch, this`hasInstance, this`rx, this`tx, this`log
      ensures Settled()
      ensures ran <==> old(callback) != NoCallback && Active in old(rx)
      ensures !ran ==> rx == old(rx) && tx == old(tx) && log == old(log) && callback == old(callback)
      ensures !ran || old(callback) == StartSending ==> holepunch == old(holepunch) && hasInstance == old(hasInstance)
      ensures ran && old(callback) == StartSending ==>
        var asked := old(tx) == {} && hasDevice && !isHangingUp && !pbxLeaving;
        var starts := asked && (holepunch || hasInstance);
        var closes := asked && !starts && granted;
        && callback == NoCallback
        && tx == (if starts then {Progress} else old(tx)) && rx == (if closes then {} else old(rx))
        && log == old(log) + (if starts then [StartMedia] else if closes then [CloseReceive] else [])
      ensures ran && old(callback) == CompleteAnswer ==>
        AnswerCompleted(old(holepunch), old(hasInstance), old(rx), old(tx), old(log), pbxThere
          && !pbxLeaving, granted, leaves, created)
      decreases if callback == CompleteAnswer then 1 else 0, 1
    {
      hide Disciplined, Pending;
      ran := false;
      if callback != NoCallback && Active in rx {
        var fetched := callback;
        callback := NoCallback;
        if fetched == StartSending {
          StartMediaTransmission(pbxLeaving, granted);
        } else {
          CompleteTheAnswer(pbxThere, pbxLeaving, granted, leaves, created);
        }
        ran := true;
      }
    }

    /** After an answer is completed: sending starts if it can; a channel whose RTP instance is lost is
        closed, and one that is not open is opened, with a callback for its acknowledgement. */
    ghost predicate AnswerCompleted(punch: bool, instance: bool, rx0: set<Status>, tx0: set<Status>, log0: seq<Message>,
                                    there: bool, granted: bool, leaves: bool, created: bool)
      reads this
    {
      var taken := hasDevice && isAnswering && there;
      var asked := taken && !isHangingUp && tx0 == {};
      var starts := asked && (punch || (instance && rx0 != {}));
      var closes := asked && !starts && rx0 != {} && granted;
      var rx1, tx1 := Left(rx0, closes), if starts then {Progress} else tx0;
      var opens := taken && rx1 == {} && !isHangingUp && !leaves && (instance || created);
      var waits := taken && !punch && (rx1 == {} || (tx1 == {} && Active !in rx1));
      && tx == tx1 && rx == (if opens then {Progress} else rx1)
      && log == log0 + (if starts then [StartMedia] else []) + (if closes then [CloseReceive] else [])
                     + (if opens then [OpenReceive] else [])
      && callback == (if waits then StartSending else NoCallback)
      && hasInstance == (instance || opens)
      && holepunch == (punch && !(taken && outbound && behindNat))
    }

    /** channel_answer_completion, with the outcome of sccp_channel_lock_full left open. */
    method CompleteTheAnswer(pbxThere: bool, pbxLeaving: bool, granted: bool, leaves: bool, created: bool)
      requires Settled() && callback == NoCallback
      modifies this`callback, this`holepunch, this`hasInstance, this`rx, this`tx, this`log
      ensures Settled()
      ensures AnswerCompleted(old(holepunch), old(hasInstance), old(rx), old(tx), old(log),
        pbxThere && !pbxLeaving, granted, leaves, created)
      decreases 0, 3
    {
      hide Disciplined, Pending;
      if hasDevice && isAnswering {
        if pbxThere && !pbxLeaving {
          StartMediaTransmission(pbxLeaving, granted);
          IndicateConnected(pbxThere, leaves, granted, leaves, created);
        }
      }
    }

    /** The CONNECTED case of sccp_indicate. */
    method IndicateConnected(pbxThere: bool, pbxLeaving: bool, granted: bool, leaves: bool, created: bool)
      requires Settled() && hasDevice
      modifies this`callback, this`holepunch, this`hasInstance, this`rx, this`tx, this`log
      ensures Settled()
      ensures var punch := old(holepunch) && !(outbound && behindNat);
        var wanted := if old(holepunch) then old(callback) else StartSending;
        && (old(rx) == {} ==>
             var opens := !isHangingUp && !pbxLeaving && (old(hasInstance) || created);
             && callback == wanted && tx == old(tx) && rx == (if opens then {Progress} else {})
             && log == old(log) + (if opens then [OpenReceive] else [])
             && hasInstance == (old(hasInstance) || opens) && holepunch == punch)
        && (old(rx) != {} && old(tx) != {} ==>
             && callback == NoCallback && rx == old(rx) && tx == old(tx) && log == old(log)
             && hasInstance == old(hasInstance) && holepunch == punch)
        && (old(rx) != {} && old(tx) == {} && (Active !in old(rx) || wanted == NoCallback) ==>
             && callback == wanted && rx == old(rx) && tx == old(tx) && log == old(log)
             && hasInstance == old(hasInstance) && holepunch == punch)
        && (Active in old(rx) && old(tx) == {} && wanted == StartSending ==>
             var asked := !isHangingUp && !pbxLeaving;
             var starts := asked && (punch || hasInstance);
             var closes := asked && !starts && granted;
             && callback == NoCallback && tx == (if starts then {Progress} else {})
             && rx == (if closes then {} else old(rx))
             && log == old(log) + (if starts then [StartMedia] else if closes then [CloseReceive] else [])
             && hasInstance == old(hasInstance) && holepunch == punch)
        && (Active in old(rx) && old(tx) == {} && wanted == CompleteAnswer ==>
             AnswerCompleted(punch, old(hasInstance), old(rx), old(tx), old(log), pbxThere
               && !pbxLeaving, granted, leaves, created))
      decreases if callback == CompleteAnswer then 1 else 0, 2
    {
      hide Disciplined, Pending;
      if !holepunch {
        callback := StartSending;
      }
      if outbound && behindNat {
        var _ := FinishHolePunch(true, false, false, false);
      }
      if rx == {} {
        OpenReceiveChannel(pbxLeaving, created);
      } else if tx == {} {
        var _ := RunCallback(pbxThere, pbxLeaving, granted, leaves, created);
      } else {
        callback := NoCallback;
      }
    }

    /** The CONNECTEDCONFERENCE case, which runs the callback of the transmission; none is ever set. */
    method IndicateConference(pbxLeaving: bool, instanceCreated: bool)
      requires Settled() && hasDevice
      modifies this`callback, this`hasInstance, this`rx, this`log
      ensures Settled()
      ensures old(rx) != {} ==> log == old(log) && rx == old(rx) && hasInstance == old(hasInstance)
      ensures old(rx) == {} ==>
        && hasInstance == (old(hasInstance) || rx != {})
        && rx == (if !isHangingUp && !pbxLeaving && (old(hasInstance) || instanceCreated) then {Progress} else {})
        && log == old(log) + (if rx != {} then [OpenReceive] else [])
      ensures callback == if old(rx) != {} && tx != {} then NoCallback else StartSending
    {
      hide Disciplined, Pending;
      callback := StartSending;
      if rx == {} {
        OpenReceiveChannel(pbxLeaving, instanceCreated);
      } else if tx == {} {
      } else {
        callback := NoCallback;
      }
    }

    /** The start of every hangup: isHangingUp is set, and stays. */
    method BeginHangUp()
      requires Settled()
      modifies this`isHangingUp, this`log
      ensures Settled() && isHangingUp
      ensures log == old(log) + if old(isHangingUp) then [] else [HangUp]
    {
      hide Disciplined, Pending;
      if !isHangingUp {
        Send(HangUp);
      }
      isHangingUp := true;
    }

    /** sccp_pbx_hangup up to the point where the call leaves its line. */
    method PbxHangUp(closeGranted: bool, stopGranted: bool)
      requires Settled()
      modifies this`isHangingUp, this`rx, this`tx, this`log
      ensures Settled() && isHangingUp
      ensures rx == (if hasDevice && hasInstance && closeGranted then {} else old(rx))
      ensures tx == (if hasDevice && hasInstance && stopGranted then {} else old(tx))
      ensures log == old(log) + (if old(isHangingUp) then [] else [HangUp])
        + Closing(hasDevice && hasInstance && old(rx) != {} && closeGranted, hasDevice && hasInstance
          && old(tx) != {} && stopGranted)
    {
      hide Disciplined, Pending, Closing;
      BeginHangUp();
      NoClosing(log);
      if hasInstance {
        var _ := CloseAllMedia(closeGranted, stopGranted);
      }
    }

    /** sccp_channel_clean. */
    method Clean(closeGranted: bool, stopGranted: bool)
      requires Settled()
      modifies this`hasDevice, this`rx, this`tx, this`log
      ensures Settled() && !hasDevice
      ensures var live := old(hasDevice) && hasInstance;
        && rx == (if live && closeGranted then {} else old(rx)) && tx == (if live && stopGranted then {} else old(tx))
        && log == old(log) + Closing(live && old(rx) != {} && closeGranted, live && old(tx) != {} && stopGranted)
    {
      hide Disciplined, Pending, Closing;
      NoClosing(log);
      if hasDevice && hasInstance {
        var _ := CloseAllMedia(closeGranted, stopGranted);
      }
      hasDevice := false;
    }

    /** sccp_channel_endcall; Asterisk may carry the hangup out before it returns. */
    method EndCall(o: Ending)
      requires Settled()
      modifies this`isHangingUp, this`hasDevice, this`rx, this`tx, this`log
      ensures Settled() && isHangingUp && hasDevice == (old(hasDevice) && !(o.atOnce && o.cleaned))
      ensures rx == Left(old(rx), old(hasDevice) && hasInstance && ClosesLate(o))
      ensures tx == Left(old(tx), old(hasDevice) && hasInstance && StopsLate(o))
      ensures log == old(log) + EndLog(o, old(isHangingUp), old(hasDevice) && hasInstance, old(rx) != {}, old(tx) != {})
    {
      hide Disciplined, Pending, Closing, EndLog, Settled;
      EndLogInTurn(o, isHangingUp, hasDevice && hasInstance, rx != {}, tx != {}, log);
      BeginHangUp();
      if o.atOnce {
        PbxHangUp(o.closes, o.stops);
        if o.cleaned {
          Clean(o.closesAgain, o.stopsAgain);
        }
      }
    }

    /** sccp_channel_receiveChannelOpen; ending: the call is no longer one that can be connected. */
    method ReceiveChannelOpen(ending: bool, pbxThere: bool, pbxLeaving: bool, granted: bool, o: Ending)
      returns (res: set<Status>)
      requires Settled()
      modifies this`isHangingUp, this`hasDevice, this`callback, this`holepunch, this`hasInstance, this`rx, this`tx,
        this`log
      ensures Settled()
      ensures !old(hasInstance) ==>
        && res == {} && isHangingUp && hasDevice == (old(hasDevice) && !(o.atOnce && o.cleaned))
        && rx == old(rx) && tx == old(tx) && log == old(log) + (if old(isHangingUp) then [] else [HangUp])
        && !hasInstance && callback == old(callback) && holepunch == old(holepunch)
      ensures old(hasInstance) && (old(isHangingUp) || ending) ==>
        && res == {Active} && log == old(log) && tx == old(tx) && rx == old(rx) && callback == old(callback)
        && isHangingUp == old(isHangingUp) && hasDevice == old(hasDevice) && hasInstance && holepunch == old(holepunch)
      ensures old(hasInstance) && !old(isHangingUp) && !ending ==>
        && res == rx && OpenedAndSending(old(holepunch), old(callback), old(rx), old(tx), old(log), pbxThere,
             pbxLeaving)
        && !isHangingUp && hasDevice == old(hasDevice) && hasInstance
    {
      hide Disciplined, Pending;
      if !hasInstance {
        NothingToClose(o, isHangingUp, rx != {}, tx != {});
        EndCall(o);
        return {};
      }
      if isHangingUp || ending {
        return {Active};
      }
      rx := rx + {Active};
      if !pbxLeaving {
        var _ := RunCallback(pbxThere, pbxLeaving, granted, false, false);
      }
      res := rx;
    }

    /** After the phone opened the channel of a live call: it is active, and the pending callback has
        started the transmission, unless that was under way, or Asterisk is hanging up, or there was no
        answer to complete. */
    ghost predicate OpenedAndSending(punch: bool, pending: Callback, rx0: set<Status>, tx0: set<Status>,
                                     log0: seq<Message>, pbxThere: bool, pbxLeaving: bool)
      reads this
    {
      var completes := pending == CompleteAnswer && isAnswering && pbxThere && hasDevice;
      var sends := !pbxLeaving && (pending == StartSending || completes) && tx0 == {} && hasDevice;
      && rx == rx0 + {Active} && tx == (if sends then {Progress} else tx0)
      && log == log0 + (if sends then [StartMedia] else [])
      && callback == (if pbxLeaving then pending else NoCallback)
      && holepunch == (punch && !(!pbxLeaving && completes && outbound && behindNat))
    }

    /** sccp_channel_mediaTransmissionStarted. */
    method MediaTransmissionStarted(ending: bool, o: Ending) returns (res: set<Status>)
      requires Settled()
      modifies this`isHangingUp, this`hasDevice, this`rx, this`tx, this`log
      ensures Settled()
      ensures !hasInstance ==>
        && res == {} && isHangingUp && hasDevice == (old(hasDevice) && !(o.atOnce && o.cleaned))
        && rx == old(rx) && tx == old(tx) && log == old(log) + (if old(isHangingUp) then [] else [HangUp])
      ensures hasInstance ==>
        && res == {Active} && isHangingUp == old(isHangingUp) && hasDevice == old(hasDevice)
        && log == old(log) && rx == old(rx) && tx == old(tx) + (if isHangingUp || ending then {} else {Active})
    {
      hide Disciplined, Pending;
      if !hasInstance {
        NothingToClose(o, isHangingUp, rx != {}, tx != {});
        EndCall(o);
        return {};
      }
      if isHangingUp || ending {
        return {Active};
      }
      tx := tx + {Active};
      res := {Active};
    }

    /** The refused cases of both acknowledgements: everything is closed, and the call ended unless the
        phone is on hook. */
    method Refuse(status: MediaStatus, closeGranted: bool, stopGranted: bool, o: Ending) returns (res: set<Status>)
      requires Settled() && status != Fine
      modifies this`isHangingUp, this`hasDevice, this`rx, this`tx, this`log
      ensures Settled() && res == {Failed}
      ensures isHangingUp == (old(isHangingUp) || status != OnHook)
      ensures hasDevice == (old(hasDevice) && !(status != OnHook && o.atOnce && o.cleaned))
      ensures log == old(log) + RefusalLog(status, closeGranted, stopGranted, o, old(isHangingUp), old(hasDevice),
                                           hasInstance, old(rx) != {}, old(tx) != {})
      ensures rx == Left(old(rx), old(hasDevice)
        && (closeGranted || (status != OnHook && hasInstance && ClosesLate(o))))
      ensures tx == Left(old(tx), old(hasDevice) && (stopGranted || (status != OnHook && hasInstance && StopsLate(o))))
    {
      hide Disciplined, Pending, Closing, EndLog, ClosesLate, StopsLate;
      NoClosing(log);
      res := CloseAllMedia(closeGranted, stopGranted);
      res := res + {Failed};
      if status != OnHook {
        EndCall(o);
      }
    }

    /** An answer that nobody waits for is undone on the phone. */
    method Undo(closes: bool, stops: bool)
      requires Settled()
      modifies this`log
      ensures Settled()
        && log == old(log) + (if closes then [CloseReceive] + (if stops then [StopMedia] else []) else [])
    {
      hide Disciplined, Pending;
      if !closes {
        return;
      }
      Send(CloseReceive);
      if !stops {
        return;
      }
      Send(StopMedia);
    }

    /** handle_openReceiveChannelAck for this call: an answer to no open request is undone on the
        phone; a refusal closes everything, and ends the call unless the phone is on hook. */
    method OpenReceiveChannelAck(status: MediaStatus, ending: bool, closeGranted: bool, stopGranted: bool,
                                 pbxThere: bool, pbxLeaving: bool, granted: bool, o: Ending)
      requires Settled()
      modifies this`isHangingUp, this`hasDevice, this`callback, this`holepunch, this`hasInstance, this`rx, this`tx,
        this`log
      ensures Settled() && hasInstance == old(hasInstance)
      ensures Progress !in old(rx) ==>
        && rx == old(rx) && tx == old(tx) && isHangingUp == old(isHangingUp) && hasDevice == old(hasDevice)
        && log == old(log) + (if status == Fine && closeGranted then [CloseReceive] else [])
      ensures Progress in old(rx) && status != Fine ==>
        && rx == {Failed}
        && tx == Left(old(tx), old(hasDevice) && (stopGranted || (status != OnHook && hasInstance && StopsLate(o))))
        && isHangingUp == (old(isHangingUp) || status != OnHook)
        && hasDevice == (old(hasDevice) && !(status != OnHook && o.atOnce && o.cleaned))
        && log == old(log) + RefusalLog(status, closeGranted, stopGranted, o, old(isHangingUp), old(hasDevice),
                                        hasInstance, old(rx) != {}, old(tx) != {})
      ensures Progress in old(rx) && status == Fine && !old(hasInstance) ==>
        && rx == {} && tx == old(tx) && isHangingUp && hasDevice == (old(hasDevice) && !(o.atOnce && o.cleaned))
        && log == old(log) + (if old(isHangingUp) then [] else [HangUp])
      ensures Progress in old(rx) && status == Fine && old(hasInstance) && (old(isHangingUp) || ending) ==>
        && rx == {Active} && tx == old(tx) && log == old(log)
        && isHangingUp == old(isHangingUp) && hasDevice == old(hasDevice)
      ensures Progress in old(rx) && status == Fine && old(hasInstance) && !old(isHangingUp) && !ending ==>
        && OpenedAndSending(old(holepunch), old(callback), old(rx), old(tx), old(log), pbxThere, pbxLeaving)
        && !isHangingUp && hasDevice == old(hasDevice)
      ensures !(Progress in old(rx) && status == Fine && hasInstance && !old(isHangingUp) && !ending) ==>
        callback == old(callback) && holepunch == old(holepunch)
    {
      hide Disciplined, Pending, RefusalLog, Left, ClosesLate, StopsLate;
      var resulting: set<Status> := {Failed};
      if Progress in rx {
        match status {
          case Fine =>
            resulting := ReceiveChannelOpen(ending, pbxThere, pbxLeaving, granted, o);
          case _ =>
            resulting := Refuse(status, closeGranted, stopGranted, o);
        }
        rx := resulting;
      } else if status == Fine {
        Undo(closeGranted, false);
      }
    }

    /** handle_startMediaTransmissionAck for this call. */
    method StartMediaTransmissionAck(status: MediaStatus, ending: bool, closeGranted: bool, stopGranted: bool,
      o: Ending)
      requires Settled()
      modifies this`isHangingUp, this`hasDevice, this`rx, this`tx, this`log
      ensures Settled()
      ensures Progress !in old(tx) ==>
        && rx == old(rx) && tx == old(tx) && isHangingUp == old(isHangingUp) && hasDevice == old(hasDevice)
        && log == old(log)
             + (if status == Fine && closeGranted then [CloseReceive] + (if stopGranted then [StopMedia] else [])
               else [])
      ensures Progress in old(tx) && status != Fine ==>
        && tx == {Failed}
        && rx == Left(old(rx), old(hasDevice) && (closeGranted || (status != OnHook && hasInstance && ClosesLate(o))))
        && isHangingUp == (old(isHangingUp) || status != OnHook)
        && hasDevice == (old(hasDevice) && !(status != OnHook && o.atOnce && o.cleaned))
        && log == old(log) + RefusalLog(status, closeGranted, stopGranted, o, old(isHangingUp), old(hasDevice),
                                        hasInstance, old(rx) != {}, old(tx) != {})
      ensures Progress in old(tx) && status == Fine && !hasInstance ==>
        && tx == {} && rx == old(rx) && isHangingUp && hasDevice == (old(hasDevice) && !(o.atOnce && o.cleaned))
        && log == old(log) + (if old(isHangingUp) then [] else [HangUp])
      ensures Progress in old(tx) && status == Fine && hasInstance ==>
        && tx == {Active} && rx == old(rx) && log == old(log)
        && isHangingUp == old(isHangingUp) && hasDevice == old(hasDevice)
    {
      hide Disciplined, Pending, RefusalLog, Left, ClosesLate, StopsLate;
      var resulting: set<Status> := {Failed};
      if Progress in tx {
        match status {
          case Fine =>
            resulting := MediaTransmissionStarted(ending, o);
          case _ =>
            resulting := Refuse(status, closeGranted, stopGranted, o);
        }
        tx := resulting;
      } else if status == Fine {
        Undo(closeGranted, stopGranted);
      }
    }

    /** sccp_channel_answer once the active call is out of the way. */
    method Answer(ringing: bool, pbxLeaving: bool, nated: bool, leaves: bool, instanceCreated: bool)
      requires Settled()
      modifies this`isAnswering, this`hasDevice, this`behindNat, this`callback, this`hasInstance, this`rx, this`log
      ensures Settled()
      ensures var taken := ringing && !pbxLeaving && !old(isAnswering);
        var opens := taken && old(rx) == {} && !leaves && !isHangingUp && (old(hasInstance) || instanceCreated);
        && isAnswering == (old(isAnswering) || taken) && hasDevice == (old(hasDevice) || taken)
        && behindNat == (if taken then nated else old(behindNat))
        && callback == (if taken then CompleteAnswer else old(callback))
        && rx == (if opens then {Progress} else old(rx)) && hasInstance == (old(hasInstance) || opens)
        && log == old(log) + (if opens then [OpenReceive] else [])
    {
      hide Disciplined, Pending;
      if ringing && !pbxLeaving && !isAnswering {
        isAnswering := true;
        hasDevice, behindNat := true, nated;
        callback := CompleteAnswer;
        OpenReceiveChannel(leaves, instanceCreated);
      }
    }
  }

  // ---------------------------------------------------------------- runs

  /** What can happen to the media of a call, from the phone, Asterisk and the other parts of the
      driver. */
  datatype Event =
    | Connected | ConferenceJoined | Held | WrongNumber | ProgressMade | Answered
    | OpenAcked(status: MediaStatus) | StartAcked(status: MediaStatus)
    | PeerChanged | SourceChanged | FrameRead | Ended | HungUp | Cleaned
    | DeviceAttached(nated: bool) | DeviceDetached

  method Step(c: Call, e: Event)
    requires c.Settled()
    modifies c
    ensures c.Settled()
    ensures old(c.isHangingUp) ==> c.isHangingUp
  {
    hide Disciplined, Pending;
    var a: bool, b: bool, p: bool, q: bool, r: bool := *, *, *, *, *;
    var o: Ending := *;
    match e {
      case Connected => if c.hasDevice { c.IndicateConnected(p, q, a, r, b); }
      case ConferenceJoined => if c.hasDevice { c.IndicateConference(p, b); }
      case Held => if c.hasDevice { var _ := c.CloseAllMedia(a, b); }
      case WrongNumber => if c.hasDevice { var _ := c.CloseAllMedia(a, b); }
      case ProgressMade => c.MakeProgress(p, q, a, b);
      case Answered =>
        var nated: bool := *;
        c.Answer(p, q, nated, a, b);
      case OpenAcked(status) =>
        var granted: bool := *;
        c.OpenReceiveChannelAck(status, p, a, b, q, r, granted, o);
      case StartAcked(status) => c.StartMediaTransmissionAck(status, p, a, b, o);
      case PeerChanged => if c.tx != {} { c.UpdateMediaTransmission(a, p, b); }
      case SourceChanged => if c.outbound && c.rx == {} && p { c.OpenReceiveChannel(a, b); }
      case FrameRead => if c.outbound && c.progressSent && p { var _ := c.FinishHolePunch(false, a, q, b); }
      case Ended => c.EndCall(o);
      case HungUp => c.PbxHangUp(a, b);
      case Cleaned => c.Clean(a, b);
      case DeviceAttached(nated) => c.hasDevice, c.behindNat := true, nated;
      case DeviceDetached => c.hasDevice := false;
    }
  }

  /** What every handler keeps is what the phone needs. */
  lemma SettledIsSafe(c: Call)
    requires c.Settled()
    ensures NeverTwice(c.log, OpenReceive, CloseReceive) && NeverTwice(c.log, StartMedia, StopMedia)
      && QuietAfterHangUp(c.log)
    ensures c.isHangingUp <==> HangUp in c.log
    ensures !c.isHangingUp && c.rx == {} ==> !Pending(c.log, OpenReceive, CloseReceive)
    ensures !c.isHangingUp && c.tx == {} ==> !Pending(c.log, StartMedia, StopMedia)
  {
    DisciplinedIff(c.log);
  }

  /** Over every run the phone is never told to open a receive channel, or to start sending, twice
      without being told to end it in between, and neither at all once the hangup has begun. */
  method Run(events: seq<Event>, outbound: bool) returns (c: Call)
    ensures NeverTwice(c.log, OpenReceive, CloseReceive)
    ensures NeverTwice(c.log, StartMedia, StopMedia)
    ensures QuietAfterHangUp(c.log)
  {
    c := new Call(outbound);
    for i := 0 to |events|
      invariant c.Settled()
    {
      Step(c, events[i]);
    }
    SettledIsSafe(c);
  }

  /** A normal incoming call: answered, the channel opened by the phone, so sending starts, and is
      acknowledged, until the hangup closes both. */
  method NormalCall() returns (c: Call)
    ensures c.log == [OpenReceive, StartMedia, HangUp, CloseReceive, StopMedia] && c.rx == {} && c.tx == {}
  {
    hide Disciplined, Pending;
    c := new Call(false);
    var o := Ending(true, true, true, true, true, true);
    c.Answer(true, false, false, false, true);
    c.OpenReceiveChannelAck(Fine, false, true, true, true, false, true, o);
    assert c.rx == {Progress, Active} && c.tx == {Progress} && c.log == [OpenReceive, StartMedia];
    c.StartMediaTransmissionAck(Fine, false, true, true, o);
    c.EndCall(o);
  }
}
