# Verified models of chan_sccp

chan_sccp is an Asterisk channel driver for Cisco SCCP phones. This project models the parts of it
whose correctness is hardest to see and proves what they keep, for every input, every run or every
interleaving. `dafny verify dfyconfig.toml` checks all of it with Dafny 4.11.

| file | what it models |
|---|---|
| `media.dfy` | the audio media of one call: receive channel, transmission, hole punch, acknowledgements, hangup |
| `lockfull.dfy` | the loop that locks a call and its Asterisk channel, as a state machine of any number of threads |
| `transfer_world.dfy`, `transfer.dfy` | the two transfer slots of each device and the references they own: operations on values, and the objects that carry them out |
| `hold_world.dfy`, `hold_runs.dfy`, `hold.dfy` | hold, resume with swap, the held counter of a line, the talking call of a device: operations on values, all runs of them, and the objects that carry them out |
| `buttons.dfy` | the allocation of configured buttons to the slots of a phone |
| `registration.dfy` | tokens, registrations, the message dispatcher, and what ends connections |
| `codec.dfy`, `codec_parse.dfy`, `codec_settings.dfy`, `codec_sets.dfy`, `codec_choice.dfy` | codec preference lists, their parser, what its settings mean, their algebra, the choice of a codec |
| `conference.dfy`, `conference_end.dfy` | hold by muting, the moderator count, the race to end a conference |
| `debug.dfy` | the debug mask: printer with its growing buffer, and parser |
| `callinfo.dfy` | the call information store |
| `history.dfy` | the ring of call statistics and the integer running averages |
| `wrap.dfy`, `text.dfy` | the wrapped lists of the command line, and the C string primitives |

Functions of the C code that update structures are methods on classes with those fields, and are
proved against what they promise; laws over several of them are lemmas or methods that run any
sequence of events. Whatever foreign code decides, the phone, Asterisk, the allocator, the clock, is a
parameter or left open, so every statement holds for all of its answers.

## Findings

Places where the code does less than its names or comments suggest; each is stated exactly.

- Removing a codec from a preference list also drops every other entry behind it
  (`Codec.RemoveThins`); it is a deletion if and only if at most one entry follows. So naming a codec
  again in an allow setting can lose others, and in a full list the codec itself
  (`CodecSettings.AsSaidIff`, `CodecSettings.SurvivesIff`, `CodecSettings.FullLosesNamedAgain`).
- The codec choice reduces the device's own list in place, so a codec that one call lacks is gone for
  all later calls (`CodecChoice.ReductionSticks`, `CodecChoice.UnchangedIff`).
- Unknown codec names are no longer counted after the first known one
  (`CodecParse.ErrorsStopAtFirstKnown`).
- Locking a call without retry can return an Asterisk channel that is no longer locked or referenced,
  exactly when its owner is another one at the comparison, and the resume then gives back a reference
  it never had (`LockFull.SingleTryGoesStaleIff`, `LockFull.ExcessIff`).
- The direct transfer softkey leaks the references of a transfer in progress, unless resuming the
  second of two held calls gives them back (`Transfer.Exchange.DirectTransfer`,
  `Transfer.DirectTransferLeaks`).
- Hanging up a call that is attached to a device but not active there takes the active call from the
  device, after which two calls can talk on it, even if that active call did not talk yet
  (`HoldResume.TwoTalkers`, `HoldResume.TwoTalkersLater`). `HoldRuns.GuardedIffSafeThroughout` says
  which runs avoid this.
- A registration is also accepted from a device that timed out or is being cleaned, without its ever
  being failed or unregistered (`Registration.SkipsBoth`, `Registration.SkipsIff`); the second look
  for another connection in the SPCP token request can never find one.
- A demotion in a conference raises the moderator count, and an odd number of changes of role during
  holds leaves the mute of a phone without a music class turned (`Conference.Room.PromoteDemote`,
  `Conference.RunFrom`, `Conference.PromotedInBetween`).
- A participant promoted while a conference ends can be asked to leave twice, and a moderator demoted
  then is not asked (`ConferenceEnd.AskedAsFound`, `ConferenceEnd.PromotedIsAskedTwice`,
  `ConferenceEnd.DemotedIsNeverAsked`).
- The integer averages go wrong exactly when a product and sum of the averaging overflows
  (`CallHistory.NearIffNoOverflow`, `CallHistory.WrapBreaksAverages`).
- The debug category "all" inside a list subtracts one from most masks
  (`Debug.AllInsideAListSubtractsOne`).
- A copy of call information also clears the call instance, the designator and the presentation
  (`CallInfo.CopyForgets`).

## Model

| member | source | states |
|---|---|---|
| Media.Run | src/sccp_channel.c:671-915 | on every run of connects, holds, acknowledgements of every status, failed sends, device changes, hole punches, call ends and hangups, the phone is never told twice to open a receive channel, or to start sending, without being told to end it in between, and neither once the hangup has begun |
| Media.Step | src/sccp_channel.c:671-915 | each single event, with every outcome of foreign code left open, keeps the invariant, and a hangup that has begun stays begun |
| Media.DisciplinedIff | src/sccp_channel.c:671-915 | the condition kept step by step is equivalent, for every message log, to the three statements about positions in the log |
| Media.SettledIsSafe | src/sccp_channel.c:671-915 | the invariant that every handler keeps implies all three statements about the log, and that an unfinished open or start shows in the state of its direction until the hangup |
| Media.PendingMeans | src/sccp_channel.c:671-915 | a message is pending exactly when it was sent and nothing after it ended it |
| Media.Call.OpenReceiveChannel | src/sccp_channel.c:671-721 | opens exactly when the call is not ending, nothing is open, a device is attached and an RTP instance exists or can be made; new state and the one message sent |
| Media.Call.CloseReceiveChannel | src/sccp_channel.c:760-787 | closes exactly when a device is attached, something is open and the message could be allocated; otherwise nothing changes |
| Media.Call.StartMediaTransmission | src/sccp_channel.c:789-845 | starts exactly under its three conditions, an open reception being replaced by a pending hole punch; without an RTP instance the receive channel is closed instead |
| Media.Call.StopMediaTransmission | src/sccp_channel.c:873-902 | stops exactly when a device is attached, something is started and the message could be allocated |
| Media.Call.UpdateMediaTransmission | src/sccp_channel.c:904-915 | restarts a transmission by a stop and a start; a stop that fails also skips the start |
| Media.Call.CloseAllMedia | src/sccp_channel.c:1158-1183 | what is closed and stopped, in which order, for every combination of failures |
| Media.Call.StartHolePunch | src/sccp_channel.c:622-636 | a hole punch starts a transmission without an open receive channel |
| Media.Call.FinishHolePunch | src/sccp_channel.c:638-669 | ends a punch; unless the channel stays open it stops the transmission and then opens the receive channel |
| Media.Call.MakeProgress | src/sccp_channel.c:122-153 | early media is set up at most once, by a punch for outbound calls behind NAT and by opening otherwise; without a device it can be tried again |
| Media.Call.RunCallback | src/sccp_rtp.c:210-230 | a reception callback runs once and only on an active channel; starting twice does nothing |
| Media.Call.CompleteTheAnswer | src/sccp_channel.c:1491-1543 | what completing an answer sends: it starts the transmission and then acts as for a connected call, and does nothing without a device, a begun answer or the Asterisk channel |
| Media.Call.IndicateConnected | src/sccp_indicate.c:248-278 | the three cases of a connected call: open, start when reception is active, or nothing left to do; what the callback is afterwards |
| Media.Call.IndicateConference | src/sccp_indicate.c:357-370 | the conference variant runs the callback of the transmission, which is never set, so it sends at most an open |
| Media.Call.ReceiveChannelOpen | src/sccp_channel.c:723-758 | result and effects for a missing RTP instance, an ending call and a live one; of a live call the pending callback starts the transmission exactly under its guards |
| Media.Call.MediaTransmissionStarted | src/sccp_channel.c:847-870 | result and effects for a missing RTP instance and otherwise |
| Media.Call.OpenReceiveChannelAck | src/sccp_actions.c:2885-2938 | the state of both directions and the messages after each status, whatever callback is pending: a good answer makes the reception active and starts the transmission exactly under the guards of the callback; an answer to no request is undone on the phone; a refusal closes everything and ends the call unless the phone is on hook |
| Media.Call.StartMediaTransmissionAck | src/sccp_actions.c:2940-3003 | the same for the transmission; an answer to no request sends a close and a stop |
| Media.Call.Answer | src/sccp_channel.c:1566-1580 | an answer is begun once, attaches the device and opens the receive channel |
| Media.Call.BeginHangUp | src/sccp_channel.c:1344 | the hangup flag, once set, stays |
| Media.Call.EndCall | src/sccp_channel.c:1338-1364 | exactly what is sent and what state the call is left in, whether or not Asterisk carries the hangup out before it returns |
| Media.Call.PbxHangUp | src/sccp_pbx.c:458-478 | exactly which messages a hangup sends; with a device, an instance and memory nothing stays open or started |
| Media.Call.Clean | src/sccp_channel.c:1879-1913 | cleaning closes what is left and detaches the device |
| Media.NormalCall | src/sccp_channel.c:671-902 | the messages of a whole incoming call: open, start, and after the hangup close and stop, with nothing left |
| LockFull.RunKeepsInv | src/sccp_channel.c:1447-1486 | for any number of threads, calls and owner changes, on every interleaving: each lock has the holder its callers believe in, and every extra reference belongs to exactly one caller |
| LockFull.ReturnsBothLocked | src/sccp_channel.c:1447-1486 | a caller that retries indefinitely returns with the call locked, and either there is no owner or the result is the owner, locked, with exactly one extra reference of that caller |
| LockFull.RetryingEndsWithResult | src/sccp_channel.c:1447-1486 | a caller that retries is never through without having been returned a result at some point of the run, on every run from wherever it is trying |
| LockFull.RetryingGetsThere | src/sccp_channel.c:1447-1486 | left alone it returns with the owner of that moment within 13 steps, from any position, whatever it had referenced or compared before |
| LockFull.FailedRoundLeavesNothing | src/sccp_channel.c:1447-1486 | a round that failed to get both locks leaves locks and reference counts as before the round, and a caller with a stale channel holds none |
| LockFull.WaitsForPbxWithoutCall | src/sccp_channel.c:1447-1486 | the lock of the Asterisk channel is never waited for while the call is locked |
| LockFull.SomeThreadCanStep | src/sccp_channel.c:1447-1486 | no deadlock: as long as somebody is inside, somebody can take a step |
| LockFull.QuietOwnerNeedsNoRetry | src/sccp_channel.c:1447-1486 | while the owner does not change one round is enough |
| LockFull.SingleTryGoesStaleIff | src/sccp_channel.c:1474-1485 | on every run of any number of threads, a try without retry that compares goes stale exactly if the owner is another one at that step, whatever happens later: three steps on it is back in its caller with no lock and no reference, five steps on its caller has released the channel |
| LockFull.ExcessIff | src/sccp_channel.c:1822-1830 | on every run a reference too many is given back for a channel exactly if some caller went on with it stale; callers that retry never do |
| LockFull.SingleTryCanGoStale | src/sccp_channel.c:1822-1830 | a concrete run on which the resume gets such a channel, and its caller then unlocks and releases it |
| Transfer.Run | src/sccp_channel.c:1982-2148 | after every run of transfer requests, holds with and without hook flash, resumes, answers, ends and hangups each device has both slots set to different calls or neither, each set slot owns exactly one reference and nothing is leaked |
| Transfer.Step | src/sccp_channel.c:1982-2148 | each single event keeps that and leaks nothing, whatever foreign code decides |
| TransferWorld.ReleasedIsOk | src/sccp_channel.c:2107-2122 | releasing any call leaves the slots in order, without that call, and gives every reference of a released pair back |
| Transfer.Exchange.TransferRelease | src/sccp_channel.c:2107-2122 | the new state of the device, and that the call is in no slot of it |
| Transfer.Exchange.TransferCancel | src/sccp_channel.c:2125-2148 | the transferee goes on hold without a device and the pair is released, unless there is none or it is the call itself |
| Transfer.Exchange.TransferComplete | src/sccp_channel.c:2150-2311 | the result, and that the pair of the destination's device is released exactly when both calls are still there to be joined, even if Asterisk then fails to join them |
| Transfer.Exchange.TransferOnHangUp | src/sccp_channel.c:1185-1205 | true exactly when the call is the transferer of its device and under way, and then with exactly the effect of completing the transfer; without effect otherwise |
| Transfer.Exchange.TransferRequest | src/sccp_channel.c:1982-2104 | who the transfer is for, when it is refused or completed, and exactly when the pair is set up, for a talking call as for a held one; the case of a transferer without a transferee cannot arise |
| Transfer.Exchange.SetUpPair | src/sccp_channel.c:2039-2103 | a call that talks on the device, or is held, becomes the transferee, with a new off-hook call as transferer, whenever it has an Asterisk channel with a peer and a new call is allowed; every other path ends with empty slots, and without an Asterisk channel the previous state is restored |
| Transfer.Exchange.CallAndPair | src/sccp_channel.c:2057-2097 | the pair is the transferee, in transfer, and an off-hook consultation call; without a bridged peer there is none |
| Transfer.Exchange.AbandonPair | src/sccp_channel.c:2101 | a failing path gives the reference back |
| Transfer.Exchange.GetEmptyChannel | src/sccp_channel.c:1366-1403 | a call that existed before is only reused if it is off hook and undialed, so a consultation call is never the transferee; without an active call exactly one call is added and becomes active |
| Transfer.Exchange.NewCall | src/sccp_channel.c:1407-1438 | the same for a new call; without an active call in the way it succeeds whenever it is allowed |
| Transfer.Exchange.Hold | src/sccp_channel.c:1607-1679 | succeeds exactly for a talking call with a device; its effect; on phones with hook flash, holding the consultation call cancels the transfer |
| Transfer.Exchange.PutAside | src/sccp_channel.c:1686-1698 | when the active call makes room, without leaking, and exactly when the pair of the device goes with it, wherever that call is attached |
| Transfer.Exchange.Resume | src/sccp_channel.c:1682-1800 | a resumed call is connected, active on its device and not left in the transferer slot; exactly when a swapping resume of a held call gives the pair of the device back; terminates although hold and resume call each other |
| Transfer.Exchange.Reconnect | src/sccp_channel.c:1700-1773 | a resumable call gets the device; the pair of the device goes exactly if the call was its transferer |
| Transfer.Exchange.EndCall | src/sccp_channel.c:1338-1364 | ending any call but the transferee puts the transferee on hold and releases the pair; ending the transferee releases it exactly if the call is hung up at once |
| Transfer.Exchange.PbxHangUp | src/sccp_pbx.c:446-522 | afterwards the call is in no slot of its device nor of any device of its line |
| Transfer.Exchange.Clean | src/sccp_channel.c:1854-1913 | cleaning leaves the call in no slot of its device |
| Transfer.Exchange.ClearDevice | src/sccp_channel.c:316-327 | detaching a call clears the active call of its device, whichever that is, and no slot |
| Transfer.Exchange.PairDirectly | src/sccp_softkeys.c:444-448 | the direct transfer loses exactly the references of the old slots: it leaks if and only if they were set |
| Transfer.Exchange.DirectTransfer | src/sccp_softkeys.c:428-449 | the same for the whole softkey: it leaks exactly if the slots were set, and of two held calls, the second resumed first, exactly if moreover that resume does not give the old pair back |
| Transfer.DirectTransferLeaks | src/sccp_softkeys.c:428-449 | a run from an exchange without calls on which the softkey leaks: the two calls of a pair in the making |
| TransferWorld.TransferDeviceIs | src/sccp_channel.c:2003-2024 | a transfer is for the device of an attached call; of the others the asking device transfers exactly the transferee of its own pair and held calls of lines that no other device has |
| TransferWorld.CancelEffect | src/sccp_channel.c:2125-2148 | the whole effect of a cancel on every call and device: another call in the transferee slot is held without a device and the pair and its references are gone; otherwise nothing happens |
| TransferWorld.HangUpEffect | src/sccp_pbx.c:446-522 | the whole effect of a hangup: which call goes on hold, which pairs of the line go, which devices lose their active call |
| TransferWorld.EndEffect | src/sccp_channel.c:1338-1364 | an end that is carried out at once is that hangup, any other cancels the transfer of another call on the device and nothing more |
| TransferWorld.SwapEffect | src/sccp_channel.c:1686-1773 | a swapping resume holds the talking active call and connects the held one in its place; no other call changes |
| TransferWorld.FlashEffect | src/sccp_channel.c:1641-1649 | after a hook flash the transferee talks on the device again and the pair is gone |
| HoldResume.Run | src/sccp_channel.c:1607-1800 | on every run each line's held counter is the number of its listed calls on hold, modulo the byte it is kept in, and a held call has no device; the state is that of the run on values |
| HoldRuns.StepTrackedIff | src/sccp_channel.c:1607-1800 | an attached call that is not active has begun to end and does not talk: one event keeps this exactly under its guard, which is that a stray ending call is not connected, that a resume without swap finds no other call active, and that no other call, talking or not, is active where a call is hung up |
| HoldRuns.TrackedIffSafe | src/sccp_channel.c:1607-1800 | that invariant is the weakest one: it holds exactly if no guarded continuation puts two talking calls on a device |
| HoldRuns.GuardedIffSafeThroughout | src/sccp_channel.c:1607-1800 | over all runs: the events of a run meet their guards exactly if from each of its points every guarded continuation leaves each device at most one talking call |
| HoldRuns.RunTracked | src/sccp_channel.c:1607-1800 | every guarded run keeps the invariant |
| HoldResume.CarefulRun | src/sccp_channel.c:1607-1800 | every guarded run of the operations leaves each device at most one talking call, which is its active call |
| HoldWorld.OneTalker | src/sccp_channel.c:1682-1800 | if each talking call is the active one of its device, a device has at most one |
| HoldResume.TwoTalkers | src/sccp_channel.c:1686-1698 | a run on which every resume swaps and yet two calls talk on one device: the hangup of an unused call is carried out late |
| HoldResume.TwoTalkersLater | src/sccp_channel.c:316-327 | another one, on which no hangup takes a talking call from its device either: the call active at the late hangup only dials and is connected afterwards |
| HoldResume.Step | src/sccp_channel.c:1607-1800 | each single event has exactly its effect on values, and keeps the invariant exactly under its guard |
| HoldResume.Office.Hold | src/sccp_channel.c:1607-1679 | succeeds exactly for a talking call with a device; state, device, active call and counter afterwards |
| HoldResume.Office.Resume | src/sccp_channel.c:1682-1800 | a resumed call talks and is active; with swap nobody else talks there; the result and the whole new state for every case |
| HoldResume.Office.Connect | src/sccp_channel.c:1718-1773 | the counter goes down by the one call that leaves hold |
| HoldResume.Office.PutAside | src/sccp_channel.c:1686-1698 | exactly when the active call makes room, which a talking one does by being held; afterwards no other call talks on the device |
| HoldResume.Office.HangUp | src/sccp_pbx.c:446-522 | the counter follows a held call that leaves; every talking call stays active at this step if and only if no other talking call was the active one of the device |
| HoldWorld.OrderlyDetached | src/sccp_channel.c:316-327 | detaching a call takes the active call from its device, which hides a talking call in exactly one case |
| HoldResume.Office.EndCall | src/sccp_channel.c:1338-1364 | what an immediate or later hangup changes, whoever hears of it |
| HoldResume.Office.NewCall | src/sccp_channel.c:1366-1403 | a new call gets the device only if the active call can be held or is unused |
| HoldResume.Office.Answer | src/sccp_channel.c:1548-1570 | an answered call becomes active only after the active call was held |
| HoldWorld.CountedUpdate | src/sccp_line.c:431-449 | the counters stay right when a change of one call is matched by one step of its line's counter |
| HoldWorld.SwapEffect | src/sccp_channel.c:1686-1773 | a swapping resume always succeeds while the active call talks: that call is held without a device, the held one talks in its place, and the counters move only between different lines |
| HoldWorld.ResumeUnusedEffect | src/sccp_channel.c:1686-1698 | an unused active call is ended in favour of the held one |
| HoldWorld.ResumeTalkingEffect | src/sccp_channel.c:1699-1773 | a talking call that is resumed moves to the device, and the counters stay |
| HoldWorld.AnswerEffect | src/sccp_channel.c:1548-1570 | a call is answered although another one talks: that one is held |
| HoldWorld.NewCallEffect | src/sccp_channel.c:1366-1438 | a new call while another one talks: that one is held, the new one is off hook and active |
| HoldWorld.HangUpEffect | src/sccp_pbx.c:446-522 | the whole effect of a hangup on call, device and counter |
| HoldWorld.EndEffect | src/sccp_channel.c:1338-1364 | an end that is not carried out at once only marks the call, any other is that hangup |
| Buttons.KthTakesKth | src/sccp_actions.c:919-1177 | from instances 0 the k-th eligible button takes exactly the k-th placeholder slot, with the type and counter its kind asks for; button and slot get the same instance; every other slot is unchanged |
| Buttons.FilledIsTaken | src/sccp_actions.c:938-1150 | the closed form of the template after any number of buttons |
| Buttons.InstancesReadUp | src/sccp_actions.c:933-936 | within one counter each next slot has the next instance |
| Buttons.FirstOfCounter | src/sccp_actions.c:933-936 | and the first slot of a counter has instance 1 |
| Buttons.CountersAreKinds | src/sccp_actions.c:947-1018 | line slots, real lines and hinted speed dials together, are exactly those numbered by the line counter, service slots those by the service counter |
| Buttons.MeetsMeans | src/sccp_actions.c:947-1148 | which placeholders each kind of button can use, when it is shown as what, and by which counter it is numbered |
| Buttons.WhoIsPassedOver | src/sccp_actions.c:947-1023 | exactly lines without a name, and dials or features without a label, take no slot |
| Buttons.BlinksIf | src/sccp_actions.c:1037-1075 | exactly when a feature is shown as one that blinks in several ways, or as a plain feature |
| Buttons.FeatureCodes | src/sccp_actions.c:1020-1141 | the other features have a button type of their own |
| Buttons.DefaultIsFirstLine | src/sccp_actions.c:954-960 | after any number of buttons the default line is the one that was set before, or else the instance of the first real line that was placed, or else none |
| Buttons.FirstIsNext | src/sccp_actions.c:942-945 | the first placeholder left is the next slot in line |
| Buttons.Phone.PlaceButton | src/sccp_actions.c:942-1148 | the inner loop places one button as the specification does |
| Buttons.Phone.PlaceButtons | src/sccp_actions.c:938-1151 | the outer loop is the fold of that over all buttons, those with an instance being kept |
| Buttons.Phone.Fill | src/sccp_actions.c:947-1148 | type, instances, counter and default line of one placement |
| Buttons.Phone.MakeTemplate | src/sccp_actions.c:919-1177 | the whole template, for named and anonymous phones, after the clean-up, and the default line |
| Buttons.Phone.Clean | src/sccp_actions.c:1160-1164 | exactly the multi-purpose and abbreviated-dial slots nobody took become unused |
| Buttons.Phone.PickDefault | src/sccp_actions.c:1167-1174 | the first line marked as default gives its instance, which is 0 if it was not placed |
| Registration.Run | src/sccp_actions.c:515-917 | on every run each change of a registration state starts where the last one of that device ended and is lawful: tokens only from failed or unregistered, registrations only from a device that is down or holds a token at most a minute old, completion only from a registration in progress |
| Registration.NoSecondRegistration | src/sccp_actions.c:751-917 | so a device that is registering or registered gets neither a token nor a registration before it went down |
| Registration.SkipsIff | src/sccp_actions.c:781-793 | between two registrations of a device in a row none of its changes goes to failed or unregistered exactly if every down state in between is timed out or cleaning; the last of these is seen by the second registration, as the state it finds, and with one down state in between that decides it |
| Registration.SkipsBoth | src/sccp_session.c:613-630 | runs of the server on which this happens: after a timeout, before or while the old session is cleaned up |
| Registration.RefusedThenAccepted | src/sccp_actions.c:781-793 | a device refused because it looks registered, is registering, has an old token or sits on another connection is accepted when it comes again on a fresh connection, whether or not the old one has ended |
| Registration.StaysDown | src/sccp_actions.c:515-645 | a device that went down keeps that state until it registers, or gets a token, for which it has to be failed or unregistered |
| Registration.StaysUp | src/sccp_actions.c:751-917 | a device that did not go down since is still registering or registered |
| Registration.Server.TokenRequest | src/sccp_actions.c:515-645 | the device is left holding a token exactly when the request is not refused for a reload, access rules, a device being removed, another connection or a state other than failed or unregistered; the phone is told so exactly if the fallback setting also grants it, and is rejected otherwise though the device holds the token |
| Registration.Server.Register | src/sccp_actions.c:751-917 | a registration is accepted exactly under its conditions and then adds exactly its change; a device that is refused for its state, an old token or another connection is left failed and without a connection, and this connection is closed |
| Registration.Server.Detach | src/sccp_session.c:623-627 | the end of a session takes it from its device before that is cleaned |
| Registration.Server.HandleDeviceMessage | src/sccp_actions.c:228-264 | a handler that needs a device runs exactly for the device of its own live connection while that is registering or registered; only the finishing message completes a registration |
| Registration.Server.RetainDevice | src/sccp_session.c:558-595 | who is attached to whom afterwards; the state of the device is untouched |
| Registration.Server.RemoveDevice | src/sccp_session.c:534-555 | the device becomes unregistered exactly when this was its connection |
| Registration.Server.StopThread | src/sccp_session.c:833-851 | the device of the connection takes the new state |
| Registration.Server.RefuseConnection | src/sccp_actions.c:787-793 | the refused device is left without a connection and this connection is stopped |
| Registration.Server.SetState | src/sccp_device.c:496-526 | only a real change is a change |
| Codec.PrefRemove | src/sccp_codec.c:155-168 | the array after the removal, equal to the shifting specification |
| Codec.RemoveThins | src/sccp_codec.c:155-168 | on a list without duplicates that does not fill the array, removal leaves the prefix followed by every other entry behind the codec, starting with the first |
| Codec.RemoveDeletesIff | src/sccp_codec.c:155-168 | so it is an exact deletion if and only if at most one entry follows |
| Codec.PrefAppend | src/sccp_codec.c:170-183 | the array after an append and the result |
| Codec.AppendPutsLast | src/sccp_codec.c:170-183 | the appended codec is last, behind what removing it left |
| Codec.AppendKeepsDistinct | src/sccp_codec.c:170-183 | and a list without duplicates stays without |
| CodecParse.ParseAllowDisallow | src/sccp_codec.c:185-236 | the array and the error count for every list, in terms of its pieces |
| CodecParse.ParseKeepsClean | src/sccp_codec.c:185-236 | a list with no codec behind its end stays so, for every text and every table |
| CodecParse.ErrorsStopAtFirstKnown | src/sccp_codec.c:186-236 | unknown names are only counted before the first known one |
| CodecParse.StripIs | src/sccp_codec.c:202 | stripping a name takes away nothing but blanks at its two ends |
| CodecParse.StrippedBare | src/sccp_codec.c:202 | and leaves none there |
| CodecSettings.SettingMeans | src/sccp_codec.c:185-236 | every allow or disallow setting, with exclusions and repeated names, is its operations done one after the other: each drops every other entry behind a codec that was listed, and a full list takes nothing |
| CodecSettings.DisallowAllThenAllow | src/sccp_codec.c:185-236 | disallowing all and then allowing any list leaves the operations of that list done on nothing, and what they say if each is exact |
| CodecSettings.AsSaidIff | src/sccp_codec.c:155-182 | the list is at each point what the setting says, the named codecs once in order of last naming, exactly if each codec named again is one of the last two at that point and the codecs fit |
| CodecSettings.SurvivesIff | src/sccp_codec.c:155-182 | a codec is in the final list exactly if after one of its namings, made with room, every later operation spares it: the codec operated on stands behind it or an odd number of places before it; in a full list the last codec is always spared |
| CodecSettings.DistinctNamesStay | src/sccp_codec.c:185-236 | so a list that names no codec twice leaves the named codecs in that order |
| CodecSettings.NamedAgain | src/sccp_codec.c:170-182 | allowing 1, 2, 3 and 1 leaves 2 and 1 |
| CodecSettings.FullLosesNamedAgain | src/sccp_codec.c:170-182 | in a full list a codec named again is lost, exactly if it is not the last |
| CodecParse.ApplyRows | src/sccp_codec.c:207-228 | the loop over the codec table for one name |
| CodecSets.GetReducedSet | src/sccp_codec.c:270-284 | writes the common codecs, at most 17 of them, and nothing behind |
| CodecSets.ReduceSet | src/sccp_codec.c:286-291 | the reduced list replaces the base, padded |
| CodecSets.CollectedIsFilter | src/sccp_codec.c:270-284 | without duplicates the nested loops compute the order-keeping filter |
| CodecSets.CombineSets | src/sccp_codec.c:293-321 | base followed by the new codecs, cut to the capacity |
| CodecSets.ReduceCombineAbsorbs | src/sccp_codec.c:270-321 | reducing a combination by its base gives the base back |
| CodecSets.ReduceCombineDistributes | src/sccp_codec.c:270-321 | reduction distributes over combination below the capacity |
| CodecSets.DistributesIffBelowCapacity | src/sccp_codec.c:270-321 | and the exact size up to which it does |
| CodecSets.ReduceIsIdempotent | src/sccp_codec.c:286-291 | reducing twice is reducing once |
| CodecChoice.FindBestJoint | src/sccp_codec.c:323-347 | the first of our codecs that the remote side has, else the fallback |
| CodecChoice.AudioCall.RecalculateAudio | src/sccp_channel.c:400-438 | the chosen codec is the first preferred one the remote side has, else the first preferred, else wideband, never none; the in-place reduction; what an active direction keeps |
| CodecChoice.PreferredIsReduced | src/sccp_channel.c:413-417 | the list the choice is made from is the filter of the preferences by device and call capabilities |
| CodecChoice.RechoosingIsStable | src/sccp_channel.c:400-438 | recomputing after the in-place reduction gives the same codec |
| CodecChoice.ReductionSticks | src/sccp_channel.c:414-417 | after any number of calls the device's list holds exactly those of its first 17 codecs within its capabilities that every one of the calls could do |
| CodecChoice.UnchangedIff | src/sccp_channel.c:414-417 | a choice leaves the device's list as it is exactly if it has at most 17 entries, all within both capability lists |
| CodecChoice.ChoiceIsUnique | src/sccp_codec.c:323-347 | the promise determines the codec |
| CodecChoice.ChoiceMeans | src/sccp_channel.c:420-425 | the chosen codec is a preferred one; it is one that both sides can do if there is any, no preferred one before it being so, and the most preferred otherwise |
| Conference.RunFrom | src/sccp_conference.c:676-719 | over any run of holds, resumes, toggles and changes of role, from any conference, each mute is its first value, turned by each toggle, by a hold by muting, and, without a music class, by each change of role during a hold; the law for fixed roles holds exactly where the number of these changes is even |
| Conference.Run | src/sccp_conference.c:676-719 | the same from the start of a conference with any roster, outright; for a participant whose role nobody changes, by its toggles and the hold alone |
| Conference.Step | src/sccp_conference.c:676-719 | each single event keeps the law, counts its toggle and starts or ends the hold exactly when it should |
| Conference.TurnedLawIff | src/sccp_conference.c:1267-1281 | a participant's mute is as for a fixed role exactly if hold is not a mute for it or its role changed an even number of times during holds |
| Conference.HoldThenResume | src/sccp_conference.c:676-719 | hold and then resume restores every mute |
| Conference.PromotedInBetween | src/sccp_conference.c:1267-1279 | a participant without a music class who is promoted in between has its mute turned for good, from unmuted to muted or from muted to unmuted |
| Conference.PromotedAndDemoted | src/sccp_conference.c:1267-1281 | being demoted again in the same hold restores it |
| Conference.Room.PromoteDemote | src/sccp_conference.c:1267-1300 | who changes role; the moderator count is the live moderators plus twice the demotions; a change during a hold counts as one turn of the mute, whatever happened before |
| Conference.Room.Hold | src/sccp_conference.c:676-697 | when a hold takes effect and whose mute it turns |
| Conference.Room.Resume | src/sccp_conference.c:699-719 | whose mute the end of a hold turns back, whatever the roles did |
| Conference.Room.PlayMusic | src/sccp_conference.c:1222-1265 | mute is turned exactly for phones without a music class |
| Conference.Room.PlayMusicToAll | src/sccp_conference.c:687-693 | the loop treats every non-moderator |
| Conference.Room.ToggleMute | src/sccp_conference.c:1199-1210 | mute and tone flag are turned together |
| Conference.Room.Toggle | src/sccp_conference.c:1199-1220 | an explicit toggle counts once |
| Conference.Room.Leave | src/sccp_conference.c:163-170 | a destroyed moderator is taken from the count; the other participants keep their law |
| ConferenceEnd.ReleasedExactlyOnce | src/sccp_conference.c:633-674 | on every interleaving of any number of callers no two work on the end at a time and at most one gets through with it; once all are back it was exactly one, and the list's reference was released exactly once |
| ConferenceEnd.AskedAsFound | src/sccp_conference.c:648-662 | on every run, with participants leaving and changing roles, the requests are those the first loop found ordinary and staying, in order, then those the second found moderators and staying; somebody is asked twice exactly if found so by both, and never exactly if by neither |
| ConferenceEnd.LooksAreFound | src/sccp_conference.c:648-662 | what a loop found of a participant is its role and whether it was leaving at the step that came to it |
| ConferenceEnd.AskedOnceInOrder | src/sccp_conference.c:648-662 | if nobody changes its role, nobody is asked to leave twice, ordinary participants are asked before moderators, and when the conference is off the list everybody was asked but those found leaving |
| ConferenceEnd.PromotedIsAskedTwice | src/sccp_conference.c:1267-1274 | a run on which a participant promoted between the loops is asked twice |
| ConferenceEnd.DemotedIsNeverAsked | src/sccp_conference.c:1275-1281 | a run on which a moderator demoted between the loops is never asked |
| ConferenceEnd.AsksExactlyTheStaying | src/sccp_conference.c:648-662 | if nobody leaves or changes its role meanwhile exactly those not leaving already were asked |
| ConferenceEnd.RunKeeps | src/sccp_conference.c:633-674 | the invariant of all runs: one worker, how far its loops have come, and the requests as a function of what they found |
| ConferenceEnd.RolesAndLeaving | src/sccp_conference.c:1267-1281 | what each event changes of roles, the moderator count and who is leaving |
| Debug.ParseUndoesPrint | src/sccp_debug.c:53-143 | parsing a printed mask sets its known bits in any start value, and behind "no" clears them; nothing is printed exactly for masks without known bits |
| Debug.ParseDebugLine | src/sccp_debug.c:53-98 | the value after any argument list, numbers included |
| Debug.GetDebugCategories | src/sccp_debug.c:114-143 | no write leaves the growing buffer, and it ends holding the printed text; nothing comes back exactly when there is nothing to print or no memory for one of the names |
| Debug.PrintName | src/sccp_debug.c:119-138 | one name fits behind the text although the limit given to snprintf exceeds the room left |
| Debug.NamesTurn | src/sccp_debug.c:73-90 | applying the printed names turns exactly the printed bits, on or off |
| Debug.KeyApplies | src/sccp_debug.c:74-88 | a key acts through its own row alone |
| Debug.KeysDiffer | src/sccp_debug.c:18-51 | no two keys of the table are equal ignoring case |
| Debug.TokensOfJoin | src/sccp_debug.c:71-94 | a comma list splits into the names it was joined from |
| Debug.AllInsideAListSubtractsOne | src/sccp_debug.c:73-88 | the name "all" inside a list is added to the mask arithmetically: unless nothing or everything was on it does not turn everything on but subtracts one |
| Debug.ApplyTokens | src/sccp_debug.c:71-95 | the token loop |
| Debug.ApplyToken | src/sccp_debug.c:74-88 | the loop over the table |
| Debug.StopsWin | src/sccp_debug.c:62-64 | the words "none" and "off" empty the mask wherever they stand, whatever stands around them |
| Debug.ArgsInParts | src/sccp_debug.c:60-96 | without them the arguments act one after the other, and a "no" turns all that follow it |
| Debug.LastAllDecides | src/sccp_debug.c:65-68 | a last argument "all" sets every bit, or clears every bit behind a "no" |
| Debug.TokensSplit | src/sccp_debug.c:57-95 | a blank, a comma or a tab separates what stands before it from what follows |
| Debug.WordIsOneToken | src/sccp_debug.c:57-95 | and nothing else does |
| Debug.NumberIsMask | src/sccp_debug.c:60 | a decimal number, with or without a sign, is the new mask modulo 2 to the power 32, whatever follows it |
| CallInfo.Run | src/sccp_callinfo.c:137-476 | on every run of setters, copies and sends a store that is not marked as changed is exactly what the device was told last |
| CallInfo.GetsLastSet | src/sccp_callinfo.c:137-229 | from construction a getter returns for each key the last value set that was not NULL, cut to its field |
| CallInfo.SettersKeepValid | src/sccp_callinfo.c:203-208 | a number or voicemail box is valid exactly when it is not empty |
| CallInfo.CopyReads | src/sccp_callinfo.c:233-363 | after any copy each key reads what the source of its last pair reads, except that a number reads empty unless one of its pairs copied a valid number; a key that is no destination reads empty |
| CallInfo.CopyForgets | src/sccp_callinfo.c:355-358 | a copy loses the call instance, the designator and the presentation unless that is copied |
| CallInfo.Info.Setter | src/sccp_callinfo.c:137-229 | the content after all settings, and the number of settings that differ from what they find; changed is set exactly by a change |
| CallInfo.Info.CopyByKey | src/sccp_callinfo.c:233-363 | the destination holds only the copied pairs and is marked as changed |
| CallInfo.Info.Getter | src/sccp_callinfo.c:368-459 | every buffer holds what its key reads, string, reason or presentation, NULL buffers are skipped, and the result is the number of buffers that did not hold it already |
| CallInfo.GetsLastNumbers | src/sccp_callinfo.c:137-176 | from construction on the reasons and the presentation are the ones set last |
| CallInfo.Info.Send | src/sccp_callinfo.c:461-476 | with a device the device always ends up told the current content |
| CallInfo.FieldsDiffer | src/sccp_callinfo.c:66-86 | the lookup table gives different keys different fields |
| CallInfo.RepeatsCountNothing | src/sccp_callinfo.c:137-229 | settings count nothing exactly if none of them differs from the content, and then it stays as it is |
| CallInfo.NamesAreLonger | src/sccp_callinfo.c:66-86 | names are cut to 39 characters, numbers and voicemail boxes to 23, and a cut text is a prefix |
| CallHistory.Device.Show | src/sccp_cli.c:1515-1516 | the reader yields exactly the last calls, at most 20, newest first |
| CallHistory.Device.Record | src/sccp_actions.c:3249-3289 | recording appends to the log that the ring and the averages stand for |
| CallHistory.AverageNearSum | src/sccp_actions.c:3166 | as long as no product and sum of the averaging overflows, n stored averages fall short of the sum by at most n(n-1)/2 and never exceed it |
| CallHistory.NearIffNoOverflow | src/sccp_actions.c:3166 | for up to 92682 calls that bound holds after every call exactly if nothing overflows |
| CallHistory.AverageBetween | src/sccp_actions.c:3269-3287 | without an overflow the stored average lies between the smallest and the largest sample |
| CallHistory.SmallSumNoOverflow | src/sccp_actions.c:3166 | samples whose sum stays within 32 bits never overflow |
| CallHistory.RoundingBoundIsMet | src/sccp_actions.c:3166 | the rounding bound is met by samples 0, 1, 2 and so on, which never overflow although their sum passes 32 bits |
| CallHistory.WrapBreaksAverages | src/sccp_actions.c:3166 | two samples whose sum overflows give an average below both |
| LineWrap.PrintList | src/sccp_cli.c:1057-1081 | the printed text is the greedy lines, indented, behind the label |
| LineWrap.GreedyIsWrap | src/sccp_cli.c:1057-1081 | all items in order, and every line with more than one item ends by column 79 |
| LineWrap.FewestLines | src/sccp_cli.c:1057-1081 | no wrap under that rule has fewer lines |
| LineWrap.GreedyAhead | src/sccp_cli.c:1065-1079 | line by line the greedy wrap is never behind |
| LineWrap.FirstLineStartsAtIndent | src/sccp_cli.c:1059-1064 | the first line starts at the indent exactly when the label is no longer than its width |
| LineWrap.LineIsJoin | src/sccp_cli.c:1065-1079 | a line is its items with one space between them |
| LineWrap.StrippedIs | src/sccp_cli.c:1065-1068 | an item loses the blanks before it, all of them, and nothing else |
| Text.JoinSplit | src/sccp_cli.c:1065 | splitting at a separator loses nothing |

## Left out

- HoldResume.CarefulRun: promises nothing for runs with an unguarded event, because the statement is then false; HoldRuns.GuardedIffSafeThroughout gives the exact condition, HoldResume.TwoTalkers and HoldResume.TwoTalkersLater the failing runs.
- HoldResume.Office.NewCall: does not model a call that stays behind without an Asterisk channel because that could not be created; Transfer.Exchange.GetEmptyChannel does.
- HoldResume.Office.Hold: does not model hook flash, conferences and transfers, which Transfer.Exchange.Hold and Conference.Room.Hold model for their own state.
- Transfer.Run: does not include the direct transfer softkey, which leaks; Transfer.Exchange.DirectTransfer states exactly what.
- LockFull.WaitsForPbxWithoutCall: assumes that no caller enters sccp_channel_lock_full with the call locked already; the lock of a call is recursive, and the release in the function would then not give it up.
- LockFull.SingleTryCanGoStale: unlocking what the thread has not locked is taken to leave the mutexes as they are.
- Transfer.Run: assumes that retaining a live call succeeds.
- Media.Run: takes each handler as one step; it does not interleave two handlers of the same call.
- Debug.ParseDebugLine: numbers beyond 32 bits are taken modulo 2 to the power 32, where C leaves the conversion undefined.
- CallHistory.NearIffNoOverflow: beyond 92682 calls the rounding alone may exceed what a wrap loses, so that only one direction holds.
- CallHistory.AverageNearSum: does not cover a call counter that itself wraps after 2 to the power 32 calls.
- CodecParse.ParseAllowDisallow: takes the codec table as a parameter and proves its statements for every table.
- ConferenceEnd.RunKeeps: takes the list of participants as fixed during the traversal; a participant that leaves is marked as leaving, but its removal from the list, which the code also does under a read lock, is not modelled, nor is the moderator count that then goes down.
- Conference.RunFrom: takes music classes as fixed and nobody leaves during the run; Conference.Room.Leave keeps the law for one who does.
- Calls, devices and lines of the transfer, hold and registration models are records in lists of one object and refer to each other by position, not by pointer; freeing and reuse of memory are not modelled.
- Video media functions, which mirror the audio ones.
- The digit and no-answer schedulers and the reference they keep when they refuse to schedule.
- Sockets, TLS, the session poll loop, spawning of the token fallback script, configuration files and reload.
- Wire formats, byte order and capability parsing of protocol messages; decoded fields are inputs.
- Command line and manager tables, tab completion, the XML conference menus and dialplan functions.
- Asterisk's bridging, masquerade, scheduler and RTP engine, beyond their possible answers.
- Floating point: opinion scores, concealment ratios and the en-bloc dialling estimate.
- The fallback of the atomic operations for builds without them, which gives up its lock after 60 tries.
