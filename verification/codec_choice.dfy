/** The choice of a call's audio codec (sccp_channel.c, sccp_codec.c). */
module CodecChoice {
  import opened Codec
  import opened CodecSets

  /** Among the codecs of p, in order, the first that the remote side has. */
  ghost predicate IsFirstCommon(j: Codec, p: seq<Codec>, remote: seq<Codec>) {
    exists i :: 0 <= i < |p| && p[i] == j && j in remote && forall k :: 0 <= k < i ==> p[k] !in remote
  }

  ghost predicate NothingCommon(p: seq<Codec>, remote: seq<Codec>) {
    forall i :: 0 <= i < |p| ==> p[i] !in remote
  }

  lemma {:induction false} MatchesNothing(c: Codec, keep: seq<Codec>, n: nat)
    requires n <= |keep|
    ensures (MatchesTo(c, keep, n) == [] <==> c !in keep[..n])
    ensures MatchesTo(c, keep, n) != [] ==> MatchesTo(c, keep, n)[0] == c
  {
    if n > 0 {
      MatchesNothing(c, keep, n - 1);
      assert keep[..n] == keep[..n - 1] + [keep[n - 1]];
    }
  }

  lemma NothingCommonStep(p: seq<Codec>, remote: seq<Codec>, n: nat)
    requires n < |p|
    ensures NothingCommon(p[..n + 1], remote) <==> NothingCommon(p[..n], remote) && p[n] !in remote
    ensures NothingCommon(p[..n], remote) && p[n] in remote ==> IsFirstCommon(p[n], p, remote)
  {
    assert p[..n + 1] == p[..n] + [p[n]];
    if NothingCommon(p[..n], remote) && p[n] in remote {
      assert forall k :: 0 <= k < n ==> p[..n][k] == p[k];
    }
  }

  lemma NothingInNothing(remote: seq<Codec>)
    ensures NothingCommon([], remote)
  {
  }

  /** The head of a reduced list is the first common codec. */
  lemma {:induction false} CollectedHead(p: seq<Codec>, remote: seq<Codec>, n: nat)
    requires n <= |p|
    ensures CollectedTo(p, remote, n) == [] <==> NothingCommon(p[..n], remote)
    ensures CollectedTo(p, remote, n) != [] ==> IsFirstCommon(CollectedTo(p, remote, n)[0], p, remote)
  {
    hide NothingCommon, IsFirstCommon, MatchesTo;
    if n == 0 {
      NothingInNothing(remote);
    } else {
      CollectedHead(p, remote, n - 1);
      MatchesNothing(p[n - 1], remote, |remote|);
      assert remote[..|remote|] == remote;
      NothingCommonStep(p, remote, n - 1);
    }
  }

  /** sccp_codec_findBestJoint. */
  method FindBestJoint(ours: array<Codec>, remote: array<Codec>, fallback: bool) returns (res: Codec)
    requires ours.Length == remote.Length == MAX_CAPABILITIES
    ensures var p, r := Listed(ours[..]), Listed(remote[..]);
            if NothingCommon(p, r) then res == (if fallback then ours[0] else NONE)
            else IsFirstCommon(res, p, r)
  {
    res := NONE;
    ghost var p, r := Listed(ours[..]), Listed(remote[..]);
    if !(ours[0] == NONE && remote[0] == NONE) {
      var leadPrefs := new Codec[MAX_CAPABILITIES](i requires 0 <= i < ours.Length reads ours => ours[i]);
      assert leadPrefs[..] == ours[..];
      ReduceSet(leadPrefs, remote);
      res := leadPrefs[0];
      CollectedHead(p, r, |p|);
      assert p[..|p|] == p;
    }
    if res == NONE && fallback {
      res := ours[0];
    }
  }

  lemma {:induction false} MatchesAreIt(c: Codec, keep: seq<Codec>, n: nat)
    requires n <= |keep|
    ensures forall x :: x in MatchesTo(c, keep, n) ==> x == c && c in keep
  {
    if n > 0 { MatchesAreIt(c, keep, n - 1); }
  }

  lemma {:induction false} CollectedMembers(base: seq<Codec>, keep: seq<Codec>, n: nat)
    requires n <= |base|
    ensures forall c :: c in CollectedTo(base, keep, n) ==> c in base && c in keep
  {
    hide MatchesTo;
    if n > 0 {
      CollectedMembers(base, keep, n - 1);
      MatchesAreIt(base[n - 1], keep, |keep|);
    }
  }

  /** A reduced list is read back as it was written. */
  lemma ReducedLists(base: seq<Codec>, keep: seq<Codec>)
    requires NONE !in base
    ensures var p := Cut(Collected(base, keep), MAX_CAPABILITIES - 1);
            Listed(Padded(p)) == p && NONE !in p
  {
    CollectedMembers(base, keep, |base|);
    PaddedLists(Cut(Collected(base, keep), MAX_CAPABILITIES - 1));
  }

  /** The preference list after the reductions that the choice makes in place. */
  function Preferred(prefs: seq<Codec>, deviceCaps: seq<Codec>, caps: seq<Codec>, ofDevice: bool): seq<Codec> {
    var first := if ofDevice then Cut(Collected(prefs, deviceCaps), MAX_CAPABILITIES - 1) else prefs;
    Cut(Collected(first, caps), MAX_CAPABILITIES - 1)
  }

  /** The first codec of p that the remote side has; else the first of p; else the wide-band one. */
  ghost predicate IsChoice(j: Codec, p: seq<Codec>, remote: seq<Codec>) {
    if NothingCommon(p, remote) then j == if p == [] then WIDEBAND_256K else p[0]
    else IsFirstCommon(j, p, remote)
  }

  /** The parts of a call that decide its audio codec. */
  class AudioCall {
    const preferences: array<Codec>
    const capabilities: array<Codec>
    const remoteCapabilities: array<Codec>
    const devicePreferences: array<Codec>
    const deviceCapabilities: array<Codec>
    var hasDevice: bool
    var preferencesSetOnLine: bool
    var receiving: bool
    var transmitting: bool
    var receptionFormat: Codec
    var transmissionFormat: Codec

    ghost predicate Valid() {
      && preferences.Length == capabilities.Length == remoteCapabilities.Length == MAX_CAPABILITIES
      && devicePreferences.Length == deviceCapabilities.Length == MAX_CAPABILITIES
      && preferences !in {capabilities, remoteCapabilities, devicePreferences, deviceCapabilities}
      && devicePreferences !in {capabilities, remoteCapabilities, deviceCapabilities}
    }

    /** The list the choice starts from. */
    function Source(): array<Codec>
      reads this
    {
      if hasDevice && !preferencesSetOnLine then devicePreferences else preferences
    }

    /** sccp_channel_recalculateAudioCodecFormat. */
    method RecalculateAudio()
      requires Valid()
      modifies this`receptionFormat, this`transmissionFormat, preferences, devicePreferences
      ensures !receiving && !transmitting ==>
                var p := Preferred(old(Listed(Source()[..])), Listed(deviceCapabilities[..]),
                                   Listed(capabilities[..]), hasDevice && !preferencesSetOnLine);
                && Source()[..] == Padded(p)
                && IsChoice(receptionFormat, p, Listed(remoteCapabilities[..]))
                && transmissionFormat == receptionFormat != NONE
      ensures receiving || transmitting ==>
                && Source()[..] == old(Source()[..])
                && receptionFormat == old(receptionFormat)
                && transmissionFormat == if receiving || receptionFormat == NONE then old(transmissionFormat)
                                         else receptionFormat
      ensures hasDevice && !preferencesSetOnLine ==> preferences[..] == old(preferences[..])
      ensures !hasDevice || preferencesSetOnLine ==> devicePreferences[..] == old(devicePreferences[..])
    {
      var joint := receptionFormat;
      if !receiving && !transmitting {
        var prefs := preferences;
        if hasDevice && !preferencesSetOnLine {
          prefs := devicePreferences;
          ReducedLists(Listed(prefs[..]), Listed(deviceCapabilities[..]));
          ReduceSet(prefs, deviceCapabilities);
        }
        ReducedLists(Listed(prefs[..]), Listed(capabilities[..]));
        ReduceSet(prefs, capabilities);
        joint := FindBestJoint(prefs, remoteCapabilities, true);
        if joint == NONE {
          var first := prefs[0];
          joint := if first != NONE then first else WIDEBAND_256K;
        }
      }
      if joint != NONE && !receiving {
        receptionFormat := joint;
        transmissionFormat := joint;
      }
    }
  }

  /** What the choice is worth: a codec that both sides can do, no preferred one before it being so, if
      there is any; without one the most preferred; and one of the preferred codecs at all events. */
  lemma ChoiceMeans(j: Codec, p: seq<Codec>, remote: seq<Codec>, k: nat)
    requires IsChoice(j, p, remote) && k < |p|
    ensures p[k] in remote ==> j in remote && exists i :: 0 <= i <= k && p[i] == j
    ensures j !in remote ==> j == p[0] && p[k] !in remote
    ensures j in p
  {
  }

  lemma ChoiceIsUnique(j: Codec, k: Codec, p: seq<Codec>, remote: seq<Codec>)
    requires IsChoice(j, p, remote) && IsChoice(k, p, remote)
    ensures j == k
  {
  }

  lemma ReducedAlready(p: seq<Codec>, keep: seq<Codec>)
    requires NoDuplicates(keep) && |p| <= MAX_CAPABILITIES - 1 && forall c :: c in p ==> c in keep
    ensures Cut(Collected(p, keep), MAX_CAPABILITIES - 1) == p
  {
    CollectedIsFilter(p, keep, |p|);
    SelectAll(p, keep, true, |p|);
  }

  lemma PreferredMembers(prefs: seq<Codec>, deviceCaps: seq<Codec>, caps: seq<Codec>, ofDevice: bool, c: Codec)
    requires c in Preferred(prefs, deviceCaps, caps, ofDevice)
    ensures c in caps && (ofDevice ==> c in deviceCaps)
  {
    var first := if ofDevice then Cut(Collected(prefs, deviceCaps), MAX_CAPABILITIES - 1) else prefs;
    CollectedMembers(first, caps, |first|);
    if ofDevice {
      CollectedMembers(prefs, deviceCaps, |prefs|);
    }
  }

  /** With capability lists free of duplicates, the list left behind by one choice is not
      reduced any further, so a second choice gives the same codec. */
  lemma RechoosingIsStable(prefs: seq<Codec>, deviceCaps: seq<Codec>, caps: seq<Codec>, ofDevice: bool,
                           remote: seq<Codec>, j: Codec, k: Codec)
    requires NoDuplicates(deviceCaps) && NoDuplicates(caps)
    requires var p := Preferred(prefs, deviceCaps, caps, ofDevice);
             IsChoice(j, p, remote) && IsChoice(k, Preferred(p, deviceCaps, caps, ofDevice), remote)
    ensures var p := Preferred(prefs, deviceCaps, caps, ofDevice);
            Preferred(p, deviceCaps, caps, ofDevice) == p && k == j
  {
    var p := Preferred(prefs, deviceCaps, caps, ofDevice);
    forall c | c in p
      ensures c in caps && (ofDevice ==> c in deviceCaps)
    {
      PreferredMembers(prefs, deviceCaps, caps, ofDevice, c);
    }
    ReducedAlready(p, caps);
    if ofDevice {
      ReducedAlready(p, deviceCaps);
    }
    ChoiceIsUnique(j, k, p, remote);
  }

  /** With capability lists free of duplicates the list is the order-keeping filter by the device's
      capabilities, if they count, and by the call's, each cut to 17 entries. */
  lemma PreferredIsReduced(prefs: seq<Codec>, deviceCaps: seq<Codec>, caps: seq<Codec>, ofDevice: bool)
    requires NoDuplicates(deviceCaps) && NoDuplicates(caps)
    ensures Preferred(prefs, deviceCaps, caps, ofDevice)
      == Reduce(if ofDevice then Reduce(prefs, deviceCaps) else prefs, caps)
  {
    CollectedIsFilter(prefs, deviceCaps, |prefs|);
    var first := if ofDevice then Reduce(prefs, deviceCaps) else prefs;
    CollectedIsFilter(first, caps, |first|);
  }

  /** The list of a device after the choices of calls with these capabilities. */
  function AfterChoices(prefs: seq<Codec>, deviceCaps: seq<Codec>, calls: seq<seq<Codec>>): seq<Codec>
    decreases |calls|
  {
    if calls == [] then prefs
    else Preferred(AfterChoices(prefs, deviceCaps, calls[..|calls| - 1]), deviceCaps, calls[|calls| - 1], true)
  }

  lemma ReduceHas(base: seq<Codec>, keep: seq<Codec>, c: Codec)
    requires |base| <= MAX_CAPABILITIES - 1
    ensures c in Reduce(base, keep) <==> c in base && c in keep
  {
    Members(base, keep, true, |base|, c);
    assert base[..|base|] == base;
  }

  lemma PreferredHas(prefs: seq<Codec>, deviceCaps: seq<Codec>, caps: seq<Codec>, c: Codec)
    requires NoDuplicates(deviceCaps) && NoDuplicates(caps)
    ensures |Preferred(prefs, deviceCaps, caps, true)| <= MAX_CAPABILITIES - 1
    ensures c in Preferred(prefs, deviceCaps, caps, true) <==> c in Reduce(prefs, deviceCaps) && c in caps
    ensures c in Reduce(prefs, deviceCaps) ==> c in prefs && c in deviceCaps
  {
    hide NoDuplicates;
    PreferredIsReduced(prefs, deviceCaps, caps, true);
    ReduceHas(Reduce(prefs, deviceCaps), caps, c);
    Members(prefs, deviceCaps, true, |prefs|, c);
  }

  /** The list is the device's own: after any number of calls it holds exactly those of its first 17
      codecs that the device can do which every one of the calls could do. */
  lemma {:induction false} ReductionSticks(prefs: seq<Codec>, deviceCaps: seq<Codec>, calls: seq<seq<Codec>>, c: Codec)
    requires NoDuplicates(deviceCaps) && (forall i :: 0 <= i < |calls| ==> NoDuplicates(calls[i])) && calls != []
    ensures c in AfterChoices(prefs, deviceCaps, calls) <==>
      c in Reduce(prefs, deviceCaps) && forall i :: 0 <= i < |calls| ==> c in calls[i]
    ensures |prefs| <= MAX_CAPABILITIES - 1 ==> (c in Reduce(prefs, deviceCaps) <==> c in prefs && c in deviceCaps)
    ensures |AfterChoices(prefs, deviceCaps, calls)| <= MAX_CAPABILITIES - 1
    decreases |calls|
  {
    hide NoDuplicates, Preferred, Reduce;
    var n := |calls| - 1;
    var before := AfterChoices(prefs, deviceCaps, calls[..n]);
    PreferredHas(before, deviceCaps, calls[n], c);
    if |prefs| <= MAX_CAPABILITIES - 1 {
      ReduceHas(prefs, deviceCaps, c);
    }
    if n > 0 {
      ReductionSticks(prefs, deviceCaps, calls[..n], c);
      ReduceHas(before, deviceCaps, c);
      PreferredHas(prefs, deviceCaps, calls[n], c);
      assert forall i :: 0 <= i < n ==> calls[..n][i] == calls[i];
    }
  }

  /** A choice leaves the device's list as it is exactly if both sides can do all of its codecs and
      there are at most 17. */
  lemma UnchangedIff(prefs: seq<Codec>, deviceCaps: seq<Codec>, caps: seq<Codec>)
    requires NoDuplicates(deviceCaps) && NoDuplicates(caps)
    ensures Preferred(prefs, deviceCaps, caps, true) == prefs <==>
      |prefs| <= MAX_CAPABILITIES - 1 && forall c :: c in prefs ==> c in deviceCaps && c in caps
  {
    hide NoDuplicates;
    if |prefs| <= MAX_CAPABILITIES - 1 && forall c :: c in prefs ==> c in deviceCaps && c in caps {
      ReducedAlready(prefs, deviceCaps);
      ReducedAlready(prefs, caps);
    }
    if Preferred(prefs, deviceCaps, caps, true) == prefs {
      forall c | c in prefs ensures c in deviceCaps && c in caps {
        PreferredMembers(prefs, deviceCaps, caps, true, c);
      }
    }
  }
}
