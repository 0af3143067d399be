/** The call information of a channel: typed setters, getters, copies and the send that is skipped
    when nothing changed (sccp_callinfo.c). */
module CallInfo {

  const NAME_SIZE: nat := 40
  const DIRNUM_SIZE: nat := 24
  const PRESENTATION_FORBIDDEN: nat := 0
  const PRESENTATION_ALLOWED: nat := 1

  /** The string keys of sccp_callinfo_key_t. */
  datatype Key =
    | CalledName | CalledNumber | CalledVoicemail
    | CallingName | CallingNumber | CallingVoicemail
    | OrigCalledName | OrigCalledNumber | OrigCalledVoicemail
    | OrigCallingName | OrigCallingNumber
    | LastRedirectingName | LastRedirectingNumber | LastRedirectingVoicemail
    | HuntPilotName | HuntPilotNumber

  const FIELDS: nat := 18

  /** callinfo_lookup: three fields, name, number and voicemail box, for each of six groups. */
  function Field(k: Key): (f: nat)
    ensures f < FIELDS
  {
    match k
    case CalledName => 0 case CalledNumber => 1 case CalledVoicemail => 2
    case CallingName => 3 case CallingNumber => 4 case CallingVoicemail => 5
    case OrigCalledName => 6 case OrigCalledNumber => 7 case OrigCalledVoicemail => 8
    case OrigCallingName => 9 case OrigCallingNumber => 10
    case LastRedirectingName => 12 case LastRedirectingNumber => 13 case LastRedirectingVoicemail => 14
    case HuntPilotName => 15 case HuntPilotNumber => 16
  }

  lemma FieldsDiffer(j: Key, k: Key)
    requires Field(j) == Field(k)
    ensures j == k
  {
    match j { case _ => }
  }

  predicate IsName(f: nat) {
    f % 3 == 0
  }

  function Size(f: nat): nat {
    if IsName(f) then NAME_SIZE else DIRNUM_SIZE
  }

  /** sccp_copy_string leaves room for the terminator. */
  function Cut(s: string, size: nat): (t: string)
    requires size > 0
    ensures |t| < size && (t == "" <==> s == "" || size == 1) && (|s| < size ==> t == s)
  {
    if |s| < size then s else s[..size - 1]
  }

  /** struct ci_content without the changed flag; names have no valid flag. */
  datatype Content = Content(texts: seq<string>, valid: seq<bool>, calledReason: nat, lastReason: nat,
    presentation: nat, callInstance: nat, designator: string)

  /** Every text fits its field. */
  predicate Shaped(c: Content) {
    |c.texts| == FIELDS && |c.valid| == FIELDS && forall f :: 0 <= f < FIELDS ==> |c.texts[f]| < Size(f)
  }

  /** What memset leaves. */
  function Zero(): (c: Content)
    ensures Shaped(c)
  {
    Content(seq(FIELDS, _ => ""), seq(FIELDS, _ => false), 0, 0, PRESENTATION_FORBIDDEN, 0, "")
  }

  function Constructed(callInstance: nat, designator: string): (c: Content)
    ensures Shaped(c)
  {
    Zero().(presentation := PRESENTATION_ALLOWED, callInstance := callInstance, designator := designator)
  }

  // ---------------------------------------------------------------- setting

  /** NULL leaves an entry unchanged. */
  datatype Value = Null | Text(s: string)

  datatype Setting = SetText(key: Key, value: Value) | SetCalledReason(n: nat) | SetLastReason(n: nat)
    | SetPresentation(n: nat)

  function Stored(c: Content, f: nat, s: string): (r: Content)
    requires Shaped(c) && f < FIELDS
    ensures Shaped(r)
  {
    if c.texts[f] == s then c
    else c.(texts := c.texts[f := Cut(s, Size(f))], valid := if IsName(f) then c.valid else c.valid[f := s != ""])
  }

  function After(c: Content, x: Setting): (r: Content)
    requires Shaped(c)
    ensures Shaped(r)
  {
    match x
    case SetText(k, Null) => c
    case SetText(k, Text(s)) => Stored(c, Field(k), s)
    case SetCalledReason(n) => c.(calledReason := n)
    case SetLastReason(n) => c.(lastReason := n)
    case SetPresentation(n) => c.(presentation := n)
  }

  function AfterAll(c: Content, xs: seq<Setting>): (r: Content)
    requires Shaped(c)
    ensures Shaped(r)
    decreases |xs|
  {
    if xs == [] then c else After(AfterAll(c, xs[..|xs| - 1]), xs[|xs| - 1])
  }

  /** The setting differs from what is there; compared in full, before it is cut. */
  predicate Differs(c: Content, x: Setting)
    requires Shaped(c)
  {
    match x
    case SetText(_, Null) => false
    case SetText(k, Text(s)) => c.texts[Field(k)] != s
    case SetCalledReason(n) => c.calledReason != n
    case SetLastReason(n) => c.lastReason != n
    case SetPresentation(n) => c.presentation != n
  }

  function Bit(b: bool): nat {
    if b then 1 else 0
  }

  /** How many settings differ from what they find. */
  function Changes(c: Content, xs: seq<Setting>): (n: nat)
    requires Shaped(c)
    ensures n <= |xs|
    decreases |xs|
  {
    if xs == [] then 0
    else Changes(c, xs[..|xs| - 1]) + Bit(Differs(AfterAll(c, xs[..|xs| - 1]), xs[|xs| - 1]))
  }

  /** Settings that repeat what is there change nothing and count nothing. */
  lemma {:induction false} RepeatsCountNothing(c: Content, xs: seq<Setting>)
    requires Shaped(c)
    ensures (forall i :: 0 <= i < |xs| ==> !Differs(c, xs[i])) <==> Changes(c, xs) == 0
    ensures Changes(c, xs) == 0 ==> AfterAll(c, xs) == c
    decreases |xs|
  {
    hide Differs, After;
    if xs != [] {
      var before, x := xs[..|xs| - 1], xs[|xs| - 1];
      RepeatsCountNothing(c, before);
      assert xs == before + [x];
      SameAfter(c, x);
    }
  }

  lemma SameAfter(c: Content, x: Setting)
    requires Shaped(c)
    ensures !Differs(c, x) ==> After(c, x) == c
  {
  }

  // ---------------------------------------------------------------- getting

  /** What callinfo_Getter puts into the caller's buffer for a key: an invalid number reads empty. */
  function Read(c: Content, k: Key): string
    requires Shaped(c)
  {
    if !IsName(Field(k)) && !c.valid[Field(k)] then "" else Cut(c.texts[Field(k)], Size(Field(k)))
  }

  /** A key with the buffer it is read into; the reasons and the presentation are numbers. */
  datatype Query = GetText(key: Key, buffer: Value) | GetCalledReason(n: nat) | GetLastReason(n: nat)
    | GetPresentation(n: nat)

  function Answer(c: Content, q: Query): Query
    requires Shaped(c)
  {
    match q
    case GetText(k, Null) => q
    case GetText(k, Text(_)) => GetText(k, Text(Read(c, k)))
    case GetCalledReason(_) => GetCalledReason(c.calledReason)
    case GetLastReason(_) => GetLastReason(c.lastReason)
    case GetPresentation(_) => GetPresentation(c.presentation)
  }

  /** How many buffers a getter changes. */
  function Answers(c: Content, qs: seq<Query>): nat
    requires Shaped(c)
    decreases |qs|
  {
    if qs == [] then 0
    else Answers(c, qs[..|qs| - 1]) + Bit(Answer(c, qs[|qs| - 1]) != qs[|qs| - 1])
  }

  /** The keys of names, and only they, have the larger fields, of 39 characters; the others have 23. */
  lemma NamesAreLonger(k: Key)
    ensures IsName(Field(k)) <==>
      k in {CalledName, CallingName, OrigCalledName, OrigCallingName, LastRedirectingName, HuntPilotName}
    ensures forall s: string :: |Cut(s, Size(Field(k)))| <= if IsName(Field(k)) then 39 else 23
    ensures forall s: string :: Cut(s, Size(Field(k))) <= s
  {
    match k { case _ => }
  }

  /** A number or voicemail box is valid exactly when it is not empty. */
  predicate ValidIffPresent(c: Content) {
    Shaped(c) && forall f :: 0 <= f < FIELDS && !IsName(f) ==> (c.valid[f] <==> c.texts[f] != "")
  }

  lemma {:induction false} SettersKeepValid(c: Content, xs: seq<Setting>)
    requires ValidIffPresent(c)
    ensures ValidIffPresent(AfterAll(c, xs))
    decreases |xs|
  {
    if xs != [] {
      SettersKeepValid(c, xs[..|xs| - 1]);
      OneKeepsValid(AfterAll(c, xs[..|xs| - 1]), xs[|xs| - 1]);
    }
  }

  lemma OneKeepsValid(c: Content, x: Setting)
    requires ValidIffPresent(c)
    ensures ValidIffPresent(After(c, x))
  {
    hide Field;
  }

  /** The last value that was set for the key and was not NULL, cut to its field. */
  function LastSet(xs: seq<Setting>, k: Key): string
    decreases |xs|
  {
    if xs == [] then ""
    else match xs[|xs| - 1]
      case SetText(j, Text(s)) => if j == k then Cut(s, Size(Field(k))) else LastSet(xs[..|xs| - 1], k)
      case _ => LastSet(xs[..|xs| - 1], k)
  }

  /** From construction on, a getter returns for each key the last value set. */
  lemma {:induction false} GetsLastSet(callInstance: nat, designator: string, xs: seq<Setting>, k: Key)
    ensures Read(AfterAll(Constructed(callInstance, designator), xs), k) == LastSet(xs, k)
    decreases |xs|
  {
    hide After, Read, Field, Size, IsName, Shaped, ValidIffPresent, Stored, Constructed;
    var c := Constructed(callInstance, designator);
    if xs == [] {
      ConstructedReads(callInstance, designator, k);
    } else {
      var before, x := AfterAll(c, xs[..|xs| - 1]), xs[|xs| - 1];
      GetsLastSet(callInstance, designator, xs[..|xs| - 1], k);
      ConstructedValid(callInstance, designator);
      SettersKeepValid(c, xs[..|xs| - 1]);
      ValidIsShaped(before);
      ReadsAfter(before, x, k);
    }
  }

  /** The number that was set last, or what stands there from construction on. */
  function LastNumbers(xs: seq<Setting>): (nat, nat, nat)
    decreases |xs|
  {
    if xs == [] then (0, 0, PRESENTATION_ALLOWED)
    else
      var before := LastNumbers(xs[..|xs| - 1]);
      match xs[|xs| - 1]
      case SetText(_, _) => before
      case SetCalledReason(n) => (n, before.1, before.2)
      case SetLastReason(n) => (before.0, n, before.2)
      case SetPresentation(n) => (before.0, before.1, n)
  }

  lemma {:induction false} GetsLastNumbers(callInstance: nat, designator: string, xs: seq<Setting>)
    ensures var c := AfterAll(Constructed(callInstance, designator), xs);
      (c.calledReason, c.lastReason, c.presentation) == LastNumbers(xs)
    decreases |xs|
  {
    hide Field, Shaped;
    if xs != [] {
      GetsLastNumbers(callInstance, designator, xs[..|xs| - 1]);
    }
  }

  lemma ConstructedReads(callInstance: nat, designator: string, k: Key)
    ensures Read(Constructed(callInstance, designator), k) == ""
  {
  }

  lemma ReadsAfter(c: Content, x: Setting, k: Key)
    requires ValidIffPresent(c)
    ensures Read(After(c, x), k) ==
      if x.SetText? && x.value.Text? && x.key == k then Cut(x.value.s, Size(Field(k))) else Read(c, k)
  {
    hide Field, Stored, Cut;
    if x.SetText? && x.value.Text? {
      ReadsStored(c, x.key, k, x.value.s);
    }
  }

  lemma ConstructedValid(callInstance: nat, designator: string)
    ensures ValidIffPresent(Constructed(callInstance, designator))
  {
  }

  lemma ReadsStored(c: Content, j: Key, k: Key, s: string)
    requires ValidIffPresent(c)
    ensures Read(Stored(c, Field(j), s), k) == if j == k then Cut(s, Size(Field(k))) else Read(c, k)
  {
    hide Field;
    if j != k && Field(j) == Field(k) { FieldsDiffer(j, k); }
  }

  // ---------------------------------------------------------------- copying

  /** A pair of keys; a reason or the presentation can only be copied to itself. */
  datatype Copy = CopyText(src: Key, dst: Key) | CopyCalledReason | CopyLastReason | CopyPresentation | CopyMismatch

  function CopiedOne(tmp: Content, src: Content, p: Copy): (r: Content)
    requires Shaped(tmp) && Shaped(src)
    ensures Shaped(r)
  {
    match p
    case CopyText(s, d) =>
      if !IsName(Field(s)) && !src.valid[Field(s)] then tmp.(texts := tmp.texts[Field(d) := ""])
      else tmp.(texts := tmp.texts[Field(d) := Cut(src.texts[Field(s)], Size(Field(d)))],
                valid := if !IsName(Field(s)) && !IsName(Field(d)) then tmp.valid[Field(d) := true] else tmp.valid)
    case CopyCalledReason => tmp.(calledReason := src.calledReason)
    case CopyLastReason => tmp.(lastReason := src.lastReason)
    case CopyPresentation => tmp.(presentation := src.presentation)
    case CopyMismatch => tmp
  }

  /** The content that a copy leaves in its destination: it starts from nothing, so all that is not
      copied is gone, the call instance and the designator always. */
  function Copied(src: Content, ps: seq<Copy>): (r: Content)
    requires Shaped(src)
    ensures Shaped(r)
    decreases |ps|
  {
    if ps == [] then Zero() else CopiedOne(Copied(src, ps[..|ps| - 1]), src, ps[|ps| - 1])
  }

  /** A pair counts if it found something to copy. */
  predicate Counts(tmp: Content, src: Content, p: Copy)
    requires Shaped(src)
  {
    match p
    case CopyText(s, _) => IsName(Field(s)) || src.valid[Field(s)]
    case CopyCalledReason => tmp.calledReason != src.calledReason
    case CopyLastReason => tmp.lastReason != src.lastReason
    case CopyPresentation => tmp.presentation != src.presentation
    case CopyMismatch => false
  }

  function CopyChanges(src: Content, ps: seq<Copy>): (n: nat)
    requires Shaped(src)
    ensures n <= |ps|
    decreases |ps|
  {
    if ps == [] then 0
    else CopyChanges(src, ps[..|ps| - 1]) + Bit(Counts(Copied(src, ps[..|ps| - 1]), src, ps[|ps| - 1]))
  }

  predicate Targets(p: Copy, k: Key) {
    p.CopyText? && p.dst == k
  }

  /** Some pair with this destination had a valid number or voicemail box for its source. */
  ghost predicate Validated(src: Content, ps: seq<Copy>, k: Key)
    requires Shaped(src)
  {
    exists i :: 0 <= i < |ps| && Validates(src, ps[i], k)
  }

  predicate Validates(src: Content, p: Copy, k: Key)
    requires Shaped(src)
  {
    Targets(p, k) && !IsName(Field(p.src)) && src.valid[Field(p.src)] && !IsName(Field(k))
  }

  ghost predicate NoneFor(ps: seq<Copy>, k: Key) {
    forall i :: 0 <= i < |ps| ==> !Targets(ps[i], k)
  }

  ghost predicate LastFor(ps: seq<Copy>, i: int, k: Key) {
    0 <= i < |ps| && Targets(ps[i], k) && forall j :: i < j < |ps| ==> !Targets(ps[j], k)
  }

  /** The key reads, in the destination, what the source key of its last pair reads in the source; but a
      number reads empty unless one of its pairs copied a valid number: a name alone is there but not
      valid, and behind a valid number it does read. */
  lemma {:induction false} CopyReads(src: Content, ps: seq<Copy>, k: Key)
    requires ValidIffPresent(src)
    ensures forall i :: LastFor(ps, i, k) ==>
      Read(Copied(src, ps), k) ==
        if IsName(Field(k)) || Validated(src, ps, k) then Cut(Read(src, ps[i].src), Size(Field(k))) else ""
    ensures NoneFor(ps, k) ==> Read(Copied(src, ps), k) == ""
    ensures Copied(src, ps).valid[Field(k)] <==> Validated(src, ps, k)
    decreases |ps|
  {
    hide CopiedOne, Read, Field, Size, IsName, Shaped, ValidIffPresent, Validates, Targets, Validated, LastFor,
      NoneFor, Cut;
    ValidIsShaped(src);
    if ps == [] {
      ZeroReads(k);
      NothingCopied(src, k);
    } else {
      var n := |ps| - 1;
      CopyReads(src, ps[..n], k);
      ValidatedStep(src, ps, k);
      LastForStep(ps, k);
      if Targets(ps[n], k) {
        CopyOnto(Copied(src, ps[..n]), src, ps[n], k);
      } else {
        CopyElsewhere(Copied(src, ps[..n]), src, ps[n], k);
        NotValidates(src, ps[n], k);
        forall i | LastFor(ps, i, k)
          ensures 0 <= i < n && LastFor(ps[..n], i, k) && ps[..n][i] == ps[i]
        {
          LastForIn(ps[..n], i, k);
        }
      }
      NoneTargets(ps, k);
    }
  }

  lemma NothingCopied(src: Content, k: Key)
    requires Shaped(src)
    ensures !Validated(src, [], k) && forall i :: !LastFor([], i, k)
  {
  }

  lemma LastForIn(ps: seq<Copy>, i: int, k: Key)
    requires LastFor(ps, i, k)
    ensures 0 <= i < |ps| && Targets(ps[i], k)
  {
  }

  lemma NoneTargets(ps: seq<Copy>, k: Key)
    requires ps != []
    ensures NoneFor(ps, k) ==> NoneFor(ps[..|ps| - 1], k)
    ensures NoneFor(ps, k) ==> !Targets(ps[|ps| - 1], k)
  {
  }

  lemma ValidatedStep(src: Content, ps: seq<Copy>, k: Key)
    requires Shaped(src) && ps != []
    ensures Validated(src, ps, k) <==> Validated(src, ps[..|ps| - 1], k) || Validates(src, ps[|ps| - 1], k)
  {
    hide Validates;
    var before := ps[..|ps| - 1];
    assert forall i :: 0 <= i < |before| ==> before[i] == ps[i];
    if Validated(src, before, k) {
      var i :| 0 <= i < |before| && Validates(src, before[i], k);
      assert Validates(src, ps[i], k);
    }
  }

  lemma LastForStep(ps: seq<Copy>, k: Key)
    requires ps != []
    ensures var n := |ps| - 1;
      forall i :: LastFor(ps, i, k) <==> if Targets(ps[n], k) then i == n else LastFor(ps[..n], i, k)
  {
    hide Targets;
  }

  lemma NotValidates(src: Content, p: Copy, k: Key)
    requires Shaped(src) && !Targets(p, k)
    ensures !Validates(src, p, k)
  {
  }

  lemma ZeroReads(k: Key)
    ensures Read(Zero(), k) == "" && !Zero().valid[Field(k)]
  {
  }

  lemma ValidIsShaped(c: Content)
    requires ValidIffPresent(c)
    ensures Shaped(c)
  {
  }

  lemma CopyOnto(tmp: Content, src: Content, p: Copy, k: Key)
    requires Shaped(tmp) && ValidIffPresent(src) && Targets(p, k)
    ensures var r := CopiedOne(tmp, src, p);
      && (r.valid[Field(k)] <==> tmp.valid[Field(k)] || Validates(src, p, k))
      && Read(r, k) == if IsName(Field(k)) || r.valid[Field(k)] then Cut(Read(src, p.src), Size(Field(k))) else ""
  {
    hide Field;
  }

  lemma CopyElsewhere(tmp: Content, src: Content, p: Copy, k: Key)
    requires Shaped(tmp) && Shaped(src) && !Targets(p, k)
    ensures Read(CopiedOne(tmp, src, p), k) == Read(tmp, k)
      && CopiedOne(tmp, src, p).valid[Field(k)] == tmp.valid[Field(k)]
  {
    hide Field;
    if p.CopyText? && Field(p.dst) == Field(k) { FieldsDiffer(p.dst, k); }
  }

  /** A copy forgets the call instance and the designator, and everything else but its pairs. */
  lemma {:induction false} CopyForgets(src: Content, ps: seq<Copy>)
    requires Shaped(src)
    ensures Copied(src, ps).callInstance == 0 && Copied(src, ps).designator == ""
    ensures CopyPresentation !in ps ==> Copied(src, ps).presentation == PRESENTATION_FORBIDDEN
    ensures CopyPresentation in ps ==> Copied(src, ps).presentation == src.presentation
    decreases |ps|
  {
    hide CopiedOne, Shaped;
    if ps != [] {
      var before, p := ps[..|ps| - 1], ps[|ps| - 1];
      CopyForgets(src, before);
      assert ps == before + [p];
      OneForgets(Copied(src, before), src, p);
    }
  }

  lemma OneForgets(tmp: Content, src: Content, p: Copy)
    requires Shaped(tmp) && Shaped(src)
    ensures var r := CopiedOne(tmp, src, p);
      && r.callInstance == tmp.callInstance && r.designator == tmp.designator
      && r.presentation == if p == CopyPresentation then src.presentation else tmp.presentation
  {
    hide Field;
  }

  // ---------------------------------------------------------------- the object

  datatype Sent = Nothing | Sent(content: Content)

  class Info {
    var content: Content
    var changed: bool
    /** What the device was last told. */
    ghost var lastSent: Sent

    /** Unless the content is marked as changed, the device was told exactly it. */
    ghost predicate InSync()
      reads this
    {
      Shaped(content) && (!changed ==> lastSent == Sent(content))
    }

    /** callinfo_Constructor. */
    constructor (callInstance: nat, designator: string)
      ensures content == Constructed(callInstance, designator) && changed && lastSent == Nothing && InSync()
    {
      content, changed, lastSent := Constructed(callInstance, designator), true, Nothing;
    }

    /** callinfo_Setter. */
    method Setter(xs: seq<Setting>) returns (changes: nat)
      requires InSync()
      modifies this`content, this`changed
      ensures InSync() && content == AfterAll(old(content), xs)
      ensures changes == Changes(old(content), xs)
      ensures changes == 0 ==> content == old(content)
      ensures changed == (old(changed) || changes > 0)
    {
      hide Shaped, Stored;
      changes := 0;
      for i := 0 to |xs|
        invariant content == AfterAll(old(content), xs[..i]) && Shaped(content)
        invariant (changes == 0 ==> content == old(content)) && changed == old(changed)
        invariant changes == Changes(old(content), xs[..i])
      {
        assert xs[..i + 1][..i] == xs[..i];
        match xs[i] {
          case SetCalledReason(n) =>
            if n != content.calledReason {
              content := content.(calledReason := n);
              changes := changes + 1;
            }
          case SetLastReason(n) =>
            if n != content.lastReason {
              content := content.(lastReason := n);
              changes := changes + 1;
            }
          case SetPresentation(n) =>
            if n != content.presentation {
              content := content.(presentation := n);
              changes := changes + 1;
            }
          case SetText(k, value) =>
            if value.Text? {
              var stored := SetField(Field(k), value.s);
              if stored { changes := changes + 1; }
            }
        }
      }
      assert xs[..|xs|] == xs;
      if changes > 0 {
        changed := true;
      }
    }

    /** One string of the setter. */
    method SetField(f: nat, s: string) returns (stored: bool)
      requires Shaped(content) && f < FIELDS
      modifies this`content
      ensures Shaped(content) && content == Stored(old(content), f, s)
      ensures stored == (old(content).texts[f] != s)
      ensures !stored ==> content == old(content)
    {
      stored := false;
      if content.texts[f] != s {
        content := content.(texts := content.texts[f := Cut(s, Size(f))]);
        stored := true;
        if !IsName(f) {
          content := content.(valid := content.valid[f := s != ""]);
        }
      }
    }

    /** callinfo_CopyByKey. */
    method CopyByKey(src: Info, ps: seq<Copy>) returns (changes: nat)
      requires Shaped(src.content)
      modifies this`content, this`changed
      ensures content == Copied(old(src.content), ps) && changed && InSync()
      ensures changes == CopyChanges(old(src.content), ps)
    {
      var tmp := Zero();
      changes := 0;
      for i := 0 to |ps|
        invariant content == old(content) && src.content == old(src.content)
        invariant Shaped(tmp) && tmp == Copied(src.content, ps[..i]) && changes == CopyChanges(src.content, ps[..i])
      {
        assert ps[..i + 1][..i] == ps[..i];
        match ps[i] {
          case CopyCalledReason =>
            if tmp.calledReason != src.content.calledReason {
              tmp := tmp.(calledReason := src.content.calledReason);
              changes := changes + 1;
            }
          case CopyLastReason =>
            if tmp.lastReason != src.content.lastReason {
              tmp := tmp.(lastReason := src.content.lastReason);
              changes := changes + 1;
            }
          case CopyPresentation =>
            if tmp.presentation != src.content.presentation {
              tmp := tmp.(presentation := src.content.presentation);
              changes := changes + 1;
            }
          case CopyText(s, d) =>
            var copied: bool;
            tmp, copied := CopyField(tmp, src.content, Field(s), Field(d));
            assert tmp == Copied(src.content, ps[..i + 1]);
            if copied { changes := changes + 1; }
          case CopyMismatch =>
        }
      }
      assert ps[..|ps|] == ps;
      content := tmp;
      changed := true;
    }

    /** One pair of string keys of the copy. */
    static method CopyField(tmp: Content, src: Content, s: nat, d: nat) returns (r: Content, copied: bool)
      requires Shaped(tmp) && Shaped(src) && s < FIELDS && d < FIELDS
      ensures Shaped(r) && copied == (IsName(s) || src.valid[s])
      ensures forall j, k :: Field(j) == s && Field(k) == d ==> r == CopiedOne(tmp, src, CopyText(j, k))
    {
      r, copied := tmp, false;
      if !IsName(s) {
        if src.valid[s] {
          r := r.(texts := r.texts[d := Cut(src.texts[s], Size(d))]);
          if !IsName(d) {
            r := r.(valid := r.valid[d := true]);
          }
          copied := true;
        } else {
          r := r.(texts := r.texts[d := ""]);
        }
      } else {
        r := r.(texts := r.texts[d := Cut(src.texts[s], Size(d))]);
        copied := true;
      }
    }

    /** callinfo_Getter: the buffers of the caller, afterwards; NULL buffers are skipped. */
    method Getter(qs: seq<Query>) returns (filled: seq<Query>, entries: nat)
      requires Shaped(content)
      ensures |filled| == |qs|
      ensures forall i :: 0 <= i < |qs| ==> filled[i] == Answer(content, qs[i])
      ensures entries == Answers(content, qs)
      ensures entries == 0 <==> filled == qs
    {
      hide Field, Size;
      filled, entries := [], 0;
      for i := 0 to |qs|
        invariant |filled| == i
        invariant forall j :: 0 <= j < i ==> filled[j] == Answer(content, qs[j])
        invariant entries == Answers(content, qs[..i])
        invariant entries == 0 <==> filled == qs[..i]
      {
        assert qs[..i + 1][..i] == qs[..i];
        var q := qs[i];
        match q {
          case GetCalledReason(n) =>
            if n != content.calledReason {
              q := GetCalledReason(content.calledReason);
              entries := entries + 1;
            }
          case GetLastReason(n) =>
            if n != content.lastReason {
              q := GetLastReason(content.lastReason);
              entries := entries + 1;
            }
          case GetPresentation(n) =>
            if n != content.presentation {
              q := GetPresentation(content.presentation);
              entries := entries + 1;
            }
          case GetText(k, Null) =>
          case GetText(k, Text(s)) =>
            var text := GetField(Field(k), s);
            if text != s {
              q := GetText(k, Text(text));
              entries := entries + 1;
            }
        }
        filled := filled + [q];
      }
      assert qs[..|qs|] == qs;
    }

    /** One string of the getter. */
    method GetField(f: nat, s: string) returns (text: string)
      requires Shaped(content) && f < FIELDS
      ensures forall k :: Field(k) == f ==> text == Read(content, k)
    {
      text := s;
      if !IsName(f) && !content.valid[f] {
        if s != "" {
          text := "";
        }
      } else if s != content.texts[f] {
        text := Cut(content.texts[f], Size(f));
      }
    }

    /** callinfo_Send: an unchanged content is not sent again unless that is forced. */
    method Send(hasDevice: bool, force: bool) returns (sent: bool)
      requires InSync()
      modifies this`changed, this`lastSent
      ensures InSync()
      ensures sent == (hasDevice && (old(changed) || force))
      ensures sent ==> lastSent == Sent(content) && !changed
      ensures !sent ==> lastSent == old(lastSent) && changed == old(changed)
      ensures hasDevice ==> lastSent == Sent(content)
    {
      sent := false;
      if changed || force {
        if hasDevice {
          lastSent := Sent(content);
          changed := false;
          sent := true;
        }
      }
    }
  }

  datatype Operation = Set(settings: seq<Setting>) | CopyFrom(pairs: seq<Copy>) | SendTo(hasDevice: bool, force: bool)

  /** Over any run of setters, copies from another store and sends, a store that is not marked as
      changed is exactly what the device was told last. */
  method Run(info: Info, other: Info, operations: seq<Operation>)
    requires info.InSync() && other.InSync()
    modifies info
    ensures info.InSync() && other.InSync()
  {
    for i := 0 to |operations|
      invariant info.InSync() && other.InSync()
    {
      match operations[i] {
        case Set(xs) => var _ := info.Setter(xs);
        case CopyFrom(ps) => var _ := info.CopyByKey(other, ps);
        case SendTo(hasDevice, force) => var _ := info.Send(hasDevice, force);
      }
    }
  }
}
