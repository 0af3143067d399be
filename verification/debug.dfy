/** The debug category mask: its printer and its command line parser (sccp_debug.c). */
module Debug {
  import opened Text

  const CATEGORIES: nat := 32
  const ALL: bv32 := 0xffff_ffff
  /** The bits that rows 2 to 31 of the table name. */
  const KNOWN: bv32 := 0x3fff_ffff

  /** sccp_debug_categories: the key of row i. */
  function Key(i: nat): string
    requires i < CATEGORIES
  {
    match i
    case 0 => "all" case 1 => "none" case 2 => "core" case 3 => "hint"
    case 4 => "rtp" case 5 => "device" case 6 => "line" case 7 => "action"
    case 8 => "channel" case 9 => "config" case 10 => "feature" case 11 => "feature_button"
    case 12 => "softkey" case 13 => "indicate" case 14 => "pbx" case 15 => "socket"
    case 16 => "mwi" case 17 => "event" case 18 => "conference" case 19 => "buttontemplate"
    case 20 => "speeddial" case 21 => "codec" case 22 => "realtime" case 23 => "callinfo"
    case 24 => "refcount" case 25 => "message" case 26 => "parkinglot" case 27 => "webservice"
    case 28 => "threadpool" case 29 => "newcode" case 30 => "filelinefunc" case _ => "high"
  }

  /** ... and its category: everything, nothing, and then one bit each. */
  function Mask(i: nat): bv32
    requires i < CATEGORIES
  {
    if i == 0 then ALL else if i == 1 then 0 else 1 << (i - 2)
  }

  // ---------------------------------------------------------------- the parser

  predicate IsDelimiter(c: char) {
    c == ' ' || c == ',' || c == '\t'
  }

  function TokenLength(s: string): (n: nat)
    ensures n <= |s|
  {
    if s == "" || IsDelimiter(s[0]) then 0 else 1 + TokenLength(s[1..])
  }

  /** The tokens that strtok_r finds. */
  function Tokens(s: string): seq<string>
    decreases |s|
  {
    if s == "" then []
    else if IsDelimiter(s[0]) then Tokens(s[1..])
    else [s[..TokenLength(s)]] + Tokens(s[TokenLength(s)..])
  }

  /** What row i does to the mask when the token names it. */
  function BitApplied(v: bv32, m: bv32, subtract: bool): bv32 {
    if subtract then (if v & m == m then v - m else v)
    else (if v & m != m then v + m else v)
  }

  /** One token against rows i and up. */
  function RowsApplied(v: bv32, token: string, subtract: bool, i: nat): bv32
    requires i <= CATEGORIES
    decreases CATEGORIES - i, v
  {
    if i == CATEGORIES then v
    else RowsApplied(if SameIgnoringCase(token, Key(i)) then BitApplied(v, Mask(i), subtract) else v,
                     token, subtract, i + 1)
  }

  function TokensApplied(v: bv32, tokens: seq<string>, subtract: bool): bv32
    decreases tokens
  {
    if tokens == [] then v else TokensApplied(RowsApplied(v, tokens[0], subtract, 0), tokens[1..], subtract)
  }

  predicate Stops(arg: string) {
    SameIgnoringCase(arg, "none") || SameIgnoringCase(arg, "off")
  }

  function ArgsApplied(v: bv32, args: seq<string>, subtract: bool): bv32
    decreases args
  {
    if args == [] then v
    else if Stops(args[0]) then 0
    else if SameIgnoringCase(args[0], "no") then ArgsApplied(v, args[1..], true)
    else if SameIgnoringCase(args[0], "all") then ArgsApplied(if subtract then 0 else ALL, args[1..], subtract)
    else ArgsApplied(TokensApplied(v, Tokens(args[0]), subtract), args[1..], subtract)
  }

  datatype Number = NotANumber | Number(value: int)

  function Digits(s: string, sofar: int): int {
    if s != "" && '0' <= s[0] <= '9' then Digits(s[1..], 10 * sofar + (s[0] - '0') as int) else sofar
  }

  /** sscanf with %d: blanks, a sign, digits. */
  function Scanned(s: string): Number {
    if s == "" then NotANumber
    else if s[0] == ' ' || '\t' <= s[0] <= '\r' then Scanned(s[1..])
    else
      var signed := s[0] == '-' || s[0] == '+';
      var digits := if signed then s[1..] else s;
      if digits == "" || !('0' <= digits[0] <= '9') then NotANumber
      else Number(if s[0] == '-' then -Digits(digits, 0) else Digits(digits, 0))
  }

  function Parsed(args: seq<string>, v: bv32): bv32
    requires args != []
  {
    match Scanned(args[0])
    case Number(n) => (n % 0x1_0000_0000) as bv32
    case NotANumber => ArgsApplied(v, args, false)
  }

  /** sccp_parse_debugline. */
  method ParseDebugLine(arguments: seq<string>, startat: nat, argc: nat, value: bv32) returns (v: bv32)
    requires startat < argc <= |arguments|
    ensures v == Parsed(arguments[startat..argc], value)
  {
    v := value;
    var subtract := false;
    ghost var args := arguments[startat..argc];
    match Scanned(arguments[startat]) {
      case Number(n) =>
        v := (n % 0x1_0000_0000) as bv32;
      case NotANumber =>
        for argi := startat to argc
          invariant ArgsApplied(value, args, false) == ArgsApplied(v, args[argi - startat..], subtract)
        {
          var argument := arguments[argi];
          if SameIgnoringCase(argument, "none") || SameIgnoringCase(argument, "off") {
            v := 0;
            return;
          } else if SameIgnoringCase(argument, "no") {
            subtract := true;
          } else if SameIgnoringCase(argument, "all") {
            v := if subtract then 0 else ALL;
          } else {
            v := ApplyTokens(v, argument, subtract);
          }
        }
    }
  }

  /** The change of one category, row by row. */
  method ApplyBit(value: bv32, m: bv32, subtract: bool) returns (v: bv32)
    ensures v == BitApplied(value, m, subtract)
  {
    v := value;
    if subtract {
      if v & m == m { v := v - m; }
    } else {
      if v & m != m { v := v + m; }
    }
  }

  /** The token loop of the parser. */
  method ApplyTokens(value: bv32, argument: string, subtract: bool) returns (v: bv32)
    ensures v == TokensApplied(value, Tokens(argument), subtract)
  {
    v := value;
    var rest := argument;
    while rest != ""
      invariant TokensApplied(value, Tokens(argument), subtract) == TokensApplied(v, Tokens(rest), subtract)
      decreases |rest|
    {
      if IsDelimiter(rest[0]) {
        rest := rest[1..];
      } else {
        var n := TokenLength(rest);
        v := ApplyToken(v, rest[..n], subtract);
        rest := rest[n..];
      }
    }
  }

  /** The loop over the table inside it. */
  method ApplyToken(value: bv32, token: string, subtract: bool) returns (v: bv32)
    ensures v == RowsApplied(value, token, subtract, 0)
  {
    v := value;
    for i := 0 to CATEGORIES
      invariant RowsApplied(value, token, subtract, 0) == RowsApplied(v, token, subtract, i)
    {
      if SameIgnoringCase(token, Key(i)) {
        v := ApplyBit(v, Mask(i), subtract);
      }
    }
  }

  // ---------------------------------------------------------------- the printer

  predicate Has(v: bv32, m: bv32) {
    v & m == m
  }

  /** The keys of the rows from i on whose bits are all set in v. */
  function Names(v: bv32, i: nat): seq<string>
    requires i <= CATEGORIES
    decreases CATEGORIES - i, v
  {
    if i == CATEGORIES then []
    else (if Has(v, Mask(i)) then [Key(i)] else []) + Names(v, i + 1)
  }

  /** The printer starts behind "all" and "none". */
  function CategoryNames(v: bv32): seq<string> {
    Names(v, 2)
  }

  /** The text sccp_get_debugcategories builds. */
  function Printed(v: bv32): string
    requires CategoryNames(v) != []
  {
    Join(CategoryNames(v), ',')
  }

  // ---------------------------------------------------------------- they undo each other

  /** A printable, nonempty word that no delimiter can cut. */
  ghost predicate Plain(s: string) {
    s != "" && forall k :: 0 <= k < |s| ==> s[k] > ','
  }

  /** A number that tells the keys of the table, and "no" and "off", apart. */
  function Code(s: string): nat {
    if s == "" then 0 else |s| * 0x1_0000 + (s[0] as nat) * 0x100 + s[|s| - 1] as nat
  }

  function KeyCode(i: nat): nat
    requires i < CATEGORIES
  {
    match i
    case 0 => 0x3_616C case 1 => 0x4_6E65 case 2 => 0x4_6365 case 3 => 0x4_6874
    case 4 => 0x3_7270 case 5 => 0x6_6465 case 6 => 0x4_6C65 case 7 => 0x6_616E
    case 8 => 0x7_636C case 9 => 0x6_6367 case 10 => 0x7_6665 case 11 => 0xE_666E
    case 12 => 0x7_7379 case 13 => 0x8_6965 case 14 => 0x3_7078 case 15 => 0x6_7374
    case 16 => 0x3_6D69 case 17 => 0x5_6574 case 18 => 0xA_6365 case 19 => 0xE_6265
    case 20 => 0x9_736C case 21 => 0x5_6363 case 22 => 0x8_7265 case 23 => 0x8_636F
    case 24 => 0x8_7274 case 25 => 0x7_6D65 case 26 => 0xA_7074 case 27 => 0xA_7765
    case 28 => 0xA_746C case 29 => 0x7_6E65 case 30 => 0xC_6663 case _ => 0x4_6868
  }

  function RowOf(code: nat): nat {
    match code
    case 0x3_616C => 0 case 0x4_6E65 => 1 case 0x4_6365 => 2 case 0x4_6874 => 3
    case 0x3_7270 => 4 case 0x6_6465 => 5 case 0x4_6C65 => 6 case 0x6_616E => 7
    case 0x7_636C => 8 case 0x6_6367 => 9 case 0x7_6665 => 10 case 0xE_666E => 11
    case 0x7_7379 => 12 case 0x8_6965 => 13 case 0x3_7078 => 14 case 0x6_7374 => 15
    case 0x3_6D69 => 16 case 0x5_6574 => 17 case 0xA_6365 => 18 case 0xE_6265 => 19
    case 0x9_736C => 20 case 0x5_6363 => 21 case 0x8_7265 => 22 case 0x8_636F => 23
    case 0x8_7274 => 24 case 0x7_6D65 => 25 case 0xA_7074 => 26 case 0xA_7765 => 27
    case 0xA_746C => 28 case 0x7_6E65 => 29 case 0xC_6663 => 30 case 0x4_6868 => 31
    case _ => CATEGORIES
  }

  lemma CodeTellsRow(i: nat)
    requires i < CATEGORIES
    ensures RowOf(KeyCode(i)) == i
  {
  }

  lemma KeysFrom0(i: nat)
    requires 0 <= i < 6
    ensures Plain(Key(i)) && Code(Lower(Key(i))) == KeyCode(i) && 'a' <= Key(i)[0] <= 'z'
  {
  }

  lemma KeysFrom6(i: nat)
    requires 6 <= i < 9
    ensures Plain(Key(i)) && Code(Lower(Key(i))) == KeyCode(i) && 'a' <= Key(i)[0] <= 'z'
  {
  }

  lemma KeysFrom9(i: nat)
    requires 9 <= i < 12
    ensures Plain(Key(i)) && Code(Lower(Key(i))) == KeyCode(i) && 'a' <= Key(i)[0] <= 'z'
  {
  }

  lemma KeysFrom12(i: nat)
    requires 12 <= i < 17
    ensures Plain(Key(i)) && Code(Lower(Key(i))) == KeyCode(i) && 'a' <= Key(i)[0] <= 'z'
  {
  }

  lemma KeysFrom17(i: nat)
    requires 17 <= i < 20
    ensures Plain(Key(i)) && Code(Lower(Key(i))) == KeyCode(i) && 'a' <= Key(i)[0] <= 'z'
  {
  }

  lemma KeysFrom20(i: nat)
    requires 20 <= i < 22
    ensures Plain(Key(i)) && Code(Lower(Key(i))) == KeyCode(i) && 'a' <= Key(i)[0] <= 'z'
  {
  }

  lemma KeysFrom22(i: nat)
    requires 22 <= i < 25
    ensures Plain(Key(i)) && Code(Lower(Key(i))) == KeyCode(i) && 'a' <= Key(i)[0] <= 'z'
  {
  }

  lemma KeysFrom25(i: nat)
    requires 25 <= i < 27
    ensures Plain(Key(i)) && Code(Lower(Key(i))) == KeyCode(i) && 'a' <= Key(i)[0] <= 'z'
  {
  }

  lemma KeysFrom27(i: nat)
    requires 27 <= i < 30
    ensures Plain(Key(i)) && Code(Lower(Key(i))) == KeyCode(i) && 'a' <= Key(i)[0] <= 'z'
  {
  }

  lemma KeysFrom30(i: nat)
    requires 30 <= i < 32
    ensures Plain(Key(i)) && Code(Lower(Key(i))) == KeyCode(i) && 'a' <= Key(i)[0] <= 'z'
  {
  }

  lemma KeyFacts(i: nat)
    requires i < CATEGORIES
    ensures Plain(Key(i)) && RowOf(Code(Lower(Key(i)))) == i && 'a' <= Key(i)[0] <= 'z'
  {
    CodeTellsRow(i);
    if i < 6 { KeysFrom0(i); } else if i < 9 { KeysFrom6(i); } else if i < 12 { KeysFrom9(i); }
    else if i < 17 { KeysFrom12(i); }
    else if i < 20 { KeysFrom17(i); } else if i < 22 { KeysFrom20(i); } else if i < 25 { KeysFrom22(i); }
    else if i < 27 { KeysFrom25(i); } else if i < 30 { KeysFrom27(i); } else { KeysFrom30(i); }
  }

  lemma KeysDiffer(i: nat, j: nat)
    requires i < CATEGORIES && j < CATEGORIES && SameIgnoringCase(Key(i), Key(j))
    ensures i == j
  {
    KeyFacts(i);
    KeyFacts(j);
  }

  /** The token that is the key of row k acts through row k alone. */
  lemma {:induction false} KeyApplies(v: bv32, k: nat, subtract: bool, i: nat)
    requires k < CATEGORIES && i <= CATEGORIES
    ensures RowsApplied(v, Key(k), subtract, i) == if i <= k then BitApplied(v, Mask(k), subtract) else v
    decreases CATEGORIES - i
  {
    if i < CATEGORIES {
      if SameIgnoringCase(Key(k), Key(i)) { KeysDiffer(k, i); }
      KeyApplies(if i == k then BitApplied(v, Mask(k), subtract) else v, k, subtract, i + 1);
    }
  }

  // Bit-vector facts, one at a time.

  predicate OneBit(m: bv32) {
    m != 0 && m & (m - 1) == 0
  }

  lemma BitSetOrClear(w: bv32, m: bv32)
    requires m & (m - 1) == 0
    ensures w & m == m || w & m == 0
  {
  }

  lemma AddDisjoint(a: bv32, b: bv32)
    requires a & b == 0
    ensures a + b == a | b
  {
  }

  lemma SetAlready(a: bv32, b: bv32)
    requires a & b == b
    ensures a == a | b
  {
  }

  lemma SubtractContained(a: bv32, b: bv32)
    requires a & b == b
    ensures a - b == a & !b
  {
  }

  lemma ClearAlready(a: bv32, b: bv32)
    requires a & b == 0
    ensures a == a & !b
  {
  }

  /** Adding a category that may be set is setting its bit. */
  lemma AddIsSet(w: bv32, m: bv32)
    requires OneBit(m)
    ensures BitApplied(w, m, false) == w | m
  {
    BitSetOrClear(w, m);
    if w & m == m { SetAlready(w, m); } else { AddDisjoint(w, m); }
  }

  /** Subtracting a category that may be clear is clearing its bit. */
  lemma SubtractIsClear(w: bv32, m: bv32)
    requires OneBit(m)
    ensures BitApplied(w, m, true) == w & !m
  {
    BitSetOrClear(w, m);
    if w & m == m { SubtractContained(w, m); } else { ClearAlready(w, m); }
  }

  // The categories that a mask is printed with.

  lemma MaskIsOneBit(i: nat)
    requires 2 <= i < CATEGORIES
    ensures OneBit(Mask(i))
  {
  }

  function Joined(m: bv32, r: bv32): bv32 {
    m | r
  }

  /** The bits of rows i and up. */
  function High(i: nat): bv32
    requires 2 <= i <= CATEGORIES
    decreases CATEGORIES - i
  {
    if i == CATEGORIES then 0 else Joined(Mask(i), High(i + 1))
  }

  lemma HighStep(k: nat)
    requires k < 30
    ensures (1 << k) | (KNOWN & !((1 << (k + 1)) - 1)) == KNOWN & !((1 << k) - 1)
  {
  }

  lemma {:induction false} HighIs(i: nat)
    requires 2 <= i <= CATEGORIES
    ensures High(i) == KNOWN & !((1 << (i - 2)) - 1)
    decreases CATEGORIES - i
  {
    if i < CATEGORIES {
      HighIs(i + 1);
      HighStep(i - 2);
    }
  }

  lemma HighIsKnown(i: nat)
    requires i == 2
    ensures High(i) == KNOWN
  {
    HighIs(i);
  }

  /** w with the bits of x turned on, or off. */
  function Turned(w: bv32, x: bv32, subtract: bool): bv32 {
    if subtract then w & !x else w | x
  }

  function Common(v: bv32, r: bv32): bv32 {
    v & r
  }

  /** What the name of row i, if v is printed with it, does to w. */
  function RowTurned(w: bv32, v: bv32, i: nat, subtract: bool): bv32
    requires i < CATEGORIES
  {
    if Has(v, Mask(i)) then BitApplied(w, Mask(i), subtract) else w
  }

  /** The printed names as a token list, one row at a time. */
  lemma NamesStep(w: bv32, v: bv32, i: nat, subtract: bool)
    requires 2 <= i < CATEGORIES
    ensures TokensApplied(w, Names(v, i), subtract)
      == TokensApplied(RowTurned(w, v, i, subtract), Names(v, i + 1), subtract)
  {
    hide Mask, Key, BitApplied, RowsApplied, Has;
    if Has(v, Mask(i)) {
      assert Names(v, i)[0] == Key(i) && Names(v, i)[1..] == Names(v, i + 1);
      KeyApplies(w, i, subtract, 0);
    } else {
      assert Names(v, i) == Names(v, i + 1);
    }
  }

  lemma MissingBit(v: bv32, m: bv32, r: bv32)
    requires v & m == 0
    ensures Common(v, Joined(m, r)) == Common(v, r)
  {
  }

  lemma AbsentBit(v: bv32, m: bv32, r: bv32)
    requires OneBit(m) && !Has(v, m)
    ensures Common(v, Joined(m, r)) == Common(v, r)
  {
    hide Common, Joined;
    BitSetOrClear(v, m);
    MissingBit(v, m, r);
  }

  lemma Distribute(v: bv32, m: bv32, r: bv32)
    requires v & m == m
    ensures Common(v, m | r) == m | Common(v, r)
  {
  }

  lemma PresentBit(v: bv32, m: bv32, r: bv32)
    requires Has(v, m)
    ensures Common(v, Joined(m, r)) == Joined(m, Common(v, r))
  {
    hide Common;
    Distribute(v, m, r);
  }

  lemma SetBoth(b: bv32, w: bv32, m: bv32, x: bv32)
    requires b == w | m
    ensures Turned(b, x, false) == Turned(w, m | x, false)
  {
  }

  lemma SetTwice(b: bv32, w: bv32, m: bv32, x: bv32)
    requires b == w | m
    ensures Turned(b, x, false) == Turned(w, Joined(m, x), false)
  {
    hide Turned;
    SetBoth(b, w, m, x);
  }

  lemma ClearBoth(b: bv32, w: bv32, m: bv32, x: bv32)
    requires b == w & !m
    ensures Turned(b, x, true) == Turned(w, m | x, true)
  {
  }

  lemma ClearedTwice(b: bv32, w: bv32, m: bv32, x: bv32)
    requires b == w & !m
    ensures Turned(b, x, true) == Turned(w, Joined(m, x), true)
  {
    hide Turned;
    ClearBoth(b, w, m, x);
  }

  lemma TurnOne(w: bv32, m: bv32, x: bv32, subtract: bool)
    requires OneBit(m)
    ensures Turned(BitApplied(w, m, subtract), x, subtract) == Turned(w, Joined(m, x), subtract)
  {
    hide BitApplied, OneBit, Turned, Joined;
    if subtract {
      SubtractIsClear(w, m);
      ClearedTwice(BitApplied(w, m, true), w, m, x);
    } else {
      AddIsSet(w, m);
      SetTwice(BitApplied(w, m, false), w, m, x);
    }
  }

  lemma HighIsOr(i: nat)
    requires 2 <= i < CATEGORIES
    ensures High(i) == Joined(Mask(i), High(i + 1))
  {
    hide Mask;
  }

  lemma TurnStep(w: bv32, v: bv32, i: nat, subtract: bool)
    requires 2 <= i < CATEGORIES
    ensures Turned(RowTurned(w, v, i, subtract), Common(v, High(i + 1)), subtract)
      == Turned(w, Common(v, High(i)), subtract)
  {
    hide Mask, BitApplied, High, OneBit, Turned, Common, Has, Joined;
    MaskIsOneBit(i);
    HighIsOr(i);
    if Has(v, Mask(i)) {
      PresentBit(v, Mask(i), High(i + 1));
      TurnOne(w, Mask(i), Common(v, High(i + 1)), subtract);
    } else {
      AbsentBit(v, Mask(i), High(i + 1));
    }
  }

  lemma TurnsNothing(w: bv32, v: bv32, subtract: bool)
    ensures Common(v, 0) == 0 && Turned(w, 0, subtract) == w
  {
  }

  lemma NoMoreNames(w: bv32, v: bv32, i: nat, subtract: bool)
    requires i == CATEGORIES
    ensures TokensApplied(w, Names(v, i), subtract) == w && High(i) == 0 && Names(v, i) == []
  {
    hide Mask, RowsApplied;
  }

  /** Applying the names of v's rows from i on turns those rows' bits. */
  lemma {:induction false} NamesTurn(w: bv32, v: bv32, i: nat, subtract: bool)
    requires 2 <= i <= CATEGORIES
    ensures TokensApplied(w, Names(v, i), subtract) == Turned(w, Common(v, High(i)), subtract)
    decreases CATEGORIES - i
  {
    hide Mask, Names, TokensApplied, RowTurned, High, Turned, Common;
    if i == CATEGORIES {
      NoMoreNames(w, v, i, subtract);
      TurnsNothing(w, v, subtract);
    } else {
      NamesStep(w, v, i, subtract);
      TurnStep(w, v, i, subtract);
      NamesTurn(RowTurned(w, v, i, subtract), v, i + 1, subtract);
    }
  }

  lemma HasPresentBit(v: bv32, m: bv32, r: bv32)
    requires OneBit(m) && Has(v, m)
    ensures Common(v, Joined(m, r)) != 0
  {
    PresentBit(v, m, r);
  }

  lemma NamesGrow(v: bv32, i: nat)
    requires 2 <= i < CATEGORIES
    ensures Names(v, i) == [] <==> !Has(v, Mask(i)) && Names(v, i + 1) == []
  {
    hide Mask, Key, Has;
  }

  lemma {:induction false} NamesEmpty(v: bv32, i: nat)
    requires 2 <= i <= CATEGORIES
    ensures Names(v, i) == [] <==> Common(v, High(i)) == 0
    decreases CATEGORIES - i
  {
    hide Mask, Key, High, OneBit, Common, Names, Has, Joined;
    if i == CATEGORIES {
      NoMoreNames(0, v, i, true);
      TurnsNothing(0, v, true);
    } else {
      MaskIsOneBit(i);
      HighIsOr(i);
      NamesGrow(v, i);
      NamesEmpty(v, i + 1);
      if Has(v, Mask(i)) {
        HasPresentBit(v, Mask(i), High(i + 1));
      } else {
        AbsentBit(v, Mask(i), High(i + 1));
      }
    }
  }

  // The printed text, read back.

  lemma {:induction false} TokenLengthIs(word: string, rest: string)
    requires forall k :: 0 <= k < |word| ==> word[k] > ','
    requires rest == "" || IsDelimiter(rest[0])
    ensures TokenLength(word + rest) == |word|
  {
    if word == "" {
      assert word + rest == rest;
    } else {
      TokenLengthIs(word[1..], rest);
      assert (word + rest)[1..] == word[1..] + rest;
    }
  }

  lemma {:induction false} TokensOfJoin(names: seq<string>)
    requires names != [] && forall k :: 0 <= k < |names| ==> Plain(names[k])
    ensures Tokens(Join(names, ',')) == names
    decreases |names|
  {
    var text := Join(names, ',');
    if |names| == 1 {
      TokenLengthIs(names[0], "");
      assert text + "" == text;
    } else {
      var rest := Join(names[1..], ',');
      TokenLengthIs(names[0], "," + rest);
      assert text == names[0] + ("," + rest);
      assert Tokens("," + rest) == Tokens(rest) by { assert ("," + rest)[1..] == rest; }
      TokensOfJoin(names[1..]);
    }
  }

  ghost predicate IsKey(name: string) {
    exists r :: 2 <= r < CATEGORIES && name == Key(r)
  }

  ghost predicate AreKeys(names: seq<string>) {
    forall k :: 0 <= k < |names| ==> IsKey(names[k])
  }

  lemma {:induction false} NamesAreKeys(v: bv32, i: nat)
    requires 2 <= i <= CATEGORIES
    ensures AreKeys(Names(v, i))
    decreases CATEGORIES - i
  {
    hide Key, Mask, IsKey, Has;
    if i < CATEGORIES {
      NamesAreKeys(v, i + 1);
      KeyIsKey(i);
    }
  }

  lemma KeyIsKey(i: nat)
    requires 2 <= i < CATEGORIES
    ensures IsKey(Key(i))
  {
    hide Key;
  }

  lemma CommaIsNoWord(text: string, word: string, k: nat)
    requires k < |text| && text[k] == ',' && ',' !in word
    ensures !SameIgnoringCase(text, word)
  {
    if |word| == |text| {
      assert word[k] in word;
      assert Lower(text)[k] != Lower(word)[k];
    }
  }

  lemma WordsHaveNoRow()
    ensures RowOf(Code(Lower("off"))) == CATEGORIES && RowOf(Code(Lower("no"))) == CATEGORIES
  {
  }

  lemma KeyIsNoWord(r: nat)
    requires 2 <= r < CATEGORIES
    ensures !Stops(Key(r)) && !SameIgnoringCase(Key(r), "no") && !SameIgnoringCase(Key(r), "all")
  {
    KeyFacts(r);
    KeyFacts(0);
    KeyFacts(1);
    WordsHaveNoRow();
  }

  lemma JoinIsNoWord(names: seq<string>)
    requires |names| > 1
    ensures var text := Join(names, ',');
            !Stops(text) && !SameIgnoringCase(text, "no") && !SameIgnoringCase(text, "all")
  {
    var text := Join(names, ',');
    assert text[|names[0]|] == ',';
    CommaIsNoWord(text, "none", |names[0]|);
    CommaIsNoWord(text, "off", |names[0]|);
    CommaIsNoWord(text, "no", |names[0]|);
    CommaIsNoWord(text, "all", |names[0]|);
  }

  lemma LetterIsNoNumber(text: string)
    requires text != "" && 'a' <= text[0] <= 'z'
    ensures Scanned(text).NotANumber?
  {
  }

  /** No joined keys are one of the words the parser treats specially, or a number. */
  lemma JoinedKeysAreOrdinary(names: seq<string>, r: nat)
    requires names != [] && 2 <= r < CATEGORIES && names[0] == Key(r)
    ensures var text := Join(names, ',');
            Scanned(text).NotANumber? && !Stops(text) && !SameIgnoringCase(text, "no") && !SameIgnoringCase(text, "all")
  {
    KeyFacts(r);
    LetterIsNoNumber(Join(names, ','));
    if |names| == 1 { KeyIsNoWord(r); } else { JoinIsNoWord(names); }
  }

  /** An ordinary argument is applied token by token; behind "no" its categories are taken away. */
  lemma OrdinaryApplies(w: bv32, text: string, subtract: bool)
    requires Scanned(text).NotANumber? && !Stops(text)
    requires !SameIgnoringCase(text, "no") && !SameIgnoringCase(text, "all")
    ensures Parsed(if subtract then ["no", text] else [text], w) == TokensApplied(w, Tokens(text), subtract)
  {
    assert ArgsApplied(w, [text], subtract) == TokensApplied(w, Tokens(text), subtract) by {
      assert [text][1..] == [];
    }
    if subtract {
      var args := ["no", text];
      assert args[1..] == [text];
      assert Lower("no") == "no" && Lower("none")[2] == 'n' && Lower("off")[0] == 'o';
    }
  }

  lemma ParsesPrinted(v: bv32, w: bv32, i: nat, subtract: bool)
    requires 2 <= i < CATEGORIES && Names(v, i) != []
    ensures var text := Join(Names(v, i), ',');
            Parsed(if subtract then ["no", text] else [text], w) == TokensApplied(w, Names(v, i), subtract)
  {
    hide Mask, Key, Names, Parsed, TokensApplied, Tokens, Join, Plain;
    NamesAreKeys(v, i);
    var names := Names(v, i);
    forall k | 0 <= k < |names| ensures Plain(names[k]) {
      assert IsKey(names[k]);
      var r :| 2 <= r < CATEGORIES && names[k] == Key(r);
      KeyFacts(r);
    }
    assert IsKey(names[0]);
    var r :| 2 <= r < CATEGORIES && names[0] == Key(r);
    JoinedKeysAreOrdinary(names, r);
    TokensOfJoin(names);
    OrdinaryApplies(w, Join(names, ','), subtract);
  }

  lemma CategoryNamesAre(v: bv32, i: nat)
    requires i == 2
    ensures i < CATEGORIES && CategoryNames(v) == Names(v, i)
    ensures CategoryNames(v) != [] ==> Printed(v) == Join(Names(v, i), ',')
  {
    hide Mask, Join;
  }

  /** Parsing what was printed for v sets v's known bits in every start value, and parsing it
      behind "no" clears them; the printer prints nothing exactly when v has no known bit. */
  lemma ParseUndoesPrint(v: bv32, w: bv32)
    ensures CategoryNames(v) == [] <==> Common(v, KNOWN) == 0
    ensures CategoryNames(v) != [] ==> Parsed([Printed(v)], w) == Turned(w, Common(v, KNOWN), false)
    ensures CategoryNames(v) != [] ==> Parsed(["no", Printed(v)], w) == Turned(w, Common(v, KNOWN), true)
  {
    hide *;
    var i: nat := 2;
    CategoryNamesAre(v, i);
    HighIsKnown(i);
    NamesEmpty(v, i);
    if CategoryNames(v) != [] {
      ParsesPrinted(v, w, i, false);
      ParsesPrinted(v, w, i, true);
      NamesTurn(w, v, i, false);
      NamesTurn(w, v, i, true);
    }
  }

  // ---------------------------------------------------------------- the growing buffer

  const NUL: char := '\0'

  /** A buffer that holds text as a C string. */
  ghost predicate Holds(memory: seq<char>, text: string) {
    |text| < |memory| && memory[..|text|] == text && memory[|text|] == NUL && NUL !in text
  }

  function StrLen(memory: seq<char>): (n: nat)
    requires NUL in memory
    ensures n < |memory| && memory[n] == NUL && NUL !in memory[..n]
  {
    if memory[0] == NUL then 0 else 1 + StrLen(memory[1..])
  }

  lemma StrLenOf(memory: seq<char>, text: string)
    requires Holds(memory, text)
    ensures NUL in memory && StrLen(memory) == |text|
  {
    assert memory[|text|] == NUL;
    var n := StrLen(memory);
    assert forall k :: 0 <= k < |text| ==> memory[k] == text[k];
    assert forall k :: 0 <= k < n ==> memory[k] == memory[..n][k];
  }

  /** realloc: a block of the new size that starts with what the old one held, if there is memory. */
  method Realloc(block: array?<char>, size: nat, granted: bool) returns (grown: array?<char>)
    requires block != null ==> block.Length <= size
    ensures grown != null <==> granted
    ensures grown != null ==> fresh(grown) && grown.Length == size
    ensures grown != null && block != null ==> grown[..block.Length] == block[..]
  {
    grown := null;
    if granted {
      var memory := new char[size];
      if block != null {
        forall k | 0 <= k < block.Length { memory[k] := block[k]; }
      }
      grown := memory;
    }
  }

  /** snprintf at an offset: at most size bytes, the last of them the terminator, and none of
      them outside the buffer. */
  method Snprintf(buffer: array<char>, at: nat, size: nat, text: string)
    requires 0 < size && at + (if |text| < size then |text| + 1 else size) <= buffer.Length
    modifies buffer
    ensures |text| < size ==> buffer[..] == old(buffer[..at]) + text + [NUL] + old(buffer[at + |text| + 1..])
  {
    var n := if |text| < size then |text| else size - 1;
    forall k | 0 <= k < n { buffer[at + k] := text[k]; }
    buffer[at + n] := NUL;
  }

  lemma HoldsAppended(before: seq<char>, after: seq<char>, text: string, more: string, rest: seq<char>)
    requires Holds(before, text) && NUL !in more
    requires after == before[..|text|] + more + [NUL] + rest
    ensures Holds(after, text + more)
  {
  }

  /** The loop body for one name: make room for it, a comma and the terminator, and print it behind
      what is there. The second limit given to snprintf reaches past the end of the block; that no
      write does is because the text is shorter. */
  method PrintName(block: array?<char>, size: nat, key: string, granted: bool, ghost text: string)
    returns (tmpres: array?<char>)
    requires block == null <==> size == 0
    requires block != null ==> block.Length == size && Holds(block[..], text)
    requires key != "" && NUL !in key
    ensures tmpres != null <==> granted
    ensures tmpres != null ==> fresh(tmpres) && tmpres.Length == size + |key| + 2
    ensures tmpres != null ==> Holds(tmpres[..], if block == null then key else text + ("," + key))
  {
    var newSize := size + |key| + 1 + 1;
    tmpres := Realloc(block, newSize, granted);
    if tmpres == null {
      return;
    }
    if size == 0 {
      Snprintf(tmpres, 0, newSize - 1, key);
    } else {
      ghost var before := tmpres[..];
      assert Holds(before, text) by {
        assert before[..size] == block[..];
        assert before[..|text|] == block[..][..|text|];
      }
      StrLenOf(before, text);
      Snprintf(tmpres, StrLen(tmpres[..]), newSize - 1, "," + key);
      HoldsAppended(before, tmpres[..], text, "," + key, before[|text| + |key| + 2..]);
    }
  }

  /** sccp_get_debugcategories; granted: whether there is memory for the k-th name. No write leaves the
      buffer, and the text it ends with is the printed one; nothing comes back exactly when there was
      nothing to print or memory ran out for one of the names. */
  method GetDebugCategories(v: bv32, granted: nat -> bool) returns (res: array?<char>)
    ensures res != null <==> CategoryNames(v) != [] && forall k :: 0 <= k < |CategoryNames(v)| ==> granted(k)
    ensures res != null ==> Holds(res[..], Printed(v))
  {
    hide Mask, Key, Has, Holds, Plain, Names, Join;
    res := null;
    var size, count: nat := 0, 0;
    ghost var done: seq<string> := [];
    for i := 2 to CATEGORIES
      invariant CategoryNames(v) == done + Names(v, i)
      invariant (res == null <==> size == 0) && (res == null <==> done == [])
      invariant count == |done| && forall k :: 0 <= k < count ==> granted(k)
      invariant res != null ==> res.Length == size && Holds(res[..], Join(done, ','))
    {
      NamesUnroll(v, i);
      if Has(v, Mask(i)) {
        KeyIsText(i);
        if done == [] {
          JoinOne(Key(i));
          assert done + [Key(i)] == [Key(i)];
        } else {
          JoinSnoc(done, ',', Key(i));
        }
        var tmpres := PrintName(res, size, Key(i), granted(count), if done == [] then "" else Join(done, ','));
        if tmpres == null {
          return null;
        }
        count := count + 1;
        size := size + |Key(i)| + 1 + 1;
        res := tmpres;
        done := done + [Key(i)];
      }
    }
    NamesEnd(v, CATEGORIES);
    assert done + [] == done;
  }

  lemma NamesUnroll(v: bv32, i: nat)
    requires i < CATEGORIES
    ensures Names(v, i) == (if Has(v, Mask(i)) then [Key(i)] else []) + Names(v, i + 1)
  {
    hide Mask, Key, Has;
  }

  lemma NamesEnd(v: bv32, i: nat)
    requires i == CATEGORIES
    ensures Names(v, i) == []
  {
  }

  lemma JoinOne(name: string)
    ensures Join([name], ',') == name
  {
  }

  lemma KeyIsText(i: nat)
    requires i < CATEGORIES
    ensures Key(i) != "" && NUL !in Key(i)
  {
    hide Key;
    KeyFacts(i);
  }

  lemma AllApplied(w: bv32)
    ensures BitApplied(w, ALL, false) == if w == ALL then ALL else w - 1
  {
  }

  lemma OneLess(w: bv32)
    ensures w - 1 == ALL <==> w == 0
  {
  }

  /** A table key inside a list is not the argument of that name: "all" there adds the mask of
      row 0 arithmetically, so unless everything or nothing is on already it does not turn
      everything on, it subtracts one. */
  lemma AllInsideAListSubtractsOne(w: bv32, row: nat)
    requires row == 0
    ensures RowsApplied(w, Key(row), false, row) == if w == ALL then ALL else w - 1
    ensures RowsApplied(w, Key(row), false, row) == ALL <==> w == 0 || w == ALL
  {
    KeyApplies(w, row, false, row);
    AllApplied(w);
    OneLess(w);
  }

  // ---------------------------------------------------------------- words, numbers and delimiters

  /** "none" and "off" empty the mask, wherever they stand and whatever stands around them. */
  lemma {:induction false} StopsWin(v: bv32, args: seq<string>, subtract: bool, k: nat)
    requires k < |args| && (SameIgnoringCase(args[k], "none") || SameIgnoringCase(args[k], "off"))
    ensures ArgsApplied(v, args, subtract) == 0
    decreases |args|
  {
    assert Stops(args[k]);
    hide Stops, SameIgnoringCase, TokensApplied, Tokens;
    if k > 0 && !Stops(args[0]) {
      var rest := args[1..];
      assert rest[k - 1] == args[k];
      if SameIgnoringCase(args[0], "no") {
        StopsWin(v, rest, true, k - 1);
      } else if SameIgnoringCase(args[0], "all") {
        StopsWin(if subtract then 0 else ALL, rest, subtract, k - 1);
      } else {
        StopsWin(TokensApplied(v, Tokens(args[0]), subtract), rest, subtract, k - 1);
      }
    }
  }

  predicate IsNo(arg: string) {
    SameIgnoringCase(arg, "no")
  }

  /** Is a "no" among the arguments? */
  predicate Negated(args: seq<string>) {
    exists i :: 0 <= i < |args| && IsNo(args[i])
  }

  /** Without them the arguments act one after the other, and each "no" turns all that follow. */
  lemma {:induction false} ArgsInParts(v: bv32, a: seq<string>, b: seq<string>, subtract: bool)
    requires forall i :: 0 <= i < |a| ==> !Stops(a[i])
    ensures ArgsApplied(v, a + b, subtract) == ArgsApplied(ArgsApplied(v, a, subtract), b, subtract || Negated(a))
    decreases |a|
  {
    hide Stops, SameIgnoringCase, TokensApplied, Tokens;
    if a == [] {
      assert a + b == b;
    } else {
      var rest := a[1..];
      assert (a + b)[1..] == rest + b;
      assert Negated(a) <==> IsNo(a[0]) || Negated(rest) by { NegatedStep(a); }
      if SameIgnoringCase(a[0], "no") {
        ArgsInParts(v, rest, b, true);
      } else if SameIgnoringCase(a[0], "all") {
        ArgsInParts(if subtract then 0 else ALL, rest, b, subtract);
      } else {
        ArgsInParts(TokensApplied(v, Tokens(a[0]), subtract), rest, b, subtract);
      }
    }
  }

  lemma NegatedStep(a: seq<string>)
    requires a != []
    ensures Negated(a) <==> IsNo(a[0]) || Negated(a[1..])
  {
    hide IsNo;
    if Negated(a) && !IsNo(a[0]) {
      var i :| 0 <= i < |a| && IsNo(a[i]);
      assert IsNo(a[1..][i - 1]);
    }
    if Negated(a[1..]) {
      var i :| 0 <= i < |a[1..]| && IsNo(a[1..][i]);
      assert IsNo(a[i + 1]);
    }
  }

  /** So a last "all" sets every bit, or clears every bit behind a "no". */
  lemma LastAllDecides(v: bv32, a: seq<string>)
    requires forall i :: 0 <= i < |a| ==> !SameIgnoringCase(a[i], "none") && !SameIgnoringCase(a[i], "off")
    ensures ArgsApplied(v, a + ["all"], false) == if Negated(a) then 0 else ALL
  {
    assert forall i :: 0 <= i < |a| ==> !Stops(a[i]);
    hide Stops, Negated, SameIgnoringCase;
    ArgsInParts(v, a, ["all"], false);
    AllAlone(ArgsApplied(v, a, false), Negated(a));
  }

  lemma AllAlone(v: bv32, subtract: bool)
    ensures ArgsApplied(v, ["all"], subtract) == if subtract then 0 else ALL
  {
    assert Lower("all")[0] == 'a' && Lower("none")[0] == 'n' && Lower("off")[0] == 'o' && Lower("no")[0] == 'n';
  }

  /** A word is what no delimiter can cut. */
  ghost predicate IsWord(word: string) {
    word != "" && forall i :: 0 <= i < |word| ==> !IsDelimiter(word[i])
  }

  lemma {:induction false} TokenLengthOfWord(word: string, rest: string)
    requires forall i :: 0 <= i < |word| ==> !IsDelimiter(word[i])
    requires rest == "" || IsDelimiter(rest[0])
    ensures TokenLength(word + rest) == |word|
    decreases |word|
  {
    hide IsDelimiter;
    if word == "" {
      assert word + rest == rest;
    } else {
      assert (word + rest)[1..] == word[1..] + rest;
      TokenLengthOfWord(word[1..], rest);
    }
  }

  /** A word at the front is the first token. */
  lemma WordIsToken(word: string, rest: string)
    requires IsWord(word)
    requires rest == "" || IsDelimiter(rest[0])
    ensures Tokens(word + rest) == [word] + Tokens(rest)
  {
    hide IsDelimiter, TokenLength;
    TokenLengthOfWord(word, rest);
    assert (word + rest)[..|word|] == word && (word + rest)[|word|..] == rest;
    assert (word + rest)[0] == word[0];
  }

  lemma DelimiterIsSkipped(d: char, rest: string)
    requires IsDelimiter(d)
    ensures Tokens([d] + rest) == Tokens(rest)
  {
    hide IsDelimiter, TokenLength;
    assert ([d] + rest)[1..] == rest;
  }

  /** A text that starts with no delimiter starts with a word, which a delimiter or the end follows. */
  lemma {:induction false} WordInFront(a: string)
    returns (word: string, rest: string)
    requires a != "" && !IsDelimiter(a[0])
    ensures a == word + rest && IsWord(word) && (rest == "" || IsDelimiter(rest[0]))
    decreases |a|
  {
    hide IsDelimiter;
    if |a| == 1 || IsDelimiter(a[1]) {
      word, rest := a[..1], a[1..];
    } else {
      word, rest := WordInFront(a[1..]);
      word := [a[0]] + word;
    }
  }

  lemma WordIsOneToken(word: string)
    requires word != "" && forall i :: 0 <= i < |word| ==> word[i] !in {' ', ',', '\t'}
    ensures Tokens(word) == [word]
  {
    WordIsToken(word, "");
    assert word + "" == word;
  }

  /** Tokens are separated by blanks, commas and tabs, and by nothing else. */
  lemma {:induction false} TokensSplit(a: string, d: char, b: string)
    requires d in {' ', ',', '\t'}
    ensures Tokens(a + [d] + b) == Tokens(a) + Tokens(b)
    decreases |a|
  {
    if a == "" {
      assert a + [d] + b == [d] + b;
      DelimiterIsSkipped(d, b);
    } else {
      TokensSplitBehind(a, d, b);
    }
  }

  lemma {:induction false} TokensSplitBehind(a: string, d: char, b: string)
    requires d in {' ', ',', '\t'} && a != ""
    ensures Tokens(a + [d] + b) == Tokens(a) + Tokens(b)
    decreases |a|, 0
  {
    assert IsDelimiter(d);
    hide Tokens, IsDelimiter, IsWord;
    if IsDelimiter(a[0]) {
      var rest := a[1..];
      assert a == [a[0]] + rest && a + [d] + b == [a[0]] + (rest + [d] + b);
      DelimiterIsSkipped(a[0], rest);
      DelimiterIsSkipped(a[0], rest + [d] + b);
      TokensSplit(rest, d, b);
    } else {
      var word, rest := WordInFront(a);
      assert word != "" by { WordIsNotEmpty(word); }
      assert a + [d] + b == word + (rest + [d] + b);
      WordIsToken(word, rest);
      WordIsToken(word, rest + [d] + b);
      TokensSplit(rest, d, b);
    }
  }

  lemma WordIsNotEmpty(word: string)
    requires IsWord(word)
    ensures word != ""
  {
  }

  /** The decimal digits of a number. */
  function Decimal(n: nat): (s: string)
    ensures s != "" && forall i :: 0 <= i < |s| ==> '0' <= s[i] <= '9'
  {
    var last := [(n % 10) as char + '0'];
    if n < 10 then last else Decimal(n / 10) + last
  }

  lemma {:induction false} DigitsAppend(s: string, d: char, sofar: int)
    requires (forall i :: 0 <= i < |s| ==> '0' <= s[i] <= '9') && '0' <= d <= '9'
    ensures Digits(s + [d], sofar) == 10 * Digits(s, sofar) + (d - '0') as int
    decreases |s|
  {
    if s == "" {
      assert s + [d] == [d];
    } else {
      assert (s + [d])[1..] == s[1..] + [d];
      DigitsAppend(s[1..], d, 10 * sofar + (s[0] - '0') as int);
    }
  }

  lemma {:induction false} DigitsOfDecimal(n: nat)
    ensures Digits(Decimal(n), 0) == n
  {
    if n >= 10 {
      DigitsOfDecimal(n / 10);
      DigitsAppend(Decimal(n / 10), (n % 10) as char + '0', 0);
    }
  }

  lemma NumberScanned(n: int, text: string)
    requires n >= 0 && text in {Decimal(n), "+" + Decimal(n), "-" + Decimal(n)}
    ensures Scanned(text) == Number(if text[0] == '-' then -n else n)
  {
    hide Decimal, Digits;
    DigitsOfDecimal(n);
    if text != Decimal(n) {
      assert text[1..] == Decimal(n);
    }
  }

  /** A first argument that is a number, with a sign or without, is the new mask. */
  lemma NumberIsMask(n: int, args: seq<string>, v: bv32)
    requires n >= 0 && args != [] && args[0] in {Decimal(n), "+" + Decimal(n), "-" + Decimal(n)}
    ensures Parsed(args, v) == ((if args[0][0] == '-' then -n else n) % 0x1_0000_0000) as bv32
  {
    hide Decimal, Scanned, ArgsApplied;
    NumberScanned(n, args[0]);
  }
}
