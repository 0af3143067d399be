/** The allow= and disallow= settings, applied to a preference list in place (sccp_codec.c). */
module CodecParse {
  import opened Text
  import opened Codec

  /** One row of the codec table: its number and the key a setting names it by. */
  datatype Row = Row(codec: Codec, key: string)

  /** pbx_strip: no blanks at either end. */
  function Strip(s: string): (t: string)
    decreases |s|
  {
    if s == "" then ""
    else if s[0] as int < 33 then Strip(s[1..])
    else if s[|s| - 1] as int < 33 then Strip(s[..|s| - 1])
    else s
  }

  predicate IsBlank(c: char) {
    c as int < 33
  }

  ghost predicate AllBlank(s: string) {
    forall i :: 0 <= i < |s| ==> IsBlank(s[i])
  }

  lemma BlankInFront(c: char, a: string, m: string, b: string)
    ensures IsBlank(c) && AllBlank(a) ==> AllBlank([c] + a)
    ensures [c] + (a + m + b) == [c] + a + m + b
  {
  }

  lemma BlankBehind(c: char, a: string, m: string, b: string)
    ensures IsBlank(c) && AllBlank(b) ==> AllBlank(b + [c])
    ensures a + m + b + [c] == a + m + (b + [c])
  {
  }

  /** Only blanks are taken off ... */
  lemma {:induction false} StripIs(s: string) returns (a: string, b: string)
    ensures s == a + Strip(s) + b && AllBlank(a) && AllBlank(b)
    decreases |s|
  {
    hide AllBlank;
    if s == "" || (!IsBlank(s[0]) && !IsBlank(s[|s| - 1])) {
      a, b := "", "";
      NothingIsBlank();
    } else if IsBlank(s[0]) {
      a, b := StripIs(s[1..]);
      BlankInFront(s[0], a, Strip(s), b);
      assert s == [s[0]] + s[1..];
      a := [s[0]] + a;
    } else {
      a, b := StripIs(s[..|s| - 1]);
      BlankBehind(s[|s| - 1], a, Strip(s), b);
      assert s == s[..|s| - 1] + [s[|s| - 1]];
      b := b + [s[|s| - 1]];
    }
  }

  lemma NothingIsBlank()
    ensures AllBlank("")
  {
  }

  /** ... and none is left at either end. */
  lemma {:induction false} StrippedBare(s: string)
    ensures Strip(s) != "" ==> !IsBlank(Strip(s)[0]) && !IsBlank(Strip(s)[|Strip(s)| - 1])
    decreases |s|
  {
    if s != "" {
      if s[0] as int < 33 {
        StrippedBare(s[1..]);
      } else if s[|s| - 1] as int < 33 {
        StrippedBare(s[..|s| - 1]);
      }
    }
  }

  datatype Progress = Progress(prefs: seq<Codec>, found: bool, errors: nat)

  predicate Hits(row: Row, name: string) {
    SameIgnoringCase(name, "all") || SameIgnoringCase(row.key, name)
  }

  predicate Known(table: seq<Row>, name: string) {
    exists i :: 0 <= i < |table| && Hits(table[i], name)
  }

  function RowsApplied(prefs: seq<Codec>, table: seq<Row>, name: string, allow: bool): seq<Codec>
    decreases table
  {
    if table == [] then prefs
    else
      var next := if !Hits(table[0], name) then prefs
                  else if allow then Appended(prefs, table[0].codec)
                  else Removed(prefs, table[0].codec);
      RowsApplied(next, table[1..], name, allow)
  }

  function Name(token: string): string
    requires token != ""
  {
    if token[0] == '!' then token[1..] else token
  }

  function Cleared(prefs: seq<Codec>): seq<Codec> {
    seq(|prefs|, _ => NONE)
  }

  /** Does this stripped token empty the list? */
  predicate Clears(token: string, allowing: bool)
    requires token != ""
  {
    SameIgnoringCase(Name(token), "all") && allowing == (token[0] == '!')
  }

  function TokenApplied(table: seq<Row>, p: Progress, token: string, allowing: bool): Progress {
    if token == "" then p
    else if Clears(token, allowing) then p.(prefs := Cleared(p.prefs))
    else
      var found := p.found || Known(table, Name(token));
      Progress(RowsApplied(p.prefs, table, Name(token), allowing == (token[0] != '!')),
               found, if found then p.errors else p.errors + 1)
  }

  function TokensApplied(table: seq<Row>, p: Progress, tokens: seq<string>, allowing: bool): Progress
    decreases tokens
  {
    if tokens == [] then p
    else TokensApplied(table, TokenApplied(table, p, Strip(tokens[0]), allowing), tokens[1..], allowing)
  }

  function Parsed(table: seq<Row>, prefs: seq<Codec>, list: string, allowing: bool): Progress {
    TokensApplied(table, Progress(prefs, false, 0), Split(list, ','), allowing)
  }

  /** The inner loop of the parser: every row that the name hits is allowed or disallowed. */
  method ApplyRows(table: seq<Row>, prefs: array<Codec>, name: string, allow: bool) returns (found: bool)
    requires prefs.Length == MAX_CAPABILITIES
    modifies prefs
    ensures prefs[..] == RowsApplied(old(prefs[..]), table, name, allow)
    ensures found == Known(table, name)
  {
    found := false;
    var all := SameIgnoringCase(name, "all");
    for x := 0 to |table|
      invariant RowsApplied(old(prefs[..]), table, name, allow) == RowsApplied(prefs[..], table[x..], name, allow)
      invariant found <==> exists i :: 0 <= i < x && Hits(table[i], name)
    {
      if all || SameIgnoringCase(table[x].key, name) {
        found := true;
        if allow {
          var _ := PrefAppend(prefs, table[x].codec);
        } else {
          PrefRemove(prefs, table[x].codec);
        }
      }
    }
  }

  /** sccp_codec_parseAllowDisallow; the found flag is never reset between tokens. */
  method ParseAllowDisallow(table: seq<Row>, prefs: array?<Codec>, list: string, allowing: bool)
    returns (errors: int)
    requires prefs != null ==> prefs.Length == MAX_CAPABILITIES
    modifies prefs
    ensures prefs == null ==> errors == -1
    ensures prefs != null ==>
              prefs[..] == Parsed(table, old(prefs[..]), list, allowing).prefs
              && errors == Parsed(table, old(prefs[..]), list, allowing).errors
  {
    hide RowsApplied, Known, Strip, SameIgnoringCase;
    if prefs == null { return -1; }
    errors := 0;
    var found := false;
    var tokens := Split(list, ',');
    for t := 0 to |tokens|
      invariant errors >= 0
      invariant TokensApplied(table, Progress(old(prefs[..]), false, 0), tokens, allowing)
             == TokensApplied(table, Progress(prefs[..], found, errors), tokens[t..], allowing)
    {
      ghost var before := Progress(prefs[..], found, errors);
      var token := Strip(tokens[t]);
      if token != "" {
        var allow := allowing;
        var name := token;
        if token[0] == '!' {
          allow := !allowing;
          name := token[1..];
        }
        var all := SameIgnoringCase(name, "all");
        if all && !allow {
          forall i | 0 <= i < prefs.Length { prefs[i] := NONE; }
          assert prefs[..] == Cleared(before.prefs);
        } else {
          var hit := ApplyRows(table, prefs, name, allow);
          found := found || hit;
          if !found {
            errors := errors + 1;
          }
        }
      }
      assert Progress(prefs[..], found, errors) == TokenApplied(table, before, token, allowing);
    }
  }

  // ---------------------------------------------------------------- what the settings mean

  lemma {:induction false} RowsKeepClean(prefs: seq<Codec>, table: seq<Row>, name: string, allow: bool)
    requires Clean(prefs)
    ensures Clean(RowsApplied(prefs, table, name, allow))
    decreases table
  {
    if table != [] {
      AppendKeepsClean(prefs, table[0].codec);
      RemovedFromKeepsClean(prefs, table[0].codec, 0, false);
      var next := if !Hits(table[0], name) then prefs
                  else if allow then Appended(prefs, table[0].codec)
                  else Removed(prefs, table[0].codec);
      RowsKeepClean(next, table[1..], name, allow);
    }
  }

  lemma {:induction false} TokensKeepClean(table: seq<Row>, p: Progress, tokens: seq<string>, allowing: bool)
    requires Clean(p.prefs)
    ensures Clean(TokensApplied(table, p, tokens, allowing).prefs)
    decreases |tokens|
  {
    if tokens != [] {
      var token := Strip(tokens[0]);
      if token != "" {
        RowsKeepClean(p.prefs, table, Name(token), allowing == (token[0] != '!'));
      }
      TokensKeepClean(table, TokenApplied(table, p, token, allowing), tokens[1..], allowing);
    }
  }

  /** Over every setting string, a list with nothing behind its terminator stays so. */
  lemma ParseKeepsClean(table: seq<Row>, prefs: seq<Codec>, list: string, allowing: bool)
    requires Clean(prefs)
    ensures Clean(Parsed(table, prefs, list, allowing).prefs)
  {
    TokensKeepClean(table, Progress(prefs, false, 0), Split(list, ','), allowing);
  }

  /** The tokens an administrator would call unknown, up to the first known one. */
  function UnknownBeforeKnown(table: seq<Row>, tokens: seq<string>, allowing: bool): nat {
    if tokens == [] then 0
    else
      var token := Strip(tokens[0]);
      if token == "" || Clears(token, allowing) then UnknownBeforeKnown(table, tokens[1..], allowing)
      else if Known(table, Name(token)) then 0
      else 1 + UnknownBeforeKnown(table, tokens[1..], allowing)
  }

  /** Unknown codecs are reported only until the first known codec: later ones go unnoticed. */
  lemma {:induction false} ErrorsStopAtFirstKnown(table: seq<Row>, p: Progress, tokens: seq<string>, allowing: bool)
    ensures TokensApplied(table, p, tokens, allowing).errors
         == p.errors + if p.found then 0 else UnknownBeforeKnown(table, tokens, allowing)
    decreases |tokens|
  {
    if tokens != [] {
      ErrorsStopAtFirstKnown(table, TokenApplied(table, p, Strip(tokens[0]), allowing), tokens[1..], allowing);
    }
  }

  /** disallow=all empties every list. */
  lemma DisallowAllClears(table: seq<Row>, prefs: seq<Codec>)
    ensures Parsed(table, prefs, "all", false).prefs == Cleared(prefs)
  {
    SplitWithout("all", ',');
    assert Strip("all") == "all";
    var p := Progress(prefs, false, 0);
    assert TokensApplied(table, p, ["all"], false) == TokenApplied(table, p, "all", false);
  }
}
