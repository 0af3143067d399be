/** The wrapped lists of the command line (sccp_cli.c). */
module LineWrap {
  import opened Text

  const LINE_LENGTH: nat := 79

  // ---------------------------------------------------------------- wraps of a list

  /** How wide items are with one space between them. */
  function Width(items: seq<string>): nat
    decreases |items|
  {
    if items == [] then 0
    else if |items| == 1 then |items[0]|
    else Width(items[..|items| - 1]) + 1 + |items[|items| - 1]|
  }

  function Flat(lines: seq<seq<string>>): seq<string>
    decreases |lines|
  {
    if lines == [] then [] else Flat(lines[..|lines| - 1]) + lines[|lines| - 1]
  }

  /** A line may only be wider than the terminal if it holds a single item. */
  predicate LineFits(line: seq<string>, indent: nat) {
    line != [] && (|line| > 1 ==> indent + Width(line) <= LINE_LENGTH)
  }

  /** All items in order, no line empty, and no line with more than one item too wide. */
  ghost predicate IsWrap(lines: seq<seq<string>>, items: seq<string>, indent: nat) {
    Flat(lines) == items && forall k :: 0 <= k < |lines| ==> LineFits(lines[k], indent)
  }

  function Last<T>(s: seq<T>): T
    requires s != []
  {
    s[|s| - 1]
  }

  function Init<T>(s: seq<T>): seq<T>
    requires s != []
  {
    s[..|s| - 1]
  }

  /** Item by item: it joins the line if it fits there, and starts the next one if not. */
  function Greedy(items: seq<string>, indent: nat): (lines: seq<seq<string>>)
    requires items != []
    ensures lines != [] && Last(lines) != []
    decreases |items|
  {
    if |items| == 1 then [items]
    else
      var before, item := Greedy(Init(items), indent), Last(items);
      if indent + Width(Last(before)) + 1 + |item| > LINE_LENGTH then before + [[item]]
      else Init(before) + [Last(before) + [item]]
  }

  lemma WidthGrows(line: seq<string>, item: string)
    requires line != []
    ensures Width(line + [item]) == Width(line) + 1 + |item|
  {
    assert (line + [item])[..|line|] == line;
  }

  lemma FlatSplits(lines: seq<seq<string>>, line: seq<string>)
    ensures Flat(lines + [line]) == Flat(lines) + line
  {
    assert (lines + [line])[..|lines|] == lines;
  }

  /** Adding an item to the last line, or as a line of its own, adds it to the list. */
  lemma FlatGrows(lines: seq<seq<string>>, item: string)
    requires lines != []
    ensures Flat(lines + [[item]]) == Flat(lines) + [item]
    ensures Flat(Init(lines) + [Last(lines) + [item]]) == Flat(lines) + [item]
  {
    FlatSplits(lines, [item]);
    FlatSplits(Init(lines), Last(lines) + [item]);
    FlatSplits(Init(lines), Last(lines));
    assert Init(lines) + [Last(lines)] == lines;
  }

  /** The greedy lines are a wrap. */
  lemma {:induction false} GreedyIsWrap(items: seq<string>, indent: nat)
    requires items != []
    ensures IsWrap(Greedy(items, indent), items, indent)
    decreases |items|
  {
    hide Width, Flat;
    if |items| == 1 {
      FlatSplits([], items);
      FlatNothing();
      assert [] + [items] == [items];
    } else {
      GreedyIsWrap(Init(items), indent);
      var before := Greedy(Init(items), indent);
      FlatGrows(before, Last(items));
      WidthGrows(Last(before), Last(items));
      assert Init(items) + [Last(items)] == items;
    }
  }

  lemma FlatNothing()
    ensures Flat([]) == []
  {
  }

  /** A later part of a line is no wider. */
  lemma {:induction false} WidthOfEnd(items: seq<string>, k: nat)
    requires k <= |items|
    ensures Width(items[k..]) <= Width(items)
    decreases |items|
  {
    var n := |items| - 1;
    if k < n {
      WidthOfEnd(items[..n], k);
      assert items[k..][..|items[k..]| - 1] == items[..n][k..];
      assert Last(items[k..]) == items[n];
    }
  }

  /** The last lines of two wraps of the same list: the one with fewer items ends the other. */
  lemma ShorterLast(a: seq<seq<string>>, b: seq<seq<string>>)
    requires a != [] && b != [] && Flat(a) == Flat(b) && |Last(a)| <= |Last(b)|
    ensures Last(a) == Last(b)[|Last(b)| - |Last(a)|..]
  {
    assert Flat(a) == Flat(Init(a)) + Last(a);
    assert Flat(b) == Flat(Init(b)) + Last(b);
    var k := |Last(b)| - |Last(a)|;
    var n := |Flat(a)|;
    assert Last(a) == Flat(a)[n - |Last(a)|..];
    assert Last(b) == Flat(b)[n - |Last(b)|..];
  }

  /** Any wrap without its last item, as a wrap of the shorter list. */
  lemma WithoutLast(lines: seq<seq<string>>, items: seq<string>, indent: nat)
    requires IsWrap(lines, items, indent) && |items| > 1
    ensures lines != [] && Last(lines) != []
    ensures |Last(lines)| == 1 ==> Init(lines) != [] && IsWrap(Init(lines), Init(items), indent)
    ensures |Last(lines)| > 1 ==> IsWrap(Init(lines) + [Init(Last(lines))], Init(items), indent)
    ensures |Last(lines)| > 1 ==>
      Last(Last(lines)) == Last(items) && Width(Last(lines)) == Width(Init(Last(lines))) + 1 + |Last(items)|
  {
    var last := Last(lines);
    assert items == Flat(Init(lines)) + last;
    if |last| == 1 {
      assert Init(items) == Flat(Init(lines));
    } else {
      FlatSplits(Init(lines), Init(last));
      assert Init(items) == Flat(Init(lines)) + Init(last);
      assert Init(last) + [Last(last)] == last;
      WidthGrows(Init(last), Last(last));
    }
  }

  /** The greedy lines stay ahead: they are fewer than those of any wrap, or as many and with no more
      items on the last one. */
  lemma {:induction false} GreedyAhead(lines: seq<seq<string>>, items: seq<string>, indent: nat)
    requires items != [] && IsWrap(lines, items, indent)
    ensures lines != [] && |Greedy(items, indent)| <= |lines|
    ensures |Greedy(items, indent)| == |lines| ==> |Last(Greedy(items, indent))| <= |Last(lines)|
    decreases |items|
  {
    hide Width, Flat;
    if |items| == 1 {
      FlatNothing();
      assert lines != [];
      assert LineFits(Last(lines), indent);
    } else {
      WithoutLast(lines, items, indent);
      var greedy := Greedy(Init(items), indent);
      if |Last(lines)| == 1 {
        GreedyAhead(Init(lines), Init(items), indent);
      } else {
        var rest := Init(lines) + [Init(Last(lines))];
        GreedyAhead(rest, Init(items), indent);
        assert Last(rest) == Init(Last(lines));
        if |greedy| == |lines| {
          GreedyIsWrap(Init(items), indent);
          ShorterLast(greedy, rest);
          WidthOfEnd(Last(rest), |Last(rest)| - |Last(greedy)|);
          assert LineFits(Last(lines), indent);
        }
      }
    }
  }

  /** No wrap has fewer lines. */
  lemma FewestLines(lines: seq<seq<string>>, items: seq<string>, indent: nat)
    requires items != [] && IsWrap(lines, items, indent)
    ensures |Greedy(items, indent)| <= |lines|
  {
    GreedyAhead(lines, items, indent);
  }

  // ---------------------------------------------------------------- sccp_cli_print_list

  function Spaces(n: nat): (s: string)
    ensures |s| == n
  {
    seq(n, _ => ' ')
  }

  function Stripped(s: string): string {
    if s != "" && s[0] == ' ' then Stripped(s[1..]) else s
  }

  /** Only blanks are taken away, and none is left in front. */
  lemma {:induction false} StrippedIs(s: string)
    ensures |Stripped(s)| <= |s| && s == Spaces(|s| - |Stripped(s)|) + Stripped(s)
    ensures Stripped(s) != "" ==> Stripped(s)[0] != ' '
  {
    if s != "" && s[0] == ' ' {
      StrippedIs(s[1..]);
      assert s == [s[0]] + s[1..];
    }
  }

  /** The item of a piece: without the spaces before it, and with the comma if others follow. */
  function Item(piece: string, followed: bool): string {
    Stripped(piece) + (if followed then "," else "")
  }

  function Items(pieces: seq<string>): (items: seq<string>)
    ensures |items| == |pieces|
    ensures forall i :: 0 <= i < |items| ==> items[i] == Item(pieces[i], i < |pieces| - 1)
  {
    seq(|pieces|, i requires 0 <= i < |pieces| => Item(pieces[i], i < |pieces| - 1))
  }

  /** The text of one line behind its indent. */
  function Line(items: seq<string>): (s: string)
    ensures |s| == Width(items)
    decreases |items|
  {
    if items == [] then "" else if |items| == 1 then items[0] else Line(Init(items)) + " " + Last(items)
  }

  /** It is the items with one space between them. */
  lemma {:induction false} LineIsJoin(items: seq<string>)
    requires items != []
    ensures Line(items) == Join(items, ' ')
    decreases |items|
  {
    if |items| > 1 {
      LineIsJoin(Init(items));
      JoinSnoc(Init(items), ' ', Last(items));
      assert Init(items) + [Last(items)] == items;
    }
  }

  /** The text of the lines, each but the first behind a line break and its indent. */
  function Body(lines: seq<seq<string>>, indent: nat): string
    decreases |lines|
  {
    if lines == [] then ""
    else if |lines| == 1 then Line(lines[0])
    else Body(Init(lines), indent) + "\n" + Spaces(indent) + Line(Last(lines))
  }

  /** What stands before the first line. */
  function Prefix(title: string, width: nat): (s: string)
    ensures |s| == 2 + (if |title| < width then width else |title|) + 1
  {
    "  " + title + Spaces(if |title| < width then width - |title| else 0) + " "
  }

  lemma BodyStep(lines: seq<seq<string>>, line: seq<string>, indent: nat)
    ensures lines != [] ==> Body(lines + [line], indent) == Body(lines, indent) + "\n" + Spaces(indent) + Line(line)
    ensures Body([line], indent) == Line(line)
  {
    hide Line, Spaces;
    assert Init(lines + [line]) == lines && Last(lines + [line]) == line;
  }

  lemma LineStep(line: seq<string>, item: string)
    ensures line != [] ==> Line(line + [item]) == Line(line) + " " + item
    ensures Line([item]) == item
  {
    assert Init(line + [item]) == line && Last(line + [item]) == item;
  }

  /** An item starts the next line ... */
  lemma BodyGrows(lines: seq<seq<string>>, indent: nat, item: string)
    requires lines != []
    ensures Body(lines + [[item]], indent) == Body(lines, indent) + "\n" + Spaces(indent) + item
  {
    hide Body, Line, Spaces;
    BodyStep(lines, [item], indent);
    LineStep([], item);
  }

  /** ... or follows on the last one. */
  lemma LastLineGrows(front: seq<seq<string>>, last: seq<string>, indent: nat, item: string)
    requires last != []
    ensures Body(front + [last + [item]], indent) == Body(front + [last], indent) + " " + item
  {
    hide Body, Line, Spaces;
    LineStep(last, item);
    BodyStep(front, last, indent);
    BodyStep(front, last + [item], indent);
    if front == [] {
      assert front + [last] == [last];
      assert front + [last + [item]] == [last + [item]];
    } else {
      AppendInside(Body(front, indent) + "\n" + Spaces(indent), Line(last), " ", item);
    }
  }

  lemma AppendInside(a: string, b: string, c: string, d: string)
    ensures a + (b + c + d) == a + b + c + d
  {
  }

  lemma {:induction false} GreedyEndsWithLast(items: seq<string>, indent: nat)
    requires items != []
    ensures Last(Last(Greedy(items, indent))) == Last(items)
  {
  }

  lemma WidthAtLeastLast(line: seq<string>)
    requires line != []
    ensures Width(line) >= |Last(line)|
  {
  }

  /** sccp_cli_print_list prints the items of the text as the greedy lines. */
  method PrintList(title: string, width: nat, text: string) returns (out: string)
    ensures var indent, items := 2 + width + 1, Items(Split(text, ','));
      out == Prefix(title, width) + Body(Greedy(items, indent), indent) + "\n"
  {
    hide Width, Greedy, Body, Line, Stripped;
    var indent := 2 + width + 1;
    var column := indent;
    var pieces := Split(text, ',');
    ghost var items := Items(pieces);
    out := Prefix(title, width);
    for i := 0 to |pieces|
      invariant i == 0 ==> out == Prefix(title, width) && column == indent
      invariant i > 0 ==> items[..i] != [] && out == Prefix(title, width) + Body(Greedy(items[..i], indent), indent)
      invariant i > 0 ==> column == indent + Width(Last(Greedy(items[..i], indent)))
    {
      var item := Stripped(pieces[i]);
      var followed := i < |pieces| - 1;
      var len := |item| + (if followed then 1 else 0);
      ghost var soFar := items[..i + 1];
      assert Last(soFar) == items[i] && |items[i]| == len;
      if i == 0 {
        FirstItem(soFar, indent);
      } else {
        NextItem(items[..i], soFar, indent);
        assert |items[i - 1]| > 0;
      }
      if column > indent && column + 1 + len > LINE_LENGTH {
        out := out + "\n" + Spaces(indent);
        column := indent;
      } else if column > indent {
        out := out + " ";
        column := column + 1;
      }
      out := out + (item + (if followed then "," else ""));
      column := column + len;
    }
    assert items[..|pieces|] == items;
    out := out + "\n";
  }

  lemma FirstItem(soFar: seq<string>, indent: nat)
    requires |soFar| == 1
    ensures Body(Greedy(soFar, indent), indent) == Last(soFar) && Width(Last(Greedy(soFar, indent))) == |Last(soFar)|
  {
  }

  /** One more item, as the text and the column show it. */
  lemma NextItem(before: seq<string>, soFar: seq<string>, indent: nat)
    requires before != [] && |soFar| == |before| + 1 && Init(soFar) == before
    ensures Width(Last(Greedy(before, indent))) >= |Last(before)|
    ensures var greedy, item := Greedy(before, indent), Last(soFar);
      var breaks := indent + Width(Last(greedy)) + 1 + |item| > LINE_LENGTH;
      && Body(Greedy(soFar, indent), indent)
           == Body(greedy, indent) + (if breaks then "\n" + Spaces(indent) else " ") + item
      && Width(Last(Greedy(soFar, indent))) == (if breaks then 0 else Width(Last(greedy)) + 1) + |item|
  {
    hide Body, Line;
    var greedy, item := Greedy(before, indent), Last(soFar);
    GreedyEndsWithLast(before, indent);
    WidthAtLeastLast(Last(greedy));
    BodyGrows(greedy, indent, item);
    LastLineGrows(Init(greedy), Last(greedy), indent, item);
    assert Init(greedy) + [Last(greedy)] == greedy;
    WidthGrows(Last(greedy), item);
    assert [item][0] == item;
  }

  /** When the label is no longer than its width the first line begins at the indent like the others,
      so every line with more than one item ends by the last column; a longer label pushes it out. */
  lemma FirstLineStartsAtIndent(title: string, width: nat)
    ensures |Prefix(title, width)| == 2 + width + 1 <==> |title| <= width
  {
  }
}
