/** The C string primitives that the list parsers and the list printer share. */
module Text {

  /** The pieces that repeated strsep calls return for one separator. */
  function Split(s: string, sep: char): (pieces: seq<string>)
    ensures |pieces| >= 1
    ensures forall i :: 0 <= i < |pieces| ==> sep !in pieces[i]
    decreases |s|
  {
    if s == "" then [""]
    else
      var rest := Split(s[1..], sep);
      if s[0] == sep then [""] + rest else [[s[0]] + rest[0]] + rest[1..]
  }

  /** The pieces with the separator put back between them. */
  function Join(pieces: seq<string>, sep: char): string
    requires |pieces| >= 1
  {
    if |pieces| == 1 then pieces[0] else pieces[0] + [sep] + Join(pieces[1..], sep)
  }

  /** One more piece stands behind one more separator. */
  lemma {:induction false} JoinSnoc(pieces: seq<string>, sep: char, piece: string)
    requires pieces != []
    ensures Join(pieces + [piece], sep) == Join(pieces, sep) + ([sep] + piece)
  {
    if |pieces| > 1 {
      JoinSnoc(pieces[1..], sep, piece);
      assert (pieces + [piece])[1..] == pieces[1..] + [piece];
    } else {
      assert (pieces + [piece])[1..] == [piece];
    }
  }

  /** Splitting loses nothing: the separators are exactly where Join puts them. */
  lemma {:induction false} JoinSplit(s: string, sep: char)
    ensures Join(Split(s, sep), sep) == s
    decreases |s|
  {
    if s != "" {
      JoinSplit(s[1..], sep);
      var rest := Split(s[1..], sep);
      var pieces := Split(s, sep);
      if s[0] == sep {
        assert pieces[1..] == rest;
      } else if |rest| > 1 {
        assert pieces[1..] == rest[1..];
        assert Join(rest, sep) == rest[0] + [sep] + Join(rest[1..], sep);
      }
    }
  }

  lemma {:induction false} SplitWithout(s: string, sep: char)
    requires sep !in s
    ensures Split(s, sep) == [s]
    decreases |s|
  {
    if s != "" {
      SplitWithout(s[1..], sep);
      assert [s[0]] + s[1..] == s;
    }
  }

  /** tolower on one ASCII character. */
  function LowerChar(c: char): char {
    if 'A' <= c <= 'Z' then c - 'A' + 'a' else c
  }

  function Lower(s: string): (t: string)
    ensures |t| == |s|
    ensures forall i :: 0 <= i < |s| ==> t[i] == LowerChar(s[i])
  {
    seq(|s|, i requires 0 <= i < |s| => LowerChar(s[i]))
  }

  /** strcasecmp(a, b) == 0. */
  predicate SameIgnoringCase(a: string, b: string) {
    Lower(a) == Lower(b)
  }
}
