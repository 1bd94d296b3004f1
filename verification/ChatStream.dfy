/**
  Showing a model's answer: as it streams in, token by token, and as a whole.
  Lines that carry an action are shown by neither.
*/
module ChatStream {
  import opened Text

  const NL := '\n'
  const ACTION := "ACTION:"

  predicate IsAction(line: string) {
    ACTION <= Trim(line)
  }

  predicate Blank(line: string) {
    Trim(line) == ""
  }

  function Shown(lines: seq<string>): (r: seq<string>)
    ensures forall i :: 0 <= i < |r| ==> r[i] in lines && !IsAction(r[i])
  {
    if lines == [] then []
    else Shown(lines[..|lines| - 1]) + if IsAction(lines[|lines| - 1]) then [] else [lines[|lines| - 1]]
  }

  function DropBlank(lines: seq<string>): seq<string> {
    if lines != [] && Blank(lines[|lines| - 1]) then DropBlank(lines[..|lines| - 1]) else lines
  }

  /** The whole answer with its action lines and trailing blank lines removed. */
  function Filtered(text: string): string {
    Join(DropBlank(Shown(Split(text, NL))), NL)
  }

  /** What one more character prints, and what it leaves in the line buffer. */
  function Step(buf: string, c: char): (string, string) {
    if c != NL then ("", buf + [c])
    else if IsAction(buf) then ("", "")
    else (buf + [NL], "")
  }

  function Feed(buf: string, s: string): (string, string)
    decreases |s|
  {
    if s == "" then ("", buf)
    else
      var first := Step(buf, s[0]);
      var rest := Feed(first.1, s[1..]);
      (first.0 + rest.0, rest.1)
  }

  function Rest(buf: string): string {
    if buf == "" || IsAction(buf) then "" else buf
  }

  /** All that a streamed text prints once the last partial line is flushed. */
  function Streamed(text: string): string {
    Feed("", text).0 + Rest(Feed("", text).1)
  }

  function Concat(tokens: seq<string>): string {
    if tokens == [] then "" else Concat(tokens[..|tokens| - 1]) + tokens[|tokens| - 1]
  }

  class Stream {
    var buf: string
    var out: string

    constructor ()
      ensures buf == "" && out == ""
    {
      buf, out := "", "";
    }

    method OnToken(token: string)
      modifies this
      ensures out == old(out) + Feed(old(buf), token).0 && buf == Feed(old(buf), token).1
    {
      var i := 0;
      while i < |token|
        invariant 0 <= i <= |token|
        invariant out + Feed(buf, token[i..]).0 == old(out) + Feed(old(buf), token).0
        invariant Feed(buf, token[i..]).1 == Feed(old(buf), token).1
      {
        assert token[i..][1..] == token[i + 1..];
        var c := token[i];
        if c == NL {
          var line := buf;
          buf := "";
          if !IsAction(line) {
            out := out + line + [NL];
          }
        } else {
          buf := buf + [c];
        }
        i := i + 1;
      }
    }

    method Flush()
      modifies this
      ensures out == old(out) + Rest(old(buf)) && buf == ""
    {
      var remaining := buf;
      if remaining != "" {
        buf := "";
        if !IsAction(remaining) {
          out := out + remaining;
        }
      }
    }

    /** A whole answer in any tokens prints what its text prints in one. */
    method Answer(tokens: seq<string>)
      requires buf == ""
      modifies this
      ensures buf == "" && out == old(out) + Streamed(Concat(tokens))
    {
      var i := 0;
      while i < |tokens|
        invariant 0 <= i <= |tokens|
        invariant out == old(out) + Feed("", Concat(tokens[..i])).0
        invariant buf == Feed("", Concat(tokens[..i])).1
      {
        assert tokens[..i + 1][..i] == tokens[..i];
        FeedOn("", Concat(tokens[..i]), tokens[i]);
        OnToken(tokens[i]);
        i := i + 1;
      }
      assert tokens[..i] == tokens;
      Flush();
    }
  }

  /** The whole-text filter as it runs. */
  method FilterActionLines(text: string) returns (r: string)
    ensures r == Filtered(text)
  {
    var all := Split(text, NL);
    var lines: seq<string> := [];
    var i := 0;
    while i < |all|
      invariant 0 <= i <= |all|
      invariant lines == Shown(all[..i])
    {
      assert all[..i + 1][..i] == all[..i];
      if !IsAction(all[i]) {
        lines := lines + [all[i]];
      }
      i := i + 1;
    }
    assert all[..i] == all;
    while |lines| > 0 && Blank(lines[|lines| - 1])
      invariant DropBlank(lines) == DropBlank(Shown(all))
    {
      lines := lines[..|lines| - 1];
    }
    r := Join(lines, NL);
  }

  // ------------------------------------------------------------ properties

  /** Two tokens print what one token of both prints. */
  lemma {:induction false} FeedOn(buf: string, a: string, b: string)
    ensures Feed(buf, a + b) == (Feed(buf, a).0 + Feed(Feed(buf, a).1, b).0, Feed(Feed(buf, a).1, b).1)
    decreases |a|
  {
    if a == "" {
      assert a + b == b;
      assert "" + Feed(buf, b).0 == Feed(buf, b).0;
    } else {
      assert (a + b)[1..] == a[1..] + b;
      var first := Step(buf, a[0]);
      FeedOn(first.1, a[1..], b);
      var one, two := Feed(first.1, a[1..]), Feed(Feed(first.1, a[1..]).1, b);
      assert first.0 + (one.0 + two.0) == (first.0 + one.0) + two.0;
    }
  }

  /** Each shown line and its line break. */
  function Printed(lines: seq<string>): string {
    if lines == [] then "" else Printed(lines[..|lines| - 1]) + if IsAction(lines[|lines| - 1]) then "" else lines[|lines| - 1] + [NL]
  }

  /** Feeding a line and its break into an empty buffer prints it, unless it carries an action. */
  lemma {:induction false} FeedLine(buf: string, line: string)
    requires Without(line, NL)
    ensures Feed(buf, line) == ("", buf + line)
    decreases |line|
  {
    if line != "" {
      FeedLine(buf + [line[0]], line[1..]);
      assert "" + "" == "";
      assert buf + [line[0]] + line[1..] == buf + line;
    } else {
      assert buf + line == buf;
    }
  }

  lemma {:induction false} FeedLines(lines: seq<string>)
    requires lines != [] && forall i :: 0 <= i < |lines| ==> Without(lines[i], NL)
    ensures Feed("", Join(lines, NL)) == (Printed(lines[..|lines| - 1]), lines[|lines| - 1])
    decreases |lines|
  {
    var n := |lines| - 1;
    if n == 0 {
      FeedLine("", lines[0]);
      assert "" + lines[0] == lines[0];
    } else {
      var init, last := lines[..n], lines[n];
      FeedLines(init);
      JoinSnoc(init, last, NL);
      assert lines == init + [last];
      var text := Join(init, NL);
      FeedOn("", text, [NL] + last);
      assert text + [NL] + last == text + ([NL] + last);
      assert ([NL] + last)[1..] == last;
      FeedLine("", last);
      assert "" + last == last;
      assert init[..n - 1] == lines[..n - 1];
      var ended := Step(init[n - 1], NL).0;
      assert ended + "" == ended;
      assert lines[..n] == init && init[|init| - 1] == init[n - 1];
    }
  }

  lemma {:induction false} JoinSnoc(parts: seq<string>, last: string, sep: char)
    requires parts != []
    ensures Join(parts + [last], sep) == Join(parts, sep) + [sep] + last
  {
    if |parts| == 1 {
      assert (parts + [last])[1..] == [last];
    } else {
      assert (parts + [last])[1..] == parts[1..] + [last];
      JoinSnoc(parts[1..], last, sep);
    }
  }

  lemma {:induction false} PrintedIsJoined(lines: seq<string>, tail: string)
    ensures Printed(lines) + tail == Join(Shown(lines) + [tail], NL)
  {
    if lines == [] {
      assert Shown(lines) + [tail] == [tail];
      assert Printed(lines) + tail == tail;
    } else {
      var n := |lines| - 1;
      var last := lines[n];
      if IsAction(last) {
        PrintedIsJoined(lines[..n], tail);
        assert Shown(lines) == Shown(lines[..n]) + [] == Shown(lines[..n]);
        assert Printed(lines) == Printed(lines[..n]) + "" == Printed(lines[..n]);
      } else {
        PrintedIsJoined(lines[..n], last);
        var shown := Shown(lines[..n]);
        assert Shown(lines) == shown + [last];
        JoinSnoc(shown + [last], tail, NL);
        Regrouped(Printed(lines[..n]), last, tail);
      }
    }
  }

  lemma Regrouped(before: string, last: string, tail: string)
    ensures before + (last + [NL]) + tail == (before + last) + [NL] + tail
  {
  }

  /** The lines a streamed text prints, the part after the last break included. */
  function PrintedLines(text: string): seq<string> {
    var lines := Split(text, NL);
    Shown(lines[..|lines| - 1]) + [Rest(lines[|lines| - 1])]
  }

  lemma StreamedLines(text: string)
    ensures Streamed(text) == Join(PrintedLines(text), NL)
    ensures Split(Streamed(text), NL) == PrintedLines(text)
  {
    var lines := Split(text, NL);
    var n := |lines| - 1;
    SplitParts(text, NL);
    JoinSplit(text, NL);
    FeedLines(lines);
    PrintedIsJoined(lines[..n], Rest(lines[n]));
    assert forall i :: 0 <= i < n ==> lines[..n][i] == lines[i];
    SplitJoin(PrintedLines(text), NL);
  }

  /** No action line is ever printed. */
  lemma NoActionIsPrinted(text: string, i: nat)
    requires i < |Split(Streamed(text), NL)|
    ensures !IsAction(Split(Streamed(text), NL)[i])
  {
    StreamedLines(text);
    assert Trim("") == "";
  }

  /** Apart from trailing blank lines, streaming shows exactly the filtered text. */
  lemma StreamedIsFiltered(text: string)
    ensures Join(DropBlank(Split(Streamed(text), NL)), NL) == Filtered(text)
  {
    StreamedLines(text);
    var lines := Split(text, NL);
    var n := |lines| - 1;
    var shown := Shown(lines[..n]);
    var last := lines[n];
    var printed := PrintedLines(text);
    assert printed[..|printed| - 1] == shown;
    assert Shown(lines) == shown + if IsAction(last) then [] else [last];
    if !IsAction(last) {
      assert Rest(last) == last;
      assert Shown(lines) == printed;
    } else {
      assert Blank("");
      assert DropBlank(printed) == DropBlank(shown);
      assert shown + [] == shown;
    }
  }

  lemma {:induction false} ShownIsKept(lines: seq<string>)
    requires forall i :: 0 <= i < |lines| ==> !IsAction(lines[i])
    ensures Shown(lines) == lines
  {
    if lines != [] {
      ShownIsKept(lines[..|lines| - 1]);
    }
  }

  lemma {:induction false} DropBlankOnce(lines: seq<string>)
    ensures DropBlank(DropBlank(lines)) == DropBlank(lines)
    ensures DropBlank(lines) <= lines
  {
    if lines != [] && Blank(lines[|lines| - 1]) {
      DropBlankOnce(lines[..|lines| - 1]);
    }
  }

  /** Filtering a filtered text changes nothing. */
  lemma FilterIdempotent(text: string)
    ensures Filtered(Filtered(text)) == Filtered(text)
  {
    var shown := Shown(Split(text, NL));
    var kept := DropBlank(shown);
    SplitParts(text, NL);
    DropBlankOnce(shown);
    if kept == [] {
      assert Split("", NL) == [""];
      assert Shown([""]) == [""] by {
        assert Trim("") == "";
        assert [""][..0] == [];
      }
      assert DropBlank([""]) == [];
    } else {
      forall i | 0 <= i < |kept| ensures !IsAction(kept[i]) && Without(kept[i], NL) {
        assert kept[i] == shown[i];
        assert shown[i] in Split(text, NL);
      }
      SplitJoin(kept, NL);
      ShownIsKept(kept);
    }
  }

  predicate MarkedAt(line: string, i: nat) {
    i + 7 <= |line| && line[i..i + 7] == "ACTION:"
  }

  /** An action line: the first thing on it but white space is the marker. */
  lemma ActionIs(line: string)
    ensures IsAction(line) <==>
              exists i: nat :: MarkedAt(line, i) && forall k :: 0 <= k < i ==> Space(line[k])
  {
    hide Space, Trim;
    var from, to := TrimIs(line);
    var t := Trim(line);
    Trimmed(line);
    MarkerIsPlain();
    if IsAction(line) {
      assert t[..7] == "ACTION:" && line[from..from + 7] == t[..7] && MarkedAt(line, from);
    }
    if i: nat :| MarkedAt(line, i) && forall k :: 0 <= k < i ==> Space(line[k]) {
      assert line[i] == line[i..i + 7][0] == 'A' && line[i + 6] == line[i..i + 7][6] == ':';
      assert i >= from && i + 6 < to;
      assert t != "" && t[0] == line[from];
      assert i == from;
      assert t[..7] == line[i..i + 7];
    }
  }

  lemma MarkerIsPlain()
    ensures !Space('A') && !Space(':')
  {
  }

  /** The lines shown are the others, each where it was among them. */
  lemma {:induction false} ShownAppends(a: seq<string>, b: seq<string>)
    ensures Shown(a + b) == Shown(a) + Shown(b)
  {
    if b == [] {
      assert a + b == a;
    } else {
      assert (a + b)[..|a + b| - 1] == a + b[..|b| - 1];
      ShownAppends(a, b[..|b| - 1]);
    }
  }

  lemma ShownOne(line: string)
    ensures Shown([line]) == if IsAction(line) then [] else [line]
  {
    assert [line][..0] == [];
  }

  /** Of these the trailing ones that are nothing but white space are left out, and no other. */
  lemma {:induction false} DropBlankIs(lines: seq<string>)
    ensures var kept := DropBlank(lines);
            && kept <= lines && (kept != [] ==> exists c :: c in kept[|kept| - 1] && !Space(c))
            && forall i, c :: |kept| <= i < |lines| && c in lines[i] ==> Space(c)
  {
    hide Space, Trim;
    if lines != [] {
      BlankIs(lines[|lines| - 1]);
      if Blank(lines[|lines| - 1]) {
        DropBlankIs(lines[..|lines| - 1]);
      }
    }
  }

  lemma BlankIs(line: string)
    ensures Blank(line) <==> forall c :: c in line ==> Space(c)
  {
    hide Space, Trim;
    var i, j := TrimIs(line);
    Trimmed(line);
    if Blank(line) {
      forall c | c in line ensures Space(c) {
        var k :| 0 <= k < |line| && line[k] == c;
        assert k < i || j <= k;
      }
    } else {
      assert Trim(line)[0] in line;
    }
  }
}
