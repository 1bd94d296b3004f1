/**
  Quoting a value for a shell, checked against the shell's own quoting rules.
*/
module ShellQuote {
  import opened Wrappers

  const QUOTE := '\''
  const BACKSLASH := '\\'

  /** Every single quote replaced by one that leaves the quotes, stands escaped, and enters them again. */
  function Escaped(v: string): string {
    if v == "" then ""
    else (if v[0] == QUOTE then [QUOTE, BACKSLASH, QUOTE, QUOTE] else [v[0]]) + Escaped(v[1..])
  }

  function Quoted(v: string): string {
    [QUOTE] + Escaped(v) + [QUOTE]
  }

  /**
    Characters that mean themselves wherever they stand outside quotes, and the
    two whose place decides.  Left out are those that section 2.2 of POSIX.1-2017
    Shell Command Language says are to be quoted, and the three that make a word
    a pattern, which is read as the files there are.
  */
  predicate Ordinary(c: char) {
    c !in {'|', '&', ';', '<', '>', '(', ')', '$', '`', '\\', '"', '\'', ' ', '\t', '\n', '*', '?', '['}
  }

  /** A word being read: none yet, or the characters so far. */
  type Partial = Option<string>

  function Ended(words: seq<string>, cur: Partial): seq<string> {
    match cur
    case None => words
    case Some(w) => words + [w]
  }

  function Add(cur: Partial, c: char): Partial {
    match cur
    case None => Some([c])
    case Some(w) => Some(w + [c])
  }

  /** A number sign begins a comment, and a tilde names a directory, only where a word or a part of it begins. */
  predicate Means(c: char, cur: Partial) {
    && Ordinary(c)
    && (c == '#' ==> cur.Some?)
    && (c == '~' ==> cur.Some? && cur.value != "" && cur.value[|cur.value| - 1] !in {'=', ':'})
  }

  /**
    Reading words by sections 2.2.1 and 2.2.2 of POSIX.1-2017 Shell Command
    Language: outside quotes a backslash preserves the next character (and a
    backslash before a newline vanishes with it); between single quotes every
    character is preserved; a space ends a word.  Text with a character outside
    quotes that does not mean itself is refused.
  */
  function Outside(s: string, words: seq<string>, cur: Partial): Option<seq<string>>
    decreases |s|
  {
    if s == "" then Some(Ended(words, cur))
    else if s[0] == ' ' then Outside(s[1..], Ended(words, cur), None)
    else if s[0] == QUOTE then Inside(s[1..], words, if cur.None? then Some("") else cur)
    else if s[0] == BACKSLASH then
      if |s| == 1 then None
      else if s[1] == '\n' then Outside(s[2..], words, cur)
      else Outside(s[2..], words, Add(cur, s[1]))
    else if Means(s[0], cur) then Outside(s[1..], words, Add(cur, s[0]))
    else None
  }

  function Inside(s: string, words: seq<string>, cur: Partial): Option<seq<string>>
    decreases |s|
  {
    if s == "" then None
    else if s[0] == QUOTE then Outside(s[1..], words, cur)
    else Inside(s[1..], words, Add(cur, s[0]))
  }

  function Words(s: string): Option<seq<string>> {
    Outside(s, [], None)
  }

  /** Inside quotes, an escaped value reads as the value. */
  lemma {:induction false} EscapedReads(v: string, rest: string, words: seq<string>, w: string)
    ensures Inside(Escaped(v) + [QUOTE] + rest, words, Some(w)) == Outside(rest, words, Some(w + v))
    decreases |v|
  {
    var s := Escaped(v) + [QUOTE] + rest;
    if v == "" {
      assert s[1..] == rest;
      assert w + v == w;
    } else {
      var tail := Escaped(v[1..]) + [QUOTE] + rest;
      assert w + [v[0]] + v[1..] == w + v;
      EscapedReads(v[1..], rest, words, w + [v[0]]);
      if v[0] == QUOTE {
        assert s == [QUOTE, BACKSLASH, QUOTE, QUOTE] + tail;
        var s1 := s[1..];
        assert s1[0] == BACKSLASH && s1[1] == QUOTE;
        var s3 := s1[2..];
        assert s3[0] == QUOTE && s3[1..] == tail;
        assert Inside(s, words, Some(w)) == Outside(s1, words, Some(w));
        assert Outside(s1, words, Some(w)) == Outside(s3, words, Some(w + [QUOTE]));
        assert Outside(s3, words, Some(w + [QUOTE])) == Inside(tail, words, Some(w + [QUOTE]));
      } else {
        assert s == [v[0]] + tail;
        assert s[1..] == tail;
      }
    }
  }

  /** A quoted value reads as exactly one word: the value, whatever it holds. */
  lemma QuotedReadsBack(v: string)
    ensures Words(Quoted(v)) == Some([v])
  {
    var s := Quoted(v);
    assert s[1..] == Escaped(v) + [QUOTE] + "";
    EscapedReads(v, "", [], "");
    assert "" + v == v;
    assert Ended([], Some(v)) == [v];
  }

  /** Text each of whose characters means itself, read on from a word. */
  predicate PlainFrom(s: string, cur: Partial) {
    s == "" || (Means(s[0], cur) && PlainFrom(s[1..], Add(cur, s[0])))
  }

  lemma {:induction false} PlainReads(p: string, rest: string, words: seq<string>, w: string)
    requires PlainFrom(p, Some(w))
    ensures Outside(p + rest, words, Some(w)) == Outside(rest, words, Some(w + p))
    decreases |p|
  {
    if p == "" {
      assert p + rest == rest && w + p == w;
    } else {
      assert (p + rest)[1..] == p[1..] + rest;
      PlainReads(p[1..], rest, words, w + [p[0]]);
      assert w + [p[0]] + p[1..] == w + p;
    }
  }

  lemma {:induction false} PlainAppends(a: string, cur: Partial)
    requires PlainFrom(a, cur)
    ensures PlainFrom(a + "=", cur)
    decreases |a|
  {
    if a != "" {
      assert (a + "=")[1..] == a[1..] + "=";
      PlainAppends(a[1..], Add(cur, a[0]));
    } else {
      assert a + "=" == "=" && "="[1..] == "";
    }
  }

  lemma {:induction false} LettersArePlain(s: string, w: string)
    requires forall i :: 0 <= i < |s| ==> 'a' <= s[i] <= 'z'
    ensures PlainFrom(s, Some(w))
    decreases |s|
  {
    if s != "" {
      LettersArePlain(s[1..], w + [s[0]]);
    }
  }

  /** A character of a text means itself where it stands. */
  predicate PlainAt(s: string, i: nat)
    requires i < |s|
  {
    && Ordinary(s[i])
    && (s[i] == '#' ==> i > 0)
    && (s[i] == '~' ==> i > 0 && s[i - 1] !in {'=', ':'})
  }

  lemma {:induction false} PlainFromIff(s: string, cur: Partial)
    requires cur != Some("")
    ensures var w := if cur.None? then "" else cur.value;
            PlainFrom(s, cur) <==> forall i :: |w| <= i < |w + s| ==> PlainAt(w + s, i)
    decreases |s|
  {
    hide Ordinary;
    var w := if cur.None? then "" else cur.value;
    if s != "" {
      assert cur.None? ==> w + [s[0]] == [s[0]];
      assert Add(cur, s[0]) == Some(w + [s[0]]);
      PlainFromIff(s[1..], Add(cur, s[0]));
      assert w + [s[0]] + s[1..] == w + s;
      assert Means(s[0], cur) <==> PlainAt(w + s, |w|);
    }
  }

  lemma PlainKeyIff(key: string)
    ensures PlainFrom(key, None) <==> forall i :: 0 <= i < |key| ==> PlainAt(key, i)
  {
    hide PlainFrom, PlainAt;
    PlainFromIff(key, None);
    assert "" + key == key;
  }

  const EXPORT := "export"

  function ExportLine(key: string, v: string): string {
    EXPORT + " " + key + "=" + Quoted(v)
  }

  lemma AssignmentReads(key: string, v: string, words: seq<string>)
    requires key != "" && PlainFrom(key, None)
    ensures Outside(key + "=" + Quoted(v), words, None) == Some(words + [key + "=" + v])
  {
    hide Inside, Escaped;
    var assignment := key + "=" + Quoted(v);
    var name := key[1..] + "=";
    assert assignment == [key[0]] + (name + Quoted(v));
    assert assignment[1..] == name + Quoted(v);
    PlainAppends(key[1..], Some([key[0]]));
    PlainReads(name, Quoted(v), words, [key[0]]);
    assert [key[0]] + name == key + "=";
    QuotedReads(v, words, key + "=");
  }

  lemma QuotedReads(v: string, words: seq<string>, w: string)
    ensures Outside(Quoted(v), words, Some(w)) == Some(words + [w + v])
  {
    var q := Quoted(v);
    assert q[1..] == Escaped(v) + [QUOTE] + "";
    EscapedReads(v, "", words, w);
  }

  function Total(words: seq<string>): nat {
    if words == [] then 0 else Total(words[..|words| - 1]) + |words[|words| - 1]|
  }

  function Held(cur: Partial): nat {
    match cur
    case None => 0
    case Some(w) => |w|
  }

  lemma TotalSnoc(words: seq<string>, w: string)
    ensures Total(words + [w]) == Total(words) + |w|
  {
    assert (words + [w])[..|words|] == words;
  }

  lemma EndedTotal(words: seq<string>, cur: Partial)
    ensures Total(Ended(words, cur)) == Total(words) + Held(cur)
  {
    if cur.Some? {
      TotalSnoc(words, cur.value);
    }
  }

  /** Reading, if it succeeds, leaves at most n characters in words. */
  predicate AtMost(r: Option<seq<string>>, n: int) {
    r.Some? ==> Total(r.value) <= n
  }

  lemma QuotedAtMost(v: string, words: seq<string>, cur: Partial)
    ensures AtMost(Outside(Quoted(v), words, cur), Total(words) + Held(cur) + |v|)
  {
    hide Outside, Quoted;
    var w := if cur.None? then "" else cur.value;
    assert Outside(Quoted(v), words, cur) == Outside(Quoted(v), words, Some(w)) by { QuoteOpens(v, words, cur); }
    QuotedReads(v, words, w);
    TotalSnoc(words, w + v);
  }

  lemma QuoteOpens(v: string, words: seq<string>, cur: Partial)
    ensures Outside(Quoted(v), words, cur) == Outside(Quoted(v), words, Some(if cur.None? then "" else cur.value))
  {
  }

  /** After a quote from a value, the rest of it is read inside. */
  lemma QuoteReads(v: string, words: seq<string>, w: string)
    ensures AtMost(Inside(Escaped(v) + [QUOTE], words, Some(w)), Total(words) + |w| + |v|)
  {
    assert Escaped(v) + [QUOTE] + "" == Escaped(v) + [QUOTE];
    EscapedReads(v, "", words, w);
    TotalSnoc(words, w + v);
  }

  lemma QuoteFirst(v: string, words: seq<string>, cur: Partial)
    requires v != "" && v[0] == QUOTE
    ensures AtMost(Outside(Escaped(v) + [QUOTE], words, cur), Total(words) + Held(cur) + |v|)
  {
    var s, tail := Escaped(v) + [QUOTE], Escaped(v[1..]) + [QUOTE];
    var w := if cur.None? then "" else cur.value;
    assert s == [QUOTE, BACKSLASH, QUOTE, QUOTE] + tail;
    var s1, s2, s3 := s[1..], s[2..], s[3..];
    assert s1[1..] == s2 && s2[1..] == s3 && s3[1..] == tail;
    assert Outside(s, words, cur) == Inside(s1, words, Some(w));
    assert Inside(s1, words, Some(w)) == Inside(s2, words, Some(w + [BACKSLASH]));
    assert Inside(s2, words, Some(w + [BACKSLASH])) == Outside(s3, words, Some(w + [BACKSLASH]));
    assert Outside(s3, words, Some(w + [BACKSLASH])) == Inside(tail, words, Some(w + [BACKSLASH]));
    QuoteReads(v[1..], words, w + [BACKSLASH]);
  }

  lemma BackslashQuote(v: string, words: seq<string>, cur: Partial)
    requires |v| > 1 && v[0] == BACKSLASH && v[1] == QUOTE
    ensures AtMost(Outside(Escaped(v) + [QUOTE], words, cur), Total(words) + Held(cur) + |v|)
  {
    var s, tail := Escaped(v) + [QUOTE], Escaped(v[2..]) + [QUOTE];
    var w := Add(cur, QUOTE).value;
    assert |w| == Held(cur) + 1;
    assert v[1..][1..] == v[2..];
    assert Escaped(v) == [BACKSLASH] + ([QUOTE, BACKSLASH, QUOTE, QUOTE] + Escaped(v[2..]));
    assert s == [BACKSLASH, QUOTE, BACKSLASH, QUOTE, QUOTE] + tail;
    var s2, s4 := s[2..], s[4..];
    assert s2[2..] == s4 && s4[1..] == tail;
    assert Outside(s, words, cur) == Outside(s2, words, Some(w));
    assert Outside(s2, words, Some(w)) == Outside(s4, words, Some(w + [QUOTE]));
    assert Outside(s4, words, Some(w + [QUOTE])) == Inside(tail, words, Some(w + [QUOTE]));
    QuoteReads(v[2..], words, w + [QUOTE]);
  }

  /** Read from outside, as when a quote of the key is still open, an escaped value gives no more characters than the value has. */
  lemma {:induction false} EscapedAtMost(v: string, words: seq<string>, cur: Partial)
    ensures AtMost(Outside(Escaped(v) + [QUOTE], words, cur), Total(words) + Held(cur) + |v|)
    decreases |v|
  {
    hide Inside;
    var s := Escaped(v) + [QUOTE];
    if v == "" {
      assert Inside("", words, if cur.None? then Some("") else cur) == None by { NothingInside(words, if cur.None? then Some("") else cur); }
      assert s[1..] == "";
    } else if v[0] == QUOTE {
      QuoteFirst(v, words, cur);
    } else {
      assert s == [v[0]] + (Escaped(v[1..]) + [QUOTE]) && s[1..] == Escaped(v[1..]) + [QUOTE];
      if v[0] == ' ' {
        EscapedAtMost(v[1..], Ended(words, cur), None);
        EndedTotal(words, cur);
      } else if v[0] == BACKSLASH {
        BackslashAtMost(v, words, cur);
      } else {
        EscapedAtMost(v[1..], words, Add(cur, v[0]));
      }
    }
  }

  lemma NothingInside(words: seq<string>, cur: Partial)
    ensures Inside("", words, cur) == None
  {
  }

  lemma NothingOutside(words: seq<string>, cur: Partial)
    ensures Outside("", words, cur) == Some(Ended(words, cur))
  {
  }

  lemma BackslashReads(s: string, words: seq<string>, cur: Partial)
    requires |s| > 1 && s[0] == BACKSLASH
    ensures Outside(s, words, cur) == Outside(s[2..], words, if s[1] == '\n' then cur else Add(cur, s[1]))
  {
    hide Inside, Means;
  }

  lemma EscapedLast(v: string)
    requires |v| == 1 && v[0] == BACKSLASH
    ensures Escaped(v) + [QUOTE] == [BACKSLASH, QUOTE]
  {
    assert v[1..] == "";
  }

  lemma EscapedTwo(v: string)
    requires |v| > 1 && v[0] != QUOTE && v[1] != QUOTE
    ensures Escaped(v) + [QUOTE] == [v[0], v[1]] + (Escaped(v[2..]) + [QUOTE])
  {
    assert v[1..][1..] == v[2..];
  }

  lemma {:induction false} BackslashAtMost(v: string, words: seq<string>, cur: Partial)
    requires v != "" && v[0] == BACKSLASH
    ensures AtMost(Outside(Escaped(v) + [QUOTE], words, cur), Total(words) + Held(cur) + |v|)
    decreases |v|, 0
  {
    hide Inside, Outside, Total, Escaped;
    var s := Escaped(v) + [QUOTE];
    if |v| == 1 {
      EscapedLast(v);
      BackslashReads(s, words, cur);
      assert s[2..] == "";
      NothingOutside(words, Add(cur, QUOTE));
      EndedTotal(words, Add(cur, QUOTE));
    } else if v[1] == QUOTE {
      BackslashQuote(v, words, cur);
    } else {
      EscapedTwo(v);
      BackslashReads(s, words, cur);
      assert s[2..] == Escaped(v[2..]) + [QUOTE];
      EscapedAtMost(v[2..], words, if v[1] == '\n' then cur else Add(cur, v[1]));
    }
  }

  /**
    A character of a key that does not mean itself is lost: whatever the key,
    and whether or not one of its quotes is open, what is read is no longer
    than what was printed, and shorter if such a character is met outside quotes.
  */
  lemma {:induction false} KeyAtMost(key: string, v: string, words: seq<string>, cur: Partial, inside: bool)
    ensures var s := key + "=" + Quoted(v);
            var n := Total(words) + Held(cur) + |key| + 1 + |v|;
            if inside then AtMost(Inside(s, words, cur), n)
            else AtMost(Outside(s, words, cur), if PlainFrom(key, cur) then n else n - 1)
    decreases |key|
  {
    hide Quoted, Total;
    var s := key + "=" + Quoted(v);
    if key == "" {
      KeyDone(v, words, cur, inside);
      assert s == "=" + Quoted(v);
    } else {
      assert s[1..] == key[1..] + "=" + Quoted(v);
      if inside {
        if key[0] == QUOTE {
          KeyAtMost(key[1..], v, words, cur, false);
        } else {
          KeyAtMost(key[1..], v, words, Add(cur, key[0]), true);
        }
      } else if key[0] == ' ' {
        KeyAtMost(key[1..], v, Ended(words, cur), None, false);
        EndedTotal(words, cur);
      } else if key[0] == QUOTE {
        KeyAtMost(key[1..], v, words, if cur.None? then Some("") else cur, true);
      } else if key[0] == BACKSLASH {
        if |key| == 1 {
          assert s[1] == '=' && s[2..] == Quoted(v);
          QuotedAtMost(v, words, Add(cur, '='));
        } else {
          assert s[1] == key[1] && s[2..] == key[2..] + "=" + Quoted(v);
          KeyAtMost(key[2..], v, words, if key[1] == '\n' then cur else Add(cur, key[1]), false);
        }
      } else if Means(key[0], cur) {
        KeyAtMost(key[1..], v, words, Add(cur, key[0]), false);
      }
    }
  }

  lemma KeyDone(v: string, words: seq<string>, cur: Partial, inside: bool)
    ensures var s := "=" + Quoted(v);
            var n := Total(words) + Held(cur) + 1 + |v|;
            if inside then AtMost(Inside(s, words, cur), n) else AtMost(Outside(s, words, cur), n)
  {
    hide Total;
    var s := "=" + Quoted(v);
    assert s[1..] == Quoted(v);
    if inside {
      var q := Quoted(v);
      assert q[1..] == Escaped(v) + [QUOTE];
      EscapedAtMost(v, words, Add(cur, '='));
    } else {
      QuotedAtMost(v, words, Add(cur, '='));
    }
  }

  /** A printed key is read as it stands exactly when each of its characters means itself there. */
  lemma UnquotedKeyIff(key: string, v: string)
    ensures Outside(key + "=" + Quoted(v), [EXPORT], None) == Some([EXPORT, key + "=" + v])
       <==> forall i :: 0 <= i < |key| ==> PlainAt(key, i)
  {
    hide Outside, Inside, Escaped, Quoted, PlainAt;
    assert [EXPORT] + [key + "=" + v] == [EXPORT, key + "=" + v];
    PlainKeyIff(key);
    if PlainFrom(key, None) {
      if key == "" {
        EmptyKeyReads(v);
      } else {
        AssignmentReads(key, v, [EXPORT]);
      }
    } else {
      KeyAtMost(key, v, [EXPORT], None, false);
      TotalSnoc([EXPORT], key + "=" + v);
    }
  }

  lemma EmptyKeyReads(v: string)
    ensures Outside("" + "=" + Quoted(v), [EXPORT], None) == Some([EXPORT] + ["" + "=" + v])
  {
    assert ("" + "=" + Quoted(v))[1..] == Quoted(v);
    QuotedReads(v, [EXPORT], "=");
    assert "" + "=" + v == "=" + v;
  }

  lemma ExportWordReads(rest: string)
    ensures Outside(EXPORT + " " + rest, [], None) == Outside(rest, [EXPORT], None)
  {
    hide Inside;
    var line := EXPORT + " " + rest;
    assert line == ['e'] + ("xport" + (" " + rest));
    assert line[1..] == "xport" + (" " + rest);
    LettersArePlain("xport", "e");
    PlainReads("xport", " " + rest, [], "e");
    assert "e" + "xport" == EXPORT;
    assert (" " + rest)[1..] == rest;
    assert Ended([], Some(EXPORT)) == [EXPORT];
  }

  /**
    A line of the export reads as two words, `export` and the whole assignment,
    exactly when each character of the key means itself where it stands: the
    value is quoted, whatever it holds, and the key is not.
  */
  lemma ExportReadsBackIff(key: string, v: string)
    ensures Words(ExportLine(key, v)) == Some([EXPORT, key + "=" + v]) <==> forall i :: 0 <= i < |key| ==> PlainAt(key, i)
  {
    hide Outside, Inside, Escaped, Quoted, PlainAt;
    assert ExportLine(key, v) == EXPORT + " " + (key + "=" + Quoted(v));
    ExportWordReads(key + "=" + Quoted(v));
    UnquotedKeyIff(key, v);
  }

  /** Different values are quoted differently. */
  lemma QuotedIsInjective(a: string, b: string)
    requires Quoted(a) == Quoted(b)
    ensures a == b
  {
    QuotedReadsBack(a);
    QuotedReadsBack(b);
  }
}
