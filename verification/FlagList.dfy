/**
  Repeated and comma-joined flag values, flattened into one list.
*/
module FlagList {
  import opened Text

  const COMMA := ','

  /** The trimmed parts that are not empty. */
  function Kept(parts: seq<string>): seq<string> {
    if parts == [] then []
    else Kept(parts[..|parts| - 1]) + if Trim(parts[|parts| - 1]) == "" then [] else [Trim(parts[|parts| - 1])]
  }

  function Flattened(values: seq<string>): seq<string> {
    if values == [] then [] else Flattened(values[..|values| - 1]) + Kept(Split(values[|values| - 1], COMMA))
  }

  method SplitCommaFlags(values: seq<string>) returns (out: seq<string>)
    ensures out == Flattened(values)
  {
    out := [];
    var i := 0;
    while i < |values|
      invariant 0 <= i <= |values|
      invariant out == Flattened(values[..i])
    {
      assert values[..i + 1][..i] == values[..i];
      var parts := Split(values[i], COMMA);
      ghost var before := out;
      var j := 0;
      while j < |parts|
        invariant 0 <= j <= |parts|
        invariant out == before + Kept(parts[..j])
      {
        assert parts[..j + 1][..j] == parts[..j];
        var p := Trim(parts[j]);
        if p != "" {
          out := out + [p];
        }
        j := j + 1;
      }
      assert parts[..j] == parts;
      i := i + 1;
    }
    assert values[..i] == values;
  }

  lemma {:induction false} KeptAppends(a: seq<string>, b: seq<string>)
    ensures Kept(a + b) == Kept(a) + Kept(b)
  {
    if b == [] {
      assert a + b == a;
    } else {
      assert (a + b)[..|a + b| - 1] == a + b[..|b| - 1];
      KeptAppends(a, b[..|b| - 1]);
    }
  }

  lemma {:induction false} FlattenedAppends(a: seq<string>, b: seq<string>)
    ensures Flattened(a + b) == Flattened(a) + Flattened(b)
  {
    if b == [] {
      assert a + b == a;
    } else {
      assert (a + b)[..|a + b| - 1] == a + b[..|b| - 1];
      FlattenedAppends(a, b[..|b| - 1]);
    }
  }

  lemma FlattenedOne(value: string)
    ensures Flattened([value]) == Kept(Split(value, COMMA))
  {
    assert [value][..0] == [];
  }

  /** Repeating a flag and joining its values with commas mean the same. */
  lemma {:induction false} RepeatedIsJoined(values: seq<string>)
    ensures Flattened(values) == Flattened([Join(values, COMMA)])
  {
    if values == [] {
      FlattenedOne("");
      assert Split("", COMMA) == [""];
      assert Kept([""]) == [] by {
        assert [""][..0] == [];
      }
    } else {
      var first, rest := values[0], values[1..];
      assert values == [first] + rest;
      FlattenedAppends([first], rest);
      FlattenedOne(first);
      FlattenedOne(Join(values, COMMA));
      if rest != [] {
        RepeatedIsJoined(rest);
        FlattenedOne(Join(rest, COMMA));
        SplitAt(first, Join(rest, COMMA), COMMA);
        KeptAppends(Split(first, COMMA), Split(Join(rest, COMMA), COMMA));
      }
    }
  }

  /** A value no flattening changes: not empty, trimmed, and without a comma. */
  predicate Plain(value: string) {
    value != "" && Trim(value) == value && Without(value, COMMA)
  }

  lemma {:induction false} KeptArePlain(parts: seq<string>)
    requires forall i :: 0 <= i < |parts| ==> Without(parts[i], COMMA)
    ensures forall i :: 0 <= i < |Kept(parts)| ==> Plain(Kept(parts)[i])
  {
    if parts != [] {
      KeptArePlain(parts[..|parts| - 1]);
      Trimmed(parts[|parts| - 1]);
      TrimWithout(parts[|parts| - 1], COMMA);
    }
  }

  lemma {:induction false} FlattenedArePlain(values: seq<string>)
    ensures forall i :: 0 <= i < |Flattened(values)| ==> Plain(Flattened(values)[i])
  {
    if values != [] {
      FlattenedArePlain(values[..|values| - 1]);
      SplitParts(values[|values| - 1], COMMA);
      KeptArePlain(Split(values[|values| - 1], COMMA));
    }
  }

  lemma {:induction false} PlainStays(values: seq<string>)
    requires forall i :: 0 <= i < |values| ==> Plain(values[i])
    ensures Flattened(values) == values
  {
    if values != [] {
      var n := |values| - 1;
      PlainStays(values[..n]);
      SplitPlain(values[n], COMMA);
      assert [values[n]][..0] == [];
      assert Kept([values[n]]) == [values[n]];
      assert values == values[..n] + [values[n]];
    }
  }

  /** A flattened list is one that flattening leaves alone, and the only kind there is. */
  lemma FlattenedIff(values: seq<string>)
    ensures Flattened(Flattened(values)) == Flattened(values)
    ensures Flattened(values) == values <==> forall i :: 0 <= i < |values| ==> Plain(values[i])
  {
    FlattenedArePlain(values);
    PlainStays(Flattened(values));
    if forall i :: 0 <= i < |values| ==> Plain(values[i]) {
      PlainStays(values);
    }
  }
}
