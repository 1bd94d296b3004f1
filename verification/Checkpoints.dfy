/**
  Named checkpoints of a project's state: the names they are filed under, and
  saving, restoring, listing and deleting them.
*/
module Checkpoints {
  import opened Wrappers

  /**
    A name as a file name: separators and spaces become dashes and a pair of
    dots is dropped, in one pass from left to right.
  */
  function Sanitized(s: string): string
    decreases |s|
  {
    if s == "" then ""
    else if s[0] == '/' || s[0] == '\\' || s[0] == ' ' then ['-'] + Sanitized(s[1..])
    else if s[0] == '.' && |s| > 1 && s[1] == '.' then Sanitized(s[2..])
    else [s[0]] + Sanitized(s[1..])
  }

  /** A name that stays inside the checkpoint directory and that sanitizing leaves alone. */
  predicate Safe(s: string) {
    && (forall i :: 0 <= i < |s| ==> s[i] != '/' && s[i] != '\\' && s[i] != ' ')
    && forall i :: 0 <= i < |s| - 1 ==> !(s[i] == '.' && s[i + 1] == '.')
  }

  lemma {:induction false} SafeIsKept(s: string)
    requires Safe(s)
    ensures Sanitized(s) == s
    decreases |s|
  {
    if s != "" {
      assert Safe(s[1..]) by {
        assert forall i :: 0 <= i < |s[1..]| ==> s[1..][i] == s[i + 1];
      }
      SafeIsKept(s[1..]);
      assert s == [s[0]] + s[1..];
    }
  }

  lemma {:induction false} SanitizedIsSafe(s: string)
    ensures Safe(Sanitized(s))
    ensures s != "" && s[0] != '.' && Sanitized(s) != "" ==> Sanitized(s)[0] != '.'
    decreases |s|
  {
    if s != "" {
      if s[0] == '.' && |s| > 1 && s[1] == '.' {
        SanitizedIsSafe(s[2..]);
      } else {
        SanitizedIsSafe(s[1..]);
        var rest := Sanitized(s[1..]);
        var r := Sanitized(s);
        assert r[1..] == rest;
        assert forall i :: 0 < i < |r| ==> r[i] == rest[i - 1];
        if |r| > 1 && r[0] == '.' {
          assert s[1..][0] == s[1] != '.';
        }
      }
    }
  }

  /** Sanitizing is idempotent, and leaves alone exactly the safe names. */
  lemma SanitizedIff(s: string)
    ensures Sanitized(Sanitized(s)) == Sanitized(s)
    ensures Sanitized(s) == s <==> Safe(s)
  {
    SanitizedIsSafe(s);
    SafeIsKept(Sanitized(s));
    if Safe(s) {
      SafeIsKept(s);
    }
  }

  predicate NoTwoDots(s: string) {
    forall i :: 0 <= i < |s| - 1 ==> !(s[i] == '.' && s[i + 1] == '.')
  }

  /** Without a pair of dots a name keeps its length, each separator and space a dash and every other character itself. */
  lemma {:induction false} SanitizedChars(s: string, i: nat)
    requires NoTwoDots(s) && i < |s|
    ensures |Sanitized(s)| == |s| && Sanitized(s)[i] == if s[i] in {'/', '\\', ' '} then '-' else s[i]
    decreases |s|
  {
    assert NoTwoDots(s[1..]) by {
      assert forall j :: 0 <= j < |s[1..]| ==> s[1..][j] == s[j + 1];
    }
    if |s| > 1 {
      SanitizedChars(s[1..], if i == 0 then 0 else i - 1);
    }
  }

  /** The first pair of dots is dropped, and what follows it sanitized on its own. */
  lemma {:induction false} DotsAreDropped(a: string, b: string)
    requires NoTwoDots(a + ".")
    ensures Sanitized(a + ".." + b) == Sanitized(a) + Sanitized(b)
    decreases |a|
  {
    var s := a + ".." + b;
    if a == "" {
      assert s == ".." + b && s[2..] == b;
    } else {
      assert s[1..] == a[1..] + ".." + b;
      assert (a + ".")[1..] == a[1..] + ".";
      assert forall j :: 0 <= j < |a[1..] + "."| ==> (a[1..] + ".")[j] == (a + ".")[j + 1];
      assert forall j :: 0 <= j < |a| ==> s[j] == (a + ".")[j];
      assert s[1] == (a + ".")[1];
      DotsAreDropped(a[1..], b);
    }
  }

  // ------------------------------------------------------------ the store

  /** A document; reading one past the limit fails. */
  datatype Doc = Doc(content: string, size: nat)

  const LIMIT: nat := 67108864

  datatype Entry = Entry(doc: Doc, modified: int)

  /** The project's state file and the checkpoint directory. */
  datatype Disk = Disk(state: Option<Doc>, saved: map<string, Entry>)

  predicate Readable(d: Option<Doc>) {
    d.Some? && d.value.size <= LIMIT
  }

  const BACKUP := "pre-restore-"

  /** A time stamp as names carry it. */
  predicate Stamp(s: string) {
    forall i :: 0 <= i < |s| ==> '0' <= s[i] <= '9' || s[i] == '-'
  }

  function NameFor(arg: Option<string>, stamp: string): string {
    match arg
    case Some(name) => Sanitized(name)
    case None => stamp
  }

  function Saved(d: Disk, arg: Option<string>, stamp: string, at: int): Disk {
    if !Readable(d.state) then d else d.(saved := d.saved[NameFor(arg, stamp) := Entry(d.state.value, at)])
  }

  function Restorable(d: Disk, name: string): Option<Doc> {
    var file := Sanitized(name);
    if file in d.saved && d.saved[file].doc.size <= LIMIT then Some(d.saved[file].doc) else None
  }

  /** The checkpoint is read before the current state is backed up, so even a backup over it restores it. */
  function Restored(d: Disk, name: string, stamp: string, at: int): Disk {
    match Restorable(d, name)
    case None => d
    case Some(doc) =>
      var backed := if Readable(d.state) then d.(saved := d.saved[BACKUP + stamp := Entry(d.state.value, at)]) else d;
      backed.(state := Some(doc))
  }

  function Deleted(d: Disk, name: string): Disk {
    d.(saved := d.saved - {Sanitized(name)})
  }

  // -------------------------------------------------------- as commands do

  class Workdir {
    var state: Option<Doc>
    var saved: map<string, Entry>

    constructor (d: Disk)
      ensures Value() == d
    {
      state, saved := d.state, d.saved;
    }

    function Value(): Disk
      reads this
    {
      Disk(state, saved)
    }

    method Save(arg: Option<string>, stamp: string, at: int) returns (name: Option<string>)
      modifies this`saved
      ensures Value() == Saved(old(Value()), arg, stamp, at)
      ensures name == if Readable(state) then Some(NameFor(arg, stamp)) else None
    {
      if !Readable(state) {
        return None;
      }
      var file := stamp;
      if arg.Some? {
        file := Sanitized(arg.value);
      }
      saved := saved[file := Entry(state.value, at)];
      return Some(file);
    }

    method Restore(name: string, stamp: string, at: int) returns (found: bool)
      modifies this
      ensures Value() == Restored(old(Value()), name, stamp, at)
      ensures found <==> Restorable(old(Value()), name).Some?
    {
      var file := Sanitized(name);
      if file !in saved || saved[file].doc.size > LIMIT {
        return false;
      }
      var doc := saved[file].doc;
      if Readable(state) {
        saved := saved[BACKUP + stamp := Entry(state.value, at)];
      }
      state := Some(doc);
      return true;
    }

    method Delete(name: string) returns (found: bool)
      modifies this`saved
      ensures Value() == Deleted(old(Value()), name)
      ensures found <==> Sanitized(name) in old(saved)
    {
      var file := Sanitized(name);
      if file !in saved {
        return false;
      }
      saved := saved - {file};
      return true;
    }

    /** Every checkpoint once, newest first. */
    method List() returns (names: seq<string>)
      ensures forall n :: n in names <==> n in saved
      ensures forall i, j :: 0 <= i < j < |names| ==> names[i] != names[j]
      ensures forall i, j :: 0 <= i < j < |names| && names[i] in saved && names[j] in saved ==>
                saved[names[i]].modified >= saved[names[j]].modified
    {
      names := [];
      var rest := saved.Keys;
      while rest != {}
        invariant rest <= saved.Keys
        invariant forall n :: n in saved <==> n in rest || n in names
        invariant forall i, j :: 0 <= i < j < |names| ==> names[i] != names[j]
        invariant forall i, n :: 0 <= i < |names| && n in rest ==> names[i] != n
        invariant forall n :: n in names ==> n in saved
        invariant forall i, n :: 0 <= i < |names| && n in rest && names[i] in saved ==> saved[names[i]].modified >= saved[n].modified
        invariant forall i, j :: 0 <= i < j < |names| && names[i] in saved && names[j] in saved ==>
                    saved[names[i]].modified >= saved[names[j]].modified
        decreases rest
      {
        var newest := Newest(rest);
        names, rest := names + [newest], rest - {newest};
      }
    }

    method Newest(names: set<string>) returns (newest: string)
      requires names != {} && names <= saved.Keys
      ensures newest in names && forall n :: n in names ==> saved[newest].modified >= saved[n].modified
    {
      newest :| newest in names;
      var others := names - {newest};
      while others != {}
        invariant others <= names && newest in names
        invariant forall n :: n in names && n !in others ==> saved[newest].modified >= saved[n].modified
        decreases others
      {
        var n :| n in others;
        if saved[n].modified > saved[newest].modified {
          newest := n;
        }
        others := others - {n};
      }
    }
  }

  // ------------------------------------------------------------ properties

  /** Names are safe: what is saved, listed or backed up restores under its own name. */
  predicate NamesSafe(d: Disk) {
    forall n :: n in d.saved ==> Safe(n)
  }

  lemma StampIsSafe(stamp: string)
    requires Stamp(stamp)
    ensures Safe(stamp) && Safe(BACKUP + stamp)
  {
  }

  lemma StoreKeepsNamesSafe(d: Disk, arg: Option<string>, name: string, stamp: string, at: int)
    requires NamesSafe(d) && Stamp(stamp)
    ensures NamesSafe(Saved(d, arg, stamp, at)) && NamesSafe(Restored(d, name, stamp, at)) && NamesSafe(Deleted(d, name))
  {
    StampIsSafe(stamp);
    if arg.Some? {
      SanitizedIsSafe(arg.value);
    }
  }

  /** A listed name finds the very checkpoint it is listed for. */
  lemma ListedRestores(d: Disk, n: string, stamp: string, at: int)
    requires NamesSafe(d) && n in d.saved && d.saved[n].doc.size <= LIMIT
    ensures Restored(d, n, stamp, at).state == Some(d.saved[n].doc)
    ensures n !in Deleted(d, n).saved
  {
    SafeIsKept(n);
  }

  /** Whatever becomes of the state in between, restoring a saved checkpoint brings back what was saved. */
  lemma SaveThenRestore(d: Disk, name: string, stamp: string, at: int, now: Option<Doc>, stamp2: string, at2: int)
    requires Readable(d.state)
    ensures Restored(Saved(d, Some(name), stamp, at).(state := now), name, stamp2, at2).state == d.state
    ensures Restored(Saved(d, Some(name), stamp, at).(state := now), Sanitized(name), stamp2, at2).state == d.state
  {
    SanitizedIff(name);
  }

  /**
    A later save under another name leaves a checkpoint as it was saved exactly
    when the two names do not come out the same once sanitized, unless the state
    had not changed either; safe names never come out the same.
  */
  lemma LaterSaveKeepsIff(d: Disk, n: string, m: string, now: Doc, stamp: string, at: int, later: int)
    requires Readable(d.state) && Readable(Some(now))
    ensures var both := Saved(Saved(d, Some(n), stamp, at).(state := Some(now)), Some(m), stamp, later);
            Restored(both, n, stamp, later).state == d.state <==> Sanitized(n) != Sanitized(m) || Some(now) == d.state
    ensures Safe(n) && Safe(m) ==> (Sanitized(n) == Sanitized(m) <==> n == m)
  {
    SanitizedIff(n);
    SanitizedIff(m);
  }

  /** Two names that come out the same: a slash and a space both become a dash. */
  lemma NamesCollide()
    ensures Sanitized("a/b") == Sanitized("a b") == "a-b"
  {
    assert Sanitized("") == "" && Sanitized("b") == "b";
    assert "a/b"[1..] == "/b" && "/b"[1..] == "b" && "a b"[1..] == " b" && " b"[1..] == "b";
  }

  /**
    Restoring the automatic backup undoes a restore — with any two stamps, and
    even when the backup overwrote the checkpoint restored — exactly when the
    state there was could be read.
  */
  lemma BackupUndoesIff(d: Disk, name: string, stamp: string, at: int, stamp2: string, at2: int)
    requires Restorable(d, name).Some? && Stamp(stamp)
    ensures Restored(Restored(d, name, stamp, at), BACKUP + stamp, stamp2, at2).state == d.state <==> Readable(d.state)
  {
    StampIsSafe(stamp);
    SafeIsKept(BACKUP + stamp);
  }

  /** What a command leaves of the other checkpoints: a delete takes one name out, a save and a restore write one, and all the rest stay. */
  lemma OthersStay(d: Disk, name: string, stamp: string, at: int, n: string)
    ensures n in Deleted(d, name).saved <==> n in d.saved && n != Sanitized(name)
    ensures n in Deleted(d, name).saved ==> Deleted(d, name).saved[n] == d.saved[n]
    ensures Deleted(d, name).state == d.state && Saved(d, Some(name), stamp, at).state == d.state
    ensures n != Sanitized(name) && n in d.saved ==>
              n in Saved(d, Some(name), stamp, at).saved && Saved(d, Some(name), stamp, at).saved[n] == d.saved[n]
    ensures n != "pre-restore-" + stamp && n in d.saved ==>
              n in Restored(d, name, stamp, at).saved && Restored(d, name, stamp, at).saved[n] == d.saved[n]
    ensures n in Restored(d, name, stamp, at).saved ==> n in d.saved || n == "pre-restore-" + stamp
    ensures n in Saved(d, Some(name), stamp, at).saved ==> n in d.saved || n == Sanitized(name)
  {
  }
}
