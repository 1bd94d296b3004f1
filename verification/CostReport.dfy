/**
  The cost report by identity: ledger entries since a date, grouped, summed and
  sorted.  Money is an exact number here.
*/
module CostReport {
  import opened Text

  datatype Sums = Sums(input: int, output: int, thinking: int, usd: real, count: nat) {
    function Plus(o: Sums): Sums {
      Sums(input + o.input, output + o.output, thinking + o.thinking, usd + o.usd, count + o.count)
    }
  }

  const ZERO := Sums(0, 0, 0, 0.0, 0)

  datatype Entry = Entry(at: int, identity: string, input: int, output: int, thinking: int, usd: real) {
    function Spent(): Sums {
      Sums(input, output, thinking, usd, 1)
    }

    /** Who the row is filed under; entries without an identity are kept apart. */
    function Key(): string {
      if identity == "" then UNATTRIBUTED else identity
    }
  }

  const UNATTRIBUTED := "(unattributed)"

  datatype Row = Row(identity: string, sums: Sums)

  function Total(entries: seq<Entry>): Sums {
    if entries == [] then ZERO else Total(entries[..|entries| - 1]).Plus(entries[|entries| - 1].Spent())
  }

  function SumFor(entries: seq<Entry>, key: string): Sums {
    if entries == [] then ZERO
    else
      var rest := SumFor(entries[..|entries| - 1], key);
      if entries[|entries| - 1].Key() == key then rest.Plus(entries[|entries| - 1].Spent()) else rest
  }

  predicate HasKey(entries: seq<Entry>, key: string) {
    exists i :: 0 <= i < |entries| && entries[i].Key() == key
  }

  /** Biggest spender first, then by name. */
  predicate Above(a: Row, b: Row) {
    a.sums.usd > b.sums.usd || (a.sums.usd == b.sums.usd && Before(a.identity, b.identity))
  }

  predicate Sorted(rows: seq<Row>) {
    forall i, j :: 0 <= i < j < |rows| ==> Above(rows[i], rows[j])
  }

  /** The report of a ledger: one row for each identity in it, with its sums, in order. */
  ghost predicate IsReport(rows: seq<Row>, entries: seq<Entry>) {
    && Sorted(rows)
    && forall r :: r in rows <==> HasKey(entries, r.identity) && r.sums == SumFor(entries, r.identity)
  }

  // ------------------------------------------------------------- as it runs

  function Since(entries: seq<Entry>, since: int): seq<Entry> {
    if entries == [] then []
    else Since(entries[..|entries| - 1], since) + if entries[|entries| - 1].at < since then [] else [entries[|entries| - 1]]
  }

  lemma {:induction false} SinceIsShorter(entries: seq<Entry>, since: int)
    ensures |Since(entries, since)| <= |entries|
  {
    if entries != [] {
      SinceIsShorter(entries[..|entries| - 1], since);
    }
  }

  /** The date filter, in place: the entries kept move to the front of the array they are read from. */
  method FilterSince(a: array<Entry>, since: int) returns (n: nat)
    modifies a
    ensures n <= a.Length && a[..n] == Since(old(a[..]), since)
  {
    n := 0;
    var i := 0;
    ghost var all := a[..];
    while i < a.Length
      invariant 0 <= n <= i <= a.Length
      invariant a[..n] == Since(all[..i], since)
      invariant forall k :: i <= k < a.Length ==> a[k] == all[k]
    {
      assert all[..i + 1][..i] == all[..i];
      var e := a[i];
      if !(e.at < since) {
        a[n] := e;
        n := n + 1;
        assert a[..n] == Since(all[..i], since) + [e];
      }
      i := i + 1;
    }
    assert all[..i] == all;
  }

  method AggregateByIdentity(entries: seq<Entry>) returns (rows: seq<Row>)
    ensures IsReport(rows, entries)
  {
    var sums := Group(entries);
    var rest := sums.Keys;
    rows := [];
    while rest != {}
      invariant rest <= sums.Keys
      invariant Sorted(rows)
      invariant forall r :: r in rows ==> r.identity in sums && r.identity !in rest && r.sums == sums[r.identity]
      invariant forall k :: k in sums && k !in rest ==> Row(k, sums[k]) in rows
      invariant forall i, k :: 0 <= i < |rows| && k in rest ==> Above(rows[i], Row(k, sums[k]))
      decreases rest
    {
      var top := Top(sums, rest);
      rows := rows + [Row(top, sums[top])];
      rest := rest - {top};
    }
  }

  /** The first loop: sums by key, created when a key is first met. */
  method Group(entries: seq<Entry>) returns (sums: map<string, Sums>)
    ensures forall k :: k in sums <==> HasKey(entries, k)
    ensures forall k :: k in sums ==> sums[k] == SumFor(entries, k)
  {
    hide SumFor, HasKey;
    sums := map[];
    NothingYet();
    assert entries[..0] == [];
    var i := 0;
    while i < |entries|
      invariant 0 <= i <= |entries|
      invariant forall k :: k in sums <==> HasKey(entries[..i], k)
      invariant forall k :: k in sums ==> sums[k] == SumFor(entries[..i], k)
    {
      var key := entries[i].Key();
      var r := if key in sums then sums[key] else ZERO;
      KeysGrow(entries, i);
      if key !in sums {
        NoKeyNoSum(entries[..i], key);
      }
      sums := sums[key := r.Plus(entries[i].Spent())];
      i := i + 1;
    }
    assert entries[..i] == entries;
  }

  lemma NothingYet()
    ensures forall k :: !HasKey([], k)
  {
  }

  lemma KeysGrow(entries: seq<Entry>, i: nat)
    requires i < |entries|
    ensures forall k :: HasKey(entries[..i + 1], k) <==> HasKey(entries[..i], k) || k == entries[i].Key()
    ensures forall k :: SumFor(entries[..i + 1], k)
                     == if entries[i].Key() == k then SumFor(entries[..i], k).Plus(entries[i].Spent()) else SumFor(entries[..i], k)
  {
    var more, less := entries[..i + 1], entries[..i];
    assert more[..i] == less && more[i] == entries[i];
    forall k ensures HasKey(more, k) <==> HasKey(less, k) || k == entries[i].Key() {
      if HasKey(less, k) {
        var x :| 0 <= x < |less| && less[x].Key() == k;
        assert more[x].Key() == k;
      }
      if HasKey(more, k) {
        var x :| 0 <= x < |more| && more[x].Key() == k;
        assert x < i ==> less[x].Key() == k;
      }
      assert more[i].Key() == entries[i].Key();
    }
  }

  lemma {:induction false} NoKeyNoSum(entries: seq<Entry>, key: string)
    requires !HasKey(entries, key)
    ensures SumFor(entries, key) == ZERO
  {
    if entries != [] {
      var n := |entries| - 1;
      assert entries[..n + 1] == entries;
      KeysGrow(entries, n);
      NoKeyNoSum(entries[..n], key);
    }
  }

  lemma AboveTotal(a: Row, b: Row)
    ensures a.identity != b.identity ==> Above(a, b) || Above(b, a)
    ensures !(Above(a, b) && Above(b, a)) && !Above(a, a)
  {
    BeforeTotal(a.identity, b.identity);
    BeforeTotal(a.identity, a.identity);
  }

  lemma AboveTransitive(a: Row, b: Row, c: Row)
    requires Above(a, b) && Above(b, c)
    ensures Above(a, c)
  {
    if a.sums.usd == b.sums.usd == c.sums.usd {
      BeforeTransitive(a.identity, b.identity, c.identity);
    }
  }

  method Top(sums: map<string, Sums>, keys: set<string>) returns (top: string)
    requires keys != {} && keys <= sums.Keys
    ensures top in keys && forall k :: k in keys && k != top ==> Above(Row(top, sums[top]), Row(k, sums[k]))
  {
    top :| top in keys;
    var rest := keys - {top};
    while rest != {}
      invariant rest <= keys && top in keys && top !in rest
      invariant forall k :: k in keys && k !in rest && k != top ==> Above(Row(top, sums[top]), Row(k, sums[k]))
      decreases rest
    {
      var k :| k in rest;
      AboveTotal(Row(k, sums[k]), Row(top, sums[top]));
      if Above(Row(k, sums[k]), Row(top, sums[top])) {
        forall x | x in keys && x !in rest && x != top ensures Above(Row(k, sums[k]), Row(x, sums[x])) {
          AboveTransitive(Row(k, sums[k]), Row(top, sums[top]), Row(x, sums[x]));
        }
        rest := rest - {k};
        top := k;
      } else {
        rest := rest - {k};
      }
    }
  }

  // ------------------------------------------------------------ properties

  function RowTotal(rows: seq<Row>): Sums {
    if rows == [] then ZERO else RowTotal(rows[..|rows| - 1]).Plus(rows[|rows| - 1].sums)
  }

  /** The sums of some identities over a ledger. */
  function SumsOf(entries: seq<Entry>, keys: seq<string>): Sums {
    if keys == [] then ZERO else SumsOf(entries, keys[..|keys| - 1]).Plus(SumFor(entries, keys[|keys| - 1]))
  }

  predicate Distinct(keys: seq<string>) {
    forall i, j :: 0 <= i < j < |keys| ==> keys[i] != keys[j]
  }

  lemma {:induction false} OneMoreEntry(entries: seq<Entry>, keys: seq<string>)
    requires entries != [] && Distinct(keys)
    ensures var last := entries[|entries| - 1]; var before := SumsOf(entries[..|entries| - 1], keys);
            SumsOf(entries, keys) == if last.Key() in keys then before.Plus(last.Spent()) else before
  {
    if keys != [] {
      var n := |keys| - 1;
      OneMoreEntry(entries, keys[..n]);
      assert forall k :: k in keys <==> k in keys[..n] || k == keys[n];
      assert keys[n] !in keys[..n];
    }
  }

  lemma {:induction false} NothingSpent(keys: seq<string>)
    ensures SumsOf([], keys) == ZERO
  {
    hide SumFor;
    if keys != [] {
      NothingSpent(keys[..|keys| - 1]);
      NoEntryNoSum(keys[|keys| - 1]);
      PlusNothing(SumsOf([], keys[..|keys| - 1]), SumFor([], keys[|keys| - 1]));
    }
  }

  lemma NoEntryNoSum(key: string)
    ensures SumFor([], key) == ZERO
  {
  }

  lemma PlusNothing(a: Sums, b: Sums)
    requires b == ZERO
    ensures a.Plus(b) == a
  {
  }

  /** Identities that cover a ledger carry all of it. */
  lemma {:induction false} KeysCarryAll(entries: seq<Entry>, keys: seq<string>)
    requires Distinct(keys) && forall i :: 0 <= i < |entries| ==> entries[i].Key() in keys
    ensures SumsOf(entries, keys) == Total(entries)
  {
    if entries == [] {
      NothingSpent(keys);
    } else {
      var n := |entries| - 1;
      forall i | 0 <= i < n ensures entries[..n][i].Key() in keys {
        assert entries[i].Key() in keys;
      }
      KeysCarryAll(entries[..n], keys);
      OneMoreEntry(entries, keys);
    }
  }

  function Identities(rows: seq<Row>): (keys: seq<string>)
    ensures |keys| == |rows| && forall i :: 0 <= i < |rows| ==> keys[i] == rows[i].identity
  {
    seq(|rows|, i requires 0 <= i < |rows| => rows[i].identity)
  }

  lemma {:induction false} RowsAreSums(rows: seq<Row>, entries: seq<Entry>, n: nat)
    requires n <= |rows| && forall i :: 0 <= i < n ==> rows[i].sums == SumFor(entries, rows[i].identity)
    ensures RowTotal(rows[..n]) == SumsOf(entries, Identities(rows)[..n])
  {
    if n > 0 {
      RowsAreSums(rows, entries, n - 1);
      assert rows[..n][..n - 1] == rows[..n - 1] && Identities(rows)[..n][..n - 1] == Identities(rows)[..n - 1];
    }
  }

  lemma OneRowEach(rows: seq<Row>, entries: seq<Entry>)
    requires IsReport(rows, entries)
    ensures Distinct(Identities(rows))
  {
    forall i, j | 0 <= i < j < |rows| ensures rows[i].identity != rows[j].identity {
      assert rows[i] in rows && rows[j] in rows && Above(rows[i], rows[j]);
      AboveTotal(rows[i], rows[i]);
    }
  }

  /** Grouping conserves every token count, the spend and the number of runs, with one row for each identity. */
  lemma GroupingConserves(rows: seq<Row>, entries: seq<Entry>)
    requires IsReport(rows, entries)
    ensures RowTotal(rows) == Total(entries)
    ensures Distinct(Identities(rows))
  {
    hide SumFor, SumsOf, Total, RowTotal, Sorted;
    OneRowEach(rows, entries);
    var keys := Identities(rows);
    forall i | 0 <= i < |entries| ensures entries[i].Key() in keys {
      var r := Row(entries[i].Key(), SumFor(entries, entries[i].Key()));
      assert HasKey(entries, r.identity);
      assert r in rows;
      var x :| 0 <= x < |rows| && rows[x] == r;
      assert keys[x] == r.identity;
    }
    KeysCarryAll(entries, keys);
    forall i | 0 <= i < |rows| ensures rows[i].sums == SumFor(entries, rows[i].identity) {
      assert rows[i] in rows;
    }
    RowsAreSums(rows, entries, |rows|);
    assert rows[..|rows|] == rows && keys[..|rows|] == keys;
  }

  lemma {:induction false} SamePrefix(a: seq<Row>, b: seq<Row>, k: nat)
    requires Sorted(a) && Sorted(b) && k <= |a| && forall r :: r in a <==> r in b
    ensures k <= |b| && forall i :: 0 <= i < k ==> a[i] == b[i]
  {
    if k > 0 {
      SamePrefix(a, b, k - 1);
      assert a[k - 1] in b;
      var x :| 0 <= x < |b| && b[x] == a[k - 1];
      NotEarlier(a, b, k - 1, x);
      assert b[k - 1] in a;
      var y :| 0 <= y < |a| && a[y] == b[k - 1];
      NotEarlier(b, a, k - 1, y);
      AboveTotal(a[k - 1], b[k - 1]);
    }
  }

  /** A row past a shared prefix is not in it. */
  lemma NotEarlier(a: seq<Row>, b: seq<Row>, k: nat, x: nat)
    requires Sorted(a) && k < |a| && x < |b| && b[x] == a[k] && forall i :: 0 <= i < k && i < |b| ==> a[i] == b[i]
    ensures x >= k
  {
    AboveTotal(a[k], a[k]);
  }

  lemma SortedOnce(a: seq<Row>, b: seq<Row>)
    requires Sorted(a) && Sorted(b) && forall r :: r in a <==> r in b
    ensures a == b
  {
    SamePrefix(a, b, |a|);
    SamePrefix(b, a, |b|);
  }

  lemma {:induction false} SumIsOfTheBag(a: seq<Entry>, b: seq<Entry>, key: string)
    requires multiset(a) == multiset(b)
    ensures SumFor(a, key) == SumFor(b, key)
  {
    if a == [] {
      assert |b| == |multiset(b)| == 0;
    } else {
      var n := |a| - 1;
      var e := a[n];
      BagWithout(a, n);
      assert a[..n] + a[n + 1..] == a[..n];
      var x := PlaceOf(b, e);
      BagWithout(b, x);
      var rest := b[..x] + b[x + 1..];
      SumIsOfTheBag(a[..n], rest, key);
      SumWithout(b, x, key);
    }
  }

  lemma PlaceOf(b: seq<Entry>, e: Entry) returns (x: nat)
    requires multiset(b)[e] > 0
    ensures x < |b| && b[x] == e
  {
    assert e in b;
    x :| 0 <= x < |b| && b[x] == e;
  }

  lemma SumWithout(b: seq<Entry>, x: nat, key: string)
    requires x < |b|
    ensures var rest := SumFor(b[..x] + b[x + 1..], key);
            SumFor(b, key) == if b[x].Key() == key then rest.Plus(b[x].Spent()) else rest
  {
    hide SumFor;
    MovedToEnd(b[..x], b[x], b[x + 1..], key);
    assert b == b[..x] + [b[x]] + b[x + 1..];
    SumSnoc(b[..x] + b[x + 1..], b[x], key);
  }

  lemma SumSnoc(entries: seq<Entry>, e: Entry, key: string)
    ensures SumFor(entries + [e], key) == if e.Key() == key then SumFor(entries, key).Plus(e.Spent()) else SumFor(entries, key)
  {
    assert (entries + [e])[..|entries|] == entries;
  }

  lemma BagWithout(s: seq<Entry>, i: nat)
    requires i < |s|
    ensures multiset(s) == multiset(s[..i] + s[i + 1..]) + multiset{s[i]}
    ensures multiset(s) - multiset{s[i]} == multiset(s[..i] + s[i + 1..])
  {
    assert s == s[..i] + [s[i]] + s[i + 1..];
  }

  lemma {:induction false} MovedToEnd(front: seq<Entry>, e: Entry, back: seq<Entry>, key: string)
    ensures SumFor(front + [e] + back, key) == SumFor(front + back + [e], key)
  {
    hide SumFor;
    if back == [] {
      assert front + [e] + back == front + back + [e];
    } else {
      var n := |back| - 1;
      var init, last := back[..n], back[n];
      assert front + [e] + back == front + [e] + init + [last];
      assert front + back == front + init + [last];
      SumSnoc(front + [e] + init, last, key);
      MovedToEnd(front, e, init, key);
      SumSnoc(front + init, e, key);
      SumSnoc(front + init, last, key);
      SumSnoc(front + back, e, key);
    }
  }

  lemma KeysAreOfTheBag(a: seq<Entry>, b: seq<Entry>, key: string)
    requires multiset(a) == multiset(b) && HasKey(a, key)
    ensures HasKey(b, key)
  {
    var x :| 0 <= x < |a| && a[x].Key() == key;
    assert a[x] in multiset(b);
    var y :| 0 <= y < |b| && b[y] == a[x];
    assert b[y].Key() == key;
  }

  /** The report depends only on which entries there are, not on their order. */
  lemma ReportIsOfTheBag(a: seq<Entry>, b: seq<Entry>, ra: seq<Row>, rb: seq<Row>)
    requires multiset(a) == multiset(b) && IsReport(ra, a) && IsReport(rb, b)
    ensures ra == rb
  {
    forall r ensures r in ra <==> r in rb {
      SumIsOfTheBag(a, b, r.identity);
      if HasKey(a, r.identity) {
        KeysAreOfTheBag(a, b, r.identity);
      }
      if HasKey(b, r.identity) {
        KeysAreOfTheBag(b, a, r.identity);
      }
    }
    SortedOnce(ra, rb);
  }

  /** What one more entry adds, column by column, and to whose row: its own or, without an identity, the unattributed one. */
  lemma EntryCounts(entries: seq<Entry>, e: Entry, key: string)
    ensures var before, after := SumFor(entries, key), SumFor(entries + [e], key);
            var mine := key == if e.identity == "" then "(unattributed)" else e.identity;
            if mine then
              && after.input == before.input + e.input && after.output == before.output + e.output
              && after.thinking == before.thinking + e.thinking && after.usd == before.usd + e.usd && after.count == before.count + 1
            else after == before
    ensures SumFor([], key) == Sums(0, 0, 0, 0.0, 0)
  {
    SumSnoc(entries, e, key);
  }

  /** The date filter keeps exactly the entries not before the date, in their order. */
  lemma {:induction false} SinceIs(entries: seq<Entry>, since: int, e: Entry)
    ensures e in Since(entries, since) <==> e in entries && e.at >= since
    ensures Since(entries + [e], since) == Since(entries, since) + if e.at >= since then [e] else []
  {
    assert (entries + [e])[..|entries|] == entries;
    if entries != [] {
      SinceIs(entries[..|entries| - 1], since, e);
    }
  }

  /** The rows of a report: the bigger spender first and, of two that spent the same, the one whose name comes first. */
  lemma BiggestFirst(rows: seq<Row>, entries: seq<Entry>, i: nat, j: nat)
    requires IsReport(rows, entries) && i < j < |rows|
    ensures rows[i].sums.usd >= rows[j].sums.usd
    ensures rows[i].sums.usd == rows[j].sums.usd ==> Before(rows[i].identity, rows[j].identity)
  {
  }
}
