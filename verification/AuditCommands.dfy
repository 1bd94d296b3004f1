/**
  The audit trail's operations as they run: append, plan, seal and cut against
  the table and its anchors, the verifying walk, and the verdicts the commands
  exit with.
*/
module AuditCommands {
  import opened Wrappers
  import opened AuditLog

  datatype Status = Intact | Gaps | Broken

  const EXIT_INTACT := 0
  const EXIT_BROKEN := 2
  const EXIT_GAPS := 3

  /** What the walk found: where it broke, if it did, and the recorded gaps it passed. */
  datatype Report = Report(breakAt: Option<nat>, total: nat, gaps: nat, lost: nat, verifiedFrom: nat) {
    function Status(): Status {
      if breakAt.Some? then Broken else if gaps > 0 then Gaps else Intact
    }
  }

  function GapRows(rows: seq<Row>): nat {
    if rows == [] then 0 else GapRows(rows[..|rows| - 1]) + if rows[|rows| - 1].event.gap.Some? then 1 else 0
  }

  function LostEvents(rows: seq<Row>): nat {
    if rows == [] then 0
    else LostEvents(rows[..|rows| - 1]) + match rows[|rows| - 1].event.gap case Some(n) => n case None => 0
  }

  /** The counts add up over stretches of the table; one row is a gap if it records one, of so many events. */
  lemma {:induction false} GapsAdd(a: seq<Row>, b: seq<Row>)
    ensures GapRows(a + b) == GapRows(a) + GapRows(b) && LostEvents(a + b) == LostEvents(a) + LostEvents(b)
  {
    if b == [] {
      assert a + b == a;
    } else {
      assert (a + b)[..|a + b| - 1] == a + b[..|b| - 1];
      GapsAdd(a, b[..|b| - 1]);
    }
  }

  lemma GapOfOne(r: Row)
    ensures GapRows([r]) == (if r.event.gap.Some? then 1 else 0) && LostEvents([r]) == (if r.event.gap.Some? then r.event.gap.value else 0)
  {
    assert [r][..0] == [];
  }

  /** One exit code for several chains: broken beats gaps, and gaps pass when they are allowed. */
  method VerifyExit(statuses: seq<Status>, allowGaps: bool) returns (code: int)
    ensures code == EXIT_BROKEN <==> Broken in statuses
    ensures code == EXIT_GAPS <==> Broken !in statuses && Gaps in statuses && !allowGaps
    ensures code == EXIT_INTACT || code == EXIT_BROKEN || code == EXIT_GAPS
  {
    code := EXIT_INTACT;
    var i := 0;
    while i < |statuses|
      invariant 0 <= i <= |statuses|
      invariant Broken !in statuses[..i]
      invariant code == if Gaps in statuses[..i] && !allowGaps then EXIT_GAPS else EXIT_INTACT
    {
      assert statuses[..i + 1] == statuses[..i] + [statuses[i]];
      match statuses[i] {
        case Broken => return EXIT_BROKEN;
        case Gaps => if !allowGaps { code := EXIT_GAPS; }
        case Intact =>
      }
      i := i + 1;
    }
    assert statuses[..i] == statuses;
  }

  /** The slowest sink a prune must wait for: the smallest cursor, none when there is no cursor. */
  method RetentionHold(cursors: map<nat, nat>) returns (hold: Option<nat>)
    ensures hold.None? <==> cursors == map[]
    ensures hold.Some? ==> (exists s :: s in cursors && cursors[s] == hold.value) && forall s :: s in cursors ==> hold.value <= cursors[s]
  {
    hold := None;
    var rest := cursors.Keys;
    while rest != {}
      invariant rest <= cursors.Keys
      invariant hold.None? <==> rest == cursors.Keys
      invariant hold.Some? ==> exists s :: s in cursors && cursors[s] == hold.value
      invariant forall s :: s in cursors && s !in rest ==> hold.Some? && hold.value <= cursors[s]
      decreases rest
    {
      var s :| s in rest;
      if hold.None? || cursors[s] < hold.value {
        hold := Some(cursors[s]);
      }
      rest := rest - {s};
    }
  }

  /** Whether two of the requested chains are one database under two names. */
  method OneDatabase(requested: seq<(nat, string)>) returns (one: bool)
    ensures one <==> exists i, j :: 0 <= i < j < |requested| && requested[i].1 == requested[j].1 && requested[i].0 != requested[j].0
  {
    var seen: map<string, nat> := map[];
    var k := 0;
    while k < |requested|
      invariant 0 <= k <= |requested|
      invariant forall i :: 0 <= i < k ==> requested[i].1 in seen && seen[requested[i].1] == requested[i].0
      invariant forall p :: p in seen ==> exists i :: 0 <= i < k && requested[i].1 == p && requested[i].0 == seen[p]
    {
      var source, path := requested[k].0, requested[k].1;
      if path in seen && seen[path] != source {
        return true;
      }
      seen := seen[path := source];
      k := k + 1;
    }
    return false;
  }

  class AuditTrail {
    var rows: seq<Row>
    var anchors: seq<Anchor>
    var jobs: map<nat, Job>

    constructor ()
      ensures Value() == EMPTY.trail
    {
      rows, anchors, jobs := [], [], map[];
    }

    function Value(): Trail
      reads this
    {
      Trail(rows, anchors, jobs)
    }

    /** Appends a batch: the tip is read once, then carried from row to row. */
    method AppendAll(events: seq<Event>)
      modifies this`rows
      ensures Value() == AppendedAll(old(Value()), events)
    {
      var tip := Tip(Value());
      var next, prev := tip.0, tip.1;
      var i := 0;
      while i < |events|
        invariant 0 <= i <= |events|
        invariant Value() == AppendedAll(old(Value()), events[..i])
        invariant (next, prev) == Tip(Value())
      {
        assert events[..i + 1][..i] == events[..i];
        var row := Sealed(next, prev, events[i]);
        rows := rows + [row];
        next, prev := next + 1, row.hash;
        i := i + 1;
      }
      assert events[..i] == events;
    }

    /** The longest prefix that ends in a row older than the cutoff and within the limit. */
    method PlanThrough(cutoff: int, limit: Option<nat>) returns (k: nat)
      ensures k == OldPrefix(rows, cutoff, limit)
    {
      k := |rows|;
      assert rows[..k] == rows;
      while k > 0 && !Eligible(rows[k - 1], cutoff, limit)
        invariant k <= |rows|
        invariant OldPrefix(rows[..k], cutoff, limit) == OldPrefix(rows, cutoff, limit)
      {
        assert rows[..k][..k - 1] == rows[..k - 1];
        k := k - 1;
      }
    }

    /** Writes the prefix to its archive, verifying the chain on the way. */
    method SealPrefix(k: nat) returns (archive: Option<seq<Row>>)
      requires 0 < k <= |rows|
      ensures archive == if Linked(rows[..k], rows[0].id, Boundary(anchors)) then Some(rows[..k]) else None
    {
      var expected := Boundary(anchors);
      ghost var prefix := rows[..k];
      ghost var first, link := rows[0].id, Boundary(anchors);
      var written: seq<Row> := [];
      var i := 0;
      while i < k
        invariant 0 <= i <= k
        invariant written == rows[..i]
        invariant expected == LinkBefore(prefix, i, link)
        invariant forall x :: 0 <= x < i ==> RowAt(prefix, x, first, link)
      {
        assert prefix[i] == rows[i];
        if (i > 0 && rows[i].id != rows[i - 1].id + 1) || rows[i].prev != expected || !Good(rows[i]) {
          assert i > 0 ==> RowAt(prefix, i - 1, first, link);
          assert !RowAt(prefix, i, first, link);
          return None;
        }
        assert i > 0 ==> RowAt(prefix, i - 1, first, link);
        expected := rows[i].hash;
        written := written + [rows[i]];
        i := i + 1;
      }
      return Some(written);
    }

    /** Plan and seal: nothing is removed yet. */
    method SealJob(job: nat, cutoff: int, hold: Option<nat>, force: bool, dryRun: bool) returns (refused: Option<Failure>)
      modifies this`jobs
      ensures dryRun ==> Value() == old(Value()) && refused == if Plan(rows, cutoff, hold, force) == 0 then Some(NothingToPrune) else None
      ensures !dryRun ==>
        match Seal(old(Value()), job, cutoff, hold, force)
        case Done(t) => refused == None && Value() == t
        case Refused(why) => refused == Some(why) && Value() == old(Value())
    {
      var k := PlanThrough(cutoff, None);
      if hold.Some? && k > 0 && rows[k - 1].id > hold.value && !force {
        k := PlanThrough(cutoff, hold);
      }
      if k == 0 {
        return Some(NothingToPrune);
      }
      if dryRun {
        return None;
      }
      var archive := SealPrefix(k);
      if archive.None? {
        return Some(BrokenChain);
      }
      jobs := jobs[job := Job(rows[0].id, rows[k - 1].id, rows[k - 1].hash, archive.value)];
      return None;
    }

    /** The cut and its anchor, as one transaction. */
    method CutJob(job: nat) returns (refused: Option<Failure>)
      modifies this
      ensures match Cut(old(Value()), job)
              case Done(t) => refused == None && Value() == t
              case Refused(why) => refused == Some(why) && Value() == old(Value())
    {
      if job !in jobs {
        return Some(NoSuchJob);
      }
      var j := jobs[job];
      var k := 0;
      while k < |rows| && rows[k].id <= j.through
        invariant k <= |rows|
        invariant CutSize(rows, j.through) == k + CutSize(rows[k..], j.through)
      {
        assert rows[k..][1..] == rows[k + 1..];
        k := k + 1;
      }
      if k == 0 || rows[k - 1].id != j.through {
        return Some(BoundaryGone);
      }
      if rows[k - 1].hash != j.boundary {
        return Some(BoundaryChanged);
      }
      var retained := if k < |rows| then rows[k].id else 0;
      anchors := anchors + [Anchor(j.first, j.through, k, j.boundary, retained, j.archive)];
      rows := rows[k..];
      jobs := jobs - {job};
      return None;
    }

    /**
      The verifying walk, pinned to the newest anchor: it stops at the first row
      that does not continue the chain, and counts the gaps it passes.
    */
    method Verify() returns (r: Report)
      ensures r.breakAt.None? <==> Verifies(Value()) || (rows != [] && UnpinnedZero(Value()))
      ensures r.breakAt.None? ==> r.total == |rows| && r.gaps == GapRows(rows) && r.lost == LostEvents(rows)
      ensures r.breakAt.Some? ==> 0 < r.total <= |rows| && r.breakAt.value == rows[r.total - 1].id
      ensures r.breakAt.Some? && r.total > 1 ==> Linked(rows[..r.total - 1], rows[0].id, Boundary(anchors))
    {
      var expected := Boundary(anchors);
      var required := ResumeAt(anchors);
      ghost var link := Boundary(anchors);
      r := Report(None, 0, 0, 0, 0);
      var i := 0;
      while i < |rows|
        invariant 0 <= i <= |rows|
        invariant r.breakAt.None? && r.total == i
        invariant i > 0 ==> (required > 0 ==> rows[0].id == required)
        invariant r.gaps == GapRows(rows[..i]) && r.lost == LostEvents(rows[..i])
        invariant expected == LinkBefore(rows, i, link)
        invariant forall x :: 0 <= x < i ==> RowAt(rows, x, rows[0].id, link)
      {
        var row := rows[i];
        assert rows[..i + 1][..i] == rows[..i];
        r := r.(total := i + 1);
        if i == 0 {
          r := r.(verifiedFrom := row.id);
          if required > 0 && row.id != required {
            return r.(breakAt := Some(row.id));
          }
        }
        if (i > 0 && row.id != rows[i - 1].id + 1) || row.prev != expected || !Good(row) {
          r := r.(breakAt := Some(row.id));
          BrokenHere(rows, i, link);
          return;
        }
        assert i > 0 ==> RowAt(rows, i - 1, rows[0].id, link);
        expected := row.hash;
        if row.event.gap.Some? {
          r := r.(gaps := r.gaps + 1, lost := r.lost + row.event.gap.value);
        }
        i := i + 1;
      }
      assert rows[..i] == rows;
    }
  }

  /** A table whose first id is 0 with nothing pinning it: the walk takes it, though no append ever hands out 0. */
  ghost predicate UnpinnedZero(t: Trail) {
    t.rows != [] && t.rows[0].id == 0 && ResumeAt(t.anchors) == 0 && Linked(t.rows, 0, Boundary(t.anchors))
  }

  lemma BrokenHere(rows: seq<Row>, i: nat, link: Hash)
    requires i < |rows|
    requires (i > 0 && rows[i].id != rows[i - 1].id + 1) || rows[i].prev != LinkBefore(rows, i, link) || !Good(rows[i])
    requires forall x :: 0 <= x < i ==> RowAt(rows, x, rows[0].id, link)
    ensures !Linked(rows, rows[0].id, link)
    ensures i > 0 ==> Linked(rows[..i], rows[0].id, link)
  {
    if i > 0 {
      assert RowAt(rows, i - 1, rows[0].id, link);
    }
    assert !RowAt(rows, i, rows[0].id, link);
    var part, first := rows[..i], rows[0].id;
    forall x | 0 <= x < |part| ensures RowAt(part, x, first, link) {
      assert RowAt(rows, x, first, link);
    }
  }

  function AppendedAll(t: Trail, events: seq<Event>): Trail {
    if events == [] then t else AppendOne(AppendedAll(t, events[..|events| - 1]), events[|events| - 1])
  }

  function Appends(events: seq<Event>): seq<Step> {
    seq(|events|, i requires 0 <= i < |events| => Append(events[i]))
  }

  lemma RunAllSnoc(h: History, steps: seq<Step>, last: Step)
    ensures RunAll(h, steps + [last]) == Take(RunAll(h, steps), last)
    decreases |steps|
  {
    if steps == [] {
      assert [last][1..] == [];
    } else {
      assert (steps + [last])[1..] == steps[1..] + [last];
      RunAllSnoc(Take(h, steps[0]), steps[1..], last);
    }
  }

  /** A batch is the same as appending its events one by one, so it is one of the histories that verify. */
  lemma {:induction false} BatchIsAppends(h: History, events: seq<Event>)
    ensures RunAll(h, Appends(events)).trail == AppendedAll(h.trail, events)
  {
    if events != [] {
      var n := |events| - 1;
      BatchIsAppends(h, events[..n]);
      assert Appends(events) == Appends(events[..n]) + [Append(events[n])];
      RunAllSnoc(h, Appends(events[..n]), Append(events[n]));
    }
  }
}
