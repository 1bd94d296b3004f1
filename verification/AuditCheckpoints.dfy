/**
  Checkpoints: heads of the chain recorded off the database, and what a later
  look at a database that anyone may have rewritten can conclude from them.
*/
module AuditCheckpoints {
  import opened Wrappers
  import opened AuditLog

  /** A head: the newest row's id (0 for an empty chain) and hash, and the newest anchor seen. */
  datatype Checkpoint = Checkpoint(id: nat, hash: Hash, anchor: Option<(nat, Anchor)>)

  datatype Verdict = Consistent | Pruned | AnchorMissing | AnchorRewritten | Rewritten | ArchiveMismatch | Unproven | Truncated | Deleted

  predicate Failing(v: Verdict) {
    v != Consistent && v != Pruned
  }

  /** The row with this id, if the table has one. */
  function RowWith(rows: seq<Row>, id: nat): (r: Option<Row>)
    ensures r.Some? ==> r.value in rows && r.value.id == id
    ensures r.None? ==> forall i :: 0 <= i < |rows| ==> rows[i].id != id
  {
    if rows == [] then None else if rows[0].id == id then Some(rows[0]) else RowWith(rows[1..], id)
  }

  /** The first anchor, in the order of their cuts, whose range holds an id. */
  function Covering(anchors: seq<Anchor>, id: nat): (k: nat)
    ensures k <= |anchors|
    ensures k < |anchors| ==> anchors[k].first <= id <= anchors[k].through
    ensures forall i :: 0 <= i < k ==> !(anchors[i].first <= id <= anchors[i].through)
  {
    if anchors == [] then 0
    else if anchors[0].first <= id <= anchors[0].through then 0
    else 1 + Covering(anchors[1..], id)
  }

  /** The boundary of the last anchor, in the order given, that cut less far than this one. */
  function BoundaryBefore(anchors: seq<Anchor>, a: Anchor): Hash {
    if anchors == [] then Genesis
    else
      var last := anchors[|anchors| - 1];
      if last.through < a.through then last.boundary else BoundaryBefore(anchors[..|anchors| - 1], a)
  }

  /** An archive is the chain from the boundary before it to its own. */
  ghost predicate ArchiveIntact(a: Anchor, prev: Hash) {
    && Linked(a.archive, a.first, prev)
    && a.first + |a.archive| == a.through + 1
    && |a.archive| > 0 && a.archive[|a.archive| - 1].hash == a.boundary
  }

  /**
    What one checkpoint says about a database.  Anchors are listed in the order
    of their cuts; `files` are the archives still readable where they were put.
  */
  ghost function Judge(t: Trail, files: set<nat>, head: nat, cp: Checkpoint): Verdict {
    if cp.anchor.Some? && cp.anchor.value.0 >= |t.anchors| then AnchorMissing
    else if cp.anchor.Some? && t.anchors[cp.anchor.value.0] != cp.anchor.value.1 then AnchorRewritten
    else if cp.id == 0 then Consistent
    else
      match RowWith(t.rows, cp.id)
      case Some(row) => if row.hash == cp.hash then Consistent else Rewritten
      case None =>
        var k := Covering(t.anchors, cp.id);
        if k < |t.anchors| then
          if k !in files then Unproven
          else if !ArchiveIntact(t.anchors[k], BoundaryBefore(t.anchors, t.anchors[k])) then ArchiveMismatch
          else
            match RowWith(t.anchors[k].archive, cp.id)
            case Some(row) => if row.hash == cp.hash then Pruned else Rewritten
            case None => Rewritten
        else if cp.id > head then Truncated
        else Deleted
  }

  // ------------------------------------------------ what a hash pins down

  /** Two chains that meet in one hash agree on every row they share below it. */
  lemma {:induction false} SameHashSamePast(a: seq<Row>, fa: nat, pa: Hash, i: nat, b: seq<Row>, fb: nat, pb: Hash, j: nat, back: nat)
    requires Linked(a, fa, pa) && Linked(b, fb, pb)
    requires i < |a| && j < |b| && a[i].hash == b[j].hash
    requires back <= i && back <= j
    ensures a[i - back] == b[j - back]
  {
    assert RowAt(a, i, fa, pa) && RowAt(b, j, fb, pb);
    if back > 0 {
      SameHashSamePast(a, fa, pa, i - 1, b, fb, pb, j - 1, back - 1);
    }
  }

  /** No row of a chain from genesis but its first links to genesis. */
  lemma OnlyFirstIsGenesis(all: seq<Row>, k: nat)
    requires Linked(all, 1, Genesis) && k < |all|
    ensures all[k].prev == Genesis <==> k == 0
  {
    assert RowAt(all, k, 1, Genesis);
    if k > 0 {
      assert RowAt(all, k - 1, 1, Genesis);
    }
  }

  /** The stretch holds, up to `id`, the very rows of the history. */
  ghost predicate SameAsThen(rows: seq<Row>, past: seq<Row>, id: nat) {
    forall i :: 0 <= i < |rows| && rows[i].id <= id ==> 1 <= rows[i].id <= |past| && rows[i] == past[rows[i].id - 1]
  }

  /** A linked stretch that holds a row with the head's hash is the history below it. */
  lemma StretchIsHistory(rows: seq<Row>, first: nat, prev: Hash, i: nat, past: seq<Row>, id: nat)
    requires Linked(rows, first, prev) && Linked(past, 1, Genesis) && first > 0
    requires i < |rows| && rows[i].id == id && 1 <= id <= |past| && rows[i].hash == past[id - 1].hash
    ensures SameAsThen(rows, past, id)
  {
    assert RowAt(rows, i, first, prev);
    forall k | 0 <= k < |rows| && rows[k].id <= id ensures 1 <= rows[k].id <= |past| && rows[k] == past[rows[k].id - 1] {
      assert RowAt(rows, k, first, prev);
      SameHashSamePast(rows, first, prev, i, past, 1, Genesis, id - 1, i - k);
    }
  }

  /**
    A database that verifies and passes a checkpoint holds, up to the
    checkpointed row, exactly the rows it had then — whatever was done to it in
    between.  Rows the table still has when the head's own row is there; rows of
    the covering archive when that row was pruned.
  */
  lemma CheckpointVouches(t: Trail, files: set<nat>, head: nat, past: seq<Row>, cp: Checkpoint)
    requires Verifies(t) && !Failing(Judge(t, files, head, cp))
    requires Linked(past, 1, Genesis) && 1 <= cp.id <= |past| && cp.hash == past[cp.id - 1].hash
    ensures Judge(t, files, head, cp) == Consistent ==>
              && SameAsThen(t.rows, past, cp.id)
              && (t.anchors == [] ==> |t.rows| >= cp.id && t.rows[..cp.id] == past[..cp.id])
    ensures Judge(t, files, head, cp) == Pruned ==>
              var k := Covering(t.anchors, cp.id);
              k < |t.anchors| && (t.anchors[k].first > 0 ==> SameAsThen(t.anchors[k].archive, past, cp.id))
  {
    hide Linked, SameAsThen, BoundaryBefore;
    if RowWith(t.rows, cp.id).Some? {
      TableVouches(t, past, cp);
    } else {
      var k := Covering(t.anchors, cp.id);
      var a := t.anchors[k];
      if a.first > 0 {
        var row := RowWith(a.archive, cp.id).value;
        var i :| 0 <= i < |a.archive| && a.archive[i] == row;
        StretchIsHistory(a.archive, a.first, BoundaryBefore(t.anchors, a), i, past, cp.id);
      }
    }
  }

  lemma TableVouches(t: Trail, past: seq<Row>, cp: Checkpoint)
    requires Verifies(t) && RowWith(t.rows, cp.id).Some? && RowWith(t.rows, cp.id).value.hash == cp.hash
    requires Linked(past, 1, Genesis) && 1 <= cp.id <= |past| && cp.hash == past[cp.id - 1].hash
    ensures SameAsThen(t.rows, past, cp.id)
    ensures t.anchors == [] ==> |t.rows| >= cp.id && t.rows[..cp.id] == past[..cp.id]
  {
    hide Linked, SameAsThen;
    var row := RowWith(t.rows, cp.id).value;
    var i :| 0 <= i < |t.rows| && t.rows[i] == row;
    var first, link := t.rows[0].id, Boundary(t.anchors);
    StretchIsHistory(t.rows, first, link, i, past, cp.id);
    if t.anchors == [] {
      FromTheStart(t.rows, first, i, past, cp.id);
    }
  }

  /** With nothing pruned the table starts where the history does. */
  lemma FromTheStart(rows: seq<Row>, first: nat, i: nat, past: seq<Row>, id: nat)
    requires Linked(rows, first, Genesis) && SameAsThen(rows, past, id) && Linked(past, 1, Genesis)
    requires i < |rows| && rows[i].id == id && 1 <= id <= |past|
    ensures |rows| >= id && rows[..id] == past[..id]
  {
    assert RowAt(rows, 0, first, Genesis) && RowAt(rows, i, first, Genesis);
    OnlyFirstIsGenesis(past, first - 1);
    forall k | 0 <= k < id ensures rows[k] == past[k] {
      assert RowAt(rows, k, 1, Genesis);
    }
  }

  /** A table that verifies and holds the head still holds every checkpointed row it reaches back to. */
  lemma RowsAreThere(t: Trail, files: set<nat>, head: nat, past: seq<Row>, cp: Checkpoint, id: nat)
    requires Verifies(t) && Judge(t, files, head, cp) == Consistent
    requires Linked(past, 1, Genesis) && 1 <= id <= cp.id <= |past| && cp.hash == past[cp.id - 1].hash
    requires t.anchors == [] || (t.rows != [] && t.rows[0].id <= id)
    ensures past[id - 1] in t.rows
  {
    CheckpointVouches(t, files, head, past, cp);
    if t.anchors == [] {
      assert t.rows[id - 1] == t.rows[..cp.id][id - 1] == past[..cp.id][id - 1];
    } else {
      var i :| 0 <= i < |t.rows| && t.rows[i].id == cp.id;
      assert RowAt(t.rows, i, t.rows[0].id, Boundary(t.anchors));
      var k := id - t.rows[0].id;
      assert RowAt(t.rows, k, t.rows[0].id, Boundary(t.anchors));
      assert t.rows[k] == past[t.rows[k].id - 1];
    }
  }

  /** The anchor the checkpoint saw, if it saw one, is still on record as it was. */
  predicate AnchorSeen(t: Trail, cp: Checkpoint) {
    cp.anchor.Some? ==> cp.anchor.value.0 < |t.anchors| && t.anchors[cp.anchor.value.0] == cp.anchor.value.1
  }

  /**
    When a checkpoint takes its row for pruned: exactly when the table has no
    row of that id and the archive of the first anchor that covers it is at
    hand, re-hashes, and holds the very row the checkpoint saw.
  */
  lemma PrunedIff(t: Trail, files: set<nat>, head: nat, past: seq<Row>, cp: Checkpoint)
    requires Linked(past, 1, Genesis) && 1 <= cp.id <= |past| && cp.hash == past[cp.id - 1].hash
    ensures var k := Covering(t.anchors, cp.id);
            && (k == |t.anchors| ==> Judge(t, files, head, cp) != Pruned)
            && (k < |t.anchors| && t.anchors[k].first > 0 ==>
                 (Judge(t, files, head, cp) == Pruned <==>
                   && AnchorSeen(t, cp) && RowWith(t.rows, cp.id).None? && k in files
                   && ArchiveIntact(t.anchors[k], BoundaryBefore(t.anchors, t.anchors[k]))
                   && past[cp.id - 1] in t.anchors[k].archive))
  {
    hide Linked, BoundaryBefore;
    var k := Covering(t.anchors, cp.id);
    if k < |t.anchors| && t.anchors[k].first > 0 && ArchiveIntact(t.anchors[k], BoundaryBefore(t.anchors, t.anchors[k])) {
      HeadInArchiveIff(t.anchors[k], BoundaryBefore(t.anchors, t.anchors[k]), past, cp);
    }
  }

  lemma HeadInArchiveIff(a: Anchor, prev: Hash, past: seq<Row>, cp: Checkpoint)
    requires Linked(past, 1, Genesis) && 1 <= cp.id <= |past| && cp.hash == past[cp.id - 1].hash
    requires a.first > 0 && ArchiveIntact(a, prev)
    ensures past[cp.id - 1] in a.archive <==> RowWith(a.archive, cp.id).Some? && RowWith(a.archive, cp.id).value.hash == cp.hash
  {
    assert RowAt(past, cp.id - 1, 1, Genesis);
    var r := RowWith(a.archive, cp.id);
    if r.Some? {
      var i :| 0 <= i < |a.archive| && a.archive[i] == r.value;
      assert RowAt(a.archive, i, a.first, prev);
      if r.value.hash == cp.hash {
        StretchIsHistory(a.archive, a.first, prev, i, past, cp.id);
      }
      if past[cp.id - 1] in a.archive {
        var j :| 0 <= j < |a.archive| && a.archive[j] == past[cp.id - 1];
        assert RowAt(a.archive, j, a.first, prev);
      }
    }
  }

  /** A row taken for pruned together with the head is in that archive, if the archive reaches back to it. */
  lemma PrunedKeeps(t: Trail, files: set<nat>, head: nat, past: seq<Row>, cp: Checkpoint, id: nat)
    requires Linked(past, 1, Genesis) && 1 <= id <= cp.id <= |past| && cp.hash == past[cp.id - 1].hash
    requires Judge(t, files, head, cp) == Pruned
    ensures var k := Covering(t.anchors, cp.id);
            k < |t.anchors| && (0 < t.anchors[k].first <= id ==> past[id - 1] in t.anchors[k].archive)
  {
    hide BoundaryBefore;
    PrunedIff(t, files, head, past, cp);
    var k := Covering(t.anchors, cp.id);
    var a := t.anchors[k];
    if 0 < a.first <= id {
      var prev := BoundaryBefore(t.anchors, a);
      var i :| 0 <= i < |a.archive| && a.archive[i] == past[cp.id - 1];
      assert RowAt(past, cp.id - 1, 1, Genesis) && RowAt(a.archive, i, a.first, prev);
      SameHashSamePast(a.archive, a.first, prev, i, past, 1, Genesis, cp.id - 1, cp.id - id);
      assert past[id - 1] == a.archive[i - (cp.id - id)];
    }
  }

  /**
    So a rewrite, deletion or cut of a checkpointed row is always reported, by
    one check or the other, of a table that reaches back to it and does not hold
    it — unless the head counts as pruned, and then the row is in the archive
    that covers the head or from before that archive.
  */
  lemma TamperingIsReported(t: Trail, files: set<nat>, head: nat, past: seq<Row>, cp: Checkpoint, id: nat)
    requires Linked(past, 1, Genesis) && 1 <= id <= cp.id <= |past| && cp.hash == past[cp.id - 1].hash
    requires past[id - 1] !in t.rows
    ensures t.anchors == [] ==> !Verifies(t) || Failing(Judge(t, files, head, cp))
    ensures t.rows != [] && t.rows[0].id <= id ==>
              || !Verifies(t)
              || Failing(Judge(t, files, head, cp))
              || (Judge(t, files, head, cp) == Pruned &&
                   var k := Covering(t.anchors, cp.id);
                   k < |t.anchors| && (0 < t.anchors[k].first <= id ==> past[id - 1] in t.anchors[k].archive))
  {
    hide Linked;
    if Judge(t, files, head, cp) == Pruned {
      PrunedKeeps(t, files, head, past, cp, id);
    } else if Verifies(t) && Judge(t, files, head, cp) == Consistent && (t.anchors == [] || (t.rows != [] && t.rows[0].id <= id)) {
      RowsAreThere(t, files, head, past, cp, id);
    }
  }

  predicate HasRow(rows: seq<Row>, id: nat) {
    exists i :: 0 <= i < |rows| && rows[i].id == id
  }

  predicate Covered(anchors: seq<Anchor>, id: nat) {
    exists i :: 0 <= i < |anchors| && anchors[i].first <= id <= anchors[i].through
  }

  /** Why a checkpoint fails: which anchor is gone or another, or where its row should have been. */
  lemma WhyItFails(t: Trail, files: set<nat>, head: nat, cp: Checkpoint)
    ensures var v := Judge(t, files, head, cp);
            && (v == AnchorMissing <==> cp.anchor.Some? && cp.anchor.value.0 >= |t.anchors|)
            && (v in {AnchorMissing, AnchorRewritten} <==> !AnchorSeen(t, cp))
            && (v == Truncated <==> AnchorSeen(t, cp) && cp.id > head && cp.id > 0 && !HasRow(t.rows, cp.id) && !Covered(t.anchors, cp.id))
            && (v == Deleted <==> AnchorSeen(t, cp) && 0 < cp.id <= head && !HasRow(t.rows, cp.id) && !Covered(t.anchors, cp.id))
            && (v in {Unproven, ArchiveMismatch, Pruned} ==> !HasRow(t.rows, cp.id) && Covered(t.anchors, cp.id))
            && (v == Rewritten ==> HasRow(t.rows, cp.id) || Covered(t.anchors, cp.id))
            && (v == Unproven ==> exists k :: 0 <= k < |t.anchors| && t.anchors[k].first <= cp.id <= t.anchors[k].through && k !in files)
  {
    hide Linked, BoundaryBefore, ArchiveIntact;
    var k := Covering(t.anchors, cp.id);
    var r := RowWith(t.rows, cp.id);
    assert HasRow(t.rows, cp.id) <==> r.Some?;
    assert Covered(t.anchors, cp.id) <==> k < |t.anchors|;
  }

  // ------------------------------------------ what an honest database gets

  /** The newest row, or the newest cut when the table is empty. */
  function HeadId(t: Trail): nat {
    Tip(t).0 - 1
  }

  /** The head recorded at one point of a history, with the anchor it saw. */
  function HeadOf(h: History): Checkpoint {
    var n := |h.trail.anchors|;
    Checkpoint(|h.all|, if h.all == [] then Genesis else h.all[|h.all| - 1].hash,
               if n == 0 then None else Some((n - 1, h.trail.anchors[n - 1])))
  }

  /** History only grows: rows and anchors once there stay. */
  lemma {:induction false} HistoryGrows(h: History, steps: seq<Step>)
    ensures h.all <= RunAll(h, steps).all && h.trail.anchors <= RunAll(h, steps).trail.anchors
    decreases |steps|
  {
    if steps != [] {
      var t := Take(h, steps[0]);
      assert h.all <= t.all && h.trail.anchors <= t.trail.anchors;
      HistoryGrows(t, steps[1..]);
    }
  }

  lemma {:induction false} BoundaryBeforeIs(h: History, i: nat, m: nat)
    requires Inv(h) && i < m <= |h.trail.anchors|
    ensures Through(h.trail.anchors, i) <= |h.all|
    ensures BoundaryBefore(h.trail.anchors[..m], h.trail.anchors[i]) == LinkBefore(h.all, Through(h.trail.anchors, i), Genesis)
  {
    var a := h.trail.anchors;
    ThroughGrows(h, i, |a|);
    assert a[..m][..m - 1] == a[..m - 1];
    assert CutAt(h.all, a, i);
    if m - 1 > i {
      ThroughGrows(h, i + 1, m);
      BoundaryBeforeIs(h, i, m - 1);
    } else if i > 0 {
      assert CutAt(h.all, a, i - 1);
      assert a[..i][..i - 1] == a[..i - 1];
    }
  }

  /** What rows link to tells their places in the history apart. */
  lemma LinksDiffer(all: seq<Row>, i: nat, j: nat)
    requires Linked(all, 1, Genesis) && i <= |all| && j <= |all| && i != j
    ensures LinkBefore(all, i, Genesis) != LinkBefore(all, j, Genesis)
  {
    if i > 0 {
      assert RowAt(all, i - 1, 1, Genesis);
    }
    if j > 0 {
      assert RowAt(all, j - 1, 1, Genesis);
    }
  }

  /** The archive of a cut checks out exactly when the cut followed on from the one before it. */
  lemma ArchiveIntactIff(h: History, i: nat)
    requires Inv(h) && i < |h.trail.anchors|
    ensures var a := h.trail.anchors; ArchiveIntact(a[i], BoundaryBefore(a, a[i])) <==> FollowsOn(a, i)
  {
    hide Inv, CutsOk, JobsOk;
    var a := h.trail.anchors;
    var x := a[i];
    assert a[..|a|] == a;
    BoundaryBeforeIs(h, i, |a|);
    var from := x.first - 1;
    assert Linked(h.all, 1, Genesis) && Holds(h.all, x.first, x.through, x.boundary, x.archive, Through(a, i)) by {
      CutFacts(h, i);
    }
    LinkedSlice(h.all, 1, Genesis, from, x.through);
    var link := LinkBefore(h.all, from, Genesis);
    assert Linked(x.archive, x.first, link);
    if !FollowsOn(a, i) {
      LinksDiffer(h.all, from, Through(a, i));
      assert RowAt(x.archive, 0, x.first, link);
      assert !RowAt(x.archive, 0, x.first, LinkBefore(h.all, Through(a, i), Genesis));
    }
  }

  lemma CutFacts(h: History, i: nat)
    requires Inv(h) && i < |h.trail.anchors|
    ensures Linked(h.all, 1, Genesis) && CutAt(h.all, h.trail.anchors, i)
  {
  }

  /**
    A checkpoint of an honest trail, judged at any later point with every
    archive at hand, passes — exactly when its row is still in the table, or the
    first archive that covers it was cut with no other prune in between.
  */
  lemma HonestPassesIff(steps: seq<Step>, more: seq<Step>, files: set<nat>)
    requires RunAll(EMPTY, steps).all != []
    requires forall k :: 0 <= k < |RunAll(RunAll(EMPTY, steps), more).trail.anchors| ==> k in files
    ensures var cp := HeadOf(RunAll(EMPTY, steps));
            var t := RunAll(RunAll(EMPTY, steps), more).trail;
            !Failing(Judge(t, files, HeadId(t), cp)) <==>
              cp.id > CutSoFar(t) || (Covering(t.anchors, cp.id) < |t.anchors| && FollowsOn(t.anchors, Covering(t.anchors, cp.id)))
  {
    hide RunAll, Judge, Inv;
    EmptyIsInv();
    RunAllKeeps(EMPTY, steps);
    var h := RunAll(EMPTY, steps);
    RunAllKeeps(h, more);
    HistoryGrows(h, more);
    HonestJudged(h, RunAll(h, more), files);
  }

  lemma InTable(g: History, id: nat)
    requires Inv(g) && 1 <= id <= |g.all|
    ensures RowWith(g.trail.rows, id) == if id > CutSoFar(g.trail) then Some(g.all[id - 1]) else None
  {
    var n := CutSoFar(g.trail);
    if id > n {
      TableIds(g, id - 1 - n);
    }
    var r := RowWith(g.trail.rows, id);
    if r.Some? {
      var x :| 0 <= x < |g.trail.rows| && g.trail.rows[x] == r.value;
      TableIds(g, x);
    }
  }

  lemma InArchive(g: History, k: nat, id: nat)
    requires Inv(g) && k < |g.trail.anchors| && g.trail.anchors[k].first <= id <= g.trail.anchors[k].through
    ensures 1 <= id <= |g.all| && RowWith(g.trail.anchors[k].archive, id) == Some(g.all[id - 1])
  {
    var a := g.trail.anchors[k];
    assert CutAt(g.all, g.trail.anchors, k);
    ArchiveRows(g, k, id - 1);
    assert RowAt(g.all, id - 1, 1, Genesis);
    var r := RowWith(a.archive, id);
    if r.Some? {
      var x :| 0 <= x < |a.archive| && a.archive[x] == r.value;
      assert RowAt(g.all, a.first - 1 + x, 1, Genesis);
    }
  }

  lemma HonestJudged(h: History, g: History, files: set<nat>)
    requires Inv(h) && Inv(g) && h.all != [] && h.all <= g.all && h.trail.anchors <= g.trail.anchors
    requires forall k :: 0 <= k < |g.trail.anchors| ==> k in files
    ensures var cp := HeadOf(h); var t := g.trail; var k := Covering(t.anchors, cp.id);
            !Failing(Judge(t, files, HeadId(t), cp)) <==> cp.id > CutSoFar(t) || (k < |t.anchors| && FollowsOn(t.anchors, k))
  {
    hide Inv;
    var cp := HeadOf(h);
    var t := g.trail;
    InTable(g, cp.id);
    assert g.all[cp.id - 1] == h.all[cp.id - 1];
    var k := Covering(t.anchors, cp.id);
    if cp.id <= CutSoFar(t) && k < |t.anchors| {
      ArchiveIntactIff(g, k);
      InArchive(g, k, cp.id);
    }
  }
}
