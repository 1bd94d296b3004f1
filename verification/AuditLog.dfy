/**
  The audit trail: a hash-linked table of events, pruned from its front into
  sealed archives that anchors record.  A prune is two steps — plan and seal,
  then cut — and appends and other prunes can come between them.

  A hash is the term it was computed from, so equal hashes mean equal inputs.
*/
module AuditLog {
  import opened Wrappers

  /** An event; `gap` is how many lost events an audit.gap row stands for. */
  datatype Event = Event(time: int, body: string, gap: Option<nat>)

  datatype Hash = Genesis | Digest(prev: Hash, id: nat, event: Event)

  /** A stored row; what it says about its own hash may be false. */
  datatype Row = Row(id: nat, event: Event, prev: Hash, hash: Hash)

  predicate Good(r: Row) {
    r.hash == Digest(r.prev, r.id, r.event)
  }

  /** What the row at i must link to. */
  function LinkBefore(rows: seq<Row>, i: nat, prev: Hash): Hash
    requires i <= |rows|
  {
    if i == 0 then prev else rows[i - 1].hash
  }

  ghost predicate RowAt(rows: seq<Row>, i: nat, first: nat, prev: Hash)
    requires i < |rows|
  {
    rows[i].id == first + i && Good(rows[i]) && rows[i].prev == LinkBefore(rows, i, prev)
  }

  /** An intact stretch of chain: consecutive ids from `first`, linked from `prev`. */
  ghost predicate Linked(rows: seq<Row>, first: nat, prev: Hash) {
    forall i :: 0 <= i < |rows| ==> RowAt(rows, i, first, prev)
  }

  lemma LinkedSlice(rows: seq<Row>, first: nat, prev: Hash, a: nat, b: nat)
    requires Linked(rows, first, prev) && a <= b <= |rows|
    ensures Linked(rows[a..b], first + a, LinkBefore(rows, a, prev))
  {
    var part, from, before := rows[a..b], first + a, LinkBefore(rows, a, prev);
    forall i | 0 <= i < |part| ensures RowAt(part, i, from, before) {
      assert RowAt(rows, a + i, first, prev);
    }
  }

  lemma LinkedSnoc(rows: seq<Row>, first: nat, prev: Hash, r: Row)
    requires Linked(rows, first, prev)
    requires r.id == first + |rows| && Good(r) && r.prev == LinkBefore(rows, |rows|, prev)
    ensures Linked(rows + [r], first, prev)
  {
    forall i | 0 <= i < |rows + [r]| ensures RowAt(rows + [r], i, first, prev) {
      assert i < |rows| ==> RowAt(rows, i, first, prev);
    }
  }

  /** One cut; `archive` is the content its digest names. */
  datatype Anchor = Anchor(first: nat, through: nat, count: nat, boundary: Hash, retained: nat, archive: seq<Row>)

  /** A prefix sealed and not yet cut. */
  datatype Job = Job(first: nat, through: nat, boundary: Hash, archive: seq<Row>)

  datatype Trail = Trail(rows: seq<Row>, anchors: seq<Anchor>, jobs: map<nat, Job>)

  /** The anchor that cut furthest, the later one of two that cut equally far. */
  function Newest(anchors: seq<Anchor>): (r: Option<Anchor>)
    ensures r.None? <==> anchors == []
  {
    if anchors == [] then None
    else
      var last := anchors[|anchors| - 1];
      match Newest(anchors[..|anchors| - 1])
      case None => Some(last)
      case Some(a) => if last.through >= a.through then Some(last) else Some(a)
  }

  /** What the first retained row links to. */
  function Boundary(anchors: seq<Anchor>): Hash {
    match Newest(anchors)
    case None => Genesis
    case Some(a) => a.boundary
  }

  // ----------------------------------------------------------------- append

  /** The id and link the next row gets: after the last row, else after the newest cut. */
  function Tip(t: Trail): (nat, Hash) {
    if t.rows != [] then (t.rows[|t.rows| - 1].id + 1, t.rows[|t.rows| - 1].hash)
    else
      match Newest(t.anchors)
      case None => (1, Genesis)
      case Some(a) => (a.through + 1, a.boundary)
  }

  function Sealed(id: nat, prev: Hash, e: Event): Row {
    Row(id, e, prev, Digest(prev, id, e))
  }

  function AppendOne(t: Trail, e: Event): Trail {
    t.(rows := t.rows + [Sealed(Tip(t).0, Tip(t).1, e)])
  }

  // ------------------------------------------------------------------ prune

  /** How many rows, from the front, end at the last one older than the cutoff and not past `limit`. */
  function OldPrefix(rows: seq<Row>, cutoff: int, limit: Option<nat>): (k: nat)
    ensures k <= |rows|
  {
    if rows == [] then 0
    else if Eligible(rows[|rows| - 1], cutoff, limit) then |rows|
    else OldPrefix(rows[..|rows| - 1], cutoff, limit)
  }

  predicate Eligible(r: Row, cutoff: int, limit: Option<nat>) {
    r.event.time < cutoff && (limit.Some? ==> r.id <= limit.value)
  }

  /** The prefix ends in an eligible row, and no row after it is eligible. */
  lemma {:induction false} OldPrefixIs(rows: seq<Row>, cutoff: int, limit: Option<nat>)
    ensures var k := OldPrefix(rows, cutoff, limit);
            && (k > 0 ==> Eligible(rows[k - 1], cutoff, limit))
            && forall i :: k <= i < |rows| ==> !Eligible(rows[i], cutoff, limit)
  {
    if rows != [] && !Eligible(rows[|rows| - 1], cutoff, limit) {
      OldPrefixIs(rows[..|rows| - 1], cutoff, limit);
    }
  }

  /** The prefix a prune takes: the hold clamps the cutoff unless it is forced. */
  function Plan(rows: seq<Row>, cutoff: int, hold: Option<nat>, force: bool): (k: nat)
    ensures k <= |rows|
  {
    var asked := OldPrefix(rows, cutoff, None);
    if hold.Some? && asked > 0 && rows[asked - 1].id > hold.value && !force then OldPrefix(rows, cutoff, hold)
    else asked
  }

  datatype Failure = NothingToPrune | BrokenChain | BoundaryGone | BoundaryChanged | NoSuchJob

  datatype Outcome = Done(trail: Trail) | Refused(why: Failure)

  /** Plan and seal: the prefix is verified as it is written, and nothing is removed. */
  ghost function Seal(t: Trail, job: nat, cutoff: int, hold: Option<nat>, force: bool): Outcome {
    var k := Plan(t.rows, cutoff, hold, force);
    if k == 0 then Refused(NothingToPrune)
    else if !Linked(t.rows[..k], t.rows[0].id, Boundary(t.anchors)) then Refused(BrokenChain)
    else Done(t.(jobs := t.jobs[job := JobFor(t.rows, k)]))
  }

  /** How many rows, from the front, the cut at `through` removes. */
  function CutSize(rows: seq<Row>, through: nat): (k: nat)
    ensures k <= |rows|
    ensures forall i :: 0 <= i < k ==> rows[i].id <= through
    ensures k < |rows| ==> rows[k].id > through
  {
    if rows == [] || rows[0].id > through then 0 else 1 + CutSize(rows[1..], through)
  }

  /** Cut: the boundary row must still be there as sealed; the rows go and the anchor comes in one step. */
  function Cut(t: Trail, job: nat): Outcome {
    if job !in t.jobs then Refused(NoSuchJob)
    else
      var j := t.jobs[job];
      var k := CutSize(t.rows, j.through);
      if k == 0 || t.rows[k - 1].id != j.through then Refused(BoundaryGone)
      else if t.rows[k - 1].hash != j.boundary then Refused(BoundaryChanged)
      else
        var retained := if k < |t.rows| then t.rows[k].id else 0;
        Done(Trail(t.rows[k..], t.anchors + [Anchor(j.first, j.through, k, j.boundary, retained, j.archive)], t.jobs - {job}))
  }

  // ----------------------------------------------------------------- verify

  /** Where verification requires the chain to resume; 0 requires nothing. */
  function ResumeAt(anchors: seq<Anchor>): nat {
    match Newest(anchors)
    case None => 0
    case Some(a) => if a.retained != 0 then a.retained else a.through + 1
  }

  ghost predicate Verifies(t: Trail) {
    t.rows != [] ==>
      && (ResumeAt(t.anchors) > 0 ==> t.rows[0].id == ResumeAt(t.anchors))
      && t.rows[0].id > 0
      && Linked(t.rows, t.rows[0].id, Boundary(t.anchors))
  }

  // -------------------------------------------------------- every run of it

  datatype Step =
    | Append(event: Event)
    | SealStep(job: nat, cutoff: int, hold: Option<nat>, force: bool)
    | CutStep(job: nat)

  /** The trail, and every row ever appended. */
  datatype History = History(trail: Trail, all: seq<Row>)

  ghost function Take(h: History, step: Step): History {
    match step
    case Append(e) =>
      var t := AppendOne(h.trail, e);
      History(t, h.all + [t.rows[|t.rows| - 1]])
    case SealStep(job, cutoff, hold, force) =>
      (match Seal(h.trail, job, cutoff, hold, force) case Done(t) => h.(trail := t) case Refused(_) => h)
    case CutStep(job) =>
      (match Cut(h.trail, job) case Done(t) => h.(trail := t) case Refused(_) => h)
  }

  ghost function RunAll(h: History, steps: seq<Step>): History
    decreases |steps|
  {
    if steps == [] then h else RunAll(Take(h, steps[0]), steps[1..])
  }

  const EMPTY := History(Trail([], [], map[]), [])

  /** How far the first i cuts went. */
  function Through(anchors: seq<Anchor>, i: nat): nat
    requires i <= |anchors|
  {
    if i == 0 then 0 else anchors[i - 1].through
  }

  /** A sealed range of the history, starting no later than just after `cut`. */
  ghost predicate Holds(all: seq<Row>, first: nat, through: nat, boundary: Hash, archive: seq<Row>, cut: nat) {
    && 1 <= first <= through <= |all| && first - 1 <= cut
    && archive == all[first - 1..through]
    && boundary == all[through - 1].hash
  }

  /** The i-th cut: past the one before it, and of rows the history holds. */
  ghost predicate CutAt(all: seq<Row>, a: seq<Anchor>, i: nat)
    requires i < |a|
  {
    && Through(a, i) < a[i].through
    && Holds(all, a[i].first, a[i].through, a[i].boundary, a[i].archive, Through(a, i))
    && a[i].count == a[i].through - Through(a, i)
    && (a[i].retained == 0 || a[i].retained == a[i].through + 1)
  }

  ghost predicate CutsOk(all: seq<Row>, a: seq<Anchor>) {
    forall i :: 0 <= i < |a| ==> CutAt(all, a, i)
  }

  ghost predicate JobOk(all: seq<Row>, j: Job, cut: nat) {
    Holds(all, j.first, j.through, j.boundary, j.archive, cut)
  }

  ghost predicate JobsOk(all: seq<Row>, jobs: map<nat, Job>, cut: nat) {
    forall j :: j in jobs ==> JobOk(all, jobs[j], cut)
  }

  function CutSoFar(t: Trail): nat {
    Through(t.anchors, |t.anchors|)
  }

  ghost predicate Inv(h: History) {
    && Linked(h.all, 1, Genesis)
    && CutSoFar(h.trail) <= |h.all|
    && h.trail.rows == h.all[CutSoFar(h.trail)..]
    && CutsOk(h.all, h.trail.anchors)
    && JobsOk(h.all, h.trail.jobs, CutSoFar(h.trail))
  }

  lemma {:induction false} NewestIsLast(all: seq<Row>, anchors: seq<Anchor>)
    requires CutsOk(all, anchors)
    ensures Newest(anchors) == if anchors == [] then None else Some(anchors[|anchors| - 1])
  {
    if anchors != [] {
      var n := |anchors| - 1;
      var init := anchors[..n];
      forall i | 0 <= i < |init| ensures CutAt(all, init, i) {
        assert CutAt(all, anchors, i);
      }
      NewestIsLast(all, init);
      assert CutAt(all, anchors, n);
    }
  }

  /** The next row continues the history whether or not the table is empty. */
  lemma TipContinues(h: History)
    requires Inv(h)
    ensures Tip(h.trail) == (|h.all| + 1, LinkBefore(h.all, |h.all|, Genesis))
    ensures Boundary(h.trail.anchors) == LinkBefore(h.all, CutSoFar(h.trail), Genesis)
  {
    NewestIsLast(h.all, h.trail.anchors);
    var a := h.trail.anchors;
    if a != [] {
      assert CutAt(h.all, a, |a| - 1);
    }
    if h.trail.rows != [] {
      assert RowAt(h.all, |h.all| - 1, 1, Genesis);
    }
  }

  lemma HoldsLonger(all: seq<Row>, r: Row, first: nat, through: nat, boundary: Hash, archive: seq<Row>, cut: nat)
    requires Holds(all, first, through, boundary, archive, cut)
    ensures Holds(all + [r], first, through, boundary, archive, cut)
  {
    assert (all + [r])[first - 1..through] == all[first - 1..through];
  }

  lemma AppendKeeps(h: History, e: Event)
    requires Inv(h)
    ensures Inv(Take(h, Append(e)))
  {
    TipContinues(h);
    var t := Take(h, Append(e));
    var a := h.trail.anchors;
    var r := Sealed(Tip(h.trail).0, Tip(h.trail).1, e);
    assert t.all == h.all + [r];
    LinkedSnoc(h.all, 1, Genesis, r);
    forall i | 0 <= i < |a| ensures CutAt(t.all, a, i) {
      assert CutAt(h.all, a, i);
      HoldsLonger(h.all, r, a[i].first, a[i].through, a[i].boundary, a[i].archive, Through(a, i));
    }
    forall j | j in h.trail.jobs ensures JobOk(t.all, h.trail.jobs[j], CutSoFar(h.trail)) {
      var x := h.trail.jobs[j];
      assert JobOk(h.all, x, CutSoFar(h.trail));
      HoldsLonger(h.all, r, x.first, x.through, x.boundary, x.archive, CutSoFar(h.trail));
    }
  }

  lemma TableIds(h: History, i: nat)
    requires Inv(h) && i < |h.trail.rows|
    ensures h.trail.rows[i] == h.all[CutSoFar(h.trail) + i] && h.trail.rows[i].id == CutSoFar(h.trail) + i + 1
  {
    assert RowAt(h.all, CutSoFar(h.trail) + i, 1, Genesis);
  }

  function JobFor(rows: seq<Row>, k: nat): Job
    requires 0 < k <= |rows|
  {
    Job(rows[0].id, rows[k - 1].id, rows[k - 1].hash, rows[..k])
  }

  lemma SealedPrefix(h: History, k: nat)
    requires Inv(h) && 0 < k <= |h.trail.rows|
    ensures Linked(h.trail.rows[..k], h.trail.rows[0].id, Boundary(h.trail.anchors))
    ensures JobOk(h.all, JobFor(h.trail.rows, k), CutSoFar(h.trail))
  {
    var n := CutSoFar(h.trail);
    TipContinues(h);
    TableIds(h, 0);
    TableIds(h, k - 1);
    assert h.trail.rows[..k] == h.all[n..n + k];
    LinkedSlice(h.all, 1, Genesis, n, n + k);
  }

  /** A seal of a trail that is only appended to and pruned never finds it broken. */
  lemma SealKeeps(h: History, job: nat, cutoff: int, hold: Option<nat>, force: bool)
    requires Inv(h)
    ensures Inv(Take(h, SealStep(job, cutoff, hold, force)))
    ensures Seal(h.trail, job, cutoff, hold, force) != Refused(BrokenChain)
  {
    hide Plan, Linked, JobOk, CutsOk;
    var k := Plan(h.trail.rows, cutoff, hold, force);
    if k > 0 {
      SealedPrefix(h, k);
    }
  }

  /** The cut takes exactly the rows up to the sealed boundary that are still there. */
  lemma CutIsExact(h: History, job: nat)
    requires Inv(h) && job in h.trail.jobs
    ensures var j := h.trail.jobs[job];
            && (Cut(h.trail, job).Done? <==> j.through > CutSoFar(h.trail))
            && (j.through > CutSoFar(h.trail) ==> CutSize(h.trail.rows, j.through) == j.through - CutSoFar(h.trail))
  {
    var n := CutSoFar(h.trail);
    var j := h.trail.jobs[job];
    var k := CutSize(h.trail.rows, j.through);
    assert JobOk(h.all, j, n);
    if k > 0 {
      TableIds(h, k - 1);
    }
    if k < |h.trail.rows| {
      TableIds(h, k);
    }
  }

  lemma CutKeeps(h: History, job: nat)
    requires Inv(h)
    ensures Inv(Take(h, CutStep(job)))
  {
    if Cut(h.trail, job).Done? {
      CutIsExact(h, job);
      var j := h.trail.jobs[job];
      assert JobOk(h.all, j, CutSoFar(h.trail));
      var t := Take(h, CutStep(job));
      var a := h.trail.anchors;
      var b := t.trail.anchors;
      assert t.trail.rows == h.all[CutSoFar(t.trail)..];
      forall i | 0 <= i < |b| ensures CutAt(t.all, b, i) {
        assert Through(b, i) == Through(a, i);
        if i < |a| {
          assert CutAt(h.all, a, i);
        } else if CutSize(h.trail.rows, j.through) < |h.trail.rows| {
          TableIds(h, CutSize(h.trail.rows, j.through));
        }
      }
      forall x | x in t.trail.jobs ensures JobOk(t.all, t.trail.jobs[x], CutSoFar(t.trail)) {
        assert JobOk(h.all, h.trail.jobs[x], CutSoFar(h.trail));
      }
    }
  }

  lemma {:induction false} RunAllKeeps(h: History, steps: seq<Step>)
    requires Inv(h)
    ensures Inv(RunAll(h, steps))
    decreases |steps|
  {
    if steps != [] {
      match steps[0] {
        case Append(e) => AppendKeeps(h, e);
        case SealStep(job, cutoff, hold, force) => SealKeeps(h, job, cutoff, hold, force);
        case CutStep(job) => CutKeeps(h, job);
      }
      RunAllKeeps(Take(h, steps[0]), steps[1..]);
    }
  }

  lemma InvVerifies(h: History)
    requires Inv(h)
    ensures Verifies(h.trail)
  {
    TipContinues(h);
    NewestIsLast(h.all, h.trail.anchors);
    if h.trail.rows != [] {
      TableIds(h, 0);
      var n := CutSoFar(h.trail);
      LinkedSlice(h.all, 1, Genesis, n, |h.all|);
      assert h.all[n..|h.all|] == h.trail.rows;
      if h.trail.anchors != [] {
        assert CutAt(h.all, h.trail.anchors, |h.trail.anchors| - 1);
      }
    }
  }

  lemma EmptyIsInv()
    ensures Inv(EMPTY)
  {
  }

  /** However appends, seals and cuts interleave, the table verifies across its anchors. */
  lemma ReachableVerifies(steps: seq<Step>)
    ensures Verifies(RunAll(EMPTY, steps).trail)
  {
    EmptyIsInv();
    RunAllKeeps(EMPTY, steps);
    InvVerifies(RunAll(EMPTY, steps));
  }

  // ------------------------------------------ every row kept, and kept once

  function Archived(anchors: seq<Anchor>): seq<Row> {
    if anchors == [] then [] else Archived(anchors[..|anchors| - 1]) + anchors[|anchors| - 1].archive
  }

  predicate FollowsOn(anchors: seq<Anchor>, i: nat)
    requires i < |anchors|
  {
    anchors[i].first == Through(anchors, i) + 1
  }

  /** Each cut started where the one before it ended. */
  predicate Consecutive(anchors: seq<Anchor>) {
    forall i :: 0 <= i < |anchors| ==> FollowsOn(anchors, i)
  }

  lemma {:induction false} ThroughGrows(h: History, i: nat, j: nat)
    requires Inv(h) && i <= j <= |h.trail.anchors|
    ensures Through(h.trail.anchors, i) <= Through(h.trail.anchors, j)
  {
    if i < j {
      ThroughGrows(h, i, j - 1);
      assert CutAt(h.all, h.trail.anchors, j - 1);
    }
  }

  /** Every row below the cut was removed by one of the cuts. */
  lemma {:induction false} CoveringCut(h: History, k: nat, m: nat) returns (i: nat)
    requires Inv(h) && m <= |h.trail.anchors| && k < Through(h.trail.anchors, m)
    ensures i < m && Through(h.trail.anchors, i) <= k < h.trail.anchors[i].through
  {
    if k < Through(h.trail.anchors, m - 1) {
      i := CoveringCut(h, k, m - 1);
    } else {
      i := m - 1;
    }
  }

  /** An archive holds exactly the history's rows of its range. */
  lemma ArchiveRows(h: History, i: nat, k: nat)
    requires Inv(h) && i < |h.trail.anchors| && k < |h.all|
    ensures h.all[k] in h.trail.anchors[i].archive <==> h.trail.anchors[i].first - 1 <= k < h.trail.anchors[i].through
  {
    var a := h.trail.anchors[i];
    assert CutAt(h.all, h.trail.anchors, i);
    assert RowAt(h.all, k, 1, Genesis);
    if a.first - 1 <= k < a.through {
      assert a.archive[k - (a.first - 1)] == h.all[k];
    }
    if x :| 0 <= x < |a.archive| && a.archive[x] == h.all[k] {
      assert RowAt(h.all, a.first - 1 + x, 1, Genesis);
    }
  }

  /** No row is ever lost: it is in the table, or in an archive, and never in both. */
  lemma EveryRowIsSomewhere(steps: seq<Step>, k: nat)
    requires k < |RunAll(EMPTY, steps).all|
    ensures var h := RunAll(EMPTY, steps);
            h.all[k] in h.trail.rows <==> !exists i :: 0 <= i < |h.trail.anchors| && h.all[k] in h.trail.anchors[i].archive
  {
    EmptyIsInv();
    RunAllKeeps(EMPTY, steps);
    var h := RunAll(EMPTY, steps);
    var a := h.trail.anchors;
    var n := CutSoFar(h.trail);
    if k >= n {
      TableIds(h, k - n);
      forall i | 0 <= i < |a| ensures h.all[k] !in a[i].archive {
        ThroughGrows(h, i + 1, |a|);
        ArchiveRows(h, i, k);
      }
    } else {
      var i := CoveringCut(h, k, |a|);
      assert CutAt(h.all, a, i);
      ArchiveRows(h, i, k);
      assert RowAt(h.all, k, 1, Genesis);
      forall x | 0 <= x < |h.trail.rows| ensures h.trail.rows[x] != h.all[k] {
        TableIds(h, x);
      }
    }
  }

  ghost predicate ConsecutiveTo(anchors: seq<Anchor>, m: nat)
    requires m <= |anchors|
  {
    forall i :: 0 <= i < m ==> FollowsOn(anchors, i)
  }

  lemma {:induction false} ArchivedLength(h: History, m: nat)
    requires Inv(h) && m <= |h.trail.anchors|
    ensures var a := h.trail.anchors; var n := Through(a, m);
            && (ConsecutiveTo(a, m) ==> n <= |h.all| && Archived(a[..m]) == h.all[..n])
            && |Archived(a[..m])| >= n
            && (!ConsecutiveTo(a, m) ==> |Archived(a[..m])| > n)
  {
    if m > 0 {
      ArchivedLength(h, m - 1);
      var a := h.trail.anchors;
      assert CutAt(h.all, a, m - 1);
      assert a[..m][..m - 1] == a[..m - 1];
      assert ConsecutiveTo(a, m) <==> ConsecutiveTo(a, m - 1) && FollowsOn(a, m - 1);
      if ConsecutiveTo(a, m) {
        var p := Through(a, m - 1);
        assert Archived(a[..m]) == h.all[..p] + h.all[p..a[m - 1].through];
      }
    }
  }

  /**
    The archives one after another and then the table are the whole history,
    each row once — exactly when every cut started where the one before ended.
  */
  lemma ArchivesThenTableIff(steps: seq<Step>)
    ensures var h := RunAll(EMPTY, steps);
            Archived(h.trail.anchors) + h.trail.rows == h.all <==> Consecutive(h.trail.anchors)
  {
    EmptyIsInv();
    RunAllKeeps(EMPTY, steps);
    var h := RunAll(EMPTY, steps);
    var a := h.trail.anchors;
    assert a[..|a|] == a;
    ArchivedLength(h, |a|);
    var n := CutSoFar(h.trail);
    assert |h.trail.rows| == |h.all| - n;
    if Consecutive(a) {
      assert h.all == h.all[..n] + h.all[n..];
    }
  }

  /** A cut continues the archives exactly when nothing was cut since its seal was planned. */
  lemma CleanCutIff(h: History, job: nat)
    requires Inv(h) && Cut(h.trail, job).Done? && Consecutive(h.trail.anchors)
    ensures Consecutive(Take(h, CutStep(job)).trail.anchors) <==> h.trail.jobs[job].first == h.trail.rows[0].id
  {
    hide Inv, CutSize;
    CutIsExact(h, job);
    CutIsPositive(h, job);
    TableIds(h, 0);
    var a, b := h.trail.anchors, Take(h, CutStep(job)).trail.anchors;
    forall i | 0 <= i < |a| ensures FollowsOn(b, i) {
      assert FollowsOn(a, i);
      assert Through(b, i) == Through(a, i);
    }
    assert Through(b, |a|) == Through(a, |a|);
    assert Consecutive(b) <==> FollowsOn(b, |a|);
  }

  lemma CutIsPositive(h: History, job: nat)
    requires Cut(h.trail, job).Done?
    ensures job in h.trail.jobs && |h.trail.rows| > 0
  {
  }

  // Two prunes sealed before either of them cuts: the second archives again
  // the row the first one cut.

  const E1 := Event(1, "", None)
  const E2 := Event(2, "", None)
  const R1 := Sealed(1, Genesis, E1)
  const R2 := Sealed(2, R1.hash, E2)
  const J0 := Job(1, 1, R1.hash, [R1])
  const J1 := Job(1, 2, R2.hash, [R1, R2])
  const BOTH_SEALED := History(Trail([R1, R2], [], map[0 := J0, 1 := J1]), [R1, R2])
  const TWICE := [Anchor(1, 1, 1, R1.hash, 2, [R1]), Anchor(1, 2, 1, R2.hash, 0, [R1, R2])]

  lemma SealedTwice()
    ensures Take(Take(Take(Take(EMPTY, Append(E1)), Append(E2)), SealStep(0, 2, None, false)), SealStep(1, 3, None, false)) == BOTH_SEALED
  {
    var h2 := History(Trail([R1, R2], [], map[]), [R1, R2]);
    assert Take(Take(EMPTY, Append(E1)), Append(E2)) == h2;
    SealedOne(map[], 0, 2, 1);
    SealedOne(map[0 := J0], 1, 3, 2);
  }

  lemma SealedOne(jobs: map<nat, Job>, job: nat, cutoff: int, k: nat)
    requires (cutoff == 2 && k == 1) || (cutoff == 3 && k == 2)
    ensures Take(History(Trail([R1, R2], [], jobs), [R1, R2]), SealStep(job, cutoff, None, false))
         == History(Trail([R1, R2], [], jobs[job := if k == 1 then J0 else J1]), [R1, R2])
  {
    var rows := [R1, R2];
    assert rows[..1] == [R1] && rows[..2] == rows;
    assert rows[..|rows| - 1] == [R1];
    assert OldPrefix([R1], 2, None) == 1;
    assert OldPrefix(rows, cutoff, None) == k;
    forall i | 0 <= i < |rows[..k]| ensures RowAt(rows[..k], i, 1, Genesis) {
    }
    assert JobFor(rows, k) == if k == 1 then J0 else J1;
  }

  lemma CutTwice()
    ensures Take(Take(BOTH_SEALED, CutStep(0)), CutStep(1)) == History(Trail([], TWICE, map[]), [R1, R2])
  {
    assert CutSize([R1, R2], 1) == 1 by { assert [R1, R2][1..] == [R2]; }
    assert CutSize([R2], 2) == 1;
    assert Take(BOTH_SEALED, CutStep(0)) == History(Trail([R2], TWICE[..1], map[1 := J1]), [R1, R2]);
    assert TWICE == TWICE[..1] + [TWICE[1]];
  }

  /** So a row can be in two archives, while the trail still verifies. */
  lemma OverlappingPrunes()
    ensures var steps := [Append(E1), Append(E2), SealStep(0, 2, None, false), SealStep(1, 3, None, false), CutStep(0), CutStep(1)];
            var h := RunAll(EMPTY, steps);
            h.trail.anchors == TWICE && !Consecutive(h.trail.anchors) && R1 in TWICE[0].archive && R1 in TWICE[1].archive
  {
    hide Take, RunAll;
    SealedTwice();
    CutTwice();
    var f := [CutStep(1)];
    var e := [CutStep(0)] + f;
    var d := [SealStep(1, 3, None, false)] + e;
    var c := [SealStep(0, 2, None, false)] + d;
    var b := [Append(E2)] + c;
    RunAllTakes(EMPTY, Append(E1), b);
    var h1 := Take(EMPTY, Append(E1));
    RunAllTakes(h1, Append(E2), c);
    RunAllTakes(Take(h1, Append(E2)), SealStep(0, 2, None, false), d);
    RunAllTakes(Take(Take(h1, Append(E2)), SealStep(0, 2, None, false)), SealStep(1, 3, None, false), e);
    RunAllTakes(BOTH_SEALED, CutStep(0), f);
    RunAllTakes(Take(BOTH_SEALED, CutStep(0)), CutStep(1), []);
    RunAllNone(Take(Take(BOTH_SEALED, CutStep(0)), CutStep(1)));
    assert f == [CutStep(1)] + [];
    assert [Append(E1)] + b == [Append(E1), Append(E2), SealStep(0, 2, None, false), SealStep(1, 3, None, false), CutStep(0), CutStep(1)];
    assert !FollowsOn(TWICE, 1);
  }

  lemma RunAllNone(h: History)
    ensures RunAll(h, []) == h
  {
  }

  lemma RunAllTakes(h: History, step: Step, rest: seq<Step>)
    ensures RunAll(h, [step] + rest) == RunAll(Take(h, step), rest)
  {
    assert ([step] + rest)[1..] == rest;
  }
}
