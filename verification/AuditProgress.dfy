/**
  What the audit trail gets done: which rows a prune takes, that what was logged
  is what is kept, and that forwarding reaches the end of the trail.
*/
module AuditProgress {
  import opened Wrappers
  import opened AuditLog
  import AuditDelivery

  // ------------------------------------------------------ what is on record

  /** The events a run logs, in order. */
  function Logged(steps: seq<Step>): seq<Event>
    decreases |steps|
  {
    if steps == [] then [] else (if steps[0].Append? then [steps[0].event] else []) + Logged(steps[1..])
  }

  /** Every event logged is a row of the history, as it was logged and in that order, whatever was pruned. */
  lemma {:induction false} HistoryIsWhatWasLogged(h: History, steps: seq<Step>)
    ensures var g := RunAll(h, steps);
            && |g.all| == |h.all| + |Logged(steps)|
            && (forall i :: 0 <= i < |h.all| ==> g.all[i] == h.all[i])
            && forall i :: 0 <= i < |Logged(steps)| ==> g.all[|h.all| + i].event == Logged(steps)[i]
    decreases |steps|
  {
    hide Tip, Seal, Cut;
    if steps != [] {
      HistoryIsWhatWasLogged(Take(h, steps[0]), steps[1..]);
    }
  }

  // -------------------------------------------------------- what a prune takes

  /** A prune may take this row: it is older than the cutoff, and no sink is waiting for it unless that is forced. */
  predicate MayGo(r: Row, cutoff: int, hold: Option<nat>, force: bool) {
    r.event.time < cutoff && (force || hold.None? || r.id <= hold.value)
  }

  /** These many rows from the front are the ones up to the last that may go. */
  predicate UpToLast(rows: seq<Row>, k: nat, cutoff: int, hold: Option<nat>, force: bool) {
    && k <= |rows|
    && (k > 0 ==> MayGo(rows[k - 1], cutoff, hold, force))
    && forall i :: k <= i < |rows| ==> !MayGo(rows[i], cutoff, hold, force)
  }

  lemma PlanIsUpToLast(h: History, cutoff: int, hold: Option<nat>, force: bool)
    requires Inv(h)
    ensures UpToLast(h.trail.rows, Plan(h.trail.rows, cutoff, hold, force), cutoff, hold, force)
  {
    hide Inv;
    var rows := h.trail.rows;
    OldPrefixIs(rows, cutoff, None);
    OldPrefixIs(rows, cutoff, hold);
    var asked := OldPrefix(rows, cutoff, None);
    forall i, j | 0 <= i < j < |rows| ensures rows[i].id < rows[j].id {
      TableIds(h, i);
      TableIds(h, j);
    }
  }

  /**
    A prune seals exactly the rows up to the last that may go, from the first
    the table holds, and is refused exactly when no row may go.
  */
  lemma SealTakesUpToLast(h: History, job: nat, cutoff: int, hold: Option<nat>, force: bool)
    requires Inv(h)
    ensures var rows := h.trail.rows; var sealed := Seal(h.trail, job, cutoff, hold, force);
            && (sealed == Refused(NothingToPrune) <==> forall i :: 0 <= i < |rows| ==> !MayGo(rows[i], cutoff, hold, force))
            && (sealed.Refused? ==> sealed == Refused(NothingToPrune))
            && (sealed.Done? ==>
                 && sealed.trail.rows == rows && sealed.trail.anchors == h.trail.anchors && job in sealed.trail.jobs
                 && exists k: nat :: 0 < k && UpToLast(rows, k, cutoff, hold, force)
                      && sealed.trail.jobs[job] == Job(rows[0].id, rows[k - 1].id, rows[k - 1].hash, rows[..k]))
  {
    hide Inv, Linked;
    PlanIsUpToLast(h, cutoff, hold, force);
    SealKeeps(h, job, cutoff, hold, force);
  }

  /** What a seal plans, a cut with nothing in between removes. */
  lemma CutTakesPlanned(h: History, job: nat, cutoff: int, hold: Option<nat>, force: bool)
    requires Inv(h) && job !in h.trail.jobs
    ensures var rows := h.trail.rows;
            Take(Take(h, SealStep(job, cutoff, hold, force)), CutStep(job)).trail.rows == rows[Plan(rows, cutoff, hold, force)..]
  {
    hide Inv, Linked, Plan, CutSize;
    var k := Plan(h.trail.rows, cutoff, hold, force);
    SealKeeps(h, job, cutoff, hold, force);
    if k > 0 {
      var g := Take(h, SealStep(job, cutoff, hold, force));
      CutIsExact(g, job);
      TableIds(h, k - 1);
      SealedReaches(h, job, cutoff, hold, force);
    }
  }

  lemma SealedReaches(h: History, job: nat, cutoff: int, hold: Option<nat>, force: bool)
    requires Inv(h) && Plan(h.trail.rows, cutoff, hold, force) > 0
    ensures var g := Take(h, SealStep(job, cutoff, hold, force));
            && g.trail.rows == h.trail.rows && g.trail.anchors == h.trail.anchors && job in g.trail.jobs
            && g.trail.jobs[job].through == CutSoFar(h.trail) + Plan(h.trail.rows, cutoff, hold, force)
  {
    hide Inv, Linked, Plan;
    SealKeeps(h, job, cutoff, hold, force);
    TableIds(h, Plan(h.trail.rows, cutoff, hold, force) - 1);
  }

  /** A prune with nothing in between leaves exactly the rows after the last that may go. */
  lemma PruneLeavesTheRest(h: History, job: nat, cutoff: int, hold: Option<nat>, force: bool)
    requires Inv(h) && job !in h.trail.jobs
    ensures var after := Take(Take(h, SealStep(job, cutoff, hold, force)), CutStep(job)).trail;
            && (exists k: nat :: UpToLast(h.trail.rows, k, cutoff, hold, force) && after.rows == h.trail.rows[k..])
            && forall i :: 0 <= i < |after.rows| ==> !MayGo(after.rows[i], cutoff, hold, force)
  {
    hide Inv, Plan, Take;
    CutTakesPlanned(h, job, cutoff, hold, force);
    PlanIsUpToLast(h, cutoff, hold, force);
  }

  /** The table has the row a job ends in, as it was sealed. */
  predicate BoundaryStands(rows: seq<Row>, j: Job) {
    exists i :: 0 <= i < |rows| && rows[i].id == j.through && rows[i].hash == j.boundary
  }

  /**
    A cut of any table in id order, tampered with or not, goes through exactly
    when its boundary row is there as it was sealed; it then takes the rows up to
    that one and records where it started, how many it took and what follows.
  */
  lemma CutNeedsItsBoundary(t: Trail, job: nat)
    requires job in t.jobs && forall i, j :: 0 <= i < j < |t.rows| ==> t.rows[i].id < t.rows[j].id
    ensures var j := t.jobs[job]; var cut := Cut(t, job);
            && (cut.Done? <==> BoundaryStands(t.rows, j))
            && (cut == Refused(BoundaryChanged) <==> !BoundaryStands(t.rows, j) && exists i :: 0 <= i < |t.rows| && t.rows[i].id == j.through)
            && (cut.Done? ==>
                 && (exists k :: 0 < k <= |t.rows| && t.rows[k - 1].id == j.through && cut.trail.rows == t.rows[k..]
                      && cut.trail.anchors ==
                           t.anchors + [Anchor(j.first, j.through, k, j.boundary, if k < |t.rows| then t.rows[k].id else 0, j.archive)])
                 && cut.trail.jobs == t.jobs - {job})
  {
    var j := t.jobs[job];
    var k := CutSize(t.rows, j.through);
    assert forall i :: 0 <= i < k - 1 ==> t.rows[i].id < t.rows[k - 1].id <= j.through;
    assert forall i :: k <= i < |t.rows| ==> t.rows[i].id >= t.rows[k].id > j.through;
    if k > 0 && t.rows[k - 1].id == j.through && t.rows[k - 1].hash == j.boundary {
      assert BoundaryStands(t.rows, j);
    }
  }

  // ------------------------------------------------------- what is forwarded

  type Net = AuditDelivery.Net
  type Sink = AuditDelivery.Sink
  type Leader = AuditDelivery.Leader

  /** The sink is configured, and its cursor is not past the end. */
  predicate Configured(n: Net, s: Sink) {
    s in n.cursors && s in n.logs && n.cursors[s] <= |n.h.all|
  }

  /** A leader loads the cursor, sends a batch and hears that it arrived. */
  function Round(l: Leader, s: Sink, size: nat): seq<AuditDelivery.Step> {
    [AuditDelivery.Load(l, s), AuditDelivery.Send(l, s, size), AuditDelivery.Acknowledge(l, s)]
  }

  function Min(a: int, b: int): int {
    if a < b then a else b
  }

  lemma BatchIs(h: History, acked: nat, size: nat)
    requires Inv(h) && acked <= |h.all|
    ensures AuditDelivery.Batch(h.trail.rows, acked, size)
         == if acked < CutSoFar(h.trail) then [] else h.all[acked..Min(acked + size, |h.all|)]
  {
    var cut := CutSoFar(h.trail);
    if h.trail.rows != [] {
      TableIds(h, 0);
    }
  }

  /** Where a round takes a cursor: by a batch towards the end or, if a forced prune cut past it, to the cut. */
  function Moved(n: Net, s: Sink, size: nat): int
    requires Configured(n, s)
  {
    var cut := CutSoFar(n.h.trail);
    if n.cursors[s] < cut then cut else Min(n.cursors[s] + size, |n.h.all|)
  }

  /** What a round sends: the rows the cursor moves over, as far as the table still has them. */
  function Delivered(n: Net, s: Sink, size: nat): seq<Row>
    requires Configured(n, s)
  {
    if n.cursors[s] < CutSoFar(n.h.trail) then [] else n.h.all[n.cursors[s]..Moved(n, s, size)]
  }

  lemma RoundIs(n: Net, l: Leader, s: Sink, size: nat)
    ensures AuditDelivery.RunAll(n, Round(l, s, size))
         == AuditDelivery.Next(AuditDelivery.Next(AuditDelivery.Next(n, AuditDelivery.Load(l, s)), AuditDelivery.Send(l, s, size)),
                               AuditDelivery.Acknowledge(l, s))
  {
    hide AuditDelivery.Next;
    var r := Round(l, s, size);
    assert r[1..] == [AuditDelivery.Send(l, s, size), AuditDelivery.Acknowledge(l, s)] && r[1..][1..] == [AuditDelivery.Acknowledge(l, s)];
    var loaded := AuditDelivery.Next(n, AuditDelivery.Load(l, s));
    var sent := AuditDelivery.Next(loaded, AuditDelivery.Send(l, s, size));
    assert AuditDelivery.RunAll(n, r) == AuditDelivery.RunAll(loaded, r[1..]);
    assert AuditDelivery.RunAll(loaded, r[1..]) == AuditDelivery.RunAll(sent, r[1..][1..]);
    var acked := AuditDelivery.Next(sent, AuditDelivery.Acknowledge(l, s));
    assert r[1..][1..][1..] == [] && AuditDelivery.RunAll(sent, r[1..][1..]) == AuditDelivery.RunAll(acked, []);
  }

  /** A leader that has just loaded the cursor sends what the cursor is to move over, or moves it to the cut. */
  lemma SendIs(n: Net, l: Leader, s: Sink, size: nat)
    requires Inv(n.h) && Configured(n, s) && (l, s) in n.views && n.views[(l, s)] == AuditDelivery.View(n.cursors[s], None)
    ensures var m := AuditDelivery.Next(n, AuditDelivery.Send(l, s, size));
            var rows := Delivered(n, s, size);
            && m.h == n.h && m.logs == n.logs[s := n.logs[s] + rows]
            && m.cursors == n.cursors[s := if n.cursors[s] < CutSoFar(n.h.trail) then CutSoFar(n.h.trail) else n.cursors[s]]
            && (l, s) in m.views
            && m.views[(l, s)] == AuditDelivery.View(m.cursors[s], if rows == [] then None else Some(m.cursors[s] + |rows|))
  {
    hide Inv, AuditDelivery.Batch;
    BatchIs(n.h, n.cursors[s], size);
    assert n.logs[s] + [] == n.logs[s];
  }

  lemma LoadIs(n: Net, l: Leader, s: Sink)
    requires s in n.cursors
    ensures var m := AuditDelivery.Next(n, AuditDelivery.Load(l, s));
            m.h == n.h && m.cursors == n.cursors && m.logs == n.logs && (l, s) in m.views && m.views[(l, s)] == AuditDelivery.View(n.cursors[s], None)
  {
  }

  lemma AnswerIs(n: Net, l: Leader, s: Sink)
    requires s in n.cursors && (l, s) in n.views && n.views[(l, s)].acked == n.cursors[s]
    ensures var m := AuditDelivery.Next(n, AuditDelivery.Acknowledge(l, s));
            && m.h == n.h && m.logs == n.logs
            && m.cursors == n.cursors[s := if n.views[(l, s)].sent.Some? then n.views[(l, s)].sent.value else n.cursors[s]]
  {
  }

  /** Whatever copies other leaders hold, a round by one leader moves the cursor, sends what it moves over, and changes no other sink. */
  lemma RoundMoves(n: Net, l: Leader, s: Sink, size: nat)
    requires Inv(n.h) && Configured(n, s)
    ensures var m := AuditDelivery.RunAll(n, Round(l, s, size));
            && m.h == n.h && m.cursors == n.cursors[s := Moved(n, s, size)]
            && m.logs == n.logs[s := n.logs[s] + Delivered(n, s, size)]
            && Configured(m, s)
  {
    hide Inv, CutSoFar, AuditDelivery.RunAll, AuditDelivery.Next;
    assert CutSoFar(n.h.trail) <= |n.h.all| by { AuditDelivery.TableIs(n.h); }
    RoundIs(n, l, s, size);
    var loaded := AuditDelivery.Next(n, AuditDelivery.Load(l, s));
    LoadIs(n, l, s);
    SendIs(loaded, l, s, size);
    AnswerIs(AuditDelivery.Next(loaded, AuditDelivery.Send(l, s, size)), l, s);
  }

  /** Rounds for one sink, one after another. */
  ghost function Rounds(n: Net, l: Leader, s: Sink, size: nat, k: nat): Net
    decreases k
  {
    if k == 0 then n else Rounds(AuditDelivery.RunAll(n, Round(l, s, size)), l, s, size, k - 1)
  }

  /** The sink holds every row of the history from one place on. */
  ghost predicate HoldsFrom(n: Net, s: Sink, from: nat) {
    s in n.logs && forall i :: from <= i < |n.h.all| ==> n.h.all[i] in n.logs[s]
  }

  /** Enough rounds take a cursor to the end, and its sink has every row from where it stood that a forced prune has not removed. */
  lemma {:induction false} RoundsReachTheEnd(n: Net, l: Leader, s: Sink, size: nat, k: nat)
    requires Inv(n.h) && Configured(n, s) && size > 0 && k >= |n.h.all| - n.cursors[s]
    ensures var m := Rounds(n, l, s, size, k);
            && m.h == n.h && m.cursors == n.cursors[s := |n.h.all|]
            && s in m.logs && m.logs == n.logs[s := m.logs[s]] && n.logs[s] <= m.logs[s]
            && HoldsFrom(m, s, if n.cursors[s] < CutSoFar(n.h.trail) then CutSoFar(n.h.trail) else n.cursors[s])
    decreases k
  {
    hide Inv, AuditDelivery.RunAll;
    assert CutSoFar(n.h.trail) <= |n.h.all| by { AuditDelivery.TableIs(n.h); }
    if k > 0 {
      var one := AuditDelivery.RunAll(n, Round(l, s, size));
      RoundMoves(n, l, s, size);
      RoundsReachTheEnd(one, l, s, size, k - 1);
      var m := Rounds(one, l, s, size, k - 1);
      var from := if n.cursors[s] < CutSoFar(n.h.trail) then CutSoFar(n.h.trail) else n.cursors[s];
      forall i | from <= i < |n.h.all| ensures n.h.all[i] in m.logs[s] {
        if i < Moved(n, s, size) {
          assert Delivered(n, s, size)[i - n.cursors[s]] == n.h.all[i];
          assert n.h.all[i] in one.logs[s];
        }
      }
    }
  }

  /** And so for one sink after another. */
  ghost function AllRounds(n: Net, l: Leader, sinks: seq<Sink>, size: nat, k: nat): Net
    decreases |sinks|
  {
    if sinks == [] then n else AllRounds(Rounds(n, l, sinks[0], size, k), l, sinks[1..], size, k)
  }

  lemma {:induction false} AllReachTheEnd(n: Net, l: Leader, sinks: seq<Sink>, size: nat, k: nat)
    requires Inv(n.h) && size > 0 && k >= |n.h.all| && (forall s :: s in sinks ==> Configured(n, s))
    ensures var m := AllRounds(n, l, sinks, size, k);
            && m.h == n.h && m.cursors.Keys == n.cursors.Keys && m.logs.Keys == n.logs.Keys
            && (forall s :: s in n.cursors ==> m.cursors[s] == if s in sinks then |n.h.all| else n.cursors[s])
            && (forall s :: s in n.logs ==> n.logs[s] <= m.logs[s])
            && forall s :: s in sinks && s in n.cursors && n.cursors[s] >= CutSoFar(n.h.trail) ==> HoldsFrom(m, s, n.cursors[s])
    decreases |sinks|
  {
    hide Inv, Rounds;
    if sinks != [] {
      var s := sinks[0];
      RoundsReachTheEnd(n, l, s, size, k);
      var one := Rounds(n, l, s, size, k);
      forall x | x in sinks[1..] ensures Configured(one, x) {
        assert Configured(n, x);
      }
      AllReachTheEnd(one, l, sinks[1..], size, k);
      var m := AllRounds(one, l, sinks[1..], size, k);
      assert forall x :: x in sinks <==> x == s || x in sinks[1..];
      forall x | x in sinks && n.cursors[x] >= CutSoFar(n.h.trail) ensures HoldsFrom(m, x, n.cursors[x]) {
        if x == s {
          assert HoldsFrom(one, x, n.cursors[x]);
          assert forall i :: n.cursors[x] <= i < |n.h.all| ==> n.h.all[i] in one.logs[x];
        } else {
          assert HoldsFrom(m, x, one.cursors[x]);
        }
      }
    }
  }

  /**
    Left to itself one leader brings every sink the whole history: from any
    state unforced runs reach, with rounds for each sink, every cursor stands at
    the end, every sink has every row ever written, and no sink holds up a prune
    any longer.
  */
  lemma EverythingArrives(n: Net, l: Leader, sinks: seq<Sink>, size: nat, k: nat)
    requires AuditDelivery.Inv(n) && size > 0 && k >= |n.h.all| && forall s :: s in n.cursors <==> s in sinks
    ensures var m := AllRounds(n, l, sinks, size, k);
            && m.h == n.h
            && (forall s :: s in m.cursors ==> m.cursors[s] == |m.h.all| && HoldsFrom(m, s, 0))
            && AuditDelivery.HoldRead(m.cursors, Some(|m.h.all|))
            && forall cutoff :: var rows := m.h.trail.rows; UpToLast(rows, Plan(rows, cutoff, Some(|m.h.all|), false), cutoff, None, true)
  {
    hide Inv, AllRounds, Plan;
    forall s | s in sinks ensures Configured(n, s) && AuditDelivery.Has(n, s, n.cursors[s]) {
    }
    AllReachTheEnd(n, l, sinks, size, k);
    var m := AllRounds(n, l, sinks, size, k);
    forall s | s in m.cursors ensures m.cursors[s] == |m.h.all| && HoldsFrom(m, s, 0) {
      assert s in sinks && HoldsFrom(m, s, n.cursors[s]);
      forall i | 0 <= i < |m.h.all| ensures m.h.all[i] in m.logs[s] {
        if i < n.cursors[s] {
          assert n.h.all[i] in n.logs[s];
        }
      }
    }
    forall cutoff ensures var rows := m.h.trail.rows; UpToLast(rows, Plan(rows, cutoff, Some(|m.h.all|), false), cutoff, None, true) {
      EndHoldsNothingUp(n.h, cutoff);
    }
  }

  /** A hold at the end of the trail keeps no row: a prune takes what a forced one would. */
  lemma EndHoldsNothingUp(h: History, cutoff: int)
    requires Inv(h)
    ensures var rows := h.trail.rows; UpToLast(rows, Plan(rows, cutoff, Some(|h.all|), false), cutoff, None, true)
  {
    hide Inv, Plan;
    PlanIsUpToLast(h, cutoff, Some(|h.all|), false);
    AuditDelivery.TableIs(h);
    forall i | 0 <= i < |h.trail.rows| ensures h.trail.rows[i].id <= |h.all| {
      TableIds(h, i);
    }
  }

  // ------------------------------------------------------- single answers

  /** An answer moves the cursor to the last row sent if it stands where the leader read it, and otherwise leaves it; the leader's copy is then where it stands. */
  lemma AnswerMoves(n: Net, l: Leader, s: Sink)
    requires AuditDelivery.Inv(n) && (l, s) in n.views && s in n.cursors
    ensures var m := AuditDelivery.Next(n, AuditDelivery.Acknowledge(l, s));
            var v := n.views[(l, s)];
            && m.h == n.h && m.logs == n.logs && (forall x :: x in n.cursors && x != s ==> x in m.cursors && m.cursors[x] == n.cursors[x])
            && s in m.cursors && (l, s) in m.views
            && (v.sent.Some? && n.cursors[s] == v.acked ==> m.cursors[s] == v.sent.value)
            && (v.sent.None? || n.cursors[s] != v.acked ==> m.cursors[s] == n.cursors[s])
            && (v.sent.Some? ==> m.views[(l, s)] == AuditDelivery.View(m.cursors[s], None))
  {
  }

  /** What a send records as sent is the id of the last row the sink got from it. */
  lemma SentIsLast(n: Net, l: Leader, s: Sink, size: nat)
    requires AuditDelivery.Inv(n) && (l, s) in n.views && n.views[(l, s)].sent.None?
    requires CutSoFar(n.h.trail) <= n.views[(l, s)].acked < |n.h.all| && size > 0
    ensures var m := AuditDelivery.Next(n, AuditDelivery.Send(l, s, size));
            && s in m.logs && |m.logs[s]| > |n.logs[s]| && n.logs[s] <= m.logs[s] && (l, s) in m.views
            && m.logs[s][|n.logs[s]|].id == n.views[(l, s)].acked + 1
            && m.views[(l, s)].sent == Some(m.logs[s][|m.logs[s]| - 1].id)
            && |m.logs[s]| - |n.logs[s]| == Min(size, |n.h.all| - n.views[(l, s)].acked)
  {
    hide AuditDelivery.Batch, Inv, AuditDelivery.CursorsOk, AuditDelivery.Held;
    var acked := n.views[(l, s)].acked;
    assert AuditDelivery.ViewOk(n, (l, s));
    BatchIs(n.h, acked, size);
    var last := Min(acked + size, |n.h.all|) - 1;
    AuditDelivery.HistoryRow(n.h, acked);
    AuditDelivery.HistoryRow(n.h, last);
  }

  /** A batch whose answer does not come is sent again, and the cursor waits for it. */
  lemma FailedIsResent(n: Net, l: Leader, s: Sink, size: nat)
    requires Inv(n.h) && Configured(n, s) && CutSoFar(n.h.trail) <= n.cursors[s]
    ensures var once := AuditDelivery.Next(AuditDelivery.Next(n, AuditDelivery.Load(l, s)), AuditDelivery.Send(l, s, size));
            var again := AuditDelivery.Next(AuditDelivery.Next(once, AuditDelivery.Fail(l, s)), AuditDelivery.Send(l, s, size));
            var batch := n.h.all[n.cursors[s]..Moved(n, s, size)];
            && once.logs == n.logs[s := n.logs[s] + batch] && again.logs == n.logs[s := n.logs[s] + batch + batch]
            && once.cursors == again.cursors == n.cursors
  {
    hide Inv, AuditDelivery.Batch;
    BatchIs(n.h, n.cursors[s], size);
    assert n.logs[s] + [] + [] == n.logs[s] + [] == n.logs[s];
  }

  /** A leader that crashes takes its own copies with it and nothing else. */
  lemma CrashForgets(n: Net, l: Leader)
    ensures var m := AuditDelivery.Next(n, AuditDelivery.Crash(l));
            && m.h == n.h && m.cursors == n.cursors && m.logs == n.logs
            && forall k :: k in m.views <==> k in n.views && k.0 != l
  {
  }
}
