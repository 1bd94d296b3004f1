/**
  Forwarding the audit trail to its sinks: each sink has one cursor, moved only
  by an acknowledgement and only from where the mover read it, while any number
  of would-be leaders send, crash, resend and race, and retention prunes.
*/
module AuditDelivery {
  import opened Wrappers
  import opened AuditLog
  import AuditStream

  type Sink = nat
  type Leader = nat

  /** A leader's copy of a cursor, and how far it has sent past it without an answer. */
  datatype View = View(acked: nat, sent: Option<nat>)

  datatype Net = Net(h: History, cursors: map<Sink, nat>, logs: map<Sink, seq<Row>>, views: map<(Leader, Sink), View>)

  datatype Step =
    | Log(event: Event)
    | Plan(job: nat, cutoff: int, hold: Option<nat>, force: bool)
    | Remove(job: nat)
    | Load(l: Leader, s: Sink)
    | Send(l: Leader, s: Sink, size: nat)
    | Acknowledge(l: Leader, s: Sink)
    | Fail(l: Leader, s: Sink)
    | Crash(l: Leader)

  /** The hold a prune may have read: no further than any cursor is now, and none only without sinks. */
  predicate HoldRead(cursors: map<Sink, nat>, hold: Option<nat>) {
    match hold
    case None => cursors == map[]
    case Some(h) => forall s :: s in cursors ==> h <= cursors[s]
  }

  /** The rows a leader reads to send: from just after its cursor, when the table continues it. */
  function Batch(rows: seq<Row>, acked: nat, size: nat): seq<Row> {
    if rows != [] && rows[0].id <= acked + 1 && acked + 1 - rows[0].id <= |rows| then
      var from := acked + 1 - rows[0].id;
      rows[from..if from + size <= |rows| then from + size else |rows|]
    else []
  }

  /**
    A leader that finds the table does not continue its copy re-reads the
    cursor; only if the cursor still stands there are the rows gone, and it
    moves to just before the oldest row left.
  */
  function Realigned(n: Net, l: Leader, s: Sink): Net
    requires (l, s) in n.views && s in n.cursors
  {
    var cut := CutSoFar(n.h.trail);
    if n.views[(l, s)].acked < cut then
      var moved := if n.cursors[s] == n.views[(l, s)].acked then n.(cursors := n.cursors[s := cut]) else n;
      moved.(views := moved.views[(l, s) := View(moved.cursors[s], None)])
    else n
  }

  ghost function Next(n: Net, step: Step): Net {
    match step
    case Log(e) => n.(h := AuditLog.Take(n.h, Append(e)))
    case Plan(job, cutoff, hold, force) =>
      if HoldRead(n.cursors, hold) then n.(h := AuditLog.Take(n.h, SealStep(job, cutoff, hold, force))) else n
    case Remove(job) => n.(h := AuditLog.Take(n.h, CutStep(job)))
    case Load(l, s) => if s in n.cursors then n.(views := n.views[(l, s) := View(n.cursors[s], None)]) else n
    case Send(l, s, size) =>
      if (l, s) !in n.views || s !in n.cursors || s !in n.logs || n.views[(l, s)].sent.Some? then n
      else
        var v := n.views[(l, s)];
        var rows := Batch(n.h.trail.rows, v.acked, size);
        if rows == [] then Realigned(n, l, s)
        else n.(logs := n.logs[s := n.logs[s] + rows], views := n.views[(l, s) := View(v.acked, Some(v.acked + |rows|))])
    case Acknowledge(l, s) =>
      if (l, s) !in n.views || s !in n.cursors || n.views[(l, s)].sent.None? then n
      else
        var v := n.views[(l, s)];
        var moved := if n.cursors[s] == v.acked then n.(cursors := n.cursors[s := v.sent.value]) else n;
        moved.(views := moved.views[(l, s) := View(moved.cursors[s], None)])
    case Fail(l, s) => if (l, s) in n.views then n.(views := n.views[(l, s) := n.views[(l, s)].(sent := None)]) else n
    case Crash(l) => n.(views := map k | k in n.views && k.0 != l :: n.views[k])
  }

  ghost function RunAll(n: Net, steps: seq<Step>): Net
    decreases |steps|
  {
    if steps == [] then n else RunAll(Next(n, steps[0]), steps[1..])
  }

  /** A trail nobody has written to yet, with its sinks configured. */
  function Start(sinks: set<Sink>): Net {
    Net(EMPTY, map s | s in sinks :: 0, map s | s in sinks :: [], map[])
  }

  // ------------------------------------------------------- as a worker does

  predicate InIdOrder(rows: seq<Row>) {
    forall i :: 0 <= i < |rows| ==> rows[i].id == rows[0].id + i
  }

  /** Reading on from a cursor: the rows past it in id order, at most a batch, if the first continues it. */
  method ReadBatch(rows: seq<Row>, acked: nat, size: nat) returns (batch: seq<Row>)
    requires InIdOrder(rows)
    ensures batch == Batch(rows, acked, size)
  {
    var i := 0;
    while i < |rows| && rows[i].id <= acked
      invariant 0 <= i <= |rows|
      invariant forall k :: 0 <= k < i ==> rows[k].id <= acked
    {
      i := i + 1;
    }
    batch := [];
    if i == |rows| || rows[i].id != acked + 1 {
      return;
    }
    var from := i;
    while i < |rows| && |batch| < size
      invariant from <= i <= |rows| && |batch| <= size
      invariant batch == rows[from..i]
    {
      batch := batch + [rows[i]];
      i := i + 1;
    }
  }

  /** The forwarding side of the control plane: cursors, what the sinks hold, and the workers' copies. */
  class Forwarder {
    ghost var h: History
    var cursors: map<Sink, nat>
    var logs: map<Sink, seq<Row>>
    var views: map<(Leader, Sink), View>

    ghost function Value(): Net
      reads this
    {
      Net(h, cursors, logs, views)
    }

    /** Moves a cursor from where the mover read it; anything else is refused. */
    method Advance(s: Sink, from: nat, to: nat) returns (moved: bool)
      modifies this`cursors
      ensures moved <==> s in old(cursors) && old(cursors)[s] == from
      ensures cursors == if moved then old(cursors)[s := to] else old(cursors)
    {
      moved := s in cursors && cursors[s] == from;
      if moved {
        cursors := cursors[s := to];
      }
    }

    /** One batch: `rows` is the table and `cut` the newest cut, as read for this batch. */
    method SendBatch(l: Leader, s: Sink, size: nat, rows: seq<Row>, cut: nat)
      requires rows == h.trail.rows && cut == CutSoFar(h.trail) && InIdOrder(rows)
      modifies this
      ensures Value() == Next(old(Value()), Send(l, s, size))
    {
      if (l, s) !in views || s !in cursors || s !in logs || views[(l, s)].sent.Some? {
        return;
      }
      var acked := views[(l, s)].acked;
      var batch := ReadBatch(rows, acked, size);
      if batch != [] {
        logs := logs[s := logs[s] + batch];
        views := views[(l, s) := View(acked, Some(acked + |batch|))];
      } else if acked < cut {
        var moved := Advance(s, acked, cut);
        views := views[(l, s) := View(cursors[s], None)];
      }
    }

    /** The sink answered: the cursor moves if nobody else moved it, and the copy is read again. */
    method Answered(l: Leader, s: Sink)
      modifies this
      ensures Value() == Next(old(Value()), Acknowledge(l, s))
    {
      if (l, s) !in views || s !in cursors || views[(l, s)].sent.None? {
        return;
      }
      var moved := Advance(s, views[(l, s)].acked, views[(l, s)].sent.value);
      views := views[(l, s) := View(cursors[s], None)];
    }
  }

  // -------------------------------------------------------------- invariant

  /** A sink holds every row of the history up to an id. */
  ghost predicate Has(n: Net, s: Sink, to: nat) {
    && s in n.logs && to <= |n.h.all|
    && forall k :: 0 <= k < to ==> n.h.all[k] in n.logs[s]
  }

  ghost predicate CursorsOk(n: Net) {
    forall s :: s in n.cursors ==> Has(n, s, n.cursors[s])
  }

  /** A leader's copy is a place the cursor has been, and what it sent past it has arrived. */
  ghost predicate ViewOk(n: Net, k: (Leader, Sink))
    requires k in n.views
  {
    && k.1 in n.cursors && n.views[k].acked <= n.cursors[k.1]
    && (n.views[k].sent.Some? ==> n.views[k].acked <= n.views[k].sent.value && Has(n, k.1, n.views[k].sent.value))
  }

  ghost predicate ViewsOk(n: Net) {
    forall k :: k in n.views ==> ViewOk(n, k)
  }

  /** Sinks were only ever sent rows of the history. */
  ghost predicate LogsOk(n: Net) {
    n.logs.Keys == n.cursors.Keys && forall s, i :: s in n.logs && 0 <= i < |n.logs[s]| ==> n.logs[s][i] in n.h.all
  }

  ghost predicate Held(n: Net) {
    && (forall s :: s in n.cursors ==> CutSoFar(n.h.trail) <= n.cursors[s])
    && forall j, s :: j in n.h.trail.jobs && s in n.cursors ==> n.h.trail.jobs[j].through <= n.cursors[s]
  }

  ghost predicate Inv(n: Net) {
    AuditLog.Inv(n.h) && CursorsOk(n) && ViewsOk(n) && LogsOk(n) && Held(n)
  }

  ghost predicate Unforced(steps: seq<Step>) {
    forall i :: 0 <= i < |steps| ==> !(steps[i].Plan? && steps[i].force)
  }

  /** What a sink was sent stays, and the history only grows at its end. */
  lemma HasMore(n: Net, m: Net, s: Sink, to: nat)
    requires Has(n, s, to) && n.h.all <= m.h.all && s in m.logs && n.logs[s] <= m.logs[s]
    ensures Has(m, s, to)
  {
  }

  lemma KeptAcross(n: Net, m: Net)
    requires CursorsOk(n) && ViewsOk(n) && LogsOk(n)
    requires n.h.all <= m.h.all && m.cursors == n.cursors && m.views == n.views && m.logs == n.logs
    ensures CursorsOk(m) && ViewsOk(m) && LogsOk(m)
  {
    forall s | s in m.cursors ensures Has(m, s, m.cursors[s]) {
      HasMore(n, m, s, n.cursors[s]);
    }
    forall k | k in m.views ensures ViewOk(m, k) {
      assert ViewOk(n, k);
      if m.views[k].sent.Some? {
        HasMore(n, m, k.1, m.views[k].sent.value);
      }
    }
  }

  lemma LogKeeps(n: Net, e: Event)
    requires Inv(n)
    ensures Inv(Next(n, Log(e)))
  {
    AppendKeeps(n.h, e);
    KeptAcross(n, Next(n, Log(e)));
  }

  /** An unforced plan never reaches past the hold. */
  lemma PlanWithinHold(rows: seq<Row>, cutoff: int, hold: nat)
    ensures var k := AuditLog.Plan(rows, cutoff, Some(hold), false); k > 0 ==> rows[k - 1].id <= hold
  {
    OldPrefixIs(rows, cutoff, Some(hold));
  }

  lemma PlanKeeps(n: Net, job: nat, cutoff: int, hold: Option<nat>)
    requires Inv(n)
    ensures Inv(Next(n, Plan(job, cutoff, hold, false)))
  {
    hide AuditLog.Inv, AuditLog.Plan, Linked, CursorsOk, ViewsOk, LogsOk;
    var m := Next(n, Plan(job, cutoff, hold, false));
    SealKeeps(n.h, job, cutoff, hold, false);
    KeptAcross(n, m);
    if hold.Some? {
      PlanWithinHold(n.h.trail.rows, cutoff, hold.value);
    }
  }

  lemma RemoveKeeps(n: Net, job: nat)
    requires Inv(n)
    ensures Inv(Next(n, Remove(job)))
  {
    hide AuditLog.Inv;
    CutKeeps(n.h, job);
    KeptAcross(n, Next(n, Remove(job)));
  }

  lemma LoadKeeps(n: Net, l: Leader, s: Sink)
    requires Inv(n)
    ensures Inv(Next(n, Load(l, s)))
  {
    var m := Next(n, Load(l, s));
    forall k | k in m.views ensures ViewOk(m, k) {
      assert k in n.views ==> ViewOk(n, k);
    }
  }

  lemma FailKeeps(n: Net, l: Leader, s: Sink)
    requires Inv(n)
    ensures Inv(Next(n, Fail(l, s)))
  {
    var m := Next(n, Fail(l, s));
    forall k | k in m.views ensures ViewOk(m, k) {
      assert ViewOk(n, k);
    }
  }

  lemma CrashKeeps(n: Net, l: Leader)
    requires Inv(n)
    ensures Inv(Next(n, Crash(l)))
  {
    var m := Next(n, Crash(l));
    forall k | k in m.views ensures ViewOk(m, k) {
      assert ViewOk(n, k);
    }
  }

  lemma AcknowledgeKeeps(n: Net, l: Leader, s: Sink)
    requires Inv(n)
    ensures Inv(Next(n, Acknowledge(l, s)))
  {
    hide AuditLog.Inv;
    var m := Next(n, Acknowledge(l, s));
    if (l, s) in n.views && s in n.cursors && n.views[(l, s)].sent.Some? {
      assert ViewOk(n, (l, s));
      forall k | k in m.views ensures ViewOk(m, k) {
        assert k in n.views && ViewOk(n, k);
      }
    }
  }

  /** What a leader sends is exactly the history's rows after its copy of the cursor. */
  lemma BatchIsNext(n: Net, acked: nat, size: nat)
    requires AuditLog.Inv(n.h)
    ensures var rows := Batch(n.h.trail.rows, acked, size);
            rows != [] ==> acked + |rows| <= |n.h.all| && rows == n.h.all[acked..acked + |rows|]
  {
    var rows := Batch(n.h.trail.rows, acked, size);
    if rows != [] {
      TableIds(n.h, 0);
      var cut := CutSoFar(n.h.trail);
      assert rows == n.h.all[acked..acked + |rows|];
    }
  }

  lemma SendKeeps(n: Net, l: Leader, s: Sink, size: nat)
    requires Inv(n)
    ensures Inv(Next(n, Send(l, s, size)))
  {
    hide AuditLog.Inv, Batch, LogsOk, CursorsOk;
    if (l, s) in n.views && s in n.cursors && s in n.logs && n.views[(l, s)].sent.None? {
      var v := n.views[(l, s)];
      var rows := Batch(n.h.trail.rows, v.acked, size);
      assert ViewOk(n, (l, s));
      if rows == [] {
        RealignKeeps(n, l, s);
      } else {
        BatchIsNext(n, v.acked, size);
        SentKeeps(n, l, s, rows);
      }
    }
  }

  lemma SentKeeps(n: Net, l: Leader, s: Sink, rows: seq<Row>)
    requires Inv(n) && (l, s) in n.views && s in n.logs
    requires var from := n.views[(l, s)].acked; from + |rows| <= |n.h.all| && rows == n.h.all[from..from + |rows|]
    ensures var v := n.views[(l, s)];
            Inv(n.(logs := n.logs[s := n.logs[s] + rows], views := n.views[(l, s) := View(v.acked, Some(v.acked + |rows|))]))
  {
    hide AuditLog.Inv;
    var v := n.views[(l, s)];
    var m := n.(logs := n.logs[s := n.logs[s] + rows], views := n.views[(l, s) := View(v.acked, Some(v.acked + |rows|))]);
    assert ViewOk(n, (l, s)) && Has(n, s, n.cursors[s]);
    forall k | 0 <= k < v.acked + |rows| ensures n.h.all[k] in m.logs[s] {
      if k < v.acked {
        assert n.h.all[k] in n.logs[s];
      } else {
        assert m.logs[s][|n.logs[s]| + (k - v.acked)] == n.h.all[k];
      }
    }
    forall x | x in m.cursors ensures Has(m, x, m.cursors[x]) {
      HasMore(n, m, x, n.cursors[x]);
    }
    forall k | k in m.views ensures ViewOk(m, k) {
      assert ViewOk(n, k);
      if k != (l, s) && n.views[k].sent.Some? {
        HasMore(n, m, k.1, n.views[k].sent.value);
      }
    }
  }

  /** Without a forced prune a realignment only re-reads: no cursor ever stands before the cut. */
  lemma RealignKeeps(n: Net, l: Leader, s: Sink)
    requires Inv(n) && (l, s) in n.views && s in n.cursors
    ensures Inv(Realigned(n, l, s)) && Realigned(n, l, s).cursors == n.cursors
  {
    var m := Realigned(n, l, s);
    assert m.cursors == n.cursors;
    forall k | k in m.views ensures ViewOk(m, k) {
      assert k in n.views && ViewOk(n, k);
    }
  }

  lemma StepKeeps(n: Net, step: Step)
    requires Inv(n) && !(step.Plan? && step.force)
    ensures Inv(Next(n, step))
  {
    hide Inv, Next;
    match step
    case Log(e) => LogKeeps(n, e);
    case Plan(job, cutoff, hold, force) => PlanKeeps(n, job, cutoff, hold);
    case Remove(job) => RemoveKeeps(n, job);
    case Load(l, s) => LoadKeeps(n, l, s);
    case Send(l, s, size) => SendKeeps(n, l, s, size);
    case Acknowledge(l, s) => AcknowledgeKeeps(n, l, s);
    case Fail(l, s) => FailKeeps(n, l, s);
    case Crash(l) => CrashKeeps(n, l);
  }

  lemma {:induction false} RunAllKeeps(n: Net, steps: seq<Step>)
    requires Inv(n) && Unforced(steps)
    ensures Inv(RunAll(n, steps))
    decreases |steps|
  {
    hide Inv, Next;
    if steps != [] {
      StepKeeps(n, steps[0]);
      RunAllKeeps(Next(n, steps[0]), steps[1..]);
    }
  }

  lemma StartIsInv(sinks: set<Sink>)
    ensures Inv(Start(sinks))
  {
    EmptyIsInv();
  }

  // -------------------------------------------------------------- delivery

  /**
    Whatever is sent, crashes, is resent, raced over, acknowledged or pruned
    without force, every row ever written is in the table or has been received
    by every sink.
  */
  lemma NothingIsLost(sinks: set<Sink>, steps: seq<Step>, k: nat, s: Sink)
    requires Unforced(steps) && s in sinks && k < |RunAll(Start(sinks), steps).h.all|
    ensures var n := RunAll(Start(sinks), steps);
            n.h.all[k] in n.h.trail.rows || (s in n.logs && n.h.all[k] in n.logs[s])
  {
    StartIsInv(sinks);
    RunAllKeeps(Start(sinks), steps);
    SinksStay(Start(sinks), steps);
    var n := RunAll(Start(sinks), steps);
    var cut := CutSoFar(n.h.trail);
    if k >= cut {
      assert n.h.trail.rows[k - cut] == n.h.all[k];
    } else {
      assert Has(n, s, n.cursors[s]);
    }
  }

  lemma {:induction false} SinksStay(n: Net, steps: seq<Step>)
    ensures RunAll(n, steps).cursors.Keys == n.cursors.Keys
    decreases |steps|
  {
    if steps != [] {
      assert Next(n, steps[0]).cursors.Keys == n.cursors.Keys;
      SinksStay(Next(n, steps[0]), steps[1..]);
    }
  }

  /** A cursor is never ahead of what its sink has received. */
  lemma AcknowledgedIsReceived(sinks: set<Sink>, steps: seq<Step>, s: Sink)
    requires Unforced(steps) && s in RunAll(Start(sinks), steps).cursors
    ensures var n := RunAll(Start(sinks), steps); Has(n, s, n.cursors[s]) && CutSoFar(n.h.trail) <= n.cursors[s]
  {
    StartIsInv(sinks);
    RunAllKeeps(Start(sinks), steps);
  }

  /** Forcing a prune past a cursor loses exactly that: a row the sink had not received is in neither. */
  lemma ForcedCutLoses(n: Net, job: nat, s: Sink, k: nat)
    requires AuditLog.Inv(n.h) && job in n.h.trail.jobs && s in n.logs
    requires k < |n.h.all| && n.h.all[k] !in n.logs[s]
    ensures var m := Next(n, Remove(job));
            n.h.all[k] in m.h.trail.rows || n.h.all[k] in m.logs[s] <==>
              k >= CutSoFar(n.h.trail) && k >= n.h.trail.jobs[job].through
  {
    hide AuditLog.Inv, Linked, CutSize;
    CutIsExact(n.h, job);
    var m := Next(n, Remove(job));
    assert RowAt(n.h.all, k, 1, Genesis) by { HistoryRow(n.h, k); }
    CutKeeps(n.h, job);
    var cut := CutSoFar(m.h.trail);
    if k >= cut {
      assert |m.h.trail.rows| == |m.h.all| - cut by { TableIs(m.h); }
      TableIds(m.h, k - cut);
    } else {
      forall x | 0 <= x < |m.h.trail.rows| ensures m.h.trail.rows[x] != n.h.all[k] {
        TableIds(m.h, x);
      }
    }
  }

  lemma HistoryRow(h: History, k: nat)
    requires AuditLog.Inv(h) && k < |h.all|
    ensures RowAt(h.all, k, 1, Genesis)
  {
  }

  lemma TableIs(h: History)
    requires AuditLog.Inv(h)
    ensures CutSoFar(h.trail) <= |h.all| && h.trail.rows == h.all[CutSoFar(h.trail)..]
  {
  }

  // ------------------------------------------------- what a sink can check

  /** With any row a sink holds every row before it. */
  ghost predicate Downward(n: Net, s: Sink)
    requires s in n.logs
  {
    forall i :: 0 <= i < |n.logs[s]| ==> n.logs[s][i].id <= |n.h.all| && BeforeIn(n, s, n.logs[s][i].id)
  }

  ghost predicate BeforeIn(n: Net, s: Sink, id: nat)
    requires s in n.logs && id <= |n.h.all|
  {
    forall k :: 0 <= k < id ==> n.h.all[k] in n.logs[s]
  }

  lemma SentDownward(n: Net, m: Net, s: Sink, acked: nat, rows: seq<Row>)
    requires AuditLog.Inv(n.h) && m.h == n.h && s in n.logs && s in m.logs && Downward(n, s)
    requires acked + |rows| <= |n.h.all| && rows == n.h.all[acked..acked + |rows|]
    requires m.logs[s] == n.logs[s] + rows && Has(m, s, acked + |rows|)
    ensures Downward(m, s)
  {
    hide AuditLog.Inv;
    forall i | 0 <= i < |m.logs[s]| ensures m.logs[s][i].id <= |m.h.all| && BeforeIn(m, s, m.logs[s][i].id) {
      if i < |n.logs[s]| {
        assert m.logs[s][i] == n.logs[s][i] && BeforeIn(n, s, n.logs[s][i].id);
      } else {
        var k := acked + (i - |n.logs[s]|);
        assert m.logs[s][i] == n.h.all[k];
        assert n.h.all[k].id == k + 1 by { HistoryRow(n.h, k); }
      }
    }
  }

  lemma StepDownward(n: Net, step: Step, s: Sink)
    requires Inv(n) && Inv(Next(n, step)) && s in n.logs && Downward(n, s)
    ensures var m := Next(n, step); s in m.logs && Downward(m, s)
  {
    hide AuditLog.Inv, Downward, CursorsOk, ViewsOk, LogsOk, Held, Batch, BeforeIn;
    var m := Next(n, step);
    if m.logs == n.logs {
      assert n.h.all <= m.h.all;
      SameLogDownward(n, m, s);
    } else {
      SendStepDownward(n, step.l, step.s, step.size, s);
    }
  }

  lemma SameLogDownward(n: Net, m: Net, s: Sink)
    requires s in n.logs && Downward(n, s) && m.logs == n.logs && n.h.all <= m.h.all
    ensures Downward(m, s)
  {
    forall i | 0 <= i < |m.logs[s]| ensures m.logs[s][i].id <= |m.h.all| && BeforeIn(m, s, m.logs[s][i].id) {
      assert BeforeIn(n, s, n.logs[s][i].id);
    }
  }

  lemma SendStepDownward(n: Net, l: Leader, x: Sink, size: nat, s: Sink)
    requires Inv(n) && Inv(Next(n, Send(l, x, size))) && Next(n, Send(l, x, size)).logs != n.logs
    requires s in n.logs && Downward(n, s)
    ensures var m := Next(n, Send(l, x, size)); s in m.logs && Downward(m, s)
  {
    hide AuditLog.Inv, Batch, Downward, CursorsOk, LogsOk, Held;
    var m := Next(n, Send(l, x, size));
    var v := n.views[(l, x)];
    var rows := Batch(n.h.trail.rows, v.acked, size);
    BatchIsNext(n, v.acked, size);
    if s == x {
      assert ViewOk(m, (l, x));
      SentDownward(n, m, s, v.acked, rows);
    } else {
      SentDownward(n, m, s, 0, []) by {
        assert n.h.all[0..0] == [] && m.logs[s] == n.logs[s] + [];
      }
    }
  }

  lemma {:induction false} RunsDownward(n: Net, steps: seq<Step>, s: Sink)
    requires Inv(n) && Unforced(steps) && s in n.logs && Downward(n, s)
    ensures var m := RunAll(n, steps); s in m.logs && Downward(m, s)
    decreases |steps|
  {
    hide Inv, Next, Downward;
    if steps != [] {
      StepKeeps(n, steps[0]);
      StepDownward(n, steps[0], s);
      RunsDownward(Next(n, steps[0]), steps[1..], s);
    }
  }

  function Records(log: seq<Row>): (recs: seq<AuditStream.Record>)
    ensures |recs| == |log| && forall i :: 0 <= i < |log| ==> recs[i] == AuditStream.Record(log[i], false)
  {
    seq(|log|, i requires 0 <= i < |log| => AuditStream.Record(log[i], false))
  }

  /** The largest id in a log. */
  function TopOf(log: seq<Row>): (id: nat)
    requires log != []
    ensures (exists i :: 0 <= i < |log| && log[i].id == id) && forall i :: 0 <= i < |log| ==> log[i].id <= id
  {
    if |log| == 1 then log[0].id
    else
      var rest := TopOf(log[1..]);
      assert exists i :: 0 <= i < |log| && log[i].id == (if log[0].id > rest then log[0].id else rest) by {
        var i :| 0 <= i < |log[1..]| && log[1..][i].id == rest;
        assert log[i + 1].id == rest && log[0].id == log[0].id;
      }
      if log[0].id > rest then log[0].id else rest
  }

  /** The first record of an id is the only row any record of it holds. */
  lemma {:induction false} FirstIsTheRow(recs: seq<AuditStream.Record>, id: nat, r: Row)
    requires forall i :: 0 <= i < |recs| && recs[i].row.id == id ==> recs[i] == AuditStream.Record(r, false)
    requires exists i :: 0 <= i < |recs| && recs[i].row.id == id
    ensures AuditStream.FirstIn(recs, id) == Some(AuditStream.Record(r, false))
  {
    var n := |recs| - 1;
    if i :| 0 <= i < n && recs[i].row.id == id {
      assert recs[..n][i].row.id == id;
      FirstIsTheRow(recs[..n], id, r);
    } else {
      var f := AuditStream.FirstIn(recs[..n], id);
      AuditStream.KeptFirst(recs[..n], id);
      AuditStream.PileShape(recs[..n], id);
      assert f.None?;
    }
  }

  /** What a sink was sent, each record with its payload or, where it would not fit, without. */
  function Sent(log: seq<Row>, cut: seq<bool>): (recs: seq<AuditStream.Record>)
    requires |cut| == |log|
  {
    seq(|log|, i requires 0 <= i < |log| => AuditStream.Record(log[i], cut[i]))
  }

  /**
    Whatever was resent, and whichever payloads did not fit, what a sink
    received of the trail is an intact chain from its start: the check reports
    nothing, and leaves unverified exactly the rows that first came without
    their payload.
  */
  lemma ReceivedIsClean(sinks: set<Sink>, steps: seq<Step>, s: Sink, cut: seq<bool>, ids: seq<nat>)
    requires Unforced(steps) && s in RunAll(Start(sinks), steps).logs
    requires RunAll(Start(sinks), steps).logs[s] != [] && |cut| == |RunAll(Start(sinks), steps).logs[s]|
    requires AuditStream.IdsOf(Sent(RunAll(Start(sinks), steps).logs[s], cut), ids)
    ensures var recs := Sent(RunAll(Start(sinks), steps).logs[s], cut);
            && AuditStream.VerdictOf(recs, ids).OK()
            && forall id :: id in AuditStream.VerdictOf(recs, ids).unverified <==>
                 exists x :: AuditStream.FirstOf(recs, x) && recs[x].row.id == id && cut[x]
  {
    hide RunAll, AuditStream.IdsOf, AuditStream.FileAll, AuditStream.Judged;
    var log := RunAll(Start(sinks), steps).logs[s];
    var recs := Sent(log, cut);
    AuditStream.SameIds(recs, Records(log), ids);
    WholeIsClean(sinks, steps, s, ids);
    AuditStream.PayloadsOnlyVerify(Records(log), recs, ids);
    forall id: nat ensures id in AuditStream.VerdictOf(recs, ids).unverified <==>
      exists x :: AuditStream.FirstOf(recs, x) && recs[x].row.id == id && cut[x]
    {
      AuditStream.BadHashesIff(recs, ids, id);
    }
  }

  /** With every payload sent, nothing is left unverified either. */
  lemma WholeIsClean(sinks: set<Sink>, steps: seq<Step>, s: Sink, ids: seq<nat>)
    requires Unforced(steps) && s in RunAll(Start(sinks), steps).logs
    requires RunAll(Start(sinks), steps).logs[s] != []
    requires AuditStream.IdsOf(Records(RunAll(Start(sinks), steps).logs[s]), ids)
    ensures AuditStream.VerdictOf(Records(RunAll(Start(sinks), steps).logs[s]), ids).Clean()
  {
    StartIsInv(sinks);
    RunAllKeeps(Start(sinks), steps);
    SinksStay(Start(sinks), steps);
    assert s in Start(sinks).logs;
    RunsDownward(Start(sinks), steps, s);
    var n := RunAll(Start(sinks), steps);
    LogDelivers(n, s);
    AuditStream.DeliveredIsClean(Records(n.logs[s]), n.h.all[..TopOf(n.logs[s])], 1, Genesis, ids);
  }

  lemma LogDelivers(n: Net, s: Sink)
    requires Inv(n) && s in n.logs && n.logs[s] != [] && Downward(n, s)
    ensures TopOf(n.logs[s]) <= |n.h.all| && AuditStream.Delivers(Records(n.logs[s]), n.h.all[..TopOf(n.logs[s])], 1, Genesis)
  {
    hide AuditLog.Inv, AuditStream.FirstIn, TopOf, Linked, CursorsOk, ViewsOk, Held;
    var log := n.logs[s];
    var top := TopOf(log);
    var i :| 0 <= i < |log| && log[i].id == top;
    assert BeforeIn(n, s, log[i].id);
    var chain := n.h.all[..top];
    assert Linked(n.h.all, 1, Genesis) by { assert AuditLog.Inv(n.h); LinkedHistory(n.h); }
    LinkedSlice(n.h.all, 1, Genesis, 0, top);
    assert n.h.all[0..top] == chain;
    var recs := Records(log);
    forall x | 0 <= x < |recs| ensures AuditStream.OfChain(recs[x].row, chain, 1) {
      LogRow(n, s, x);
    }
    forall k | 0 <= k < |chain| ensures AuditStream.FirstIn(recs, 1 + k) == Some(AuditStream.Record(chain[k], false)) {
      LogFirst(n, s, k);
    }
  }

  lemma LogFirst(n: Net, s: Sink, k: nat)
    requires Inv(n) && s in n.logs && k < |n.h.all| && n.h.all[k] in n.logs[s]
    ensures AuditStream.FirstIn(Records(n.logs[s]), 1 + k) == Some(AuditStream.Record(n.h.all[k], false))
  {
    hide Inv, AuditStream.FirstIn;
    var log := n.logs[s];
    var recs := Records(log);
    var x :| 0 <= x < |log| && log[x] == n.h.all[k];
    LogRow(n, s, x);
    HistoryId(n, k);
    forall y | 0 <= y < |recs| && recs[y].row.id == 1 + k ensures recs[y] == AuditStream.Record(n.h.all[k], false) {
      LogRow(n, s, y);
    }
    assert recs[x].row.id == 1 + k;
    FirstIsTheRow(recs, 1 + k, n.h.all[k]);
  }

  lemma HistoryId(n: Net, k: nat)
    requires Inv(n) && k < |n.h.all|
    ensures n.h.all[k].id == k + 1
  {
    HistoryRow(n.h, k);
  }

  lemma LinkedHistory(h: History)
    requires AuditLog.Inv(h)
    ensures Linked(h.all, 1, Genesis)
  {
  }

  lemma LogRow(n: Net, s: Sink, x: nat)
    requires Inv(n) && s in n.logs && x < |n.logs[s]|
    ensures var r := n.logs[s][x]; 1 <= r.id <= |n.h.all| && r == n.h.all[r.id - 1]
  {
    var r := n.logs[s][x];
    assert r in n.h.all;
    var k :| 0 <= k < |n.h.all| && n.h.all[k] == r;
    HistoryRow(n.h, k);
  }
}
