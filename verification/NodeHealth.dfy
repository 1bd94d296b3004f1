/**
  Scheduling health of executors: what probes and operators do to one node's
  record, and what happens when probes, operators and placements of several
  processes share one store.
*/
module NodeHealth {
  import opened Wrappers
  import opened Text

  datatype State = Ready | Degraded | Unreachable | Cordoned | Draining | Unknown(name: string) {
    predicate Valid() {
      !Unknown?
    }

    predicate Schedulable() {
      Ready? || Degraded?
    }

    predicate AdminHeld() {
      Cordoned? || Draining?
    }
  }

  /** `seen` is the last successful probe, `changed` when the state last took another value. */
  datatype Health = Health(state: State, failures: int, seen: int, changed: int) {
    function Normalize(): Health {
      Health(if state.Valid() then state else Ready, if failures < 0 then 0 else failures, seen, changed)
    }
  }

  datatype Policy = Policy(degradeAfter: int, unreachableAfter: int) {
    function Normalize(): Policy {
      var d := if degradeAfter < 1 then 1 else degradeAfter;
      Policy(d, if unreachableAfter < d then d else unreachableAfter)
    }
  }

  function Apply(h: Health, to: State, at: int): Health {
    h.(state := to, changed := at)
  }

  function ObserveProbe(h0: Health, ok: bool, at: int, policy: Policy): Health {
    var p := policy.Normalize();
    var h := h0.Normalize();
    if ok then
      var up := h.(failures := 0, seen := at);
      if h.state.AdminHeld() || h.state == Ready then up else Apply(up, Ready, at)
    else
      var down := h.(failures := h.failures + 1);
      if h.state.AdminHeld() then down
      else
        var target :=
          if down.failures >= p.unreachableAfter then Unreachable
          else if down.failures >= p.degradeAfter && h.state != Unreachable then Degraded
          else h.state;
        if target == h.state then down else Apply(down, target, at)
  }

  function Hold(h0: Health, to: State, at: int): Health {
    var h := h0.Normalize();
    if h.state == to then h else Apply(h, to, at)
  }

  /** The state a failure count justifies. */
  function StateFor(failures: int, policy: Policy): State {
    var p := policy.Normalize();
    if failures >= p.unreachableAfter then Unreachable
    else if failures >= p.degradeAfter then Degraded
    else Ready
  }

  function Uncordon(h0: Health, at: int, policy: Policy): Health {
    var h := h0.Normalize();
    if !h.state.AdminHeld() then h else Apply(h, StateFor(h.failures, policy), at)
  }

  // ------------------------------------------------------------- one node

  datatype Act = Probe(ok: bool) | Cordon | Drain | Uncordoned

  function Do(h: Health, act: Act, at: int, policy: Policy): Health {
    match act
    case Probe(ok) => ObserveProbe(h, ok, at, policy)
    case Cordon => Hold(h, Cordoned, at)
    case Drain => Hold(h, Draining, at)
    case Uncordoned => Uncordon(h, at, policy)
  }

  function DoAll(h: Health, acts: seq<Act>, at: int, policy: Policy): Health
    decreases |acts|
  {
    if acts == [] then h else DoAll(Do(h, acts[0], at, policy), acts[1..], at + 1, policy)
  }

  /** The probes of a trace; the others take their place as a moment nothing happens. */
  function Probes(acts: seq<Act>): seq<Act>
    decreases |acts|
  {
    if acts == [] then []
    else (if acts[0].Probe? then [acts[0]] else []) + Probes(acts[1..])
  }

  /** The record says what its own failure count justifies. */
  predicate Coherent(h: Health, policy: Policy) {
    h.Normalize().state == StateFor(h.Normalize().failures, policy)
  }

  predicate SameStanding(a: Health, b: Health) {
    a.Normalize().state == b.Normalize().state && a.Normalize().failures == b.Normalize().failures
  }

  /** Probes see nothing of the times a record carries. */
  lemma {:induction false} TimesDoNotMatter(a: Health, b: Health, acts: seq<Act>, s: int, t: int, policy: Policy)
    requires SameStanding(a, b)
    ensures SameStanding(DoAll(a, acts, s, policy), DoAll(b, acts, t, policy))
    decreases |acts|
  {
    if acts != [] {
      TimesDoNotMatter(Do(a, acts[0], s, policy), Do(b, acts[0], t, policy), acts[1..], s + 1, t + 1, policy);
    }
  }

  /**
    A node held by operators counts probes like one nobody touched, and a node
    nobody holds stands exactly where the probes alone would have put it.
  */
  lemma {:induction false} HeldCountsOn(h: Health, free: Health, acts: seq<Act>, s: int, t: int, policy: Policy)
    requires Coherent(free, policy) && h.Normalize().failures == free.Normalize().failures
    requires h.Normalize().state.AdminHeld() || SameStanding(h, free)
    ensures var after := DoAll(h, acts, s, policy);
            var alone := DoAll(free, Probes(acts), t, policy);
            && Coherent(alone, policy)
            && after.Normalize().failures == alone.Normalize().failures
            && (after.Normalize().state.AdminHeld() || SameStanding(after, alone))
    decreases |acts|
  {
    if acts != [] {
      var next := Do(h, acts[0], s, policy);
      if acts[0].Probe? {
        var p := Probes(acts);
        assert p[0] == acts[0] && p[1..] == Probes(acts[1..]);
        HeldCountsOn(next, Do(free, acts[0], t, policy), acts[1..], s + 1, t + 1, policy);
      } else {
        assert Probes(acts) == Probes(acts[1..]);
        HeldCountsOn(next, free, acts[1..], s + 1, t, policy);
      }
    }
  }

  /** After any mix of probes and operator commands, uncordoning gives the state the probes alone would give. */
  lemma UncordonRestores(h: Health, acts: seq<Act>, at: int, policy: Policy)
    requires Coherent(h, policy)
    ensures SameStanding(Uncordon(DoAll(h, acts, at, policy), at + |acts|, policy), DoAll(h, Probes(acts), at, policy))
  {
    HeldCountsOn(h, h, acts, at, at, policy);
  }

  /** And only a record that starts coherent has that property: one cordon and uncordon already shows it. */
  lemma UncordonRestoresIff(h: Health, at: int, policy: Policy)
    ensures Coherent(h, policy) <==>
      forall acts :: SameStanding(Uncordon(DoAll(h, acts, at, policy), at + |acts|, policy), DoAll(h, Probes(acts), at, policy))
  {
    if Coherent(h, policy) {
      forall acts
        ensures SameStanding(Uncordon(DoAll(h, acts, at, policy), at + |acts|, policy), DoAll(h, Probes(acts), at, policy))
      {
        UncordonRestores(h, acts, at, policy);
      }
    } else {
      var acts := [Cordon];
      assert acts[1..] == [];
      assert DoAll(h, acts, at, policy) == Hold(h, Cordoned, at) && DoAll(h, Probes(acts), at, policy) == h;
      if h.Normalize().state.AdminHeld() {
        assert !SameStanding(Uncordon(DoAll(h, acts, at, policy), at + |acts|, policy), DoAll(h, Probes(acts), at, policy));
      } else {
        assert !SameStanding(Uncordon(DoAll(h, acts, at, policy), at + |acts|, policy), DoAll(h, Probes(acts), at, policy));
      }
    }
  }

  /** No number of probes moves a held node, or its record of when it was held. */
  lemma {:induction false} ProbesKeepTheHold(h: Health, acts: seq<Act>, at: int, policy: Policy)
    requires h.state.AdminHeld() && forall i :: 0 <= i < |acts| ==> acts[i].Probe?
    ensures var after := DoAll(h, acts, at, policy); after.state == h.state && after.changed == h.changed
    decreases |acts|
  {
    if acts != [] {
      ProbesKeepTheHold(Do(h, acts[0], at, policy), acts[1..], at + 1, policy);
    }
  }

  /** So many failed probes in a row. */
  function Failing(n: nat): seq<Act> {
    if n == 0 then [] else Failing(n - 1) + [Probe(false)]
  }

  lemma {:induction false} DoAllSnoc(h: Health, acts: seq<Act>, last: Act, at: int, policy: Policy)
    ensures DoAll(h, acts + [last], at, policy) == Do(DoAll(h, acts, at, policy), last, at + |acts|, policy)
    decreases |acts|
  {
    if acts == [] {
      assert ([] + [last])[1..] == [];
    } else {
      assert (acts + [last])[1..] == acts[1..] + [last];
      DoAllSnoc(Do(h, acts[0], at, policy), acts[1..], last, at + 1, policy);
    }
  }

  /**
    What a node nobody holds is after one good probe and then n bad ones: ready,
    from the first threshold on degraded, from the second on unreachable.  The
    first is one failure at least, and the second no earlier than the first.
  */
  lemma {:induction false} FailuresDecide(h: Health, n: nat, at: int, policy: Policy)
    requires !h.state.AdminHeld()
    ensures |Failing(n)| == n
    ensures var g := DoAll(ObserveProbe(h, true, at, policy), Failing(n), at + 1, policy);
            && g.failures == n && g.seen == at
            && (g.state == Unreachable <==> n >= 1 && n >= policy.degradeAfter && n >= policy.unreachableAfter)
            && (g.state == Degraded <==> n >= 1 && n >= policy.degradeAfter && n < policy.unreachableAfter)
            && (g.state == Ready <==> n < 1 || n < policy.degradeAfter)
  {
    if n > 0 {
      FailuresDecide(h, n - 1, at, policy);
      DoAllSnoc(ObserveProbe(h, true, at, policy), Failing(n - 1), Probe(false), at + 1, policy);
    }
  }

  /** One good probe makes any node nobody holds ready, and the time of a change of state is when it changed. */
  lemma ProbeMoves(h: Health, ok: bool, at: int, policy: Policy)
    ensures !h.state.AdminHeld() && ok ==> ObserveProbe(h, ok, at, policy).state == Ready
    ensures ok ==> ObserveProbe(h, ok, at, policy).failures == 0 && ObserveProbe(h, ok, at, policy).seen == at
    ensures h.state.Valid() ==>
              ObserveProbe(h, ok, at, policy).changed == if ObserveProbe(h, ok, at, policy).state == h.state then h.changed else at
  {
  }

  // ------------------------------------------------- one store, many hands

  type Id = string
  type Prober = nat
  type Session = nat

  /**
    The stored records, the sessions running, the nodes chosen for sessions not
    recorded yet, and for each probe under way the record it read before it
    started waiting for the node's answer.  Session ids are fresh: the next one
    is `next`.
  */
  datatype Fleet = Fleet(nodes: map<Id, Health>, running: map<Session, Id>, chosen: map<Session, Id>,
                         reading: map<(Prober, Id), Health>, next: Session)

  const UNSEEN := Health(Ready, 0, 0, 0)

  function Stored(f: Fleet, id: Id): Health {
    (if id in f.nodes then f.nodes[id] else UNSEEN).Normalize()
  }

  /** What the supervisor takes a node's record for: a read that fails is no reason to stop. */
  function Seen(f: Fleet, id: Id, read: bool): Health {
    if read then Stored(f, id) else UNSEEN.Normalize()
  }

  /**
    `PlaceBound` starts the run of a project bound to the node, or defaulting to it;
    nothing on that path reads the node's health.  `Choose` is the scheduler's
    choice, which does, and `Open` records the session of an earlier choice.
    A probe and a choice whose `read` fails take the node for one never seen.
  */
  datatype Step =
    | StartProbe(p: Prober, id: Id, read: bool)
    | EndProbe(p: Prober, id: Id, ok: bool)
    | CordonNode(id: Id)
    | DrainNode(id: Id)
    | UncordonNode(id: Id)
    | PlaceBound(id: Id)
    | Choose(id: Id, read: bool)
    | Open(session: Session)
    | Finish(session: Session)

  function Take(f: Fleet, step: Step, at: int, policy: Policy): Fleet {
    match step
    case StartProbe(p, id, read) => f.(reading := f.reading[(p, id) := Seen(f, id, read)])
    case EndProbe(p, id, ok) =>
      if (p, id) !in f.reading then f
      else f.(nodes := f.nodes[id := ObserveProbe(f.reading[(p, id)], ok, at, policy)], reading := f.reading - {(p, id)})
    case CordonNode(id) => f.(nodes := f.nodes[id := Hold(Stored(f, id), Cordoned, at)])
    case DrainNode(id) => f.(nodes := f.nodes[id := Hold(Stored(f, id), Draining, at)])
    case UncordonNode(id) => f.(nodes := f.nodes[id := Uncordon(Stored(f, id), at, policy)])
    case PlaceBound(id) => f.(running := f.running[f.next := id], next := f.next + 1)
    case Choose(id, read) =>
      if Seen(f, id, read).state.Schedulable() then f.(chosen := f.chosen[f.next := id], next := f.next + 1) else f
    case Open(session) =>
      if session !in f.chosen then f
      else f.(running := f.running[session := f.chosen[session]], chosen := f.chosen - {session})
    case Finish(session) => f.(running := f.running - {session})
  }

  function TakeAll(f: Fleet, steps: seq<Step>, at: int, policy: Policy): Fleet
    decreases |steps|
  {
    if steps == [] then f else TakeAll(Take(f, steps[0], at, policy), steps[1..], at + 1, policy)
  }

  /** What every run keeps: ids are handed out once, and a probe reads a record as it is normalized. */
  ghost predicate Sane(f: Fleet) {
    && (forall s :: s in f.running ==> s < f.next && s !in f.chosen)
    && (forall s :: s in f.chosen ==> s < f.next)
    && (forall k :: k in f.reading ==> f.reading[k] == f.reading[k].Normalize())
  }

  lemma StepStaysSane(f: Fleet, step: Step, at: int, policy: Policy)
    requires Sane(f)
    ensures Sane(Take(f, step, at, policy))
  {
    hide ObserveProbe, Hold, Uncordon;
  }

  lemma {:induction false} RunsStaySane(f: Fleet, steps: seq<Step>, at: int, policy: Policy)
    requires Sane(f)
    ensures Sane(TakeAll(f, steps, at, policy))
    decreases |steps|
  {
    hide Take, Sane;
    if steps != [] {
      StepStaysSane(f, steps[0], at, policy);
      RunsStaySane(Take(f, steps[0], at, policy), steps[1..], at + 1, policy);
    }
  }

  function InFlight(f: Fleet, id: Id): set<Session> {
    set s | s in f.running && f.running[s] == id
  }

  /** What an operator's command does to its node's record; no other node's changes, and no session. */
  lemma CommandsDo(f: Fleet, id: Id, at: int, policy: Policy)
    ensures Stored(Take(f, CordonNode(id), at, policy), id).state == Cordoned
    ensures Stored(Take(f, DrainNode(id), at, policy), id).state == Draining
    ensures !Stored(Take(f, UncordonNode(id), at, policy), id).state.AdminHeld()
    ensures forall step :: step in {CordonNode(id), DrainNode(id), UncordonNode(id)} ==>
              var g := Take(f, step, at, policy);
              && g == f.(nodes := g.nodes) && Stored(g, id).failures == Stored(f, id).failures && Stored(g, id).seen == Stored(f, id).seen
              && forall x :: x != id ==> Stored(g, x) == Stored(f, x)
  {
  }

  /** What the other steps do to the sessions: a bound run starts at once, a choice when it is recorded, and each ends for good. */
  lemma SessionsDo(f: Fleet, id: Id, s: Session, at: int, policy: Policy)
    requires Sane(f)
    ensures InFlight(Take(f, PlaceBound(id), at, policy), id) == InFlight(f, id) + {f.next}
    ensures var g := Take(f, Choose(id, true), at, policy);
            && g.running == f.running && g.nodes == f.nodes
            && g.chosen == if Stored(f, id).state in {Ready, Degraded} then f.chosen[f.next := id] else f.chosen
    ensures s in f.chosen ==> InFlight(Take(f, Open(s), at, policy), f.chosen[s]) == InFlight(f, f.chosen[s]) + {s}
    ensures InFlight(Take(f, Finish(s), at, policy), id) == InFlight(f, id) - {s}
  {
    hide ObserveProbe, Hold, Uncordon;
  }

  predicate Held(f: Fleet, id: Id) {
    Stored(f, id).state.AdminHeld()
  }

  /** Every probe of the node under way read it after it was held. */
  ghost predicate NoOldReading(f: Fleet, id: Id) {
    forall p :: (p, id) in f.reading ==> f.reading[(p, id)].state.AdminHeld()
  }

  /** No session is waiting to be recorded on the node. */
  ghost predicate NoPending(f: Fleet, id: Id) {
    forall s :: s in f.chosen ==> f.chosen[s] != id
  }

  predicate NoUncordon(steps: seq<Step>, id: Id) {
    forall i :: 0 <= i < |steps| ==> steps[i] != UncordonNode(id)
  }

  /** Every bound dispatch of the run is one of a project's: `targets` are the nodes projects are bound to or default to. */
  predicate BoundWithin(steps: seq<Step>, targets: set<Id>) {
    forall i :: 0 <= i < |steps| && steps[i].PlaceBound? ==> steps[i].id in targets
  }

  /** Whether a step reads a record and the read fails. */
  predicate Blind(step: Step) {
    (step.StartProbe? && !step.read) || (step.Choose? && !step.read)
  }

  /** Reads of health fail only where they may. */
  predicate ReadsWithin(steps: seq<Step>, blind: bool) {
    forall i :: 0 <= i < |steps| && Blind(steps[i]) ==> blind
  }

  /** A hold outlives every step but an uncordon, while reads work. */
  lemma {:induction false} HoldStays(f: Fleet, steps: seq<Step>, id: Id, at: int, policy: Policy)
    requires Held(f, id) && NoOldReading(f, id) && NoUncordon(steps, id) && ReadsWithin(steps, false)
    ensures var g := TakeAll(f, steps, at, policy); Held(g, id) && NoOldReading(g, id)
    decreases |steps|
  {
    if steps != [] {
      HoldStays(Take(f, steps[0], at, policy), steps[1..], id, at + 1, policy);
    }
  }

  lemma HoldStep(f: Fleet, step: Step, id: Id, at: int, policy: Policy)
    requires Held(f, id) && NoOldReading(f, id) && NoPending(f, id) && step != UncordonNode(id) && step != PlaceBound(id) && !Blind(step)
    ensures var g := Take(f, step, at, policy);
            Held(g, id) && NoOldReading(g, id) && NoPending(g, id) && InFlight(g, id) <= InFlight(f, id)
  {
  }

  /** The work in flight of a held node nothing is bound to or waiting for only shrinks. */
  lemma {:induction false} HeldOnlyShrinks(f: Fleet, steps: seq<Step>, id: Id, targets: set<Id>, at: int, policy: Policy)
    requires Held(f, id) && NoOldReading(f, id) && NoPending(f, id) && id !in targets
    requires NoUncordon(steps, id) && BoundWithin(steps, targets) && ReadsWithin(steps, false)
    ensures var g := TakeAll(f, steps, at, policy); Held(g, id) && InFlight(g, id) <= InFlight(f, id)
    decreases |steps|
  {
    if steps != [] {
      HoldStep(f, steps[0], id, at, policy);
      HeldOnlyShrinks(Take(f, steps[0], at, policy), steps[1..], id, targets, at + 1, policy);
    }
  }

  lemma TakeOne(f: Fleet, step: Step, at: int, policy: Policy)
    ensures TakeAll(f, [step], at, policy) == Take(f, step, at, policy)
  {
    assert [step][1..] == [];
  }

  /** A probe that read the node before it was held gives it back to the scheduler. */
  lemma OldReadingGrows(f: Fleet, p: Prober, id: Id, at: int, policy: Policy)
    requires Sane(f) && Held(f, id) && (p, id) in f.reading && !f.reading[(p, id)].state.AdminHeld()
    ensures !(InFlight(TakeAll(f, [EndProbe(p, id, true), Choose(id, true), Open(f.next)], at, policy), id) <= InFlight(f, id))
  {
    var steps := [EndProbe(p, id, true), Choose(id, true), Open(f.next)];
    var a := Take(f, steps[0], at, policy);
    var b := Take(a, steps[1], at + 1, policy);
    var c := Take(b, steps[2], at + 2, policy);
    TakeOne(b, steps[2], at + 2, policy);
    assert steps[1..][1..] == [steps[2]];
    assert TakeAll(f, steps, at, policy) == TakeAll(a, steps[1..], at + 1, policy) == TakeAll(b, [steps[2]], at + 2, policy) == c;
    assert f.next in InFlight(c, id) && f.next !in InFlight(f, id);
  }

  /** A scheduler that cannot read the node's record chooses it though it is held. */
  lemma BlindChoiceGrows(f: Fleet, id: Id, at: int, policy: Policy)
    requires Sane(f)
    ensures var g := TakeAll(f, [Choose(id, false), Open(f.next)], at, policy);
            Stored(g, id) == Stored(f, id) && f.next in InFlight(g, id) && f.next !in InFlight(f, id)
  {
    var steps := [Choose(id, false), Open(f.next)];
    var a := Take(f, steps[0], at, policy);
    TakeOne(a, steps[1], at + 1, policy);
    assert steps[1..] == [steps[1]];
    assert TakeAll(f, steps, at, policy) == Take(a, steps[1], at + 1, policy);
  }

  /**
    Exactly when the work in flight of a held node only shrinks, whatever else
    happens short of an uncordon: no project is bound to the node or defaults
    to it, no choice of it waits to be recorded, no probe under way read it
    before it was held, and no read of its record fails.
  */
  lemma HeldOnlyShrinksIff(f: Fleet, id: Id, targets: set<Id>, blind: bool, at: int, policy: Policy)
    requires Sane(f) && Held(f, id)
    ensures (id !in targets && NoPending(f, id) && NoOldReading(f, id) && !blind) <==>
      forall steps :: NoUncordon(steps, id) && BoundWithin(steps, targets) && ReadsWithin(steps, blind) ==>
        InFlight(TakeAll(f, steps, at, policy), id) <= InFlight(f, id)
  {
    if id in targets {
      TakeOne(f, PlaceBound(id), at, policy);
      assert f.next in InFlight(Take(f, PlaceBound(id), at, policy), id) && f.next !in InFlight(f, id);
      assert NoUncordon([PlaceBound(id)], id) && BoundWithin([PlaceBound(id)], targets) && ReadsWithin([PlaceBound(id)], blind);
    } else if !NoPending(f, id) {
      var s :| s in f.chosen && f.chosen[s] == id;
      TakeOne(f, Open(s), at, policy);
      assert s in InFlight(Take(f, Open(s), at, policy), id) && s !in InFlight(f, id);
      assert NoUncordon([Open(s)], id) && BoundWithin([Open(s)], targets) && ReadsWithin([Open(s)], blind);
    } else if !NoOldReading(f, id) {
      var p :| (p, id) in f.reading && !f.reading[(p, id)].state.AdminHeld();
      OldReadingGrows(f, p, id, at, policy);
      var steps := [EndProbe(p, id, true), Choose(id, true), Open(f.next)];
      assert NoUncordon(steps, id) && BoundWithin(steps, targets) && ReadsWithin(steps, blind);
    } else if blind {
      BlindChoiceGrows(f, id, at, policy);
      var steps := [Choose(id, false), Open(f.next)];
      assert NoUncordon(steps, id) && BoundWithin(steps, targets) && ReadsWithin(steps, blind);
    } else {
      forall steps | NoUncordon(steps, id) && BoundWithin(steps, targets) && ReadsWithin(steps, blind)
        ensures InFlight(TakeAll(f, steps, at, policy), id) <= InFlight(f, id)
      {
        HeldOnlyShrinks(f, steps, id, targets, at, policy);
      }
    }
  }

  /** Cordoning a node does not keep the runs of projects bound to it away, whatever state the fleet is in. */
  lemma CordonedNodeTakesBoundWork(f: Fleet, id: Id, at: int, policy: Policy)
    requires Sane(f)
    ensures var g := TakeAll(f, [CordonNode(id), PlaceBound(id)], at, policy);
            Held(g, id) && InFlight(g, id) == InFlight(f, id) + {f.next} && f.next !in InFlight(f, id)
  {
    var steps := [CordonNode(id), PlaceBound(id)];
    var a := Take(f, steps[0], at, policy);
    TakeOne(a, steps[1], at + 1, policy);
    assert steps[1..] == [steps[1]];
    assert TakeAll(f, steps, at, policy) == Take(a, steps[1], at + 1, policy);
  }

  /** So a node drained to nothing stays idle until it is uncordoned under the same condition, and under no weaker one. */
  lemma DrainedStaysIdleIff(f: Fleet, id: Id, targets: set<Id>, blind: bool, at: int, policy: Policy)
    requires Sane(f) && Held(f, id) && InFlight(f, id) == {}
    ensures (id !in targets && NoPending(f, id) && NoOldReading(f, id) && !blind) <==>
      forall steps :: NoUncordon(steps, id) && BoundWithin(steps, targets) && ReadsWithin(steps, blind) ==>
        InFlight(TakeAll(f, steps, at, policy), id) == {}
  {
    HeldOnlyShrinksIff(f, id, targets, blind, at, policy);
    forall steps: seq<Step> ensures InFlight(TakeAll(f, steps, at, policy), id) == {} <==> InFlight(TakeAll(f, steps, at, policy), id) <= InFlight(f, id) {
    }
  }

  /** A probe that could not read a held node takes it for a ready one, and its answer makes it one. */
  lemma BlindProbeLosesTheHold(f: Fleet, p: Prober, id: Id, ok: bool, at: int, policy: Policy)
    ensures !Held(TakeAll(f, [StartProbe(p, id, false), EndProbe(p, id, ok)], at, policy), id)
  {
    var steps := [StartProbe(p, id, false), EndProbe(p, id, ok)];
    var a := Take(f, steps[0], at, policy);
    TakeOne(a, steps[1], at + 1, policy);
    assert steps[1..] == [steps[1]];
    assert TakeAll(f, steps, at, policy) == Take(a, steps[1], at + 1, policy);
  }

  /**
    Exactly when a hold is safe: it outlives everything but an uncordon if and
    only if no probe under way read the node before it was held and no later
    read of it fails.  Such a probe writes its whole record back, the state it
    read, or took for read, included.
  */
  lemma HoldIsSafeIff(f: Fleet, id: Id, blind: bool, at: int, policy: Policy)
    requires Sane(f) && Held(f, id)
    ensures NoOldReading(f, id) && !blind <==>
      forall steps :: NoUncordon(steps, id) && ReadsWithin(steps, blind) ==> Held(TakeAll(f, steps, at, policy), id)
  {
    if !NoOldReading(f, id) {
      var p :| (p, id) in f.reading && !f.reading[(p, id)].state.AdminHeld();
      TakeOne(f, EndProbe(p, id, true), at, policy);
      assert NoUncordon([EndProbe(p, id, true)], id) && ReadsWithin([EndProbe(p, id, true)], blind);
      assert !Held(TakeAll(f, [EndProbe(p, id, true)], at, policy), id);
    } else if blind {
      BlindProbeLosesTheHold(f, 0, id, true, at, policy);
      var steps := [StartProbe(0, id, false), EndProbe(0, id, true)];
      assert NoUncordon(steps, id) && ReadsWithin(steps, blind);
    } else {
      forall steps | NoUncordon(steps, id) && ReadsWithin(steps, blind) ensures Held(TakeAll(f, steps, at, policy), id) {
        HoldStays(f, steps, id, at, policy);
      }
    }
  }

  /** A cordon given while a probe waits is undone by its answer, and the scheduler then chooses the node again. */
  lemma LostCordon(f: Fleet, p: Prober, id: Id, at: int, policy: Policy)
    requires Sane(f) && Stored(f, id).state.Schedulable()
    ensures var steps := [StartProbe(p, id, true), CordonNode(id), EndProbe(p, id, true), Choose(id, true), Open(f.next)];
            var g := TakeAll(f, steps, at, policy);
            !Held(g, id) && f.next in InFlight(g, id)
  {
    var a := Take(f, StartProbe(p, id, true), at, policy);
    var b := Take(a, CordonNode(id), at + 1, policy);
    var c := Take(b, EndProbe(p, id, true), at + 2, policy);
    var d := Take(c, Choose(id, true), at + 3, policy);
    var e := Take(d, Open(f.next), at + 4, policy);
    var s0 := [StartProbe(p, id, true), CordonNode(id), EndProbe(p, id, true), Choose(id, true), Open(f.next)];
    var s1, s2, s3, s4 := s0[1..], s0[2..], s0[3..], s0[4..];
    assert s1[1..] == s2 && s2[1..] == s3 && s3[1..] == s4 == [Open(f.next)];
    TakeOne(d, Open(f.next), at + 4, policy);
    assert TakeAll(c, s3, at + 3, policy) == e;
    assert TakeAll(b, s2, at + 2, policy) == e;
    assert TakeAll(a, s1, at + 1, policy) == e;
  }

  /** What the last cordon or drain of a node asked for, if there was one. */
  function LastHold(steps: seq<Step>, id: Id, before: State): State {
    if steps == [] then before
    else
      var last := steps[|steps| - 1];
      if last == CordonNode(id) then Cordoned
      else if last == DrainNode(id) then Draining
      else LastHold(steps[..|steps| - 1], id, before)
  }

  /** Every probe of the node under way read the state it has now. */
  ghost predicate ReadsSame(f: Fleet, id: Id) {
    forall p :: (p, id) in f.reading ==> f.reading[(p, id)].state == Stored(f, id).state
  }

  predicate NoOperator(steps: seq<Step>, id: Id) {
    forall i :: 0 <= i < |steps| ==> steps[i] !in {CordonNode(id), DrainNode(id), UncordonNode(id)}
  }

  lemma HoldNext(f: Fleet, step: Step, id: Id, at: int, policy: Policy)
    requires Held(f, id) && ReadsSame(f, id) && NoOperator([step], id) && !Blind(step)
    ensures var g := Take(f, step, at, policy); Stored(g, id).state == Stored(f, id).state && ReadsSame(g, id)
  {
    assert step == [step][0];
  }

  lemma {:induction false} HeldStands(f: Fleet, steps: seq<Step>, id: Id, at: int, policy: Policy)
    requires Held(f, id) && ReadsSame(f, id) && NoOperator(steps, id) && ReadsWithin(steps, false)
    ensures Stored(TakeAll(f, steps, at, policy), id).state == Stored(f, id).state
    decreases |steps|
  {
    if steps != [] {
      HoldNext(f, steps[0], id, at, policy);
      HeldStands(Take(f, steps[0], at, policy), steps[1..], id, at + 1, policy);
    }
  }

  /** Nobody but an operator changes what a held node is, exactly when every probe under way read the state it has now and no read fails. */
  lemma HeldStandsIff(f: Fleet, id: Id, blind: bool, at: int, policy: Policy)
    requires Sane(f) && Held(f, id)
    ensures ReadsSame(f, id) && !blind <==>
      forall steps :: NoOperator(steps, id) && ReadsWithin(steps, blind) ==>
        Stored(TakeAll(f, steps, at, policy), id).state == Stored(f, id).state
  {
    if !ReadsSame(f, id) {
      var p :| (p, id) in f.reading && f.reading[(p, id)].state != Stored(f, id).state;
      TakeOne(f, EndProbe(p, id, true), at, policy);
      assert NoOperator([EndProbe(p, id, true)], id) && ReadsWithin([EndProbe(p, id, true)], blind);
      assert Stored(TakeAll(f, [EndProbe(p, id, true)], at, policy), id).state != Stored(f, id).state;
    } else if blind {
      BlindProbeLosesTheHold(f, 0, id, true, at, policy);
      var steps := [StartProbe(0, id, false), EndProbe(0, id, true)];
      assert NoOperator(steps, id) && ReadsWithin(steps, blind);
    } else {
      forall steps | NoOperator(steps, id) && ReadsWithin(steps, blind)
        ensures Stored(TakeAll(f, steps, at, policy), id).state == Stored(f, id).state
      {
        HeldStands(f, steps, id, at, policy);
      }
    }
  }

  /**
    From the steps alone, the state a probe of the node still under way read:
    what was last asked for when it started, or ready if it could not read.
  */
  function Noted(f: Fleet, steps: seq<Step>, p: Prober, id: Id): Option<State> {
    if steps == [] then if (p, id) in f.reading then Some(f.reading[(p, id)].state) else None
    else
      var front, last := steps[..|steps| - 1], steps[|steps| - 1];
      if last.StartProbe? && last.p == p && last.id == id then
        Some(if last.read then LastHold(front, id, Stored(f, id).state) else Ready)
      else if last.EndProbe? && last.p == p && last.id == id then None
      else Noted(f, front, p, id)
  }

  /** No probe of the node ends with another state read than was last asked for. */
  predicate NoneCrosses(f: Fleet, steps: seq<Step>, id: Id) {
    forall k :: 0 <= k < |steps| && steps[k].EndProbe? && steps[k].id == id ==>
      var noted := Noted(f, steps[..k], steps[k].p, id);
      noted.None? || noted.value == LastHold(steps[..k], id, Stored(f, id).state)
  }

  /** At every point of the run the node is what was last asked for. */
  ghost predicate AsAsked(f: Fleet, steps: seq<Step>, id: Id, at: int, policy: Policy) {
    forall k :: 0 <= k <= |steps| ==>
      Stored(TakeAll(f, steps[..k], at, policy), id).state == LastHold(steps[..k], id, Stored(f, id).state)
  }

  lemma {:induction false} TakeAllSnoc(f: Fleet, steps: seq<Step>, last: Step, at: int, policy: Policy)
    ensures TakeAll(f, steps + [last], at, policy) == Take(TakeAll(f, steps, at, policy), last, at + |steps|, policy)
    decreases |steps|
  {
    hide Take;
    if steps == [] {
      assert [last][1..] == [];
      assert steps + [last] == [last];
    } else {
      assert (steps + [last])[1..] == steps[1..] + [last];
      TakeAllSnoc(Take(f, steps[0], at, policy), steps[1..], last, at + 1, policy);
    }
  }

  lemma AsAskedFront(f: Fleet, steps: seq<Step>, id: Id, at: int, policy: Policy)
    requires steps != []
    ensures AsAsked(f, steps, id, at, policy) <==>
              && AsAsked(f, steps[..|steps| - 1], id, at, policy)
              && Stored(TakeAll(f, steps, at, policy), id).state == LastHold(steps, id, Stored(f, id).state)
  {
    hide LastHold, Stored, TakeAll;
    var front := steps[..|steps| - 1];
    assert forall k :: 0 <= k <= |front| ==> front[..k] == steps[..k];
    assert steps[..|steps|] == steps;
  }

  function ReadingOf(f: Fleet, p: Prober, id: Id): Option<State> {
    if (p, id) in f.reading then Some(f.reading[(p, id)].state) else None
  }

  lemma ReadingNext(g: Fleet, step: Step, p: Prober, id: Id, at: int, policy: Policy)
    ensures ReadingOf(Take(g, step, at, policy), p, id)
         == if step.StartProbe? && step.p == p && step.id == id then Some(if step.read then Stored(g, id).state else Ready)
            else if step.EndProbe? && step.p == p && step.id == id then None
            else ReadingOf(g, p, id)
  {
    hide ObserveProbe, Hold, Uncordon, Stored;
  }

  lemma {:induction false} NotedIs(f: Fleet, steps: seq<Step>, p: Prober, id: Id, at: int, policy: Policy)
    requires AsAsked(f, steps, id, at, policy)
    ensures Noted(f, steps, p, id) == ReadingOf(TakeAll(f, steps, at, policy), p, id)
    decreases |steps|
  {
    hide AsAsked, LastHold, Take, Stored;
    if steps != [] {
      var front := steps[..|steps| - 1];
      AsAskedFront(f, steps, id, at, policy);
      NotedIs(f, front, p, id, at, policy);
      assert steps == front + [steps[|steps| - 1]];
      TakeAllSnoc(f, front, steps[|steps| - 1], at, policy);
      AsAskedNow(f, front, id, at, policy);
      ReadingNext(TakeAll(f, front, at, policy), steps[|steps| - 1], p, id, at + |front|, policy);
    }
  }

  lemma AsAskedNow(f: Fleet, steps: seq<Step>, id: Id, at: int, policy: Policy)
    requires AsAsked(f, steps, id, at, policy)
    ensures Stored(TakeAll(f, steps, at, policy), id).state == LastHold(steps, id, Stored(f, id).state)
  {
    assert steps[..|steps|] == steps;
  }

  lemma {:induction false} LastHoldIsHold(steps: seq<Step>, id: Id, before: State)
    requires before.AdminHeld()
    ensures LastHold(steps, id, before).AdminHeld()
  {
    if steps != [] {
      LastHoldIsHold(steps[..|steps| - 1], id, before);
    }
  }

  /** One more step of a held node that is as asked. */
  lemma AskedNext(g: Fleet, step: Step, id: Id, at: int, policy: Policy)
    requires Sane(g) && Held(g, id) && step != UncordonNode(id)
    ensures Stored(Take(g, step, at, policy), id).state
         == (if step == CordonNode(id) then Cordoned else if step == DrainNode(id) then Draining else Stored(g, id).state)
       <==> !(step.EndProbe? && step.id == id && (step.p, id) in g.reading && g.reading[(step.p, id)].state != Stored(g, id).state)
  {
  }

  /**
    Until it is uncordoned a held node is, all along, what the last cordon or
    drain made it — draining can become cordoned — exactly when no probe of it
    ends with another state read than was asked for last.
  */
  lemma {:induction false} HeldAsLastAskedIff(f: Fleet, steps: seq<Step>, id: Id, at: int, policy: Policy)
    requires Sane(f) && Held(f, id) && NoUncordon(steps, id)
    ensures AsAsked(f, steps, id, at, policy) <==> NoneCrosses(f, steps, id)
    decreases |steps|
  {
    hide AsAsked, Noted, Take, Sane, Stored;
    if steps == [] {
      assert AsAsked(f, [], id, at, policy) && NoneCrosses(f, [], id) by { NothingAsked(f, id, at, policy); }
    } else {
      var front, last := steps[..|steps| - 1], steps[|steps| - 1];
      AsAskedFront(f, steps, id, at, policy);
      CrossesSnoc(f, steps, id);
      HeldAsLastAskedIff(f, front, id, at, policy);
      if AsAsked(f, front, id, at, policy) {
        var g := TakeAll(f, front, at, policy);
        assert steps == front + [last];
        TakeAllSnoc(f, front, last, at, policy);
        RunsStaySane(f, front, at, policy);
        AsAskedNow(f, front, id, at, policy);
        LastHoldIsHold(front, id, Stored(f, id).state);
        AskedNext(g, last, id, at + |front|, policy);
        if last.EndProbe? && last.id == id {
          NotedIs(f, front, last.p, id, at, policy);
        }
      }
    }
  }

  lemma NothingAsked(f: Fleet, id: Id, at: int, policy: Policy)
    ensures AsAsked(f, [], id, at, policy) && NoneCrosses(f, [], id)
  {
  }

  lemma CrossesSnoc(f: Fleet, steps: seq<Step>, id: Id)
    requires steps != []
    ensures NoneCrosses(f, steps, id) <==>
              && NoneCrosses(f, steps[..|steps| - 1], id)
              && (steps[|steps| - 1].EndProbe? && steps[|steps| - 1].id == id ==>
                   var noted := Noted(f, steps[..|steps| - 1], steps[|steps| - 1].p, id);
                   noted.None? || noted.value == LastHold(steps[..|steps| - 1], id, Stored(f, id).state))
  {
    hide LastHold, Noted, Stored;
    var front := steps[..|steps| - 1];
    assert forall k :: 0 <= k < |front| ==> front[..k] == steps[..k] && front[k] == steps[k];
  }

  // ------------------------------------------------------ waiting and listing

  datatype Count = Failed | Running(n: nat)

  /** A poll that neither ends the wait nor finds the deadline passed. */
  predicate StillWaiting(c: Count, late: Option<nat>, i: nat) {
    c.Running? && c.n > 0 && (late.Some? ==> i < late.value)
  }

  datatype Wait = Drained | TimedOut(left: nat) | CountFailed | Cancelled(left: nat)

  /**
    Waiting for a drain: one count per poll, until it is zero, cannot be read,
    the deadline has passed or the caller gives up.  `late` is the first poll
    past the deadline, if there is one; `stop` the poll the caller gives up at.
  */
  method WaitForDrain(counts: seq<Count>, late: Option<nat>, stop: nat) returns (w: Wait, polls: nat)
    requires stop < |counts|
    ensures polls <= stop
    ensures w.Drained? <==> counts[polls] == Running(0)
    ensures w.CountFailed? <==> counts[polls] == Failed
    ensures w.TimedOut? ==> late.Some? && late.value <= polls && counts[polls] == Running(w.left) && w.left > 0
    ensures w.Cancelled? ==> polls == stop && counts[polls] == Running(w.left) && w.left > 0
    ensures forall i :: 0 <= i < polls ==> StillWaiting(counts[i], late, i)
  {
    polls := 0;
    while true
      invariant polls <= stop
      invariant forall i :: 0 <= i < polls ==> StillWaiting(counts[i], late, i)
      decreases stop - polls
    {
      if counts[polls].Failed? {
        return CountFailed, polls;
      }
      var n := counts[polls].n;
      if n == 0 {
        return Drained, polls;
      }
      if late.Some? && polls >= late.value {
        return TimedOut(n), polls;
      }
      if polls == stop {
        return Cancelled(n), polls;
      }
      polls := polls + 1;
    }
  }

  datatype Node = Node(id: Id, health: Health, registered: bool, inFlight: nat, schedulable: bool)

  /** What the listing shows of a node: the registry's view if it is registered, else its stored row. */
  function Shown(registered: seq<Id>, stored: seq<(Id, Health)>, health: map<Id, Health>, id: Id): Option<Health> {
    if id in registered then Some((if id in health then health[id] else UNSEEN).Normalize())
    else FirstStored(stored, id)
  }

  function FirstStored(stored: seq<(Id, Health)>, id: Id): Option<Health> {
    if stored == [] then None
    else
      match FirstStored(stored[..|stored| - 1], id)
      case Some(h) => Some(h)
      case None => if stored[|stored| - 1].0 == id then Some(stored[|stored| - 1].1.Normalize()) else None
  }

  /** A node the registry does not have is shown as the first row stored for it. */
  lemma {:induction false} ShownIs(registered: seq<Id>, stored: seq<(Id, Health)>, health: map<Id, Health>, id: Id, k: nat)
    requires id !in registered && k < |stored| && stored[k].0 == id && forall j :: 0 <= j < k ==> stored[j].0 != id
    ensures Shown(registered, stored, health, id) == Some(stored[k].1.Normalize())
  {
    var n := |stored| - 1;
    if k < n {
      ShownIs(registered, stored[..n], health, id, k);
    } else {
      NoneStored(stored[..n], id);
    }
  }

  lemma {:induction false} NoneStored(stored: seq<(Id, Health)>, id: Id)
    requires forall j :: 0 <= j < |stored| ==> stored[j].0 != id
    ensures FirstStored(stored, id) == None
  {
    if stored != [] {
      NoneStored(stored[..|stored| - 1], id);
    }
  }

  /**
    The fleet listing: one row for each registered executor and each stored
    row, in ascending id order; a registered id shows the registry's health.
  */
  method CollectNodes(registered: seq<Id>, stored: seq<(Id, Health)>, health: map<Id, Health>, running: map<Id, nat>)
      returns (nodes: seq<Node>)
    ensures forall i, j :: 0 <= i < j < |nodes| ==> Before(nodes[i].id, nodes[j].id)
    ensures forall id :: (exists i :: 0 <= i < |nodes| && nodes[i].id == id) <==> Shown(registered, stored, health, id).Some?
    ensures forall i :: 0 <= i < |nodes| ==>
      && Shown(registered, stored, health, nodes[i].id) == Some(nodes[i].health)
      && nodes[i].registered == (nodes[i].id in registered)
      && nodes[i].schedulable == nodes[i].health.state.Schedulable()
      && nodes[i].inFlight == if nodes[i].id in running then running[nodes[i].id] else 0
  {
    var byId := Joined(registered, stored, health);
    var rest := byId.Keys;
    nodes := [];
    while rest != {}
      invariant rest <= byId.Keys
      invariant forall i, j :: 0 <= i < j < |nodes| ==> Before(nodes[i].id, nodes[j].id)
      invariant forall i, id :: 0 <= i < |nodes| && id in rest ==> Before(nodes[i].id, id)
      invariant forall id :: id in byId <==> id in rest || exists i :: 0 <= i < |nodes| && nodes[i].id == id
      invariant forall i :: 0 <= i < |nodes| ==>
        && nodes[i].id in byId && nodes[i].health == byId[nodes[i].id]
        && nodes[i].registered == (nodes[i].id in registered)
        && nodes[i].schedulable == nodes[i].health.state.Schedulable()
        && nodes[i].inFlight == if nodes[i].id in running then running[nodes[i].id] else 0
      decreases rest
    {
      var id := Least(rest);
      var h := byId[id];
      var count := if id in running then running[id] else 0;
      ghost var before := nodes;
      nodes := nodes + [Node(id, h, id in registered, count, h.state.Schedulable())];
      rest := rest - {id};
      assert nodes[|nodes| - 1].id == id;
      forall x | x in byId && x !in rest ensures exists i :: 0 <= i < |nodes| && nodes[i].id == x {
        if x != id {
          var i :| 0 <= i < |before| && before[i].id == x;
          assert nodes[i].id == x;
        }
      }
    }
  }

  /** The registry's nodes first, then the stored rows of ids it does not have. */
  method Joined(registered: seq<Id>, stored: seq<(Id, Health)>, health: map<Id, Health>) returns (byId: map<Id, Health>)
    ensures forall id :: id in byId <==> Shown(registered, stored, health, id).Some?
    ensures forall id :: id in byId ==> Shown(registered, stored, health, id) == Some(byId[id])
  {
    byId := map[];
    var i := 0;
    while i < |registered|
      invariant 0 <= i <= |registered|
      invariant forall id :: id in byId <==> id in registered[..i]
      invariant forall id :: id in byId ==> byId[id] == (if id in health then health[id] else UNSEEN).Normalize()
    {
      var id := registered[i];
      byId := byId[id := (if id in health then health[id] else UNSEEN).Normalize()];
      i := i + 1;
    }
    assert registered[..i] == registered;
    i := 0;
    while i < |stored|
      invariant 0 <= i <= |stored|
      invariant forall id :: id in byId <==> Shown(registered, stored[..i], health, id).Some?
      invariant forall id :: id in byId ==> Shown(registered, stored[..i], health, id) == Some(byId[id])
    {
      assert stored[..i + 1][..i] == stored[..i];
      var row := stored[i];
      if row.0 !in byId {
        byId := byId[row.0 := row.1.Normalize()];
      }
      i := i + 1;
    }
    assert stored[..i] == stored;
  }

  method Least(ids: set<Id>) returns (least: Id)
    requires ids != {}
    ensures least in ids && forall id :: id in ids && id != least ==> Before(least, id)
  {
    least :| least in ids;
    var rest := ids - {least};
    while rest != {}
      invariant rest <= ids && least in ids && least !in rest
      invariant forall id :: id in ids && id !in rest && id != least ==> Before(least, id)
      decreases rest
    {
      var id :| id in rest;
      BeforeTotal(id, least);
      if Before(id, least) {
        forall x | x in ids && x !in rest && x != least ensures Before(id, x) {
          BeforeTransitive(id, least, x);
        }
        rest := rest - {id};
        least := id;
      } else {
        rest := rest - {id};
      }
    }
  }
}
