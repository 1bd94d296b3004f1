/**
  Replacing the hub's certificate authority online.

  The control plane keeps up to two CAs (an active one and either the one staged
  to replace it or the one it replaced), the issuer of each monitor's stored
  leaf, what each hub member last reported, and the runs on record.  A member
  holds its own view of the CAs, which lags until it refreshes.  Everything a
  member, a dispatch or an operator does is one Step; a refused step is a step
  that changes nothing but what the source changes before it refuses.
*/
module HubCA {
  import opened Wrappers

  type Serial = nat
  type MemberId = nat
  type RunId = nat

  datatype Monitor = GitProxy | KubeGuard

  datatype Phase = Steady | Staged | Activated

  /** The CA rows of the control plane. */
  datatype Slots = Slots(active: Serial, next: Option<Serial>, previous: Option<Serial>) {
    function Phase(): Phase {
      if next.Some? then Staged else if previous.Some? then Activated else Steady
    }

    /** What a sandbox dispatched under these slots is told to trust. */
    function Trusted(): set<Serial> {
      {active}
      + (if next.Some? then {next.value} else {})
      + (if previous.Some? then {previous.value} else {})
    }
  }

  /** What a member last put on record about itself; `recent` while that is no more than three minutes ago. */
  datatype Report = Report(active: Serial, trusts: set<Serial>, leaves: map<Monitor, Serial>, recent: bool)

  /**
    A hub member: whether its build takes part in rotations, its view of the
    CAs, the issuer of the leaf each of its monitors serves, and its report.
  */
  datatype Member = Member(rotates: bool, view: Slots, leaves: map<Monitor, Serial>, report: Option<Report>)

  /**
    A dispatch under way or running, with the member it was begun on.  It is
    given its CAs first and put on record last; only then is it `listed` where a
    rotation reads runs.  `labelled` and `noted` are what its record says;
    `uses` and `trusts` are what it was really given.
  */
  datatype Run = Run(owner: MemberId, listed: bool, labelled: bool, noted: set<Serial>, uses: bool, trusts: set<Serial>) {
    /** Whether a rotation takes the run to stop verifying leaves of `serial`. */
    predicate Breaks(serial: Serial) {
      !labelled || (uses && serial !in noted)
    }
  }

  /** The newest rotation on record, as an emergency's cut reads it. */
  datatype Rotation = Rotation(emergency: bool, to: Serial, cut: set<RunId>)

  /**
    `broken`, `overlooked` and `burned` are history: the runs a forced
    activation or an emergency named, or that were dispatched in a way the
    guards do not cover; the dispatches under way at an activation or emergency
    that lack its CA, which nothing names; and the CAs emergencies replaced.
  */
  datatype State = State(
    slots: Slots,
    minted: Serial,
    store: map<Monitor, Serial>,
    members: map<MemberId, Member>,
    runs: map<RunId, Run>,
    sessions: set<(MemberId, RunId)>,
    last: Option<Rotation>,
    done: set<MemberId>,
    broken: set<RunId>,
    overlooked: set<RunId>,
    burned: set<Serial>)

  datatype Step =
    | Stage
    | Activate(force: bool)
    | RetirePrevious
    | Abort
    | Emergency
    | Join(m: MemberId, rotates: bool)
    | Leave(m: MemberId)
    | StartMonitor(m: MemberId, mon: Monitor)
    | StopMonitor(m: MemberId, mon: Monitor)
    | Adopt(m: MemberId)
    | Settle(m: MemberId, mon: Monitor, reissue: bool)
    | Tick(m: MemberId, reissue: bool)
    | FallSilent(m: MemberId)
    | Begin(m: MemberId, r: RunId, uses: bool, activeOnly: bool)
    | Record(r: RunId)
    | Finish(r: RunId)

  datatype Refusal = WrongPhase | MembersBehind | RunsWouldBreak | LeavesBehind | NotApplicable

  datatype Outcome = Outcome(state: State, refused: Option<Refusal>)

  // ---------------------------------------------------------------- judging

  /** A member that has not adopted the current slots, or has gone silent during a rotation, as a step judges it. */
  predicate Behind(slots: Slots, m: Member) {
    || !m.rotates
    || (m.report.Some? && !m.report.value.recent && slots.Phase() != Steady)
    || (m.report.Some? && m.report.value.recent &&
        var rep := m.report.value;
        || rep.active != slots.active
        || rep.trusts != slots.Trusted()
        || (slots.Phase() != Staged &&
            exists mon :: mon in rep.leaves && rep.leaves[mon] != slots.active))
  }

  predicate AnyBehind(slots: Slots, members: map<MemberId, Member>) {
    exists m :: m in members && Behind(slots, members[m])
  }

  function BrokenBy(runs: map<RunId, Run>, serial: Serial): set<RunId> {
    set r | r in runs && runs[r].listed && runs[r].Breaks(serial)
  }

  /** The dispatches under way that were not given a CA, and that nothing named. */
  function UnderWayWithout(runs: map<RunId, Run>, broken: set<RunId>, serial: Serial): set<RunId> {
    set r | r in runs && !runs[r].listed && runs[r].uses && r !in broken && serial !in runs[r].trusts
  }

  /** A member that reports, and has done so lately, says it serves this monitor. */
  predicate ServedByAMember(members: map<MemberId, Member>, mon: Monitor) {
    exists m :: m in members && members[m].report.Some? && members[m].report.value.recent && mon in members[m].report.value.leaves
  }

  /** A stored leaf of another CA that a member serves: the leader is to replace it. */
  predicate LeafBehind(s: State) {
    exists mon :: mon in s.store && s.store[mon] != s.slots.active && ServedByAMember(s.members, mon)
  }

  function Reissued(store: map<Monitor, Serial>, ca: Serial): map<Monitor, Serial> {
    map mon | mon in store :: ca
  }

  // ------------------------------------------------------- operator's steps

  function StageStep(s: State): Outcome {
    if s.slots.Phase() != Steady then Outcome(s, Some(WrongPhase))
    else Outcome(s.(slots := s.slots.(next := Some(s.minted)),
                    minted := s.minted + 1,
                    last := Some(Rotation(false, s.minted, {})),
                    done := {}), None)
  }

  function ActivateStep(s: State, force: bool): Outcome {
    if s.slots.Phase() != Staged then Outcome(s, Some(WrongPhase))
    else if AnyBehind(s.slots, s.members) then Outcome(s, Some(MembersBehind))
    else
      var named := BrokenBy(s.runs, s.slots.next.value);
      if named != {} && !force then Outcome(s, Some(RunsWouldBreak))
      else Outcome(s.(slots := Slots(s.slots.next.value, None, Some(s.slots.active)),
                      broken := s.broken + named,
                      overlooked := s.overlooked + UnderWayWithout(s.runs, s.broken, s.slots.next.value)), None)
  }

  function RetireStep(s: State): Outcome {
    if s.slots.Phase() != Activated then Outcome(s, Some(WrongPhase))
    else if LeafBehind(s) then Outcome(s, Some(LeavesBehind))
    else
      // A stored leaf nobody serves is reissued by the step itself, whether or
      // not the step then goes through.
      var s1 := s.(store := Reissued(s.store, s.slots.active));
      if AnyBehind(s.slots, s.members) then Outcome(s1, Some(MembersBehind))
      else Outcome(s1.(slots := s.slots.(previous := None)), None)
  }

  function AbortStep(s: State): Outcome {
    if s.slots.Phase() != Staged then Outcome(s, Some(WrongPhase))
    else Outcome(s.(slots := s.slots.(next := None)), None)
  }

  function EmergencyStep(s: State): Outcome {
    if exists m :: m in s.members && !s.members[m].rotates then Outcome(s, Some(MembersBehind))
    else
      var ca := s.minted;
      var named := BrokenBy(s.runs, ca);
      Outcome(s.(slots := Slots(ca, None, None),
                 minted := ca + 1,
                 store := Reissued(s.store, ca),
                 last := Some(Rotation(true, ca, named)),
                 done := {},
                 broken := s.broken + named,
                 overlooked := s.overlooked + UnderWayWithout(s.runs, s.broken, ca),
                 burned := s.burned + s.slots.Trusted()), None)
  }

  // -------------------------------------------------------- members' steps

  /** A build that takes part in rotations re-reads the CAs; an older one keeps what it opened. */
  function Refreshed(s: State, m: Member): Member {
    if m.rotates then m.(view := s.slots) else m
  }

  /**
    Which issuer a monitor's leaf comes from once a member has settled it: the
    stored leaf if the member accepts it, else one it issues.
  */
  function SettledLeaf(view: Slots, stored: Option<Serial>, reissue: bool): Serial {
    if stored.Some? && !reissue && stored.value in view.Trusted() then stored.value else view.active
  }

  function Lookup<K, V>(m: map<K, V>, k: K): Option<V> {
    if k in m then Some(m[k]) else None
  }

  function ReportOf(m: Member): Report {
    Report(m.view.active, m.view.Trusted(), m.leaves, true)
  }

  function JoinStep(s: State, m: MemberId, rotates: bool): Outcome {
    if m in s.members then Outcome(s, Some(NotApplicable))
    else
      var view := if rotates then s.slots else Slots(s.slots.active, None, None);
      Outcome(s.(members := s.members[m := Member(rotates, view, map[], None)], done := s.done - {m}), None)
  }

  function LeaveStep(s: State, m: MemberId): Outcome {
    if m !in s.members then Outcome(s, Some(NotApplicable))
    else Outcome(s.(members := s.members - {m},
                    sessions := (set x | x in s.sessions && x.0 != m),
                    done := s.done - {m}), None)
  }

  /**
    A process starting a monitor judges its leaf by the leader's rule; with its
    first monitor it also starts its refresher, which reports at once.
  */
  function StartStep(s: State, m: MemberId, mon: Monitor): Outcome {
    if m !in s.members || mon in s.members[m].leaves then Outcome(s, Some(NotApplicable))
    else
      var before := s.members[m];
      var cur := Refreshed(s, before);
      var served := cur.(leaves := cur.leaves[mon := cur.view.active]);
      var reporting := if before.leaves == map[] && before.rotates then served.(report := Some(ReportOf(served))) else served;
      Outcome(s.(members := s.members[m := reporting], store := s.store[mon := cur.view.active]), None)
  }

  function StopStep(s: State, m: MemberId, mon: Monitor): Outcome {
    if m !in s.members || mon !in s.members[m].leaves then Outcome(s, Some(NotApplicable))
    else
      var left := s.members[m].(leaves := s.members[m].leaves - {mon});
      var withdrawn := if left.leaves == map[] then left.(report := None) else left;
      Outcome(s.(members := s.members[m := withdrawn]), None)
  }

  function AdoptStep(s: State, m: MemberId): Outcome {
    if m !in s.members then Outcome(s, Some(NotApplicable))
    else Outcome(s.(members := s.members[m := Refreshed(s, s.members[m])]), None)
  }

  /** Refresh the CAs first, then settle one monitor's leaf. */
  function SettleStep(s: State, m: MemberId, mon: Monitor, reissue: bool): Outcome {
    if m !in s.members || mon !in s.members[m].leaves then Outcome(s, Some(NotApplicable))
    else
      var cur := Refreshed(s, s.members[m]);
      var leaf := SettledLeaf(cur.view, Lookup(s.store, mon), reissue);
      Outcome(s.(members := s.members[m := cur.(leaves := cur.leaves[mon := leaf])],
                 store := s.store[mon := leaf]), None)
  }

  /**
    One refresh of a member: the CAs, each monitor's leaf, the emergency's cut,
    and the report.  The cut is read from the newest rotation alone, once.
  */
  function TickStep(s: State, m: MemberId, reissue: bool): Outcome {
    if m !in s.members || !s.members[m].rotates || s.members[m].leaves == map[] then Outcome(s, Some(NotApplicable))
    else
      var cur := s.members[m].(view := s.slots);
      var leaves := map mon | mon in cur.leaves :: SettledLeaf(s.slots, Lookup(s.store, mon), reissue);
      var settled := cur.(leaves := leaves);
      var reported := settled.(report := Some(ReportOf(settled)));
      var s1 := s.(members := s.members[m := reported], store := s.store + leaves);
      if s.last.Some? && s.last.value.emergency && m !in s.done then
        Outcome(s1.(done := s.done + {m},
                    sessions := (set x | x in s.sessions && !(x.0 == m && CutFrom(s, x.1)))), None)
      else Outcome(s1, None)
  }

  /** Three minutes pass without a report; whatever the member does meanwhile, it goes on doing. */
  function SilentStep(s: State, m: MemberId): Outcome {
    if m !in s.members || s.members[m].report.None? then Outcome(s, Some(NotApplicable))
    else
      var last := s.members[m].report.value;
      Outcome(s.(members := s.members[m := s.members[m].(report := Some(last.(recent := false)))]), None)
  }

  /** The runs an emergency's cut ends: the ones it named, and any on record lacking the new CA. */
  predicate CutFrom(s: State, r: RunId)
    requires s.last.Some?
  {
    r in s.last.value.cut || (r in s.runs && s.runs[r].listed && s.runs[r].Breaks(s.last.value.to))
  }

  /** An id is not handed out while a run has it or the newest rotation names it. */
  predicate Taken(s: State, r: RunId) {
    r in s.runs || (s.last.Some? && r in s.last.value.cut)
  }

  /**
    A dispatch begins: it is told to trust its member's view — or the view's
    active CA alone, when the executor's agent cannot hold two — and its
    sessions are open, before it is on record.  A build from before rotation
    labels nothing.
  */
  function BeginStep(s: State, m: MemberId, r: RunId, uses: bool, activeOnly: bool): Outcome {
    if m !in s.members || Taken(s, r) || (uses && s.members[m].leaves == map[]) then Outcome(s, Some(NotApplicable))
    else
      var mem := s.members[m];
      var given := if activeOnly || !mem.rotates then {mem.view.active} else mem.view.Trusted();
      var run := Run(m, false, mem.rotates, if mem.rotates then given else {}, uses, given);
      Outcome(s.(runs := s.runs[r := run],
                 sessions := if uses then s.sessions + {(m, r)} else s.sessions,
                 broken := if DispatchCovered(s, mem, activeOnly) then s.broken else s.broken + {r}), None)
  }

  /** Its workload started, the member puts the run on record. */
  function RecordStep(s: State, r: RunId): Outcome {
    if r !in s.runs || s.runs[r].listed || s.runs[r].owner !in s.members then Outcome(s, Some(NotApplicable))
    else Outcome(s.(runs := s.runs[r := s.runs[r].(listed := true)]), None)
  }

  /** Every leaf any member serves comes from the active CA. */
  predicate AllLeavesActive(s: State) {
    forall m, mon :: m in s.members && mon in s.members[m].leaves ==> s.members[m].leaves[mon] == s.slots.active
  }

  /**
    The dispatches the protocol looks after: not from a CA an emergency
    replaced, and given both CAs while both may be served.
  */
  predicate DispatchCovered(s: State, mem: Member, activeOnly: bool) {
    && mem.view.active !in s.burned
    && ((activeOnly || !mem.rotates) && s.slots.Phase() == Activated ==> AllLeavesActive(s))
  }

  /** A run ends, or its dispatch is given up. */
  function FinishStep(s: State, r: RunId): Outcome {
    if r !in s.runs then Outcome(s, Some(NotApplicable))
    else Outcome(s.(runs := s.runs - {r},
                    sessions := (set x | x in s.sessions && x.1 != r),
                    broken := s.broken - {r},
                    overlooked := s.overlooked - {r}), None)
  }

  function Take(s: State, step: Step): Outcome {
    match step
    case Stage => StageStep(s)
    case Activate(force) => ActivateStep(s, force)
    case RetirePrevious => RetireStep(s)
    case Abort => AbortStep(s)
    case Emergency => EmergencyStep(s)
    case Join(m, rotates) => JoinStep(s, m, rotates)
    case Leave(m) => LeaveStep(s, m)
    case StartMonitor(m, mon) => StartStep(s, m, mon)
    case StopMonitor(m, mon) => StopStep(s, m, mon)
    case Adopt(m) => AdoptStep(s, m)
    case Settle(m, mon, reissue) => SettleStep(s, m, mon, reissue)
    case Tick(m, reissue) => TickStep(s, m, reissue)
    case FallSilent(m) => SilentStep(s, m)
    case Begin(m, r, uses, activeOnly) => BeginStep(s, m, r, uses, activeOnly)
    case Record(r) => RecordStep(s, r)
    case Finish(r) => FinishStep(s, r)
  }

  /** The control plane just after its first CA was minted. */
  const First := State(Slots(0, None, None), 1, map[], map[], map[], {}, None, {}, {}, {}, {})

  function RunAll(s: State, steps: seq<Step>): State
    decreases |steps|
  {
    if steps == [] then s else RunAll(Take(s, steps[0]).state, steps[1..])
  }
}
