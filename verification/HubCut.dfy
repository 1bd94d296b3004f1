/**
  An emergency replacement and the sessions it is to cut: which of them a
  member's refresh leaves open, and what happens to those afterwards.
*/
module HubCut {
  import opened Wrappers
  import opened HubCA
  import opened HubInvariant
  import opened HubRotation

  // ------------------------------------------------ an emergency's cut

  /** The runs that do not trust `ca` and that `m` holds a session of. */
  function Lacking(s: State, m: MemberId, ca: Serial): set<RunId> {
    set r | r in s.runs && (m, r) in s.sessions && ca !in s.runs[r].trusts
  }

  /** Those of them not on record yet. */
  function LackingUnderWay(s: State, m: MemberId, ca: Serial): set<RunId> {
    set r | r in Lacking(s, m, ca) && !s.runs[r].listed
  }

  predicate EmergencyNewest(s: State) {
    s.last.Some? && s.last.value.emergency
  }

  /** Whether a refresh of the member cuts: the newest rotation is an emergency it has not cut for. */
  predicate CutsNext(s: State, m: MemberId) {
    EmergencyNewest(s) && m !in s.done
  }

  /** What a refresh leaves its member of sessions of runs lacking the active CA: those under way if it cuts, else all. */
  lemma TickLeaves(s: State, m: MemberId, reissue: bool)
    requires Inv(s) && TickStep(s, m, reissue).refused.None?
    ensures var t := TickStep(s, m, reissue).state;
            && t.slots == s.slots
            && Lacking(t, m, s.slots.active)
            == (if CutsNext(s, m) then LackingUnderWay(s, m, s.slots.active) else Lacking(s, m, s.slots.active))
            && (!CutsNext(s, m) ==> t.sessions == s.sessions)
  {
    hide MemberOk, RunServed, SettledLeaf, StoreOk;
    var ca, t := s.slots.active, TickStep(s, m, reissue).state;
    assert t.runs == s.runs && t.slots == s.slots;
    if CutsNext(s, m) {
      assert s.last.value.to == ca;
      forall r | r in Lacking(s, m, ca) ensures r in Lacking(t, m, ca) <==> !s.runs[r].listed {
        assert RunOk(s, s.runs[r]) && s.runs[r].uses;
        CutOnlyListed(s, r);
      }
    }
  }

  lemma CutOnlyListed(s: State, r: RunId)
    requires Inv(s) && EmergencyNewest(s) && r in s.runs && s.runs[r].uses && s.last.value.to !in s.runs[r].trusts
    ensures CutFrom(s, r) <==> s.runs[r].listed
  {
    hide MemberOk, RunServed, StoreOk;
    assert RunOk(s, s.runs[r]);
  }

  /** Exactly when a member's refresh leaves it no session of a run lacking the active CA. */
  lemma TickCutsIff(s: State, m: MemberId, reissue: bool)
    requires Inv(s) && TickStep(s, m, reissue).refused.None?
    ensures Lacking(TickStep(s, m, reissue).state, m, s.slots.active) == {} <==>
      (CutsNext(s, m) && LackingUnderWay(s, m, s.slots.active) == {}) || Lacking(s, m, s.slots.active) == {}
  {
    hide Inv, TickStep;
    TickLeaves(s, m, reissue);
  }

  /** Whether the newest rotation is an emergency, from the steps alone: the last one begun, or `now` if none is. */
  predicate NewestIsEmergency(s: State, steps: seq<Step>, now: bool)
    decreases |steps|
  {
    if steps == [] then now
    else
      var begun := Take(s, steps[0]).refused.None?;
      var after := if begun && steps[0].Emergency? then true else if begun && steps[0].Stage? then false else now;
      NewestIsEmergency(Take(s, steps[0]).state, steps[1..], after)
  }

  lemma StepsSayNewest(s: State, step: Step)
    ensures EmergencyNewest(Take(s, step).state)
       <==> if Take(s, step).refused.Some? then EmergencyNewest(s)
            else if step.Emergency? then true
            else if step.Stage? then false
            else EmergencyNewest(s)
  {
  }

  lemma {:induction false} NewestIs(s: State, steps: seq<Step>)
    ensures EmergencyNewest(RunAll(s, steps)) <==> NewestIsEmergency(s, steps, EmergencyNewest(s))
    decreases |steps|
  {
    hide Take;
    if steps != [] {
      StepsSayNewest(s, steps[0]);
      NewestIs(Take(s, steps[0]).state, steps[1..]);
    }
  }

  /**
    What an emergency promises of a member's first refresh since the newest
    rotation, whatever happens between them: no session of a run lacking the CA
    active by then stays, exactly when the member holds none, or the last
    rotation begun since is an emergency again, or none is, and none of them is
    of a dispatch still under way.  After a stage the refresh ends no session.
  */
  lemma EmergencyCutsIff(steps: seq<Step>, between: seq<Step>, m: MemberId, reissue: bool)
    requires EmergencyStep(RunAll(First, steps)).refused.None?
    requires TickStep(RunAll(EmergencyStep(RunAll(First, steps)).state, between), m, reissue).refused.None?
    requires m !in RunAll(EmergencyStep(RunAll(First, steps)).state, between).done
    ensures var e := EmergencyStep(RunAll(First, steps)).state;
            var t := RunAll(e, between);
            var ticked := TickStep(t, m, reissue).state;
            && (Lacking(ticked, m, t.slots.active) == {} <==>
                 || Lacking(t, m, t.slots.active) == {}
                 || (NewestIsEmergency(e, between, true) && LackingUnderWay(t, m, t.slots.active) == {}))
            && (!NewestIsEmergency(e, between, true) ==> ticked.sessions == t.sessions)
  {
    hide RunAll, Inv, EmergencyStep, TickStep, NewestIsEmergency, Lacking, LackingUnderWay;
    var s := RunAll(First, steps);
    RunAllKeeps(First, steps);
    EmergencyKeeps(s);
    var e := EmergencyStep(s).state;
    EmergencyIsNewest(s);
    RunAllKeeps(e, between);
    NewestIs(e, between);
    TickCutsIff(RunAll(e, between), m, reissue);
    TickLeaves(RunAll(e, between), m, reissue);
  }

  lemma EmergencyIsNewest(s: State)
    requires EmergencyStep(s).refused.None?
    ensures EmergencyNewest(EmergencyStep(s).state)
  {
  }

  /** What a member could be given, or hold, after its cut is of the emergency's CA. */
  predicate Adopted(s: State, m: MemberId) {
    m in s.members ==> s.members[m].view.active == s.slots.active
  }

  lemma CutStep(s: State, m: MemberId, step: Step)
    requires Inv(s) && EmergencyNewest(s) && Adopted(s, m) && !step.Stage? && !step.Emergency?
    ensures var t := Take(s, step).state;
            && EmergencyNewest(t) && Adopted(t, m) && t.slots == s.slots
            && Lacking(t, m, s.slots.active) <= Lacking(s, m, s.slots.active)
  {
    hide MemberOk, RunOk, RunServed, StoreOk, OverlookedOk, SettledLeaf;
  }

  lemma {:induction false} LackingShrinks(s: State, m: MemberId, steps: seq<Step>)
    requires Inv(s) && EmergencyNewest(s) && Adopted(s, m) && NoRotation(steps)
    ensures Lacking(RunAll(s, steps), m, s.slots.active) <= Lacking(s, m, s.slots.active)
    decreases |steps|
  {
    hide Inv, Take, Lacking, EmergencyNewest, Adopted;
    if steps != [] {
      var t := Take(s, steps[0]).state;
      StepKeeps(s, steps[0]);
      CutStep(s, m, steps[0]);
      LackingShrinks(t, m, steps[1..]);
    }
  }

  predicate NoRotation(steps: seq<Step>) {
    forall i :: 0 <= i < |steps| ==> !steps[i].Stage? && !steps[i].Emergency?
  }

  /**
    After a member's refresh no session of a run lacking the new CA is added
    while the emergency is the newest rotation: what is left are those its cut
    found under way, as far as they have not ended.
  */
  lemma CutsStayCut(steps: seq<Step>, m: MemberId, reissue: bool, later: seq<Step>)
    requires CutsNext(RunAll(First, steps), m) && TickStep(RunAll(First, steps), m, reissue).refused.None? && NoRotation(later)
    ensures var s := RunAll(First, steps);
            Lacking(RunAll(TickStep(s, m, reissue).state, later), m, s.slots.active) <= LackingUnderWay(s, m, s.slots.active)
  {
    hide RunAll, Inv, TickStep, Lacking, LackingUnderWay;
    var s := RunAll(First, steps);
    RunAllKeeps(First, steps);
    TickKeeps(s, m, reissue);
    TickAdopts(s, m, reissue);
    TickLeaves(s, m, reissue);
    LackingShrinks(TickStep(s, m, reissue).state, m, later);
  }

  lemma TickAdopts(s: State, m: MemberId, reissue: bool)
    requires TickStep(s, m, reissue).refused.None?
    ensures var t := TickStep(s, m, reissue).state; t.last == s.last && Adopted(t, m)
  {
  }

  /** Such a run exists: a dispatch, an emergency, a new stage and a refresh leave a session of a run lacking the active CA. */
  lemma AnUncutSession()
    ensures var steps := [Join(0, true), StartMonitor(0, GitProxy), Begin(0, 7, true, false), Record(7), Emergency, Stage, Tick(0, false)];
            var s := RunAll(First, steps);
            7 in Lacking(s, 0, s.slots.active) && s.runs[7].listed
  {
    hide RunAll, Take, BegunRun;
    BegunThen([Record(7), Emergency, Stage, Tick(0, false)]);
    RunFour(BegunRun(), Record(7), Emergency, Stage, Tick(0, false));
    assert [Join(0, true), StartMonitor(0, GitProxy), Begin(0, 7, true, false), Record(7), Emergency, Stage, Tick(0, false)]
        == [Join(0, true), StartMonitor(0, GitProxy), Begin(0, 7, true, false)] + [Record(7), Emergency, Stage, Tick(0, false)];
    var s := StagedPast();
    UncutTick(s);
  }

  lemma StagedPast() returns (s: State)
    ensures s == Take(Take(Take(BegunRun(), Record(7)).state, Emergency).state, Stage).state
    ensures s.slots == Slots(1, Some(2), None) && !EmergencyNewest(s) && s.sessions == {(0, 7)}
    ensures s.runs == map[7 := Run(0, true, true, {0}, true, {0})]
  {
    var recorded := Take(BegunRun(), Record(7)).state;
    var e := Take(recorded, Emergency).state;
    assert e.slots == Slots(1, None, None);
    s := Take(e, Stage).state;
  }

  lemma UncutTick(s: State)
    requires !EmergencyNewest(s)
    ensures var t := Take(s, Tick(0, false)).state; t.slots == s.slots && t.runs == s.runs && t.sessions == s.sessions
  {
  }

  /** And so does one a cut overlooks: a dispatch under way at the emergency goes on record after its member's cut. */
  lemma AnUnlistedSession()
    ensures var steps := [Join(0, true), StartMonitor(0, GitProxy), Begin(0, 7, true, false), Emergency, Tick(0, false), Record(7), Tick(0, false)];
            var s := RunAll(First, steps);
            EmergencyNewest(s) && 0 in s.done && 7 in Lacking(s, 0, s.slots.active) && s.runs[7].listed
  {
    hide RunAll, Take, BegunRun;
    BegunThen([Emergency, Tick(0, false), Record(7), Tick(0, false)]);
    RunFour(BegunRun(), Emergency, Tick(0, false), Record(7), Tick(0, false));
    assert [Join(0, true), StartMonitor(0, GitProxy), Begin(0, 7, true, false), Emergency, Tick(0, false), Record(7), Tick(0, false)]
        == [Join(0, true), StartMonitor(0, GitProxy), Begin(0, 7, true, false)] + [Emergency, Tick(0, false), Record(7), Tick(0, false)];
    var s := CutWithoutIt();
    RecordedUncut(s);
  }

  lemma RecordedUncut(s: State)
    requires s.done == {0} && 7 in s.runs && !s.runs[7].listed && s.runs[7].owner in s.members
    ensures var t := Take(Take(s, Record(7)).state, Tick(0, false)).state;
            && t.slots == s.slots && t.last == s.last && t.sessions == s.sessions && t.done == s.done
            && t.runs == s.runs[7 := s.runs[7].(listed := true)]
  {
  }

  /** The cut that overlooks it. */
  lemma CutWithoutIt() returns (s: State)
    ensures s == Take(Take(BegunRun(), Emergency).state, Tick(0, false)).state
    ensures s.slots == Slots(1, None, None) && EmergencyNewest(s) && s.done == {0} && s.sessions == {(0, 7)}
    ensures s.runs == map[7 := Run(0, false, true, {0}, true, {0})] && s.members.Keys == {0} && s.members[0].rotates
  {
    var e := Take(BegunRun(), Emergency).state;
    assert e.last.value.cut == {} && e.slots == Slots(1, None, None);
    s := Take(e, Tick(0, false)).state;
    assert (0, 7) in s.sessions;
  }
}
