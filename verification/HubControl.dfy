/**
  The operator's side of a hub CA rotation: the steps of `hub ca rotate` as
  they run against the control plane, and the command that chooses one.

  Each step reads the members and the runs in loops and then writes; HubCA
  says what every interleaving of these steps keeps.
*/
module HubControl {
  import opened Wrappers
  import opened HubCA

  datatype Mode = StageMode | ActivateMode | RetireMode | StatusMode | NowMode | AbortMode

  /** The flags in the order the command scans them. */
  const MODES := [StageMode, ActivateMode, RetireMode, StatusMode, NowMode, AbortMode]

  const MONITORS := [GitProxy, KubeGuard]

  lemma AllModes(mode: Mode)
    ensures exists k :: 0 <= k < |MODES| && MODES[k] == mode
  {
    assert MODES[0] == StageMode && MODES[1] == ActivateMode && MODES[2] == RetireMode;
    assert MODES[3] == StatusMode && MODES[4] == NowMode && MODES[5] == AbortMode;
  }

  lemma AllMonitors()
    ensures forall mon: Monitor :: mon in MONITORS[..2]
  {
    assert MONITORS[..2] == [GitProxy, KubeGuard];
    forall mon: Monitor ensures mon in MONITORS[..2] {
      assert mon == MONITORS[..2][0] || mon == MONITORS[..2][1];
    }
  }

  datatype Misuse = TwoSteps | ForceElsewhere | NamesElsewhere | NamesContradict | Unconfirmed

  datatype Choice = Do(mode: Mode) | Misused(why: Misuse)

  predicate Destructive(mode: Mode, force: bool) {
    mode == RetireMode || mode == NowMode || mode == AbortMode || (mode == ActivateMode && force)
  }

  method ScanMode(on: set<Mode>) returns (mode: Option<Mode>, clash: bool)
    ensures clash <==> exists a, b :: a in on && b in on && a != b
    ensures !clash ==> on == if mode.Some? then {mode.value} else {}
  {
    mode, clash := None, false;
    var i := 0;
    while i < |MODES|
      invariant 0 <= i <= |MODES|
      invariant !clash
      invariant forall k :: 0 <= k < i && MODES[k] in on ==> mode == Some(MODES[k])
      invariant mode.Some? ==> mode.value in on && mode.value in MODES[..i]
    {
      if MODES[i] in on {
        if mode.Some? {
          clash := true;
          return;
        }
        mode := Some(MODES[i]);
      }
      i := i + 1;
    }
    forall m | m in on ensures mode == Some(m) {
      AllModes(m);
    }
  }

  /** The step the flags ask for; none of them asks for the status. */
  predicate Asked(on: set<Mode>, mode: Mode) {
    on == {mode} || (on == {} && mode == StatusMode)
  }

  /** Force is an activation's, names a stage's or an emergency's, and what destroys or breaks is confirmed. */
  predicate Allowed(mode: Mode, force: bool, yes: bool, names: bool, noConstraints: bool) {
    && (force ==> mode == ActivateMode)
    && (names || noConstraints ==> mode == StageMode || mode == NowMode)
    && !(names && noConstraints)
    && (Destructive(mode, force) ==> yes)
  }

  /** What the flags ask for, or which of them do not go together. */
  method Choose(on: set<Mode>, force: bool, yes: bool, names: bool, noConstraints: bool) returns (c: Choice)
    ensures forall m :: c == Do(m) <==> Asked(on, m) && Allowed(m, force, yes, names, noConstraints)
    ensures on in {{}, {StageMode}, {ActivateMode}, {StatusMode}} && !force && !names && !noConstraints ==> c.Do?
    ensures c == Misused(Unconfirmed) ==> !yes && (forall m :: Asked(on, m) ==> Destructive(m, force))
  {
    var scanned, clash := ScanMode(on);
    if clash {
      return Misused(TwoSteps);
    }
    var mode := if scanned.Some? then scanned.value else StatusMode;
    if force && mode != ActivateMode {
      return Misused(ForceElsewhere);
    }
    if (names || noConstraints) && mode != StageMode && mode != NowMode {
      return Misused(NamesElsewhere);
    }
    if names && noConstraints {
      return Misused(NamesContradict);
    }
    if Destructive(mode, force) && !yes {
      return Misused(Unconfirmed);
    }
    return Do(mode);
  }

  /** One reading of the rotation's status: it failed, or every member has caught up, or nothing is under way. */
  datatype Poll = Failed | Read(ready: bool, phase: Phase)

  predicate Settled(p: Poll) {
    p.Read? && (p.ready || p.phase == Steady)
  }

  /**
    Waiting for the members: the status is read again until it settles or a
    reading finds the deadline passed; `late` is the first such reading.  Given
    no time to wait it reads nothing.
  */
  method Wait(time: int, polls: seq<Poll>, late: nat) returns (ready: bool)
    requires late < |polls|
    ensures ready <==> time > 0 && exists i :: 0 <= i <= late && Settled(polls[i])
  {
    if time <= 0 {
      return false;
    }
    var i := 0;
    while true
      invariant 0 <= i <= late
      invariant forall k :: 0 <= k < i ==> !Settled(polls[k])
      decreases late - i
    {
      if Settled(polls[i]) {
        return true;
      }
      if i >= late {
        return false;
      }
      i := i + 1;
    }
  }

  class ControlPlane {
    var slots: Slots
    var minted: Serial
    var store: map<Monitor, Serial>
    var members: map<MemberId, Member>
    var runs: map<RunId, Run>
    var sessions: set<(MemberId, RunId)>
    var last: Option<Rotation>
    var done: set<MemberId>
    ghost var broken: set<RunId>
    ghost var overlooked: set<RunId>
    ghost var burned: set<Serial>

    ghost function Value(): State
      reads this
    {
      State(slots, minted, store, members, runs, sessions, last, done, broken, overlooked, burned)
    }

    /** The members a step waits for. */
    method MembersBehind() returns (behind: set<MemberId>)
      ensures forall m :: m in behind <==> m in members && Behind(slots, members[m])
      ensures behind != {} <==> AnyBehind(slots, members)
    {
      behind := {};
      var rest := members.Keys;
      while rest != {}
        invariant rest <= members.Keys
        invariant forall m :: m in behind <==> m in members && m !in rest && Behind(slots, members[m])
        decreases rest
      {
        var m :| m in rest;
        if Behind(slots, members[m]) {
          behind := behind + {m};
        }
        rest := rest - {m};
      }
      assert forall m :: m in members && Behind(slots, members[m]) ==> m in behind;
    }

    /** The runs on record that would stop verifying leaves of `ca`. */
    method RunsBreaking(ca: Serial) returns (named: set<RunId>)
      ensures named == BrokenBy(runs, ca)
    {
      named := {};
      var rest := runs.Keys;
      while rest != {}
        invariant rest <= runs.Keys
        invariant forall r :: r in named <==> r in runs && r !in rest && runs[r].listed && runs[r].Breaks(ca)
        decreases rest
      {
        var r :| r in rest;
        if runs[r].listed && runs[r].Breaks(ca) {
          named := named + {r};
        }
        rest := rest - {r};
      }
    }

    /** Every stored leaf replaced by one of the active CA. */
    method ReissueLeaves()
      modifies this`store
      ensures store == Reissued(old(store), slots.active)
    {
      var i := 0;
      while i < |MONITORS|
        invariant 0 <= i <= |MONITORS|
        invariant store.Keys == old(store).Keys
        invariant forall mon :: mon in store ==>
          store[mon] == if mon in MONITORS[..i] then slots.active else old(store)[mon]
      {
        if MONITORS[i] in store && store[MONITORS[i]] != slots.active {
          store := store[MONITORS[i] := slots.active];
        }
        i := i + 1;
      }
      AllMonitors();
    }

    method Stage(emergency: bool) returns (refused: Option<Refusal>)
      modifies this`slots, this`minted, this`last, this`done
      ensures !emergency ==> Value() == StageStep(old(Value())).state && refused == StageStep(old(Value())).refused
      ensures emergency && old(slots.Phase()) == Steady ==>
        && refused == None
        && slots == old(slots).(next := Some(old(minted))) && minted == old(minted) + 1
        && last == Some(Rotation(true, old(minted), {})) && done == {}
    {
      if slots.Phase() != Steady {
        return Some(WrongPhase);
      }
      slots := slots.(next := Some(minted));
      last := Some(Rotation(emergency, minted, {}));
      minted := minted + 1;
      done := {};
      return None;
    }

    method Activate(force: bool) returns (refused: Option<Refusal>)
      modifies this`slots, this`broken, this`overlooked
      ensures Value() == ActivateStep(old(Value()), force).state && refused == ActivateStep(old(Value()), force).refused
    {
      if slots.Phase() != Staged {
        return Some(WrongPhase);
      }
      var behind := MembersBehind();
      if behind != {} {
        return Some(HubCA.MembersBehind);
      }
      var named := RunsBreaking(slots.next.value);
      if named != {} && !force {
        return Some(RunsWouldBreak);
      }
      overlooked := overlooked + UnderWayWithout(runs, broken, slots.next.value);
      slots := Slots(slots.next.value, None, Some(slots.active));
      broken := broken + named;
      return None;
    }

    /** Whether a reporting member says it serves this monitor. */
    method Served(mon: Monitor) returns (served: bool)
      ensures served == ServedByAMember(members, mon)
    {
      served := false;
      var rest := members.Keys;
      while rest != {}
        invariant rest <= members.Keys
        invariant served <==> exists m :: m in members && m !in rest && members[m].report.Some? && members[m].report.value.recent && mon in members[m].report.value.leaves
        decreases rest
      {
        var m :| m in rest;
        if members[m].report.Some? && members[m].report.value.recent && mon in members[m].report.value.leaves {
          served := true;
        }
        rest := rest - {m};
      }
    }

    method RetirePrevious() returns (refused: Option<Refusal>)
      modifies this`slots, this`store
      ensures Value() == RetireStep(old(Value())).state && refused == RetireStep(old(Value())).refused
    {
      if slots.Phase() != Activated {
        return Some(WrongPhase);
      }
      var stale := false;
      var i := 0;
      while i < |MONITORS|
        invariant 0 <= i <= |MONITORS|
        invariant Value() == old(Value())
        invariant !stale ==> forall mon :: mon in MONITORS[..i] && mon in store ==> store[mon] == slots.active
        invariant forall mon :: mon in MONITORS[..i] && mon in store && store[mon] != slots.active ==> !ServedByAMember(members, mon)
      {
        var mon := MONITORS[i];
        if mon in store && store[mon] != slots.active {
          var served := Served(mon);
          if served {
            assert LeafBehind(Value());
            return Some(LeavesBehind);
          }
          stale := true;
        }
        i := i + 1;
      }
      AllMonitors();
      assert !LeafBehind(Value());
      if stale {
        ReissueLeaves();
      }
      assert store == Reissued(old(store), slots.active);
      var behind := MembersBehind();
      if behind != {} {
        return Some(HubCA.MembersBehind);
      }
      slots := slots.(previous := None);
      return None;
    }

    method Abort() returns (refused: Option<Refusal>)
      modifies this`slots
      ensures Value() == AbortStep(old(Value())).state && refused == AbortStep(old(Value())).refused
    {
      if slots.Phase() != Staged {
        return Some(WrongPhase);
      }
      slots := slots.(next := None);
      return None;
    }

    /** Whether every member's build takes part in rotations. */
    method AllRotate() returns (all: bool)
      ensures all <==> forall m :: m in members ==> members[m].rotates
    {
      var rest := members.Keys;
      while rest != {}
        invariant rest <= members.Keys
        invariant forall m :: m in members && m !in rest ==> members[m].rotates
        decreases rest
      {
        var m :| m in rest;
        if !members[m].rotates {
          return false;
        }
        rest := rest - {m};
      }
      return true;
    }

    /** Abandon what is staged, retire what is previous. */
    method DropOthers()
      requires !(slots.next.Some? && slots.previous.Some?)
      modifies this`slots
      ensures slots == Slots(old(slots.active), None, None)
    {
      if slots.Phase() == Staged {
        slots := slots.(next := None);
      }
      if slots.Phase() == Activated {
        slots := slots.(previous := None);
      }
    }

    /** A fresh CA staged and activated at once, the runs it breaks and, for history, those it overlooks. */
    method Replace() returns (named: set<RunId>)
      requires slots.next.None? && slots.previous.None?
      modifies this`slots, this`minted, this`last, this`done, this`overlooked
      ensures slots == Slots(old(minted), None, Some(old(slots.active))) && minted == old(minted) + 1
      ensures last == Some(Rotation(true, old(minted), named)) && done == {}
      ensures named == BrokenBy(runs, old(minted))
      ensures overlooked == old(overlooked) + UnderWayWithout(runs, broken, old(minted))
    {
      hide BrokenBy, UnderWayWithout;
      var staged := Stage(true);
      named := RunsBreaking(slots.next.value);
      overlooked := overlooked + UnderWayWithout(runs, broken, slots.next.value);
      slots := Slots(slots.next.value, None, Some(slots.active));
      last := Some(last.value.(cut := named));
    }

    /** Every CA replaced at once, by the steps a planned rotation takes apart. */
    method Emergency() returns (refused: Option<Refusal>)
      requires !(slots.next.Some? && slots.previous.Some?)
      modifies this
      ensures Value() == EmergencyStep(old(Value())).state && refused == EmergencyStep(old(Value())).refused
    {
      hide BrokenBy, UnderWayWithout, Reissued, Slots.Trusted;
      var all := AllRotate();
      if !all {
        return Some(HubCA.MembersBehind);
      }
      ghost var replaced := slots.Trusted();
      DropOthers();
      var named := Replace();
      ReissueLeaves();
      slots := slots.(previous := None);
      broken := broken + named;
      burned := burned + replaced;
      return None;
    }

    /**
      The command: without its confirmation no CA leaves any bundle and no run
      is named as broken, whatever the flags.
    */
    method Rotate(on: set<Mode>, force: bool, yes: bool, names: bool, noConstraints: bool)
        returns (c: Choice, refused: Option<Refusal>)
      requires !(slots.next.Some? && slots.previous.Some?)
      modifies this
      ensures !yes ==> old(slots.Trusted()) <= slots.Trusted() && broken == old(broken) && burned == old(burned)
      ensures c.Misused? || c == Do(StatusMode) ==> Value() == old(Value())
      ensures c.Do? && c.mode != StatusMode ==>
        on == {c.mode} &&
        Outcome(Value(), refused) ==
          match c.mode
          case StageMode => StageStep(old(Value()))
          case ActivateMode => ActivateStep(old(Value()), force)
          case RetireMode => RetireStep(old(Value()))
          case AbortMode => AbortStep(old(Value()))
          case NowMode => EmergencyStep(old(Value()))
    {
      refused := None;
      c := Choose(on, force, yes, names, noConstraints);
      if c.Misused? {
        return;
      }
      match c.mode {
        case StatusMode =>
        case StageMode => refused := Stage(false);
        case ActivateMode => refused := Activate(force);
        case RetireMode => refused := RetirePrevious();
        case AbortMode => refused := Abort();
        case NowMode => refused := Emergency();
      }
    }
  }
}
