/**
  Whole runs of the protocol: what a rotation guarantees to the sandboxes,
  which of its guards that needs, and when an unforced activation falls short.
*/
module HubRotation {
  import opened Wrappers
  import opened HubCA
  import opened HubInvariant

  // ------------------------------------------------ every run of the protocol

  lemma {:induction false} RunAllKeeps(s: State, steps: seq<Step>)
    requires Inv(s)
    ensures Inv(RunAll(s, steps))
    decreases |steps|
  {
    if steps != [] {
      StepKeeps(s, steps[0]);
      RunAllKeeps(Take(s, steps[0]).state, steps[1..]);
    }
  }

  /**
    However the steps interleave, a run that nothing named as breaking and that
    no activation or emergency overlooked trusts the CA behind the leaf any
    member serves.
  */
  lemma ReachableIsSafe(steps: seq<Step>)
    ensures var s := RunAll(First, steps); SafeBut(s, s.broken + s.overlooked)
  {
    RunAllKeeps(First, steps);
    InvIsSafe(RunAll(First, steps));
  }

  /** Every dispatch under way that nothing named was given the CA. */
  predicate NoneUnderWayWithout(s: State, serial: Serial) {
    UnderWayWithout(s.runs, s.broken, serial) == {}
  }

  /**
    No forced activation, no emergency, no activation past a dispatch under way
    without its CA, and no dispatch given one CA while two are served.
  */
  ghost predicate Quiet(s: State, steps: seq<Step>)
    decreases |steps|
  {
    steps == [] ||
    (&& steps[0] != Activate(true) && steps[0] != Emergency
     && (steps[0].Activate? && s.slots.next.Some? ==> NoneUnderWayWithout(s, s.slots.next.value))
     && (steps[0].Begin? && steps[0].m in s.members ==>
           DispatchCovered(s, s.members[steps[0].m], steps[0].activeOnly))
     && Quiet(Take(s, steps[0]).state, steps[1..]))
  }

  /** Every run given the hub's CA verifies the leaf any member serves. */
  ghost predicate FullyTrusted(s: State) {
    forall r, m, mon :: r in s.runs && s.runs[r].uses && m in s.members && mon in s.members[m].leaves
      ==> s.members[m].leaves[mon] in s.runs[r].trusts
  }

  lemma {:induction false} QuietNamesNobody(s: State, steps: seq<Step>)
    requires Quiet(s, steps) && s.broken == {} && s.overlooked == {} && s.burned == {}
    ensures var t := RunAll(s, steps); t.broken == {} && t.overlooked == {} && t.burned == {}
    decreases |steps|
  {
    if steps != [] {
      var t := Take(s, steps[0]).state;
      assert t.broken == {} && t.overlooked == {} && t.burned == {};
      QuietNamesNobody(t, steps[1..]);
    }
  }

  /** A rotation nobody forces, and that no dispatch straddles, breaks no sandbox at any point of it. */
  lemma QuietRotationBreaksNothing(steps: seq<Step>)
    requires Quiet(First, steps)
    ensures FullyTrusted(RunAll(First, steps))
  {
    ReachableIsSafe(steps);
    QuietNamesNobody(First, steps);
  }

  // ----------------------------------- dispatches under way at an activation

  predicate NoNewCA(steps: seq<Step>) {
    forall i :: 0 <= i < |steps| ==> !steps[i].Activate? && !steps[i].Emergency?
  }

  /** No run but those named was overlooked. */
  predicate NobodyOverlooked(s: State) {
    s.overlooked <= s.broken
  }

  lemma {:induction false} OverlooksNoMore(s: State, steps: seq<Step>)
    requires NoNewCA(steps) && NobodyOverlooked(s)
    ensures NobodyOverlooked(RunAll(s, steps))
    decreases |steps|
  {
    if steps != [] {
      OverlooksNoMore(Take(s, steps[0]).state, steps[1..]);
    }
  }

  lemma {:induction false} Unused(ms: set<MemberId>) returns (m: MemberId)
    ensures forall x :: x in ms ==> x < m
    decreases ms
  {
    if ms == {} {
      m := 0;
    } else {
      var x :| x in ms;
      var n := Unused(ms - {x});
      m := if x < n then n else x + 1;
      forall y | y in ms ensures y < m {
        assert y == x || y in ms - {x};
      }
    }
  }

  /** A member that starts now serves a leaf a run under way may not verify. */
  lemma NewcomerShows(s: State, r: RunId, m: MemberId)
    requires Inv(s) && m !in s.members && r in s.runs && s.runs[r].uses && s.slots.active !in s.runs[r].trusts && r !in s.broken
    ensures var u := RunAll(s, [Join(m, true), StartMonitor(m, GitProxy)]); !SafeBut(u, u.broken)
  {
    var joined := Take(s, Join(m, true)).state;
    var u := Take(joined, StartMonitor(m, GitProxy)).state;
    RunAllTakes(s, Join(m, true), [StartMonitor(m, GitProxy)]);
    RunAllTakes(joined, StartMonitor(m, GitProxy), []);
    assert [Join(m, true)] + [StartMonitor(m, GitProxy)] == [Join(m, true), StartMonitor(m, GitProxy)];
    assert [StartMonitor(m, GitProxy)] + [] == [StartMonitor(m, GitProxy)];
    assert GitProxy in u.members[m].leaves && u.members[m].leaves[GitProxy] == s.slots.active;
    assert r in u.runs && u.runs[r] == s.runs[r] && u.broken == s.broken && u.burned == s.burned;
  }

  /**
    Exactly when an unforced activation breaks no run it did not name, then or
    later, short of another activation or emergency: no dispatch was under way
    without the staged CA.
  */
  lemma ActivationNamesAllIff(s: State)
    requires Inv(s) && ActivateStep(s, false).refused.None?
    ensures var t := ActivateStep(s, false).state;
            NoneUnderWayWithout(s, s.slots.next.value) <==>
              forall steps :: NoNewCA(steps) ==> var u := RunAll(t, steps); SafeBut(u, u.broken)
  {
    var t := ActivateStep(s, false).state;
    ActivateKeeps(s, false);
    if NoneUnderWayWithout(s, s.slots.next.value) {
      assert NobodyOverlooked(t) by { AcceptedOverlooksNobody(s); }
      forall steps | NoNewCA(steps) ensures var u := RunAll(t, steps); SafeBut(u, u.broken) {
        RunAllKeeps(t, steps);
        OverlooksNoMore(t, steps);
        InvIsSafe(RunAll(t, steps));
      }
    } else {
      var r :| r in UnderWayWithout(s.runs, s.broken, s.slots.next.value);
      var m := Unused(t.members.Keys);
      assert m !in t.members;
      assert r !in BrokenBy(s.runs, s.slots.next.value);
      NewcomerShows(t, r, m);
      assert NoNewCA([Join(m, true), StartMonitor(m, GitProxy)]);
    }
  }

  /** An overlooked run lacks any later CA too. */
  lemma OverlookedLacks(s: State, r: RunId)
    requires Inv(s) && s.slots.next.Some? && r in s.overlooked && r !in s.broken
    ensures r in BrokenBy(s.runs, s.slots.next.value) || r in UnderWayWithout(s.runs, s.broken, s.slots.next.value)
  {
    assert RunOk(s, s.runs[r]);
  }

  /** So an unforced activation that overlooks nobody leaves nobody overlooked. */
  lemma AcceptedOverlooksNobody(s: State)
    requires Inv(s) && ActivateStep(s, false).refused.None? && NoneUnderWayWithout(s, s.slots.next.value)
    ensures NobodyOverlooked(ActivateStep(s, false).state)
  {
    forall r | r in s.overlooked ensures r in s.broken {
      if r !in s.broken {
        OverlookedLacks(s, r);
      }
    }
  }

  /** One member serving one monitor, and a dispatch begun on it. */
  function BegunRun(): (s: State)
    ensures s.slots == Slots(0, None, None) && s.minted == 1 && s.burned == {} && s.broken == {}
    ensures s.members.Keys == {0} && s.members[0].rotates && s.members[0].leaves == map[GitProxy := 0]
    ensures s.store == map[GitProxy := 0]
    ensures s.runs == map[7 := Run(0, false, true, {0}, true, {0})] && s.sessions == {(0, 7)} && s.done == {}
  {
    var serving := Take(Take(First, Join(0, true)).state, StartMonitor(0, GitProxy)).state;
    assert serving.members.Keys == {0} && serving.members[0].leaves == map[GitProxy := 0] && serving.slots == Slots(0, None, None);
    Take(serving, Begin(0, 7, true, false)).state
  }

  lemma BegunThen(rest: seq<Step>)
    ensures RunAll(First, [Join(0, true), StartMonitor(0, GitProxy), Begin(0, 7, true, false)] + rest) == RunAll(BegunRun(), rest)
  {
    var s1 := Take(First, Join(0, true)).state;
    var s2 := Take(s1, StartMonitor(0, GitProxy)).state;
    var c := [Begin(0, 7, true, false)] + rest;
    var b := [StartMonitor(0, GitProxy)] + c;
    RunAllTakes(First, Join(0, true), b);
    RunAllTakes(s1, StartMonitor(0, GitProxy), c);
    RunAllTakes(s2, Begin(0, 7, true, false), rest);
    assert [Join(0, true), StartMonitor(0, GitProxy), Begin(0, 7, true, false)] + rest == [Join(0, true)] + b;
  }

  /** Such a dispatch exists: it takes its CA, a rotation is staged and activated, it goes on record, and the leaf is reissued. */
  lemma AnOverlookedRun()
    ensures var steps := [Join(0, true), StartMonitor(0, GitProxy), Begin(0, 7, true, false), Stage, Tick(0, false),
                          Activate(false), Record(7), Tick(0, true)];
            var s := RunAll(First, steps);
            && 7 in s.runs && s.runs[7].listed && s.runs[7].uses && 7 !in s.broken && s.burned == {}
            && 0 in s.members && GitProxy in s.members[0].leaves && s.members[0].leaves[GitProxy] !in s.runs[7].trusts
  {
    hide RunAll, Take, BegunRun;
    BegunThen([Stage, Tick(0, false), Activate(false), Record(7), Tick(0, true)]);
    RunFive(BegunRun(), Stage, Tick(0, false), Activate(false), Record(7), Tick(0, true));
    assert [Join(0, true), StartMonitor(0, GitProxy), Begin(0, 7, true, false), Stage, Tick(0, false), Activate(false), Record(7), Tick(0, true)]
        == [Join(0, true), StartMonitor(0, GitProxy), Begin(0, 7, true, false)] + [Stage, Tick(0, false), Activate(false), Record(7), Tick(0, true)];
    var s := ActivatedPast();
    ReissuedPast(s);
  }

  /** And the reissue that breaks it, once it is on record. */
  lemma ReissuedPast(s: State)
    requires s.slots == Slots(1, None, Some(0)) && s.last.Some? && !s.last.value.emergency
    requires s.runs == map[7 := Run(0, false, true, {0}, true, {0})]
    requires s.members.Keys == {0} && s.members[0].rotates && s.members[0].leaves == map[GitProxy := 0]
    ensures var u := Take(Take(s, Record(7)).state, Tick(0, true)).state;
            && u.runs == map[7 := Run(0, true, true, {0}, true, {0})] && u.broken == s.broken && u.burned == s.burned
            && 0 in u.members && u.members[0].leaves == map[GitProxy := 1]
  {
  }

  /** The activation that overlooks it. */
  lemma ActivatedPast() returns (s: State)
    ensures s == Take(Take(Take(BegunRun(), Stage).state, Tick(0, false)).state, Activate(false)).state
    ensures s.slots == Slots(1, None, Some(0)) && s.broken == {} && s.burned == {} && s.last.Some? && !s.last.value.emergency
    ensures s.runs == map[7 := Run(0, false, true, {0}, true, {0})]
    ensures s.members.Keys == {0} && s.members[0].rotates && s.members[0].leaves == map[GitProxy := 0]
  {
    var staged := Take(BegunRun(), Stage).state;
    var ticked := Take(staged, Tick(0, false)).state;
    assert ticked.members.Keys == {0} && ticked.members[0].leaves == map[GitProxy := 0];
    assert ticked.runs == BegunRun().runs && BrokenBy(ticked.runs, 1) == {};
    assert !AnyBehind(ticked.slots, ticked.members);
    s := Take(ticked, Activate(false)).state;
  }

  lemma RunFour(s: State, a: Step, b: Step, c: Step, d: Step)
    ensures RunAll(s, [a, b, c, d]) == Take(Take(Take(Take(s, a).state, b).state, c).state, d).state
  {
    hide Take;
    var s1 := Take(s, a).state;
    var s2 := Take(s1, b).state;
    var s3 := Take(s2, c).state;
    RunAllTakes(s, a, [b, c, d]);
    RunAllTakes(s1, b, [c, d]);
    RunAllTakes(s2, c, [d]);
    RunAllTakes(s3, d, []);
    assert [a] + [b, c, d] == [a, b, c, d] && [b] + [c, d] == [b, c, d] && [c] + [d] == [c, d] && [d] + [] == [d];
  }

  lemma RunFive(s: State, a: Step, b: Step, c: Step, d: Step, e: Step)
    ensures RunAll(s, [a, b, c, d, e]) == Take(Take(Take(Take(Take(s, a).state, b).state, c).state, d).state, e).state
  {
    hide Take;
    RunAllTakes(s, a, [b, c, d, e]);
    RunFour(Take(s, a).state, b, c, d, e);
    assert [a] + [b, c, d, e] == [a, b, c, d, e];
  }

  lemma RunAllTakes(s: State, step: Step, rest: seq<Step>)
    ensures RunAll(s, [step] + rest) == RunAll(Take(s, step).state, rest)
  {
    assert ([step] + rest)[1..] == rest;
  }

  // ------------------------------------------------ the guards are needed

  lemma TickedLeaf(s: State, m: MemberId, mon: Monitor)
    requires Inv(s) && m in s.members && s.members[m].rotates && mon in s.members[m].leaves
    ensures var t := TickStep(s, m, true).state;
            m in t.members && mon in t.members[m].leaves && t.members[m].leaves[mon] == s.slots.active
  {
    assert MemberOk(s, s.members[m]);
    assert s.members[m].leaves != map[];
  }

  /** Forcing an activation past a run that lacks the staged CA breaks it at the next reissue; one on record is named, and refuses an unforced one. */
  lemma ForcingBreaksARun(s: State, r: RunId, m: MemberId, mon: Monitor)
    requires Inv(s) && ActivateStep(s, true).refused.None?
    requires r in s.runs && s.runs[r].uses && s.slots.next.value !in s.runs[r].trusts
    requires m in s.members && mon in s.members[m].leaves
    ensures s.runs[r].listed ==> r in ActivateStep(s, true).state.broken && ActivateStep(s, false).refused == Some(RunsWouldBreak)
    ensures !FullyTrusted(TickStep(ActivateStep(s, true).state, m, true).state)
  {
    assert RunOk(s, s.runs[r]);
    assert s.runs[r].listed ==> r in BrokenBy(s.runs, s.slots.next.value);
    assert !Behind(s.slots, s.members[m]);
    ActivateKeeps(s, true);
    var t := ActivateStep(s, true).state;
    TickedLeaf(t, m, mon);
    var u := TickStep(t, m, true).state;
    assert u.runs == s.runs;
    assert u.members[m].leaves[mon] !in u.runs[r].trusts;
  }

  /**
    Giving a sandbox the active CA alone is sound exactly as DispatchCovered
    says: otherwise the run fails to verify a leaf at once, or after the next
    refresh of the member that dispatched it.
  */
  lemma UncoveredDispatchBreaks(s: State, m: MemberId, r: RunId, activeOnly: bool)
    requires Inv(s)
    requires m in s.members && !Taken(s, r) && s.members[m].leaves != map[]
    requires !DispatchCovered(s, s.members[m], activeOnly)
    ensures var t := BeginStep(s, m, r, true, activeOnly).state;
            !FullyTrusted(t) || !FullyTrusted(TickStep(t, m, true).state)
  {
    var mem := s.members[m];
    assert MemberOk(s, mem);
    var t := BeginStep(s, m, r, true, activeOnly).state;
    BeginKeeps(s, m, r, true, activeOnly);
    assert t.slots == s.slots && t.members == s.members;
    if mem.view.active in s.burned {
      assert s.slots.active !in t.runs[r].trusts;
      LaggingDispatchBreaks(t, m, r);
    } else {
      var x, other :| x in s.members && other in s.members[x].leaves && s.members[x].leaves[other] != s.slots.active;
      if mem.view.active == s.slots.active {
        assert t.members[x].leaves[other] !in t.runs[r].trusts;
      } else {
        assert t.runs[r].trusts == {mem.view.active};
        LaggingDispatchBreaks(t, m, r);
      }
    }
  }

  lemma LaggingDispatchBreaks(s: State, m: MemberId, r: RunId)
    requires Inv(s) && m in s.members && s.members[m].rotates && s.members[m].leaves != map[]
    requires r in s.runs && s.runs[r].uses && s.slots.active !in s.runs[r].trusts
    ensures !FullyTrusted(TickStep(s, m, true).state)
  {
    var mon :| mon in s.members[m].leaves;
    TickedLeaf(s, m, mon);
    var u := TickStep(s, m, true).state;
    assert r in u.runs && u.members[m].leaves[mon] !in u.runs[r].trusts;
  }

  // ------------------------------------------------ a rotation can finish

  /** Each member refreshed once. */
  function TickAll(s: State, ms: seq<MemberId>): State
    decreases |ms|
  {
    if ms == [] then s else TickAll(TickStep(s, ms[0], true).state, ms[1..])
  }

  lemma TickedIsCaughtUp(s: State, m: MemberId)
    requires Inv(s) && m in s.members && s.members[m].rotates && s.members[m].leaves != map[]
    ensures var t := TickStep(s, m, true).state;
            && t.slots == s.slots
            && m in t.members && t.members == s.members[m := t.members[m]]
            && t.members[m].rotates && t.members[m].leaves.Keys == s.members[m].leaves.Keys
            && !Behind(t.slots, t.members[m])
  {
    assert MemberOk(s, s.members[m]);
  }

  /** Once every member has refreshed, no step of a rotation waits for a member. */
  lemma {:induction false} AllTickedNobodyBehind(s: State, ms: seq<MemberId>)
    requires Inv(s)
    requires forall m :: m in s.members ==> s.members[m].rotates && s.members[m].leaves != map[]
    requires forall m :: m in s.members ==> m in ms || !Behind(s.slots, s.members[m])
    ensures var t := TickAll(s, ms); t.slots == s.slots && t.members.Keys == s.members.Keys && !AnyBehind(t.slots, t.members)
    decreases |ms|
  {
    if ms != [] {
      var m := ms[0];
      TickKeeps(s, m, true);
      if m in s.members {
        TickedIsCaughtUp(s, m);
        TickOne(s, m, ms[1..], TickStep(s, m, true).state);
      }
      var t := TickStep(s, m, true).state;
      assert m !in s.members ==> t == s;
      AllTickedNobodyBehind(t, ms[1..]);
    }
  }

  lemma TickOne(s: State, m: MemberId, ms: seq<MemberId>, t: State)
    requires m in s.members && t.slots == s.slots && m in t.members && t.members == s.members[m := t.members[m]]
    requires t.members[m].rotates && t.members[m].leaves.Keys == s.members[m].leaves.Keys
    requires !Behind(t.slots, t.members[m])
    requires forall x :: x in s.members ==> s.members[x].rotates && s.members[x].leaves != map[]
    requires forall x :: x in s.members ==> x in [m] + ms || !Behind(s.slots, s.members[x])
    ensures t.members.Keys == s.members.Keys
    ensures forall x :: x in t.members ==> t.members[x].rotates && t.members[x].leaves != map[]
    ensures forall x :: x in t.members ==> x in ms || !Behind(t.slots, t.members[x])
  {
    assert s.members[m].leaves.Keys != {};
  }
}
