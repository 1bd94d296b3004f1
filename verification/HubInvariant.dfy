/**
  What every step of replacing the hub's CA keeps: the invariant behind the
  safety of the sandboxes' trust, and that each of HubCA's steps preserves it.
*/
module HubInvariant {
  import opened Wrappers
  import opened HubCA

  // ---------------------------------------------------------------- safety

  /**
    Every run given the hub's CA, on record or under way, verifies the leaf any
    member serves — apart from the runs in `spared` and leaves of CAs an
    emergency replaced.
  */
  ghost predicate SafeBut(s: State, spared: set<RunId>) {
    forall r, m, mon ::
      r in s.runs && r !in spared && s.runs[r].uses && m in s.members && mon in s.members[m].leaves
      ==> s.members[m].leaves[mon] in s.burned || s.members[m].leaves[mon] in s.runs[r].trusts
  }

  predicate Below(xs: set<Serial>, n: Serial) {
    forall x :: x in xs ==> x < n
  }

  /** Serials are fresh and the slots are distinct. */
  ghost predicate SlotsOk(s: State) {
    && Below(s.slots.Trusted() + s.burned, s.minted)
    && s.slots.Trusted() !! s.burned
    && !(s.slots.next.Some? && s.slots.previous.Some?)
    && s.slots.next != Some(s.slots.active)
    && s.slots.previous != Some(s.slots.active)
  }

  predicate LeafKnown(s: State, leaf: Serial) {
    leaf == s.slots.active || s.slots.previous == Some(leaf)
  }

  ghost predicate StoreOk(s: State) {
    forall mon :: mon in s.store ==> LeafKnown(s, s.store[mon])
  }

  /** A serving member's view is current, or lags by exactly the step under way. */
  predicate ViewOk(s: State, view: Slots) {
    match s.slots.Phase()
    case Activated =>
      view == s.slots || view == Slots(s.slots.previous.value, Some(s.slots.active), None)
    case _ => (view.active in s.burned && s.slots.active !in view.Trusted()) || view.active == s.slots.active
  }

  predicate LeafOk(s: State, m: Member, mon: Monitor)
    requires mon in m.leaves
  {
    && mon in s.store
    && (LeafKnown(s, m.leaves[mon]) || (s.slots.Phase() != Activated && m.leaves[mon] in s.burned))
    && (s.slots.Phase() == Activated && m.leaves[mon] == s.slots.active
        ==> s.store[mon] == s.slots.active && (m.rotates ==> m.view == s.slots))
  }

  /** What a report that looks caught up really says about its member now. */
  predicate ReportOk(s: State, m: Member, rep: Report) {
    && Below(rep.trusts, s.minted)
    && rep.active in rep.trusts
    && (s.slots.Phase() == Staged ==>
        && rep.active != s.slots.next.value
        && (s.slots.next.value in rep.trusts ==>
            m.view == s.slots && forall mon :: mon in m.leaves ==> m.leaves[mon] == s.slots.active))
    && (s.slots.Phase() == Activated && rep.active == s.slots.active ==>
        && m.view == s.slots
        && forall mon :: mon in m.leaves ==>
            m.leaves[mon] == s.slots.active || (mon in rep.leaves && rep.leaves[mon] != s.slots.active))
  }

  ghost predicate MemberOk(s: State, m: Member) {
    && Below(m.view.Trusted(), s.minted)
    && (forall mon :: mon in m.leaves ==> LeafOk(s, m, mon))
    && (m.report.Some? <==> m.rotates && m.leaves != map[])
    && (!m.rotates ==>
        m.view == Slots(s.slots.active, None, None) && forall mon :: mon in m.leaves ==> m.leaves[mon] == s.slots.active)
    && (m.rotates && m.leaves != map[] ==> ViewOk(s, m.view))
    && (m.report.Some? ==> ReportOk(s, m, m.report.value))
  }

  ghost predicate RunOk(s: State, r: Run) {
    && Below(r.trusts, s.minted)
    && r.noted <= r.trusts
  }

  predicate RunServed(s: State, r: Run) {
    && s.slots.active in r.trusts
    && (s.slots.Phase() == Activated ==> s.slots.previous.value in r.trusts || AllLeavesActive(s))
  }

  /** While an emergency is the newest rotation, a member that has cut has adopted its CA. */
  ghost predicate CutOk(s: State) {
    s.last.Some? && s.last.value.emergency ==>
      && s.slots == Slots(s.last.value.to, None, None)
      && (forall m :: m in s.done && m in s.members ==> s.members[m].view == s.slots)
      && forall r :: r in s.last.value.cut && r in s.runs ==> s.runs[r].listed
  }

  /** An overlooked run lacks the active CA for good, and any staged one. */
  ghost predicate OverlookedOk(s: State) {
    forall r :: r in s.overlooked ==>
      && r in s.runs && s.runs[r].uses
      && s.slots.active !in s.runs[r].trusts
      && (s.slots.next.Some? ==> s.slots.next.value !in s.runs[r].trusts)
  }

  ghost predicate SessionsOk(s: State) {
    forall x :: x in s.sessions ==> x.0 in s.members && x.1 in s.runs && s.runs[x.1].uses
  }

  ghost predicate Inv(s: State) {
    && SlotsOk(s)
    && StoreOk(s)
    && (forall m :: m in s.members ==> MemberOk(s, s.members[m]))
    && (forall r :: r in s.runs ==> RunOk(s, s.runs[r]))
    && (forall r :: r in s.runs && r !in s.broken + s.overlooked && s.runs[r].uses ==> RunServed(s, s.runs[r]))
    && OverlookedOk(s)
    && SessionsOk(s)
    && CutOk(s)
  }

  // ------------------------------------------------ each step keeps it

  lemma StageKeeps(s: State)
    requires Inv(s)
    ensures Inv(StageStep(s).state)
  {
  }

  lemma ActivatedMember(s: State, force: bool, m: MemberId)
    requires Inv(s) && ActivateStep(s, force).refused.None? && m in s.members
    ensures MemberOk(ActivateStep(s, force).state, s.members[m])
  {
    hide RunOk, RunServed, CutOk, SessionsOk, BrokenBy;
    assert MemberOk(s, s.members[m]) && !Behind(s.slots, s.members[m]);
  }

  lemma ActivateKeeps(s: State, force: bool)
    requires Inv(s)
    ensures Inv(ActivateStep(s, force).state)
  {
    hide LeafOk, ViewOk, ReportOk;
    var t := ActivateStep(s, force).state;
    if ActivateStep(s, force).refused.None? {
      forall m | m in t.members ensures MemberOk(t, t.members[m]) {
        ActivatedMember(s, force, m);
      }
    }
  }

  lemma RetireKeeps(s: State)
    requires Inv(s)
    ensures Inv(RetireStep(s).state)
  {
    if s.slots.Phase() == Activated && !LeafBehind(s) {
      var s1 := s.(store := Reissued(s.store, s.slots.active));
      forall m | m in s.members ensures MemberOk(s1, s.members[m]) {
        SameMember(s, s1, s.members[m]);
      }
      var t := s1.(slots := s.slots.(previous := None));
      if !AnyBehind(s.slots, s.members) {
        forall m | m in s.members ensures MemberOk(t, s.members[m]) {
          assert !Behind(s.slots, s.members[m]);
        }
      }
    }
  }

  lemma AbortKeeps(s: State)
    requires Inv(s)
    ensures Inv(AbortStep(s).state)
  {
  }

  lemma EmergencyMember(s: State, m: Member)
    requires Inv(s) && MemberOk(s, m) && m.rotates && EmergencyStep(s).refused.None?
    ensures MemberOk(EmergencyStep(s).state, m)
  {
    var t := EmergencyStep(s).state;
    forall mon | mon in m.leaves ensures LeafOk(t, m, mon) {
      assert LeafOk(s, m, mon);
    }
  }

  lemma EmergencyKeeps(s: State)
    requires Inv(s)
    ensures Inv(EmergencyStep(s).state)
  {
    var t := EmergencyStep(s).state;
    if EmergencyStep(s).refused.None? {
      forall m | m in t.members ensures MemberOk(t, t.members[m]) {
        EmergencyMember(s, s.members[m]);
      }
      forall r | r in t.runs ensures RunOk(t, t.runs[r]) {
        assert RunOk(s, s.runs[r]);
      }
    }
  }

  /** Nothing but a member and the stored leaves moved, and those only towards the active CA. */
  ghost predicate Calm(s: State, t: State) {
    && t.slots == s.slots && t.minted == s.minted && t.burned == s.burned
    && forall mon :: mon in s.store ==>
        mon in t.store && (s.store[mon] == s.slots.active ==> t.store[mon] == s.slots.active)
  }

  lemma SameMember(s: State, t: State, m: Member)
    requires Calm(s, t) && MemberOk(s, m)
    ensures MemberOk(t, m)
  {
    forall mon | mon in m.leaves ensures LeafOk(t, m, mon) {
      assert LeafOk(s, m, mon);
    }
  }

  lemma OneMemberKeeps(s: State, t: State, m: MemberId)
    requires Inv(s) && Calm(s, t) && StoreOk(t)
    requires t.runs == s.runs && t.broken == s.broken && t.overlooked == s.overlooked && t.last == s.last
    requires m in t.members && t.members == s.members[m := t.members[m]] && MemberOk(t, t.members[m])
    requires SessionsOk(t) && CutOk(t)
    requires s.slots.Phase() == Activated && AllLeavesActive(s) ==> AllLeavesActive(t)
    ensures Inv(t)
  {
    forall x | x in t.members ensures MemberOk(t, t.members[x]) {
      if x != m { SameMember(s, t, s.members[x]); }
    }
    forall r | r in t.runs && r !in t.broken + t.overlooked && t.runs[r].uses ensures RunServed(t, t.runs[r]) {
      assert RunServed(s, s.runs[r]);
    }
    forall r | r in t.runs ensures RunOk(t, t.runs[r]) {
      assert RunOk(s, s.runs[r]);
    }
  }

  lemma JoinKeeps(s: State, m: MemberId, rotates: bool)
    requires Inv(s)
    ensures Inv(JoinStep(s, m, rotates).state)
  {
    if m !in s.members {
      OneMemberKeeps(s, JoinStep(s, m, rotates).state, m);
    }
  }

  lemma LeaveKeeps(s: State, m: MemberId)
    requires Inv(s)
    ensures Inv(LeaveStep(s, m).state)
  {
    var t := LeaveStep(s, m).state;
    forall x | x in t.members ensures MemberOk(t, t.members[x]) {
      SameMember(s, t, s.members[x]);
    }
    forall r | r in t.runs && r !in t.broken + t.overlooked && t.runs[r].uses ensures RunServed(t, t.runs[r]) {
      assert RunServed(s, s.runs[r]);
    }
    forall r | r in t.runs ensures RunOk(t, t.runs[r]) {
      assert RunOk(s, s.runs[r]);
    }
  }

  lemma StartedIsCalm(s: State, m: MemberId, mon: Monitor)
    requires Inv(s) && m in s.members && mon !in s.members[m].leaves
    ensures var t := StartStep(s, m, mon).state;
            && StoreOk(t) && Calm(s, t)
            && m in t.members && t.members[m].view.active == s.slots.active && mon in t.members[m].leaves
  {
    hide LeafOk, ViewOk, ReportOk, RunServed, RunOk, CutOk, SessionsOk, OverlookedOk;
    assert MemberOk(s, s.members[m]);
  }

  lemma StartedLeaf(s: State, m: MemberId, mon: Monitor, x: Monitor)
    requires Inv(s) && m in s.members && mon !in s.members[m].leaves && (x == mon || x in s.members[m].leaves)
    ensures var t := StartStep(s, m, mon).state; x in t.members[m].leaves && LeafOk(t, t.members[m], x)
  {
    hide ReportOk, RunServed, RunOk, CutOk, SessionsOk, OverlookedOk;
    assert MemberOk(s, s.members[m]);
    StartedIsCalm(s, m, mon);
    if x != mon {
      assert LeafOk(s, s.members[m], x);
    }
  }

  lemma StartedMember(s: State, m: MemberId, mon: Monitor)
    requires Inv(s) && m in s.members && mon !in s.members[m].leaves
    ensures var t := StartStep(s, m, mon).state; MemberOk(t, t.members[m]) && StoreOk(t) && Calm(s, t)
  {
    hide LeafOk, RunServed, RunOk, CutOk, SessionsOk, OverlookedOk, StoreOk, Calm;
    var before := s.members[m];
    assert MemberOk(s, before);
    StartedIsCalm(s, m, mon);
    var t := StartStep(s, m, mon).state;
    forall x | x in t.members[m].leaves ensures LeafOk(t, t.members[m], x) {
      StartedLeaf(s, m, mon, x);
    }
  }

  lemma StartKeeps(s: State, m: MemberId, mon: Monitor)
    requires Inv(s)
    ensures Inv(StartStep(s, m, mon).state)
  {
    hide LeafOk, ReportOk, RunOk, StoreOk, Calm;
    if m in s.members && mon !in s.members[m].leaves {
      StartedMember(s, m, mon);
      assert MemberOk(s, s.members[m]);
      OneMemberKeeps(s, StartStep(s, m, mon).state, m);
    }
  }

  lemma StoppedMember(s: State, m: MemberId, mon: Monitor)
    requires Inv(s) && m in s.members && mon in s.members[m].leaves
    ensures var t := StopStep(s, m, mon).state; MemberOk(t, t.members[m])
  {
    var before := s.members[m];
    assert MemberOk(s, before);
    var t := StopStep(s, m, mon).state;
    var after := t.members[m];
    forall x | x in after.leaves ensures LeafOk(t, after, x) {
      assert LeafOk(s, before, x);
    }
    assert before.leaves != map[];
  }

  lemma StopKeeps(s: State, m: MemberId, mon: Monitor)
    requires Inv(s)
    ensures Inv(StopStep(s, m, mon).state)
  {
    if m in s.members && mon in s.members[m].leaves {
      StoppedMember(s, m, mon);
      var t := StopStep(s, m, mon).state;
      assert CutOk(t);
      OneMemberKeeps(s, t, m);
    }
  }

  lemma AdoptKeeps(s: State, m: MemberId)
    requires Inv(s)
    ensures Inv(AdoptStep(s, m).state)
  {
    if m in s.members {
      assert MemberOk(s, s.members[m]);
      OneMemberKeeps(s, AdoptStep(s, m).state, m);
    }
  }

  /** A settled leaf is one the slots know, and never goes back from the active CA's. */
  lemma SettledIsKnown(s: State, m: Member, mon: Monitor, reissue: bool)
    requires Inv(s) && MemberOk(s, m) && mon in m.leaves
    ensures var leaf := SettledLeaf(Refreshed(s, m).view, Lookup(s.store, mon), reissue);
            && LeafKnown(s, leaf)
            && (s.store[mon] == s.slots.active ==> leaf == s.slots.active)
            && (m.leaves[mon] == s.slots.active && s.slots.Phase() == Activated ==> leaf == s.slots.active)
            && (s.slots.Phase() != Activated || !m.rotates ==> leaf == s.slots.active)
  {
    assert LeafOk(s, m, mon);
    assert LeafKnown(s, s.store[mon]);
  }

  /** Settling a leaf leaves the member's report true of it: it only brings the member closer to the slots. */
  lemma SettledReport(s: State, t: State, before: Member, after: Member, mon: Monitor)
    requires MemberOk(s, before) && mon in before.leaves && before.rotates
    requires t.slots == s.slots && t.minted == s.minted
    requires mon in after.leaves
    requires after == before.(view := s.slots, leaves := before.leaves[mon := after.leaves[mon]])
    requires s.slots.Phase() != Activated ==> after.leaves[mon] == s.slots.active
    requires before.leaves[mon] == s.slots.active ==> after.leaves[mon] == s.slots.active
    ensures after.report.Some? && ReportOk(t, after, after.report.value)
  {
    assert before.leaves != map[];
    var rep := before.report.value;
    assert ReportOk(s, before, rep);
    forall x | x in after.leaves
      ensures after.leaves[x] == s.slots.active || (x in before.leaves && after.leaves[x] == before.leaves[x]) || x == mon
    {
    }
  }

  lemma SettledLeaves(s: State, t: State, before: Member, after: Member, mon: Monitor)
    requires Inv(s) && MemberOk(s, before) && mon in before.leaves
    requires t.slots == s.slots && t.minted == s.minted && t.burned == s.burned
    requires mon in after.leaves && LeafKnown(s, after.leaves[mon])
    requires t.store == s.store[mon := after.leaves[mon]]
    requires after == Refreshed(s, before).(leaves := before.leaves[mon := after.leaves[mon]])
    requires mon in s.store && (s.store[mon] == s.slots.active ==> after.leaves[mon] == s.slots.active)
    ensures forall x :: x in after.leaves ==> LeafOk(t, after, x)
  {
    forall x | x in after.leaves ensures LeafOk(t, after, x) {
      assert x in before.leaves && LeafOk(s, before, x);
    }
  }

  lemma SettledMember(s: State, m: MemberId, mon: Monitor, reissue: bool)
    requires Inv(s) && m in s.members && mon in s.members[m].leaves
    ensures var t := SettleStep(s, m, mon, reissue).state; MemberOk(t, t.members[m]) && StoreOk(t) && Calm(s, t)
  {
    var before := s.members[m];
    assert MemberOk(s, before) && LeafOk(s, before, mon);
    SettledIsKnown(s, before, mon, reissue);
    var t := SettleStep(s, m, mon, reissue).state;
    var after := t.members[m];
    assert before.leaves != map[] && mon in after.leaves;
    SettledLeaves(s, t, before, after, mon);
    if before.rotates {
      SettledReport(s, t, before, after, mon);
      assert ViewOk(t, after.view);
    }
  }

  lemma SettleKeeps(s: State, m: MemberId, mon: Monitor, reissue: bool)
    requires Inv(s)
    ensures Inv(SettleStep(s, m, mon, reissue).state)
  {
    if m in s.members && mon in s.members[m].leaves {
      SettledMember(s, m, mon, reissue);
      assert MemberOk(s, s.members[m]);
      SettledIsKnown(s, s.members[m], mon, reissue);
      var t := SettleStep(s, m, mon, reissue).state;
      assert CutOk(t);
      OneMemberKeeps(s, t, m);
    }
  }

  lemma TickedLeaves(s: State, m: MemberId, reissue: bool)
    requires Inv(s) && m in s.members && s.members[m].rotates && s.members[m].leaves != map[]
    ensures var after := TickStep(s, m, reissue).state.members[m].leaves;
            && after.Keys == s.members[m].leaves.Keys && after != map[]
            && forall x :: x in after ==>
                && x in s.store && LeafKnown(s, after[x])
                && (s.store[x] == s.slots.active ==> after[x] == s.slots.active)
                && (s.slots.Phase() != Activated ==> after[x] == s.slots.active)
                && (s.members[m].leaves[x] == s.slots.active && s.slots.Phase() == Activated ==> after[x] == s.slots.active)
  {
    var before := s.members[m];
    assert MemberOk(s, before);
    var after := TickStep(s, m, reissue).state.members[m].leaves;
    assert after.Keys == before.leaves.Keys;
    assert before.leaves.Keys != {};
    forall x | x in after
      ensures x in s.store && LeafKnown(s, after[x])
      ensures s.store[x] == s.slots.active ==> after[x] == s.slots.active
      ensures s.slots.Phase() != Activated ==> after[x] == s.slots.active
      ensures before.leaves[x] == s.slots.active && s.slots.Phase() == Activated ==> after[x] == s.slots.active
    {
      assert LeafOk(s, before, x);
      SettledIsKnown(s, before, x, reissue);
    }
  }

  lemma TickedStore(s: State, m: MemberId, reissue: bool)
    requires Inv(s) && m in s.members && s.members[m].rotates && s.members[m].leaves != map[]
    ensures var t := TickStep(s, m, reissue).state; StoreOk(t) && Calm(s, t)
  {
    hide SettledLeaf, MemberOk, RunOk, RunServed, CutOk, SessionsOk, SlotsOk, AllLeavesActive;
    TickedLeaves(s, m, reissue);
  }

  lemma TickedMember(s: State, m: MemberId, reissue: bool)
    requires Inv(s) && m in s.members && s.members[m].rotates && s.members[m].leaves != map[]
    ensures var t := TickStep(s, m, reissue).state; MemberOk(t, t.members[m])
  {
    hide SettledLeaf, ReportOk, RunOk, RunServed, CutOk, SessionsOk, OverlookedOk, AllLeavesActive, StoreOk;
    var t := TickStep(s, m, reissue).state;
    var after := t.members[m];
    TickedLeaves(s, m, reissue);
    FreshReport(t, after);
    forall x | x in after.leaves ensures LeafOk(t, after, x) {
      assert LeafKnown(s, after.leaves[x]);
    }
  }

  /** What a member reports at a refresh is true of it. */
  lemma FreshReport(t: State, after: Member)
    requires SlotsOk(t) && after.view == t.slots && after.report == Some(ReportOf(after))
    requires t.slots.Phase() != Activated ==> forall mon :: mon in after.leaves ==> after.leaves[mon] == t.slots.active
    ensures ReportOk(t, after, after.report.value)
  {
  }

  lemma TickedAllActive(s: State, m: MemberId, reissue: bool)
    requires Inv(s) && m in s.members && s.members[m].rotates && s.members[m].leaves != map[]
    ensures var t := TickStep(s, m, reissue).state;
            s.slots.Phase() == Activated && AllLeavesActive(s) ==> AllLeavesActive(t)
  {
    TickedLeaves(s, m, reissue);
  }

  lemma TickedShape(s: State, m: MemberId, reissue: bool)
    ensures var t := TickStep(s, m, reissue).state;
            && t.runs == s.runs && t.broken == s.broken && t.overlooked == s.overlooked && t.last == s.last && t.slots == s.slots
            && (TickStep(s, m, reissue).refused.Some? ==> t == s)
            && (m in s.members ==> m in t.members && t.members == s.members[m := t.members[m]])
            && (TickStep(s, m, reissue).refused.None? <==> m in s.members && s.members[m].rotates && s.members[m].leaves != map[])
  {
  }

  lemma TickKeeps(s: State, m: MemberId, reissue: bool)
    requires Inv(s)
    ensures Inv(TickStep(s, m, reissue).state)
  {
    hide TickStep, MemberOk, StoreOk, RunServed, SessionsOk, CutOk, Calm, AllLeavesActive;
    TickedShape(s, m, reissue);
    if m in s.members && s.members[m].rotates && s.members[m].leaves != map[] {
      TickedStore(s, m, reissue);
      TickedMember(s, m, reissue);
      TickedAllActive(s, m, reissue);
      TickCuts(s, m, reissue);
      OneMemberKeeps(s, TickStep(s, m, reissue).state, m);
    }
  }

  lemma SilentKeeps(s: State, m: MemberId)
    requires Inv(s)
    ensures Inv(SilentStep(s, m).state)
  {
    if m in s.members && s.members[m].report.Some? {
      var t := SilentStep(s, m).state;
      assert MemberOk(s, s.members[m]);
      forall mon | mon in t.members[m].leaves ensures LeafOk(t, t.members[m], mon) {
        assert LeafOk(s, s.members[m], mon);
      }
      OneMemberKeeps(s, t, m);
    }
  }

  lemma TickCuts(s: State, m: MemberId, reissue: bool)
    requires Inv(s) && m in s.members && s.members[m].rotates && s.members[m].leaves != map[]
    ensures var t := TickStep(s, m, reissue).state; SessionsOk(t) && CutOk(t)
  {
    hide MemberOk, RunOk, RunServed, SettledLeaf;
  }

  lemma BegunServed(s: State, m: MemberId, r: RunId, activeOnly: bool)
    requires Inv(s) && m in s.members && !Taken(s, r) && s.members[m].leaves != map[]
    requires DispatchCovered(s, s.members[m], activeOnly)
    ensures var t := BeginStep(s, m, r, true, activeOnly).state; r in t.runs && RunServed(t, t.runs[r])
  {
    var mem := s.members[m];
    assert MemberOk(s, mem);
    var mon :| mon in mem.leaves;
    assert LeafOk(s, mem, mon);
  }

  lemma StillServed(s: State, t: State, r: Run)
    requires RunServed(s, r) && t.slots == s.slots && t.members == s.members
    ensures RunServed(t, r)
  {
  }

  lemma BegunRunOk(s: State, m: MemberId, r: RunId, uses: bool, activeOnly: bool, x: RunId)
    requires Inv(s) && x in BeginStep(s, m, r, uses, activeOnly).state.runs
    ensures var t := BeginStep(s, m, r, uses, activeOnly).state; RunOk(t, t.runs[x])
  {
    hide LeafOk, ViewOk, ReportOk, RunServed, DispatchCovered;
    if x in s.runs {
      assert RunOk(s, s.runs[x]);
    } else {
      assert MemberOk(s, s.members[m]);
    }
  }

  lemma BegunRest(s: State, m: MemberId, r: RunId, uses: bool, activeOnly: bool)
    requires Inv(s)
    ensures var t := BeginStep(s, m, r, uses, activeOnly).state;
            SlotsOk(t) && StoreOk(t) && OverlookedOk(t) && SessionsOk(t) && CutOk(t) && Calm(s, t)
  {
    hide MemberOk, RunOk, RunServed, DispatchCovered;
  }

  lemma BeginKeeps(s: State, m: MemberId, r: RunId, uses: bool, activeOnly: bool)
    requires Inv(s)
    ensures Inv(BeginStep(s, m, r, uses, activeOnly).state)
  {
    hide MemberOk, RunOk, RunServed, DispatchCovered, SlotsOk, StoreOk, OverlookedOk, SessionsOk, CutOk, Calm;
    var t := BeginStep(s, m, r, uses, activeOnly).state;
    BegunRest(s, m, r, uses, activeOnly);
    forall x | x in t.members ensures MemberOk(t, t.members[x]) {
      SameMember(s, t, s.members[x]);
    }
    forall x | x in t.runs ensures RunOk(t, t.runs[x]) {
      BegunRunOk(s, m, r, uses, activeOnly, x);
    }
    forall x | x in t.runs && x !in t.broken + t.overlooked && t.runs[x].uses ensures RunServed(t, t.runs[x]) {
      if x in s.runs {
        StillServed(s, t, s.runs[x]);
      } else {
        BegunServed(s, m, r, activeOnly);
      }
    }
  }

  lemma RecordKeeps(s: State, r: RunId)
    requires Inv(s)
    ensures Inv(RecordStep(s, r).state)
  {
    var t := RecordStep(s, r).state;
    forall x | x in t.members ensures MemberOk(t, t.members[x]) {
      SameMember(s, t, s.members[x]);
    }
    forall x | x in t.runs ensures RunOk(t, t.runs[x]) {
      assert RunOk(s, s.runs[x]);
    }
    forall x | x in t.runs && x !in t.broken + t.overlooked && t.runs[x].uses ensures RunServed(t, t.runs[x]) {
      assert RunServed(s, s.runs[x]);
    }
  }

  lemma FinishKeeps(s: State, r: RunId)
    requires Inv(s)
    ensures Inv(FinishStep(s, r).state)
  {
    hide MemberOk, Calm;
    var t := FinishStep(s, r).state;
    assert Calm(s, t) by { FinishIsCalm(s, r); }
    forall x | x in t.members ensures MemberOk(t, t.members[x]) {
      SameMember(s, t, s.members[x]);
    }
  }

  lemma FinishIsCalm(s: State, r: RunId)
    ensures Calm(s, FinishStep(s, r).state)
  {
  }

  lemma InvIsSafe(s: State)
    requires Inv(s)
    ensures SafeBut(s, s.broken + s.overlooked)
  {
  }

  lemma StepKeeps(s: State, step: Step)
    requires Inv(s)
    ensures Inv(Take(s, step).state)
  {
    match step
    case Stage => StageKeeps(s);
    case Activate(force) => ActivateKeeps(s, force);
    case RetirePrevious => RetireKeeps(s);
    case Abort => AbortKeeps(s);
    case Emergency => EmergencyKeeps(s);
    case Join(m, rotates) => JoinKeeps(s, m, rotates);
    case Leave(m) => LeaveKeeps(s, m);
    case StartMonitor(m, mon) => StartKeeps(s, m, mon);
    case StopMonitor(m, mon) => StopKeeps(s, m, mon);
    case Adopt(m) => AdoptKeeps(s, m);
    case Settle(m, mon, reissue) => SettleKeeps(s, m, mon, reissue);
    case Tick(m, reissue) => TickKeeps(s, m, reissue);
    case FallSilent(m) => SilentKeeps(s, m);
    case Begin(m, r, uses, activeOnly) => BeginKeeps(s, m, r, uses, activeOnly);
    case Record(r) => RecordKeeps(s, r);
    case Finish(r) => FinishKeeps(s, r);
  }
}
