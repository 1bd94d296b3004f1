/**
  That rotations get anywhere: what an accepted step of an operator does to the
  CAs, and that a rotation, an abandoned one and an emergency each run to their
  end and leave one CA in every bundle and behind every leaf.
*/
module HubProgress {
  import opened Wrappers
  import opened HubCA
  import opened HubInvariant
  import opened HubRotation

  /** No rotation is under way, and only this CA is trusted. */
  predicate OnlyCA(s: State, ca: Serial) {
    s.slots.active == ca && s.slots.next.None? && s.slots.previous.None?
  }

  /** Every member takes part in rotations, and reports if it serves anything. */
  predicate AllRotate(s: State) {
    forall m :: m in s.members ==> s.members[m].rotates && (s.members[m].leaves == map[] ==> s.members[m].report.None?)
  }

  // ------------------------------------------------------- single steps

  /** What each accepted step of an operator leaves in the slots. */
  lemma StepsMoveSlots(s: State, force: bool)
    requires Inv(s)
    ensures Take(s, Stage).refused.None? ==>
              var t := Take(s, Stage).state; t.slots == Slots(s.slots.active, Some(s.minted), None) && t.minted == s.minted + 1
    ensures Take(s, Activate(force)).refused.None? ==>
              s.slots.next.Some? && Take(s, Activate(force)).state.slots == Slots(s.slots.next.value, None, Some(s.slots.active))
    ensures Take(s, RetirePrevious).refused.None? ==> s.slots.previous.Some? && OnlyCA(Take(s, RetirePrevious).state, s.slots.active)
    ensures Take(s, Abort).refused.None? ==> s.slots.next.Some? && OnlyCA(Take(s, Abort).state, s.slots.active)
    ensures Take(s, Emergency).refused.None? ==> OnlyCA(Take(s, Emergency).state, s.minted)
  {
  }

  /** When each is accepted: by the slots and, but for Stage and Abort, by what the members last reported. */
  lemma AcceptedIff(s: State)
    ensures Take(s, Stage).refused.None? <==> s.slots.next.None? && s.slots.previous.None?
    ensures Take(s, Abort).refused.None? <==> s.slots.next.Some?
    ensures Take(s, Emergency).refused.None? <==> forall m :: m in s.members ==> s.members[m].rotates
    ensures s.slots.next.None? ==> Take(s, Activate(true)).refused == Some(WrongPhase)
    ensures s.slots.next.Some? || s.slots.previous.None? ==> Take(s, RetirePrevious).refused == Some(WrongPhase)
  {
  }

  /** A member that has reported and then falls silent holds up a rotation under way until it is heard of again. */
  lemma SilenceBlocks(s: State, m: MemberId, force: bool)
    requires m in s.members && s.members[m].report.Some?
    ensures var t := Take(s, FallSilent(m)).state;
            && t.slots == s.slots
            && (s.slots.next.Some? ==> Take(t, Activate(force)).refused == Some(MembersBehind))
            && (s.slots.previous.Some? ==> Take(t, RetirePrevious).refused.Some?)
  {
    var t := Take(s, FallSilent(m)).state;
    assert m in t.members && t.members[m].report == Some(s.members[m].report.value.(recent := false));
    if s.slots.next.Some? || s.slots.previous.Some? {
      assert Behind(t.slots, t.members[m]);
    }
  }

  /** Staging and abandoning it gives back the CAs there were. */
  lemma AbortUndoesStage(s: State)
    requires s.slots.next.None? && s.slots.previous.None?
    ensures var staged := Take(s, Stage); var aborted := Take(staged.state, Abort);
            staged.refused.None? && aborted.refused.None? && aborted.state.slots == s.slots
  {
  }

  /** What a dispatch is given, what its record says of it, and that the run is then where a rotation reads runs. */
  lemma DispatchIsTold(s: State, m: MemberId, r: RunId, activeOnly: bool)
    requires m in s.members && s.members[m].rotates && s.members[m].leaves != map[] && !Taken(s, r)
    ensures var t := Take(Take(s, Begin(m, r, true, activeOnly)).state, Record(r)).state;
            var view := s.members[m].view;
            && r in t.runs && t.runs[r].listed && t.runs[r].labelled && t.runs[r].uses && t.runs[r].noted == t.runs[r].trusts
            && (forall ca :: ca in t.runs[r].trusts <==>
                 ca == view.active || (!activeOnly && (view.next == Some(ca) || view.previous == Some(ca))))
            && t.sessions == s.sessions + {(m, r)}
  {
  }

  /** So one begun on a member that has adopted a staged CA does not hold up its activation. */
  lemma DispatchDoesNotBlock(s: State, m: MemberId, r: RunId)
    requires s.slots.next.Some? && Take(s, Activate(false)).refused.None?
    requires m in s.members && s.members[m].rotates && s.members[m].leaves != map[] && !Taken(s, r)
    requires s.members[m].view == s.slots
    ensures Take(Take(Take(s, Begin(m, r, true, false)).state, Record(r)).state, Activate(false)).refused.None?
  {
    hide Behind;
    var t := Take(Take(s, Begin(m, r, true, false)).state, Record(r)).state;
    DispatchIsTold(s, m, r, false);
    assert t.members == s.members && t.slots == s.slots;
    forall x | x in t.runs && t.runs[x].listed ensures !t.runs[x].Breaks(s.slots.next.value) {
      if x != r {
        assert t.runs[x] == s.runs[x];
        assert x !in BrokenBy(s.runs, s.slots.next.value);
      }
    }
    assert BrokenBy(t.runs, s.slots.next.value) == {};
  }

  // ----------------------------------------------------------- whole runs

  /** The member serves nothing, or has adopted the slots, serves leaves of the active CA alone, and has just said so. */
  predicate CaughtUp(s: State, m: MemberId)
    requires m in s.members
  {
    var mem := s.members[m];
    && mem.rotates
    && (mem.leaves == map[] ==> mem.report.None?)
    && (mem.leaves != map[] ==>
         mem.view == s.slots && mem.report == Some(Report(s.slots.active, s.slots.Trusted(), mem.leaves, true)))
    && forall mon :: mon in mem.leaves ==> mem.leaves[mon] == s.slots.active && mon in s.store && s.store[mon] == s.slots.active
  }

  lemma ReportsIfServing(s: State)
    requires Inv(s) && forall m :: m in s.members ==> s.members[m].rotates
    ensures AllRotate(s)
  {
    forall m | m in s.members ensures s.members[m].leaves == map[] ==> s.members[m].report.None? {
      assert MemberOk(s, s.members[m]);
    }
  }

  /** A refresh changes one member, and the stored leaves it settles. */
  lemma TickChanges(s: State, m: MemberId)
    requires m in s.members && s.members[m].rotates
    ensures var t := TickStep(s, m, true).state;
            && t.slots == s.slots && t.runs == s.runs && t.minted == s.minted
            && m in t.members && t.members == s.members[m := t.members[m]]
            && forall mon :: mon in s.store ==> mon in t.store && (t.store[mon] == s.store[mon] || t.store[mon] == s.slots.active)
  {
    hide CutFrom;
  }

  lemma TickCatchesUp(s: State, m: MemberId)
    requires AllRotate(s) && m in s.members
    ensures m in TickStep(s, m, true).state.members && CaughtUp(TickStep(s, m, true).state, m)
    ensures var mem := TickStep(s, m, true).state.members[m]; mem.rotates && (mem.leaves == map[] ==> mem.report.None?)
  {
    hide CutFrom;
    if s.members[m].leaves != map[] {
      var t := TickStep(s, m, true).state;
      assert t.members[m].leaves.Keys == s.members[m].leaves.Keys != {};
    }
  }

  lemma StaysCaughtUp(s: State, t: State, m: MemberId, x: MemberId)
    requires x in s.members && x != m && m in t.members && t.members == s.members[m := t.members[m]] && t.slots == s.slots
    requires forall mon :: mon in s.store ==> mon in t.store && (t.store[mon] == s.store[mon] || t.store[mon] == s.slots.active)
    requires CaughtUp(s, x)
    ensures CaughtUp(t, x)
  {
  }

  lemma NobodyTicks(s: State, m: MemberId)
    requires m !in s.members
    ensures TickStep(s, m, true).state == s
  {
  }

  /** Refreshed one after another, all of them have caught up, and nothing else of the rotation has changed. */
  lemma {:induction false} AllCatchUp(s: State, ms: seq<MemberId>)
    requires AllRotate(s)
    requires forall m :: m in s.members ==> m in ms || CaughtUp(s, m)
    ensures var t := TickAll(s, ms);
            && t.slots == s.slots && t.runs == s.runs && t.minted == s.minted
            && t.members.Keys == s.members.Keys && AllRotate(t)
            && forall m :: m in t.members ==> CaughtUp(t, m)
    decreases |ms|
  {
    hide CaughtUp, TickStep;
    if ms != [] {
      var m := ms[0];
      var t := TickStep(s, m, true).state;
      if m in s.members {
        TickChanges(s, m);
        TickCatchesUp(s, m);
        forall x | x in s.members && x != m && CaughtUp(s, x) ensures CaughtUp(t, x) {
          StaysCaughtUp(s, t, m, x);
        }
      } else {
        assert t == s by { NobodyTicks(s, m); }
      }
      AllCatchUp(t, ms[1..]);
    }
  }

  lemma CaughtUpIsNotBehind(s: State)
    requires forall m :: m in s.members ==> CaughtUp(s, m)
    ensures !AnyBehind(s.slots, s.members) && !LeafBehind(s) && AllLeavesActive(s)
  {
    forall m | m in s.members ensures !Behind(s.slots, s.members[m]) {
      assert CaughtUp(s, m);
    }
    forall m, mon | m in s.members && mon in s.members[m].leaves ensures mon in s.store && s.store[mon] == s.slots.active {
      assert CaughtUp(s, m);
    }
    forall m | m in s.members && s.members[m].report.Some? ensures s.members[m].report.value.leaves == s.members[m].leaves {
      assert CaughtUp(s, m);
    }
  }

  /** Every sandbox on record says what it was given, and was given nothing. */
  predicate NoneHoldsUp(s: State) {
    forall r :: r in s.runs && s.runs[r].listed ==> s.runs[r].labelled && !s.runs[r].uses
  }

  lemma FreshBreaks(s: State)
    requires Inv(s)
    ensures BrokenBy(s.runs, s.minted) == {} <==> NoneHoldsUp(s)
  {
    forall r | r in s.runs && s.runs[r].listed ensures s.runs[r].Breaks(s.minted) <==> !s.runs[r].labelled || s.runs[r].uses {
      assert RunOk(s, s.runs[r]);
    }
    if !NoneHoldsUp(s) {
      var r :| r in s.runs && s.runs[r].listed && !(s.runs[r].labelled && !s.runs[r].uses);
      assert r in BrokenBy(s.runs, s.minted);
    }
  }

  /** Stage, each member's refresh, and the activation. */
  function Rotated(s: State, ms: seq<MemberId>, force: bool): Outcome {
    Take(TickAll(Take(s, Stage).state, ms), Activate(force))
  }

  /** The activation, each member's refresh, and the retirement. */
  function Finished(s: State, ms: seq<MemberId>, force: bool): Outcome {
    Take(TickAll(Rotated(s, ms, force).state, ms), RetirePrevious)
  }

  /**
    A rotation finishes.  With no other under way and every member of a build that takes part,
    the staged CA is activated exactly if no sandbox on record holds it up or it
    is forced past them; and then the previous one is retired, so that the CA
    minted for the rotation alone is trusted and is behind every leaf.
  */
  lemma RotationFinishesIff(s: State, ms: seq<MemberId>, force: bool)
    requires Inv(s) && s.slots.next.None? && s.slots.previous.None?
    requires (forall m :: m in s.members ==> s.members[m].rotates) && forall m :: m in s.members ==> m in ms
    ensures Take(s, Stage).refused.None?
    ensures Rotated(s, ms, force).refused.None? <==> force || NoneHoldsUp(s)
    ensures Rotated(s, ms, force).refused.None? ==>
              var t := Finished(s, ms, force).state;
              && Finished(s, ms, force).refused.None?
              && OnlyCA(t, s.minted) && t.slots.Trusted() == {s.minted}
              && t.members.Keys == s.members.Keys
              && (forall m, mon :: m in t.members && mon in t.members[m].leaves ==> t.members[m].leaves[mon] == s.minted)
              && forall mon :: mon in t.store ==> t.store[mon] == s.minted
  {
    hide TickAll, CaughtUp, Behind, BrokenBy;
    ReportsIfServing(s);
    var staged := Take(s, Stage).state;
    AllCatchUp(staged, ms);
    var ready := TickAll(staged, ms);
    CaughtUpIsNotBehind(ready);
    FreshBreaks(s);
    var activated := Rotated(s, ms, force);
    if activated.refused.None? {
      AllCatchUp(activated.state, ms);
      var done := TickAll(activated.state, ms);
      CaughtUpIsNotBehind(done);
    }
  }

  /** An emergency takes no waiting: accepted, it leaves its own CA alone trusted, and each member's next refresh puts it behind every leaf. */
  lemma EmergencyFinishes(s: State, ms: seq<MemberId>)
    requires Inv(s) && (forall m :: m in s.members ==> s.members[m].rotates) && forall m :: m in s.members ==> m in ms
    ensures Take(s, Emergency).refused.None?
    ensures var t := TickAll(Take(s, Emergency).state, ms);
            && OnlyCA(t, s.minted)
            && forall m, mon :: m in t.members && mon in t.members[m].leaves ==> t.members[m].leaves[mon] == s.minted
    ensures forall r :: r in s.runs && s.runs[r].listed && (!s.runs[r].labelled || s.runs[r].uses) ==> r in Take(s, Emergency).state.broken
  {
    hide TickAll, CaughtUp, Behind;
    ReportsIfServing(s);
    var t := Take(s, Emergency).state;
    AllCatchUp(t, ms);
    CaughtUpIsNotBehind(TickAll(t, ms));
    forall r | r in s.runs && s.runs[r].listed && (!s.runs[r].labelled || s.runs[r].uses) ensures r in BrokenBy(s.runs, s.minted) {
      assert RunOk(s, s.runs[r]);
    }
  }

  /** A leaf the member accepts is served as stored, and any other replaced by one of its active CA. */
  lemma SettledLeafIs(s: State, m: MemberId, mon: Monitor)
    requires m in s.members && s.members[m].rotates && mon in s.members[m].leaves
    ensures var t := Take(s, Settle(m, mon, false)).state;
            && m in t.members && mon in t.members[m].leaves && mon in t.store && t.store[mon] == t.members[m].leaves[mon]
            && t.store[mon] ==
                 if mon in s.store && (s.store[mon] == s.slots.active || Some(s.store[mon]) in {s.slots.next, s.slots.previous}) then s.store[mon]
                 else s.slots.active
  {
  }

  /** What leaves is gone: a member with its sessions, a monitor it stopped, a run that ended. */
  lemma GoneIsGone(s: State, m: MemberId, mon: Monitor, r: RunId)
    ensures var t := Take(s, Leave(m)).state;
            m !in t.members && (m in s.members ==> t.members == s.members - {m} && forall x :: x in t.sessions <==> x in s.sessions && x.0 != m)
    ensures var t := Take(s, StopMonitor(m, mon)).state;
            m in s.members ==> m in t.members && t.members[m].leaves == s.members[m].leaves - {mon} && t.sessions == s.sessions
    ensures var t := Take(s, Finish(r)).state;
            t.runs == s.runs - {r} && (r in s.runs ==> forall x :: x in t.sessions <==> x in s.sessions && x.1 != r)
  {
  }

  /** What comes is there: a member that joins with the CAs it can know, a monitor started with a leaf of the active CA, and a view brought up to date. */
  lemma ComersAreThere(s: State, m: MemberId, mon: Monitor, rotates: bool)
    ensures m !in s.members ==>
              var t := Take(s, Join(m, rotates)).state;
              && m in t.members && t.members[m].rotates == rotates && t.members[m].leaves == map[] && t.members[m].report.None?
              && t.members[m].view.active == s.slots.active && (rotates ==> t.members[m].view == s.slots)
    ensures m in s.members && s.members[m].rotates && mon !in s.members[m].leaves ==>
              var t := Take(s, StartMonitor(m, mon)).state;
              && m in t.members && t.members[m].leaves == s.members[m].leaves[mon := s.slots.active] && t.members[m].view == s.slots
              && t.store == s.store[mon := s.slots.active]
              && t.members[m].report == if s.members[m].leaves == map[] then Some(Report(s.slots.active, s.slots.Trusted(), map[mon := s.slots.active], true))
                                        else s.members[m].report
    ensures m in s.members && s.members[m].rotates ==>
              var t := Take(s, Adopt(m)).state;
              && m in t.members && t == s.(members := s.members[m := s.members[m].(view := s.slots)])
  {
  }
}
