/** `prepare_connect` forgets an attempt but not its issuer lease. From then on the
    lease is never given up, and nobody can start an attempt while the process lives. */
module StrandedLease {
  import opened Lists
  import opened Strings
  import opened EngineState
  import opened OwnerJournal
  import opened OwnershipProtocol
  import opened OwnershipInvariant
  import opened OwnershipSteps
  import opened OwnershipSafety
  import opened OwnershipTheorems
  import SessionGeneration
  import StopDelivery
  import ColdClaim

  /** The process stores an issuer lease for an attempt it no longer knows. */
  predicate Stranded(e: Engine) {
    e.inner.start.attempt == "" && e.inner.leases.issuer
  }

  lemma StrandedSync(e: Engine, inbox: Option<Frame>, now: nat)
    requires Stranded(e) && e.ui
    ensures Synced(e, inbox, None, now) == e.inner
  {
    hide Merge;
    if inbox.Some? {
      MergeProgress(e.inner, true, None, inbox.value, now);
      MergeConcerns(e.inner, true, None, inbox.value, now);
    }
  }

  /** Neither the attempt nor the stored issuer lease changes, and no cleanup is
      claimed. */
  predicate KeepsLease(i: Inner, j: Inner) {
    && j.start.attempt == i.start.attempt && j.leases.issuer == i.leases.issuer
    && (j.start.cleanupComplete ==> i.start.cleanupComplete)
  }

  predicate Starts(a: Action) {
    StopDelivery.Begins(a) || StopDelivery.Binds(a)
  }

  lemma StartsKeep(p: Proc, a: Action, inbox: Option<Frame>, x: Sight, y: Sight)
    requires Act(p, a, inbox, x, y) && Starts(a)
    ensures KeepsLease(x.engine.inner, y.engine.inner)
  {
    hide SetJournal, Freed, Swapped, Observe, Blank;
  }

  lemma OthersKeep(p: Proc, a: Action, inbox: Option<Frame>, x: Sight, y: Sight)
    requires Act(p, a, inbox, x, y) && !Starts(a) && !StopDelivery.Deletes(a) && !StopDelivery.Syncs(a)
    requires !a.BeginCreateStep? && !a.PrepareConnect?
    ensures KeepsLease(x.engine.inner, y.engine.inner)
  {
    hide SetJournal, Freed, FencePendingStop, Published;
  }

  lemma StrandedSyncs(p: Proc, a: Action, inbox: Option<Frame>, x: Sight, y: Sight)
    requires Good(p, x) && Act(p, a, inbox, x, y) && Stranded(x.engine) && StopDelivery.Syncs(a)
    ensures Stranded(y.engine)
  {
    hide Synced, RecordInv, OwnersInv, Honest, Freed;
    StrandedSync(x.engine, inbox, a.now);
  }

  /** A stranded process is a UI process that is not creating a record, and has no
      attempt to delete. */
  lemma StrandedDeletes(p: Proc, a: Action, inbox: Option<Frame>, x: Sight, y: Sight)
    requires Good(p, x) && Act(p, a, inbox, x, y) && Stranded(x.engine) && (StopDelivery.Deletes(a) || a.BeginCreateStep?)
    ensures Stranded(y.engine)
  {
    hide RecordInv, OwnersInv, Honest, Freed, SetJournal, CreatePending;
    BlankIsEmpty();
  }

  lemma StrandedAct(p: Proc, a: Action, inbox: Option<Frame>, x: Sight, y: Sight)
    requires Good(p, x) && Act(p, a, inbox, x, y) && Stranded(x.engine)
    ensures Stranded(y.engine)
  {
    if a.PrepareConnect? {
      hide Good;
    } else if StopDelivery.Syncs(a) {
      hide Act, Good, Stranded;
      StrandedSyncs(p, a, inbox, x, y);
    } else if StopDelivery.Deletes(a) || a.BeginCreateStep? {
      hide Act, Good, Stranded;
      StrandedDeletes(p, a, inbox, x, y);
    } else {
      hide Act, Good;
      if Starts(a) {
        StartsKeep(p, a, inbox, x, y);
      } else {
        OthersKeep(p, a, inbox, x, y);
      }
    }
  }

  lemma StrandedStep(s: State, step: Step, t: State, p: Proc)
    requires Inv(s) && Next(s, step, t) && p in s.engines && p in t.engines && Stranded(s.engines[p])
    ensures Stranded(t.engines[p])
  {
    hide Act, Good, Synced, InboxOf, LaneOf, RecordInv, LocalInv, HonestFrame, WithLane;
    StrandedIsUi(s, p);
    if step.Local? && step.p == p {
      SightGood(s, p);
      StrandedAct(p, step.action, InboxOf(s, p), SightOf(s, p), step.after);
    } else if step.RecoverSync? && s.recoveries[step.id].proc == p {
      StrandedSync(s.engines[p], InboxOf(s, p), step.now);
    } else if step.RecoverCommit? && s.recoveries[step.id].proc == p {
      StrandedSync(s.engines[p], InboxOf(s, p), step.now);
      assert RecoveryInv(s.shared, s.recoveries[step.id]);
    }
  }

  lemma StrandedIsUi(s: State, p: Proc)
    requires Inv(s) && p in s.engines && Stranded(s.engines[p])
    ensures s.engines[p].ui && s.shared.issuer.holder == Some(p) && !s.engines[p].op.BeginCreate?
  {
    hide RecordInv, OwnersInv, HonestFrame, RecoveryInv;
    assert LocalInv(p, s.shared, s.engines[p]);
  }

  lemma {:induction false} StrandedStays(states: seq<State>, steps: seq<Step>, p: Proc, m: nat, n: nat)
    requires Run(states, steps) && m <= n < |states|
    requires forall k | m <= k <= n :: p in states[k].engines
    requires Stranded(states[m].engines[p])
    ensures Stranded(states[n].engines[p])
  {
    hide Inv, Next, Stranded;
    if m < n {
      StrandedStays(states, steps, p, m, n - 1);
      InvAlways(states, steps, n - 1);
      assert Next(states[n - 1], steps[n - 1], states[n]);
      StrandedStep(states[n - 1], steps[n - 1], states[n], p);
    }
  }

  /** While the process lives, the lease stays stranded, and no process creates a
      record: not even after the old attempt was recovered. */
  lemma NobodyStarts(states: seq<State>, steps: seq<Step>, p: Proc, m: nat, n: nat)
    requires Run(states, steps) && m <= n < |steps|
    requires forall k | m <= k <= n :: p in states[k].engines
    requires Stranded(states[m].engines[p])
    ensures Stranded(states[n].engines[p])
    ensures states[n].shared.journal.None? ==> states[n + 1].shared.journal.None?
  {
    hide Inv, Next, Stranded;
    StrandedStays(states, steps, p, m, n);
    InvAlways(states, steps, n);
    StrandedIsUi(states[n], p);
    RecordLife(states, steps, n);
  }

  // ---- exactly when it happens ----

  lemma SyncActStrandsNobody(p: Proc, a: Action, inbox: Option<Frame>, x: Sight, y: Sight)
    requires Good(p, x) && Act(p, a, inbox, x, y) && !Stranded(x.engine) && StopDelivery.Syncs(a)
    ensures !Stranded(y.engine)
  {
    hide Synced, RecordInv, OwnersInv, Honest, Freed, LeasesInv;
    SyncStrandsNobody(x.engine, inbox, if a.BindStart? then Some(a.attempt) else None, a.now);
  }

  lemma WriteStrandsNobody(p: Proc, a: Action, inbox: Option<Frame>, x: Sight, y: Sight)
    requires Good(p, x) && Act(p, a, inbox, x, y) && !Stranded(x.engine) && (StopDelivery.Deletes(a) || a.BeginCreateStep?)
    ensures !Stranded(y.engine)
  {
    hide RecordInv, OwnersInv, Honest, Freed, LeasesInv, SetJournal, CreatePending, DeleteExact, DeletePending;
    BlankIsEmpty();
  }

  /** One step of the process itself strands it exactly when it is `prepare_connect`
      with a stored issuer lease. */
  lemma StrandedByAct(p: Proc, a: Action, inbox: Option<Frame>, x: Sight, y: Sight)
    requires Good(p, x) && Act(p, a, inbox, x, y) && !Stranded(x.engine)
    ensures Stranded(y.engine) <==> a.PrepareConnect? && x.engine.inner.leases.issuer
  {
    if a.PrepareConnect? {
      hide Good;
    } else if StopDelivery.Syncs(a) {
      hide Act, Good, Stranded;
      SyncActStrandsNobody(p, a, inbox, x, y);
    } else if StopDelivery.Deletes(a) || a.BeginCreateStep? {
      hide Act, Good, Stranded;
      WriteStrandsNobody(p, a, inbox, x, y);
    } else {
      hide Act, Good;
      if Starts(a) {
        StartsKeep(p, a, inbox, x, y);
      } else {
        OthersKeep(p, a, inbox, x, y);
      }
    }
  }

  lemma SyncStrandsNobody(e: Engine, inbox: Option<Frame>, expected: Option<string>, now: nat)
    requires !Stranded(e) && (expected.Some? ==> expected.value != "")
    ensures var i := Synced(e, inbox, expected, now); !(i.start.attempt == "" && i.leases.issuer)
  {
    hide Merge;
    if inbox.Some? {
      MergeProgress(e.inner, e.ui, expected, inbox.value, now);
      MergeConcerns(e.inner, e.ui, expected, inbox.value, now);
    }
  }

  /** The step is `prepare_connect` in process `p`, called with a stored lease. */
  predicate Strands(s: State, step: Step, p: Proc) {
    step.Local? && step.p == p && p in s.engines && step.action.PrepareConnect? && s.engines[p].inner.leases.issuer
  }

  lemma StrandedByStep(s: State, step: Step, t: State, p: Proc)
    requires Inv(s) && Next(s, step, t) && p in t.engines && (p in s.engines ==> !Stranded(s.engines[p]))
    ensures Stranded(t.engines[p]) <==> Strands(s, step, p)
  {
    hide Act, Good, Synced, InboxOf, LaneOf, RecordInv, LocalInv, HonestFrame, WithLane;
    if step.Local? && step.p == p {
      SightGood(s, p);
      StrandedByAct(p, step.action, InboxOf(s, p), SightOf(s, p), step.after);
    } else if (step.RecoverSync? || step.RecoverCommit?) && s.recoveries[step.id].proc == p {
      SyncStrandsNobody(s.engines[p], InboxOf(s, p), None, step.now);
    }
  }

  /** Process identities are not reused: a process that lives at two moments lived in
      between. */
  lemma {:induction false} LivedBetween(states: seq<State>, steps: seq<Step>, p: Proc, m: nat, n: nat)
    requires Run(states, steps) && m <= n < |states| && p in states[m].engines && p in states[n].engines
    ensures forall k | m <= k <= n :: p in states[k].engines
  {
    hide Next, Inv;
    if m < n {
      UsedForever(states, steps, p, m, n - 1);
      InvAlways(states, steps, n - 1);
      assert Next(states[n - 1], steps[n - 1], states[n]);
      BornFresh(states[n - 1], steps[n - 1], states[n], p);
      LivedBetween(states, steps, p, m, n - 1);
    }
  }

  lemma BornFresh(s: State, step: Step, t: State, p: Proc)
    requires Inv(s) && Next(s, step, t)
    ensures p in t.engines && p !in s.engines ==> p !in s.shared.used
    ensures s.shared.used <= t.shared.used && s.engines.Keys <= s.shared.used
  {
    hide Act, Good, Synced, InboxOf, LaneOf, RecordInv, LocalInv, HonestFrame, RecoveryInv, RecoveryDeleted;
    if step.Local? {
      LocalStep(s, step.p, step.action, step.after);
    } else if step.RecoverDelete? {
      UsedKept(s.recoveries[step.id], s.shared);
    }
  }

  lemma UsedKept(r: Recovery, s: Shared)
    requires r.at.MustDelete?
    ensures RecoveryDeleted(r, s).0.used == s.used
  {
  }

  lemma {:induction false} UsedForever(states: seq<State>, steps: seq<Step>, p: Proc, m: nat, n: nat)
    requires Run(states, steps) && m <= n < |states| && p in states[m].engines
    ensures p in states[n].shared.used
  {
    hide Next, Inv;
    InvAlways(states, steps, n);
    if m < n {
      UsedForever(states, steps, p, m, n - 1);
      InvAlways(states, steps, n - 1);
      assert Next(states[n - 1], steps[n - 1], states[n]);
      BornFresh(states[n - 1], steps[n - 1], states[n], p);
    } else {
      AliveIsUsed(states[n], p);
    }
  }

  lemma AliveIsUsed(s: State, p: Proc)
    requires Inv(s) && p in s.engines
    ensures p in s.shared.used
  {
    hide RecordInv, LocalInv, HonestFrame, RecoveryInv;
  }

  lemma {:induction false} StrandedOnlyBy(states: seq<State>, steps: seq<Step>, p: Proc, n: nat) returns (k: nat)
    requires Run(states, steps) && n < |states| && p in states[n].engines && Stranded(states[n].engines[p])
    ensures k < n && Strands(states[k], steps[k], p)
  {
    hide Inv, Next, Stranded, Strands;
    assert n > 0 by {
      StartsEmpty(states, steps);
    }
    InvAlways(states, steps, n - 1);
    assert Next(states[n - 1], steps[n - 1], states[n]);
    if p in states[n - 1].engines && Stranded(states[n - 1].engines[p]) {
      k := StrandedOnlyBy(states, steps, p, n - 1);
    } else {
      StrandedByStep(states[n - 1], steps[n - 1], states[n], p);
      k := n - 1;
    }
  }

  lemma StartsEmpty(states: seq<State>, steps: seq<Step>)
    requires Run(states, steps)
    ensures states[0].engines == map[]
  {
  }

  /** A living process is stranded exactly when at some earlier step of its life it
      took `prepare_connect` while it held a stored issuer lease. */
  lemma StrandedIff(states: seq<State>, steps: seq<Step>, p: Proc, n: nat)
    requires Run(states, steps) && n < |states| && p in states[n].engines
    ensures Stranded(states[n].engines[p]) <==> exists k :: 0 <= k < n && Strands(states[k], steps[k], p)
  {
    hide Next, Inv;
    if Stranded(states[n].engines[p]) {
      var k := StrandedOnlyBy(states, steps, p, n);
    }
    if exists k :: 0 <= k < n && Strands(states[k], steps[k], p) {
      var k :| 0 <= k < n && Strands(states[k], steps[k], p);
      assert Next(states[k], steps[k], states[k + 1]);
      InvAlways(states, steps, k);
      LivedBetween(states, steps, p, k, n);
      if !Stranded(states[k].engines[p]) {
        StrandedByStep(states[k], steps[k], states[k + 1], p);
        StrandedStays(states, steps, p, k + 1, n);
      } else {
        StrandedStays(states, steps, p, k, n);
      }
    }
  }

  // ---- when a caller may prepare ----

  /** A known attempt whose lease is still stored was not cleaned up. */
  predicate LeaseOwed(i: Inner) {
    i.start.attempt != "" && i.leases.issuer ==> !i.start.cleanupComplete
  }

  lemma LeaseOwedMerge(i: Inner, expected: Option<string>, r: Frame, now: nat)
    requires LeaseOwed(i)
    ensures LeaseOwed(Merge(i, true, expected, r, now))
  {
    hide MergeView;
  }

  lemma LeaseOwedSync(e: Engine, inbox: Option<Frame>, now: nat)
    requires e.ui && LeaseOwed(e.inner)
    ensures LeaseOwed(Synced(e, inbox, None, now))
  {
    hide Merge;
    if inbox.Some? {
      LeaseOwedMerge(e.inner, None, inbox.value, now);
    }
  }

  lemma LeaseOwedSyncs(p: Proc, a: Action, inbox: Option<Frame>, x: Sight, y: Sight)
    requires Act(p, a, inbox, x, y) && x.engine.ui && LeaseOwed(x.engine.inner) && StopDelivery.Syncs(a)
    ensures LeaseOwed(y.engine.inner)
  {
    hide Synced, Freed;
    if !a.BindStart? {
      LeaseOwedSync(x.engine, inbox, a.now);
    }
  }

  lemma LeaseOwedWrites(p: Proc, a: Action, inbox: Option<Frame>, x: Sight, y: Sight)
    requires Act(p, a, inbox, x, y) && LeaseOwed(x.engine.inner) && (StopDelivery.Deletes(a) || a.BeginCreateStep? || a.PrepareConnect?)
    ensures LeaseOwed(y.engine.inner)
  {
    hide Freed, SetJournal, CreatePending, DeleteExact, DeletePending;
  }

  lemma LeaseOwedAct(p: Proc, a: Action, inbox: Option<Frame>, x: Sight, y: Sight)
    requires Act(p, a, inbox, x, y) && x.engine.ui && LeaseOwed(x.engine.inner)
    ensures LeaseOwed(y.engine.inner)
  {
    hide Act;
    if StopDelivery.Syncs(a) {
      LeaseOwedSyncs(p, a, inbox, x, y);
    } else if StopDelivery.Deletes(a) || a.BeginCreateStep? || a.PrepareConnect? {
      LeaseOwedWrites(p, a, inbox, x, y);
    } else if Starts(a) {
      StartsKeep(p, a, inbox, x, y);
    } else {
      OthersKeep(p, a, inbox, x, y);
    }
  }

  lemma {:induction false} LeaseOwedAlways(states: seq<State>, steps: seq<Step>, p: Proc, n: nat)
    requires Run(states, steps) && n < |states| && p in states[n].engines
    ensures LeaseOwed(states[n].engines[p].inner)
  {
    hide Inv, Next, LeaseOwed;
    if n > 0 {
      InvAlways(states, steps, n - 1);
      assert Next(states[n - 1], steps[n - 1], states[n]);
      if p in states[n - 1].engines {
        LeaseOwedAlways(states, steps, p, n - 1);
      }
      LeaseOwedStep(states[n - 1], steps[n - 1], states[n], p);
    } else {
      StartsEmpty(states, steps);
    }
  }

  /** A process keeps its role. */
  lemma RoleFixed(s: State, step: Step, t: State, p: Proc)
    requires Inv(s) && Next(s, step, t) && p in s.engines && p in t.engines
    ensures t.engines[p].ui == s.engines[p].ui
  {
    hide Act, Synced, InboxOf, LaneOf, RecordInv, LocalInv, HonestFrame, WithLane, RecoveryInv;
    if step.Local? && step.p == p {
      StopDelivery.LaneOfAct(p, step.action, InboxOf(s, p), SightOf(s, p), step.after);
    }
  }

  lemma ExtensionOwesNothing(s: State, p: Proc)
    requires Inv(s) && p in s.engines && !s.engines[p].ui
    ensures LeaseOwed(s.engines[p].inner)
  {
    hide RecordInv, OwnersInv, HonestFrame, RecoveryInv, OpInv, Honest;
    assert LocalInv(p, s.shared, s.engines[p]);
  }

  lemma LeaseOwedStep(s: State, step: Step, t: State, p: Proc)
    requires Inv(s) && Next(s, step, t) && p in t.engines && (p in s.engines ==> LeaseOwed(s.engines[p].inner))
    ensures LeaseOwed(t.engines[p].inner)
  {
    hide Inv, Act, Synced, InboxOf, LaneOf, WithLane;
    if p in s.engines && !s.engines[p].ui {
      hide Next, LeaseOwed;
      InvStep(s, step, t);
      RoleFixed(s, step, t, p);
      ExtensionOwesNothing(t, p);
    } else if p in s.engines {
      if step.Local? && step.p == p {
        LeaseOwedAct(p, step.action, InboxOf(s, p), SightOf(s, p), step.after);
      } else if (step.RecoverSync? || step.RecoverCommit?) && s.recoveries[step.id].proc == p {
        LeaseOwedSync(s.engines[p], InboxOf(s, p), step.now);
      }
    }
  }

  /** What a caller of `prepare_connect` can check: the call strands the process
      exactly when an issuer lease is stored; none is stored when the attempt at the
      call was cleaned up, nor when there is no attempt and none was forgotten before. */
  lemma PrepareSafeIff(states: seq<State>, steps: seq<Step>, p: Proc, n: nat)
    requires Run(states, steps) && n < |steps| && p in states[n].engines
    requires steps[n].Local? && steps[n].p == p && steps[n].action.PrepareConnect?
    ensures p in states[n + 1].engines
    ensures var i := states[n].engines[p].inner;
      && (Stranded(states[n + 1].engines[p]) <==> i.leases.issuer)
      && (i.start.attempt != "" && i.start.cleanupComplete ==> !i.leases.issuer)
      && (i.start.attempt == "" ==> (i.leases.issuer <==> exists k :: 0 <= k < n && Strands(states[k], steps[k], p)))
  {
    hide Inv;
    LeaseOwedAlways(states, steps, p, n);
    StrandedIff(states, steps, p, n);
    assert Next(states[n], steps[n], states[n + 1]);
  }

  // ---- it happens ----

  /** A start that failed before an Extension took it, and the next connect. */
  lemma Forgets(u: Proc, x: Sight) returns (sights: seq<Sight>, acts: seq<Action>)
    requires x.engine.op.Ready? && x.engine.ui && x.engine.inner.leases.issuer
    requires x.engine.inner.runningNative.None? && x.engine.inner.pendingNative.None?
    ensures ColdClaim.LocalPath(u, None, sights, acts) && sights[0] == x && Stranded(sights[|acts|].engine)
  {
    var i := x.engine.inner;
    var failed := i.(start := i.start.(outcome := Failed), starting := false, view := View(Broken, None));
    var x1 := x.(engine := x.engine.(inner := failed));
    var x2 := x.(engine := x.engine.(inner := SessionGeneration.BeginPrepare(failed), op := Publishing));
    sights, acts := [x, x1, x2], [Move(failed), PrepareConnect];
    assert Act(u, acts[0], None, x, x1);
    assert Act(u, acts[1], None, x1, x2);
  }

  /** A run into the stranded state. */
  lemma StrandedRun(u: Proc) returns (states: seq<State>, steps: seq<Step>)
    requires u.Valid()
    ensures Run(states, steps)
    ensures var t := states[|steps|]; u in t.engines && Stranded(t.engines[u])
  {
    hide Next, Act, ColdClaim.Delivered, ColdClaim.LocalPath, Stranded, Init;
    states, steps := ColdClaim.ReachPending(u);
    var sights, acts := Forgets(u, SightOf(states[|steps|], u));
    states, steps := ColdClaim.Lift(states, steps, u, None, sights, acts, |acts|);
  }
}
