/** Why a record is created, attached, fenced or deleted: over whole runs, what was true
    of the session and of the leases when the operation behind the change decided. */
module OwnershipReasons {
  import opened Lists
  import opened Strings
  import opened EngineState
  import opened OwnerJournal
  import opened OwnershipProtocol
  import opened StopFence
  import opened OwnershipInvariant
  import opened OwnershipSteps
  import opened OwnershipSafety
  import opened OwnershipTheorems
  import opened OwnershipProgress

  // ---- what the session is like while an operation is under way ----

  predicate Starts(op: Op) {
    op.BeginRead? || op.BeginLock? || op.BeginWrite? || op.BeginCreate?
  }

  predicate Completes(op: Op) {
    op.CompleteRead? || op.CompleteDelete?
  }

  /** A start goes on only in a free session: nothing pending, the last attempt cleaned
      up, and nothing running. A cleanup goes on only for an attempt that is over and
      neither runs nor starts, a failure only for a pending and unattached one. */
  predicate Decided(op: Op, i: Inner) {
    && (Starts(op) ==> i.start.outcome != Outcome.Pending && (i.start.attempt == "" || i.start.cleanupComplete) && !i.running)
    && (Completes(op) ==> i.start.outcome in {Failed, Cancelled} && !i.running && !i.starting && !i.start.cleanupComplete)
    && (op.FailDelete? ==> i.start.outcome == Outcome.Pending && !i.start.extensionAttached)
  }

  predicate Decides(op: Op) {
    Starts(op) || Completes(op) || op.FailDelete?
  }

  predicate OfStart(a: Action) {
    a.BeginStart? || a.BeginReadStep? || a.BeginLockStep? || a.BeginWriteStep? || a.BeginCreateStep?
  }

  predicate OfEnd(a: Action) {
    a.CompleteStart? || a.CompleteReadStep? || a.CompleteDeleteStep? || a.FailStart? || a.FailDeleteStep?
  }

  lemma DecidedByStart(p: Proc, a: Action, inbox: Option<Frame>, x: Sight, y: Sight)
    requires Act(p, a, inbox, x, y) && OfStart(a) && Decided(x.engine.op, x.engine.inner)
    ensures Decided(y.engine.op, y.engine.inner)
  {
    hide Synced, Freed, SetJournal, CreatePending, Blank, Began;
  }

  lemma DecidedByEnd(p: Proc, a: Action, inbox: Option<Frame>, x: Sight, y: Sight)
    requires Act(p, a, inbox, x, y) && OfEnd(a) && Decided(x.engine.op, x.engine.inner)
    ensures Decided(y.engine.op, y.engine.inner)
  {
    hide Synced, Freed, SetJournal, DeleteExact, DeletePending, CleanedUp, StartFailed;
  }

  lemma UndecidedByBind(p: Proc, a: Action, inbox: Option<Frame>, x: Sight, y: Sight)
    requires Act(p, a, inbox, x, y) && !OfStart(a) && (StartsOrBinds(a) || PassesOn(a))
    ensures !Decides(y.engine.op) || (y.engine.op == x.engine.op && y.engine.inner == x.engine.inner)
  {
    hide Synced, Freed, SetJournal, Swapped, Blank, Reopened, Bound, Observe;
  }

  lemma UndecidedByRest(p: Proc, a: Action, inbox: Option<Frame>, x: Sight, y: Sight)
    requires Act(p, a, inbox, x, y) && !StartsOrBinds(a) && !PassesOn(a) && !OfEnd(a)
    ensures !Decides(y.engine.op)
  {
    hide Synced, Persisted, Published, Freed, SetJournal, FencePendingStop, StopClaimed, OwnerLost;
  }

  lemma DecidedByAct(p: Proc, a: Action, inbox: Option<Frame>, x: Sight, y: Sight)
    requires Act(p, a, inbox, x, y) && Decided(x.engine.op, x.engine.inner)
    ensures Decided(y.engine.op, y.engine.inner)
  {
    hide Act;
    if OfStart(a) {
      DecidedByStart(p, a, inbox, x, y);
    } else if OfEnd(a) {
      DecidedByEnd(p, a, inbox, x, y);
    } else if StartsOrBinds(a) || PassesOn(a) {
      UndecidedByBind(p, a, inbox, x, y);
    } else {
      UndecidedByRest(p, a, inbox, x, y);
    }
  }

  lemma DecidedByStep(s: State, step: Step, t: State, p: Proc)
    requires Inv(s) && Next(s, step, t) && p in t.engines
    requires p in s.engines ==> Decided(s.engines[p].op, s.engines[p].inner)
    ensures Decided(t.engines[p].op, t.engines[p].inner)
  {
    hide Act, LaneOf, Synced, InboxOf, RecordInv, LocalInv, RecoveryInv, HonestFrame;
    if step.Local? {
      SameShared(s, step.p);
      if step.p == p {
        hide Decided;
        DecidedByAct(p, step.action, InboxOf(s, p), SightOf(s, p), step.after);
      }
    }
  }

  lemma {:induction false} DecidedAlways(states: seq<State>, steps: seq<Step>, n: nat, p: Proc)
    requires Run(states, steps) && n < |states| && p in states[n].engines
    ensures Decided(states[n].engines[p].op, states[n].engines[p].inner)
  {
    hide Next, Inv, Decided;
    NotInitial(states, steps, n, p);
    InvAlways(states, steps, n - 1);
    if p in states[n - 1].engines {
      DecidedAlways(states, steps, n - 1, p);
    }
    DecidedByStep(states[n - 1], steps[n - 1], states[n], p);
  }

  // ---- creation ----

  /** Over a whole run: a record is created only by a UI process whose session is not
      pending and does not run, and whose last attempt, if there was one, has been
      cleaned up, so that its record is gone for good. */
  lemma CreationIsFree(states: seq<State>, steps: seq<Step>, n: nat)
    requires Run(states, steps) && n < |steps|
    requires states[n].shared.journal.None? && states[n + 1].shared.journal.Some?
    ensures steps[n].Local? && steps[n].p in states[n].engines
    ensures var i := states[n].engines[steps[n].p].inner;
      && i.start.outcome != Outcome.Pending && !i.running && (i.start.attempt == "" || i.start.cleanupComplete)
      && forall k | n <= k < |states| && i.start.attempt != "" :: !Names(states[k].shared.journal, i.start.attempt)
  {
    hide Next, Inv;
    RecordLife(states, steps, n);
    var p := steps[n].p;
    DecidedAlways(states, steps, n, p);
    var start := states[n].engines[p].inner.start;
    if start.attempt != "" {
      forall k | n <= k < |states| ensures !Names(states[k].shared.journal, start.attempt) {
        CleanupIsProof(states, steps, n, k, start);
      }
    }
  }

  // ---- attachment ----

  /** A bind that has passed its look at the leases. */
  predicate Looked(op: Op, attempt: string, owner: Record) {
    op in {BindLock(attempt, owner), BindWrite(attempt, owner), BindSwap(attempt, owner)}
  }

  /** What a bind must have seen: of a pending record, somebody holding the issuer lease
      with the record of this very attempt and issuer; of an attached one, the Extension
      lease free. */
  predicate SeesReason(s: Shared, attempt: string, owner: Record) {
    && (owner.extension == None ==> s.issuer.holder != None && s.issuer.content == Some(LeaseRecord(attempt, owner.issuer)))
    && (owner.extension != None ==> s.extension.holder == None)
  }

  lemma LookedByBind(p: Proc, a: Action, inbox: Option<Frame>, x: Sight, y: Sight, attempt: string, owner: Record)
    requires Act(p, a, inbox, x, y) && PassesOn(a) && Looked(y.engine.op, attempt, owner) && owner.extension != Some(p)
    ensures || Looked(x.engine.op, attempt, owner)
            || (a == BindObserveStep && SeesReason(x.shared, attempt, owner))
  {
    hide Blank;
  }

  lemma LookedByAct(p: Proc, a: Action, inbox: Option<Frame>, x: Sight, y: Sight, attempt: string, owner: Record)
    requires Act(p, a, inbox, x, y) && Looked(y.engine.op, attempt, owner) && owner.extension != Some(p)
    ensures || Looked(x.engine.op, attempt, owner)
            || (a == BindObserveStep && SeesReason(x.shared, attempt, owner))
  {
    hide Act;
    if PassesOn(a) {
      LookedByBind(p, a, inbox, x, y, attempt, owner);
    } else if StartsOrBinds(a) {
      NoBindInStarts(p, a, inbox, x, y);
    } else {
      NoBindInRest(p, a, inbox, x, y);
    }
  }

  lemma LookedByStep(s: State, step: Step, t: State, p: Proc, attempt: string, owner: Record)
    requires Inv(s) && Next(s, step, t) && p in t.engines && Looked(t.engines[p].op, attempt, owner) && owner.extension != Some(p)
    ensures p in s.engines
    ensures || Looked(s.engines[p].op, attempt, owner)
            || (step.Local? && step.p == p && step.action == BindObserveStep && SeesReason(s.shared, attempt, owner))
  {
    hide Act, LaneOf, Synced, InboxOf, RecordInv, LocalInv, RecoveryInv, HonestFrame, SeesReason;
    if step.Local? {
      SameShared(s, step.p);
      if step.p == p {
        LookedByAct(p, step.action, InboxOf(s, p), SightOf(s, p), step.after, attempt, owner);
      }
    }
  }

  /** Over a whole run: a bind that is about to lock, write or swap has looked before, and
      at that moment a pending record had its issuer's lease held for it, and the owner of
      an attached one had let go. */
  lemma {:induction false} BindSawReason(states: seq<State>, steps: seq<Step>, n: nat, p: Proc, attempt: string, owner: Record)
    returns (m: nat)
    requires Run(states, steps) && n < |states| && p in states[n].engines && Looked(states[n].engines[p].op, attempt, owner)
    ensures m < n && steps[m].Local? && steps[m].p == p && steps[m].action == BindObserveStep
    ensures SeesReason(states[m].shared, attempt, owner)
    ensures forall k | m < k <= n :: p in states[k].engines && Looked(states[k].engines[p].op, attempt, owner)
  {
    hide Next, Inv, SeesReason;
    NotInitial(states, steps, n, p);
    InvAlways(states, steps, n - 1);
    NoBlindReacquire(states, steps, n, p);
    LookedByStep(states[n - 1], steps[n - 1], states[n], p, attempt, owner);
    if Looked(states[n - 1].engines[p].op, attempt, owner) {
      m := BindSawReason(states, steps, n - 1, p, attempt, owner);
    } else {
      m := n - 1;
    }
  }

  // ---- fence ----

  lemma FenceOfClaim(p: Proc, a: Action, inbox: Option<Frame>, x: Sight, y: Sight)
    requires Good(p, x) && Act(p, a, inbox, x, y) && x.shared.journal.Some? && y.shared.journal.Some?
    requires !x.shared.journal.value.phase.Stopping? && y.shared.journal.value.phase.Stopping?
    ensures a == ClaimFenceStep && x.engine.op.ClaimFence? && x.shared.journal.value.phase.Pending?
    ensures var e, attempt := x.engine, x.shared.journal.value.attempt;
      && e.ui && e.op.epoch == e.intentEpoch != 0 && e.op.owner.attempt == attempt && !e.osStop.inFlight
      && (e.osStop.epoch != 0 ==> e.osStop.attempt == attempt)
      && (e.inner.start.attempt == attempt ==> e.inner.start.stopRequested)
      && y.engine.osStop == OsStop(e.intentEpoch, attempt, false)
  {
    hide Blank, OwnersInv, LeasesInv, Honest, Began, CleanedUp, StartFailed, Recorded;
    if !WritesJournal(a) {
      hide Act;
      JournalUnwritten(p, a, inbox, x, y);
    }
  }

  /** Over a whole run: a record is fenced only by a UI process that claims a stop for its
      current intent, has no other stop under way, and has already published the request
      if the attempt is its own; the fence for that attempt goes up in the same step. */
  lemma FenceHasReason(states: seq<State>, steps: seq<Step>, n: nat, attempt: string)
    requires Run(states, steps) && n < |steps|
    requires Names(states[n].shared.journal, attempt) && !InPhase(states[n], attempt, Phase.Stopping)
    requires InPhase(states[n + 1], attempt, Phase.Stopping)
    ensures steps[n].Local? && steps[n].action == ClaimFenceStep && InPhase(states[n], attempt, Phase.Pending)
    ensures steps[n].p in states[n].engines && steps[n].p in states[n + 1].engines
    ensures var e, f := states[n].engines[steps[n].p], states[n + 1].engines[steps[n].p];
      && e.ui && e.intentEpoch != 0 && !e.osStop.inFlight && (e.osStop.epoch != 0 ==> e.osStop.attempt == attempt)
      && (e.inner.start.attempt == attempt ==> e.inner.start.stopRequested)
      && f.osStop == OsStop(e.intentEpoch, attempt, false)
  {
    hide Inv, Act, Good, InboxOf, LaneOf, Synced;
    var s, step := states[n], steps[n];
    InvAlways(states, steps, n);
    assert Next(s, step, states[n + 1]);
    if step.Local? {
      SightGood(s, step.p);
      SameShared(s, step.p);
      FenceOfClaim(step.p, step.action, InboxOf(s, step.p), SightOf(s, step.p), step.after);
    } else if step.RecoverSync? || step.RecoverCommit? {
      SameShared(s, s.recoveries[step.id].proc);
    }
  }

  // ---- deletion ----

  lemma DeletionOfAct(p: Proc, a: Action, inbox: Option<Frame>, x: Sight, y: Sight)
    requires Good(p, x) && Act(p, a, inbox, x, y) && x.shared.journal.Some? && y.shared.journal.None?
    ensures var r, op := x.shared.journal.value, x.engine.op;
      || (a == CompleteDeleteStep && op == CompleteDelete(r.attempt) && r.extension == Some(p) && !x.engine.ui)
      || (a.FailDeleteStep? && op == FailDelete(r.attempt) && r.phase == Phase.Pending)
    ensures x.engine.inner.start.attempt == x.shared.journal.value.attempt
  {
    hide Blank, OwnersInv, LeasesInv, Honest, Began, CleanedUp, StartFailed, Recorded;
    if !WritesJournal(a) {
      hide Act;
      JournalUnwritten(p, a, inbox, x, y);
    }
  }

  /** Over a whole run: a record is deleted only by the Extension it names, whose session
      of the attempt is over and neither runs nor starts; while it is pending, by a
      process whose session of the attempt is pending and unattached; or by a recovery of
      that attempt with its proof (`OwnershipTheorems.RecoveryDeletesOnlyProven`). */
  lemma DeletionHasReason(states: seq<State>, steps: seq<Step>, n: nat)
    requires Run(states, steps) && n < |steps|
    requires states[n].shared.journal.Some? && states[n + 1].shared.journal.None?
    ensures var s, step, r := states[n], steps[n], states[n].shared.journal.value;
      || (&& step.Local? && step.action == CompleteDeleteStep && r.extension == Some(step.p) && step.p in s.engines
          && var i := s.engines[step.p].inner;
             i.start.attempt == r.attempt && i.start.outcome in {Failed, Cancelled} && !i.running && !i.starting)
      || (&& step.Local? && step.action.FailDeleteStep? && r.phase == Phase.Pending && step.p in s.engines
          && var i := s.engines[step.p].inner;
             i.start.attempt == r.attempt && i.start.outcome == Outcome.Pending && !i.start.extensionAttached)
      || (&& step.RecoverDelete? && step.id in s.recoveries && s.recoveries[step.id].attempt == r.attempt
          && s.recoveries[step.id].at.MustDelete? && s.recoveries[step.id].at.extension == r.extension)
  {
    hide Inv, Act, Good, InboxOf, LaneOf, Synced;
    var s, step := states[n], steps[n];
    InvAlways(states, steps, n);
    assert Next(s, step, states[n + 1]);
    if step.Local? {
      SightGood(s, step.p);
      SameShared(s, step.p);
      DeletionOfAct(step.p, step.action, InboxOf(s, step.p), SightOf(s, step.p), step.after);
      DecidedAlways(states, steps, n, step.p);
    } else if step.RecoverSync? || step.RecoverCommit? {
      SameShared(s, s.recoveries[step.id].proc);
    }
  }
}
