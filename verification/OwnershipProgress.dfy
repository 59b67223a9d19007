/** When the operations of the ownership protocol succeed: each compare-and-swap wins
    exactly on a record that is still what the operation relies on, and an operation
    that nobody disturbs reaches its end. */
module OwnershipProgress {
  import opened Lists
  import opened Strings
  import opened EngineState
  import opened OwnerJournal
  import opened OwnershipProtocol
  import opened StopFence
  import opened OwnershipInvariant
  import opened OwnershipSteps
  import opened OwnershipSafety
  import opened OwnershipTheorems
  import opened ColdClaim

  // ---- the compare-and-swaps ----

  /** A bind that holds the Extension lease wins its compare-and-swap exactly when the
      record is still the one it read. The record then names the process, which stores
      the lease; otherwise the record stays and the lease is released. */
  lemma SwapWinsIff(p: Proc, x: Sight, y: Sight)
    requires Good(p, x) && BindSwaps(p, x, y)
    ensures var owner := x.engine.op.owner;
      && (y.engine.op.BindSync? <==> x.shared.journal == Some(owner))
      && (y.engine.op.BindSync? ==>
            && y.shared.journal == Some(Record(x.engine.op.attempt, owner.issuer, Some(p), Attached))
            && y.engine.inner == x.engine.inner.(leases := x.engine.inner.leases.(extension := true))
            && y.shared.extension == x.shared.extension && y.engine.validated == None)
      && (!y.engine.op.BindSync? ==>
            && y.shared.journal == x.shared.journal && y.engine.op == Ready && y.engine.inner == x.engine.inner
            && y.shared.extension.holder == None)
  {
    hide OwnersInv, Honest, Blank, Recorded;
  }

  /** The creation of a record succeeds exactly on a missing journal; the process then
      stores the issuer lease and its session is pending on the new attempt. */
  lemma CreateWinsIff(p: Proc, x: Sight, y: Sight)
    requires Good(p, x) && BeginCreates(p, x, y)
    ensures var attempt := x.engine.op.attempt;
      && (y.engine.op.Publishing? <==> x.shared.journal == None)
      && (y.engine.op.Publishing? ==>
            && y.shared.journal == Some(Record(attempt, p, None, Phase.Pending))
            && y.engine.inner.leases == Leases(true, false) && y.shared.issuer == x.shared.issuer
            && y.engine.inner.start == Start(attempt, Outcome.Pending, false, false, false, 0, 0, false)
            && y.engine.inner.starting && !y.engine.inner.running && y.engine.inner.view == View(Establishing, None))
      && (!y.engine.op.Publishing? ==>
            && y.shared.journal == x.shared.journal && y.engine.op == Ready && y.engine.inner == x.engine.inner
            && y.shared.issuer.holder == None)
  {
    hide OwnersInv, Honest, Recorded;
  }

  /** The fence of a claim that read a pending record goes up exactly when the record of
      that attempt and issuer is not attached; otherwise the claim looks again. */
  lemma FenceWinsIff(p: Proc, x: Sight, y: Sight)
    requires Good(p, x) && ClaimFences(x, y) && x.engine.op.owner.phase.Pending?
    ensures var owner, j := x.engine.op.owner, x.shared.journal;
      var free := Names(j, owner.attempt) && j.value.issuer == owner.issuer && !j.value.phase.Attached?;
      && (free ==>
            && y.shared.journal == Some(Record(owner.attempt, owner.issuer, None, Phase.Stopping))
            && y.engine.osStop == OsStop(x.engine.intentEpoch, owner.attempt, false) && y.engine.op == Ready)
      && (!free ==>
            && y.shared.journal == j && y.engine.osStop == x.engine.osStop
            && y.engine.op == ClaimReread(x.engine.op.epoch, owner, x.engine.op.hot))
  {
    hide OwnersInv, Honest, LeasesInv, Recorded;
  }

  /** The Extension's delete succeeds exactly while the record of the attempt names it;
      record, lease and session are then over together. */
  lemma CompleteWinsIff(p: Proc, x: Sight, y: Sight)
    requires Good(p, x) && CompleteDeletes(p, x, y)
    ensures var mine := Names(x.shared.journal, x.engine.op.attempt) && x.shared.journal.value.extension == Some(p);
      && (mine ==>
            && y.shared.journal == None && y.shared.extension.holder == None && y.engine.inner.leases == Leases(false, false)
            && y.engine.inner.start.cleanupComplete && !y.engine.inner.start.extensionAttached
            && y.engine.inner.start.outcome == x.engine.inner.start.outcome && y.engine.op == Publishing)
      && (!mine ==> y.shared == x.shared && y.engine == x.engine.(op := Ready))
  {
    hide OwnersInv, Honest, Recorded, Blank;
    DeletesSucceed2(x.shared.journal, x.engine.op.attempt, p);
  }

  lemma DeletesSucceed2(j: Journal, attempt: string, p: Proc)
    requires ValidJournal(j) && p.Valid()
    ensures Names(j, attempt) && j.value.extension == Some(p) ==> DeleteExact(j, attempt, Some(p)) == (None, Yes)
    ensures !(Names(j, attempt) && j.value.extension == Some(p)) ==>
              DeleteExact(j, attempt, Some(p)).0 == j && DeleteExact(j, attempt, Some(p)).1 != Yes
  {
  }

  /** A failed start removes the record exactly while it is pending; the session is then
      failed with the message and cleaned up. */
  lemma FailWinsIff(p: Proc, x: Sight, y: Sight, message: string)
    requires Good(p, x) && FailDeletes(x, y, message)
    ensures var pending := Names(x.shared.journal, x.engine.op.attempt) && x.shared.journal.value.phase == Phase.Pending;
      && (pending ==>
            && y.shared.journal == None && y.engine.inner.leases == Leases(false, false)
            && y.engine.inner.start.outcome == Failed && y.engine.inner.start.cleanupComplete
            && !y.engine.inner.running && !y.engine.inner.starting
            && y.engine.inner.view == View(Broken, Some(message)) && y.engine.op == Publishing)
      && (!pending ==> y.shared == x.shared && y.engine == x.engine.(op := Ready))
  {
    hide OwnersInv, Honest, Recorded, LeasesInv;
  }

  /** A recovery's delete succeeds exactly while the record of its attempt names the
      Extension, or the absence of one, that it proved. */
  lemma RecoveryWinsIff(s: Shared, r: Recovery)
    requires RecordInv(s) && r.at.MustDelete?
    ensures var (t, next) := RecoveryDeleted(r, s);
      var proved := Names(s.journal, r.attempt) && s.journal.value.extension == r.at.extension;
      && (proved ==> t.journal == None && next == Some(r.(at := MustCommit)) && r.attempt in t.history.deleted)
      && (!proved ==> t == s && next in {None, Some(r.(at := MustSync))})
  {
  }

  // ---- what a bind read is what it swaps ----

  /** The bind of `attempt` is on its way with this record in hand. */
  predicate BindsWith(op: Op, attempt: string, owner: Record) {
    op in {BindObserve(attempt, owner), BindLock(attempt, owner), BindWrite(attempt, owner), BindSwap(attempt, owner)}
  }

  predicate PassesOn(a: Action) {
    a.BindReadStep? || a.BindObserveStep? || a.BindLockStep? || a.BindWriteStep?
  }

  /** Starts and binds, as against claims, cleanups and the rest. */
  predicate StartsOrBinds(a: Action) {
    || a.BeginStart? || a.BeginReadStep? || a.BeginLockStep? || a.BeginWriteStep? || a.BeginCreateStep?
    || a.Validate? || a.BindStart? || a.BindSwapStep? || a.BindSyncStep?
  }

  predicate NoBind(before: Op, after: Op) {
    after == before || !(after.BindObserve? || after.BindLock? || after.BindWrite? || after.BindSwap?)
  }

  lemma NoBindInStarts(p: Proc, a: Action, inbox: Option<Frame>, x: Sight, y: Sight)
    requires Act(p, a, inbox, x, y) && !PassesOn(a) && StartsOrBinds(a)
    ensures NoBind(x.engine.op, y.engine.op)
  {
    hide Synced, Freed, SetJournal, Swapped, CreatePending, Blank, Reopened, Bound, Began;
  }

  lemma NoBindInRest(p: Proc, a: Action, inbox: Option<Frame>, x: Sight, y: Sight)
    requires Act(p, a, inbox, x, y) && !PassesOn(a) && !StartsOrBinds(a)
    ensures NoBind(x.engine.op, y.engine.op)
  {
    hide Synced, Persisted, Published, Freed, SetJournal, DeleteExact, DeletePending, FencePendingStop, StopClaimed, OwnerLost,
      CleanedUp, StartFailed;
  }

  lemma BindsWithOfAct(p: Proc, a: Action, inbox: Option<Frame>, x: Sight, y: Sight, attempt: string, owner: Record)
    requires Act(p, a, inbox, x, y) && BindsWith(y.engine.op, attempt, owner)
    ensures BindsWith(x.engine.op, attempt, owner) || (a == BindReadStep && x.shared.journal == Some(owner) && owner.attempt == attempt)
  {
    if !PassesOn(a) {
      hide Act;
      if StartsOrBinds(a) {
        NoBindInStarts(p, a, inbox, x, y);
      } else {
        NoBindInRest(p, a, inbox, x, y);
      }
    } else {
      hide Observe, Blank;
    }
  }

  lemma BindsWithOfStep(s: State, step: Step, t: State, p: Proc, attempt: string, owner: Record)
    requires Inv(s) && Next(s, step, t) && p in t.engines && BindsWith(t.engines[p].op, attempt, owner)
    ensures p in s.engines
    ensures || BindsWith(s.engines[p].op, attempt, owner)
            || (step.Local? && step.p == p && step.action == BindReadStep && s.shared.journal == Some(owner) && owner.attempt == attempt)
  {
    hide Act, LaneOf, Synced, InboxOf, RecordInv, LocalInv, RecoveryInv, HonestFrame;
    if step.Local? && step.p == p {
      SameShared(s, p);
      BindsWithOfAct(p, step.action, InboxOf(s, p), SightOf(s, p), step.after, attempt, owner);
    } else if step.Local? {
      SameShared(s, step.p);
    }
  }

  /** A bind goes on with the record it read: its read of the journal is step `m`. */
  lemma {:induction false} OwnerWasRead(states: seq<State>, steps: seq<Step>, n: nat, p: Proc, attempt: string, owner: Record)
    returns (m: nat)
    requires Run(states, steps) && n < |states| && p in states[n].engines && BindsWith(states[n].engines[p].op, attempt, owner)
    ensures m < n && steps[m].Local? && steps[m].p == p && steps[m].action == BindReadStep
    ensures states[m].shared.journal == Some(owner) && owner.attempt == attempt
    ensures forall k | m < k <= n :: p in states[k].engines && BindsWith(states[k].engines[p].op, attempt, owner)
  {
    hide Next, Inv, BindsWith;
    assert Next(states[n - 1], steps[n - 1], states[n]) by { NotInitial(states, steps, n, p); }
    InvAlways(states, steps, n - 1);
    BindsWithOfStep(states[n - 1], steps[n - 1], states[n], p, attempt, owner);
    if BindsWith(states[n - 1].engines[p].op, attempt, owner) {
      m := OwnerWasRead(states, steps, n - 1, p, attempt, owner);
    } else {
      m := n - 1;
    }
  }

  lemma NotInitial(states: seq<State>, steps: seq<Step>, n: nat, p: Proc)
    requires Run(states, steps) && n < |states| && p in states[n].engines
    ensures n > 0 && Next(states[n - 1], steps[n - 1], states[n])
  {
  }

  /** Over a whole run: a bind that reaches its compare-and-swap wins it exactly when the
      record is the one it read, however many steps of others came in between. */
  lemma BindWinsIffUnchanged(states: seq<State>, steps: seq<Step>, n: nat) returns (m: nat)
    requires Run(states, steps) && n < |steps| && steps[n].Local? && steps[n].action == BindSwapStep
    ensures m < n && steps[m].Local? && steps[m].p == steps[n].p && steps[m].action == BindReadStep
    ensures OpOf(states[n], steps[n].p).BindSwap?
    ensures var attempt := OpOf(states[n], steps[n].p).attempt;
      && Names(states[m].shared.journal, attempt)
      && (BindWins(states[n], steps[n], attempt) <==> states[n].shared.journal == states[m].shared.journal)
      && (BindWins(states[n], steps[n], attempt) ==>
            states[n + 1].shared.journal
            == Some(Record(attempt, states[m].shared.journal.value.issuer, Some(steps[n].p), Attached)))
  {
    hide Inv, Good, BindSwaps;
    var s, p := states[n], steps[n].p;
    InvAlways(states, steps, n);
    assert Next(s, steps[n], states[n + 1]);
    SightGood(s, p);
    SameShared(s, p);
    assert BindSwaps(p, SightOf(s, p), steps[n].after);
    SwapWinsIff(p, SightOf(s, p), steps[n].after);
    IsSwap(p, SightOf(s, p), steps[n].after);
    m := OwnerWasRead(states, steps, n, p, OpOf(s, p).attempt, OpOf(s, p).owner);
  }

  lemma IsSwap(p: Proc, x: Sight, y: Sight)
    requires BindSwaps(p, x, y)
    ensures x.engine.op.BindSwap?
  {
  }
}
