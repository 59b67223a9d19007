/** The promises of the ownership protocol, over whole runs. */
module OwnershipTheorems {
  import opened Lists
  import opened Strings
  import opened EngineState
  import opened OwnerJournal
  import opened OwnershipProtocol
  import opened StopFence
  import opened OwnershipInvariant
  import opened OwnershipSteps
  import opened OwnershipSafety

  // ---- what one step does to the record ----

  /** The operation of process `p` that is about to take the step. */
  function OpOf(s: State, p: Proc): Op {
    if p in s.engines then s.engines[p].op else Ready
  }

  /** The record was created by `p` for its current intent, with no stop pending. */
  predicate CreatedBy(s: State, p: Proc, k: Journal) {
    && p in s.engines && s.engines[p].op.BeginCreate?
    && var e := s.engines[p];
    && e.ui && e.intentEpoch == e.op.epoch != 0 && e.osStop.epoch == 0
    && k == Some(Record(e.op.attempt, p, None, Phase.Pending)) && e.op.attempt !in s.shared.history.created
    && s.shared.issuer.holder == Some(p)
  }

  predicate WritesJournal(a: Action) {
    a.BeginCreateStep? || a.BindSwapStep? || a.ClaimFenceStep? || a.CompleteDeleteStep? || a.FailDeleteStep?
  }

  lemma JournalUnwritten(p: Proc, a: Action, inbox: Option<Frame>, x: Sight, y: Sight)
    requires Act(p, a, inbox, x, y) && !WritesJournal(a)
    ensures y.shared.journal == x.shared.journal
  {
    hide Synced, Persisted, Published, Reopened, Bound, StopClaimed, OwnerLost, Observe;
  }

  lemma JournalOfAct(p: Proc, a: Action, inbox: Option<Frame>, x: Sight, y: Sight)
    requires Act(p, a, inbox, x, y)
    ensures Edge(x.shared.journal, y.shared.journal)
    ensures x.shared.journal.None? && y.shared.journal.Some? ==> a.BeginCreateStep?
  {
    hide Blank, Began, CleanedUp, StartFailed;
    if !WritesJournal(a) {
      JournalUnwritten(p, a, inbox, x, y);
    }
  }

  lemma CreationOfAct(p: Proc, a: Action, inbox: Option<Frame>, s: State, y: Sight)
    requires Inv(s) && p in s.engines && Act(p, a, inbox, SightOf(s, p), y) && a.BeginCreateStep?
    requires s.shared.journal.None? && y.shared.journal.Some?
    ensures CreatedBy(s, p, y.shared.journal)
  {
    hide RecordInv, OwnersInv, LeasesInv, Blank, RecoveryInv, HonestFrame;
    assert LocalInv(p, s.shared, s.engines[p]);
  }

  lemma JournalOfStep(s: State, step: Step, t: State)
    requires Inv(s) && Next(s, step, t)
    ensures Edge(s.shared.journal, t.shared.journal)
    ensures s.shared.journal.None? && t.shared.journal.Some? ==> step.Local? && CreatedBy(s, step.p, t.shared.journal)
  {
    hide Inv, Act, Good, SightOf, Synced, CreatedBy, InboxOf;
    if step.Local? {
      SightGood(s, step.p);
      SameShared(s, step.p);
      JournalOfAct(step.p, step.action, InboxOf(s, step.p), SightOf(s, step.p), step.after);
      if s.shared.journal.None? && t.shared.journal.Some? {
        CreationOfAct(step.p, step.action, InboxOf(s, step.p), s, step.after);
      }
    } else if step.RecoverSync? || step.RecoverCommit? {
      SameShared(s, s.recoveries[step.id].proc);
    }
  }

  lemma SameShared(s: State, p: Proc)
    requires p in s.engines
    ensures SightOf(s, p).shared == s.shared && SightOf(s, p).engine == s.engines[p]
  {
  }

  // ---- whole-run life of a record ----

  /** Every step moves the record along Pending -> (Stopping | Attached, rebinds)
      -> missing, and a new record is written only by a process that holds the
      issuer lease, for its current intent, with the journal missing and no
      OS-stop fence raised. */
  lemma RecordLife(states: seq<State>, steps: seq<Step>, n: nat)
    requires Run(states, steps) && n < |steps|
    ensures Edge(states[n].shared.journal, states[n + 1].shared.journal)
    ensures states[n].shared.journal.None? && states[n + 1].shared.journal.Some? ==>
              steps[n].Local? && CreatedBy(states[n], steps[n].p, states[n + 1].shared.journal)
  {
    hide Inv, CreatedBy, Next, Edge;
    InvAlways(states, steps, n);
    assert Next(states[n], steps[n], states[n + 1]);
    JournalOfStep(states[n], steps[n], states[n + 1]);
  }

  lemma HistoryOfStep(s: State, step: Step, t: State)
    requires Inv(s) && Next(s, step, t)
    ensures s.shared.history.created <= t.shared.history.created && s.shared.history.deleted <= t.shared.history.deleted
    ensures s.shared.history.attached <= t.shared.history.attached && s.shared.history.stopped <= t.shared.history.stopped
    ensures s.shared.history.version <= t.shared.history.version
  {
    hide Inv, Act, Good, SightOf, Synced, InboxOf, JournalGuar;
    if step.Local? {
      SightGood(s, step.p);
      SameShared(s, step.p);
      ActSound(step.p, step.action, InboxOf(s, step.p), SightOf(s, step.p), step.after);
    } else if step.RecoverSync? || step.RecoverCommit? {
      SameShared(s, s.recoveries[step.id].proc);
    }
  }

  lemma {:induction false} HistoryGrows(states: seq<State>, steps: seq<Step>, m: nat, n: nat)
    requires Run(states, steps) && m <= n < |states|
    ensures var h, k := states[m].shared.history, states[n].shared.history;
            && h.created <= k.created && h.deleted <= k.deleted && h.attached <= k.attached && h.stopped <= k.stopped
            && h.version <= k.version
  {
    hide Inv, Next;
    if m < n {
      HistoryGrows(states, steps, m, n - 1);
      InvAlways(states, steps, n - 1);
      assert Next(states[n - 1], steps[n - 1], states[n]);
      HistoryOfStep(states[n - 1], steps[n - 1], states[n]);
    }
  }

  lemma RecordFacts(states: seq<State>, steps: seq<Step>, n: nat)
    requires Run(states, steps) && n < |states|
    ensures RecordInv(states[n].shared) && OwnersInv(states[n].shared)
  {
    InvAlways(states, steps, n);
  }

  /** Once an attempt's record is gone, it never comes back. */
  lemma NeverRevived(states: seq<State>, steps: seq<Step>, m: nat, k: nat, n: nat, attempt: string)
    requires Run(states, steps) && m <= k <= n < |states|
    requires Names(states[m].shared.journal, attempt) && !Names(states[k].shared.journal, attempt)
    ensures !Names(states[n].shared.journal, attempt)
  {
    hide Next, OwnersInv;
    RecordFacts(states, steps, m);
    RecordFacts(states, steps, k);
    RecordFacts(states, steps, n);
    HistoryGrows(states, steps, m, k);
    HistoryGrows(states, steps, k, n);
  }

  // ---- the race of a stop against a late Want ----

  predicate InPhase(s: State, attempt: string, phase: Phase) {
    Names(s.shared.journal, attempt) && s.shared.journal.value.phase == phase
  }

  /** Fenced and attached exclude each other over the whole run, in either order. */
  lemma FencedNeverAttached(states: seq<State>, steps: seq<Step>, m: nat, n: nat, attempt: string)
    requires Run(states, steps) && m < |states| && n < |states|
    requires InPhase(states[m], attempt, Phase.Stopping)
    ensures !InPhase(states[n], attempt, Phase.Attached)
  {
    hide Next, OwnersInv;
    RecordFacts(states, steps, m);
    RecordFacts(states, steps, n);
    if m <= n {
      HistoryGrows(states, steps, m, n);
    } else {
      HistoryGrows(states, steps, n, m);
    }
  }

  /** The compare-and-swap of a bind succeeds: from here the bind can return. */
  predicate BindWins(s: State, step: Step, attempt: string) {
    && step.Local? && step.action.BindSwapStep? && OpOf(s, step.p).BindSwap? && OpOf(s, step.p).attempt == attempt
    && step.after.engine.op.BindSync?
  }

  lemma SwapOfAct(p: Proc, x: Sight, y: Sight)
    requires Good(p, x) && BindSwaps(p, x, y) && y.engine.op.BindSync?
    ensures y.shared.journal.Some? && y.shared.journal.value.phase.Attached? && y.shared.journal.value.extension == Some(p)
    ensures Names(y.shared.journal, x.engine.op.attempt) && x.engine.op.attempt in y.shared.history.attached
    ensures y.engine.inner.leases.extension && y.shared.extension.holder == Some(p)
  {
    hide RecordInv, OwnersInv, Blank, Honest, Freed;
  }

  lemma SwapAttaches(s: State, step: Step, t: State, attempt: string)
    requires Inv(s) && Next(s, step, t) && BindWins(s, step, attempt)
    ensures InPhase(t, attempt, Phase.Attached) && OwnedBy(t.shared.journal, step.p)
    ensures t.engines[step.p].inner.leases.extension && t.shared.extension.holder == Some(step.p)
    ensures t.shared.history.attached >= {attempt}
  {
    hide Inv, Good, BindSwaps, LaneOf, WithLane;
    SightGood(s, step.p);
    SwapOfAct(step.p, SightOf(s, step.p), step.after);
  }

  /** If the fence wins, no bind of that attempt, earlier, in flight or later, wins. */
  lemma StopBeatsBind(states: seq<State>, steps: seq<Step>, m: nat, n: nat, attempt: string)
    requires Run(states, steps) && m < |states| && n < |steps|
    requires InPhase(states[m], attempt, Phase.Stopping)
    ensures !BindWins(states[n], steps[n], attempt)
  {
    hide Inv, Next, OwnersInv, BindWins, InPhase;
    InvAlways(states, steps, n);
    assert Next(states[n], steps[n], states[n + 1]);
    if BindWins(states[n], steps[n], attempt) {
      SwapAttaches(states[n], steps[n], states[n + 1], attempt);
      FencedNeverAttached(states, steps, m, n + 1, attempt);
    }
  }

  /** The claim raises the OS-stop fence for an attempt it found in the journal. */
  predicate ClaimWins(s: State, step: Step) {
    && step.Local? && step.p in s.engines
    && var op, j := s.engines[step.p].op, s.shared.journal;
    || (&& step.action.ClaimFenceStep? && op.ClaimFence?
        && (!op.owner.phase.Pending? || FencePendingStop(j, op.owner.attempt, op.owner.issuer).1.Yes?))
    || (&& step.action.ClaimRereadStep? && op.ClaimReread?
        && Names(j, op.owner.attempt) && !j.value.phase.Pending?)
  }

  function ClaimedOwner(s: State, step: Step): Record
    requires ClaimWins(s, step)
  {
    s.engines[step.p].op.owner
  }

  /** The claimant had the attempt as its own when it read the journal. */
  predicate ClaimIsHot(s: State, step: Step)
    requires ClaimWins(s, step)
  {
    s.engines[step.p].op.hot
  }

  lemma FenceRaised(p: Proc, x: Sight, y: Sight)
    requires Good(p, x) && ((ClaimFences(x, y) && y == Claimed(x, x.engine.op.epoch, x.engine.op.owner.attempt).(shared := y.shared))
             || (ClaimRereads(x, y) && y == Claimed(x, x.engine.op.epoch, x.engine.op.owner.attempt)))
    requires ClaimFences(x, y) && x.engine.op.owner.phase.Pending? ==>
               FencePendingStop(x.shared.journal, x.engine.op.owner.attempt, x.engine.op.owner.issuer).1.Yes?
    requires ClaimRereads(x, y) ==> Names(x.shared.journal, x.engine.op.owner.attempt) && !x.shared.journal.value.phase.Pending?
    ensures var op, e := x.engine.op, y.engine;
            && e.osStop == OsStop(e.intentEpoch, op.owner.attempt, false)
            && (op.owner.attempt in y.shared.history.stopped || op.owner.attempt in y.shared.history.attached)
            && (op.hot <==> e.inner.start.attempt == op.owner.attempt)
            && (op.hot ==> e.inner.start.stopRequested)
  {
    hide OwnersInv, LeasesInv, Blank;
  }

  lemma ClaimRaisesFence(s: State, step: Step, t: State)
    requires Inv(s) && Next(s, step, t) && ClaimWins(s, step)
    ensures var a, e := ClaimedOwner(s, step).attempt, t.engines[step.p];
            && e.osStop == OsStop(e.intentEpoch, a, false)
            && (a in t.shared.history.stopped || a in t.shared.history.attached)
            && (ClaimIsHot(s, step) <==> e.inner.start.attempt == a)
            && (ClaimIsHot(s, step) ==> e.inner.start.stopRequested)
  {
    hide Inv, Good, LaneOf, WithLane;
    SightGood(s, step.p);
    FenceRaised(step.p, SightOf(s, step.p), step.after);
  }

  /** A claim that succeeds leaves one of two situations: the attempt was fenced,
      and no bind of it ever wins; or it was attached, and then the claimant holds
      the stop request for it exactly when the claim was not cold. */
  lemma ClaimDecides(states: seq<State>, steps: seq<Step>, n: nat)
    requires Run(states, steps) && n < |steps| && ClaimWins(states[n], steps[n])
    ensures var a, e := ClaimedOwner(states[n], steps[n]).attempt, states[n + 1].engines[steps[n].p];
            && e.osStop == OsStop(e.intentEpoch, a, false)
            && ((forall k | 0 <= k < |steps| :: !BindWins(states[k], steps[k], a))
                || a in states[n + 1].shared.history.attached)
            && (e.inner.start.attempt == a <==> ClaimIsHot(states[n], steps[n]))
            && (e.inner.start.attempt == a ==> e.inner.start.stopRequested)
  {
    hide Inv, Next, BindWins, ClaimWins, InPhase, OwnersInv;
    InvAlways(states, steps, n);
    assert Next(states[n], steps[n], states[n + 1]);
    ClaimRaisesFence(states[n], steps[n], states[n + 1]);
    var a := ClaimedOwner(states[n], steps[n]).attempt;
    if a in states[n + 1].shared.history.stopped {
      forall k | 0 <= k < |steps| ensures !BindWins(states[k], steps[k], a) {
        StoppedNeverBinds(states, steps, n + 1, k, a);
      }
    }
  }

  lemma StoppedNeverBinds(states: seq<State>, steps: seq<Step>, m: nat, k: nat, attempt: string)
    requires Run(states, steps) && m < |states| && k < |steps| && attempt in states[m].shared.history.stopped
    ensures !BindWins(states[k], steps[k], attempt)
  {
    hide Inv, Next, OwnersInv, BindWins, InPhase;
    InvAlways(states, steps, k);
    assert Next(states[k], steps[k], states[k + 1]);
    if BindWins(states[k], steps[k], attempt) {
      SwapAttaches(states[k], steps[k], states[k + 1], attempt);
      var last := if m <= k + 1 then k + 1 else m;
      HistoryGrows(states, steps, m, last);
      HistoryGrows(states, steps, k + 1, last);
      RecordFacts(states, steps, last);
    }
  }

  // ---- one Extension at a time ----

  /** At every moment at most one process holds the Extension lease from a
      completed bind; the record exists and names it, and a live recorded owner
      always is that process. */
  lemma ExtensionExclusion(states: seq<State>, steps: seq<Step>, n: nat, p: Proc)
    requires Run(states, steps) && n < |states| && p in states[n].engines
    ensures var s, i := states[n], states[n].engines[p].inner;
      && (i.leases.extension ==>
            && !s.engines[p].ui && s.shared.extension.holder == Some(p)
            && (forall q | q in s.engines && s.engines[q].inner.leases.extension :: q == p))
      && (i.leases.extension <==> OwnedBy(s.shared.journal, p))
      && (i.leases.extension ==> Names(s.shared.journal, i.start.attempt))
  {
    hide RecoveryInv, HonestFrame, OpInv;
    InvAlways(states, steps, n);
    assert LocalInv(p, states[n].shared, states[n].engines[p]);
  }

  /** How a step changed the journal, as the guarantee of whoever took it. */
  lemma StepGuar(s: State, step: Step, t: State)
    requires Inv(s) && Next(s, step, t)
    ensures s.shared.journal == t.shared.journal || exists p :: p in s.engines && Guar(p, s.shared, t.shared)
    ensures OwnershipOf(t.shared.journal) != OwnershipOf(s.shared.journal) ==> s.shared.history.version < t.shared.history.version
  {
    hide Inv, Act, Good, SightOf, Synced, InboxOf, Guar, RecordInv;
    if step.Local? {
      SightGood(s, step.p);
      SameShared(s, step.p);
      ActSound(step.p, step.action, InboxOf(s, step.p), SightOf(s, step.p), step.after);
      VersionOfGuar(step.p, s.shared, t.shared);
    } else if step.RecoverSync? || step.RecoverCommit? {
      SameShared(s, s.recoveries[step.id].proc);
    } else if step.RecoverDelete? && t.shared != s.shared {
      RecoveredGuar(s, step.id);
    }
  }

  lemma VersionOfGuar(p: Proc, s: Shared, t: Shared)
    requires Guar(p, s, t)
    ensures OwnershipOf(t.journal) != OwnershipOf(s.journal) ==> s.history.version < t.history.version
  {
  }

  lemma RecoveredGuar(s: State, id: nat)
    requires Inv(s) && AtRecovery(s, id) && s.recoveries[id].at.MustDelete?
    ensures var p, t := s.recoveries[id].proc, RecoveryDeleted(s.recoveries[id], s.shared).0;
            t != s.shared ==> Guar(p, s.shared, t)
  {
    hide RecordInv, OwnersInv, HonestFrame, RecoveryInv, Guar, LeasesInv, OpInv;
    var p := s.recoveries[id].proc;
    assert LocalInv(p, s.shared, s.engines[p]);
    if RecoveryDeleted(s.recoveries[id], s.shared).0 != s.shared {
      DeletesDead(s.shared, s.recoveries[id]);
      SetJournalSound(p, s.shared, None);
    }
  }

  /** A rebind never displaces a living Extension: a recorded owner is replaced by
      another one only after its process died. */
  lemma RebindDisplacesNobody(states: seq<State>, steps: seq<Step>, n: nat)
    requires Run(states, steps) && n < |steps|
    requires states[n].shared.journal.Some? && states[n + 1].shared.journal.Some?
    requires states[n].shared.journal.value.extension.Some?
    requires states[n].shared.journal.value.extension != states[n + 1].shared.journal.value.extension
    ensures states[n].shared.journal.value.extension.value !in states[n].engines
  {
    hide Next, OwnersInv;
    InvAlways(states, steps, n);
    RecordFacts(states, steps, n + 1);
    assert Next(states[n], steps[n], states[n + 1]);
    StepGuar(states[n], steps[n], states[n + 1]);
  }

  // ---- recovery after a confirmed stop ----

  lemma {:induction false} SameVersionSameOwner(states: seq<State>, steps: seq<Step>, m: nat, n: nat)
    requires Run(states, steps) && m <= n < |states|
    requires states[m].shared.history.version == states[n].shared.history.version
    ensures OwnershipOf(states[m].shared.journal) == OwnershipOf(states[n].shared.journal)
  {
    hide Inv, Next, OwnershipOf;
    if m < n {
      HistoryGrows(states, steps, m, n - 1);
      HistoryGrows(states, steps, n - 1, n);
      SameVersionSameOwner(states, steps, m, n - 1);
      InvAlways(states, steps, n - 1);
      assert Next(states[n - 1], steps[n - 1], states[n]);
      StepGuar(states[n - 1], steps[n - 1], states[n]);
    }
  }

  /** Recovery `id` last read the journal at step `m`. */
  ghost predicate LastReadAt(steps: seq<Step>, id: nat, m: nat, n: nat) {
    m < n <= |steps| && steps[m] == RecoverRead(id) && forall k | m < k < n :: steps[k] != RecoverRead(id)
  }

  function VersionRead(at: Point): Option<nat> {
    match at
    case MustObserve(_, version) => Some(version)
    case MustDelete(_, _, _, version) => Some(version)
    case _ => None
  }

  lemma {:induction false} VersionFromRead(states: seq<State>, steps: seq<Step>, id: nat, m: nat, n: nat)
    requires Run(states, steps) && n < |states| && LastReadAt(steps, id, m, n)
    ensures id in states[n].recoveries && VersionRead(states[n].recoveries[id].at).Some? ==>
              VersionRead(states[n].recoveries[id].at).value == states[m].shared.history.version
  {
    hide Act, SightOf, InboxOf, Synced, Committed, WithLane;
    assert Next(states[n - 1], steps[n - 1], states[n]);
    if m + 1 < n {
      VersionFromRead(states, steps, id, m, n - 1);
    }
  }

  /** A recovery deletes only what it proved: from its last read of the journal to
      its successful delete the ownership did not change, the process whose
      released lease was the proof is dead, and without such a proof no Extension
      had adopted the record. */
  lemma RecoveryDeletesOnlyProven(states: seq<State>, steps: seq<Step>, id: nat, m: nat, n: nat, k: nat)
    requires Run(states, steps) && n < |steps| && LastReadAt(steps, id, m, n) && m <= k <= n
    requires steps[n] == RecoverDelete(id)
    requires states[n].shared.journal.Some? && states[n + 1].shared.journal.None?
    ensures var s, r := states[n], states[n].recoveries[id];
            && OwnershipOf(states[k].shared.journal) == OwnershipOf(s.shared.journal)
            && OwnershipOf(s.shared.journal) == Some(Ownership(r.attempt, r.at.issuer, r.at.extension))
            && (r.at.released.Some? ==>
                  && r.at.released.value !in s.engines
                  && r.at.released.value == if r.at.extension.Some? then r.at.extension.value else r.at.issuer)
  {
    hide OwnersInv, LocalInv, HonestFrame, RecoveryInv;
    InvAlways(states, steps, n);
    assert Next(states[n], steps[n], states[n + 1]);
    VersionFromRead(states, steps, id, m, n);
    HistoryGrows(states, steps, m, k);
    HistoryGrows(states, steps, k, n);
    DeleteProven(states[n], id);
    SameVersionSameOwner(states, steps, k, n);
  }

  lemma DeleteProven(s: State, id: nat)
    requires Inv(s) && id in s.recoveries && s.recoveries[id].at.MustDelete?
    requires RecoveryDeleted(s.recoveries[id], s.shared).0.journal != s.shared.journal
    ensures var r := s.recoveries[id];
            && r.at.version == s.shared.history.version
            && OwnershipOf(s.shared.journal) == Some(Ownership(r.attempt, r.at.issuer, r.at.extension))
            && (r.at.released.Some? ==>
                  && r.at.released.value !in s.shared.alive
                  && r.at.released.value == if r.at.extension.Some? then r.at.extension.value else r.at.issuer)
  {
    hide OwnersInv, LocalInv, HonestFrame;
  }

  /** After a delete, by whomever, every compare-and-swap of a bind that was still
      in flight for the attempt fails, and so does every later one. */
  lemma DeleteBeatsBind(states: seq<State>, steps: seq<Step>, m: nat, n: nat, attempt: string)
    requires Run(states, steps) && m < n < |steps|
    requires Names(states[m].shared.journal, attempt) && !Names(states[m + 1].shared.journal, attempt)
    ensures !BindWins(states[n], steps[n], attempt)
  {
    hide Inv, Next, OwnersInv, BindWins;
    InvAlways(states, steps, n);
    assert Next(states[n], steps[n], states[n + 1]);
    if BindWins(states[n], steps[n], attempt) {
      SwapAttaches(states[n], steps[n], states[n + 1], attempt);
      NeverRevived(states, steps, m, m + 1, n + 1, attempt);
    }
  }

  // ---- the OS-stop fence ----

  /** The exact completion of the stop that is in flight. */
  predicate CompletesStop(s: State, step: Step, p: Proc) {
    && step.Local? && step.p == p && p in s.engines && step.action.OsStopComplete?
    && s.engines[p].osStop == OsStop(step.action.epoch, step.action.attempt, true)
  }

  /** The steps that write the OS-stop fence. */
  predicate WritesFence(a: Action) {
    || a.ClaimReadStep? || a.ClaimFenceStep? || a.ClaimRereadStep? || a.OsStopBegin? || a.OsStopComplete? || a.OsStopFail?
  }

  lemma FenceUnwritten(p: Proc, a: Action, inbox: Option<Frame>, x: Sight, y: Sight)
    requires Act(p, a, inbox, x, y) && !WritesFence(a)
    ensures y.engine.osStop == x.engine.osStop
  {
    hide Synced, Persisted, Published, Freed, SetJournal, Swapped, CreatePending, DeleteExact, DeletePending, Observe, Blank;
  }

  lemma FenceClaimed(p: Proc, a: Action, inbox: Option<Frame>, x: Sight, y: Sight)
    requires Good(p, x) && Act(p, a, inbox, x, y) && x.engine.osStop.epoch != 0
    requires a.ClaimReadStep? || a.ClaimFenceStep? || a.ClaimRereadStep?
    ensures y.engine.osStop.epoch != 0 && y.engine.osStop.attempt == x.engine.osStop.attempt
  {
    hide Freed, SetJournal, FencePendingStop, OwnersInv, LeasesInv, RecordInv, Honest;
  }

  lemma FenceOfAct(p: Proc, a: Action, inbox: Option<Frame>, x: Sight, y: Sight)
    requires Good(p, x) && Act(p, a, inbox, x, y) && x.engine.osStop.epoch != 0
    ensures || (y.engine.osStop.epoch != 0 && y.engine.osStop.attempt == x.engine.osStop.attempt)
            || (a.OsStopComplete? && x.engine.osStop == OsStop(a.epoch, a.attempt, true))
  {
    hide Good;
    if !WritesFence(a) {
      hide Act;
      FenceUnwritten(p, a, inbox, x, y);
    } else if a.ClaimReadStep? || a.ClaimFenceStep? || a.ClaimRereadStep? {
      hide Act;
      FenceClaimed(p, a, inbox, x, y);
    }
  }

  lemma FenceOfStep(s: State, step: Step, t: State, p: Proc)
    requires Inv(s) && Next(s, step, t) && p in s.engines && p in t.engines && s.engines[p].osStop.epoch != 0
    ensures || (t.engines[p].osStop.epoch != 0 && t.engines[p].osStop.attempt == s.engines[p].osStop.attempt)
            || CompletesStop(s, step, p)
  {
    hide Act, Good, LaneOf, Synced, InboxOf, RecordInv, LocalInv, RecoveryInv, HonestFrame;
    if step.Local? {
      SightGood(s, step.p);
      SameShared(s, step.p);
      if step.p == p {
        FenceOfAct(p, step.action, InboxOf(s, p), SightOf(s, p), step.after);
      }
    }
  }

  /** The attempt of a raised OS-stop fence is constant, over retries, repeated
      claims and any other operation, until that very stop is confirmed. */
  lemma {:induction false} FenceIsConstant(states: seq<State>, steps: seq<Step>, p: Proc, m: nat, n: nat)
    requires Run(states, steps) && m <= n < |states|
    requires forall k | m <= k <= n :: p in states[k].engines
    requires forall k | m <= k < n :: !CompletesStop(states[k], steps[k], p)
    requires states[m].engines[p].osStop.epoch != 0
    ensures states[n].engines[p].osStop.epoch != 0
    ensures states[n].engines[p].osStop.attempt == states[m].engines[p].osStop.attempt
  {
    hide Inv, Next, CompletesStop;
    if m < n {
      FenceIsConstant(states, steps, p, m, n - 1);
      InvAlways(states, steps, n - 1);
      assert Next(states[n - 1], steps[n - 1], states[n]);
      FenceOfStep(states[n - 1], steps[n - 1], states[n], p);
    }
  }

  // ---- cleanup ----

  /** Wherever an engine or a lane says that an attempt was cleaned up, its record
      is gone, and stays gone. */
  lemma CleanupIsProof(states: seq<State>, steps: seq<Step>, m: nat, n: nat, start: Start)
    requires Run(states, steps) && m <= n < |states| && start.attempt != "" && start.cleanupComplete
    requires || (exists p :: p in states[m].engines && states[m].engines[p].inner.start == start)
             || (exists q :: q in states[m].regions && states[m].regions[q].ui.Some? && states[m].regions[q].ui.value.start == start)
             || (exists q :: q in states[m].regions && states[m].regions[q].extension.Some?
                             && states[m].regions[q].extension.value.start == start)
    ensures !Names(states[n].shared.journal, start.attempt)
  {
    hide Next, OwnersInv, RecoveryInv, LeasesInv, OpInv;
    InvAlways(states, steps, m);
    assert Honest(states[m].shared, start);
    HistoryGrows(states, steps, m, n);
    RecordFacts(states, steps, n);
  }

  /** The branch of a bind that reacquires the lease of a process the record already
      names is never entered without the lease: it would have no compare-and-swap
      to fail. */
  lemma NoBlindReacquire(states: seq<State>, steps: seq<Step>, n: nat, p: Proc)
    requires Run(states, steps) && n < |states| && p in states[n].engines
    requires states[n].engines[p].op.BindLock? || states[n].engines[p].op.BindWrite? || states[n].engines[p].op.BindSwap?
    ensures states[n].engines[p].op.owner.extension != Some(p)
  {
    hide RecordInv, OwnersInv, RecoveryInv, HonestFrame, LeasesInv;
    InvAlways(states, steps, n);
    assert LocalInv(p, states[n].shared, states[n].engines[p]);
  }
}
