/** How a stop request travels from the claim through the UI lane to the Extension
    that serves the attempt. */
module StopDelivery {
  import opened Lists
  import opened Strings
  import opened EngineState
  import opened OwnerJournal
  import opened OwnershipProtocol
  import opened StopFence
  import opened OwnershipInvariant
  import opened OwnershipSteps
  import opened OwnershipSafety
  import opened OwnershipTheorems
  import SessionGeneration

  // ---- the lane of a UI process, and what an Extension saw of it ----

  predicate Carries(lane: Option<Frame>, attempt: string) {
    lane.Some? && lane.value.start.attempt == attempt && lane.value.start.stopRequested
  }

  /** Revisions in a lane never run ahead of its writer, and a published stop
      request is one the writer still has. */
  predicate LaneInv(e: Engine, lane: Option<Frame>) {
    && (lane.Some? ==> 0 < lane.value.updatedAt <= e.inner.localUpdatedAt)
    && (e.inner.start.attempt != "" && Carries(lane, e.inner.start.attempt) ==> e.inner.start.stopRequested)
    && ((e.op.ClaimFence? || e.op.ClaimReread?) && e.op.hot ==> Carries(lane, e.op.owner.attempt))
  }

  /** An Extension has merged the newest frame of its UI lane, or will: except
      between the two sections of an attachment, when it may still compare with the
      revision of the previous lane. */
  predicate LinkInv(e: Engine, lane: Option<Frame>) {
    || e.attaching
    || (&& (lane.None? ==> e.inner.link.updatedAt == 0)
        && (lane.Some? ==>
              && 0 < lane.value.updatedAt
              && e.inner.link.updatedAt <= lane.value.updatedAt
              && (e.inner.link.updatedAt == lane.value.updatedAt && lane.value.start.attempt != "" ==>
                    && e.inner.start.attempt == lane.value.start.attempt
                    && (lane.value.start.stopRequested ==> e.inner.start.stopRequested))))
  }

  ghost predicate TalkInv(s: State) {
    && s.regions.Keys <= s.shared.used
    && (forall q | q in s.regions && s.regions[q].ui.Some? :: 0 < s.regions[q].ui.value.updatedAt)
    && (forall p | p in s.engines && s.engines[p].ui :: p in s.regions && LaneInv(s.engines[p], s.regions[p].ui))
    && (forall p | p in s.engines && !s.engines[p].ui ::
          (s.engines[p].peer.Some? ==> s.engines[p].peer.value in s.regions) && LinkInv(s.engines[p], InboxOf(s, p)))
  }

  // ---- merges ----

  /** A UI merge keeps attempt, revision and stop request. */
  lemma UiMerge(i: Inner, expected: Option<string>, r: Frame, now: nat)
    ensures var j := Merge(i, true, expected, r, now);
      && j.start.attempt == i.start.attempt && j.localUpdatedAt == i.localUpdatedAt
      && (i.start.stopRequested ==> j.start.stopRequested)
  {
    hide Merge;
    MergeProgress(i, true, expected, r, now);
    MergeConcerns(i, true, expected, r, now);
    MergeRevision(i, true, expected, r, now);
  }

  lemma MergeRevision(i: Inner, isUi: bool, expected: Option<string>, r: Frame, now: nat)
    ensures Merge(i, isUi, expected, r, now).localUpdatedAt == i.localUpdatedAt
  {
    hide MergeView, MergeStart, MergeActivity, Watchdog, Stamped;
  }

  /** An Extension merge of the newest frame leaves nothing of it to be merged. */
  lemma ExtensionMerge(e: Engine, expected: Option<string>, r: Frame, now: nat)
    requires !e.ui && LinkInv(e, Some(r))
    ensures var j := Merge(e.inner, false, expected, r, now);
      && LinkInv(e.(inner := j), Some(r))
      && (!e.attaching && j.start.attempt == r.start.attempt != "" && r.start.stopRequested ==> j.start.stopRequested)
  {
    hide MergeView;
  }

  // ---- steps ----

  /** What a process may do to its own revision and its own lane. */
  predicate Speaks(x: Sight, y: Sight) {
    && y.engine.ui == x.engine.ui && y.engine.peer == x.engine.peer
    && (y.lane == x.lane || (y.lane.Some? && x.engine.inner.localUpdatedAt < y.lane.value.updatedAt))
  }

  predicate Begins(a: Action) {
    a.BeginReadStep? || a.BeginLockStep? || a.BeginWriteStep?
  }

  predicate Claims(a: Action) {
    a.ClaimReadStep? || a.ClaimFenceStep? || a.ClaimRereadStep?
  }

  predicate Syncs(a: Action) {
    a.BeginStart? || a.ClaimStart? || a.FailStart? || a.CompleteStart? || a.Sync? || a.BindStart? || a.BindSyncStep?
  }

  predicate Publishes(a: Action) {
    a.Publish? || a.ClaimPublishStep? || a.GuardPublishStep?
  }

  /** A claim that relies on a published request had published it before. */
  predicate HotKept(before: Op, after: Op) {
    (after.ClaimFence? || after.ClaimReread?) && after.hot ==>
      before == after || (before.ClaimFence? && before.hot && before.owner == after.owner)
  }

  /** A silent step: it publishes and merges nothing, and keeps what was said. */
  predicate Steady(x: Sight, y: Sight) {
    var e, f := x.engine, y.engine;
    && f.ui == e.ui && f.peer == e.peer && f.attaching == e.attaching && y.lane == x.lane
    && f.inner.link.updatedAt == e.inner.link.updatedAt && e.inner.localUpdatedAt <= f.inner.localUpdatedAt
    && (f.inner.start.attempt == e.inner.start.attempt || (e.ui && f.inner.start.attempt == ""))
    && (e.inner.start.stopRequested ==> f.inner.start.stopRequested)
    && HotKept(e.op, f.op)
  }

  lemma SteadyKeeps(x: Sight, y: Sight, inbox: Option<Frame>)
    requires Steady(x, y)
    ensures Speaks(x, y)
    ensures LaneInv(x.engine, x.lane) ==> LaneInv(y.engine, y.lane)
    ensures !x.engine.ui && LinkInv(x.engine, inbox) ==> LinkInv(y.engine, inbox)
  {
  }

  predicate Deletes(a: Action) {
    a.CompleteDeleteStep? || a.FailDeleteStep?
  }

  predicate Binds(a: Action) {
    a.BindReadStep? || a.BindObserveStep? || a.BindLockStep? || a.BindWriteStep? || a.BindSwapStep?
  }

  lemma BindsSteady(p: Proc, a: Action, inbox: Option<Frame>, x: Sight, y: Sight)
    requires Act(p, a, inbox, x, y) && (Binds(a) || Begins(a))
    ensures Steady(x, y)
  {
    hide Blank, SetJournal, Swapped, Observe, Freed;
  }

  lemma ClaimsSteady(p: Proc, a: Action, inbox: Option<Frame>, x: Sight, y: Sight)
    requires Act(p, a, inbox, x, y) && Claims(a)
    ensures Steady(x, y)
  {
    hide SetJournal, FencePendingStop, Freed;
  }

  lemma LooksSteady(p: Proc, a: Action, inbox: Option<Frame>, x: Sight, y: Sight)
    requires Act(p, a, inbox, x, y) && (a.CompleteReadStep? || a.GuardLockStep? || a.GuardReadStep?)
    ensures Steady(x, y)
  {
  }

  lemma DeletesSteady(p: Proc, a: Action, inbox: Option<Frame>, x: Sight, y: Sight)
    requires Act(p, a, inbox, x, y) && Deletes(a)
    ensures Steady(x, y)
  {
    hide SetJournal, DeleteExact, DeletePending, Freed;
  }

  lemma OthersSteady(p: Proc, a: Action, inbox: Option<Frame>, x: Sight, y: Sight)
    requires Act(p, a, inbox, x, y)
    requires || a.Move? || a.PrepareConnect? || a.AdvanceIntent? || a.OsStopBegin? || a.OsStopComplete? || a.OsStopFail? || a.Abort?
             || a.Validate?
    ensures Steady(x, y)
  {
  }

  lemma SilentSteady(p: Proc, a: Action, inbox: Option<Frame>, x: Sight, y: Sight)
    requires Act(p, a, inbox, x, y) && !Syncs(a) && !Publishes(a) && !a.BeginCreateStep?
    ensures Steady(x, y)
  {
    hide Act, Steady;
    if Binds(a) || Begins(a) {
      BindsSteady(p, a, inbox, x, y);
    } else if Deletes(a) {
      DeletesSteady(p, a, inbox, x, y);
    } else if Claims(a) {
      ClaimsSteady(p, a, inbox, x, y);
    } else if a.CompleteReadStep? || a.GuardLockStep? || a.GuardReadStep? {
      LooksSteady(p, a, inbox, x, y);
    } else {
      OthersSteady(p, a, inbox, x, y);
    }
  }

  /** The operations of an Extension do not run in a UI process. */
  lemma UiNeverBinds(p: Proc, a: Action, inbox: Option<Frame>, x: Sight, y: Sight)
    requires Good(p, x) && Act(p, a, inbox, x, y) && x.engine.ui
    ensures !a.BindStart? && !a.CompleteStart? && !a.BindSyncStep?
  {
    hide RecordInv, OwnersInv, LeasesInv, Honest, Synced;
  }

  lemma UiSyncs(p: Proc, a: Action, inbox: Option<Frame>, x: Sight, y: Sight)
    requires Act(p, a, inbox, x, y) && x.engine.ui && LaneInv(x.engine, x.lane)
    requires a.BeginStart? || a.ClaimStart? || a.FailStart? || a.Sync?
    ensures Speaks(x, y) && LaneInv(y.engine, y.lane)
  {
    hide Merge, Freed;
    if inbox.Some? {
      UiMerge(x.engine.inner, None, inbox.value, a.now);
    }
  }

  lemma UiPublishes(p: Proc, a: Action, inbox: Option<Frame>, x: Sight, y: Sight)
    requires Good(p, x) && Act(p, a, inbox, x, y) && x.engine.ui && LaneInv(x.engine, x.lane)
    requires Publishes(a)
    ensures Speaks(x, y) && LaneInv(y.engine, y.lane)
  {
    hide OwnersInv, RecordInv, LeasesInv, Honest, Good;
    assert a.ClaimPublishStep? ==> Claiming(x.shared, x.engine, x.engine.op.epoch, x.engine.op.owner, true) by {
      GoodParts(p, x);
    }
  }

  /** A new attempt cannot be in the lane already. */
  lemma UiCreates(p: Proc, a: Action, inbox: Option<Frame>, x: Sight, y: Sight)
    requires Good(p, x) && Act(p, a, inbox, x, y) && a.BeginCreateStep? && x.engine.ui && LaneInv(x.engine, x.lane)
    ensures Speaks(x, y) && LaneInv(y.engine, y.lane)
  {
    hide OwnersInv, LeasesInv, SetJournal, Blank;
  }

  /** Nor does an Extension create records, and if it did it would start over. */
  lemma ExtensionCreates(p: Proc, a: Action, inbox: Option<Frame>, x: Sight, y: Sight)
    requires Act(p, a, inbox, x, y) && !x.engine.ui && LinkInv(x.engine, inbox) && a.BeginCreateStep?
    ensures Speaks(x, y) && LinkInv(y.engine, inbox)
  {
    hide Blank, SetJournal, CreatePending, Freed;
  }

  lemma ExtensionSyncs(p: Proc, a: Action, inbox: Option<Frame>, x: Sight, y: Sight)
    requires Act(p, a, inbox, x, y) && !x.engine.ui && LinkInv(x.engine, inbox) && Syncs(a)
    ensures Speaks(x, y) && LinkInv(y.engine, inbox)
  {
    hide Merge, Freed;
    if inbox.Some? {
      ExtensionMerge(x.engine, if a.BindStart? then Some(a.attempt) else None, inbox.value, a.now);
    }
  }

  lemma ExtensionPublishes(p: Proc, a: Action, inbox: Option<Frame>, x: Sight, y: Sight)
    requires Act(p, a, inbox, x, y) && !x.engine.ui && LinkInv(x.engine, inbox) && Publishes(a)
    ensures Speaks(x, y) && LinkInv(y.engine, inbox)
  {
  }

  lemma UiStep(p: Proc, a: Action, inbox: Option<Frame>, x: Sight, y: Sight)
    requires Good(p, x) && Act(p, a, inbox, x, y) && x.engine.ui && LaneInv(x.engine, x.lane)
    ensures Speaks(x, y) && LaneInv(y.engine, y.lane)
  {
    hide Act, Good, LaneInv, Speaks, Steady;
    UiNeverBinds(p, a, inbox, x, y);
    if Syncs(a) {
      UiSyncs(p, a, inbox, x, y);
    } else if Publishes(a) {
      UiPublishes(p, a, inbox, x, y);
    } else if a.BeginCreateStep? {
      UiCreates(p, a, inbox, x, y);
    } else {
      SilentSteady(p, a, inbox, x, y);
      SteadyKeeps(x, y, inbox);
    }
  }

  lemma ExtensionStep(p: Proc, a: Action, inbox: Option<Frame>, x: Sight, y: Sight)
    requires Act(p, a, inbox, x, y) && !x.engine.ui && LinkInv(x.engine, inbox)
    ensures Speaks(x, y) && LinkInv(y.engine, inbox)
  {
    hide Act, LinkInv, Speaks, Steady;
    if Syncs(a) {
      ExtensionSyncs(p, a, inbox, x, y);
    } else if Publishes(a) {
      ExtensionPublishes(p, a, inbox, x, y);
    } else if a.BeginCreateStep? {
      ExtensionCreates(p, a, inbox, x, y);
    } else {
      SilentSteady(p, a, inbox, x, y);
      SteadyKeeps(x, y, inbox);
    }
  }

  // ---- the system ----

  lemma NewerLane(e: Engine, before: Option<Frame>, after: Option<Frame>)
    requires LinkInv(e, before) && after.Some? && 0 < after.value.updatedAt
    requires before.Some? ==> before.value.updatedAt < after.value.updatedAt
    ensures LinkInv(e, after)
  {
  }

  lemma WriterAhead(e: Engine, lane: Option<Frame>)
    requires LaneInv(e, lane)
    ensures lane.Some? ==> lane.value.updatedAt <= e.inner.localUpdatedAt
  {
  }

  /** A process that spoke leaves everybody's view of the lanes in order. */
  lemma TalkPut(s: State, p: Proc, y: Sight)
    requires s.regions.Keys <= y.shared.used && TalkInv(s) && p in s.engines
    requires Speaks(SightOf(s, p), y)
    requires y.engine.ui ==> LaneInv(y.engine, y.lane)
    requires !y.engine.ui ==> LinkInv(y.engine, InboxOf(s, p))
    ensures TalkInv(Put(s, p, y))
  {
    hide LaneInv, LinkInv;
    var t := Put(s, p, y);
    if s.engines[p].ui {
      WriterAhead(s.engines[p], s.regions[p].ui);
    }
    forall q | q in t.engines && !t.engines[q].ui ensures LinkInv(t.engines[q], InboxOf(t, q)) {
      if q != p && s.engines[p].ui && s.engines[q].peer == Some(p) && y.lane != s.regions[p].ui {
        NewerLane(s.engines[q], s.regions[p].ui, y.lane);
      } else {
        assert InboxOf(t, q) == InboxOf(s, q);
      }
    }
  }

  lemma TalkLocal(s: State, p: Proc, a: Action, y: Sight)
    requires Inv(s) && TalkInv(s) && p in s.engines && Act(p, a, InboxOf(s, p), SightOf(s, p), y)
    ensures TalkInv(Put(s, p, y))
  {
    hide Inv, Act, Good, LaneInv, Speaks, Guar, Sound;
    SightGood(s, p);
    UsedGrows(s, p, a, y);
    LinkOf(s, p);
    if s.engines[p].ui {
      UiStep(p, a, InboxOf(s, p), SightOf(s, p), y);
    } else {
      ExtensionStep(p, a, InboxOf(s, p), SightOf(s, p), y);
    }
    SpeaksSame(SightOf(s, p), y);
    TalkPut(s, p, y);
  }

  lemma SpeaksSame(x: Sight, y: Sight)
    requires Speaks(x, y)
    ensures y.engine.ui == x.engine.ui
  {
  }

  lemma UsedGrows(s: State, p: Proc, a: Action, y: Sight)
    requires Inv(s) && p in s.engines && Act(p, a, InboxOf(s, p), SightOf(s, p), y)
    ensures y.shared.used == s.shared.used
  {
    hide Inv, Act, Good, JournalGuar;
    LocalStep(s, p, a, y);
  }

  lemma LinkOf(s: State, p: Proc)
    requires TalkInv(s) && p in s.engines
    ensures if s.engines[p].ui then LaneInv(s.engines[p], LaneOf(s, p)) else LinkInv(s.engines[p], InboxOf(s, p))
  {
  }

  // ---- the other steps ----

  lemma TalkSync(s: State, p: Proc, now: nat)
    requires Inv(s) && TalkInv(s) && p in s.engines && s.engines[p].op.Ready?
    ensures TalkInv(Put(s, p, Committed(SightOf(s, p), Synced(s.engines[p], InboxOf(s, p), None, now), Ready)))
  {
    hide Inv, TalkInv, Act, Committed, Synced;
    SyncActs(p, InboxOf(s, p), SightOf(s, p), now);
    TalkLocal(s, p, Sync(now), Committed(SightOf(s, p), Synced(s.engines[p], InboxOf(s, p), None, now), Ready));
  }

  lemma RecoveredTalks(e: Engine, i: Inner, lane: Option<Frame>)
    ensures LaneInv(e.(inner := i, op := Ready), lane) ==> LaneInv(e.(inner := Recovered(i), op := Publishing), lane)
    ensures LinkInv(e.(inner := i, op := Ready), lane) ==> LinkInv(e.(inner := Recovered(i), op := Publishing), lane)
  {
  }

  lemma SyncTalks(p: Proc, inbox: Option<Frame>, x: Sight, now: nat)
    requires Good(p, x) && x.engine.op.Ready?
    requires if x.engine.ui then LaneInv(x.engine, x.lane) else LinkInv(x.engine, inbox)
    ensures var e := x.engine.(inner := Synced(x.engine, inbox, None, now), op := Ready);
            if x.engine.ui then LaneInv(e, x.lane) else LinkInv(e, inbox)
  {
    hide Good, Act, Synced, LaneInv, LinkInv;
    SyncActs(p, inbox, x, now);
    if x.engine.ui {
      UiStep(p, Sync(now), inbox, x, Committed(x, Synced(x.engine, inbox, None, now), Ready));
    } else {
      ExtensionStep(p, Sync(now), inbox, x, Committed(x, Synced(x.engine, inbox, None, now), Ready));
    }
  }

  /** Committing a recovery after its merge is one more silent change. */
  lemma TalkRecovered(s: State, p: Proc, now: nat)
    requires Inv(s) && TalkInv(s) && p in s.engines && s.engines[p].op.Ready?
    ensures var i := Synced(s.engines[p], InboxOf(s, p), None, now);
            TalkInv(Put(s, p, Committed(SightOf(s, p), Recovered(i), Publishing)))
  {
    hide Inv, TalkInv, Synced, Good, LaneInv, LinkInv, LaneOf, InboxOf, Put;
    var i := Synced(s.engines[p], InboxOf(s, p), None, now);
    var x := SightOf(s, p);
    UsedCovers(s);
    LinkOf(s, p);
    SightGood(s, p);
    SyncTalks(p, InboxOf(s, p), x, now);
    RecoveredTalks(x.engine, i, LaneOf(s, p));
    RecoveredTalks(x.engine, i, InboxOf(s, p));
    TalkPut(s, p, Committed(x, Recovered(i), Publishing));
  }

  lemma UsedCovers(s: State)
    requires Inv(s) && TalkInv(s)
    ensures s.engines.Keys <= s.shared.used && s.regions.Keys <= s.shared.used
  {
  }

  lemma TalkCrash(s: State, p: Proc)
    requires TalkInv(s) && p in s.engines
    ensures TalkInv(Crashed(s, p))
  {
    hide LaneInv, LinkInv;
    var t := Crashed(s, p);
    forall q | q in t.engines ensures InboxOf(t, q) == InboxOf(s, q) {
    }
  }

  lemma NewbornTalks(e: Engine)
    requires Blank0(e.inner) && e.op.Ready?
    ensures LaneInv(e, None) && LinkInv(e, None)
  {
  }

  lemma TalkSpawn(s: State, p: Proc, ui: bool, inner: Inner, t: State)
    requires Inv(s) && TalkInv(s) && Next(s, Spawn(p, ui, inner), t)
    ensures TalkInv(t)
  {
    hide Inv, Blank, LaneInv, LinkInv, Blank0;
    UsedCovers(s);
    NewbornTalks(t.engines[p]);
    forall q | q in s.engines ensures InboxOf(t, q) == InboxOf(s, q) {
    }
  }

  lemma TalkAttach(s: State, step: Step, t: State)
    requires TalkInv(s) && Next(s, step, t) && (step.Attach? || step.AttachReset?)
    ensures TalkInv(t)
  {
    hide LaneInv;
  }

  /** Steps of a recovery outside the engine lock. */
  lemma TalkElsewhere(s: State, t: State)
    requires TalkInv(s) && t.engines == s.engines && t.regions == s.regions && t.shared.used == s.shared.used
    ensures TalkInv(t)
  {
    hide LaneInv, LinkInv;
    forall q | q in s.engines ensures InboxOf(t, q) == InboxOf(s, q) {
    }
  }

  lemma TalkStep(s: State, step: Step, t: State)
    requires Inv(s) && TalkInv(s) && Next(s, step, t)
    ensures TalkInv(t)
  {
    hide Inv, TalkInv, Act, Synced, Committed, Crashed, Put, RecoveryDeleted, RecoveryObserved, RecoveryRead, RecoverySynced;
    match step
    case Spawn(p, ui, inner) => TalkSpawn(s, p, ui, inner, t);
    case Crash(p) => TalkCrash(s, p);
    case Attach(_, _) => TalkAttach(s, step, t);
    case AttachReset(_) => TalkAttach(s, step, t);
    case Local(p, action, after) => TalkLocal(s, p, action, after);
    case RecoverSync(id, now) =>
      var p := s.recoveries[id].proc;
      TalkSync(s, p, now);
      TalkElsewhere(Put(s, p, Committed(SightOf(s, p), Synced(s.engines[p], InboxOf(s, p), None, now), Ready)), t);
    case RecoverCommit(id, now) =>
      var p := s.recoveries[id].proc;
      var i := Synced(s.engines[p], InboxOf(s, p), None, now);
      TalkSync(s, p, now);
      TalkRecovered(s, p, now);
      TalkElsewhere(if i.start.attempt == s.recoveries[id].attempt && !i.start.cleanupComplete
                    then Put(s, p, Committed(SightOf(s, p), Recovered(i), Publishing))
                    else Put(s, p, Committed(SightOf(s, p), i, Ready)), t);
    case RecoverDelete(id) => DeleteUses(s.recoveries[id], s.shared); TalkElsewhere(s, t);
    case _ => TalkElsewhere(s, t);
  }

  lemma DeleteUses(r: Recovery, s: Shared)
    requires r.at.MustDelete?
    ensures RecoveryDeleted(r, s).0.used == s.used
  {
  }

  lemma {:induction false} TalkAlways(states: seq<State>, steps: seq<Step>, n: nat)
    requires Run(states, steps) && n < |states|
    ensures TalkInv(states[n])
  {
    hide Inv;
    if n > 0 {
      TalkAlways(states, steps, n - 1);
      InvAlways(states, steps, n - 1);
      TalkStep(states[n - 1], steps[n - 1], states[n]);
    }
  }

  // ---- the promises ----

  /** A claim that succeeds and was not cold has the stop request for the attempt in
      the claimant's lane. */
  lemma ClaimIsPublished(states: seq<State>, steps: seq<Step>, n: nat)
    requires Run(states, steps) && n < |steps| && ClaimWins(states[n], steps[n]) && ClaimIsHot(states[n], steps[n])
    ensures var p, a := steps[n].p, ClaimedOwner(states[n], steps[n]).attempt;
            && p in states[n + 1].engines && p in states[n + 1].regions
            && Carries(states[n + 1].regions[p].ui, a) && states[n + 1].engines[p].inner.start.attempt == a != ""
            && states[n + 1].engines[p].ui
  {
    hide Inv;
    InvAlways(states, steps, n);
    TalkAlways(states, steps, n);
    assert Next(states[n], steps[n], states[n + 1]);
    HotClaimKeepsLane(states[n], steps[n], states[n + 1]);
  }

  lemma HotClaimKeepsLane(s: State, step: Step, t: State)
    requires Inv(s) && TalkInv(s) && Next(s, step, t) && ClaimWins(s, step) && ClaimIsHot(s, step)
    ensures var p, a := step.p, ClaimedOwner(s, step).attempt;
            && p in t.engines && p in t.regions
            && Carries(t.regions[p].ui, a) && t.engines[p].inner.start.attempt == a != ""
            && t.engines[p].ui
  {
    hide Inv, TalkInv, Good, FencePendingStop, SetJournal;
    SightGood(s, step.p);
    ClaimantIsUi(step.p, SightOf(s, step.p));
    UiHasRegion(s, step.p);
  }

  lemma ClaimantIsUi(p: Proc, x: Sight)
    requires Good(p, x) && (x.engine.op.ClaimFence? || x.engine.op.ClaimReread?)
    ensures x.engine.ui && x.engine.op.owner.attempt != ""
    ensures x.engine.op.hot ==> x.engine.inner.start.attempt == x.engine.op.owner.attempt
  {
    BlankIsEmpty();
  }

  lemma UiHasRegion(s: State, p: Proc)
    requires TalkInv(s) && p in s.engines && s.engines[p].ui
    ensures p in s.regions && LaneInv(s.engines[p], s.regions[p].ui)
  {
  }

  /** While the claimant lives on the attempt, its lane keeps the request: every
      later frame carries it too. */
  lemma {:induction false} LaneKeepsStop(states: seq<State>, steps: seq<Step>, m: nat, n: nat, p: Proc, attempt: string)
    requires Run(states, steps) && m <= n < |states| && attempt != ""
    requires forall k | m <= k <= n :: p in states[k].engines && states[k].engines[p].inner.start.attempt == attempt
    requires states[m].engines[p].ui && p in states[m].regions && Carries(states[m].regions[p].ui, attempt)
    ensures states[n].engines[p].ui && p in states[n].regions && Carries(states[n].regions[p].ui, attempt)
  {
    hide Inv, TalkInv, Next;
    if m < n {
      LaneKeepsStop(states, steps, m, n - 1, p, attempt);
      InvAlways(states, steps, n - 1);
      TalkAlways(states, steps, n - 1);
      assert Next(states[n - 1], steps[n - 1], states[n]);
      StopStays(states[n - 1], steps[n - 1], states[n], p, attempt);
    }
  }

  /** An Extension attached to a lane that asks to stop its attempt answers
      "stopping" after its next sync, whatever it merges later. */
  lemma NextSyncStops(states: seq<State>, steps: seq<Step>, n: nat, e: Proc, attempt: string, now: nat, later: seq<Delivery>)
    requires Run(states, steps) && n < |states| && e in states[n].engines && !states[n].engines[e].ui
    requires Carries(InboxOf(states[n], e), attempt) && attempt != ""
    requires states[n].engines[e].inner.start.attempt == attempt && !states[n].engines[e].attaching
    ensures var j := Synced(states[n].engines[e], InboxOf(states[n], e), None, now);
            Tick(MergeAll(j, false, None, later), attempt) == TickAnswer.Stopping
  {
    hide Inv, Merge, MergeAll;
    TalkAlways(states, steps, n);
    var engine, frame := states[n].engines[e], InboxOf(states[n], e).value;
    ExtensionMerge(engine, None, frame, now);
    var j := Merge(engine.inner, false, None, frame, now);
    MergeProgress(engine.inner, false, None, frame, now);
    StopSticks(j, false, None, later);
  }

  lemma {:induction false} StopSticks(i: Inner, isUi: bool, expected: Option<string>, later: seq<Delivery>)
    requires i.start.attempt != "" && i.start.stopRequested && expected.None?
    ensures var j := MergeAll(i, isUi, expected, later); j.start.attempt == i.start.attempt && j.start.stopRequested
    decreases |later|
  {
    hide Merge;
    if later != [] {
      MergeProgress(i, isUi, expected, later[0].frame, later[0].now);
      StopSticks(Merge(i, isUi, expected, later[0].frame, later[0].now), isUi, expected, later[1..]);
    }
  }

  lemma StopStays(s: State, step: Step, t: State, p: Proc, attempt: string)
    requires Inv(s) && TalkInv(s) && Next(s, step, t) && p in s.engines && s.engines[p].ui && p in t.engines
    requires p in s.regions && Carries(s.regions[p].ui, attempt) && attempt != ""
    requires s.engines[p].inner.start.attempt == attempt
    ensures t.engines[p].ui && p in t.regions && Carries(t.regions[p].ui, attempt)
  {
    hide Inv, Act, Synced, Committed, RecoveryDeleted, RecoveryObserved, RecoveryRead, RecoverySynced;
    UsedCovers(s);
    if step.Local? && step.p == p {
      SightGood(s, p);
      LaneOfAct(p, step.action, InboxOf(s, p), SightOf(s, p), step.after);
    } else if step.Local? {
      LaneOfAct(step.p, step.action, InboxOf(s, step.p), SightOf(s, step.p), step.after);
    } else if step.RecoverSync? || step.RecoverCommit? {
      CommittedLane(s, s.recoveries[step.id].proc);
    }
  }

  /** Whatever a process publishes is its own record, and its role and peer stay. */
  lemma LaneOfAct(p: Proc, a: Action, inbox: Option<Frame>, x: Sight, y: Sight)
    requires Act(p, a, inbox, x, y)
    ensures y.engine.ui == x.engine.ui && y.engine.peer == x.engine.peer
    ensures y.lane == x.lane || (y.lane.Some? && y.lane.value.start == x.engine.inner.start)
  {
    if !Syncs(a) && !Publishes(a) && !a.BeginCreateStep? {
      hide Act;
      SilentSteady(p, a, inbox, x, y);
    } else {
      hide Synced, SetJournal, Freed, CreatePending, Reopened, Bound, Began;
    }
  }

  lemma CommittedLane(s: State, p: Proc)
    requires p in s.engines
    ensures forall i, op :: Put(s, p, Committed(SightOf(s, p), i, op)).regions == s.regions
    ensures forall i, op :: Committed(SightOf(s, p), i, op).engine.ui == s.engines[p].ui
  {
  }

  /** The stop race, when attachment wins: a claim succeeded with the claimant on the
      attempt, and it still is; then the Extension that owns the attempt's record,
      attached to the claimant's lane, answers "stopping" from its next sync on. */
  lemma HotClaimStops(states: seq<State>, steps: seq<Step>, n: nat, k: nat, e: Proc, now: nat, later: seq<Delivery>)
    requires Run(states, steps) && n < k < |states| && ClaimWins(states[n], steps[n])
    requires forall j | n < j <= k ::
               && steps[n].p in states[j].engines
               && states[j].engines[steps[n].p].inner.start.attempt == ClaimedOwner(states[n], steps[n]).attempt
    requires Names(states[k].shared.journal, ClaimedOwner(states[n], steps[n]).attempt) && OwnedBy(states[k].shared.journal, e)
    requires e in states[k].engines && states[k].engines[e].peer == Some(steps[n].p) && !states[k].engines[e].attaching
    ensures var j := Synced(states[k].engines[e], InboxOf(states[k], e), None, now);
            Tick(MergeAll(j, false, None, later), ClaimedOwner(states[n], steps[n]).attempt) == TickAnswer.Stopping
  {
    hide Next, MergeAll, Synced;
    var p, attempt := steps[n].p, ClaimedOwner(states[n], steps[n]).attempt;
    ClaimDecides(states, steps, n);
    ClaimIsPublished(states, steps, n);
    LaneKeepsStop(states, steps, n + 1, k, p, attempt);
    ExtensionExclusion(states, steps, k, e);
    NextSyncStops(states, steps, k, e, attempt, now, later);
  }

  /** A terminal verdict the UI publishes reaches every Extension that serves the
      attempt on its lane with one sync. */
  lemma TerminalReachesExtension(states: seq<State>, steps: seq<Step>, n: nat, e: Proc, now: nat)
    requires Run(states, steps) && n < |steps| && steps[n].Local? && steps[n].action.Publish?
    requires steps[n].p in states[n].engines && states[n].engines[steps[n].p].ui
    requires states[n].engines[steps[n].p].inner.start.outcome.Terminal()
    requires e in states[n].engines && !states[n].engines[e].ui && !states[n].engines[e].attaching
    requires states[n].engines[e].peer == Some(steps[n].p)
    requires states[n].engines[e].inner.start.attempt == states[n].engines[steps[n].p].inner.start.attempt != ""
    ensures e in states[n + 1].engines
    ensures var j := Synced(states[n + 1].engines[e], InboxOf(states[n + 1], e), None, now);
            j.start.outcome.Terminal() && !j.running
  {
    hide Inv, TalkInv, Next, Synced, MergeAll, Persisted, Published, Merge;
    var p := steps[n].p;
    TalkAlways(states, steps, n);
    assert Next(states[n], steps[n], states[n + 1]);
    LinkBehind(states[n], p, e);
    PublishLands(states[n], steps[n], states[n + 1], e);
    TerminalSpreads(states[n].engines[p].inner, states[n].engines[e].inner, false, None, steps[n].action.now, now);
    SyncedIs(states[n + 1].engines[e], InboxOf(states[n + 1], e), now);
  }

  lemma SyncedIs(e: Engine, inbox: Option<Frame>, now: nat)
    requires inbox.Some?
    ensures Synced(e, inbox, None, now) == Merge(e.inner, e.ui, None, inbox.value, now)
  {
    hide Merge;
  }

  /** What an Extension merged is never newer than its writer's revision. */
  lemma LinkBehind(s: State, p: Proc, e: Proc)
    requires TalkInv(s) && p in s.engines && s.engines[p].ui && e in s.engines && !s.engines[e].ui
    requires s.engines[e].peer == Some(p) && !s.engines[e].attaching
    ensures s.engines[e].inner.link.updatedAt <= s.engines[p].inner.localUpdatedAt && p in s.regions
  {
    assert LaneInv(s.engines[p], s.regions[p].ui);
    assert LinkInv(s.engines[e], InboxOf(s, e));
  }

  lemma PublishLands(s: State, step: Step, t: State, e: Proc)
    requires Next(s, step, t) && step.Local? && step.action.Publish? && step.p in s.engines && s.engines[step.p].ui
    requires step.p in s.regions && e in s.engines && !s.engines[e].ui && s.engines[e].peer == Some(step.p)
    ensures e in t.engines && t.engines[e] == s.engines[e]
    ensures InboxOf(t, e) == Some(Published(Persisted(s.engines[step.p].inner, step.action.now)))
  {
    hide Persisted, Published;
  }
}
