/** Operations that nobody disturbs: from a state that meets their conditions, the steps
    of a start, a bind, a stop claim, a cleanup, a failed start, a liveness check and a
    recovery reach their end, and what that end is. */
module Undisturbed {
  import opened Lists
  import opened Strings
  import opened EngineState
  import opened OwnerJournal
  import opened OwnershipProtocol
  import opened StopFence
  import opened ColdClaim

  type Acts = seq<Action>

  /** Without a stored lease a commit changes only the engine. */
  lemma NoLeaseToFree(x: Sight, i: Inner, op: Op)
    requires x.engine.inner.leases == Leases(false, false)
    ensures Committed(x, i, op) == x.(engine := x.engine.(inner := i, op := op))
  {
  }

  lemma SameLeases(x: Sight, i: Inner, op: Op)
    requires i.leases == x.engine.inner.leases
    ensures Committed(x, i, op) == x.(engine := x.engine.(inner := i, op := op))
  {
  }

  // ---- start ----

  /** A UI process whose session is free, with the journal missing and the issuer lease
      free: a start ends with the pending record, the lease held and stored for it, and
      the pending session published. */
  lemma StartUndisturbed(p: Proc, x: Sight, inbox: Option<Frame>, attempt: string, now: nat)
    returns (sights: seq<Sight>, acts: Acts)
    requires p.Valid() && x.engine.op == Ready && x.engine.ui && x.engine.intentEpoch != 0 && x.engine.osStop.epoch == 0
    requires x.engine.inner.leases == Leases(false, false)
    requires var i := Synced(x.engine, inbox, None, now);
      && i.start.outcome != Outcome.Pending && (i.start.attempt == "" || i.start.cleanupComplete) && !i.running
      && i.leases == Leases(false, false)
    requires x.shared.journal == None && x.shared.issuer.holder == None && !Blank(attempt) && attempt !in x.shared.history.drawn
    ensures LocalPath(p, inbox, sights, acts) && sights[0] == x
    ensures var y := sights[|acts|];
      && y.shared.journal == Some(Record(attempt, p, None, Phase.Pending))
      && y.shared.issuer == Lease(Some(p), Some(LeaseRecord(attempt, p))) && y.shared.extension == x.shared.extension
      && y.engine.inner.leases == Leases(true, false) && y.engine.op == Ready
      && y.lane.Some? && y.lane.value.start == y.engine.inner.start
      && y.engine.inner.start == Start(attempt, Outcome.Pending, false, false, false, 0, 0, false)
      && y.lane.value.starting && y.lane.value.view == View(Establishing, None) && y.lane.value.updatedAt >= now
  {
    hide Synced, Act, Blank, SetJournal, Published, Persisted;
    var e, s := x.engine, x.shared;
    var i := Synced(e, inbox, None, now);
    var x1 := x.(engine := e.(inner := i, op := BeginRead(e.intentEpoch)));
    NoLeaseToFree(x, i, BeginRead(e.intentEpoch));
    StartOpens(p, x, x1, inbox, now);
    var x2 := Reached(x1, BeginLock(e.intentEpoch, attempt)).(shared := s.(history := s.history.(drawn := s.history.drawn[attempt := p])));
    var x3 := Reached(x2, BeginWrite(e.intentEpoch, attempt)).(shared := x2.shared.(issuer := Locked(x2.shared.issuer, p)));
    var x4 := Reached(x3, BeginCreate(e.intentEpoch, attempt))
              .(shared := x3.shared.(issuer := Lease(Some(p), Some(LeaseRecord(attempt, p)))));
    StartLocks(p, x1, x2, x3, x4, inbox, attempt);
    var x5 := x4.(engine := x4.engine.(inner := Began(i, attempt), op := Publishing),
                  shared := SetJournal(x4.shared, Some(Record(attempt, p, None, Phase.Pending))));
    StartCreates(p, x4, x5, inbox, attempt);
    var x6 := PublishedTo(x5, now, Ready);
    PublishTells(p, x5, x6, inbox, now);
    sights := [x, x1, x2, x3, x4, x5, x6];
    acts := [BeginStart(e.intentEpoch, now), BeginReadStep(attempt), BeginLockStep, BeginWriteStep, BeginCreateStep, Publish(now)];
  }

  lemma StartOpens(p: Proc, x: Sight, y: Sight, inbox: Option<Frame>, now: nat)
    requires x.engine.op == Ready && x.engine.ui && x.engine.intentEpoch != 0 && x.engine.osStop.epoch == 0
    requires var i := Synced(x.engine, inbox, None, now);
      && i.start.outcome != Outcome.Pending && (i.start.attempt == "" || i.start.cleanupComplete) && !i.running
      && y == Committed(x, i, BeginRead(x.engine.intentEpoch))
    ensures Act(p, BeginStart(x.engine.intentEpoch, now), inbox, x, y)
  {
    hide Synced, Committed;
  }

  lemma StartLocks(p: Proc, x: Sight, x1: Sight, x2: Sight, x3: Sight, inbox: Option<Frame>, attempt: string)
    requires x.engine.op.BeginRead? && x.shared.journal == None && x.shared.issuer.holder == None
    requires !Blank(attempt) && attempt !in x.shared.history.drawn
    requires var epoch, s := x.engine.op.epoch, x.shared;
      && x1 == Reached(x, BeginLock(epoch, attempt)).(shared := s.(history := s.history.(drawn := s.history.drawn[attempt := p])))
      && x2 == Reached(x1, BeginWrite(epoch, attempt)).(shared := x1.shared.(issuer := Locked(x1.shared.issuer, p)))
      && x3 == Reached(x2, BeginCreate(epoch, attempt))
               .(shared := x2.shared.(issuer := Lease(Some(p), Some(LeaseRecord(attempt, p)))))
    ensures Act(p, BeginReadStep(attempt), inbox, x, x1) && Act(p, BeginLockStep, inbox, x1, x2) && Act(p, BeginWriteStep, inbox, x2, x3)
  {
    hide Blank;
  }

  lemma StartCreates(p: Proc, x: Sight, y: Sight, inbox: Option<Frame>, attempt: string)
    requires x.engine.op.BeginCreate? && x.engine.op.attempt == attempt && x.shared.journal == None && p.Valid() && !Blank(attempt)
    requires !x.engine.inner.leases.extension
    requires y == x.(engine := x.engine.(inner := Began(x.engine.inner, attempt), op := Publishing),
                     shared := SetJournal(x.shared, Some(Record(attempt, p, None, Phase.Pending))))
    ensures Act(p, BeginCreateStep, inbox, x, y)
    ensures y.shared.journal == Some(Record(attempt, p, None, Phase.Pending))
    ensures y.shared.issuer == x.shared.issuer && y.shared.extension == x.shared.extension
    ensures y.engine.inner.start == Start(attempt, Outcome.Pending, false, false, false, 0, 0, false)
    ensures y.engine.inner.starting && y.engine.inner.view == View(Establishing, None) && y.engine.inner.leases == Leases(true, false)
  {
    hide Blank;
  }

  /** A publish puts the session into the lane, under a new revision. */
  lemma PublishTells(p: Proc, x: Sight, y: Sight, inbox: Option<Frame>, now: nat)
    requires (x.engine.op == Publishing || x.engine.op == Ready) && (x.engine.ui || x.engine.peer.Some?) && y == PublishedTo(x, now, Ready)
    ensures Act(p, Publish(now), inbox, x, y)
    ensures y.lane.Some? && y.lane.value.start == x.engine.inner.start && y.lane.value.view == x.engine.inner.view
    ensures y.lane.value.starting == x.engine.inner.starting && y.lane.value.updatedAt >= now
    ensures y.lane.value.updatedAt > x.engine.inner.localUpdatedAt
    ensures y.engine.inner == x.engine.inner.(localUpdatedAt := y.lane.value.updatedAt) && y.engine.op == Ready
    ensures y.engine == x.engine.(inner := y.engine.inner, op := Ready) && y.shared == x.shared
  {
  }

  // ---- bind ----

  /** The record can be taken over: it is pending and its issuer holds the lease of that
      very attempt, or it is attached and nobody holds the Extension lease. */
  predicate CanTakeOver(s: Shared, owner: Record) {
    && s.extension.holder == None
    && (|| (owner.phase == Phase.Pending && s.issuer.holder.Some? && s.issuer.content == Some(LeaseRecord(owner.attempt, owner.issuer)))
        || owner.phase == Attached)
  }

  /** An Extension that finds a live frame of the attempt and a record it can take over:
      its bind ends with the record naming it and the lease held, stored and written. */
  lemma BindUndisturbed(p: Proc, x: Sight, inbox: Option<Frame>, owner: Record, now: nat)
    returns (sights: seq<Sight>, acts: Acts)
    requires p.Valid() && owner.Valid() && owner.extension != Some(p) && owner.attempt != ""
    requires x.engine.op == Ready && !x.engine.ui && x.engine.inner.leases == Leases(false, false)
    requires inbox.Some? && inbox.value.start.attempt == owner.attempt && !inbox.value.start.outcome.Terminal()
    requires var i := Synced(x.engine, inbox, Some(owner.attempt), now);
      i.start.attempt == owner.attempt && !i.start.outcome.Terminal() && i.leases == Leases(false, false)
    requires x.shared.journal == Some(owner) && CanTakeOver(x.shared, owner)
    ensures LocalPath(p, inbox, sights, acts) && sights[0] == x && |acts| == 6 && acts[5] == BindSwapStep
    ensures sights[5].engine.op == BindSwap(owner.attempt, owner) && sights[5].shared.journal == Some(owner)
    ensures var y := sights[|acts|];
      && y.shared.journal == Some(Record(owner.attempt, owner.issuer, Some(p), Attached))
      && y.shared.extension == Lease(Some(p), Some(LeaseRecord(owner.attempt, p))) && y.shared.issuer == x.shared.issuer
      && y.engine.inner.leases == Leases(false, true) && y.engine.inner.start.attempt == owner.attempt
      && y.engine.op == BindSync(owner.attempt) && y.lane == x.lane && y.shared.alive == x.shared.alive
  {
    hide Synced, Act, SetJournal, Reopened;
    var e, s, a := x.engine, x.shared, owner.attempt;
    var i := Reopened(Synced(e, inbox, Some(a), now));
    ReopenKeeps(Synced(e, inbox, Some(a), now));
    var x1 := x.(engine := e.(inner := i, op := BindRead(a)));
    NoLeaseToFree(x, i, BindRead(a));
    BindOpensUndisturbed(p, x, x1, inbox, a, now);
    var x2, x3 := Reached(x1, BindObserve(a, owner)), Reached(x1, BindLock(a, owner));
    var x4 := Reached(x3, BindWrite(a, owner)).(shared := s.(extension := Locked(s.extension, p)));
    var x5 := Reached(x4, BindSwap(a, owner)).(shared := s.(extension := Lease(Some(p), Some(LeaseRecord(a, p)))));
    BindReadsOwner(p, x1, x2, x3, x4, x5, inbox, owner);
    var x6 := x5.(engine := x5.engine.(inner := i.(leases := Leases(false, true)), op := BindSync(a), validated := None),
                  shared := SetJournal(x5.shared, Some(Record(a, owner.issuer, Some(p), Attached))));
    BindSwapsIn(p, x5, x6, inbox, owner);
    sights := [x, x1, x2, x3, x4, x5, x6];
    acts := [BindStart(a, now), BindReadStep, BindObserveStep, BindLockStep, BindWriteStep, BindSwapStep];
  }

  lemma ReopenKeeps(i: Inner)
    ensures Reopened(i).leases == i.leases && Reopened(i).start.attempt == i.start.attempt
  {
  }

  lemma BindOpensUndisturbed(p: Proc, x: Sight, y: Sight, inbox: Option<Frame>, a: string, now: nat)
    requires x.engine.op == Ready && !x.engine.ui && a != "" && !x.engine.inner.leases.extension
    requires inbox.Some? && inbox.value.start.attempt == a && !inbox.value.start.outcome.Terminal()
    requires var i := Synced(x.engine, inbox, Some(a), now);
      i.start.attempt == a && !i.start.outcome.Terminal() && y == Committed(x, Reopened(i), BindRead(a))
    ensures Act(p, BindStart(a, now), inbox, x, y)
  {
    hide Synced, Committed, Reopened;
  }

  lemma BindReadsOwner(p: Proc, x: Sight, x1: Sight, x2: Sight, x3: Sight, x4: Sight, inbox: Option<Frame>, owner: Record)
    requires x.engine.op == BindRead(owner.attempt) && x.shared.journal == Some(owner) && owner.Valid()
    requires owner.extension != Some(p) && CanTakeOver(x.shared, owner)
    requires x1 == Reached(x, BindObserve(owner.attempt, owner)) && x2 == Reached(x, BindLock(owner.attempt, owner))
    requires x3 == Reached(x2, BindWrite(owner.attempt, owner)).(shared := x.shared.(extension := Locked(x.shared.extension, p)))
    requires x4 == Reached(x3, BindSwap(owner.attempt, owner))
                   .(shared := x.shared.(extension := Lease(Some(p), Some(LeaseRecord(owner.attempt, p)))))
    ensures Act(p, BindReadStep, inbox, x, x1) && Act(p, BindObserveStep, inbox, x1, x2)
    ensures Act(p, BindLockStep, inbox, x2, x3) && Act(p, BindWriteStep, inbox, x3, x4)
  {
    hide Blank;
  }

  lemma BindSwapsIn(p: Proc, x: Sight, y: Sight, inbox: Option<Frame>, owner: Record)
    requires x.engine.op == BindSwap(owner.attempt, owner) && x.shared.journal == Some(owner) && owner.Valid() && p.Valid()
    requires owner.extension != Some(p) && !owner.phase.Stopping? && x.engine.inner.leases == Leases(false, false)
    requires y == x.(engine := x.engine.(inner := x.engine.inner.(leases := Leases(false, true)), op := BindSync(owner.attempt),
                                         validated := None),
                     shared := SetJournal(x.shared, Some(Record(owner.attempt, owner.issuer, Some(p), Attached))))
    ensures Act(p, BindSwapStep, inbox, x, y)
    ensures y.shared.journal == Some(Record(owner.attempt, owner.issuer, Some(p), Attached))
    ensures y.shared.extension == x.shared.extension && y.shared.issuer == x.shared.issuer && y.shared.alive == x.shared.alive
  {
    hide Blank;
  }

  /** The last section of a bind: the Extension writes itself down as the owner, and a
      first delivery as attached and observed. */
  lemma BindRecordsOwner(p: Proc, x: Sight, y: Sight, inbox: Option<Frame>, now: nat)
    requires BindSyncs(p, x, y, inbox, now) && Synced(x.engine, inbox, None, now).start.attempt == x.engine.op.attempt
    ensures var i, j := Synced(x.engine, inbox, None, now), y.engine.inner;
      && j.start.extensionAttached && j.start.ownerPid == p.pid && j.start.ownerStartTime == p.startTime
      && j.start.outcome == i.start.outcome && j.leases == i.leases && j.view == i.view
      && (!i.start.extensionAttached ==> j.start.deliveryObserved && !j.start.cleanupComplete && y.engine.op == Publishing)
  {
    hide Synced;
  }

  // ---- stop claim ----

  /** A UI process claims the stop of its own attempt: the fence is raised for the
      attempt, the request is published, a pending session is cancelled, a record that
      was not attached is fenced and an attached one stays. */
  lemma ClaimUndisturbed(p: Proc, x: Sight, inbox: Option<Frame>, owner: Record, now: nat)
    returns (sights: seq<Sight>, acts: Acts)
    requires x.engine.op == Ready && x.engine.ui && x.engine.intentEpoch != 0 && !x.engine.osStop.inFlight
    requires x.engine.osStop.epoch == 0 || x.engine.osStop.attempt == owner.attempt
    requires x.shared.journal == Some(owner) && owner.Valid() && owner.attempt != ""
    requires var i := Synced(x.engine, inbox, None, now);
      i.start.attempt == owner.attempt && !i.start.cleanupComplete && i.leases == x.engine.inner.leases
    ensures LocalPath(p, inbox, sights, acts) && sights[0] == x
    ensures var i, y := Synced(x.engine, inbox, None, now), sights[|acts|];
      && y.engine.osStop == OsStop(x.engine.intentEpoch, owner.attempt, false) && y.engine.op == Ready
      && y.lane.Some? && y.lane.value.start == y.engine.inner.start
      && y.engine.inner.start == i.start.(stopRequested := true, outcome := if i.start.outcome == Outcome.Pending then Cancelled
                                                                            else i.start.outcome)
      && y.shared.journal == Some(if owner.phase == Attached then owner else Record(owner.attempt, owner.issuer, None, Phase.Stopping))
  {
    hide Synced, Act, SetJournal, Published, Persisted, StopClaimed;
    var e := x.engine;
    var i := Synced(e, inbox, None, now);
    var retained := if e.osStop.epoch != 0 then Some(e.osStop.attempt) else None;
    var x1 := x.(engine := e.(inner := i, op := ClaimRead(e.intentEpoch, retained)));
    SameLeases(x, i, ClaimRead(e.intentEpoch, retained));
    ClaimOpens(p, x, x1, inbox, now);
    var x2 := x1.(engine := x1.engine.(inner := StopClaimed(i), op := ClaimPublish(e.intentEpoch, owner)));
    ClaimStops(i);
    SameLeases(x1, StopClaimed(i), ClaimPublish(e.intentEpoch, owner));
    ClaimReadsOwner(p, x1, x2, inbox, owner);
    var x3 := PublishedTo(x2, now, ClaimFence(e.intentEpoch, owner, true));
    ClaimTells(p, x2, x3, inbox, now);
    var y := ClaimEnds(p, x3, inbox, owner, e.intentEpoch);
    sights, acts := [x, x1, x2, x3, y], [ClaimStart(e.intentEpoch, now), ClaimReadStep, ClaimPublishStep(now), ClaimFenceStep];
  }

  lemma ClaimStops(i: Inner)
    ensures var j := StopClaimed(i);
      && j.leases == i.leases && j.localUpdatedAt == i.localUpdatedAt
      && j.start == i.start.(stopRequested := true, outcome := if i.start.outcome == Outcome.Pending then Cancelled else i.start.outcome)
      && (i.start.outcome == Outcome.Pending ==> !j.running && !j.starting)
  {
  }

  lemma ClaimOpens(p: Proc, x: Sight, y: Sight, inbox: Option<Frame>, now: nat)
    requires x.engine.op == Ready && x.engine.ui && x.engine.intentEpoch != 0 && !x.engine.osStop.inFlight
    requires y == Committed(x, Synced(x.engine, inbox, None, now),
                            ClaimRead(x.engine.intentEpoch, if x.engine.osStop.epoch != 0 then Some(x.engine.osStop.attempt) else None))
    ensures Act(p, ClaimStart(x.engine.intentEpoch, now), inbox, x, y)
  {
    hide Synced, Committed;
  }

  lemma ClaimReadsOwner(p: Proc, x: Sight, y: Sight, inbox: Option<Frame>, owner: Record)
    requires x.engine.op.ClaimRead? && x.shared.journal == Some(owner) && owner.attempt != ""
    requires x.engine.inner.start.attempt == owner.attempt && !x.engine.inner.start.cleanupComplete
    requires x.engine.op.retained.Some? ==> x.engine.op.retained.value == owner.attempt
    requires y == Committed(x, StopClaimed(x.engine.inner), ClaimPublish(x.engine.op.epoch, owner))
    ensures Act(p, ClaimReadStep, inbox, x, y)
  {
    hide Committed, StopClaimed;
  }

  lemma ClaimTells(p: Proc, x: Sight, y: Sight, inbox: Option<Frame>, now: nat)
    requires x.engine.op.ClaimPublish? && y == PublishedTo(x, now, ClaimFence(x.engine.op.epoch, x.engine.op.owner, true))
    ensures Act(p, ClaimPublishStep(now), inbox, x, y)
    ensures y.lane.Some? && y.lane.value.start == x.engine.inner.start == y.engine.inner.start && y.shared == x.shared
    ensures y.engine == x.engine.(inner := y.engine.inner, op := y.engine.op)
    ensures y.engine.op == ClaimFence(x.engine.op.epoch, x.engine.op.owner, true)
  {
  }

  lemma ClaimEnds(p: Proc, x: Sight, inbox: Option<Frame>, owner: Record, epoch: nat) returns (y: Sight)
    requires x.engine.op == ClaimFence(epoch, owner, true) && x.shared.journal == Some(owner) && owner.Valid()
    ensures Act(p, ClaimFenceStep, inbox, x, y)
    ensures y.engine == x.engine.(osStop := OsStop(epoch, owner.attempt, false), op := Ready) && y.lane == x.lane
    ensures y.shared.journal == Some(if owner.phase == Attached then owner else Record(owner.attempt, owner.issuer, None, Phase.Stopping))
  {
    hide Blank;
    var fenced := Record(owner.attempt, owner.issuer, None, Phase.Stopping);
    y := Claimed(x, epoch, owner.attempt);
    if owner.phase == Phase.Pending {
      y := y.(shared := SetJournal(x.shared, Some(fenced)));
    }
  }

  // ---- cleanup ----

  /** The recorded Extension acknowledges the end of its own attempt, once it neither
      runs nor starts: record and lease are gone, and the session is cleaned up and,
      if it is attached to a lane, published. */
  lemma CleanupUndisturbed(p: Proc, x: Sight, inbox: Option<Frame>, owner: Record, now: nat)
    returns (sights: seq<Sight>, acts: Acts)
    requires p.Valid() && owner.Valid() && owner.attempt != "" && x.engine.op == Ready && !x.engine.ui && x.engine.peer.Some?
    requires x.shared.journal == Some(owner) && owner.extension == Some(p) && x.engine.inner.leases == Leases(false, true)
    requires var i := Synced(x.engine, inbox, None, now);
      && i.start.attempt == owner.attempt && i.start.outcome.Terminal() && !i.start.cleanupComplete && !i.running && !i.starting
      && i.leases == Leases(false, true) && i.start.ownerPid == p.pid && i.start.ownerStartTime == p.startTime
    ensures LocalPath(p, inbox, sights, acts) && sights[0] == x
    ensures var i, y := Synced(x.engine, inbox, None, now), sights[|acts|];
      && y.shared.journal == None && y.shared.extension.holder == None && y.engine.inner.leases == Leases(false, false)
      && y.lane.Some? && y.lane.value.start == y.engine.inner.start
      && y.engine.inner.start == Start(owner.attempt, i.start.outcome, i.start.deliveryObserved, false, true, 0, 0, true)
  {
    hide Synced, Act, SetJournal, Published, Persisted;
    var e, a := x.engine, owner.attempt;
    var i := Synced(e, inbox, None, now);
    var x1 := x.(engine := e.(inner := i, op := CompleteRead(a)));
    SameLeases(x, i, CompleteRead(a));
    CleanupOpens(p, x, x1, inbox, a, now);
    var x2 := Reached(x1, CompleteDelete(a));
    var x3 := x2.(engine := x2.engine.(inner := CleanedUp(i), op := Publishing),
                  shared := SetJournal(x.shared, None).(extension := Unlocked(x.shared.extension)));
    CleanupDeletes(p, x1, x2, x3, inbox, owner);
    var x4 := PublishedTo(x3, now, Ready);
    PublishTells(p, x3, x4, inbox, now);
    sights := [x, x1, x2, x3, x4];
    acts := [CompleteStart(a, now), CompleteReadStep, CompleteDeleteStep, Publish(now)];
  }

  lemma CleanupOpens(p: Proc, x: Sight, y: Sight, inbox: Option<Frame>, a: string, now: nat)
    requires x.engine.op == Ready && !x.engine.ui && a != ""
    requires var i := Synced(x.engine, inbox, None, now);
      && i.start.attempt == a && i.start.outcome.Terminal() && !i.start.cleanupComplete && !i.running && !i.starting
      && i.leases.extension && y == Committed(x, i, CompleteRead(a))
    ensures Act(p, CompleteStart(a, now), inbox, x, y)
  {
    hide Synced, Committed;
  }

  lemma CleanupDeletes(p: Proc, x: Sight, x1: Sight, x2: Sight, inbox: Option<Frame>, owner: Record)
    requires p.Valid() && owner.Valid() && x.shared.journal == Some(owner) && owner.extension == Some(p)
    requires x.engine.op == CompleteRead(owner.attempt) && x.engine.inner.leases == Leases(false, true)
    requires x.engine.inner.start.ownerPid == p.pid && x.engine.inner.start.ownerStartTime == p.startTime
    requires x1 == Reached(x, CompleteDelete(owner.attempt))
    requires x2 == x1.(engine := x1.engine.(inner := CleanedUp(x.engine.inner), op := Publishing),
                       shared := SetJournal(x.shared, None).(extension := Unlocked(x.shared.extension)))
    ensures Act(p, CompleteReadStep, inbox, x, x1) && Act(p, CompleteDeleteStep, inbox, x1, x2)
    ensures x2.shared.journal == None && x2.shared.extension.holder == None
    ensures x2.engine.inner.start == x.engine.inner.start.(cleanupComplete := true, extensionAttached := false, stopRequested := true,
                                                           ownerPid := 0, ownerStartTime := 0)
    ensures x2.engine.inner.leases == Leases(false, false)
  {
    hide Blank;
  }

  // ---- a start that fails ----

  /** A UI process fails the pending attempt it issued: the record and the lease are
      gone, and the session has failed with the message and is cleaned up, published. */
  lemma FailureUndisturbed(p: Proc, x: Sight, inbox: Option<Frame>, owner: Record, message: string, now: nat)
    returns (sights: seq<Sight>, acts: Acts)
    requires owner.Valid() && owner.phase == Phase.Pending && owner.attempt != "" && x.engine.op == Ready && x.engine.ui
    requires x.shared.journal == Some(owner) && x.engine.inner.leases == Leases(true, false)
    requires var i := Synced(x.engine, inbox, None, now);
      && i.start.attempt == owner.attempt && i.start.outcome == Outcome.Pending && !i.start.extensionAttached
      && i.leases == Leases(true, false)
    ensures LocalPath(p, inbox, sights, acts) && sights[0] == x
    ensures var y := sights[|acts|];
      && y.shared.journal == None && y.shared.issuer.holder == None && y.engine.inner.leases == Leases(false, false)
      && y.lane.Some? && y.lane.value.start == y.engine.inner.start && y.lane.value.view == View(Broken, Some(message))
      && y.engine.inner.start.attempt == owner.attempt && y.engine.inner.start.outcome == Failed && y.engine.inner.start.cleanupComplete
      && y.engine.inner.pendingNative == None && y.engine.inner.runningNative == None
      && !y.engine.inner.running && !y.engine.inner.starting
  {
    hide Synced, Act, SetJournal, Published, Persisted;
    var e, a := x.engine, owner.attempt;
    var i := Synced(e, inbox, None, now);
    var x1 := x.(engine := e.(inner := i, op := FailDelete(a)));
    SameLeases(x, i, FailDelete(a));
    FailureOpens(p, x, x1, inbox, a, now);
    var x2 := x1.(engine := x1.engine.(inner := StartFailed(i, message), op := Publishing),
                  shared := SetJournal(x.shared, None).(issuer := Unlocked(x.shared.issuer)));
    FailureDeletes(p, x1, x2, inbox, owner, message);
    var x3 := PublishedTo(x2, now, Ready);
    PublishTells(p, x2, x3, inbox, now);
    sights := [x, x1, x2, x3];
    acts := [FailStart(a, now), FailDeleteStep(message), Publish(now)];
  }

  lemma FailureOpens(p: Proc, x: Sight, y: Sight, inbox: Option<Frame>, a: string, now: nat)
    requires x.engine.op == Ready && a != ""
    requires var i := Synced(x.engine, inbox, None, now);
      i.start.attempt == a && i.start.outcome == Outcome.Pending && !i.start.extensionAttached && y == Committed(x, i, FailDelete(a))
    ensures Act(p, FailStart(a, now), inbox, x, y)
  {
    hide Synced, Committed;
  }

  lemma FailureDeletes(p: Proc, x: Sight, y: Sight, inbox: Option<Frame>, owner: Record, message: string)
    requires owner.Valid() && owner.phase == Phase.Pending && x.shared.journal == Some(owner)
    requires x.engine.op == FailDelete(owner.attempt) && x.engine.inner.leases == Leases(true, false)
    requires y == x.(engine := x.engine.(inner := StartFailed(x.engine.inner, message), op := Publishing),
                     shared := SetJournal(x.shared, None).(issuer := Unlocked(x.shared.issuer)))
    ensures Act(p, FailDeleteStep(message), inbox, x, y)
    ensures y.shared.journal == None && y.shared.issuer.holder == None
    ensures var i, j := x.engine.inner, y.engine.inner;
      && j.start == i.start.(outcome := Failed, cleanupComplete := true) && j.view == View(Broken, Some(message))
      && j.leases == Leases(false, false) && j.pendingNative == None && j.runningNative == None && !j.running && !j.starting
  {
    hide Blank;
  }

  // ---- the liveness check ----

  /** A UI process whose session names the recorded Extension finds the lease free: the
      session fails as broken, published, and the lease is free again. With another
      owner in the record nothing happens. */
  lemma LivenessCheck(p: Proc, x: Sight, inbox: Option<Frame>, owner: Record, now: nat) returns (sights: seq<Sight>, acts: Acts)
    requires owner.Valid() && x.engine.op == Ready && x.engine.ui && x.shared.extension.holder == None
    requires x.shared.journal == Some(owner) && owner.phase == Attached && owner.attempt == x.engine.inner.start.attempt
    requires var start := x.engine.inner.start;
      start.extensionAttached && !start.cleanupComplete && start.outcome in {Outcome.Pending, Outcome.Connected}
    ensures LocalPath(p, inbox, sights, acts) && sights[0] == x
    ensures var i, j, y := x.engine.inner, sights[|acts|].engine.inner, sights[|acts|];
      var lost := owner.extension.value.pid == i.start.ownerPid && owner.extension.value.startTime == i.start.ownerStartTime;
      && y.shared.journal == x.shared.journal && y.shared.extension.holder == None && y.engine.op == Ready
      && (lost ==>
            && j.start == i.start.(outcome := Failed) && !j.running && !j.starting
            && j.view == View(Broken, Some("VPN extension owner lease was released"))
            && y.lane.Some? && y.lane.value.start == j.start && y.lane.value.view == j.view)
      && (!lost ==> y == x)
  {
    hide Act, Published, Persisted;
    var x1 := Reached(x, Guarding).(shared := x.shared.(extension := Locked(x.shared.extension, p)));
    assert Act(p, GuardLockStep, inbox, x, x1) by { CheckLocks(p, x, x1, inbox); }
    var i := x.engine.inner;
    var lost := owner.extension.value.pid == i.start.ownerPid && owner.extension.value.startTime == i.start.ownerStartTime;
    if lost {
      var x2 := x1.(engine := x1.engine.(op := GuardPublish, inner := OwnerLost(i)));
      var x3 := PublishedTo(Abandoned(x2), now, Ready);
      CheckFails(p, x1, x2, x3, inbox, owner, now);
      sights, acts := [x, x1, x2, x3], [GuardLockStep, GuardReadStep, GuardPublishStep(now)];
    } else {
      CheckPasses(p, x, x1, inbox, owner);
      sights, acts := [x, x1, x], [GuardLockStep, GuardReadStep];
    }
  }

  lemma CheckLocks(p: Proc, x: Sight, y: Sight, inbox: Option<Frame>)
    requires x.engine.op == Ready && x.engine.ui && x.shared.extension.holder == None
    requires var start := x.engine.inner.start;
      start.extensionAttached && !start.cleanupComplete && start.outcome in {Outcome.Pending, Outcome.Connected}
    requires y == Reached(x, Guarding).(shared := x.shared.(extension := Locked(x.shared.extension, p)))
    ensures Act(p, GuardLockStep, inbox, x, y)
  {
  }

  lemma CheckFails(p: Proc, x: Sight, y: Sight, z: Sight, inbox: Option<Frame>, owner: Record, now: nat)
    requires x.engine.op == Guarding && x.shared.journal == Some(owner) && owner.Valid() && owner.phase == Attached
    requires owner.attempt == x.engine.inner.start.attempt
    requires owner.extension.value.pid == x.engine.inner.start.ownerPid
    requires owner.extension.value.startTime == x.engine.inner.start.ownerStartTime
    requires y == x.(engine := x.engine.(op := GuardPublish, inner := OwnerLost(x.engine.inner)))
    requires z == PublishedTo(Abandoned(y), now, Ready)
    ensures Act(p, GuardReadStep, inbox, x, y) && Act(p, GuardPublishStep(now), inbox, y, z)
    ensures z.shared == x.shared.(extension := x.shared.extension.(holder := None)) && z.engine.op == Ready
    ensures var i, j := x.engine.inner, z.engine.inner;
      && j.start == i.start.(outcome := Failed) && !j.running && !j.starting
      && j.view == View(Broken, Some("VPN extension owner lease was released"))
      && z.lane.Some? && z.lane.value.start == j.start && z.lane.value.view == j.view
      && z.engine.ui == x.engine.ui && z.engine.peer == x.engine.peer
  {
  }

  lemma CheckPasses(p: Proc, x: Sight, x1: Sight, inbox: Option<Frame>, owner: Record)
    requires x.engine.op == Ready && x.shared.journal == Some(owner) && x.shared.extension.holder == None && owner.phase == Attached
    requires owner.extension.Some?
    requires owner.extension.value.pid != x.engine.inner.start.ownerPid
             || owner.extension.value.startTime != x.engine.inner.start.ownerStartTime
    requires x1 == Reached(x, Guarding).(shared := x.shared.(extension := Locked(x.shared.extension, p)))
    ensures Act(p, GuardReadStep, inbox, x1, x)
  {
    assert Abandoned(x1) == x;
  }

  // ---- recovery ----

  /** The rounds of a recovery from its sync to its delete, on a record nobody changes:
      a fenced record, and a pending one whose stop the UI issued before any attachment,
      is deleted at once; otherwise it is deleted exactly when the lease of the process
      that owns it, the Extension or else the issuer, is free, the recovery starts over
      while that process holds it, and it gives up when another one does. */
  lemma RecoveryUndisturbed(r: Recovery, i: Inner, s: Shared)
    requires ValidJournal(s.journal) && Names(s.journal, r.attempt) && r.at == MustSync
    requires !(i.start.attempt == r.attempt && i.start.cleanupComplete)
    ensures var owner := s.journal.value;
      var read := RecoveryRead(RecoverySynced(r, i).value, s);
      var atOnce := || owner.phase == Phase.Stopping
                    || (&& owner.phase == Phase.Pending && i.start.attempt == r.attempt && !i.start.extensionAttached
                        && i.start.stopRequested && i.start.outcome in {Failed, Cancelled});
      var lease := if owner.phase == Attached then s.extension else s.issuer;
      var proof := LeaseRecord(r.attempt, if owner.phase == Attached then owner.extension.value else owner.issuer);
      && (atOnce ==>
            && read.Some? && read.value.at.MustDelete?
            && RecoveryDeleted(read.value, s).0.journal == None && RecoveryDeleted(read.value, s).1 == Some(r.(at := MustCommit)))
      && (!atOnce ==>
            && read.Some? && read.value.at.MustObserve?
            && (lease.holder == None ==>
                  var seen := RecoveryObserved(read.value, s);
                  && seen.Some? && seen.value.at.MustDelete?
                  && RecoveryDeleted(seen.value, s).0.journal == None
                  && RecoveryDeleted(seen.value, s).1 == Some(r.(at := MustCommit)))
            && (lease.holder.Some? && lease.content == Some(proof) ==> RecoveryObserved(read.value, s) == Some(r))
            && (lease.holder.Some? && lease.content != Some(proof) ==> RecoveryObserved(read.value, s) == None))
  {
  }

  /** A recovery has nothing to do for an attempt that is cleaned up, and gives up when
      the journal has no record of it. */
  lemma RecoveryReturns(r: Recovery, i: Inner, s: Shared)
    requires r.at == MustSync
    ensures RecoverySynced(r, i) == None <==> i.start.attempt == r.attempt && i.start.cleanupComplete
    ensures RecoverySynced(r, i).Some? && !Names(s.journal, r.attempt) ==> RecoveryRead(RecoverySynced(r, i).value, s) == None
  {
  }

  /** What a recovered session is left with: cleaned up and not running, cancelled and
      disconnected unless it had failed, without leases. */
  lemma RecoveredSession(i: Inner)
    ensures var j := Recovered(i);
      && j.start == i.start.(cleanupComplete := true, extensionAttached := false, stopRequested := true, ownerPid := 0,
                             ownerStartTime := 0, outcome := if i.start.outcome == Failed then Failed else Cancelled)
      && !j.running && !j.starting && j.leases == Leases(false, false)
      && j.view == (if i.start.outcome == Failed then i.view else View(Disconnected, None))
  {
  }

  /** A redelivered Want reopens exactly a connected attempt without a worker. */
  lemma ReopenedSession(i: Inner)
    ensures var j := Reopened(i);
      && (i.start.outcome == Outcome.Connected && i.runningNative == None ==>
            && j.start == i.start.(outcome := Outcome.Pending, cleanupComplete := false) && j.starting && !j.running)
      && (i.start.outcome != Outcome.Connected || i.runningNative != None ==> j == i)
  {
  }
}
