/** Every step a process takes keeps its own invariant and gives the others the
    guarantee they rely on. */
module OwnershipSteps {
  import opened Lists
  import opened Strings
  import opened EngineState
  import opened OwnerJournal
  import opened OwnershipProtocol
  import opened StopFence
  import opened OwnershipInvariant
  import SessionGeneration

  ghost predicate Sound(p: Proc, x: Sight, y: Sight) {
    Good(p, y) && Guar(p, x.shared, y.shared)
  }

  // ---- steps that touch no shared file ----

  lemma Unmoved(p: Proc, s: Shared)
    ensures Guar(p, s, s)
  {
  }

  /** The engine moves on without giving up a lease or changing its attempt. */
  lemma QuietSound(p: Proc, x: Sight, y: Sight)
    requires Good(p, x) && y.shared == x.shared && y.engine.ui == x.engine.ui
    requires y.engine.inner.leases == x.engine.inner.leases
    requires y.engine.inner.start.attempt == x.engine.inner.start.attempt || (y.engine.inner.start.attempt == "" && x.engine.ui)
    requires Honest(x.shared, y.engine.inner.start) && OpInv(p, y.shared, y.engine) && WantInv(y.engine)
    requires y.lane == x.lane || (y.lane.Some? && y.lane.value.start == y.engine.inner.start)
    ensures Sound(p, x, y)
  {
    hide OpInv, RecordInv, OwnersInv;
    Unmoved(p, x.shared);
  }

  // ---- merges and the leases they give up ----

  lemma SyncFacts(s: Shared, e: Engine, inbox: Option<Frame>, expected: Option<string>, now: nat)
    requires Honest(s, e.inner.start) && HonestFrame(s, inbox)
    ensures var i := Synced(e, inbox, expected, now);
      && Honest(s, i.start)
      && (i.start.attempt == e.inner.start.attempt || (!e.ui && expected == Some(i.start.attempt)))
      && (i.leases == e.inner.leases
          || (i.leases == Leases(false, false) && i.start.attempt != "" && i.start.attempt in s.history.deleted))
  {
    hide Watched, MergeAdvanced, Adopted;
    if inbox.Some? {
      var r := inbox.value;
      MergeProgress(e.inner, e.ui, expected, r, now);
      MergeCleanupOrigin(e.inner, e.ui, expected, r, now);
      MergeConcerns(e.inner, e.ui, expected, r, now);
    }
  }

  /** A merge that changes anything ends on the attempt of the frame. */
  lemma MergeConcerns(i: Inner, isUi: bool, expected: Option<string>, r: Frame, now: nat)
    ensures var j := Merge(i, isUi, expected, r, now); j == i || (j.start.attempt == r.start.attempt && r.start.attempt != "")
  {
    hide MergeAdvanced, Watched;
    if Concerns(i, isUi, expected, r) {
      WatchedFacts(i, isUi, expected, r, now);
      AdvancedFacts(Watched(i, isUi, expected, r, now).0, isUi, r);
    }
  }

  /** The record a locked section commits: it stores no new lease, and it gives one
      up only when the journal does not bind the process to it any more. */
  predicate Takes(p: Proc, s: Shared, e: Engine, i: Inner) {
    && Honest(s, i.start)
    && (i.leases.issuer ==> e.inner.leases.issuer) && (i.leases.extension ==> e.inner.leases.extension)
    && (e.inner.leases.issuer && !i.leases.issuer ==> !IssuedBy(s.journal, p))
    && (e.inner.leases.extension && !i.leases.extension ==> !OwnedBy(s.journal, p))
    && (i.start.attempt == e.inner.start.attempt || (!e.ui && !e.inner.leases.extension))
  }

  lemma CommitSound(p: Proc, x: Sight, i: Inner, op: Op)
    requires Good(p, x) && !x.engine.op.HoldsIssuer() && !x.engine.op.HoldsExtension()
    requires Takes(p, x.shared, x.engine, i)
    requires OpInv(p, Committed(x, i, op).shared, Committed(x, i, op).engine)
    ensures Sound(p, x, Committed(x, i, op))
  {
    hide OpInv, RecordInv;
    var y := Committed(x, i, op);
    LeaseSound(p, x.shared, y.shared.issuer, y.shared.extension);
    assert LeasesInv(p, y.shared, y.engine);
  }

  lemma SyncTakes(p: Proc, x: Sight, inbox: Option<Frame>, expected: Option<string>, now: nat)
    requires Good(p, x) && HonestFrame(x.shared, inbox)
    requires expected.Some? && x.engine.inner.leases.extension ==>
               x.engine.inner.start.attempt == expected.value || x.engine.validated == expected
    ensures Takes(p, x.shared, x.engine, Synced(x.engine, inbox, expected, now))
  {
    hide Synced, OpInv, OwnersInv;
    SyncFacts(x.shared, x.engine, inbox, expected, now);
  }

  /** Steps that begin with a merge. */
  lemma SyncStepsSound(p: Proc, a: Action, inbox: Option<Frame>, x: Sight, y: Sight)
    requires Good(p, x) && HonestFrame(x.shared, inbox) && Act(p, a, inbox, x, y)
    requires a.BeginStart? || a.ClaimStart? || a.CompleteStart? || a.FailStart? || a.Sync?
    ensures Sound(p, x, y)
  {
    hide Synced, RecordInv, OwnersInv, LeasesInv;
    var i := Synced(x.engine, inbox, None, a.now);
    SyncTakes(p, x, inbox, None, a.now);
    CommitSound(p, x, i, y.engine.op);
  }

  lemma BindStartSound(p: Proc, a: Action, inbox: Option<Frame>, x: Sight, y: Sight)
    requires Good(p, x) && HonestFrame(x.shared, inbox) && Act(p, a, inbox, x, y) && a.BindStart?
    ensures Sound(p, x, y)
  {
    hide Synced, RecordInv, OwnersInv, LeasesInv;
    var i := Synced(x.engine, inbox, Some(a.attempt), a.now);
    SyncTakes(p, x, inbox, Some(a.attempt), a.now);
    CommitSound(p, x, if i.start.attempt != a.attempt || i.start.outcome.Terminal() then i else Reopened(i), y.engine.op);
  }

  /** The bind was superseded: only the merge is committed. */
  lemma SupersededSound(p: Proc, x: Sight, i: Inner)
    requires Good(p, x) && x.engine.op.BindSync? && Takes(p, x.shared, x.engine, i)
    ensures Sound(p, x, Committed(x, i, Ready))
  {
    hide RecordInv, OwnersInv, LeasesInv, Honest;
    CommitSound(p, x, i, Ready);
  }

  lemma BoundSound(p: Proc, x: Sight, i: Inner, op: Op)
    requires Good(p, x) && x.engine.op.BindSync? && Takes(p, x.shared, x.engine, i) && (op.Ready? || op.Publishing?)
    ensures Sound(p, x, Committed(x, Bound(i, p), op))
  {
    hide RecordInv, OwnersInv, LeasesInv;
    CommitSound(p, x, Bound(i, p), op);
  }

  lemma BindSyncSound(p: Proc, a: Action, inbox: Option<Frame>, x: Sight, y: Sight)
    requires Good(p, x) && HonestFrame(x.shared, inbox) && Act(p, a, inbox, x, y) && a.BindSyncStep?
    ensures Sound(p, x, y)
  {
    hide Synced, Good, Sound, Takes, Bound, Freed;
    var i := Synced(x.engine, inbox, None, a.now);
    SyncTakes(p, x, inbox, None, a.now);
    if i.start.attempt != x.engine.op.attempt {
      SupersededSound(p, x, i);
    } else {
      BoundSound(p, x, i, y.engine.op);
    }
  }

  // ---- leases taken and given up ----

  lemma IssuerLeaseSound(p: Proc, a: Action, inbox: Option<Frame>, x: Sight, y: Sight)
    requires Good(p, x) && Act(p, a, inbox, x, y) && (a.BeginLockStep? || a.BeginWriteStep?)
    ensures Sound(p, x, y)
  {
    hide RecordInv, Blank;
    LeaseSound(p, x.shared, y.shared.issuer, y.shared.extension);
  }

  lemma ExtensionLeaseSound(p: Proc, a: Action, inbox: Option<Frame>, x: Sight, y: Sight)
    requires Good(p, x) && Act(p, a, inbox, x, y) && (a.BindLockStep? || a.BindWriteStep?)
    ensures Sound(p, x, y)
  {
    hide RecordInv, Blank;
    LeaseSound(p, x.shared, y.shared.issuer, y.shared.extension);
  }

  lemma GuardLockSound(p: Proc, x: Sight, y: Sight)
    requires Good(p, x) && GuardLocks(p, x, y)
    ensures Sound(p, x, y)
  {
    hide RecordInv, Blank;
    LeaseSound(p, x.shared, y.shared.issuer, y.shared.extension);
  }

  lemma AbandonSound(p: Proc, x: Sight)
    requires Good(p, x)
    ensures Sound(p, x, Abandoned(x))
  {
    hide RecordInv;
    var y := Abandoned(x);
    LeaseSound(p, x.shared, y.shared.issuer, y.shared.extension);
  }

  // ---- reads of the journal ----

  lemma BindReadSound(p: Proc, x: Sight, y: Sight)
    requires Good(p, x) && BindReads(p, x, y)
    ensures Sound(p, x, y)
  {
    hide Blank;
    QuietSound(p, x, y);
  }

  lemma BindObserveSound(p: Proc, x: Sight, y: Sight)
    requires Good(p, x) && BindObserves(x, y)
    ensures Sound(p, x, y)
  {
    hide RecordInv, OwnersInv, LeasesInv, Observe;
    QuietSound(p, x, y);
  }

  lemma ClaimReadSound(p: Proc, x: Sight, y: Sight)
    requires Good(p, x) && ClaimReads(x, y)
    ensures Sound(p, x, y)
  {
    hide Blank;
    QuietSound(p, x, y);
  }

  lemma ClaimRereadSound(p: Proc, x: Sight, y: Sight)
    requires Good(p, x) && ClaimRereads(x, y)
    ensures Sound(p, x, y)
  {
    hide RecordInv, OwnersInv, LeasesInv;
    QuietSound(p, x, y);
  }

  lemma CompleteReadSound(p: Proc, x: Sight, y: Sight)
    requires Good(p, x) && CompleteReads(p, x, y)
    ensures Sound(p, x, y)
  {
    hide RecordInv, OwnersInv, LeasesInv;
    QuietSound(p, x, y);
  }

  lemma GuardReadSound(p: Proc, x: Sight, y: Sight)
    requires Good(p, x) && GuardReads(x, y)
    ensures Sound(p, x, y)
  {
    hide RecordInv, OwnersInv, LeasesInv;
    if y.engine.op.GuardPublish? {
      QuietSound(p, x, y);
    } else {
      AbandonSound(p, x);
    }
  }

  /** A validated Want and a held lease name the same record. */
  lemma ValidateSound(p: Proc, x: Sight, y: Sight, attempt: string)
    requires Good(p, x) && Validates(x, y, attempt)
    ensures Sound(p, x, y)
  {
    hide RecordInv, OwnersInv, OpInv;
    OpIgnoresWant(p, x.shared, x.engine, attempt);
    QuietSound(p, x, y);
  }

  lemma OpIgnoresWant(p: Proc, s: Shared, e: Engine, attempt: string)
    requires OpInv(p, s, e)
    ensures OpInv(p, s, e.(validated := Some(attempt)))
  {
  }

  // ---- writes of the journal ----

  lemma DrawSound(p: Proc, a: Action, inbox: Option<Frame>, x: Sight, y: Sight)
    requires Good(p, x) && Act(p, a, inbox, x, y) && a.BeginReadStep?
    ensures Sound(p, x, y)
  {
    hide Blank;
    if x.shared.journal.Some? {
      QuietSound(p, x, y);
    } else {
      assert LeasesInv(p, y.shared, y.engine);
    }
  }

  /** The two facts a record change needs about the record it leaves behind. */
  lemma CreateSound(p: Proc, x: Sight, y: Sight)
    requires Good(p, x) && BeginCreates(p, x, y)
    ensures Sound(p, x, y)
  {
    hide Blank;
    var op := x.engine.op;
    var (k, ok) := CreatePending(x.shared.journal, Record(op.attempt, p, None, Phase.Pending));
    if ok {
      assert Allowed(p, x.shared, k);
      SetJournalSound(p, x.shared, k);
      assert LeasesInv(p, y.shared, y.engine);
    } else {
      AbandonSound(p, x);
    }
  }

  lemma SwapSound(p: Proc, x: Sight, y: Sight)
    requires Good(p, x) && BindSwaps(p, x, y)
    ensures Sound(p, x, y)
  {
    hide Blank;
    var op := x.engine.op;
    var (k, ok) := Swapped(x.shared.journal, op.owner, op.attempt, p);
    if ok {
      assert Allowed(p, x.shared, k);
      SetJournalSound(p, x.shared, k);
      assert LeasesInv(p, y.shared, y.engine);
    } else {
      AbandonSound(p, x);
    }
  }

  lemma FenceSound(p: Proc, x: Sight, y: Sight)
    requires Good(p, x) && ClaimFences(x, y)
    ensures Sound(p, x, y)
  {
    hide Blank;
    var op := x.engine.op;
    var (k, answer) := FencePendingStop(x.shared.journal, op.owner.attempt, op.owner.issuer);
    if op.owner.phase.Pending? && answer.Yes? {
      assert Allowed(p, x.shared, k);
      SetJournalSound(p, x.shared, k);
      assert LeasesInv(p, y.shared, y.engine);
    } else {
      QuietSound(p, x, y);
    }
  }

  /** Deleting the record and giving both leases up. */
  lemma DeleteSound(p: Proc, x: Sight, i: Inner)
    requires x.engine.op.CompleteDelete? || x.engine.op.FailDelete?
    requires Good(p, x) && Names(x.shared.journal, x.engine.inner.start.attempt)
    requires i.start.attempt == x.engine.inner.start.attempt && i.leases == Leases(false, false)
    requires x.shared.journal.value.extension.Some? ==> x.shared.journal.value.extension == Some(p)
    ensures Sound(p, x, Committed(x.(shared := SetJournal(x.shared, None)), i, Publishing))
  {
    hide Blank;
    var s := SetJournal(x.shared, None);
    SetJournalSound(p, x.shared, None);
    var y := Committed(x.(shared := s), i, Publishing);
    LeaseSound(p, s, y.shared.issuer, y.shared.extension);
    GuarChains(p, x.shared, s, y.shared);
    assert LeasesInv(p, y.shared, y.engine);
  }

  lemma CompleteDeleteSound(p: Proc, x: Sight, y: Sight)
    requires Good(p, x) && CompleteDeletes(p, x, y)
    ensures Sound(p, x, y)
  {
    hide RecordInv, OwnersInv, LeasesInv;
    if y.engine.op.Publishing? {
      DeleteSound(p, x, CleanedUp(x.engine.inner));
    } else {
      QuietSound(p, x, y);
    }
  }

  lemma FailDeleteSound(p: Proc, x: Sight, y: Sight, message: string)
    requires Good(p, x) && FailDeletes(x, y, message)
    ensures Sound(p, x, y)
  {
    hide RecordInv, OwnersInv, LeasesInv;
    if y.engine.op.Publishing? {
      DeleteSound(p, x, StartFailed(x.engine.inner, message));
    } else {
      QuietSound(p, x, y);
    }
  }

  // ---- everything else ----

  lemma PublishSound(p: Proc, x: Sight, now: nat, op: Op)
    requires Good(p, x) && OpInv(p, x.shared, PublishedTo(x, now, op).engine)
    ensures Sound(p, x, PublishedTo(x, now, op))
  {
    hide RecordInv, OwnersInv, LeasesInv;
    QuietSound(p, x, PublishedTo(x, now, op));
  }

  lemma PublishStepsSound(p: Proc, a: Action, inbox: Option<Frame>, x: Sight, y: Sight)
    requires Good(p, x) && Act(p, a, inbox, x, y)
    requires a.ClaimPublishStep? || a.GuardPublishStep? || a.Publish?
    ensures Sound(p, x, y)
  {
    hide RecordInv, OwnersInv, LeasesInv, Published;
    if a.GuardPublishStep? {
      AbandonSound(p, x);
      var z := Abandoned(x);
      PublishSound(p, z, a.now, Ready);
    } else {
      PublishSound(p, x, a.now, y.engine.op);
    }
  }

  lemma OtherStepsSound(p: Proc, a: Action, inbox: Option<Frame>, x: Sight, y: Sight)
    requires Good(p, x) && Act(p, a, inbox, x, y)
    requires || a.Move? || a.PrepareConnect? || a.AdvanceIntent? || a.OsStopBegin? || a.OsStopComplete? || a.OsStopFail?
             || a.Abort?
    ensures Sound(p, x, y)
  {
    hide RecordInv, OwnersInv;
    if a.Abort? {
      AbandonSound(p, x);
    } else {
      QuietSound(p, x, y);
    }
  }

  lemma ActSound(p: Proc, a: Action, inbox: Option<Frame>, x: Sight, y: Sight)
    requires Good(p, x) && HonestFrame(x.shared, inbox) && Act(p, a, inbox, x, y)
    ensures Sound(p, x, y)
  {
    hide Good, Sound, BeginStarts, BindStarts, BindSyncs, ClaimStarts, CompleteStarts, FailStarts, PublishedTo, Committed;
    match a
    case BeginReadStep(_) => DrawSound(p, a, inbox, x, y);
    case BeginCreateStep => CreateSound(p, x, y);
    case BindStart(_, _) => BindStartSound(p, a, inbox, x, y);
    case BindReadStep => BindReadSound(p, x, y);
    case BindObserveStep => BindObserveSound(p, x, y);
    case BindSwapStep => SwapSound(p, x, y);
    case BindSyncStep(_) => BindSyncSound(p, a, inbox, x, y);
    case ClaimReadStep => ClaimReadSound(p, x, y);
    case ClaimFenceStep => FenceSound(p, x, y);
    case ClaimRereadStep => ClaimRereadSound(p, x, y);
    case CompleteReadStep => CompleteReadSound(p, x, y);
    case CompleteDeleteStep => CompleteDeleteSound(p, x, y);
    case FailDeleteStep(message) => FailDeleteSound(p, x, y, message);
    case GuardReadStep => GuardReadSound(p, x, y);
    case Validate(attempt) => ValidateSound(p, x, y, attempt);
    case GuardLockStep => GuardLockSound(p, x, y);
    case _ =>
      if a.BeginStart? || a.ClaimStart? || a.CompleteStart? || a.FailStart? || a.Sync? {
        SyncStepsSound(p, a, inbox, x, y);
      } else if a.BeginLockStep? || a.BeginWriteStep? {
        IssuerLeaseSound(p, a, inbox, x, y);
      } else if a.BindLockStep? || a.BindWriteStep? {
        ExtensionLeaseSound(p, a, inbox, x, y);
      } else if a.ClaimPublishStep? || a.GuardPublishStep? || a.Publish? {
        PublishStepsSound(p, a, inbox, x, y);
      } else {
        OtherStepsSound(p, a, inbox, x, y);
      }
  }
}
