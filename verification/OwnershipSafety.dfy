/** What holds over every run of the ownership protocol, whatever the
    interleaving and wherever processes crash. */
module OwnershipSafety {
  import opened Lists
  import opened Strings
  import opened EngineState
  import opened OwnerJournal
  import opened OwnershipProtocol
  import opened StopFence
  import opened OwnershipInvariant
  import opened OwnershipSteps

  // ---- recoveries ----

  /** Ownership `o` is over and cannot come back. */
  predicate Moved(s: Shared, o: Ownership) {
    || o.attempt in s.history.deleted
    || (o.extension.None? && o.attempt in s.history.attached)
    || (o.extension.Some? && o.extension.value !in s.alive && !(Names(s.journal, o.attempt) && s.journal.value.extension == o.extension))
  }

  /** `o` was the ownership at `version`: either nothing changed since, or it is
      over for good. */
  predicate Tracks(s: Shared, o: Ownership, version: nat) {
    && version <= s.history.version
    && (version == s.history.version ==> OwnershipOf(s.journal) == Some(o))
    && (version < s.history.version ==> Moved(s, o))
    && o.issuer in s.used && (o.extension.Some? ==> o.extension.value in s.used)
  }

  predicate RecoveryInv(s: Shared, r: Recovery) {
    && r.attempt != ""
    && match r.at
       case MustObserve(owner, version) =>
         owner.attempt == r.attempt && Tracks(s, Ownership(r.attempt, owner.issuer, owner.extension), version)
       case MustDelete(issuer, extension, released, version) =>
         && Tracks(s, Ownership(r.attempt, issuer, extension), version)
         && (extension.Some? ==> released.Some?)
         && (released.Some? ==> released.value == if extension.Some? then extension.value else issuer)
         && (released.Some? && version == s.history.version ==> released.value !in s.alive)
       case MustCommit => r.attempt in s.history.deleted
       case _ => true
  }

  lemma RecoveryStable(p: Proc, s: Shared, t: Shared, r: Recovery)
    requires RecordInv(s) && RecordInv(t) && OwnersInv(t) && Guar(p, s, t) && RecoveryInv(s, r)
    ensures RecoveryInv(t, r)
  {
  }

  ghost predicate Inv(s: State) {
    && RecordInv(s.shared) && OwnersInv(s.shared) && s.engines.Keys == s.shared.alive
    && (forall p | p in s.engines :: LocalInv(p, s.shared, s.engines[p]))
    && (forall q | q in s.regions :: HonestFrame(s.shared, s.regions[q].ui) && HonestFrame(s.shared, s.regions[q].extension))
    && (forall id | id in s.recoveries :: RecoveryInv(s.shared, s.recoveries[id]))
  }

  // ---- a process takes a step ----

  lemma PutSound(s: State, p: Proc, y: Sight)
    requires Inv(s) && p in s.engines && Sound(p, SightOf(s, p), y)
    ensures Inv(Put(s, p, y))
  {
    hide RecordInv, OwnersInv, LocalInv, JournalGuar, RecoveryInv;
    var t := Put(s, p, y);
    forall q | q in t.engines ensures LocalInv(q, t.shared, t.engines[q]) {
      if q != p {
        Stable(p, q, s.shared, t.shared, s.engines[q]);
      }
    }
    forall id | id in t.recoveries ensures RecoveryInv(t.shared, t.recoveries[id]) {
      RecoveryStable(p, s.shared, t.shared, t.recoveries[id]);
    }
  }

  lemma SightGood(s: State, p: Proc)
    requires Inv(s) && p in s.engines
    ensures Good(p, SightOf(s, p)) && HonestFrame(s.shared, InboxOf(s, p))
  {
    hide RecordInv, OwnersInv, LocalInv, RecoveryInv, HonestFrame;
    assert HonestFrame(s.shared, None) by {
      HonestNothing(s.shared);
    }
  }

  lemma HonestNothing(s: Shared)
    ensures HonestFrame(s, None)
  {
  }

  lemma LocalStep(s: State, p: Proc, a: Action, y: Sight)
    requires Inv(s) && p in s.engines && Act(p, a, InboxOf(s, p), SightOf(s, p), y)
    ensures Sound(p, SightOf(s, p), y) && Inv(Put(s, p, y))
  {
    hide Inv, Sound, Act, Good;
    SightGood(s, p);
    ActSound(p, a, InboxOf(s, p), SightOf(s, p), y);
    PutSound(s, p, y);
  }

  // ---- recoveries take a step ----

  lemma ResumedSound(s: State, id: nat, r: Option<Recovery>)
    requires Inv(s) && (r.Some? ==> RecoveryInv(s.shared, r.value))
    ensures Inv(Resumed(s, id, r))
  {
    hide RecordInv, OwnersInv, LocalInv, RecoveryInv, HonestFrame;
  }

  lemma ObservedSound(s: Shared, r: Recovery)
    requires RecordInv(s) && OwnersInv(s) && RecoveryInv(s, r)
    ensures r.at.MustRead? ==> RecoveryRead(r, s).Some? ==> RecoveryInv(s, RecoveryRead(r, s).value)
    ensures r.at.MustObserve? ==> RecoveryObserved(r, s).Some? ==> RecoveryInv(s, RecoveryObserved(r, s).value)
  {
  }

  lemma DeletedStable(q: Proc, s: Shared, e: Engine)
    requires RecordInv(s) && LocalInv(q, s, e) && !OwnedBy(s.journal, q)
    ensures LocalInv(q, SetJournal(s, None), e)
  {
    var t := SetJournal(s, None);
    assert LeasesInv(q, t, e);
    assert OpInv(q, t, e) by {
      hide LeasesInv, RecordInv;
    }
  }

  lemma RecoverDeleteSound(s: State, id: nat, t: State)
    requires Inv(s) && AtRecovery(s, id) && Next(s, RecoverDelete(id), t)
    ensures Inv(t)
  {
    hide RecordInv, OwnersInv, LocalInv, RecoveryInv, Guar;
    var r := s.recoveries[id];
    var (shared, after) := RecoveryDeleted(r, s.shared);
    if shared != s.shared {
      assert r.proc.Valid() && r.proc in s.shared.alive by {
        assert LocalInv(r.proc, s.shared, s.engines[r.proc]);
        ValidAlive(r.proc, s.shared, s.engines[r.proc]);
      }
      DeletesDead(s.shared, r);
      SetJournalSound(r.proc, s.shared, None);
      DeletionRecorded(s.shared, r);
      HonestGrows(r.proc, s.shared, shared);
      forall q | q in s.engines ensures LocalInv(q, shared, s.engines[q]) {
        ValidAlive(q, s.shared, s.engines[q]);
        DeletedStable(q, s.shared, s.engines[q]);
      }
      forall k | k in s.recoveries ensures RecoveryInv(shared, s.recoveries[k]) {
        RecoveryStable(r.proc, s.shared, shared, s.recoveries[k]);
      }
    } else {
      DeletionRecorded(s.shared, r);
    }
    ResumedSound(s.(shared := shared), id, after);
  }

  /** A recovery deletes no record of a live Extension. */
  lemma DeletesDead(s: Shared, r: Recovery)
    requires RecordInv(s) && r.at.MustDelete? && RecoveryInv(s, r) && RecoveryDeleted(r, s).0 != s
    ensures s.journal.Some? && (s.journal.value.extension.Some? ==> s.journal.value.extension.value !in s.alive)
  {
    hide Blank;
  }

  lemma ValidAlive(p: Proc, s: Shared, e: Engine)
    requires LocalInv(p, s, e)
    ensures p.Valid() && p in s.alive
  {
  }

  lemma HonestGrows(p: Proc, s: Shared, t: Shared)
    requires Guar(p, s, t)
    ensures forall f | HonestFrame(s, f) :: HonestFrame(t, f)
  {
  }

  lemma DeletionRecorded(s: Shared, r: Recovery)
    requires r.at.MustDelete? && RecoveryInv(s, r)
    ensures var (shared, after) := RecoveryDeleted(r, s);
            && shared.alive == s.alive
            && (after.Some? ==> RecoveryInv(shared, after.value))
            && (shared == s || shared == SetJournal(s, None))
  {
  }

  lemma RecoverSyncSound(s: State, id: nat, now: nat, t: State)
    requires Inv(s) && Next(s, RecoverSync(id, now), t)
    ensures Inv(t)
  {
    hide RecordInv, OwnersInv, LocalInv, Act, Synced, Committed;
    var p := s.recoveries[id].proc;
    var i := Synced(s.engines[p], InboxOf(s, p), None, now);
    var y := Committed(SightOf(s, p), i, Ready);
    SyncActs(p, InboxOf(s, p), SightOf(s, p), now);
    LocalStep(s, p, Sync(now), y);
    ResumedSound(Put(s, p, y), id, RecoverySynced(s.recoveries[id], i));
  }

  lemma SyncActs(p: Proc, inbox: Option<Frame>, x: Sight, now: nat)
    requires x.engine.op.Ready?
    ensures Act(p, Sync(now), inbox, x, Committed(x, Synced(x.engine, inbox, None, now), Ready))
  {
  }

  /** Committing a recovery gives up leases of an attempt that is deleted. */
  lemma CommitRecovered(p: Proc, x: Sight, inbox: Option<Frame>, attempt: string, now: nat)
    requires Good(p, x) && HonestFrame(x.shared, inbox) && x.engine.op.Ready?
    requires attempt != "" && attempt in x.shared.history.deleted
    requires Synced(x.engine, inbox, None, now).start.attempt == attempt
    ensures Sound(p, x, Committed(x, Recovered(Synced(x.engine, inbox, None, now)), Publishing))
  {
    hide Synced, OwnersInv, Sound, Good;
    var i := Synced(x.engine, inbox, None, now);
    assert Takes(p, x.shared, x.engine, Recovered(i)) by {
      GoodParts(p, x);
      SyncTakes(p, x, inbox, None, now);
      SyncFacts(x.shared, x.engine, inbox, None, now);
    }
    CommitSound(p, x, Recovered(i), Publishing);
  }

  lemma GoodParts(p: Proc, x: Sight)
    requires Good(p, x)
    ensures RecordInv(x.shared) && LocalInv(p, x.shared, x.engine) && OwnersInv(x.shared)
  {
  }

  lemma RecoverCommitSound(s: State, id: nat, now: nat, t: State)
    requires Inv(s) && Next(s, RecoverCommit(id, now), t)
    ensures Inv(t)
  {
    hide RecordInv, OwnersInv, LocalInv, Act, Synced, Committed, Sound;
    var r := s.recoveries[id];
    var x := SightOf(s, r.proc);
    var i := Synced(x.engine, InboxOf(s, r.proc), None, now);
    SightGood(s, r.proc);
    if i.start.attempt == r.attempt && !i.start.cleanupComplete {
      CommitRecovered(r.proc, x, InboxOf(s, r.proc), r.attempt, now);
      PutSound(s, r.proc, Committed(x, Recovered(i), Publishing));
      ResumedSound(Put(s, r.proc, Committed(x, Recovered(i), Publishing)), id, None);
    } else {
      SyncActs(r.proc, InboxOf(s, r.proc), x, now);
      LocalStep(s, r.proc, Sync(now), Committed(x, i, Ready));
      ResumedSound(Put(s, r.proc, Committed(x, i, Ready)), id, None);
    }
  }

  // ---- processes come and go ----

  lemma CrashSound(s: State, p: Proc)
    requires Inv(s) && p in s.engines
    ensures Inv(Crashed(s, p))
  {
    hide HonestFrame, Honest, OpInv, LeasesInv;
    var t := Crashed(s, p);
    assert RecordInv(t.shared) && OwnersInv(t.shared) && t.engines.Keys == t.shared.alive;
    forall q | q in t.engines ensures LocalInv(q, t.shared, t.engines[q]) {
      CrashKeeps(s.shared, p, q, s.engines[q], t.shared);
    }
    forall k | k in t.recoveries ensures RecoveryInv(t.shared, t.recoveries[k]) {
      RecoveryOutlives(s.shared, t.shared, s.recoveries[k]);
    }
    forall q | q in t.regions ensures HonestFrame(t.shared, t.regions[q].ui) && HonestFrame(t.shared, t.regions[q].extension) {
      HonestSame(s.shared, t.shared);
    }
  }

  lemma HonestSame(s: Shared, t: Shared)
    requires s.history == t.history
    ensures forall f | HonestFrame(s, f) :: HonestFrame(t, f)
  {
  }

  lemma RecoveryOutlives(s: Shared, t: Shared, r: Recovery)
    requires RecoveryInv(s, r) && t.journal == s.journal && t.history == s.history
    requires s.used <= t.used && t.alive * s.used <= s.alive
    requires OwnersInv(s)
    ensures RecoveryInv(t, r)
  {
  }

  lemma CrashKeeps(s: Shared, p: Proc, q: Proc, e: Engine, t: Shared)
    requires p != q && LocalInv(q, s, e)
    requires t == s.(alive := s.alive - {p}, issuer := Without(s.issuer, p), extension := Without(s.extension, p))
    ensures LocalInv(q, t, e)
  {
  }

  lemma SpawnSound(s: State, p: Proc, ui: bool, inner: Inner, t: State)
    requires Inv(s) && Next(s, Spawn(p, ui, inner), t)
    ensures Inv(t)
  {
    hide OpInv, LeasesInv, Blank;
    forall q | q in s.engines ensures LocalInv(q, t.shared, s.engines[q]) {
      SpawnKeeps(s.shared, p, q, s.engines[q], t.shared);
    }
    assert LocalInv(p, t.shared, t.engines[p]) by {
      Newborn(s.shared, p, t.engines[p], t.shared);
    }
    forall k | k in t.recoveries ensures RecoveryInv(t.shared, t.recoveries[k]) {
      RecoveryOutlives(s.shared, t.shared, s.recoveries[k]);
    }
    assert RecordInv(t.shared) && OwnersInv(t.shared);
  }

  lemma SpawnKeeps(s: Shared, p: Proc, q: Proc, e: Engine, t: Shared)
    requires LocalInv(q, s, e) && t == s.(alive := s.alive + {p}, used := s.used + {p})
    ensures LocalInv(q, t, e)
  {
  }

  lemma Newborn(s: Shared, p: Proc, e: Engine, t: Shared)
    requires OwnersInv(s) && p !in s.used && p.Valid()
    requires t == s.(alive := s.alive + {p}, used := s.used + {p})
    requires Blank0(e.inner) && e.op.Ready?
    ensures LocalInv(p, t, e)
  {
  }

  /** The invariant of a process does not look at its peer. */
  lemma PeerIrrelevant(p: Proc, s: Shared, e: Engine, f: Engine)
    requires LocalInv(p, s, e) && f.ui == e.ui && f.op == e.op && f.intentEpoch == e.intentEpoch && f.osStop == e.osStop
    requires f.inner.start == e.inner.start && f.inner.leases == e.inner.leases && f.validated == e.validated
    ensures LocalInv(p, s, f)
  {
  }

  lemma AttachSound(s: State, step: Step, t: State)
    requires Inv(s) && Next(s, step, t) && (step.Attach? || step.AttachReset?)
    ensures Inv(t)
  {
    hide RecordInv, OwnersInv, RecoveryInv, HonestFrame, LocalInv;
    PeerIrrelevant(step.p, s.shared, s.engines[step.p], t.engines[step.p]);
  }

  lemma InvStep(s: State, step: Step, t: State)
    requires Inv(s) && Next(s, step, t)
    ensures Inv(t)
  {
    hide Inv, Act, RecoveryInv, Crashed, Put, Resumed;
    match step
    case Spawn(p, ui, inner) => SpawnSound(s, p, ui, inner, t);
    case Crash(p) => CrashSound(s, p);
    case Attach(_, _) => AttachSound(s, step, t);
    case AttachReset(_) => AttachSound(s, step, t);
    case Local(p, action, after) => LocalStep(s, p, action, after);
    case RecoverStart(id, p, attempt) => ResumedSound(s, id, Some(Recovery(p, attempt, MustSync))) by {
      assert RecoveryInv(s.shared, Recovery(p, attempt, MustSync)) by { FreshRecovery(s.shared, p, attempt); }
    }
    case RecoverSync(id, now) => RecoverSyncSound(s, id, now, t);
    case RecoverRead(id) => RecoverLooks(s, id); ResumedSound(s, id, RecoveryRead(s.recoveries[id], s.shared));
    case RecoverObserve(id) => RecoverLooks(s, id); ResumedSound(s, id, RecoveryObserved(s.recoveries[id], s.shared));
    case RecoverDelete(id) => RecoverDeleteSound(s, id, t);
    case RecoverCommit(id, now) => RecoverCommitSound(s, id, now, t);
    case RecoverTimeout(id) => ResumedSound(s, id, None);
  }

  lemma FreshRecovery(s: Shared, p: Proc, attempt: string)
    requires attempt != ""
    ensures RecoveryInv(s, Recovery(p, attempt, MustSync))
  {
  }

  lemma RecoverLooks(s: State, id: nat)
    requires Inv(s) && id in s.recoveries
    ensures var r := s.recoveries[id];
            && (r.at.MustRead? ==> RecoveryRead(r, s.shared).Some? ==> RecoveryInv(s.shared, RecoveryRead(r, s.shared).value))
            && (r.at.MustObserve? ==> RecoveryObserved(r, s.shared).Some? ==> RecoveryInv(s.shared, RecoveryObserved(r, s.shared).value))
  {
    hide RecordInv, OwnersInv, LocalInv, RecoveryInv, HonestFrame;
    ObservedSound(s.shared, s.recoveries[id]);
  }

  lemma {:induction false} InvAlways(states: seq<State>, steps: seq<Step>, n: nat)
    requires Run(states, steps) && n < |states|
    ensures Inv(states[n])
  {
    if n > 0 {
      InvAlways(states, steps, n - 1);
      InvStep(states[n - 1], steps[n - 1], states[n]);
    }
  }
}
