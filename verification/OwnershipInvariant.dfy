/** The inductive invariant of the ownership protocol: a process proves its own
    steps sound, and is unaffected by what the others guarantee. */
module OwnershipInvariant {
  import opened Lists
  import opened Strings
  import opened EngineState
  import opened OwnerJournal
  import opened OwnershipProtocol
  import opened StopFence
  import SessionGeneration

  // ---- the invariant ----

  /** The journal holds the one attempt that was created and not yet deleted. */
  ghost predicate RecordInv(s: Shared) {
    var h, j := s.history, s.journal;
    && ValidJournal(j)
    && h.created <= h.drawn.Keys && "" !in h.created
    && h.deleted <= h.created && h.attached <= h.created && h.stopped <= h.created && h.attached !! h.stopped
    && (forall a :: a in h.created && a !in h.deleted <==> Names(j, a))
    && (j.Some? ==> (j.value.attempt in h.attached <==> j.value.phase.Attached?))
    && (j.Some? ==> (j.value.attempt in h.stopped <==> j.value.phase.Stopping?))
  }

  /** A live process that the record names holds the lease of its role. */
  predicate OwnersInv(s: Shared) {
    && s.alive <= s.used
    && (s.issuer.holder.Some? ==> s.issuer.holder.value in s.alive)
    && (s.extension.holder.Some? ==> s.extension.holder.value in s.alive)
    && (s.journal.Some? ==>
          var r := s.journal.value;
          && r.issuer in s.used && (r.issuer in s.alive ==> s.issuer.holder == Some(r.issuer))
          && (r.extension.Some? ==>
                r.extension.value in s.used && (r.extension.value in s.alive ==> s.extension.holder == r.extension)))
  }

  predicate IssuedBy(j: Journal, p: Proc) {
    j.Some? && j.value.issuer == p
  }

  predicate OwnedBy(j: Journal, p: Proc) {
    j.Some? && j.value.extension == Some(p)
  }

  /** Known attempts only, and a cleanup is never claimed before the deletion. */
  predicate Honest(s: Shared, start: Start) {
    start.attempt != "" ==> start.attempt in s.history.created && (start.cleanupComplete ==> start.attempt in s.history.deleted)
  }

  predicate HonestFrame(s: Shared, f: Option<Frame>) {
    f.Some? ==> Honest(s, f.value.start)
  }

  predicate LeasesInv(p: Proc, s: Shared, e: Engine) {
    var i := e.inner;
    && (i.leases.issuer ==> e.ui && s.issuer.holder == Some(p))
    && (i.leases.extension ==>
          !e.ui && s.extension.holder == Some(p) && Names(s.journal, i.start.attempt) && OwnedBy(s.journal, p))
    && (IssuedBy(s.journal, p) ==> i.leases.issuer && (i.start.attempt == "" || Names(s.journal, i.start.attempt)))
    && (OwnedBy(s.journal, p) ==> i.leases.extension && Names(s.journal, i.start.attempt))
  }

  predicate Starting(p: Proc, s: Shared, e: Engine, epoch: nat, attempt: string) {
    && e.ui && epoch != 0 && e.intentEpoch == epoch && e.osStop.epoch == 0
    && !Blank(attempt) && attempt in s.history.drawn && s.history.drawn[attempt] == p && attempt !in s.history.created
  }

  predicate OwnerRead(s: Shared, r: Record) {
    && r.Valid() && r.attempt in s.history.created
    && r.issuer in s.used && (r.extension.Some? ==> r.extension.value in s.used)
    && (r.phase.Attached? ==> r.attempt in s.history.attached)
    && (r.phase.Stopping? ==> r.attempt in s.history.stopped)
  }

  predicate Binding(p: Proc, s: Shared, e: Engine, attempt: string, owner: Record) {
    && !e.ui && e.inner.start.attempt == attempt
    && OwnerRead(s, owner) && owner.attempt == attempt && !owner.phase.Stopping? && owner.extension != Some(p)
  }

  predicate StopCurrent(e: Engine, epoch: nat) {
    e.ui && epoch != 0 && e.intentEpoch == epoch && !e.osStop.inFlight
  }

  predicate Claiming(s: Shared, e: Engine, epoch: nat, owner: Record, hot: bool) {
    && StopCurrent(e, epoch) && OwnerRead(s, owner)
    && (e.osStop.epoch != 0 ==> e.osStop.attempt == owner.attempt)
    && (hot <==> e.inner.start.attempt == owner.attempt)
    && (hot ==> e.inner.start.stopRequested)
  }

  predicate OpInv(p: Proc, s: Shared, e: Engine) {
    && (e.op.HoldsIssuer() ==> !e.inner.leases.issuer && s.issuer.holder == Some(p))
    && (e.op.HoldsExtension() ==> !e.inner.leases.extension && s.extension.holder == Some(p))
    && match e.op
       case Ready => true
       case Publishing => true
       case BeginRead(epoch) => e.ui && epoch != 0 && e.intentEpoch == epoch && e.osStop.epoch == 0
       case BeginLock(epoch, attempt) => Starting(p, s, e, epoch, attempt)
       case BeginWrite(epoch, attempt) => Starting(p, s, e, epoch, attempt)
       case BeginCreate(epoch, attempt) => Starting(p, s, e, epoch, attempt)
       case BindRead(attempt) => !e.ui && e.inner.start.attempt == attempt
       case BindObserve(attempt, owner) => Binding(p, s, e, attempt, owner)
       case BindLock(attempt, owner) => Binding(p, s, e, attempt, owner)
       case BindWrite(attempt, owner) => Binding(p, s, e, attempt, owner)
       case BindSwap(attempt, owner) => Binding(p, s, e, attempt, owner)
       case BindSync(attempt) => !e.ui && e.inner.start.attempt == attempt
       case ClaimRead(epoch, retained) =>
         StopCurrent(e, epoch) && retained == if e.osStop.epoch != 0 then Some(e.osStop.attempt) else None
       case ClaimPublish(epoch, owner) => Claiming(s, e, epoch, owner, true)
       case ClaimFence(epoch, owner, hot) => Claiming(s, e, epoch, owner, hot)
       case ClaimReread(epoch, owner, hot) => Claiming(s, e, epoch, owner, hot)
       case CompleteRead(attempt) => !e.ui && e.inner.start.attempt == attempt
       case CompleteDelete(attempt) => !e.ui && e.inner.start.attempt == attempt
       case FailDelete(attempt) => e.inner.start.attempt == attempt
       case Guarding => e.ui
       case GuardPublish => e.ui
  }

  /** A Want validated since the attachment is for the attempt that is attached. */
  predicate WantInv(e: Engine) {
    e.validated.Some? && e.inner.leases.extension ==> e.inner.start.attempt == e.validated.value
  }

  predicate LocalInv(p: Proc, s: Shared, e: Engine) {
    && p.Valid() && p in s.alive
    && LeasesInv(p, s, e) && Honest(s, e.inner.start) && OpInv(p, s, e) && WantInv(e)
  }

  ghost predicate Good(p: Proc, x: Sight) {
    && RecordInv(x.shared) && OwnersInv(x.shared) && LocalInv(p, x.shared, x.engine) && HonestFrame(x.shared, x.lane)
  }

  // ---- what a process guarantees to all others ----

  /** Histories only grow, and only with what `p` itself did. */
  ghost predicate Grows(p: Proc, h: History, k: History) {
    && h.created <= k.created && h.deleted <= k.deleted && h.attached <= k.attached && h.stopped <= k.stopped
    && h.version <= k.version
    && (forall a | a in h.drawn :: a in k.drawn && k.drawn[a] == h.drawn[a])
    && (forall a | a in k.created && a !in h.created :: a in h.drawn && h.drawn[a] == p)
  }

  predicate NewOwner(p: Proc, s: Shared, t: Shared) {
    s.journal.Some? && t.journal.Some? && t.journal.value.extension == Some(p) && p in s.alive
  }

  /** How ownership can leave `o`: deleted, attached by `p`, or rebound by `p`
      after its Extension died. */
  predicate OwnershipLeft(p: Proc, s: Shared, t: Shared, o: Ownership) {
    || o.attempt in t.history.deleted
    || (NewOwner(p, s, t) && o.extension.None? && o.attempt in t.history.attached)
    || (NewOwner(p, s, t) && o.extension.Some? && o.extension.value !in s.alive)
  }

  ghost predicate JournalGuar(p: Proc, s: Shared, t: Shared) {
    && (t.history.version == s.history.version <==> OwnershipOf(t.journal) == OwnershipOf(s.journal))
    && (OwnershipOf(t.journal) != OwnershipOf(s.journal) && s.journal.Some? ==> OwnershipLeft(p, s, t, OwnershipOf(s.journal).value))
    && (t.journal.Some? && OwnershipOf(t.journal) != OwnershipOf(s.journal) ==>
          || NewOwner(p, s, t)
          || (t.journal.value.issuer == p && t.journal.value.extension.None? && t.journal.value.attempt !in s.history.created))
    && (forall q | q != p && OwnedBy(s.journal, q) && s.extension.holder == Some(q) :: t.journal == s.journal)
    && (s.journal.Some? && t.journal.Some? ==>
          t.journal.value.attempt == s.journal.value.attempt && t.journal.value.issuer == s.journal.value.issuer)
    && (s.journal.Some? && t.journal.None? ==> s.journal.value.attempt in t.history.deleted)
  }

  ghost predicate Guar(p: Proc, s: Shared, t: Shared) {
    && t.alive == s.alive && t.used == s.used
    && Grows(p, s.history, t.history) && JournalGuar(p, s, t)
    && (forall q | q != p :: s.issuer.holder == Some(q) <==> t.issuer.holder == Some(q))
    && (forall q | q != p :: s.extension.holder == Some(q) <==> t.extension.holder == Some(q))
  }

  /** The invariant of a process survives the steps of every other process. */
  lemma Stable(p: Proc, q: Proc, s: Shared, t: Shared, e: Engine)
    requires p != q && RecordInv(s) && RecordInv(t) && Guar(p, s, t) && LocalInv(q, s, e)
    ensures LocalInv(q, t, e)
  {
    assert LeasesInv(q, t, e) by {
      hide OpInv, OwnershipLeft;
    }
    assert OpInv(q, t, e) by {
      hide LeasesInv, JournalGuar;
    }
  }

  // ---- journal changes ----

  /** The journal changes a process makes, with what makes each of them safe. */
  predicate Allowed(p: Proc, s: Shared, k: Journal) {
    var j := s.journal;
    || k == j
    || (k.None? && (j.value.extension.Some? ==> j.value.extension.value == p || j.value.extension.value !in s.alive))
    || (&& j.None? && k.Some? && k == Some(Record(k.value.attempt, p, None, Phase.Pending)) && !Blank(k.value.attempt)
        && s.issuer.holder == Some(p) && k.value.attempt !in s.history.created
        && k.value.attempt in s.history.drawn && s.history.drawn[k.value.attempt] == p)
    || (j.Some? && k.Some? && j.value.phase.Pending? && k.value == j.value.(phase := Phase.Stopping))
    || (j.Some? && k.Some? && j.value.phase.Pending? && s.extension.holder == Some(p)
        && k.value == j.value.(phase := Phase.Attached, extension := Some(p)))
    || (&& j.Some? && k.Some? && j.value.phase.Attached? && s.extension.holder == Some(p)
        && j.value.extension.Some? && j.value.extension.value !in s.alive
        && k.value == j.value.(extension := Some(p)))
  }

  lemma BlankIsEmpty()
    ensures Blank("")
  {
  }

  lemma SetJournalSound(p: Proc, s: Shared, k: Journal)
    requires RecordInv(s) && OwnersInv(s) && p.Valid() && p in s.alive && Allowed(p, s, k)
    ensures var t := SetJournal(s, k); RecordInv(t) && OwnersInv(t) && Guar(p, s, t)
  {
    BlankIsEmpty();
    var t := SetJournal(s, k);
    assert RecordInv(t);
    assert OwnersInv(t) by {
      hide Blank;
    }
    assert JournalGuar(p, s, t) by {
      hide Blank;
    }
  }

  // ---- lease changes ----

  /** `p` takes a free lease, gives one up that the record does not bind to it, or
      rewrites the record of one it holds. */
  predicate LeaseStep(p: Proc, a: Lease, b: Lease, bound: bool) {
    || b.holder == a.holder
    || (a.holder.None? && b.holder == Some(p))
    || (a.holder == Some(p) && b.holder.None? && !bound)
  }

  lemma LeaseSound(p: Proc, s: Shared, issuer: Lease, extension: Lease)
    requires RecordInv(s) && OwnersInv(s) && p in s.alive
    requires LeaseStep(p, s.issuer, issuer, IssuedBy(s.journal, p))
    requires LeaseStep(p, s.extension, extension, OwnedBy(s.journal, p))
    ensures var t := s.(issuer := issuer, extension := extension); RecordInv(t) && OwnersInv(t) && Guar(p, s, t)
  {
  }

  lemma GuarChains(p: Proc, s: Shared, t: Shared, u: Shared)
    requires Guar(p, s, t) && Guar(p, t, u) && t.journal == u.journal && t.history == u.history
    ensures Guar(p, s, u)
  {
  }
}
