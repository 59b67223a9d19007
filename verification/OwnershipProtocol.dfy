/** UI and Extension processes competing for one VPN connection: every journal,
    lease or lane access is one step, and a crash may come between any two. */
module OwnershipProtocol {
  import opened Lists
  import opened Strings
  import opened EngineState
  import opened OwnerJournal
  import opened StopFence
  import SessionGeneration

  type Proc = ProcessIdentity

  // ---- shared state ----

  datatype LeaseRecord = LeaseRecord(attempt: string, owner: Proc)

  /** An exclusive file lock, and the record its last holder wrote. The record
      stays behind when the lock is released. */
  datatype Lease = Lease(holder: Option<Proc>, content: Option<LeaseRecord>)

  datatype Observation = HeldExact | HeldOther | Released

  function Observe(lease: Lease, expected: LeaseRecord): Observation {
    if lease.holder.None? then Released
    else if lease.content == Some(expected) then HeldExact
    else HeldOther
  }

  /** What happened so far; no process can see it. `version` counts the changes of
      ownership. */
  datatype History = History(
    drawn: map<string, Proc>, created: set<string>, deleted: set<string>, attached: set<string>, stopped: set<string>,
    version: nat)

  datatype Shared = Shared(journal: Journal, issuer: Lease, extension: Lease, alive: set<Proc>, used: set<Proc>, history: History)

  datatype Ownership = Ownership(attempt: string, issuer: Proc, extension: Option<Proc>)

  function OwnershipOf(j: Journal): Option<Ownership> {
    if j.None? then None else Some(Ownership(j.value.attempt, j.value.issuer, j.value.extension))
  }

  function Recorded(h: History, j: Journal, k: Journal): History {
    h.(created := if j.None? && k.Some? then h.created + {k.value.attempt} else h.created,
    deleted := if j.Some? && k.None? then h.deleted + {j.value.attempt} else h.deleted,
    attached := if k.Some? && k.value.phase.Attached? then h.attached + {k.value.attempt} else h.attached,
    stopped := if k.Some? && k.value.phase.Stopping? then h.stopped + {k.value.attempt} else h.stopped,
    version := if OwnershipOf(j) == OwnershipOf(k) then h.version else h.version + 1)
  }

  function SetJournal(s: Shared, k: Journal): Shared {
    s.(journal := k, history := Recorded(s.history, s.journal, k))
  }

  // ---- a process ----

  /** The operation that holds the engine lock, and how far it got. */
  datatype Op =
    | Ready
    | Publishing
    | BeginRead(epoch: nat)
    | BeginLock(epoch: nat, attempt: string)
    | BeginWrite(epoch: nat, attempt: string)
    | BeginCreate(epoch: nat, attempt: string)
    | BindRead(attempt: string)
    | BindObserve(attempt: string, owner: Record)
    | BindLock(attempt: string, owner: Record)
    | BindWrite(attempt: string, owner: Record)
    | BindSwap(attempt: string, owner: Record)
    | BindSync(attempt: string)
    | ClaimRead(epoch: nat, retained: Option<string>)
    | ClaimPublish(epoch: nat, owner: Record)
    | ClaimFence(epoch: nat, owner: Record, hot: bool)
    | ClaimReread(epoch: nat, owner: Record, hot: bool)
    | CompleteRead(attempt: string)
    | CompleteDelete(attempt: string)
    | FailDelete(attempt: string)
    | Guarding
    | GuardPublish
  {
    predicate HoldsIssuer() {
      BeginWrite? || BeginCreate?
    }

    predicate HoldsExtension() {
      BindWrite? || BindSwap? || Guarding? || GuardPublish?
    }
  }

  /** `attaching` from the replacement of the shared memory to the reset of what was
      known of the previous lane: two critical sections of one call. `validated` is
      the attempt of the last Want checked against the journal since the process last
      attached itself to a record. */
  datatype Engine = Engine(
    ui: bool, inner: Inner, peer: Option<Proc>, attaching: bool, validated: Option<string>, intentEpoch: nat, osStop: OsStop,
    op: Op)

  /** What one process can change: the shared files, its engine, its own lane. */
  datatype Sight = Sight(shared: Shared, engine: Engine, lane: Option<Frame>)

  function Locked(lease: Lease, p: Proc): Lease {
    lease.(holder := Some(p))
  }

  function Unlocked(lease: Lease): Lease {
    lease.(holder := None)
  }

  /** Leases that are no longer stored are released. */
  function Freed(s: Shared, before: Leases, after: Leases): Shared {
    s.(issuer := if before.issuer && !after.issuer then Unlocked(s.issuer) else s.issuer,
    extension := if before.extension && !after.extension then Unlocked(s.extension) else s.extension)
  }

  function Committed(x: Sight, inner: Inner, op: Op): Sight {
    x.(shared := Freed(x.shared, x.engine.inner.leases, inner.leases), engine := x.engine.(inner := inner, op := op))
  }

  function Reached(x: Sight, op: Op): Sight {
    x.(engine := x.engine.(op := op))
  }

  /** An operation gives up: a lease it holds but has not stored is released. */
  function Abandoned(x: Sight): Sight {
    x.(shared := x.shared.(issuer := if x.engine.op.HoldsIssuer() then Unlocked(x.shared.issuer) else x.shared.issuer,
       extension := if x.engine.op.HoldsExtension() then Unlocked(x.shared.extension) else x.shared.extension),
       engine := x.engine.(op := Ready))
  }

  function Synced(e: Engine, inbox: Option<Frame>, expected: Option<string>, now: nat): Inner {
    if inbox.None? then e.inner else Merge(e.inner, e.ui, expected, inbox.value, now)
  }

  /** `persist_platform_locked` with the frame landing in the lane. */
  function PublishedTo(x: Sight, now: nat, op: Op): Sight {
    var inner := Persisted(x.engine.inner, now);
    x.(engine := x.engine.(inner := inner, op := op), lane := Some(Published(inner)))
  }

  // ---- start: draw an attempt, lock the issuer lease, create the record ----

  function Began(i: Inner, attempt: string): Inner {
    i.(start := Start(attempt, Outcome.Pending, false, false, false, 0, 0, false), leases := Leases(true, false),
    running := false, starting := true, watchdogRecoverable := false, link := Link(0, None, None), view := View(Establishing, None))
  }

  predicate BeginStarts(x: Sight, y: Sight, inbox: Option<Frame>, epoch: nat, now: nat) {
    var e := x.engine;
    var i := Synced(e, inbox, None, now);
    var free := !i.start.outcome.Pending? && (i.start.attempt == "" || i.start.cleanupComplete) && !i.running;
    && e.op.Ready? && e.ui && epoch != 0 && e.intentEpoch == epoch && e.osStop.epoch == 0
    && y == Committed(x, i, if free then BeginRead(epoch) else Ready)
  }

  predicate BeginReads(p: Proc, x: Sight, y: Sight, attempt: string) {
    var drawn := x.shared.history.drawn;
    && x.engine.op.BeginRead?
    && if x.shared.journal.Some? then y == Reached(x, Ready)
       else
         && !Blank(attempt) && attempt !in drawn
         && y == Reached(x, BeginLock(x.engine.op.epoch, attempt))
                 .(shared := x.shared.(history := x.shared.history.(drawn := drawn[attempt := p])))
  }

  predicate BeginLocks(p: Proc, x: Sight, y: Sight) {
    var op := x.engine.op;
    && op.BeginLock?
    && y == if x.shared.issuer.holder.Some? then Reached(x, Ready)
            else Reached(x, BeginWrite(op.epoch, op.attempt)).(shared := x.shared.(issuer := Locked(x.shared.issuer, p)))
  }

  predicate BeginWrites(p: Proc, x: Sight, y: Sight) {
    var op := x.engine.op;
    && op.BeginWrite?
    && y == Reached(x, BeginCreate(op.epoch, op.attempt))
            .(shared := x.shared.(issuer := x.shared.issuer.(content := Some(LeaseRecord(op.attempt, p)))))
  }

  predicate BeginCreates(p: Proc, x: Sight, y: Sight) {
    var op := x.engine.op;
    && op.BeginCreate?
    && var (k, ok) := CreatePending(x.shared.journal, Record(op.attempt, p, None, Phase.Pending));
       y == if ok then Committed(x, Began(x.engine.inner, op.attempt), Publishing).(shared := SetJournal(x.shared, k))
            else Abandoned(x)
  }

  // ---- bind: the Extension takes the delivered attempt over ----

  /** A redelivered Want for a connected attempt without a worker reopens it. */
  function Reopened(i: Inner): Inner {
    if i.start.outcome.Connected? && i.runningNative.None? then
      i.(start := i.start.(outcome := Outcome.Pending, cleanupComplete := false), starting := true, running := false,
      watchdogRecoverable := false)
    else i
  }

  /** `validate_platform_owner_journal_for_want`, which runs outside the engine lock:
      the journal must name the delivered attempt, unfenced. What else it checks only
      refuses more. */
  predicate Validates(x: Sight, y: Sight, attempt: string) {
    && !x.engine.ui && Names(x.shared.journal, attempt) && !x.shared.journal.value.phase.Stopping?
    && y == x.(engine := x.engine.(validated := Some(attempt)))
  }

  /** A process that holds a lease binds another attempt only for a Want it validated
      after that lease was attached. */
  predicate BindStarts(x: Sight, y: Sight, inbox: Option<Frame>, attempt: string, now: nat) {
    var e := x.engine;
    var i := Synced(e, inbox, Some(attempt), now);
    && e.op.Ready? && !e.ui && attempt != ""
    && (e.inner.leases.extension ==> e.inner.start.attempt == attempt || e.validated == Some(attempt))
    && inbox.Some? && inbox.value.start.attempt == attempt && !inbox.value.Terminal()
    && y == if i.start.attempt != attempt || i.start.outcome.Terminal() then Committed(x, i, Ready)
            else Committed(x, Reopened(i), BindRead(attempt))
  }

  predicate BindReads(p: Proc, x: Sight, y: Sight) {
    var op, j := x.engine.op, x.shared.journal;
    && op.BindRead?
    && y == if !Names(j, op.attempt) || j.value.phase.Stopping? then Reached(x, Ready)
            else if j.value.extension != Some(p) then Reached(x, BindObserve(op.attempt, j.value))
            else if x.engine.inner.leases.extension then Reached(x, BindSync(op.attempt))
            else Reached(x, BindLock(op.attempt, j.value))
  }

  /** A pending attempt needs its live issuer, an attached one a released owner. */
  predicate BindObserves(x: Sight, y: Sight) {
    var op, s := x.engine.op, x.shared;
    && op.BindObserve?
    && var allowed :=
         if op.owner.extension.None? then Observe(s.issuer, LeaseRecord(op.attempt, op.owner.issuer)) == HeldExact
         else Observe(s.extension, LeaseRecord(op.attempt, op.owner.extension.value)) == Released;
       y == Reached(x, if allowed then BindLock(op.attempt, op.owner) else Ready)
  }

  predicate BindLocks(p: Proc, x: Sight, y: Sight) {
    var op := x.engine.op;
    && op.BindLock?
    && y == if x.shared.extension.holder.Some? then Reached(x, Ready)
            else Reached(x, BindWrite(op.attempt, op.owner)).(shared := x.shared.(extension := Locked(x.shared.extension, p)))
  }

  predicate BindWrites(p: Proc, x: Sight, y: Sight) {
    var op := x.engine.op;
    && op.BindWrite?
    && y == Reached(x, BindSwap(op.attempt, op.owner))
            .(shared := x.shared.(extension := x.shared.extension.(content := Some(LeaseRecord(op.attempt, p)))))
  }

  /** The compare-and-swap of a bind; a process that already is the recorded
      owner only reacquires its lease. */
  function Swapped(j: Journal, owner: Record, attempt: string, p: Proc): (Journal, bool) {
    if owner.extension.None? then UpgradeAttached(j, attempt, owner.issuer, p)
    else if owner.extension == Some(p) then (j, true)
    else RebindAttached(j, attempt, owner.issuer, owner.extension.value, p)
  }

  predicate BindSwaps(p: Proc, x: Sight, y: Sight) {
    var op, i := x.engine.op, x.engine.inner;
    && op.BindSwap?
    && var (k, ok) := Swapped(x.shared.journal, op.owner, op.attempt, p);
       var z := Committed(x, i.(leases := i.leases.(extension := true)), BindSync(op.attempt));
       y == if ok then z.(shared := SetJournal(x.shared, k), engine := z.engine.(validated := None))
            else Abandoned(x)
  }

  function Bound(i: Inner, p: Proc): Inner {
    var owned := i.(start := i.start.(ownerPid := p.pid, ownerStartTime := p.startTime));
    if !i.start.extensionAttached then
      owned.(start := owned.start.(deliveryObserved := true, extensionAttached := true, cleanupComplete := false),
      watchdogRecoverable := false)
    else if i.start.outcome.Pending? && i.starting && !i.running then
      owned.(start := owned.start.(deliveryObserved := true))
    else owned
  }

  predicate BindSyncs(p: Proc, x: Sight, y: Sight, inbox: Option<Frame>, now: nat) {
    var op := x.engine.op;
    var i := Synced(x.engine, inbox, None, now);
    && op.BindSync?
    && y == if i.start.attempt != op.attempt then Committed(x, i, Ready)
            else Committed(x, Bound(i, p), if Bound(i, p) == i then Ready else Publishing)
  }

  // ---- stop claim: publish the request, fence the record, raise the fence ----

  predicate Cold(i: Inner) {
    i.start.attempt == "" || i.start.cleanupComplete
  }

  function StopClaimed(i: Inner): Inner {
    if i.start.outcome.Pending? then
      i.(start := i.start.(outcome := Cancelled, stopRequested := true), starting := false, running := false)
    else i.(start := i.start.(stopRequested := true))
  }

  function Claimed(x: Sight, epoch: nat, attempt: string): Sight {
    x.(engine := x.engine.(osStop := OsStop(epoch, attempt, false), op := Ready))
  }

  predicate ClaimStarts(x: Sight, y: Sight, inbox: Option<Frame>, epoch: nat, now: nat) {
    var e := x.engine;
    && e.op.Ready? && e.ui && epoch != 0 && e.intentEpoch == epoch && !e.osStop.inFlight
    && y == Committed(x, Synced(e, inbox, None, now),
                      ClaimRead(epoch, if e.osStop.epoch != 0 then Some(e.osStop.attempt) else None))
  }

  predicate ClaimReads(x: Sight, y: Sight) {
    var op, i, j := x.engine.op, x.engine.inner, x.shared.journal;
    && op.ClaimRead?
    && y == if j.None? then
              (if Cold(i) && op.retained.Some? then Claimed(x, op.epoch, op.retained.value) else Reached(x, Ready))
            else if op.retained.Some? && op.retained.value != j.value.attempt then Reached(x, Ready)
            else if Cold(i) then Reached(x, ClaimFence(op.epoch, j.value, false))
            else if i.start.attempt != j.value.attempt then Reached(x, Ready)
            else Committed(x, StopClaimed(i), ClaimPublish(op.epoch, j.value))
  }

  predicate ClaimPublishes(x: Sight, y: Sight, now: nat) {
    var op := x.engine.op;
    op.ClaimPublish? && y == PublishedTo(x, now, ClaimFence(op.epoch, op.owner, true))
  }

  predicate ClaimFences(x: Sight, y: Sight) {
    var op := x.engine.op;
    && op.ClaimFence?
    && var (k, answer) := FencePendingStop(x.shared.journal, op.owner.attempt, op.owner.issuer);
       y == if !op.owner.phase.Pending? then Claimed(x, op.epoch, op.owner.attempt)
            else if answer.Yes? then Claimed(x, op.epoch, op.owner.attempt).(shared := SetJournal(x.shared, k))
            else if answer.No? then Reached(x, ClaimReread(op.epoch, op.owner, op.hot))
            else Reached(x, Ready)
  }

  predicate ClaimRereads(x: Sight, y: Sight) {
    var op, j := x.engine.op, x.shared.journal;
    && op.ClaimReread?
    && y == if Names(j, op.owner.attempt) && !j.value.phase.Pending? then Claimed(x, op.epoch, op.owner.attempt)
            else Reached(x, Ready)
  }

  // ---- cleanup acknowledged by the Extension, and a start failed by the UI ----

  function CleanedUp(i: Inner): Inner {
    i.(start := i.start.(cleanupComplete := true, extensionAttached := false, stopRequested := true, ownerPid := 0,
       ownerStartTime := 0), leases := Leases(false, false), watchdogRecoverable := false)
  }

  predicate CompleteStarts(x: Sight, y: Sight, inbox: Option<Frame>, attempt: string, now: nat) {
    var e := x.engine;
    var i := Synced(e, inbox, None, now);
    var owing := && attempt != "" && i.start.attempt == attempt && !i.running && !i.starting
                 && i.start.outcome.Terminal() && !i.start.cleanupComplete && i.leases.extension;
    && e.op.Ready? && !e.ui
    && y == Committed(x, i, if owing then CompleteRead(attempt) else Ready)
  }

  predicate CompleteReads(p: Proc, x: Sight, y: Sight) {
    var op, j, start := x.engine.op, x.shared.journal, x.engine.inner.start;
    && op.CompleteRead?
    && var mine := && Names(j, op.attempt) && j.value.phase.Attached? && j.value.extension == Some(p)
                   && p.pid == start.ownerPid && p.startTime == start.ownerStartTime;
       y == Reached(x, if mine then CompleteDelete(op.attempt) else Ready)
  }

  predicate CompleteDeletes(p: Proc, x: Sight, y: Sight) {
    var op := x.engine.op;
    && op.CompleteDelete?
    && var (k, answer) := DeleteExact(x.shared.journal, op.attempt, Some(p));
       y == if answer.Yes? then
              Committed(x.(shared := SetJournal(x.shared, k)), CleanedUp(x.engine.inner), Publishing)
            else Reached(x, Ready)
  }

  predicate FailStarts(x: Sight, y: Sight, inbox: Option<Frame>, attempt: string, now: nat) {
    var e := x.engine;
    var i := Synced(e, inbox, None, now);
    var waiting := attempt != "" && i.start.attempt == attempt && i.start.outcome.Pending? && !i.start.extensionAttached;
    && e.op.Ready?
    && y == Committed(x, i, if waiting then FailDelete(attempt) else Ready)
  }

  function StartFailed(i: Inner, message: string): Inner {
    i.(start := i.start.(outcome := Failed, cleanupComplete := true), starting := false, running := false,
    leases := Leases(false, false), pendingNative := None, runningNative := None, view := View(Broken, Some(message)))
  }

  predicate FailDeletes(x: Sight, y: Sight, message: string) {
    var op := x.engine.op;
    && op.FailDelete?
    && var (k, answer) := DeletePending(x.shared.journal, op.attempt);
       y == if answer.Yes? then
              Committed(x.(shared := SetJournal(x.shared, k)), StartFailed(x.engine.inner, message), Publishing)
            else Reached(x, Ready)
  }

  // ---- the UI's liveness check holds the Extension lease while it decides ----

  predicate GuardLocks(p: Proc, x: Sight, y: Sight) {
    var start := x.engine.inner.start;
    && x.engine.op.Ready? && x.engine.ui
    && start.extensionAttached && !start.cleanupComplete && (start.outcome.Pending? || start.outcome.Connected?)
    && x.shared.extension.holder.None?
    && y == Reached(x, Guarding).(shared := x.shared.(extension := Locked(x.shared.extension, p)))
  }

  function OwnerLost(i: Inner): Inner {
    i.(start := i.start.(outcome := Failed), running := false, starting := false, link := i.link.(staleSince := None),
    view := View(Broken, Some("VPN extension owner lease was released")))
  }

  predicate GuardReads(x: Sight, y: Sight) {
    var j, start := x.shared.journal, x.engine.inner.start;
    && x.engine.op.Guarding?
    && var lost := && Names(j, start.attempt) && j.value.phase.Attached? && j.value.extension.Some?
                   && j.value.extension.value.pid == start.ownerPid
                   && j.value.extension.value.startTime == start.ownerStartTime;
       y == if lost then x.(engine := x.engine.(op := GuardPublish, inner := OwnerLost(x.engine.inner)))
            else Abandoned(x)
  }

  predicate GuardPublishes(x: Sight, y: Sight, now: nat) {
    x.engine.op.GuardPublish? && y == PublishedTo(Abandoned(x), now, Ready)
  }

  // ---- intents and the OS-stop fence ----

  predicate OsStopBegins(x: Sight, y: Sight, epoch: nat, attempt: string) {
    var e := x.engine;
    && e.op.Ready? && e.ui && MayBegin(e.intentEpoch, e.osStop, epoch, attempt)
    && y == x.(engine := e.(osStop := OsStop(epoch, attempt, true)))
  }

  /** Every other locked section: it may change the session, but neither the
      attempt nor the leases, and neither drops a stop request nor claims a
      cleanup. */
  predicate Keeps(i: Inner, j: Inner) {
    && j.start.attempt == i.start.attempt && j.leases == i.leases && j.link == i.link
    && (j.start.cleanupComplete ==> i.start.cleanupComplete)
    && (i.start.stopRequested ==> j.start.stopRequested)
    && i.localUpdatedAt <= j.localUpdatedAt
  }

  datatype Action =
    | BeginStart(epoch: nat, now: nat)
    | BeginReadStep(attempt: string)
    | BeginLockStep
    | BeginWriteStep
    | BeginCreateStep
    | Validate(attempt: string)
    | BindStart(attempt: string, now: nat)
    | BindReadStep
    | BindObserveStep
    | BindLockStep
    | BindWriteStep
    | BindSwapStep
    | BindSyncStep(now: nat)
    | ClaimStart(epoch: nat, now: nat)
    | ClaimReadStep
    | ClaimPublishStep(now: nat)
    | ClaimFenceStep
    | ClaimRereadStep
    | CompleteStart(attempt: string, now: nat)
    | CompleteReadStep
    | CompleteDeleteStep
    | FailStart(attempt: string, now: nat)
    | FailDeleteStep(message: string)
    | GuardLockStep
    | GuardReadStep
    | GuardPublishStep(now: nat)
    | Sync(now: nat)
    | Publish(now: nat)
    | Move(inner: Inner)
    | PrepareConnect
    | AdvanceIntent
    | OsStopBegin(epoch: nat, attempt: string)
    | OsStopComplete(epoch: nat, attempt: string)
    | OsStopFail(epoch: nat, attempt: string)
    | Abort

  predicate Act(p: Proc, a: Action, inbox: Option<Frame>, x: Sight, y: Sight) {
    var e := x.engine;
    match a
    case BeginStart(epoch, now) => BeginStarts(x, y, inbox, epoch, now)
    case BeginReadStep(attempt) => BeginReads(p, x, y, attempt)
    case BeginLockStep => BeginLocks(p, x, y)
    case BeginWriteStep => BeginWrites(p, x, y)
    case BeginCreateStep => BeginCreates(p, x, y)
    case Validate(attempt) => Validates(x, y, attempt)
    case BindStart(attempt, now) => BindStarts(x, y, inbox, attempt, now)
    case BindReadStep => BindReads(p, x, y)
    case BindObserveStep => BindObserves(x, y)
    case BindLockStep => BindLocks(p, x, y)
    case BindWriteStep => BindWrites(p, x, y)
    case BindSwapStep => BindSwaps(p, x, y)
    case BindSyncStep(now) => BindSyncs(p, x, y, inbox, now)
    case ClaimStart(epoch, now) => ClaimStarts(x, y, inbox, epoch, now)
    case ClaimReadStep => ClaimReads(x, y)
    case ClaimPublishStep(now) => ClaimPublishes(x, y, now)
    case ClaimFenceStep => ClaimFences(x, y)
    case ClaimRereadStep => ClaimRereads(x, y)
    case CompleteStart(attempt, now) => CompleteStarts(x, y, inbox, attempt, now)
    case CompleteReadStep => CompleteReads(p, x, y)
    case CompleteDeleteStep => CompleteDeletes(p, x, y)
    case FailStart(attempt, now) => FailStarts(x, y, inbox, attempt, now)
    case FailDeleteStep(message) => FailDeletes(x, y, message)
    case GuardLockStep => GuardLocks(p, x, y)
    case GuardReadStep => GuardReads(x, y)
    case GuardPublishStep(now) => GuardPublishes(x, y, now)
    case Sync(now) => e.op.Ready? && y == Committed(x, Synced(e, inbox, None, now), Ready)
    case Publish(now) => (e.op.Ready? || e.op.Publishing?) && (e.ui || e.peer.Some?) && y == PublishedTo(x, now, Ready)
    case Move(inner) => e.op.Ready? && Keeps(e.inner, inner) && y == x.(engine := e.(inner := inner))
    case PrepareConnect =>
      && e.op.Ready? && e.ui && SessionGeneration.CanPrepare(e.inner)
      && y == x.(engine := e.(inner := SessionGeneration.BeginPrepare(e.inner), op := Publishing))
    case AdvanceIntent =>
      e.op.Ready? && e.ui && e.intentEpoch < EPOCH_MAX && y == x.(engine := e.(intentEpoch := e.intentEpoch + 1))
    case OsStopBegin(epoch, attempt) => OsStopBegins(x, y, epoch, attempt)
    case OsStopComplete(epoch, attempt) =>
      e.op.Ready? && InFlightFor(e.osStop, epoch, attempt) && y == x.(engine := e.(osStop := OsStop(0, "", false)))
    case OsStopFail(epoch, attempt) =>
      e.op.Ready? && InFlightFor(e.osStop, epoch, attempt) && y == x.(engine := e.(osStop := e.osStop.(inFlight := false)))
    case Abort => !e.op.Ready? && y == Abandoned(x)
  }

  // ---- recovery runs beside the locked operations ----

  datatype Point =
    | MustSync
    | MustRead(unattachedFence: bool)
    | MustObserve(owner: Record, version: nat)
    | MustDelete(issuer: Proc, extension: Option<Proc>, released: Option<Proc>, version: nat)
    | MustCommit

  datatype Recovery = Recovery(proc: Proc, attempt: string, at: Point)

  predicate UnattachedFence(i: Inner, attempt: string) {
    i.start.attempt == attempt && !i.start.extensionAttached && i.start.stopRequested && i.start.outcome.Terminal()
  }

  /** `None` when the recovery returns. */
  function RecoverySynced(r: Recovery, i: Inner): Option<Recovery> {
    if i.start.attempt == r.attempt && i.start.cleanupComplete then None
    else Some(r.(at := MustRead(UnattachedFence(i, r.attempt))))
  }

  function RecoveryRead(r: Recovery, s: Shared): Option<Recovery>
    requires r.at.MustRead?
  {
    if !Names(s.journal, r.attempt) then None
    else
      var owner := s.journal.value;
      if owner.phase.Stopping? || (owner.phase.Pending? && r.at.unattachedFence) then
        Some(r.(at := MustDelete(owner.issuer, None, None, s.history.version)))
      else
        Some(r.(at := MustObserve(owner, s.history.version)))
  }

  /** The process whose lease proves, once released, that nobody owns the record. */
  function Witness(owner: Record): Proc {
    if owner.extension.Some? then owner.extension.value else owner.issuer
  }

  function RecoveryObserved(r: Recovery, s: Shared): Option<Recovery>
    requires r.at.MustObserve?
  {
    var owner := r.at.owner;
    var lease := if owner.extension.Some? then s.extension else s.issuer;
    match Observe(lease, LeaseRecord(r.attempt, Witness(owner)))
    case Released => Some(r.(at := MustDelete(owner.issuer, owner.extension, Some(Witness(owner)), r.at.version)))
    case HeldExact => Some(r.(at := MustSync))
    case HeldOther => None
  }

  /** The record as it was proved, or another round. */
  function RecoveryDeleted(r: Recovery, s: Shared): (Shared, Option<Recovery>)
    requires r.at.MustDelete?
  {
    var (k, answer) := DeleteExact(s.journal, r.attempt, r.at.extension);
    if answer.Yes? then (SetJournal(s, k), Some(r.(at := MustCommit)))
    else if answer.No? then (s, Some(r.(at := MustSync)))
    else (s, None)
  }

  function Recovered(i: Inner): Inner {
    var cleaned := CleanedUp(i).(starting := false, running := false);
    if i.start.outcome.Failed? then cleaned
    else cleaned.(start := cleaned.start.(outcome := Cancelled), view := View(Disconnected, None))
  }

  // ---- the whole system ----

  /** The two lanes of the memory a UI process shares. It outlives the process. */
  datatype Region = Region(ui: Option<Frame>, extension: Option<Frame>)

  datatype State = State(shared: Shared, engines: map<Proc, Engine>, regions: map<Proc, Region>, recoveries: map<nat, Recovery>)

  datatype Step =
    | Spawn(p: Proc, ui: bool, inner: Inner)
    | Crash(p: Proc)
    | Attach(p: Proc, peer: Proc)
    | AttachReset(p: Proc)
    | Local(p: Proc, action: Action, after: Sight)
    | RecoverStart(id: nat, p: Proc, attempt: string)
    | RecoverSync(id: nat, now: nat)
    | RecoverRead(id: nat)
    | RecoverObserve(id: nat)
    | RecoverDelete(id: nat)
    | RecoverCommit(id: nat, now: nat)
    | RecoverTimeout(id: nat)

  function RegionOf(e: Engine, p: Proc): Option<Proc> {
    if e.ui then Some(p) else e.peer
  }

  /** The newest frame of the other side, if any. */
  function InboxOf(s: State, p: Proc): Option<Frame>
    requires p in s.engines
  {
    var region := RegionOf(s.engines[p], p);
    if region.None? || region.value !in s.regions then None
    else if s.engines[p].ui then s.regions[region.value].extension
    else s.regions[region.value].ui
  }

  function LaneOf(s: State, p: Proc): Option<Frame>
    requires p in s.engines
  {
    var region := RegionOf(s.engines[p], p);
    if region.None? || region.value !in s.regions then None
    else if s.engines[p].ui then s.regions[region.value].ui
    else s.regions[region.value].extension
  }

  function SightOf(s: State, p: Proc): Sight
    requires p in s.engines
  {
    Sight(s.shared, s.engines[p], LaneOf(s, p))
  }

  function WithLane(regions: map<Proc, Region>, e: Engine, p: Proc, lane: Option<Frame>): map<Proc, Region> {
    var region := RegionOf(e, p);
    if region.None? || region.value !in regions then regions
    else if e.ui then regions[region.value := regions[region.value].(ui := lane)]
    else regions[region.value := regions[region.value].(extension := lane)]
  }

  function Put(s: State, p: Proc, y: Sight): State {
    State(y.shared, s.engines[p := y.engine], WithLane(s.regions, y.engine, p, y.lane), s.recoveries)
  }

  function Resumed(s: State, id: nat, r: Option<Recovery>): State {
    s.(recoveries := if r.Some? then s.recoveries[id := r.value] else map k | k in s.recoveries && k != id :: s.recoveries[k])
  }

  function Without(lease: Lease, p: Proc): Lease {
    if lease.holder == Some(p) then Unlocked(lease) else lease
  }

  function Crashed(s: State, p: Proc): State {
    State(s.shared.(alive := s.shared.alive - {p}, issuer := Without(s.shared.issuer, p),
          extension := Without(s.shared.extension, p)),
          map q | q in s.engines && q != p :: s.engines[q], s.regions,
          map k | k in s.recoveries && s.recoveries[k].proc != p :: s.recoveries[k])
  }

  /** A new process has no attempt, no lease and no revision yet. */
  predicate Blank0(i: Inner) {
    && i.start == Start("", Outcome.Idle, false, false, false, 0, 0, false)
    && i.leases == Leases(false, false) && i.link == Link(0, None, None) && i.localUpdatedAt == 0
  }

  predicate AtRecovery(s: State, id: nat) {
    id in s.recoveries && s.recoveries[id].proc in s.engines
  }

  predicate AtLockedRecovery(s: State, id: nat) {
    AtRecovery(s, id) && s.engines[s.recoveries[id].proc].op.Ready?
  }

  predicate Next(s: State, step: Step, t: State) {
    match step
    case Spawn(p, ui, inner) =>
      && p.Valid() && p !in s.shared.used && Blank0(inner)
      && t == State(s.shared.(alive := s.shared.alive + {p}, used := s.shared.used + {p}),
                    s.engines[p := Engine(ui, inner, None, false, None, 0, OsStop(0, "", false), Ready)],
                    if ui then s.regions[p := Region(None, None)] else s.regions, s.recoveries)
    case Crash(p) => p in s.engines && t == Crashed(s, p)
    case Attach(p, peer) =>
      // Not under the engine lock: any operation may be in flight.
      && p in s.engines && !s.engines[p].ui && peer in s.regions
      && t == s.(engines := s.engines[p := s.engines[p].(peer := Some(peer), attaching := true)])
    case AttachReset(p) =>
      && p in s.engines && !s.engines[p].ui && s.engines[p].op.Ready?
      && t == s.(engines := s.engines[p := s.engines[p].(attaching := false,
                 inner := s.engines[p].inner.(link := Link(0, None, None)))])
    case Local(p, action, after) => p in s.engines && Act(p, action, InboxOf(s, p), SightOf(s, p), after) && t == Put(s, p, after)
    case RecoverStart(id, p, attempt) =>
      && p in s.engines && s.engines[p].ui && id !in s.recoveries && attempt != ""
      && t == Resumed(s, id, Some(Recovery(p, attempt, MustSync)))
    case RecoverSync(id, now) =>
      && AtLockedRecovery(s, id) && s.recoveries[id].at.MustSync?
      && var p := s.recoveries[id].proc;
         var i := Synced(s.engines[p], InboxOf(s, p), None, now);
         t == Resumed(Put(s, p, Committed(SightOf(s, p), i, Ready)), id, RecoverySynced(s.recoveries[id], i))
    case RecoverRead(id) =>
      && AtRecovery(s, id) && s.recoveries[id].at.MustRead?
      && t == Resumed(s, id, RecoveryRead(s.recoveries[id], s.shared))
    case RecoverObserve(id) =>
      && AtRecovery(s, id) && s.recoveries[id].at.MustObserve?
      && t == Resumed(s, id, RecoveryObserved(s.recoveries[id], s.shared))
    case RecoverDelete(id) =>
      && AtRecovery(s, id) && s.recoveries[id].at.MustDelete?
      && var (shared, r) := RecoveryDeleted(s.recoveries[id], s.shared);
         t == Resumed(s.(shared := shared), id, r)
    case RecoverCommit(id, now) =>
      && AtLockedRecovery(s, id) && s.recoveries[id].at.MustCommit?
      && var p := s.recoveries[id].proc;
         var i := Synced(s.engines[p], InboxOf(s, p), None, now);
         var owing := i.start.attempt == s.recoveries[id].attempt && !i.start.cleanupComplete;
         t == Resumed(Put(s, p, if owing then Committed(SightOf(s, p), Recovered(i), Publishing)
                                else Committed(SightOf(s, p), i, Ready)), id, None)
    case RecoverTimeout(id) => id in s.recoveries && t == Resumed(s, id, None)
  }

  predicate Init(s: State) {
    && s.shared == Shared(None, Lease(None, None), Lease(None, None), {}, {}, History(map[], {}, {}, {}, {}, 0))
    && s.engines == map[] && s.regions == map[] && s.recoveries == map[]
  }

  ghost predicate Run(states: seq<State>, steps: seq<Step>) {
    && |states| == |steps| + 1 && Init(states[0])
    && forall k | 0 <= k < |steps| :: Next(states[k], steps[k], states[k + 1])
  }
}
