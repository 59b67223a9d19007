/** The two-phase operations on a session: each takes the lock, bumps the
    generation, works without the lock, and commits only if the generation is
    still its own. */
module SessionGeneration {
  import opened Lists
  import opened EngineState

  // ---- the locked sections ----

  /** `generation += 1` on 64 bits. */
  function WrappingNext(generation: nat): nat {
    (generation + 1) % (GENERATION_MAX + 1)
  }

  predicate CanPrepare(i: Inner) {
    !i.view.lifecycle.Busy() && i.runningNative.None? && i.pendingNative.None?
  }

  function BeginPrepare(i: Inner): Inner {
    i.(running := false, starting := false,
    start := i.start.(attempt := "", outcome := Idle, extensionAttached := false),
    generation := WrappingNext(i.generation), view := View(Connecting, None))
  }

  /** `prepare_native` announces authentication before its blocking work, without
      looking at the generation. */
  function Authenticate(i: Inner): Inner {
    i.(view := View(Authenticating, None))
  }

  datatype Attempted = Client(client: nat) | Error(message: string)

  function CommitPrepare(i: Inner, generation: nat, result: Attempted): Inner {
    if i.generation != generation then i
    else if result.Client? then
      i.(pendingNative := Some(result.client), starting := true, view := View(Establishing, None))
    else
      i.(pendingNative := None, starting := false, running := false, view := View(Broken, Some(result.message)))
  }

  function BeginExtensionWork(i: Inner): Inner {
    i.(generation := NextGeneration(i.generation))
  }

  predicate StillMine(i: Inner, generation: nat, attempt: string) {
    i.generation == generation && i.start.attempt == attempt && !i.start.outcome.Terminal()
  }

  function CommitExtensionPrepare(i: Inner, generation: nat, attempt: string, client: nat): Inner {
    if !StillMine(i, generation, attempt) then i
    else i.(pendingNative := Some(client), starting := true, view := View(Establishing, None))
  }

  /** The attach takes the pending client with it. */
  function BeginAttach(i: Inner): Inner {
    BeginExtensionWork(i).(pendingNative := None)
  }

  predicate CanInstall(i: Inner, generation: nat, attempt: string) {
    && StillMine(i, generation, attempt)
    && (i.view.lifecycle.Connecting? || i.view.lifecycle.Authenticating? || i.view.lifecycle.Establishing?)
  }

  function CommitAttach(i: Inner, generation: nat, attempt: string, client: nat): Inner {
    if !CanInstall(i, generation, attempt) then i
    else
      i.(runningNative := Some(Worker(client, generation, attempt)), running := true, starting := false,
      start := if i.start.outcome.Pending? then i.start.(outcome := Connected) else i.start,
      view := View(Up, None))
  }

  predicate ForAttempt(i: Inner, expected: Option<string>) {
    expected.None? || i.start.attempt == expected.value
  }

  predicate CanDisconnect(i: Inner, expected: Option<string>) {
    ForAttempt(i, expected) && !i.view.lifecycle.Disconnected?
  }

  function BeginDisconnect(i: Inner): Inner {
    i.(starting := false, running := false,
    start := i.start.(stopRequested := true, outcome := if i.start.outcome.Failed? then Failed else Cancelled),
    view := View(Disconnecting, None), generation := WrappingNext(i.generation),
    pendingNative := None, runningNative := None)
  }

  function FinishDisconnect(i: Inner, generation: nat, expected: Option<string>): Inner {
    if i.generation != generation || !ForAttempt(i, expected) then i
    else if i.view.lifecycle.Disconnecting? || i.view.lifecycle.Up? then
      i.(running := false, starting := false, view := View(Disconnected, None))
    else i
  }

  /** `on_native_session_ended`, called from the worker thread. */
  function WorkerEnded(i: Inner, generation: nat, error: Option<string>): Inner {
    if i.generation != generation then i
    else
      var l := i.view.lifecycle;
      var owner := i.running && i.start.outcome.Connected?;
      var gone := i.(runningNative := None, pendingNative := None, running := false, starting := false);
      if l.Disconnected? || l.Disconnecting? || l.Broken? || i.start.outcome.Terminal() then gone
      else if error.Some? then gone.(start := i.start.(outcome := Failed), view := View(Broken, error))
      else if owner then
        gone.(start := i.start.(outcome := Failed), view := View(Broken, Some("native VPN worker is not running")))
      else
        gone.(start := if i.start.outcome.Pending? then i.start.(outcome := Cancelled) else i.start,
        view := View(Disconnected, None))
  }

  /** The Extension's heartbeat drops a worker that is not its own any more. */
  function DropOrphan(i: Inner): Inner {
    if i.runningNative.Some? && (!i.LocalMainloop() || i.start.outcome.Terminal()) then
      i.(runningNative := None, pendingNative := None, running := false, starting := false)
    else i
  }

  /** The second section of `tick`: an installed worker whose thread is over is taken
      out and surfaced, without a look at its generation. */
  function SurfaceFinished(i: Inner, error: Option<string>): Inner {
    var gone := i.(runningNative := None, running := false);
    if error.Some? then gone.(start := i.start.(outcome := Failed), view := View(Broken, error))
    else if i.running && i.start.outcome.Connected? then
      gone.(start := i.start.(outcome := Failed), view := View(Broken, Some("native VPN worker is not running")))
    else gone.(view := View(Disconnected, None))
  }

  // ---- runs ----

  datatype Kind = Prepare | ExtensionPrepare | Attach | Disconnect(expected: Option<string>)

  /** An operation between its phases. `begunAt` counts the generation bumps of
      the run up to and including its own; a prepare announces authentication once. */
  datatype Op = Op(kind: Kind, generation: nat, attempt: string, begunAt: nat, announced: bool)

  datatype Thread = Thread(generation: nat, begunAt: nat)

  datatype State = State(engine: Inner, ops: map<nat, Op>, threads: set<Thread>, begun: nat)

  datatype Step =
    | PrepareBegins(id: nat)
    | Authenticates(id: nat)
    | PrepareCommits(id: nat, result: Attempted)
    | ExtensionPrepareBegins(id: nat, handoffAttempt: string)
    | ExtensionPrepareCommits(id: nat, client: nat)
    | AttachBegins(id: nat)
    | WorkerSpawns(id: nat)
    | AttachCommits(id: nat, client: nat)
    | DisconnectBegins(id: nat, expected: Option<string>)
    | DisconnectFinishes(id: nat)
    | OpFails(id: nat)
    | ThreadEnds(thread: Thread, error: Option<string>)
    | FrameMerged(isUi: bool, expected: Option<string>, frame: Frame, now: nat)
    | OrphanDropped
    | FinishedSurfaced(error: Option<string>)
    | ProtectionFailed(message: string)

  predicate InFlight(s: State, id: nat, kind: Kind) {
    id in s.ops && s.ops[id].kind == kind
  }

  function Begun(s: State, id: nat, kind: Kind, attempt: string, engine: Inner): State {
    s.(engine := engine, begun := s.begun + 1, ops := s.ops[id := Op(kind, engine.generation, attempt, s.begun + 1, false)])
  }

  function Ended(s: State, id: nat, engine: Inner): State {
    s.(engine := engine, ops := map k | k in s.ops && k != id :: s.ops[k])
  }

  predicate Next(s: State, step: Step, t: State) {
    var i := s.engine;
    match step
    case PrepareBegins(id) =>
      id !in s.ops && CanPrepare(i) && t == Begun(s, id, Prepare, "", BeginPrepare(i))
    case Authenticates(id) =>
      && InFlight(s, id, Prepare) && !s.ops[id].announced
      && t == s.(engine := Authenticate(i), ops := s.ops[id := s.ops[id].(announced := true)])
    case PrepareCommits(id, result) =>
      InFlight(s, id, Prepare) && t == Ended(s, id, CommitPrepare(i, s.ops[id].generation, result))
    case ExtensionPrepareBegins(id, attempt) =>
      id !in s.ops && t == Begun(s, id, ExtensionPrepare, attempt, BeginExtensionWork(i))
    case ExtensionPrepareCommits(id, client) =>
      InFlight(s, id, ExtensionPrepare)
      && t == Ended(s, id, CommitExtensionPrepare(i, s.ops[id].generation, s.ops[id].attempt, client))
    case AttachBegins(id) =>
      id !in s.ops && t == Begun(s, id, Attach, i.start.attempt, BeginAttach(i))
    case WorkerSpawns(id) =>
      // Reached only after the attach looked once more whether it is current.
      && InFlight(s, id, Attach) && StillMine(i, s.ops[id].generation, s.ops[id].attempt)
      && t == s.(threads := s.threads + {Thread(s.ops[id].generation, s.ops[id].begunAt)})
    case AttachCommits(id, client) =>
      InFlight(s, id, Attach)
      && t == Ended(s, id, CommitAttach(i, s.ops[id].generation, s.ops[id].attempt, client))
    case DisconnectBegins(id, expected) =>
      id !in s.ops && CanDisconnect(i, expected) && t == Begun(s, id, Disconnect(expected), i.start.attempt, BeginDisconnect(i))
    case DisconnectFinishes(id) =>
      id in s.ops && s.ops[id].kind.Disconnect?
      && t == Ended(s, id, FinishDisconnect(i, s.ops[id].generation, s.ops[id].kind.expected))
    case OpFails(id) =>
      // A prepare gives up only when its first publish fails; after its
      // announcement it always reaches the commit.
      id in s.ops && !s.ops[id].announced && t == Ended(s, id, i)
    case ThreadEnds(thread, error) =>
      thread in s.threads && t == s.(engine := WorkerEnded(i, thread.generation, error), threads := s.threads - {thread})
    case FrameMerged(isUi, expected, frame, now) =>
      t == s.(engine := Merge(i, isUi, expected, frame, now),
              begun := s.begun + if Adopts(i, isUi, expected, frame) then 1 else 0)
    case OrphanDropped => t == s.(engine := DropOrphan(i))
    case FinishedSurfaced(error) => i.runningNative.Some? && t == s.(engine := SurfaceFinished(i, error))
    case ProtectionFailed(message) =>
      t == s.(engine := BeginExtensionWork(i).(runningNative := None, pendingNative := None, running := false,
              starting := false, start := i.start.(outcome := Failed), view := View(Broken, Some(message))),
              begun := s.begun + 1)
  }

  predicate Init(s: State) {
    && s.ops == map[] && s.threads == {} && s.begun == 0
    && s.engine.generation == 0 && s.engine.runningNative.None? && s.engine.pendingNative.None?
  }

  ghost predicate Run(states: seq<State>, steps: seq<Step>) {
    && |states| == |steps| + 1 && Init(states[0])
    && forall k | 0 <= k < |steps| :: Next(states[k], steps[k], states[k + 1])
  }

  // ---- generations count bumps ----

  /** While fewer than 2^64 operations have begun, a generation identifies the
      operation that drew it. */
  ghost predicate Counts(s: State) {
    s.begun <= GENERATION_MAX ==>
      && s.engine.generation == s.begun
      && (forall id | id in s.ops :: s.ops[id].generation == s.ops[id].begunAt <= s.begun)
      && (forall thread | thread in s.threads :: thread.generation == thread.begunAt <= s.begun)
      && (s.engine.runningNative.Some? ==> s.engine.runningNative.value.generation <= s.begun)
  }

  lemma MergeGeneration(i: Inner, isUi: bool, expected: Option<string>, r: Frame, now: nat)
    ensures var j := Merge(i, isUi, expected, r, now);
      && j.generation == (if Adopts(i, isUi, expected, r) then NextGeneration(i.generation) else i.generation)
      && j.runningNative == i.runningNative
  {
    hide MergeView, MergeStart, MergeActivity;
  }

  lemma CountsStep(s: State, step: Step, t: State)
    requires Counts(s) && Next(s, step, t)
    ensures Counts(t)
  {
    hide Merge;
    if step.FrameMerged? {
      MergeGeneration(s.engine, step.isUi, step.expected, step.frame, step.now);
    }
  }

  lemma {:induction false} CountsAlways(states: seq<State>, steps: seq<Step>, n: nat)
    requires Run(states, steps) && n < |states|
    ensures Counts(states[n])
  {
    if n > 0 {
      CountsAlways(states, steps, n - 1);
      CountsStep(states[n - 1], steps[n - 1], states[n]);
    }
  }

  // ---- the fence ----

  /** The commit phases, and the callback of a worker thread. */
  predicate Commits(s: State, step: Step) {
    match step
    case PrepareCommits(id, _) => id in s.ops
    case ExtensionPrepareCommits(id, _) => id in s.ops
    case AttachCommits(id, _) => id in s.ops
    case DisconnectFinishes(id) => id in s.ops
    case ThreadEnds(thread, _) => thread in s.threads
    case _ => false
  }

  function BegunAt(s: State, step: Step): nat
    requires Commits(s, step)
  {
    match step
    case PrepareCommits(id, _) => s.ops[id].begunAt
    case ExtensionPrepareCommits(id, _) => s.ops[id].begunAt
    case AttachCommits(id, _) => s.ops[id].begunAt
    case DisconnectFinishes(id) => s.ops[id].begunAt
    case ThreadEnds(thread, _) => thread.begunAt
  }

  /** A commit phase or a worker callback changes the session only if no other
      operation has begun since its own first phase. */
  lemma FenceHolds(states: seq<State>, steps: seq<Step>, n: nat)
    requires Run(states, steps) && n < |steps| && Commits(states[n], steps[n])
    requires states[n].begun <= GENERATION_MAX
    requires states[n + 1].engine != states[n].engine
    ensures BegunAt(states[n], steps[n]) == states[n].begun
  {
    hide Merge;
    CountsAlways(states, steps, n);
    assert Next(states[n], steps[n], states[n + 1]);
  }

  /** A worker is installed only with the generation current at that moment, and
      replaces whatever was installed before. */
  lemma InstalledIsCurrent(states: seq<State>, steps: seq<Step>, n: nat)
    requires Run(states, steps) && n < |steps| && steps[n].AttachCommits?
    requires states[n + 1].engine != states[n].engine
    ensures states[n + 1].engine.LocalMainloop()
    ensures states[n + 1].engine.runningNative.value.client == steps[n].client
  {
    assert Next(states[n], steps[n], states[n + 1]);
  }

  lemma {:induction false} BegunGrows(states: seq<State>, steps: seq<Step>, m: nat, n: nat)
    requires Run(states, steps) && m <= n < |states|
    ensures states[m].begun <= states[n].begun
  {
    if m < n {
      BegunGrows(states, steps, m, n - 1);
      assert Next(states[n - 1], steps[n - 1], states[n]);
    }
  }

  /** Once a disconnect has begun, an operation that began before it commits
      nothing: in particular an attach in flight never installs its worker. */
  lemma DisconnectWins(states: seq<State>, steps: seq<Step>, m: nat, n: nat)
    requires Run(states, steps) && m < n < |steps| && steps[m].DisconnectBegins?
    requires Commits(states[n], steps[n]) && BegunAt(states[n], steps[n]) <= states[m].begun
    requires states[n].begun <= GENERATION_MAX
    ensures states[n + 1].engine == states[n].engine
  {
    assert Next(states[m], steps[m], states[m + 1]);
    BegunGrows(states, steps, m + 1, n);
    if states[n + 1].engine != states[n].engine {
      FenceHolds(states, steps, n);
    }
  }

  /** After its heartbeat the Extension runs no worker but its current one. */
  lemma HeartbeatDropsOrphans(i: Inner)
    ensures var j := DropOrphan(i);
      && (j.runningNative.Some? ==> j.LocalMainloop() && !j.start.outcome.Terminal())
      && (i.LocalMainloop() && !i.start.outcome.Terminal() ==> j == i)
  {
  }

  /** Surfacing a finished worker is outside the fence: it changes the session after
      another operation began exactly when the installed worker is not of the current
      generation. */
  lemma SurfacingEscapes(states: seq<State>, steps: seq<Step>, n: nat)
    requires Run(states, steps) && n < |steps| && steps[n].FinishedSurfaced? && states[n].begun <= GENERATION_MAX
    ensures states[n].engine.runningNative.Some? && states[n + 1].engine != states[n].engine
    ensures var s, worker := states[n], states[n].engine.runningNative.value;
            worker.generation < s.begun <==> worker.generation != s.engine.generation
  {
    hide Merge;
    CountsAlways(states, steps, n);
    assert Next(states[n], steps[n], states[n + 1]);
  }

  /** When a finished worker is surfaced with an error, whatever attach or Extension
      prepare is in flight commits nothing. */
  lemma SurfacedErrorStops(i: Inner, message: string, generation: nat, attempt: string, client: nat)
    ensures var j := SurfaceFinished(i, Some(message));
      && CommitAttach(j, generation, attempt, client) == j
      && CommitExtensionPrepare(j, generation, attempt, client) == j
  {
  }

  // ---- limits ----

  /** Saturation: the fence tells two operations apart exactly while the counter
      can still move. */
  lemma SaturationLimit(i: Inner, attempt: string, client: nat)
    requires i.generation <= GENERATION_MAX && CanInstall(i, i.generation, attempt)
    ensures CommitAttach(BeginExtensionWork(i), i.generation, attempt, client) == BeginExtensionWork(i)
       <==> i.generation < GENERATION_MAX
  {
  }

  // ---- the announcement of authentication ----

  /** The announcement of operation `id` with another generation than the current. */
  predicate StaleAnnouncement(s: State, step: Step) {
    step.Authenticates? && step.id in s.ops && s.ops[step.id].generation != s.engine.generation
  }

  /** The announcement is the one locked section the fence does not cover: it changes
      the session after another operation began exactly when its generation is not
      current and authentication is not announced yet. */
  lemma AnnouncementEscapes(states: seq<State>, steps: seq<Step>, n: nat)
    requires Run(states, steps) && n < |steps| && steps[n].Authenticates? && states[n].begun <= GENERATION_MAX
    ensures steps[n].id in states[n].ops
    ensures var s, op := states[n], states[n].ops[steps[n].id];
            (states[n + 1].engine != s.engine && op.begunAt != s.begun)
            <==> StaleAnnouncement(s, steps[n]) && s.engine.view != View(Authenticating, None)
  {
    hide Merge;
    CountsAlways(states, steps, n);
    assert Next(states[n], steps[n], states[n + 1]);
  }

  /** A UI engine: prepares and disconnects only, and frames of the Extension. */
  predicate UiStep(step: Step) {
    !step.ExtensionPrepareBegins? && !step.AttachBegins? && (step.FrameMerged? ==> step.isUi)
  }

  /** The session waits for a prepare. */
  predicate Waiting(s: State) {
    s.engine.view.lifecycle.Connecting? || s.engine.view.lifecycle.Authenticating?
  }

  /** Operation `id` is a prepare that will commit. */
  predicate WillCommit(s: State, id: nat) {
    InFlight(s, id, Prepare) && s.ops[id].generation == s.engine.generation
  }

  ghost predicate PrepareInFlight(s: State) {
    exists id :: WillCommit(s, id)
  }

  /** The two ways a session is left waiting: a stale announcement, and the current
      prepare of a waiting session failing to publish its first section. */
  predicate LeavesBehind(s: State, step: Step) {
    StaleAnnouncement(s, step) || (step.OpFails? && WillCommit(s, step.id) && Waiting(s))
  }

  /** The steps that end a wait. */
  predicate Clears(s: State, step: Step) {
    match step
    case PrepareCommits(id, _) => WillCommit(s, id)
    case DisconnectBegins(_, _) => true
    case ThreadEnds(thread, _) => thread.generation == s.engine.generation && !s.engine.start.outcome.Terminal()
    case FrameMerged(isUi, expected, frame, now) => Merge(s.engine, isUi, expected, frame, now).view != s.engine.view
    case FinishedSurfaced(_) => true
    case ProtectionFailed(_) => true
    case _ => false
  }

  /** The session was left waiting at step `k`, and no later step ended the wait. */
  ghost predicate LeftAt(states: seq<State>, steps: seq<Step>, k: nat, n: nat) {
    k < n <= |steps| < |states| && LeavesBehind(states[k], steps[k]) && forall j | k < j < n :: !Clears(states[j], steps[j])
  }

  lemma MergeNeverWaits(i: Inner, isUi: bool, expected: Option<string>, r: Frame, now: nat)
    ensures var v := Merge(i, isUi, expected, r, now).view; v == i.view || !(v.lifecycle.Connecting? || v.lifecycle.Authenticating?)
  {
    hide MergeStart, MergeActivity;
  }

  lemma WaitingStep(s: State, step: Step, t: State)
    requires Next(s, step, t) && UiStep(step) && Waiting(t)
    ensures PrepareInFlight(t) || LeavesBehind(s, step) || (Waiting(s) && !PrepareInFlight(s))
  {
    hide Merge;
    if step.FrameMerged? {
      MergeNeverWaits(s.engine, step.isUi, step.expected, step.frame, step.now);
      MergeGeneration(s.engine, step.isUi, step.expected, step.frame, step.now);
    }
    if step.PrepareBegins? {
      assert WillCommit(t, step.id);
    } else if step.Authenticates? {
      assert WillCommit(t, step.id) || StaleAnnouncement(s, step);
    } else if PrepareInFlight(s) {
      var id :| WillCommit(s, id);
      assert WillCommit(t, id) || LeavesBehind(s, step);
    }
  }

  /** A UI engine runs no operation of the Extension. */
  predicate UiOps(s: State) {
    forall id | id in s.ops :: s.ops[id].kind.Prepare? || s.ops[id].kind.Disconnect?
  }

  lemma {:induction false} UiOpsAlways(states: seq<State>, steps: seq<Step>, n: nat)
    requires Run(states, steps) && n < |states| && (forall k | 0 <= k < n :: UiStep(steps[k]))
    ensures UiOps(states[n])
  {
    hide Merge;
    if n > 0 {
      UiOpsAlways(states, steps, n - 1);
      assert Next(states[n - 1], steps[n - 1], states[n]);
    }
  }

  /** A waiting session goes on waiting exactly over the steps that do not clear it. */
  lemma WaitingUntilCleared(s: State, step: Step, t: State)
    requires Next(s, step, t) && UiStep(step) && UiOps(s) && Waiting(s)
    ensures Waiting(t) <==> !Clears(s, step)
  {
    hide Merge;
    if step.FrameMerged? {
      MergeNeverWaits(s.engine, step.isUi, step.expected, step.frame, step.now);
    }
  }

  lemma LeavesWaiting(s: State, step: Step, t: State)
    requires Next(s, step, t) && LeavesBehind(s, step)
    ensures Waiting(t)
  {
    hide Merge;
  }

  lemma {:induction false} WaitingHasCause(states: seq<State>, steps: seq<Step>, n: nat) returns (k: nat)
    requires Run(states, steps) && n < |states| && (forall k | 0 <= k < n :: UiStep(steps[k]))
    requires !Waiting(states[0]) && Waiting(states[n]) && !PrepareInFlight(states[n])
    ensures LeftAt(states, steps, k, n)
  {
    hide Next, PrepareInFlight, Clears, LeavesBehind;
    assert Next(states[n - 1], steps[n - 1], states[n]);
    WaitingStep(states[n - 1], steps[n - 1], states[n]);
    if LeavesBehind(states[n - 1], steps[n - 1]) {
      k := n - 1;
    } else {
      k := WaitingHasCause(states, steps, n - 1);
      UiOpsAlways(states, steps, n - 1);
      WaitingUntilCleared(states[n - 1], steps[n - 1], states[n]);
    }
  }

  lemma {:induction false} LeftStaysWaiting(states: seq<State>, steps: seq<Step>, k: nat, n: nat)
    requires Run(states, steps) && n < |states| && (forall j | 0 <= j < n :: UiStep(steps[j])) && LeftAt(states, steps, k, n)
    ensures Waiting(states[n])
  {
    hide Next, Clears, LeavesBehind;
    assert Next(states[n - 1], steps[n - 1], states[n]);
    if k == n - 1 {
      LeavesWaiting(states[k], steps[k], states[n]);
    } else {
      LeftStaysWaiting(states, steps, k, n - 1);
      UiOpsAlways(states, steps, n - 1);
      WaitingUntilCleared(states[n - 1], steps[n - 1], states[n]);
    }
  }

  /** When a UI session waits although no prepare will commit: exactly when an
      announcement was stale, or the current prepare of a waiting session failed its
      first publish, and since then no prepare of its generation committed, nothing
      was disconnected, no worker of it ended and no frame changed the view. */
  lemma LeftWaitingIff(states: seq<State>, steps: seq<Step>, n: nat)
    requires Run(states, steps) && n < |states| && (forall k | 0 <= k < n :: UiStep(steps[k]))
    requires !Waiting(states[0]) && !PrepareInFlight(states[n])
    ensures Waiting(states[n]) <==> exists k :: LeftAt(states, steps, k, n)
  {
    hide Next, PrepareInFlight, LeftAt;
    if Waiting(states[n]) {
      var k := WaitingHasCause(states, steps, n);
    }
    if exists k :: LeftAt(states, steps, k, n) {
      var k :| LeftAt(states, steps, k, n);
      LeftStaysWaiting(states, steps, k, n);
    }
  }

  ghost predicate AnnouncedInFlight(s: State) {
    exists id :: WillCommit(s, id) && s.ops[id].announced
  }

  lemma AuthenticatingStep(s: State, step: Step, t: State)
    requires Next(s, step, t) && UiStep(step) && !StaleAnnouncement(s, step)
    requires s.engine.view.lifecycle.Authenticating? ==> AnnouncedInFlight(s)
    ensures t.engine.view.lifecycle.Authenticating? ==> AnnouncedInFlight(t)
  {
    hide Merge;
    if step.FrameMerged? {
      MergeNeverWaits(s.engine, step.isUi, step.expected, step.frame, step.now);
      MergeGeneration(s.engine, step.isUi, step.expected, step.frame, step.now);
    }
    if step.Authenticates? {
      assert WillCommit(t, step.id) && t.ops[step.id].announced;
    } else if s.engine.view.lifecycle.Authenticating? {
      var id :| WillCommit(s, id) && s.ops[id].announced;
      assert (WillCommit(t, id) && t.ops[id].announced) || !t.engine.view.lifecycle.Authenticating?;
    }
  }

  lemma {:induction false} AuthenticatingHasPrepare(states: seq<State>, steps: seq<Step>, n: nat)
    requires Run(states, steps) && n < |states| && (forall k | 0 <= k < n :: UiStep(steps[k]))
    requires !Waiting(states[0]) && forall k | 0 <= k < n :: !StaleAnnouncement(states[k], steps[k])
    ensures states[n].engine.view.lifecycle.Authenticating? ==> AnnouncedInFlight(states[n])
  {
    hide Next, AnnouncedInFlight, StaleAnnouncement;
    if n > 0 {
      AuthenticatingHasPrepare(states, steps, n - 1);
      assert Next(states[n - 1], steps[n - 1], states[n]);
      AuthenticatingStep(states[n - 1], steps[n - 1], states[n]);
    }
  }

  /** Comparing the generation before the announcement closes the gap: in a run
      without stale announcements an announcement changes the session only if no
      other operation began, and the session authenticates only while its prepare
      will still commit. */
  lemma FencedAnnouncement(states: seq<State>, steps: seq<Step>, n: nat)
    requires Run(states, steps) && n < |states| && (forall k | 0 <= k < n :: UiStep(steps[k]))
    requires !Waiting(states[0]) && forall k | 0 <= k < n :: !StaleAnnouncement(states[k], steps[k])
    ensures states[n].engine.view.lifecycle.Authenticating? ==> PrepareInFlight(states[n])
    ensures forall k | 0 <= k < n && steps[k].Authenticates? && states[k].begun <= GENERATION_MAX ::
              steps[k].id in states[k].ops
              && (states[k + 1].engine != states[k].engine ==> states[k].ops[steps[k].id].begunAt == states[k].begun)
  {
    hide Next, StaleAnnouncement;
    AuthenticatingHasPrepare(states, steps, n);
    forall k | 0 <= k < n && steps[k].Authenticates? && states[k].begun <= GENERATION_MAX
      ensures steps[k].id in states[k].ops
              && (states[k + 1].engine != states[k].engine ==> states[k].ops[steps[k].id].begunAt == states[k].begun)
    {
      AnnouncementEscapes(states, steps, k);
      assert !StaleAnnouncement(states[k], steps[k]);
    }
  }

  /** A session that is idle on paper, with a disconnect and a prepare behind it. */
  function IdleEngine(): Inner {
    Inner(0, Start("", Idle, false, false, false, 0, 0, false), Leases(false, false), false, false, false,
          Link(0, None, None), 0, View(Disconnected, None), None, None)
  }

  /** The gap is real: a disconnect begins between the two locked sections of a
      prepare, the stale announcement follows it, and the run ends authenticating,
      with no attempt, no client, no worker and no operation in flight, so that no
      prepare can begin. */
  lemma UnfencedAnnouncement() returns (states: seq<State>, steps: seq<Step>)
    ensures Run(states, steps) && |steps| == 5 && (forall k | 0 <= k < 5 :: UiStep(steps[k])) && !Waiting(states[0])
    ensures steps[1] == DisconnectBegins(2, None) && steps[2] == Authenticates(1) && StaleAnnouncement(states[2], steps[2])
    ensures var s := states[5];
      && s.ops == map[] && s.threads == {} && s.engine.view == View(Authenticating, None) && s.engine.start.attempt == ""
      && s.engine.pendingNative.None? && s.engine.runningNative.None? && !CanPrepare(s.engine)
  {
    var s0 := State(IdleEngine(), map[], {}, 0);
    var s1 := Begun(s0, 1, Prepare, "", BeginPrepare(s0.engine));
    var s2 := Begun(s1, 2, Disconnect(None), "", BeginDisconnect(s1.engine));
    var s3 := s2.(engine := Authenticate(s2.engine), ops := s2.ops[1 := s2.ops[1].(announced := true)]);
    var s4 := Ended(s3, 2, FinishDisconnect(s3.engine, s3.ops[2].generation, None));
    var s5 := Ended(s4, 1, CommitPrepare(s4.engine, s4.ops[1].generation, Client(7)));
    states := [s0, s1, s2, s3, s4, s5];
    steps := [PrepareBegins(1), DisconnectBegins(2, None), Authenticates(1), DisconnectFinishes(2), PrepareCommits(1, Client(7))];
    assert s5.ops == map[];
    assert Next(s0, steps[0], s1) && Next(s1, steps[1], s2) && Next(s2, steps[2], s3);
    assert Next(s3, steps[3], s4) && Next(s4, steps[4], s5);
  }

  // ---- the engine object ----

  class SessionEngine {
    var inner: Inner

    constructor (inner: Inner)
      ensures this.inner == inner
    {
      this.inner := inner;
    }

    method ApplyPlatformEnvelope(isUi: bool, expected: Option<string>, r: Frame, now: nat)
      modifies this
      ensures inner == Merge(old(inner), isUi, expected, r, now)
    {
      var matches := r.start.attempt != "" && r.start.attempt == inner.start.attempt;
      if isUi && !matches {
        return;
      }
      var adopted := !isUi && !matches && expected == Some(r.start.attempt) && r.start.attempt != "";
      if !matches && !adopted {
        return;
      }
      if adopted {
        inner := Adopted(inner, r);
      }
      var advanced := r.updatedAt > inner.link.updatedAt;
      if advanced {
        inner := inner.(link := Link(r.updatedAt, Some(now), None));
      }
      if isUi && (r.start.extensionAttached || r.running || r.Terminal()) {
        inner := inner.(pendingNative := None);
      }
      var expired := HeartbeatWatchdogExpired(now, isUi, r, advanced);
      if expired {
        inner := HeartbeatLost(inner);
        return;
      }
      if !advanced && !adopted {
        return;
      }
      MergeNews(isUi, r);
    }

    method HeartbeatWatchdogExpired(now: nat, isUi: bool, r: Frame, advanced: bool) returns (expired: bool)
      modifies this
      ensures (inner.link, expired) == Watchdog(old(inner).link, old(inner).running, isUi, r, advanced, now)
      ensures inner == old(inner).(link := inner.link)
    {
      if HeartbeatFrozen(inner.link, inner.running, isUi, r, advanced, now) {
        if inner.link.staleSince.None? {
          inner := inner.(link := inner.link.(staleSince := Some(now)));
        }
        return now >= inner.link.staleSince.value + HEARTBEAT_WAKE_GRACE;
      }
      if !r.running || advanced {
        inner := inner.(link := inner.link.(staleSince := None));
      }
      return false;
    }

    /** The transaction part of the merge: sticky flags, then the peer's outcome. */
    static method MergeTransaction(before: Start, isUi: bool, r: Frame) returns (start: Start)
      ensures start == MergeStart(before, isUi, r)
    {
      start := before.(stopRequested := before.stopRequested || r.start.stopRequested);
      if isUi {
        start := start.(ownerPid := r.start.ownerPid, ownerStartTime := r.start.ownerStartTime);
      }
      if r.Terminal() {
        start := start.(outcome := r.start.outcome, cleanupComplete := r.start.cleanupComplete,
        extensionAttached := r.start.extensionAttached);
      } else {
        if !before.outcome.Terminal() {
          start := start.(cleanupComplete := false);
          if r.running && start.outcome.Pending? {
            start := start.(outcome := Connected);
          }
        }
        if r.start.extensionAttached {
          start := start.(extensionAttached := true);
        }
      }
      if r.start.deliveryObserved {
        start := start.(deliveryObserved := true);
      }
    }

    method MergeNews(isUi: bool, r: Frame)
      modifies this
      ensures inner == MergeAdvanced(old(inner), isUi, r)
    {
      hide MergeView, MergeStart;
      var wasActive := inner.running || inner.starting;
      var localTerminal := inner.start.outcome.Terminal();
      var start := MergeTransaction(inner.start, isUi, r);
      var active, starting := inner.running, inner.starting;
      if r.Terminal() {
        active, starting := false, false;
      } else if !localTerminal {
        active, starting := r.running, !r.running && r.starting;
      }
      var leases := inner.leases;
      if start.cleanupComplete {
        leases := Leases(false, false);
      }
      var running := !r.Terminal() && (inner.LocalMainloop() || active);
      if !running && start.outcome.Pending? && r.ReportsFailure() {
        start := start.(outcome := Failed);
      }
      inner := inner.(start := start, running := active, starting := starting, leases := leases,
      view := MergeView(inner.view, r, running, !running && starting, wasActive));
    }

    /** First locked section of `disconnect_inner`: whether there is anything to
        do, and the generation to come back with. */
    method DisconnectBegin(expected: Option<string>) returns (mine: bool, generation: Option<nat>)
      modifies this
      ensures mine == ForAttempt(old(inner), expected)
      ensures generation.Some? <==> CanDisconnect(old(inner), expected)
      ensures inner == if generation.Some? then BeginDisconnect(old(inner)) else old(inner)
      ensures generation.Some? ==> generation.value == inner.generation && inner.runningNative.None?
    {
      if expected.Some? && inner.start.attempt != expected.value {
        return false, None;
      }
      if inner.view.lifecycle.Disconnected? {
        return true, None;
      }
      inner := inner.(starting := false, running := false, start := inner.start.(stopRequested := true));
      if !inner.start.outcome.Failed? {
        inner := inner.(start := inner.start.(outcome := Cancelled));
      }
      inner := inner.(view := View(Disconnecting, None));
      inner := inner.(generation := WrappingNext(inner.generation));
      inner := inner.(pendingNative := None, runningNative := None);
      return true, Some(inner.generation);
    }

    method AttachBegin() returns (client: Option<nat>, generation: nat, attempt: string)
      modifies this
      ensures client == old(inner).pendingNative && attempt == inner.start.attempt && generation == inner.generation
      ensures inner == BeginAttach(old(inner))
    {
      inner := inner.(generation := NextGeneration(inner.generation));
      client := inner.pendingNative;
      inner := inner.(pendingNative := None);
      return client, inner.generation, inner.start.attempt;
    }

    method AttachCommit(generation: nat, attempt: string, client: nat) returns (installed: bool)
      modifies this
      ensures installed <==> CanInstall(old(inner), generation, attempt)
      ensures inner == CommitAttach(old(inner), generation, attempt, client)
    {
      if || inner.generation != generation || inner.start.attempt != attempt
         || !(inner.view.lifecycle.Connecting? || inner.view.lifecycle.Authenticating? || inner.view.lifecycle.Establishing?)
         || inner.start.outcome.Terminal()
      {
        return false;
      }
      inner := inner.(runningNative := Some(Worker(client, generation, attempt)), running := true, starting := false);
      if inner.start.outcome.Pending? {
        inner := inner.(start := inner.start.(outcome := Connected));
      }
      inner := inner.(view := View(Up, None));
      return true;
    }

    /** Second section of `tick`, when the installed worker's thread is over. */
    method SurfaceFinishedWorker(error: Option<string>)
      requires inner.runningNative.Some?
      modifies this
      ensures inner == SurfaceFinished(old(inner), error)
    {
      inner := inner.(runningNative := None);
      if error.None? {
        if inner.running && inner.start.outcome.Connected? {
          inner := inner.(start := inner.start.(outcome := Failed), view := View(Broken, Some("native VPN worker is not running")));
        } else {
          inner := inner.(view := View(Disconnected, None));
        }
      } else {
        inner := inner.(view := View(Broken, error), start := inner.start.(outcome := Failed));
      }
      inner := inner.(running := false);
    }

    method OnNativeSessionEnded(generation: nat, error: Option<string>)
      modifies this
      ensures inner == WorkerEnded(old(inner), generation, error)
    {
      if inner.generation != generation {
        return;
      }
      inner := inner.(runningNative := None, pendingNative := None);
      var wasConnectedOwner := inner.running && inner.start.outcome.Connected?;
      inner := inner.(running := false, starting := false);
      var l := inner.view.lifecycle;
      if l.Disconnected? || l.Disconnecting? || l.Broken? || inner.start.outcome.Terminal() {
      } else if error.Some? {
        inner := inner.(start := inner.start.(outcome := Failed), view := View(Broken, error));
      } else if wasConnectedOwner {
        inner := inner.(start := inner.start.(outcome := Failed), view := View(Broken, Some("native VPN worker is not running")));
      } else {
        if inner.start.outcome.Pending? {
          inner := inner.(start := inner.start.(outcome := Cancelled));
        }
        inner := inner.(view := View(Disconnected, None));
      }
    }
  }
}
