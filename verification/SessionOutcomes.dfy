/** What the locked sections of a session leave behind, stated on its fields, and what
    every one of them keeps over a run. */
module SessionOutcomes {
  import opened Lists
  import opened EngineState
  import opened MergeOutcomes
  import opened SessionGeneration

  /** No client waits for a device and no worker is installed. */
  predicate Free(i: Inner) {
    i.pendingNative == None && i.runningNative == None
  }

  predicate Still(i: Inner) {
    !i.running && !i.starting
  }

  // ---- preparing ----

  /** A prepare can begin exactly on a free session that is disconnected, up or broken. */
  lemma PrepareGuard(i: Inner)
    ensures CanPrepare(i) <==> Free(i) && i.view.lifecycle in {Disconnected, Up, Broken}
  {
  }

  /** An undisturbed prepare, from its first section to its commit: with a client the
      session is establishing and holds it, with an error it is broken with the message
      and the next prepare can begin. Either way it belongs to no attempt yet. */
  lemma PrepareUndisturbed(i: Inner, result: Attempted)
    requires CanPrepare(i)
    ensures var begun := BeginPrepare(i);
      var j := CommitPrepare(Authenticate(begun), begun.generation, result);
      && j.start.attempt == "" && j.start.outcome == Idle && !j.start.extensionAttached && !j.running
      && j.runningNative == None
      && begun.view == View(Connecting, None) && Authenticate(begun).view == View(Authenticating, None)
      && (result.Client? ==> j.pendingNative == Some(result.client) && j.starting && j.view == View(Establishing, None))
      && (result.Error? ==> Free(j) && Still(j) && j.view == View(Broken, Some(result.message)) && CanPrepare(j))
  {
  }

  /** An undisturbed prepare of the Extension on an attempt that is not over holds the
      client and is establishing; on one that is over, or another one, it leaves nothing. */
  lemma ExtensionPrepareUndisturbed(i: Inner, attempt: string, client: nat)
    ensures var begun := BeginExtensionWork(i);
      var j := CommitExtensionPrepare(begun, begun.generation, attempt, client);
      && (i.start.attempt == attempt && !Over(i.start.outcome) ==>
            j == begun.(pendingNative := Some(client), starting := true, view := View(Establishing, None)))
      && (i.start.attempt != attempt || Over(i.start.outcome) ==> j == begun)
  {
  }

  // ---- attaching ----

  /** An attach commit installs exactly when generation and attempt are still its own,
      the attempt is not over and the session is waiting. A pending session is then
      connected, runs with this worker, and is up. */
  lemma AttachInstalls(i: Inner, generation: nat, attempt: string, client: nat)
    ensures var j := CommitAttach(i, generation, attempt, client);
      && (j != i <==> && i.generation == generation && i.start.attempt == attempt && !Over(i.start.outcome)
                      && WaitingView(i.view))
      && (j != i ==>
            && j.runningNative == Some(Worker(client, generation, attempt)) && j.LocalMainloop()
            && j.running && !j.starting && j.view == View(Up, None)
            && j.start == i.start.(outcome := if i.start.outcome == Pending then Connected else i.start.outcome)
            && j.generation == i.generation && j.pendingNative == i.pendingNative && j.leases == i.leases)
  {
  }

  /** The Extension's next heartbeat leaves a successful attach alone. */
  lemma HeartbeatKeepsAttach(i: Inner, generation: nat, attempt: string, client: nat)
    requires CommitAttach(i, generation, attempt, client) != i
    ensures var j := CommitAttach(i, generation, attempt, client); DropOrphan(j) == j
  {
  }

  /** A worker of another attempt or generation, or of an attempt that is over, goes with
      the heartbeat, and everything that ran with it; nothing else changes. */
  lemma HeartbeatDrops(i: Inner)
    ensures var orphan := && i.runningNative.Some?
                          && (|| i.runningNative.value.attempt != i.start.attempt
                              || i.runningNative.value.generation != i.generation || Over(i.start.outcome));
      var j := DropOrphan(i);
      && (orphan ==> Free(j) && Still(j) && j.start == i.start && j.view == i.view && j.generation == i.generation)
      && (!orphan ==> j == i)
  {
  }

  /** And the UI hears of it: one sync after a pending session attached, the UI's pending
      session of the attempt is connected, runs, and shows itself up. */
  lemma AttachReachesUi(i: Inner, generation: nat, attempt: string, client: nat, ui: Inner, publishedAt: nat, now: nat)
    requires CommitAttach(i, generation, attempt, client) != i && i.start.outcome == Pending
    requires ui.start.attempt == attempt != "" && ui.start.outcome == Pending && WaitingView(ui.view)
    requires ui.link.updatedAt <= i.localUpdatedAt
    ensures var j := Merge(ui, true, None, Published(Persisted(CommitAttach(i, generation, attempt, client), publishedAt)), now);
      j.start.outcome == Connected && j.running && !j.starting && j.view == View(Up, None)
  {
    hide Merge;
    AttachInstalls(i, generation, attempt, client);
    UpSpreads(CommitAttach(i, generation, attempt, client), ui, None, publishedAt, now);
  }

  /** The Extension's whole way on a pending attempt, undisturbed: resume the session,
      attach the device, and come up with the worker of that very client. */
  lemma ExtensionComesUp(i: Inner, client: nat)
    requires i.start.outcome == Pending
    ensures var resumed := BeginExtensionWork(i);
      var prepared := CommitExtensionPrepare(resumed, resumed.generation, i.start.attempt, client);
      var taken := BeginAttach(prepared);
      var j := CommitAttach(taken, taken.generation, i.start.attempt, client);
      && prepared.pendingNative == Some(client) && taken.pendingNative == None
      && j.start.outcome == Connected && j.running && !j.starting && j.view == View(Up, None) && j.pendingNative == None
      && j.runningNative == Some(Worker(client, taken.generation, i.start.attempt))
  {
    var resumed := BeginExtensionWork(i);
    ExtensionPrepareUndisturbed(i, i.start.attempt, client);
    var taken := BeginAttach(CommitExtensionPrepare(resumed, resumed.generation, i.start.attempt, client));
    AttachInstalls(taken, taken.generation, i.start.attempt, client);
  }

  // ---- disconnecting ----

  /** A disconnect can begin for the expected attempt unless the session is disconnected.
      It leaves nothing native behind, the pending client included, asks the Extension to
      stop, and cancels the attempt unless it had failed; undisturbed, it ends disconnected
      and the next prepare can begin. */
  lemma DisconnectUndisturbed(i: Inner, expected: Option<string>)
    ensures CanDisconnect(i, expected)
       <==> (expected == None || expected == Some(i.start.attempt)) && i.view.lifecycle != Disconnected
    ensures var begun := BeginDisconnect(i);
      && Free(begun) && Still(begun) && begun.view == View(Disconnecting, None)
      && begun.start.stopRequested && begun.start.attempt == i.start.attempt
      && begun.start.outcome == (if i.start.outcome == Failed then Failed else Cancelled)
      && begun.generation != i.generation
      && Tick(begun, i.start.attempt) == Stopping
    ensures CanDisconnect(i, expected) ==>
      var begun := BeginDisconnect(i);
      var j := FinishDisconnect(begun, begun.generation, expected);
      j == begun.(view := View(Disconnected, None)) && CanPrepare(j)
  {
  }

  /** The second section of a disconnect, in general: it acts only for its own generation
      and attempt, and only on a session that is disconnecting or up. */
  lemma DisconnectFinish(i: Inner, generation: nat, expected: Option<string>)
    ensures FinishDisconnect(i, generation, expected)
         == if && i.generation == generation && (expected == None || expected == Some(i.start.attempt))
               && i.view.lifecycle in {Disconnecting, Up}
            then i.(running := false, starting := false, view := View(Disconnected, None))
            else i
  {
  }

  // ---- workers ----

  /** The end of the current worker: nothing native is left, and a session that was not
      over fails with the worker's error, fails without one when it was connected and
      running, and is cancelled when it was still pending. */
  lemma WorkerEnds(i: Inner, error: Option<string>)
    ensures var j := WorkerEnded(i, i.generation, error);
      var closed := i.view.lifecycle in {Disconnected, Disconnecting, Broken} || Over(i.start.outcome);
      && Free(j) && Still(j) && j.start == i.start.(outcome := j.start.outcome)
      && (closed ==> j.start.outcome == i.start.outcome && j.view == i.view)
      && (!closed && error.Some? ==> j.start.outcome == Failed && j.view == View(Broken, error))
      && (!closed && error.None? && i.running && i.start.outcome == Connected ==>
            j.start.outcome == Failed && j.view == View(Broken, Some("native VPN worker is not running")))
      && (!closed && error.None? && i.start.outcome == Pending ==>
            j.start.outcome == Cancelled && j.view == View(Disconnected, None))
      && (!closed && error.None? && i.start.outcome == Connected && !i.running ==>
            j.start.outcome == Connected && j.view == View(Disconnected, None))
  {
  }

  lemma OtherWorkerEnds(i: Inner, generation: nat, error: Option<string>)
    requires generation != i.generation
    ensures WorkerEnded(i, generation, error) == i
  {
  }

  /** Surfacing a finished worker takes it out: with an error, or when the session was
      connected and running, the session fails and breaks; otherwise it is disconnected
      and its outcome stays. */
  lemma FinishedIsSurfaced(i: Inner, error: Option<string>)
    ensures var j := SurfaceFinished(i, error);
      && j.runningNative == None && !j.running && j.pendingNative == i.pendingNative && j.generation == i.generation
      && (error.Some? ==> j.start.outcome == Failed && j.view == View(Broken, error))
      && (error.None? && i.running && i.start.outcome == Connected ==>
            j.start.outcome == Failed && j.view == View(Broken, Some("native VPN worker is not running")))
      && (error.None? && !(i.running && i.start.outcome == Connected) ==>
            j.start == i.start && j.view == View(Disconnected, None))
  {
  }

  /** A failed protection of the tunnel's socket ends the attempt with its message, and
      whatever was native goes with it. */
  lemma ProtectionFailure(s: State, message: string, t: State)
    requires Next(s, ProtectionFailed(message), t)
    ensures var j := t.engine;
      && j.start.outcome == Failed && j.view == View(Broken, Some(message)) && Free(j) && Still(j)
      && t.begun == s.begun + 1 && (s.engine.generation < GENERATION_MAX ==> j.generation == s.engine.generation + 1)
  {
  }

  // ---- what every section keeps ----

  /** A session that is over does not run. */
  predicate OverIsQuiet(i: Inner) {
    Over(i.start.outcome) ==> !i.running
  }

  lemma MergeKeepsQuiet(i: Inner, isUi: bool, expected: Option<string>, r: Frame, now: nat)
    requires OverIsQuiet(i)
    ensures OverIsQuiet(Merge(i, isUi, expected, r, now))
  {
    hide MergeView;
  }

  lemma StepKeepsQuiet(s: State, step: Step, t: State)
    requires Next(s, step, t) && OverIsQuiet(s.engine)
    ensures OverIsQuiet(t.engine)
  {
    hide Merge;
    if step.FrameMerged? {
      MergeKeepsQuiet(s.engine, step.isUi, step.expected, step.frame, step.now);
    }
  }

  /** Over any run, whatever operations, worker callbacks and frames it interleaves, a
      session that failed or was cancelled does not run. */
  lemma {:induction false} OverNeverRuns(states: seq<State>, steps: seq<Step>, n: nat)
    requires Run(states, steps) && n < |states| && OverIsQuiet(states[0].engine)
    ensures OverIsQuiet(states[n].engine)
  {
    hide Next, OverIsQuiet;
    if n > 0 {
      OverNeverRuns(states, steps, n - 1);
      assert Next(states[n - 1], steps[n - 1], states[n]);
      StepKeepsQuiet(states[n - 1], steps[n - 1], states[n]);
    }
  }

  /** A prepare takes the attempt back to idle and leaves the cleanup flag of the last
      attempt standing. */
  predicate LeavesCleanup(s: State, step: Step) {
    step.PrepareBegins? && s.engine.start.cleanupComplete
  }

  /** Every locked section keeps the session settled, except a prepare on a session whose
      last attempt was cleaned up. */
  lemma StepSettled(s: State, step: Step, t: State)
    requires Next(s, step, t) && Settled(s.engine)
    ensures Settled(t.engine) <==> !LeavesCleanup(s, step)
  {
    hide Merge;
    if step.FrameMerged? {
      MergeKeepsSettled(s.engine, step.isUi, step.expected, step.frame, step.now);
    }
  }

  /** Over any run the cleanup flag stands on a session that is over, as long as no
      prepare began on a session with the flag. */
  lemma {:induction false} SettledAlways(states: seq<State>, steps: seq<Step>, n: nat)
    requires Run(states, steps) && n < |states| && Settled(states[0].engine)
    requires forall k | 0 <= k < n :: !LeavesCleanup(states[k], steps[k])
    ensures Settled(states[n].engine)
  {
    hide Next, Settled, LeavesCleanup;
    if n > 0 {
      SettledAlways(states, steps, n - 1);
      assert Next(states[n - 1], steps[n - 1], states[n]);
      StepSettled(states[n - 1], steps[n - 1], states[n]);
    }
  }

  /** News of an attempt that is over on neither side clear the flag. */
  lemma NewsClearsCleanup(i: Inner, isUi: bool, expected: Option<string>, r: Frame, now: nat)
    requires News(i, r) && !Over(i.start.outcome) && !Over(r.start.outcome)
    ensures !Merge(i, isUi, expected, r, now).start.cleanupComplete
  {
    hide MergeView;
  }
}
