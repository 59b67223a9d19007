/** What a merge leaves behind, stated on the fields of the session and of the frame:
    the peer's running, starting, failed, cancelled or silent session, old frames, and
    the watchdog. */
module MergeOutcomes {
  import opened Lists
  import opened EngineState

  /** A frame of the session's own attempt, newer than what was merged before. */
  predicate News(i: Inner, r: Frame) {
    r.start.attempt == i.start.attempt != "" && r.updatedAt > i.link.updatedAt
  }

  predicate Over(o: Outcome) {
    o == Failed || o == Cancelled
  }

  /** Connecting, authenticating or establishing. */
  predicate WaitingView(v: View) {
    v.lifecycle == Connecting || v.lifecycle == Authenticating || v.lifecycle == Establishing
  }

  /** News of a running peer on a session that is not over: the session runs, a pending
      one is connected, a waiting view comes up, and any other view stays. */
  lemma RunningPeer(i: Inner, isUi: bool, expected: Option<string>, r: Frame, now: nat)
    requires News(i, r) && !Over(i.start.outcome) && !Over(r.start.outcome) && r.running
    ensures var j := Merge(i, isUi, expected, r, now);
      && j.running && !j.starting && !j.start.cleanupComplete
      && j.start.outcome == (if i.start.outcome == Pending then Connected else i.start.outcome)
      && j.view == (if WaitingView(i.view) then View(Up, None) else i.view)
  {
  }

  /** News of a starting peer: the session is starting, and establishing unless it was
      up or broken. A failure report ends a pending one all the same. */
  lemma StartingPeer(i: Inner, isUi: bool, expected: Option<string>, r: Frame, now: nat)
    requires News(i, r) && !Over(i.start.outcome) && !Over(r.start.outcome) && !r.running && r.starting && !i.LocalMainloop()
    ensures var j := Merge(i, isUi, expected, r, now);
      && !j.running && j.starting && !j.start.cleanupComplete
      && j.start.outcome == (if i.start.outcome == Pending && (r.view.lifecycle == Broken || r.view.lastError.Some?) then Failed
                             else i.start.outcome)
      && j.view == (if i.view.lifecycle == Up || i.view.lifecycle == Broken then i.view else View(Establishing, None))
  {
  }

  /** News of a peer that neither runs nor starts. A failure report breaks the view with
      the peer's error, unless it was broken or disconnected, and ends a pending session;
      a settled and disconnected peer takes down a session that was up or establishing. */
  lemma QuietPeer(i: Inner, isUi: bool, expected: Option<string>, r: Frame, now: nat)
    requires News(i, r) && !Over(i.start.outcome) && !Over(r.start.outcome) && !r.running && !r.starting && !i.LocalMainloop()
    ensures var j := Merge(i, isUi, expected, r, now);
      && !j.running && !j.starting && !j.start.cleanupComplete
      && (r.view.lifecycle == Broken || r.view.lastError.Some? ==>
            && j.start.outcome == (if i.start.outcome == Pending then Failed else i.start.outcome)
            && j.view == (if i.view.lifecycle == Broken || i.view.lifecycle == Disconnected then i.view
                          else View(Broken, r.view.lastError)))
      && (r.view.lifecycle != Broken && r.view.lastError.None? ==>
            && j.start.outcome == i.start.outcome
            && j.view == (if && r.start.outcome != Pending && r.view.lifecycle == Disconnected && (i.running || i.starting)
                             && (i.view.lifecycle == Up || i.view.lifecycle == Establishing)
                          then View(Disconnected, None) else i.view))
  {
  }

  /** While the session's own worker runs, news of a peer that is not over show it up and
      never fail it. */
  lemma OwnWorkerKeepsUp(i: Inner, isUi: bool, expected: Option<string>, r: Frame, now: nat)
    requires News(i, r) && !Over(i.start.outcome) && !Over(r.start.outcome) && i.LocalMainloop()
    ensures var j := Merge(i, isUi, expected, r, now);
      && j.running == r.running && j.starting == (r.starting && !r.running) && j.runningNative == i.runningNative
      && j.start.outcome == (if i.start.outcome == Pending && r.running then Connected else i.start.outcome)
      && j.view == (if WaitingView(i.view) then View(Up, None) else i.view)
  {
  }

  /** News that the attempt failed: the session fails, and an active view breaks with
      the frame's error; a broken or disconnected one stays. */
  lemma FailedPeer(i: Inner, isUi: bool, expected: Option<string>, r: Frame, now: nat)
    requires News(i, r) && r.start.outcome == Failed
    ensures var j := Merge(i, isUi, expected, r, now);
      && j.start.outcome == Failed && !j.running && !j.starting
      && j.start.cleanupComplete == r.start.cleanupComplete && j.start.extensionAttached == r.start.extensionAttached
      && j.view == (if i.view.lifecycle == Broken || i.view.lifecycle == Disconnected then i.view
                    else View(Broken, r.view.lastError))
  {
  }

  /** News that the attempt was cancelled: the session is cancelled and disconnected;
      only a broken view stays. */
  lemma CancelledPeer(i: Inner, isUi: bool, expected: Option<string>, r: Frame, now: nat)
    requires News(i, r) && r.start.outcome == Cancelled
    ensures var j := Merge(i, isUi, expected, r, now);
      && j.start.outcome == Cancelled && !j.running && !j.starting
      && j.start.cleanupComplete == r.start.cleanupComplete && j.start.extensionAttached == r.start.extensionAttached
      && j.view == (if i.view.lifecycle == Broken then i.view else View(Disconnected, None))
  {
  }

  /** A session that is over stays over under news of a peer that is not. */
  lemma LatePeer(i: Inner, isUi: bool, expected: Option<string>, r: Frame, now: nat)
    requires News(i, r) && Over(i.start.outcome) && !Over(r.start.outcome)
    ensures var j := Merge(i, isUi, expected, r, now);
      && j.start.outcome == i.start.outcome && j.running == i.running && j.starting == i.starting
      && j.start.cleanupComplete == i.start.cleanupComplete
      && j.start.extensionAttached == (i.start.extensionAttached || r.start.extensionAttached)
      && (!i.running && !i.starting && !i.LocalMainloop() ==>
            j.view == (if && (r.view.lifecycle == Broken || r.view.lastError.Some?)
                          && i.view.lifecycle != Broken && i.view.lifecycle != Disconnected
                       then View(Broken, r.view.lastError) else i.view))
  {
  }

  /** What every merge of news does to the rest: the stop request and the delivery are
      collected, the owner's identity reaches the UI only, the attachment sticks unless
      the frame is terminal, leases are dropped with the cleanup, and the UI gives up
      its pending client once the Extension took over or the attempt is over. */
  lemma NewsCarries(i: Inner, isUi: bool, expected: Option<string>, r: Frame, now: nat)
    requires News(i, r)
    ensures var j := Merge(i, isUi, expected, r, now);
      && j.start.attempt == i.start.attempt && j.generation == i.generation && j.runningNative == i.runningNative
      && j.localUpdatedAt == i.localUpdatedAt && j.watchdogRecoverable == i.watchdogRecoverable
      && j.link == Link(r.updatedAt, Some(now), None)
      && (j.start.stopRequested <==> i.start.stopRequested || r.start.stopRequested)
      && (j.start.deliveryObserved <==> i.start.deliveryObserved || r.start.deliveryObserved)
      && (j.start.ownerPid, j.start.ownerStartTime)
         == (if isUi then (r.start.ownerPid, r.start.ownerStartTime) else (i.start.ownerPid, i.start.ownerStartTime))
      && (!Over(r.start.outcome) ==>
            (j.start.extensionAttached <==> i.start.extensionAttached || r.start.extensionAttached))
      && j.leases == (if j.start.cleanupComplete then Leases(false, false) else i.leases)
      && j.pendingNative == (if isUi && (r.start.extensionAttached || r.running || Over(r.start.outcome)) then None
                             else i.pendingNative)
  {
    hide MergeView, MergeAdvanced, MergeStart, MergeActivity;
    NewsPasses(i, isUi, expected, r, now);
    AdvancedCarries(i.(link := Link(r.updatedAt, Some(now), None),
                    pendingNative := if isUi && (r.start.extensionAttached || r.running || Over(r.start.outcome)) then None
                                     else i.pendingNative), isUi, r);
  }

  lemma NewsPasses(i: Inner, isUi: bool, expected: Option<string>, r: Frame, now: nat)
    requires News(i, r)
    ensures Merge(i, isUi, expected, r, now)
         == MergeAdvanced(i.(link := Link(r.updatedAt, Some(now), None),
                          pendingNative := if isUi && (r.start.extensionAttached || r.running || Over(r.start.outcome)) then None
                                           else i.pendingNative), isUi, r)
  {
    hide MergeAdvanced;
  }

  lemma AdvancedCarries(i: Inner, isUi: bool, r: Frame)
    ensures var j := MergeAdvanced(i, isUi, r);
      && j.start.attempt == i.start.attempt && j.generation == i.generation && j.runningNative == i.runningNative
      && j.localUpdatedAt == i.localUpdatedAt && j.watchdogRecoverable == i.watchdogRecoverable
      && j.link == i.link && j.pendingNative == i.pendingNative
      && (j.start.stopRequested <==> i.start.stopRequested || r.start.stopRequested)
      && (j.start.deliveryObserved <==> i.start.deliveryObserved || r.start.deliveryObserved)
      && (j.start.ownerPid, j.start.ownerStartTime)
         == (if isUi then (r.start.ownerPid, r.start.ownerStartTime) else (i.start.ownerPid, i.start.ownerStartTime))
      && (!Over(r.start.outcome) ==>
            (j.start.extensionAttached <==> i.start.extensionAttached || r.start.extensionAttached))
      && j.leases == (if j.start.cleanupComplete then Leases(false, false) else i.leases)
  {
    hide MergeView, MergeActivity, MergeStart;
    TransactionCarries(i.start, isUi, r);
    var start := MergeStart(i.start, isUi, r);
    assert MergeAdvanced(i, isUi, r).start in {start, start.(outcome := Failed)};
  }

  lemma TransactionCarries(s: Start, isUi: bool, r: Frame)
    ensures var t := MergeStart(s, isUi, r);
      && t.attempt == s.attempt
      && (t.stopRequested <==> s.stopRequested || r.start.stopRequested)
      && (t.deliveryObserved <==> s.deliveryObserved || r.start.deliveryObserved)
      && (t.ownerPid, t.ownerStartTime)
         == (if isUi then (r.start.ownerPid, r.start.ownerStartTime) else (s.ownerPid, s.ownerStartTime))
      && (!Over(r.start.outcome) ==> (t.extensionAttached <==> s.extensionAttached || r.start.extensionAttached))
  {
  }

  /** A frame of another attempt changes nothing, unless an Extension expects it. */
  lemma ForeignFrame(i: Inner, isUi: bool, expected: Option<string>, r: Frame, now: nat)
    requires r.start.attempt == "" || r.start.attempt != i.start.attempt
    requires isUi || r.start.attempt == "" || expected != Some(r.start.attempt)
    ensures Merge(i, isUi, expected, r, now) == i
  {
  }

  /** An Extension that expects the attempt takes it over in the peer's place: the
      generation moves on, and an attempt that is starting makes the session start. */
  lemma ExpectedFrame(i: Inner, r: Frame, now: nat)
    requires r.start.attempt != "" && r.start.attempt != i.start.attempt && i.runningNative.None?
    ensures var j := Merge(i, false, Some(r.start.attempt), r, now);
      && j.start.attempt == r.start.attempt
      && j.generation == (if i.generation < GENERATION_MAX then i.generation + 1 else i.generation)
      && j.pendingNative == i.pendingNative
      && (j.start.stopRequested <==> r.start.stopRequested)
      && (r.start.outcome == Pending && r.starting && !r.running && r.view.lifecycle != Broken && r.view.lastError.None? ==>
            j.start.outcome == Pending && j.starting && !j.running && j.view == View(Establishing, None))
      && (Over(r.start.outcome) ==> j.start.outcome == r.start.outcome && !j.running && !j.starting)
  {
    hide MergeAdvanced;
    var w := Watched(i, false, Some(r.start.attempt), r, now).0;
    assert w.start == r.start && w.runningNative.None? && w.pendingNative == i.pendingNative;
    assert Merge(i, false, Some(r.start.attempt), r, now) == MergeAdvanced(w, false, r);
    AdvancedStarts(w, r);
  }

  lemma AdvancedStarts(w: Inner, r: Frame)
    requires w.start == r.start && w.runningNative.None?
    ensures var j := MergeAdvanced(w, false, r);
      && j.start.attempt == r.start.attempt && j.generation == w.generation && j.pendingNative == w.pendingNative
      && j.start.stopRequested == r.start.stopRequested
      && (r.start.outcome == Pending && r.starting && !r.running && r.view.lifecycle != Broken && r.view.lastError.None?
          && w.view == View(Establishing, None) ==>
            j.start.outcome == Pending && j.starting && !j.running && j.view == View(Establishing, None))
      && (Over(r.start.outcome) ==> j.start.outcome == r.start.outcome && !j.running && !j.starting)
  {
  }

  /** A frame that is not newer changes at most the pending client of the UI and the
      watchdog's clock, which the first stale interval starts and a peer that does not
      run stops. The watchdog expires when the peer claims to run, has not been heard
      for 15 seconds, and was first found stale 6 seconds ago or earlier; then the
      session fails and breaks. */
  lemma OldFrame(i: Inner, isUi: bool, expected: Option<string>, r: Frame, now: nat)
    requires r.start.attempt == i.start.attempt != "" && r.updatedAt <= i.link.updatedAt
    ensures var j := Merge(i, isUi, expected, r, now);
      var stale := isUi && i.running && r.running && i.link.seenAt.Some? && now >= i.link.seenAt.value + 15000;
      var expired := stale && i.link.staleSince.Some? && now >= i.link.staleSince.value + 6000;
      && (!expired ==>
            && j == i.(link := j.link, pendingNative := j.pendingNative)
            && j.link.staleSince == (if stale && i.link.staleSince.None? then Some(now)
                                     else if !r.running then None else i.link.staleSince))
      && (expired ==>
            && j.start == i.start.(outcome := Failed) && !j.running && !j.starting && j.watchdogRecoverable
            && j.view == View(Broken, Some("VPN extension heartbeat stopped")) && j.link.staleSince.None?)
      && j.pendingNative == (if isUi && (r.start.extensionAttached || r.running || Over(r.start.outcome)) then None
                             else i.pendingNative)
      && j.link.updatedAt == i.link.updatedAt && j.link.seenAt == i.link.seenAt
  {
    hide MergeAdvanced;
  }

  // ---- two engines ----

  /** What an engine publishes: its own transaction and view, whether it or its own
      worker runs, under a revision newer than every one it published before. */
  lemma PublishedTells(i: Inner, now: nat)
    ensures var r := Published(Persisted(i, now));
      && r.start == i.start && r.view == i.view && r.starting == i.starting
      && r.running == (i.running || (i.runningNative.Some? && i.runningNative.value.attempt == i.start.attempt
                                     && i.runningNative.value.generation == i.generation))
      && r.updatedAt > i.localUpdatedAt && r.updatedAt >= now && r.updatedAt == Persisted(i, now).localUpdatedAt
  {
  }

  /** One sync after an Extension came up, the UI's pending session of that attempt is
      connected, runs, shows itself up, knows the owner and has given up its client. */
  lemma UpSpreads(from: Inner, ui: Inner, expected: Option<string>, publishedAt: nat, now: nat)
    requires from.start.attempt == ui.start.attempt != "" && from.start.outcome == Connected && from.running
    requires ui.start.outcome == Pending && WaitingView(ui.view) && ui.link.updatedAt <= from.localUpdatedAt
    ensures var j := Merge(ui, true, expected, Published(Persisted(from, publishedAt)), now);
      && j.start.outcome == Connected && j.running && !j.starting && j.view == View(Up, None) && j.pendingNative.None?
      && j.start.ownerPid == from.start.ownerPid && j.start.ownerStartTime == from.start.ownerStartTime
  {
    PublishedTells(from, publishedAt);
    var r := Published(Persisted(from, publishedAt));
    RunningPeer(ui, true, expected, r, now);
    NewsCarries(ui, true, expected, r, now);
  }

  /** One sync after an Extension failed, a UI that was waiting or up shows the
      Extension's error. */
  lemma FailureSpreads(from: Inner, ui: Inner, expected: Option<string>, publishedAt: nat, now: nat)
    requires from.start.attempt == ui.start.attempt != "" && from.start.outcome == Failed
    requires (WaitingView(ui.view) || ui.view.lifecycle == Up) && ui.link.updatedAt <= from.localUpdatedAt
    ensures var j := Merge(ui, true, expected, Published(Persisted(from, publishedAt)), now);
      j.start.outcome == Failed && !j.running && j.view == View(Broken, from.view.lastError) && j.pendingNative.None?
  {
    PublishedTells(from, publishedAt);
    var r := Published(Persisted(from, publishedAt));
    FailedPeer(ui, true, expected, r, now);
    NewsCarries(ui, true, expected, r, now);
  }

  /** What the Extension answers its caller. */
  lemma TickAnswers(i: Inner, attempt: string)
    ensures Tick(i, attempt) == Stale <==> i.start.attempt != attempt
    ensures Tick(i, attempt) == Stopping <==> i.start.attempt == attempt && i.start.stopRequested
    ensures i.start.attempt == attempt && !i.start.stopRequested ==>
              && (Tick(i, attempt) == FailedAnswer <==> i.start.outcome == Failed)
              && (Tick(i, attempt) == DisconnectedAnswer <==> i.start.outcome == Cancelled)
              && (Tick(i, attempt) == NoOwner <==> !Over(i.start.outcome) && !i.start.extensionAttached)
              && (Tick(i, attempt) == Running(i.view.lifecycle) <==> !Over(i.start.outcome) && i.start.extensionAttached)
  {
  }
}
