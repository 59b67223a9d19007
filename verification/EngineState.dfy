/** The session record both processes keep behind their engine lock, the frame a
    process publishes about it, and the merge of a frame of the other process. */
module EngineState {
  import opened Lists

  datatype Outcome = Idle | Pending | Connected | Failed | Cancelled {
    predicate Terminal() {
      Failed? || Cancelled?
    }
  }

  datatype Lifecycle =
    | Disconnected
    | Connecting
    | Authenticating
    | Establishing
    | Up
    | Disconnecting
    | Broken
  {
    predicate Busy() {
      Connecting? || Authenticating? || Establishing? || Disconnecting?
    }
  }

  const GENERATION_MAX: nat := 0xffff_ffff_ffff_ffff

  function NextGeneration(generation: nat): nat {
    if generation < GENERATION_MAX then generation + 1 else generation
  }

  /** A running worker remembers for whom it was started. */
  datatype Worker = Worker(client: nat, generation: nat, attempt: string)

  /** The start transaction, as kept and as published. */
  datatype Start = Start(
    attempt: string, outcome: Outcome, deliveryObserved: bool, extensionAttached: bool,
    stopRequested: bool, ownerPid: nat, ownerStartTime: nat, cleanupComplete: bool)

  datatype View = View(lifecycle: Lifecycle, lastError: Option<string>)

  /** What is known of the peer's lane: its newest revision and when it moved. */
  datatype Link = Link(updatedAt: nat, seenAt: Option<nat>, staleSince: Option<nat>)

  datatype Leases = Leases(issuer: bool, extension: bool)

  datatype Inner = Inner(
    generation: nat,
    start: Start,
    leases: Leases,
    running: bool,
    starting: bool,
    watchdogRecoverable: bool,
    link: Link,
    localUpdatedAt: nat,
    view: View,
    pendingNative: Option<nat>,
    runningNative: Option<Worker>)
  {
    /** The installed worker belongs to the current attempt and generation. */
    predicate LocalMainloop() {
      && runningNative.Some?
      && runningNative.value.attempt == start.attempt
      && runningNative.value.generation == generation
    }
  }

  /** The published projection of a session record. */
  datatype Frame = Frame(start: Start, starting: bool, running: bool, view: View, updatedAt: nat) {
    predicate Terminal() {
      start.outcome.Terminal()
    }

    predicate ReportsFailure() {
      view.lifecycle.Broken? || view.lastError.Some?
    }
  }

  /** `persist_platform_locked`: advance the local revision, then publish. */
  function Persisted(i: Inner, now: nat): Inner {
    i.(localUpdatedAt := if now > i.localUpdatedAt then now else i.localUpdatedAt + 1)
  }

  function Published(i: Inner): Frame {
    Frame(i.start, i.starting, i.running || i.LocalMainloop(), i.view, i.localUpdatedAt)
  }

  // ---- the merge ----

  const HEARTBEAT_STALE_AFTER := 15000
  const HEARTBEAT_WAKE_GRACE := 6000

  predicate AttemptMatches(i: Inner, r: Frame) {
    r.start.attempt != "" && r.start.attempt == i.start.attempt
  }

  /** Only the Extension takes over an attempt, and only the expected one. */
  predicate Adopts(i: Inner, isUi: bool, expected: Option<string>, r: Frame) {
    !isUi && !AttemptMatches(i, r) && expected == Some(r.start.attempt) && r.start.attempt != ""
  }

  predicate Concerns(i: Inner, isUi: bool, expected: Option<string>, r: Frame) {
    AttemptMatches(i, r) || Adopts(i, isUi, expected, r)
  }

  function Adopted(i: Inner, r: Frame): Inner {
    var a := i.(generation := NextGeneration(i.generation), start := r.start);
    if r.starting && r.start.outcome.Pending?
    then a.(starting := true, running := false, view := View(Establishing, None))
    else a
  }

  function Taken(i: Inner, isUi: bool, expected: Option<string>, r: Frame): Inner {
    if Adopts(i, isUi, expected, r) then Adopted(i, r) else i
  }

  predicate Advances(link: Link, r: Frame) {
    r.updatedAt > link.updatedAt
  }

  function Stamped(link: Link, r: Frame, now: nat): Link {
    if Advances(link, r) then Link(r.updatedAt, Some(now), None) else link
  }

  /** The peer still claims to run but has not published for too long. */
  predicate HeartbeatFrozen(link: Link, running: bool, isUi: bool, r: Frame, advanced: bool, now: nat) {
    && isUi && running && r.running && !advanced
    && link.seenAt.Some? && now >= link.seenAt.value + HEARTBEAT_STALE_AFTER
  }

  /** `heartbeat_watchdog_expired`: staleness must persist for a second interval. */
  function Watchdog(link: Link, running: bool, isUi: bool, r: Frame, advanced: bool, now: nat): (Link, bool) {
    if HeartbeatFrozen(link, running, isUi, r, advanced, now) then
      var since := if link.staleSince.Some? then link.staleSince.value else now;
      (link.(staleSince := Some(since)), now >= since + HEARTBEAT_WAKE_GRACE)
    else if !r.running || advanced then
      (link.(staleSince := None), false)
    else
      (link, false)
  }

  function HeartbeatLost(i: Inner): Inner {
    i.(running := false, starting := false, start := i.start.(outcome := Failed),
    link := i.link.(staleSince := None), watchdogRecoverable := true,
    view := View(Broken, Some("VPN extension heartbeat stopped")))
  }

  /** Stop requests and deliveries stick; owner identity flows to the UI. */
  function MergeStart(s: Start, isUi: bool, r: Frame): Start {
    var flagged := s.(stopRequested := s.stopRequested || r.start.stopRequested,
    deliveryObserved := s.deliveryObserved || r.start.deliveryObserved,
    ownerPid := if isUi then r.start.ownerPid else s.ownerPid,
    ownerStartTime := if isUi then r.start.ownerStartTime else s.ownerStartTime);
    if r.Terminal() then
      flagged.(outcome := r.start.outcome, cleanupComplete := r.start.cleanupComplete, extensionAttached := r.start.extensionAttached)
    else if !s.outcome.Terminal() then
      flagged.(outcome := if r.running && s.outcome.Pending? then Connected else s.outcome, cleanupComplete := false,
      extensionAttached := s.extensionAttached || r.start.extensionAttached)
    else
      flagged.(extensionAttached := s.extensionAttached || r.start.extensionAttached)
  }

  /** Whether the session runs and whether it is starting, after the frame. */
  function MergeActivity(i: Inner, r: Frame): (bool, bool) {
    if r.Terminal() then (false, false)
    else if !i.start.outcome.Terminal() then (r.running, !r.running && r.starting)
    else (i.running, i.starting)
  }

  function MergeView(v: View, r: Frame, running: bool, starting: bool, wasActive: bool): View {
    if running then
      if v.lifecycle.Connecting? || v.lifecycle.Authenticating? || v.lifecycle.Establishing? then View(Up, None) else v
    else if starting then
      if !v.lifecycle.Up? && !v.lifecycle.Broken? then View(Establishing, None) else v
    else if r.start.outcome.Cancelled? then
      if !v.lifecycle.Broken? then View(Disconnected, None) else v
    else if r.start.outcome.Failed? || r.ReportsFailure() then
      if !v.lifecycle.Broken? && !v.lifecycle.Disconnected? then View(Broken, r.view.lastError) else v
    else if !r.start.outcome.Pending? && r.view.lifecycle.Disconnected? && wasActive && (v.lifecycle.Up? || v.lifecycle.Establishing?) then
      View(Disconnected, None)
    else
      v
  }

  /** Everything after the watchdog, for a frame that is news. */
  function MergeAdvanced(i: Inner, isUi: bool, r: Frame): Inner {
    var start := MergeStart(i.start, isUi, r);
    var (active, starting) := MergeActivity(i, r);
    var running := !r.Terminal() && (i.LocalMainloop() || active);
    var failed := !running && start.outcome.Pending? && r.ReportsFailure();
    i.(start := if failed then start.(outcome := Failed) else start,
    running := active,
    starting := starting,
    leases := if start.cleanupComplete then Leases(false, false) else i.leases,
    view := MergeView(i.view, r, running, !running && starting, i.running || i.starting))
  }

  /** Adoption, revision stamp, pending client and watchdog, in that order. */
  function Watched(i: Inner, isUi: bool, expected: Option<string>, r: Frame, now: nat): (Inner, bool) {
    var taken := Taken(i, isUi, expected, r);
    var (link, expired) := Watchdog(Stamped(taken.link, r, now), taken.running, isUi, r, Advances(taken.link, r), now);
    (taken.(link := link,
     pendingNative := if isUi && (r.start.extensionAttached || r.running || r.Terminal()) then None else taken.pendingNative),
     expired)
  }

  /** `apply_platform_envelope_locked`, for the session state of the envelope. */
  function Merge(i: Inner, isUi: bool, expected: Option<string>, r: Frame, now: nat): Inner {
    if !Concerns(i, isUi, expected, r) then i
    else
      var (watched, expired) := Watched(i, isUi, expected, r, now);
      if expired then HeartbeatLost(watched)
      else if !Advances(i.link, r) && !Adopts(i, isUi, expected, r) then watched
      else MergeAdvanced(watched, isUi, r)
  }

  // ---- what every merge keeps ----

  /** A terminal session is not running, and only a terminal one is cleaned up. */
  predicate Settled(i: Inner) {
    && (i.start.outcome.Terminal() ==> !i.running)
    && (i.start.cleanupComplete ==> i.start.outcome.Terminal())
  }

  lemma AdvancedFacts(i: Inner, isUi: bool, r: Frame)
    ensures var j := MergeAdvanced(i, isUi, r);
      && j.start.attempt == i.start.attempt && j.generation == i.generation && j.link == i.link
      && (Settled(i) ==> Settled(j))
      && (r.Terminal() ==> Settled(j))
      && (i.start.outcome.Terminal() ==> j.start.outcome.Terminal())
      && (i.start.stopRequested ==> j.start.stopRequested)
      && (i.start.deliveryObserved ==> j.start.deliveryObserved)
      && (j.leases == i.leases || (j.leases == Leases(false, false) && j.start.cleanupComplete))
      && (j.start.cleanupComplete ==> i.start.cleanupComplete || (r.start.cleanupComplete && r.Terminal()))
      && (i.start.outcome == r.start.outcome ==> Settled(j))
      && (!r.Terminal() && !i.start.outcome.Terminal() ==> !j.start.cleanupComplete)
  {
    hide MergeView;
  }

  lemma WatchedFacts(i: Inner, isUi: bool, expected: Option<string>, r: Frame, now: nat)
    ensures var t, w := Taken(i, isUi, expected, r), Watched(i, isUi, expected, r, now).0;
      && w.start == t.start && w.generation == t.generation && w.leases == i.leases && w.running == t.running
      && i.link.updatedAt <= w.link.updatedAt
    ensures Watched(i, isUi, expected, r, now).1 ==> isUi
  {
  }

  lemma MergeKeepsSettled(i: Inner, isUi: bool, expected: Option<string>, r: Frame, now: nat)
    requires Settled(i)
    ensures Settled(Merge(i, isUi, expected, r, now))
  {
    hide MergeAdvanced, Watched;
    if Concerns(i, isUi, expected, r) {
      WatchedFacts(i, isUi, expected, r, now);
      AdvancedFacts(Watched(i, isUi, expected, r, now).0, isUi, r);
    }
  }

  /** What a merge may do to the attempt and its sticky facts. */
  predicate Progress(i: Inner, isUi: bool, expected: Option<string>, j: Inner) {
    && i.link.updatedAt <= j.link.updatedAt
    && (j.start.attempt == i.start.attempt || (!isUi && expected == Some(j.start.attempt)))
    && (j.start.attempt == i.start.attempt && i.start.attempt != "" ==>
          && (i.start.outcome.Terminal() ==> j.start.outcome.Terminal())
          && (i.start.stopRequested ==> j.start.stopRequested)
          && (i.start.deliveryObserved ==> j.start.deliveryObserved)
          && i.generation == j.generation)
    && (j.leases == i.leases || (j.leases == Leases(false, false) && j.start.cleanupComplete))
  }

  lemma MergeProgress(i: Inner, isUi: bool, expected: Option<string>, r: Frame, now: nat)
    ensures Progress(i, isUi, expected, Merge(i, isUi, expected, r, now))
  {
    hide MergeAdvanced, Watched;
    if Concerns(i, isUi, expected, r) {
      WatchedFacts(i, isUi, expected, r, now);
      AdvancedFacts(Watched(i, isUi, expected, r, now).0, isUi, r);
    }
  }

  /** The cleanup flag is never invented: it was there, or the frame carries it. */
  lemma MergeCleanupOrigin(i: Inner, isUi: bool, expected: Option<string>, r: Frame, now: nat)
    ensures var j := Merge(i, isUi, expected, r, now);
            j.start.cleanupComplete ==>
              || (j.start.attempt == i.start.attempt && i.start.cleanupComplete)
              || (r.start.cleanupComplete && r.Terminal() && r.start.attempt == j.start.attempt)
  {
    hide MergeAdvanced, Watched;
    if Concerns(i, isUi, expected, r) {
      WatchedFacts(i, isUi, expected, r, now);
      AdvancedFacts(Watched(i, isUi, expected, r, now).0, isUi, r);
    }
  }

  datatype Delivery = Delivery(frame: Frame, now: nat)

  /** Any sequence of frames, in any order, with repetitions. */
  function MergeAll(i: Inner, isUi: bool, expected: Option<string>, deliveries: seq<Delivery>): Inner
    decreases |deliveries|
  {
    if deliveries == [] then i
    else MergeAll(Merge(i, isUi, expected, deliveries[0].frame, deliveries[0].now), isUi, expected, deliveries[1..])
  }

  /** For a fixed attempt, over any frames: terminal stays terminal and never
      runs, a stop request stays, cleanup implies terminal, revisions never go
      back; the UI keeps its attempt, and the Extension leaves its attempt only
      for the expected one, at which it then stays. */
  lemma {:induction false} MergeAllSound(i: Inner, isUi: bool, expected: Option<string>, deliveries: seq<Delivery>)
    requires Settled(i)
    ensures var j := MergeAll(i, isUi, expected, deliveries);
      && Settled(j) && i.link.updatedAt <= j.link.updatedAt
      && (isUi || expected.None? ==> j.start.attempt == i.start.attempt)
      && (j.start.attempt == i.start.attempt || expected == Some(j.start.attempt))
      && (expected == Some(i.start.attempt) ==> j.start.attempt == i.start.attempt)
      && (j.start.attempt == i.start.attempt && i.start.attempt != "" ==>
            && (i.start.outcome.Terminal() ==> j.start.outcome.Terminal() && !j.running)
            && (i.start.stopRequested ==> j.start.stopRequested))
    decreases |deliveries|
  {
    hide Merge;
    if deliveries != [] {
      var d := deliveries[0];
      var m := Merge(i, isUi, expected, d.frame, d.now);
      MergeKeepsSettled(i, isUi, expected, d.frame, d.now);
      MergeProgress(i, isUi, expected, d.frame, d.now);
      MergeAllSound(m, isUi, expected, deliveries[1..]);
    }
  }

  /** One merge of a terminal frame for the same attempt makes the session
      terminal exactly when the frame is newer than what was already merged, the
      session already was terminal, or the watchdog expires. */
  lemma TerminalFrameTakes(i: Inner, isUi: bool, expected: Option<string>, r: Frame, now: nat)
    requires AttemptMatches(i, r) && r.Terminal()
    ensures Merge(i, isUi, expected, r, now).start.outcome.Terminal()
       <==> || i.start.outcome.Terminal()
            || Advances(i.link, r)
            || (&& HeartbeatFrozen(i.link, i.running, isUi, r, false, now)
                && i.link.staleSince.Some? && now >= i.link.staleSince.value + HEARTBEAT_WAKE_GRACE)
  {
    hide MergeView;
  }

  /** Two engines on one attempt: whatever a terminal engine publishes next makes
      the other one terminal with a single merge, as long as the publisher's
      revision is not behind what the other side has seen. */
  lemma TerminalSpreads(from: Inner, to: Inner, toIsUi: bool, expected: Option<string>, publishedAt: nat, now: nat)
    requires from.start.attempt == to.start.attempt != "" && from.start.outcome.Terminal()
    requires to.link.updatedAt <= from.localUpdatedAt
    ensures var j := Merge(to, toIsUi, expected, Published(Persisted(from, publishedAt)), now);
      j.start.outcome.Terminal() && !j.running
  {
    hide MergeView;
  }

  // ---- the stop request reaches the owner ----

  datatype TickAnswer = Stale | Stopping | FailedAnswer | DisconnectedAnswer | NoOwner | Running(lifecycle: Lifecycle)

  /** `extension_tick`, after its sync. */
  function Tick(i: Inner, attempt: string): TickAnswer {
    if i.start.attempt != attempt then Stale
    else if i.start.stopRequested then Stopping
    else if i.start.outcome.Failed? then FailedAnswer
    else if i.start.outcome.Cancelled? then DisconnectedAnswer
    else if !i.start.extensionAttached then NoOwner
    else Running(i.view.lifecycle)
  }

  /** A UI frame with a stop request makes the Extension of that attempt answer
      "stopping" from its next sync on, whatever else it merges afterwards. */
  lemma StopRequestAnswered(i: Inner, r: Frame, now: nat, later: seq<Delivery>)
    requires Settled(i) && AttemptMatches(i, r) && r.start.stopRequested && Advances(i.link, r)
    ensures Tick(Merge(i, false, None, r, now), i.start.attempt) == Stopping
    ensures Tick(MergeAll(Merge(i, false, None, r, now), false, None, later), i.start.attempt) == Stopping
  {
    hide MergeView, MergeAll;
    var j := Merge(i, false, None, r, now);
    assert j.start.attempt == i.start.attempt && j.start.stopRequested;
    MergeKeepsSettled(i, false, None, r, now);
    MergeAllSound(j, false, None, later);
  }
}
