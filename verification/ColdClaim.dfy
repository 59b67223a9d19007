/** A run that reaches an attached Extension and ends with a stop claim that
    nobody hears: the claimant is a restarted UI process. */
module ColdClaim {
  import opened Lists
  import opened Strings
  import opened EngineState
  import opened OwnerJournal
  import opened OwnershipProtocol
  import opened StopFence
  import opened OwnershipInvariant
  import opened OwnershipTheorems
  import opened StopDelivery

  // ---- building runs ----

  ghost predicate Path(states: seq<State>, steps: seq<Step>) {
    |states| == |steps| + 1 && forall k | 0 <= k < |steps| :: Next(states[k], steps[k], states[k + 1])
  }

  lemma Extend(states: seq<State>, steps: seq<Step>, step: Step, t: State)
    requires Path(states, steps) && Next(states[|steps|], step, t)
    ensures Path(states + [t], steps + [step])
  {
    hide Next;
    var longer, more := states + [t], steps + [step];
    forall k | 0 <= k < |more| ensures Next(longer[k], more[k], longer[k + 1]) {
      if k < |steps| {
        assert Next(states[k], steps[k], states[k + 1]);
      }
    }
  }

  /** Steps of one process that changes nothing but its own sight. */
  ghost predicate LocalPath(p: Proc, inbox: Option<Frame>, sights: seq<Sight>, acts: seq<Action>) {
    && |sights| == |acts| + 1
    && (forall k | 0 <= k < |acts| :: Act(p, acts[k], inbox, sights[k], sights[k + 1]))
    && (forall k | 0 <= k < |sights| :: sights[k].engine.ui == sights[0].engine.ui && sights[k].engine.peer == sights[0].engine.peer)
  }

  lemma PutSight(s: State, p: Proc, y: Sight)
    requires p in s.engines && y.engine.ui == s.engines[p].ui && y.engine.peer == s.engines[p].peer
    requires RegionOf(y.engine, p).Some? && RegionOf(y.engine, p).value in s.regions
    ensures var t := Put(s, p, y);
      && SightOf(t, p) == y && InboxOf(t, p) == InboxOf(s, p)
      && t.regions.Keys == s.regions.Keys && t.recoveries == s.recoveries && t.engines.Keys == s.engines.Keys
      && (forall q | q in s.engines && q != p :: t.engines[q] == s.engines[q])
      && (forall q | q in s.regions && Some(q) != RegionOf(y.engine, p) :: t.regions[q] == s.regions[q])
  {
  }

  /** The state in which a process finished its local path. */
  ghost predicate Moved(s: State, p: Proc, y: Sight, t: State) {
    && p in s.engines && p in t.engines && SightOf(t, p) == y && InboxOf(t, p) == InboxOf(s, p)
    && t.engines[p].ui == s.engines[p].ui && t.engines[p].peer == s.engines[p].peer
    && t.regions.Keys == s.regions.Keys && t.recoveries == s.recoveries && t.engines.Keys == s.engines.Keys
    && (forall q | q in s.engines && q != p :: t.engines[q] == s.engines[q])
    && (forall q | q in s.regions && Some(q) != RegionOf(y.engine, p) :: t.regions[q] == s.regions[q])
  }

  lemma {:induction false} Lift(states: seq<State>, steps: seq<Step>, p: Proc, inbox: Option<Frame>, sights: seq<Sight>,
                                acts: seq<Action>, n: nat)
    returns (longer: seq<State>, more: seq<Step>)
    requires Path(states, steps) && n <= |acts| && LocalPath(p, inbox, sights, acts)
    requires var s := states[|steps|];
      && p in s.engines && SightOf(s, p) == sights[0] && InboxOf(s, p) == inbox
      && RegionOf(s.engines[p], p).Some? && RegionOf(s.engines[p], p).value in s.regions
    ensures Path(longer, more) && longer[0] == states[0]
    ensures states <= longer && steps <= more
    ensures Moved(states[|steps|], p, sights[n], longer[|more|])
  {
    hide Next, Act;
    longer, more := states, steps;
    if n > 0 {
      longer, more := Lift(states, steps, p, inbox, sights, acts, n - 1);
      var s := longer[|more|];
      var y := sights[n];
      PutSight(s, p, y);
      var step := Local(p, acts[n - 1], y);
      assert Next(s, step, Put(s, p, y)) by { IsLocal(s, p, acts[n - 1], y); }
      Extend(longer, more, step, Put(s, p, y));
      longer, more := longer + [Put(s, p, y)], more + [step];
    }
  }

  lemma IsLocal(s: State, p: Proc, a: Action, y: Sight)
    requires p in s.engines && Act(p, a, InboxOf(s, p), SightOf(s, p), y)
    ensures Next(s, Local(p, a, y), Put(s, p, y))
  {
    hide Act;
  }

  // ---- the three local paths ----

  function NewInner(): Inner {
    Inner(0, Start("", Outcome.Idle, false, false, false, 0, 0, false), Leases(false, false), false, false, false,
          Link(0, None, None), 0, View(Disconnected, None), None, None)
  }

  function NewEngine(ui: bool): Engine {
    Engine(ui, NewInner(), None, false, None, 0, OsStop(0, "", false), Ready)
  }

  /** A merge of nothing commits the record as it is. */
  lemma Uncommitted(x: Sight, op: Op)
    ensures Committed(x, x.engine.inner, op) == Reached(x, op)
  {
  }

  lemma BeginOpens(u: Proc, x: Sight)
    requires x.engine == NewEngine(true)
    ensures var y := x.(engine := x.engine.(intentEpoch := 1));
            Act(u, AdvanceIntent, None, x, y) && Act(u, BeginStart(1, 0), None, y, Reached(y, BeginRead(1)))
  {
    hide Merge, Committed;
    Uncommitted(x.(engine := x.engine.(intentEpoch := 1)), BeginRead(1));
  }

  /** The new record, under the issuer lease of its process. */
  function Issued(s: Shared, u: Proc): Shared {
    var drawn := s.(history := s.history.(drawn := map["a" := u]));
    SetJournal(drawn.(issuer := Lease(Some(u), Some(LeaseRecord("a", u)))), Some(Record("a", u, None, Phase.Pending)))
  }

  lemma BeginLocksIssuer(u: Proc, x: Sight, x1: Sight, x2: Sight, x3: Sight)
    requires x.engine.op == BeginRead(1) && x.shared.journal.None? && x.shared.issuer.holder.None? && x.shared.history.drawn == map[]
    requires x1 == Reached(x, BeginLock(1, "a")).(shared := x.shared.(history := x.shared.history.(drawn := map["a" := u])))
    requires x2 == Reached(x1, BeginWrite(1, "a")).(shared := x1.shared.(issuer := Locked(x1.shared.issuer, u)))
    requires x3 == Reached(x2, BeginCreate(1, "a"))
                   .(shared := x2.shared.(issuer := Lease(Some(u), Some(LeaseRecord("a", u)))))
    ensures Act(u, BeginReadStep("a"), None, x, x1) && Act(u, BeginLockStep, None, x1, x2) && Act(u, BeginWriteStep, None, x2, x3)
  {
    assert !IsSpace("a"[0]) && !Blank("a");
  }

  lemma BeginCloses(u: Proc, x: Sight, y: Sight)
    requires x.engine.op == BeginCreate(1, "a") && x.shared.journal.None? && u.Valid() && x.engine.inner == NewInner()
    requires y == x.(engine := x.engine.(inner := Began(NewInner(), "a"), op := Publishing),
                     shared := SetJournal(x.shared, Some(Record("a", u, None, Phase.Pending))))
    ensures Act(u, BeginCreateStep, None, x, y)
  {
    assert !IsSpace("a"[0]) && !Blank("a");
  }

  lemma Publishes(u: Proc, x: Sight)
    requires x.engine.op.Publishing? && x.engine.ui && x.engine.inner.localUpdatedAt == 0
    ensures var y := PublishedTo(x, 1, Ready);
      && Act(u, Publish(1), None, x, y) && y.lane.value.start == x.engine.inner.start && y.lane.value.updatedAt == 1
      && (x.engine.inner.running == x.engine.inner.runningNative.Some? == false ==> !y.lane.value.running)
      && y.lane.value.view == x.engine.inner.view
  {
  }

  /** A fresh Extension attached to the memory of `u`. */
  function AttachedEngine(u: Proc): Engine {
    NewEngine(false).(peer := Some(u))
  }

  /** A fresh UI process starts an attempt. */
  lemma BeginPath(u: Proc, s: Shared) returns (sights: seq<Sight>, acts: seq<Action>)
    requires u.Valid() && s.journal.None? && s.issuer.holder.None? && s.history.drawn == map[]
    ensures LocalPath(u, None, sights, acts) && sights[0] == Sight(s, NewEngine(true), None)
    ensures var y := sights[|acts|];
      && y.lane.Some? && Delivered(y.lane.value) && y.shared == Issued(s, u)
      && y.engine.op.Ready? && y.engine.ui && y.engine.inner.leases.issuer
      && y.engine.inner.runningNative.None? && y.engine.inner.pendingNative.None?
  {
    hide Act, SetJournal;
    var x0 := Sight(s, NewEngine(true), None);
    var x1 := x0.(engine := x0.engine.(intentEpoch := 1));
    var x2 := Reached(x1, BeginRead(1));
    BeginOpens(u, x0);
    var x3 := Reached(x2, BeginLock(1, "a")).(shared := s.(history := s.history.(drawn := map["a" := u])));
    var x4 := Reached(x3, BeginWrite(1, "a")).(shared := x3.shared.(issuer := Locked(s.issuer, u)));
    var x5 := Reached(x4, BeginCreate(1, "a")).(shared := x4.shared.(issuer := Lease(Some(u), Some(LeaseRecord("a", u)))));
    BeginLocksIssuer(u, x2, x3, x4, x5);
    var x6 := x5.(engine := x5.engine.(inner := Began(NewInner(), "a"), op := Publishing),
                  shared := SetJournal(x5.shared, Some(Record("a", u, None, Phase.Pending))));
    BeginCloses(u, x5, x6);
    var x7 := PublishedTo(x6, 1, Ready);
    Publishes(u, x6);
    sights := [x0, x1, x2, x3, x4, x5, x6, x7];
    acts := [AdvanceIntent, BeginStart(1, 0), BeginReadStep("a"), BeginLockStep, BeginWriteStep, BeginCreateStep, Publish(1)];
  }

  // ---- the Extension binds ----

  /** The frame the Extension finds: the new attempt, still pending. */
  predicate Delivered(frame: Frame) {
    && frame.start == Start("a", Outcome.Pending, false, false, false, 0, 0, false) && frame.updatedAt == 1
    && !frame.running && frame.view == View(Establishing, None)
  }

  /** The Extension that merged it, with or without its lease. */
  predicate HasAdopted(i: Inner, extension: bool) {
    && i.start.attempt == "a" && !i.start.outcome.Terminal() && !i.start.outcome.Connected?
    && i.leases == Leases(false, extension) && i.link.updatedAt == 1
  }

  lemma AdoptsDelivered(e: Engine, frame: Frame)
    requires Delivered(frame) && e.inner == NewInner() && !e.ui
    ensures HasAdopted(Synced(e, Some(frame), Some("a"), 0), false)
  {
    hide MergeView;
  }

  lemma BindOpens(e: Proc, frame: Frame, x: Sight)
    requires Delivered(frame) && x.engine.inner == NewInner() && !x.engine.ui && x.engine.op.Ready?
    ensures var i := Synced(x.engine, Some(frame), Some("a"), 0);
            HasAdopted(i, false) && Act(e, BindStart("a", 0), Some(frame), x, x.(engine := x.engine.(inner := i, op := BindRead("a"))))
  {
    hide Synced;
    AdoptsDelivered(x.engine, frame);
  }

  lemma BindLocksExtension(e: Proc, inbox: Option<Frame>, x: Sight, owner: Record, x1: Sight, x2: Sight, x3: Sight, x4: Sight)
    requires x.engine.op == BindRead("a") && x.shared.journal == Some(owner) && owner == Record("a", owner.issuer, None, Phase.Pending)
    requires x.shared.issuer == Lease(Some(owner.issuer), Some(LeaseRecord("a", owner.issuer))) && x.shared.extension.holder.None?
    requires x1 == Reached(x, BindObserve("a", owner)) && x2 == Reached(x, BindLock("a", owner))
    requires x3 == Reached(x, BindWrite("a", owner)).(shared := x.shared.(extension := Locked(x.shared.extension, e)))
    requires x4 == Reached(x, BindSwap("a", owner)).(shared := x.shared.(extension := Lease(Some(e), Some(LeaseRecord("a", e)))))
    ensures Act(e, BindReadStep, inbox, x, x1) && Act(e, BindObserveStep, inbox, x1, x2)
    ensures Act(e, BindLockStep, inbox, x2, x3) && Act(e, BindWriteStep, inbox, x3, x4)
  {
  }

  lemma BindSwapsOwner(e: Proc, inbox: Option<Frame>, x: Sight, owner: Record, y: Sight)
    requires x.engine.op == BindSwap("a", owner) && x.engine.validated.None? && x.shared.journal == Some(owner) && e.Valid() && owner.issuer.Valid()
    requires owner == Record("a", owner.issuer, None, Phase.Pending) && HasAdopted(x.engine.inner, false)
    requires y == x.(engine := x.engine.(inner := x.engine.inner.(leases := Leases(false, true)), op := BindSync("a")),
                     shared := SetJournal(x.shared, Some(Record("a", owner.issuer, Some(e), Phase.Attached))))
    ensures Act(e, BindSwapStep, inbox, x, y)
  {
    assert !IsSpace("a"[0]) && !Blank("a");
  }

  /** The record of the attempt after the bind. */
  predicate AttachedTo(s: Shared, u: Proc, e: Proc) {
    s.journal == Some(Record("a", u, Some(e), Phase.Attached)) && s.extension.holder == Some(e)
  }

  /** An Extension attached to the lane of `u` takes the attempt over. */
  lemma BindPath(u: Proc, e: Proc, s: Shared, frame: Frame, engine: Engine) returns (sights: seq<Sight>, acts: seq<Action>)
    requires Delivered(frame) && u.Valid() && e.Valid() && engine == AttachedEngine(u)
    requires s.journal == Some(Record("a", u, None, Phase.Pending))
    requires s.issuer == Lease(Some(u), Some(LeaseRecord("a", u))) && s.extension.holder.None?
    ensures LocalPath(e, Some(frame), sights, acts) && sights[0] == Sight(s, engine, None)
    ensures var y := sights[|acts|];
      AttachedTo(y.shared, u, e) && y.engine.op.BindSync? && HasAdopted(y.engine.inner, true) && y.shared.used == s.used
      && y.shared.alive == s.alive
  {
    hide Act, Synced;
    var owner := s.journal.value;
    var x0 := Sight(s, engine, None);
    var x1 := x0.(engine := engine.(inner := Synced(engine, Some(frame), Some("a"), 0), op := BindRead("a")));
    BindOpens(e, frame, x0);
    var x2, x3 := Reached(x1, BindObserve("a", owner)), Reached(x1, BindLock("a", owner));
    var x4 := Reached(x1, BindWrite("a", owner)).(shared := s.(extension := Locked(s.extension, e)));
    var x5 := Reached(x1, BindSwap("a", owner)).(shared := s.(extension := Lease(Some(e), Some(LeaseRecord("a", e)))));
    BindLocksExtension(e, Some(frame), x1, owner, x2, x3, x4, x5);
    var x6 := x5.(engine := x5.engine.(inner := x5.engine.inner.(leases := Leases(false, true)), op := BindSync("a")),
                  shared := SetJournal(x5.shared, Some(Record("a", u, Some(e), Phase.Attached))));
    BindSwapsOwner(e, Some(frame), x5, owner, x6);
    sights := [x0, x1, x2, x3, x4, x5, x6];
    acts := [BindStart("a", 0), BindReadStep, BindObserveStep, BindLockStep, BindWriteStep, BindSwapStep];
  }

  // ---- the restarted UI claims the stop ----

  lemma ClaimPath(v: Proc, u: Proc, e: Proc, s: Shared) returns (sights: seq<Sight>, acts: seq<Action>)
    requires AttachedTo(s, u, e)
    ensures LocalPath(v, None, sights, acts) && |sights| == 5 && |acts| == 4 && acts[3] == ClaimFenceStep && sights[0] == Sight(s, NewEngine(true), None)
    ensures sights[3].shared == sights[4].shared == s && sights[4].lane == None
    ensures sights[3].engine.op == ClaimFence(1, s.journal.value, false) && sights[4].engine.osStop == OsStop(1, "a", false)
  {
    hide Act, Committed;
    var x0 := Sight(s, NewEngine(true), None);
    var x1 := x0.(engine := x0.engine.(intentEpoch := 1));
    var x2 := Reached(x1, ClaimRead(1, None));
    var x3 := Reached(x1, ClaimFence(1, s.journal.value, false));
    var x4 := Claimed(x3, 1, "a");
    Uncommitted(x1, ClaimRead(1, None));
    ClaimSteps(v, x0, x1, x2, x3, x4);
    sights := [x0, x1, x2, x3, x4];
    acts := [AdvanceIntent, ClaimStart(1, 0), ClaimReadStep, ClaimFenceStep];
  }

  lemma ClaimSteps(v: Proc, x0: Sight, x1: Sight, x2: Sight, x3: Sight, x4: Sight)
    requires x0.engine == NewEngine(true) && x1 == x0.(engine := x0.engine.(intentEpoch := 1))
    requires x0.shared.journal.Some? && x0.shared.journal.value.attempt == "a" && x0.shared.journal.value.phase.Attached?
    requires x2 == Reached(x1, ClaimRead(1, None)) == Committed(x1, x1.engine.inner, ClaimRead(1, None))
    requires x3 == Reached(x1, ClaimFence(1, x0.shared.journal.value, false)) && x4 == Claimed(x3, 1, "a")
    ensures Act(v, AdvanceIntent, None, x0, x1) && Act(v, ClaimStart(1, 0), None, x1, x2)
    ensures Act(v, ClaimReadStep, None, x2, x3) && Act(v, ClaimFenceStep, None, x3, x4)
  {
    hide Merge, Committed, FencePendingStop, Blank;
  }

  // ---- the run ----

  lemma Spawned(s: State, p: Proc, ui: bool) returns (t: State)
    requires p.Valid() && p !in s.shared.used && p !in s.engines && p !in s.regions
    ensures Next(s, Spawn(p, ui, NewInner()), t)
    ensures t.shared == s.shared.(alive := s.shared.alive + {p}, used := s.shared.used + {p})
    ensures p in t.engines && t.engines == s.engines[p := NewEngine(ui)] && t.recoveries == s.recoveries
    ensures t.regions == if ui then s.regions[p := Region(None, None)] else s.regions
  {
    t := State(s.shared.(alive := s.shared.alive + {p}, used := s.shared.used + {p}), s.engines[p := NewEngine(ui)],
    if ui then s.regions[p := Region(None, None)] else s.regions, s.recoveries);
  }

  /** A UI process and its pending attempt, published. */
  ghost predicate PendingWorld(s: State, u: Proc) {
    && s.engines.Keys == {u} && s.engines[u].ui && s.regions.Keys == {u} && s.recoveries == map[]
    && s.regions[u].extension.None? && s.regions[u].ui.Some? && Delivered(s.regions[u].ui.value)
    && s.shared.journal == Some(Record("a", u, None, Phase.Pending))
    && s.shared.issuer == Lease(Some(u), Some(LeaseRecord("a", u))) && s.shared.extension.holder.None?
    && s.shared.used == {u} && s.shared.alive == {u}
    && var e := s.engines[u];
       e.op.Ready? && e.inner.leases.issuer && e.inner.runningNative.None? && e.inner.pendingNative.None?
  }

  lemma ReachPending(u: Proc) returns (states: seq<State>, steps: seq<Step>)
    requires u.Valid()
    ensures Path(states, steps) && Init(states[0]) && PendingWorld(states[|steps|], u)
  {
    hide Next, LocalPath, Blank;
    var s0 := State(Shared(None, Lease(None, None), Lease(None, None), {}, {}, History(map[], {}, {}, {}, {}, 0)), map[], map[], map[]);
    var s1 := Spawned(s0, u, true);
    Extend([s0], [], Spawn(u, true, NewInner()), s1);
    var sights, acts := BeginPath(u, s1.shared);
    states, steps := Lift([s0] + [s1], [] + [Spawn(u, true, NewInner())], u, None, sights, acts, |acts|);
  }

  /** The attempt attached to a living Extension that reads the lane of `u`. */
  ghost predicate AttachedWorld(s: State, u: Proc, e: Proc) {
    && u != e && s.engines.Keys == {u, e} && s.regions.Keys == {u} && s.recoveries == map[]
    && s.regions[u].ui.Some? && Delivered(s.regions[u].ui.value) && AttachedTo(s.shared, u, e)
    && s.shared.used == {u, e} && s.engines[e].peer == Some(u) && !s.engines[e].ui && HasAdopted(s.engines[e].inner, true)
  }

  lemma ReachAttached(u: Proc, e: Proc) returns (states: seq<State>, steps: seq<Step>)
    requires u.Valid() && e.Valid() && u != e
    ensures Path(states, steps) && Init(states[0]) && AttachedWorld(states[|steps|], u, e)
  {
    hide Next, LocalPath, Blank, Init, Delivered, HasAdopted;
    states, steps := ReachPending(u);
    var s := states[|steps|];
    var s1 := Spawned(s, e, false);
    Extend(states, steps, Spawn(e, false, NewInner()), s1);
    var s2 := s1.(engines := s1.engines[e := NewEngine(false).(peer := Some(u), attaching := true)]);
    var s3 := s1.(engines := s1.engines[e := AttachedEngine(u)]);
    assert Next(s1, Attach(e, u), s2) && Next(s2, AttachReset(e), s3) by { Attaches(s1, e, u); }
    Extend(states + [s1], steps + [Spawn(e, false, NewInner())], Attach(e, u), s2);
    Extend(states + [s1] + [s2], steps + [Spawn(e, false, NewInner())] + [Attach(e, u)], AttachReset(e), s3);
    states := states + [s1] + [s2] + [s3];
    steps := steps + [Spawn(e, false, NewInner())] + [Attach(e, u)] + [AttachReset(e)];
    var sights, acts := BindPath(u, e, s3.shared, s.regions[u].ui.value, s3.engines[e]);
    states, steps := Lift(states, steps, e, s.regions[u].ui, sights, acts, |acts|);
  }

  lemma Attaches(s: State, e: Proc, u: Proc)
    requires e in s.engines && s.engines[e] == NewEngine(false) && u in s.regions
    ensures var t := s.(engines := s.engines[e := NewEngine(false).(peer := Some(u), attaching := true)]);
            Next(s, Attach(e, u), t) && Next(t, AttachReset(e), s.(engines := s.engines[e := AttachedEngine(u)]))
  {
    var t := s.(engines := s.engines[e := NewEngine(false).(peer := Some(u), attaching := true)]);
    assert t.engines[e := AttachedEngine(u)] == s.engines[e := AttachedEngine(u)];
  }

  /** The UI process of the attempt is gone and `v` is in its place; the Extension lives. */
  ghost predicate RestartedWorld(s: State, u: Proc, e: Proc, v: Proc) {
    && v in s.engines && s.engines[v] == NewEngine(true) && e in s.engines && e != v && s.engines[e].inner.leases.extension
    && s.regions.Keys == {u, v} && u != v && s.regions[v] == Region(None, None)
    && s.regions[u].ui.Some? && Delivered(s.regions[u].ui.value) && AttachedTo(s.shared, u, e)
  }

  lemma ReachRestarted(u: Proc, e: Proc, v: Proc) returns (states: seq<State>, steps: seq<Step>)
    requires u.Valid() && e.Valid() && v.Valid() && u != e && v != u && v != e
    ensures Path(states, steps) && Init(states[0]) && RestartedWorld(states[|steps|], u, e, v)
  {
    hide Next, LocalPath, Blank, HasAdopted, Init, Delivered;
    states, steps := ReachAttached(u, e);
    assert Init(states[0]);
    var s := states[|steps|];
    assert Next(s, Crash(u), Crashed(s, u)) by { Crashes(s, u); }
    Extend(states, steps, Crash(u), Crashed(s, u));
    var s2 := Spawned(Crashed(s, u), v, true);
    Extend(states + [Crashed(s, u)], steps + [Crash(u)], Spawn(v, true, NewInner()), s2);
    states, steps := states + [Crashed(s, u)] + [s2], steps + [Crash(u)] + [Spawn(v, true, NewInner())];
    assert AdoptedLease(s.engines[e].inner) by { HasLease(s.engines[e].inner); }
  }

  /** The property "a stop claim that succeeds on an attached attempt is visible to
      its Extension" fails for a cold claim: the UI process restarts, claims the
      stop of the attempt it finds in the journal, and succeeds, while the
      Extension lives on and no lane carries the request. */
  lemma ColdClaimIsSilent(u: Proc, e: Proc, v: Proc) returns (states: seq<State>, steps: seq<Step>)
    requires u.Valid() && e.Valid() && v.Valid() && u != e && v != u && v != e
    ensures Run(states, steps) && |steps| > 0
    ensures var s, step, t := states[|steps| - 1], steps[|steps| - 1], states[|steps|];
      && step.Local? && step.p == v && ClaimWins(s, step) && !ClaimIsHot(s, step)
      && InPhase(t, "a", Phase.Attached) && OwnedBy(t.shared.journal, e) && e in t.engines
      && t.engines[e].inner.leases.extension && t.engines[v].osStop == OsStop(1, "a", false)
      && forall q | q in t.regions :: !Carries(t.regions[q].ui, "a")
  {
    hide Next, LocalPath, Blank, HasAdopted, Init;
    states, steps := ReachRestarted(u, e, v);
    var s := states[|steps|];
    var sights, acts := ClaimPath(v, u, e, s.shared);
    states, steps := Lift(states, steps, v, None, sights, acts, 3);
    var last := states[|steps|];
    FinishClaim(last, v, sights, acts);
    Extend(states, steps, Local(v, ClaimFenceStep, sights[4]), Put(last, v, sights[4]));
    states, steps := states + [Put(last, v, sights[4])], steps + [Local(v, ClaimFenceStep, sights[4])];
  }

  predicate AdoptedLease(i: Inner) {
    i.leases.extension
  }

  lemma HasLease(i: Inner)
    requires HasAdopted(i, true)
    ensures AdoptedLease(i)
  {
  }

  lemma Crashes(s: State, u: Proc)
    requires u in s.engines
    ensures Next(s, Crash(u), Crashed(s, u))
  {
  }

  lemma FinishClaim(s: State, v: Proc, sights: seq<Sight>, acts: seq<Action>)
    requires v in s.engines && LocalPath(v, None, sights, acts) && |acts| == 4 && acts[3] == ClaimFenceStep
    requires SightOf(s, v) == sights[3] && InboxOf(s, v) == None && s.engines[v].ui && v in s.regions
    ensures Next(s, Local(v, ClaimFenceStep, sights[4]), Put(s, v, sights[4]))
    ensures var t := Put(s, v, sights[4]);
      && t.shared == sights[4].shared && t.engines == s.engines[v := sights[4].engine]
      && t.regions == s.regions[v := s.regions[v].(ui := sights[4].lane)]
  {
    hide Act;
    assert Act(v, acts[3], None, sights[3], sights[3 + 1]);
  }
}
