/** A run in which a second Extension takes an attempt over from a dead one. */
module Takeover {
  import opened Lists
  import opened Strings
  import opened EngineState
  import opened OwnerJournal
  import opened OwnershipProtocol
  import opened StopFence
  import opened OwnershipInvariant
  import opened OwnershipSteps
  import opened OwnershipSafety
  import opened OwnershipTheorems
  import opened ColdClaim
  import opened Undisturbed

  // ---- the run ----

  /** The frame of the UI, merged by a fresh Extension that expects its attempt. */
  lemma FreshAdopts(u: Proc, frame: Frame)
    requires Delivered(frame)
    ensures var i := Synced(AttachedEngine(u), Some(frame), Some("a"), 0);
      i.start.attempt == "a" && !i.start.outcome.Terminal() && i.leases == Leases(false, false)
  {
    AdoptsDelivered(AttachedEngine(u), frame);
  }

  /** The Extension `e` that the record names is dead, and a fresh one reads the same
      lane. */
  ghost predicate OrphanedWorld(s: State, u: Proc, e: Proc, f: Proc) {
    && e !in s.engines && f in s.engines && s.engines[f] == AttachedEngine(u)
    && u in s.regions && s.regions[u].ui.Some? && Delivered(s.regions[u].ui.value)
    && s.shared.journal == Some(Record("a", u, Some(e), Attached)) && s.shared.extension.holder == None
  }

  lemma ReachOrphaned(u: Proc, e: Proc, f: Proc) returns (states: seq<State>, steps: seq<Step>, died: nat)
    requires u.Valid() && e.Valid() && f.Valid() && u != e && f != u && f != e
    ensures Path(states, steps) && Init(states[0]) && OrphanedWorld(states[|steps|], u, e, f) && died < |steps|
    ensures InPhase(states[died], "a", Attached) && OwnedBy(states[died].shared.journal, e) && e in states[died].engines
    ensures steps[died] == Crash(e)
  {
    hide Next, LocalPath, Blank, Init, Delivered, HasAdopted, Synced;
    states, steps := ReachAttached(u, e);
    died := |steps|;
    assert Init(states[0]);
    var s := states[|steps|];
    var s1 := Crashed(s, e);
    assert Next(s, Crash(e), s1) by { Crashes(s, e); }
    Extend(states, steps, Crash(e), s1);
    var s2 := Spawned(s1, f, false);
    Extend(states + [s1], steps + [Crash(e)], Spawn(f, false, NewInner()), s2);
    var s3 := s2.(engines := s2.engines[f := NewEngine(false).(peer := Some(u), attaching := true)]);
    var s4 := s2.(engines := s2.engines[f := AttachedEngine(u)]);
    assert Next(s2, Attach(f, u), s3) && Next(s3, AttachReset(f), s4) by { Attaches(s2, f, u); }
    Extend(states + [s1] + [s2], steps + [Crash(e)] + [Spawn(f, false, NewInner())], Attach(f, u), s3);
    Extend(states + [s1] + [s2] + [s3], steps + [Crash(e)] + [Spawn(f, false, NewInner())] + [Attach(f, u)], AttachReset(f), s4);
    states := states + [s1] + [s2] + [s3] + [s4];
    steps := steps + [Crash(e)] + [Spawn(f, false, NewInner())] + [Attach(f, u)] + [AttachReset(f)];
  }

  lemma OwnerIsValid(u: Proc, e: Proc)
    requires u.Valid() && e.Valid()
    ensures Record("a", u, Some(e), Attached).Valid()
  {
    assert !IsSpace("a"[0]) && !Blank("a");
  }

  /** The second Extension's bind, up to its compare-and-swap. */
  lemma ReachSwap(u: Proc, e: Proc, f: Proc, states: seq<State>, steps: seq<Step>)
    returns (longer: seq<State>, more: seq<Step>, sights: seq<Sight>, acts: seq<Action>)
    requires u.Valid() && e.Valid() && f.Valid() && f != e && Path(states, steps) && OrphanedWorld(states[|steps|], u, e, f)
    ensures Path(longer, more) && states <= longer && steps <= more
    ensures var s := longer[|more|];
      && |sights| == 7 && f in s.engines && e !in s.engines && SightOf(s, f) == sights[5]
      && InboxOf(s, f) == states[|steps|].regions[u].ui
      && LocalPath(f, InboxOf(s, f), sights, acts) && |acts| == 6 && acts[5] == BindSwapStep
      && s.engines[f].op == BindSwap("a", Record("a", u, Some(e), Attached)) && OwnedBy(s.shared.journal, e)
    ensures var y := sights[6];
      && y.shared.journal == Some(Record("a", u, Some(f), Attached))
      && y.shared.extension == Lease(Some(f), Some(LeaseRecord("a", f)))
      && y.engine.inner.leases.extension && y.engine.inner.start.attempt == "a" && y.engine.op.BindSync?
  {
    hide Next, LocalPath, Blank, Delivered, Synced;
    var s := states[|steps|];
    var owner, frame := Record("a", u, Some(e), Attached), s.regions[u].ui.value;
    FreshAdopts(u, frame);
    DeliveredIsLive(frame);
    OwnerIsValid(u, e);
    sights, acts := BindUndisturbed(f, SightOf(s, f), Some(frame), owner, 0);
    IsPath(f, Some(frame), sights, acts);
    longer, more := Lift(states, steps, f, Some(frame), sights, acts, 5);
  }

  lemma IsPath(p: Proc, inbox: Option<Frame>, sights: seq<Sight>, acts: seq<Action>)
    requires LocalPath(p, inbox, sights, acts)
    ensures |sights| == |acts| + 1
  {
  }

  /** An Extension attaches and dies, and a second one is delivered the same attempt: it
      finds the dead one's lease released, locks it, rebinds the record and owns the
      attempt, while the first one is gone for good. */
  lemma SecondExtensionTakesOver(u: Proc, e: Proc, f: Proc) returns (states: seq<State>, steps: seq<Step>, died: nat)
    requires u.Valid() && e.Valid() && f.Valid() && u != e && f != u && f != e
    ensures Run(states, steps) && died + 1 < |steps|
    ensures InPhase(states[died], "a", Attached) && OwnedBy(states[died].shared.journal, e) && e in states[died].engines
    ensures steps[died] == Crash(e)
    ensures var s, t := states[|steps| - 1], states[|steps|];
      && steps[|steps| - 1].Local? && steps[|steps| - 1].p == f && BindWins(s, steps[|steps| - 1], "a")
      && OwnedBy(s.shared.journal, e) && e !in s.engines
      && t.shared.journal == Some(Record("a", u, Some(f), Attached))
      && t.shared.extension == Lease(Some(f), Some(LeaseRecord("a", f)))
      && f in t.engines && t.engines[f].inner.leases.extension && t.engines[f].inner.start.attempt == "a"
  {
    hide Next, LocalPath, Blank, Init, OrphanedWorld, InPhase, OwnedBy;
    var before, made;
    before, made, died := ReachOrphaned(u, e, f);
    var sights, acts;
    states, steps, sights, acts := ReachSwap(u, e, f, before, made);
    assert states[died] == before[died] && steps[died] == made[died] && states[0] == before[0];
    var last := states[|steps|];
    FinishSwap(last, f, InboxOf(last, f), sights, acts);
    var step, t := Local(f, BindSwapStep, sights[6]), Put(last, f, sights[6]);
    Extend(states, steps, step, t);
    states, steps := states + [t], steps + [step];
  }

  lemma DeliveredIsLive(frame: Frame)
    requires Delivered(frame)
    ensures frame.start.attempt == "a" && !frame.start.outcome.Terminal()
  {
  }

  lemma FinishSwap(s: State, f: Proc, inbox: Option<Frame>, sights: seq<Sight>, acts: seq<Action>)
    requires f in s.engines && LocalPath(f, inbox, sights, acts) && |acts| == 6 && acts[5] == BindSwapStep
    requires SightOf(s, f) == sights[5] && InboxOf(s, f) == inbox
    ensures Next(s, Local(f, BindSwapStep, sights[6]), Put(s, f, sights[6]))
    ensures Put(s, f, sights[6]).shared == sights[6].shared && Put(s, f, sights[6]).engines == s.engines[f := sights[6].engine]
  {
    hide Act;
    assert Act(f, acts[5], inbox, sights[5], sights[5 + 1]);
  }
}
