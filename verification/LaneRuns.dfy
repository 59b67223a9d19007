/** A lane over its whole life: publishes that complete, are refused or are cut off
    between two memory writes, and writers that attach again. */
module LaneRuns {
  import opened Lists
  import opened FrameCodec
  import opened SharedLane

  datatype Event =
    | Completes(content: seq<Byte>)
    | Refuses                                    // too large: nothing is written
    | CutOff(content: seq<Byte>, writes: nat)    // stops after that many memory writes
    | Reattaches                                 // seeds the generation from the headers

  /** The lane, its newest completed frame and the writer's next generation. */
  datatype Writer = Writer(lane: Lane, last: Option<Frame>, next: nat)

  predicate Writes(e: Event) {
    e.Completes? || e.CutOff?
  }

  predicate Burns(e: Event) {
    e.Refuses? || e.CutOff?
  }

  predicate Possible(size: nat, w: Writer, e: Event) {
    && Sized(w.lane, size) && w.next < 0x1_0000_0000_0000_0000
    && (Writes(e) ==> FRAME_HEADER_SIZE + |e.content| <= size)
    && (e.CutOff? ==> e.writes + 1 < |WriteStates(w.lane[w.next % 2], w.next, e.content)|)
  }

  function AfterGeneration(latest: Option<nat>): nat {
    if latest.None? then 1 else latest.value + 1
  }

  function After(size: nat, w: Writer, e: Event): (r: Writer)
    requires Possible(size, w, e)
    ensures Sized(r.lane, size)
  {
    var t := w.next % 2;
    match e
    case Completes(content) =>
      var states := WriteStates(w.lane[t], w.next, content);
      Writer(WithSlot(w.lane, t, states[|states| - 1]), Some(Frame(w.next, content)), w.next + 1)
    case Refuses => w.(next := w.next + 1)
    case CutOff(content, writes) =>
      w.(lane := WithSlot(w.lane, t, WriteStates(w.lane[t], w.next, content)[writes]), next := w.next + 1)
    case Reattaches => w.(next := AfterGeneration(LatestGeneration(w.lane, size)))
  }

  function GenerationOf(last: Option<Frame>): nat {
    if last.None? then 0 else last.value.generation
  }

  ghost predicate Run(size: nat, writers: seq<Writer>, events: seq<Event>) {
    && |writers| == |events| + 1
    && Sized(writers[0].lane, size) && Carries(writers[0].lane, size, writers[0].last)
    && writers[0].next == GenerationOf(writers[0].last) + 1
    && forall k | 0 <= k < |events| :: Possible(size, writers[k], events[k]) && writers[k + 1] == After(size, writers[k], events[k])
  }

  /** Generations burned since the last completed publish or re-attachment. */
  function Burned(events: seq<Event>, n: nat): nat
    requires n <= |events|
  {
    if n == 0 || !Burns(events[n - 1]) then 0 else Burned(events, n - 1) + 1
  }

  /** The publish at `k`, if it is one, leaves the slot of the newest frame alone. */
  predicate Spares(writers: seq<Writer>, events: seq<Event>, k: nat)
    requires k < |events| && k < |writers|
  {
    Writes(events[k]) ==> SparesNewest(writers[k].last, writers[k].next)
  }

  lemma AfterCarries(size: nat, w: Writer, e: Event, burned: nat)
    requires Possible(size, w, e) && Carries(w.lane, size, w.last) && w.next == GenerationOf(w.last) + 1 + burned
    requires e.CutOff? ==> SparesNewest(w.last, w.next)
    ensures var r := After(size, w, e);
      Carries(r.lane, size, r.last) && r.next == GenerationOf(r.last) + 1 + if Burns(e) then burned + 1 else 0
  {
    hide ParseHeader, EncodeHeader, Checksum, AfterPayload, AfterZeroing, AfterHeader, Carries;
    if Writes(e) {
      var f := Frame(w.next, e.content);
      var states := WriteStates(w.lane[w.next % 2], w.next, e.content);
      PublishOutcome(w.lane, size, w.last, f, if e.CutOff? then e.writes else |states| - 1);
    } else if e.Reattaches? {
      SeedSparesNewest(w.lane, size, w.last);
    }
  }

  /** While every publish so far spared the newest frame, the lane carries it and
      the next generation is off by the burned ones. */
  lemma {:induction false} CarriesSoFar(size: nat, writers: seq<Writer>, events: seq<Event>, n: nat)
    requires Run(size, writers, events) && n <= |events| && forall k | 0 <= k < n :: Spares(writers, events, k)
    ensures Sized(writers[n].lane, size) && Carries(writers[n].lane, size, writers[n].last)
    ensures writers[n].next == GenerationOf(writers[n].last) + 1 + Burned(events, n)
  {
    hide Carries, After;
    if n > 0 {
      CarriesSoFar(size, writers, events, n - 1);
      assert Spares(writers, events, n - 1);
      AfterCarries(size, writers[n - 1], events[n - 1], Burned(events, n - 1));
    }
  }

  /** A caller-checkable form: before the publish no frame was completed, or an even
      number of generations was burned since the last completed publish or
      re-attachment. */
  predicate EvenlyBurned(writers: seq<Writer>, events: seq<Event>, k: nat)
    requires k < |events| && k < |writers|
  {
    Writes(events[k]) ==> writers[k].last.None? || Burned(events, k) % 2 == 0
  }

  /** Every publish of a run spares the newest frame exactly when every publish has
      an even number of burned generations before it. */
  lemma {:induction false} SparesIffEvenlyBurned(size: nat, writers: seq<Writer>, events: seq<Event>, n: nat)
    requires Run(size, writers, events) && n <= |events|
    ensures (forall k | 0 <= k < n :: Spares(writers, events, k)) <==> (forall k | 0 <= k < n :: EvenlyBurned(writers, events, k))
  {
    hide Carries, After, Run, Burned;
    if n > 0 {
      RunLength(size, writers, events);
      SparesIffEvenlyBurned(size, writers, events, n - 1);
      if forall k | 0 <= k < n - 1 :: Spares(writers, events, k) {
        CarriesSoFar(size, writers, events, n - 1);
        assert Spares(writers, events, n - 1) <==> EvenlyBurned(writers, events, n - 1);
      }
    }
  }

  lemma RunLength(size: nat, writers: seq<Writer>, events: seq<Event>)
    requires Run(size, writers, events)
    ensures |writers| == |events| + 1
  {
  }

  /** Sparing the newest frame makes the publish atomic for every overlapping read. */
  lemma SparingIsAtomic(lane: Lane, size: nat, last: Option<Frame>, generation: U64)
    requires Sized(lane, size) && Carries(lane, size, last) && SparesNewest(last, generation)
    ensures AlwaysAtomic(lane, size, last, generation)
  {
    hide ParseHeader, Checksum, ReadFrame, WriteStates, Holds, ReadLane;
    forall f: Frame, cut: nat, schedule: Schedule |
      f.generation == generation && PossibleCut(lane, size, f, cut) && schedule.Valid(cut)
      ensures ReadDuring(lane, size, f, cut, schedule) == last || ReadDuring(lane, size, f, cut, schedule) == Some(f)
    {
      WriterIsOnePublish(lane, size, f, cut);
      ReadIsAtomic(PublishHistory(lane, size, f, cut), size, schedule, last, f, CommitMoment(lane, f, cut));
    }
  }

  /** Over a whole run with evenly burned generations, every publish is atomic for
      every read that overlaps it alone, whatever was refused, cut off or attached
      again before. */
  lemma EveryPublishAtomic(size: nat, writers: seq<Writer>, events: seq<Event>, k: nat)
    requires Run(size, writers, events) && k < |events| && Writes(events[k])
    requires forall j | 0 <= j <= k :: EvenlyBurned(writers, events, j)
    ensures Sized(writers[k].lane, size) && writers[k].next < 0x1_0000_0000_0000_0000
    ensures AlwaysAtomic(writers[k].lane, size, writers[k].last, writers[k].next)
  {
    hide Carries, After, AlwaysAtomic, Burned;
    SparesIffEvenlyBurned(size, writers, events, k + 1);
    CarriesSoFar(size, writers, events, k);
    assert Spares(writers, events, k);
    SparingIsAtomic(writers[k].lane, size, writers[k].last, writers[k].next);
  }

  /** Re-attaching right after every burned generation is enough. */
  lemma ReseedingSuffices(writers: seq<Writer>, events: seq<Event>, k: nat)
    requires k < |events| && |writers| == |events| + 1
    requires forall j | 0 <= j < |events| - 1 && Burns(events[j]) :: events[j + 1].Reattaches?
    ensures EvenlyBurned(writers, events, k)
  {
    assert k > 0 && Burns(events[k - 1]) ==> events[k - 1 + 1].Reattaches?;
  }
}
