/** `PlatformIpc`: one process's end of the shared region. It writes its own lane
    and leaves the rest of the region alone. */
module PlatformIpc {
  import opened Lists
  import opened FrameCodec
  import opened SharedLane

  const REGION_SIZE := 8388608
  const REGION_HEADER_SIZE := 4096
  const UI_LANE_SIZE := 1048576

  datatype Role = Ui | Vpn

  function LaneOffset(role: Role): nat {
    if role.Ui? then REGION_HEADER_SIZE else REGION_HEADER_SIZE + UI_LANE_SIZE
  }

  function LaneSlotSize(role: Role): nat {
    if role.Ui? then UI_LANE_SIZE / 2 else (REGION_SIZE - (REGION_HEADER_SIZE + UI_LANE_SIZE)) / 2
  }

  function SlotOffset(role: Role, s: nat): nat
    requires s < 2
  {
    LaneOffset(role) + s * LaneSlotSize(role)
  }

  /** The four slots and the region header do not overlap and fill the region. */
  lemma LayoutDisjoint()
    ensures SlotOffset(Ui, 0) == REGION_HEADER_SIZE
    ensures SlotOffset(Ui, 1) == SlotOffset(Ui, 0) + LaneSlotSize(Ui)
    ensures SlotOffset(Vpn, 0) == SlotOffset(Ui, 1) + LaneSlotSize(Ui)
    ensures SlotOffset(Vpn, 1) == SlotOffset(Vpn, 0) + LaneSlotSize(Vpn)
    ensures REGION_SIZE == SlotOffset(Vpn, 1) + LaneSlotSize(Vpn)
    ensures SlotSize(LaneSlotSize(Ui)) && SlotSize(LaneSlotSize(Vpn))
  {
  }

  function SlotBytes(region: seq<Byte>, offset: nat, size: nat): (slot: Slot)
    requires offset + size <= |region|
    ensures |slot| == size
  {
    region[offset..offset + size]
  }

  function LaneBytes(region: seq<Byte>, role: Role): (lane: Lane)
    requires |region| == REGION_SIZE
    ensures Sized(lane, LaneSlotSize(role))
  {
    LayoutDisjoint();
    [SlotBytes(region, SlotOffset(role, 0), LaneSlotSize(role)), SlotBytes(region, SlotOffset(role, 1), LaneSlotSize(role))]
  }

  /** A write inside one slot is a write to that slot alone. */
  lemma SpliceInSlot(region: seq<Byte>, offset: nat, size: nat, at: nat, data: seq<Byte>)
    requires offset + size <= |region| && at + |data| <= size
    ensures SlotBytes(Splice(region, offset + at, data), offset, size) == Splice(SlotBytes(region, offset, size), at, data)
  {
  }

  lemma SpliceElsewhere(region: seq<Byte>, offset: nat, size: nat, at: nat, data: seq<Byte>)
    requires offset + size <= |region| && at + |data| <= |region|
    requires at + |data| <= offset || offset + size <= at
    ensures SlotBytes(Splice(region, at, data), offset, size) == SlotBytes(region, offset, size)
  {
  }

  lemma SpliceInLane(region: seq<Byte>, role: Role, t: nat, at: nat, data: seq<Byte>)
    requires |region| == REGION_SIZE && t < 2 && at + |data| <= LaneSlotSize(role)
    ensures SlotOffset(role, t) + at + |data| <= REGION_SIZE
    ensures var after := Splice(region, SlotOffset(role, t) + at, data);
      && LaneBytes(after, role) == WithSlot(LaneBytes(region, role), t, Splice(LaneBytes(region, role)[t], at, data))
      && (forall other: Role | other != role :: LaneBytes(after, other) == LaneBytes(region, other))
      && after[..REGION_HEADER_SIZE] == region[..REGION_HEADER_SIZE]
  {
    LayoutDisjoint();
    var size := LaneSlotSize(role);
    SpliceInSlot(region, SlotOffset(role, t), size, at, data);
    SpliceElsewhere(region, SlotOffset(role, 1 - t), size, SlotOffset(role, t) + at, data);
    forall other: Role | other != role
      ensures LaneBytes(Splice(region, SlotOffset(role, t) + at, data), other) == LaneBytes(region, other)
    {
      SpliceElsewhere(region, SlotOffset(other, 0), LaneSlotSize(other), SlotOffset(role, t) + at, data);
      SpliceElsewhere(region, SlotOffset(other, 1), LaneSlotSize(other), SlotOffset(role, t) + at, data);
    }
  }

  // ---- residues ----

  /** Nothing but zeros after the content a slot's header announces. */
  ghost predicate Clean(slot: Slot)
    requires SlotSize(|slot|)
  {
    forall i | FRAME_HEADER_SIZE + PreviousLength(slot) <= i < |slot| :: slot[i] == 0
  }

  ghost predicate CleanLane(lane: Lane, size: nat)
    requires Sized(lane, size)
  {
    Clean(lane[0]) && Clean(lane[1])
  }

  /** A slot that holds one frame and zeros. */
  function FrameImage(size: nat, generation: U64, content: seq<Byte>): (slot: Slot)
    requires SlotSize(size) && FRAME_HEADER_SIZE + |content| <= size
    ensures |slot| == size
  {
    EncodeHeader(generation, content) + content + Zeros(size - FRAME_HEADER_SIZE - |content|)
  }

  /** Completing a frame in a clean slot leaves that frame and zeros, and the
      slot is clean again. */
  lemma WriteKeepsClean(slot: Slot, generation: U64, content: seq<Byte>)
    requires SlotSize(|slot|) && FRAME_HEADER_SIZE + |content| <= |slot| && Clean(slot)
    ensures AfterHeader(slot, generation, content) == FrameImage(|slot|, generation, content)
    ensures Clean(FrameImage(|slot|, generation, content))
  {
    hide ParseHeader, EncodeHeader, Checksum;
    var zeroed := AfterZeroing(slot, content);
    forall i | FRAME_HEADER_SIZE + |content| <= i < |slot| ensures zeroed[i] == 0 {
    }
    assert zeroed[FRAME_HEADER_SIZE..] == content + Zeros(|slot| - FRAME_HEADER_SIZE - |content|);
    var image := FrameImage(|slot|, generation, content);
    assert image[..FRAME_HEADER_SIZE] == EncodeHeader(generation, content);
    HeaderRoundTrip(generation, content, |slot|);
  }

  // ---- the process end ----

  datatype Envelope = Envelope(
    state: Option<seq<char>>, sessionHandoff: Option<seq<char>>,
    browserRequest: Option<seq<char>>, browserRequestAck: Option<seq<char>>)

  datatype IpcResult = Published | FrameTooLarge(actual: nat, maximum: nat) | NotifyFailed

  /** A handoff or a browser request that was published is now withdrawn. */
  predicate Withdraws(before: Envelope, after: Envelope) {
    || (before.sessionHandoff.Some? && after.sessionHandoff.None?)
    || (before.browserRequest.Some? && after.browserRequest.None?)
  }

  /** What `before` carried, a handoff or a browser request, `after` carries too, if
      with another content. */
  predicate Within(before: Envelope, after: Envelope) {
    (before.sessionHandoff.Some? ==> after.sessionHandoff.Some?) && (before.browserRequest.Some? ==> after.browserRequest.Some?)
  }

  /** `fetch_add(1)` on 64 bits. */
  function Successor(generation: U64): U64 {
    (generation + 1) % 0x1_0000_0000_0000_0000
  }

  // ---- calls on one end ----

  /** What a publishing call of one end can change. */
  datatype End = End(lane: SharedLane.Lane, published: Envelope, nextGeneration: U64)

  /** The notifications say which of the call's publishes reached the peer's socket. */
  datatype Call =
    | Snapshot(envelope: Envelope, notified: bool, notifiedAgain: bool)
    | StateOnly(state: seq<char>, notified: bool)

  predicate Fits(size: nat, content: seq<Byte>) {
    FRAME_HEADER_SIZE + |content| <= size
  }

  /** `publish`: the generation is consumed before anything can fail. */
  function PublishOnce(e: End, size: nat, content: seq<Byte>, notified: bool): (r: (End, IpcResult))
    requires Sized(e.lane, size)
    ensures Sized(r.0.lane, size)
  {
    var t := e.nextGeneration % 2;
    if !Fits(size, content) then
      (e.(nextGeneration := Successor(e.nextGeneration)), FrameTooLarge(|content|, size - FRAME_HEADER_SIZE))
    else
      (e.(lane := WithSlot(e.lane, t, AfterHeader(e.lane[t], e.nextGeneration, content)),
       nextGeneration := Successor(e.nextGeneration)),
       if notified then Published else NotifyFailed)
  }

  function AfterCall(e: End, size: nat, encode: Envelope -> seq<Byte>, c: Call): (r: (End, IpcResult))
    requires Sized(e.lane, size)
    ensures Sized(r.0.lane, size)
  {
    match c
    case Snapshot(envelope, notified, notifiedAgain) =>
      var (first, result) := PublishOnce(e.(published := envelope), size, encode(envelope), notified);
      if Withdraws(e.published, envelope) && result.Published? then PublishOnce(first, size, encode(envelope), notifiedAgain)
      else (first, result)
    case StateOnly(state, notified) =>
      var envelope := e.published.(state := Some(state));
      PublishOnce(e.(published := envelope), size, encode(envelope), notified)
  }

  function AfterCalls(e: End, size: nat, encode: Envelope -> seq<Byte>, calls: seq<Call>): (r: End)
    requires Sized(e.lane, size)
    ensures Sized(r.lane, size)
    decreases |calls|
  {
    if calls == [] then e else AfterCalls(AfterCall(e, size, encode, calls[0]).0, size, encode, calls[1..])
  }

  lemma PublishKeepsClean(e: End, size: nat, content: seq<Byte>, notified: bool)
    requires Sized(e.lane, size) && CleanLane(e.lane, size)
    ensures var (f, _) := PublishOnce(e, size, content, notified);
      && CleanLane(f.lane, size)
      && (Fits(size, content) ==> f.lane[e.nextGeneration % 2] == FrameImage(size, e.nextGeneration, content))
      && f.lane[Successor(e.nextGeneration) % 2] == e.lane[Successor(e.nextGeneration) % 2]
      && (!Fits(size, content) ==> f.lane == e.lane)
  {
    hide Clean, AfterHeader, FrameImage;
    if Fits(size, content) {
      WriteKeepsClean(e.lane[e.nextGeneration % 2], e.nextGeneration, content);
    }
  }

  lemma CallKeepsClean(e: End, size: nat, encode: Envelope -> seq<Byte>, c: Call)
    requires Sized(e.lane, size) && CleanLane(e.lane, size)
    ensures CleanLane(AfterCall(e, size, encode, c).0.lane, size)
  {
    hide PublishOnce, CleanLane;
    if c.Snapshot? {
      var start := e.(published := c.envelope);
      PublishKeepsClean(start, size, encode(c.envelope), c.notified);
      PublishKeepsClean(PublishOnce(start, size, encode(c.envelope), c.notified).0, size, encode(c.envelope), c.notifiedAgain);
    } else {
      var envelope := e.published.(state := Some(c.state));
      PublishKeepsClean(e.(published := envelope), size, encode(envelope), c.notified);
    }
  }

  /** Over any sequence of publishing calls, whatever they carry and whichever of
      them fail, every byte of the lane past a slot's content stays zero. */
  lemma {:induction false} CallsKeepClean(e: End, size: nat, encode: Envelope -> seq<Byte>, calls: seq<Call>)
    requires Sized(e.lane, size) && CleanLane(e.lane, size)
    ensures CleanLane(AfterCalls(e, size, encode, calls).lane, size)
    decreases |calls|
  {
    hide AfterCall, CleanLane;
    if calls != [] {
      CallKeepsClean(e, size, encode, calls[0]);
      CallsKeepClean(AfterCall(e, size, encode, calls[0]).0, size, encode, calls[1..]);
    }
  }

  /** What one `publish_snapshot` leaves in a clean lane. */
  lemma SnapshotFacts(e: End, size: nat, encode: Envelope -> seq<Byte>, c: Call)
    requires Sized(e.lane, size) && CleanLane(e.lane, size) && c.Snapshot?
    ensures var (f, result) := AfterCall(e, size, encode, c);
      var content, g := encode(c.envelope), e.nextGeneration;
      && CleanLane(f.lane, size) && f.published == c.envelope
      && (result.FrameTooLarge? <==> !Fits(size, content))
      && (result.FrameTooLarge? ==> f.lane == e.lane && f.nextGeneration == Successor(g))
      && (Fits(size, content) ==> f.lane[g % 2] == FrameImage(size, g, content))
      && (Fits(size, content) && !Within(e.published, c.envelope) && c.notified ==>
            f.lane[Successor(g) % 2] == FrameImage(size, Successor(g), content))
      && (Within(e.published, c.envelope) || !c.notified ==> f.lane[Successor(g) % 2] == e.lane[Successor(g) % 2])
  {
    hide CleanLane, Header, FrameImage, AfterHeader;
    CallKeepsClean(e, size, encode, c);
    var start := e.(published := c.envelope);
    PublishKeepsClean(start, size, encode(c.envelope), c.notified);
    PublishKeepsClean(PublishOnce(start, size, encode(c.envelope), c.notified).0, size, encode(c.envelope), c.notifiedAgain);
  }

  // ---- when a withdrawal scrubs ----

  /** Both slots hold the envelope, in the two generations of the call, and zeros. */
  predicate Scrubbed(lane: SharedLane.Lane, size: nat, generation: U64, content: seq<Byte>)
    requires Sized(lane, size)
  {
    && Fits(size, content)
    && lane[generation % 2] == FrameImage(size, generation, content)
    && lane[Successor(generation) % 2] == FrameImage(size, Successor(generation), content)
  }

  /** The end has not used its next two generations yet. */
  predicate Unused(e: End, size: nat)
    requires Sized(e.lane, size)
  {
    && e.nextGeneration < 0xffff_ffff_ffff_ffff
    && forall t | 0 <= t < 2 :: Header(e.lane[t]).Some? ==> Header(e.lane[t]).value.generation < e.nextGeneration
  }

  lemma ImageHeader(size: nat, generation: U64, content: seq<Byte>)
    requires SlotSize(size) && Fits(size, content)
    ensures Header(FrameImage(size, generation, content)).Some?
            && Header(FrameImage(size, generation, content)).value.generation == generation
  {
    hide ParseHeader, EncodeHeader;
    assert FrameImage(size, generation, content)[..FRAME_HEADER_SIZE] == EncodeHeader(generation, content);
    HeaderRoundTrip(generation, content, size);
  }

  /** Withdrawing a handoff or a browser request scrubs both slots exactly when the
      envelope fits and the first notification gets through; the second one does not
      matter. Otherwise the slot that keeps the old content is untouched: the other
      one after a failed notification, both when the envelope is too large. */
  lemma ScrubIff(e: End, size: nat, encode: Envelope -> seq<Byte>, c: Call)
    requires Sized(e.lane, size) && CleanLane(e.lane, size) && Unused(e, size)
    requires c.Snapshot? && !Within(e.published, c.envelope)
    ensures var (f, result) := AfterCall(e, size, encode, c);
      var g := e.nextGeneration;
      && f.published == c.envelope
      && (Scrubbed(f.lane, size, g, encode(c.envelope)) <==> Fits(size, encode(c.envelope)) && c.notified)
      && (!Fits(size, encode(c.envelope)) <==> result.FrameTooLarge?)
      && (!Fits(size, encode(c.envelope)) ==> f.lane == e.lane)
      && (Fits(size, encode(c.envelope)) && !c.notified ==> result.NotifyFailed? && f.lane[(g + 1) % 2] == e.lane[(g + 1) % 2])
  {
    hide CleanLane, Header, FrameImage, AfterHeader;
    var start := e.(published := c.envelope);
    var content := encode(c.envelope);
    PublishKeepsClean(start, size, content, c.notified);
    var first := PublishOnce(start, size, content, c.notified).0;
    PublishKeepsClean(first, size, content, c.notifiedAgain);
    if Fits(size, content) {
      ImageHeader(size, Successor(e.nextGeneration), content);
    }
  }

  /** The call after a failed scrub does not scrub, because the new envelope is
      already remembered. After a failed notification it overwrites the old content
      all the same; after an envelope that was too large the slot of the failed
      generation keeps it. */
  lemma AfterFailedScrub(e: End, size: nat, encode: Envelope -> seq<Byte>, c: Call, d: Call)
    requires Sized(e.lane, size) && CleanLane(e.lane, size) && e.nextGeneration < 0xffff_ffff_ffff_fffe
    requires c.Snapshot? && d.Snapshot? && !Within(e.published, c.envelope) && Within(c.envelope, d.envelope)
    requires Fits(size, encode(d.envelope))
    ensures var f, g := AfterCalls(e, size, encode, [c, d]), e.nextGeneration;
      && (!Fits(size, encode(c.envelope)) ==>
            && f.lane[g % 2] == e.lane[g % 2]
            && f.lane[(g + 1) % 2] == FrameImage(size, g + 1, encode(d.envelope)))
      && (Fits(size, encode(c.envelope)) && !c.notified ==>
            && f.lane[g % 2] == FrameImage(size, g, encode(c.envelope))
            && f.lane[(g + 1) % 2] == FrameImage(size, g + 1, encode(d.envelope)))
  {
    hide CleanLane, FrameImage, AfterHeader, PublishOnce;
    var start := e.(published := c.envelope);
    PublishKeepsClean(start, size, encode(c.envelope), c.notified);
    TwoCalls(e, size, encode, c, d);
    var first := AfterCall(e, size, encode, c).0;
    if !Fits(size, encode(c.envelope)) || !c.notified {
      OneFailed(e, size, encode, c);
      PublishKeepsClean(first.(published := d.envelope), size, encode(d.envelope), d.notified);
    }
  }

  lemma TwoCalls(e: End, size: nat, encode: Envelope -> seq<Byte>, c: Call, d: Call)
    requires Sized(e.lane, size)
    ensures AfterCalls(e, size, encode, [c, d]) == AfterCall(AfterCall(e, size, encode, c).0, size, encode, d).0
  {
    hide AfterCall, Sized;
    var first := AfterCall(e, size, encode, c).0;
    var second := AfterCall(first, size, encode, d).0;
    assert AfterCalls(second, size, encode, []) == second;
    assert [c, d][1..] == [d] && [d][1..] == [];
    assert AfterCalls(first, size, encode, [d]) == second;
  }

  lemma OneFailed(e: End, size: nat, encode: Envelope -> seq<Byte>, c: Call)
    requires Sized(e.lane, size) && c.Snapshot? && (!Fits(size, encode(c.envelope)) || !c.notified)
    ensures var f := AfterCall(e, size, encode, c).0;
      && f == PublishOnce(e.(published := c.envelope), size, encode(c.envelope), c.notified).0
      && f.published == c.envelope && f.nextGeneration == Successor(e.nextGeneration)
  {
  }

  /** From a fresh lane: a handoff or a browser request published twice, withdrawn in an
      envelope that is too large, and then a smaller envelope without it. The last call
      succeeds and nothing is left to withdraw, yet one slot still holds it. */
  lemma SecretSurvives(size: nat, encode: Envelope -> seq<Byte>, secret: Envelope, large: Envelope, small: Envelope)
    requires SlotSize(size) && (secret.sessionHandoff.Some? || secret.browserRequest.Some?)
    requires large.sessionHandoff.None? && large.browserRequest.None? && small.sessionHandoff.None? && small.browserRequest.None?
    requires Fits(size, encode(secret)) && !Fits(size, encode(large)) && Fits(size, encode(small))
    ensures var e := End([Zeros(size), Zeros(size)], Envelope(None, None, None, None), 1);
      var twice := AfterCalls(e, size, encode, [Snapshot(secret, true, true), Snapshot(secret, true, true)]);
      var f := AfterCalls(twice, size, encode, [Snapshot(large, true, true), Snapshot(small, true, true)]);
      && AfterCall(AfterCall(twice, size, encode, Snapshot(large, true, true)).0, size, encode, Snapshot(small, true, true)).1.Published?
      && f.published == small && f.lane[1] == FrameImage(size, 1, encode(secret))
  {
    hide CleanLane, FrameImage, AfterHeader, Header;
    var e := End([Zeros(size), Zeros(size)], Envelope(None, None, None, None), 1);
    var put := Snapshot(secret, true, true);
    ZerosClean(size);
    TwoCalls(e, size, encode, put, put);
    var one := AfterCall(e, size, encode, put).0;
    PublishKeepsClean(e.(published := secret), size, encode(secret), true);
    PublishKeepsClean(one.(published := secret), size, encode(secret), true);
    var twice := AfterCalls(e, size, encode, [put, put]);
    assert twice.lane[1] == FrameImage(size, 1, encode(secret));
    TwoCalls(twice, size, encode, Snapshot(large, true, true), Snapshot(small, true, true));
    AfterFailedScrub(twice, size, encode, Snapshot(large, true, true), Snapshot(small, true, true));
  }

  lemma ZerosClean(size: nat)
    requires SlotSize(size)
    ensures CleanLane([Zeros(size), Zeros(size)], size)
  {
  }

  class PlatformIpc {
    const memory: array<Byte>
    const role: Role
    /** Serialization of an envelope; any function of the envelope will do. */
    const encode: Envelope -> seq<Byte>
    var published: Envelope
    var nextGeneration: U64

    ghost predicate Valid() {
      memory.Length == REGION_SIZE
    }

    ghost function Lane(): (lane: Lane)
      requires Valid()
      reads memory
      ensures Sized(lane, LaneSlotSize(role))
    {
      LaneBytes(memory[..], role)
    }

    ghost function Here(): (e: End)
      requires Valid()
      reads this, memory
      ensures Sized(e.lane, LaneSlotSize(role))
    {
      End(Lane(), published, nextGeneration)
    }

    /** Everything outside this end's own lane. */
    ghost function Rest(): (seq<Byte>, SharedLane.Lane)
      requires Valid()
      reads memory
    {
      (memory[..REGION_HEADER_SIZE], LaneBytes(memory[..], if role.Ui? then Vpn else Ui))
    }

    constructor (memory: array<Byte>, role: Role, encode: Envelope -> seq<Byte>)
      requires memory.Length == REGION_SIZE
      ensures Valid() && this.memory == memory && this.role == role && this.encode == encode
      ensures published == Envelope(None, None, None, None) && nextGeneration == 1
    {
      this.memory, this.role, this.encode := memory, role, encode;
      published, nextGeneration := Envelope(None, None, None, None), 1;
    }

    method WriteMemory(offset: nat, data: seq<Byte>)
      requires offset + |data| <= memory.Length
      modifies memory
      ensures memory[..] == Splice(old(memory[..]), offset, data)
    {
      forall i | 0 <= i < |data| {
        memory[offset + i] := data[i];
      }
    }

    method ReadMemory(offset: nat, length: nat) returns (data: seq<Byte>)
      requires offset + length <= memory.Length
      ensures data == memory[..][offset..offset + length]
    {
      data := memory[offset..offset + length];
    }

    /** Resume after the newest completed frame of this end's own lane. */
    method SeedNextGeneration()
      requires Valid()
      modifies this`nextGeneration
      ensures var latest := LatestGeneration(Lane(), LaneSlotSize(role));
              nextGeneration == if latest.None? then 1
                                else if latest.value + 1 < 0x1_0000_0000_0000_0000 then latest.value + 1
                                else 0xffff_ffff_ffff_ffff
    {
      LayoutDisjoint();
      var size := LaneSlotSize(role);
      var latest: Option<nat> := None;
      hide ParseHeader, LaneBytes;
      for s := 0 to 2
        invariant s == 0 ==> latest == None
        invariant s == 1 ==> latest == if Header(Lane()[0]).Some? then Some(Header(Lane()[0]).value.generation) else None
        invariant s == 2 ==> latest == LatestGeneration(Lane(), size)
        modifies {}
      {
        var frame := ReadHeader(s);
        if frame.Some? && (latest.None? || latest.value < frame.value.generation) {
          latest := Some(frame.value.generation);
        }
      }
      var next := if latest.None? then 1 else latest.value + 1;
      nextGeneration := if next < 0x1_0000_0000_0000_0000 then next else 0xffff_ffff_ffff_ffff;
    }

    /** One `write_memory` within slot `t` of this end's lane. */
    method WriteSlot(t: nat, at: nat, data: seq<Byte>)
      requires Valid() && t < 2 && at + |data| <= LaneSlotSize(role)
      modifies memory
      ensures Lane() == WithSlot(old(Lane()), t, Splice(old(Lane())[t], at, data))
      ensures Rest() == old(Rest())
    {
      SpliceInLane(memory[..], role, t, at, data);
      WriteMemory(SlotOffset(role, t) + at, data);
    }

    method ReadHeader(t: nat) returns (header: Option<FrameHeader>)
      requires Valid() && t < 2
      ensures header == Header(Lane()[t])
    {
      LayoutDisjoint();
      var bytes := ReadMemory(SlotOffset(role, t), FRAME_HEADER_SIZE);
      assert bytes == Lane()[t][..FRAME_HEADER_SIZE];
      header := ParseHeader(bytes, LaneSlotSize(role));
    }

    /** `write_frame`. `moments` records the lane before the call and after each
        memory write. */
    method WriteFrame(generation: U64, content: seq<Byte>) returns (result: IpcResult, ghost moments: seq<SharedLane.Lane>)
      requires Valid()
      modifies memory
      ensures Rest() == old(Rest())
      ensures result.Published? <==> FRAME_HEADER_SIZE + |content| <= LaneSlotSize(role)
      ensures !result.Published? ==>
                && memory[..] == old(memory[..]) && moments == [Lane()]
                && result == FrameTooLarge(|content|, LaneSlotSize(role) - FRAME_HEADER_SIZE)
      ensures result.Published? ==>
                && SlotSize(LaneSlotSize(role))
                && var t := generation % 2;
                   && moments == PublishHistory(old(Lane()), LaneSlotSize(role), Frame(generation, content),
                                                |WriteStates(old(Lane())[t], generation, content)|)
                   && Lane() == WithSlot(old(Lane()), t, AfterHeader(old(Lane())[t], generation, content))
    {
      hide ParseHeader, EncodeHeader, Checksum, LaneBytes, Splice, Rest, SlotOffset;
      LayoutDisjoint();
      var size := LaneSlotSize(role);
      var maximum := size - FRAME_HEADER_SIZE;
      if |content| > maximum {
        return FrameTooLarge(|content|, maximum), [Lane()];
      }
      var t := generation % 2;
      ghost var before := Lane();
      var header := ReadHeader(t);
      var previousLength := if header.Some? then header.value.contentLength else 0;
      WriteSlot(t, FRAME_HEADER_SIZE, content);
      moments := [before, Lane()];
      if previousLength > |content| {
        WriteSlot(t, FRAME_HEADER_SIZE + |content|, Zeros(previousLength - |content|));
        moments := moments + [Lane()];
      }
      WriteSlot(t, 0, EncodeHeader(generation, content));
      moments := moments + [Lane()];
      ghost var states := WriteStates(before[t], generation, content);
      assert WithSlot(before, t, states[0]) == before;
      assert forall i | 0 <= i < |states| :: moments[i] == WithSlot(before, t, states[i]);
      result := Published;
    }

    /** `publish` */
    method Publish(envelope: Envelope, notified: bool) returns (result: IpcResult)
      requires Valid()
      modifies this`nextGeneration, memory
      ensures Valid() && Rest() == old(Rest())
      ensures (Here(), result) == PublishOnce(old(Here()), LaneSlotSize(role), encode(envelope), notified)
      ensures result.FrameTooLarge? ==> memory[..] == old(memory[..])
    {
      hide LaneBytes, ParseHeader, EncodeHeader, Checksum, Rest;
      var content := encode(envelope);
      var generation := nextGeneration;
      nextGeneration := Successor(nextGeneration);
      ghost var moments;
      result, moments := WriteFrame(generation, content);
      if result.Published? && !notified {
        result := NotifyFailed;
      }
    }

    /** `publish_snapshot`. The remembered envelope is replaced before the first
        publish; withdrawing a handoff or a browser request publishes twice so
        that neither slot keeps it. */
    method PublishSnapshot(envelope: Envelope, notified: bool, notifiedAgain: bool) returns (result: IpcResult)
      requires Valid()
      modifies this`published, this`nextGeneration, memory
      ensures Valid() && Rest() == old(Rest())
      ensures (Here(), result)
           == AfterCall(old(Here()), LaneSlotSize(role), encode, Snapshot(envelope, notified, notifiedAgain))
      ensures result.FrameTooLarge? ==> memory[..] == old(memory[..])
    {
      hide AfterHeader, LaneBytes, Rest;
      var scrub := Withdraws(published, envelope);
      published := envelope;
      result := Publish(envelope, notified);
      if scrub && result.Published? {
        result := Publish(envelope, notifiedAgain);
      }
    }

    /** `publish_state` */
    method PublishState(state: seq<char>, notified: bool) returns (result: IpcResult)
      requires Valid()
      modifies this`published, this`nextGeneration, memory
      ensures Valid() && Rest() == old(Rest())
      ensures (Here(), result) == AfterCall(old(Here()), LaneSlotSize(role), encode, StateOnly(state, notified))
    {
      hide AfterHeader, PublishOnce, LaneBytes, Rest;
      published := published.(state := Some(state));
      result := Publish(published, notified);
    }
  }
}
