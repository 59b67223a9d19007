/** What the slots of a lane can hold over whole runs of publishing calls: nothing that
    was withdrawn, as long as every call that withdraws something gets through. */
module ScrubRuns {
  import opened Lists
  import opened FrameCodec
  import opened SharedLane
  import opened PlatformIpc

  // ---- one call ----

  /** A browser request was remembered and the new envelope has none, or a handoff was
      remembered and the new envelope has none: a call that fits and is notified once
      leaves the new envelope and zeros in both slots, whatever it carries besides. */
  lemma WithdrawalClearsBothSlots(e: End, size: nat, encode: Envelope -> seq<Byte>, envelope: Envelope, notifiedAgain: bool)
    requires Sized(e.lane, size) && CleanLane(e.lane, size) && Fits(size, encode(envelope))
    requires || (e.published.browserRequest.Some? && envelope.browserRequest.None?)
             || (e.published.sessionHandoff.Some? && envelope.sessionHandoff.None?)
    ensures var f := AfterCall(e, size, encode, Snapshot(envelope, true, notifiedAgain)).0;
      var g := e.nextGeneration;
      && f.published == envelope
      && f.lane[g % 2] == FrameImage(size, g, encode(envelope))
      && f.lane[(g + 1) % 2] == FrameImage(size, Successor(g), encode(envelope))
      && f.nextGeneration == Successor(Successor(g))
  {
    hide CleanLane, FrameImage, AfterHeader, Header;
    SnapshotFacts(e, size, encode, Snapshot(envelope, true, notifiedAgain));
  }

  /** A call that withdraws nothing writes one slot and draws one generation. */
  lemma OtherwiseOneSlot(e: End, size: nat, encode: Envelope -> seq<Byte>, envelope: Envelope, notified: bool, notifiedAgain: bool)
    requires Sized(e.lane, size) && CleanLane(e.lane, size) && Fits(size, encode(envelope))
    requires e.published.browserRequest.Some? ==> envelope.browserRequest.Some?
    requires e.published.sessionHandoff.Some? ==> envelope.sessionHandoff.Some?
    ensures var (f, result) := AfterCall(e, size, encode, Snapshot(envelope, notified, notifiedAgain));
      var g := e.nextGeneration;
      && f.published == envelope && f.nextGeneration == Successor(g)
      && f.lane[g % 2] == FrameImage(size, g, encode(envelope)) && f.lane[(g + 1) % 2] == e.lane[(g + 1) % 2]
      && result == (if notified then Published else NotifyFailed)
  {
    hide CleanLane, FrameImage, AfterHeader, Header;
    SnapshotFacts(e, size, encode, Snapshot(envelope, notified, notifiedAgain));
  }

  /** A state-only publish carries the remembered handoff and request along with the new
      state, in one slot, or changes nothing in the lane when it does not fit. */
  lemma StateKeepsTheRest(e: End, size: nat, encode: Envelope -> seq<Byte>, state: seq<char>, notified: bool)
    requires Sized(e.lane, size) && CleanLane(e.lane, size)
    ensures var f := AfterCall(e, size, encode, StateOnly(state, notified)).0;
      var envelope := Envelope(Some(state), e.published.sessionHandoff, e.published.browserRequest, e.published.browserRequestAck);
      var g := e.nextGeneration;
      && f.published == envelope && f.nextGeneration == Successor(g)
      && f.lane[(g + 1) % 2] == e.lane[(g + 1) % 2]
      && (Fits(size, encode(envelope)) ==> f.lane[g % 2] == FrameImage(size, g, encode(envelope)))
      && (!Fits(size, encode(envelope)) ==> f.lane == e.lane)
  {
    hide CleanLane, FrameImage, AfterHeader, Header;
    var envelope := e.published.(state := Some(state));
    PublishKeepsClean(e.(published := envelope), size, encode(envelope), notified);
  }

  // ---- runs ----

  /** The slot is blank, or the image of an envelope that carries a handoff or a browser
      request only if the remembered envelope does. */
  ghost predicate Discreet(slot: Slot, size: nat, encode: Envelope -> seq<Byte>, remembered: Envelope)
    requires SlotSize(size)
  {
    || slot == Zeros(size)
    || exists g: U64, envelope ::
         && Fits(size, encode(envelope)) && slot == FrameImage(size, g, encode(envelope))
         && (remembered.sessionHandoff.None? ==> envelope.sessionHandoff.None?)
         && (remembered.browserRequest.None? ==> envelope.browserRequest.None?)
  }

  ghost predicate DiscreetEnd(e: End, size: nat, encode: Envelope -> seq<Byte>) {
    && Sized(e.lane, size) && CleanLane(e.lane, size)
    && Discreet(e.lane[0], size, encode, e.published) && Discreet(e.lane[1], size, encode, e.published)
  }

  /** The call gets through if it withdraws a handoff or a browser request: the envelope
      fits and its first notification arrives. */
  predicate GetsThrough(e: End, size: nat, encode: Envelope -> seq<Byte>, c: Call) {
    c.Snapshot? && (|| (e.published.sessionHandoff.Some? && c.envelope.sessionHandoff.None?)
                    || (e.published.browserRequest.Some? && c.envelope.browserRequest.None?))
    ==> Fits(size, encode(c.envelope)) && c.notified
  }

  predicate AllGetThrough(e: End, size: nat, encode: Envelope -> seq<Byte>, calls: seq<Call>)
    requires Sized(e.lane, size)
    decreases |calls|
  {
    calls != [] ==>
      && GetsThrough(e, size, encode, calls[0])
      && AllGetThrough(AfterCall(e, size, encode, calls[0]).0, size, encode, calls[1..])
  }

  lemma DiscreetStays(slot: Slot, size: nat, encode: Envelope -> seq<Byte>, before: Envelope, after: Envelope)
    requires SlotSize(size) && Discreet(slot, size, encode, before)
    requires before.sessionHandoff.Some? ==> after.sessionHandoff.Some?
    requires before.browserRequest.Some? ==> after.browserRequest.Some?
    ensures Discreet(slot, size, encode, after)
  {
    hide FrameImage;
    if slot != Zeros(size) {
      var g: U64, envelope :|
        && Fits(size, encode(envelope)) && slot == FrameImage(size, g, encode(envelope))
        && (before.sessionHandoff.None? ==> envelope.sessionHandoff.None?)
        && (before.browserRequest.None? ==> envelope.browserRequest.None?);
      assert Fits(size, encode(envelope)) && slot == FrameImage(size, g, encode(envelope));
    }
  }

  lemma ImageIsDiscreet(size: nat, encode: Envelope -> seq<Byte>, g: U64, envelope: Envelope)
    requires SlotSize(size) && Fits(size, encode(envelope))
    ensures Discreet(FrameImage(size, g, encode(envelope)), size, encode, envelope)
  {
    hide FrameImage;
    assert Fits(size, encode(envelope));
  }

  lemma CallStaysDiscreet(e: End, size: nat, encode: Envelope -> seq<Byte>, c: Call)
    requires DiscreetEnd(e, size, encode) && GetsThrough(e, size, encode, c)
    ensures DiscreetEnd(AfterCall(e, size, encode, c).0, size, encode)
  {
    hide CleanLane, FrameImage, AfterHeader, Header, Discreet;
    CallKeepsClean(e, size, encode, c);
    var f := AfterCall(e, size, encode, c).0;
    var g := e.nextGeneration;
    if c.Snapshot? {
      SnapshotFacts(e, size, encode, c);
    } else {
      StateKeepsTheRest(e, size, encode, c.state, c.notified);
    }
    if Fits(size, encode(f.published)) {
      ImageIsDiscreet(size, encode, g, f.published);
      ImageIsDiscreet(size, encode, Successor(g), f.published);
    }
    if Within(e.published, f.published) {
      DiscreetStays(e.lane[0], size, encode, e.published, f.published);
      DiscreetStays(e.lane[1], size, encode, e.published, f.published);
    }
    assert g % 2 == 0 || g % 2 == 1;
  }

  /** Over any run in which every withdrawing call gets through, no slot holds a handoff
      or a browser request that the remembered envelope does not carry; the other calls
      may be too large or lose their notifications. */
  lemma {:induction false} WithdrawnIsGone(e: End, size: nat, encode: Envelope -> seq<Byte>, calls: seq<Call>)
    requires DiscreetEnd(e, size, encode) && AllGetThrough(e, size, encode, calls)
    ensures DiscreetEnd(AfterCalls(e, size, encode, calls), size, encode)
    decreases |calls|
  {
    hide AfterCall, CleanLane, Discreet, GetsThrough;
    if calls != [] {
      CallStaysDiscreet(e, size, encode, calls[0]);
      WithdrawnIsGone(AfterCall(e, size, encode, calls[0]).0, size, encode, calls[1..]);
    }
  }

  /** A fresh end has nothing to hide. */
  lemma FreshIsDiscreet(size: nat, encode: Envelope -> seq<Byte>)
    requires SlotSize(size)
    ensures DiscreetEnd(End([Zeros(size), Zeros(size)], Envelope(None, None, None, None), 1), size, encode)
  {
    ZerosClean(size);
  }
}
