/** One lane of the shared region: a writer that alternates between two slots and
    commits the payload before the header, and a reader in another process whose
    memory accesses fall anywhere between the writer's. */
module SharedLane {
  import opened Lists
  import opened FrameCodec

  type Slot = seq<Byte>
  type Lane = seq<Slot>

  datatype Frame = Frame(generation: nat, content: seq<Byte>)

  predicate SlotSize(size: nat) {
    FRAME_HEADER_SIZE <= size < 0x1_0000_0000
  }

  predicate Sized(lane: Lane, size: nat) {
    SlotSize(size) && |lane| == 2 && |lane[0]| == size && |lane[1]| == size
  }

  // ---- the writer ----

  /** One `write_memory`. */
  function Splice(bytes: seq<Byte>, offset: nat, data: seq<Byte>): (r: seq<Byte>)
    requires offset + |data| <= |bytes|
    ensures |r| == |bytes|
  {
    bytes[..offset] + data + bytes[offset + |data|..]
  }

  function Header(slot: Slot): Option<FrameHeader>
    requires SlotSize(|slot|)
  {
    ParseHeader(slot[..FRAME_HEADER_SIZE], |slot|)
  }

  function PreviousLength(slot: Slot): (length: nat)
    requires SlotSize(|slot|)
    ensures FRAME_HEADER_SIZE + length <= |slot|
  {
    if Header(slot).Some? then Header(slot).value.contentLength else 0
  }

  function AfterPayload(slot: Slot, content: seq<Byte>): (r: Slot)
    requires FRAME_HEADER_SIZE + |content| <= |slot|
    ensures |r| == |slot|
  {
    Splice(slot, FRAME_HEADER_SIZE, content)
  }

  function AfterZeroing(slot: Slot, content: seq<Byte>): (r: Slot)
    requires SlotSize(|slot|) && FRAME_HEADER_SIZE + |content| <= |slot|
    ensures |r| == |slot|
  {
    if PreviousLength(slot) > |content|
    then Splice(AfterPayload(slot, content), FRAME_HEADER_SIZE + |content|, Zeros(PreviousLength(slot) - |content|))
    else AfterPayload(slot, content)
  }

  function AfterHeader(slot: Slot, generation: U64, content: seq<Byte>): (r: Slot)
    requires SlotSize(|slot|) && FRAME_HEADER_SIZE + |content| <= |slot|
    ensures |r| == |slot|
  {
    Splice(AfterZeroing(slot, content), 0, EncodeHeader(generation, content))
  }

  /** The slot before the publish and after each of its memory writes. */
  function WriteStates(slot: Slot, generation: U64, content: seq<Byte>): (states: seq<Slot>)
    requires SlotSize(|slot|) && FRAME_HEADER_SIZE + |content| <= |slot|
  {
    [slot, AfterPayload(slot, content)]
    + (if PreviousLength(slot) > |content| then [AfterZeroing(slot, content)] else [])
    + [AfterHeader(slot, generation, content)]
  }

  // ---- what a lane holds ----

  ghost predicate Holds(slot: Slot, f: Frame)
    requires SlotSize(|slot|)
  {
    && Header(slot) == Some(FrameHeader(f.generation, |f.content|, Checksum(f.content)))
    && FRAME_HEADER_SIZE + |f.content| <= |slot|
    && slot[FRAME_HEADER_SIZE..FRAME_HEADER_SIZE + |f.content|] == f.content
  }

  ghost predicate OlderHeader(slot: Slot, generation: nat)
    requires SlotSize(|slot|)
  {
    Header(slot).Some? ==> Header(slot).value.generation < generation
  }

  /** `last` is the newest completed frame of the lane; none before the first. */
  ghost predicate Carries(lane: Lane, size: nat, last: Option<Frame>)
    requires Sized(lane, size)
  {
    match last
    case None => Header(lane[0]).None? && Header(lane[1]).None?
    case Some(f) =>
      var t := f.generation % 2;
      Holds(lane[t], f) && OlderHeader(lane[1 - t], f.generation)
  }

  // ---- the reader ----

  ghost predicate SizedHistory(history: seq<Lane>, size: nat) {
    SlotSize(size) && forall i | 0 <= i < |history| :: Sized(history[i], size)
  }

  /** The moments, as indices into the history of the lane, at which one attempt
      reads the header, the payload, and the header again. */
  datatype Attempt = Attempt(first: nat, payload: nat, second: nat) {
    ghost predicate Within(moments: nat) {
      first <= payload <= second < moments
    }
  }

  /** An attempt takes its three accesses in order; the writer may act before,
      between, and after any of them. */
  ghost predicate ValidAttempts(attempts: seq<Attempt>, moments: nat) {
    forall k | 0 <= k < |attempts| :: attempts[k].Within(moments)
  }

  function TryRead(history: seq<Lane>, size: nat, s: nat, a: Attempt): Option<Frame>
    requires SizedHistory(history, size) && a.Within(|history|) && s < 2
  {
    var first := history[a.first][s][..FRAME_HEADER_SIZE];
    var header := ParseHeader(first, size);
    if header.None? then None
    else
      var content := history[a.payload][s][FRAME_HEADER_SIZE..FRAME_HEADER_SIZE + header.value.contentLength];
      var second := history[a.second][s][..FRAME_HEADER_SIZE];
      if first == second && Checksum(content) == header.value.contentChecksum
      then Some(Frame(header.value.generation, content))
      else None
  }

  /** The first attempt that yields a frame. */
  function ReadFrame(history: seq<Lane>, size: nat, s: nat, attempts: seq<Attempt>): Option<Frame>
    requires SizedHistory(history, size) && ValidAttempts(attempts, |history|) && s < 2
  {
    if attempts == [] then None
    else if TryRead(history, size, s, attempts[0]).Some? then TryRead(history, size, s, attempts[0])
    else ReadFrame(history, size, s, attempts[1..])
  }

  function Newer(a: Option<Frame>, b: Option<Frame>): Option<Frame> {
    if b.Some? && (a.None? || b.value.generation > a.value.generation) then b else a
  }

  const READ_ATTEMPTS := 3

  /** When a `read_lane` makes the attempts on each of its two slots. */
  datatype Schedule = Schedule(slot0: seq<Attempt>, slot1: seq<Attempt>) {
    ghost predicate Valid(moments: nat) {
      && |slot0| == |slot1| == READ_ATTEMPTS
      && ValidAttempts(slot0, moments) && ValidAttempts(slot1, moments)
    }

    function For(s: nat): seq<Attempt> {
      if s == 0 then slot0 else slot1
    }
  }

  /** `read_lane`: both slots in order, the larger generation wins. */
  function ReadLane(history: seq<Lane>, size: nat, schedule: Schedule): Option<Frame>
    requires SizedHistory(history, size) && schedule.Valid(|history|)
  {
    Newer(ReadFrame(history, size, 0, schedule.slot0), ReadFrame(history, size, 1, schedule.slot1))
  }

  /** `read_frame` as a bounded retry loop with early return. */
  method ReadFrameLoop(history: seq<Lane>, size: nat, s: nat, attempts: seq<Attempt>) returns (frame: Option<Frame>)
    requires SizedHistory(history, size) && ValidAttempts(attempts, |history|) && s < 2
    ensures frame == ReadFrame(history, size, s, attempts)
  {
    for k := 0 to |attempts|
      invariant ReadFrame(history, size, s, attempts) == ReadFrame(history, size, s, attempts[k..])
    {
      var first := history[attempts[k].first][s][..FRAME_HEADER_SIZE];
      var header := ParseHeader(first, size);
      if header.None? {
        continue;
      }
      var content := history[attempts[k].payload][s][FRAME_HEADER_SIZE..FRAME_HEADER_SIZE + header.value.contentLength];
      var second := history[attempts[k].second][s][..FRAME_HEADER_SIZE];
      if first == second && Checksum(content) == header.value.contentChecksum {
        return Some(Frame(header.value.generation, content));
      }
    }
    return None;
  }

  /** `read_lane` as a loop over the slots that keeps the larger generation. */
  method ReadLaneLoop(history: seq<Lane>, size: nat, schedule: Schedule) returns (latest: Option<Frame>)
    requires SizedHistory(history, size) && schedule.Valid(|history|)
    ensures latest == ReadLane(history, size, schedule)
  {
    latest := None;
    for s := 0 to 2
      invariant s == 0 ==> latest == None
      invariant s == 1 ==> latest == ReadFrame(history, size, 0, schedule.slot0)
      invariant s == 2 ==> latest == ReadLane(history, size, schedule)
    {
      var frame := ReadFrameLoop(history, size, s, schedule.For(s));
      if frame.Some? && (latest.None? || frame.value.generation > latest.value.generation) {
        latest := frame;
      }
    }
  }

  /** What `read_frame` returns is what one of its attempts saw. */
  lemma {:induction false} ReadFrameAttempt(history: seq<Lane>, size: nat, s: nat, attempts: seq<Attempt>)
    requires SizedHistory(history, size) && ValidAttempts(attempts, |history|) && s < 2
    ensures var r := ReadFrame(history, size, s, attempts);
      && (r.Some? ==> exists k | 0 <= k < |attempts| :: TryRead(history, size, s, attempts[k]) == r)
      && (r.None? ==> forall k | 0 <= k < |attempts| :: TryRead(history, size, s, attempts[k]) == None)
  {
    if attempts != [] && TryRead(history, size, s, attempts[0]).None? {
      var rest := attempts[1..];
      assert forall k | 0 < k < |attempts| :: attempts[k] == rest[k - 1];
      ReadFrameAttempt(history, size, s, rest);
      if ReadFrame(history, size, s, rest).Some? {
        var k :| 0 <= k < |rest| && TryRead(history, size, s, rest[k]) == ReadFrame(history, size, s, rest);
        assert TryRead(history, size, s, attempts[k + 1]) == ReadFrame(history, size, s, rest);
      }
    }
  }

  // ---- one publish, seen from outside ----

  /** A history in which at most one publish happens: slot `t` keeps its old
      header until moment `done`, from which on it holds the new frame; the other
      slot never changes. An abandoned publish is one with `done == |history|`. */
  ghost predicate OnePublish(history: seq<Lane>, size: nat, f: Frame, done: nat) {
    && SizedHistory(history, size) && 0 < |history| && done <= |history|
    && var t := f.generation % 2;
       && (forall i | 0 <= i < |history| :: history[i][1 - t] == history[0][1 - t])
       && (forall i | 0 <= i < done :: history[i][t][..FRAME_HEADER_SIZE] == history[0][t][..FRAME_HEADER_SIZE])
       && (forall i | done <= i < |history| :: Holds(history[i][t], f))
  }

  lemma AfterHeaderHolds(slot: Slot, generation: U64, content: seq<Byte>)
    requires SlotSize(|slot|) && FRAME_HEADER_SIZE + |content| <= |slot|
    ensures Holds(AfterHeader(slot, generation, content), Frame(generation, content))
  {
    hide ParseHeader, EncodeHeader, Checksum;
    var done := AfterHeader(slot, generation, content);
    assert done[..FRAME_HEADER_SIZE] == EncodeHeader(generation, content);
    HeaderRoundTrip(generation, content, |slot|);
    assert done[FRAME_HEADER_SIZE..] == AfterZeroing(slot, content)[FRAME_HEADER_SIZE..];
    assert AfterZeroing(slot, content)[FRAME_HEADER_SIZE..FRAME_HEADER_SIZE + |content|] == content;
    assert done[FRAME_HEADER_SIZE..FRAME_HEADER_SIZE + |content|] == done[FRAME_HEADER_SIZE..][..|content|];
    assert AfterZeroing(slot, content)[FRAME_HEADER_SIZE..FRAME_HEADER_SIZE + |content|]
        == AfterZeroing(slot, content)[FRAME_HEADER_SIZE..][..|content|];
  }

  lemma OldHeaderUntilCommit(slot: Slot, content: seq<Byte>)
    requires SlotSize(|slot|) && FRAME_HEADER_SIZE + |content| <= |slot|
    ensures AfterPayload(slot, content)[..FRAME_HEADER_SIZE] == slot[..FRAME_HEADER_SIZE]
    ensures AfterZeroing(slot, content)[..FRAME_HEADER_SIZE] == slot[..FRAME_HEADER_SIZE]
  {
  }

  function WithSlot(lane: Lane, t: nat, slot: Slot): Lane
    requires |lane| == 2 && t < 2
  {
    lane[t := slot]
  }

  /** Every moment of `write_frame`, cut off after any of its memory writes. */
  function PublishHistory(lane: Lane, size: nat, f: Frame, cut: nat): (history: seq<Lane>)
    requires Sized(lane, size) && FRAME_HEADER_SIZE + |f.content| <= size
    requires f.generation < 0x1_0000_0000_0000_0000
    requires 0 < cut <= |WriteStates(lane[f.generation % 2], f.generation, f.content)|
    ensures |history| == cut
  {
    var t := f.generation % 2;
    var states := WriteStates(lane[t], f.generation, f.content);
    seq(cut, i requires 0 <= i < cut => WithSlot(lane, t, states[i]))
  }

  /** `write_frame`, cut off after any of its memory writes, is such a history. */
  lemma WriterIsOnePublish(lane: Lane, size: nat, f: Frame, cut: nat)
    requires Sized(lane, size) && FRAME_HEADER_SIZE + |f.content| <= size
    requires f.generation < 0x1_0000_0000_0000_0000
    requires 0 < cut <= |WriteStates(lane[f.generation % 2], f.generation, f.content)|
    ensures OnePublish(PublishHistory(lane, size, f, cut), size, f, CommitMoment(lane, f, cut))
    ensures PublishHistory(lane, size, f, cut)[0] == lane
  {
    hide ParseHeader, EncodeHeader, Checksum, AfterPayload, AfterZeroing, AfterHeader, Holds;
    var t := f.generation % 2;
    var slot := lane[t];
    var states := WriteStates(slot, f.generation, f.content);
    OldHeaderUntilCommit(slot, f.content);
    AfterHeaderHolds(slot, f.generation, f.content);
    forall i | 0 <= i < |states| - 1 ensures states[i][..FRAME_HEADER_SIZE] == slot[..FRAME_HEADER_SIZE] {
    }
  }

  function CommitMoment(lane: Lane, f: Frame, cut: nat): nat
    requires |lane| == 2 && SlotSize(|lane[f.generation % 2]|) && FRAME_HEADER_SIZE + |f.content| <= |lane[f.generation % 2]|
    requires f.generation < 0x1_0000_0000_0000_0000 && cut > 0
  {
    if cut == |WriteStates(lane[f.generation % 2], f.generation, f.content)| then cut - 1 else cut
  }

  // ---- atomicity ----

  lemma TrySteady(history: seq<Lane>, size: nat, s: nat, a: Attempt, f: Frame)
    requires SizedHistory(history, size) && a.Within(|history|) && s < 2
    requires history[a.first][s] == history[a.payload][s] == history[a.second][s]
    requires Holds(history[a.first][s], f)
    ensures TryRead(history, size, s, a) == Some(f)
  {
    hide ParseHeader, Checksum;
  }

  /** The slot being written yields the new frame exactly, or what its old
      header announced, or nothing. */
  lemma TryWritten(history: seq<Lane>, size: nat, a: Attempt, f: Frame, done: nat)
    requires OnePublish(history, size, f, done) && a.Within(|history|)
    ensures var r := TryRead(history, size, f.generation % 2, a);
            r.Some? ==>
              || r == Some(f)
              || (Header(history[0][f.generation % 2]).Some? && r.value.generation == Header(history[0][f.generation % 2]).value.generation)
    ensures a.first < done && Header(history[0][f.generation % 2]).None? ==> TryRead(history, size, f.generation % 2, a).None?
  {
    hide ParseHeader, Checksum;
    var t := f.generation % 2;
    if a.first < done {
      assert history[a.first][t][..FRAME_HEADER_SIZE] == history[0][t][..FRAME_HEADER_SIZE];
    } else {
      assert Holds(history[a.first][t], f) && Holds(history[a.payload][t], f) && Holds(history[a.second][t], f);
    }
  }

  /** The slot that is not written, when it holds the newest frame. */
  lemma ReadSteadySlot(history: seq<Lane>, size: nat, f: Frame, done: nat, attempts: seq<Attempt>, newest: Frame)
    requires OnePublish(history, size, f, done) && ValidAttempts(attempts, |history|) && attempts != []
    requires Holds(history[0][1 - f.generation % 2], newest)
    ensures ReadFrame(history, size, 1 - f.generation % 2, attempts) == Some(newest)
  {
    var s := 1 - f.generation % 2;
    var a := attempts[0];
    assert history[a.first][s] == history[0][s] && history[a.payload][s] == history[0][s] && history[a.second][s] == history[0][s];
    TrySteady(history, size, s, a, newest);
  }

  lemma ReadWrittenSlot(history: seq<Lane>, size: nat, f: Frame, done: nat, attempts: seq<Attempt>)
    requires OnePublish(history, size, f, done) && ValidAttempts(attempts, |history|)
    ensures var r := ReadFrame(history, size, f.generation % 2, attempts);
            r.Some? ==>
              || (r == Some(f) && done < |history|)
              || (Header(history[0][f.generation % 2]).Some? && r.value.generation == Header(history[0][f.generation % 2]).value.generation)
  {
    var t := f.generation % 2;
    ReadFrameAttempt(history, size, t, attempts);
    if ReadFrame(history, size, t, attempts).Some? {
      var k :| 0 <= k < |attempts| && TryRead(history, size, t, attempts[k]) == ReadFrame(history, size, t, attempts);
      TryWritten(history, size, attempts[k], f, done);
      if done == |history| {
        TryOldHeader(history, size, f, done, attempts[k]);
      }
    }
  }

  /** Before the commit, the slot can only answer with its old generation. */
  lemma TryOldHeader(history: seq<Lane>, size: nat, f: Frame, done: nat, a: Attempt)
    requires OnePublish(history, size, f, done) && a.Within(|history|) && a.first < done
    ensures var r := TryRead(history, size, f.generation % 2, a);
            r.Some? ==> Header(history[0][f.generation % 2]).Some? && r.value.generation == Header(history[0][f.generation % 2]).value.generation
  {
    hide ParseHeader, Checksum;
    var t := f.generation % 2;
    assert history[a.first][t][..FRAME_HEADER_SIZE] == history[0][t][..FRAME_HEADER_SIZE];
  }

  /** The slot that is not written, when nothing in it parses. */
  lemma ReadEmptySlot(history: seq<Lane>, size: nat, f: Frame, done: nat, attempts: seq<Attempt>)
    requires OnePublish(history, size, f, done) && ValidAttempts(attempts, |history|)
    requires Header(history[0][1 - f.generation % 2]).None?
    ensures ReadFrame(history, size, 1 - f.generation % 2, attempts) == None
  {
    hide ParseHeader, Checksum;
    var s := 1 - f.generation % 2;
    ReadFrameAttempt(history, size, s, attempts);
    forall k | 0 <= k < |attempts| ensures TryRead(history, size, s, attempts[k]) == None {
      assert history[attempts[k].first][s] == history[0][s];
    }
  }

  /** The next publish does not target the slot of the newest completed frame. */
  predicate SparesNewest(last: Option<Frame>, generation: nat) {
    last.Some? ==> last.value.generation < generation && last.value.generation % 2 != generation % 2
  }

  /** A read that overlaps at most one publish, finished or abandoned anywhere,
      returns exactly the last completed frame or the new one; if the publish was
      abandoned, the last completed one. Nothing is assumed about checksum
      collisions. */
  lemma ReadIsAtomic(history: seq<Lane>, size: nat, schedule: Schedule, last: Option<Frame>, f: Frame, done: nat)
    requires OnePublish(history, size, f, done) && schedule.Valid(|history|)
    requires Carries(history[0], size, last) && SparesNewest(last, f.generation)
    ensures ReadLane(history, size, schedule) == last || (ReadLane(history, size, schedule) == Some(f) && done < |history|)
  {
    hide ParseHeader, Checksum, ReadFrame, Holds;
    var t := f.generation % 2;
    ReadWrittenSlot(history, size, f, done, schedule.For(t));
    if last.Some? {
      assert last.value.generation % 2 == 1 - t;
      ReadSteadySlot(history, size, f, done, schedule.For(1 - t), last.value);
    } else {
      ReadEmptySlot(history, size, f, done, schedule.For(1 - t));
    }
  }

  /** A finished publish makes its frame the newest; an abandoned one that spared
      the newest slot leaves the lane as it was. */
  lemma PublishOutcome(lane: Lane, size: nat, last: Option<Frame>, f: Frame, state: nat)
    requires Sized(lane, size) && Carries(lane, size, last)
    requires FRAME_HEADER_SIZE + |f.content| <= size && f.generation < 0x1_0000_0000_0000_0000
    requires last.Some? ==> last.value.generation < f.generation
    requires state < |WriteStates(lane[f.generation % 2], f.generation, f.content)|
    ensures var t := f.generation % 2;
            var states := WriteStates(lane[t], f.generation, f.content);
            && Sized(WithSlot(lane, t, states[state]), size)
            && (state == |states| - 1 ==> Carries(WithSlot(lane, t, states[state]), size, Some(f)))
            && (state < |states| - 1 && SparesNewest(last, f.generation) ==> Carries(WithSlot(lane, t, states[state]), size, last))
  {
    hide ParseHeader, EncodeHeader, Checksum, AfterPayload, AfterZeroing, AfterHeader;
    var t := f.generation % 2;
    OldHeaderUntilCommit(lane[t], f.content);
    AfterHeaderHolds(lane[t], f.generation, f.content);
  }

  /** `latest_generation`: the larger generation of the two headers that parse. */
  function LatestGeneration(lane: Lane, size: nat): Option<nat>
    requires Sized(lane, size)
  {
    var a, b := Header(lane[0]), Header(lane[1]);
    if a.None? && b.None? then None
    else if b.None? then Some(a.value.generation)
    else if a.None? || a.value.generation < b.value.generation then Some(b.value.generation)
    else Some(a.value.generation)
  }

  /** `seed_next_generation`: re-attaching to a lane resumes after its newest
      completed frame, so the next publish spares it. */
  lemma {:induction false} SeedSparesNewest(lane: Lane, size: nat, last: Option<Frame>)
    requires Sized(lane, size) && Carries(lane, size, last)
    ensures LatestGeneration(lane, size) == if last.Some? then Some(last.value.generation) else None
    ensures SparesNewest(last, (if last.Some? then last.value.generation else 0) + 1)
  {
    hide ParseHeader, Checksum;
  }

  // ---- when a publish does target the newest slot ----

  /** Every reader that overlaps the publish with this generation, for any
      content and cut off anywhere, sees the newest frame or the new one. */
  ghost predicate AlwaysAtomic(lane: Lane, size: nat, last: Option<Frame>, generation: U64)
    requires Sized(lane, size)
  {
    forall f: Frame, cut: nat, schedule: Schedule |
      f.generation == generation && PossibleCut(lane, size, f, cut) && schedule.Valid(cut) ::
      ReadDuring(lane, size, f, cut, schedule) == last || ReadDuring(lane, size, f, cut, schedule) == Some(f)
  }

  ghost predicate PossibleCut(lane: Lane, size: nat, f: Frame, cut: nat)
    requires Sized(lane, size)
  {
    && f.generation < 0x1_0000_0000_0000_0000
    && FRAME_HEADER_SIZE + |f.content| <= size
    && 0 < cut <= |WriteStates(lane[f.generation % 2], f.generation, f.content)|
  }

  ghost function ReadDuring(lane: Lane, size: nat, f: Frame, cut: nat, schedule: Schedule): Option<Frame>
    requires Sized(lane, size) && PossibleCut(lane, size, f, cut) && schedule.Valid(cut)
  {
    WriterIsOnePublish(lane, size, f, cut);
    ReadLane(PublishHistory(lane, size, f, cut), size, schedule)
  }

  /** Exactly when a publish is safe for overlapping readers: when its generation
      selects the slot that does not hold the newest completed frame. */
  lemma AtomicIffSparesNewest(lane: Lane, size: nat, last: Frame, generation: U64)
    requires Sized(lane, size) && Carries(lane, size, Some(last))
    requires last.content != [] && last.generation < generation
    ensures AlwaysAtomic(lane, size, Some(last), generation) <==> SparesNewest(Some(last), generation)
  {
    hide ParseHeader, Checksum, ReadFrame, WriteStates, Holds, ReadLane;
    if SparesNewest(Some(last), generation) {
      forall f: Frame, cut: nat, schedule: Schedule |
        f.generation == generation && PossibleCut(lane, size, f, cut) && schedule.Valid(cut)
        ensures ReadDuring(lane, size, f, cut, schedule) == Some(last) || ReadDuring(lane, size, f, cut, schedule) == Some(f)
      {
        WriterIsOnePublish(lane, size, f, cut);
        ReadIsAtomic(PublishHistory(lane, size, f, cut), size, schedule, Some(last), f, CommitMoment(lane, f, cut));
      }
    } else {
      TornRead(lane, size, last, generation);
    }
  }

  /** A publish that is refused before it writes still consumes its generation. While
      the lane carries its newest frame, after `burned` such publishes the next one is
      atomic for overlapping readers exactly when `burned` is even. */
  lemma BurnedGenerations(lane: Lane, size: nat, last: Frame, burned: nat)
    requires Sized(lane, size) && Carries(lane, size, Some(last)) && last.content != []
    requires last.generation + 1 + burned < 0x1_0000_0000_0000_0000
    ensures AlwaysAtomic(lane, size, Some(last), last.generation + 1 + burned) <==> burned % 2 == 0
  {
    hide Carries, AlwaysAtomic;
    AtomicIffSparesNewest(lane, size, last, last.generation + 1 + burned);
  }

  /** The moment after the payload write, when the newest slot is the target:
      the checksum exposes the torn slot, the other one is older. */
  lemma TornTries(lane: Lane, size: nat, last: Frame, f: Frame)
    requires Sized(lane, size) && Carries(lane, size, Some(last)) && PossibleCut(lane, size, f, 2)
    requires last.generation % 2 == f.generation % 2
    requires |f.content| == |last.content| && Checksum(f.content) != Checksum(last.content)
    ensures var history, between := PublishHistory(lane, size, f, 2), Attempt(1, 1, 1);
      && TryRead(history, size, f.generation % 2, between) == None
      && var r := TryRead(history, size, 1 - f.generation % 2, between);
         r.Some? ==> r.value.generation < last.generation
  {
    hide ParseHeader, EncodeHeader, Checksum;
    var t := f.generation % 2;
    var history := PublishHistory(lane, size, f, 2);
    OldHeaderUntilCommit(lane[t], f.content);
    assert history[1][t] == AfterPayload(lane[t], f.content);
    assert history[1][t][FRAME_HEADER_SIZE..FRAME_HEADER_SIZE + |f.content|] == f.content;
    assert history[1][1 - t] == lane[1 - t];
  }

  /** With the newest slot as target, a reader between the payload write and the
      header write sees neither frame. */
  lemma TornRead(lane: Lane, size: nat, last: Frame, generation: U64)
    requires Sized(lane, size) && Carries(lane, size, Some(last)) && last.content != []
    requires last.generation < generation && last.generation % 2 == generation % 2
    ensures !AlwaysAtomic(lane, size, Some(last), generation)
  {
    hide ParseHeader, EncodeHeader, Checksum, TryRead, ReadFrame, PublishHistory, WriteStates;
    var byte: Byte := if last.content[0] == 0 then 1 else 0;
    var f := Frame(generation, last.content[0 := byte]);
    OneByteDiffers(last.content, 0, byte);
    TwoStates(lane, size, f);
    var between := Attempt(1, 1, 1);
    var schedule := Schedule([between, between, between], [between, between, between]);
    TornTries(lane, size, last, f);
    var history := PublishHistory(lane, size, f, 2);
    ReadFrameAttempt(history, size, 0, schedule.slot0);
    ReadFrameAttempt(history, size, 1, schedule.slot1);
    var r := ReadDuring(lane, size, f, 2, schedule);
    assert r.Some? ==> r.value.generation < last.generation;
  }

  lemma TwoStates(lane: Lane, size: nat, f: Frame)
    requires Sized(lane, size) && FRAME_HEADER_SIZE + |f.content| <= size
    requires f.generation < 0x1_0000_0000_0000_0000
    ensures PossibleCut(lane, size, f, 2)
    ensures SizedHistory(PublishHistory(lane, size, f, 2), size)
  {
    WriterIsOnePublish(lane, size, f, 2);
  }

  lemma OneByteDiffers(content: seq<Byte>, k: nat, byte: Byte)
    requires k < |content| && byte != content[k]
    ensures Checksum(content[k := byte]) != Checksum(content)
  {
    OneByteChangesChecksum(CHECKSUM_SEED, content, k, byte);
  }

  /** A one-byte change in the payload of a resting frame is never delivered. */
  lemma PayloadTamper(history: seq<Lane>, size: nat, s: nat, a: Attempt, f: Frame, k: nat, byte: Byte)
    requires SizedHistory(history, size) && a.Within(|history|) && s < 2
    requires Header(history[a.first][s]) == Some(FrameHeader(f.generation, |f.content|, Checksum(f.content)))
    requires FRAME_HEADER_SIZE + |f.content| <= size && k < |f.content| && byte != f.content[k]
    requires history[a.payload][s][FRAME_HEADER_SIZE..FRAME_HEADER_SIZE + |f.content|] == f.content[k := byte]
    ensures TryRead(history, size, s, a) == None
  {
    hide ParseHeader, Checksum;
    OneByteDiffers(f.content, k, byte);
  }
}
