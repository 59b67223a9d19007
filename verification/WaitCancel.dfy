/** The cancellable wait on the notification socket, as the atomic steps of one
    waiter (the holder of the subscription lock), any number of cancellers, and
    publishers that wake the waiter when they accept a peer. */
module WaitCancel {

  /** Where the lock holder stands; `Free` when nobody waits. */
  datatype Waiter =
    | Free
    | Entered(cancellable: bool)      // holds the lock, has not looked at the flag
    | AnswerCancelled                 // took the flag on entry, drains, then returns
    | Connecting(cancellable: bool)   // top of the loop: accept or connect
    | Polling(cancellable: bool)      // in poll; parked while nothing is ready
    | Draining(cancellable: bool)     // poll reported the cancel socket
    | Drained(cancellable: bool)      // about to look at the flag

  /** `raised` and `answered` count flags raised by a cancel call and waits that
      returned because of one; `calls` counts cancel calls. */
  datatype State = State(
    pending: bool, wakeBytes: nat, sending: nat, waiter: Waiter,
    calls: nat, raised: nat, answered: nat)

  predicate Init(s: State) {
    s == State(false, 0, 0, Free, 0, 0, 0)
  }

  datatype Step =
    | Enter(cancellable: bool)
    | LookOnEntry
    | Connect(accepted: bool)
    | WakeForCancel
    | WakeForOther(ends: bool)
    | Receive(bytes: nat)
    | SocketEmpty
    | LookAfterDrain
    | Raise
    | Send(full: bool)
    | PublisherAccepts(full: bool)

  /** A full socket drops the byte, but then it is not empty. */
  predicate ByteSent(before: nat, full: bool, after: nat) {
    if full then before > 0 && after == before else after == before + 1
  }

  predicate Next(s: State, step: Step, t: State) {
    match step
    case Enter(c) => s.waiter.Free? && t == s.(waiter := Entered(c))
    case LookOnEntry =>
      && s.waiter.Entered?
      && t == if s.waiter.cancellable && s.pending
              then s.(pending := false, waiter := AnswerCancelled)
              else s.(waiter := Connecting(s.waiter.cancellable))
    case Connect(accepted) =>
      && s.waiter.Connecting?
      && t == s.(waiter := Polling(s.waiter.cancellable), wakeBytes := s.wakeBytes + if accepted then 1 else 0)
    case WakeForCancel =>
      s.waiter.Polling? && s.wakeBytes > 0 && t == s.(waiter := Draining(s.waiter.cancellable))
    case WakeForOther(ends) =>
      // A frame, a peer, an error, or (not cancellable) the timeout.
      && s.waiter.Polling?
      && t == s.(waiter := if ends then Free else Connecting(s.waiter.cancellable))
    case Receive(bytes) =>
      && (s.waiter.Draining? || s.waiter.AnswerCancelled?)
      && 0 < bytes <= s.wakeBytes && bytes <= 64
      && t == s.(wakeBytes := s.wakeBytes - bytes)
    case SocketEmpty =>
      && s.wakeBytes == 0
      && (s.waiter.Draining? || s.waiter.AnswerCancelled?)
      && t == if s.waiter.Draining? then s.(waiter := Drained(s.waiter.cancellable))
              else s.(waiter := Free, answered := s.answered + 1)
    case LookAfterDrain =>
      && s.waiter.Drained?
      && t == if s.waiter.cancellable && s.pending
              then s.(pending := false, waiter := Free, answered := s.answered + 1)
              else s.(waiter := Connecting(s.waiter.cancellable))
    case Raise =>
      t == if s.pending then s.(calls := s.calls + 1)
           else s.(calls := s.calls + 1, pending := true, raised := s.raised + 1, sending := s.sending + 1)
    case Send(full) =>
      && s.sending > 0
      && ByteSent(s.wakeBytes, full, t.wakeBytes)
      && t == s.(sending := s.sending - 1, wakeBytes := t.wakeBytes)
    case PublisherAccepts(full) =>
      ByteSent(s.wakeBytes, full, t.wakeBytes) && t == s.(wakeBytes := t.wakeBytes)
  }

  /** Runs of any length, under any interleaving. */
  ghost predicate Run(states: seq<State>, steps: seq<Step>) {
    && |states| == |steps| + 1
    && Init(states[0])
    && forall i | 0 <= i < |steps| :: Next(states[i], steps[i], states[i + 1])
  }

  /** A cancellable wait in poll, a raised flag, and nothing under way to tell it. */
  predicate Lost(s: State) {
    && s.waiter.Polling? && s.waiter.cancellable
    && s.pending && s.wakeBytes == 0 && s.sending == 0
  }

  predicate Invariant(s: State) {
    && ((s.waiter.Polling? || s.waiter.Connecting?) && s.waiter.cancellable && s.pending ==> s.wakeBytes > 0 || s.sending > 0)
    && s.raised == s.answered + (if s.pending then 1 else 0) + (if s.waiter.AnswerCancelled? then 1 else 0)
    && s.raised <= s.calls
  }

  lemma {:induction false} InvariantHolds(states: seq<State>, steps: seq<Step>, n: nat)
    requires Run(states, steps) && n < |states|
    ensures Invariant(states[n])
  {
    if n > 0 {
      InvariantHolds(states, steps, n - 1);
      assert Next(states[n - 1], steps[n - 1], states[n]);
    }
  }

  /** No run loses a cancellation; no wait is answered as cancelled without a
      cancel call of its own, however many stale wake bytes there are; and a
      flag that was raised is still raised or was answered exactly once. */
  lemma NoLostCancellation(states: seq<State>, steps: seq<Step>, n: nat)
    requires Run(states, steps) && n < |states|
    ensures !Lost(states[n])
    ensures states[n].answered <= states[n].raised <= states[n].calls
    ensures states[n].waiter.Free? && !states[n].pending ==> states[n].answered == states[n].raised
  {
    InvariantHolds(states, steps, n);
  }

  // ---- a raised flag is answered ----

  /** Steps the waiting thread takes by itself to consume a wake-up. */
  predicate WaiterStep(step: Step) {
    || step.LookOnEntry? || step == Connect(false) || step.WakeForCancel? || step.Receive? || step.SocketEmpty?
    || step.LookAfterDrain?
  }

  ghost predicate WaiterRun(s: State, steps: seq<Step>, t: State)
    decreases |steps|
  {
    if steps == [] then s == t
    else WaiterStep(steps[0]) && exists m :: Next(s, steps[0], m) && WaiterRun(m, steps[1..], t)
  }

  lemma {:induction false} DrainAll(s: State) returns (steps: seq<Step>, t: State)
    requires s.waiter.Draining? && s.waiter.cancellable && s.pending
    ensures WaiterRun(s, steps, t)
    ensures t == s.(wakeBytes := 0, pending := false, waiter := Free, answered := s.answered + 1)
    decreases s.wakeBytes
  {
    if s.wakeBytes > 0 {
      var bytes := if s.wakeBytes < 64 then s.wakeBytes else 64;
      var m := s.(wakeBytes := s.wakeBytes - bytes);
      var rest;
      rest, t := DrainAll(m);
      steps := [Receive(bytes)] + rest;
      assert steps[1..] == rest && Next(s, Receive(bytes), m);
    } else {
      var m := s.(waiter := Drained(true));
      t := m.(pending := false, waiter := Free, answered := s.answered + 1);
      assert Next(s, SocketEmpty, m) && Next(m, LookAfterDrain, t);
      steps := [SocketEmpty, LookAfterDrain];
      assert steps[1..] == [LookAfterDrain] && steps[1..][1..] == [];
      assert WaiterRun(t, [], t);
      assert WaiterRun(m, [LookAfterDrain], t);
    }
  }

  /** A wait that took the flag on entry empties the socket before it answers. */
  lemma {:induction false} DrainOnEntry(s: State) returns (steps: seq<Step>, t: State)
    requires s.waiter.AnswerCancelled?
    ensures WaiterRun(s, steps, t)
    ensures t == s.(wakeBytes := 0, waiter := Free, answered := s.answered + 1)
    decreases s.wakeBytes
  {
    if s.wakeBytes > 0 {
      var bytes := if s.wakeBytes < 64 then s.wakeBytes else 64;
      var m := s.(wakeBytes := s.wakeBytes - bytes);
      var rest;
      rest, t := DrainOnEntry(m);
      steps := [Receive(bytes)] + rest;
      assert steps[1..] == rest && Next(s, Receive(bytes), m);
    } else {
      t := s.(waiter := Free, answered := s.answered + 1);
      steps := [SocketEmpty];
      assert steps[1..] == [] && WaiterRun(t, [], t) && Next(s, SocketEmpty, t);
    }
  }

  lemma Before(s: State, step: Step, m: State, rest: seq<Step>, t: State)
    requires WaiterStep(step) && Next(s, step, m) && WaiterRun(m, rest, t)
    ensures WaiterRun(s, [step] + rest, t)
  {
    assert ([step] + rest)[1..] == rest;
  }

  /** In any reachable state where a cancellable wait is under way, wherever it stands,
      with the flag raised and no send outstanding, the waiter alone can finish: it
      answers as cancelled, once, and leaves no flag and no wake byte behind. */
  lemma CancellationDelivered(states: seq<State>, trace: seq<Step>, n: nat) returns (steps: seq<Step>, t: State)
    requires Run(states, trace) && n < |states|
    requires states[n].waiter in {Entered(true), Connecting(true), Polling(true), Draining(true), Drained(true)}
    requires states[n].pending && states[n].sending == 0
    ensures WaiterRun(states[n], steps, t)
    ensures t.waiter.Free? && !t.pending && t.answered == states[n].answered + 1
    ensures states[n].waiter != Drained(true) ==> t.wakeBytes == 0
  {
    hide Run, WaiterRun;
    var s := states[n];
    InvariantHolds(states, trace, n);
    var rest;
    match s.waiter {
      case Entered(_) =>
        var m := s.(pending := false, waiter := AnswerCancelled);
        rest, t := DrainOnEntry(m);
        Before(s, LookOnEntry, m, rest, t);
        steps := [LookOnEntry] + rest;
      case Connecting(_) =>
        var m := s.(waiter := Polling(true));
        rest, t := AnswerFromPoll(m);
        Before(s, Connect(false), m, rest, t);
        steps := [Connect(false)] + rest;
      case Polling(_) => steps, t := AnswerFromPoll(s);
      case Draining(_) => steps, t := DrainAll(s);
      case Drained(_) =>
        t := s.(pending := false, waiter := Free, answered := s.answered + 1);
        EmptyRun(t);
        Before(s, LookAfterDrain, t, [], t);
        steps := [LookAfterDrain] + [];
    }
  }

  lemma EmptyRun(t: State)
    ensures WaiterRun(t, [], t)
  {
  }

  lemma AnswerFromPoll(s: State) returns (steps: seq<Step>, t: State)
    requires s.waiter == Polling(true) && s.pending && s.wakeBytes > 0
    ensures WaiterRun(s, steps, t)
    ensures t == s.(wakeBytes := 0, pending := false, waiter := Free, answered := s.answered + 1)
  {
    hide WaiterRun;
    var m := s.(waiter := Draining(true));
    var rest;
    rest, t := DrainAll(m);
    Before(s, WakeForCancel, m, rest, t);
    steps := [WakeForCancel] + rest;
  }
}
