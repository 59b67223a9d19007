/** The guards of an authentication session against a server that keeps sending
    forms: one group refresh, no replay of credentials, no endless empty forms. */
module AuthForms {
  import opened Lists
  import opened Strings
  import opened ReplyBinding

  // ---- what the server sends ----

  datatype Choice = Choice(name: string, caption: string)

  /** A form as the callback sees it. `acceptsGroup` and `acceptsValues` say whether
      the library takes the group selection and the option values. */
  datatype Form = Form(
    id: Option<string>, groups: seq<Choice>, groupSelection: int, activeInput: bool, fields: seq<Field>,
    acceptsGroup: bool, acceptsValues: bool)

  /** Value-free identity of a form. */
  datatype Fingerprint = Fingerprint(formId: Option<string>, options: seq<(nat, string)>)

  function FingerprintOf(form: Form): Fingerprint {
    Fingerprint(form.id, seq(|form.fields|, i requires 0 <= i < |form.fields| => (form.fields[i].key.optionIndex, form.fields[i].key.digest)))
  }

  /** The identity of a form ignores every value in it. */
  lemma {:induction false} FingerprintIgnoresValues(form: Form, i: nat, value: string)
    requires i < |form.fields|
    ensures FingerprintOf(form.(fields := form.fields[i := form.fields[i].(value := value)])) == FingerprintOf(form)
  {
    assert FingerprintOf(form.(fields := form.fields[i := form.fields[i].(value := value)])).options == FingerprintOf(form).options;
  }

  /** What the user does with a challenge, if there is a user. */
  datatype User = Nobody | Cancels | Answers(answers: seq<Answer>)

  datatype Result = Submit | NewGroup | Cancelled | Error

  // ---- the session state ----

  datatype FormState = FormState(
    authGroupSet: bool, consecutiveEmptyForms: nat, submitted: seq<Fingerprint>, hiddenFollowUp: Option<string>)

  function NewSession(): FormState {
    FormState(false, 0, [], None)
  }

  const EMPTY_FORMS_MAX: nat := 255

  // ---- the configured group ----

  /** The first choice from `i` on with the protocol value `name`. */
  function FindName(choices: seq<Choice>, name: string, i: nat): (at: Option<nat>)
    requires i <= |choices|
    ensures at.Some? ==> i <= at.value < |choices| && choices[at.value].name == name
                         && forall j | i <= j < at.value :: choices[j].name != name
    ensures at.None? ==> forall j | i <= j < |choices| :: choices[j].name != name
    decreases |choices| - i
  {
    if i == |choices| then None else if choices[i].name == name then Some(i) else FindName(choices, name, i + 1)
  }

  function FindCaption(choices: seq<Choice>, caption: string, i: nat): (at: Option<nat>)
    requires i <= |choices|
    ensures at.Some? ==> i <= at.value < |choices| && Trim(choices[at.value].caption) == caption
                         && forall j | i <= j < at.value :: Trim(choices[j].caption) != caption
    ensures at.None? ==> forall j | i <= j < |choices| :: Trim(choices[j].caption) != caption
    decreases |choices| - i
  {
    if i == |choices| then None else if Trim(choices[i].caption) == caption then Some(i) else FindCaption(choices, caption, i + 1)
  }

  /** A saved group is looked up by protocol value, and by label only when no choice
      has that value. */
  function ConfiguredGroup(configured: string, choices: seq<Choice>): Option<nat> {
    var group := Trim(configured);
    if group == "" then None
    else if FindName(choices, group, 0).Some? then FindName(choices, group, 0)
    else FindCaption(choices, group, 0)
  }

  // ---- one form ----

  datatype Handled = Handled(state: FormState, result: Result, automatic: bool)

  /** The group step decides the form when it has a result. */
  function GroupStep(s: FormState, creds: Credentials, form: Form): (FormState, Option<Result>) {
    if form.groups == [] || Trim(creds.group) == "" then (s, None)
    else
      var selection := ConfiguredGroup(creds.group, form.groups);
      if selection.None? || !form.acceptsGroup then (s, Some(Error))
      else if s.authGroupSet then (s, None)
      else (s.(authGroupSet := true), if form.groupSelection != selection.value then Some(NewGroup) else None)
  }

  function AcceptForm(s: FormState, activeInput: bool): (FormState, bool) {
    if activeInput then (s.(consecutiveEmptyForms := 0), true)
    else
      var count := if s.consecutiveEmptyForms < EMPTY_FORMS_MAX then s.consecutiveEmptyForms + 1 else EMPTY_FORMS_MAX;
      (s.(consecutiveEmptyForms := count), count < 3)
  }

  function FilledForm(form: Form, creds: Credentials): seq<Field> {
    seq(|form.fields|, i requires 0 <= i < |form.fields| => Filled(form.fields, RoleOf(form.id), creds, i))
  }

  predicate NeedsUser(form: Form) {
    exists i :: 0 <= i < |form.fields| && AskUser(form.fields[i], RoleOf(form.id))
  }

  /** The profile satisfies every visible option by itself. */
  predicate Automatic(form: Form, creds: Credentials) {
    CanAutofill(FilledForm(form, creds)) && !NeedsUser(form)
  }

  function Recorded(s: FormState, form: Form, automatic: bool): FormState {
    var followed :=
      if RoleOf(form.id).Primary? then s
      else s.(hiddenFollowUp := if form.activeInput then None else form.id);
    if automatic && FingerprintOf(form) !in s.submitted then followed.(submitted := s.submitted + [FingerprintOf(form)])
    else followed
  }

  /** After the guards: what the values are, and whether the library takes them. */
  function Answered(s: FormState, creds: Credentials, form: Form, user: User): Handled {
    var automatic := Automatic(form, creds);
    if automatic && FingerprintOf(form) in s.submitted then Handled(s, Error, automatic)
    else if !automatic && user.Nobody? then Handled(s, Cancelled, automatic)
    else if !automatic && !NeedsUser(form) then Handled(s, Error, automatic)
    else if !automatic && user.Cancels? then Handled(s, Cancelled, automatic)
    else if !automatic && Matched(AnswerKeys(user.answers), Keys(form.fields)) < |user.answers| then Handled(s, Error, automatic)
    else if !form.acceptsValues then Handled(s, Error, automatic)
    else Handled(Recorded(s, form, automatic), Submit, automatic)
  }

  function Handle(s: FormState, creds: Credentials, form: Form, user: User): Handled {
    var (grouped, decided) := GroupStep(s, creds, form);
    if decided.Some? then Handled(grouped, decided.value, false)
    else
      var (counted, accepted) := AcceptForm(grouped, form.activeInput);
      if !accepted then Handled(counted, Cancelled, false) else Answered(counted, creds, form, user)
  }

  // ---- the callback ----

  class AuthFormState {
    var state: FormState

    constructor ()
      ensures state == NewSession()
    {
      state := NewSession();
    }

    static method ConfiguredAuthGroupIndex(configured: string, choices: seq<Choice>) returns (index: Option<nat>)
      ensures index == ConfiguredGroup(configured, choices)
    {
      var group := Trim(configured);
      if group == "" {
        return None;
      }
      for i := 0 to |choices|
        invariant FindName(choices, group, 0) == FindName(choices, group, i)
      {
        if choices[i].name == group {
          return Some(i);
        }
      }
      for i := 0 to |choices|
        invariant FindCaption(choices, group, 0) == FindCaption(choices, group, i)
      {
        if Trim(choices[i].caption) == group {
          return Some(i);
        }
      }
      return None;
    }

    method ApplyConfiguredAuthGroup(creds: Credentials, form: Form) returns (decided: Option<Result>)
      modifies this
      ensures (state, decided) == GroupStep(old(state), creds, form)
    {
      if form.groups == [] {
        return None;
      }
      if Trim(creds.group) == "" {
        return None;
      }
      var selection := ConfiguredAuthGroupIndex(creds.group, form.groups);
      if selection.None? {
        return Some(Error);
      }
      var selectionChanged := form.groupSelection != selection.value;
      if !form.acceptsGroup {
        return Some(Error);
      }
      var refresh := TakeAuthGroupRefresh(selectionChanged);
      return if refresh then Some(NewGroup) else None;
    }

    method TakeAuthGroupRefresh(selectionChanged: bool) returns (refresh: bool)
      modifies this
      ensures state == old(state).(authGroupSet := true)
      ensures refresh <==> !old(state).authGroupSet && selectionChanged
    {
      if state.authGroupSet {
        return false;
      }
      state := state.(authGroupSet := true);
      return selectionChanged;
    }

    method AcceptOneForm(activeInput: bool) returns (accepted: bool)
      modifies this
      ensures (state, accepted) == AcceptForm(old(state), activeInput)
    {
      if activeInput {
        state := state.(consecutiveEmptyForms := 0);
        return true;
      }
      if state.consecutiveEmptyForms < EMPTY_FORMS_MAX {
        state := state.(consecutiveEmptyForms := state.consecutiveEmptyForms + 1);
      } else {
        state := state.(consecutiveEmptyForms := EMPTY_FORMS_MAX);
      }
      return state.consecutiveEmptyForms < 3;
    }

    method HandleAuthForm(creds: Credentials, form: Form, user: User) returns (result: Result, automatic: bool)
      modifies this
      ensures Handled(state, result, automatic) == Handle(old(state), creds, form, user)
    {
      hide GroupStep, AcceptForm, FindName, FindCaption, Subsequence, BoundValue, Trim, Matched;
      automatic := false;
      var decided := ApplyConfiguredAuthGroup(creds, form);
      if decided.Some? {
        return decided.value, false;
      }
      var accepted := AcceptOneForm(form.activeInput);
      if !accepted {
        return Cancelled, false;
      }
      var role := RoleOf(form.id);
      var fields, applied := ApplyCredentialsToFields(form.fields, creds, role);
      assert fields == FilledForm(form, creds);
      var asked := FieldsForUserInput(fields, applied);
      AskedIff(form, fields, applied);
      automatic := CanAutofill(fields) && asked == [];
      if automatic && FingerprintOf(form) in state.submitted {
        return Error, automatic;
      }
      var answers := [];
      if !automatic {
        if user.Nobody? {
          return Cancelled, automatic;
        }
        if asked == [] {
          return Error, automatic;
        }
        if user.Cancels? {
          return Cancelled, automatic;
        }
        answers := user.answers;
      }
      var values := BindReplyValuesByOption(fields, answers);
      SameKeys(form, creds);
      BindsIffSubsequence(AnswerKeys(answers), Keys(fields));
      MatchedBounds(AnswerKeys(answers), Keys(fields));
      if values.None? {
        return Error, automatic;
      }
      if !form.acceptsValues {
        return Error, automatic;
      }
      if role.Challenge? {
        state := state.(hiddenFollowUp := if form.activeInput then None else form.id);
      }
      if automatic && FingerprintOf(form) !in state.submitted {
        state := state.(submitted := state.submitted + [FingerprintOf(form)]);
      }
      return Submit, automatic;
    }
  }

  lemma MatchedBounds<K>(keys: seq<K>, scanned: seq<K>)
    ensures Matched(keys, scanned) <= |keys|
  {
  }

  /** The user is asked exactly when some option is user-owned. */
  lemma AskedIff(form: Form, fields: seq<Field>, applied: Application)
    requires |fields| == |form.fields|
    requires applied.userOwned == set i: nat | i < |form.fields| && AskUser(form.fields[i], RoleOf(form.id))
    ensures UserFields(fields, applied.userOwned) == [] <==> !NeedsUser(form)
  {
    NothingAsked(fields, applied.userOwned);
    if NeedsUser(form) {
      var i :| 0 <= i < |form.fields| && AskUser(form.fields[i], RoleOf(form.id));
      assert i in applied.userOwned;
    }
  }

  lemma {:induction false} NothingAsked(fields: seq<Field>, owned: set<nat>)
    ensures UserFields(fields, owned) == [] <==> forall i: nat | i < |fields| :: i !in owned
  {
    if fields != [] {
      NothingAsked(fields[..|fields| - 1], owned);
    }
  }

  lemma SameKeys(form: Form, creds: Credentials)
    ensures Keys(FilledForm(form, creds)) == Keys(form.fields)
  {
    forall i | 0 <= i < |form.fields| ensures FilledForm(form, creds)[i].key == form.fields[i].key {
      CredentialsStayPrimary(form.fields, RoleOf(form.id), creds, i, i);
    }
  }

  // ---- a whole session against any server and any user ----

  datatype Event = Event(form: Form, user: User)

  /** `states[k]` is the session before event `k`. */
  ghost predicate Session(creds: Credentials, events: seq<Event>, states: seq<FormState>, out: seq<Handled>) {
    && |states| == |events| + 1 && |out| == |events| && states[0] == NewSession()
    && forall k | 0 <= k < |events| ::
         out[k] == Handle(states[k], creds, events[k].form, events[k].user) && states[k + 1] == out[k].state
  }

  predicate AutoSubmits(h: Handled) {
    h.result.Submit? && h.automatic
  }

  /** What one form may add to the session. */
  lemma {:induction false} HandleFacts(s: FormState, creds: Credentials, form: Form, user: User)
    ensures var h := Handle(s, creds, form, user);
      && h.state.submitted == (if AutoSubmits(h) then s.submitted + [FingerprintOf(form)] else s.submitted)
      && (AutoSubmits(h) ==> FingerprintOf(form) !in s.submitted)
      && (s.authGroupSet ==> h.state.authGroupSet)
      && (h.result.NewGroup? ==> !s.authGroupSet && h.state.authGroupSet)
      && (user.Nobody? && h.result.Submit? ==> h.automatic)
  {
    hide FindName, FindCaption, Trim, Automatic, NeedsUser, Matched;
  }

  lemma {:induction false} SubmittedGrows(creds: Credentials, events: seq<Event>, states: seq<FormState>, out: seq<Handled>,
                                          i: nat, n: nat)
    requires Session(creds, events, states, out) && i < n <= |events| && AutoSubmits(out[i])
    ensures FingerprintOf(events[i].form) in states[n].submitted
  {
    hide Handle;
    HandleFacts(states[n - 1], creds, events[n - 1].form, events[n - 1].user);
    if i + 1 < n {
      SubmittedGrows(creds, events, states, out, i, n - 1);
    }
  }

  /** Credentials are never replayed: no form identity is submitted automatically
      twice, whatever the server sends in between and whatever values it echoes. */
  lemma NeverReplayed(creds: Credentials, events: seq<Event>, states: seq<FormState>, out: seq<Handled>, i: nat, j: nat)
    requires Session(creds, events, states, out) && i < j < |events| && AutoSubmits(out[i]) && AutoSubmits(out[j])
    ensures FingerprintOf(events[i].form) != FingerprintOf(events[j].form)
  {
    hide Handle;
    SubmittedGrows(creds, events, states, out, i, j);
    HandleFacts(states[j], creds, events[j].form, events[j].user);
  }

  lemma {:induction false} GroupStaysSet(creds: Credentials, events: seq<Event>, states: seq<FormState>, out: seq<Handled>,
                                         i: nat, n: nat)
    requires Session(creds, events, states, out) && i <= n <= |events| && states[i].authGroupSet
    ensures states[n].authGroupSet
  {
    hide Handle;
    if i < n {
      GroupStaysSet(creds, events, states, out, i, n - 1);
      HandleFacts(states[n - 1], creds, events[n - 1].form, events[n - 1].user);
    }
  }

  /** A session asks for a refreshed group at most once. */
  lemma OneRefresh(creds: Credentials, events: seq<Event>, states: seq<FormState>, out: seq<Handled>, i: nat, j: nat)
    requires Session(creds, events, states, out) && i < j < |events| && out[i].result.NewGroup?
    ensures !out[j].result.NewGroup?
  {
    hide Handle;
    HandleFacts(states[i], creds, events[i].form, events[i].user);
    GroupStaysSet(creds, events, states, out, i + 1, j);
    HandleFacts(states[j], creds, events[j].form, events[j].user);
  }

  /** Whether the group step leaves the form to the guards. */
  predicate ReachesGuard(s: FormState, creds: Credentials, form: Form) {
    GroupStep(s, creds, form).1.None?
  }

  predicate Accepted(s: FormState, creds: Credentials, form: Form) {
    ReachesGuard(s, creds, form) && AcceptForm(GroupStep(s, creds, form).0, form.activeInput).1
  }

  /** How many forms without input came last, among those that reached the guard. */
  function EmptyStreak(creds: Credentials, events: seq<Event>, states: seq<FormState>, n: nat): nat
    requires n <= |events| <= |states|
  {
    if n == 0 then 0
    else if !ReachesGuard(states[n - 1], creds, events[n - 1].form) then EmptyStreak(creds, events, states, n - 1)
    else if events[n - 1].form.activeInput then 0
    else EmptyStreak(creds, events, states, n - 1) + 1
  }

  lemma {:induction false} CounterIsStreak(creds: Credentials, events: seq<Event>, states: seq<FormState>, out: seq<Handled>, n: nat)
    requires Session(creds, events, states, out) && n <= |events|
    ensures var streak := EmptyStreak(creds, events, states, n);
            states[n].consecutiveEmptyForms == if streak < EMPTY_FORMS_MAX then streak else EMPTY_FORMS_MAX
  {
    hide FindName, FindCaption, Trim, Automatic, NeedsUser, Matched, FingerprintOf;
    if n > 0 {
      CounterIsStreak(creds, events, states, out, n - 1);
    }
  }

  /** Form `k` reached the guard and had no input. */
  predicate EmptyAt(creds: Credentials, events: seq<Event>, states: seq<FormState>, k: nat)
    requires k < |events| <= |states|
  {
    ReachesGuard(states[k], creds, events[k].form) && !events[k].form.activeInput
  }

  /** No form with input reached the guard from `i` on, before `n`. */
  predicate NoInputBetween(creds: Credentials, events: seq<Event>, states: seq<FormState>, i: nat, n: nat)
    requires n <= |events| <= |states|
  {
    forall k | i <= k < n && ReachesGuard(states[k], creds, events[k].form) :: !events[k].form.activeInput
  }

  /** Form `n` and the two that reached the guard before it all had no input. */
  ghost predicate ThirdEmpty(creds: Credentials, events: seq<Event>, states: seq<FormState>, n: nat)
    requires n < |events| <= |states|
  {
    && EmptyAt(creds, events, states, n)
    && exists i, j :: 0 <= i < j < n && EmptyAt(creds, events, states, i) && EmptyAt(creds, events, states, j)
                      && NoInputBetween(creds, events, states, i, n)
  }

  /** A streak of one or two shows where it began. */
  lemma {:induction false} StreakShows(creds: Credentials, events: seq<Event>, states: seq<FormState>, n: nat)
    requires n <= |events| <= |states|
    ensures EmptyStreak(creds, events, states, n) >= 1 ==>
              exists j :: 0 <= j < n && EmptyAt(creds, events, states, j) && NoInputBetween(creds, events, states, j, n)
    ensures EmptyStreak(creds, events, states, n) >= 2 ==>
              exists i, j :: 0 <= i < j < n && EmptyAt(creds, events, states, i) && EmptyAt(creds, events, states, j)
                             && NoInputBetween(creds, events, states, i, n)
  {
    hide ReachesGuard;
    if n > 0 && EmptyStreak(creds, events, states, n) >= 1 {
      StreakShows(creds, events, states, n - 1);
      if EmptyAt(creds, events, states, n - 1) {
        assert NoInputBetween(creds, events, states, n - 1, n);
        if EmptyStreak(creds, events, states, n) >= 2 {
          var i :| 0 <= i < n - 1 && EmptyAt(creds, events, states, i) && NoInputBetween(creds, events, states, i, n - 1);
          assert NoInputBetween(creds, events, states, i, n);
        }
      } else {
        var j :| 0 <= j < n - 1 && EmptyAt(creds, events, states, j) && NoInputBetween(creds, events, states, j, n - 1);
        assert NoInputBetween(creds, events, states, j, n);
        if EmptyStreak(creds, events, states, n) >= 2 {
          var i, l :| 0 <= i < l < n - 1 && EmptyAt(creds, events, states, i) && EmptyAt(creds, events, states, l)
                      && NoInputBetween(creds, events, states, i, n - 1);
          assert NoInputBetween(creds, events, states, i, n);
        }
      }
    }
  }

  /** And empty forms without input between them add up. */
  lemma {:induction false} StreakCounts(creds: Credentials, events: seq<Event>, states: seq<FormState>, i: nat, n: nat)
    requires i < n <= |events| <= |states|
    requires EmptyAt(creds, events, states, i) && NoInputBetween(creds, events, states, i, n)
    ensures EmptyStreak(creds, events, states, n) >= 1
    ensures (exists j :: i < j < n && EmptyAt(creds, events, states, j)) ==> EmptyStreak(creds, events, states, n) >= 2
  {
    hide ReachesGuard;
    if i < n - 1 {
      StreakCounts(creds, events, states, i, n - 1);
    }
  }

  /** The guard is exact: a form that reaches it is refused exactly when it and the
      two forms that reached it before all had no input, and only accepted forms are
      submitted. */
  lemma EmptyFormsEnd(creds: Credentials, events: seq<Event>, states: seq<FormState>, out: seq<Handled>, n: nat)
    requires Session(creds, events, states, out) && n < |events|
    ensures ReachesGuard(states[n], creds, events[n].form) ==>
              (Accepted(states[n], creds, events[n].form) <==> !ThirdEmpty(creds, events, states, n))
    ensures out[n].result.Submit? ==> Accepted(states[n], creds, events[n].form)
  {
    hide FindName, FindCaption, Trim, Automatic, NeedsUser, Matched, FingerprintOf, NoInputBetween, EmptyStreak, GroupStep;
    GuardRefuses(creds, events, states, out, n);
    StreakShows(creds, events, states, n);
    if ThirdEmpty(creds, events, states, n) {
      var i, j :| 0 <= i < j < n && EmptyAt(creds, events, states, i) && EmptyAt(creds, events, states, j)
                  && NoInputBetween(creds, events, states, i, n);
      StreakCounts(creds, events, states, i, n);
    }
  }

  lemma GuardRefuses(creds: Credentials, events: seq<Event>, states: seq<FormState>, out: seq<Handled>, n: nat)
    requires Session(creds, events, states, out) && n < |events|
    ensures ReachesGuard(states[n], creds, events[n].form) ==>
              (Accepted(states[n], creds, events[n].form)
               <==> events[n].form.activeInput || EmptyStreak(creds, events, states, n) < 2)
    ensures out[n].result.Submit? ==> Accepted(states[n], creds, events[n].form)
  {
    hide FindName, FindCaption, Trim, Automatic, NeedsUser, Matched, FingerprintOf;
    CounterIsStreak(creds, events, states, out, n);
  }

  // ---- how long a server can keep a session without a user busy ----

  function Presented(events: seq<Event>, n: nat): (ids: set<Fingerprint>)
    requires n <= |events|
    ensures forall k | 0 <= k < n :: FingerprintOf(events[k].form) in ids
  {
    if n == 0 then {} else Presented(events, n - 1) + {FingerprintOf(events[n - 1].form)}
  }

  /** Forms answered with Submit or NewGroup, among the first `n`. */
  function Rounds(out: seq<Handled>, n: nat): nat
    requires n <= |out|
  {
    if n == 0 then 0 else Rounds(out, n - 1) + if out[n - 1].result.Submit? || out[n - 1].result.NewGroup? then 1 else 0
  }

  lemma {:induction false} RoundsCounted(creds: Credentials, events: seq<Event>, states: seq<FormState>, out: seq<Handled>, n: nat)
    requires Session(creds, events, states, out) && n <= |events|
    requires forall k | 0 <= k < n :: events[k].user.Nobody?
    ensures Rounds(out, n) <= |states[n].submitted| + if states[n].authGroupSet then 1 else 0
    ensures Distinct(states[n].submitted)
    ensures forall f | f in states[n].submitted :: f in Presented(events, n)
  {
    hide Handle, FingerprintOf;
    if n > 0 {
      RoundsCounted(creds, events, states, out, n - 1);
      HandleFacts(states[n - 1], creds, events[n - 1].form, events[n - 1].user);
    }
  }

  lemma {:induction false} DistinctWithin<T>(s: seq<T>, u: set<T>)
    requires Distinct(s) && forall x | x in s :: x in u
    ensures |s| <= |u|
  {
    if s != [] {
      var last := s[|s| - 1];
      DistinctWithin(s[..|s| - 1], u - {last});
    }
  }

  /** Without a user, the number of answered forms is bounded by the number of
      different forms the server presents, plus the one group refresh. */
  lemma {:induction false} SessionIsBounded(creds: Credentials, events: seq<Event>, states: seq<FormState>, out: seq<Handled>)
    requires Session(creds, events, states, out)
    requires forall k | 0 <= k < |events| :: events[k].user.Nobody?
    ensures Rounds(out, |events|) <= |Presented(events, |events|)| + 1
  {
    hide Handle;
    RoundsCounted(creds, events, states, out, |events|);
    DistinctWithin(states[|events|].submitted, Presented(events, |events|));
  }
}
