/** Which server forms are answered without the user, what the profile puts into them,
    and what one form leaves behind, stated on the fields of the form. */
module FormOutcomes {
  import opened Lists
  import opened Strings
  import opened ReplyBinding
  import opened AuthForms

  // ---- identity of a form ----

  /** Two forms are the same to the replay guard exactly when their names, and the
      positions and digests of their options, agree. */
  lemma FingerprintDistinguishes(a: Form, b: Form)
    ensures FingerprintOf(a) == FingerprintOf(b)
       <==> && a.id == b.id && |a.fields| == |b.fields|
            && forall i | 0 <= i < |a.fields| ::
                 && a.fields[i].key.optionIndex == b.fields[i].key.optionIndex
                 && a.fields[i].key.digest == b.fields[i].key.digest
  {
    var x, y := FingerprintOf(a).options, FingerprintOf(b).options;
    assert forall i | 0 <= i < |a.fields| :: x[i] == (a.fields[i].key.optionIndex, a.fields[i].key.digest);
    assert forall i | 0 <= i < |b.fields| :: y[i] == (b.fields[i].key.optionIndex, b.fields[i].key.digest);
    if FingerprintOf(a) == FingerprintOf(b) {
      assert |x| == |y|;
      forall i | 0 <= i < |a.fields|
        ensures a.fields[i].key.optionIndex == b.fields[i].key.optionIndex && a.fields[i].key.digest == b.fields[i].key.digest
      {
        assert x[i] == y[i];
      }
    } else if a.id == b.id && |a.fields| == |b.fields| {
      assert x != y;
      var i :| 0 <= i < |x| && x[i] != y[i];
    }
  }

  // ---- the configured group ----

  predicate Named(choices: seq<Choice>, group: string) {
    exists k :: 0 <= k < |choices| && choices[k].name == group
  }

  /** The saved group selects the first choice with that protocol value, and if there is
      none the first one with that label; a blank group selects nothing. */
  lemma GroupSelected(configured: string, choices: seq<Choice>, at: nat)
    ensures ConfiguredGroup(configured, choices) == Some(at)
       <==> && Trim(configured) != "" && at < |choices|
            && (|| (&& choices[at].name == Trim(configured)
                    && forall k | 0 <= k < at :: choices[k].name != Trim(configured))
                || (&& !Named(choices, Trim(configured)) && Trim(choices[at].caption) == Trim(configured)
                    && forall k | 0 <= k < at :: Trim(choices[k].caption) != Trim(configured)))
  {
    hide Trim;
    var byName := FindName(choices, Trim(configured), 0);
    var byCaption := FindCaption(choices, Trim(configured), 0);
    if byName.Some? {
      assert choices[byName.value].name == Trim(configured);
    }
    if at < |choices| {
      assert byCaption == Some(at) <==>
             Trim(choices[at].caption) == Trim(configured) && forall k | 0 <= k < at :: Trim(choices[k].caption) != Trim(configured);
    }
  }

  lemma NoGroupSelected(configured: string, choices: seq<Choice>)
    ensures ConfiguredGroup(configured, choices) == None
       <==> || Trim(configured) == ""
            || (!Named(choices, Trim(configured)) && forall k | 0 <= k < |choices| :: Trim(choices[k].caption) != Trim(configured))
  {
    hide Trim;
    var byName := FindName(choices, Trim(configured), 0);
    var byCaption := FindCaption(choices, Trim(configured), 0);
    if byName.Some? {
      assert choices[byName.value].name == Trim(configured);
    }
    if byCaption.Some? {
      assert Trim(choices[byCaption.value].caption) == Trim(configured);
    }
  }

  /** With a saved group and a form that offers groups, the group step fails exactly when
      the group is unknown or the library refuses it, asks for the refreshed form exactly
      on the first selection that differs from the server's, and otherwise lets the form
      pass; nothing but the mark of the selection changes. */
  lemma GroupDecides(s: FormState, creds: Credentials, form: Form)
    ensures var (t, decided) := GroupStep(s, creds, form);
      var applies := form.groups != [] && Trim(creds.group) != "";
      var selection := ConfiguredGroup(creds.group, form.groups);
      && (decided == Some(Error) <==> applies && (selection == None || !form.acceptsGroup))
      && (decided == Some(NewGroup) <==> && applies && selection != None && form.acceptsGroup
                                         && !s.authGroupSet && form.groupSelection != selection.value)
      && decided in {None, Some(Error), Some(NewGroup)}
      && t == s.(authGroupSet := s.authGroupSet || (applies && selection != None && form.acceptsGroup))
  {
    hide FindName, FindCaption, Trim;
  }

  // ---- what the profile fills in ----

  /** A follow-up form has a name of its own. */
  predicate FollowUp(form: Form) {
    form.id.Some? && form.id.value != "main"
  }

  /** Text options named user... or uname..., in upper or lower case. */
  predicate UserName(name: string) {
    || (&& |name| >= 4 && name[0] in {'u', 'U'} && name[1] in {'s', 'S'} && name[2] in {'e', 'E'} && name[3] in {'r', 'R'})
    || (&& |name| >= 5 && name[0] in {'u', 'U'} && name[1] in {'n', 'N'} && name[2] in {'a', 'A'} && name[3] in {'m', 'M'}
        && name[4] in {'e', 'E'})
  }

  lemma UserNamePrefix(name: string)
    ensures HasLowerPrefix(name, "user") || HasLowerPrefix(name, "uname") <==> UserName(name)
  {
    Lower(name, "user");
    Lower(name, "uname");
  }

  lemma Lower(name: string, prefix: string)
    requires forall k | 0 <= k < |prefix| :: 'a' <= prefix[k] <= 'z'
    ensures HasLowerPrefix(name, prefix)
       <==> |prefix| <= |name| && forall k | 0 <= k < |prefix| :: name[k] in {prefix[k], (prefix[k] as int - 32) as char}
  {
  }

  predicate UsernameSpot(form: Form, creds: Credentials, i: nat)
    requires i < |form.fields|
  {
    var f := form.fields[i];
    !FollowUp(form) && f.kind == Text && !f.secondAuth && creds.username != "" && UserName(f.name)
  }

  /** The first password option that is not a second factor. */
  predicate PasswordSpot(form: Form, creds: Credentials, i: nat)
    requires i < |form.fields|
  {
    && !FollowUp(form) && form.fields[i].kind == Password && !form.fields[i].secondAuth && creds.password != ""
    && forall j | 0 <= j < i :: form.fields[j].kind != Password || form.fields[j].secondAuth
  }

  /** The option after the profile: user name and password go to their spots, everything
      else keeps the server's value, and a visible option is required when it is blank.
      A profile option is never required, and one that has a value and no owner keeps the
      server's mark. */
  lemma FilledIn(form: Form, creds: Credentials, i: nat)
    requires i < |form.fields|
    ensures var f, g := form.fields[i], FilledForm(form, creds)[i];
      && g.value == (if UsernameSpot(form, creds, i) then creds.username
                     else if PasswordSpot(form, creds, i) then creds.password else f.value)
      && g == f.(value := g.value, required := g.required)
      && (f.kind == Hidden || UsernameSpot(form, creds, i) || PasswordSpot(form, creds, i) ==> !g.required)
      && (f.kind != Hidden && (FollowUp(form) || f.secondAuth) ==> (g.required <==> Blank(f.value)))
      && (f.kind != Hidden && !FollowUp(form) && !f.secondAuth && !UsernameSpot(form, creds, i) && !PasswordSpot(form, creds, i) ==>
            (g.required <==> Blank(f.value) || f.required))
  {
    hide HasLowerPrefix, Blank, UserName;
    UserNamePrefix(form.fields[i].name);
  }

  // ---- which forms are answered without the user ----

  /** The option needs nobody: it is hidden, or it is no follow-up and no second factor
      and has a value once the profile is applied. */
  predicate Supplied(form: Form, creds: Credentials, i: nat)
    requires i < |form.fields|
  {
    var f := form.fields[i];
    || f.kind == Hidden
    || (&& !FollowUp(form) && !f.secondAuth
        && (if UsernameSpot(form, creds, i) then !Blank(creds.username)
            else if PasswordSpot(form, creds, i) then !Blank(creds.password) else !Blank(f.value)))
  }

  lemma AutomaticIff(form: Form, creds: Credentials)
    ensures Automatic(form, creds) <==> forall i | 0 <= i < |form.fields| :: Supplied(form, creds, i)
  {
    hide Filled, Blank, UsernameSpot, PasswordSpot;
    forall i | 0 <= i < |form.fields|
      ensures Supplied(form, creds, i)
         <==> && !AskUser(form.fields[i], RoleOf(form.id))
              && (Visible(FilledForm(form, creds)[i]) ==> !Blank(FilledForm(form, creds)[i].value))
    {
      FilledIn(form, creds, i);
    }
    if Automatic(form, creds) {
      forall i | 0 <= i < |form.fields| ensures Supplied(form, creds, i) {
        assert !AskUser(form.fields[i], RoleOf(form.id));
      }
    }
    if forall i | 0 <= i < |form.fields| :: Supplied(form, creds, i) {
      forall i | 0 <= i < |form.fields|
        ensures Visible(FilledForm(form, creds)[i]) ==> !Blank(FilledForm(form, creds)[i].value)
        ensures !AskUser(form.fields[i], RoleOf(form.id))
      {
        assert Supplied(form, creds, i);
      }
    }
  }

  /** A form with nothing visible is answered at once; a follow-up form, or a second
      factor, with anything visible never is. */
  lemma AutomaticExtremes(form: Form, creds: Credentials)
    ensures (forall i | 0 <= i < |form.fields| :: form.fields[i].kind == Hidden) ==> Automatic(form, creds)
    ensures (exists i :: 0 <= i < |form.fields| && form.fields[i].kind != Hidden && (FollowUp(form) || form.fields[i].secondAuth))
            ==> !Automatic(form, creds)
  {
    hide Automatic, UsernameSpot, PasswordSpot, Blank;
    AutomaticIff(form, creds);
    if Automatic(form, creds) {
      forall i | 0 <= i < |form.fields| ensures form.fields[i].kind == Hidden || !(FollowUp(form) || form.fields[i].secondAuth) {
        assert Supplied(form, creds, i);
      }
    } else {
      var i :| 0 <= i < |form.fields| && !Supplied(form, creds, i);
      assert form.fields[i].kind != Hidden;
    }
  }

  // ---- what one form leaves behind ----

  predicate ByProfile(form: Form, creds: Credentials) {
    forall i | 0 <= i < |form.fields| :: Supplied(form, creds, i)
  }

  predicate SomethingToAsk(form: Form) {
    exists i :: 0 <= i < |form.fields| && form.fields[i].kind != Hidden && (FollowUp(form) || form.fields[i].secondAuth)
  }

  /** A form the profile answers is submitted and remembered the first time, and refused
      when it comes back; whoever the user is does not matter. */
  lemma ProfileAnswers(s: FormState, creds: Credentials, form: Form, user: User)
    requires Accepted(s, creds, form) && ByProfile(form, creds)
    ensures var h := Handle(s, creds, form, user);
      && h.automatic
      && (h.result == Submit <==> FingerprintOf(form) !in s.submitted && form.acceptsValues)
      && (h.result != Submit ==> h.result == Error && h.state.submitted == s.submitted)
      && (h.result == Submit ==> h.state.submitted == s.submitted + [FingerprintOf(form)])
  {
    hide Automatic, Supplied, FindName, FindCaption, Trim, FingerprintOf, Matched;
    AutomaticIff(form, creds);
  }

  /** Any other form needs the user: without one, and when the user cancels, it is
      cancelled; when there is nothing to ask, it fails; otherwise it is submitted
      exactly when the answers name options of the form in its order and the library
      takes the values. It is not remembered. */
  lemma UserAnswers(s: FormState, creds: Credentials, form: Form, user: User)
    requires Accepted(s, creds, form) && !ByProfile(form, creds)
    ensures var h := Handle(s, creds, form, user);
      && !h.automatic && h.state.submitted == s.submitted
      && (user.Nobody? ==> h.result == Cancelled)
      && (!user.Nobody? && !SomethingToAsk(form) ==> h.result == Error)
      && (user.Cancels? && SomethingToAsk(form) ==> h.result == Cancelled)
      && (user.Answers? && SomethingToAsk(form) ==>
            h.result == if Subsequence(AnswerKeys(user.answers), Keys(form.fields)) && form.acceptsValues then Submit else Error)
  {
    hide Automatic, Supplied, FindName, FindCaption, Trim, FingerprintOf, Matched, Subsequence, GroupStep;
    AutomaticIff(form, creds);
    GroupDecides(s, creds, form);
    assert NeedsUser(form) <==> SomethingToAsk(form) by { AskedIsSomething(form); }
    if user.Answers? {
      BindsIffSubsequence(AnswerKeys(user.answers), Keys(form.fields));
      MatchedBounds(AnswerKeys(user.answers), Keys(form.fields));
    }
  }

  lemma AskedIsSomething(form: Form)
    ensures NeedsUser(form) <==> SomethingToAsk(form)
  {
    if NeedsUser(form) {
      var i :| 0 <= i < |form.fields| && AskUser(form.fields[i], RoleOf(form.id));
    }
    if SomethingToAsk(form) {
      var i :| 0 <= i < |form.fields| && form.fields[i].kind != Hidden && (FollowUp(form) || form.fields[i].secondAuth);
      assert AskUser(form.fields[i], RoleOf(form.id));
    }
  }

  /** A submitted follow-up is remembered as hidden when it had no input of its own, and
      clears the memory when it had; a primary form, and one that is not submitted,
      leave it alone. */
  lemma HiddenFollowUp(s: FormState, creds: Credentials, form: Form, user: User)
    ensures var h := Handle(s, creds, form, user);
      h.state.hiddenFollowUp == if h.result == Submit && FollowUp(form) then (if form.activeInput then None else form.id)
                                else s.hiddenFollowUp
  {
    hide Automatic, FindName, FindCaption, Trim, FingerprintOf, Matched, NeedsUser;
  }
}
