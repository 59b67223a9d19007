/** Which options of a server form the profile fills, which the user is asked for,
    and how an ordered reply is bound back to the options. */
module ReplyBinding {
  import opened Lists
  import opened Strings

  datatype FieldKind = Text | Password | Select | Token | Hidden | Unknown

  datatype FieldKey = FieldKey(formId: Option<string>, optionIndex: nat, digest: string)

  datatype Field = Field(key: FieldKey, name: string, kind: FieldKind, value: string, secondAuth: bool, required: bool)

  datatype Answer = Answer(key: FieldKey, value: string)

  datatype Credentials = Credentials(username: string, password: string, group: string)

  datatype Role = Primary | Challenge

  /** Only a named form other than `main` is a follow-up. */
  function RoleOf(formId: Option<string>): Role {
    if formId.None? || formId.value == "main" then Primary else Challenge
  }

  // ---- who owns an option ----

  predicate Visible(f: Field) {
    !f.kind.Hidden?
  }

  /** Visible options of a follow-up form, and explicit second factors. */
  predicate AskUser(f: Field, role: Role) {
    Visible(f) && (role.Challenge? || f.secondAuth)
  }

  predicate HasLowerPrefix(s: string, prefix: string) {
    |prefix| <= |s| && forall k | 0 <= k < |prefix| ::
      s[k] == prefix[k] || ('A' <= s[k] <= 'Z' && prefix[k] as int == s[k] as int + 32)
  }

  predicate TakesUsername(f: Field, role: Role, creds: Credentials) {
    && f.kind.Text? && role.Primary? && !f.secondAuth && creds.username != ""
    && (HasLowerPrefix(f.name, "user") || HasLowerPrefix(f.name, "uname"))
  }

  predicate WantsPassword(f: Field, role: Role, creds: Credentials) {
    f.kind.Password? && role.Primary? && !f.secondAuth && creds.password != ""
  }

  /** The configured password goes to the first primary password option only. */
  predicate TakesPassword(fields: seq<Field>, role: Role, creds: Credentials, i: nat)
    requires i < |fields|
  {
    WantsPassword(fields[i], role, creds) && forall j | 0 <= j < i :: !WantsPassword(fields[j], role, creds)
  }

  /** The option after the profile was applied. */
  function Filled(fields: seq<Field>, role: Role, creds: Credentials, i: nat): Field
    requires i < |fields|
  {
    var f := fields[i];
    if !Visible(f) then f.(required := false)
    else if AskUser(f, role) then f.(required := Blank(f.value))
    else if TakesUsername(f, role, creds) then f.(value := creds.username, required := false)
    else if TakesPassword(fields, role, creds, i) then f.(value := creds.password, required := false)
    else if Blank(f.value) then f.(required := true)
    else f
  }

  predicate FromProfile(fields: seq<Field>, role: Role, creds: Credentials, i: nat)
    requires i < |fields|
  {
    TakesUsername(fields[i], role, creds) || TakesPassword(fields, role, creds, i)
  }

  datatype Application = Application(profileOwned: set<nat>, userOwned: set<nat>)

  method ApplyCredentialsToFields(fields: seq<Field>, creds: Credentials, role: Role)
    returns (filled: seq<Field>, applied: Application)
    ensures |filled| == |fields|
    ensures forall i | 0 <= i < |fields| :: filled[i] == Filled(fields, role, creds, i)
    ensures applied.userOwned == set i: nat | i < |fields| && AskUser(fields[i], role)
    ensures applied.profileOwned == set i: nat | i < |fields| && FromProfile(fields, role, creds, i)
  {
    filled, applied := [], Application({}, {});
    var passwordAvailable := role.Primary? && creds.password != "";
    for index := 0 to |fields|
      invariant |filled| == index
      invariant forall i | 0 <= i < index :: filled[i] == Filled(fields, role, creds, i)
      invariant applied.userOwned == set i: nat | i < index && AskUser(fields[i], role)
      invariant applied.profileOwned == set i: nat | i < index && FromProfile(fields, role, creds, i)
      invariant passwordAvailable <==>
                role.Primary? && creds.password != "" && forall j | 0 <= j < index :: !WantsPassword(fields[j], role, creds)
    {
      var f := fields[index];
      if f.kind.Hidden? {
        f := f.(required := false);
      } else if role.Challenge? || f.secondAuth {
        f := f.(required := Blank(f.value));
        applied := applied.(userOwned := applied.userOwned + {index});
      } else if TakesUsername(f, role, creds) {
        f := f.(value := creds.username, required := false);
        applied := applied.(profileOwned := applied.profileOwned + {index});
      } else if passwordAvailable && !f.secondAuth && f.kind.Password? {
        f := f.(value := creds.password, required := false);
        applied := applied.(profileOwned := applied.profileOwned + {index});
        passwordAvailable := false;
      } else if Blank(f.value) {
        f := f.(required := true);
      }
      filled := filled + [f];
    }
  }

  /** The profile never reaches a follow-up form or a second factor: such options,
      and hidden ones, keep the server's value; the configured password ends up in
      at most one option; and no option has two owners. */
  lemma CredentialsStayPrimary(fields: seq<Field>, role: Role, creds: Credentials, i: nat, j: nat)
    requires i < |fields| && j < |fields|
    ensures role.Challenge? || fields[i].secondAuth || !Visible(fields[i]) ==>
              Filled(fields, role, creds, i).value == fields[i].value && !FromProfile(fields, role, creds, i)
    ensures TakesPassword(fields, role, creds, i) && TakesPassword(fields, role, creds, j) ==> i == j
    ensures !(AskUser(fields[i], role) && FromProfile(fields, role, creds, i))
    ensures Filled(fields, role, creds, i).value != fields[i].value ==> FromProfile(fields, role, creds, i)
    ensures Filled(fields, role, creds, i).key == fields[i].key
  {
  }

  // ---- what the user sees ----

  function UserFields(fields: seq<Field>, owned: set<nat>): seq<Field> {
    if fields == [] then []
    else
      var n := |fields| - 1;
      UserFields(fields[..n], owned) + if n in owned then [fields[n]] else []
  }

  method FieldsForUserInput(fields: seq<Field>, applied: Application) returns (asked: seq<Field>)
    ensures asked == UserFields(fields, applied.userOwned)
  {
    asked := [];
    for index := 0 to |fields|
      invariant asked == UserFields(fields[..index], applied.userOwned)
    {
      assert fields[..index + 1][..index] == fields[..index];
      if index in applied.userOwned {
        asked := asked + [fields[index]];
      }
    }
    assert fields[..|fields|] == fields;
  }

  /** Banner-only forms, and forms whose visible options all have a value. */
  predicate CanAutofill(fields: seq<Field>) {
    forall i | 0 <= i < |fields| :: Visible(fields[i]) ==> !Blank(fields[i].value)
  }

  /** The UI answers the options it was shown, in their order, leaving out those
      whose draft is blank. */
  function UiReply(asked: seq<Field>, drafts: map<FieldKey, string>): seq<Answer> {
    if asked == [] then []
    else
      var n := |asked| - 1;
      var key := asked[n].key;
      UiReply(asked[..n], drafts) + if key in drafts && !Blank(drafts[key]) then [Answer(key, drafts[key])] else []
  }

  // ---- binding a reply ----

  function Keys(fields: seq<Field>): (keys: seq<FieldKey>)
    ensures |keys| == |fields| && forall i | 0 <= i < |fields| :: keys[i] == fields[i].key
  {
    seq(|fields|, i requires 0 <= i < |fields| => fields[i].key)
  }

  function AnswerKeys(answers: seq<Answer>): (keys: seq<FieldKey>)
    ensures |keys| == |answers| && forall i | 0 <= i < |answers| :: keys[i] == answers[i].key
  {
    seq(|answers|, i requires 0 <= i < |answers| => answers[i].key)
  }

  /** How many keys a single scan over `scanned` matches, always taking the first
      possibility. */
  function Matched<K(==)>(keys: seq<K>, scanned: seq<K>): (m: nat)
    ensures m <= |keys| && m <= |scanned|
  {
    if scanned == [] then 0
    else
      var n := |scanned| - 1;
      var m := Matched(keys, scanned[..n]);
      if m < |keys| && keys[m] == scanned[n] then m + 1 else m
  }

  ghost predicate Positions<K>(keys: seq<K>, within: seq<K>, at: seq<nat>) {
    && |at| == |keys|
    && (forall i, j | 0 <= i < j < |at| :: at[i] < at[j])
    && (forall i | 0 <= i < |at| :: at[i] < |within| && within[at[i]] == keys[i])
  }

  /** `keys` can be found in `within`, in order, in some way. */
  ghost predicate Subsequence<K>(keys: seq<K>, within: seq<K>) {
    exists at: seq<nat> :: Positions(keys, within, at)
  }

  /** The scan is complete: no other choice of positions matches more. */
  lemma {:induction false} GreedyIsBest<K>(keys: seq<K>, within: seq<K>, at: seq<nat>, j: nat)
    requires j <= |keys| && Positions(keys[..j], within, at)
    ensures j <= Matched(keys, within)
    decreases |within|
  {
    if j > 0 {
      var n := |within| - 1;
      var last := at[j - 1];
      assert keys[..j][j - 1] == keys[j - 1] && keys[..j][..j - 1] == keys[..j - 1];
      assert Positions(keys[..j - 1], within[..last], at[..j - 1]);
      if last == n {
        GreedyIsBest(keys, within[..n], at[..j - 1], j - 1);
      } else {
        assert Positions(keys[..j], within[..n], at);
        GreedyIsBest(keys, within[..n], at, j);
      }
    }
  }

  /** And it is sound: what it matched is in order. */
  lemma {:induction false} GreedyPositions<K>(keys: seq<K>, within: seq<K>) returns (at: seq<nat>)
    ensures Positions(keys[..Matched(keys, within)], within, at)
  {
    if within == [] {
      at := [];
    } else {
      var n := |within| - 1;
      at := GreedyPositions(keys, within[..n]);
      if Matched(keys, within) > Matched(keys, within[..n]) {
        at := at + [n];
      }
    }
  }

  lemma BindsIffSubsequence<K>(keys: seq<K>, within: seq<K>)
    ensures Matched(keys, within) == |keys| <==> Subsequence(keys, within)
  {
    if Matched(keys, within) == |keys| {
      var at := GreedyPositions(keys, within);
      assert keys[..|keys|] == keys;
      assert Positions(keys, within, at);
    }
    if Subsequence(keys, within) {
      var at: seq<nat> :| Positions(keys, within, at);
      assert keys[..|keys|] == keys;
      GreedyIsBest(keys, within, at, |keys|);
    }
  }

  function Default(f: Field): Option<string> {
    if f.value != "" then Some(f.value) else None
  }

  /** The value bound to option `i`: the answer the scan matched there, or the value
      it already had. */
  function BoundValue(fields: seq<Field>, answers: seq<Answer>, i: nat): Option<string>
    requires i < |fields|
  {
    var m := Matched(AnswerKeys(answers), Keys(fields)[..i]);
    if m < |answers| && answers[m].key == fields[i].key then Some(answers[m].value) else Default(fields[i])
  }

  /** Binding succeeds exactly when the reply answers options of the form in their
      order, and then replaces the values of just those options. */
  method BindReplyValuesByOption(fields: seq<Field>, answers: seq<Answer>) returns (bound: Option<seq<Option<string>>>)
    ensures bound.Some? <==> Subsequence(AnswerKeys(answers), Keys(fields))
    ensures bound.Some? ==>
              |bound.value| == |fields| && forall i | 0 <= i < |fields| :: bound.value[i] == BoundValue(fields, answers, i)
  {
    hide Subsequence, Matched, BoundValue;
    var values := seq(|fields|, i requires 0 <= i < |fields| => Default(fields[i]));
    var next := 0;
    var index := 0;
    ghost var asked, keys := AnswerKeys(answers), Keys(fields);
    MatchedNothing(asked, keys);
    while index < |fields| && next < |answers|
      invariant 0 <= index <= |fields| && |values| == |fields| && next == Matched(asked, keys[..index])
      invariant forall i | 0 <= i < index :: values[i] == BoundValue(fields, answers, i)
      invariant forall i | index <= i < |fields| :: values[i] == Default(fields[i])
      decreases |fields| - index
    {
      ScanStep(fields, answers, index);
      if answers[next].key == fields[index].key {
        values := values[index := Some(answers[next].value)];
        next := next + 1;
      }
      index := index + 1;
    }
    assert keys[..|keys|] == keys;
    if next == |answers| {
      MatchedStays(asked, keys, index, |keys|);
      forall i | index <= i < |fields| ensures values[i] == BoundValue(fields, answers, i) {
        MatchedStays(asked, keys, index, i);
        ScanStep(fields, answers, i);
      }
    }
    BindsIffSubsequence(asked, keys);
    if next < |answers| {
      return None;
    }
    return Some(values);
  }

  lemma MatchedNothing<K>(keys: seq<K>, within: seq<K>)
    ensures Matched(keys, within[..0]) == 0
  {
  }

  lemma ScanStep(fields: seq<Field>, answers: seq<Answer>, i: nat)
    requires i < |fields|
    ensures var asked, keys := AnswerKeys(answers), Keys(fields);
      var m := Matched(asked, keys[..i]);
      var hit := m < |answers| && answers[m].key == fields[i].key;
      && m <= |answers|
      && Matched(asked, keys[..i + 1]) == (if hit then m + 1 else m)
      && BoundValue(fields, answers, i) == if hit then Some(answers[m].value) else Default(fields[i])
  {
    assert Keys(fields)[..i + 1][..i] == Keys(fields)[..i];
  }

  lemma {:induction false} MatchedStays<K>(keys: seq<K>, within: seq<K>, n: nat, m: nat)
    requires n <= m <= |within| && Matched(keys, within[..n]) == |keys|
    ensures Matched(keys, within[..m]) == |keys|
  {
    if n < m {
      MatchedStays(keys, within, n, m - 1);
      assert within[..m][..m - 1] == within[..m - 1];
    }
  }

  // ---- the round trip through the UI ----

  /** The user's answer to option `i`, if it was asked for and has a draft. */
  predicate Answered(fields: seq<Field>, owned: set<nat>, drafts: map<FieldKey, string>, i: nat)
    requires i < |fields|
  {
    i in owned && fields[i].key in drafts && !Blank(drafts[fields[i].key])
  }

  function ReplyTo(fields: seq<Field>, owned: set<nat>, drafts: map<FieldKey, string>): seq<Answer> {
    UiReply(UserFields(fields, owned), drafts)
  }

  lemma ReplyToPrefix(fields: seq<Field>, owned: set<nat>, drafts: map<FieldKey, string>, n: nat)
    requires n < |fields|
    ensures ReplyTo(fields[..n + 1], owned, drafts) == ReplyTo(fields[..n], owned, drafts)
            + if Answered(fields, owned, drafts, n) then [Answer(fields[n].key, drafts[fields[n].key])] else []
  {
    assert fields[..n + 1][..n] == fields[..n];
    var before := UserFields(fields[..n], owned);
    if n in owned {
      assert (before + [fields[n]])[..|before|] == before;
    } else {
      assert before + [] == before;
    }
  }

  /** The reply as a whole extends the reply to any prefix of the form, and what
      it adds answers later options. */
  lemma {:induction false} ReplyExtends(fields: seq<Field>, owned: set<nat>, drafts: map<FieldKey, string>, n: nat, m: nat)
    requires n <= m <= |fields|
    ensures ReplyTo(fields[..n], owned, drafts) <= ReplyTo(fields[..m], owned, drafts)
    ensures forall k | |ReplyTo(fields[..n], owned, drafts)| <= k < |ReplyTo(fields[..m], owned, drafts)| ::
              exists i :: n <= i < m && fields[i].key == ReplyTo(fields[..m], owned, drafts)[k].key
  {
    if n < m {
      ReplyExtends(fields, owned, drafts, n, m - 1);
      ReplyToPrefix(fields, owned, drafts, m - 1);
      assert fields[m - 1].key == fields[m - 1].key;
    }
  }

  lemma MatchedStep<K>(keys: seq<K>, within: seq<K>, n: nat)
    requires n < |within|
    ensures var m := Matched(keys, within[..n]);
            Matched(keys, within[..n + 1]) == if m < |keys| && keys[m] == within[n] then m + 1 else m
  {
    assert within[..n + 1][..n] == within[..n];
  }

  /** The scan never runs ahead of or behind the options that were answered. */
  lemma {:induction false} ScanFollows(fields: seq<Field>, owned: set<nat>, drafts: map<FieldKey, string>, n: nat)
    requires n <= |fields| && Distinct(Keys(fields))
    ensures Matched(AnswerKeys(ReplyTo(fields, owned, drafts)), Keys(fields)[..n]) == |ReplyTo(fields[..n], owned, drafts)|
  {
    hide Matched, ReplyTo, Blank, Distinct;
    var reply, keys := ReplyTo(fields, owned, drafts), Keys(fields);
    if n == 0 {
      MatchedNothing(AnswerKeys(reply), keys);
      NothingToReply(fields, owned, drafts);
    } else {
      ScanFollows(fields, owned, drafts, n - 1);
      MatchedStep(AnswerKeys(reply), keys, n - 1);
      NextAnswer(fields, owned, drafts, n - 1);
    }
  }

  lemma NothingToReply(fields: seq<Field>, owned: set<nat>, drafts: map<FieldKey, string>)
    ensures ReplyTo(fields[..0], owned, drafts) == []
  {
  }

  /** The next answer of the reply belongs to option `n` exactly when it was answered. */
  lemma NextAnswer(fields: seq<Field>, owned: set<nat>, drafts: map<FieldKey, string>, n: nat)
    requires n < |fields| && Distinct(Keys(fields))
    ensures var reply, m := ReplyTo(fields, owned, drafts), |ReplyTo(fields[..n], owned, drafts)|;
      && m <= |reply|
      && (m < |reply| && reply[m].key == fields[n].key <==> Answered(fields, owned, drafts, n))
      && (Answered(fields, owned, drafts, n) ==> reply[m].value == drafts[fields[n].key])
      && |ReplyTo(fields[..n + 1], owned, drafts)| == (if Answered(fields, owned, drafts, n) then m + 1 else m)
  {
    hide ReplyTo, Blank;
    var reply := ReplyTo(fields, owned, drafts);
    assert fields[..|fields|] == fields;
    ReplyToPrefix(fields, owned, drafts, n);
    ReplyExtends(fields, owned, drafts, n + 1, |fields|);
    var m := |ReplyTo(fields[..n], owned, drafts)|;
    if !Answered(fields, owned, drafts, n) && m < |reply| {
      var i :| n + 1 <= i < |fields| && fields[i].key == reply[m].key;
      assert Keys(fields)[n] != Keys(fields)[i];
    }
  }

  /** Every reply the UI builds binds, and changes exactly the options the user was
      asked for and answered: an option the profile filled keeps its value. */
  lemma UiReplyBinds(fields: seq<Field>, owned: set<nat>, drafts: map<FieldKey, string>)
    requires Distinct(Keys(fields))
    ensures Subsequence(AnswerKeys(ReplyTo(fields, owned, drafts)), Keys(fields))
    ensures forall i | 0 <= i < |fields| :: BoundValue(fields, ReplyTo(fields, owned, drafts), i)
              == if Answered(fields, owned, drafts, i) then Some(drafts[fields[i].key])
                 else if fields[i].value == "" then None else Some(fields[i].value)
  {
    hide ReplyTo, Matched, Distinct, Blank;
    var reply, keys := ReplyTo(fields, owned, drafts), Keys(fields);
    assert fields[..|fields|] == fields && keys[..|keys|] == keys;
    ScanFollows(fields, owned, drafts, |fields|);
    BindsIffSubsequence(AnswerKeys(reply), keys);
    forall i | 0 <= i < |fields|
      ensures BoundValue(fields, reply, i) == if Answered(fields, owned, drafts, i) then Some(drafts[fields[i].key]) else Default(fields[i])
    {
      ScanFollows(fields, owned, drafts, i);
      NextAnswer(fields, owned, drafts, i);
    }
  }

  /** From the server's form to the bound values: whatever the user drafts, a
      credential of the profile is bound exactly where it was filled in, and
      options of nobody keep the server's value. */
  lemma ProfileSurvivesReply(fields: seq<Field>, filled: seq<Field>, role: Role, creds: Credentials, owned: set<nat>,
                             drafts: map<FieldKey, string>, i: nat)
    requires |filled| == |fields| && i < |fields| && Distinct(Keys(fields))
    requires forall k | 0 <= k < |fields| :: filled[k] == Filled(fields, role, creds, k)
    requires owned == set k: nat | k < |fields| && AskUser(fields[k], role)
    ensures var bound := BoundValue(filled, ReplyTo(filled, owned, drafts), i);
      && (TakesUsername(fields[i], role, creds) ==> bound == Some(creds.username))
      && (TakesPassword(fields, role, creds, i) ==> bound == Some(creds.password))
      && (!AskUser(fields[i], role) && !FromProfile(fields, role, creds, i) ==>
            bound == if fields[i].value == "" then None else Some(fields[i].value))
  {
    hide BoundValue, ReplyTo, HasLowerPrefix, Blank;
    forall k | 0 <= k < |fields| ensures filled[k].key == fields[k].key {
      CredentialsStayPrimary(fields, role, creds, k, k);
    }
    assert Keys(filled) == Keys(fields);
    UiReplyBinds(filled, owned, drafts);
  }
}
