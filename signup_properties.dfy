/** Properties of the reducer over single actions and over the sequences
    of actions a store dispatches one after the other. */
module SignupProperties {
  import opened HiddenStrings
  import opened Js
  import opened Text
  import opened SignupState
  import opened SignupActions
  import opened SignupReducer

  /** No action changes a field outside its footprint. */
  lemma ReduceFrame(v: Validators, s: State, a: Action, f: Field)
    requires f !in Footprint(a)
    ensures Get(Reduce(v, s, a), f) == Get(s, f)
  {
  }

  /** The state after the store has dispatched `actions` in order. */
  function Run(v: Validators, s: State, actions: seq<Action>): State
    decreases |actions|
  {
    if actions == [] then s
    else Run(v, Reduce(v, s, actions[0]), actions[1..])
  }

  /** Dispatching one sequence of actions, then another, is dispatching
      their concatenation. */
  lemma {:induction false} RunAppend(v: Validators, s: State, xs: seq<Action>, ys: seq<Action>)
    ensures Run(v, s, xs + ys) == Run(v, Run(v, s, xs), ys)
    decreases |xs|
  {
    if xs == [] {
      assert xs + ys == ys;
    } else {
      assert (xs + ys)[1..] == xs[1..] + ys;
      RunAppend(v, Reduce(v, s, xs[0]), xs[1..], ys);
    }
  }

  /** A reset anywhere in a sequence makes everything dispatched before it
      irrelevant. */
  lemma ResetForgetsHistory(v: Validators, s: State, before: seq<Action>,
                            reset: Action, after: seq<Action>)
    requires reset.ResetStore? || reset.RestartSignup?
    ensures Run(v, s, before + [reset] + after) == Run(v, InitialState(), after)
  {
    RunAppend(v, s, before + [reset], after);
    RunAppend(v, s, before, [reset]);
  }

  /** The initial state already has every error field blank. */
  lemma InitialErrorsBlank()
    ensures ErrorsBlank(InitialState())
    ensures ClearErrors(InitialState()) == InitialState()
  {
  }

  /** Clearing the errors twice is clearing them once. */
  lemma ClearErrorsIdempotent(s: State)
    ensures ClearErrors(ClearErrors(s)) == ClearErrors(s)
  {
  }

  /** A response whose echoed request value(s) no longer match the form. */
  predicate IsStale(s: State, a: Action) {
    match a
    case CheckedInviteCode(_, code, _) => code != s.inviteCode
    case CheckedUsername(_, username, _, _) => username != s.username
    case CheckedUsernameEmail(_, email, username, _, _) =>
      email != s.email || username != s.username
    case RequestedInvite(_, email, name, _, _) => email != s.email || name != s.name
    case CheckedDevicename(_, devicename, _) => devicename != s.devicename
    case _ => false
  }

  /** Stale responses are dropped, whatever they report. */
  lemma StaleResponseIgnored(v: Validators, s: State, a: Action)
    requires IsStale(s, a)
    ensures Reduce(v, s, a) == s
  {
  }

  /** When a second username is entered before the answer about the first
      arrives, that late answer leaves the form as it was. */
  lemma LateUsernameAnswerDropped(v: Validators, s: State, first: string, second: string,
                                  failed: bool, usernameError: Maybe<string>,
                                  usernameTaken: Maybe<bool>)
    requires first != second
    ensures var typed := [CheckUsername(first), CheckUsername(second)];
      Run(v, s, typed + [CheckedUsername(failed, first, usernameError, usernameTaken)])
        == Run(v, s, typed)
  {
    var typed := [CheckUsername(first), CheckUsername(second)];
    var answer := CheckedUsername(failed, first, usernameError, usernameTaken);
    RunAppend(v, s, typed, [answer]);
    var t := Run(v, s, typed);
    var s1 := Reduce(v, s, typed[0]);
    assert typed[1..] == [CheckUsername(second)];
    assert Run(v, s1, typed[1..]) == Run(v, Reduce(v, s1, CheckUsername(second)), []);
    assert t == Reduce(v, s1, CheckUsername(second));
    assert t.username == second;
    assert Run(v, t, [answer]) == Reduce(v, t, answer);
  }

  /** The device name is stored trimmed, so an answer that echoes the
      untrimmed input is dropped. */
  lemma UntrimmedDevicenameEchoDropped(v: Validators, s: State, raw: string,
                                       failed: bool, message: Maybe<string>)
    requires !Trimmed(raw)
    ensures var t := Reduce(v, s, CheckDevicename(raw));
      Reduce(v, t, CheckedDevicename(failed, raw, message)) == t
  {
  }

  // ---------------------------------------------------------------------
  // An invariant of every state the store can reach.

  /** The device name never has outer white space, and the password error
      is always one of the classifier's four outcomes. */
  predicate Consistent(s: State) {
    && Trimmed(s.devicename)
    && s.passwordError.stringValue in
         {"", BlankPasswordMessage, PasswordMismatchMessage, ShortPasswordMessage}
  }

  lemma InitialConsistent()
    ensures Consistent(InitialState())
  {
  }

  lemma ReducePreservesConsistent(v: Validators, s: State, a: Action)
    requires Consistent(s)
    ensures Consistent(Reduce(v, s, a))
  {
  }

  lemma {:induction false} RunPreservesConsistent(v: Validators, s: State, actions: seq<Action>)
    requires Consistent(s)
    ensures Consistent(Run(v, s, actions))
    decreases |actions|
  {
    if actions != [] {
      ReducePreservesConsistent(v, s, actions[0]);
      RunPreservesConsistent(v, Reduce(v, s, actions[0]), actions[1..]);
    }
  }

  /** Every state reachable from the initial state is consistent. */
  lemma ReachableConsistent(v: Validators, actions: seq<Action>)
    ensures Consistent(Run(v, InitialState(), actions))
  {
    InitialConsistent();
    RunPreservesConsistent(v, InitialState(), actions);
  }

  // ---------------------------------------------------------------------
  // Concrete cases.

  lemma PasswordExamples(s: State)
    ensures StorePassword(s, HiddenString(""), HiddenString("")).passwordError
      == HiddenString(BlankPasswordMessage)
    ensures StorePassword(s, HiddenString("abcdefgh"), HiddenString("abcdefgx")).passwordError
      == HiddenString(PasswordMismatchMessage)
    ensures StorePassword(s, HiddenString("short"), HiddenString("short")).passwordError
      == HiddenString(ShortPasswordMessage)
    ensures var r := StorePassword(s, HiddenString("longenough1"), HiddenString("longenough1"));
      r.passwordError == EmptySecret && r.password == HiddenString("longenough1")
  {
  }

  lemma DevicenameBlankExample(s: State)
    ensures var r := StoreDevicename(s, "  ");
      r.devicename == "" && r.devicenameError == EmptyDevicenameMessage
  {
  }

  lemma StaleUsernameExample(v: Validators, s: State, failed: bool,
                             usernameError: Maybe<string>, usernameTaken: Maybe<bool>)
    requires s.username == "bob"
    ensures Reduce(v, s, CheckedUsername(failed, "alice", usernameError, usernameTaken)) == s
  {
  }
}
