# Signup-form reducer, modelled in Dafny

This project models the signup reducer of the client's signup flow. The
reducer is a total, pure function `reduce(state, action)` over the signup
form record (email, username, name, invite code, device name, password and
their error fields). It handles these actions:

- resets;
- clearing every error when the user goes back;
- storing each entered value together with a synchronous verdict from a
  validator;
- applying the asynchronous answers of the server. An answer is dropped
  when the value it echoes is no longer the one in the form.

Modules:

- `HiddenStrings` (`hidden_string.dfy`): the opaque `HiddenString` wrapper
  for secret strings.
- `Js` (`js.dfy`): the JavaScript semantics the reducer relies on. That is
  `undefined`, truthiness, and `&&` / `||`, which return an operand rather
  than a boolean. The typed error helpers of the reducer are proved to agree
  with it.
- `Text` (`text.dfy`): lodash `trim`. It strips the characters of
  JavaScript's `\s` class from both ends.
- `SignupState` (`signup_state.dfy`): the form record and the initial state.
  It also names the fields so that footprints can be stated.
- `SignupActions` (`signup_actions.dfy`): one constructor per action type.
  It also holds the validators, which the reducer receives as a parameter.
- `SignupReducer` (`signup_reducer.dfy`): one function per reducer branch,
  and `Reduce`, which dispatches on the action.
- `SignupProperties` (`signup_properties.dfy`): properties of `Reduce`. Some
  are about one action: frames, the stale-response filter and examples.
  Others are about `Run`, which dispatches a sequence of actions: reset
  absorption and an invariant of every reachable state.

Modelling decisions:

- Immutable.js `state.merge({...})` is the datatype update `s.(f := v)`.
- An action's `error` property is a `bool`. `true` stands for `error: true`;
  `false` stands for an action without the property, whose value is
  `undefined`.
- Optional payload error fields are `Js.Maybe`.
- `checkedUsername` has no `|| ''` fallback. So `usernameError` and
  `usernameTaken` have type `Maybe`, and a successful answer sets both to
  `Undefined`.
- `isValidEmail`, `isValidUsername` and `isValidName` come from
  `util/simple-validators`, which is not part of this model. They are the
  three total functions of a `Validators` value given to `Reduce`.
- `Constants.makeState` (`constants/signup`) is not part of this model.
  `InitialState` takes the defaults the field types imply: empty strings,
  `usernameTaken` false, and the empty `HiddenString` for the three secret
  fields.

## Model

| member | source | states |
|---|---|---|
| SignupState.InitialState | shared/reducers/signup.js:10 | `initialState` has every error blank, every value field empty, `usernameTaken` false and the empty secret as password. These values are assumed, because `Constants.makeState` is not part of this model; `InitialErrorsBlank`, `InitialConsistent` and `ReachableConsistent` depend on them |
| Text.TrimStart | shared/reducers/signup.js:99 | the result is a suffix of the input, everything removed is white space, and it does not start with white space |
| Text.TrimEnd | shared/reducers/signup.js:99 | the result is a prefix of the input, everything removed is white space, and it does not end with white space |
| Text.Trim | shared/reducers/signup.js:99 | `trim` leaves no white space at either end, and gives the empty string exactly when the input is all white space |
| Text.TrimRemovesOnlyOuterSpace | shared/reducers/signup.js:99 | the trimmed string is a contiguous run of the input between a white-space prefix and a white-space suffix |
| Text.TrimmedIsFixpoint | shared/reducers/signup.js:99 | a string without outer white space is returned unchanged |
| Text.TrimIdempotent | shared/reducers/signup.js:99 | trimming twice equals trimming once |
| SignupReducer.ResponseError | shared/reducers/signup.js:33 | the typed error helper agrees with the JavaScript value of `(action.error && error) \|\| ''` |
| SignupReducer.ResponseUsernameError | shared/reducers/signup.js:46 | agrees with `action.error && usernameError`, so the result is `undefined` when the flag is absent |
| SignupReducer.ResponseUsernameTaken | shared/reducers/signup.js:47 | agrees with `action.error && usernameTaken`, so the result is `undefined` when the flag is absent |
| SignupReducer.ResponseSecret | shared/reducers/signup.js:108 | agrees with `(action.error && error) \|\| new HiddenString('')`, where an object is always truthy |
| SignupReducer.ClearErrors | shared/reducers/signup.js:17-26 | goBackAndClearErrors sets every error field to empty (the secret ones to the empty HiddenString) and leaves every non-error field unchanged, `usernameTaken` included |
| SignupReducer.StoreAutoInvite | shared/reducers/signup.js:27-28 | requestedAutoInvite: on failure the invite code becomes `''`, on success the payload's code; nothing else changes |
| SignupReducer.StoreInviteCode | shared/reducers/signup.js:29-30 | checkInviteCode sets the invite code and nothing else |
| SignupReducer.ApplyInviteCodeCheck | shared/reducers/signup.js:31-34 | checkedInviteCode: unchanged state when the echoed code differs; otherwise the invite-code error is the payload's on failure and `''` on success or when absent; only that field changes |
| SignupReducer.StoreEmail | shared/reducers/signup.js:35-38 | checkEmail stores the email and the validator's result for it; nothing else changes |
| SignupReducer.StoreUsername | shared/reducers/signup.js:39-42 | checkUsername stores the username and the validator's result for it; nothing else changes |
| SignupReducer.ApplyUsernameCheck | shared/reducers/signup.js:43-49 | checkedUsername: unchanged state when the echoed username differs; on a current failure the payload's error and taken flag are stored as given; on a current success both become `undefined`; only those two fields change |
| SignupReducer.StoreUsernameEmail | shared/reducers/signup.js:50-55 | checkUsernameEmail stores both values and each one's own validator result; nothing else changes |
| SignupReducer.ApplyUsernameEmailCheck | shared/reducers/signup.js:56-62 | checkedUsernameEmail: unchanged state unless both echoed email and username are current; then each error is the payload's on failure and `''` otherwise; only those two fields change |
| SignupReducer.StoreInviteRequest | shared/reducers/signup.js:63-73 | requestInvite stores email and name with their validator results; nothing else changes |
| SignupReducer.ApplyInviteRequestResult | shared/reducers/signup.js:74-80 | requestedInvite: unchanged state unless both echoed email and name are current; then each error is the payload's on failure and `''` otherwise; only those two fields change |
| SignupReducer.ClassifyPassword | shared/reducers/signup.js:85-92 | the rules apply in order. The result is the blank message iff an entry is empty, the mismatch message iff both are non-empty and differ, the length message iff they are equal, non-empty and shorter than 8, and empty iff they are equal with at least 8 characters |
| SignupReducer.StorePassword | shared/reducers/signup.js:81-97 | checkPassword records `pass1` as the password in every case and the classifier's verdict as the secret password error; nothing else changes |
| SignupReducer.StoreDevicename | shared/reducers/signup.js:98-102 | checkDevicename stores the trimmed name. The error is "Device name must not be empty." exactly when the input is all white space, that is when the stored name is empty, and `''` otherwise. Nothing else changes |
| SignupReducer.ApplyDevicenameCheck | shared/reducers/signup.js:103-106 | checkedDevicename: unchanged state when the echoed name differs; otherwise the error is the payload's on failure and `''` otherwise; only that field changes |
| SignupReducer.ApplySignupResult | shared/reducers/signup.js:107-108 | signedup: the signup error is the payload's on failure and the empty HiddenString otherwise; only that field changes |
| SignupReducer.Reduce | shared/reducers/signup.js:12-116 | resetStore and restartSignup return the initial state whatever the input state; requestAutoInvite returns the state unchanged |
| SignupProperties.ReduceFrame | shared/reducers/signup.js:12-116 | no action changes a field outside its footprint (the footprint table of `SignupReducer.Footprint`) |
| SignupProperties.RunAppend | shared/reducers/signup.js:12 | dispatching two sequences one after the other equals dispatching their concatenation |
| SignupProperties.ResetForgetsHistory | shared/reducers/signup.js:14-16 | after a reset, the state depends only on the actions dispatched after it |
| SignupProperties.InitialErrorsBlank | shared/reducers/signup.js:10 | the initial state has every error blank, so clearing errors gives a state field-for-field equal to it (Dafny value equality; in the source `merge` builds a new record with fresh `HiddenString` objects) |
| SignupProperties.ClearErrorsIdempotent | shared/reducers/signup.js:17-26 | clearing errors twice equals clearing them once |
| SignupProperties.StaleResponseIgnored | shared/reducers/signup.js:31-106 | each of the five response kinds leaves the state unchanged when an echoed value differs from the form's, whatever the response reports |
| SignupProperties.LateUsernameAnswerDropped | shared/reducers/signup.js:39-49 | if a second username is entered before the answer about the first arrives, that late answer changes nothing |
| SignupProperties.UntrimmedDevicenameEchoDropped | shared/reducers/signup.js:98-106 | the stored device name is trimmed, so an answer echoing untrimmed input is dropped |
| SignupProperties.InitialConsistent | shared/reducers/signup.js:10 | the initial state satisfies the reachable-state invariant |
| SignupProperties.ReducePreservesConsistent | shared/reducers/signup.js:12-116 | every action preserves the invariant: the device name is trimmed, and the password error is one of the classifier's four outcomes |
| SignupProperties.RunPreservesConsistent | shared/reducers/signup.js:12-116 | any sequence of actions preserves the invariant |
| SignupProperties.ReachableConsistent | shared/reducers/signup.js:10-116 | every state reachable from the initial state satisfies the invariant |
| SignupProperties.PasswordExamples | shared/reducers/signup.js:81-97 | `""`/`""` gives the blank message, `abcdefgh`/`abcdefgx` the mismatch message, `short`/`short` the length message, and `longenough1` twice no error with that password stored |
| SignupProperties.DevicenameBlankExample | shared/reducers/signup.js:98-102 | the input `"  "` stores `""` together with the empty-name error |
| SignupProperties.StaleUsernameExample | shared/reducers/signup.js:43-49 | an answer about `alice` while the form holds `bob` leaves the state unchanged |

## Left out

- `shared/signup/routes.js`: a fixed table from six screen names to UI
  container components. It holds no logic, and the components are not part
  of this model.
- The bodies of `isValidEmail`, `isValidUsername` and `isValidName`: they are
  not part of this model, so the reducer takes them as a parameter.
- `Constants.makeState` is not part of this model. The initial state's
  defaults are assumed as described above.
- The internals of Immutable.js `Record.merge` and of `HiddenString`. They
  are modelled as a datatype update and a one-field wrapper.
- The `default:` branch with the Flow exhaustiveness guard (lines 112-114).
  `Action` is a closed datatype and `Reduce` matches it exhaustively, so no
  other action type exists.
- The default parameter `state = initialState` of the reducer (line 12): a
  call without a state, such as the store's first dispatch, is modelled by
  passing `InitialState()` explicitly, as `Run` does when it starts from the
  initial state in `ReachableConsistent`.
- `HiddenString` identity: the model compares hidden strings by value. In
  the source every `new HiddenString('')` is a fresh object, so "unchanged"
  and "equal" in the lemmas mean field-for-field equal.
- The saga and network layer that sends the requests these responses
  answer: it is asynchronous I/O outside the reducer. `Run` only stands for
  the store dispatching actions one at a time.
- String length: Dafny characters are Unicode scalar values, but JavaScript's
  `length` counts UTF-16 code units. So a password containing characters
  outside the Basic Multilingual Plane passes the 8-character rule in
  JavaScript with fewer characters than in the model.
- The action's `error` flag only models `true` and absent. An action built
  with `error: false` would make `checkedUsername` store `false` rather than
  `undefined` in `usernameError` and `usernameTaken`.
