/** The signup-form record (`Types.State`, built by `Constants.makeState`).
    Immutable.js `state.merge({...})` becomes the datatype update
    `s.(field := value, ...)`. */
module SignupState {
  import opened HiddenStrings
  import opened Js

  /** `usernameError` and `usernameTaken` are `Maybe` because the
      `checkedUsername` branch can store `undefined` in them. */
  datatype State = State(
    email: string,
    emailError: string,
    username: string,
    usernameError: Maybe<string>,
    usernameTaken: Maybe<bool>,
    name: string,
    nameError: string,
    inviteCode: string,
    inviteCodeError: string,
    devicename: string,
    devicenameError: string,
    password: HiddenString,
    passwordError: HiddenString,
    signupError: HiddenString)

  /** `initialState`: every text field empty, nothing taken, every secret
      the empty secret. These defaults are assumed: the record's factory
      `Constants.makeState` is not part of this model. */
  function InitialState(): (r: State)
    ensures ErrorsBlank(r)
    ensures r.email == "" && r.username == "" && r.name == ""
    ensures r.inviteCode == "" && r.devicename == ""
    ensures r.usernameTaken == Defined(false) && r.password == EmptySecret
  {
    State("", "", "", Defined(""), Defined(false), "", "", "", "", "", "",
          EmptySecret, EmptySecret, EmptySecret)
  }

  /** Every error field holds its empty value. */
  predicate ErrorsBlank(s: State) {
    && s.emailError == ""
    && s.usernameError == Defined("")
    && s.nameError == ""
    && s.inviteCodeError == ""
    && s.devicenameError == ""
    && s.passwordError == EmptySecret
    && s.signupError == EmptySecret
  }

  /** The two states agree on every field that is not an error field. */
  predicate SameValues(s: State, t: State) {
    && s.email == t.email
    && s.username == t.username
    && s.usernameTaken == t.usernameTaken
    && s.name == t.name
    && s.inviteCode == t.inviteCode
    && s.devicename == t.devicename
    && s.password == t.password
  }

  /** The names of the record's fields, so that an action's footprint can
      be stated as a set. */
  datatype Field =
    | Email | EmailError | Username | UsernameError | UsernameTaken
    | Name | NameError | InviteCode | InviteCodeError
    | Devicename | DevicenameError | Password | PasswordError | SignupError

  datatype FieldValue =
    | Plain(plain: string)
    | MaybeText(maybeText: Maybe<string>)
    | MaybeFlag(maybeFlag: Maybe<bool>)
    | Secret(secret: HiddenString)

  /** `state.get(f)` */
  function Get(s: State, f: Field): FieldValue {
    match f
    case Email => Plain(s.email)
    case EmailError => Plain(s.emailError)
    case Username => Plain(s.username)
    case UsernameError => MaybeText(s.usernameError)
    case UsernameTaken => MaybeFlag(s.usernameTaken)
    case Name => Plain(s.name)
    case NameError => Plain(s.nameError)
    case InviteCode => Plain(s.inviteCode)
    case InviteCodeError => Plain(s.inviteCodeError)
    case Devicename => Plain(s.devicename)
    case DevicenameError => Plain(s.devicenameError)
    case Password => Secret(s.password)
    case PasswordError => Secret(s.passwordError)
    case SignupError => Secret(s.signupError)
  }

  const AllFields: set<Field> :=
    {Email, EmailError, Username, UsernameError, UsernameTaken, Name, NameError,
     InviteCode, InviteCodeError, Devicename, DevicenameError, Password,
     PasswordError, SignupError}
}
