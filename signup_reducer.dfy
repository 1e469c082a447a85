/** The signup reducer: one total, pure transition from the current form
    state and an action to the next state. Each action's branch is a
    function of its own; `Reduce` dispatches on the action type. */
module SignupReducer {
  import opened HiddenStrings
  import opened Js
  import opened Text
  import opened SignupState
  import opened SignupActions

  const BlankPasswordMessage := "Fields cannot be blank"
  const PasswordMismatchMessage := "Passwords must match"
  const ShortPasswordMessage := "Password must be at least 8 characters long"
  const EmptyDevicenameMessage := "Device name must not be empty."
  const MinPasswordLength := 8

  // ---------------------------------------------------------------------
  // How a response's error payload becomes a field value. Each function is
  // the typed reading of one JavaScript expression, and its contract says
  // that it agrees with that expression under JavaScript semantics.

  /** `(action.error && error) || ''` */
  function ResponseError(failed: bool, error: Maybe<string>): (r: string)
    ensures Str(r) == Or(And(Flag(failed), OfString(error)), Str(""))
  {
    if failed && error.Defined? then error.value else ""
  }

  /** `action.error && usernameError`, with no fallback */
  function ResponseUsernameError(failed: bool, error: Maybe<string>): (r: Maybe<string>)
    ensures OfString(r) == And(Flag(failed), OfString(error))
  {
    if failed then error else Undefined
  }

  /** `action.error && usernameTaken`, with no fallback */
  function ResponseUsernameTaken(failed: bool, taken: Maybe<bool>): (r: Maybe<bool>)
    ensures OfBool(r) == And(Flag(failed), OfBool(taken))
  {
    if failed then taken else Undefined
  }

  /** `(action.error && error) || new HiddenString('')` */
  function ResponseSecret(failed: bool, error: Maybe<HiddenString>): (r: HiddenString)
    ensures Obj(r) == Or(And(Flag(failed), OfSecret(error)), Obj(EmptySecret))
  {
    if failed && error.Defined? then error.value else EmptySecret
  }

  // ---------------------------------------------------------------------
  // The branches of the reducer.

  /** goBackAndClearErrors: every error field becomes empty (the secret
      ones the empty secret) and every other field keeps its value. */
  function ClearErrors(s: State): (r: State)
    ensures ErrorsBlank(r)
    ensures SameValues(r, s)
  {
    s.(devicenameError := "", emailError := "", inviteCodeError := "",
       nameError := "", passwordError := EmptySecret, signupError := EmptySecret,
       usernameError := Defined(""))
  }

  /** requestedAutoInvite: a failed request clears the invite code, a
      successful one stores the code it obtained. */
  function StoreAutoInvite(s: State, failed: bool, code: string): (r: State)
    ensures failed ==> r.inviteCode == ""
    ensures !failed ==> r.inviteCode == code
    ensures r.(inviteCode := s.inviteCode) == s
  {
    s.(inviteCode := if failed then "" else code)
  }

  /** checkInviteCode: records the candidate code and nothing else (its
      earlier error stays until the check answers). */
  function StoreInviteCode(s: State, code: string): (r: State)
    ensures r.inviteCode == code
    ensures r.(inviteCode := s.inviteCode) == s
  {
    s.(inviteCode := code)
  }

  /** checkedInviteCode: an answer about a code other than the current one
      is dropped; otherwise the error is the payload's on failure and empty
      on success. Nothing but `inviteCodeError` changes. */
  function ApplyInviteCodeCheck(s: State, failed: bool, code: string,
                                message: Maybe<string>): (r: State)
    ensures code != s.inviteCode ==> r == s
    ensures code == s.inviteCode ==>
      r.inviteCodeError == (if failed && message.Defined? then message.value else "")
    ensures r.(inviteCodeError := s.inviteCodeError) == s
  {
    if code == s.inviteCode then s.(inviteCodeError := ResponseError(failed, message))
    else s
  }

  /** checkEmail: stores the email and the validator's verdict on it. */
  function StoreEmail(v: Validators, s: State, email: string): (r: State)
    ensures r.email == email && r.emailError == v.isValidEmail(email)
    ensures r.(email := s.email, emailError := s.emailError) == s
  {
    s.(email := email, emailError := v.isValidEmail(email))
  }

  /** checkUsername: stores the username and the validator's verdict on it. */
  function StoreUsername(v: Validators, s: State, username: string): (r: State)
    ensures r.username == username && r.usernameError == Defined(v.isValidUsername(username))
    ensures r.(username := s.username, usernameError := s.usernameError) == s
  {
    s.(username := username, usernameError := Defined(v.isValidUsername(username)))
  }

  /** checkedUsername: an answer about another username is dropped.
      Otherwise, on failure the payload's `usernameError` and
      `usernameTaken` are stored as they are; on success both fields are set
      to the absent `error` flag itself, that is to `undefined`, not to
      `''` and `false`. */
  function ApplyUsernameCheck(s: State, failed: bool, username: string,
                              usernameError: Maybe<string>,
                              usernameTaken: Maybe<bool>): (r: State)
    ensures username != s.username ==> r == s
    ensures username == s.username && failed ==>
      r.usernameError == usernameError && r.usernameTaken == usernameTaken
    ensures username == s.username && !failed ==>
      r.usernameError == Undefined && r.usernameTaken == Undefined
    ensures r.(usernameError := s.usernameError, usernameTaken := s.usernameTaken) == s
  {
    if username == s.username then
      s.(usernameError := ResponseUsernameError(failed, usernameError),
         usernameTaken := ResponseUsernameTaken(failed, usernameTaken))
    else
      s
  }

  /** checkUsernameEmail: stores both values, each with its own verdict. */
  function StoreUsernameEmail(v: Validators, s: State, email: string,
                              username: string): (r: State)
    ensures r.email == email && r.emailError == v.isValidEmail(email)
    ensures r.username == username && r.usernameError == Defined(v.isValidUsername(username))
    ensures r.(email := s.email, emailError := s.emailError,
               username := s.username, usernameError := s.usernameError) == s
  {
    s.(email := email, emailError := v.isValidEmail(email),
       username := username, usernameError := Defined(v.isValidUsername(username)))
  }

  /** checkedUsernameEmail: applies only when both echoed values are still
      current; then each error is the payload's on failure and empty
      otherwise. */
  function ApplyUsernameEmailCheck(s: State, failed: bool, email: string,
                                   username: string, emailError: Maybe<string>,
                                   usernameError: Maybe<string>): (r: State)
    ensures email != s.email || username != s.username ==> r == s
    ensures email == s.email && username == s.username ==>
      && r.emailError == (if failed && emailError.Defined? then emailError.value else "")
      && r.usernameError ==
           Defined(if failed && usernameError.Defined? then usernameError.value else "")
    ensures r.(emailError := s.emailError, usernameError := s.usernameError) == s
  {
    if email == s.email && username == s.username then
      s.(emailError := ResponseError(failed, emailError),
         usernameError := Defined(ResponseError(failed, usernameError)))
    else
      s
  }

  /** requestInvite: stores email and name, each with its own verdict. */
  function StoreInviteRequest(v: Validators, s: State, email: string,
                              name: string): (r: State)
    ensures r.email == email && r.emailError == v.isValidEmail(email)
    ensures r.name == name && r.nameError == v.isValidName(name)
    ensures r.(email := s.email, emailError := s.emailError,
               name := s.name, nameError := s.nameError) == s
  {
    s.(email := email, emailError := v.isValidEmail(email),
       name := name, nameError := v.isValidName(name))
  }

  /** requestedInvite: applies only when both echoed email and name are
      still current; then each error is the payload's on failure and empty
      otherwise. */
  function ApplyInviteRequestResult(s: State, failed: bool, email: string,
                                    name: string, emailError: Maybe<string>,
                                    nameError: Maybe<string>): (r: State)
    ensures email != s.email || name != s.name ==> r == s
    ensures email == s.email && name == s.name ==>
      && r.emailError == (if failed && emailError.Defined? then emailError.value else "")
      && r.nameError == (if failed && nameError.Defined? then nameError.value else "")
    ensures r.(emailError := s.emailError, nameError := s.nameError) == s
  {
    if email == s.email && name == s.name then
      s.(emailError := ResponseError(failed, emailError),
         nameError := ResponseError(failed, nameError))
    else
      s
  }

  /** The password rules, tried in order: a blank entry, then a mismatch,
      then a short password; the first that applies gives the message, and
      a password that passes all three gets the empty message. */
  function ClassifyPassword(p1: string, p2: string): (e: string)
    ensures e == BlankPasswordMessage <==> p1 == "" || p2 == ""
    ensures e == PasswordMismatchMessage <==> p1 != "" && p2 != "" && p1 != p2
    ensures e == ShortPasswordMessage <==> p1 != "" && p1 == p2 && |p1| < MinPasswordLength
    ensures e == "" <==> p1 != "" && p1 == p2 && |p1| >= MinPasswordLength
  {
    if p1 == "" || p2 == "" then BlankPasswordMessage
    else if p1 != p2 then PasswordMismatchMessage
    else if |p1| < MinPasswordLength then ShortPasswordMessage
    else ""
  }

  /** checkPassword: the first entry becomes the password whatever the
      verdict, and the verdict becomes the (secret) password error. */
  function StorePassword(s: State, pass1: HiddenString, pass2: HiddenString): (r: State)
    ensures r.password == pass1
    ensures r.passwordError.stringValue == ClassifyPassword(pass1.stringValue, pass2.stringValue)
    ensures r.(password := s.password, passwordError := s.passwordError) == s
  {
    s.(password := pass1,
       passwordError := HiddenString(ClassifyPassword(pass1.stringValue, pass2.stringValue)))
  }

  /** checkDevicename: the name is stored trimmed; it is rejected exactly
      when the input is nothing but white space. */
  function StoreDevicename(s: State, raw: string): (r: State)
    ensures r.devicename == Trim(raw) && Trimmed(r.devicename)
    ensures r.devicenameError == EmptyDevicenameMessage <==> AllSpace(raw)
    ensures r.devicenameError == "" <==> !AllSpace(raw)
    ensures r.devicenameError == EmptyDevicenameMessage <==> r.devicename == ""
    ensures r.(devicename := s.devicename, devicenameError := s.devicenameError) == s
  {
    var devicename := Trim(raw);
    s.(devicename := devicename,
       devicenameError := if |devicename| == 0 then EmptyDevicenameMessage else "")
  }

  /** checkedDevicename: an answer about another name is dropped; otherwise
      the error is the payload's on failure and empty on success. */
  function ApplyDevicenameCheck(s: State, failed: bool, devicename: string,
                                message: Maybe<string>): (r: State)
    ensures devicename != s.devicename ==> r == s
    ensures devicename == s.devicename ==>
      r.devicenameError == (if failed && message.Defined? then message.value else "")
    ensures r.(devicenameError := s.devicenameError) == s
  {
    if devicename == s.devicename then
      s.(devicenameError := ResponseError(failed, message))
    else
      s
  }

  /** signedup: the signup error is the payload's on failure and the empty
      secret otherwise. */
  function ApplySignupResult(s: State, failed: bool, error: Maybe<HiddenString>): (r: State)
    ensures r.signupError == (if failed && error.Defined? then error.value else EmptySecret)
    ensures r.(signupError := s.signupError) == s
  {
    s.(signupError := ResponseSecret(failed, error))
  }

  // ---------------------------------------------------------------------

  /** The fields an action may change. */
  function Footprint(a: Action): set<Field> {
    match a
    case ResetStore => AllFields
    case RestartSignup => AllFields
    case GoBackAndClearErrors =>
      {EmailError, UsernameError, NameError, InviteCodeError, DevicenameError,
       PasswordError, SignupError}
    case RequestedAutoInvite(_, _) => {InviteCode}
    case CheckInviteCode(_) => {InviteCode}
    case CheckedInviteCode(_, _, _) => {InviteCodeError}
    case CheckEmail(_) => {Email, EmailError}
    case CheckUsername(_) => {Username, UsernameError}
    case CheckedUsername(_, _, _, _) => {UsernameError, UsernameTaken}
    case CheckUsernameEmail(_, _) => {Email, EmailError, Username, UsernameError}
    case CheckedUsernameEmail(_, _, _, _, _) => {EmailError, UsernameError}
    case RequestInvite(_, _) => {Email, EmailError, Name, NameError}
    case RequestedInvite(_, _, _, _, _) => {EmailError, NameError}
    case CheckPassword(_, _) => {Password, PasswordError}
    case CheckDevicename(_) => {Devicename, DevicenameError}
    case CheckedDevicename(_, _, _) => {DevicenameError}
    case Signedup(_, _) => {SignupError}
    case RequestAutoInvite => {}
  }

  /** The reducer. Both resets return the initial state whatever the
      current one, and the only action that leaves the saga to do its work
      changes nothing. */
  function Reduce(v: Validators, s: State, a: Action): (r: State)
    ensures a.ResetStore? || a.RestartSignup? ==> r == InitialState()
    ensures a.RequestAutoInvite? ==> r == s
  {
    match a
    case ResetStore => InitialState()
    case RestartSignup => InitialState()
    case GoBackAndClearErrors => ClearErrors(s)
    case RequestedAutoInvite(failed, code) => StoreAutoInvite(s, failed, code)
    case CheckInviteCode(code) => StoreInviteCode(s, code)
    case CheckedInviteCode(failed, code, message) =>
      ApplyInviteCodeCheck(s, failed, code, message)
    case CheckEmail(email) => StoreEmail(v, s, email)
    case CheckUsername(username) => StoreUsername(v, s, username)
    case CheckedUsername(failed, username, usernameError, usernameTaken) =>
      ApplyUsernameCheck(s, failed, username, usernameError, usernameTaken)
    case CheckUsernameEmail(email, username) => StoreUsernameEmail(v, s, email, username)
    case CheckedUsernameEmail(failed, email, username, emailError, usernameError) =>
      ApplyUsernameEmailCheck(s, failed, email, username, emailError, usernameError)
    case RequestInvite(email, name) => StoreInviteRequest(v, s, email, name)
    case RequestedInvite(failed, email, name, emailError, nameError) =>
      ApplyInviteRequestResult(s, failed, email, name, emailError, nameError)
    case CheckPassword(pass1, pass2) => StorePassword(s, pass1, pass2)
    case CheckDevicename(devicename) => StoreDevicename(s, devicename)
    case CheckedDevicename(failed, devicename, message) =>
      ApplyDevicenameCheck(s, failed, devicename, message)
    case Signedup(failed, error) => ApplySignupResult(s, failed, error)
    case RequestAutoInvite => s
  }
}
