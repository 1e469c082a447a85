/** The signup actions (`SignupGen.Actions`), one constructor per action
    type. A response action carries `error` (true on a failure response,
    false when the action has no `error` property) and its payload; the
    payload's error fields are optional, so they are `Maybe`. */
module SignupActions {
  import opened HiddenStrings
  import opened Js

  datatype Action =
    | ResetStore
    | RestartSignup
    | GoBackAndClearErrors
    | RequestedAutoInvite(error: bool, inviteCode: string)
    | CheckInviteCode(inviteCode: string)
    | CheckedInviteCode(error: bool, inviteCode: string, message: Maybe<string>)
    | CheckEmail(email: string)
    | CheckUsername(username: string)
    | CheckedUsername(error: bool, username: string,
                      usernameError: Maybe<string>, usernameTaken: Maybe<bool>)
    | CheckUsernameEmail(email: string, username: string)
    | CheckedUsernameEmail(error: bool, email: string, username: string,
                           emailError: Maybe<string>, usernameError: Maybe<string>)
    | RequestInvite(email: string, name: string)
    | RequestedInvite(error: bool, email: string, name: string,
                      emailError: Maybe<string>, nameError: Maybe<string>)
    | CheckPassword(pass1: HiddenString, pass2: HiddenString)
    | CheckDevicename(devicename: string)
    | CheckedDevicename(error: bool, devicename: string, message: Maybe<string>)
    | Signedup(error: bool, signupError: Maybe<HiddenString>)
    | RequestAutoInvite

  /** The synchronous validators of `util/simple-validators`: each returns
      an error message for its input (empty when the input is acceptable).
      Their definitions are not part of this model, so the reducer takes
      them as a parameter. */
  datatype Validators = Validators(
    isValidEmail: string -> string,
    isValidUsername: string -> string,
    isValidName: string -> string)
}
