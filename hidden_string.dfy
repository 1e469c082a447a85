/** The opaque wrapper the client puts around secret-bearing strings
    (passwords and the signup error), so that they are not logged or
    serialised by accident. Only `stringValue` unwraps it. */
module HiddenStrings {

  datatype HiddenString = HiddenString(stringValue: string)

  /** `new HiddenString('')`: the explicit empty secret. */
  const EmptySecret: HiddenString := HiddenString("")
}
