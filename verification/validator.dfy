/** The backend `Validator`: identifier shape and password policy checks, each either
    returning `true` or throwing a `ValidationException` with a fixed message. */
module Validator {
  import opened Base

  /** A thrown `ValidationException` and its message. */
  datatype ValidationException = ValidationException(message: string)

  const PasswordTooShort: string := "Password must be at least 8 characters long"
  const PasswordWithoutDigit: string := "Password must contain at least one number"
  const MinPasswordLength: nat := 8

  /** `validateId`: `isValid` is the identifier library's `ObjectId.isValid`. */
  function ValidateId(id: string, msg: string, isValid: string -> bool): (r: Result<bool, ValidationException>)
    ensures r.Err? <==> !isValid(id)
    ensures r.Err? ==> r.error == ValidationException(msg)
    ensures r.Ok? ==> r.value
  {
    if !isValid(id) then Err(ValidationException(msg)) else Ok(true)
  }

  predicate IsDigit(c: char) {
    '0' <= c <= '9'
  }

  /** `password.match(/[0-9]/g)` finds something. */
  function HasDigit(s: string): (b: bool)
    ensures b <==> exists i :: 0 <= i < |s| && IsDigit(s[i])
    decreases |s|
  {
    if |s| == 0 then false
    else if IsDigit(s[0]) then true
    else
      assert forall i :: 1 <= i < |s| ==> s[i] == s[1..][i - 1];
      HasDigit(s[1..])
  }

  /** The password policy as a plain statement: eight characters or more, one of them a digit. */
  ghost predicate AcceptablePassword(p: string) {
    |p| >= MinPasswordLength && exists i :: 0 <= i < |p| && IsDigit(p[i])
  }

  /** `validatePassword`; `None` is an `undefined` password. Length is checked before digits. */
  function ValidatePassword(password: Option<string>): (r: Result<bool, ValidationException>)
    ensures r.Ok? <==> password.Some? && AcceptablePassword(password.value)
    ensures r.Ok? ==> r.value
    ensures (password.None? || |password.value| < MinPasswordLength) ==>
              r == Err(ValidationException(PasswordTooShort))
    ensures password.Some? && |password.value| >= MinPasswordLength && !AcceptablePassword(password.value) ==>
              r == Err(ValidationException(PasswordWithoutDigit))
  {
    match password
    case None => Err(ValidationException(PasswordTooShort))
    case Some(p) =>
      if |p| < MinPasswordLength then Err(ValidationException(PasswordTooShort))
      else if !HasDigit(p) then Err(ValidationException(PasswordWithoutDigit))
      else Ok(true)
  }
}
