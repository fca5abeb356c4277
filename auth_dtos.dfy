/**
 * The request and response records of the auth endpoints and their
 * declarative validation rules ([Required], [EmailAddress], [MinLength],
 * [StringLength]). An Email or Password absent from the JSON body keeps its
 * initial value "" (`Some("")`); only an explicit JSON null is `None`. An absent
 * or null DisplayName is `None`.
 * `isEmail` stands for the framework's e-mail address check on a non-null string.
 */
module AuthDtos {
  import opened Wrappers
  import opened Text
  import opened Security

  datatype LoginRequest = LoginRequest(email: Option<string>, password: Option<string>)

  datatype RegisterRequest = RegisterRequest(email: Option<string>, password: Option<string>, displayName: Option<string>)

  /** A successful answer: the token, the email and the optional display name. */
  datatype AuthResponse = AuthResponse(token: Token, email: Option<string>, displayName: Option<string>)

  /** One failed validation rule. */
  datatype FieldError = EmailRequired | EmailNotAnAddress | PasswordRequired | PasswordTooShort | DisplayNameTooLong

  const MinPasswordLength := 8
  const MaxDisplayNameLength := 64

  /** [Required] rejects null, empty and all-white-space strings; [EmailAddress] accepts null. */
  function EmailErrors(email: Option<string>, isEmail: string -> bool): seq<FieldError>
  {
    (if IsNullOrWhiteSpace(email) then [EmailRequired] else [])
    + (if email.Some? && !isEmail(email.value) then [EmailNotAnAddress] else [])
  }

  /** [Required, MinLength(8)]; [MinLength] accepts null. */
  function PasswordErrors(password: Option<string>): seq<FieldError>
  {
    (if IsNullOrWhiteSpace(password) then [PasswordRequired] else [])
    + (if password.Some? && |password.value| < MinPasswordLength then [PasswordTooShort] else [])
  }

  /** [StringLength(64)]: null is allowed. */
  function DisplayNameErrors(displayName: Option<string>): seq<FieldError>
  {
    if displayName.Some? && |displayName.value| > MaxDisplayNameLength then [DisplayNameTooLong] else []
  }

  function LoginErrors(req: LoginRequest, isEmail: string -> bool): seq<FieldError>
  {
    EmailErrors(req.email, isEmail) + PasswordErrors(req.password)
  }

  function RegisterErrors(req: RegisterRequest, isEmail: string -> bool): seq<FieldError>
  {
    EmailErrors(req.email, isEmail) + PasswordErrors(req.password) + DisplayNameErrors(req.displayName)
  }

  predicate AcceptableEmail(email: Option<string>, isEmail: string -> bool) {
    !IsNullOrWhiteSpace(email) && isEmail(email.value)
  }

  predicate AcceptablePassword(password: Option<string>) {
    !IsNullOrWhiteSpace(password) && |password.value| >= MinPasswordLength
  }

  /** A login request is valid exactly when the email is present, not blank and an address,
      and the password is present, not blank and at least 8 characters long. */
  lemma LoginValidation(req: LoginRequest, isEmail: string -> bool)
    ensures LoginErrors(req, isEmail) == []
            <==> AcceptableEmail(req.email, isEmail) && AcceptablePassword(req.password)
  {
  }

  /** Registration applies the same email and password rules, and a display name of at most 64 characters. */
  lemma RegisterValidation(req: RegisterRequest, isEmail: string -> bool)
    ensures RegisterErrors(req, isEmail) == []
            <==> && AcceptableEmail(req.email, isEmail)
                 && AcceptablePassword(req.password)
                 && (req.displayName.None? || |req.displayName.value| <= MaxDisplayNameLength)
  {
  }

  /** A non-blank password shorter than 8 characters is reported as too short. */
  lemma ShortPasswordRejected(req: LoginRequest, isEmail: string -> bool)
    requires req.password.Some? && |req.password.value| < MinPasswordLength
    ensures PasswordTooShort in LoginErrors(req, isEmail)
  {
    assert PasswordErrors(req.password)[|PasswordErrors(req.password)| - 1] == PasswordTooShort;
  }
}
