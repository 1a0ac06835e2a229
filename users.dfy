/** The user record the authentication handlers read and write, the
    responses they send, and each handler's effect on one record once the
    record has been looked up. A step says what the handler answers and which
    record, if any, it saves. */
module Users {
  import opened Outcomes
  import opened OtpCode

  datatype User = User(
    name: string,
    email: string,
    password: string,           // the stored hash
    isVerified: bool,
    verifyOtp: string,
    verifyOtpExpireAt: int,     // milliseconds since the epoch, 0 when cleared
    resetOtp: string,
    resetOtpExpireAt: int)

  /** Lifetime of an email-verification code: 24 hours in milliseconds. */
  const VerifyOtpTtl: int := 24 * 60 * 60 * 1000
  /** Lifetime of a password-reset code: 15 minutes in milliseconds. */
  const ResetOtpTtl: int := 15 * 60 * 1000

  /** A freshly registered user: the schema defaults are "", 0 and false. */
  function NewUser(name: string, email: string, passwordHash: string): (u: User)
    ensures u.name == name && u.email == email && u.password == passwordHash
    ensures !u.isVerified
    ensures u.verifyOtp == "" && u.verifyOtpExpireAt == 0
    ensures u.resetOtp == "" && u.resetOtpExpireAt == 0
  {
    User(name, email, passwordHash, false, "", 0, "", 0)
  }

  const AllFieldsRequired := Response(400, false, "All fields are required")
  const UserExists := Response(400, false, "User already exist")
  const Registered := Response(201, true, "User registered successfully")
  const InvalidCredentials := Response(400, false, "Invalid email or password")
  const LoggedIn := Response(200, true, "Logged in successfully")
  const UserNotFound := Response(404, false, "User not found")
  const AlreadyVerified := Response(400, false, "User is already verified")
  const OtpSent := Response(200, true, "Verification OTP sent to your email")
  const OtpRequired := Response(400, false, "OTP is required")
  const InvalidOtp := Response(400, false, "Invalid OTP")
  const OtpExpired := Response(400, false, "OTP has expired")
  const EmailVerified := Response(200, true, "Email verified successfully")
  const EmailRequired := Response(400, false, "Email is required")
  const OtpVerified := Response(200, true, "OTP verified successfully")
  const PasswordWasReset := Response(200, true, "Password reset successfully")

  /** The catch-all answer to an exception, passing its message through. */
  function ServerError(message: string): Response {
    Response(500, false, message)
  }

  /** The answer after the record is saved and the mail is handed over: the
      success answer if the mail went out, otherwise a 500 whose message is
      `prefix` followed by the transport's error message. */
  function AfterMail(mail: Delivery, ok: Response, prefix: string): Response {
    match mail
    case Delivered => ok
    case MailFailed(m) => ServerError(prefix + m)
  }

  /** A handler's answer and the record it saves (None: nothing is saved). */
  datatype Step = Step(response: Response, saved: Option<User>)

  /** `user` with a freshly issued verification code. */
  function WithVerifyOtp(u: User, draw: int, now: int): User
    requires MinCode <= draw <= MaxCode
  {
    u.(verifyOtp := IssueCode(draw), verifyOtpExpireAt := now + VerifyOtpTtl)
  }

  /** `user` with a freshly issued reset code. */
  function WithResetOtp(u: User, draw: int, now: int): User
    requires MinCode <= draw <= MaxCode
  {
    u.(resetOtp := IssueCode(draw), resetOtpExpireAt := now + ResetOtpTtl)
  }

  /** True when a submitted code matches the stored one and the stored
      expiry has not passed: expiry is checked with `<`, so a code is still
      good at the very millisecond it expires. */
  predicate Accepts(stored: string, expireAt: int, submitted: string, now: int) {
    stored == submitted && !(expireAt < now)
  }

  // ---------------------------------------------------------------------
  // sendVerifyOtp

  /** The record is found by the session's user id. A verified user gets 400
      and nothing is saved; otherwise a new code is written and saved before
      the mail is sent, so a mail failure (500) still leaves it stored. */
  function SendVerifyOtpStep(user: Option<User>, draw: int, now: int, mail: Delivery): (r: Step)
    requires MinCode <= draw <= MaxCode
    ensures user.None? ==> r == Step(UserNotFound, None)
    ensures user.Some? && user.value.isVerified ==> r == Step(AlreadyVerified, None)
    ensures r.saved.Some? <==> user.Some? && !user.value.isVerified
    ensures r.saved.Some? ==>
              var s := r.saved.value;
              && |s.verifyOtp| == 6 && AllDigits(s.verifyOtp) && ParseDecimal(s.verifyOtp) == draw
              && s.verifyOtpExpireAt == now + VerifyOtpTtl
              && s == user.value.(verifyOtp := s.verifyOtp, verifyOtpExpireAt := s.verifyOtpExpireAt)
    ensures r.response.success <==> r.saved.Some? && mail.Delivered?
    ensures r.saved.Some? && mail.MailFailed? ==> r.response.status == 500
  {
    match user
    case None => Step(UserNotFound, None)
    case Some(u) =>
      if u.isVerified then Step(AlreadyVerified, None)
      else Step(AfterMail(mail, OtpSent, "message1"), Some(WithVerifyOtp(u, draw, now)))
  }

  // ---------------------------------------------------------------------
  // verifyEmail

  /** An empty code is refused before the lookup. Then the code is compared,
      then the expiry; only when both pass is anything saved, and then the
      user is verified and the code is cleared. */
  function VerifyEmailStep(otp: string, user: Option<User>, now: int): (r: Step)
    ensures otp == "" ==> r == Step(OtpRequired, None)
    ensures otp != "" && user.None? ==> r == Step(UserNotFound, None)
    ensures otp != "" && user.Some? && user.value.verifyOtp != otp ==> r == Step(InvalidOtp, None)
    ensures r.response.success <==>
              otp != "" && user.Some? && Accepts(user.value.verifyOtp, user.value.verifyOtpExpireAt, otp, now)
    ensures r.saved.Some? <==> r.response.success
    ensures r.response.success ==>
              r.saved == Some(user.value.(isVerified := true, verifyOtp := "", verifyOtpExpireAt := 0))
    ensures !r.response.success ==> r.response.status in {400, 404}
  {
    if otp == "" then Step(OtpRequired, None)
    else match user
      case None => Step(UserNotFound, None)
      case Some(u) =>
        if u.verifyOtp != otp then Step(InvalidOtp, None)
        else if u.verifyOtpExpireAt < now then Step(OtpExpired, None)
        else Step(EmailVerified, Some(u.(isVerified := true, verifyOtp := "", verifyOtpExpireAt := 0)))
  }

  // ---------------------------------------------------------------------
  // sendResetPasswordOtp

  /** The record is found by email. A new reset code is written and saved
      before the mail is sent. Unlike sendVerifyOtp, a verified user may
      request one, and a mail failure's message has no prefix. */
  function SendResetOtpStep(email: string, user: Option<User>, draw: int, now: int, mail: Delivery): (r: Step)
    requires MinCode <= draw <= MaxCode
    ensures email == "" ==> r == Step(EmailRequired, None)
    ensures email != "" && user.None? ==> r == Step(UserNotFound, None)
    ensures r.saved.Some? <==> email != "" && user.Some?
    ensures r.saved.Some? ==>
              var s := r.saved.value;
              && |s.resetOtp| == 6 && AllDigits(s.resetOtp) && ParseDecimal(s.resetOtp) == draw
              && s.resetOtpExpireAt == now + ResetOtpTtl
              && s == user.value.(resetOtp := s.resetOtp, resetOtpExpireAt := s.resetOtpExpireAt)
    ensures r.response.success <==> r.saved.Some? && mail.Delivered?
    ensures r.saved.Some? && mail.MailFailed? ==> r.response == ServerError(mail.errorMessage)
  {
    if email == "" then Step(EmailRequired, None)
    else match user
      case None => Step(UserNotFound, None)
      case Some(u) => Step(AfterMail(mail, OtpSent, ""), Some(WithResetOtp(u, draw, now)))
  }

  // ---------------------------------------------------------------------
  // verifyResetOtp

  /** The same checks as resetPassword, in the same order, with no save at
      all: the result type has no room for one. */
  function VerifyResetOtpStep(email: string, otp: string, user: Option<User>, now: int): (r: Response)
    ensures email == "" || otp == "" ==> r == AllFieldsRequired
    ensures email != "" && otp != "" && user.None? ==> r == UserNotFound
    ensures email != "" && otp != "" && user.Some? && user.value.resetOtp != otp ==> r == InvalidOtp
    ensures r.success <==>
              email != "" && otp != "" && user.Some? &&
              Accepts(user.value.resetOtp, user.value.resetOtpExpireAt, otp, now)
  {
    if email == "" || otp == "" then AllFieldsRequired
    else match user
      case None => UserNotFound
      case Some(u) =>
        if u.resetOtp != otp then InvalidOtp
        else if u.resetOtpExpireAt < now then OtpExpired
        else OtpVerified
  }

  // ---------------------------------------------------------------------
  // resetPassword

  /** Re-checks code then expiry; on success stores the hash of the new
      password and clears the reset code; on failure saves nothing. */
  function ResetPasswordStep(email: string, otp: string, newPassword: string, user: Option<User>,
                             now: int, hash: string -> string): (r: Step)
    ensures email == "" || otp == "" || newPassword == "" ==> r == Step(AllFieldsRequired, None)
    ensures email != "" && otp != "" && newPassword != "" && user.None? ==> r == Step(UserNotFound, None)
    ensures email != "" && otp != "" && newPassword != "" && user.Some? && user.value.resetOtp != otp ==>
              r == Step(InvalidOtp, None)
    ensures r.response.success <==>
              email != "" && otp != "" && newPassword != "" && user.Some? &&
              Accepts(user.value.resetOtp, user.value.resetOtpExpireAt, otp, now)
    ensures r.saved.Some? <==> r.response.success
    ensures r.response.success ==>
              r.saved == Some(user.value.(password := hash(newPassword), resetOtp := "", resetOtpExpireAt := 0))
  {
    if email == "" || otp == "" || newPassword == "" then Step(AllFieldsRequired, None)
    else match user
      case None => Step(UserNotFound, None)
      case Some(u) =>
        if u.resetOtp != otp then Step(InvalidOtp, None)
        else if u.resetOtpExpireAt < now then Step(OtpExpired, None)
        else Step(PasswordWasReset, Some(u.(password := hash(newPassword), resetOtp := "", resetOtpExpireAt := 0)))
  }

  // ---------------------------------------------------------------------
  // login

  /** Succeeds exactly when both fields are present, the user exists and the
      password's hash is the stored one. An unknown email and a wrong
      password get the very same answer. */
  function LoginStep(email: string, password: string, user: Option<User>, hash: string -> string): (r: Response)
    ensures email == "" || password == "" ==> r == AllFieldsRequired
    ensures r.success <==> email != "" && password != "" && user.Some? && hash(password) == user.value.password
    ensures email != "" && password != "" && !r.success ==> r == InvalidCredentials
  {
    if email == "" || password == "" then AllFieldsRequired
    else match user
      case None => InvalidCredentials
      case Some(u) => if hash(password) != u.password then InvalidCredentials else LoggedIn
  }

  // =====================================================================
  // Properties of the lifecycle

  /** Verifying a code is single use: right after a success, the same code
      is refused as invalid at any later time, and nothing is saved. */
  lemma VerifyEmailSingleUse(otp: string, u: User, now: int, later: int)
    requires VerifyEmailStep(otp, Some(u), now).response.success
    ensures var first := VerifyEmailStep(otp, Some(u), now);
            VerifyEmailStep(otp, first.saved, later) == Step(InvalidOtp, None)
  {
  }

  /** The code is compared before the expiry: a wrong code is "Invalid OTP"
      whether or not the stored code has expired. */
  lemma VerifyEmailCodeBeforeExpiry(otp: string, u: User, now: int)
    requires otp != "" && otp != u.verifyOtp && u.verifyOtpExpireAt < now
    ensures VerifyEmailStep(otp, Some(u), now).response == InvalidOtp
    ensures VerifyResetOtpStep(u.email, otp, Some(u.(resetOtp := u.verifyOtp, resetOtpExpireAt := u.verifyOtpExpireAt)), now) ==
            (if u.email == "" then AllFieldsRequired else InvalidOtp)
  {
  }

  /** Expiry is not strict: the stored code is accepted at exactly its
      expiry time and refused as expired one millisecond later. */
  lemma ExpiryIsInclusive(u: User)
    requires u.verifyOtp != "" && u.resetOtp != "" && u.email != ""
    ensures VerifyEmailStep(u.verifyOtp, Some(u), u.verifyOtpExpireAt).response.success
    ensures VerifyEmailStep(u.verifyOtp, Some(u), u.verifyOtpExpireAt + 1) == Step(OtpExpired, None)
    ensures VerifyResetOtpStep(u.email, u.resetOtp, Some(u), u.resetOtpExpireAt).success
    ensures VerifyResetOtpStep(u.email, u.resetOtp, Some(u), u.resetOtpExpireAt + 1) == OtpExpired
  {
  }

  /** No handler ever saves a record with `isVerified` false for a user who
      was verified. */
  lemma IsVerifiedMonotonic(u: User, email: string, otp: string, newPassword: string,
                            draw: int, now: int, mail: Delivery, hash: string -> string)
    requires MinCode <= draw <= MaxCode
    ensures var s := SendVerifyOtpStep(Some(u), draw, now, mail).saved;
            s.Some? ==> s.value.isVerified == u.isVerified
    ensures var s := VerifyEmailStep(otp, Some(u), now).saved;
            s.Some? ==> s.value.isVerified
    ensures var s := SendResetOtpStep(email, Some(u), draw, now, mail).saved;
            s.Some? ==> s.value.isVerified == u.isVerified
    ensures var s := ResetPasswordStep(email, otp, newPassword, Some(u), now, hash).saved;
            s.Some? ==> s.value.isVerified == u.isVerified
  {
  }

  /** The code just issued verifies the user up to and including its
      expiry, whether or not its mail went out, and is refused after it. */
  lemma IssueThenVerify(u: User, draw: int, now: int, mail: Delivery, at: int)
    requires MinCode <= draw <= MaxCode && !u.isVerified
    ensures var issued := SendVerifyOtpStep(Some(u), draw, now, mail).saved;
            var r := VerifyEmailStep(IssueCode(draw), issued, at);
            && (at <= now + VerifyOtpTtl ==>
                  r.response == EmailVerified && r.saved.value.isVerified && r.saved.value.verifyOtp == "")
            && (at > now + VerifyOtpTtl ==> r == Step(OtpExpired, None))
  {
  }

  /** Reissuing a verification code invalidates the earlier one: unless the
      two draws coincide, the earlier code is now "Invalid OTP". */
  lemma ReissueInvalidatesVerifyOtp(u: User, first: int, second: int, now: int, later: int,
                                    mail1: Delivery, mail2: Delivery, at: int)
    requires MinCode <= first <= MaxCode && MinCode <= second <= MaxCode && first != second
    requires !u.isVerified
    ensures var once := SendVerifyOtpStep(Some(u), first, now, mail1).saved;
            var twice := SendVerifyOtpStep(once, second, later, mail2).saved;
            VerifyEmailStep(IssueCode(first), twice, at) == Step(InvalidOtp, None)
  {
    IssueCodeInjective(first, second);
  }

  /** The same for reset codes. */
  lemma ReissueInvalidatesResetOtp(u: User, first: int, second: int, now: int, later: int,
                                   mail1: Delivery, mail2: Delivery, newPassword: string,
                                   at: int, hash: string -> string)
    requires MinCode <= first <= MaxCode && MinCode <= second <= MaxCode && first != second
    requires u.email != "" && newPassword != ""
    ensures var once := SendResetOtpStep(u.email, Some(u), first, now, mail1).saved;
            var twice := SendResetOtpStep(u.email, once, second, later, mail2).saved;
            ResetPasswordStep(u.email, IssueCode(first), newPassword, twice, at, hash) == Step(InvalidOtp, None)
  {
    IssueCodeInjective(first, second);
  }

  /** Checking a reset code never changes it, and it predicts the password
      step: with every field present, resetPassword succeeds exactly when
      verifyResetOtp does at the same time, and fails with the same answer. */
  lemma VerifyResetOtpPredictsReset(email: string, otp: string, newPassword: string, u: Option<User>,
                                    now: int, hash: string -> string)
    requires newPassword != ""
    ensures var check := VerifyResetOtpStep(email, otp, u, now);
            var reset := ResetPasswordStep(email, otp, newPassword, u, now, hash);
            && (check.success <==> reset.response.success)
            && (!check.success ==> check == reset.response)
  {
  }

  /** A reset code is single use: after a successful reset the same code is
      refused, and the password stays the new one. */
  lemma ResetPasswordSingleUse(email: string, otp: string, pw1: string, pw2: string, u: User,
                               now: int, later: int, hash: string -> string)
    requires ResetPasswordStep(email, otp, pw1, Some(u), now, hash).response.success
    requires pw2 != ""
    ensures var first := ResetPasswordStep(email, otp, pw1, Some(u), now, hash);
            ResetPasswordStep(email, otp, pw2, first.saved, later, hash) == Step(InvalidOtp, None)
  {
  }

  /** With an expired reset code the request fails and the password is left
      as it was. */
  lemma ExpiredResetKeepsPassword(u: User, newPassword: string, now: int, hash: string -> string)
    requires u.email != "" && u.resetOtp != "" && newPassword != "" && u.resetOtpExpireAt < now
    ensures ResetPasswordStep(u.email, u.resetOtp, newPassword, Some(u), now, hash) == Step(OtpExpired, None)
  {
  }

  /** After a successful reset, logging in with the new password succeeds,
      and with the old one fails (unless both hash alike). */
  lemma LoginAfterReset(email: string, otp: string, oldPassword: string, newPassword: string,
                        u: User, now: int, hash: string -> string)
    requires u.password == hash(oldPassword) && oldPassword != ""
    requires ResetPasswordStep(email, otp, newPassword, Some(u), now, hash).response.success
    ensures var saved := ResetPasswordStep(email, otp, newPassword, Some(u), now, hash).saved;
            && LoginStep(email, newPassword, saved, hash) == LoggedIn
            && (hash(oldPassword) != hash(newPassword) ==>
                 LoginStep(email, oldPassword, saved, hash) == InvalidCredentials)
  {
  }

  /** Login does not tell an unknown email from a wrong password. */
  lemma LoginNoEnumeration(email: string, password: string, u: User, hash: string -> string)
    requires email != "" && password != "" && hash(password) != u.password
    ensures LoginStep(email, password, None, hash) == LoginStep(email, password, Some(u), hash)
  {
  }
}
