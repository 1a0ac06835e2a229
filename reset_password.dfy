/** The password-reset page: three forms, email then code then new
    password, of which the two flags `isEmailSent` and `isOtpSubmitted`
    decide the one shown. A request's outcome is a parameter. */
module ResetPasswordPage {
  import opened Outcomes
  import opened OtpInput

  /** What the server or the network gave back for a request. */
  datatype Reply = Answered(success: bool, message: string) | NetworkError(message: string)

  /** The request bodies the page posts. */
  datatype Request =
    | SendResetOtp(email: string)
    | VerifyResetOtp(email: string, otp: string)
    | ResetPassword(email: string, otp: string, newPassword: string)

  datatype Form = EmailForm | OtpForm | PasswordForm

  predicate Succeeded(reply: Reply) {
    reply.Answered? && reply.success
  }

  /** The forms rendered for the two flags: exactly one, for every
      combination (even the one the page never reaches). */
  function ShownForms(isEmailSent: bool, isOtpSubmitted: bool): (r: set<Form>)
    ensures |r| == 1
    ensures EmailForm in r <==> !isEmailSent
    ensures OtpForm in r <==> isEmailSent && !isOtpSubmitted
    ensures PasswordForm in r <==> isEmailSent && isOtpSubmitted
  {
    (if !isEmailSent then {EmailForm} else {})
    + (if !isOtpSubmitted && isEmailSent then {OtpForm} else {})
    + (if isOtpSubmitted && isEmailSent then {PasswordForm} else {})
  }

  /** `onSubmitOtp`'s check: only the length of the joined code, no digit
      test. */
  function OtpRequest(email: string, cells: seq<string>): (r: Option<Request>)
    ensures r.Some? <==> |Join(cells)| == 6
    ensures r.Some? ==> r.value == VerifyResetOtp(email, Join(cells))
  {
    var enteredOtp := Join(cells);
    if |enteredOtp| != 6 then None else Some(VerifyResetOtp(email, enteredOtp))
  }

  /** Unlike the verification page, a full row of non-digits is sent. */
  lemma NonDigitCodeIsSent(email: string)
    ensures OtpRequest(email, ["a", "b", "c", "d", "e", "f"]) == Some(VerifyResetOtp(email, "abcdef"))
  {
    JoinSingletons(["a", "b", "c", "d", "e", "f"], "abcdef");
  }

  class Page {
    var email: string
    var newPassword: string
    var isEmailSent: bool
    /** None stands for the initial `useState(0)`. */
    var otp: Option<string>
    var isOtpSubmitted: bool

    /** The code step is reached only after the email step, and the code it
        stored is a six-character one. */
    ghost predicate Valid()
      reads this
    {
      isOtpSubmitted ==> isEmailSent && otp.Some? && |otp.value| == 6
    }

    function Shown(): set<Form>
      reads this
    {
      ShownForms(isEmailSent, isOtpSubmitted)
    }

    constructor ()
      ensures Valid() && Shown() == {EmailForm}
      ensures email == "" && newPassword == "" && !isEmailSent && otp.None? && !isOtpSubmitted
    {
      email, newPassword := "", "";
      isEmailSent, otp, isOtpSubmitted := false, None, false;
    }

    /** The email field's `onChange`; the field exists only on the email form. */
    method ChangeEmail(value: string)
      requires Valid() && EmailForm in Shown()
      modifies this`email
      ensures Valid() && email == value
    {
      email := value;
    }

    /** The new-password field's `onChange`; it exists only on the last form. */
    method ChangeNewPassword(value: string)
      requires Valid() && PasswordForm in Shown()
      modifies this`newPassword
      ensures Valid() && newPassword == value
    {
      newPassword := value;
    }

    /** `onSubmitEmail`: posts the email; the flag is raised only by a
        successful answer. */
    method SubmitEmail(reply: Reply) returns (sent: Request)
      requires Valid() && EmailForm in Shown()
      modifies this`isEmailSent
      ensures Valid()
      ensures sent == SendResetOtp(email)
      ensures isEmailSent == Succeeded(reply)
      ensures Shown() == if Succeeded(reply) then {OtpForm} else {EmailForm}
    {
      sent := SendResetOtp(email);
      if reply.Answered? && reply.success {
        isEmailSent := true;
      }
    }

    /** `onSubmitOtp`: joins the cells; an incomplete code sends nothing.
        Only a successful answer stores the code and raises the flag. */
    method SubmitOtp(cells: seq<string>, reply: Reply) returns (sent: Option<Request>)
      requires Valid() && OtpForm in Shown()
      modifies this`otp, this`isOtpSubmitted
      ensures Valid()
      ensures sent == OtpRequest(email, cells)
      ensures sent.Some? && Succeeded(reply) ==>
                otp == Some(Join(cells)) && isOtpSubmitted && Shown() == {PasswordForm}
      ensures !(sent.Some? && Succeeded(reply)) ==>
                otp == old(otp) && !isOtpSubmitted && Shown() == {OtpForm}
    {
      var otpArray := cells;
      var enteredOtp := Join(otpArray);
      if |enteredOtp| != 6 {
        return None;
      }
      sent := Some(VerifyResetOtp(email, enteredOtp));
      if reply.Answered? && reply.success {
        otp := Some(enteredOtp);
        isOtpSubmitted := true;
      }
    }

    /** `onSubmitNewPassword`: resubmits the code stored by the code step.
        Changes nothing (navigation on success is not modelled). */
    method SubmitNewPassword() returns (sent: Request)
      requires Valid() && PasswordForm in Shown()
      ensures otp.Some? && sent == ResetPassword(email, otp.value, newPassword)
    {
      sent := ResetPassword(email, otp.value, newPassword);
    }
  }

  /** The three steps in order with successful answers: the password step
      resubmits exactly the code that the code step had entered. */
  method ResetFlow(p: Page, cells: seq<string>)
    returns (first: Request, second: Option<Request>, third: Request)
    requires p.Valid() && p.Shown() == {EmailForm} && |Join(cells)| == 6
    modifies p
    ensures p.Valid() && p.Shown() == {PasswordForm}
    ensures first == SendResetOtp(p.email)
    ensures second == Some(VerifyResetOtp(p.email, Join(cells)))
    ensures third == ResetPassword(p.email, Join(cells), p.newPassword)
  {
    first := p.SubmitEmail(Answered(true, ""));
    second := p.SubmitOtp(cells, Answered(true, ""));
    third := p.SubmitNewPassword();
  }
}
