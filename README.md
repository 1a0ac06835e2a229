# mern-auth: one-time codes and the credential state machine

This project models the authentication core of a web application in
Dafny. On the server, the request handlers register and log in users. They
also issue and check the six-digit one-time codes (OTPs) that verify an
email address, and they reset a password. On the client, the six-cell code
entry widget and the three-stage password-reset page are modelled.

Server (`server/controllers/authController.js`):

- `otp_code.dfy` models how a code is made: a draw in [100000, 999999],
  rendered in decimal.
- `users.dfy` holds the user record with `password`, `isVerified`,
  `verifyOtp`/`verifyOtpExpireAt` and `resetOtp`/`resetOtpExpireAt`, and
  every response the handlers send. For each handler it has a pure *step*:
  the answer it gives and the record it saves (or that it saves nothing)
  once the record has been looked up. The lifecycle lemmas are stated over
  these steps: single use, code checked before expiry, inclusive expiry,
  monotonic `isVerified`, reissue invalidates, and login without account
  enumeration.
- `auth_controller.dfy` is the controller as a class. It holds the user
  collection keyed by id, the unique email index and the id counter. Its
  methods update the loaded record field by field and save it, as the
  handlers do. Each method's `ensures` ties the answer and the new
  collection to the step of the old record.
- `session.dfy` models the guard `server/middleware/userAuth.js` that
  turns the `token` cookie into a user id or a 401.

External effects are parameters:

- the current time `now` (milliseconds);
- the random `draw`;
- the mail outcome (`Delivered` or `MailFailed(message)`);
- `bcrypt.hash` as the controller's uninterpreted `hash` function, so
  `bcrypt.compare(pw, stored)` is `hash(pw) == stored`;
- `jwt.verify` as a `verify` function, and the session cookie as the user
  id it names.

Client:

- `otp_input.dfy` is the six cells (an `array<string>`) with a focus index.
  It covers `handleInput`, `handleKeyDown` and `handlePaste`, and the join
  of the cells. These handlers are the same code in
  `client/src/pages/EmailVerify.jsx:17-39` and
  `client/src/pages/ResetPassword.jsx:22-44`, so one class models both.
- `email_verify.dfy` models the submit check of the verification page.
- `reset_password.dfy` models the reset page's stage flags, the form each
  combination shows, and the three requests. The server's or network's
  reply is a parameter.

Where the design description and the code differ, the model follows the
code:

- `verifyResetOtp` does not consume the reset code. `resetPassword`
  re-checks it and clears it.
- The reset code lives 15 minutes, whatever the comment beside it says.

## Model

| member | source | states |
|---|---|---|
| OtpCode.DecimalString | server/controllers/authController.js:120 | `toString()` of a non-negative integer: at least one character, all decimal digits |
| OtpCode.ParseDecimalString | server/controllers/authController.js:120 | reading the decimal rendering back gives the number: rendering is invertible |
| OtpCode.DecimalStringLength | server/controllers/authController.js:120 | a number in [10^k, 10^(k+1)) renders as exactly k+1 characters |
| OtpCode.DecimalStringInjective | server/controllers/authController.js:120 | two numbers render alike if and only if they are equal |
| OtpCode.IssueCode | server/controllers/authController.js:120 | the code for any draw in [100000, 999999] is exactly six decimal digits and encodes the draw |
| OtpCode.IssueCodeInjective | server/controllers/authController.js:212 | two draws give the same code if and only if they are equal |
| Users.NewUser | server/controllers/authController.js:22 | a new record holds the name, email and password hash, is unverified, and has both codes empty with expiry 0 |
| Users.SendVerifyOtpStep | server/controllers/authController.js:104-145 | unknown user: 404, nothing saved; verified user: 400, nothing saved; otherwise saves a six-digit code encoding the draw with expiry now + 86400000, every other field equal; success exactly when the mail went out; a mail failure answers 500 but the code stays saved |
| Users.VerifyEmailStep | server/controllers/authController.js:148-185 | empty code: 400 before the lookup; then 404, then "Invalid OTP" on mismatch whatever the expiry; success exactly for a non-empty equal code with expiry not below now; saves only on success, and then exactly isVerified = true, verifyOtp = "", verifyOtpExpireAt = 0 |
| Users.SendResetOtpStep | server/controllers/authController.js:197-238 | missing email: 400; unknown email: 404; otherwise (verified or not) saves a six-digit code encoding the draw with expiry now + 900000, every other field equal, before the mail; a mail failure answers 500 with the transport's message |
| Users.VerifyResetOtpStep | server/controllers/authController.js:241-268 | missing field: 400; unknown: 404; mismatch: "Invalid OTP"; success exactly for an equal code with expiry not below now; saves nothing |
| Users.ResetPasswordStep | server/controllers/authController.js:271-306 | missing field: 400; unknown: 404; mismatch: "Invalid OTP"; success exactly for an equal code with expiry not below now; saves only on success, and then exactly password = hash(newPassword), resetOtp = "", resetOtpExpireAt = 0 |
| Users.LoginStep | server/controllers/authController.js:51-86 | success exactly when both fields are present, the user exists and hash(password) equals the stored hash; every other failure with both fields present is the same "Invalid email or password" |
| Users.VerifyEmailSingleUse | server/controllers/authController.js:174-176 | after a successful verification, the same code at any later time is "Invalid OTP" and saves nothing |
| Users.VerifyEmailCodeBeforeExpiry | server/controllers/authController.js:166-172 | a wrong code on an expired record is "Invalid OTP", not "OTP has expired"; the same holds for the reset code check |
| Users.ExpiryIsInclusive | server/controllers/authController.js:170 | a stored code is accepted when now equals its expiry and refused as expired one millisecond later, for both verification and reset codes |
| Users.IsVerifiedMonotonic | server/controllers/authController.js:174 | no handler's saved record has isVerified false when the loaded one had it true; verifyEmail saves only verified records |
| Users.IssueThenVerify | server/controllers/authController.js:122-126 | the code just issued verifies the user up to and including now + 24 h, even if the mail failed, and is refused as expired after that |
| Users.ReissueInvalidatesVerifyOtp | server/controllers/authController.js:124-126 | after a second issuance with a different draw, the first code is "Invalid OTP" |
| Users.ReissueInvalidatesResetOtp | server/controllers/authController.js:215-218 | after a second reset issuance with a different draw, the first code cannot reset the password |
| Users.VerifyResetOtpPredictsReset | server/controllers/authController.js:255-263 | with a new password given, verifyResetOtp succeeds exactly when resetPassword would at the same moment, and their failures are the same answer |
| Users.ResetPasswordSingleUse | server/controllers/authController.js:295-297 | after a successful reset, the same code is "Invalid OTP" and nothing is saved |
| Users.ExpiredResetKeepsPassword | server/controllers/authController.js:289-291 | an expired but correct reset code is "OTP has expired" and nothing, the password included, is saved |
| Users.LoginAfterReset | server/controllers/authController.js:293-297 | after a reset, login with the new password succeeds, and with the old one fails unless both hash alike |
| Users.LoginNoEnumeration | server/controllers/authController.js:61-69 | an unknown email and a wrong password get identical answers |
| Session.Authenticate | server/middleware/userAuth.js:3-24 | passes exactly a non-empty token that decodes to a payload with an id, as that id; every refusal is 401; no token is "Unauthorized" |
| Session.SignedTokenResolves | server/controllers/authController.js:25 | a token minted for a user id is let through as that id |
| AuthController.Controller.UserByEmail | server/controllers/authController.js:205 | finds a record exactly when some user has that email, and the record has that email |
| AuthController.Controller.Register | server/controllers/authController.js:7-49 | missing field or taken email: 400 and nothing changes; otherwise adds exactly one unverified user under a fresh id, indexes its email, sets the cookie for it, and answers 201, or 500 if the welcome mail failed (user and cookie remain) |
| AuthController.Controller.Login | server/controllers/authController.js:51-86 | answers as LoginStep on the record for the email; sets the cookie exactly on success and for the user with that email; changes nothing |
| AuthController.Controller.SendVerifyOtp | server/controllers/authController.js:104-145 | answer and new collection are those of SendVerifyOtpStep on the user's record; no other record and not the index changes |
| AuthController.Controller.VerifyEmail | server/controllers/authController.js:148-185 | answer and new collection are those of VerifyEmailStep on the user's record; nothing changes on failure |
| AuthController.Controller.SendResetPasswordOtp | server/controllers/authController.js:197-238 | answer and new collection are those of SendResetOtpStep on the record with that email |
| AuthController.Controller.VerifyResetOtp | server/controllers/authController.js:241-268 | answers as VerifyResetOtpStep and changes nothing, so it is idempotent; success implies the stored reset code equals the submitted one |
| AuthController.Controller.ResetPassword | server/controllers/authController.js:271-306 | answer and new collection are those of ResetPasswordStep on the record with that email; nothing changes on failure |
| AuthController.RegisterThenLogin | server/controllers/authController.js:7-86 | registering and then logging in with the same credentials succeeds; a password with a different hash is refused |
| AuthController.VerifyOnce | server/controllers/authController.js:104-185 | issue, verify, replay: the first verification succeeds, the replay is "Invalid OTP", and the user ends verified with the code cleared |
| OtpInput.PastePrefix | client/src/pages/EmailVerify.jsx:32 | the paste uses the first min(len, 6) characters of the clipboard text |
| OtpInput.Pasted | client/src/pages/EmailVerify.jsx:33-38 | cell i holds the i-th pasted character for every i below the paste length that has a cell; every other cell keeps its value; the number of cells is unchanged |
| OtpInput.JoinSingletons | client/src/pages/EmailVerify.jsx:44 | cells each holding one character join to the string of those characters in index order |
| OtpInput.JoinFull | client/src/pages/EmailVerify.jsx:44-46 | with at most one character per cell, the joined code has one character per cell if and only if no cell is empty |
| OtpInput.PasteThenJoin | client/src/pages/EmailVerify.jsx:29-44 | pasting six or more characters into the six cells makes the joined code the first six pasted characters |
| OtpInput.FocusAfterInput | client/src/pages/EmailVerify.jsx:17-21 | focus moves to index + 1 exactly when the cell is non-empty and not the last; otherwise it stays; it never leaves the cells |
| OtpInput.FocusAfterKeyDown | client/src/pages/EmailVerify.jsx:23-27 | focus moves to index - 1 exactly on Backspace in an empty cell that is not the first; otherwise it stays; it never leaves the cells |
| OtpInput.OtpWidget.constructor | client/src/pages/EmailVerify.jsx:105-118 | six empty cells |
| OtpInput.OtpWidget.Type | client/src/pages/EmailVerify.jsx:111 | the browser's edit sets one cell to at most one character and keeps the others |
| OtpInput.OtpWidget.HandleInput | client/src/pages/EmailVerify.jsx:17-21 | the new focus is FocusAfterInput of the edited cell; cells unchanged (also ResetPassword.jsx:22-26) |
| OtpInput.OtpWidget.HandleKeyDown | client/src/pages/EmailVerify.jsx:23-27 | the new focus is FocusAfterKeyDown of the cell; cells unchanged (also ResetPassword.jsx:28-32) |
| OtpInput.OtpWidget.HandlePaste | client/src/pages/EmailVerify.jsx:29-39 | the loop leaves the array equal to Pasted of the old cells and the clipboard prefix, and each cell still holds at most one character (also ResetPassword.jsx:34-44) |
| EmailVerifyPage.VerifyRequest | client/src/pages/EmailVerify.jsx:41-49 | a request is sent exactly when the joined code is six characters, all decimal digits, and it carries that joined code |
| EmailVerifyPage.PastedDigitsAreSubmitted | client/src/pages/EmailVerify.jsx:29-54 | pasting text whose first six characters are digits sends exactly those six |
| EmailVerifyPage.IssuedCodeIsSubmitted | client/src/pages/EmailVerify.jsx:46 | a code issued by the server and pasted passes the page's check unchanged |
| EmailVerifyPage.IncompleteIsNotSent | client/src/pages/EmailVerify.jsx:44-49 | with an empty cell no request is sent |
| ResetPasswordPage.ShownForms | client/src/pages/ResetPassword.jsx:122-193 | for every combination of the two flags exactly one form is shown: email while no email was sent, code between the steps, new password after the code step |
| ResetPasswordPage.OtpRequest | client/src/pages/ResetPassword.jsx:65-71 | a request is sent exactly when the joined code has length 6, with no digit test, and it carries the email and that code |
| ResetPasswordPage.NonDigitCodeIsSent | client/src/pages/ResetPassword.jsx:68 | six letters are sent to the server, unlike on the verification page |
| ResetPasswordPage.Page.constructor | client/src/pages/ResetPassword.jsx:12-17 | empty fields, both flags false, no stored code; the email form is shown |
| ResetPasswordPage.Page.ChangeEmail | client/src/pages/ResetPassword.jsx:141 | the field holds the typed value |
| ResetPasswordPage.Page.ChangeNewPassword | client/src/pages/ResetPassword.jsx:212 | the field holds the typed value |
| ResetPasswordPage.Page.SubmitEmail | client/src/pages/ResetPassword.jsx:46-60 | posts the email; isEmailSent becomes true exactly on a success answer, and the code form is then shown |
| ResetPasswordPage.Page.SubmitOtp | client/src/pages/ResetPassword.jsx:62-89 | sends as OtpRequest; only a success answer to a sent request stores the entered code and sets isOtpSubmitted; otherwise nothing changes and the code form stays |
| ResetPasswordPage.Page.SubmitNewPassword | client/src/pages/ResetPassword.jsx:91-98 | posts the email, the code stored by the code step, and the new password; changes nothing |
| ResetPasswordPage.ResetFlow | client/src/pages/ResetPassword.jsx:46-98 | with success answers, the password step resubmits exactly the code the code step entered |

## Left out

- Hashing (`bcrypt`) and token signing and verification (`jsonwebtoken`) are foreign library calls. They are uninterpreted functions, so salting and the 7-day token lifetime are not modelled.
- The database is an in-memory collection that always answers. A failing `findOne`/`findById`/`save` and its 500 answer are not modelled. The schema's defaults (`""`, `0`, `false`) are assumed, because the model file is not part of this model.
- Mail delivery is one outcome per send. Templates, sender and addresses are not modelled; only that the record is saved before the mail is sent.
- `Math.random` is floating point. The issued number is a parameter in [100000, 999999], the range the expression yields.
- Cookie attributes, environment variables and `logout`/`isAuthenicated` are left out. The last two answer constant 200 responses and touch no record.
- Concurrent requests are out of scope: handlers run one at a time, so the race between two issuances for one user is not modelled.
- `server/routes/authRoutes.js` (which mounts no reset routes), `server/controllers/userController.js` and `client/src/context/AppContext.jsx` are not part of this model.
- Register: the "User already exist" body spells its flag `sucess`; the model's `success` is false there, which is what the client reads.
- Rendering, toasts and navigation are not modelled. The email page's redirect of verified users and the reset page's navigation after success are left out.
- OtpInput.OtpWidget: DOM focus has no "nothing focused" state in the model, and it starts at cell 0. `split("")` splits into UTF-16 code units, but the model splits into Dafny characters.
- The web pages' handling of the server's answer is a nondeterministic reply parameter. The pages are not connected to the controller model.
