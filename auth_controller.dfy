/** The authentication controller: the request handlers as methods on the
    user collection. Each handler loads one record, checks it, updates its
    fields in place and saves it, one request at a time. The collection is
    keyed by user id, with a unique index on email as the database keeps it. */
module AuthController {
  import opened Outcomes
  import opened OtpCode
  import opened Users
  import opened Session

  function Lookup(users: map<UserId, User>, id: UserId): Option<User> {
    if id in users then Some(users[id]) else None
  }

  /** The collection after a handler saves `saved` (if anything) as user `id`. */
  function Save(users: map<UserId, User>, id: Option<UserId>, saved: Option<User>): map<UserId, User> {
    if id.Some? && saved.Some? then users[id.value := saved.value] else users
  }

  class Controller {
    /** `bcrypt.hash`, seen only through equality of hashes. */
    const hash: string -> string
    var users: map<UserId, User>
    var emailIndex: map<string, UserId>
    var nextId: UserId

    /** The email index and the records agree, and ids are allocated in order. */
    ghost predicate Valid()
      reads this
    {
      && (forall e :: e in emailIndex ==> emailIndex[e] in users && users[emailIndex[e]].email == e)
      && (forall id :: id in users ==> users[id].email in emailIndex && emailIndex[users[id].email] == id)
      && (forall id :: id in users ==> id < nextId)
    }

    function IdOf(email: string): Option<UserId>
      reads this
    {
      if email in emailIndex then Some(emailIndex[email]) else None
    }

    /** `findOne({ email })`. */
    function UserByEmail(email: string): (r: Option<User>)
      reads this
      requires Valid()
      ensures r.Some? <==> exists id :: id in users && users[id].email == email
      ensures r.Some? ==> r.value.email == email
    {
      if email in emailIndex then Some(users[emailIndex[email]]) else None
    }

    constructor (hash: string -> string)
      ensures Valid() && this.hash == hash
      ensures users == map[] && emailIndex == map[] && nextId == 0
    {
      this.hash := hash;
      users, emailIndex, nextId := map[], map[], 0;
    }

    /** Creates the user and sets the session cookie, then sends the
        welcome mail; a mail failure gives 500 but the user and the cookie
        remain. */
    method Register(name: string, email: string, password: string, mail: Delivery)
      returns (resp: Response, session: Option<UserId>)
      requires Valid()
      modifies this
      ensures Valid()
      ensures name == "" || email == "" || password == "" ==>
                && resp == AllFieldsRequired && session.None?
                && users == old(users) && emailIndex == old(emailIndex) && nextId == old(nextId)
      ensures name != "" && email != "" && password != "" && email in old(emailIndex) ==>
                && resp == UserExists && session.None?
                && users == old(users) && emailIndex == old(emailIndex) && nextId == old(nextId)
      ensures name != "" && email != "" && password != "" && email !in old(emailIndex) ==>
                && old(nextId) !in old(users)
                && users == old(users)[old(nextId) := NewUser(name, email, hash(password))]
                && emailIndex == old(emailIndex)[email := old(nextId)]
                && nextId == old(nextId) + 1
                && session == Some(old(nextId))
                && resp == AfterMail(mail, Registered, "")
    {
      if name == "" || email == "" || password == "" {
        return AllFieldsRequired, None;
      }
      if email in emailIndex {
        // The body of this answer spells its flag "sucess", so the client
        // reads `success` as undefined, that is, false.
        return UserExists, None;
      }
      var hashedPassword := hash(password);
      var id := nextId;
      users := users[id := NewUser(name, email, hashedPassword)];
      emailIndex := emailIndex[email := id];
      nextId := nextId + 1;
      session := Some(id);
      resp := AfterMail(mail, Registered, "");
    }

    /** Checks the password against the stored hash and, on success, sets
        the session cookie. Changes nothing. */
    method Login(email: string, password: string) returns (resp: Response, session: Option<UserId>)
      requires Valid()
      ensures resp == LoginStep(email, password, UserByEmail(email), hash)
      ensures session.Some? <==> resp.success
      ensures session.Some? ==> session.value in users && users[session.value].email == email
    {
      if email == "" || password == "" {
        return AllFieldsRequired, None;
      }
      if email !in emailIndex {
        return InvalidCredentials, None;
      }
      var id := emailIndex[email];
      var user := users[id];
      if hash(password) != user.password {
        return InvalidCredentials, None;
      }
      return LoggedIn, Some(id);
    }

    /** Issues a verification code to the session's user. */
    method SendVerifyOtp(userId: UserId, draw: int, now: int, mail: Delivery) returns (resp: Response)
      requires Valid()
      requires MinCode <= draw <= MaxCode
      modifies this
      ensures Valid() && emailIndex == old(emailIndex) && nextId == old(nextId)
      ensures var st := SendVerifyOtpStep(Lookup(old(users), userId), draw, now, mail);
              resp == st.response && users == Save(old(users), Some(userId), st.saved)
    {
      if userId !in users {
        return UserNotFound;
      }
      var user := users[userId];
      if user.isVerified {
        return AlreadyVerified;
      }
      var otp := IssueCode(draw);
      user := user.(verifyOtp := otp, verifyOtpExpireAt := now + VerifyOtpTtl);
      users := users[userId := user];   // saved before the mail is sent
      resp := AfterMail(mail, OtpSent, "message1");
    }

    /** Verifies the session's user with a submitted code. */
    method VerifyEmail(userId: UserId, otp: string, now: int) returns (resp: Response)
      requires Valid()
      modifies this
      ensures Valid() && emailIndex == old(emailIndex) && nextId == old(nextId)
      ensures var st := VerifyEmailStep(otp, Lookup(old(users), userId), now);
              resp == st.response && users == Save(old(users), Some(userId), st.saved)
    {
      if otp == "" {
        return OtpRequired;
      }
      if userId !in users {
        return UserNotFound;
      }
      var user := users[userId];
      if user.verifyOtp != otp {
        return InvalidOtp;
      }
      if user.verifyOtpExpireAt < now {
        return OtpExpired;
      }
      user := user.(isVerified := true, verifyOtp := "", verifyOtpExpireAt := 0);
      users := users[userId := user];
      resp := EmailVerified;
    }

    /** Issues a reset code to the user with this email. */
    method SendResetPasswordOtp(email: string, draw: int, now: int, mail: Delivery) returns (resp: Response)
      requires Valid()
      requires MinCode <= draw <= MaxCode
      modifies this
      ensures Valid() && emailIndex == old(emailIndex) && nextId == old(nextId)
      ensures var st := SendResetOtpStep(email, old(UserByEmail(email)), draw, now, mail);
              resp == st.response && users == Save(old(users), old(IdOf(email)), st.saved)
    {
      if email == "" {
        return EmailRequired;
      }
      if email !in emailIndex {
        return UserNotFound;
      }
      var id := emailIndex[email];
      var user := users[id];
      var otp := IssueCode(draw);
      user := user.(resetOtp := otp, resetOtpExpireAt := now + ResetOtpTtl);
      users := users[id := user];   // saved before the mail is sent
      resp := AfterMail(mail, OtpSent, "");
    }

    /** Checks a reset code without consuming it. Changes nothing. */
    method VerifyResetOtp(email: string, otp: string, now: int) returns (resp: Response)
      requires Valid()
      ensures resp == VerifyResetOtpStep(email, otp, UserByEmail(email), now)
      ensures resp.success ==> email in emailIndex && users[emailIndex[email]].resetOtp == otp
    {
      if email == "" || otp == "" {
        return AllFieldsRequired;
      }
      if email !in emailIndex {
        return UserNotFound;
      }
      var user := users[emailIndex[email]];
      if user.resetOtp != otp {
        return InvalidOtp;
      }
      if user.resetOtpExpireAt < now {
        return OtpExpired;
      }
      return OtpVerified;
    }

    /** Replaces the password of the user with this email, given a valid
        reset code, and consumes the code. */
    method ResetPassword(email: string, otp: string, newPassword: string, now: int) returns (resp: Response)
      requires Valid()
      modifies this
      ensures Valid() && emailIndex == old(emailIndex) && nextId == old(nextId)
      ensures var st := ResetPasswordStep(email, otp, newPassword, old(UserByEmail(email)), now, hash);
              resp == st.response && users == Save(old(users), old(IdOf(email)), st.saved)
    {
      if email == "" || otp == "" || newPassword == "" {
        return AllFieldsRequired;
      }
      if email !in emailIndex {
        return UserNotFound;
      }
      var id := emailIndex[email];
      var user := users[id];
      if user.resetOtp != otp {
        return InvalidOtp;
      }
      if user.resetOtpExpireAt < now {
        return OtpExpired;
      }
      var hashedPassword := hash(newPassword);
      user := user.(password := hashedPassword, resetOtp := "", resetOtpExpireAt := 0);
      users := users[id := user];
      resp := PasswordWasReset;
    }
  }

  /** Register, then log in with the same credentials: both succeed and the
      cookie names the new user; a wrong password is refused. */
  method RegisterThenLogin(c: Controller, name: string, email: string, password: string,
                           wrong: string, mail: Delivery)
    returns (registered: Response, loggedIn: Response, refused: Response)
    requires c.Valid() && name != "" && email != "" && password != "" && email !in c.emailIndex
    requires wrong != "" && c.hash(wrong) != c.hash(password)
    modifies c
    ensures c.Valid()
    ensures registered == AfterMail(mail, Registered, "")
    ensures loggedIn == LoggedIn && refused == InvalidCredentials
  {
    var session;
    registered, session := c.Register(name, email, password, mail);
    loggedIn, session := c.Login(email, password);
    refused, session := c.Login(email, wrong);
  }

  /** Issue a verification code, verify with it, replay it: the first
      verification succeeds, the replay is "Invalid OTP", and the user stays
      verified. */
  method VerifyOnce(c: Controller, id: UserId, draw: int, now: int, at: int, later: int, mail: Delivery)
    returns (issued: Response, first: Response, replay: Response)
    requires c.Valid() && id in c.users && !c.users[id].isVerified
    requires MinCode <= draw <= MaxCode && at <= now + VerifyOtpTtl
    modifies c
    ensures c.Valid()
    ensures issued == AfterMail(mail, OtpSent, "message1")
    ensures first == EmailVerified && replay == InvalidOtp
    ensures id in c.users && c.users[id].isVerified && c.users[id].verifyOtp == ""
  {
    issued := c.SendVerifyOtp(id, draw, now, mail);
    first := c.VerifyEmail(id, IssueCode(draw), at);
    replay := c.VerifyEmail(id, IssueCode(draw), later);
  }
}
