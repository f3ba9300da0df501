/** The authentication flows built on the scoped token: login, the
    password-reset request and confirmation, mail confirmation and
    registration. Login only reads the user table and is a function of it;
    the other flows are methods of the service, which writes the shared user
    table and keeps the mails it has handed to the mailer. */
module Auth {
  import opened Common
  import opened Credentials
  import opened Tokens
  import opened Users

  /** The user fields a flow hands back to the client. */
  datatype PublicUser = PublicUser(id: int, name: string, email: string, image: Option<string>)

  /** The projection of a record sent back to the client: its id, name,
      email and picture, and neither the password hash, the role nor the
      mail flag. */
  function Public(u: User): (p: PublicUser)
    ensures p.id == u.id && p.name == u.name && p.email == u.email && p.image == u.picture
  {
    PublicUser(u.id, u.name, u.email, u.picture)
  }

  /** What a client is sent about a record does not depend on its password
      hash, its role or its mail flag. */
  lemma PublicHidesSecrets(u: User, password: PasswordHash, role: Roles.Role, isValidMail: bool)
    ensures Public(u.(password := password, role := role, isValidMail := isValidMail)) == Public(u)
  {
  }

  /** The answer to a successful login or registration. */
  datatype Session = Session(user: PublicUser, accessToken: Jwt)

  /** The answer to a successful password reset. */
  datatype ResetResponse = ResetResponse(message: string, user: PublicUser)

  /** The template context of a mail. A reset link is `callbackUrl` followed
      by `?token=` and the token's text. */
  datatype MailContext =
    | ResetLink(name: string, callbackUrl: string, token: Jwt)
    | Confirmation(name: string, token: Jwt)

  datatype Mail = Mail(subject: string, to: string, template: string, context: MailContext)

  /** What the mailer reports for one send. */
  datatype Delivery = Delivered | Failed(message: string)

  const InvalidCredentials := Unauthorized("Invalid credentials")
  const ResetMailSubject := "Password reset"
  const ConfirmationMailSubject := "[Psi Network] Confirme seu email"
  const ForgetMessage := "Enviamos um email com o link para redefinir sua senha"
  const ResetMessage := "Senha alterada com sucesso"

  /** `login`: the first record with the email must match the password; an
      unknown email and a wrong password give the very same error. A success
      carries a (`login`, `users`) token for the default seven days. */
  function Login(users: map<int, User>, email: string, password: string, now: int): (r: Result<Session>)
    ensures r.Err? ==> r.error == InvalidCredentials
    ensures r.Ok? <==> exists id :: && id in users && users[id].email == email
                                    && Compare(password, users[id].password)
                                    && forall j :: j in users && users[j].email == email ==> id <= j
    ensures r.Ok? ==> && r.value.user == Public(users[FindFirst(users, ByEmail(email)).value])
                      && r.value.user.email == email
                      && r.value.accessToken == CreateToken(email, LoginIssuer, UsersAudience, now)
  {
    match FindFirst(users, ByEmail(email))
    case None => Err(InvalidCredentials)
    case Some(id) =>
      if !Compare(password, users[id].password) then Err(InvalidCredentials)
      else Ok(Session(Public(users[id]), CreateToken(users[id].email, LoginIssuer, UsersAudience, now)))
  }

  /** An unknown email and a wrong password are indistinguishable. */
  lemma LoginRefusalsAlike(users: map<int, User>, email: string, password: string, now: int)
    ensures !EmailTaken(users, email) ==> Login(users, email, password, now) == Err(InvalidCredentials)
    ensures (forall id :: id in users && users[id].email == email ==> !Compare(password, users[id].password))
            ==> Login(users, email, password, now) == Err(InvalidCredentials)
  {
  }

  /** The `verify-reset-token` endpoint: `isValidToken` bound to the
      (`forget`, `users`) scope. */
  function VerifyResetToken(token: Jwt, now: int): (isValid: bool)
    ensures isValid <==> && token.Signed? && token.claims.iss == ForgetIssuer
                         && token.claims.aud == UsersAudience && now < token.claims.exp
  {
    IsValidToken(token, ForgetIssuer, UsersAudience, now)
  }

  /** A token the flow with `issuer` accepts: valid for that scope, naming a
      nonempty email that some stored record has. */
  predicate Redeemable(users: map<int, User>, token: Jwt, issuer: string, now: int) {
    && CheckToken(token, issuer, UsersAudience, now).Ok?
    && token.claims.email != ""
    && EmailTaken(users, token.claims.email)
  }

  /** A reset link's token is redeemable only by `reset` (and the
      `verify-reset-token` check), and only during its 31 minutes. */
  lemma ForgetTokenLifetime(email: string, issuedAt: int, now: int)
    ensures var token := CreateToken(email, ForgetIssuer, UsersAudience, issuedAt, ThirtyOneMinutes);
            && (VerifyResetToken(token, now) <==> now < issuedAt + ThirtyOneMinutes)
            && (CheckToken(token, ForgetIssuer, UsersAudience, now).Ok? ==> token.claims.email == email)
            && CheckToken(token, LoginIssuer, UsersAudience, now) == Err(InvalidToken)
            && CheckToken(token, MailConfirmationIssuer, UsersAudience, now) == Err(InvalidToken)
  {
    IssuersDistinct();
  }

  /** A confirmation mail's token is redeemable only by `validateMail`, and
      only during its seven days; a login token never resets a password. */
  lemma ConfirmationTokenLifetime(email: string, issuedAt: int, now: int)
    ensures var token := CreateToken(email, MailConfirmationIssuer, UsersAudience, issuedAt);
            && (CheckToken(token, MailConfirmationIssuer, UsersAudience, now).Ok?
                <==> now < issuedAt + SevenDays)
            && CheckToken(token, ForgetIssuer, UsersAudience, now) == Err(InvalidToken)
            && CheckToken(token, LoginIssuer, UsersAudience, now) == Err(InvalidToken)
    ensures !VerifyResetToken(CreateToken(email, LoginIssuer, UsersAudience, issuedAt), now)
  {
    IssuersDistinct();
  }

  /** Registration followed by login: the new record, holding the hash of
      `password` under a fresh id and an email nobody had, lets that password
      log in. */
  lemma LoginAfterCreate(users: map<int, User>, u: User, password: string, salt: Salt, now: int)
    requires u.id !in users && !EmailTaken(users, u.email)
    requires u.password == Hash(password, salt)
    ensures Login(users[u.id := u], u.email, password, now)
            == Ok(Session(Public(u), CreateToken(u.email, LoginIssuer, UsersAudience, now)))
  {
    var users' := users[u.id := u];
    assert forall k :: k in MatchingIds(users', ByEmail(u.email)) <==> k in {u.id};
    assert MatchingIds(users', ByEmail(u.email)) == {u.id};
  }

  /** After a reset of the record `FindFirst` picks for `email`, the new
      password logs in and any other password does not. */
  lemma LoginAfterReset(users: map<int, User>, email: string, password: string, other: string,
                        salt: Salt, now: int)
    requires FindFirst(users, ByEmail(email)).Some?
    ensures var id := FindFirst(users, ByEmail(email)).value;
            var users' := users[id := users[id].(password := Hash(password, salt))];
            && Login(users', email, password, now).Ok?
            && (other != password ==> Login(users', email, other, now) == Err(InvalidCredentials))
  {
    var id := FindFirst(users, ByEmail(email)).value;
    var users' := users[id := users[id].(password := Hash(password, salt))];
    FindFirstSameMatches(users, users', ByEmail(email));
  }

  /** Confirming a mail twice is the same as confirming it once: the second
      confirmation addresses the same record and leaves the table as it is. */
  lemma ValidateMailIdempotent(users: map<int, User>, email: string)
    requires FindFirst(users, ByEmail(email)).Some?
    ensures var id := FindFirst(users, ByEmail(email)).value;
            var users' := users[id := users[id].(isValidMail := true)];
            && FindFirst(users', ByEmail(email)) == Some(id)
            && users'[id := users'[id].(isValidMail := true)] == users'
  {
    var id := FindFirst(users, ByEmail(email)).value;
    var users' := users[id := users[id].(isValidMail := true)];
    FindFirstSameMatches(users, users', ByEmail(email));
  }

  /** The service running the flows that write. It shares the user table of
      `userService`, which it also updates directly. */
  class AuthService {
    const userService: UserService
    var outbox: seq<Mail>

    ghost predicate Valid()
      reads this, userService
    {
      userService.Valid()
    }

    constructor (userService: UserService)
      requires userService.Valid()
      ensures this.userService == userService && outbox == [] && Valid()
    {
      this.userService := userService;
      outbox := [];
    }

    /** `forget`: for a stored email, mails one reset link carrying a
        (`forget`, `users`) token valid for 31 minutes. Every failure, a
        missing user included, is rethrown as a bad request with the original
        message; no record ever changes. */
    method Forget(email: string, callbackUrl: string, now: int, mailer: Delivery) returns (r: Result<string>)
      requires Valid()
      modifies this
      ensures Valid() && unchanged(userService)
      ensures r.Ok? <==> email != "" && EmailTaken(userService.users, email) && mailer.Delivered?
      ensures r.Err? ==> outbox == old(outbox)
      ensures r.Err? ==> r.error == BadRequest(if email == "" then EitherIdOrEmail.message
                                               else if !EmailTaken(userService.users, email) then UserNotFound.message
                                               else mailer.message)
      ensures r.Ok? ==> r.value == ForgetMessage
      ensures r.Ok? ==> exists id :: && id in userService.users && userService.users[id].email == email
                                     && outbox == old(outbox) + [Mail(ResetMailSubject, email, "forget",
                                          ResetLink(userService.users[id].name, callbackUrl,
                                                    CreateToken(email, ForgetIssuer, UsersAudience, now, ThirtyOneMinutes)))]
    {
      var check := ThrowErrorIfNotExists(userService.users, Str(email));
      if check.Err? {
        return Err(BadRequest(check.error.message));
      }
      var user := GetOne(userService.users, Str(email)).value;
      var token := CreateToken(user.email, ForgetIssuer, UsersAudience, now, ThirtyOneMinutes);
      var mail := Mail(ResetMailSubject, email, "forget", ResetLink(user.name, callbackUrl, token));
      match mailer
      case Failed(message) =>
        return Err(BadRequest(message));
      case Delivered =>
        outbox := outbox + [mail];
      r := Ok(ForgetMessage);
    }

    /** `reset`: with a valid (`forget`, `users`) token naming a stored user,
        sets that one record's password to a fresh salted hash and nothing
        else; any failure is "Invalid token" with the table unchanged. */
    method Reset(password: string, token: Jwt, salt: Salt, now: int) returns (r: Result<ResetResponse>)
      requires Valid()
      modifies userService
      ensures Valid() && unchanged(this) && userService.nextId == old(userService.nextId)
      ensures r.Ok? <==> Redeemable(old(userService.users), token, ForgetIssuer, now)
      ensures r.Err? ==> r.error == InvalidToken && userService.users == old(userService.users)
      ensures r.Ok? ==>
                var id := FindFirst(old(userService.users), ByEmail(token.claims.email)).value;
                && userService.users == old(userService.users)[id := old(userService.users)[id].(password := Hash(password, salt))]
                && r.value == ResetResponse(ResetMessage, Public(userService.users[id]))
    {
      var data := CheckToken(token, ForgetIssuer, UsersAudience, now);
      if data.Err? {
        return Err(InvalidToken);
      }
      var check := ThrowErrorIfNotExists(userService.users, Str(data.value.email));
      if check.Err? {
        return Err(InvalidToken);
      }
      var id := FindFirst(userService.users, ByEmail(data.value.email)).value;
      var updated := userService.users[id].(password := Hash(password, salt));
      userService.users := userService.users[id := updated];
      r := Ok(ResetResponse(ResetMessage, Public(updated)));
    }

    /** `validateMail`: with a valid (`mail-confirmation`, `users`) token
        naming a stored user, marks that one record's mail as confirmed and
        answers `{ ok: true }`; any failure is "Invalid token" with the table
        unchanged. */
    method ValidateMail(token: Jwt, now: int) returns (r: Result<bool>)
      requires Valid()
      modifies userService
      ensures Valid() && unchanged(this) && userService.nextId == old(userService.nextId)
      ensures r.Ok? <==> Redeemable(old(userService.users), token, MailConfirmationIssuer, now)
      ensures r.Err? ==> r.error == InvalidToken && userService.users == old(userService.users)
      ensures r.Ok? ==>
                var id := FindFirst(old(userService.users), ByEmail(token.claims.email)).value;
                && userService.users == old(userService.users)[id := old(userService.users)[id].(isValidMail := true)]
                && r.value
    {
      var data := CheckToken(token, MailConfirmationIssuer, UsersAudience, now);
      if data.Err? {
        return Err(InvalidToken);
      }
      var check := ThrowErrorIfNotExists(userService.users, Str(data.value.email));
      if check.Err? {
        return Err(InvalidToken);
      }
      var id := FindFirst(userService.users, ByEmail(data.value.email)).value;
      userService.users := userService.users[id := userService.users[id].(isValidMail := true)];
      r := Ok(true);
    }

    /** `register`: creates the user, then mails one (`mail-confirmation`,
        `users`) token and answers with a (`login`, `users`) token. When the
        mailer fails the error escapes, but the new record stays. */
    method Register(dto: NewUser, salt: Salt, now: int, mailer: Delivery) returns (r: Result<Session>)
      requires Valid()
      modifies this, userService
      ensures Valid()
      ensures dto.email == "" || EmailTaken(old(userService.users), dto.email) ==>
                && r == Err(if dto.email == "" then EitherIdOrEmail else EmailAlreadyTaken)
                && userService.users == old(userService.users) && outbox == old(outbox)
      ensures dto.email != "" && !EmailTaken(old(userService.users), dto.email) ==>
                exists u: User :: && u.id !in old(userService.users)
                            && userService.users == old(userService.users)[u.id := u]
                            && u.email == dto.email && u.name == dto.name
                            && u.password == Hash(dto.password, salt) && !u.isValidMail
                            && u.role == dto.role.GetOr(DefaultRole)
                            && u.picture == None && u.updatedAt == now
                            && (r.Ok? ==> r.value.user == Public(u))
      ensures r.Ok? <==> dto.email != "" && !EmailTaken(old(userService.users), dto.email) && mailer.Delivered?
      ensures r.Err? ==> outbox == old(outbox)
      ensures r.Err? && mailer.Failed? && dto.email != "" && !EmailTaken(old(userService.users), dto.email) ==>
                r.error == InternalError(mailer.message)
      ensures r.Ok? ==> outbox == old(outbox) + [Mail(ConfirmationMailSubject, dto.email, "mail-confirmation",
                          Confirmation(dto.name, CreateToken(dto.email, MailConfirmationIssuer, UsersAudience, now)))]
      ensures r.Ok? ==> && r.value.accessToken == CreateToken(dto.email, LoginIssuer, UsersAudience, now)
                        && r.value.user.id in userService.users
                        && r.value.user == Public(userService.users[r.value.user.id])
    {
      var created := userService.Create(dto, salt, now);
      if created.Err? {
        return Err(created.error);
      }
      var user := created.value;
      var confirmation := CreateToken(user.email, MailConfirmationIssuer, UsersAudience, now);
      match mailer
      case Failed(message) =>
        return Err(InternalError(message));
      case Delivered =>
        outbox := outbox + [Mail(ConfirmationMailSubject, user.email, "mail-confirmation",
                                 Confirmation(user.name, confirmation))];
      r := Ok(Session(Public(user), CreateToken(user.email, LoginIssuer, UsersAudience, now)));
    }
  }
}
