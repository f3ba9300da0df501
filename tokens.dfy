/** The signed, time-limited token shared by the login, password-reset and
    mail-confirmation flows. The flows differ only in the issuer and audience
    claims (sections 4.1.1 and 4.1.3 of RFC 7519); the subject (4.1.2) is the
    email and the expiry (4.1.4) is the issue time plus a duration. */
module Tokens {
  import opened Common

  /** The payload a verified token yields. Times are whole seconds. */
  datatype Claims = Claims(email: string, sub: string, iss: string, aud: string, iat: int, exp: int)

  /** A token as a client presents it: either one this server signed, carrying
      its claims, or any other text (a bad signature, a malformed string). */
  datatype Jwt = Signed(claims: Claims) | Unverifiable(text: string)

  const LoginIssuer := "login"
  const ForgetIssuer := "forget"
  const MailConfirmationIssuer := "mail-confirmation"
  const UsersAudience := "users"

  /** '7 days', the default duration, in seconds. */
  const SevenDays: nat := 7 * 24 * 60 * 60
  /** '31 minutes', the password-reset duration, in seconds. */
  const ThirtyOneMinutes: nat := 31 * 60

  /** The one error every verification failure is reported as. */
  const InvalidToken := Unauthorized("Invalid token")

  /** Signs `email` for the scope (`issuer`, `audience`) at time `now`; the
      token expires `duration` seconds later. */
  function CreateToken(email: string, issuer: string, audience: string, now: int,
                       duration: nat := SevenDays): (token: Jwt)
    ensures token.Signed?
    ensures token.claims.email == email && token.claims.sub == email
    ensures token.claims.iss == issuer && token.claims.aud == audience
    ensures token.claims.exp - token.claims.iat == duration && token.claims.iat == now
  {
    Signed(Claims(email, email, issuer, audience, now, now + duration))
  }

  /** A scope claim passes its check when the expected value is empty (the
      verifier only compares the claims it is given a nonempty expected value
      for) or when the claim equals the expected value. */
  predicate ClaimAccepted(claim: string, expected: string) {
    expected == "" || claim == expected
  }

  /** Verifies `token` for the scope (`issuer`, `audience`) at time `now`. It
      succeeds exactly when this server signed the token, both scope claims
      pass and the expiry is still ahead; every failure is the same error. */
  function CheckToken(token: Jwt, issuer: string, audience: string, now: int): (r: Result<Claims>)
    ensures r.Ok? ==> token.Signed? && r.value == token.claims
    ensures r.Ok? ==> && ClaimAccepted(r.value.iss, issuer) && ClaimAccepted(r.value.aud, audience)
                      && now < r.value.exp
    ensures (&& token.Signed? && ClaimAccepted(token.claims.iss, issuer)
             && ClaimAccepted(token.claims.aud, audience) && now < token.claims.exp) ==> r.Ok?
    ensures r.Err? ==> r.error == InvalidToken
  {
    match token
    case Unverifiable(_) => Err(InvalidToken)
    case Signed(c) =>
      if now >= c.exp then Err(InvalidToken)
      else if audience != "" && c.aud != audience then Err(InvalidToken)
      else if issuer != "" && c.iss != issuer then Err(InvalidToken)
      else Ok(c)
  }

  /** `CheckToken` with its error swallowed: true exactly when it succeeds. */
  function IsValidToken(token: Jwt, issuer: string, audience: string, now: int): (valid: bool)
    ensures valid <==> CheckToken(token, issuer, audience, now).Ok?
  {
    match CheckToken(token, issuer, audience, now)
    case Ok(_) => true
    case Err(_) => false
  }

  /** Round trip: a created token verifies under its own scope, yielding its
      email, while `now` is before the expiry; at or after it, and under any
      other scope, it fails with the one generic error. */
  lemma CheckCreatedToken(email: string, issuer: string, audience: string, issuedAt: int,
                          duration: nat, expectedIssuer: string, expectedAudience: string, now: int)
    ensures var r := CheckToken(CreateToken(email, issuer, audience, issuedAt, duration),
                                expectedIssuer, expectedAudience, now);
            && (r.Ok? <==> && ClaimAccepted(issuer, expectedIssuer) && ClaimAccepted(audience, expectedAudience)
                           && now < issuedAt + duration)
            && (r.Ok? ==> r.value.email == email && r.value.sub == email)
            && (r.Err? ==> r == Err(InvalidToken))
  {
  }

  /** Scope isolation: a token accepted under one scope is refused, with the
      generic error, under every scope that sets a different issuer or a
      different audience at the same instant. */
  lemma ScopeIsolation(token: Jwt, issuer: string, audience: string,
                       otherIssuer: string, otherAudience: string, now: int)
    requires CheckToken(token, issuer, audience, now).Ok?
    requires || (issuer != "" && otherIssuer != "" && issuer != otherIssuer)
             || (audience != "" && otherAudience != "" && audience != otherAudience)
    ensures CheckToken(token, otherIssuer, otherAudience, now) == Err(InvalidToken)
    ensures !IsValidToken(token, otherIssuer, otherAudience, now)
  {
  }

  /** An empty expected issuer checks nothing: a live signed token passes
      whatever issuer it carries. */
  lemma EmptyIssuerUnchecked(c: Claims, audience: string, now: int)
    requires now < c.exp && ClaimAccepted(c.aud, audience)
    ensures CheckToken(Signed(c), "", audience, now) == Ok(c)
  {
  }

  /** The three issuers are pairwise different, so the three kinds of token
      never stand in for one another. */
  lemma IssuersDistinct()
    ensures LoginIssuer != ForgetIssuer
    ensures LoginIssuer != MailConfirmationIssuer
    ensures ForgetIssuer != MailConfirmationIssuer
  {
    assert LoginIssuer[0] != ForgetIssuer[0];
    assert LoginIssuer[0] != MailConfirmationIssuer[0];
    assert ForgetIssuer[0] != MailConfirmationIssuer[0];
  }

  /** A password-reset token is never a login token, nor a mail-confirmation
      token, and vice versa. */
  lemma FlowTokensDoNotCross(token: Jwt, now: int)
    ensures CheckToken(token, ForgetIssuer, UsersAudience, now).Ok? ==>
              CheckToken(token, LoginIssuer, UsersAudience, now) == Err(InvalidToken)
              && CheckToken(token, MailConfirmationIssuer, UsersAudience, now) == Err(InvalidToken)
    ensures CheckToken(token, LoginIssuer, UsersAudience, now).Ok? ==>
              CheckToken(token, ForgetIssuer, UsersAudience, now) == Err(InvalidToken)
              && CheckToken(token, MailConfirmationIssuer, UsersAudience, now) == Err(InvalidToken)
    ensures CheckToken(token, MailConfirmationIssuer, UsersAudience, now).Ok? ==>
              CheckToken(token, LoginIssuer, UsersAudience, now) == Err(InvalidToken)
              && CheckToken(token, ForgetIssuer, UsersAudience, now) == Err(InvalidToken)
  {
    IssuersDistinct();
  }
}
