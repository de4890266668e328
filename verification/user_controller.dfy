/**
 * UserController: reading the Bearer token off the Authorization header,
 * and the "token required" guard in front of the endpoints that act on
 * the caller's own account. Turning a token into an e-mail address is the
 * JWT layer's business and enters as a function parameter.
 */
module UserController {
  import opened Base
  import opened ResponseDto
  import opened ExceptionUtils
  import GlobalExceptionHandler
  import Users
  import UserService

  const BearerPrefix := "Bearer "
  const InvalidToken := "INVALID_TOKEN"
  const TokenRequired := "Token required"
  const StatusOk := 200
  const StatusBadRequest := 400
  const StatusServerError := 500
  const RuntimeError := "RUNTIME_ERROR"

  /** What the controller hands back: an HTTP status and the envelope. */
  datatype HttpReply<T> = HttpReply(status: int, body: ResponseDto<T>)

  /** extractTokenFromRequest: the header's text after an exact "Bearer "
      prefix; null when the header is absent or starts otherwise. */
  function ExtractToken(authHeader: Option<string>): (token: Option<string>)
    ensures token.Some? <==> authHeader.Some? && StartsWith(authHeader.value, BearerPrefix)
    ensures token.Some? ==> authHeader.value == BearerPrefix + token.value
  {
    match authHeader
    case None => None
    case Some(h) =>
      if StartsWith(h, BearerPrefix) then
        assert h == h[..|BearerPrefix|] + h[|BearerPrefix|..];
        Some(h[|BearerPrefix|..])
      else None
  }

  /** Whatever follows the prefix comes back unchanged; the bare prefix
      yields the empty token, not null. */
  lemma ExtractTokenRoundTrip(token: string)
    ensures ExtractToken(Some(BearerPrefix + token)) == Some(token)
    ensures ExtractToken(Some(BearerPrefix)) == Some("")
  {
    var h := BearerPrefix + token;
    assert h[..|BearerPrefix|] == BearerPrefix;
    assert h[|BearerPrefix|..] == token;
    assert BearerPrefix[..|BearerPrefix|] == BearerPrefix;
  }

  /** The prefix test is case-sensitive and needs the space. */
  lemma ExtractTokenIsStrict(token: string)
    ensures ExtractToken(Some("bearer " + token)) == None
    ensures ExtractToken(Some("Bearer")) == None
    ensures ExtractToken(Some("Basic " + token)) == None
    ensures ExtractToken(None) == None
  {
    assert ("bearer " + token)[0] == 'b';
    assert ("Basic " + token)[1] == 'a';
  }

  /**
   * The reply when the token's subject cannot be read. extractEmailFromToken
   * forwards to the JWT parser, whose exceptions are unchecked, have no
   * handler of their own and are not caught on the way, so the global
   * handler's RuntimeException handler answers them.
   */
  function UnreadableToken<T>(): (r: HttpReply<T>)
    ensures r.status == StatusServerError && !r.body.success && r.body.data.None?
    ensures r.body.error == Some(ErrorDetails(RuntimeError, GlobalExceptionHandler.UnexpectedText, None))
  {
    HttpReply(StatusServerError, Error(RuntimeError, GlobalExceptionHandler.UnexpectedText))
  }

  /** The unreadable-token reply is the one the global handler gives a
      RuntimeException, whatever the parser's message was. */
  lemma UnreadableTokenIsRuntimeFailure<T>(message: string)
    ensures var h := GlobalExceptionHandler.Handle(Raised(RuntimeFailure, message));
      UnreadableToken<T>().status == h.status && UnreadableToken<T>().body.error == h.body.error
  {
    assert GlobalExceptionHandler.Ancestry(RuntimeFailure)[0] == RuntimeFailure;
  }

  /**
   * The guard shared by the profile, password and activity endpoints.
   * Without a token the answer is 400 INVALID_TOKEN and no service is
   * called. With one, its subject is read (subjectOf, None when the JWT
   * parser throws): an unreadable token is answered by the global handler,
   * a readable one with 200 and the service's envelope for that e-mail.
   */
  function WithToken<T>(authHeader: Option<string>, subjectOf: string -> Option<string>,
                        service: string -> ResponseDto<T>)
    : (r: HttpReply<T>)
    ensures ExtractToken(authHeader).None? ==>
              r.status == StatusBadRequest && !r.body.success && CodeOf(r.body) == Some(InvalidToken)
              && r.body.error.Some? && r.body.error.value.message == TokenRequired && r.body.data.None?
    ensures ExtractToken(authHeader).Some? && subjectOf(ExtractToken(authHeader).value).None? ==>
              r.status == StatusServerError && !r.body.success && CodeOf(r.body) == Some(RuntimeError)
              && r.body.data.None?
    ensures ExtractToken(authHeader).Some? && subjectOf(ExtractToken(authHeader).value).Some? ==>
              r.status == StatusOk && r.body == service(subjectOf(ExtractToken(authHeader).value).value)
  {
    match ExtractToken(authHeader)
    case None => HttpReply(StatusBadRequest, Error(InvalidToken, TokenRequired))
    case Some(token) =>
      match subjectOf(token)
      case None => UnreadableToken()
      case Some(email) => HttpReply(StatusOk, service(email))
  }

  /** The reply never depends on the service when the token is missing or
      unreadable. */
  lemma NoSubjectIgnoresService<T>(authHeader: Option<string>, subjectOf: string -> Option<string>,
                                   first: string -> ResponseDto<T>, second: string -> ResponseDto<T>)
    requires ExtractToken(authHeader).None? || subjectOf(ExtractToken(authHeader).value).None?
    ensures WithToken(authHeader, subjectOf, first) == WithToken(authHeader, subjectOf, second)
  {
  }

  /** GET /users/profile over a given user collection. */
  function GetUserProfile(users: seq<Users.User>, authHeader: Option<string>, subjectOf: string -> Option<string>)
    : (r: HttpReply<Users.UserDto>)
    ensures ExtractToken(authHeader).None? ==> r.status == StatusBadRequest && CodeOf(r.body) == Some(InvalidToken)
    ensures ExtractToken(authHeader).Some? && subjectOf(ExtractToken(authHeader).value).None? ==>
              r.status == StatusServerError && CodeOf(r.body) == Some(RuntimeError)
    ensures ExtractToken(authHeader).Some? && subjectOf(ExtractToken(authHeader).value).Some? ==>
              r == HttpReply(StatusOk, UserService.GetUserProfile(users, subjectOf(ExtractToken(authHeader).value).value))
  {
    WithToken(authHeader, subjectOf, email => UserService.GetUserProfile(users, email))
  }
}
