/**
 * GlobalExceptionHandler: the table from exception class to HTTP status and
 * error code. Spring picks the handler declared for the closest class on the
 * exception's superclass chain, so a UserBlockedException is answered by its
 * own handler and not by the one for its superclass, while a
 * PdfGenerationException, which has none of its own, is answered by the
 * ServiceException handler.
 */
module GlobalExceptionHandler {
  import opened Base
  import opened ExceptionUtils
  import opened ResponseDto

  datatype HttpResponse = HttpResponse(status: int, body: ResponseDto<()>)

  const UnexpectedText := "An unexpected error occurred"
  const EmailUnavailableText := "Email service is currently unavailable. Please try again later."
  const SmsUnavailableText := "SMS service is currently unavailable. Please try again later."
  const ImageUnavailableText := "Image service is currently unavailable. Please try again later."
  const InvalidCredentialsReply := "Invalid credentials"
  const BadCredentialsReply := "Invalid username or password"
  const AccessDeniedReply := "You don't have permission to access this resource"
  const FieldsInvalidReply := "Validation failed for one or more fields"
  const BindReply := "Data binding failed"
  const ConstraintReply := "Constraint validation failed"
  const FileTooLargeReply := "File size exceeds the maximum allowed limit"

  function Reply(status: int, code: string, message: string): (r: HttpResponse)
    ensures r.status == status && Consistent(r.body) && !r.body.success
    ensures r.body.error == Some(ErrorDetails(code, message, None)) && r.body.data.None?
  {
    HttpResponse(status, Error(code, message))
  }

  /** String.join(", ", items). */
  function JoinComma(items: seq<string>): string
  {
    if items == [] then ""
    else if |items| == 1 then items[0]
    else items[0] + ", " + JoinComma(items[1..])
  }

  /** The response of the handler declared for exactly this class, if one is. */
  function OwnHandler(c: ExceptionClass, message: string): (r: Option<HttpResponse>)
    ensures r.Some? <==> HasHandler(c)
    ensures r.Some? ==> 400 <= r.value.status < 600
    ensures r.Some? ==> Consistent(r.value.body) && !r.value.body.success
  {
    match c
    case UserNotFound => Some(Reply(404, "USER_NOT_FOUND", message))
    case AppAuthentication => Some(Reply(401, "AUTHENTICATION_FAILED", message))
    case UserBlocked => Some(Reply(403, "USER_BLOCKED", message))
    case Validation => Some(Reply(400, "VALIDATION_FAILED", message))
    case ServiceFailure => Some(Reply(500, "SERVICE_ERROR", message))
    case EmailService => Some(Reply(503, "EMAIL_SERVICE_ERROR", EmailUnavailableText))
    case SmsService => Some(Reply(503, "SMS_SERVICE_ERROR", SmsUnavailableText))
    case Cloudinary => Some(Reply(503, "IMAGE_SERVICE_ERROR", ImageUnavailableText))
    case Export => Some(Reply(500, "EXPORT_ERROR", message))
    case SpringAuthentication => Some(Reply(401, "AUTHENTICATION_FAILED", InvalidCredentialsReply))
    case BadCredentials => Some(Reply(401, "BAD_CREDENTIALS", BadCredentialsReply))
    case AccessDenied => Some(Reply(403, "ACCESS_DENIED", AccessDeniedReply))
    case MethodArgumentNotValid(report) =>
      Some(HttpResponse(400, ErrorWithDetails("VALIDATION_FAILED", FieldsInvalidReply, report)))
    case Bind => Some(Reply(400, "BIND_ERROR", BindReply))
    case ConstraintViolation => Some(Reply(400, "CONSTRAINT_VIOLATION", ConstraintReply))
    case MethodNotSupported(m, supported) =>
      Some(Reply(405, "METHOD_NOT_ALLOWED",
        "Request method '" + m + "' not supported. Supported methods: " + JoinComma(supported)))
    case MissingParameter(name) =>
      Some(Reply(400, "MISSING_PARAMETER", "Required parameter '" + name + "' is missing"))
    case TypeMismatch(name, requiredType) =>
      Some(Reply(400, "TYPE_MISMATCH", "Parameter '" + name + "' should be of type " + requiredType))
    case MaxUploadSizeExceeded => Some(Reply(413, "FILE_SIZE_EXCEEDED", FileTooLargeReply))
    case IllegalArgument => Some(Reply(400, "ILLEGAL_ARGUMENT", message))
    case IllegalState => Some(Reply(409, "ILLEGAL_STATE", message))
    case RuntimeFailure => Some(Reply(500, "RUNTIME_ERROR", UnexpectedText))
    case JavaException => Some(Reply(500, "INTERNAL_SERVER_ERROR", UnexpectedText))
    case NullPointer | NumberFormat | PdfGeneration | Otp | SubscriptionFailure | JakartaValidation => None
  }

  /** Every class above has a handler of its own except these six. */
  predicate HasHandler(c: ExceptionClass)
  {
    !(c.NullPointer? || c.NumberFormat? || c.PdfGeneration? || c.Otp? || c.SubscriptionFailure?
      || c.JakartaValidation?)
  }

  /** The class itself followed by its superclasses, ending at java.lang.Exception. */
  function Ancestry(c: ExceptionClass): (chain: seq<ExceptionClass>)
    decreases Depth(c)
    ensures |chain| >= 1 && chain[0] == c
  {
    if Superclass(c).None? then [c] else [c] + Ancestry(Superclass(c).value)
  }

  /** The position on the chain of the handler Spring selects: the first class
      that has a handler of its own, every class before it having none. */
  function NearestHandled(c: ExceptionClass): (k: nat)
    decreases Depth(c)
    ensures k < |Ancestry(c)| && HasHandler(Ancestry(c)[k])
    ensures forall j :: 0 <= j < k ==> !HasHandler(Ancestry(c)[j])
  {
    if HasHandler(c) then 0
    else
      var k := NearestHandled(Superclass(c).value);
      assert Ancestry(c) == [c] + Ancestry(Superclass(c).value);
      k + 1
  }

  /** The response for a raised exception: always an error envelope, never a
      success, with a 4xx or 5xx status. */
  function Handle(e: Raised): (r: HttpResponse)
    ensures 400 <= r.status < 600
    ensures Consistent(r.body) && !r.body.success && r.body.data.None?
  {
    OwnHandler(Ancestry(e.cls)[NearestHandled(e.cls)], e.message).value
  }

  function Status(e: Raised): int
  {
    Handle(e).status
  }

  function Code(e: Raised): string
  {
    Handle(e).body.error.value.code
  }

  function Message(e: Raised): string
  {
    Handle(e).body.error.value.message
  }

  /** A blocked user gets 403 USER_BLOCKED with the exception's own message,
      not the 401 of the application AuthenticationException it extends. */
  lemma UserBlockedUsesMostSpecificHandler(m: string)
    ensures Handle(Raised(UserBlocked, m)) == Reply(403, "USER_BLOCKED", m)
    ensures Status(Raised(AppAuthentication, m)) == 401
  {
    assert HasHandler(UserBlocked);
  }

  /** Classes without a handler of their own fall through to their superclass's:
      PDF generation failures to SERVICE_ERROR with their message, number
      format failures to ILLEGAL_ARGUMENT, and OTP, subscription,
      null-pointer and Jakarta validation failures to the generic 500. */
  lemma InheritedHandlers(m: string)
    ensures Handle(Raised(PdfGeneration, m)) == Reply(500, "SERVICE_ERROR", m)
    ensures Handle(Raised(NumberFormat, m)) == Reply(400, "ILLEGAL_ARGUMENT", m)
    ensures Handle(Raised(Otp, m)) == Reply(500, "RUNTIME_ERROR", UnexpectedText)
    ensures Handle(Raised(SubscriptionFailure, m)) == Reply(500, "RUNTIME_ERROR", UnexpectedText)
    ensures Handle(Raised(NullPointer, m)) == Reply(500, "RUNTIME_ERROR", UnexpectedText)
    ensures Handle(Raised(JakartaValidation, m)) == Reply(500, "RUNTIME_ERROR", UnexpectedText)
  {
    assert Ancestry(PdfGeneration)[1] == ServiceFailure;
    assert Ancestry(NumberFormat)[1] == IllegalArgument;
    assert Ancestry(Otp)[1] == RuntimeFailure;
    assert Ancestry(SubscriptionFailure)[1] == RuntimeFailure;
    assert Ancestry(NullPointer)[1] == RuntimeFailure;
    assert Ancestry(JakartaValidation)[1] == RuntimeFailure;
  }

  /** An IllegalArgumentException is a bad request and an
      IllegalStateException a conflict; both pass their message through. */
  lemma IllegalArgumentAndStateHandlers(m: string)
    ensures Handle(Raised(IllegalArgument, m)) == Reply(400, "ILLEGAL_ARGUMENT", m)
    ensures Handle(Raised(IllegalState, m)) == Reply(409, "ILLEGAL_STATE", m)
    ensures Status(Raised(IllegalState, m)) == 409 && Message(Raised(IllegalState, m)) == m
  {
  }

  /** The three gateway handlers answer 503 with a fixed text: the response does
      not depend on the exception's message at all. */
  lemma GatewayFailuresHideMessage(c: ExceptionClass, m1: string, m2: string)
    requires c == EmailService || c == SmsService || c == Cloudinary
    ensures Handle(Raised(c, m1)) == Handle(Raised(c, m2))
    ensures Status(Raised(c, m1)) == 503
  {
    assert HasHandler(c);
  }

  /** Whatever reaches the RuntimeException or Exception handler is answered
      with 500 and the same fixed text, whatever its message was. */
  lemma FallbackHidesMessage(c: ExceptionClass, m1: string, m2: string)
    requires Ancestry(c)[NearestHandled(c)] in {RuntimeFailure, JavaException}
    ensures Status(Raised(c, m1)) == 500
    ensures Message(Raised(c, m1)) == UnexpectedText
    ensures Handle(Raised(c, m1)) == Handle(Raised(c, m2))
  {
  }

  /** The user-not-found helpers are answered 404 USER_NOT_FOUND. */
  lemma NotFoundHelpersAnswer404(h: Helper)
    requires h.ThrowUserNotFound? || h.ThrowUserNotFoundById? || h.ThrowUserNotFoundByEmail?
    ensures Status(Raise(h)) == 404 && Code(Raise(h)) == "USER_NOT_FOUND"
  {
    assert Raise(h).cls == UserNotFound;
  }

  /** The authentication helpers are answered 401 AUTHENTICATION_FAILED, the
      blocked-user helpers 403 USER_BLOCKED. */
  lemma AuthenticationHelpersAnswer401Or403(h: Helper)
    requires h.ThrowInvalidCredentials? || h.ThrowTokenExpired? || h.ThrowInvalidToken? || h.ThrowUnauthorized?
      || h.ThrowUserBlocked? || h.ThrowUserBlockedFor?
    ensures (h.ThrowUserBlocked? || h.ThrowUserBlockedFor?) ==> Status(Raise(h)) == 403 && Code(Raise(h)) == "USER_BLOCKED"
    ensures !(h.ThrowUserBlocked? || h.ThrowUserBlockedFor?) ==>
      Status(Raise(h)) == 401 && Code(Raise(h)) == "AUTHENTICATION_FAILED"
  {
    assert Raise(h).cls in {AppAuthentication, UserBlocked};
  }

  /** The validation helpers are answered 400 VALIDATION_FAILED with their own message. */
  lemma ValidationHelpersAnswer400(h: Helper)
    requires h.ThrowValidationError? || h.ThrowInvalidEmail? || h.ThrowInvalidPhoneNumber?
      || h.ThrowPasswordTooWeak? || h.ThrowInvalidFileFormat? || h.ThrowFileSizeExceeded?
    ensures Status(Raise(h)) == 400 && Code(Raise(h)) == "VALIDATION_FAILED"
    ensures Message(Raise(h)) == Raise(h).message
  {
    assert Raise(h).cls == Validation;
  }

  /** The e-mail, SMS and image helpers are answered 503. */
  lemma GatewayHelpersAnswer503(h: Helper)
    requires h.ThrowEmailServiceError? || h.ThrowSmsServiceError? || h.ThrowCloudinaryError?
      || h.LogAndThrowEmailError? || h.LogAndThrowSmsError? || h.LogAndThrowCloudinaryError?
    ensures Status(Raise(h)) == 503
  {
    assert Raise(h).cls in {EmailService, SmsService, Cloudinary};
  }

  /** OtpException and SubscriptionException have no handler of their own: the
      OTP and subscription helpers are answered 500 RUNTIME_ERROR with the
      generic text, and their own messages never reach the client. */
  lemma OtpAndSubscriptionHelpersAnswer500(h: Helper)
    requires h.ThrowInvalidOtp? || h.ThrowOtpExpired? || h.ThrowOtpAlreadyVerified?
      || h.ThrowTooManyOtpAttempts? || h.ThrowOtpGenerationFailed?
      || h.ThrowSubscriptionNotFound? || h.ThrowSubscriptionExpired?
      || h.ThrowSubscriptionAlreadyActive? || h.ThrowInsufficientPermissions? || h.ThrowPaymentFailed?
    ensures Status(Raise(h)) == 500 && Code(Raise(h)) == "RUNTIME_ERROR"
    ensures Message(Raise(h)) == UnexpectedText
  {
    var e := Raise(h);
    assert e.cls == Otp || e.cls == SubscriptionFailure;
    RuntimeSubclassAnswer500(e);
  }

  /** An exception whose class is OtpException or SubscriptionException is
      answered by the RuntimeException handler. */
  lemma RuntimeSubclassAnswer500(e: Raised)
    requires e.cls == Otp || e.cls == SubscriptionFailure
    ensures Status(e) == 500 && Code(e) == "RUNTIME_ERROR" && Message(e) == UnexpectedText
  {
    assert Ancestry(e.cls)[1] == RuntimeFailure;
  }
}
