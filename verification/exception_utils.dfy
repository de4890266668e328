/**
 * The exceptions the application raises and the ExceptionUtils helpers that
 * raise them. A Java exception is a value here: its class (with the data
 * the handlers read from it) and its message. A helper that always throws
 * becomes a function returning the exception it throws; a guard that may
 * throw returns Some(exception) exactly when it throws.
 */
module ExceptionUtils {
  import opened Base

  /** The exception classes that reach the global handler, with the payload
      some handlers read (request method, parameter name, field errors). */
  datatype ExceptionClass =
    | JavaException                          // java.lang.Exception
    | RuntimeFailure                         // java.lang.RuntimeException
    | NullPointer
    | IllegalArgument
    | NumberFormat                           // extends IllegalArgumentException
    | IllegalState
    | UserNotFound
    | AppAuthentication                      // com.ideaspark.shared.exception.AuthenticationException
    | UserBlocked                            // extends the application AuthenticationException
    | Validation                             // com.ideaspark.shared.exception.ValidationException
    | ServiceFailure                         // ServiceException
    | EmailService
    | SmsService
    | Cloudinary
    | Export
    | PdfGeneration
    | Otp
    | SubscriptionFailure
    | SpringAuthentication                   // org.springframework.security.core.AuthenticationException
    | BadCredentials
    | AccessDenied
    | Bind
    | MethodArgumentNotValid(report: string) // rendering of the field-error report
    | ConstraintViolation
    | JakartaValidation                      // jakarta.validation.ValidationException
    | MethodNotSupported(httpMethod: string, supported: seq<string>)
    | MissingParameter(parameterName: string)
    | TypeMismatch(name: string, requiredType: string)
    | MaxUploadSizeExceeded

  datatype Raised = Raised(cls: ExceptionClass, message: string)

  /** The direct superclass among the classes above; java.lang.Exception has none. */
  function Superclass(c: ExceptionClass): Option<ExceptionClass>
  {
    match c
    case JavaException => None
    case RuntimeFailure => Some(JavaException)
    case NullPointer => Some(RuntimeFailure)
    case IllegalArgument => Some(RuntimeFailure)
    case NumberFormat => Some(IllegalArgument)
    case IllegalState => Some(RuntimeFailure)
    case UserNotFound => Some(RuntimeFailure)
    case AppAuthentication => Some(RuntimeFailure)
    case UserBlocked => Some(AppAuthentication)
    case Validation => Some(RuntimeFailure)
    case ServiceFailure => Some(RuntimeFailure)
    case EmailService => Some(ServiceFailure)
    case SmsService => Some(ServiceFailure)
    case Cloudinary => Some(ServiceFailure)
    case Export => Some(ServiceFailure)
    case PdfGeneration => Some(ServiceFailure)
    case Otp => Some(RuntimeFailure)
    case SubscriptionFailure => Some(RuntimeFailure)
    case SpringAuthentication => Some(RuntimeFailure)
    case BadCredentials => Some(SpringAuthentication)
    case AccessDenied => Some(RuntimeFailure)
    case Bind => Some(JavaException)
    case MethodArgumentNotValid(_) => Some(Bind)
    case ConstraintViolation => Some(JakartaValidation)
    case JakartaValidation => Some(RuntimeFailure)
    case MethodNotSupported(_, _) => Some(JavaException)
    case MissingParameter(_) => Some(JavaException)
    case TypeMismatch(_, _) => Some(RuntimeFailure)
    case MaxUploadSizeExceeded => Some(RuntimeFailure)
  }

  /** Distance to java.lang.Exception, which bounds every walk up the hierarchy. */
  function Depth(c: ExceptionClass): nat
  {
    match c
    case JavaException => 0
    case RuntimeFailure | Bind | MethodNotSupported(_, _) | MissingParameter(_) => 1
    case UserBlocked | EmailService | SmsService | Cloudinary | Export | PdfGeneration
      | NumberFormat | BadCredentials | ConstraintViolation => 3
    case _ => 2
  }

  /** Depth is the number of superclass steps up to java.lang.Exception. */
  lemma DepthCountsSuperclassSteps(c: ExceptionClass)
    ensures Superclass(c).None? <==> Depth(c) == 0
    ensures Superclass(c).Some? ==> Depth(c) == Depth(Superclass(c).value) + 1
  {
  }

  /** True when c is a RuntimeException, i.e. unchecked. */
  predicate Unchecked(c: ExceptionClass)
    decreases Depth(c)
  {
    c == RuntimeFailure || (Superclass(c).Some? && Unchecked(Superclass(c).value))
  }

  /** The always-raising helpers, one constructor per helper and its arguments. */
  datatype Helper =
    | ThrowUserNotFound(identifier: string)
    | ThrowUserNotFoundById(userId: string)
    | ThrowUserNotFoundByEmail(email: string)
    | ThrowUserBlockedFor(reason: string)
    | ThrowUserBlocked
    | ThrowInvalidCredentials
    | ThrowTokenExpired
    | ThrowInvalidToken
    | ThrowUnauthorized(text: string)
    | ThrowValidationError(text: string)
    | ThrowInvalidEmail
    | ThrowInvalidPhoneNumber
    | ThrowPasswordTooWeak
    | ThrowInvalidFileFormat(allowedFormats: string)
    | ThrowFileSizeExceeded(maxSize: string)
    | ThrowEmailServiceError(text: string)
    | ThrowSmsServiceError(text: string)
    | ThrowCloudinaryError(text: string)
    | ThrowPdfGenerationError(text: string)
    | ThrowExportError(text: string)
    | ThrowInvalidOtp
    | ThrowOtpExpired
    | ThrowOtpAlreadyVerified
    | ThrowTooManyOtpAttempts
    | ThrowOtpGenerationFailed
    | ThrowSubscriptionNotFound
    | ThrowSubscriptionExpired
    | ThrowSubscriptionAlreadyActive
    | ThrowInsufficientPermissions
    | ThrowPaymentFailed(reason: string)
    | LogAndThrowServiceError(operation: string)
    | LogAndThrowEmailError(operation: string)
    | LogAndThrowSmsError(operation: string)
    | LogAndThrowCloudinaryError(operation: string)

  const BlockedPrefix := "Your account has been blocked. Reason: "
  const BlockedFixed := "Your account has been blocked. Please contact support."

  const UserNotFoundText := "User not found with identifier: "
  const UserNotFoundByIdText := "User not found with ID: "
  const UserNotFoundByEmailText := "User not found with email: "
  const InvalidCredentialsText := "Invalid username or password"
  const TokenExpiredText := "Authentication token has expired"
  const InvalidTokenText := "Invalid authentication token"
  const InvalidEmailText := "Invalid email format"
  const InvalidPhoneNumberText := "Invalid phone number format"
  const PasswordTooWeakText := "Password must be at least 8 characters long and contain uppercase, lowercase, number and special character"
  const InvalidFileFormatText := "Invalid file format. Allowed formats: "
  const FileSizeExceededText := "File size exceeds the maximum allowed limit of "
  const EmailServiceErrorText := "Email service error: "
  const SmsServiceErrorText := "SMS service error: "
  const CloudinaryErrorText := "Image service error: "
  const PdfGenerationErrorText := "PDF generation error: "
  const ExportErrorText := "Export error: "
  const InvalidOtpText := "Invalid or expired OTP"
  const OtpExpiredText := "OTP has expired. Please request a new one"
  const OtpAlreadyVerifiedText := "OTP has already been verified"
  const TooManyOtpAttemptsText := "Too many OTP attempts. Please wait before requesting a new one"
  const OtpGenerationFailedText := "Failed to generate OTP. Please try again"
  const SubscriptionNotFoundText := "Subscription not found"
  const SubscriptionExpiredText := "Your subscription has expired. Please renew to continue using premium features"
  const SubscriptionAlreadyActiveText := "You already have an active subscription"
  const InsufficientPermissionsText := "This feature requires a premium subscription. Please upgrade to continue"
  const PaymentFailedText := "Payment failed: "
  const ServiceOperationText := "Operation failed: "
  const EmailOperationText := "Email operation failed: "
  const SmsOperationText := "SMS operation failed: "
  const CloudinaryOperationText := "Image operation failed: "

  /** The exception each helper throws; no helper returns normally. */
  function Raise(h: Helper): (e: Raised)
    ensures h.ThrowUserBlockedFor? ==> e.cls == UserBlocked && e.message == BlockedPrefix + h.reason
    ensures h.ThrowUserBlocked? ==> e.cls == UserBlocked && e.message == BlockedFixed
    ensures h.ThrowUnauthorized? ==> e.message == h.text
    ensures h.ThrowValidationError? ==> e.message == h.text
  {
    match h
    case ThrowUserNotFound(id) => Raised(UserNotFound, UserNotFoundText + id)
    case ThrowUserNotFoundById(id) => Raised(UserNotFound, UserNotFoundByIdText + id)
    case ThrowUserNotFoundByEmail(email) => Raised(UserNotFound, UserNotFoundByEmailText + email)
    case ThrowUserBlockedFor(reason) => Raised(UserBlocked, BlockedPrefix + reason)
    case ThrowUserBlocked => Raised(UserBlocked, BlockedFixed)
    case ThrowInvalidCredentials => Raised(AppAuthentication, InvalidCredentialsText)
    case ThrowTokenExpired => Raised(AppAuthentication, TokenExpiredText)
    case ThrowInvalidToken => Raised(AppAuthentication, InvalidTokenText)
    case ThrowUnauthorized(text) => Raised(AppAuthentication, text)
    case ThrowValidationError(text) => Raised(Validation, text)
    case ThrowInvalidEmail => Raised(Validation, InvalidEmailText)
    case ThrowInvalidPhoneNumber => Raised(Validation, InvalidPhoneNumberText)
    case ThrowPasswordTooWeak => Raised(Validation, PasswordTooWeakText)
    case ThrowInvalidFileFormat(allowed) => Raised(Validation, InvalidFileFormatText + allowed)
    case ThrowFileSizeExceeded(maxSize) => Raised(Validation, FileSizeExceededText + maxSize)
    case ThrowEmailServiceError(text) => Raised(EmailService, EmailServiceErrorText + text)
    case ThrowSmsServiceError(text) => Raised(SmsService, SmsServiceErrorText + text)
    case ThrowCloudinaryError(text) => Raised(Cloudinary, CloudinaryErrorText + text)
    case ThrowPdfGenerationError(text) => Raised(PdfGeneration, PdfGenerationErrorText + text)
    case ThrowExportError(text) => Raised(Export, ExportErrorText + text)
    case ThrowInvalidOtp => Raised(Otp, InvalidOtpText)
    case ThrowOtpExpired => Raised(Otp, OtpExpiredText)
    case ThrowOtpAlreadyVerified => Raised(Otp, OtpAlreadyVerifiedText)
    case ThrowTooManyOtpAttempts => Raised(Otp, TooManyOtpAttemptsText)
    case ThrowOtpGenerationFailed => Raised(Otp, OtpGenerationFailedText)
    case ThrowSubscriptionNotFound => Raised(SubscriptionFailure, SubscriptionNotFoundText)
    case ThrowSubscriptionExpired => Raised(SubscriptionFailure, SubscriptionExpiredText)
    case ThrowSubscriptionAlreadyActive => Raised(SubscriptionFailure, SubscriptionAlreadyActiveText)
    case ThrowInsufficientPermissions => Raised(SubscriptionFailure, InsufficientPermissionsText)
    case ThrowPaymentFailed(reason) => Raised(SubscriptionFailure, PaymentFailedText + reason)
    case LogAndThrowServiceError(op) => Raised(ServiceFailure, ServiceOperationText + op)
    case LogAndThrowEmailError(op) => Raised(EmailService, EmailOperationText + op)
    case LogAndThrowSmsError(op) => Raised(SmsService, SmsOperationText + op)
    case LogAndThrowCloudinaryError(op) => Raised(Cloudinary, CloudinaryOperationText + op)
  }

  /** throwIfNull: throws a ValidationException with the message exactly when the value is absent. */
  function ThrowIfNull<T>(value: Option<T>, message: string): (r: Option<Raised>)
    ensures r.Some? <==> value.None?
    ensures r.Some? ==> r.value == Raised(Validation, message)
  {
    if value.None? then Some(Raised(Validation, message)) else None
  }

  /** throwIfEmpty: throws exactly when the value is absent or String.trim leaves
      nothing, i.e. every character is at or below U+0020. */
  function ThrowIfEmpty(value: Option<string>, fieldName: string): (r: Option<Raised>)
    ensures r.Some? <==> value.None? || forall i :: 0 <= i < |value.value| ==> value.value[i] <= ' '
    ensures r.Some? ==> r.value == Raised(Validation, fieldName + CannotBeEmptyText)
  {
    if value.None? || Trim(value.value) == [] then Some(Raised(Validation, fieldName + CannotBeEmptyText))
    else None
  }

  /** throwIfBlank: throws exactly when the value is absent or String.isBlank holds. */
  function ThrowIfBlank(value: Option<string>, fieldName: string): (r: Option<Raised>)
    ensures r.Some? <==> value.None? || forall i :: 0 <= i < |value.value| ==> IsWhitespace(value.value[i])
    ensures r.Some? ==> r.value == Raised(Validation, fieldName + CannotBeBlankText)
  {
    if value.None? || IsBlank(value.value) then Some(Raised(Validation, fieldName + CannotBeBlankText))
    else None
  }

  /** throwIfTrue: throws exactly when the condition holds. */
  function ThrowIfTrue(condition: bool, message: string): (r: Option<Raised>)
    ensures r.Some? <==> condition
    ensures r.Some? ==> r.value == Raised(Validation, message)
  {
    if condition then Some(Raised(Validation, message)) else None
  }

  /** throwIfFalse: throws exactly when the condition fails. */
  function ThrowIfFalse(condition: bool, message: string): (r: Option<Raised>)
    ensures r.Some? <==> !condition
    ensures r.Some? ==> r.value == Raised(Validation, message)
  {
    ThrowIfTrue(!condition, message)
  }

  /** throwIfEmpty and throwIfBlank disagree in one direction: a control
      character below TAB (NUL among them) is trimmed away but is not
      whitespace, so throwIfEmpty rejects it and throwIfBlank accepts it. */
  lemma TrimmedButNotBlank(c: char, fieldName: string)
    requires c as int < 9
    ensures ThrowIfEmpty(Some([c]), fieldName).Some?
    ensures ThrowIfBlank(Some([c]), fieldName).None?
  {
    assert !IsWhitespace([c][0]);
  }

  /** ... and in the other: the Unicode spaces U+2000..U+2006 (the em space
      among them) are whitespace but lie above U+0020, so throwIfBlank
      rejects them and throwIfEmpty accepts them. */
  lemma BlankButNotTrimmed(c: char, fieldName: string)
    requires 0x2000 <= c as int <= 0x2006
    ensures ThrowIfEmpty(Some([c]), fieldName).None?
    ensures ThrowIfBlank(Some([c]), fieldName).Some?
  {
    assert [c][0] > ' ';
  }

  const CannotBeEmptyText := " cannot be empty"
  const CannotBeBlankText := " cannot be blank"

  /** Every helper throws an unchecked exception, so none of them needs a throws clause. */
  lemma HelpersThrowUnchecked(h: Helper)
    ensures Unchecked(Raise(h).cls)
  {
    var c := Raise(h).cls;
    assert Superclass(c).Some?;
    var p := Superclass(c).value;
    assert p == RuntimeFailure || Superclass(p) == Some(RuntimeFailure);
  }
}
