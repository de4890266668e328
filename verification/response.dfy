/**
 * The ResponseDTO envelope every service and handler answers with: a
 * success flag, an optional message, optional data and optional error
 * details. The static factories always build a consistent envelope: it
 * reports success exactly when it carries no error.
 */
module ResponseDto {
  import opened Base

  datatype ErrorDetails = ErrorDetails(code: string, message: string, details: Option<string>)

  datatype ResponseDto<T> = ResponseDto(
    success: bool,
    message: Option<string>,
    data: Option<T>,
    error: Option<ErrorDetails>)

  /** success is set exactly when no error is attached, and an error envelope carries no data. */
  predicate Consistent<T>(r: ResponseDto<T>)
  {
    (r.success <==> r.error.None?) && (!r.success ==> r.data.None?)
  }

  /** ResponseDTO.builder().build(): the only default is success = true. */
  function Builder<T>(): (r: ResponseDto<T>)
    ensures r.success && Consistent(r)
    ensures r.message.None? && r.data.None?
  {
    ResponseDto(true, None, None, None)
  }

  /** ResponseDTO.success(data). */
  function Success<T>(data: T): (r: ResponseDto<T>)
    ensures Consistent(r) && r.success
    ensures r.data == Some(data) && r.message.None?
  {
    Builder().(data := Some(data))
  }

  /** ResponseDTO.success(message, data). */
  function SuccessWithMessage<T>(message: string, data: Option<T>): (r: ResponseDto<T>)
    ensures Consistent(r) && r.success
    ensures r.data == data && r.message == Some(message)
  {
    Builder().(message := Some(message), data := data)
  }

  /** ResponseDTO.error(code, message). */
  function Error<T>(code: string, message: string): (r: ResponseDto<T>)
    ensures Consistent(r) && !r.success
    ensures r.error == Some(ErrorDetails(code, message, None))
    ensures r.message.None?
  {
    Builder().(success := false, error := Some(ErrorDetails(code, message, None)))
  }

  /** ResponseDTO.error(code, message, details). */
  function ErrorWithDetails<T>(code: string, message: string, details: string): (r: ResponseDto<T>)
    ensures Consistent(r) && !r.success
    ensures r.error == Some(ErrorDetails(code, message, Some(details)))
    ensures r.message.None?
  {
    Builder().(success := false, error := Some(ErrorDetails(code, message, Some(details))))
  }

  /** The error code an envelope reports, if any. */
  function CodeOf<T>(r: ResponseDto<T>): Option<string>
  {
    if r.error.Some? then Some(r.error.value.code) else None
  }
}
