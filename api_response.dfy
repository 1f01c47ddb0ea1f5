/** The response envelope of src/utils/api-response.js and the errors the
    handlers throw instead of answering with one. */
module ApiResponses {
  import opened Common

  /** The message used when the constructor is called without one. */
  const DefaultMessage: string := "Success"

  /** `new ApiResponse(statusCode, data, message)` as it is serialised. */
  datatype ApiResponse<T> = ApiResponse(statusCode: int, data: T, message: string, success: bool)

  /** The constructor; `message` is None when the caller leaves the argument out. */
  function NewApiResponse<T>(statusCode: int, data: T, message: Option<string>): (r: ApiResponse<T>)
    ensures r.statusCode == statusCode && r.data == data
    ensures message.Some? ==> r.message == message.value
    ensures message.None? ==> r.message == DefaultMessage
    ensures r.success <==> 200 <= statusCode < 300
  {
    ApiResponse(statusCode, data,
                if message.Some? then message.value else DefaultMessage,
                statusCode >= 200 && statusCode < 300)
  }

  /** The errors the handlers throw, one per status code they use. */
  datatype ApiError =
    | BadRequest             // 400
    | Unauthorized           // 401
    | Forbidden              // 403
    | NotFound               // 404
    | Conflict               // 409
    | TokenInvalidOrExpired  // 489
    | Internal               // 500
  {
    function StatusCode(): (code: int)
      ensures 400 <= code < 600
    {
      match this
      case BadRequest => 400
      case Unauthorized => 401
      case Forbidden => 403
      case NotFound => 404
      case Conflict => 409
      case TokenInvalidOrExpired => 489
      case Internal => 500
    }
  }

  /** What a handler produces: the envelope it answers with, or the error it throws. */
  datatype Result<T> = Ok(response: ApiResponse<T>) | Err(error: ApiError)

  /** `success` is exactly "the status code is in the 2xx (successful) class"
      of section 15 of RFC 9110, stated by the class digit instead of the range. */
  lemma SuccessIsStatusClass2xx<T>(statusCode: int, data: T, message: Option<string>)
    ensures NewApiResponse(statusCode, data, message).success <==> statusCode / 100 == 2
  {
    if 200 <= statusCode < 300 {
      assert statusCode / 100 == 2;
    } else if statusCode < 200 {
      assert statusCode / 100 <= 1;
    } else {
      assert statusCode / 100 >= 3;
    }
  }

  /** The status codes the handlers answer with and throw, case by case. */
  lemma SuccessFlagExamples<T>(data: T)
    ensures NewApiResponse(200, data, None).success
    ensures NewApiResponse(201, data, None).success
    ensures !NewApiResponse(401, data, None).success
    ensures !NewApiResponse(403, data, None).success
    ensures !NewApiResponse(409, data, None).success
    ensures !NewApiResponse(489, data, None).success
    ensures NewApiResponse(200, data, None).message == "Success"
  {
  }

  /** No thrown error, wrapped in an envelope, would read as a success. */
  lemma ErrorsAreNeverSuccess<T>(e: ApiError, data: T, message: Option<string>)
    ensures !NewApiResponse(e.StatusCode(), data, message).success
  {
  }
}
