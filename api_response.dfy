/** The response envelope every controller action returns: a success flag, an optional
    message and, in the generic form, an optional payload. */
module ApiResponses {
  import opened Wrappers

  /** `ApiResponse<T>`. `None` data stands for `default(T)`, which is null for the reference
      types the controllers put in it. */
  datatype ApiResponse<T> = ApiResponse(success: bool, message: Option<string>, data: Option<T>)

  /** The parameterless constructor: nothing set, and `Success` starts out false. */
  function Default<T>(): (r: ApiResponse<T>)
    ensures !r.success && r.message.None? && r.data.None?
  {
    ApiResponse(false, None, None)
  }

  /** The three-argument constructor, with its defaults: success true, no message. */
  function Create<T>(data: Option<T>, success: bool := true, message: Option<string> := None): (r: ApiResponse<T>)
    ensures r.success == success && r.message == message && r.data == data
  {
    ApiResponse(success, message, data)
  }

  /** `ApiResponse<T>.Ok`: a successful response carrying `data` and the optional message. */
  function Ok<T>(data: T, message: Option<string> := None): (r: ApiResponse<T>)
    ensures r.success && r.data == Some(data) && r.message == message
  {
    Create(Some(data), true, message)
  }

  /** `ApiResponse<T>.Fail`: a failed response carrying the message and no data. */
  function Fail<T>(message: string): (r: ApiResponse<T>)
    ensures !r.success && r.data.None? && r.message == Some(message)
  {
    Create(None, false, Some(message))
  }

  /** The non-generic `ApiResponse`: a success flag and an optional message. */
  datatype PlainApiResponse = PlainApiResponse(success: bool, message: Option<string>)

  /** The parameterless constructor of the non-generic form: `Success` starts out true. */
  function PlainDefault(): (r: PlainApiResponse)
    ensures r.success && r.message.None?
  {
    PlainApiResponse(true, None)
  }

  /** The two-argument constructor of the non-generic form, with its defaults. */
  function PlainCreate(success: bool := true, message: Option<string> := None): (r: PlainApiResponse)
    ensures r.success == success && r.message == message
  {
    PlainApiResponse(success, message)
  }

  /** Non-generic `ApiResponse.Ok`. */
  function PlainOk(message: Option<string> := None): (r: PlainApiResponse)
    ensures r.success && r.message == message
  {
    PlainCreate(true, message)
  }

  /** Non-generic `ApiResponse.Fail`. */
  function PlainFail(message: string): (r: PlainApiResponse)
    ensures !r.success && r.message == Some(message)
  {
    PlainCreate(false, Some(message))
  }

  /** The two default constructors disagree: a generic response nobody filled in reads as a
      failure, a non-generic one as a success. */
  lemma DefaultsDisagree<T>()
    ensures !Default<T>().success && PlainDefault().success
  {
  }
}
