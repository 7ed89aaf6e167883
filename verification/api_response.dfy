/** `models/ApiResponse`: the JSON envelope of the newer controllers, built
    only through four static factories and serialised with
    `@JsonInclude(NON_NULL)`. */
module ApiResponses {
  import opened Base

  /** The envelope's fields; `timestamp` is set to the current time by the
      private constructor and is not modelled beyond its presence. */
  datatype ApiResponse<T> = ApiResponse(
    success: bool,
    data: Option<T>,
    message: Option<string>,
    error: Option<string>)

  /** The shape every factory guarantees: a successful envelope carries no
      error code and a failed one carries no data. */
  predicate Coherent<T>(r: ApiResponse<T>) {
    (r.success ==> r.error.None?) && (!r.success ==> r.data.None?)
  }

  /** The JSON keys emitted under `NON_NULL`: `success` is a primitive and
      `timestamp` is always set, the rest only when non-null. */
  function EmittedKeys<T>(r: ApiResponse<T>): (keys: set<string>)
    ensures "success" in keys && "timestamp" in keys
    ensures "data" in keys <==> r.data.Some?
    ensures "message" in keys <==> r.message.Some?
    ensures "error" in keys <==> r.error.Some?
    ensures keys <= {"success", "data", "message", "error", "timestamp"}
  {
    {"success", "timestamp"}
      + (if r.data.Some? then {"data"} else {})
      + (if r.message.Some? then {"message"} else {})
      + (if r.error.Some? then {"error"} else {})
  }

  /** `ApiResponse.success(data)`. */
  function Success<T>(data: Option<T>): (r: ApiResponse<T>)
    ensures Coherent(r) && r.success
    ensures r.data == data && r.message.None?
    ensures EmittedKeys(r) == {"success", "timestamp"} + (if data.Some? then {"data"} else {})
  {
    ApiResponse(true, data, None, None)
  }

  /** `ApiResponse.success(data, message)`. */
  function SuccessWithMessage<T>(data: Option<T>, message: Option<string>): (r: ApiResponse<T>)
    ensures Coherent(r) && r.success
    ensures r.data.Some? ==> r.data == data
    ensures data.Some? && message.Some? ==> EmittedKeys(r) == {"success", "data", "message", "timestamp"}
    ensures r == Success(data).(message := message)
  {
    ApiResponse(true, data, message, None)
  }

  /** `ApiResponse.error(error)`. */
  function Error<T>(error: Option<string>): (r: ApiResponse<T>)
    ensures Coherent(r) && !r.success && r.data.None? && r.message.None?
    ensures r.error == error
    ensures EmittedKeys(r) == {"success", "timestamp"} + (if error.Some? then {"error"} else {})
  {
    ApiResponse(false, None, None, error)
  }

  /** `ApiResponse.error(error, message)`. */
  function ErrorWithMessage<T>(error: Option<string>, message: Option<string>): (r: ApiResponse<T>)
    ensures Coherent(r) && !r.success && r.data.None?
    ensures r.error == error && r.message == message
    ensures error.Some? && message.Some? ==> EmittedKeys(r) == {"success", "error", "message", "timestamp"}
    ensures r == Error(error).(message := message)
  {
    ApiResponse(false, None, message, error)
  }

  /** The serialised key set tells a success envelope from an error envelope
      whenever the error code is set: `error` appears exactly in the latter. */
  lemma KeysSeparateOutcomes<T>(d: Option<T>, m: Option<string>, e: string, m': Option<string>)
    ensures "error" !in EmittedKeys(SuccessWithMessage(d, m))
    ensures "error" in EmittedKeys(ErrorWithMessage<T>(Some(e), m'))
    ensures "data" !in EmittedKeys(ErrorWithMessage<T>(Some(e), m'))
  {
  }
}
