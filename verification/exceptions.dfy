/** The exceptions that cross the boundaries of the modelled code, one
    constructor per Java class, and `Java<T>`: the outcome of a Java call that
    either returns a value or throws. */
module Exceptions {
  import opened Base

  datatype Exception =
    | ServiceException(message: Option<string>)
    | InvalidImageException(message: Option<string>)
    | NoInsectException(message: Option<string>)
    | InsectIdentificationException(message: Option<string>)
      /** Spring's `MaxUploadSizeExceededException`; its message is never shown. */
    | MaxUploadSizeExceeded(maxUploadSize: int)
    | NullPointer
      /** `new RuntimeException(cause)`. */
    | WrappedRuntime(cause: Exception)
      /** A failure of the HTTP client (connection, authentication, status). */
    | Transport(detail: string)
      /** `MultipartFile.getBytes()` failing with an `IOException`. */
    | Io(detail: string)

  /** What a Java call produced. */
  datatype Java<+T> = Returns(value: T) | Throws(exception: Exception)
}
