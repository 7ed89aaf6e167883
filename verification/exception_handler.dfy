/** `exceptions/GlobalExceptionHandler`: five `@ExceptionHandler` methods, and
    Spring's rule for choosing among them: the handler whose declared
    exception class is the closest superclass (or the class itself) of the
    thrown exception wins. */
module GlobalExceptionHandler {
  import opened Base
  import opened Exceptions
  import opened ApiResponses

  /** The Java classes involved, with `java.lang.Exception` as the root. */
  datatype ExceptionClass =
    | ExceptionClass
    | RuntimeExceptionClass
    | NestedRuntimeExceptionClass
    | MultipartExceptionClass
    | MaxUploadSizeExceededClass
    | ServiceExceptionClass
    | InvalidImageExceptionClass
    | NoInsectExceptionClass
    | InsectIdentificationExceptionClass
    | NullPointerExceptionClass
    | TransportExceptionClass
    | IoExceptionClass

  function Superclass(c: ExceptionClass): Option<ExceptionClass> {
    match c
    case ExceptionClass => None
    case RuntimeExceptionClass => Some(ExceptionClass)
    case NestedRuntimeExceptionClass => Some(RuntimeExceptionClass)
    case MultipartExceptionClass => Some(NestedRuntimeExceptionClass)
    case MaxUploadSizeExceededClass => Some(MultipartExceptionClass)
    case ServiceExceptionClass => Some(RuntimeExceptionClass)
    case InvalidImageExceptionClass => Some(RuntimeExceptionClass)
    case NoInsectExceptionClass => Some(RuntimeExceptionClass)
    case InsectIdentificationExceptionClass => Some(RuntimeExceptionClass)
    case NullPointerExceptionClass => Some(RuntimeExceptionClass)
    case TransportExceptionClass => Some(RuntimeExceptionClass)
    case IoExceptionClass => Some(ExceptionClass)
  }

  /** Distance from `java.lang.Exception`. */
  function Depth(c: ExceptionClass): nat {
    match c
    case ExceptionClass => 0
    case RuntimeExceptionClass => 1
    case IoExceptionClass => 1
    case NestedRuntimeExceptionClass => 2
    case MultipartExceptionClass => 3
    case MaxUploadSizeExceededClass => 4
    case _ => 2
  }

  /** The class itself, then its superclasses up to `java.lang.Exception`. */
  function Lineage(c: ExceptionClass): (l: seq<ExceptionClass>)
    ensures |l| > 0 && l[0] == c && l[|l| - 1] == ExceptionClass
    decreases Depth(c)
  {
    match Superclass(c)
    case None => [c]
    case Some(s) => [c] + Lineage(s)
  }

  function ClassOf(ex: Exception): ExceptionClass {
    match ex
    case ServiceException(_) => ServiceExceptionClass
    case InvalidImageException(_) => InvalidImageExceptionClass
    case NoInsectException(_) => NoInsectExceptionClass
    case InsectIdentificationException(_) => InsectIdentificationExceptionClass
    case MaxUploadSizeExceeded(_) => MaxUploadSizeExceededClass
    case NullPointer => NullPointerExceptionClass
    case WrappedRuntime(_) => RuntimeExceptionClass
    case Transport(_) => TransportExceptionClass
    case Io(_) => IoExceptionClass
  }

  /** `ex.getMessage()` for the four application exceptions, which carry the
      message they were built with; the handlers never read it for others. */
  function GetMessage(ex: Exception): Option<string> {
    match ex
    case ServiceException(m) => m
    case InvalidImageException(m) => m
    case NoInsectException(m) => m
    case InsectIdentificationException(m) => m
    case _ => None
  }

  /** The declared exception types of the handler methods, in source order. */
  const HandlerClasses: seq<ExceptionClass> :=
    [ServiceExceptionClass, InvalidImageExceptionClass, MaxUploadSizeExceededClass,
     ExceptionClass, NoInsectExceptionClass]

  /** Index of the first element of `s` that belongs to `wanted`, or `|s|`. */
  function FirstIn<T(==)>(s: seq<T>, wanted: seq<T>): (k: nat)
    ensures k <= |s|
    ensures k < |s| ==> s[k] in wanted
    ensures forall j :: 0 <= j < k ==> s[j] !in wanted
  {
    if |s| == 0 then 0
    else if s[0] in wanted then 0
    else 1 + FirstIn(s[1..], wanted)
  }

  /** The handler Spring invokes: the class's own when it has one, otherwise
      the one its superclass resolves to. */
  function ResolveHandler(c: ExceptionClass): (h: ExceptionClass)
    ensures h in HandlerClasses
    decreases Depth(c)
  {
    if c in HandlerClasses then c
    else
      match Superclass(c)
      case None => assert false; c
      case Some(p) => ResolveHandler(p)
  }

  /** The resolved handler is the first class of the lineage, read from the
      class itself upwards, that has a handler. */
  lemma {:induction false} ResolveIsNearestInLineage(c: ExceptionClass)
    ensures ResolveHandler(c) == Lineage(c)[FirstIn(Lineage(c), HandlerClasses)]
    ensures ResolveHandler(c) in Lineage(c)
    decreases Depth(c)
  {
    var l := Lineage(c);
    assert l[|l| - 1] in HandlerClasses;
    if c !in HandlerClasses {
      var p := Superclass(c).value;
      assert l == [c] + Lineage(p);
      assert l[1..] == Lineage(p);
      assert FirstIn(l, HandlerClasses) == 1 + FirstIn(Lineage(p), HandlerClasses);
      ResolveIsNearestInLineage(p);
    }
  }

  const FileTooLargeMessage: string := "The uploaded image is too large"
  const UnexpectedMessage: string := "An unexpected error occurred"
  const NoInsectMessage: string := "No insect identified"

  datatype ErrorResponse = ErrorResponse(status: int, body: ApiResponse<()>)

  /** The response the advice produces for an exception thrown by a
      controller of the newer revision. */
  function Handle(ex: Exception): (r: ErrorResponse)
    ensures Coherent(r.body) && !r.body.success && r.body.data.None? && r.body.error.Some?
    ensures 400 <= r.status < 600
  {
    match ResolveHandler(ClassOf(ex))
    case ServiceExceptionClass =>
      ErrorResponse(502, ErrorWithMessage(Some("SERVICE_FAILED"), GetMessage(ex)))
    case InvalidImageExceptionClass =>
      ErrorResponse(400, ErrorWithMessage(Some("INVALID_IMAGE"), GetMessage(ex)))
    case MaxUploadSizeExceededClass =>
      ErrorResponse(413, ErrorWithMessage(Some("FILE_TOO_LARGE"), Some(FileTooLargeMessage)))
    case NoInsectExceptionClass =>
      ErrorResponse(404, ErrorWithMessage(Some("NO_INSECT"), Some(NoInsectMessage)))
    case _ =>
      ErrorResponse(500, ErrorWithMessage(Some("INTERNAL_ERROR"), Some(UnexpectedMessage)))
  }

  /** The exception kinds named by a handler other than the generic one. */
  predicate HasDedicatedHandler(ex: Exception) {
    ex.ServiceException? || ex.InvalidImageException? || ex.MaxUploadSizeExceeded? || ex.NoInsectException?
  }

  /** Each dedicated handler catches its own class, and the generic handler
      catches everything else, `InsectIdentificationException` included. */
  lemma {:induction false} ResolutionIsMostSpecific(ex: Exception)
    ensures ex.ServiceException? ==> ResolveHandler(ClassOf(ex)) == ServiceExceptionClass
    ensures ex.InvalidImageException? ==> ResolveHandler(ClassOf(ex)) == InvalidImageExceptionClass
    ensures ex.MaxUploadSizeExceeded? ==> ResolveHandler(ClassOf(ex)) == MaxUploadSizeExceededClass
    ensures ex.NoInsectException? ==> ResolveHandler(ClassOf(ex)) == NoInsectExceptionClass
    ensures !HasDedicatedHandler(ex) ==> ResolveHandler(ClassOf(ex)) == ExceptionClass
  {
    assert ResolveHandler(RuntimeExceptionClass) == ExceptionClass;
  }

  /** The status, error code and message each exception kind receives. */
  lemma HandledOutcomes(ex: Exception)
    ensures ex.ServiceException? ==>
      Handle(ex) == ErrorResponse(502, ErrorWithMessage(Some("SERVICE_FAILED"), ex.message))
    ensures ex.InvalidImageException? ==>
      Handle(ex) == ErrorResponse(400, ErrorWithMessage(Some("INVALID_IMAGE"), ex.message))
    ensures ex.MaxUploadSizeExceeded? ==>
      Handle(ex) == ErrorResponse(413, ErrorWithMessage(Some("FILE_TOO_LARGE"), Some(FileTooLargeMessage)))
    ensures ex.NoInsectException? ==>
      Handle(ex) == ErrorResponse(404, ErrorWithMessage(Some("NO_INSECT"), Some(NoInsectMessage)))
    ensures !HasDedicatedHandler(ex) ==>
      Handle(ex) == ErrorResponse(500, ErrorWithMessage(Some("INTERNAL_ERROR"), Some(UnexpectedMessage)))
  {
    ResolutionIsMostSpecific(ex);
  }

  /** The status code and the error code determine each other. */
  lemma StatusMatchesCode(a: Exception, b: Exception)
    ensures Handle(a).status == Handle(b).status <==> Handle(a).body.error == Handle(b).body.error
  {
    HandledOutcomes(a);
    HandledOutcomes(b);
  }
}
