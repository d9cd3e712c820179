/** `ExceptionMiddleware`: runs the rest of the request pipeline and, when it
    throws, answers with a JSON error body whose status and `ErrorType`
    depend only on the kind of exception. */
module Middleware {
  import opened Outcomes

  /** The three kinds the middleware tells apart. */
  datatype ExceptionKind = NotFoundException | BadRequestException | OtherException

  /** A thrown exception: its kind and its `Message`. */
  datatype Exception = Exception(kind: ExceptionKind, message: string)

  /** `ErrorDeatils`, the response body record. */
  datatype ErrorDetails = ErrorDetails(errorType: string, errorMessage: string)

  /** What the classification decides: the status code and the `ErrorType`. */
  datatype Classification = Classification(statusCode: int, errorType: string)

  const JsonContentType := "application/json"
  const StatusNotFound := 404
  const StatusBadRequest := 400
  const StatusInternalServerError := 500
  const NotFoundType := "Not Found"
  const BadRequestType := "Bad Request"
  const FailureType := "Failure"

  /** The switch of `HandleExceptionAsync`, as a function of the kind. */
  function Classify(kind: ExceptionKind): (c: Classification)
    ensures c.statusCode in {StatusNotFound, StatusBadRequest, StatusInternalServerError}
    ensures c.errorType in {NotFoundType, BadRequestType, FailureType}
  {
    match kind
    case NotFoundException => Classification(StatusNotFound, NotFoundType)
    case BadRequestException => Classification(StatusBadRequest, BadRequestType)
    case OtherException => Classification(StatusInternalServerError, FailureType)
  }

  /** The three outcomes of the switch: not-found is 404 "Not Found",
      bad-request is 400 "Bad Request", anything else keeps the initial
      500 "Failure". */
  lemma ClassifyKinds()
    ensures Classify(NotFoundException) == Classification(404, "Not Found")
    ensures Classify(BadRequestException) == Classification(400, "Bad Request")
    ensures Classify(OtherException) == Classification(500, "Failure")
  {
  }

  /** The two domain exceptions are reported as client errors (4xx); any
      other exception as a server error (5xx) with `ErrorType` "Failure". */
  lemma ClassifyClientOrServer(kind: ExceptionKind)
    ensures kind != OtherException <==> 400 <= Classify(kind).statusCode < 500
    ensures kind == OtherException <==> 500 <= Classify(kind).statusCode < 600
    ensures kind == OtherException <==> Classify(kind).errorType == FailureType
  {
  }

  /** Distinct kinds are told apart by their status alone and by their
      `ErrorType` alone. */
  lemma ClassifyIsInjective(a: ExceptionKind, b: ExceptionKind)
    ensures Classify(a).statusCode == Classify(b).statusCode <==> a == b
    ensures Classify(a).errorType == Classify(b).errorType <==> a == b
  {
  }

  /** The body the middleware builds: the classified `ErrorType` and the
      exception's message unchanged. */
  function DetailsOf(ex: Exception): (d: ErrorDetails)
    ensures d.errorMessage == ex.message
    ensures d.errorType == Classify(ex.kind).errorType
  {
    ErrorDetails(Classify(ex.kind).errorType, ex.message)
  }

  /** How a repository failure surfaces: a not-found failure is a
      `NotFoundException`; the store's concurrency failure is any other
      exception. The exception classes' message formats are not part of this
      model, so the message is given. */
  function ToException(f: Failure, message: string): (ex: Exception)
    ensures ex.message == message
    ensures ex.kind == NotFoundException <==> f.NotFound?
    ensures ex.kind != BadRequestException
  {
    match f
    case NotFound(_, _) => Exception(NotFoundException, message)
    case ConcurrencyConflict(_, _) => Exception(OtherException, message)
  }

  /** A repository not-found failure becomes a 404 "Not Found" response, a
      concurrency failure a 500 "Failure" response. */
  lemma RepositoryFailureStatus(f: Failure, message: string)
    ensures f.NotFound? ==> Classify(ToException(f, message).kind) == Classification(404, "Not Found")
    ensures f.ConcurrencyConflict? ==> Classify(ToException(f, message).kind) == Classification(500, "Failure")
  {
  }

  /** The parts of `HttpContext.Response` the middleware writes. `body` is
      the sequence of records written so far; each write appends one. */
  class HttpResponse {
    var contentType: string
    var statusCode: int
    var body: seq<ErrorDetails>

    constructor ()
      ensures contentType == "" && statusCode == 200 && body == []
    {
      contentType := "";
      statusCode := 200;
      body := [];
    }
  }

  /** What the next handler in the pipeline did: completed, or threw. */
  datatype NextOutcome = Completed | Threw(ex: Exception)

  /** `HandleExceptionAsync`: sets the JSON content type, starts from 500 /
      "Failure" with the exception's message, refines both by the kind, then
      writes the status and the body. */
  method HandleException(response: HttpResponse, ex: Exception)
    modifies response
    ensures response.contentType == JsonContentType
    ensures response.statusCode == Classify(ex.kind).statusCode
    ensures response.body == old(response.body) + [DetailsOf(ex)]
  {
    response.contentType := JsonContentType;
    var statusCode := StatusInternalServerError;
    var errorDetails := ErrorDetails(FailureType, ex.message);
    match ex.kind {
      case NotFoundException =>
        statusCode := StatusNotFound;
        errorDetails := errorDetails.(errorType := NotFoundType);
      case BadRequestException =>
        statusCode := StatusBadRequest;
        errorDetails := errorDetails.(errorType := BadRequestType);
      case OtherException =>
    }
    response.statusCode := statusCode;
    response.body := response.body + [errorDetails];
  }

  /** `InvokeAsync`: when the next handler completes the middleware writes
      nothing; when it throws, the exception is handled here and does not
      propagate — the request always ends with a response. */
  method Invoke(response: HttpResponse, next: NextOutcome)
    modifies response
    ensures next.Completed? ==> unchanged(response)
    ensures next.Threw? ==>
      && response.contentType == JsonContentType
      && response.statusCode == Classify(next.ex.kind).statusCode
      && response.body == old(response.body) + [DetailsOf(next.ex)]
  {
    match next {
      case Completed =>
      case Threw(ex) =>
        HandleException(response, ex);
    }
  }
}
