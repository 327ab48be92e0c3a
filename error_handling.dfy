/** The global exception handler: every failure the services or the request
    validation raise becomes a status code and an error body. The body's
    timestamp reads the clock and is not modelled. */
module ErrorHandling {
  import opened Wrappers
  import opened Text
  import opened Constraints

  /** The failures that reach the handler. */
  datatype Exception =
    | UserNotFound(message: string)
    | PetNotFound(message: string)
    | MethodArgumentNotValid(fieldErrors: seq<FieldError>)
    | Other(detail: Option<string>)   // any other exception; its message may be null

  /** The error body, without its timestamp. */
  datatype ErrorMessageResponse = ErrorMessageResponse(message: string, detailedMessage: Option<string>)

  datatype Response = Response(status: int, body: ErrorMessageResponse)

  const BadRequest := 400
  const NotFound := 404
  const InternalServerError := 500

  /** `handleGenericException`. */
  function HandleGenericException(detail: Option<string>): Response {
    Response(InternalServerError, ErrorMessageResponse("Server error", detail))
  }

  /** `handleEntityNotFoundException`, shared by both not-found exceptions. */
  function HandleEntityNotFoundException(message: string): Response {
    Response(NotFound, ErrorMessageResponse("Entity not found", Some(message)))
  }

  /** `handleValidationException`. */
  function HandleValidationException(errors: seq<FieldError>): Response {
    Response(BadRequest, ErrorMessageResponse("Request validation failed", Some(ValidationDetail(errors))))
  }

  /** The handler the framework selects for each failure (the most specific
      one): not-found failures give 404, validation failures 400 with every
      field named in the detail, anything else 500. */
  function Handle(e: Exception): (r: Response)
    ensures r.status == NotFound <==> e.UserNotFound? || e.PetNotFound?
    ensures r.status == BadRequest <==> e.MethodArgumentNotValid?
    ensures r.status == InternalServerError <==> e.Other?
    ensures e.UserNotFound? || e.PetNotFound? ==> r.body == ErrorMessageResponse("Entity not found", Some(e.message))
    ensures e.Other? ==> r.body == ErrorMessageResponse("Server error", e.detail)
    ensures e.MethodArgumentNotValid? ==>
              && r.body.message == "Request validation failed"
              && r.body.detailedMessage == Some(ValidationDetail(e.fieldErrors))
              && (forall k :: 0 <= k < |e.fieldErrors| ==>
                    Contains(r.body.detailedMessage.value, e.fieldErrors[k].field + ":"))
  {
    match e
    case UserNotFound(message) => HandleEntityNotFoundException(message)
    case PetNotFound(message) => HandleEntityNotFoundException(message)
    case MethodArgumentNotValid(errors) =>
      DetailNamesEveryField(errors);
      HandleValidationException(errors)
    case Other(detail) => HandleGenericException(detail)
  }

  /** `field + ": " + message` for one field error. */
  function Render(e: FieldError): string {
    e.field + ": " + e.message
  }

  /** `Collectors.joining(sep)`: the parts in order, `sep` between neighbours. */
  function Join(parts: seq<string>, sep: string): string {
    if |parts| == 0 then ""
    else if |parts| == 1 then parts[0]
    else parts[0] + sep + Join(parts[1..], sep)
  }

  /** The detailed message of a validation failure. */
  function ValidationDetail(errors: seq<FieldError>): string {
    Join(seq(|errors|, k requires 0 <= k < |errors| => Render(errors[k])), ", ")
  }

  /** Joining splits at any inner boundary: the parts appear in their order,
      separated by `sep`. */
  lemma {:induction false} JoinSplit(parts: seq<string>, sep: string, k: nat)
    requires 0 < k < |parts|
    ensures Join(parts, sep) == Join(parts[..k], sep) + sep + Join(parts[k..], sep)
  {
    if k > 1 {
      JoinSplit(parts[1..], sep, k - 1);
      assert parts[1..][..k - 1] == parts[..k][1..];
      assert parts[1..][k - 1..] == parts[k..];
    }
  }

  /** Every part occurs in the joined string, at the returned index. */
  lemma {:induction false} JoinContainsPart(parts: seq<string>, sep: string, k: nat) returns (i: nat)
    requires k < |parts|
    ensures OccursAt(Join(parts, sep), parts[k], i)
  {
    var joined := Join(parts, sep);
    if |parts| == 1 {
      i := 0;
      assert joined[0..|parts[0]|] == parts[0];
    } else if k == 0 {
      i := 0;
      assert joined == parts[0] + (sep + Join(parts[1..], sep));
      assert joined[0..|parts[0]|] == parts[0];
    } else {
      var j := JoinContainsPart(parts[1..], sep, k - 1);
      var head := parts[0] + sep;
      var rest := Join(parts[1..], sep);
      assert joined == head + rest;
      i := |head| + j;
      assert joined[i..i + |parts[k]|] == rest[j..j + |parts[k]|];
    }
  }

  /** For each field error, the detail contains `"<field>:"`. */
  lemma DetailNamesEveryField(errors: seq<FieldError>)
    ensures forall k :: 0 <= k < |errors| ==> Contains(ValidationDetail(errors), errors[k].field + ":")
  {
    var parts := seq(|errors|, k requires 0 <= k < |errors| => Render(errors[k]));
    forall k | 0 <= k < |errors|
      ensures Contains(ValidationDetail(errors), errors[k].field + ":")
    {
      var i := JoinContainsPart(parts, ", ", k);
      assert parts[k] == (errors[k].field + ":") + " " + errors[k].message;
      OccursAtPrefix(ValidationDetail(errors), errors[k].field + ":", " " + errors[k].message, i);
    }
  }

  /** No field errors give an empty detail. */
  lemma EmptyDetail()
    ensures ValidationDetail([]) == ""
  {
  }

  /** A single field error gives exactly its rendering, with no separator. */
  lemma SingleErrorDetail(e: FieldError)
    ensures ValidationDetail([e]) == e.field + ": " + e.message
  {
  }
}
