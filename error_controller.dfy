/**
 * The central error translation: every exception becomes a response whose body repeats the
 * HTTP status and carries a fixed message.  Status codes are those of section 15 of RFC 9110.
 */
module ErrorController {
  import opened Domain
  import Text

  /** RFC 9110 section 15.5.1. */
  const BadRequest := 400
  /** RFC 9110 section 15.5.5. */
  const NotFound := 404
  /** RFC 9110 section 15.6.1. */
  const InternalServerError := 500

  datatype ErrorDto = ErrorDto(status: int, message: string)

  datatype Response = Response(httpStatus: int, body: ErrorDto)

  const ReviewRejectedMessage := "The specified review could not be created or updated. "
  const RestaurantMissingMessage := "The specified restaurant was not found"
  const StorageMessage := "Unable to save or retrieve resources at this time"
  const UnexpectedMessage := "An unexpected error occurred"

  /**
   * The handler Spring picks for an exception.  Only four handlers are registered; the validation
   * builder below has no `@ExceptionHandler`, so a validation failure lands in the catch-all.
   */
  function HandleException(e: Exception): (r: Response)
    ensures r.body.status == r.httpStatus
    ensures r.httpStatus in {BadRequest, NotFound, InternalServerError}
    ensures r.httpStatus == NotFound <==> e.RestaurantNotFound?
    ensures r.httpStatus == BadRequest <==> e.ReviewNotAllowed?
    ensures e.ReviewNotAllowed? ==> r.body.message == ReviewRejectedMessage
    ensures e.RestaurantNotFound? ==> r.body.message == RestaurantMissingMessage
    ensures e.Storage? ==> r.body.message == StorageMessage
    ensures !e.RestaurantNotFound? && !e.ReviewNotAllowed? && !e.Storage? ==> r.body.message == UnexpectedMessage
  {
    match e
    case ReviewNotAllowed(_) => Response(BadRequest, ErrorDto(BadRequest, ReviewRejectedMessage))
    case RestaurantNotFound(_) => Response(NotFound, ErrorDto(NotFound, RestaurantMissingMessage))
    case Storage(_) => Response(InternalServerError, ErrorDto(InternalServerError, StorageMessage))
    case _ => Response(InternalServerError, ErrorDto(InternalServerError, UnexpectedMessage))
  }

  /** "field: message" for one binding error. */
  function Describe(e: FieldError): string {
    e.field + ": " + e.defaultMessage
  }

  function Descriptions(errors: seq<FieldError>): (r: seq<string>)
    ensures |r| == |errors| && forall i | 0 <= i < |errors| :: r[i] == Describe(errors[i])
  {
    seq(|errors|, i requires 0 <= i < |errors| => Describe(errors[i]))
  }

  /** The unregistered validation handler's response: status 400 and the joined field errors. */
  function ValidationResponse(errors: seq<FieldError>): (r: Response)
    ensures r.httpStatus == BadRequest && r.body.status == BadRequest
  {
    Response(BadRequest, ErrorDto(BadRequest, Text.Join(Descriptions(errors), ", ")))
  }

  /** No field errors give an empty message and one error gives exactly its own description. */
  lemma ValidationMessageOfFew(errors: seq<FieldError>)
    ensures errors == [] ==> ValidationResponse(errors).body.message == ""
    ensures |errors| == 1 ==> ValidationResponse(errors).body.message == errors[0].field + ": " + errors[0].defaultMessage
  {
  }

  /** The message lists the errors in order: a further error adds ", field: message" at the end. */
  lemma ValidationMessageAppends(errors: seq<FieldError>, e: FieldError)
    requires errors != []
    ensures ValidationResponse(errors + [e]).body.message
         == ValidationResponse(errors).body.message + ", " + e.field + ": " + e.defaultMessage
  {
    assert Descriptions(errors + [e]) == Descriptions(errors) + [Describe(e)];
    Text.JoinSnoc(Descriptions(errors), Describe(e), ", ");
  }

  /** Because the validation builder is not registered, a failed request validation is answered with 500, not 400. */
  lemma ValidationFailureIsAnsweredWith500(errors: seq<FieldError>)
    ensures HandleException(MethodArgumentNotValid(errors)) == Response(500, ErrorDto(500, "An unexpected error occurred"))
    ensures ValidationResponse(errors).httpStatus == 400
  {
  }
}
