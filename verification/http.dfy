/** The HTTP status codes the service answers errors with (RFC 9110). */
module Http {
  /** Section 15.5.1 of RFC 9110. */
  const BadRequest: int := 400
  /** Section 15.5.5 of RFC 9110. */
  const NotFound: int := 404
  /** Section 15.5.10 of RFC 9110. */
  const Conflict: int := 409
  /** Section 15.5.16 of RFC 9110. */
  const UnsupportedMediaType: int := 415
  /** Section 15.5.21 of RFC 9110. */
  const UnprocessableContent: int := 422
  /** Section 15.6.1 of RFC 9110. */
  const InternalServerError: int := 500

  /** A client error (4xx) or a server error (5xx). */
  predicate IsErrorStatus(status: int) {
    400 <= status < 600
  }
}
