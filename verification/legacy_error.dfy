/** The older error layer (`error.rs`), still the one `lib.rs` declares and
    the repositories import: the same four enums minus the ticket's
    `ConstraintViolation`, mappers that know only the foreign-key and unique
    codes, and one response per enum whose body is a single `error` string. */
module LegacyError {
  import opened Base
  import opened Driver
  import Http

  datatype EventRepoError =
    | NotFound
    | InvalidReference
    | DuplicateEntry
    | InternalError(cause: DbError)

  datatype EventPacketRepoError =
    | NotFound
    | DuplicateName
    | InvalidEventId
    | InternalError(cause: DbError)

  datatype TicketRepoError =
    | NotFound
    | DuplicateEntry
    | InvalidReference
    | InternalError(cause: DbError)

  datatype JoinPeRepoError =
    | DuplicateEntry
    | InvalidReference
    | InternalError(cause: DbError)

  /** A status with the body `{ "error": <error> }`. */
  datatype LegacyReply = LegacyReply(status: int, error: string)

  const InternalErrorMessage: string := "An internal server error occurred."

  /** A driver error that carries neither recognised code. */
  predicate Unrecognised(err: DbError) {
    DatabaseCode(err) != Some(ForeignKeyViolation) && DatabaseCode(err) != Some(UniqueViolation)
  }

  // ---------------------------------------------------------------------
  // Driver error translation
  // ---------------------------------------------------------------------

  function MapSqlxEventError(err: DbError): (r: EventRepoError)
    ensures DatabaseCode(err) == Some(ForeignKeyViolation) <==> r == EventRepoError.InvalidReference
    ensures DatabaseCode(err) == Some(UniqueViolation) <==> r == EventRepoError.DuplicateEntry
    ensures err == RowNotFound <==> r == EventRepoError.NotFound
    ensures Unrecognised(err) && err != RowNotFound <==> r == EventRepoError.InternalError(err)
  {
    var code := DatabaseCode(err);
    if code == Some(ForeignKeyViolation) then EventRepoError.InvalidReference
    else if code == Some(UniqueViolation) then EventRepoError.DuplicateEntry
    else if err.RowNotFound? then EventRepoError.NotFound
    else EventRepoError.InternalError(err)
  }

  function MapSqlxPacketError(err: DbError): (r: EventPacketRepoError)
    ensures DatabaseCode(err) == Some(ForeignKeyViolation) <==> r == EventPacketRepoError.InvalidEventId
    ensures DatabaseCode(err) == Some(UniqueViolation) <==> r == EventPacketRepoError.DuplicateName
    ensures err == RowNotFound <==> r == EventPacketRepoError.NotFound
    ensures Unrecognised(err) && err != RowNotFound <==> r == EventPacketRepoError.InternalError(err)
  {
    var code := DatabaseCode(err);
    if code == Some(ForeignKeyViolation) then EventPacketRepoError.InvalidEventId
    else if code == Some(UniqueViolation) then EventPacketRepoError.DuplicateName
    else if err.RowNotFound? then EventPacketRepoError.NotFound
    else EventPacketRepoError.InternalError(err)
  }

  /** There is no check-violation case: a ticket breaking the packet-or-event
      rule in the database surfaces as an internal error. */
  function MapSqlxTicketError(err: DbError): (r: TicketRepoError)
    ensures DatabaseCode(err) == Some(ForeignKeyViolation) <==> r == TicketRepoError.InvalidReference
    ensures DatabaseCode(err) == Some(UniqueViolation) <==> r == TicketRepoError.DuplicateEntry
    ensures err == RowNotFound <==> r == TicketRepoError.NotFound
    ensures Unrecognised(err) && err != RowNotFound <==> r == TicketRepoError.InternalError(err)
    ensures DatabaseCode(err) == Some(CheckViolation) ==> r == TicketRepoError.InternalError(err)
  {
    var code := DatabaseCode(err);
    if code == Some(ForeignKeyViolation) then TicketRepoError.InvalidReference
    else if code == Some(UniqueViolation) then TicketRepoError.DuplicateEntry
    else if err.RowNotFound? then TicketRepoError.NotFound
    else TicketRepoError.InternalError(err)
  }

  /** No "not found" either: a missing row is an internal error here. */
  function MapSqlxJoinPeError(err: DbError): (r: JoinPeRepoError)
    ensures DatabaseCode(err) == Some(ForeignKeyViolation) <==> r == JoinPeRepoError.InvalidReference
    ensures DatabaseCode(err) == Some(UniqueViolation) <==> r == JoinPeRepoError.DuplicateEntry
    ensures Unrecognised(err) <==> r == JoinPeRepoError.InternalError(err)
  {
    var code := DatabaseCode(err);
    if code == Some(ForeignKeyViolation) then JoinPeRepoError.InvalidReference
    else if code == Some(UniqueViolation) then JoinPeRepoError.DuplicateEntry
    else JoinPeRepoError.InternalError(err)
  }

  // ---------------------------------------------------------------------
  // Responses
  // ---------------------------------------------------------------------

  function EventReply(e: EventRepoError): (r: LegacyReply)
    ensures Http.IsErrorStatus(r.status)
    ensures e.InternalError? <==> r.status == Http.InternalServerError
    ensures e.InternalError? ==> r.error == InternalErrorMessage
  {
    match e
    case NotFound => LegacyReply(Http.NotFound, "The requested resource was not found.")
    case InvalidReference => LegacyReply(Http.BadRequest, "A provided reference, such as an owner ID, is invalid.")
    case DuplicateEntry => LegacyReply(Http.Conflict, "An event with this name already exists.")
    case InternalError(_) => LegacyReply(Http.InternalServerError, InternalErrorMessage)
  }

  function PacketReply(e: EventPacketRepoError): (r: LegacyReply)
    ensures Http.IsErrorStatus(r.status)
    ensures e.InternalError? <==> r.status == Http.InternalServerError
    ensures e.InternalError? ==> r.error == InternalErrorMessage
  {
    match e
    case NotFound => LegacyReply(Http.NotFound, "The requested resource was not found.")
    case DuplicateName => LegacyReply(Http.Conflict, "An event packet with this name already exists.")
    case InvalidEventId => LegacyReply(Http.BadRequest, "A provided event ID is invalid.")
    case InternalError(_) => LegacyReply(Http.InternalServerError, InternalErrorMessage)
  }

  function TicketReply(e: TicketRepoError): (r: LegacyReply)
    ensures Http.IsErrorStatus(r.status)
    ensures e.InternalError? <==> r.status == Http.InternalServerError
    ensures e.InternalError? ==> r.error == InternalErrorMessage
  {
    match e
    case NotFound => LegacyReply(Http.NotFound, "The requested ticket was not found.")
    case DuplicateEntry => LegacyReply(Http.Conflict, "A ticket with this code already exists.")
    case InvalidReference => LegacyReply(Http.BadRequest, "Invalid packet or event ID provided.")
    case InternalError(_) => LegacyReply(Http.InternalServerError, InternalErrorMessage)
  }

  function JoinReply(e: JoinPeRepoError): (r: LegacyReply)
    ensures Http.IsErrorStatus(r.status)
    ensures e.InternalError? <==> r.status == Http.InternalServerError
    ensures e.InternalError? ==> r.error == InternalErrorMessage
  {
    match e
    case DuplicateEntry => LegacyReply(Http.Conflict, "This event is already in this packet.")
    case InvalidReference => LegacyReply(Http.BadRequest, "Invalid packet or event ID provided.")
    case InternalError(_) => LegacyReply(Http.InternalServerError, InternalErrorMessage)
  }
}
