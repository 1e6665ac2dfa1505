/** Both revisions of the error layer are in the tree (`error.rs` is used by
    the repositories and by every handler except `handlers/event.rs`, which
    alone uses `shared/error.rs`). This module relates them: where their mappers agree,
    the exact inputs on which they differ, and that their status tables
    agree on every variant they share. */
module ErrorRevisions {
  import opened Base
  import opened Driver
  import Shared = SharedError
  import Legacy = LegacyError

  // The same variant, read in the newer revision.

  function EventToShared(e: Legacy.EventRepoError): Shared.EventRepoError {
    match e
    case NotFound => Shared.EventRepoError.NotFound
    case InvalidReference => Shared.EventRepoError.InvalidReference
    case DuplicateEntry => Shared.EventRepoError.DuplicateEntry
    case InternalError(c) => Shared.EventRepoError.InternalError(c)
  }

  function PacketToShared(e: Legacy.EventPacketRepoError): Shared.EventPacketRepoError {
    match e
    case NotFound => Shared.EventPacketRepoError.NotFound
    case DuplicateName => Shared.EventPacketRepoError.DuplicateName
    case InvalidEventId => Shared.EventPacketRepoError.InvalidEventId
    case InternalError(c) => Shared.EventPacketRepoError.InternalError(c)
  }

  function TicketToShared(e: Legacy.TicketRepoError): Shared.TicketRepoError {
    match e
    case NotFound => Shared.TicketRepoError.NotFound
    case DuplicateEntry => Shared.TicketRepoError.DuplicateEntry
    case InvalidReference => Shared.TicketRepoError.InvalidReference
    case InternalError(c) => Shared.TicketRepoError.InternalError(c)
  }

  function JoinToShared(e: Legacy.JoinPeRepoError): Shared.JoinPeRepoError {
    match e
    case DuplicateEntry => Shared.JoinPeRepoError.DuplicateEntry
    case InvalidReference => Shared.JoinPeRepoError.InvalidReference
    case InternalError(c) => Shared.JoinPeRepoError.InternalError(c)
  }

  /** The event and packet mappers did not change between the revisions. */
  lemma EventAndPacketMappersAgree(err: DbError)
    ensures EventToShared(Legacy.MapSqlxEventError(err)) == Shared.MapSqlxEventError(err)
    ensures PacketToShared(Legacy.MapSqlxPacketError(err)) == Shared.MapSqlxPacketError(err)
  {
  }

  /** The ticket mappers differ exactly on a check violation, which the newer
      one reports as a constraint violation and the older one as internal. */
  lemma TicketMappersDifferOnlyOnCheckViolation(err: DbError)
    ensures TicketToShared(Legacy.MapSqlxTicketError(err)) == Shared.MapSqlxTicketError(err)
        <==> DatabaseCode(err) != Some(CheckViolation)
    ensures DatabaseCode(err) == Some(CheckViolation) ==>
      && Legacy.MapSqlxTicketError(err) == Legacy.TicketRepoError.InternalError(err)
      && Shared.MapSqlxTicketError(err) == Shared.TicketRepoError.ConstraintViolation
  {
  }

  /** The join mappers differ exactly on a missing row: the newer one calls it
      an invalid reference, the older one an internal error. */
  lemma JoinMappersDifferOnlyOnRowNotFound(err: DbError)
    ensures JoinToShared(Legacy.MapSqlxJoinPeError(err)) == Shared.MapSqlxJoinPeError(err)
        <==> err != RowNotFound
    ensures err == RowNotFound ==>
      && Legacy.MapSqlxJoinPeError(err) == Legacy.JoinPeRepoError.InternalError(RowNotFound)
      && Shared.MapSqlxJoinPeError(err) == Shared.JoinPeRepoError.InvalidReference
  {
  }

  /** Every legacy variant is answered with the status the newer layer gives
      the same variant, and the internal-error text is the same. */
  lemma EventStatusesAgree(e: Legacy.EventRepoError)
    ensures Legacy.EventReply(e).status == Shared.IntoResponse(Shared.Event(EventToShared(e))).status
    ensures e.InternalError? ==>
      [Legacy.EventReply(e).error] == Shared.IntoResponse(Shared.Event(EventToShared(e))).body.details
  {
    match e
    case NotFound =>
    case InvalidReference =>
    case DuplicateEntry =>
    case InternalError(_) =>
  }

  lemma PacketStatusesAgree(e: Legacy.EventPacketRepoError)
    ensures Legacy.PacketReply(e).status == Shared.IntoResponse(Shared.Packet(PacketToShared(e))).status
    ensures e.InternalError? ==>
      [Legacy.PacketReply(e).error] == Shared.IntoResponse(Shared.Packet(PacketToShared(e))).body.details
  {
    match e
    case NotFound =>
    case DuplicateName =>
    case InvalidEventId =>
    case InternalError(_) =>
  }

  lemma TicketStatusesAgree(e: Legacy.TicketRepoError)
    ensures Legacy.TicketReply(e).status == Shared.IntoResponse(Shared.Ticket(TicketToShared(e))).status
    ensures e.InternalError? ==>
      [Legacy.TicketReply(e).error] == Shared.IntoResponse(Shared.Ticket(TicketToShared(e))).body.details
  {
    match e
    case NotFound =>
    case DuplicateEntry =>
    case InvalidReference =>
    case InternalError(_) =>
  }

  lemma JoinStatusesAgree(e: Legacy.JoinPeRepoError)
    ensures Legacy.JoinReply(e).status == Shared.IntoResponse(Shared.Join(JoinToShared(e))).status
    ensures e.InternalError? ==>
      [Legacy.JoinReply(e).error] == Shared.IntoResponse(Shared.Join(JoinToShared(e))).body.details
  {
    match e
    case DuplicateEntry =>
    case InvalidReference =>
    case InternalError(_) =>
  }

  /** A check violation raised while creating a ticket is a 500 through the
      legacy mapper and a 422 through the newer one. */
  lemma CheckViolationStatusDiffers(err: DbError)
    requires DatabaseCode(err) == Some(CheckViolation)
    ensures Legacy.TicketReply(Legacy.MapSqlxTicketError(err)).status == 500
    ensures Shared.IntoResponse(Shared.Ticket(Shared.MapSqlxTicketError(err))).status == 422
  {
  }
}
