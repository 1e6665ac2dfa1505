/** The pure part of the ticket repository (`repositories/ticket_repo.rs`):
    which error each operation reports, the `COALESCE` update of a ticket's
    references, and the delete rule.

    `BILETE` is a map from ticket code to row; the code is the ticket's
    identity, so inserting a code already present is the unique violation
    the database reports. As in the packet repository, `fault` is the error a
    statement fails with for reasons this model does not see. */
module TicketRepo {
  import opened Base
  import opened Driver
  import opened Models
  import Legacy = LegacyError

  type Error = Legacy.TicketRepoError
  type TicketTable = map<string, Ticket>

  /** Every row sits under its own code. */
  predicate Valid(table: TicketTable) {
    forall cod :: cod in table ==> table[cod].cod == cod
  }

  /** The driver error an `INSERT` of `payload` raises, if any. */
  function InsertFailure(table: TicketTable, payload: CreateTicket, fault: Option<DbError>): (e: Option<DbError>)
    ensures fault.Some? ==> e == fault
    ensures fault.None? ==> (e.Some? <==> payload.cod in table)
    ensures e.Some? && fault.None? ==> DatabaseCode(e.value) == Some(UniqueViolation)
  {
    if fault.Some? then fault
    else if payload.cod in table then Some(Database(Some(UniqueViolation)))
    else None
  }

  /** `create_ticket`: every driver error goes through the legacy mapper. */
  function Create(table: TicketTable, payload: CreateTicket, fault: Option<DbError>)
    : (r: Result<(Ticket, TicketTable), Error>)
    ensures r.Ok? <==> fault.None? && payload.cod !in table
    ensures r.Ok? ==> var (ticket, table') := r.value;
      && ticket == Ticket(payload.cod, payload.idPachet, payload.idEvent)
      && table' == table[payload.cod := ticket]
    ensures fault.None? && payload.cod in table ==> r == Err(Legacy.TicketRepoError.DuplicateEntry)
    ensures fault.Some? ==> r == Err(Legacy.MapSqlxTicketError(fault.value))
  {
    match InsertFailure(table, payload, fault)
    case Some(e) => Err(Legacy.MapSqlxTicketError(e))
    case None =>
      var ticket := Ticket(payload.cod, payload.idPachet, payload.idEvent);
      Ok((ticket, table[payload.cod := ticket]))
  }

  /** What `fetch_one` reports for the row with `cod`. */
  function FetchOne(table: TicketTable, cod: string, fault: Option<DbError>): (r: Result<Ticket, DbError>)
    ensures r.Ok? <==> fault.None? && cod in table
    ensures r.Ok? ==> r.value == table[cod]
    ensures fault.None? && cod !in table ==> r == Err(RowNotFound)
    ensures fault.Some? ==> r == Err(fault.value)
  {
    if fault.Some? then Err(fault.value)
    else if cod in table then Ok(table[cod])
    else Err(RowNotFound)
  }

  /** `get_ticket`. */
  function Get(table: TicketTable, cod: string, fault: Option<DbError>): (r: Result<Ticket, Error>)
    ensures r.Ok? <==> fault.None? && cod in table
    ensures r.Ok? ==> r.value == table[cod]
    ensures fault.None? && cod !in table ==> r == Err(Legacy.TicketRepoError.NotFound)
    ensures fault.Some? ==> r == Err(Legacy.MapSqlxTicketError(fault.value))
  {
    match FetchOne(table, cod, fault)
    case Ok(ticket) => Ok(ticket)
    case Err(e) => Err(Legacy.MapSqlxTicketError(e))
  }

  /** `COALESCE($1, pachetid)`, `COALESCE($2, evenimentid)`: a reference is
      replaced only when the payload gives one; the code never changes. */
  function ApplyUpdate(stored: Ticket, payload: UpdateTicket): (t: Ticket)
    ensures t.cod == stored.cod
    ensures t.idPachet == if payload.idPachet.Some? then payload.idPachet else stored.idPachet
    ensures t.idEvent == if payload.idEvent.Some? then payload.idEvent else stored.idEvent
  {
    Ticket(
      stored.cod,
      match payload.idPachet case Some(_) => payload.idPachet case None => stored.idPachet,
      match payload.idEvent case Some(_) => payload.idEvent case None => stored.idEvent)
  }

  /** `update_ticket`. */
  function Update(table: TicketTable, cod: string, payload: UpdateTicket, fault: Option<DbError>)
    : (r: Result<(Ticket, TicketTable), Error>)
    ensures r.Ok? <==> fault.None? && cod in table
    ensures r.Ok? ==> var (ticket, table') := r.value;
      && ticket == ApplyUpdate(table[cod], payload)
      && table'.Keys == table.Keys
      && table'[cod] == ticket
      && (forall other :: other in table && other != cod ==> table'[other] == table[other])
    ensures fault.None? && cod !in table ==> r == Err(Legacy.TicketRepoError.NotFound)
    ensures fault.Some? ==> r == Err(Legacy.MapSqlxTicketError(fault.value))
  {
    match FetchOne(table, cod, fault)
    case Ok(stored) =>
      var ticket := ApplyUpdate(stored, payload);
      Ok((ticket, table[cod := ticket]))
    case Err(e) => Err(Legacy.MapSqlxTicketError(e))
  }

  /** `delete_ticket`: a driver error is internal without the mapper; then
      zero affected rows means `NotFound`. */
  function Delete(table: TicketTable, cod: string, fault: Option<DbError>): (r: Result<TicketTable, Error>)
    ensures fault.Some? ==> r == Err(Legacy.TicketRepoError.InternalError(fault.value))
    ensures r == Err(Legacy.TicketRepoError.NotFound) <==> fault.None? && cod !in table
    ensures r.Ok? <==> fault.None? && cod in table
    ensures r.Ok? ==> r.value == table - {cod}
  {
    if fault.Some? then Err(Legacy.TicketRepoError.InternalError(fault.value))
    else
      var rowsAffected := if cod in table then 1 else 0;
      if rowsAffected == 0 then Err(Legacy.TicketRepoError.NotFound)
      else Ok(table - {cod})
  }

  // ---------------------------------------------------------------------
  // Properties across operations
  // ---------------------------------------------------------------------

  /** A created ticket is found under its code, exactly as given. */
  lemma CreateThenGet(table: TicketTable, payload: CreateTicket)
    requires Valid(table) && payload.cod !in table
    ensures Create(table, payload, None).Ok?
    ensures var (ticket, table') := Create(table, payload, None).value;
      && Valid(table')
      && Get(table', payload.cod, None) == Ok(ticket)
      && ticket.idPachet == payload.idPachet && ticket.idEvent == payload.idEvent
  {
  }

  /** Creating the same code twice: the second insert is a duplicate. */
  lemma CreateTwice(table: TicketTable, payload: CreateTicket)
    requires payload.cod !in table
    ensures Create(Create(table, payload, None).value.1, payload, None) == Err(Legacy.TicketRepoError.DuplicateEntry)
  {
  }

  /** An update is seen by a later `get` of the same ticket and by no other. */
  lemma UpdateThenGet(table: TicketTable, cod: string, other: string, payload: UpdateTicket)
    requires Valid(table) && cod in table
    ensures var table' := Update(table, cod, payload, None).value.1;
      && Valid(table')
      && Get(table', cod, None) == Ok(ApplyUpdate(table[cod], payload))
      && (other != cod ==> Get(table', other, None) == Get(table, other, None))
  {
  }

  /** Updating with no references given leaves the ticket as it was. */
  lemma EmptyUpdateChangesNothing(table: TicketTable, cod: string)
    requires cod in table
    ensures Update(table, cod, UpdateTicket(None, None), None) == Ok((table[cod], table))
  {
    assert table[cod := table[cod]] == table;
  }

  /** Deleting the same ticket twice: the first call succeeds, the second
      finds nothing to delete. */
  lemma DeleteTwice(table: TicketTable, cod: string)
    requires cod in table
    ensures Delete(table, cod, None) == Ok(table - {cod})
    ensures Delete(Delete(table, cod, None).value, cod, None) == Err(Legacy.TicketRepoError.NotFound)
  {
  }

  /** `create`, `get` and `update` report a driver error through the mapper,
      but `delete` does not: a missing row reported by the driver is
      `NotFound` from `get` and internal from `delete`. */
  lemma DeleteBypassesTheMapper(table: TicketTable, cod: string, e: DbError)
    ensures Delete(table, cod, Some(e)) == Err(Legacy.TicketRepoError.InternalError(e))
    ensures Get(table, cod, Some(e)) == Err(Legacy.MapSqlxTicketError(e))
    ensures e == RowNotFound ==>
      Get(table, cod, Some(e)) == Err(Legacy.TicketRepoError.NotFound) &&
      Delete(table, cod, Some(e)).error != Legacy.TicketRepoError.NotFound
  {
  }

  /** A ticket the database rejects with a check violation (the rule that a
      ticket belongs to a packet or to an event) is answered with a 500. */
  lemma CheckViolationIsAServerError(table: TicketTable, payload: CreateTicket, e: DbError)
    requires DatabaseCode(e) == Some(CheckViolation)
    ensures Create(table, payload, Some(e)) == Err(Legacy.TicketRepoError.InternalError(e))
    ensures Legacy.TicketReply(Create(table, payload, Some(e)).error).status == 500
  {
  }
}
