/** The records the core reads and writes, with the fields it uses. Field
    names keep the service's own (Romanian) column names: `nume` (name),
    `locatie` (location), `descriere` (description), `locuri` (seat count),
    `cod` (ticket code), `bilete` (tickets). Integer ids are `i32` in the
    service; the model keeps them as unbounded integers because nothing here
    does arithmetic on them. */
module Models {
  import opened Base

  datatype Event = Event(
    id: int,
    idOwner: int,
    nume: string,
    locatie: Option<string>,
    descriere: Option<string>,
    locuri: Option<int>)

  datatype EventPackets = EventPackets(
    id: int,
    idOwner: int,
    nume: string,
    locatie: Option<string>,
    descriere: Option<string>)

  /** A ticket belongs to a packet (`idPachet`) or to an event (`idEvent`). */
  datatype Ticket = Ticket(cod: string, idPachet: Option<int>, idEvent: Option<int>)

  /** Query parameters of `GET /events`: `location` and `name`. */
  datatype EventQuery = EventQuery(locatie: Option<string>, nume: Option<string>)

  /** `page` and `items_per_page`, both `i64` in the service. */
  datatype PaginationParams = PaginationParams(page: Option<int>, itemsPerPage: Option<int>)

  /** Query parameters of `GET /event-packets`: `type` (matched against the
      description), `available_tickets` (an `i32`) and the pagination. */
  datatype EventPacketQuery = EventPacketQuery(
    descriere: Option<string>,
    bilete: Option<int>,
    paginare: PaginationParams)

  datatype CreateEventPacket = CreateEventPacket(
    idOwner: int,
    nume: string,
    locatie: Option<string>,
    descriere: Option<string>)

  datatype UpdateEventPacket = UpdateEventPacket(
    idOwner: Option<int>,
    nume: string,
    locatie: Option<string>,
    descriere: Option<string>)

  datatype CreateTicket = CreateTicket(cod: string, idPachet: Option<int>, idEvent: Option<int>)

  datatype UpdateTicket = UpdateTicket(idPachet: Option<int>, idEvent: Option<int>)
}
