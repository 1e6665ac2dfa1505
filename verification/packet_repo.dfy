/** The pure part of the event-packet repository
    (`repositories/event_packets_repo.rs`): pagination arithmetic, assembly
    of the listing query, and which error each operation reports.

    The `PACHETE` table is a map from id to row, plus the next value of its
    serial id column. What the driver reports is a parameter: `fault` is the
    error a statement fails with for reasons this model does not see
    (constraint violations, I/O), `None` when it runs. */
module PacketRepo {
  import opened Base
  import opened Driver
  import opened Models
  import Legacy = LegacyError

  type Error = Legacy.EventPacketRepoError

  // ---------------------------------------------------------------------
  // Pagination
  // ---------------------------------------------------------------------

  const DefaultPage: int := 1
  const DefaultItemsPerPage: int := 10

  const I64Min: int := -0x8000_0000_0000_0000
  const I64Max: int := 0x7fff_ffff_ffff_ffff
  const I64Modulus: int := 0x1_0000_0000_0000_0000

  predicate IsI64(x: int) {
    I64Min <= x <= I64Max
  }

  predicate PaginationInRange(p: PaginationParams) {
    (p.page.Some? ==> IsI64(p.page.value)) && (p.itemsPerPage.Some? ==> IsI64(p.itemsPerPage.value))
  }

  /** Two's-complement wrap-around of a release build's `i64` arithmetic. */
  function WrapI64(x: int): (r: int)
    ensures IsI64(r)
    ensures IsI64(x) ==> r == x
    ensures (x - r) % I64Modulus == 0
  {
    (x - I64Min) % I64Modulus + I64Min
  }

  /** `page.unwrap_or(DEFAULT_PAGE).max(DEFAULT_PAGE)`. */
  function EffectivePage(p: PaginationParams): (page: int)
    ensures page >= DefaultPage
    ensures p.page.None? ==> page == DefaultPage
    ensures p.page.Some? ==> page == if p.page.value < DefaultPage then DefaultPage else p.page.value
  {
    var page := p.page.UnwrapOr(DefaultPage);
    if page < DefaultPage then DefaultPage else page
  }

  /** `items_per_page.unwrap_or(DEFAULT_ITEMS_PER_PAGE).max(1)`. */
  function EffectiveLimit(p: PaginationParams): (limit: int)
    ensures limit >= 1
    ensures p.itemsPerPage.None? ==> limit == DefaultItemsPerPage
    ensures p.itemsPerPage.Some? ==> limit == if p.itemsPerPage.value < 1 then 1 else p.itemsPerPage.value
  {
    var items := p.itemsPerPage.UnwrapOr(DefaultItemsPerPage);
    if items < 1 then 1 else items
  }

  /** The values bound to `LIMIT` and `OFFSET`. */
  datatype Window = Window(limit: int, offset: int)

  /** `apply_pagination`; the product `(page - 1) * items_per_page` wraps like
      the `i64` it is computed in. */
  function ApplyPagination(p: PaginationParams): (w: Window)
    requires PaginationInRange(p)
    ensures w.limit == EffectiveLimit(p) && IsI64(w.limit) && IsI64(w.offset)
    ensures (p.page.None? || p.page.value <= DefaultPage) ==> w.offset == 0
    ensures OffsetFits(p) ==> w.offset == (EffectivePage(p) - 1) * w.limit && w.offset >= 0
    ensures (w.offset - (EffectivePage(p) - 1) * w.limit) % I64Modulus == 0
  {
    var page := EffectivePage(p);
    var limit := EffectiveLimit(p);
    var k: nat := page - 1;
    assert k * limit >= 0;
    Window(limit, WrapI64((page - 1) * limit))
  }

  /** The exact product fits in an `i64`, so nothing wraps. */
  predicate OffsetFits(p: PaginationParams) {
    (EffectivePage(p) - 1) * EffectiveLimit(p) <= I64Max
  }

  /** The pages tile the result rows: row `n` (from 0) is shown on exactly one
      page, number `n / limit + 1`, and that page's window contains it. */
  lemma EveryRowOnExactlyOnePage(items: Option<int>, n: nat, page: int)
    requires items.Some? ==> IsI64(items.value)
    requires n <= I64Max && 1 <= page <= I64Max
    requires OffsetFits(PaginationParams(Some(page), items))
    ensures var w := ApplyPagination(PaginationParams(Some(page), items));
      w.offset <= n < w.offset + w.limit <==> page == n / w.limit + 1
  {
    var p := PaginationParams(Some(page), items);
    var limit := EffectiveLimit(p);
    var offset := (page - 1) * limit;
    if offset <= n < offset + limit {
      DivisionWindow(n, limit, page - 1);
    }
  }

  lemma DivisionWindow(n: nat, limit: int, k: nat)
    requires limit >= 1
    requires k * limit <= n < k * limit + limit
    ensures n / limit == k
  {
    var q, r := n / limit, n % limit;
    assert n == q * limit + r && 0 <= r < limit;
    MulMonotone(q + 1, k, limit);
    MulMonotone(k + 1, q, limit);
    MulSucc(q, limit);
    MulSucc(k, limit);
  }

  lemma MulSucc(a: int, m: int)
    ensures (a + 1) * m == a * m + m
  {
  }

  lemma {:induction false} MulMonotone(a: int, b: int, m: nat)
    ensures 0 <= a <= b ==> a * m <= b * m
    decreases b - a
  {
    if 0 <= a < b {
      MulMonotone(a, b - 1, m);
      assert b * m == (b - 1) * m + m;
    }
  }

  /** Page `k + 1` starts exactly one page after page `k`. */
  lemma NextPageStartsAfterThisOne(items: Option<int>, page: int)
    requires items.Some? ==> IsI64(items.value)
    requires 1 <= page < I64Max
    requires OffsetFits(PaginationParams(Some(page + 1), items))
    ensures ApplyPagination(PaginationParams(Some(page + 1), items)).offset
         == ApplyPagination(PaginationParams(Some(page), items)).offset
          + ApplyPagination(PaginationParams(Some(page), items)).limit
  {
    var p := PaginationParams(Some(page), items);
    var q := PaginationParams(Some(page + 1), items);
    var limit := EffectiveLimit(p);
    assert EffectiveLimit(q) == limit;
    assert (page - 1) * limit <= page * limit;
  }

  /** A page number large enough makes the product wrap: page 2^62 + 1 with
      four items per page starts at offset 0 again, the first page. */
  lemma HugePageWrapsToTheFirstPage()
    ensures ApplyPagination(PaginationParams(Some(0x4000_0000_0000_0001), Some(4))).offset == 0
    ensures !OffsetFits(PaginationParams(Some(0x4000_0000_0000_0001), Some(4)))
  {
    assert (0x4000_0000_0000_0001 - 1) * 4 == I64Modulus;
  }

  // ---------------------------------------------------------------------
  // The listing query
  // ---------------------------------------------------------------------

  datatype Keyword = Where | And | Limit | Offset

  datatype BindValue = TextValue(text: string) | IntValue(number: int)

  /** A piece of the statement `QueryBuilder` assembles: a clause keyword, a
      literal SQL fragment or a bound parameter. */
  datatype Token = Kw(keyword: Keyword) | Sql(text: string) | Bind(value: BindValue)

  const SelectPackets: string := "SELECT ID, ID_OWNER, nume, locatie, descriere FROM PACHETE"
  const DescriptionMatch: string := "unaccent(descriere) ILIKE unaccent("
  const MinTicketsCondition: string := "(SELECT SUM(numarlocuri) FROM JOIN_PE WHERE pachetid = PACHETE.ID) >= "

  /** `descriere.filter(|s| !s.is_empty())`. */
  function TypeFilter(descriere: Option<string>): (f: Option<string>)
    ensures f.Some? <==> descriere.Some? && descriere.value != ""
    ensures f.Some? ==> f == descriere
  {
    match descriere
    case Some(d) => if d == "" then None else Some(d)
    case None => None
  }

  /** The description condition, when a non-empty `type` was given. */
  function TypeCondition(typeFilter: Option<string>): seq<Token> {
    if typeFilter.Some? then
      [Kw(Where), Sql(DescriptionMatch), Bind(TextValue("%" + typeFilter.value + "%")), Sql(")")]
    else []
  }

  /** The minimum-tickets condition, joined by AND when a condition precedes it. */
  function TicketsCondition(typeFilter: Option<string>, bilete: Option<int>): seq<Token> {
    if bilete.Some? then
      [Kw(if typeFilter.Some? then And else Where), Sql(MinTicketsCondition), Bind(IntValue(bilete.value))]
    else []
  }

  function WindowClause(w: Window): seq<Token> {
    [Kw(Limit), Bind(IntValue(w.limit)), Kw(Offset), Bind(IntValue(w.offset))]
  }

  /** The statement `list_event_packets` sends. It opens with the SELECT and
      closes with the page window; the first condition is introduced by
      WHERE, a second one by AND; the parameters are bound in the order the
      conditions appear, the description matched as a substring. */
  function ListQuery(params: EventPacketQuery): (q: seq<Token>)
    requires PaginationInRange(params.paginare)
    ensures |q| >= 5 && q[0] == Sql(SelectPackets) && q[|q| - 4..] == WindowClause(ApplyPagination(params.paginare))
    ensures Keywords(q) ==
      (if ConditionCount(params) == 0 then [] else if ConditionCount(params) == 1 then [Where] else [Where, And])
      + [Limit, Offset]
    ensures var w := ApplyPagination(params.paginare);
      Binds(q) ==
        (if TypeFilter(params.descriere).Some? then [TextValue("%" + params.descriere.value + "%")] else [])
        + (if params.bilete.Some? then [IntValue(params.bilete.value)] else [])
        + [IntValue(w.limit), IntValue(w.offset)]
  {
    var typeFilter := TypeFilter(params.descriere);
    var w := ApplyPagination(params.paginare);
    PiecesInOrder(SelectPackets, TypeCondition(typeFilter), TicketsCondition(typeFilter, params.bilete), WindowClause(w));
    PiecesKeywordsAndBinds(typeFilter, params.bilete, w);
    [Sql(SelectPackets)]
      + TypeCondition(typeFilter)
      + TicketsCondition(typeFilter, params.bilete)
      + WindowClause(w)
  }

  /** The clause keywords of a statement, in order. */
  function Keywords(q: seq<Token>): seq<Keyword> {
    if |q| == 0 then []
    else (if q[0].Kw? then [q[0].keyword] else []) + Keywords(q[1..])
  }

  /** The bound parameters of a statement, in order (`$1`, `$2`, ...). */
  function Binds(q: seq<Token>): seq<BindValue> {
    if |q| == 0 then []
    else (if q[0].Bind? then [q[0].value] else []) + Binds(q[1..])
  }

  lemma KeywordsAndBindsCons(t: Token, rest: seq<Token>)
    ensures Keywords([t] + rest) == (if t.Kw? then [t.keyword] else []) + Keywords(rest)
    ensures Binds([t] + rest) == (if t.Bind? then [t.value] else []) + Binds(rest)
  {
    assert ([t] + rest)[1..] == rest;
  }

  lemma {:induction false} KeywordsAndBindsConcat(a: seq<Token>, b: seq<Token>)
    ensures Keywords(a + b) == Keywords(a) + Keywords(b)
    ensures Binds(a + b) == Binds(a) + Binds(b)
  {
    if |a| == 0 {
      assert a + b == b;
    } else {
      assert a + b == [a[0]] + (a[1..] + b);
      assert a == [a[0]] + a[1..];
      KeywordsAndBindsCons(a[0], a[1..] + b);
      KeywordsAndBindsCons(a[0], a[1..]);
      KeywordsAndBindsConcat(a[1..], b);
      var k := if a[0].Kw? then [a[0].keyword] else [];
      assert k + (Keywords(a[1..]) + Keywords(b)) == (k + Keywords(a[1..])) + Keywords(b);
      var v := if a[0].Bind? then [a[0].value] else [];
      assert v + (Binds(a[1..]) + Binds(b)) == (v + Binds(a[1..])) + Binds(b);
    }
  }

  lemma PiecesKeywordsAndBinds(typeFilter: Option<string>, bilete: Option<int>, w: Window)
    ensures Keywords(TypeCondition(typeFilter)) == if typeFilter.Some? then [Where] else []
    ensures Binds(TypeCondition(typeFilter)) ==
      if typeFilter.Some? then [TextValue("%" + typeFilter.value + "%")] else []
    ensures Keywords(TicketsCondition(typeFilter, bilete)) ==
      if bilete.Some? then [if typeFilter.Some? then And else Where] else []
    ensures Binds(TicketsCondition(typeFilter, bilete)) == if bilete.Some? then [IntValue(bilete.value)] else []
    ensures Keywords(WindowClause(w)) == [Limit, Offset]
    ensures Binds(WindowClause(w)) == [IntValue(w.limit), IntValue(w.offset)]
  {
    var empty: seq<Token> := [];
    if typeFilter.Some? {
      var t := TypeCondition(typeFilter);
      KeywordsAndBindsCons(t[3], empty);
      KeywordsAndBindsCons(t[2], [t[3]]);
      KeywordsAndBindsCons(t[1], [t[2], t[3]]);
      KeywordsAndBindsCons(t[0], [t[1], t[2], t[3]]);
      assert t == [t[0]] + [t[1], t[2], t[3]];
    }
    if bilete.Some? {
      var b := TicketsCondition(typeFilter, bilete);
      KeywordsAndBindsCons(b[2], empty);
      KeywordsAndBindsCons(b[1], [b[2]]);
      KeywordsAndBindsCons(b[0], [b[1], b[2]]);
      assert b == [b[0]] + [b[1], b[2]];
    }
    var c := WindowClause(w);
    KeywordsAndBindsCons(c[3], empty);
    KeywordsAndBindsCons(c[2], [c[3]]);
    KeywordsAndBindsCons(c[1], [c[2], c[3]]);
    KeywordsAndBindsCons(c[0], [c[1], c[2], c[3]]);
    assert c == [c[0]] + [c[1], c[2], c[3]];
  }

  /** The number of filter conditions in force. */
  function ConditionCount(params: EventPacketQuery): nat {
    (if TypeFilter(params.descriere).Some? then 1 else 0) + (if params.bilete.Some? then 1 else 0)
  }

  /** A statement that opens with one SQL fragment has the keywords and
      parameters of its remaining pieces, in order. */
  lemma {:induction false} PiecesInOrder(select: string, t: seq<Token>, b: seq<Token>, c: seq<Token>)
    ensures Keywords([Sql(select)] + t + b + c) == Keywords(t) + Keywords(b) + Keywords(c)
    ensures Binds([Sql(select)] + t + b + c) == Binds(t) + Binds(b) + Binds(c)
  {
    var head := [Sql(select)];
    KeywordsAndBindsConcat(head + t + b, c);
    KeywordsAndBindsConcat(head + t, b);
    KeywordsAndBindsConcat(head, t);
    KeywordsAndBindsCons(head[0], []);
    assert head == [head[0]] + [];
  }

  /** An empty `type` filter is the same as none. */
  lemma EmptyTypeFilterIgnored(params: EventPacketQuery)
    requires PaginationInRange(params.paginare)
    ensures ListQuery(params.(descriere := Some(""))) == ListQuery(params.(descriere := None))
  {
  }

  /** The minimum-tickets condition is in the statement exactly when
      `available_tickets` was given, and the description match exactly when
      a non-empty `type` was. */
  lemma ConditionsFollowTheFilters(params: EventPacketQuery)
    requires PaginationInRange(params.paginare)
    ensures Sql(MinTicketsCondition) in ListQuery(params) <==> params.bilete.Some?
    ensures Sql(DescriptionMatch) in ListQuery(params) <==> params.descriere.Some? && params.descriere.value != ""
  {
    var q := ListQuery(params);
    var typeFilter := TypeFilter(params.descriere);
    var t := TypeCondition(typeFilter);
    if params.bilete.Some? {
      assert q[1 + |t| + 1] == Sql(MinTicketsCondition);
    }
    if typeFilter.Some? {
      assert q[2] == Sql(DescriptionMatch);
    }
  }

  // ---------------------------------------------------------------------
  // The table and its operations
  // ---------------------------------------------------------------------

  /** `PACHETE` with its serial: `nextId` is the next value the id column's
      sequence hands out. */
  datatype PacketStore = PacketStore(rows: map<int, EventPackets>, nextId: int)

  /** Every row sits under its own id, and the sequence is past every id used. */
  predicate Valid(s: PacketStore) {
    forall id :: id in s.rows ==> s.rows[id].id == id && id < s.nextId
  }

  /** What `fetch_one` reports for the row with `id`. */
  function FetchOne(s: PacketStore, id: int, fault: Option<DbError>): (r: Result<EventPackets, DbError>)
    ensures r.Ok? <==> fault.None? && id in s.rows
    ensures r.Ok? ==> r.value == s.rows[id]
    ensures fault.None? && id !in s.rows ==> r == Err(RowNotFound)
  {
    if fault.Some? then Err(fault.value)
    else if id in s.rows then Ok(s.rows[id])
    else Err(RowNotFound)
  }

  /** The hand-written `match` of `get` and `update`: no row is `NotFound`,
      everything else is internal, whatever its code. */
  function FetchError(e: DbError): (r: Error)
    ensures r == Legacy.EventPacketRepoError.NotFound <==> e == RowNotFound
    ensures e != RowNotFound ==> r == Legacy.EventPacketRepoError.InternalError(e)
  {
    if e.RowNotFound? then Legacy.EventPacketRepoError.NotFound
    else Legacy.EventPacketRepoError.InternalError(e)
  }

  /** `get` and `update` agree with the packet mapper except on the two
      constraint codes it recognises: a duplicate name or a bad reference
      reaching `update` is reported as internal. */
  lemma FetchErrorAgreesWithMapperOnlyWhenUncoded(e: DbError)
    ensures FetchError(e) == Legacy.MapSqlxPacketError(e) <==> Legacy.Unrecognised(e)
    ensures DatabaseCode(e) == Some(UniqueViolation) ==>
      FetchError(e) == Legacy.EventPacketRepoError.InternalError(e) &&
      Legacy.MapSqlxPacketError(e) == Legacy.EventPacketRepoError.DuplicateName
  {
  }

  /** `get_event_packet`. */
  function Get(s: PacketStore, id: int, fault: Option<DbError>): (r: Result<EventPackets, Error>)
    ensures r.Ok? <==> fault.None? && id in s.rows
    ensures r.Ok? ==> r.value == s.rows[id]
    ensures r == Err(Legacy.EventPacketRepoError.NotFound) <==>
      (fault.None? && id !in s.rows) || fault == Some(RowNotFound)
    ensures fault.Some? && fault.value != RowNotFound ==> r == Err(Legacy.EventPacketRepoError.InternalError(fault.value))
  {
    match FetchOne(s, id, fault)
    case Ok(packet) => Ok(packet)
    case Err(e) => Err(FetchError(e))
  }

  /** `create_event_packet`: the new row takes the next serial id; any
      driver error goes through the packet mapper. */
  function Create(s: PacketStore, payload: Models.CreateEventPacket, fault: Option<DbError>)
    : (r: Result<(EventPackets, PacketStore), Error>)
    ensures r.Err? <==> fault.Some?
    ensures r.Err? ==> r.error == Legacy.MapSqlxPacketError(fault.value)
    ensures r.Ok? ==> var (row, s') := r.value;
      && row == EventPackets(s.nextId, payload.idOwner, payload.nume, payload.locatie, payload.descriere)
      && s'.rows == s.rows[row.id := row]
    ensures Valid(s) && r.Ok? ==> r.value.0.id !in s.rows && Valid(r.value.1)
  {
    if fault.Some? then Err(Legacy.MapSqlxPacketError(fault.value))
    else
      var row := EventPackets(s.nextId, payload.idOwner, payload.nume, payload.locatie, payload.descriere);
      Ok((row, PacketStore(s.rows[row.id := row], s.nextId + 1)))
  }

  /** The `COALESCE` update: the owner only when one is given, the other
      three columns always. */
  function ApplyUpdate(stored: EventPackets, payload: UpdateEventPacket): (row: EventPackets)
    ensures row.id == stored.id
    ensures payload.idOwner.None? ==> row.idOwner == stored.idOwner
    ensures payload.idOwner.Some? ==> row.idOwner == payload.idOwner.value
    ensures row.nume == payload.nume && row.locatie == payload.locatie && row.descriere == payload.descriere
  {
    stored.(idOwner := payload.idOwner.UnwrapOr(stored.idOwner),
         nume := payload.nume, locatie := payload.locatie, descriere := payload.descriere)
  }

  /** `update_event_packet`. */
  function Update(s: PacketStore, id: int, payload: Models.UpdateEventPacket, fault: Option<DbError>)
    : (r: Result<(EventPackets, PacketStore), Error>)
    ensures r.Ok? <==> fault.None? && id in s.rows
    ensures r.Ok? ==> var (row, s') := r.value;
      && row == ApplyUpdate(s.rows[id], payload)
      && s'.rows.Keys == s.rows.Keys && s'.nextId == s.nextId
      && s'.rows[id] == row
      && (forall other :: other in s.rows && other != id ==> s'.rows[other] == s.rows[other])
    ensures fault.None? && id !in s.rows ==> r == Err(Legacy.EventPacketRepoError.NotFound)
    ensures fault.Some? ==> r == Err(FetchError(fault.value))
  {
    match FetchOne(s, id, fault)
    case Ok(stored) =>
      var row := ApplyUpdate(stored, payload);
      Ok((row, s.(rows := s.rows[id := row])))
    case Err(e) => Err(FetchError(e))
  }

  /** `delete_event_packet`: a driver error is internal straight away; then
      zero affected rows means `NotFound`. */
  function Delete(s: PacketStore, id: int, fault: Option<DbError>): (r: Result<PacketStore, Error>)
    ensures fault.Some? ==> r == Err(Legacy.EventPacketRepoError.InternalError(fault.value))
    ensures r == Err(Legacy.EventPacketRepoError.NotFound) <==> fault.None? && id !in s.rows
    ensures r.Ok? <==> fault.None? && id in s.rows
    ensures r.Ok? ==> r.value.rows == s.rows - {id} && r.value.nextId == s.nextId
  {
    if fault.Some? then Err(Legacy.EventPacketRepoError.InternalError(fault.value))
    else
      var rowsAffected := if id in s.rows then 1 else 0;
      if rowsAffected == 0 then Err(Legacy.EventPacketRepoError.NotFound)
      else Ok(s.(rows := s.rows - {id}))
  }

  /** `list_event_packets`: the statement sent, and the driver's outcome with
      every error reported as internal. */
  function List(params: EventPacketQuery, outcome: Result<seq<EventPackets>, DbError>)
    : (r: (seq<Token>, Result<seq<EventPackets>, Error>))
    requires PaginationInRange(params.paginare)
    ensures r.0 == ListQuery(params)
    ensures r.1.Ok? <==> outcome.Ok?
    ensures r.1.Ok? ==> r.1.value == outcome.value
    ensures r.1.Err? ==> r.1.error == Legacy.EventPacketRepoError.InternalError(outcome.error)
  {
    var query := ListQuery(params);
    match outcome
    case Ok(packets) => (query, Ok(packets))
    case Err(e) => (query, Err(Legacy.EventPacketRepoError.InternalError(e)))
  }

  // ---------------------------------------------------------------------
  // Properties across operations
  // ---------------------------------------------------------------------

  /** A created packet is found under the id it was given, which no earlier
      row had. */
  lemma CreateThenGet(s: PacketStore, payload: Models.CreateEventPacket)
    requires Valid(s)
    ensures Create(s, payload, None).Ok?
    ensures var (row, s') := Create(s, payload, None).value;
      && row.id !in s.rows
      && Valid(s')
      && Get(s', row.id, None) == Ok(row)
  {
    var (row, s') := Create(s, payload, None).value;
    assert row.id !in s.rows;
  }

  /** Updates and deletes keep the store well formed. */
  lemma UpdateAndDeleteKeepValid(s: PacketStore, id: int, payload: Models.UpdateEventPacket)
    requires Valid(s)
    ensures Update(s, id, payload, None).Ok? ==> Valid(Update(s, id, payload, None).value.1)
    ensures Delete(s, id, None).Ok? ==> Valid(Delete(s, id, None).value)
  {
  }

  /** Deleting the same packet twice: the first call succeeds, the second
      finds nothing to delete. */
  lemma DeleteTwice(s: PacketStore, id: int)
    requires id in s.rows
    ensures Delete(s, id, None).Ok?
    ensures Delete(Delete(s, id, None).value, id, None) == Err(Legacy.EventPacketRepoError.NotFound)
  {
  }

  /** An update changes nothing a `get` of another packet sees, and a `get`
      of the updated one sees the update. */
  lemma UpdateThenGet(s: PacketStore, id: int, other: int, payload: Models.UpdateEventPacket)
    requires id in s.rows
    ensures var s' := Update(s, id, payload, None).value.1;
      && Get(s', id, None) == Ok(ApplyUpdate(s.rows[id], payload))
      && (other != id ==> Get(s', other, None) == Get(s, other, None))
  {
  }
}
