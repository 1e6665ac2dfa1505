# Event service core in Dafny

A model of three pure layers of the axum event service (events, event
packets, tickets, and the packet/event join table):

- **Error translation.** The service keeps two revisions of its error layer:
  - `shared/error.rs`, the newer one, used only by `handlers/event.rs`
    (together with `shared/links.rs`);
  - `error.rs`, the older one, used with `links.rs` by the other handlers
    (`event_packets.rs`, `events.rs`, `ticket.rs`, `join_pe.rs`) and by both
    repositories.

  Each revision has one error enum per entity family and mappers from driver
  errors to those enums. The mappers are keyed on the SQLSTATE codes of the
  SQL standard's integrity-constraint class: 23503 for a foreign key, 23505
  for a unique value, 23514 for a check. Each revision also maps every error to
  an HTTP status from RFC 9110 (400, 404, 409, 415, 422, 500) and a fixed body.
  The newer revision also flattens nested validation errors and extracts the
  field name from an "unknown field" JSON message.

  Modules: `SharedError`, `LegacyError`, and `ErrorRevisions`, which relates
  the two revisions.
- **Hypermedia links.** This covers `shared/links.rs` (the `Link` type, the
  `ResponseBuilder` chain and the per-entity builders in simple, nested and
  filtered mode) and the older `links.rs` constructors. Modules:
  `SharedLinks` and `LegacyLinks`.
- **Repository logic.** These are the pure parts of `event_packets_repo.rs`
  and `ticket_repo.rs`:
  - pagination arithmetic;
  - assembly of the listing statement as a token sequence;
  - which error each operation reports;
  - the `COALESCE` updates;
  - the rule that zero affected rows on delete means "not found".

  Tables are maps. What the driver reports is a parameter: `fault` is the
  error a statement fails with, and `outcome` is what a listing returns.
  Modules: `PacketRepo` and `TicketRepo`.

The supporting modules are:

- `Base`: `Option`/`Result`, decimal printing of integers, `join`, `split`
  and `contains`.
- `Driver`: the driver error, abstracted as `RowNotFound | Database(code) |
  Other`, plus the SQLSTATE constants.
- `Http`: the status codes.
- `Models`: the records.

## Model

All source paths are under `services/axum/event-service/src/`.

| member | source | states |
|---|---|---|
| `Driver.DatabaseCode` | services/axum/event-service/src/shared/error.rs:322-323 | Only a server-side database error can carry a SQLSTATE code, and it carries exactly the one the server sent. |
| `SharedError.MapSqlxEventError` | services/axum/event-service/src/shared/error.rs:321-335 | Every input except code 23514 follows the uniform translation: 23503 gives invalid reference, 23505 gives duplicate, a missing row gives not found, anything else is internal. 23514 is internal too. An internal error carries the driver error unchanged. |
| `SharedError.MapSqlxPacketError` | services/axum/event-service/src/shared/error.rs:337-351 | Same as the event mapper, for the packet variants `InvalidEventId` and `DuplicateName`. |
| `SharedError.MapSqlxTicketError` | services/axum/event-service/src/shared/error.rs:353-368 | The ticket mapper is the only one that implements the whole uniform translation, including 23514 as a constraint violation. |
| `SharedError.MapSqlxJoinPeError` | services/axum/event-service/src/shared/error.rs:370-384 | A missing row is an invalid reference, since the join family has no "not found". 23514 is internal. Everything else follows the uniform translation. |
| `SharedError.ConstraintCodesRecognisedByEveryFamily` | services/axum/event-service/src/shared/error.rs:321-384 | In all four families, 23503 gives the reference variant and 23505 gives the duplicate variant. |
| `SharedError.PresentMessages` | services/axum/event-service/src/shared/error.rs:116-121 | A message is listed exactly when some failed rule carries it, as often as rules carry it. Rules without a message add nothing. |
| `SharedError.PresentMessagesInOrder` | services/axum/event-service/src/shared/error.rs:116-121 | The result is the messages of exactly the rules that have one, at strictly increasing rule positions, so order and duplicates are kept. |
| `SharedError.FlattenValidationErrors` | services/axum/event-service/src/shared/error.rs:103-127 | The flattened list holds, with multiplicity, exactly the messages of every failed field rule at any depth of `Struct` and `List` nesting, as an independent multiset definition counts them. |
| `SharedError.FlattenHasExactlyTheMessages` | services/axum/event-service/src/shared/error.rs:103-127 | A string is in the flattened list exactly when some field rule carries it as its message, at any depth of `Struct` and `List` nesting. |
| `SharedError.FlattenIgnoresIterationOrder` | services/axum/event-service/src/shared/error.rs:106-124 | Any two iteration orders of the same entries give the same messages with the same multiplicities. |
| `SharedError.DataErrorDetail` | services/axum/event-service/src/shared/error.rs:152-161 | A message without "unknown field" passes through unchanged. One with "unknown field" but no backtick becomes "Invalid data format.". |
| `SharedError.SecondPieceIsField` | services/axum/event-service/src/shared/error.rs:155-156 | After splitting at backticks, the second piece is the text between the first backtick and the next one, or the end of the message. |
| `SharedError.DataErrorDetailNamesTheField` | services/axum/event-service/src/shared/error.rs:154-158 | An "unknown field" message with the name in backticks is reported as "Unknown field \`name\`". |
| `SharedError.JsonReply` | services/axum/event-service/src/shared/error.rs:150-186 | Each rejection gets its own status, title and single detail: a data error is 422 "Invalid JSON Data" with the extracted detail, a syntax error is 400 "Invalid JSON Syntax" with the message, a missing content type is 415 "Missing Content-Type" with "Expected 'application/json'.", and a body that cannot be read is 400 "Bad JSON Request" with the message. |
| `SharedError.EventReply` | services/axum/event-service/src/shared/error.rs:188-218 | The status is the uniform one for the variant's kind, the body has one detail, and an internal error gets the fixed title and text. |
| `SharedError.PacketReply` | services/axum/event-service/src/shared/error.rs:220-250 | As for events, for the packet variants. |
| `SharedError.TicketReply` | services/axum/event-service/src/shared/error.rs:252-291 | As for events, plus a constraint violation answered with 422. |
| `SharedError.JoinReply` | services/axum/event-service/src/shared/error.rs:293-315 | As for events, for the join variants. |
| `SharedError.IntoResponse` | services/axum/event-service/src/shared/error.rs:129-320 | See the note after this table. |
| `SharedError.InternalCauseNeverLeaks` | services/axum/event-service/src/shared/error.rs:211-217 | Two internal errors with different driver causes give identical responses in every family. |
| `SharedError.TicketStatusFollowsUniformTranslation` | services/axum/event-service/src/shared/error.rs:252-291 | A driver error sent through the ticket mapper is answered with the uniform status of its kind. |
| `LegacyError.MapSqlxEventError` | services/axum/event-service/src/error.rs:133-147 | Four if-and-only-ifs: 23503 iff invalid reference, 23505 iff duplicate, a missing row iff not found, any other error iff internal carrying that error. |
| `LegacyError.MapSqlxPacketError` | services/axum/event-service/src/error.rs:149-163 | The same four if-and-only-ifs, for the packet variants. |
| `LegacyError.MapSqlxTicketError` | services/axum/event-service/src/error.rs:165-179 | The same four if-and-only-ifs. There is no 23514 case, so a check violation is internal. |
| `LegacyError.MapSqlxJoinPeError` | services/axum/event-service/src/error.rs:181-192 | 23503 iff invalid reference and 23505 iff duplicate. Everything else is internal, a missing row included. |
| `LegacyError.EventReply` | services/axum/event-service/src/error.rs:38-61 | The status is an error status, it is 500 exactly for an internal error, and the internal message is the fixed text. |
| `LegacyError.PacketReply` | services/axum/event-service/src/error.rs:63-86 | As for events. |
| `LegacyError.TicketReply` | services/axum/event-service/src/error.rs:88-111 | As for events. |
| `LegacyError.JoinReply` | services/axum/event-service/src/error.rs:113-131 | As for events. |
| `ErrorRevisions.EventAndPacketMappersAgree` | services/axum/event-service/src/error.rs:133-163 | For every driver error, the two revisions' event and packet mappers give the same variant. |
| `ErrorRevisions.TicketMappersDifferOnlyOnCheckViolation` | services/axum/event-service/src/error.rs:165-179 | The ticket mappers agree exactly when the code is not 23514. On 23514 the older one says internal and the newer one says constraint violation. |
| `ErrorRevisions.JoinMappersDifferOnlyOnRowNotFound` | services/axum/event-service/src/error.rs:181-192 | The join mappers agree exactly when the error is not a missing row. On a missing row the older one says internal and the newer one says invalid reference. |
| `ErrorRevisions.EventStatusesAgree` | services/axum/event-service/src/error.rs:38-61 | Each event variant gets the same status in both revisions, and the same internal-error text. |
| `ErrorRevisions.PacketStatusesAgree` | services/axum/event-service/src/error.rs:63-86 | The same, for packets. |
| `ErrorRevisions.TicketStatusesAgree` | services/axum/event-service/src/error.rs:88-111 | The same, for the ticket variants both revisions have. |
| `ErrorRevisions.JoinStatusesAgree` | services/axum/event-service/src/error.rs:113-131 | The same, for join variants. |
| `ErrorRevisions.CheckViolationStatusDiffers` | services/axum/event-service/src/error.rs:165-179 | A check violation on a ticket is a 500 through the older layer and a 422 through the newer one. |
| `Base.IntToStringRoundTrip` | services/axum/event-service/src/shared/links.rs:153-155 | An id printed into an href reads back as the same integer. |
| `Base.Split` | services/axum/event-service/src/shared/error.rs:155 | `str::split`: no piece contains the separator, and joining the pieces with it gives back the input. |
| `SharedLinks.AnnotationSpellingsAgree` | services/axum/event-service/src/shared/links.rs:37-40 | Joining with ", " makes `["[GET", "POST]"]` and `["[GET, POST]"]` the same annotation, and likewise for the four-method list. |
| `SharedLinks.ChainKeepsDataAndSelfHref` | services/axum/event-service/src/shared/links.rs:74-124 | No sequence of builder calls changes the data or the self href. |
| `SharedLinks.ChainParent` | services/axum/event-service/src/shared/links.rs:84-97 | After a chain, a parent link exists exactly when one existed before or some `parent*` call was made. |
| `SharedLinks.ChainLinkNames` | services/axum/event-service/src/shared/links.rs:99-124 | After a chain, the relation names are the earlier ones plus every name some `link*` call added. |
| `SharedLinks.ChainLastLinkWins` | services/axum/event-service/src/shared/links.rs:99-124 | The link stored under a name is the one from the last call that added that name. |
| `SharedLinks.ChainLeavesOtherNames` | services/axum/event-service/src/shared/links.rs:99-124 | A name no call added keeps exactly the entry it had. |
| `SharedLinks.BuiltChain` | services/axum/event-service/src/shared/links.rs:126-139 | See the note after this table. |
| `SharedLinks.BuildSimpleTicket` | services/axum/event-service/src/shared/links.rs:145-151 | Self is `{base}/tickets/{cod}` with all methods, parent is `{base}/tickets` with GET/POST, and there are no relations. |
| `SharedLinks.BuildSimpleEvent` | services/axum/event-service/src/shared/links.rs:153-169 | Self is `{base}/events/{id}` and parent is `{base}/events`. The relations are exactly `event-packets` and `tickets` under the self href, both typed "[GET, POST]". |
| `SharedLinks.BuildSimpleEventPacket` | services/axum/event-service/src/shared/links.rs:231-248 | Self is `{base}/event-packets/{id}` and parent is `{base}/event-packets`. The relations are exactly `events` and `tickets`, typed "[GET, POST]". |
| `SharedLinks.SimpleResponsesAreNavigable` | services/axum/event-service/src/shared/links.rs:145-248 | Every relation href is the self href plus `/name`, and every self href is the parent href plus one segment (the id or the code). |
| `SharedLinks.SelfHrefsIdentifyTheEntity` | services/axum/event-service/src/shared/links.rs:153-155 | Two events, or two packets, with the same self href have the same id. |
| `SharedLinks.BuildPacketOverEvent` | services/axum/event-service/src/shared/links.rs:204-218 | Self is `{base}/events/{id}/event-packets`, parent is `{base}/events/{id}`, and there are no relations. |
| `SharedLinks.BuildTicketOverEvent` | services/axum/event-service/src/shared/links.rs:220-229 | Self is `{base}/events/{eid}/tickets/{cod}` and parent is `{base}/events/{eid}/tickets`. |
| `SharedLinks.BuildEventOverPacket` | services/axum/event-service/src/shared/links.rs:250-260 | Self is `{base}/event-packets/{pid}/events` and parent is `{base}/event-packets/{pid}`. |
| `SharedLinks.BuildTicketOverPacket` | services/axum/event-service/src/shared/links.rs:262-278 | Self is `{base}/event-packets/{pid}/tickets/{cod}` and parent is `{base}/event-packets/{pid}/tickets`. |
| `SharedLinks.NestedResponsesMatchAdvertisedRelations` | services/axum/event-service/src/shared/links.rs:204-278 | Each nested response sits at the relation href its owner advertises and points back to the owner. A nested ticket belongs to the advertised tickets collection. |
| `SharedLinks.BuildFilteredEvent` | services/axum/event-service/src/shared/links.rs:171-202 | One response per event, in order, with the data unchanged. Every item has the same links: self is the query-echoing href typed GET, parent is `{base}/events`, and there are no relations. |
| `SharedLinks.BuildFilteredEventPackets` | services/axum/event-service/src/shared/links.rs:280-317 | The same, for packets. |
| `SharedLinks.QueryPairsOfRender` | services/axum/event-service/src/shared/links.rs:189-191 | Reading back the query after the first `?` gives the pairs it was built from, in order. |
| `SharedLinks.QueryMarkIffFiltered` | services/axum/event-service/src/handlers/event.rs:34-43 | An event listing's href has a `?` exactly when a filter is given (`has_filters`), and with none it is the bare collection. The same holds for packets. |
| `SharedLinks.FilteredEventHrefRoundTrip` | services/axum/event-service/src/shared/links.rs:182-191 | The href's query is exactly the given filters, each once, location before name. |
| `SharedLinks.FilteredPacketHrefRoundTrip` | services/axum/event-service/src/shared/links.rs:291-306 | The href's query is exactly the given keys, each once, in the order page, items_per_page, available_tickets, type. No default is filled in. |
| `SharedLinks.PacketListingExample` | services/axum/event-service/src/shared/links.rs:291-306 | Listing with `type=foo&page=2` gives `{base}/event-packets?page=2&type=foo`. |
| `LegacyLinks.NewEventResponse` | services/axum/event-service/src/links.rs:48-86 | Self is `{base}/events/{id}` and parent is `{base}/events`, both untyped. The relations are exactly `event-packets` and `tickets`, each the self href plus `/name`, typed GET. The event is unchanged. |
| `LegacyLinks.NewEventPacketResponse` | services/axum/event-service/src/links.rs:88-126 | The same shape under `/event-packets`, with relations `events` and `tickets`. |
| `LegacyLinks.NewTicketResponse` | services/axum/event-service/src/links.rs:128-148 | Self is `{base}/tickets/{cod}` and parent is `{base}/tickets`, both typed GET. There are no relations. |
| `LegacyLinks.RevisionsAgreeOnHrefs` | services/axum/event-service/src/links.rs:48-148 | The two link revisions give the same hrefs and relation names. They differ only in method annotations. |
| `PacketRepo.EffectivePage` | services/axum/event-service/src/repositories/event_packets_repo.rs:66 | The page is at least 1. It is 1 when absent or below 1, otherwise the given page. |
| `PacketRepo.EffectiveLimit` | services/axum/event-service/src/repositories/event_packets_repo.rs:68-71 | The limit is at least 1. It is 10 when absent, 1 when below 1, otherwise the given value. |
| `PacketRepo.WrapI64` | services/axum/event-service/src/repositories/event_packets_repo.rs:73 | The result is an `i64`, equals the input when that fits, and is congruent to it modulo 2^64. |
| `PacketRepo.ApplyPagination` | services/axum/event-service/src/repositories/event_packets_repo.rs:61-79 | The limit is the effective items per page. The offset is an `i64`: 0 when no page, or a page at most 1, is given; `(page - 1) * limit`, not negative, when that fits; and always congruent to it modulo 2^64. |
| `PacketRepo.EveryRowOnExactlyOnePage` | services/axum/event-service/src/repositories/event_packets_repo.rs:73-78 | Row `n` falls in a page's window exactly when that page is `n / limit + 1`. |
| `PacketRepo.NextPageStartsAfterThisOne` | services/axum/event-service/src/repositories/event_packets_repo.rs:73 | Page `k + 1` starts exactly one limit after page `k`. |
| `PacketRepo.HugePageWrapsToTheFirstPage` | services/axum/event-service/src/repositories/event_packets_repo.rs:73 | With page 2^62 + 1 and 4 items per page, the product overflows and the offset wraps to 0. |
| `PacketRepo.TypeFilter` | services/axum/event-service/src/repositories/event_packets_repo.rs:29 | A filter is present exactly when a non-empty `type` was given, and it is that value. |
| `PacketRepo.ListQuery` | services/axum/event-service/src/repositories/event_packets_repo.rs:20-51 | The statement opens with the SELECT and ends with the LIMIT/OFFSET window. Its keywords are WHERE for a first condition and AND for a second, then LIMIT and OFFSET. Its parameters are bound in this order: `%type%`, the ticket minimum, the limit, the offset. Absent filters are skipped. |
| `PacketRepo.EmptyTypeFilterIgnored` | services/axum/event-service/src/repositories/event_packets_repo.rs:29-36 | `type=""` gives the same statement as no `type`. |
| `PacketRepo.ConditionsFollowTheFilters` | services/axum/event-service/src/repositories/event_packets_repo.rs:31-48 | The ticket-minimum condition appears exactly when `available_tickets` is given. The description match appears exactly when a non-empty `type` is given. |
| `PacketRepo.FetchError` | services/axum/event-service/src/repositories/event_packets_repo.rs:95-99 | It returns not found exactly for a missing row. Every other error is internal. |
| `PacketRepo.FetchErrorAgreesWithMapperOnlyWhenUncoded` | services/axum/event-service/src/repositories/event_packets_repo.rs:144-148 | `get` and `update` agree with the packet mapper exactly on errors without 23503/23505. A duplicate name on update is internal. |
| `PacketRepo.Get` | services/axum/event-service/src/repositories/event_packets_repo.rs:80-100 | It returns the stored row. An absent id is not found, and a driver error other than a missing row is internal. |
| `PacketRepo.Create` | services/axum/event-service/src/repositories/event_packets_repo.rs:102-121 | The new row takes the next serial id and the payload's fields, and keeps the store valid. A driver error goes through the packet mapper. |
| `PacketRepo.ApplyUpdate` | services/axum/event-service/src/repositories/event_packets_repo.rs:131 | The owner changes only when one is given. The name, location and description are always overwritten, and the id is kept. |
| `PacketRepo.Update` | services/axum/event-service/src/repositories/event_packets_repo.rs:123-149 | Only the target row changes. An absent id is not found, and driver errors go through the `get`-style routing. |
| `PacketRepo.Delete` | services/axum/event-service/src/repositories/event_packets_repo.rs:151-163 | A driver error is internal at once. Otherwise the result is Ok exactly when a row has the id, and not found exactly when none does. On success exactly that row is removed. |
| `PacketRepo.List` | services/axum/event-service/src/repositories/event_packets_repo.rs:52-58 | It sends the assembled statement and returns the rows. Every driver error is internal. |
| `PacketRepo.CreateThenGet` | services/axum/event-service/src/repositories/event_packets_repo.rs:102-121 | A created packet has an id no earlier row had, and `get` finds it unchanged. |
| `PacketRepo.UpdateAndDeleteKeepValid` | services/axum/event-service/src/repositories/event_packets_repo.rs:123-163 | Update and delete keep every row under its own id, below the serial. |
| `PacketRepo.DeleteTwice` | services/axum/event-service/src/repositories/event_packets_repo.rs:158-162 | A second delete of the same id is not found. |
| `PacketRepo.UpdateThenGet` | services/axum/event-service/src/repositories/event_packets_repo.rs:128-134 | `get` sees the update on the updated id and no change on any other. |
| `TicketRepo.Create` | services/axum/event-service/src/repositories/ticket_repo.rs:15-30 | It inserts the ticket as given. A taken code is a duplicate, and any driver error goes through the older ticket mapper. |
| `TicketRepo.Get` | services/axum/event-service/src/repositories/ticket_repo.rs:32-45 | It returns the stored ticket. An absent code is not found, and driver errors go through the older mapper. |
| `TicketRepo.ApplyUpdate` | services/axum/event-service/src/repositories/ticket_repo.rs:54-58 | Each reference is replaced only when the payload gives one. The code is never changed. |
| `TicketRepo.Update` | services/axum/event-service/src/repositories/ticket_repo.rs:47-69 | Only the target row changes. An absent code is not found, and driver errors go through the older mapper. |
| `TicketRepo.Delete` | services/axum/event-service/src/repositories/ticket_repo.rs:71-83 | A driver error is internal without the mapper. Otherwise the result is Ok exactly when the code is present, and not found exactly when it is absent. On success the row is removed. |
| `TicketRepo.CreateThenGet` | services/axum/event-service/src/repositories/ticket_repo.rs:15-45 | A created ticket is found under its code with the given references. |
| `TicketRepo.CreateTwice` | services/axum/event-service/src/repositories/ticket_repo.rs:15-30 | Creating the same code twice gives a duplicate. |
| `TicketRepo.UpdateThenGet` | services/axum/event-service/src/repositories/ticket_repo.rs:47-69 | `get` sees the update on that code and no change on any other. |
| `TicketRepo.EmptyUpdateChangesNothing` | services/axum/event-service/src/repositories/ticket_repo.rs:54-58 | An update that gives no reference leaves the ticket and the table as they were. |
| `TicketRepo.DeleteTwice` | services/axum/event-service/src/repositories/ticket_repo.rs:78-82 | Deleting a code gives Ok the first time and not found the second. |
| `TicketRepo.DeleteBypassesTheMapper` | services/axum/event-service/src/repositories/ticket_repo.rs:76 | A missing row reported by the driver is not found from `get` but internal from `delete`. |
| `TicketRepo.CheckViolationIsAServerError` | services/axum/event-service/src/repositories/ticket_repo.rs:29 | Through the older mapper the repositories use, a check violation on create is internal and answered with 500. |

The two "see the note" rows are too long for the table:

- `SharedError.IntoResponse` states these properties:
  - every status is an error status;
  - a validation error is a 422 titled "Validation Failed" with the flattened messages;
  - every other error has exactly one detail;
  - a repository error gets the uniform status of its kind;
  - an internal error gets the fixed body;
  - a bad request is a 400 carrying its message;
  - for JSON rejections, a data error is 422, a syntax error is 400, a missing content type is 415 with "Expected 'application/json'.", and anything else is 400.
- `SharedLinks.BuiltChain` states what `build` returns after any chain started by `new`:
  - the data unchanged;
  - the given self href;
  - a parent exactly when a `parent*` call was made;
  - no relation map exactly when no relation was added.

## Left out

- I/O, `async`, the connection pool and each repository's `new` are left out.
- The driver's behaviour is a parameter, not a model of PostgreSQL:
  - `fault` is the error a statement fails with;
  - `outcome` is what a listing returns;
  - the model does not say which inputs raise 23503, 23505 or 23514, because the schema's constraints are not visible.

  There is one exception. The ticket code is the ticket's identity, so inserting a code that is already present is modelled as a unique violation.
- The SQL meaning of the listing statement is left out: `unaccent`/`ILIKE` matching and the `SUM` subquery. The model has the statement's tokens, not the rows it selects.
- `PacketRepo.Create` leaves the serial counter unchanged when the insert fails, whereas a PostgreSQL sequence uses up its value even then. Only the ids of later packets differ; no stated property depends on them.
- Serde serialisation is left out: `flatten`, `skip_serializing_if`, and the field order of the older `Links`. `Links` is a datatype, not JSON text.
- Driver and serde message text is opaque. JSON rejection messages are string parameters.
- Request validation rules are left out, including the rule that a ticket belongs to exactly one of a packet or an event. So are the handlers, except the `has_filters` test of `handlers/event.rs`.
- `repositories/event_repo.rs`, `repositories/join_pe_repo.rs`, `main.rs`, `lib.rs` and the OpenAPI documentation are not part of this model.
- `ResponseBuilder::builder` (`shared/links.rs`:140-142) is the same as `ResponseBuilder::new` and is not modelled separately.
- Ids and `available_tickets` are `i32` in the service but unbounded integers here. No operation does arithmetic on them.
- `PacketRepo.ApplyPagination` follows a release build: the `i64` product wraps. A debug build panics instead, and that is not modelled.
- `PacketRepo.EveryRowOnExactlyOnePage` and `PacketRepo.NextPageStartsAfterThisOne` only hold when `(page - 1) * limit` fits in an `i64`. Beyond that the offset wraps; `PacketRepo.HugePageWrapsToTheFirstPage` shows this.
- `SharedLinks.FilteredEventHrefRoundTrip` requires that no filter value contains `&` and that the base URL contains no `?`, because the code does not percent-encode query values.
- `SharedLinks.FilteredPacketHrefRoundTrip` has the same requirements, for the `type` value.
- `SharedLinks.QueryMarkIffFiltered` requires that the base URL contains no `?`, for the same reason: a `?` in the base would be indistinguishable from the query mark.
- `SharedError.FlattenValidationErrors` states the messages with their multiplicities, and `SharedError.PresentMessagesInOrder` states the order within one field. The order across fields is not stated, because it follows the validator's hash-map iteration; `SharedError.FlattenIgnoresIterationOrder` shows that no iteration order changes the multiset.
- An absent query key is never filled with a default in a filtered listing's href (`SharedLinks.PacketListingExample`).
