/** The current error layer of the service (`shared/error.rs`): one error
    enum per entity family, the translation of driver errors into them, and
    the conversion of every API error into an HTTP status and a JSON body
    `{ "error": <title>, "details": [<message>, ...] }`. */
module SharedError {
  import opened Base
  import opened Driver
  import Http

  // ---------------------------------------------------------------------
  // Error enums
  // ---------------------------------------------------------------------

  datatype EventRepoError =
    | NotFound
    | InvalidReference
    | DuplicateEntry
    | InternalError(cause: DbError)

  datatype EventPacketRepoError =
    | NotFound
    | DuplicateName
    | InvalidEventId
    | InternalError(cause: DbError)

  datatype TicketRepoError =
    | NotFound
    | DuplicateEntry
    | InvalidReference
    | ConstraintViolation
    | InternalError(cause: DbError)

  /** The event/packet join table has no "not found" error. */
  datatype JoinPeRepoError =
    | DuplicateEntry
    | InvalidReference
    | InternalError(cause: DbError)

  /** One failed rule on a field; `message` is the rule's custom message, if it has one. */
  datatype FieldError = FieldError(code: string, message: Option<string>)

  /** `validator::ValidationErrors`: what failed, per field, in the order the
      underlying hash map happens to iterate. */
  datatype ValidationErrors = ValidationErrors(entries: seq<(string, ValidationErrorsKind)>)

  /** A field's failure is a nested struct's errors, the errors of a list's
      elements (by index), or the failed rules of a plain field. */
  datatype ValidationErrorsKind =
    | Struct(nested: ValidationErrors)
    | List(items: seq<(nat, ValidationErrors)>)
    | Field(errors: seq<FieldError>)

  /** The rejections axum's JSON extractor produces. */
  datatype JsonRejection =
    | JsonDataError(message: string)
    | JsonSyntaxError(message: string)
    | MissingJsonContentType(message: string)
    | BytesRejection(message: string)

  datatype ApiError =
    | Validation(errors: ValidationErrors)
    | Event(event: EventRepoError)
    | BadRequest(message: string)
    | Json(rejection: JsonRejection)
    | Packet(packet: EventPacketRepoError)
    | Ticket(ticket: TicketRepoError)
    | Join(join: JoinPeRepoError)

  datatype ApiErrorResponse = ApiErrorResponse(error: string, details: seq<string>)

  /** What `into_response` sends: a status and a JSON body. */
  datatype ErrorReply = ErrorReply(status: int, body: ApiErrorResponse)

  // ---------------------------------------------------------------------
  // The family-independent meaning of a repository error
  // ---------------------------------------------------------------------

  datatype ErrorKind =
    | NotFoundKind
    | InvalidReferenceKind
    | DuplicateKind
    | ConstraintKind
    | InternalKind

  function EventKind(e: EventRepoError): ErrorKind {
    match e
    case NotFound => NotFoundKind
    case InvalidReference => InvalidReferenceKind
    case DuplicateEntry => DuplicateKind
    case InternalError(_) => InternalKind
  }

  function PacketKind(e: EventPacketRepoError): ErrorKind {
    match e
    case NotFound => NotFoundKind
    case InvalidEventId => InvalidReferenceKind
    case DuplicateName => DuplicateKind
    case InternalError(_) => InternalKind
  }

  function TicketKind(e: TicketRepoError): ErrorKind {
    match e
    case NotFound => NotFoundKind
    case InvalidReference => InvalidReferenceKind
    case DuplicateEntry => DuplicateKind
    case ConstraintViolation => ConstraintKind
    case InternalError(_) => InternalKind
  }

  function JoinKind(e: JoinPeRepoError): ErrorKind {
    match e
    case InvalidReference => InvalidReferenceKind
    case DuplicateEntry => DuplicateKind
    case InternalError(_) => InternalKind
  }

  predicate IsRepoError(e: ApiError) {
    e.Event? || e.Packet? || e.Ticket? || e.Join?
  }

  function RepoErrorKind(e: ApiError): ErrorKind
    requires IsRepoError(e)
  {
    match e
    case Event(x) => EventKind(x)
    case Packet(x) => PacketKind(x)
    case Ticket(x) => TicketKind(x)
    case Join(x) => JoinKind(x)
  }

  /** One status per kind, whichever family the error comes from. */
  function KindStatus(k: ErrorKind): int {
    match k
    case NotFoundKind => Http.NotFound
    case InvalidReferenceKind => Http.BadRequest
    case DuplicateKind => Http.Conflict
    case ConstraintKind => Http.UnprocessableContent
    case InternalKind => Http.InternalServerError
  }

  /** The translation of a driver error every family is meant to share: a
      foreign-key violation is a bad reference, a unique violation a
      duplicate, a check violation a broken rule, a missing row "not found",
      anything else internal. Only the ticket mapper implements all of it. */
  function UniformKind(err: DbError): ErrorKind {
    var code := DatabaseCode(err);
    if code == Some(ForeignKeyViolation) then InvalidReferenceKind
    else if code == Some(UniqueViolation) then DuplicateKind
    else if code == Some(CheckViolation) then ConstraintKind
    else if err == RowNotFound then NotFoundKind
    else InternalKind
  }

  // ---------------------------------------------------------------------
  // Driver error translation
  // ---------------------------------------------------------------------

  function MapSqlxEventError(err: DbError): (r: EventRepoError)
    ensures DatabaseCode(err) != Some(CheckViolation) ==> EventKind(r) == UniformKind(err)
    ensures DatabaseCode(err) == Some(CheckViolation) ==> r == EventRepoError.InternalError(err)
    ensures r.InternalError? ==> r.cause == err
  {
    var code := DatabaseCode(err);
    if code == Some(ForeignKeyViolation) then EventRepoError.InvalidReference
    else if code == Some(UniqueViolation) then EventRepoError.DuplicateEntry
    else if err.RowNotFound? then EventRepoError.NotFound
    else EventRepoError.InternalError(err)
  }

  function MapSqlxPacketError(err: DbError): (r: EventPacketRepoError)
    ensures DatabaseCode(err) != Some(CheckViolation) ==> PacketKind(r) == UniformKind(err)
    ensures DatabaseCode(err) == Some(CheckViolation) ==> r == EventPacketRepoError.InternalError(err)
    ensures r.InternalError? ==> r.cause == err
  {
    var code := DatabaseCode(err);
    if code == Some(ForeignKeyViolation) then EventPacketRepoError.InvalidEventId
    else if code == Some(UniqueViolation) then EventPacketRepoError.DuplicateName
    else if err.RowNotFound? then EventPacketRepoError.NotFound
    else EventPacketRepoError.InternalError(err)
  }

  function MapSqlxTicketError(err: DbError): (r: TicketRepoError)
    ensures TicketKind(r) == UniformKind(err)
    ensures r.InternalError? ==> r.cause == err
  {
    var code := DatabaseCode(err);
    if code == Some(ForeignKeyViolation) then TicketRepoError.InvalidReference
    else if code == Some(UniqueViolation) then TicketRepoError.DuplicateEntry
    else if code == Some(CheckViolation) then TicketRepoError.ConstraintViolation
    else if err.RowNotFound? then TicketRepoError.NotFound
    else TicketRepoError.InternalError(err)
  }

  function MapSqlxJoinPeError(err: DbError): (r: JoinPeRepoError)
    ensures err != RowNotFound && DatabaseCode(err) != Some(CheckViolation) ==> JoinKind(r) == UniformKind(err)
    ensures err == RowNotFound ==> r == JoinPeRepoError.InvalidReference
    ensures DatabaseCode(err) == Some(CheckViolation) ==> r == JoinPeRepoError.InternalError(err)
    ensures r.InternalError? ==> r.cause == err
  {
    var code := DatabaseCode(err);
    if code == Some(ForeignKeyViolation) then JoinPeRepoError.InvalidReference
    else if code == Some(UniqueViolation) then JoinPeRepoError.DuplicateEntry
    else if err.RowNotFound? then JoinPeRepoError.InvalidReference
    else JoinPeRepoError.InternalError(err)
  }

  /** The four mappers agree on the two codes every family recognises. */
  lemma ConstraintCodesRecognisedByEveryFamily(err: DbError)
    ensures DatabaseCode(err) == Some(ForeignKeyViolation) ==>
      && MapSqlxEventError(err) == EventRepoError.InvalidReference
      && MapSqlxPacketError(err) == EventPacketRepoError.InvalidEventId
      && MapSqlxTicketError(err) == TicketRepoError.InvalidReference
      && MapSqlxJoinPeError(err) == JoinPeRepoError.InvalidReference
    ensures DatabaseCode(err) == Some(UniqueViolation) ==>
      && MapSqlxEventError(err) == EventRepoError.DuplicateEntry
      && MapSqlxPacketError(err) == EventPacketRepoError.DuplicateName
      && MapSqlxTicketError(err) == TicketRepoError.DuplicateEntry
      && MapSqlxJoinPeError(err) == JoinPeRepoError.DuplicateEntry
  {
  }

  // ---------------------------------------------------------------------
  // Flattening validation errors
  // ---------------------------------------------------------------------

  /** The custom messages of a field's failed rules; rules without one add nothing. */
  function PresentMessages(errs: seq<FieldError>): (msgs: seq<string>)
    ensures forall m :: m in msgs <==> exists i :: 0 <= i < |errs| && errs[i].message == Some(m)
    ensures multiset(msgs) == FieldMessages(errs)
    ensures |msgs| <= |errs|
  {
    if |errs| == 0 then []
    else
      var rest := PresentMessages(errs[1..]);
      assert forall i :: 1 <= i < |errs| ==> errs[i] == errs[1..][i - 1];
      match errs[0].message
      case Some(m) => [m] + rest
      case None => rest
  }

  /** The messages a field's failed rules carry, counted with multiplicity. */
  ghost function FieldMessages(errs: seq<FieldError>): multiset<string> {
    if |errs| == 0 then multiset{} else MessageOf(errs[0]) + FieldMessages(errs[1..])
  }

  ghost function MessageOf(e: FieldError): multiset<string> {
    if e.message.Some? then multiset{e.message.value} else multiset{}
  }

  /** `msgs` are the messages of exactly the rules of `errs` that carry one,
      read at the increasing positions `idx`: in order, duplicates kept. */
  predicate Picks(errs: seq<FieldError>, msgs: seq<string>, idx: seq<nat>) {
    PicksValues(errs, msgs, idx) && Increasing(idx) && Covers(errs, idx)
  }

  predicate PicksValues(errs: seq<FieldError>, msgs: seq<string>, idx: seq<nat>) {
    && |idx| == |msgs|
    && (forall k :: 0 <= k < |idx| ==> idx[k] < |errs| && errs[idx[k]].message == Some(msgs[k]))
  }

  predicate Increasing(idx: seq<nat>) {
    forall a, b :: 0 <= a < b < |idx| ==> idx[a] < idx[b]
  }

  predicate Covers(errs: seq<FieldError>, idx: seq<nat>) {
    forall i :: 0 <= i < |errs| ==> (errs[i].message.Some? <==> i in idx)
  }

  /** `PresentMessages` keeps the rules' order and every duplicate. */
  lemma {:induction false} PresentMessagesInOrder(errs: seq<FieldError>) returns (idx: seq<nat>)
    ensures Picks(errs, PresentMessages(errs), idx)
  {
    if |errs| == 0 {
      return [];
    }
    var tail := PresentMessagesInOrder(errs[1..]);
    idx := PicksCons(errs[0], errs[1..], PresentMessages(errs[1..]), tail);
    assert [errs[0]] + errs[1..] == errs;
  }

  lemma PicksCons(e: FieldError, errs: seq<FieldError>, msgs: seq<string>, tail: seq<nat>) returns (idx: seq<nat>)
    requires Picks(errs, msgs, tail)
    ensures Picks([e] + errs, (if e.message.Some? then [e.message.value] else []) + msgs, idx)
  {
    if e.message.Some? {
      idx := PicksKeep(e, errs, msgs, tail);
    } else {
      idx := PicksSkip(e, errs, msgs, tail);
      assert [] + msgs == msgs;
    }
  }

  /** A leading rule without a message shifts every position by one. */
  lemma PicksSkip(e: FieldError, errs: seq<FieldError>, msgs: seq<string>, tail: seq<nat>) returns (shifted: seq<nat>)
    requires Picks(errs, msgs, tail) && e.message.None?
    ensures Picks([e] + errs, msgs, shifted)
  {
    var all := [e] + errs;
    shifted := seq(|tail|, k requires 0 <= k < |tail| => tail[k] + 1);
    forall k | 0 <= k < |shifted|
      ensures shifted[k] < |all| && all[shifted[k]].message == Some(msgs[k])
    {
      assert all[shifted[k]] == errs[tail[k]];
    }
    forall a, b | 0 <= a < b < |shifted|
      ensures shifted[a] < shifted[b]
    {
      assert tail[a] < tail[b];
    }
    forall i | 0 <= i < |all|
      ensures all[i].message.Some? <==> i in shifted
    {
      if i > 0 {
        assert all[i] == errs[i - 1];
        if i - 1 in tail {
          var k :| 0 <= k < |tail| && tail[k] == i - 1;
          assert shifted[k] == i;
        }
      }
    }
  }

  /** A leading rule with a message puts it first, at position 0. */
  lemma PicksKeep(e: FieldError, errs: seq<FieldError>, msgs: seq<string>, tail: seq<nat>) returns (idx: seq<nat>)
    requires Picks(errs, msgs, tail) && e.message.Some?
    ensures Picks([e] + errs, [e.message.value] + msgs, idx)
  {
    var blank := e.(message := None);
    var shifted := PicksSkip(blank, errs, msgs, tail);
    idx := [0] + shifted;
    KeepValues(e, blank, errs, msgs, shifted);
    KeepIncreasing(blank, errs, shifted);
    KeepCovers(e, blank, errs, shifted);
  }

  lemma KeepValues(e: FieldError, blank: FieldError, errs: seq<FieldError>, msgs: seq<string>, shifted: seq<nat>)
    requires e.message.Some? && blank.message.None?
    requires PicksValues([blank] + errs, msgs, shifted)
    ensures PicksValues([e] + errs, [e.message.value] + msgs, [0] + shifted)
  {
    var all, all' := [e] + errs, [blank] + errs;
    var out, idx := [e.message.value] + msgs, [0] + shifted;
    forall k | 0 <= k < |idx|
      ensures idx[k] < |all| && all[idx[k]].message == Some(out[k])
    {
      if k > 0 {
        assert idx[k] == shifted[k - 1] && out[k] == msgs[k - 1];
        assert all'[shifted[k - 1]].message.Some?;
        assert all[shifted[k - 1]] == all'[shifted[k - 1]];
      }
    }
  }

  lemma KeepIncreasing(blank: FieldError, errs: seq<FieldError>, shifted: seq<nat>)
    requires blank.message.None? && Increasing(shifted) && Covers([blank] + errs, shifted)
    ensures Increasing([0] + shifted)
  {
    var idx := [0] + shifted;
    assert 0 !in shifted;
    forall a, b | 0 <= a < b < |idx|
      ensures idx[a] < idx[b]
    {
      assert idx[b] == shifted[b - 1];
      if a > 0 {
        assert idx[a] == shifted[a - 1];
      }
    }
  }

  lemma KeepCovers(e: FieldError, blank: FieldError, errs: seq<FieldError>, shifted: seq<nat>)
    requires e.message.Some? && Covers([blank] + errs, shifted)
    ensures Covers([e] + errs, [0] + shifted)
  {
    var all, all' := [e] + errs, [blank] + errs;
    forall i | 0 <= i < |all|
      ensures all[i].message.Some? <==> i in [0] + shifted
    {
      if i > 0 {
        assert all[i] == all'[i];
      }
    }
  }

  /** Every message of `v`'s failed field rules, at any depth, counted with
      multiplicity: the reference the flattening is measured against. */
  ghost function AllMessages(v: ValidationErrors): multiset<string>
    decreases v, 1
  {
    EntryMessagesFrom(v, 0)
  }

  ghost function EntryMessagesFrom(v: ValidationErrors, i: nat): multiset<string>
    requires i <= |v.entries|
    decreases v, 0, |v.entries| - i
  {
    if i == |v.entries| then multiset{} else KindMessages(v.entries[i].1) + EntryMessagesFrom(v, i + 1)
  }

  ghost function KindMessages(k: ValidationErrorsKind): multiset<string>
    decreases k, 1
  {
    match k
    case Struct(nested) => AllMessages(nested)
    case List(_) => ItemMessagesFrom(k, 0)
    case Field(errs) => FieldMessages(errs)
  }

  ghost function ItemMessagesFrom(k: ValidationErrorsKind, j: nat): multiset<string>
    requires k.List? && j <= |k.items|
    decreases k, 0, |k.items| - j
  {
    if j == |k.items| then multiset{} else AllMessages(k.items[j].1) + ItemMessagesFrom(k, j + 1)
  }

  /** `flatten_validation_errors`: every message at any depth, in one list,
      each as often as a rule carries it. */
  function FlattenValidationErrors(v: ValidationErrors): (msgs: seq<string>)
    ensures multiset(msgs) == AllMessages(v)
    decreases v, 1, 0
  {
    FlattenFrom(v, 0)
  }

  function FlattenFrom(v: ValidationErrors, i: nat): (msgs: seq<string>)
    requires i <= |v.entries|
    ensures multiset(msgs) == EntryMessagesFrom(v, i)
    decreases v, 0, |v.entries| - i
  {
    if i == |v.entries| then [] else FlattenKind(v.entries[i].1) + FlattenFrom(v, i + 1)
  }

  function FlattenKind(k: ValidationErrorsKind): (msgs: seq<string>)
    ensures multiset(msgs) == KindMessages(k)
    decreases k, 1, 0
  {
    match k
    case Struct(nested) => FlattenValidationErrors(nested)
    case List(_) => FlattenListFrom(k, 0)
    case Field(errs) => PresentMessages(errs)
  }

  function FlattenListFrom(k: ValidationErrorsKind, j: nat): (msgs: seq<string>)
    requires k.List? && j <= |k.items|
    ensures multiset(msgs) == ItemMessagesFrom(k, j)
    decreases k, 0, |k.items| - j
  {
    if j == |k.items| then [] else FlattenValidationErrors(k.items[j].1) + FlattenListFrom(k, j + 1)
  }

  /** Somewhere in `v`, at any depth, a field rule failed with message `m`. */
  ghost predicate Mentions(v: ValidationErrors, m: string)
    decreases v, 1
  {
    exists i :: 0 <= i < |v.entries| && KindMentions(v.entries[i].1, m)
  }

  ghost predicate KindMentions(k: ValidationErrorsKind, m: string)
    decreases k, 0
  {
    match k
    case Struct(nested) => Mentions(nested, m)
    case List(items) => exists j :: 0 <= j < |items| && Mentions(items[j].1, m)
    case Field(errs) => exists i :: 0 <= i < |errs| && errs[i].message == Some(m)
  }

  /** A message is in the flattened list exactly when some field rule at some
      depth failed with it. */
  lemma {:induction false} FlattenHasExactlyTheMessages(v: ValidationErrors, m: string)
    ensures m in FlattenValidationErrors(v) <==> Mentions(v, m)
    decreases v, 1, 0
  {
    FlattenFromMessages(v, 0, m);
  }

  lemma {:induction false} FlattenFromMessages(v: ValidationErrors, i: nat, m: string)
    requires i <= |v.entries|
    ensures m in FlattenFrom(v, i) <==>
      exists t :: i <= t < |v.entries| && KindMentions(v.entries[t].1, m)
    decreases v, 0, |v.entries| - i
  {
    if i < |v.entries| {
      FlattenKindMessages(v.entries[i].1, m);
      FlattenFromMessages(v, i + 1, m);
    }
  }

  lemma {:induction false} FlattenKindMessages(k: ValidationErrorsKind, m: string)
    ensures m in FlattenKind(k) <==> KindMentions(k, m)
    decreases k, 1, 0
  {
    match k
    case Struct(nested) => FlattenHasExactlyTheMessages(nested, m);
    case List(_) => FlattenListFromMessages(k, 0, m);
    case Field(_) =>
  }

  lemma {:induction false} FlattenListFromMessages(k: ValidationErrorsKind, j: nat, m: string)
    requires k.List? && j <= |k.items|
    ensures m in FlattenListFrom(k, j) <==>
      exists t :: j <= t < |k.items| && Mentions(k.items[t].1, m)
    decreases k, 0, |k.items| - j
  {
    if j < |k.items| {
      FlattenHasExactlyTheMessages(k.items[j].1, m);
      FlattenListFromMessages(k, j + 1, m);
    }
  }

  /** The flattening of a run of entries, one after the other. */
  function FlattenEntries(es: seq<(string, ValidationErrorsKind)>): seq<string> {
    if |es| == 0 then [] else FlattenKind(es[0].1) + FlattenEntries(es[1..])
  }

  lemma {:induction false} FlattenFromIsFlattenEntries(v: ValidationErrors, i: nat)
    requires i <= |v.entries|
    ensures FlattenFrom(v, i) == FlattenEntries(v.entries[i..])
    decreases |v.entries| - i
  {
    if i < |v.entries| {
      FlattenFromIsFlattenEntries(v, i + 1);
      assert v.entries[i..][1..] == v.entries[i + 1..];
    }
  }

  lemma {:induction false} FlattenEntriesConcat(a: seq<(string, ValidationErrorsKind)>, b: seq<(string, ValidationErrorsKind)>)
    ensures FlattenEntries(a + b) == FlattenEntries(a) + FlattenEntries(b)
  {
    if |a| == 0 {
      assert a + b == b;
    } else {
      assert (a + b)[0] == a[0];
      assert (a + b)[1..] == a[1..] + b;
      FlattenEntriesConcat(a[1..], b);
    }
  }

  /** Where the first element of `a` sits in its permutation `b`, and what is left of both. */
  lemma {:induction false} MatchFirst<T>(a: seq<T>, b: seq<T>) returns (j: nat)
    requires |a| > 0 && multiset(a) == multiset(b)
    ensures j < |b| && b[j] == a[0]
    ensures multiset(a[1..]) == multiset(b[..j] + b[j + 1..])
  {
    assert a[0] in multiset(b);
    j :| 0 <= j < |b| && b[j] == a[0];
    assert a == [a[0]] + a[1..];
    assert b == b[..j] + [b[j]] + b[j + 1..];
    assert multiset(a[1..]) == multiset(a) - multiset{a[0]};
  }

  lemma {:induction false} FlattenEntriesPermutation(a: seq<(string, ValidationErrorsKind)>, b: seq<(string, ValidationErrorsKind)>)
    requires multiset(a) == multiset(b)
    ensures multiset(FlattenEntries(a)) == multiset(FlattenEntries(b))
    decreases |a|
  {
    if |a| == 0 {
      assert |b| == |multiset(b)| == 0;
    } else {
      var j := MatchFirst(a, b);
      var front, back := b[..j], b[j + 1..];
      FlattenEntriesPermutation(a[1..], front + back);
      assert b == front + ([b[j]] + back);
      FlattenEntriesConcat(front, [b[j]] + back);
      FlattenEntriesConcat([b[j]], back);
      FlattenEntriesConcat(front, back);
    }
  }

  /** The hash map's iteration order does not matter: the same field errors
      met in any order flatten to the same messages, counted with multiplicity. */
  lemma FlattenIgnoresIterationOrder(v: ValidationErrors, w: ValidationErrors)
    requires multiset(v.entries) == multiset(w.entries)
    ensures multiset(FlattenValidationErrors(v)) == multiset(FlattenValidationErrors(w))
  {
    FlattenFromIsFlattenEntries(v, 0);
    FlattenFromIsFlattenEntries(w, 0);
    assert v.entries[0..] == v.entries;
    assert w.entries[0..] == w.entries;
    FlattenEntriesPermutation(v.entries, w.entries);
  }

  // ---------------------------------------------------------------------
  // JSON rejections
  // ---------------------------------------------------------------------

  const UnknownFieldMarker: string := "unknown field"
  const InvalidDataFormat: string := "Invalid data format."
  const ExpectedJson: string := "Expected 'application/json'."

  /** The detail reported for a data error: for an unknown field, the text
      between the first backtick and the next one (or the end). */
  function DataErrorDetail(msg: string): (detail: string)
    ensures !Contains(msg, UnknownFieldMarker) ==> detail == msg
    ensures Contains(msg, UnknownFieldMarker) && '`' !in msg ==> detail == InvalidDataFormat
  {
    if Contains(msg, UnknownFieldMarker) then
      var parts := Split(msg, '`');
      if |parts| >= 2 then "Unknown field `" + parts[1] + "`" else InvalidDataFormat
    else msg
  }

  /** Splitting `before`x`field`x`after` at backticks leaves `field` as the second piece. */
  lemma {:induction false} SecondPieceIsField(before: string, field: string, after: string)
    requires '`' !in before && '`' !in field
    requires after == [] || after[0] == '`'
    ensures |Split(before + "`" + field + after, '`')| >= 2
    ensures Split(before + "`" + field + after, '`')[1] == field
  {
    var tail := field + after;
    assert before + "`" + field + after == before + ['`'] + tail;
    SplitAfterHead(before, '`', tail);
    FirstPiece(field, '`', after);
  }

  /** A message naming an unknown field in backticks is reported with that name. */
  lemma {:induction false} DataErrorDetailNamesTheField(before: string, field: string, after: string)
    requires '`' !in before && '`' !in field
    requires after == [] || after[0] == '`'
    requires Contains(before + "`" + field + after, UnknownFieldMarker)
    ensures DataErrorDetail(before + "`" + field + after) == "Unknown field `" + field + "`"
  {
    SecondPieceIsField(before, field, after);
  }

  /** The reply to each JSON rejection: its own status, title and single detail. */
  function JsonReply(rejection: JsonRejection): (r: ErrorReply)
    ensures |r.body.details| == 1 && Http.IsErrorStatus(r.status)
    ensures rejection.JsonDataError? ==>
      r.status == Http.UnprocessableContent && r.body.error == "Invalid JSON Data"
      && r.body.details == [DataErrorDetail(rejection.message)]
    ensures rejection.JsonSyntaxError? ==>
      r.status == Http.BadRequest && r.body.error == "Invalid JSON Syntax" && r.body.details == [rejection.message]
    ensures rejection.MissingJsonContentType? ==>
      r.status == Http.UnsupportedMediaType && r.body.error == "Missing Content-Type" && r.body.details == [ExpectedJson]
    ensures rejection.BytesRejection? ==>
      r.status == Http.BadRequest && r.body.error == "Bad JSON Request" && r.body.details == [rejection.message]
  {
    match rejection
    case JsonDataError(msg) =>
      ErrorReply(Http.UnprocessableContent, ApiErrorResponse("Invalid JSON Data", [DataErrorDetail(msg)]))
    case JsonSyntaxError(msg) =>
      ErrorReply(Http.BadRequest, ApiErrorResponse("Invalid JSON Syntax", [msg]))
    case MissingJsonContentType(_) =>
      ErrorReply(Http.UnsupportedMediaType, ApiErrorResponse("Missing Content-Type", [ExpectedJson]))
    case BytesRejection(msg) =>
      ErrorReply(Http.BadRequest, ApiErrorResponse("Bad JSON Request", [msg]))
  }

  // ---------------------------------------------------------------------
  // Status and body of every error
  // ---------------------------------------------------------------------

  const InternalErrorTitle: string := "Internal Server Error"
  const InternalErrorDetail: string := "An internal server error occurred."

  function EventReply(e: EventRepoError): (r: ErrorReply)
    ensures r.status == KindStatus(EventKind(e)) && |r.body.details| == 1
    ensures EventKind(e) == InternalKind ==> r.body == ApiErrorResponse(InternalErrorTitle, [InternalErrorDetail])
  {
    match e
    case NotFound =>
      ErrorReply(Http.NotFound, ApiErrorResponse("Resource Not Found", ["The requested event was not found."]))
    case InvalidReference =>
      ErrorReply(Http.BadRequest, ApiErrorResponse("Invalid Reference", ["A provided reference, such as an owner ID, is invalid."]))
    case DuplicateEntry =>
      ErrorReply(Http.Conflict, ApiErrorResponse("Duplicate Entry", ["An event with this name already exists."]))
    case InternalError(_) =>
      ErrorReply(Http.InternalServerError, ApiErrorResponse(InternalErrorTitle, [InternalErrorDetail]))
  }

  function PacketReply(e: EventPacketRepoError): (r: ErrorReply)
    ensures r.status == KindStatus(PacketKind(e)) && |r.body.details| == 1
    ensures PacketKind(e) == InternalKind ==> r.body == ApiErrorResponse(InternalErrorTitle, [InternalErrorDetail])
  {
    match e
    case NotFound =>
      ErrorReply(Http.NotFound, ApiErrorResponse("Resource Not Found", ["The requested event packet was not found."]))
    case DuplicateName =>
      ErrorReply(Http.Conflict, ApiErrorResponse("Duplicate Entry", ["An event packet with this name already exists."]))
    case InvalidEventId =>
      ErrorReply(Http.BadRequest, ApiErrorResponse("Invalid Reference", ["A provided event ID is invalid."]))
    case InternalError(_) =>
      ErrorReply(Http.InternalServerError, ApiErrorResponse(InternalErrorTitle, [InternalErrorDetail]))
  }

  function TicketReply(e: TicketRepoError): (r: ErrorReply)
    ensures r.status == KindStatus(TicketKind(e)) && |r.body.details| == 1
    ensures TicketKind(e) == InternalKind ==> r.body == ApiErrorResponse(InternalErrorTitle, [InternalErrorDetail])
  {
    match e
    case NotFound =>
      ErrorReply(Http.NotFound, ApiErrorResponse("Resource Not Found", ["The requested ticket was not found."]))
    case DuplicateEntry =>
      ErrorReply(Http.Conflict, ApiErrorResponse("Duplicate Entry", ["A ticket with this code already exists."]))
    case InvalidReference =>
      ErrorReply(Http.BadRequest, ApiErrorResponse("Invalid Reference", ["Invalid packet or event ID provided."]))
    case ConstraintViolation =>
      ErrorReply(Http.UnprocessableContent, ApiErrorResponse("Constraint Violation",
        ["A ticket must belong to EITHER a packet OR an event, not both or neither."]))
    case InternalError(_) =>
      ErrorReply(Http.InternalServerError, ApiErrorResponse(InternalErrorTitle, [InternalErrorDetail]))
  }

  function JoinReply(e: JoinPeRepoError): (r: ErrorReply)
    ensures r.status == KindStatus(JoinKind(e)) && |r.body.details| == 1
    ensures JoinKind(e) == InternalKind ==> r.body == ApiErrorResponse(InternalErrorTitle, [InternalErrorDetail])
  {
    match e
    case DuplicateEntry =>
      ErrorReply(Http.Conflict, ApiErrorResponse("Duplicate Entry", ["This event is already in this packet."]))
    case InvalidReference =>
      ErrorReply(Http.BadRequest, ApiErrorResponse("Invalid Reference", ["Invalid packet or event ID provided."]))
    case InternalError(_) =>
      ErrorReply(Http.InternalServerError, ApiErrorResponse(InternalErrorTitle, [InternalErrorDetail]))
  }

  /** `IntoResponse for ApiError`. */
  function IntoResponse(e: ApiError): (r: ErrorReply)
    ensures Http.IsErrorStatus(r.status)
    ensures e.Validation? ==>
      r == ErrorReply(Http.UnprocessableContent,
                      ApiErrorResponse("Validation Failed", FlattenValidationErrors(e.errors)))
    ensures !e.Validation? ==> |r.body.details| == 1
    ensures IsRepoError(e) ==> r.status == KindStatus(RepoErrorKind(e))
    ensures IsRepoError(e) && RepoErrorKind(e) == InternalKind ==>
      r.body == ApiErrorResponse(InternalErrorTitle, [InternalErrorDetail])
    ensures e.BadRequest? ==> r == ErrorReply(Http.BadRequest, ApiErrorResponse("Bad Request", [e.message]))
    ensures e.Json? && e.rejection.JsonDataError? ==>
      r.status == Http.UnprocessableContent && r.body.details == [DataErrorDetail(e.rejection.message)]
    ensures e.Json? && e.rejection.JsonSyntaxError? ==>
      r.status == Http.BadRequest && r.body.details == [e.rejection.message]
    ensures e.Json? && e.rejection.MissingJsonContentType? ==>
      r.status == Http.UnsupportedMediaType && r.body.details == [ExpectedJson]
    ensures e.Json? && e.rejection.BytesRejection? ==> r.status == Http.BadRequest
  {
    match e
    case Validation(errors) =>
      ErrorReply(Http.UnprocessableContent, ApiErrorResponse("Validation Failed", FlattenValidationErrors(errors)))
    case BadRequest(message) =>
      ErrorReply(Http.BadRequest, ApiErrorResponse("Bad Request", [message]))
    case Json(rejection) => JsonReply(rejection)
    case Event(x) => EventReply(x)
    case Packet(x) => PacketReply(x)
    case Ticket(x) => TicketReply(x)
    case Join(x) => JoinReply(x)
  }

  /** The wrapped driver error never reaches the client: two internal errors
      of the same family produce the identical response. */
  lemma InternalCauseNeverLeaks(c1: DbError, c2: DbError)
    ensures IntoResponse(Event(EventRepoError.InternalError(c1))) == IntoResponse(Event(EventRepoError.InternalError(c2)))
    ensures IntoResponse(Packet(EventPacketRepoError.InternalError(c1))) == IntoResponse(Packet(EventPacketRepoError.InternalError(c2)))
    ensures IntoResponse(Ticket(TicketRepoError.InternalError(c1))) == IntoResponse(Ticket(TicketRepoError.InternalError(c2)))
    ensures IntoResponse(Join(JoinPeRepoError.InternalError(c1))) == IntoResponse(Join(JoinPeRepoError.InternalError(c2)))
  {
  }

  /** A driver error sent through the ticket mapper answers with the status
      the uniform translation gives it. */
  lemma TicketStatusFollowsUniformTranslation(err: DbError)
    ensures IntoResponse(Ticket(MapSqlxTicketError(err))).status == KindStatus(UniformKind(err))
  {
  }
}
