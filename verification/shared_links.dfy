/** The hypermedia layer of the newer revision (`shared/links.rs`): links
    with an optional method annotation, a response builder that attaches a
    self link, an optional parent link and named relation links to an
    entity, and the per-entity builders the handlers call. */
module SharedLinks {
  import opened Base
  import opened Models

  // ---------------------------------------------------------------------
  // Links
  // ---------------------------------------------------------------------

  /** An href plus the optional `type` annotation listing the allowed methods. */
  datatype Link = Link(href: string, linkType: Option<string>) {

    /** `Link::new`: no annotation. */
    static function New(href: string): Link {
      Link(href, None)
    }

    /** `Link::with_type`. */
    function WithType(t: string): Link {
      this.(linkType := Some(t))
    }

    /** `Link::with_types`: the pieces joined by ", ". */
    function WithTypes(types: seq<string>): Link {
      this.(linkType := Some(Join(types, TypeSeparator)))
    }
  }

  const TypeSeparator: string := ", "
  /** The annotations the builders produce. */
  const AllMethods: string := "[GET, PUT, POST, DELETE]"
  const ReadCreate: string := "[GET, POST]"
  const ReadOnly: string := "GET"

  /** The builders spell the same annotation both as one piece and split at
      the commas; joining makes the two spellings identical. */
  lemma AnnotationSpellingsAgree()
    ensures Join(["[GET", "POST]"], TypeSeparator) == Join([ReadCreate], TypeSeparator) == ReadCreate
    ensures Join(["[GET", "PUT", "POST", "DELETE]"], TypeSeparator) == Join([AllMethods], TypeSeparator) == AllMethods
  {
  }

  /** The `_links` object: self, optional parent, optional relation map. */
  datatype Links = Links(parent: Option<Link>, selfLink: Link, others: Option<map<string, Link>>)

  /** An entity with its links. */
  datatype Response<T> = Response(data: T, links: Links)

  // ---------------------------------------------------------------------
  // The response builder
  // ---------------------------------------------------------------------

  datatype ResponseBuilder<T> = ResponseBuilder(
    data: T,
    selfLink: Link,
    parentLink: Option<Link>,
    otherLinks: map<string, Link>)
  {
    static function New(data: T, selfHref: string): ResponseBuilder<T> {
      ResponseBuilder(data, Link.New(selfHref), None, map[])
    }

    function SelfType(t: string): ResponseBuilder<T> {
      this.(selfLink := selfLink.WithType(t))
    }

    function SelfTypes(types: seq<string>): ResponseBuilder<T> {
      this.(selfLink := selfLink.WithTypes(types))
    }

    function Parent(href: string): ResponseBuilder<T> {
      this.(parentLink := Some(Link.New(href)))
    }

    function ParentWithType(href: string, t: string): ResponseBuilder<T> {
      this.(parentLink := Some(Link.New(href).WithType(t)))
    }

    function ParentWithTypes(href: string, types: seq<string>): ResponseBuilder<T> {
      this.(parentLink := Some(Link.New(href).WithTypes(types)))
    }

    /** `link`: add (or replace) the relation `name`. */
    function AddLink(name: string, href: string): ResponseBuilder<T> {
      this.(otherLinks := otherLinks[name := Link.New(href)])
    }

    function AddLinkWithType(name: string, href: string, t: string): ResponseBuilder<T> {
      this.(otherLinks := otherLinks[name := Link.New(href).WithType(t)])
    }

    function AddLinkWithTypes(name: string, href: string, types: seq<string>): ResponseBuilder<T> {
      this.(otherLinks := otherLinks[name := Link.New(href).WithTypes(types)])
    }

    /** An empty relation map is left out rather than sent as `{}`. */
    function Build(): (r: Response<T>)
      ensures r.data == data
      ensures r.links.selfLink == selfLink && r.links.parent == parentLink
      ensures r.links.others.None? <==> |otherLinks| == 0
      ensures r.links.others.Some? ==> r.links.others.value == otherLinks
    {
      Response(data, Links(parentLink, selfLink, if |otherLinks| == 0 then None else Some(otherLinks)))
    }
  }

  /** One call of a builder chain, named after the builder method it stands for. */
  datatype BuilderCall =
    | SelfTypeCall(t: string)
    | SelfTypesCall(types: seq<string>)
    | ParentCall(href: string)
    | ParentWithTypeCall(href: string, t: string)
    | ParentWithTypesCall(href: string, types: seq<string>)
    | LinkCall(name: string, href: string)
    | LinkWithTypeCall(name: string, href: string, t: string)
    | LinkWithTypesCall(name: string, href: string, types: seq<string>)
  {
    predicate SetsParent() {
      ParentCall? || ParentWithTypeCall? || ParentWithTypesCall?
    }

    predicate AddsLink() {
      LinkCall? || LinkWithTypeCall? || LinkWithTypesCall?
    }

    /** The relation link an adding call stores. */
    function AddedLink(): Link
      requires AddsLink()
    {
      match this
      case LinkCall(_, h) => Link.New(h)
      case LinkWithTypeCall(_, h, t) => Link.New(h).WithType(t)
      case LinkWithTypesCall(_, h, ts) => Link.New(h).WithTypes(ts)
    }
  }

  function Call<T>(b: ResponseBuilder<T>, c: BuilderCall): ResponseBuilder<T> {
    match c
    case SelfTypeCall(t) => b.SelfType(t)
    case SelfTypesCall(ts) => b.SelfTypes(ts)
    case ParentCall(h) => b.Parent(h)
    case ParentWithTypeCall(h, t) => b.ParentWithType(h, t)
    case ParentWithTypesCall(h, ts) => b.ParentWithTypes(h, ts)
    case LinkCall(n, h) => b.AddLink(n, h)
    case LinkWithTypeCall(n, h, t) => b.AddLinkWithType(n, h, t)
    case LinkWithTypesCall(n, h, ts) => b.AddLinkWithTypes(n, h, ts)
  }

  /** `b.c1(..).c2(..)...cn(..)`. */
  function Chain<T>(b: ResponseBuilder<T>, calls: seq<BuilderCall>): ResponseBuilder<T> {
    if |calls| == 0 then b else Call(Chain(b, calls[..|calls| - 1]), calls[|calls| - 1])
  }

  /** No call changes the data or the self href. */
  lemma {:induction false} ChainKeepsDataAndSelfHref<T>(b: ResponseBuilder<T>, calls: seq<BuilderCall>)
    ensures Chain(b, calls).data == b.data
    ensures Chain(b, calls).selfLink.href == b.selfLink.href
  {
    if |calls| > 0 {
      ChainKeepsDataAndSelfHref(b, calls[..|calls| - 1]);
    }
  }

  /** A parent link exists exactly when one was there or some call set one. */
  lemma {:induction false} ChainParent<T>(b: ResponseBuilder<T>, calls: seq<BuilderCall>)
    ensures Chain(b, calls).parentLink.Some? <==>
      b.parentLink.Some? || exists i :: 0 <= i < |calls| && calls[i].SetsParent()
  {
    if |calls| > 0 {
      var front := calls[..|calls| - 1];
      ChainParent(b, front);
      assert forall i :: 0 <= i < |front| ==> front[i] == calls[i];
    }
  }

  /** The relation names are the ones there before plus every name some call added. */
  lemma {:induction false} ChainLinkNames<T>(b: ResponseBuilder<T>, calls: seq<BuilderCall>)
    ensures Chain(b, calls).otherLinks.Keys ==
      b.otherLinks.Keys + set i | 0 <= i < |calls| && calls[i].AddsLink() :: calls[i].name
  {
    if |calls| > 0 {
      var front := calls[..|calls| - 1];
      ChainLinkNames(b, front);
      assert forall i :: 0 <= i < |front| ==> front[i] == calls[i];
      var last := calls[|calls| - 1];
      var before := set i | 0 <= i < |front| && front[i].AddsLink() :: front[i].name;
      var after := set i | 0 <= i < |calls| && calls[i].AddsLink() :: calls[i].name;
      if last.AddsLink() {
        assert after == before + {last.name};
      } else {
        assert after == before;
      }
    }
  }

  /** Adding a relation under an existing name replaces it: the link stored
      under a name is the one from the last call that added that name. */
  lemma {:induction false} ChainLastLinkWins<T>(b: ResponseBuilder<T>, calls: seq<BuilderCall>, i: nat)
    requires i < |calls| && calls[i].AddsLink()
    requires forall k :: i < k < |calls| ==> !(calls[k].AddsLink() && calls[k].name == calls[i].name)
    ensures calls[i].name in Chain(b, calls).otherLinks
    ensures Chain(b, calls).otherLinks[calls[i].name] == calls[i].AddedLink()
  {
    if i < |calls| - 1 {
      var front := calls[..|calls| - 1];
      assert front[i] == calls[i];
      ChainLastLinkWins(b, front, i);
    }
  }

  /** Names no call added keep exactly what they had. */
  lemma {:induction false} ChainLeavesOtherNames<T>(b: ResponseBuilder<T>, calls: seq<BuilderCall>, name: string)
    requires forall k :: 0 <= k < |calls| ==> !(calls[k].AddsLink() && calls[k].name == name)
    ensures name in Chain(b, calls).otherLinks <==> name in b.otherLinks
    ensures name in b.otherLinks ==> Chain(b, calls).otherLinks[name] == b.otherLinks[name]
  {
    if |calls| > 0 {
      ChainLeavesOtherNames(b, calls[..|calls| - 1], name);
    }
  }

  /** What any chain started by `ResponseBuilder::new` builds: the data and
      self href as given, a parent only if a `parent*` call was made, and a
      relation map only if some relation was added. */
  lemma BuiltChain<T>(data: T, selfHref: string, calls: seq<BuilderCall>)
    ensures Chain(ResponseBuilder.New(data, selfHref), calls).Build().data == data
    ensures Chain(ResponseBuilder.New(data, selfHref), calls).Build().links.selfLink.href == selfHref
    ensures Chain(ResponseBuilder.New(data, selfHref), calls).Build().links.parent.None?
        <==> forall i :: 0 <= i < |calls| ==> !calls[i].SetsParent()
    ensures Chain(ResponseBuilder.New(data, selfHref), calls).Build().links.others.None?
        <==> forall i :: 0 <= i < |calls| ==> !calls[i].AddsLink()
  {
    var b := ResponseBuilder.New(data, selfHref);
    ChainKeepsDataAndSelfHref(b, calls);
    ChainParent(b, calls);
    ChainLinkNames(b, calls);
    var names := set i | 0 <= i < |calls| && calls[i].AddsLink() :: calls[i].name;
    if exists i :: 0 <= i < |calls| && calls[i].AddsLink() {
      var i :| 0 <= i < |calls| && calls[i].AddsLink();
      assert calls[i].name in names;
    }
  }

  // ---------------------------------------------------------------------
  // Per-entity builders
  // ---------------------------------------------------------------------

  function BuildSimpleTicket(ticket: Ticket, base: string): (r: Response<Ticket>)
    ensures r.data == ticket
    ensures r.links.selfLink == Link(base + "/tickets/" + ticket.cod, Some(AllMethods))
    ensures r.links.parent == Some(Link(base + "/tickets", Some(ReadCreate)))
    ensures r.links.others == None
  {
    AnnotationSpellingsAgree();
    ResponseBuilder.New(ticket, base + "/tickets/" + ticket.cod)
      .SelfTypes(["[GET, PUT, POST, DELETE]"])
      .ParentWithTypes(base + "/tickets", ["[GET, POST]"])
      .Build()
  }

  function BuildSimpleEvent(event: Event, base: string): (r: Response<Event>)
    ensures r.data == event
    ensures r.links.selfLink == Link(base + "/events/" + IntToString(event.id), Some(AllMethods))
    ensures r.links.parent == Some(Link(base + "/events", Some(ReadCreate)))
    ensures r.links.others == Some(map[
      "event-packets" := Link(base + "/events/" + IntToString(event.id) + "/event-packets", Some(ReadCreate)),
      "tickets" := Link(base + "/events/" + IntToString(event.id) + "/tickets", Some(ReadCreate))])
  {
    AnnotationSpellingsAgree();
    var id := event.id;
    ResponseBuilder.New(event, base + "/events/" + IntToString(id))
      .SelfTypes(["[GET, PUT, POST, DELETE]"])
      .ParentWithTypes(base + "/events", ["[GET, POST]"])
      .AddLinkWithTypes("event-packets", base + "/events/" + IntToString(id) + "/event-packets", ["[GET, POST]"])
      .AddLinkWithTypes("tickets", base + "/events/" + IntToString(id) + "/tickets", ["[GET, POST]"])
      .Build()
  }

  function BuildSimpleEventPacket(packet: EventPackets, base: string): (r: Response<EventPackets>)
    ensures r.data == packet
    ensures r.links.selfLink == Link(base + "/event-packets/" + IntToString(packet.id), Some(AllMethods))
    ensures r.links.parent == Some(Link(base + "/event-packets", Some(ReadCreate)))
    ensures r.links.others == Some(map[
      "events" := Link(base + "/event-packets/" + IntToString(packet.id) + "/events", Some(ReadCreate)),
      "tickets" := Link(base + "/event-packets/" + IntToString(packet.id) + "/tickets", Some(ReadCreate))])
  {
    AnnotationSpellingsAgree();
    var id := packet.id;
    ResponseBuilder.New(packet, base + "/event-packets/" + IntToString(id))
      .SelfTypes(["[GET", "PUT", "POST", "DELETE]"])
      .ParentWithTypes(base + "/event-packets", ["[GET", "POST]"])
      .AddLinkWithTypes("events", base + "/event-packets/" + IntToString(id) + "/events", ["[GET", "POST]"])
      .AddLinkWithTypes("tickets", base + "/event-packets/" + IntToString(id) + "/tickets", ["[GET", "POST]"])
      .Build()
  }

  /** Every relation of a simple response sits under its self href, named by
      the relation: `{self}/{name}`. */
  predicate RelationsNestUnderSelf<T>(r: Response<T>) {
    r.links.others.Some? &&
    forall name :: name in r.links.others.value ==>
      r.links.others.value[name].href == r.links.selfLink.href + "/" + name
  }

  /** The self href is the parent collection followed by one more segment. */
  predicate SelfIsMemberOfParent<T>(r: Response<T>, key: string) {
    r.links.parent.Some? && r.links.selfLink.href == r.links.parent.value.href + "/" + key
  }

  /** The simple event and packet responses link to sub-collections below
      their own href, and their self href is their collection plus the id. */
  lemma SimpleResponsesAreNavigable(event: Event, packet: EventPackets, ticket: Ticket, base: string)
    ensures RelationsNestUnderSelf(BuildSimpleEvent(event, base))
    ensures BuildSimpleEvent(event, base).links.others.value.Keys == {"event-packets", "tickets"}
    ensures SelfIsMemberOfParent(BuildSimpleEvent(event, base), IntToString(event.id))
    ensures RelationsNestUnderSelf(BuildSimpleEventPacket(packet, base))
    ensures BuildSimpleEventPacket(packet, base).links.others.value.Keys == {"events", "tickets"}
    ensures SelfIsMemberOfParent(BuildSimpleEventPacket(packet, base), IntToString(packet.id))
    ensures SelfIsMemberOfParent(BuildSimpleTicket(ticket, base), ticket.cod)
  {
    var e := IntToString(event.id);
    assert base + "/events/" + e + "/event-packets" == (base + "/events/" + e) + "/" + "event-packets";
    assert base + "/events/" + e + "/tickets" == (base + "/events/" + e) + "/" + "tickets";
    assert base + "/events/" + e == (base + "/events") + "/" + e;
    var p := IntToString(packet.id);
    assert base + "/event-packets/" + p + "/events" == (base + "/event-packets/" + p) + "/" + "events";
    assert base + "/event-packets/" + p + "/tickets" == (base + "/event-packets/" + p) + "/" + "tickets";
    assert base + "/event-packets/" + p == (base + "/event-packets") + "/" + p;
    assert base + "/tickets/" + ticket.cod == (base + "/tickets") + "/" + ticket.cod;
  }

  /** Different events (packets) never share a self href. */
  lemma SelfHrefsIdentifyTheEntity(e1: Event, e2: Event, p1: EventPackets, p2: EventPackets, base: string)
    ensures BuildSimpleEvent(e1, base).links.selfLink.href == BuildSimpleEvent(e2, base).links.selfLink.href
        ==> e1.id == e2.id
    ensures BuildSimpleEventPacket(p1, base).links.selfLink.href == BuildSimpleEventPacket(p2, base).links.selfLink.href
        ==> p1.id == p2.id
  {
    var a, b := IntToString(e1.id), IntToString(e2.id);
    if base + "/events/" + a == base + "/events/" + b {
      assert a == (base + "/events/" + a)[|base + "/events/"|..];
      assert b == (base + "/events/" + b)[|base + "/events/"|..];
      IntToStringInjective(e1.id, e2.id);
    }
    var c, d := IntToString(p1.id), IntToString(p2.id);
    if base + "/event-packets/" + c == base + "/event-packets/" + d {
      assert c == (base + "/event-packets/" + c)[|base + "/event-packets/"|..];
      assert d == (base + "/event-packets/" + d)[|base + "/event-packets/"|..];
      IntToStringInjective(p1.id, p2.id);
    }
  }

  // ---------------------------------------------------------------------
  // Nested builders
  // ---------------------------------------------------------------------

  function BuildPacketOverEvent(packet: EventPackets, id: int, base: string): (r: Response<EventPackets>)
    ensures r.data == packet
    ensures r.links.selfLink == Link(base + "/events/" + IntToString(id) + "/event-packets", Some(ReadCreate))
    ensures r.links.parent == Some(Link(base + "/events/" + IntToString(id), Some(AllMethods)))
    ensures r.links.others == None
  {
    AnnotationSpellingsAgree();
    ResponseBuilder.New(packet, base + "/events/" + IntToString(id) + "/event-packets")
      .SelfTypes(["[GET", "POST]"])
      .ParentWithTypes(base + "/events/" + IntToString(id), ["[GET, PUT, POST, DELETE]"])
      .Build()
  }

  function BuildTicketOverEvent(ticket: Ticket, eventId: int, base: string): (r: Response<Ticket>)
    ensures r.data == ticket
    ensures r.links.selfLink == Link(base + "/events/" + IntToString(eventId) + "/tickets/" + ticket.cod, Some(AllMethods))
    ensures r.links.parent == Some(Link(base + "/events/" + IntToString(eventId) + "/tickets", Some(ReadCreate)))
    ensures r.links.others == None
  {
    AnnotationSpellingsAgree();
    var selfUrl := base + "/events/" + IntToString(eventId) + "/tickets/" + ticket.cod;
    var parentUrl := base + "/events/" + IntToString(eventId) + "/tickets";
    ResponseBuilder.New(ticket, selfUrl)
      .SelfTypes(["[GET", "PUT", "POST", "DELETE]"])
      .ParentWithTypes(parentUrl, ["[GET, POST]"])
      .Build()
  }

  function BuildEventOverPacket(event: Event, packetId: int, base: string): (r: Response<Event>)
    ensures r.data == event
    ensures r.links.selfLink == Link(base + "/event-packets/" + IntToString(packetId) + "/events", Some(ReadCreate))
    ensures r.links.parent == Some(Link(base + "/event-packets/" + IntToString(packetId), Some(AllMethods)))
    ensures r.links.others == None
  {
    AnnotationSpellingsAgree();
    ResponseBuilder.New(event, base + "/event-packets/" + IntToString(packetId) + "/events")
      .SelfTypes(["[GET", "POST]"])
      .ParentWithTypes(base + "/event-packets/" + IntToString(packetId), ["[GET", "PUT", "POST", "DELETE]"])
      .Build()
  }

  function BuildTicketOverPacket(ticket: Ticket, packetId: int, base: string): (r: Response<Ticket>)
    ensures r.data == ticket
    ensures r.links.selfLink == Link(base + "/event-packets/" + IntToString(packetId) + "/tickets/" + ticket.cod, Some(AllMethods))
    ensures r.links.parent == Some(Link(base + "/event-packets/" + IntToString(packetId) + "/tickets", Some(ReadCreate)))
    ensures r.links.others == None
  {
    AnnotationSpellingsAgree();
    var selfUrl := base + "/event-packets/" + IntToString(packetId) + "/tickets/" + ticket.cod;
    var parentUrl := base + "/event-packets/" + IntToString(packetId) + "/tickets";
    ResponseBuilder.New(ticket, selfUrl)
      .SelfTypes(["[GET", "PUT", "POST", "DELETE]"])
      .ParentWithTypes(parentUrl, ["[GET", "POST]"])
      .Build()
  }

  /** Following a relation lands where the nested builders say it does: the
      nested responses point back to the resource that advertised them, and
      a nested ticket is a member of the advertised tickets collection. */
  lemma NestedResponsesMatchAdvertisedRelations(
    event: Event, packet: EventPackets, ticket: Ticket, base: string)
    ensures var owner := BuildSimpleEvent(event, base).links;
      && BuildPacketOverEvent(packet, event.id, base).links.selfLink.href == owner.others.value["event-packets"].href
      && BuildPacketOverEvent(packet, event.id, base).links.parent.value.href == owner.selfLink.href
      && BuildTicketOverEvent(ticket, event.id, base).links.parent.value.href == owner.others.value["tickets"].href
    ensures var owner := BuildSimpleEventPacket(packet, base).links;
      && BuildEventOverPacket(event, packet.id, base).links.selfLink.href == owner.others.value["events"].href
      && BuildEventOverPacket(event, packet.id, base).links.parent.value.href == owner.selfLink.href
      && BuildTicketOverPacket(ticket, packet.id, base).links.parent.value.href == owner.others.value["tickets"].href
    ensures SelfIsMemberOfParent(BuildTicketOverEvent(ticket, event.id, base), ticket.cod)
    ensures SelfIsMemberOfParent(BuildTicketOverPacket(ticket, packet.id, base), ticket.cod)
  {
    var e := IntToString(event.id);
    assert base + "/events/" + e + "/tickets/" + ticket.cod == (base + "/events/" + e + "/tickets") + "/" + ticket.cod;
    var p := IntToString(packet.id);
    assert base + "/event-packets/" + p + "/tickets/" + ticket.cod == (base + "/event-packets/" + p + "/tickets") + "/" + ticket.cod;
  }

  // ---------------------------------------------------------------------
  // Filtered (list) builders
  // ---------------------------------------------------------------------

  /** `handlers/event.rs` builds filtered responses when a filter was given. */
  predicate HasFilters(params: EventQuery) {
    params.locatie.Some? || params.nume.Some?
  }

  /** `path?part1&part2...`, or the bare path when there are no parts. */
  function WithQuery(path: string, parts: seq<string>): string {
    if |parts| == 0 then path else path + "?" + Join(parts, "&")
  }

  function EventQueryParts(params: EventQuery): seq<string> {
    (if params.locatie.Some? then ["location=" + params.locatie.value] else [])
    + (if params.nume.Some? then ["name=" + params.nume.value] else [])
  }

  function FilteredEventHref(params: EventQuery, base: string): string {
    WithQuery(base + "/events", EventQueryParts(params))
  }

  function FilteredEventLinks(params: EventQuery, base: string): Links {
    Links(Some(Link(base + "/events", Some(ReadCreate))), Link(FilteredEventHref(params, base), Some(ReadOnly)), None)
  }

  /** `build_filtered_event`: every event gets the same links, which echo the
      query instead of naming the event, with no relations. */
  method BuildFilteredEvent(events: seq<Event>, params: EventQuery, base: string)
    returns (responses: seq<Response<Event>>)
    ensures |responses| == |events|
    ensures forall i :: 0 <= i < |events| ==> responses[i].data == events[i]
    ensures forall i :: 0 <= i < |events| ==> responses[i].links == FilteredEventLinks(params, base)
  {
    responses := [];
    for i := 0 to |events|
      invariant |responses| == i
      invariant forall k :: 0 <= k < i ==> responses[k].data == events[k]
      invariant forall k :: 0 <= k < i ==> responses[k].links == FilteredEventLinks(params, base)
    {
      var selfHref := base + "/events";
      var queryParts: seq<string> := [];
      if params.locatie.Some? {
        queryParts := queryParts + ["location=" + params.locatie.value];
      }
      if params.nume.Some? {
        queryParts := queryParts + ["name=" + params.nume.value];
      }
      assert queryParts == EventQueryParts(params);
      if |queryParts| > 0 {
        selfHref := selfHref + "?" + Join(queryParts, "&");
      }
      AnnotationSpellingsAgree();
      var response := ResponseBuilder.New(events[i], selfHref)
        .SelfTypes(["GET"])
        .ParentWithTypes(base + "/events", ["[GET", "POST]"])
        .Build();
      assert response.links == FilteredEventLinks(params, base);
      responses := responses + [response];
    }
  }

  /** The `page`, `items_per_page`, `available_tickets`, `type` order. */
  function PacketQueryParts(params: EventPacketQuery): seq<string> {
    (if params.paginare.page.Some? then ["page=" + IntToString(params.paginare.page.value)] else [])
    + (if params.paginare.itemsPerPage.Some? then ["items_per_page=" + IntToString(params.paginare.itemsPerPage.value)] else [])
    + (if params.bilete.Some? then ["available_tickets=" + IntToString(params.bilete.value)] else [])
    + (if params.descriere.Some? then ["type=" + params.descriere.value] else [])
  }

  function FilteredPacketHref(params: EventPacketQuery, base: string): string {
    WithQuery(base + "/event-packets", PacketQueryParts(params))
  }

  function FilteredPacketLinks(params: EventPacketQuery, base: string): Links {
    Links(Some(Link(base + "/event-packets", Some(ReadCreate))), Link(FilteredPacketHref(params, base), Some(ReadOnly)), None)
  }

  /** `build_filtered_event_packets`. */
  method BuildFilteredEventPackets(packets: seq<EventPackets>, params: EventPacketQuery, base: string)
    returns (responses: seq<Response<EventPackets>>)
    ensures |responses| == |packets|
    ensures forall i :: 0 <= i < |packets| ==> responses[i].data == packets[i]
    ensures forall i :: 0 <= i < |packets| ==> responses[i].links == FilteredPacketLinks(params, base)
  {
    responses := [];
    for i := 0 to |packets|
      invariant |responses| == i
      invariant forall k :: 0 <= k < i ==> responses[k].data == packets[k]
      invariant forall k :: 0 <= k < i ==> responses[k].links == FilteredPacketLinks(params, base)
    {
      var selfHref := base + "/event-packets";
      var queryParts: seq<string> := [];
      if params.paginare.page.Some? {
        queryParts := queryParts + ["page=" + IntToString(params.paginare.page.value)];
      }
      if params.paginare.itemsPerPage.Some? {
        queryParts := queryParts + ["items_per_page=" + IntToString(params.paginare.itemsPerPage.value)];
      }
      if params.bilete.Some? {
        queryParts := queryParts + ["available_tickets=" + IntToString(params.bilete.value)];
      }
      if params.descriere.Some? {
        queryParts := queryParts + ["type=" + params.descriere.value];
      }
      assert queryParts == PacketQueryParts(params);
      if |queryParts| > 0 {
        selfHref := selfHref + "?" + Join(queryParts, "&");
      }
      AnnotationSpellingsAgree();
      var response := ResponseBuilder.New(packets[i], selfHref)
        .SelfTypes(["GET"])
        .ParentWithTypes(base + "/event-packets", ["[GET", "POST]"])
        .Build();
      assert response.links == FilteredPacketLinks(params, base);
      responses := responses + [response];
    }
  }

  // ---------------------------------------------------------------------
  // Reading a filtered href back
  // ---------------------------------------------------------------------

  /** The `key=value` pairs after the first `?`, in order; none without a `?`. */
  function QueryPairs(href: string): seq<(string, string)> {
    if '?' !in href then []
    else
      var parts := Split(href[IndexOf(href, '?') + 1..], '&');
      seq(|parts|, k requires 0 <= k < |parts| => SplitOnce(parts[k], '='))
  }

  /** One `key=value` query part. */
  function QueryPart(pair: (string, string)): string {
    pair.0 + "=" + pair.1
  }

  function Render(pairs: seq<(string, string)>): seq<string> {
    seq(|pairs|, k requires 0 <= k < |pairs| => QueryPart(pairs[k]))
  }

  /** A pair that survives the trip through a query string unchanged. */
  predicate Unambiguous(pair: (string, string)) {
    '=' !in pair.0 && '&' !in pair.0 && '&' !in pair.1
  }

  lemma RenderConcat(a: seq<(string, string)>, b: seq<(string, string)>)
    ensures Render(a + b) == Render(a) + Render(b)
  {
  }

  /** Reading back a rendered query gives the pairs it was rendered from. */
  lemma {:induction false} QueryPairsOfRender(path: string, pairs: seq<(string, string)>)
    requires '?' !in path
    requires forall k :: 0 <= k < |pairs| ==> Unambiguous(pairs[k])
    ensures QueryPairs(WithQuery(path, Render(pairs))) == pairs
  {
    var parts := Render(pairs);
    if |pairs| > 0 {
      forall k | 0 <= k < |parts|
        ensures '&' !in parts[k] && SplitOnce(parts[k], '=') == pairs[k]
      {
        assert parts[k] == pairs[k].0 + ['='] + pairs[k].1;
        SplitOnceAfterHead(pairs[k].0, '=', pairs[k].1);
      }
      IndexOfAfterHead(path, '?', Join(parts, "&"));
      assert WithQuery(path, parts) == path + ['?'] + Join(parts, "&");
      assert "&" == ['&'];
      SplitJoin(parts, '&');
    }
  }

  /** The filters of an event listing, present ones only, in the fixed order. */
  function EventFilters(params: EventQuery): seq<(string, string)> {
    (if params.locatie.Some? then [("location", params.locatie.value)] else [])
    + (if params.nume.Some? then [("name", params.nume.value)] else [])
  }

  /** The filters of a packet listing, present ones only, in the fixed order,
      numbers printed in decimal. No default is filled in for an absent key. */
  function PacketFilters(params: EventPacketQuery): seq<(string, string)> {
    (if params.paginare.page.Some? then [("page", IntToString(params.paginare.page.value))] else [])
    + (if params.paginare.itemsPerPage.Some? then [("items_per_page", IntToString(params.paginare.itemsPerPage.value))] else [])
    + (if params.bilete.Some? then [("available_tickets", IntToString(params.bilete.value))] else [])
    + (if params.descriere.Some? then [("type", params.descriere.value)] else [])
  }

  lemma EventPartsAreRendered(params: EventQuery)
    ensures EventQueryParts(params) == Render(EventFilters(params))
  {
    var a := if params.locatie.Some? then [("location", params.locatie.value)] else [];
    var b := if params.nume.Some? then [("name", params.nume.value)] else [];
    RenderConcat(a, b);
    if params.locatie.Some? {
      assert "location=" + params.locatie.value == "location" + "=" + params.locatie.value;
    }
    if params.nume.Some? {
      assert "name=" + params.nume.value == "name" + "=" + params.nume.value;
    }
  }

  lemma PacketPartsAreRendered(params: EventPacketQuery)
    ensures PacketQueryParts(params) == Render(PacketFilters(params))
  {
    var p := params.paginare;
    var a := if p.page.Some? then [("page", IntToString(p.page.value))] else [];
    var b := if p.itemsPerPage.Some? then [("items_per_page", IntToString(p.itemsPerPage.value))] else [];
    var c := if params.bilete.Some? then [("available_tickets", IntToString(params.bilete.value))] else [];
    var d := if params.descriere.Some? then [("type", params.descriere.value)] else [];
    assert PacketFilters(params) == a + b + c + d;
    RenderConcat(a + b + c, d);
    RenderConcat(a + b, c);
    RenderConcat(a, b);
    if p.page.Some? {
      assert "page=" + IntToString(p.page.value) == "page" + "=" + IntToString(p.page.value);
    }
    if p.itemsPerPage.Some? {
      assert "items_per_page=" + IntToString(p.itemsPerPage.value) == "items_per_page" + "=" + IntToString(p.itemsPerPage.value);
    }
    if params.bilete.Some? {
      assert "available_tickets=" + IntToString(params.bilete.value) == "available_tickets" + "=" + IntToString(params.bilete.value);
    }
    if params.descriere.Some? {
      assert "type=" + params.descriere.value == "type" + "=" + params.descriere.value;
    }
  }

  /** An unfiltered listing's href has no query at all; a filtered one has one. */
  lemma QueryMarkIffFiltered(params: EventQuery, packetParams: EventPacketQuery, base: string)
    requires '?' !in base
    ensures '?' in FilteredEventHref(params, base) <==> HasFilters(params)
    ensures !HasFilters(params) ==> FilteredEventHref(params, base) == base + "/events"
    ensures '?' in FilteredPacketHref(packetParams, base) <==> |PacketFilters(packetParams)| > 0
    ensures |PacketFilters(packetParams)| == 0 ==> FilteredPacketHref(packetParams, base) == base + "/event-packets"
  {
    assert '?' !in base + "/events";
    assert '?' !in base + "/event-packets";
    if HasFilters(params) {
      assert FilteredEventHref(params, base)[|base + "/events"|] == '?';
    }
    PacketPartsAreRendered(packetParams);
    if |PacketFilters(packetParams)| > 0 {
      assert FilteredPacketHref(packetParams, base)[|base + "/event-packets"|] == '?';
    }
  }

  /** The event listing's self href carries exactly the given filters, each
      once, location before name. */
  lemma FilteredEventHrefRoundTrip(params: EventQuery, base: string)
    requires '?' !in base
    requires params.locatie.Some? ==> '&' !in params.locatie.value
    requires params.nume.Some? ==> '&' !in params.nume.value
    ensures QueryPairs(FilteredEventHref(params, base)) == EventFilters(params)
  {
    EventPartsAreRendered(params);
    assert '?' !in base + "/events";
    QueryPairsOfRender(base + "/events", EventFilters(params));
  }

  /** Decimal numbers never contain `&`. */
  lemma NoAmpersandInNumber(i: int)
    ensures '&' !in IntToString(i)
  {
    var s := IntToString(i);
    assert forall k :: 0 <= k < |s| ==> s[k] != '&';
  }

  /** The packet listing's self href carries exactly the given filters, each
      once, in the order page, items_per_page, available_tickets, type. */
  lemma FilteredPacketHrefRoundTrip(params: EventPacketQuery, base: string)
    requires '?' !in base
    requires params.descriere.Some? ==> '&' !in params.descriere.value
    ensures QueryPairs(FilteredPacketHref(params, base)) == PacketFilters(params)
  {
    PacketPartsAreRendered(params);
    var p := params.paginare;
    if p.page.Some? { NoAmpersandInNumber(p.page.value); }
    if p.itemsPerPage.Some? { NoAmpersandInNumber(p.itemsPerPage.value); }
    if params.bilete.Some? { NoAmpersandInNumber(params.bilete.value); }
    assert '?' !in base + "/event-packets";
    QueryPairsOfRender(base + "/event-packets", PacketFilters(params));
  }

  /** Listing packets with `type=foo&page=2` echoes exactly those two keys,
      page first; `items_per_page` is not filled in with its default. */
  lemma PacketListingExample(base: string)
    ensures FilteredPacketHref(EventPacketQuery(Some("foo"), None, PaginationParams(Some(2), None)), base)
         == base + "/event-packets?page=2&type=foo"
  {
    assert IntToString(2) == "2";
    assert "page=" + IntToString(2) == "page=2";
    assert "type=" + "foo" == "type=foo";
    var parts := PacketQueryParts(EventPacketQuery(Some("foo"), None, PaginationParams(Some(2), None)));
    assert parts == ["page=2", "type=foo"];
    assert Join(parts, "&") == "page=2&type=foo";
  }
}
