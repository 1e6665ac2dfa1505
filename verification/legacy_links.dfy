/** The older hypermedia layer (`links.rs`): one hand-written constructor
    per entity instead of a builder. Its `Link`/`Links` structs have the
    same fields as the newer ones, so the newer types are reused here. */
module LegacyLinks {
  import opened Base
  import opened Models
  import opened SharedLinks

  datatype EventResponse = EventResponse(event: Event, links: Links)
  datatype EventPacketResponse = EventPacketResponse(eventPacket: EventPackets, links: Links)
  datatype TicketResponse = TicketResponse(ticket: Ticket, links: Links)

  /** `EventResponse::new`: untyped self and parent; both relations typed `GET`. */
  function NewEventResponse(event: Event, base: string): (r: EventResponse)
    ensures r.event == event
    ensures r.links.selfLink == Link(base + "/events/" + IntToString(event.id), None)
    ensures r.links.parent == Some(Link(base + "/events", None))
    ensures r.links.others.Some? && r.links.others.value.Keys == {"event-packets", "tickets"}
    ensures forall name :: name in r.links.others.value ==>
      r.links.others.value[name] == Link(r.links.selfLink.href + "/" + name, Some(ReadOnly))
  {
    var selfHref := base + "/events/" + IntToString(event.id);
    var others := map[
      "event-packets" := Link(base + "/events/" + IntToString(event.id) + "/event-packets", Some("GET")),
      "tickets" := Link(base + "/events/" + IntToString(event.id) + "/tickets", Some("GET"))];
    assert base + "/events/" + IntToString(event.id) + "/event-packets" == selfHref + "/" + "event-packets";
    assert base + "/events/" + IntToString(event.id) + "/tickets" == selfHref + "/" + "tickets";
    EventResponse(event, Links(Some(Link(base + "/events", None)), Link(selfHref, None), Some(others)))
  }

  /** `EventPacketResponse::new`: the same shape under `/event-packets`. */
  function NewEventPacketResponse(packet: EventPackets, base: string): (r: EventPacketResponse)
    ensures r.eventPacket == packet
    ensures r.links.selfLink == Link(base + "/event-packets/" + IntToString(packet.id), None)
    ensures r.links.parent == Some(Link(base + "/event-packets", None))
    ensures r.links.others.Some? && r.links.others.value.Keys == {"events", "tickets"}
    ensures forall name :: name in r.links.others.value ==>
      r.links.others.value[name] == Link(r.links.selfLink.href + "/" + name, Some(ReadOnly))
  {
    var selfHref := base + "/event-packets/" + IntToString(packet.id);
    var others := map[
      "events" := Link(base + "/event-packets/" + IntToString(packet.id) + "/events", Some("GET")),
      "tickets" := Link(base + "/event-packets/" + IntToString(packet.id) + "/tickets", Some("GET"))];
    assert base + "/event-packets/" + IntToString(packet.id) + "/events" == selfHref + "/" + "events";
    assert base + "/event-packets/" + IntToString(packet.id) + "/tickets" == selfHref + "/" + "tickets";
    EventPacketResponse(packet, Links(Some(Link(base + "/event-packets", None)), Link(selfHref, None), Some(others)))
  }

  /** `TicketResponse::new`: self and parent typed `GET`, no relations. */
  function NewTicketResponse(ticket: Ticket, base: string): (r: TicketResponse)
    ensures r.ticket == ticket
    ensures r.links.selfLink == Link(base + "/tickets/" + ticket.cod, Some(ReadOnly))
    ensures r.links.parent == Some(Link(base + "/tickets", Some(ReadOnly)))
    ensures r.links.others.None?
  {
    TicketResponse(ticket, Links(
      Some(Link(base + "/tickets", Some("GET"))),
      Link(base + "/tickets/" + ticket.cod, Some("GET")),
      None))
  }

  /** The two revisions put every link at the same href and advertise the
      same relations; they differ only in the method annotations. */
  lemma RevisionsAgreeOnHrefs(event: Event, packet: EventPackets, ticket: Ticket, base: string)
    ensures var old_ := NewEventResponse(event, base).links;
      var new_ := BuildSimpleEvent(event, base).links;
      && old_.selfLink.href == new_.selfLink.href
      && old_.parent.value.href == new_.parent.value.href
      && old_.others.value.Keys == new_.others.value.Keys
      && (forall name :: name in old_.others.value ==> old_.others.value[name].href == new_.others.value[name].href)
      && old_.selfLink.linkType == None && new_.selfLink.linkType == Some(AllMethods)
    ensures var old_ := NewEventPacketResponse(packet, base).links;
      var new_ := BuildSimpleEventPacket(packet, base).links;
      && old_.selfLink.href == new_.selfLink.href
      && old_.parent.value.href == new_.parent.value.href
      && old_.others.value.Keys == new_.others.value.Keys
      && (forall name :: name in old_.others.value ==> old_.others.value[name].href == new_.others.value[name].href)
      && old_.selfLink.linkType == None && new_.selfLink.linkType == Some(AllMethods)
    ensures var old_ := NewTicketResponse(ticket, base).links;
      var new_ := BuildSimpleTicket(ticket, base).links;
      && old_.selfLink.href == new_.selfLink.href
      && old_.parent.value.href == new_.parent.value.href
      && old_.others == new_.others
      && old_.selfLink.linkType == Some(ReadOnly) && new_.selfLink.linkType == Some(AllMethods)
  {
    SimpleResponsesAreNavigable(event, packet, ticket, base);
  }
}
