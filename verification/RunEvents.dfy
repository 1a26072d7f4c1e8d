/** Public run events and the producer that numbers them. */
module RunEvents {
  import opened Records
  import opened Repository

  /** A run_end carries the status it reports; the other bodies carry the fields that are read back. */
  datatype Body =
    | Metadata
    | Progress
    | Chunk(delta: Value)
    | ToolCall(name: Value, arguments: Value)
    | ToolResult
    | ArtifactBody(data: Payload)
    | ErrorBody
    | RunEnd(status: Status)

  datatype Event = Event(id: nat, body: Body)

  class RunEventProducer {
    var sequence: nat

    constructor ()
      ensures sequence == 0
    {
      sequence := 0;
    }

    method Emit(body: Body) returns (event: Event)
      modifies this
      ensures sequence == old(sequence) + 1
      ensures event == Event(sequence, body)
    {
      sequence := sequence + 1;
      event := Event(sequence, body);
    }
  }

  /** Identities grow strictly: what a producer guarantees, and what every reader relies on. */
  predicate Increasing(events: seq<Event>) {
    forall i, j :: 0 <= i < j < |events| ==> events[i].id < events[j].id
  }

  /** Only the last event may be a run_end. */
  predicate EndsAtMostOnce(events: seq<Event>) {
    forall i :: 0 <= i < |events| - 1 ==> !events[i].body.RunEnd?
  }

  /** The events with identity above a cursor, in order. */
  function Above(events: seq<Event>, cursor: int): seq<Event> {
    if events == [] then []
    else if events[0].id > cursor then [events[0]] + Above(events[1..], cursor)
    else Above(events[1..], cursor)
  }
}
