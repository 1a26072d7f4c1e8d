/** Process-local evidence of one run: the events recorded for it, and what a cancellation keeps of them. */
module RunChannel {
  import opened Records
  import opened Repository
  import opened RunEvents

  datatype Log = Log(events: seq<Event>, terminal: bool)

  function Record(log: Log, event: Event): (Log, bool) {
    if log.terminal then (log, false)
    else (Log(log.events + [event], event.body.RunEnd?), true)
  }

  function PublishTerminal(log: Log, status: Status): (Log, Option<Event>) {
    if log.terminal then (log, None)
    else
      var event := Event(|log.events| + 1, RunEnd(status));
      (Log(log.events + [event], true), Some(event))
  }

  /** Identities are exactly 1 .. n, and the log is terminal exactly when its last event is the one run_end. */
  ghost predicate Numbered(log: Log) {
    && (forall i :: 0 <= i < |log.events| ==> log.events[i].id == i + 1)
    && EndsAtMostOnce(log.events)
    && (log.terminal <==> log.events != [] && log.events[|log.events| - 1].body.RunEnd?)
  }

  lemma RecordKeepsNumbered(log: Log, event: Event)
    requires Numbered(log) && (!log.terminal ==> event.id == |log.events| + 1)
    ensures Numbered(Record(log, event).0)
  {
  }

  lemma PublishKeepsNumbered(log: Log, status: Status)
    requires Numbered(log)
    ensures Numbered(PublishTerminal(log, status).0)
    ensures PublishTerminal(log, status).0.terminal
  {
  }

  // ----- the snapshot a cancellation stores -----

  /** The concatenated text deltas, skipping deltas that are not text. */
  function Answer(events: seq<Event>): string {
    if events == [] then ""
    else
      var last := events[|events| - 1];
      Answer(events[..|events| - 1]) + (if last.body.Chunk? && last.body.delta.Text? then last.body.delta.s else "")
  }

  function ToolCalls(events: seq<Event>): seq<Payload> {
    if events == [] then []
    else
      var last := events[|events| - 1].body;
      ToolCalls(events[..|events| - 1]) +
      (if last.ToolCall? && last.name.Text? && last.arguments.Object?
       then [map["name" := last.name, "arguments" := last.arguments]] else [])
  }

  function Artifacts(events: seq<Event>): seq<Payload> {
    if events == [] then []
    else
      var last := events[|events| - 1].body;
      Artifacts(events[..|events| - 1]) + (if last.ArtifactBody? then [last.data] else [])
  }

  class Channel {
    var events: seq<Event>
    var terminal: bool
    var cancelRequested: bool

    ghost function State(): Log
      reads this
    {
      Log(events, terminal)
    }

    constructor ()
      ensures State() == Log([], false) && !cancelRequested
    {
      events, terminal, cancelRequested := [], false, false;
    }

    method RecordEvent(event: Event) returns (accepted: bool)
      modifies this`events, this`terminal
      ensures (State(), accepted) == Record(old(State()), event)
    {
      if terminal {
        return false;
      }
      events := events + [event];
      if event.body.RunEnd? {
        terminal := true;
      }
      return true;
    }

    method PublishTerminalEvent(status: Status) returns (published: Option<Event>)
      modifies this`events, this`terminal
      ensures (State(), published) == PublishTerminal(old(State()), status)
    {
      if terminal {
        return None;
      }
      events := events + [Event(|events| + 1, RunEnd(status))];
      terminal := true;
      return Some(events[|events| - 1]);
    }

    method CancellationSnapshot() returns (answer: string, toolCalls: seq<Payload>, artifacts: seq<Payload>)
      ensures answer == Answer(events)
      ensures toolCalls == ToolCalls(events)
      ensures artifacts == Artifacts(events)
    {
      answer, toolCalls, artifacts := "", [], [];
      var i := 0;
      while i < |events|
        invariant 0 <= i <= |events|
        invariant answer == Answer(events[..i])
        invariant toolCalls == ToolCalls(events[..i])
        invariant artifacts == Artifacts(events[..i])
      {
        var body := events[i].body;
        assert events[..i + 1][..i] == events[..i];
        if body.Chunk? {
          if body.delta.Text? { answer := answer + body.delta.s; }
        } else if body.ToolCall? {
          if body.name.Text? && body.arguments.Object? {
            toolCalls := toolCalls + [map["name" := body.name, "arguments" := body.arguments]];
          }
        } else if body.ArtifactBody? {
          artifacts := artifacts + [body.data];
        }
        i := i + 1;
      }
      assert events[..|events|] == events;
    }
  }
}
