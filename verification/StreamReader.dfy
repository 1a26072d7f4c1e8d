/** One reader following one unbounded stream while its run goes on publishing. */
module StreamReader {
  import opened Records
  import opened RunEvents
  import opened EventStore

  datatype Phase =
    | Waiting
    | Delivering(pending: seq<Event>, terminal: bool)
    | Returned

  /** The stream, and the reader's cursor, place in its loop and yielded events. */
  datatype System = System(stream: Stream, cursor: int, phase: Phase, delivered: seq<Event>)

  datatype Step = PublishStep(event: Event) | Wake | Yield | Again

  predicate Enabled(s: System, step: Step) {
    match step
    case PublishStep(event) => forall e :: e in s.stream.events ==> e.id < event.id
    case Wake => s.phase.Waiting? && (Above(s.stream.events, s.cursor) != [] || s.stream.terminal)
    case Yield => s.phase.Delivering? && s.phase.pending != []
    case Again => s.phase.Delivering? && s.phase.pending == []
  }

  function Apply(s: System, step: Step): System
    requires Enabled(s, step)
  {
    match step
    case PublishStep(event) => s.(stream := Append(s.stream, event, None))
    case Wake => s.(phase := Delivering(Above(s.stream.events, s.cursor), s.stream.terminal))
    case Yield =>
      var event := s.phase.pending[0];
      s.(cursor := event.id, phase := s.phase.(pending := s.phase.pending[1..]), delivered := s.delivered + [event])
    case Again => s.(phase := if s.phase.terminal then Returned else Waiting)
  }

  /** What was yielded and what is still above the cursor make up the published events above the first cursor. */
  ghost predicate ReaderInv(s: System, start: int) {
    && Increasing(s.stream.events)
    && start <= s.cursor
    && (s.cursor == start || exists e :: e in s.stream.events && e.id == s.cursor)
    && Above(s.stream.events, start) == s.delivered + Above(s.stream.events, s.cursor)
    && (s.phase.Delivering? ==> s.phase.pending <= Above(s.stream.events, s.cursor))
    && (s.phase.Delivering? && s.phase.terminal ==>
          s.stream.terminal && s.phase.pending == Above(s.stream.events, s.cursor))
    && (s.phase.Returned? ==> s.stream.terminal && Above(s.stream.events, s.cursor) == [])
  }

  lemma AboveOneMore(events: seq<Event>, event: Event, cursor: int)
    ensures Above(events + [event], cursor) == Above(events, cursor) + if event.id > cursor then [event] else []
  {
    AboveSplit(events, [event], cursor);
  }

  /** Moving the cursor to the first event above it leaves the others. */
  lemma {:induction false} AboveNext(events: seq<Event>, cursor: int)
    requires Increasing(events) && Above(events, cursor) != []
    ensures Above(events, Above(events, cursor)[0].id) == Above(events, cursor)[1..]
  {
    if events[0].id > cursor {
      AllAbove(events[1..], events[0].id, cursor);
    } else {
      AboveAll(events[1..], cursor);
      var next := Above(events[1..], cursor)[0];
      assert next in Above(events[1..], cursor);
      AboveNext(events[1..], cursor);
    }
  }

  lemma {:induction false} AllAbove(events: seq<Event>, lower: int, cursor: int)
    requires forall e :: e in events ==> e.id > lower
    requires lower > cursor
    ensures Above(events, lower) == events == Above(events, cursor)
  {
    if events != [] {
      assert events[0] in events;
      AllAbove(events[1..], lower, cursor);
    }
  }

  lemma BackIncreasing(front: seq<Event>, last: Event)
    requires Increasing(front) && forall e :: e in front ==> e.id < last.id
    ensures Increasing(front + [last])
  {
    forall i | 0 <= i < |front| ensures front[i].id < last.id { assert front[i] in front; }
  }

  /** The cursor, if it has moved, stays at a published event, and below the next one. */
  lemma CursorStays(events: seq<Event>, event: Event, cursor: int)
    requires (exists e :: e in events && e.id == cursor) && forall e :: e in events ==> e.id < event.id
    ensures event.id > cursor && exists e :: e in events + [event] && e.id == cursor
  {
    var e :| e in events && e.id == cursor;
    assert e in events + [event];
  }

  lemma PublishKeepsReaderInv(s: System, event: Event, start: int)
    requires ReaderInv(s, start) && Enabled(s, PublishStep(event))
    ensures ReaderInv(Apply(s, PublishStep(event)), start)
  {
    if !s.stream.terminal {
      var events := s.stream.events;
      hide Above, Increasing;
      AboveOneMore(events, event, start);
      AboveOneMore(events, event, s.cursor);
      BackIncreasing(events, event);
      if s.cursor != start { CursorStays(events, event, s.cursor); }
    }
  }

  lemma StepKeepsReaderInv(s: System, step: Step, start: int)
    requires ReaderInv(s, start) && Enabled(s, step)
    ensures ReaderInv(Apply(s, step), start)
  {
    match step
    case PublishStep(event) => PublishKeepsReaderInv(s, event, start);
    case Yield => YieldKeepsReaderInv(s, start);
    case Wake => hide Above, Increasing;
    case Again => hide Above, Increasing;
  }

  lemma YieldKeepsReaderInv(s: System, start: int)
    requires ReaderInv(s, start) && Enabled(s, Yield)
    ensures ReaderInv(Apply(s, Yield), start)
  {
    var events, event := s.stream.events, s.phase.pending[0];
    AboveAll(events, s.cursor);
    AboveNext(events, s.cursor);
    hide Above, Increasing;
    TakeFirst(s.delivered, s.phase.pending, Above(events, s.cursor));
    assert event in events && event.id > s.cursor;
  }

  /** The first pending event moves to the delivered ones. */
  lemma TakeFirst(delivered: seq<Event>, pending: seq<Event>, above: seq<Event>)
    requires pending != [] && pending <= above
    ensures pending[0] == above[0] && pending[0] in above && pending[1..] <= above[1..]
    ensures delivered + above == delivered + [pending[0]] + above[1..]
    ensures pending == above ==> pending[1..] == above[1..]
  {
  }

  /** The state after a schedule of steps, if each of them is enabled when it is taken. */
  function Schedule(start: int, steps: seq<Step>): Option<System> {
    if steps == [] then Some(System(FRESH, start, Waiting, []))
    else
      var before := Schedule(start, steps[..|steps| - 1]);
      if before.Some? && Enabled(before.value, steps[|steps| - 1])
      then Some(Apply(before.value, steps[|steps| - 1])) else None
  }

  lemma {:induction false} ScheduleInv(start: int, steps: seq<Step>)
    requires Schedule(start, steps).Some?
    ensures ReaderInv(Schedule(start, steps).value, start)
  {
    if steps != [] {
      ScheduleInv(start, steps[..|steps| - 1]);
      StepKeepsReaderInv(Schedule(start, steps[..|steps| - 1]).value, steps[|steps| - 1], start);
    }
  }

  /**
   * In every interleaving of publications and reader steps the reader has yielded a prefix of the published events
   * above its cursor, and all of them, the stream being finished, once it returns.
   */
  lemma ReaderDeliversInOrder(start: int, steps: seq<Step>)
    requires Schedule(start, steps).Some?
    ensures var s := Schedule(start, steps).value;
            && s.delivered <= Above(s.stream.events, start)
            && (s.phase.Returned? ==> s.stream.terminal && s.delivered == Above(s.stream.events, start))
  {
    ScheduleInv(start, steps);
  }

  /** An upper bound on the steps a reader still takes on a finished stream. */
  function StepsLeft(s: System): nat {
    2 * |Above(s.stream.events, s.cursor)| +
    match s.phase
    case Returned => 0
    case Delivering(_, terminal) => if terminal then 1 else 3
    case Waiting => 2
  }

  /** On a finished stream the reader is never stuck before it returns, and each of its steps brings that nearer. */
  lemma FinishedStreamIsDrained(s: System, start: int, step: Step)
    requires ReaderInv(s, start) && s.stream.terminal
    ensures !s.phase.Returned? ==> Enabled(s, Wake) || Enabled(s, Yield) || Enabled(s, Again)
    ensures Enabled(s, step) && !step.PublishStep? ==> StepsLeft(Apply(s, step)) < StepsLeft(s)
  {
    if step.Yield? && Enabled(s, step) {
      AboveNext(s.stream.events, s.cursor);
    }
  }
}
