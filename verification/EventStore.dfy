/** Run-scoped event streams: the bounded in-memory store and its fail-open wrapper. */
module EventStore {
  import opened Records
  import opened RunEvents

  datatype Stream = Stream(events: seq<Event>, terminal: bool)

  const FRESH := Stream([], false)

  datatype Limits = Limits(streams: Option<nat>, events: Option<nat>)

  /** The last n elements. */
  function Last<T>(s: seq<T>, n: nat): seq<T> {
    if |s| <= n then s else s[|s| - n..]
  }

  function Append(stream: Stream, event: Event, maxEvents: Option<nat>): Stream {
    if stream.terminal then stream
    else
      var events := stream.events + [event];
      Stream(if maxEvents.Some? && |events| > maxEvents.value then Last(events, maxEvents.value) else events,
             event.body.RunEnd?)
  }

  /** A stream that was published the given events, one after the other. */
  function Fill(events: seq<Event>, maxEvents: Option<nat>): Stream {
    if events == [] then FRESH
    else Append(Fill(events[..|events| - 1], maxEvents), events[|events| - 1], maxEvents)
  }

  /** Up to its run_end a stream keeps everything, or exactly the newest events its limit allows. */
  lemma {:induction false} FillKeepsNewest(events: seq<Event>, maxEvents: Option<nat>)
    requires EndsAtMostOnce(events)
    requires maxEvents.Some? ==> maxEvents.value >= 1
    ensures Fill(events, maxEvents).events == if maxEvents.Some? then Last(events, maxEvents.value) else events
    ensures Fill(events, maxEvents).terminal <==> events != [] && events[|events| - 1].body.RunEnd?
  {
    if events != [] {
      var before, last := events[..|events| - 1], events[|events| - 1];
      FillKeepsNewest(before, maxEvents);
      assert before != [] ==> before[|before| - 1] == events[|events| - 2];
      assert before + [last] == events;
      hide EndsAtMostOnce, Last;
      if maxEvents.Some? { LastOneMore(before, last, maxEvents.value); }
    }
  }

  lemma LastOneMore(events: seq<Event>, event: Event, n: nat)
    requires n >= 1
    ensures var grown := Last(events, n) + [event];
            Last(events + [event], n) == if |grown| > n then Last(grown, n) else grown
  {
  }

  // ----- streams by run, in least-recently-used order -----

  datatype Store = Store(order: seq<Id>, streams: map<Id, Stream>)

  function Without(order: seq<Id>, r: Id): seq<Id> {
    if order == [] then [] else (if order[0] == r then [] else [order[0]]) + Without(order[1..], r)
  }

  /** The first terminal stream, or the least recently used one. */
  function Victim(s: Store): Id
    requires s.order != [] && forall r :: r in s.order ==> r in s.streams
  {
    var k := FirstTerminal(s, 0);
    if k < |s.order| then s.order[k] else s.order[0]
  }

  function FirstTerminal(s: Store, i: nat): (k: nat)
    requires i <= |s.order| && forall r :: r in s.order ==> r in s.streams
    ensures i <= k <= |s.order|
    decreases |s.order| - i
  {
    if i == |s.order| || s.streams[s.order[i]].terminal then i else FirstTerminal(s, i + 1)
  }

  predicate Distinct(order: seq<Id>) {
    forall i, j :: 0 <= i < j < |order| ==> order[i] != order[j]
  }

  /** Every stream is listed once. */
  ghost predicate Listed(s: Store) {
    && (forall r :: r in s.order <==> r in s.streams)
    && Distinct(s.order)
  }

  function Evict(s: Store, r: Id): Store {
    Store(Without(s.order, r), s.streams - {r})
  }

  /** Get or create a run's stream, moving it to the recent end. */
  function Touch(s: Store, r: Id, limits: Limits): Store
    requires forall r :: r in s.order ==> r in s.streams
  {
    if r in s.streams then Store(Without(s.order, r) + [r], s.streams)
    else
      var s1 := if limits.streams.Some? && |s.streams| >= limits.streams.value && s.order != []
                then Evict(s, Victim(s)) else s;
      Store(s1.order + [r], s1.streams[r := FRESH])
  }

  function Publish(s: Store, r: Id, event: Event, limits: Limits): Store
    requires forall r :: r in s.order ==> r in s.streams
  {
    var s1 := Touch(s, r, limits);
    s1.(streams := s1.streams[r := Append(s1.streams[r], event, limits.events)])
  }

  lemma {:induction false} WithoutFacts(order: seq<Id>, r: Id)
    ensures forall q :: q in Without(order, r) <==> q in order && q != r
    ensures Distinct(order) ==> Distinct(Without(order, r))
  {
    if order != [] {
      WithoutFacts(order[1..], r);
      assert order == [order[0]] + order[1..];
      if Distinct(order) {
        assert order[0] !in order[1..];
        assert Distinct(order[1..]);
      }
    }
  }

  lemma EvictKeepsListed(s: Store, r: Id)
    requires Listed(s)
    ensures Listed(Evict(s, r))
  {
    WithoutFacts(s.order, r);
  }

  lemma DistinctAppend(order: seq<Id>, r: Id)
    requires Distinct(order) && r !in order
    ensures Distinct(order + [r])
  {
  }

  lemma AddKeepsListed(s: Store, r: Id)
    requires Listed(s) && r !in s.streams
    ensures Listed(Store(s.order + [r], s.streams[r := FRESH]))
  {
    DistinctAppend(s.order, r);
  }

  lemma MoveKeepsListed(s: Store, r: Id)
    requires Listed(s) && r in s.streams
    ensures Listed(Store(Without(s.order, r) + [r], s.streams))
  {
    WithoutFacts(s.order, r);
    DistinctAppend(Without(s.order, r), r);
  }

  lemma TouchKeepsListed(s: Store, r: Id, limits: Limits)
    requires Listed(s)
    ensures Listed(Touch(s, r, limits)) && r in Touch(s, r, limits).streams
  {
    if r in s.streams {
      MoveKeepsListed(s, r);
    } else if s.order != [] {
      EvictKeepsListed(s, Victim(s));
      AddKeepsListed(Evict(s, Victim(s)), r);
      AddKeepsListed(s, r);
    } else {
      AddKeepsListed(s, r);
    }
    hide Listed;
  }

  class InMemoryRunEventStore {
    const limits: Limits
    var order: seq<Id>
    var streams: map<Id, Stream>

    ghost function State(): Store
      reads this
    {
      Store(order, streams)
    }

    ghost predicate Valid()
      reads this
    {
      Listed(State())
    }

    constructor (limits: Limits)
      ensures this.limits == limits && Valid() && State() == Store([], map[])
    {
      this.limits := limits;
      order, streams := [], map[];
    }

    method OpenStream(r: Id)
      requires Valid()
      modifies this`order, this`streams
      ensures Valid() && State() == Touch(old(State()), r, limits)
    {
      TouchKeepsListed(State(), r, limits);
      if r in streams {
        order := Without(order, r) + [r];
        return;
      }
      if limits.streams.Some? && |streams| >= limits.streams.value && order != [] {
        var victim := order[0];
        var i := 0;
        while i < |order|
          invariant 0 <= i <= |order| && victim == order[0]
          invariant FirstTerminal(State(), 0) == FirstTerminal(State(), i)
        {
          if streams[order[i]].terminal {
            victim := order[i];
            break;
          }
          i := i + 1;
        }
        assert victim == Victim(State());
        order, streams := Without(order, victim), streams - {victim};
      }
      order, streams := order + [r], streams[r := FRESH];
    }

    method PublishEvent(r: Id, event: Event)
      requires Valid()
      modifies this`order, this`streams
      ensures Valid() && State() == Publish(old(State()), r, event, limits)
    {
      TouchKeepsListed(State(), r, limits);
      OpenStream(r);
      var stream := streams[r];
      if stream.terminal {
        assert streams == streams[r := stream];
        return;
      }
      var events := stream.events + [event];
      if limits.events.Some? && |events| > limits.events.value {
        events := Last(events, limits.events.value);
      }
      streams := streams[r := Stream(events, event.body.RunEnd?)];
    }
  }

  // ----- the fail-open wrapper -----

  /** A primary publish succeeds, or fails with or without having reached the stream. */
  datatype Delivery = Done | Failed(applied: bool)

  datatype Publication = Publication(run: Id, event: Event, primary: Delivery)

  datatype Resilient = Resilient(fallback: Store, primary: Store, degraded: seq<Id>)

  const NO_LIMITS := Limits(None, None)

  function PopOldest(order: seq<Id>, limit: nat): seq<Id> {
    if |order| > limit then PopOldest(order[1..], limit) else order
  }

  function MarkDegraded(degraded: seq<Id>, r: Id, limit: nat): seq<Id> {
    PopOldest(Without(degraded, r) + [r], limit)
  }

  ghost predicate Sound(s: Resilient) {
    Listed(s.fallback) && Listed(s.primary)
  }

  /** Record locally, then try the primary transport; a failure marks the run, it never propagates. */
  function PublishResilient(s: Resilient, p: Publication, maxRuns: nat, maxEvents: nat): Resilient
    requires Sound(s)
  {
    Resilient(
      Publish(s.fallback, p.run, p.event, Limits(Some(maxRuns), Some(maxEvents))),
      if p.primary == Failed(false) then s.primary else Publish(s.primary, p.run, p.event, NO_LIMITS),
      if p.primary.Done? then s.degraded else MarkDegraded(s.degraded, p.run, maxRuns))
  }

  lemma PublishKeepsSound(s: Resilient, p: Publication, maxRuns: nat, maxEvents: nat)
    requires Sound(s)
    ensures Sound(PublishResilient(s, p, maxRuns, maxEvents))
  {
    TouchKeepsListed(s.fallback, p.run, Limits(Some(maxRuns), Some(maxEvents)));
    TouchKeepsListed(s.primary, p.run, NO_LIMITS);
  }

  /** The state after a trace of publications, whatever each primary attempt did. */
  ghost function StateAfter(trace: seq<Publication>, maxRuns: nat, maxEvents: nat): (s: Resilient)
    ensures Sound(s)
  {
    if trace == [] then Resilient(Store([], map[]), Store([], map[]), [])
    else
      var before := StateAfter(trace[..|trace| - 1], maxRuns, maxEvents);
      PublishKeepsSound(before, trace[|trace| - 1], maxRuns, maxEvents);
      PublishResilient(before, trace[|trace| - 1], maxRuns, maxEvents)
  }

  /** What a replay yields once the run has ended: the degraded run's local copy, else the primary stream. */
  function Replay(s: Resilient, r: Id, cursor: int): seq<Event> {
    var store := if r in s.degraded then s.fallback else s.primary;
    if r in store.streams then Above(store.streams[r].events, cursor) else []
  }

  function EventsOf(trace: seq<Publication>, r: Id): seq<Event> {
    if trace == [] then []
    else
      var last := trace[|trace| - 1];
      EventsOf(trace[..|trace| - 1], r) + if last.run == r then [last.event] else []
  }

  predicate AnyFailed(trace: seq<Publication>, r: Id) {
    exists i :: 0 <= i < |trace| && trace[i].run == r && trace[i].primary.Failed?
  }

  function RunsOf(trace: seq<Publication>): set<Id> {
    set i | 0 <= i < |trace| :: trace[i].run
  }

  lemma RunsOfLast(trace: seq<Publication>)
    requires trace != []
    ensures RunsOf(trace) == RunsOf(trace[..|trace| - 1]) + {trace[|trace| - 1].run}
  {
    var n := |trace| - 1;
    assert trace[..n] + [trace[n]] == trace;
    forall r | r in RunsOf(trace) ensures r in RunsOf(trace[..n]) + {trace[n].run} {
      var i :| 0 <= i < |trace| && trace[i].run == r;
      if i < n { assert trace[..n][i].run == r; }
    }
    forall r | r in RunsOf(trace[..n]) ensures r in RunsOf(trace) {
      var i :| 0 <= i < n && trace[..n][i].run == r;
      assert trace[i].run == r;
    }
  }

  /** The copy a run has, counting a missing one as empty. */
  function Copy(s: Store, r: Id): Stream {
    if r in s.streams then s.streams[r] else FRESH
  }

  lemma RunLast(trace: seq<Publication>, maxRuns: nat, maxEvents: nat)
    requires trace != []
    ensures StateAfter(trace, maxRuns, maxEvents)
         == PublishResilient(StateAfter(trace[..|trace| - 1], maxRuns, maxEvents), trace[|trace| - 1],
                             maxRuns, maxEvents)
  {
  }

  /** Room for the run: its own copy grows, and no other copy is evicted. */
  lemma PublishWithinLimit(s: Store, r: Id, event: Event, limits: Limits)
    requires Listed(s) && (r in s.streams || limits.streams.None? || |s.streams| < limits.streams.value)
    ensures Publish(s, r, event, limits).streams == s.streams[r := Append(Copy(s, r), event, limits.events)]
  {
  }

  lemma SizeOfOneMore(small: set<Id>, large: set<Id>, r: Id)
    requires large == small + {r}
    ensures |small| <= |large| && (r !in small ==> |large| == |small| + 1)
  {
    if r in small {
      assert large == small;
    } else {
      assert large - {r} == small;
    }
  }

  lemma {:induction false} FallbackRuns(trace: seq<Publication>, maxRuns: nat, maxEvents: nat)
    requires |RunsOf(trace)| <= maxRuns
    ensures StateAfter(trace, maxRuns, maxEvents).fallback.streams.Keys == RunsOf(trace)
    ensures trace != [] ==>
      var s, p := StateAfter(trace[..|trace| - 1], maxRuns, maxEvents).fallback, trace[|trace| - 1];
      StateAfter(trace, maxRuns, maxEvents).fallback.streams
      == s.streams[p.run := Append(Copy(s, p.run), p.event, Some(maxEvents))]
  {
    if trace != [] {
      var before, p := trace[..|trace| - 1], trace[|trace| - 1];
      var s := StateAfter(before, maxRuns, maxEvents).fallback;
      RunsOfLast(trace);
      SizeOfOneMore(RunsOf(before), RunsOf(trace), p.run);
      FallbackRuns(before, maxRuns, maxEvents);
      assert |s.streams| == |s.streams.Keys|;
      PublishWithinLimit(s, p.run, p.event, Limits(Some(maxRuns), Some(maxEvents)));
      RunLast(trace, maxRuns, maxEvents);
      hide StateAfter, Append, Publish, RunsOf, Listed;
    }
  }

  /** A run's events after one more publication of some run. */
  lemma EventsOfLast(trace: seq<Publication>, r: Id)
    requires trace != []
    ensures var p := trace[|trace| - 1];
            EventsOf(trace, r) == if p.run == r then EventsOf(trace[..|trace| - 1], r) + [p.event]
                                  else EventsOf(trace[..|trace| - 1], r)
  {
  }

  /** Within the run limit every local copy was filled by exactly its own run's events. */
  lemma {:induction false} FallbackIsFilled(trace: seq<Publication>, r: Id, maxRuns: nat, maxEvents: nat)
    requires |RunsOf(trace)| <= maxRuns
    ensures Copy(StateAfter(trace, maxRuns, maxEvents).fallback, r) == Fill(EventsOf(trace, r), Some(maxEvents))
  {
    if trace != [] {
      var before, p := trace[..|trace| - 1], trace[|trace| - 1];
      RunsOfLast(trace);
      SizeOfOneMore(RunsOf(before), RunsOf(trace), p.run);
      FallbackIsFilled(before, r, maxRuns, maxEvents);
      FallbackRuns(trace, maxRuns, maxEvents);
      FillOne(EventsOf(before, r), p.event, Some(maxEvents));
      EventsOfLast(trace, r);
      hide StateAfter, Append, RunsOf, Fill, EventsOf;
    } else {
      assert RunsOf([]) == {};
    }
  }

  /** The publication reached the primary stream, whatever its caller was told. */
  predicate Reaches(d: Delivery) {
    d.Done? || d.applied
  }

  /** A run's events that reached its primary stream. */
  function ReachedOf(trace: seq<Publication>, r: Id): seq<Event> {
    if trace == [] then []
    else
      var last := trace[|trace| - 1];
      ReachedOf(trace[..|trace| - 1], r) + if last.run == r && Reaches(last.primary) then [last.event] else []
  }

  /** A run's events after one more publication of some run, and those of them that reached the primary. */
  lemma ReachedOfLast(trace: seq<Publication>, r: Id)
    requires trace != []
    ensures var p := trace[|trace| - 1];
            var before := ReachedOf(trace[..|trace| - 1], r);
            ReachedOf(trace, r) == if p.run == r && Reaches(p.primary) then before + [p.event] else before
  {
  }

  /** Whatever failed, a run's primary stream was filled by exactly the events that reached it. */
  lemma {:induction false} PrimaryIsFilled(trace: seq<Publication>, r: Id, maxRuns: nat, maxEvents: nat)
    ensures Copy(StateAfter(trace, maxRuns, maxEvents).primary, r) == Fill(ReachedOf(trace, r), None)
  {
    if trace != [] {
      var before, p := trace[..|trace| - 1], trace[|trace| - 1];
      PrimaryIsFilled(before, r, maxRuns, maxEvents);
      PublishWithinLimit(StateAfter(before, maxRuns, maxEvents).primary, p.run, p.event, NO_LIMITS);
      RunLast(trace, maxRuns, maxEvents);
      FillOne(ReachedOf(before, r), p.event, None);
      ReachedOfLast(trace, r);
      hide StateAfter, Append, Publish, Fill, Listed, ReachedOf;
    }
  }

  /** While no publication of a run failed, all its events reached the primary. */
  lemma {:induction false} NothingFailedAllReached(trace: seq<Publication>, r: Id)
    requires !AnyFailed(trace, r)
    ensures ReachedOf(trace, r) == EventsOf(trace, r)
  {
    if trace != [] {
      AnyFailedLast(trace, r);
      hide AnyFailed;
      NothingFailedAllReached(trace[..|trace| - 1], r);
      EventsOfLast(trace, r);
      ReachedOfLast(trace, r);
      hide EventsOf, ReachedOf;
    }
  }

  lemma AnyFailedLast(trace: seq<Publication>, r: Id)
    requires trace != []
    ensures AnyFailed(trace, r) <==>
      AnyFailed(trace[..|trace| - 1], r) || (trace[|trace| - 1].run == r && trace[|trace| - 1].primary.Failed?)
  {
    var n := |trace| - 1;
    if AnyFailed(trace, r) {
      var i :| 0 <= i < |trace| && trace[i].run == r && trace[i].primary.Failed?;
      assert i < n ==> trace[..n][i] == trace[i];
    }
    if AnyFailed(trace[..n], r) {
      var i :| 0 <= i < n && trace[..n][i].run == r && trace[..n][i].primary.Failed?;
      assert trace[i] == trace[..n][i];
    }
  }

  // ----- which runs are degraded -----

  lemma {:induction false} DistinctWithin(order: seq<Id>, runs: set<Id>)
    requires Distinct(order) && forall r :: r in order ==> r in runs
    ensures |order| <= |runs|
  {
    if order != [] {
      assert order == [order[0]] + order[1..];
      assert Distinct(order[1..]) && order[0] !in order[1..];
      DistinctWithin(order[1..], runs - {order[0]});
    }
  }

  ghost predicate DegradedExactly(degraded: seq<Id>, trace: seq<Publication>) {
    && Distinct(degraded)
    && (forall r :: r in degraded <==> AnyFailed(trace, r))
  }

  lemma FailedRan(trace: seq<Publication>, r: Id)
    requires AnyFailed(trace, r)
    ensures r in RunsOf(trace)
  {
  }

  /** Within the run limit the degraded runs are exactly those with a failed publication: none is forgotten. */
  lemma {:induction false} DegradedIffFailed(trace: seq<Publication>, maxRuns: nat, maxEvents: nat)
    requires |RunsOf(trace)| <= maxRuns
    ensures DegradedExactly(StateAfter(trace, maxRuns, maxEvents).degraded, trace)
  {
    if trace != [] {
      var before, p := trace[..|trace| - 1], trace[|trace| - 1];
      var s := StateAfter(before, maxRuns, maxEvents);
      RunsOfLast(trace);
      SizeOfOneMore(RunsOf(before), RunsOf(trace), p.run);
      DegradedIffFailed(before, maxRuns, maxEvents);
      RunLast(trace, maxRuns, maxEvents);
      hide StateAfter, Publish, RunsOf, Listed;
      forall r ensures AnyFailed(trace, r) <==> AnyFailed(before, r) || (p.run == r && p.primary.Failed?) {
        AnyFailedLast(trace, r);
      }
      hide AnyFailed;
      if p.primary.Failed? {
        forall r | r in s.degraded ensures r in RunsOf(trace) {
          FailedRan(before, r);
        }
        MarkedWithin(s.degraded, p.run, maxRuns, RunsOf(trace));
        hide MarkDegraded;
      }
    }
  }

  /** While the runs fit the limit, marking one forgets none. */
  lemma MarkedWithin(degraded: seq<Id>, r: Id, limit: nat, runs: set<Id>)
    requires Distinct(degraded) && (forall q :: q in degraded ==> q in runs) && r in runs && |runs| <= limit
    ensures Distinct(MarkDegraded(degraded, r, limit))
    ensures forall q :: q in MarkDegraded(degraded, r, limit) <==> q in degraded || q == r
  {
    var order := Without(degraded, r) + [r];
    WithoutFacts(degraded, r);
    DistinctAppend(Without(degraded, r), r);
    DistinctWithin(order, runs);
    assert PopOldest(order, limit) == order;
  }

  // ----- the two routes agree -----

  lemma AboveAll(events: seq<Event>, cursor: int)
    ensures forall e :: e in Above(events, cursor) <==> e in events && e.id > cursor
  {
  }

  lemma {:induction false} AboveSplit(a: seq<Event>, b: seq<Event>, cursor: int)
    ensures Above(a + b, cursor) == Above(a, cursor) + Above(b, cursor)
  {
    if a == [] {
      assert a + b == b;
    } else {
      assert (a + b)[1..] == a[1..] + b;
      AboveSplit(a[1..], b, cursor);
    }
  }

  lemma {:induction false} AboveNothing(events: seq<Event>, cursor: int)
    ensures Above(events, cursor) == [] <==> forall i :: 0 <= i < |events| ==> events[i].id <= cursor
  {
    if events != [] {
      AboveNothing(events[1..], cursor);
      assert forall i :: 0 < i < |events| ==> events[i] == events[1..][i - 1];
      if Above(events, cursor) == [] {
        forall i | 0 <= i < |events| ensures events[i].id <= cursor {
          if i > 0 { assert events[1..][i - 1].id <= cursor; }
        }
      }
    }
  }

  /** A truncated stream still answers a cursor exactly when everything it dropped is at or below the cursor. */
  lemma NewestAnswerCursor(events: seq<Event>, n: nat, cursor: int)
    requires Increasing(events) && n < |events|
    ensures Above(Last(events, n), cursor) == Above(events, cursor) <==> events[|events| - n - 1].id <= cursor
  {
    var k := |events| - n;
    var dropped := events[..k];
    assert events == dropped + events[k..];
    AboveSplit(dropped, events[k..], cursor);
    AboveNothing(dropped, cursor);
    assert dropped[k - 1] == events[k - 1];
  }

  /** The buffer has dropped an event above the cursor. */
  predicate DroppedAbove(events: seq<Event>, maxEvents: nat, cursor: int) {
    |events| > maxEvents && events[|events| - maxEvents - 1].id > cursor
  }

  /**
   * A replay started after a run's last event was published, whatever its primary attempts did: every published
   * event above the cursor exactly once and in order, unless the local copy had to drop some of them.
   */
  lemma RouteAgreement(trace: seq<Publication>, r: Id, cursor: int, maxRuns: nat, maxEvents: nat)
    requires |RunsOf(trace)| <= maxRuns && maxEvents >= 1
    requires Increasing(EventsOf(trace, r)) && EndsAtMostOnce(EventsOf(trace, r))
    ensures var events := EventsOf(trace, r);
            Replay(StateAfter(trace, maxRuns, maxEvents), r, cursor) == Above(events, cursor)
            <==> !AnyFailed(trace, r) || !DroppedAbove(events, maxEvents, cursor)
  {
    DegradedIffFailed(trace, maxRuns, maxEvents);
    hide StateAfter, EventsOf, ReachedOf, RunsOf, Fill, Above, AnyFailed, Increasing, EndsAtMostOnce, Last;
    if AnyFailed(trace, r) {
      FallbackIsFilled(trace, r, maxRuns, maxEvents);
      FillKeepsNewest(EventsOf(trace, r), Some(maxEvents));
      BufferAnswersCursor(EventsOf(trace, r), maxEvents, cursor);
    } else {
      PrimaryIsFilled(trace, r, maxRuns, maxEvents);
      NothingFailedAllReached(trace, r);
      FillKeepsNewest(EventsOf(trace, r), None);
    }
  }

  lemma BufferAnswersCursor(events: seq<Event>, maxEvents: nat, cursor: int)
    requires Increasing(events)
    ensures Above(Last(events, maxEvents), cursor) == Above(events, cursor)
            <==> !DroppedAbove(events, maxEvents, cursor)
  {
    if |events| > maxEvents {
      NewestAnswerCursor(events, maxEvents, cursor);
    }
  }

  lemma FillOne(events: seq<Event>, event: Event, maxEvents: Option<nat>)
    ensures Fill(events + [event], maxEvents) == Append(Fill(events, maxEvents), event, maxEvents)
    ensures Fill([], maxEvents) == FRESH
  {
    assert (events + [event])[..|events + [event]| - 1] == events;
  }

  class ResilientRunEventStore {
    const fallback: InMemoryRunEventStore
    const primary: InMemoryRunEventStore
    const maxRuns: nat
    const maxEvents: nat
    var degraded: seq<Id>

    ghost function State(): Resilient
      reads this, fallback, primary
    {
      Resilient(fallback.State(), primary.State(), degraded)
    }

    ghost predicate Valid()
      reads this, fallback, primary
    {
      && fallback != primary && fallback.Valid() && primary.Valid()
      && fallback.limits == Limits(Some(maxRuns), Some(maxEvents)) && primary.limits == NO_LIMITS
    }

    constructor (maxRuns: nat, maxEvents: nat)
      ensures Valid() && fresh(fallback) && fresh(primary)
      ensures this.maxRuns == maxRuns && this.maxEvents == maxEvents
      ensures State() == StateAfter([], maxRuns, maxEvents)
    {
      this.maxRuns, this.maxEvents, degraded := maxRuns, maxEvents, [];
      fallback := new InMemoryRunEventStore(Limits(Some(maxRuns), Some(maxEvents)));
      primary := new InMemoryRunEventStore(NO_LIMITS);
    }

    method PublishEvent(p: Publication)
      requires Valid()
      modifies this`degraded, fallback, primary
      ensures Valid() && State() == PublishResilient(old(State()), p, maxRuns, maxEvents)
    {
      fallback.PublishEvent(p.run, p.event);
      if p.primary != Failed(false) {
        primary.PublishEvent(p.run, p.event);
      }
      if p.primary.Failed? {
        var order := Without(degraded, p.run) + [p.run];
        ghost var marked := PopOldest(order, maxRuns);
        while |order| > maxRuns
          invariant PopOldest(order, maxRuns) == marked
        {
          order := order[1..];
        }
        degraded := order;
      }
    }
  }
}
