/**
 * A reader of the fail-open store. It chooses its route once, when it attaches: the local copy of a run that is
 * degraded by then, else the primary stream. Publications go on while it reads, each with its own primary outcome.
 */
module RouteReader {
  import opened Records
  import opened RunEvents
  import opened EventStore
  import opened StreamReader

  /** All publications there will be, and one reader: its run, when it attaches and from which cursor. */
  datatype Setting = Setting(trace: seq<Publication>, r: Id, maxRuns: nat, maxEvents: nat, attachedAt: nat, start: int)

  ghost predicate Fits(w: Setting) {
    && |RunsOf(w.trace)| <= w.maxRuns && w.maxEvents >= 1 && w.attachedAt <= |w.trace|
    && Increasing(EventsOf(w.trace, w.r)) && EndsAtMostOnce(EventsOf(w.trace, w.r))
  }

  /** The run's events among the first n publications. */
  function Published(w: Setting, n: nat): seq<Event>
    requires n <= |w.trace|
  {
    EventsOf(w.trace[..n], w.r)
  }

  ghost function Store(w: Setting, n: nat): Resilient
    requires n <= |w.trace|
  {
    StateAfter(w.trace[..n], w.maxRuns, w.maxEvents)
  }

  /** The route is the local copy if the run is degraded when the reader attaches. */
  ghost predicate IsLocal(w: Setting)
    requires w.attachedAt <= |w.trace|
  {
    w.r in Store(w, w.attachedAt).degraded
  }

  /** The stream the reader looks at, after n publications. */
  ghost function View(w: Setting, n: nat): Stream
    requires w.attachedAt <= |w.trace| && n <= |w.trace|
  {
    Copy(if IsLocal(w) then Store(w, n).fallback else Store(w, n).primary, w.r)
  }

  // ----- the reader's steps -----

  /** The publications made so far, and the reader on its stream. */
  datatype Follower = Follower(n: nat, reader: System)

  datatype Move = PublishNext | Read(step: Step)

  ghost predicate CanMove(w: Setting, f: Follower, move: Move) {
    match move
    case PublishNext => f.n < |w.trace|
    case Read(step) => !step.PublishStep? && Enabled(f.reader, step)
  }

  ghost function Moved(w: Setting, f: Follower, move: Move): Follower
    requires w.attachedAt <= |w.trace| && CanMove(w, f, move)
  {
    match move
    case PublishNext => Follower(f.n + 1, f.reader.(stream := View(w, f.n + 1)))
    case Read(step) => f.(reader := Apply(f.reader, step))
  }

  ghost function JustAttached(w: Setting): Follower
    requires w.attachedAt <= |w.trace|
  {
    Follower(w.attachedAt, System(View(w, w.attachedAt), w.start, Waiting, []))
  }

  /** The state after a schedule of moves, if each of them is possible when it is made. */
  ghost function Followed(w: Setting, moves: seq<Move>): Option<Follower>
    requires w.attachedAt <= |w.trace|
  {
    if moves == [] then Some(JustAttached(w))
    else
      var before := Followed(w, moves[..|moves| - 1]);
      if before.Some? && CanMove(w, before.value, moves[|moves| - 1])
      then Some(Moved(w, before.value, moves[|moves| - 1])) else None
  }

  /** What the reader has yielded, and what it is about to yield. */
  function Promised(f: Follower): seq<Event> {
    f.reader.delivered + if f.reader.phase.Delivering? then f.reader.phase.pending else []
  }

  // ----- overtaken readers -----

  /** A publication of the run above the cursor that never reached the primary. */
  ghost predicate LostAbove(trace: seq<Publication>, r: Id, cursor: int) {
    exists i: nat :: IsLost(trace, r, cursor, i)
  }

  predicate IsLost(trace: seq<Publication>, r: Id, cursor: int, i: nat) {
    i < |trace| && trace[i].run == r && !Reaches(trace[i].primary) && trace[i].event.id > cursor
  }

  /** One of the run's publications reached the primary after another above the cursor did not. */
  ghost predicate SkippedAbove(trace: seq<Publication>, r: Id, cursor: int) {
    exists j: nat :: j < |trace| && trace[j].run == r && Reaches(trace[j].primary) && LostAbove(trace[..j], r, cursor)
  }

  /** Looking at its stream now, the reader would step over a published event. */
  ghost predicate Overtaken(w: Setting, n: nat, cursor: int)
    requires w.attachedAt <= |w.trace| && n <= |w.trace|
  {
    if IsLocal(w) then DroppedAbove(Published(w, n), w.maxEvents, cursor)
    else SkippedAbove(w.trace[..n], w.r, cursor)
  }

  /** Some time in the schedule the reader woke up overtaken. */
  ghost predicate EverOvertaken(w: Setting, moves: seq<Move>)
    requires w.attachedAt <= |w.trace| && Followed(w, moves).Some?
    decreases |moves|
  {
    moves != [] &&
    var before := moves[..|moves| - 1];
    (EverOvertaken(w, before) ||
     (moves[|moves| - 1] == Read(Wake) && var f := Followed(w, before).value;
      f.n <= |w.trace| && Overtaken(w, f.n, f.reader.cursor)))
  }

  // ----- the two views -----

  lemma {:induction false} EventsOfPrefix(trace: seq<Publication>, r: Id, n: nat)
    requires n <= |trace|
    ensures EventsOf(trace[..n], r) <= EventsOf(trace, r)
    decreases |trace|
  {
    if n == |trace| {
      assert trace[..n] == trace;
    } else {
      var before := trace[..|trace| - 1];
      EventsOfPrefix(before, r, n);
      assert before[..n] == trace[..n];
      EventsOfLast(trace, r);
      hide EventsOf;
    }
  }

  lemma RunsOfPrefix(trace: seq<Publication>, n: nat, maxRuns: nat)
    requires n <= |trace| && |RunsOf(trace)| <= maxRuns
    ensures |RunsOf(trace[..n])| <= maxRuns
  {
    forall q | q in RunsOf(trace[..n]) ensures q in RunsOf(trace) {
      var i :| 0 <= i < n && trace[..n][i].run == q;
      assert trace[i].run == q;
    }
    var small, large := RunsOf(trace[..n]), RunsOf(trace);
    assert large == small + (large - small);
  }

  /** At every moment the run has published an increasing sequence that ends at most once. */
  lemma PublishedIsARun(w: Setting, n: nat)
    requires Fits(w) && n <= |w.trace|
    ensures Published(w, n) <= EventsOf(w.trace, w.r)
    ensures Increasing(Published(w, n)) && EndsAtMostOnce(Published(w, n))
  {
    EventsOfPrefix(w.trace, w.r, n);
    hide EventsOf;
  }

  predicate Ended(events: seq<Event>) {
    events != [] && events[|events| - 1].body.RunEnd?
  }

  lemma EventsNext(trace: seq<Publication>, r: Id, n: nat)
    requires n < |trace|
    ensures var p, events := trace[n], EventsOf(trace[..n], r);
            EventsOf(trace[..n + 1], r) == if p.run == r then events + [p.event] else events
  {
    var some := trace[..n + 1];
    EventsOfLast(some, r);
    assert some[..n] == trace[..n];
  }

  lemma PublishedNext(w: Setting, n: nat)
    requires Fits(w) && n < |w.trace|
    ensures var p := w.trace[n];
            Published(w, n + 1) == if p.run == w.r then Published(w, n) + [p.event] else Published(w, n)
    ensures w.trace[n].run == w.r ==>
      !Ended(Published(w, n)) && forall e :: e in Published(w, n) ==> e.id < w.trace[n].event.id
  {
    EventsNext(w.trace, w.r, n);
    PublishedIsARun(w, n + 1);
    if w.trace[n].run == w.r {
      OneMoreIsLater(Published(w, n), w.trace[n].event);
    }
  }

  lemma OneMoreIsLater(events: seq<Event>, event: Event)
    requires Increasing(events + [event]) && EndsAtMostOnce(events + [event])
    ensures Increasing(events) && EndsAtMostOnce(events)
    ensures !Ended(events) && forall e :: e in events ==> e.id < event.id
  {
    var all := events + [event];
    assert forall i :: 0 <= i < |events| ==> all[i] == events[i];
    assert all[|events|] == event;
  }

  lemma LocalView(w: Setting, n: nat)
    requires Fits(w) && n <= |w.trace| && IsLocal(w)
    ensures View(w, n) == Stream(Last(Published(w, n), w.maxEvents), Ended(Published(w, n)))
  {
    PublishedIsARun(w, n);
    RunsOfPrefix(w.trace, n, w.maxRuns);
    FallbackIsFilled(w.trace[..n], w.r, w.maxRuns, w.maxEvents);
    FillKeepsNewest(Published(w, n), Some(w.maxEvents));
    hide StateAfter, EventsOf, Fill, Last;
  }

  lemma PrimaryView(w: Setting, n: nat)
    requires Fits(w) && n <= |w.trace| && !IsLocal(w)
    ensures var reached := ReachedOf(w.trace[..n], w.r); View(w, n) == Stream(reached, Ended(reached))
  {
    PublishedIsARun(w, n);
    ReachedIsPart(w.trace[..n], w.r);
    PrimaryIsFilled(w.trace[..n], w.r, w.maxRuns, w.maxEvents);
    FillKeepsNewest(ReachedOf(w.trace[..n], w.r), None);
    hide StateAfter, EventsOf, ReachedOf, Fill;
  }

  /** What reached the primary is part of what was published, in the same order. */
  lemma {:induction false} ReachedIsPart(trace: seq<Publication>, r: Id)
    requires Increasing(EventsOf(trace, r)) && EndsAtMostOnce(EventsOf(trace, r))
    ensures Increasing(ReachedOf(trace, r)) && EndsAtMostOnce(ReachedOf(trace, r))
    ensures forall e :: e in ReachedOf(trace, r) ==> e in EventsOf(trace, r)
  {
    if trace != [] {
      var before, p := trace[..|trace| - 1], trace[|trace| - 1];
      EventsOfLast(trace, r);
      ReachedOfLast(trace, r);
      hide EventsOf, ReachedOf;
      if p.run == r { OneMoreIsLater(EventsOf(before, r), p.event); }
      ReachedIsPart(before, r);
      if p.run == r {
        NoEndAmong(EventsOf(before, r), ReachedOf(before, r));
      }
    }
  }

  lemma NoEndAmong(events: seq<Event>, some: seq<Event>)
    requires EndsAtMostOnce(events) && !Ended(events) && forall e :: e in some ==> e in events
    ensures forall i :: 0 <= i < |some| ==> !some[i].body.RunEnd?
  {
    forall i | 0 <= i < |some| ensures !some[i].body.RunEnd? {
      assert some[i] in events;
    }
  }

  // ----- what a look at the stream shows -----

  /** The sequences differ at a place both of them have. */
  ghost predicate Differ(a: seq<Event>, b: seq<Event>) {
    exists k: nat :: k < |a| && k < |b| && a[k] != b[k]
  }

  lemma DifferStays(a: seq<Event>, b: seq<Event>, a': seq<Event>, b': seq<Event>)
    requires Differ(a, b) && a <= a' && b <= b'
    ensures Differ(a', b')
  {
  }

  lemma DifferAfter(head: seq<Event>, a: seq<Event>, b: seq<Event>)
    requires Differ(a, b)
    ensures Differ(head + a, head + b)
  {
    var k: nat :| k < |a| && k < |b| && a[k] != b[k];
    assert (head + a)[|head| + k] == a[k] && (head + b)[|head| + k] == b[k];
  }

  /** A truncated buffer shows everything above the cursor, or differs from it at once. */
  lemma LookAtBuffer(events: seq<Event>, maxEvents: nat, cursor: int)
    requires Increasing(events) && maxEvents >= 1
    ensures if DroppedAbove(events, maxEvents, cursor)
            then Differ(Above(Last(events, maxEvents), cursor), Above(events, cursor))
            else Above(Last(events, maxEvents), cursor) == Above(events, cursor)
  {
    hide Above, Increasing, Differ;
    if |events| > maxEvents {
      var k := |events| - maxEvents;
      NewestAnswerCursor(events, maxEvents, cursor);
      if events[k - 1].id > cursor {
        CutDiffers(events, k, cursor);
      }
    }
  }

  lemma CutDiffers(events: seq<Event>, k: nat, cursor: int)
    requires Increasing(events) && 0 < k < |events| && events[k - 1].id > cursor
    ensures Differ(Above(events[k..], cursor), Above(events, cursor))
  {
    hide Above, Increasing, Differ;
    CutFacts(events, k, cursor);
    assert events == events[..k] + events[k..];
    DroppedDiffers(events[..k], events[k..], cursor);
  }

  lemma CutFacts(events: seq<Event>, k: nat, cursor: int)
    requires Increasing(events) && 0 < k < |events| && events[k - 1].id > cursor
    ensures Above(events[..k], cursor) != []
    ensures forall i :: 0 <= i < |events[k..]| ==> events[k..][i].id > cursor
    ensures forall i, j :: 0 <= i < |events[..k]| && 0 <= j < |events[k..]| ==> events[..k][i].id < events[k..][j].id
  {
    AboveNothing(events[..k], cursor);
    hide Above;
    assert events[..k][k - 1] == events[k - 1];
  }

  lemma DroppedDiffers(dropped: seq<Event>, kept: seq<Event>, cursor: int)
    requires kept != [] && Above(dropped, cursor) != [] && forall i :: 0 <= i < |kept| ==> kept[i].id > cursor
    requires forall i, j :: 0 <= i < |dropped| && 0 <= j < |kept| ==> dropped[i].id < kept[j].id
    ensures Differ(Above(kept, cursor), Above(dropped + kept, cursor))
  {
    AboveSplit(dropped, kept, cursor);
    AboveAll(dropped, cursor);
    AboveStart(kept, cursor);
    var first := Above(dropped, cursor)[0];
    assert first in Above(dropped, cursor);
    hide Above;
    assert first in dropped && first.id < kept[0].id;
    assert Above(dropped + kept, cursor)[0] == first && Above(kept, cursor)[0] == kept[0];
  }

  lemma {:induction false} AboveStart(events: seq<Event>, cursor: int)
    requires forall i :: 0 <= i < |events| ==> events[i].id > cursor
    ensures Above(events, cursor) == events
  {
    if events != [] {
      AboveStart(events[1..], cursor);
    }
  }

  lemma LostOneMore(trace: seq<Publication>, r: Id, cursor: int)
    requires trace != []
    ensures LostAbove(trace, r, cursor) <==>
      LostAbove(trace[..|trace| - 1], r, cursor) || IsLost(trace, r, cursor, |trace| - 1)
  {
    var n := |trace| - 1;
    if LostAbove(trace, r, cursor) {
      var i: nat :| IsLost(trace, r, cursor, i);
      assert i < n ==> IsLost(trace[..n], r, cursor, i);
    }
    if LostAbove(trace[..n], r, cursor) {
      var i: nat :| IsLost(trace[..n], r, cursor, i);
      assert IsLost(trace, r, cursor, i);
    }
  }

  lemma SkippedOneMore(trace: seq<Publication>, r: Id, cursor: int)
    requires trace != []
    ensures var before, p := trace[..|trace| - 1], trace[|trace| - 1];
            SkippedAbove(trace, r, cursor) <==>
            SkippedAbove(before, r, cursor) || (p.run == r && Reaches(p.primary) && LostAbove(before, r, cursor))
  {
    var n := |trace| - 1;
    hide LostAbove, Reaches;
    assert forall j: nat :: j < n ==> trace[..n][..j] == trace[..j];
    assert forall j: nat :: j < n ==> trace[..n][j] == trace[j];
  }

  /** A primary stream shows all, a part, or something else than what was published above the cursor. */
  lemma {:induction false} LookAtPrimary(trace: seq<Publication>, r: Id, cursor: int)
    requires Increasing(EventsOf(trace, r)) && EndsAtMostOnce(EventsOf(trace, r))
    ensures var reached, all := Above(ReachedOf(trace, r), cursor), Above(EventsOf(trace, r), cursor);
            if !LostAbove(trace, r, cursor) then reached == all && !SkippedAbove(trace, r, cursor)
            else if !SkippedAbove(trace, r, cursor) then reached <= all && |reached| < |all|
            else Differ(reached, all)
  {
    if trace != [] {
      var before, p := trace[..|trace| - 1], trace[|trace| - 1];
      EventsOfLast(trace, r);
      ReachedOfLast(trace, r);
      LostOneMore(trace, r, cursor);
      SkippedOneMore(trace, r, cursor);
      hide EventsOf, ReachedOf, LostAbove, SkippedAbove;
      if p.run == r { OneMoreIsLater(EventsOf(before, r), p.event); }
      LookAtPrimary(before, r, cursor);
      if p.run == r {
        AboveOneMore(EventsOf(before, r), p.event, cursor);
        AboveOneMore(ReachedOf(before, r), p.event, cursor);
        var reached, all := Above(ReachedOf(before, r), cursor), Above(EventsOf(before, r), cursor);
        assert reached + [] == reached && all + [] == all;
        LookAgain(reached, all, p.event, EventsOf(before, r), cursor);
      }
    }
  }

  /** One more event on both sides, or on the published side only. */
  lemma LookAgain(reached: seq<Event>, all: seq<Event>, event: Event, events: seq<Event>, cursor: int)
    requires all == Above(events, cursor) && forall e :: e in events ==> e.id < event.id
    ensures reached <= all && |reached| < |all| ==> event.id > cursor && Differ(reached + [event], all + [event])
    ensures Differ(reached, all) ==> Differ(reached + [event], all + [event]) && Differ(reached, all + [event])
  {
    AboveAll(events, cursor);
    if reached <= all && |reached| < |all| {
      var next := all[|reached|];
      assert next in all;
      assert (reached + [event])[|reached|] == event && (all + [event])[|reached|] == next;
    }
    if Differ(reached, all) {
      DifferStays(reached, all, reached + [event], all + [event]);
      DifferStays(reached, all, reached, all + [event]);
    }
  }

  /** A look at either view: everything above the cursor if the run's end is in view, else a part, unless overtaken. */
  lemma Look(w: Setting, n: nat, cursor: int)
    requires Fits(w) && n <= |w.trace|
    ensures var seen, all := Above(View(w, n).events, cursor), Above(Published(w, n), cursor);
            if Overtaken(w, n, cursor) then Differ(seen, all)
            else seen <= all && (View(w, n).terminal ==> seen == all && Ended(Published(w, n)))
  {
    PublishedIsARun(w, n);
    if IsLocal(w) {
      LocalView(w, n);
      hide View, IsLocal, Last, Above, DroppedAbove, Published;
      LookAtBuffer(Published(w, n), w.maxEvents, cursor);
    } else {
      PrimaryView(w, n);
      hide View, IsLocal, Above, SkippedAbove, LostAbove;
      LookAtPrimary(w.trace[..n], w.r, cursor);
      EndIsReachedLast(w.trace[..n], w.r, cursor);
    }
  }

  /** If the run_end reached the primary, nothing was lost unless something was skipped. */
  lemma {:induction false} EndIsReachedLast(trace: seq<Publication>, r: Id, cursor: int)
    requires Increasing(EventsOf(trace, r)) && EndsAtMostOnce(EventsOf(trace, r))
    ensures Ended(ReachedOf(trace, r)) ==> Ended(EventsOf(trace, r))
    ensures Ended(ReachedOf(trace, r)) && LostAbove(trace, r, cursor) ==> SkippedAbove(trace, r, cursor)
  {
    if trace != [] {
      var before, p := trace[..|trace| - 1], trace[|trace| - 1];
      EventsOfLast(trace, r);
      ReachedOfLast(trace, r);
      LostOneMore(trace, r, cursor);
      SkippedOneMore(trace, r, cursor);
      hide EventsOf, ReachedOf, LostAbove, SkippedAbove;
      if p.run == r { OneMoreIsLater(EventsOf(before, r), p.event); }
      EndIsReachedLast(before, r, cursor);
    }
  }

  // ----- a reader that is not overtaken reads the whole stream -----

  /** The same reader on a stream that holds everything published so far. */
  function Whole(w: Setting, f: Follower): System
    requires f.n <= |w.trace|
  {
    f.reader.(stream := Stream(Published(w, f.n), Ended(Published(w, f.n))))
  }

  lemma AppendKeepsReader(reader: System, events: seq<Event>, event: Event, start: int)
    requires ReaderInv(reader.(stream := Stream(events, Ended(events))), start) && !Ended(events)
    requires forall e :: e in events ==> e.id < event.id
    ensures ReaderInv(reader.(stream := Stream(events + [event], Ended(events + [event]))), start)
  {
    hide ReaderInv;
    PublishKeepsReaderInv(reader.(stream := Stream(events, Ended(events))), event, start);
  }

  lemma PublishKeepsWhole(w: Setting, f: Follower)
    requires Fits(w) && f.n < |w.trace| && ReaderInv(Whole(w, f), w.start)
    ensures ReaderInv(Whole(w, Moved(w, f, PublishNext)), w.start)
  {
    hide View, Published, ReaderInv, Ended, Increasing, EndsAtMostOnce, EventsOf, RunsOf;
    PublishedNext(w, f.n);
    if w.trace[f.n].run == w.r {
      AppendKeepsReader(f.reader, Published(w, f.n), w.trace[f.n].event, w.start);
    }
  }

  lemma WakeKeepsWhole(w: Setting, f: Follower)
    requires Fits(w) && f.n <= |w.trace| && ReaderInv(Whole(w, f), w.start) && f.reader.stream == View(w, f.n)
    requires CanMove(w, f, Read(Wake)) && !Overtaken(w, f.n, f.reader.cursor)
    ensures ReaderInv(Whole(w, Moved(w, f, Read(Wake))), w.start)
  {
    Look(w, f.n, f.reader.cursor);
    hide View, Published, Above, Overtaken;
  }

  lemma ReadKeepsWhole(w: Setting, f: Follower, step: Step)
    requires f.n <= |w.trace| && w.attachedAt <= |w.trace| && ReaderInv(Whole(w, f), w.start)
    requires (step == Yield || step == Again) && CanMove(w, f, Read(step))
    ensures ReaderInv(Whole(w, Moved(w, f, Read(step))), w.start)
  {
    StepKeepsReaderInv(Whole(w, f), step, w.start);
    hide ReaderInv, Published;
    assert Whole(w, Moved(w, f, Read(step))) == Apply(Whole(w, f), step);
  }

  lemma {:induction false} FollowedView(w: Setting, moves: seq<Move>)
    requires w.attachedAt <= |w.trace| && Followed(w, moves).Some?
    ensures var f := Followed(w, moves).value;
            w.attachedAt <= f.n <= |w.trace| && f.reader.stream == View(w, f.n)
  {
    if moves != [] {
      FollowedView(w, moves[..|moves| - 1]);
      MoveKeepsView(w, Followed(w, moves[..|moves| - 1]).value, moves[|moves| - 1]);
      hide View, Moved, CanMove;
    }
  }

  lemma MoveKeepsView(w: Setting, f: Follower, move: Move)
    requires w.attachedAt <= f.n <= |w.trace| && f.reader.stream == View(w, f.n) && CanMove(w, f, move)
    ensures var f' := Moved(w, f, move); w.attachedAt <= f'.n <= |w.trace| && f'.reader.stream == View(w, f'.n)
  {
    hide View;
  }

  lemma MoveKeepsWhole(w: Setting, f: Follower, move: Move)
    requires Fits(w) && f.n <= |w.trace| && f.reader.stream == View(w, f.n) && ReaderInv(Whole(w, f), w.start)
    requires CanMove(w, f, move) && (move == Read(Wake) ==> !Overtaken(w, f.n, f.reader.cursor))
    ensures Moved(w, f, move).n <= |w.trace| && ReaderInv(Whole(w, Moved(w, f, move)), w.start)
  {
    hide ReaderInv, Overtaken, View;
    match move
    case PublishNext => PublishKeepsWhole(w, f);
    case Read(step) => if step == Wake { WakeKeepsWhole(w, f); } else { ReadKeepsWhole(w, f, step); }
  }

  lemma AttachedIsWhole(w: Setting)
    requires Fits(w)
    ensures ReaderInv(Whole(w, JustAttached(w)), w.start)
  {
    PublishedIsARun(w, w.attachedAt);
    hide View, Published, Above, EventsOf;
  }

  // ----- a reader that was overtaken never recovers -----

  lemma WakeDiffers(w: Setting, f: Follower)
    requires Fits(w) && f.n <= |w.trace| && ReaderInv(Whole(w, f), w.start) && f.reader.stream == View(w, f.n)
    requires CanMove(w, f, Read(Wake)) && Overtaken(w, f.n, f.reader.cursor)
    ensures Differ(Promised(Moved(w, f, Read(Wake))), Above(Published(w, f.n), w.start))
  {
    Look(w, f.n, f.reader.cursor);
    hide View, Published, Above, Overtaken, Differ;
    DifferAfter(f.reader.delivered, Above(View(w, f.n).events, f.reader.cursor),
                Above(Published(w, f.n), f.reader.cursor));
  }

  lemma PublishedGrows(w: Setting, n: nat)
    requires Fits(w) && n < |w.trace|
    ensures Above(Published(w, n), w.start) <= Above(Published(w, n + 1), w.start)
  {
    PublishedNext(w, n);
    hide Published, Above, Fits, Ended;
    AboveOneMore(Published(w, n), w.trace[n].event, w.start);
  }

  lemma ReadGrows(reader: System, step: Step)
    requires !step.PublishStep? && Enabled(reader, step)
    ensures Promised(Follower(0, reader)) <= Promised(Follower(0, Apply(reader, step)))
  {
    hide Above;
  }

  /** What was promised is kept, and what was published stays published. */
  lemma MoveGrows(w: Setting, f: Follower, move: Move)
    requires Fits(w) && f.n <= |w.trace| && CanMove(w, f, move)
    ensures Moved(w, f, move).n <= |w.trace|
    ensures Promised(f) <= Promised(Moved(w, f, move))
    ensures Above(Published(w, f.n), w.start) <= Above(Published(w, Moved(w, f, move).n), w.start)
  {
    hide View, Published, Above, Enabled, Apply, Fits;
    match move
    case PublishNext => PublishedGrows(w, f.n);
    case Read(step) => ReadGrows(f.reader, step);
  }

  /**
   * On either route, in every interleaving with publications and their failures: what the reader has yielded and is
   * about to yield is a prefix of the events published above its cursor if and only if it never woke up overtaken.
   */
  lemma {:induction false} PromiseIsPrefixIff(w: Setting, moves: seq<Move>)
    requires Fits(w) && Followed(w, moves).Some?
    ensures var f := Followed(w, moves).value;
            && f.n <= |w.trace|
            && (EverOvertaken(w, moves) ==> Differ(Promised(f), Above(Published(w, f.n), w.start)))
            && (!EverOvertaken(w, moves) ==> ReaderInv(Whole(w, f), w.start))
            && (Promised(f) <= Above(Published(w, f.n), w.start) <==> !EverOvertaken(w, moves))
  {
    hide ReaderInv, Overtaken, View, Published, Above, Promised;
    if moves == [] {
      AttachedIsWhole(w);
      WholePromise(w, JustAttached(w));
    } else {
      var before, move := moves[..|moves| - 1], moves[|moves| - 1];
      var f := Followed(w, before).value;
      PromiseIsPrefixIff(w, before);
      FollowedView(w, before);
      MoveGrows(w, f, move);
      if EverOvertaken(w, before) {
        DifferStays(Promised(f), Above(Published(w, f.n), w.start),
                    Promised(Moved(w, f, move)), Above(Published(w, Moved(w, f, move).n), w.start));
      } else if move == Read(Wake) && Overtaken(w, f.n, f.reader.cursor) {
        WakeDiffers(w, f);
      } else {
        MoveKeepsWhole(w, f, move);
        WholePromise(w, Moved(w, f, move));
      }
    }
  }

  lemma WholePromise(w: Setting, f: Follower)
    requires f.n <= |w.trace| && ReaderInv(Whole(w, f), w.start)
    ensures Promised(f) <= Above(Published(w, f.n), w.start)
  {
    hide Published, Above;
  }

  /**
   * A reader that has returned delivered exactly the published events above its cursor, the run_end among them, if
   * and only if it was never overtaken.
   */
  lemma ReturnedIsCompleteIff(w: Setting, moves: seq<Move>)
    requires Fits(w) && Followed(w, moves).Some? && Followed(w, moves).value.reader.phase.Returned?
    ensures var f := Followed(w, moves).value;
            && f.n <= |w.trace|
            && (f.reader.delivered == Above(Published(w, f.n), w.start) <==> !EverOvertaken(w, moves))
            && (!EverOvertaken(w, moves) ==> Ended(Published(w, f.n)))
  {
    PromiseIsPrefixIff(w, moves);
    hide Published, Above, EverOvertaken, Followed;
  }

  // ----- what holds of any reader, overtaken or not -----

  /** What the reader's route has shown so far. */
  ghost function Known(w: Setting, n: nat): seq<Event>
    requires w.attachedAt <= |w.trace| && n <= |w.trace|
  {
    if IsLocal(w) then Published(w, n) else ReachedOf(w.trace[..n], w.r)
  }

  lemma KnownFacts(w: Setting, n: nat)
    requires Fits(w) && n <= |w.trace|
    ensures Increasing(View(w, n).events) && (forall e :: e in View(w, n).events ==> e in Known(w, n))
    ensures View(w, n).terminal <==> Ended(Known(w, n))
    ensures forall e :: e in Known(w, n) ==> e in Published(w, n)
    ensures Ended(Known(w, n)) ==> Ended(Published(w, n))
  {
    PublishedIsARun(w, n);
    if IsLocal(w) {
      LocalView(w, n);
      hide View, IsLocal, Published;
    } else {
      PrimaryView(w, n);
      ReachedIsPart(w.trace[..n], w.r);
      EndIsReachedLast(w.trace[..n], w.r, 0);
      hide View, IsLocal, Published;
    }
  }

  lemma ReachedNext(trace: seq<Publication>, r: Id, n: nat)
    requires n < |trace|
    ensures var p, reached := trace[n], ReachedOf(trace[..n], r);
            ReachedOf(trace[..n + 1], r) == if p.run == r && Reaches(p.primary) then reached + [p.event] else reached
  {
    var some := trace[..n + 1];
    ReachedOfLast(some, r);
    assert some[..n] == trace[..n];
  }

  lemma KnownGrows(w: Setting, n: nat)
    requires Fits(w) && n < |w.trace|
    ensures forall e :: e in Known(w, n) ==> e in Known(w, n + 1)
    ensures Ended(Known(w, n)) ==> Known(w, n + 1) == Known(w, n)
  {
    KnownFacts(w, n);
    PublishedNext(w, n);
    ReachedNext(w.trace, w.r, n);
    hide View, IsLocal, Ended, Published, ReachedOf;
  }

  /** Everything promised is among the known events, in increasing order above the first cursor. */
  ghost predicate HonestReader(reader: System, start: int, known: seq<Event>) {
    && Increasing(reader.delivered) && start <= reader.cursor
    && (forall e :: e in reader.delivered ==> e in known && start < e.id <= reader.cursor)
    && (reader.phase.Delivering? ==> Increasing(reader.phase.pending))
    && (reader.phase.Delivering? ==> forall e :: e in reader.phase.pending ==> e in known && reader.cursor < e.id)
    && ((reader.phase.Delivering? && reader.phase.terminal) || reader.phase.Returned? ==> Ended(known))
  }

  ghost predicate Honest(w: Setting, f: Follower)
    requires w.attachedAt <= |w.trace| && f.n <= |w.trace|
  {
    HonestReader(f.reader, w.start, Known(w, f.n))
  }

  lemma {:induction false} AboveIncreasing(events: seq<Event>, cursor: int)
    requires Increasing(events)
    ensures Increasing(Above(events, cursor))
  {
    if events != [] {
      AboveIncreasing(events[1..], cursor);
      AboveAll(events[1..], cursor);
      var rest := Above(events[1..], cursor);
      forall i | 0 <= i < |rest| ensures events[0].id < rest[i].id {
        assert rest[i] in rest;
      }
      hide Above;
      FrontIncreasing(events[0], rest);
      assert Above(events, cursor) == if events[0].id > cursor then [events[0]] + rest else rest by {
        AboveFirst(events, cursor);
      }
    }
  }

  lemma AboveFirst(events: seq<Event>, cursor: int)
    requires events != []
    ensures Above(events, cursor) ==
      if events[0].id > cursor then [events[0]] + Above(events[1..], cursor) else Above(events[1..], cursor)
  {
  }

  lemma FrontIncreasing(first: Event, rest: seq<Event>)
    requires Increasing(rest) && forall i :: 0 <= i < |rest| ==> first.id < rest[i].id
    ensures Increasing([first] + rest)
  {
  }

  lemma WakeIsHonest(w: Setting, f: Follower)
    requires Fits(w) && f.n <= |w.trace| && Honest(w, f) && f.reader.stream == View(w, f.n)
    requires CanMove(w, f, Read(Wake))
    ensures Honest(w, Moved(w, f, Read(Wake)))
  {
    KnownFacts(w, f.n);
    AboveIncreasing(f.reader.stream.events, f.reader.cursor);
    AboveAll(f.reader.stream.events, f.reader.cursor);
    hide View, Known, Above, Fits, Increasing, Ended;
  }

  lemma YieldIsHonest(reader: System, start: int, known: seq<Event>)
    requires HonestReader(reader, start, known) && Enabled(reader, Yield)
    ensures HonestReader(Apply(reader, Yield), start, known)
  {
    var pending := reader.phase.pending;
    PendingIncreasing(pending);
    assert pending[0] in pending;
    hide Ended, Increasing;
    BackIncreasing(reader.delivered, pending[0]);
  }

  lemma PendingIncreasing(pending: seq<Event>)
    requires pending != [] && Increasing(pending)
    ensures Increasing(pending[1..]) && forall e :: e in pending[1..] ==> e in pending && pending[0].id < e.id
  {
    var rest := pending[1..];
    assert forall i :: 0 <= i < |rest| ==> rest[i] == pending[i + 1];
  }

  lemma MoreIsKnown(reader: System, reader': System, start: int, known: seq<Event>, known': seq<Event>)
    requires HonestReader(reader, start, known) && reader' == reader.(stream := reader'.stream)
    requires (forall e :: e in known ==> e in known') && (Ended(known) ==> Ended(known'))
    ensures HonestReader(reader', start, known')
  {
    hide Increasing, Ended;
  }

  lemma PublishIsHonest(w: Setting, f: Follower)
    requires Fits(w) && f.n < |w.trace| && Honest(w, f)
    ensures Honest(w, Moved(w, f, PublishNext))
  {
    KnownGrows(w, f.n);
    hide View, Known, Fits, HonestReader;
    MoreIsKnown(f.reader, Moved(w, f, PublishNext).reader, w.start, Known(w, f.n), Known(w, f.n + 1));
  }

  lemma MoveIsHonest(w: Setting, f: Follower, move: Move)
    requires Fits(w) && f.n <= |w.trace| && Honest(w, f) && f.reader.stream == View(w, f.n) && CanMove(w, f, move)
    ensures Moved(w, f, move).n <= |w.trace| && Honest(w, Moved(w, f, move))
  {
    hide View, Known;
    match move
    case PublishNext => PublishIsHonest(w, f);
    case Read(step) =>
      match step
      case Wake => WakeIsHonest(w, f);
      case Yield => YieldIsHonest(f.reader, w.start, Known(w, f.n));
      case Again =>
  }

  lemma {:induction false} FollowersAreHonest(w: Setting, moves: seq<Move>)
    requires Fits(w) && Followed(w, moves).Some?
    ensures Followed(w, moves).value.n <= |w.trace| && Honest(w, Followed(w, moves).value)
  {
    FollowedView(w, moves);
    if moves != [] {
      var before, move := moves[..|moves| - 1], moves[|moves| - 1];
      var f := Followed(w, before).value;
      FollowersAreHonest(w, before);
      FollowedView(w, before);
      MoveIsHonest(w, f, move);
      hide View, Honest, Moved, CanMove;
    }
  }

  /** Whatever was lost or dropped, a reader yields published events only, in order, with a run_end only at the end. */
  lemma DeliveredIsPublished(w: Setting, moves: seq<Move>)
    requires Fits(w) && Followed(w, moves).Some?
    ensures var delivered := Followed(w, moves).value.reader.delivered;
            && Increasing(delivered) && EndsAtMostOnce(delivered)
            && forall e :: e in delivered ==> e in EventsOf(w.trace, w.r) && e.id > w.start
  {
    FollowersAreHonest(w, moves);
    var f := Followed(w, moves).value;
    KnownFacts(w, f.n);
    PublishedIsARun(w, f.n);
    hide Followed, View, Known, Published, EventsOf;
    OneEndAmong(EventsOf(w.trace, w.r), f.reader.delivered);
  }

  lemma OneEndAmong(events: seq<Event>, some: seq<Event>)
    requires Increasing(events) && EndsAtMostOnce(events) && Increasing(some) && forall e :: e in some ==> e in events
    ensures EndsAtMostOnce(some)
  {
    forall i | 0 <= i < |some| - 1 ensures !some[i].body.RunEnd? {
      assert some[i] in events && some[i + 1] in events;
      var j :| 0 <= j < |events| && events[j] == some[i];
      var k :| 0 <= k < |events| && events[k] == some[i + 1];
      assert some[i].id < some[i + 1].id;
    }
  }

  // ----- when no schedule can overtake a reader -----

  /** A later cursor and an earlier moment are safer. */
  lemma OvertakenStays(w: Setting, m: nat, n: nat, cursor: int)
    requires Fits(w) && m <= n <= |w.trace| && w.start <= cursor && Overtaken(w, m, cursor)
    ensures Overtaken(w, n, w.start)
  {
    assert w.trace[..n][..m] == w.trace[..m];
    if IsLocal(w) {
      PublishedIsARun(w, n);
      EventsOfPrefix(w.trace[..n], w.r, m);
      DroppedStays(Published(w, m), Published(w, n), w.maxEvents, cursor, w.start);
    } else {
      SkippedStays(w.trace[..n], m, w.r, cursor, w.start);
    }
  }

  lemma DroppedStays(some: seq<Event>, all: seq<Event>, maxEvents: nat, cursor: int, start: int)
    requires some <= all && Increasing(all) && start <= cursor && DroppedAbove(some, maxEvents, cursor)
    ensures DroppedAbove(all, maxEvents, start)
  {
    var k := |some| - maxEvents - 1;
    assert all[k] == some[k] && all[k].id <= all[|all| - maxEvents - 1].id;
  }

  lemma SkippedStays(trace: seq<Publication>, m: nat, r: Id, cursor: int, start: int)
    requires m <= |trace| && start <= cursor && SkippedAbove(trace[..m], r, cursor)
    ensures SkippedAbove(trace, r, start)
  {
    var some := trace[..m];
    var j: nat :| j < m && some[j].run == r && Reaches(some[j].primary) && LostAbove(some[..j], r, cursor);
    var i: nat :| IsLost(some[..j], r, cursor, i);
    assert IsLost(trace[..j], r, start, i);
    assert trace[j] == some[j];
  }

  /** What the publications so far cannot do to any look from the first cursor on, no schedule can do to the reader. */
  lemma {:induction false} NeverOvertaken(w: Setting, moves: seq<Move>)
    requires Fits(w) && Followed(w, moves).Some? && Followed(w, moves).value.n <= |w.trace|
    requires !Overtaken(w, Followed(w, moves).value.n, w.start)
    ensures !EverOvertaken(w, moves)
  {
    if moves != [] {
      var before, move := moves[..|moves| - 1], moves[|moves| - 1];
      var f := Followed(w, before).value;
      FollowersAreHonest(w, before);
      hide Overtaken, View, Known;
      var n := Moved(w, f, move).n;
      assert f.n <= n;
      if Overtaken(w, f.n, w.start) { OvertakenStays(w, f.n, n, w.start); }
      NeverOvertaken(w, before);
      if Overtaken(w, f.n, f.reader.cursor) { OvertakenStays(w, f.n, n, f.reader.cursor); }
    }
  }

  /** All publications while the reader has not moved yet. */
  function Idle(k: nat): seq<Move> {
    if k == 0 then [] else Idle(k - 1) + [PublishNext]
  }

  lemma {:induction false} IdleReader(w: Setting, k: nat)
    requires w.attachedAt + k <= |w.trace|
    ensures Followed(w, Idle(k)) ==
      Some(Follower(w.attachedAt + k, System(View(w, w.attachedAt + k), w.start, Waiting, [])))
  {
    hide View;
    if k > 0 {
      IdleReader(w, k - 1);
      assert Idle(k)[..|Idle(k)| - 1] == Idle(k - 1);
    }
  }

  lemma SomethingToSee(w: Setting)
    requires Fits(w) && Overtaken(w, |w.trace|, w.start)
    ensures w.attachedAt <= |w.trace| && Enabled(System(View(w, |w.trace|), w.start, Waiting, []), Wake)
  {
    hide View, Overtaken, Published, Above;
    Look(w, |w.trace|, w.start);
  }

  ghost predicate SomeScheduleOvertakes(w: Setting)
    requires w.attachedAt <= |w.trace|
  {
    exists moves :: Followed(w, moves).Some? && EverOvertaken(w, moves)
  }

  lemma LateWakeIsOvertaken(w: Setting)
    requires Fits(w) && Overtaken(w, |w.trace|, w.start)
    ensures SomeScheduleOvertakes(w)
  {
    hide *;
    SomethingToSee(w);
    var k := |w.trace| - w.attachedAt;
    IdleReader(w, k);
    WakeOvertakes(w, Idle(k));
  }

  lemma WakeOvertakes(w: Setting, moves: seq<Move>)
    requires w.attachedAt <= |w.trace| && Followed(w, moves).Some?
    requires var f := Followed(w, moves).value;
             Enabled(f.reader, Wake) && f.n <= |w.trace| && Overtaken(w, f.n, f.reader.cursor)
    ensures SomeScheduleOvertakes(w)
  {
    var later := moves + [Read(Wake)];
    assert later[..|later| - 1] == moves;
    hide View, Overtaken, Enabled, Apply;
    assert Followed(w, later).Some? && EverOvertaken(w, later);
  }

  /** Some schedule overtakes the reader if and only if a look at the end, from its first cursor, would. */
  lemma SomeScheduleOvertakesIff(w: Setting)
    requires Fits(w)
    ensures SomeScheduleOvertakes(w) <==> Overtaken(w, |w.trace|, w.start)
  {
    hide Followed, Overtaken, EverOvertaken;
    if moves :| Followed(w, moves).Some? && EverOvertaken(w, moves) {
      FollowersAreHonest(w, moves);
      var n := Followed(w, moves).value.n;
      if !Overtaken(w, n, w.start) { NeverOvertaken(w, moves); }
      OvertakenStays(w, n, |w.trace|, w.start);
    }
    if Overtaken(w, |w.trace|, w.start) { LateWakeIsOvertaken(w); }
  }

  lemma {:induction false} LostIsMissing(trace: seq<Publication>, r: Id, cursor: int)
    requires Increasing(EventsOf(trace, r)) && EndsAtMostOnce(EventsOf(trace, r)) && LostAbove(trace, r, cursor)
    ensures exists e :: e in EventsOf(trace, r) && e.id > cursor && e !in ReachedOf(trace, r)
  {
    if trace != [] {
      var before, p := trace[..|trace| - 1], trace[|trace| - 1];
      EventsOfLast(trace, r);
      ReachedOfLast(trace, r);
      LostOneMore(trace, r, cursor);
      hide EventsOf, ReachedOf, LostAbove;
      if p.run == r { OneMoreIsLater(EventsOf(before, r), p.event); }
      ReachedIsPart(before, r);
      if LostAbove(before, r, cursor) {
        LostIsMissing(before, r, cursor);
        var e :| e in EventsOf(before, r) && e.id > cursor && e !in ReachedOf(before, r);
        assert e in EventsOf(trace, r) && e !in ReachedOf(trace, r);
      } else {
        assert p.event in EventsOf(trace, r) && p.event !in ReachedOf(trace, r);
      }
    }
  }

  /** A primary reader that has returned is complete if and only if nothing above its first cursor was lost. */
  lemma PrimaryReaderIsCompleteIff(w: Setting, moves: seq<Move>)
    requires Fits(w) && !IsLocal(w) && Followed(w, moves).Some? && Followed(w, moves).value.reader.phase.Returned?
    ensures var f := Followed(w, moves).value;
            && f.n <= |w.trace|
            && (f.reader.delivered == Above(Published(w, f.n), w.start) <==> !LostAbove(w.trace[..f.n], w.r, w.start))
  {
    ReturnedIsCompleteIff(w, moves);
    var f := Followed(w, moves).value;
    if LostAbove(w.trace[..f.n], w.r, w.start) {
      FollowersAreHonest(w, moves);
      PublishedIsARun(w, f.n);
      LostIsMissing(w.trace[..f.n], w.r, w.start);
      hide Followed, EverOvertaken, LostAbove, EventsOf, ReachedOf, IsLocal;
      var e :| e in Published(w, f.n) && e.id > w.start && e !in ReachedOf(w.trace[..f.n], w.r);
      AboveAll(Published(w, f.n), w.start);
      assert e !in f.reader.delivered;
    } else {
      NothingLostNothingSkipped(w.trace[..f.n], w.r, w.start);
      NeverOvertaken(w, moves);
    }
  }

  lemma NothingLostNothingSkipped(trace: seq<Publication>, r: Id, cursor: int)
    requires !LostAbove(trace, r, cursor)
    ensures !SkippedAbove(trace, r, cursor)
  {
    if SkippedAbove(trace, r, cursor) { SkippedIsLost(trace, r, cursor); }
  }

  lemma SkippedIsLost(trace: seq<Publication>, r: Id, cursor: int)
    requires SkippedAbove(trace, r, cursor)
    ensures LostAbove(trace, r, cursor)
  {
    var j: nat :| j < |trace| && trace[j].run == r && Reaches(trace[j].primary) && LostAbove(trace[..j], r, cursor);
    var i: nat :| IsLost(trace[..j], r, cursor, i);
    assert IsLost(trace, r, cursor, i);
  }

  /** A primary reader of a run whose run_end was lost has not returned, however long it waits. */
  lemma LostEndIsWaitedFor(w: Setting, moves: seq<Move>)
    requires Fits(w) && !IsLocal(w) && Followed(w, moves).Some? && !Ended(ReachedOf(w.trace, w.r))
    ensures !Followed(w, moves).value.reader.phase.Returned?
  {
    FollowersAreHonest(w, moves);
    var f := Followed(w, moves).value;
    if f.reader.phase.Returned? {
      EndStays(w, f.n);
    }
  }

  lemma {:induction false} EndStays(w: Setting, n: nat)
    requires Fits(w) && n <= |w.trace| && !IsLocal(w) && Ended(Known(w, n))
    ensures Ended(ReachedOf(w.trace, w.r))
    decreases |w.trace| - n
  {
    if n == |w.trace| {
      assert w.trace[..n] == w.trace;
    } else {
      KnownGrows(w, n);
      hide Known, IsLocal, Ended;
      EndStays(w, n + 1);
    }
  }

  // ----- a primary reader follows what reached the primary -----

  lemma PrimaryGrows(w: Setting, n: nat)
    requires Fits(w) && n < |w.trace| && !IsLocal(w)
    ensures var p, reached := w.trace[n], ReachedOf(w.trace[..n], w.r);
            var now := if p.run == w.r && Reaches(p.primary) then reached + [p.event] else reached;
            View(w, n) == Stream(reached, Ended(reached)) && View(w, n + 1) == Stream(now, Ended(now))
  {
    PrimaryView(w, n);
    PrimaryView(w, n + 1);
    ReachedNext(w.trace, w.r, n);
    hide *;
  }

  lemma NextIsLater(w: Setting, n: nat)
    requires Fits(w) && n < |w.trace| && w.trace[n].run == w.r
    ensures var reached := ReachedOf(w.trace[..n], w.r);
            !Ended(reached) && forall e :: e in reached ==> e.id < w.trace[n].event.id
  {
    PublishedNext(w, n);
    PublishedIsARun(w, n);
    ReachedIsPart(w.trace[..n], w.r);
    EndIsReachedLast(w.trace[..n], w.r, 0);
    hide EventsOf, ReachedOf, Ended, Fits;
  }

  lemma {:induction false} PrimaryReaderInv(w: Setting, moves: seq<Move>)
    requires Fits(w) && !IsLocal(w) && Followed(w, moves).Some?
    ensures ReaderInv(Followed(w, moves).value.reader, w.start)
  {
    if moves == [] {
      PrimaryAttaches(w);
      hide View, ReaderInv, Fits;
    } else {
      var before, move := moves[..|moves| - 1], moves[|moves| - 1];
      var f := Followed(w, before).value;
      FollowedView(w, before);
      PrimaryReaderInv(w, before);
      hide Followed, ReaderInv, View;
      PrimaryMoveKeepsInv(w, f, move);
    }
  }

  lemma PrimaryAttaches(w: Setting)
    requires Fits(w) && !IsLocal(w)
    ensures ReaderInv(JustAttached(w).reader, w.start)
  {
    PrimaryView(w, w.attachedAt);
    PublishedIsARun(w, w.attachedAt);
    ReachedIsPart(w.trace[..w.attachedAt], w.r);
    NewReader(View(w, w.attachedAt), w.start);
    hide *;
  }

  lemma NewReader(stream: Stream, start: int)
    requires Increasing(stream.events)
    ensures ReaderInv(System(stream, start, Waiting, []), start)
  {
    hide Increasing, Above;
  }

  lemma PrimaryMoveKeepsInv(w: Setting, f: Follower, move: Move)
    requires Fits(w) && !IsLocal(w) && f.n <= |w.trace| && f.reader.stream == View(w, f.n) && CanMove(w, f, move)
    requires ReaderInv(f.reader, w.start)
    ensures ReaderInv(Moved(w, f, move).reader, w.start)
  {
    hide View, ReaderInv, ReachedOf, Ended, IsLocal;
    match move
    case PublishNext =>
      PrimaryGrows(w, f.n);
      var p, reached := w.trace[f.n], ReachedOf(w.trace[..f.n], w.r);
      assert f.reader == f.reader.(stream := Stream(reached, Ended(reached)));
      if p.run == w.r { NextIsLater(w, f.n); }
      if p.run == w.r && Reaches(p.primary) { AppendKeepsReader(f.reader, reached, p.event, w.start); }
    case Read(step) => StepKeepsReaderInv(f.reader, step, w.start);
  }

  lemma {:induction false} ReachedOfPrefix(trace: seq<Publication>, r: Id, n: nat)
    requires n <= |trace|
    ensures ReachedOf(trace[..n], r) <= ReachedOf(trace, r)
    decreases |trace|
  {
    if n == |trace| {
      assert trace[..n] == trace;
    } else {
      var before := trace[..|trace| - 1];
      ReachedOfPrefix(before, r, n);
      assert before[..n] == trace[..n];
      ReachedOfLast(trace, r);
      hide ReachedOf;
    }
  }

  /** A primary reader delivers the events that reach the primary, above its first cursor and in order. */
  lemma PrimaryDelivers(w: Setting, moves: seq<Move>)
    requires Fits(w) && !IsLocal(w) && Followed(w, moves).Some?
    ensures Followed(w, moves).value.reader.delivered <= Above(ReachedOf(w.trace, w.r), w.start)
  {
    PrimaryReaderInv(w, moves);
    FollowedView(w, moves);
    var f := Followed(w, moves).value;
    PrimaryView(w, f.n);
    ReachedOfPrefix(w.trace, w.r, f.n);
    hide *;
    AbovePrefix(ReachedOf(w.trace[..f.n], w.r), ReachedOf(w.trace, w.r), w.start);
  }

  lemma AbovePrefix(some: seq<Event>, all: seq<Event>, cursor: int)
    requires some <= all
    ensures Above(some, cursor) <= Above(all, cursor)
  {
    assert all == some + all[|some|..];
    AboveSplit(some, all[|some|..], cursor);
  }

  // ----- a run that is skipped -----

  /** Three events, the second of which never reaches the primary. */
  function Losing(r: Id, one: Event, two: Event, end: Event): seq<Publication> {
    [Publication(r, one, Done), Publication(r, two, Failed(false)), Publication(r, end, Done)]
  }

  const SKIPPING: seq<Move> :=
    [PublishNext, PublishNext, Read(Wake), Read(Yield), Read(Yield), Read(Again)]

  lemma LosingFacts(r: Id, one: Event, two: Event, end: Event)
    ensures var trace := Losing(r, one, two, end);
            && EventsOf(trace[..1], r) == [one] && EventsOf(trace[..3], r) == [one, two, end]
            && ReachedOf(trace[..1], r) == [one] && ReachedOf(trace[..2], r) == [one]
            && ReachedOf(trace[..3], r) == [one, end]
  {
    LosingEvents(r, one, two, end);
    LosingReached(r, one, two, end);
    hide *;
  }

  lemma LosingEvents(r: Id, one: Event, two: Event, end: Event)
    ensures var trace := Losing(r, one, two, end);
            EventsOf(trace[..1], r) == [one] && EventsOf(trace[..3], r) == [one, two, end]
  {
    var trace := Losing(r, one, two, end);
    assert trace[..0] == [] && EventsOf([], r) == [];
    EventsNext(trace, r, 0);
    EventsNext(trace, r, 1);
    EventsNext(trace, r, 2);
    hide EventsOf, Losing;
  }

  lemma LosingReached(r: Id, one: Event, two: Event, end: Event)
    ensures var trace := Losing(r, one, two, end);
            && ReachedOf(trace[..1], r) == [one] && ReachedOf(trace[..2], r) == [one]
            && ReachedOf(trace[..3], r) == [one, end]
  {
    var trace := Losing(r, one, two, end);
    assert trace[..0] == [] && ReachedOf([], r) == [];
    hide ReachedOf;
    ReachedNext(trace, r, 0);
    assert ReachedOf(trace[..1], r) == [one];
    ReachedNext(trace, r, 1);
    assert ReachedOf(trace[..2], r) == [one];
    ReachedNext(trace, r, 2);
  }

  lemma LosingRuns(r: Id, one: Event, two: Event, end: Event)
    ensures RunsOf(Losing(r, one, two, end)) == {r} && RunsOf(Losing(r, one, two, end)[..1]) == {r}
    ensures !AnyFailed(Losing(r, one, two, end)[..1], r)
  {
    var trace := Losing(r, one, two, end);
    assert trace[0].run == r && trace[..1][0].run == r;
  }

  /** The reader of this section: it attaches after the first event, at cursor 0. */
  function Early(r: Id, one: Event, two: Event, end: Event, maxRuns: nat, maxEvents: nat): Setting {
    Setting(Losing(r, one, two, end), r, maxRuns, maxEvents, 1, 0)
  }

  lemma EarlyFits(r: Id, one: Event, two: Event, end: Event, maxRuns: nat, maxEvents: nat)
    requires one.id < two.id < end.id && !one.body.RunEnd? && !two.body.RunEnd? && maxRuns >= 1 && maxEvents >= 1
    ensures var w := Early(r, one, two, end, maxRuns, maxEvents);
            Fits(w) && !IsLocal(w) && Published(w, 3) == [one, two, end]
  {
    var w := Early(r, one, two, end, maxRuns, maxEvents);
    LosingFacts(r, one, two, end);
    LosingRuns(r, one, two, end);
    assert w.trace[..3] == w.trace;
    NotYetLocal(w);
    hide EventsOf, ReachedOf, RunsOf, StateAfter, AnyFailed, IsLocal, View, Losing;
  }

  lemma EarlyViews(r: Id, one: Event, two: Event, end: Event, maxRuns: nat, maxEvents: nat)
    requires Fits(Early(r, one, two, end, maxRuns, maxEvents)) && !IsLocal(Early(r, one, two, end, maxRuns, maxEvents))
    requires end.body.RunEnd?
    ensures var w := Early(r, one, two, end, maxRuns, maxEvents);
            View(w, 1).events == View(w, 2).events == [one] && View(w, 3) == Stream([one, end], true)
  {
    LosingFacts(r, one, two, end);
    hide EventsOf, ReachedOf, RunsOf, StateAfter, IsLocal, View, Fits;
    var w := Early(r, one, two, end, maxRuns, maxEvents);
    PrimaryView(w, 1);
    PrimaryView(w, 2);
    PrimaryView(w, 3);
  }

  lemma NotYetLocal(w: Setting)
    requires w.attachedAt <= |w.trace| && |RunsOf(w.trace[..w.attachedAt])| <= w.maxRuns
    requires !AnyFailed(w.trace[..w.attachedAt], w.r)
    ensures !IsLocal(w)
  {
    DegradedIffFailed(w.trace[..w.attachedAt], w.maxRuns, w.maxEvents);
    hide StateAfter, AnyFailed, RunsOf;
  }

  /**
   * A reader attached to the primary before the second event is lost returns with the first and the third: the route
   * is not looked at again when the run becomes degraded.
   */
  lemma AttachedReaderSkipsLostEvent(r: Id, one: Event, two: Event, end: Event, maxRuns: nat, maxEvents: nat)
    requires 0 < one.id < two.id < end.id && !one.body.RunEnd? && !two.body.RunEnd? && end.body.RunEnd?
    requires maxRuns >= 1 && maxEvents >= 1
    ensures var w := Early(r, one, two, end, maxRuns, maxEvents);
            && Fits(w) && Published(w, 3) == [one, two, end]
            && Followed(w, SKIPPING).Some? && EverOvertaken(w, SKIPPING)
            && var f := Followed(w, SKIPPING).value;
               f.n == 3 && f.reader.phase.Returned? && f.reader.delivered == [one, end]
  {
    var w := Early(r, one, two, end, maxRuns, maxEvents);
    hide View, Published, IsLocal, Fits, Followed, EverOvertaken, Above;
    EarlyFits(r, one, two, end, maxRuns, maxEvents);
    EarlyViews(r, one, two, end, maxRuns, maxEvents);
    SkippingSteps(w, one, end);
    ReturnedIsCompleteIff(w, SKIPPING);
    AboveStart([one, two, end], 0);
    assert [one, end] != [one, two, end];
  }

  lemma FollowedOneMore(w: Setting, moves: seq<Move>, f: Follower, move: Move)
    requires w.attachedAt <= |w.trace| && Followed(w, moves) == Some(f) && CanMove(w, f, move)
    ensures Followed(w, moves + [move]) == Some(Moved(w, f, move))
  {
    assert (moves + [move])[..|moves|] == moves;
    hide View, CanMove, Moved;
  }

  lemma SkippingSteps(w: Setting, one: Event, end: Event)
    requires w.attachedAt == 1 && |w.trace| == 3 && w.start == 0 && 0 < one.id < end.id
    requires View(w, 1).events == View(w, 2).events == [one] && View(w, 3) == Stream([one, end], true)
    ensures Followed(w, SKIPPING) == Some(Follower(3, System(View(w, 3), end.id, Returned, [one, end])))
  {
    hide View;
    AboveStart([one, end], 0);
    assert Followed(w, []) == Some(Follower(1, System(View(w, 1), 0, Waiting, [])));
    hide Followed, Above;
    assert [one, end][1..] == [end] && [end][1..] == [] && [] + [one] == [one] && [one] + [end] == [one, end];
    FollowedOneMore(w, [], Follower(1, System(View(w, 1), 0, Waiting, [])), PublishNext);
    var s1: seq<Move> := [] + [PublishNext];
    FollowedOneMore(w, s1, Follower(2, System(View(w, 2), 0, Waiting, [])), PublishNext);
    var s2 := s1 + [PublishNext];
    FollowedOneMore(w, s2, Follower(3, System(View(w, 3), 0, Waiting, [])), Read(Wake));
    var s3 := s2 + [Read(Wake)];
    FollowedOneMore(w, s3, Follower(3, System(View(w, 3), 0, Delivering([one, end], true), [])), Read(Yield));
    var s4 := s3 + [Read(Yield)];
    FollowedOneMore(w, s4, Follower(3, System(View(w, 3), one.id, Delivering([end], true), [one])), Read(Yield));
    var s5 := s4 + [Read(Yield)];
    FollowedOneMore(w, s5, Follower(3, System(View(w, 3), end.id, Delivering([], true), [one, end])), Read(Again));
    assert SKIPPING == s5 + [Read(Again)];
  }
}
