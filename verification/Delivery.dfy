/** From the manager's channel through the fail-open store and the wire to the browser. */
module Delivery {
  import opened DetachedManager
  import opened Records
  import opened RunEvents
  import opened EventStore
  import opened Json
  import opened RouteReader
  import opened SseText
  import opened SseClient
  import opened Reconnect
  import opened ArtifactView

  /** What the manager hands to the store is a run of events as the store and the browser expect one. */
  lemma HandedEventsAreARun(ms: seq<Manager>, acts: seq<Action>, i: nat, r: Id)
    requires IsExecution(ms, acts) && i < |ms| && r in ms[i].runs
    ensures RunOfEvents(ms[i].runs[r].handed)
  {
    ChannelAndStoreOrder(ms, acts, i, r);
    var rs := ms[i].runs[r];
    forall k | 0 <= k < |rs.handed| ensures rs.handed[k].id > 0 {
      assert rs.handed[k] in rs.log.events;
    }
  }

  /** A run's handed events, published with any failures, are replayed from either route alike. */
  lemma HandedEventsAreReplayed(ms: seq<Manager>, acts: seq<Action>, i: nat, r: Id, trace: seq<Publication>,
                                cursor: int, maxRuns: nat, maxEvents: nat)
    requires IsExecution(ms, acts) && i < |ms| && r in ms[i].runs
    requires EventsOf(trace, r) == ms[i].runs[r].handed && |RunsOf(trace)| <= maxRuns && maxEvents >= 1
    ensures var events := ms[i].runs[r].handed;
            Replay(StateAfter(trace, maxRuns, maxEvents), r, cursor) == Above(events, cursor)
            <==> !AnyFailed(trace, r) || !DroppedAbove(events, maxEvents, cursor)
  {
    HandedEventsAreARun(ms, acts, i, r);
    hide IsExecution, StateAfter, EventsOf, RunsOf, Above, Replay, AnyFailed, Increasing, EndsAtMostOnce, DroppedAbove;
    RouteAgreement(trace, r, cursor, maxRuns, maxEvents);
  }

  // ----- attachments served by readers of the store -----

  /** The store's publications, with the outcome of each primary attempt. */
  datatype Source = Source(trace: seq<Publication>, r: Id, maxRuns: nat, maxEvents: nat)

  /** When an attachment's reader attached, and what it and the publishers did since. */
  datatype Visit = Visit(attachedAt: nat, moves: seq<Move>)

  function SettingOf(src: Source, visit: Visit, cursor: int): Setting {
    Setting(src.trace, src.r, src.maxRuns, src.maxEvents, visit.attachedAt, cursor)
  }

  /** The text of an attachment is a beginning of what its reader has yielded, framed, with keep-alives anywhere. */
  ghost predicate Follows(c: Codec, src: Source, cursor: int, attempt: Attempt, visit: Visit) {
    attempt.Streamed? ==>
      var w := SettingOf(src, visit, cursor);
      && Fits(w) && Followed(w, visit.moves).Some?
      && EventsIn(attempt.pieces) == Followed(w, visit.moves).value.reader.delivered
      && Concat(attempt.chunks) <= EncodeStream(c, attempt.pieces)
  }

  ghost predicate AllFollow(c: Codec, src: Source, s: Session, attempts: seq<Attempt>, visits: seq<Visit>)
    decreases |attempts|
  {
    && |visits| == |attempts|
    && (attempts == [] || s.terminal || s.gaveUp ||
        (Follows(c, src, s.cursor, attempts[0], visits[0]) &&
         AllFollow(c, src, TryAttach(c, s, attempts[0]), attempts[1..], visits[1..])))
  }

  /** Some reader of an attachment the browser made woke up overtaken. */
  ghost predicate AnyOvertaken(c: Codec, src: Source, s: Session, attempts: seq<Attempt>, visits: seq<Visit>)
    requires AllFollow(c, src, s, attempts, visits)
    decreases |attempts|
  {
    attempts != [] && !s.terminal && !s.gaveUp &&
    ((attempts[0].Streamed? && EverOvertaken(SettingOf(src, visits[0], s.cursor), visits[0].moves)) ||
     AnyOvertaken(c, src, TryAttach(c, s, attempts[0]), attempts[1..], visits[1..]))
  }

  /** A reader that is not overtaken serves its attachment without a gap. */
  lemma FollowedIsServed(c: Codec, src: Source, cursor: int, attempt: Attempt, visit: Visit)
    requires attempt.Streamed? && Follows(c, src, cursor, attempt, visit)
    requires !EverOvertaken(SettingOf(src, visit, cursor), visit.moves)
    ensures Served(c, EventsOf(src.trace, src.r), cursor, attempt)
  {
    var w := SettingOf(src, visit, cursor);
    PromiseIsPrefixIff(w, visit.moves);
    var f := Followed(w, visit.moves).value;
    PublishedIsARun(w, f.n);
    hide Followed, EverOvertaken, Published, EventsOf, Fits;
    AbovePrefix(Published(w, f.n), EventsOf(src.trace, src.r), cursor);
  }

  lemma {:induction false} AllFollowedAreServed(c: Codec, src: Source, s: Session, attempts: seq<Attempt>,
                                                visits: seq<Visit>)
    requires AllFollow(c, src, s, attempts, visits) && !AnyOvertaken(c, src, s, attempts, visits)
    ensures AllServed(c, EventsOf(src.trace, src.r), s, attempts)
    decreases |attempts|
  {
    if attempts != [] && !s.terminal && !s.gaveUp {
      if attempts[0].Streamed? { FollowedIsServed(c, src, s.cursor, attempts[0], visits[0]); }
      hide Follows, EverOvertaken, TryAttach, EventsOf;
      AllFollowedAreServed(c, src, TryAttach(c, s, attempts[0]), attempts[1..], visits[1..]);
    }
  }

  // ----- what the browser knows, gaps or not -----

  /** Only published events are shown, and the loop ends with the run over only after a run_end. */
  ghost predicate Truthful(s: Session, events: seq<Event>) {
    && (forall e :: e in s.shown ==> e in events)
    && (s.terminal ==> exists e :: e in s.shown && e.body.RunEnd?)
  }

  lemma AbsorbKeepsTruth(s: Session, r: Attachment, events: seq<Event>)
    requires Truthful(s, events) && !s.terminal && forall e :: e in r.seen ==> e in events
    requires r.terminal ==> r.seen != [] && r.seen[|r.seen| - 1].body.RunEnd?
    ensures Truthful(Absorb(s, r), events)
  {
    if r.terminal {
      var end := r.seen[|r.seen| - 1];
      assert end in r.seen && end in s.shown + r.seen;
    }
  }

  lemma AttachKeepsTruth(c: Codec, src: Source, s: Session, attempt: Attempt, visit: Visit)
    requires Faithful(c, EventsOf(src.trace, src.r)) && Truthful(s, EventsOf(src.trace, src.r)) && !s.terminal
    requires Follows(c, src, s.cursor, attempt, visit)
    ensures Truthful(TryAttach(c, s, attempt), EventsOf(src.trace, src.r))
  {
    hide EventsOf, EventsIn, Reads, Outcome, Fits, Followed, Latest, Faithful, EncodeStream, Concat, Truthful;
    if attempt.Streamed? {
      var w := SettingOf(src, visit, s.cursor);
      DeliveredIsPublished(w, visit.moves);
      FaithfulToSome(c, EventsOf(src.trace, src.r), EventsIn(attempt.pieces));
      AttachmentOutcome(c, s.cursor, attempt.pieces, attempt.chunks, attempt.broken);
      TruncatedStreamIsPrefix(c, s.cursor, attempt.pieces, |Concat(attempt.chunks)|, attempt.broken);
      var r := ResultOf(Reads(c, Attached(s.cursor), attempt.chunks, attempt.broken));
      assert forall e :: e in r.seen ==> e in EventsIn(attempt.pieces);
      AbsorbKeepsTruth(s, r, EventsOf(src.trace, src.r));
    } else {
      SameShown(s, TryAttach(c, s, attempt), EventsOf(src.trace, src.r));
    }
  }

  lemma SameShown(s: Session, s': Session, events: seq<Event>)
    requires Truthful(s, events) && s'.shown == s.shown && s'.terminal == s.terminal
    ensures Truthful(s', events)
  {
  }

  lemma {:induction false} SessionIsTruthful(c: Codec, src: Source, s: Session, attempts: seq<Attempt>,
                                             visits: seq<Visit>)
    requires Faithful(c, EventsOf(src.trace, src.r)) && Truthful(s, EventsOf(src.trace, src.r))
    requires AllFollow(c, src, s, attempts, visits)
    ensures Truthful(Attachments(c, s, attempts), EventsOf(src.trace, src.r))
    decreases |attempts|
  {
    if attempts != [] && !s.terminal && !s.gaveUp {
      AttachKeepsTruth(c, src, s, attempts[0], visits[0]);
      hide Follows, TryAttach, EventsOf, Truthful, Faithful;
      SessionIsTruthful(c, src, TryAttach(c, s, attempts[0]), attempts[1..], visits[1..]);
    }
  }

  // ----- which events are never shown -----

  /** What one attempt shows. */
  function SeenBy(c: Codec, s: Session, attempt: Attempt): seq<Event> {
    if attempt.Streamed? then Reads(c, Attached(s.cursor), attempt.chunks, attempt.broken).seen else []
  }

  /** No attempt shows the event, up to the one that moves the cursor past it; those after it do not matter. */
  predicate SteppedOver(c: Codec, s: Session, attempts: seq<Attempt>, e: Event)
    decreases |attempts|
  {
    attempts == [] || s.terminal || s.gaveUp ||
    (e !in SeenBy(c, s, attempts[0]) &&
     (e.id <= TryAttach(c, s, attempts[0]).cursor || SteppedOver(c, TryAttach(c, s, attempts[0]), attempts[1..], e)))
  }

  /** An attempt shows events above the cursor, and moves the cursor no further than they reach. */
  lemma AttemptShows(c: Codec, src: Source, s: Session, attempt: Attempt, visit: Visit)
    requires Faithful(c, EventsOf(src.trace, src.r)) && Follows(c, src, s.cursor, attempt, visit)
    ensures TryAttach(c, s, attempt).shown == s.shown + SeenBy(c, s, attempt)
    ensures forall e :: e in SeenBy(c, s, attempt) ==> e.id > s.cursor
    ensures attempt.Streamed? ==> SeenBy(c, s, attempt) <= EventsIn(attempt.pieces)
    ensures TryAttach(c, s, attempt).cursor in {s.cursor, Latest(s.cursor, SeenBy(c, s, attempt))}
    ensures TryAttach(c, s, attempt).terminal ==> s.terminal || HasEnd(SeenBy(c, s, attempt))
  {
    hide EventsOf, EventsIn, Reads, Outcome, Fits, Followed, Latest, Faithful, EncodeStream, Concat, HasEnd;
    if attempt.Streamed? {
      var w := SettingOf(src, visit, s.cursor);
      DeliveredIsPublished(w, visit.moves);
      FaithfulToSome(c, EventsOf(src.trace, src.r), EventsIn(attempt.pieces));
      AttachmentOutcome(c, s.cursor, attempt.pieces, attempt.chunks, attempt.broken);
      TruncatedStreamIsPrefix(c, s.cursor, attempt.pieces, |Concat(attempt.chunks)|, attempt.broken);
      PrefixWithin(SeenBy(c, s, attempt), EventsIn(attempt.pieces));
    } else {
      assert s.shown + [] == s.shown;
    }
  }

  lemma PrefixWithin(some: seq<Event>, all: seq<Event>)
    requires some <= all
    ensures forall e :: e in some ==> e in all
  {
  }

  lemma {:induction false} LatestAtLeast(cursor: int, events: seq<Event>)
    ensures Latest(cursor, events) >= cursor
    decreases |events|
  {
    if events != [] {
      LatestAtLeast(Max(cursor, events[0].id), events[1..]);
    }
  }

  /** What the cursor has passed is not shown any more. */
  lemma {:induction false} PassedIsNotShown(c: Codec, src: Source, s: Session, attempts: seq<Attempt>,
                                            visits: seq<Visit>, e: Event)
    requires Faithful(c, EventsOf(src.trace, src.r)) && AllFollow(c, src, s, attempts, visits)
    requires e.id <= s.cursor && e !in s.shown
    ensures e !in Attachments(c, s, attempts).shown
    decreases |attempts|
  {
    if attempts != [] && !s.terminal && !s.gaveUp {
      AttemptShows(c, src, s, attempts[0], visits[0]);
      LatestAtLeast(s.cursor, SeenBy(c, s, attempts[0]));
      hide Follows, TryAttach, SeenBy, Faithful, Latest, EventsIn;
      PassedIsNotShown(c, src, TryAttach(c, s, attempts[0]), attempts[1..], visits[1..], e);
    }
  }

  lemma {:induction false} NeverShownIff(c: Codec, src: Source, s: Session, attempts: seq<Attempt>, visits: seq<Visit>,
                                         e: Event)
    requires Faithful(c, EventsOf(src.trace, src.r)) && AllFollow(c, src, s, attempts, visits) && e !in s.shown
    ensures e !in Attachments(c, s, attempts).shown <==> SteppedOver(c, s, attempts, e)
    decreases |attempts|
  {
    if attempts != [] && !s.terminal && !s.gaveUp {
      var s' := TryAttach(c, s, attempts[0]);
      AttemptShows(c, src, s, attempts[0], visits[0]);
      hide Follows, TryAttach, SeenBy, Faithful, Latest, EventsIn;
      assert Attachments(c, s, attempts) == Attachments(c, s', attempts[1..]);
      if e in SeenBy(c, s, attempts[0]) {
        ShownStays(c, s', attempts[1..], e);
      } else {
        NeverShownIff(c, src, s', attempts[1..], visits[1..], e);
        if e.id <= s'.cursor { PassedIsNotShown(c, src, s', attempts[1..], visits[1..], e); }
      }
    }
  }

  lemma {:induction false} ShownStays(c: Codec, s: Session, attempts: seq<Attempt>, e: Event)
    requires e in s.shown
    ensures e in Attachments(c, s, attempts).shown
    decreases |attempts|
  {
    if attempts != [] && !s.terminal && !s.gaveUp {
      hide Reads;
      ShownStays(c, TryAttach(c, s, attempts[0]), attempts[1..], e);
    }
  }

  /** An attempt served from the primary that moves the cursor past an event steps over it exactly when it was lost. */
  lemma PrimaryStepsOverLost(c: Codec, src: Source, s: Session, attempt: Attempt, visit: Visit, e: Event)
    requires Faithful(c, EventsOf(src.trace, src.r)) && attempt.Streamed? && Follows(c, src, s.cursor, attempt, visit)
    requires !IsLocal(SettingOf(src, visit, s.cursor))
    requires e in EventsOf(src.trace, src.r) && s.cursor < e.id <= TryAttach(c, s, attempt).cursor
    ensures e !in SeenBy(c, s, attempt) <==> e !in ReachedOf(src.trace, src.r)
  {
    var w, seen := SettingOf(src, visit, s.cursor), SeenBy(c, s, attempt);
    AttemptShows(c, src, s, attempt, visit);
    PrimaryDelivers(w, visit.moves);
    ReachedIsPart(src.trace, src.r);
    hide EventsOf, EventsIn, Followed, Faithful, TryAttach, SeenBy, IsLocal, ReachedOf, EncodeStream, Concat;
    AllUpToCursor(seen, ReachedOf(src.trace, src.r), s.cursor, e);
  }

  /** A beginning of the events above a cursor holds all of them up to where it moves the cursor. */
  lemma AllUpToCursor(seen: seq<Event>, all: seq<Event>, cursor: int, e: Event)
    requires Increasing(all) && seen <= Above(all, cursor) && cursor < e.id <= Latest(cursor, seen)
    ensures e in seen <==> e in all
  {
    var above := Above(all, cursor);
    AboveAll(all, cursor);
    AboveIncreasing(all, cursor);
    LatestIsLast(cursor, seen);
    hide Above, Latest;
    assert forall i :: 0 <= i < |seen| ==> seen[i] in above;
    if e in all {
      var i :| 0 <= i < |above| && above[i] == e;
      assert above[|seen| - 1] == seen[|seen| - 1];
      assert i <= |seen| - 1;
    }
  }

  lemma {:induction false} LatestIsLast(cursor: int, events: seq<Event>)
    ensures Latest(cursor, events) == cursor || exists i :: 0 <= i < |events| && events[i].id == Latest(cursor, events)
    ensures Latest(cursor, events) >= cursor
    decreases |events|
  {
    if events != [] {
      var next := Max(cursor, events[0].id);
      LatestIsLast(next, events[1..]);
      if i :| 0 <= i < |events[1..]| && events[1..][i].id == Latest(next, events[1..]) {
        assert events[i + 1].id == Latest(cursor, events);
      }
    }
  }

  // ----- end to end -----

  lemma AllShownIff(c: Codec, src: Source, attempts: seq<Attempt>, visits: seq<Visit>)
    requires Faithful(c, EventsOf(src.trace, src.r)) && AllFollow(c, src, START, attempts, visits)
    ensures var events, shown := EventsOf(src.trace, src.r), Attachments(c, START, attempts).shown;
            AllShown(shown, events) <==> forall e :: e in events ==> !SteppedOver(c, START, attempts, e)
  {
    forall e ensures e !in Attachments(c, START, attempts).shown <==> SteppedOver(c, START, attempts, e) {
      NeverShownIff(c, src, START, attempts, visits, e);
    }
    hide Attachments, SteppedOver, AllFollow, Faithful, EventsOf;
  }

  /**
   * When the browser's loop ends with the run over, then whatever publications failed it was shown a run_end with the
   * status the run durably has, then and ever after. It was shown every event the manager handed out if and only if
   * none of them was stepped over; and if no attachment's reader was overtaken, none was, nor shown before its
   * predecessors.
   */
  lemma BrowserLearnsDurableStatus(ms: seq<Manager>, acts: seq<Action>, i: nat, j: nat,
                                   c: Codec, src: Source, attempts: seq<Attempt>, visits: seq<Visit>)
    requires IsExecution(ms, acts) && i <= j < |ms| && src.r in ms[i].runs
    requires EventsOf(src.trace, src.r) == ms[i].runs[src.r].handed && Faithful(c, ms[i].runs[src.r].handed)
    requires AllFollow(c, src, START, attempts, visits) && Attachments(c, START, attempts).terminal
    ensures var events, shown := ms[i].runs[src.r].handed, Attachments(c, START, attempts).shown;
            && src.r in ms[j].runs && events != [] && events[|events| - 1].body == RunEnd(ms[j].runs[src.r].durable)
            && events[|events| - 1] in shown
            && (AllShown(shown, events) <==> forall e :: e in events ==> !SteppedOver(c, START, attempts, e))
            && (!AnyOvertaken(c, src, START, attempts, visits) ==> AllShown(shown, events) && NoGap(shown, events))
  {
    var events, s := ms[i].runs[src.r].handed, Attachments(c, START, attempts);
    HandedEventsAreARun(ms, acts, i, src.r);
    SessionIsTruthful(c, src, START, attempts, visits);
    var end :| end in s.shown && end.body.RunEnd?;
    var k :| 0 <= k < |events| && events[k] == end;
    RunEndTellsDurableStatus(ms, acts, i, j, src.r, k);
    AllShownIff(c, src, attempts, visits);
    if !AnyOvertaken(c, src, START, attempts, visits) {
      AllFollowedAreServed(c, src, START, attempts, visits);
      ReconnectDelivery(c, events, attempts);
    }
    hide Attachments, AllFollow, AllServed, NoGap, AllShown, RunOfEvents, Faithful, IsExecution, AnyOvertaken, EventsOf;
  }

  /** A turn folded from all handed events, a run_end among them, shows the status the run durably has. */
  lemma LiveStatusIsDurable(ms: seq<Manager>, acts: seq<Action>, i: nat, j: nat, r: Id)
    requires IsExecution(ms, acts) && i <= j < |ms| && r in ms[i].runs
    requires exists e :: e in ms[i].runs[r].handed && e.body.RunEnd?
    ensures r in ms[j].runs
    ensures Viewed(ms[i].runs[r].handed).status == match ms[j].runs[r].durable
            case Completed => CompletedTurn
            case Cancelled => CancelledTurn
            case _ => ErrorTurn
  {
    var events := ms[i].runs[r].handed;
    var e :| e in events && e.body.RunEnd?;
    var k :| 0 <= k < |events| && events[k] == e;
    RunEndTellsDurableStatus(ms, acts, i, j, r, k);
    hide IsExecution;
    LiveStatusAtEnd(events, ms[j].runs[r].durable);
  }

  // ----- stores that overtake nobody, and one that does -----

  /** The run fits the buffer and none of its publications was lost: no reader is ever overtaken. */
  lemma {:induction false} NothingLostNobodyOvertaken(c: Codec, src: Source, s: Session, attempts: seq<Attempt>,
                                                      visits: seq<Visit>)
    requires AllFollow(c, src, s, attempts, visits)
    requires |EventsOf(src.trace, src.r)| <= src.maxEvents
    requires forall i :: 0 <= i < |src.trace| && src.trace[i].run == src.r ==> Reaches(src.trace[i].primary)
    ensures !AnyOvertaken(c, src, s, attempts, visits)
    decreases |attempts|
  {
    if attempts != [] && !s.terminal && !s.gaveUp {
      if attempts[0].Streamed? {
        var w := SettingOf(src, visits[0], s.cursor);
        FollowedView(w, visits[0].moves);
        var f := Followed(w, visits[0].moves).value;
        PublishedIsARun(w, f.n);
        assert !LostAbove(w.trace[..f.n], w.r, w.start);
        NothingLostNothingSkipped(w.trace[..f.n], w.r, w.start);
        NeverOvertaken(w, visits[0].moves);
      }
      hide Follows, EverOvertaken, TryAttach, EventsOf;
      NothingLostNobodyOvertaken(c, src, TryAttach(c, s, attempts[0]), attempts[1..], visits[1..]);
    }
  }

  /** The browser of the reader in AttachedReaderSkipsLostEvent ends with the run over, without its second event. */
  lemma BrowserMissesLostEvent(c: Codec, r: Id, one: Event, two: Event, end: Event, maxRuns: nat, maxEvents: nat)
    requires Faithful(c, [one, end]) && maxRuns >= 1 && maxEvents >= 1
    requires 0 < one.id < two.id < end.id && !one.body.RunEnd? && !two.body.RunEnd? && end.body.RunEnd?
    ensures var src := Source(Losing(r, one, two, end), r, maxRuns, maxEvents);
            var pieces := [Sent(one), Sent(end)];
            var attempts := [Streamed(pieces, [EncodeStream(c, pieces)], false)];
            && AllFollow(c, src, START, attempts, [Visit(1, SKIPPING)])
            && AnyOvertaken(c, src, START, attempts, [Visit(1, SKIPPING)])
            && Attachments(c, START, attempts).terminal
            && two in EventsOf(src.trace, r) && two !in Attachments(c, START, attempts).shown
  {
    var src := Source(Losing(r, one, two, end), r, maxRuns, maxEvents);
    var pieces := [Sent(one), Sent(end)];
    var attempt := Streamed(pieces, [EncodeStream(c, pieces)], false);
    var visit := Visit(1, SKIPPING);
    hide EncodeStream, Concat, EventsIn, Followed, EverOvertaken, EventsOf, Fits, TryAttach, Attachments, AllFollow;
    hide AnyOvertaken;
    AttachedReaderSkipsLostEvent(r, one, two, end, maxRuns, maxEvents);
    assert SettingOf(src, visit, 0) == Early(r, one, two, end, maxRuns, maxEvents);
    TwoPieces(c, one, end);
    assert Follows(c, src, START.cursor, attempt, visit);
    OneAttachment(c, src, attempt, visit);
    LosingEvents(r, one, two, end);
  }

  /** That run exists: with JSON on the wire, the browser is told that the run is over and never sees the lost event. */
  lemma LostEventIsNeverShown(r: Id, one: Event, two: Event, end: Event, maxRuns: nat, maxEvents: nat)
    requires maxRuns >= 1 && maxEvents >= 1
    requires 0 < one.id < two.id < end.id && !one.body.RunEnd? && !two.body.RunEnd? && end.body.RunEnd?
    ensures var src := Source(Losing(r, one, two, end), r, maxRuns, maxEvents);
            && two in EventsOf(src.trace, r)
            && exists attempts: seq<Attempt>, visits: seq<Visit> ::
                 && AllFollow(JsonCodec(), src, START, attempts, visits)
                 && Attachments(JsonCodec(), START, attempts).terminal
                 && two !in Attachments(JsonCodec(), START, attempts).shown
  {
    hide EncodeStream, EventsOf, Attachments, AllFollow, AnyOvertaken, Faithful, JsonCodec, Losing;
    JsonIsFaithful([one, end]);
    BrowserMissesLostEvent(JsonCodec(), r, one, two, end, maxRuns, maxEvents);
  }

  lemma LosingEvents(r: Id, one: Event, two: Event, end: Event)
    ensures EventsOf(Losing(r, one, two, end), r) == [one, two, end]
  {
    LosingFacts(r, one, two, end);
    assert Losing(r, one, two, end)[..3] == Losing(r, one, two, end);
    hide EventsOf;
  }

  /** An attachment that carries two events, the second a run_end. */
  lemma TwoPieces(c: Codec, one: Event, end: Event)
    requires Faithful(c, [one, end]) && !one.body.RunEnd? && end.body.RunEnd?
    ensures var pieces := [Sent(one), Sent(end)];
            var s := TryAttach(c, START, Streamed(pieces, [EncodeStream(c, pieces)], false));
            && EventsIn(pieces) == [one, end] && Concat([EncodeStream(c, pieces)]) == EncodeStream(c, pieces)
            && s.terminal && s.shown == [one, end]
  {
    var pieces := [Sent(one), Sent(end)];
    TwoEvents(one, end);
    OneChunk(EncodeStream(c, pieces));
    hide EventsIn, Concat, Reads, Latest, EncodeStream, Faithful, HasEnd, EndsAtMostOnce;
    OneEnd(one, end);
    WholeStreamRoundTrip(c, 0, pieces, [EncodeStream(c, pieces)]);
    assert [] + [one, end] == [one, end];
  }

  lemma TwoEvents(one: Event, end: Event)
    ensures EventsIn([Sent(one), Sent(end)]) == [one, end]
  {
    var pieces := [Sent(one), Sent(end)];
    assert pieces[1..] == [Sent(end)] && EventsIn([Sent(end)]) == [end] + EventsIn([]);
  }

  lemma OneChunk(text: string)
    ensures Concat([text]) == text
  {
    assert Concat([text]) == text + Concat([]);
  }

  lemma OneEnd(one: Event, end: Event)
    requires !one.body.RunEnd? && end.body.RunEnd?
    ensures EndsAtMostOnce([one, end]) && HasEnd([one, end])
  {
    assert [one, end][1].body.RunEnd?;
  }

  lemma OneAttachment(c: Codec, src: Source, attempt: Attempt, visit: Visit)
    requires attempt.Streamed? && Follows(c, src, START.cursor, attempt, visit) && TryAttach(c, START, attempt).terminal
    ensures AllFollow(c, src, START, [attempt], [visit])
    ensures AnyOvertaken(c, src, START, [attempt], [visit]) <==>
      EverOvertaken(SettingOf(src, visit, START.cursor), visit.moves)
    ensures Attachments(c, START, [attempt]) == TryAttach(c, START, attempt)
  {
    assert [attempt][1..] == [] && [visit][1..] == [];
    hide TryAttach, EverOvertaken;
  }
}
