/** The browser's reconnect loop over a run's events. */
module Reconnect {
  import opened RunEvents
  import opened SseText
  import opened SseClient
  import opened EventStore
  import opened StreamReader

  /** What one attempt to attach meets: a refusal, no connection, the user's abort, or a stream of text. */
  datatype Attempt =
    | Refused(status: nat)
    | Unreachable
    | Aborted
    | Streamed(pieces: seq<Piece>, chunks: seq<string>, broken: bool)

  /** The loop's variables, everything shown so far, and how much of it attachments showed before they threw. */
  datatype Session = Session(cursor: int, terminal: bool, gaveUp: bool, shown: seq<Event>, wasted: nat)

  const START := Session(0, false, false, [], 0)

  predicate IsFatal(status: nat) {
    status < 500 && status != 429
  }

  function TryAttach(c: Codec, s: Session, attempt: Attempt): Session {
    match attempt
    case Refused(status) => s.(gaveUp := IsFatal(status))
    case Unreachable => s
    case Aborted => s.(gaveUp := true)
    case Streamed(_, chunks, broken) => Absorb(s, ResultOf(Reads(c, Attached(s.cursor), chunks, broken)))
  }

  function Absorb(s: Session, r: Attachment): Session {
    if r.threw then s.(shown := s.shown + r.seen, wasted := s.wasted + |r.seen|)
    else s.(cursor := r.cursor, terminal := r.terminal, shown := s.shown + r.seen)
  }

  function Attachments(c: Codec, s: Session, attempts: seq<Attempt>): Session
    decreases |attempts|
  {
    if attempts == [] || s.terminal || s.gaveUp then s
    else Attachments(c, TryAttach(c, s, attempts[0]), attempts[1..])
  }

  /** The attempts are the ones the loop meets until it ends, or the first of them if they run out. */
  method StreamMessage(c: Codec, attempts: seq<Attempt>)
    returns (cursor: int, terminal: bool, gaveUp: bool, shown: seq<Event>)
    ensures var s := Attachments(c, START, attempts);
            (cursor, terminal, gaveUp, shown) == (s.cursor, s.terminal, s.gaveUp, s.shown)
  {
    hide Reads;
    cursor, terminal, gaveUp, shown := 0, false, false, [];
    ghost var wasted: nat := 0;
    var i := 0;
    while !terminal && !gaveUp && i < |attempts|
      invariant 0 <= i <= |attempts|
      invariant Attachments(c, START, attempts)
             == Attachments(c, Session(cursor, terminal, gaveUp, shown, wasted), attempts[i..])
      decreases |attempts| - i
    {
      assert attempts[i..][1..] == attempts[i + 1..];
      match attempts[i] {
        case Refused(status) =>
          gaveUp := IsFatal(status);
        case Unreachable =>
        case Aborted =>
          gaveUp := true;
        case Streamed(_, chunks, broken) =>
          var seen, cursor', terminal', threw := AttachEvents(c, cursor, chunks, broken);
          shown := shown + seen;
          if threw {
            wasted := wasted + |seen|;
          } else {
            cursor, terminal := cursor', terminal';
          }
      }
      i := i + 1;
    }
  }

  /** A stream attached at a cursor carries the run's events above it, in order, up to some point. */
  ghost predicate Served(c: Codec, events: seq<Event>, cursor: int, attempt: Attempt) {
    attempt.Streamed? ==>
      && EventsIn(attempt.pieces) <= Above(events, cursor)
      && Concat(attempt.chunks) <= EncodeStream(c, attempt.pieces)
  }

  ghost predicate AllServed(c: Codec, events: seq<Event>, s: Session, attempts: seq<Attempt>)
    decreases |attempts|
  {
    attempts == [] || s.terminal || s.gaveUp ||
    (Served(c, events, s.cursor, attempts[0]) && AllServed(c, events, TryAttach(c, s, attempts[0]), attempts[1..]))
  }

  /** The events of a run: numbered upwards from 1 or later, with a run_end only at the end. */
  predicate RunOfEvents(events: seq<Event>) {
    && Increasing(events) && EndsAtMostOnce(events)
    && (forall i :: 0 <= i < |events| ==> events[i].id > 0)
  }

  // ----- nothing is skipped -----

  predicate AllShown(shown: seq<Event>, events: seq<Event>) {
    forall e :: e in events ==> e in shown
  }

  predicate ShowsAt(shown: seq<Event>, events: seq<Event>, i: nat, k: nat)
    requires i < |shown|
  {
    k < |events| && shown[i] == events[k] && AllShown(shown[..i], events[..k])
  }

  /** At position i an event is shown whose predecessors were all shown before it. */
  ghost predicate InPlace(shown: seq<Event>, events: seq<Event>, i: nat)
    requires i < |shown|
  {
    exists k: nat :: ShowsAt(shown, events, i, k)
  }

  ghost predicate NoGap(shown: seq<Event>, events: seq<Event>) {
    forall i: nat :: i < |shown| ==> InPlace(shown, events, i)
  }

  lemma NoGapOneMore(shown: seq<Event>, events: seq<Event>, k: nat)
    requires NoGap(shown, events) && k < |events| && AllShown(shown, events[..k])
    ensures NoGap(shown + [events[k]], events) && AllShown(shown + [events[k]], events[..k + 1])
  {
    var shown' := shown + [events[k]];
    forall i: nat | i < |shown'| ensures InPlace(shown', events, i) {
      if i < |shown| {
        assert InPlace(shown, events, i);
        var m: nat :| ShowsAt(shown, events, i, m);
        assert shown'[..i] == shown[..i];
        assert ShowsAt(shown', events, i, m);
      } else {
        assert shown'[..i] == shown;
        assert ShowsAt(shown', events, i, k);
      }
    }
    assert events[..k + 1] == events[..k] + [events[k]];
  }

  lemma {:induction false} NoGapMore(shown: seq<Event>, events: seq<Event>, k: nat, seen: seq<Event>)
    requires NoGap(shown, events) && k <= |events| && AllShown(shown, events[..k]) && seen <= events[k..]
    ensures NoGap(shown + seen, events) && AllShown(shown + seen, events[..k + |seen|])
    decreases |seen|
  {
    if seen == [] {
      assert shown + seen == shown;
    } else {
      NoGapOneMore(shown, events, k);
      assert seen[0] == events[k];
      assert events[k..][1..] == events[k + 1..];
      hide NoGap, AllShown;
      NoGapMore(shown + [events[k]], events, k + 1, seen[1..]);
      assert shown + [events[k]] + seen[1..] == shown + seen;
    }
  }

  /** The cursor stands after the first k events, which were all shown, in order and once if nothing was wasted. */
  ghost predicate SessionInv(s: Session, events: seq<Event>, k: nat) {
    && k <= |events|
    && Above(events, s.cursor) == events[k..]
    && NoGap(s.shown, events)
    && AllShown(s.shown, events[..k])
    && |s.shown| == k + s.wasted
    && (s.wasted == 0 ==> s.shown == events[..k])
    && (s.terminal ==> k == |events| && events != [] && events[|events| - 1].body.RunEnd?)
  }

  lemma {:induction false} AboveLatest(events: seq<Event>, cursor: int, m: nat)
    requires Increasing(events) && m <= |Above(events, cursor)|
    ensures Above(events, Latest(cursor, Above(events, cursor)[..m])) == Above(events, cursor)[m..]
    decreases m
  {
    var above := Above(events, cursor);
    if m > 0 {
      AboveNext(events, cursor);
      AboveAll(events, cursor);
      assert above[0] in above;
      assert Max(cursor, above[0].id) == above[0].id;
      assert above[..m][0] == above[0] && above[..m][1..] == above[1..][..m - 1];
      AboveLatest(events, above[0].id, m - 1);
      assert above[1..][m - 1..] == above[m..];
    }
  }

  lemma {:induction false} AboveStart(events: seq<Event>, cursor: int)
    requires forall i :: 0 <= i < |events| ==> events[i].id > cursor
    ensures Above(events, cursor) == events
  {
    if events != [] {
      AboveStart(events[1..], cursor);
    }
  }

  lemma StartInv(events: seq<Event>)
    requires RunOfEvents(events)
    ensures SessionInv(START, events, 0)
  {
    AboveStart(events, 0);
  }

  /** What any served attachment can come to. */
  ghost predicate ServedResult(r: Attachment, events: seq<Event>, cursor: int) {
    && r.seen <= Above(events, cursor)
    && r.cursor == Latest(cursor, r.seen)
    && (r.terminal ==> r.seen != [] && r.seen[|r.seen| - 1].body.RunEnd?)
  }

  lemma AttachmentIsServed(c: Codec, events: seq<Event>, cursor: int, attempt: Attempt)
    requires Faithful(c, events) && RunOfEvents(events) && attempt.Streamed? && Served(c, events, cursor, attempt)
    ensures ServedResult(ResultOf(Reads(c, Attached(cursor), attempt.chunks, attempt.broken)), events, cursor)
  {
    hide Reads, Outcome, Above, EventsIn, EncodeStream, Concat, Faithful, EndsAtMostOnce, Latest;
    AboveEndsOnce(events, cursor);
    PrefixEndsOnce(EventsIn(attempt.pieces), Above(events, cursor));
    FaithfulToAbove(c, events, cursor, EventsIn(attempt.pieces));
    AttachmentOutcome(c, cursor, attempt.pieces, attempt.chunks, attempt.broken);
    TruncatedStreamIsPrefix(c, cursor, attempt.pieces, |Concat(attempt.chunks)|, attempt.broken);
  }

  lemma FaithfulToAbove(c: Codec, events: seq<Event>, cursor: int, some: seq<Event>)
    requires Faithful(c, events) && some <= Above(events, cursor)
    ensures Faithful(c, some)
  {
    AboveAll(events, cursor);
    hide Above, Faithful;
    assert forall e :: e in some ==> e in Above(events, cursor);
    FaithfulToSome(c, events, some);
  }

  lemma PrefixEndsOnce(some: seq<Event>, all: seq<Event>)
    requires some <= all && EndsAtMostOnce(all)
    ensures EndsAtMostOnce(some)
  {
  }

  lemma {:induction false} AboveEndsOnce(events: seq<Event>, cursor: int)
    requires EndsAtMostOnce(events)
    ensures EndsAtMostOnce(Above(events, cursor))
  {
    if events != [] {
      assert EndsAtMostOnce(events[1..]);
      AboveEndsOnce(events[1..], cursor);
      if Above(events[1..], cursor) != [] && events[0].id > cursor {
        assert events[1..] != [];
        assert !events[0].body.RunEnd?;
      }
    }
  }

  lemma AbsorbKeepsInv(s: Session, r: Attachment, events: seq<Event>, k: nat)
    requires RunOfEvents(events) && SessionInv(s, events, k) && !s.terminal
    requires ServedResult(r, events, s.cursor)
    ensures SessionInv(Absorb(s, r), events, if r.threw then k else k + |r.seen|)
  {
    NoGapMore(s.shown, events, k, r.seen);
    ShownAgain(s.shown, r.seen, events[..k]);
    AboveLatest(events, s.cursor, |r.seen|);
    assert r.seen == Above(events, s.cursor)[..|r.seen|];
    assert events[k..][|r.seen|..] == events[k + |r.seen|..];
    assert events[..k] + r.seen == events[..k + |r.seen|];
    hide NoGap, AllShown, Above, Latest, Increasing;
    if r.terminal {
      assert events[k + |r.seen| - 1] == r.seen[|r.seen| - 1];
    }
    assert r.threw && r.seen == [] ==> s.shown + r.seen == s.shown;
  }

  lemma ShownAgain(shown: seq<Event>, more: seq<Event>, events: seq<Event>)
    requires AllShown(shown, events)
    ensures AllShown(shown + more, events)
  {
  }

  /** How many events the cursor has passed after an attempt. */
  function Rank(c: Codec, s: Session, attempt: Attempt, k: nat): nat {
    if attempt.Streamed? then
      var r := ResultOf(Reads(c, Attached(s.cursor), attempt.chunks, attempt.broken));
      if r.threw then k else k + |r.seen|
    else k
  }

  lemma AttachKeepsInv(c: Codec, events: seq<Event>, s: Session, attempt: Attempt, k: nat)
    requires Faithful(c, events) && RunOfEvents(events) && SessionInv(s, events, k) && !s.terminal
    requires Served(c, events, s.cursor, attempt)
    ensures SessionInv(TryAttach(c, s, attempt), events, Rank(c, s, attempt, k))
  {
    hide Reads, Served, Faithful, RunOfEvents, ServedResult, Absorb;
    if attempt.Streamed? {
      AttachmentIsServed(c, events, s.cursor, attempt);
      hide SessionInv;
      AbsorbKeepsInv(s, ResultOf(Reads(c, Attached(s.cursor), attempt.chunks, attempt.broken)), events, k);
    }
  }

  /** Every attempt keeps the session's account, with the cursor moving only when an attachment returns. */
  lemma {:induction false} SessionsKeepInv(c: Codec, events: seq<Event>, s: Session, attempts: seq<Attempt>, k: nat)
    requires Faithful(c, events) && RunOfEvents(events) && SessionInv(s, events, k) && AllServed(c, events, s, attempts)
    ensures exists k': nat :: SessionInv(Attachments(c, s, attempts), events, k')
    decreases |attempts|
  {
    if attempts == [] || s.terminal || s.gaveUp {
      assert SessionInv(Attachments(c, s, attempts), events, k);
    } else {
      AttachKeepsInv(c, events, s, attempts[0], k);
      hide SessionInv, Served, Faithful, RunOfEvents, TryAttach, Rank;
      SessionsKeepInv(c, events, TryAttach(c, s, attempts[0]), attempts[1..], Rank(c, s, attempts[0], k));
      assert Attachments(c, s, attempts) == Attachments(c, TryAttach(c, s, attempts[0]), attempts[1..]);
    }
  }

  // ----- which attempts show events again -----

  /** The text stops inside the payload of an event that is not shown yet. */
  predicate CutInPayload(c: Codec, pieces: seq<Piece>, n: nat) {
    var k := Whole(c, pieces, n);
    k < |pieces| && pieces[k].Sent? && PartParsed(c, pieces[k].event, Part(c, pieces, n)).Malformed?
  }

  /** The connection breaks, or the text stops inside a payload, after a whole event and before the run_end. */
  predicate ShowsInVain(c: Codec, attempt: Attempt) {
    attempt.Streamed? &&
    var n := |Concat(attempt.chunks)|;
    var whole := EventsIn(attempt.pieces[..Whole(c, attempt.pieces, n)]);
    whole != [] && !HasEnd(whole) && (attempt.broken || CutInPayload(c, attempt.pieces, n))
  }

  /** Among the attempts made before the loop ends. */
  predicate AnyInVain(c: Codec, s: Session, attempts: seq<Attempt>)
    decreases |attempts|
  {
    attempts != [] && !s.terminal && !s.gaveUp &&
    (ShowsInVain(c, attempts[0]) || AnyInVain(c, TryAttach(c, s, attempts[0]), attempts[1..]))
  }

  lemma ThrowsAfterShowing(c: Codec, lastEventId: int, pieces: seq<Piece>, n: nat, broken: bool)
    ensures var whole, r := EventsIn(pieces[..Whole(c, pieces, n)]), Outcome(c, lastEventId, pieces, n, broken);
            r.threw && r.seen != [] <==> whole != [] && !HasEnd(whole) && (broken || CutInPayload(c, pieces, n))
  {
    hide Whole, Part, EventsIn, HasEnd, Latest, PartParsed;
  }

  lemma WastedBy(c: Codec, events: seq<Event>, s: Session, attempt: Attempt)
    requires Faithful(c, events) && RunOfEvents(events) && Served(c, events, s.cursor, attempt)
    ensures TryAttach(c, s, attempt).wasted >= s.wasted
    ensures TryAttach(c, s, attempt).wasted > s.wasted <==> ShowsInVain(c, attempt)
  {
    if attempt.Streamed? {
      hide Reads, Outcome, Above, EventsIn, Faithful, EndsAtMostOnce, Latest, Whole, Part, HasEnd, EncodeStream, Concat;
      AboveEndsOnce(events, s.cursor);
      PrefixEndsOnce(EventsIn(attempt.pieces), Above(events, s.cursor));
      FaithfulToAbove(c, events, s.cursor, EventsIn(attempt.pieces));
      AttachmentOutcome(c, s.cursor, attempt.pieces, attempt.chunks, attempt.broken);
      ThrowsAfterShowing(c, s.cursor, attempt.pieces, |Concat(attempt.chunks)|, attempt.broken);
    }
  }

  lemma {:induction false} NothingInVainIffNothingWasted(c: Codec, events: seq<Event>, s: Session,
                                                         attempts: seq<Attempt>)
    requires Faithful(c, events) && RunOfEvents(events) && AllServed(c, events, s, attempts)
    ensures Attachments(c, s, attempts).wasted >= s.wasted
    ensures Attachments(c, s, attempts).wasted > s.wasted <==> AnyInVain(c, s, attempts)
    decreases |attempts|
  {
    if attempts != [] && !s.terminal && !s.gaveUp {
      WastedBy(c, events, s, attempts[0]);
      hide Faithful, RunOfEvents, Served, ShowsInVain, TryAttach;
      NothingInVainIffNothingWasted(c, events, TryAttach(c, s, attempts[0]), attempts[1..]);
      assert Attachments(c, s, attempts) == Attachments(c, TryAttach(c, s, attempts[0]), attempts[1..]);
    }
  }

  /**
   * Over any sequence of attachments that are served without gaps no event is skipped. When the loop ends with the
   * run over, every event was shown; each exactly once and in order if and only if no attempt it made was broken
   * off, or cut inside a payload, after showing an event and before the run_end.
   */
  lemma ReconnectDelivery(c: Codec, events: seq<Event>, attempts: seq<Attempt>)
    requires Faithful(c, events) && RunOfEvents(events) && AllServed(c, events, START, attempts)
    ensures var s := Attachments(c, START, attempts);
            && NoGap(s.shown, events)
            && (!AnyInVain(c, START, attempts) ==> s.shown <= events)
            && (s.terminal ==> AllShown(s.shown, events) && events != [] && events[|events| - 1].body.RunEnd?)
            && (s.terminal ==> (s.shown == events <==> !AnyInVain(c, START, attempts)))
  {
    StartInv(events);
    SessionsKeepInv(c, events, START, attempts, 0);
    NothingInVainIffNothingWasted(c, events, START, attempts);
    var s := Attachments(c, START, attempts);
    hide Attachments, NoGap, AllShown, AllServed, Faithful, Above, AnyInVain;
    var k: nat :| SessionInv(s, events, k);
    assert events[..|events|] == events;
  }

  /** One attachment served to the end of the run is enough: the loop then ends, wherever it stood. */
  lemma CompleteAttachmentEndsRun(c: Codec, events: seq<Event>, s: Session, attempt: Attempt, k: nat)
    requires Faithful(c, events) && RunOfEvents(events) && SessionInv(s, events, k) && !s.terminal
    requires attempt.Streamed? && !attempt.broken && Concat(attempt.chunks) == EncodeStream(c, attempt.pieces)
    requires EventsIn(attempt.pieces) == Above(events, s.cursor)
    requires Above(events, s.cursor) != [] && events[|events| - 1].body.RunEnd?
    ensures var s' := TryAttach(c, s, attempt);
            s'.terminal && s'.shown == s.shown + Above(events, s.cursor) && s'.wasted == s.wasted
  {
    hide Reads, Faithful, EncodeStream, Concat, EventsIn, NoGap, AllShown, Latest, Above, EndsAtMostOnce, Increasing;
    AboveEndsOnce(events, s.cursor);
    FaithfulToAbove(c, events, s.cursor, EventsIn(attempt.pieces));
    WholeStreamRoundTrip(c, s.cursor, attempt.pieces, attempt.chunks);
    LastOfTail(events, k);
  }

  lemma LastOfTail(events: seq<Event>, k: nat)
    requires k <= |events| && events[k..] != [] && events[|events| - 1].body.RunEnd?
    ensures HasEnd(events[k..])
  {
    assert events[k..][|events[k..]| - 1] == events[|events| - 1];
  }
}
