/** The browser's side of one attachment: chunks of text in, events and a cursor out. */
module SseClient {
  import opened RunEvents
  import opened SseText

  datatype Client = Client(buffer: string, cursor: int, terminal: bool, seen: seq<Event>, threw: bool)

  function Attached(lastEventId: int): Client {
    Client("", lastEventId, false, [], false)
  }

  function Max(a: int, b: int): int {
    if a >= b then a else b
  }

  /** Line ends as the parser wants them: CR LF becomes LF. */
  function Normalized(s: string): string {
    if |s| >= 2 && s[0] == '\r' && s[1] == '\n' then "\n" + Normalized(s[2..])
    else if s == "" then "" else [s[0]] + Normalized(s[1..])
  }

  // ----- what the client does, as a function -----

  function AdvancedOne(s: Client, e: Event): Client {
    s.(cursor := Max(s.cursor, e.id), terminal := s.terminal || e.body.RunEnd?, seen := s.seen + [e])
  }

  function OnFrame(c: Codec, s: Client, frame: string): Client {
    match ParseFrame(c, frame)
    case Nothing => s
    case Malformed => s.(threw := true)
    case Parsed(e) => AdvancedOne(s, e)
  }

  function OnFrames(c: Codec, s: Client, frames: seq<string>): Client
    decreases |frames|
  {
    if frames == [] || s.threw then s else OnFrames(c, OnFrame(c, s, frames[0]), frames[1..])
  }

  function OnChunk(c: Codec, s: Client, chunk: string): Client {
    var parts := Split(s.buffer + Normalized(chunk));
    OnFrames(c, s.(buffer := Final(parts)), Front(parts))
  }

  /** A frame that no blank line closed is still read, unless the run has ended. */
  function Finish(c: Codec, s: Client): Client {
    if s.threw || s.terminal || TrimStart(s.buffer) == "" then s else OnFrame(c, s, s.buffer)
  }

  /** Read to a run_end, to the end of the body, or to a broken connection. */
  function Reads(c: Codec, s: Client, chunks: seq<string>, broken: bool): Client
    decreases |chunks|
  {
    if chunks == [] then
      if broken then s.(threw := true) else Finish(c, OnChunk(c, s, ""))
    else
      var s' := OnChunk(c, s, chunks[0]);
      if s'.threw || s'.terminal then s' else Reads(c, s', chunks[1..], broken)
  }

  method AttachEvents(c: Codec, lastEventId: int, chunks: seq<string>, broken: bool)
    returns (seen: seq<Event>, cursor: int, terminal: bool, threw: bool)
    ensures var s := Reads(c, Attached(lastEventId), chunks, broken);
            (seen, cursor, terminal, threw) == (s.seen, s.cursor, s.terminal, s.threw)
  {
    hide Split, Normalized, TrimStart, ParseFrame, Max;
    seen, cursor, terminal, threw := [], lastEventId, false, false;
    var buffer, i := "", 0;
    while true
      invariant 0 <= i <= |chunks| && !terminal && !threw
      invariant Reads(c, Attached(lastEventId), chunks, broken)
             == Reads(c, Client(buffer, cursor, terminal, seen, threw), chunks[i..], broken)
      decreases |chunks| - i
    {
      if i == |chunks| && broken {
        threw := true;
        return;
      }
      var done := i == |chunks|;
      ghost var before := Client(buffer, cursor, terminal, seen, threw);
      ghost var chunk := if done then "" else chunks[i];
      buffer := buffer + Normalized(if done then "" else chunks[i]);
      var parts := Split(buffer);
      buffer := Final(parts);
      var frames := Front(parts);
      var j := 0;
      while j < |frames|
        invariant 0 <= j <= |frames| && !threw
        invariant OnChunk(c, before, chunk)
               == OnFrames(c, Client(buffer, cursor, terminal, seen, threw), frames[j..])
      {
        match ParseFrame(c, frames[j]) {
          case Nothing =>
          case Malformed =>
            threw := true;
            return;
          case Parsed(e) =>
            cursor, terminal, seen := Max(cursor, e.id), terminal || e.body.RunEnd?, seen + [e];
        }
        assert frames[j..][1..] == frames[j + 1..];
        j := j + 1;
      }
      if done || terminal {
        break;
      }
      assert chunks[i..][1..] == chunks[i + 1..];
      i := i + 1;
    }
    if TrimStart(buffer) != "" && !terminal {
      match ParseFrame(c, buffer) {
        case Nothing =>
        case Malformed => threw := true;
        case Parsed(e) =>
          cursor, terminal, seen := Max(cursor, e.id), e.body.RunEnd?, seen + [e];
      }
    }
  }

  // ----- chunks do not matter -----

  predicate NoReturn(s: string) {
    forall i :: 0 <= i < |s| ==> s[i] != '\r'
  }

  lemma {:induction false} NormalizedIsIdentity(s: string)
    requires NoReturn(s)
    ensures Normalized(s) == s
  {
    if s != "" {
      NormalizedIsIdentity(s[1..]);
    }
  }

  lemma {:induction false} FramesInTwoGoes(c: Codec, s: Client, a: seq<string>, b: seq<string>)
    ensures OnFrames(c, s, a + b) == OnFrames(c, OnFrames(c, s, a), b)
    decreases |a|
  {
    if a == [] {
      assert a + b == b;
    } else if !s.threw {
      assert (a + b)[1..] == a[1..] + b;
      FramesInTwoGoes(c, OnFrame(c, s, a[0]), a[1..], b);
    }
  }

  lemma {:induction false} BufferApart(c: Codec, s: Client, frames: seq<string>, buffer: string)
    ensures OnFrames(c, s.(buffer := buffer), frames) == OnFrames(c, s, frames).(buffer := buffer)
    decreases |frames|
  {
    if frames != [] && !s.threw {
      BufferApart(c, OnFrame(c, s, frames[0]), frames[1..], buffer);
    }
  }

  /** The client after the text so far, however it was cut. */
  function After(c: Codec, lastEventId: int, text: string): Client {
    OnFrames(c, Attached(lastEventId).(buffer := Final(Split(text))), Front(Split(text)))
  }

  lemma ChunkExtendsText(c: Codec, lastEventId: int, text: string, chunk: string)
    requires NoReturn(chunk)
    ensures OnChunk(c, After(c, lastEventId, text), chunk) == After(c, lastEventId, text + chunk)
  {
    var s, s0 := After(c, lastEventId, text), Attached(lastEventId);
    NormalizedIsIdentity(chunk);
    SplitIncrementally(text, chunk);
    BufferApart(c, s0, Front(Split(text)), Final(Split(text)));
    var parts := Split(s.buffer + chunk);
    assert Split(text + chunk) == Front(Split(text)) + parts;
    hide Split;
    assert Front(Split(text + chunk)) == Front(Split(text)) + Front(parts);
    FramesInTwoGoes(c, s0.(buffer := Final(parts)), Front(Split(text)), Front(parts));
    BufferApart(c, s0, Front(Split(text)), Final(parts));
  }

  /** Nothing in the text makes the client stop reading. */
  predicate ReadsOn(c: Codec, lastEventId: int, text: string) {
    var s := After(c, lastEventId, text);
    !s.threw && !s.terminal
  }

  /** The outcome of a read that went through the whole text, and of one that stopped at a prefix of it. */
  predicate ReadAll(c: Codec, lastEventId: int, text: string, broken: bool, s: Client) {
    && ReadsOn(c, lastEventId, text)
    && s == var s' := After(c, lastEventId, text); if broken then s'.(threw := true) else Finish(c, s')
  }

  predicate StoppedAt(c: Codec, lastEventId: int, text: string, n: nat, s: Client) {
    n <= |text| && !ReadsOn(c, lastEventId, text[..n]) && s == After(c, lastEventId, text[..n])
  }

  /** Reading goes through all of the text or stops at a prefix of it; chunk borders play no other part. */
  lemma {:induction false} ChunksDoNotMatter(c: Codec, lastEventId: int, text: string, chunks: seq<string>,
                                             broken: bool)
    requires NoReturn(Concat(chunks)) && ReadsOn(c, lastEventId, text)
    ensures var s := Reads(c, After(c, lastEventId, text), chunks, broken);
            var all := text + Concat(chunks);
            ReadAll(c, lastEventId, all, broken, s) || exists n: nat :: StoppedAt(c, lastEventId, all, n, s)
    decreases |chunks|
  {
    var all := text + Concat(chunks);
    if chunks == [] {
      assert all == text == text + "";
      ChunkExtendsText(c, lastEventId, text, "");
    } else {
      var chunk := chunks[0];
      ConcatFirst(text, chunks);
      ChunkExtendsText(c, lastEventId, text, chunk);
      hide After, Concat, OnChunk, NoReturn, Finish;
      if ReadsOn(c, lastEventId, text + chunk) {
        ChunksDoNotMatter(c, lastEventId, text + chunk, chunks[1..], broken);
      } else {
        assert StoppedAt(c, lastEventId, all, |text + chunk|, After(c, lastEventId, text + chunk));
      }
    }
  }

  lemma ConcatFirst(text: string, chunks: seq<string>)
    requires chunks != []
    ensures text + Concat(chunks) == (text + chunks[0]) + Concat(chunks[1..])
    ensures (text + Concat(chunks))[..|text + chunks[0]|] == text + chunks[0]
    ensures NoReturn(Concat(chunks)) ==> NoReturn(chunks[0]) && NoReturn(Concat(chunks[1..]))
  {
    assert Concat(chunks) == chunks[0] + Concat(chunks[1..]);
    hide Concat;
    NoReturnParts(chunks[0], Concat(chunks[1..]));
  }

  lemma NoReturnParts(a: string, b: string)
    ensures NoReturn(a + b) ==> NoReturn(a) && NoReturn(b)
  {
    assert forall i :: 0 <= i < |a| ==> a[i] == (a + b)[i];
    assert forall i :: 0 <= i < |b| ==> b[i] == (a + b)[|a| + i];
  }

  // ----- what the client makes of the server's text -----

  function Latest(cursor: int, events: seq<Event>): int
    decreases |events|
  {
    if events == [] then cursor else Latest(Max(cursor, events[0].id), events[1..])
  }

  predicate HasEnd(events: seq<Event>) {
    exists i :: 0 <= i < |events| && events[i].body.RunEnd?
  }

  function Advanced(s: Client, events: seq<Event>): Client {
    s.(cursor := Latest(s.cursor, events), terminal := s.terminal || HasEnd(events), seen := s.seen + events)
  }

  lemma ParseContent(c: Codec, piece: Piece)
    requires piece.Sent? ==> Tells(c, piece.event)
    ensures ParseFrame(c, Content(c, piece)) == if piece.Sent? then Parsed(piece.event) else Nothing
  {
    var text := Content(c, piece);
    assert (text + "\n")[..|text|] == text;
    if piece.Sent? {
      ParseOfPart(c, piece.event, |text|);
    } else {
      ParseOfKeepalive(c, |text|);
    }
  }

  lemma {:induction false} FramesOfPieces(c: Codec, s: Client, pieces: seq<Piece>)
    requires Faithful(c, EventsIn(pieces)) && !s.threw
    ensures OnFrames(c, s, Contents(c, pieces)) == Advanced(s, EventsIn(pieces))
    decreases |pieces|
  {
    if pieces == [] {
      assert s.seen + [] == s.seen;
    } else {
      FaithfulToFirst(c, pieces);
      FirstPiece(c, s, pieces);
      hide Advanced, OnFrames, Faithful, Tells, Contents;
      if pieces[0].Sent? {
        FramesOfPieces(c, AdvancedOne(s, pieces[0].event), pieces[1..]);
        AdvanceMore(s, pieces[0].event, EventsIn(pieces[1..]));
        assert EventsIn(pieces) == [pieces[0].event] + EventsIn(pieces[1..]);
      } else {
        FramesOfPieces(c, s, pieces[1..]);
        assert EventsIn(pieces) == EventsIn(pieces[1..]);
      }
    }
  }

  lemma FirstPiece(c: Codec, s: Client, pieces: seq<Piece>)
    requires !s.threw && pieces != [] && (pieces[0].Sent? ==> Tells(c, pieces[0].event))
    ensures OnFrames(c, s, Contents(c, pieces))
         == OnFrames(c, if pieces[0].Sent? then AdvancedOne(s, pieces[0].event) else s, Contents(c, pieces[1..]))
  {
    ParseContent(c, pieces[0]);
    hide ParseFrame, Content, Tells;
    assert Contents(c, pieces) == [Content(c, pieces[0])] + Contents(c, pieces[1..]);
  }

  lemma AdvanceMore(s: Client, e: Event, events: seq<Event>)
    ensures Advanced(AdvancedOne(s, e), events) == Advanced(s, [e] + events)
  {
    assert s.seen + [e] + events == s.seen + ([e] + events);
    assert ([e] + events)[1..] == events;
    if HasEnd(events) {
      var i :| 0 <= i < |events| && events[i].body.RunEnd?;
      assert ([e] + events)[i + 1].body.RunEnd?;
    }
    if HasEnd([e] + events) && !e.body.RunEnd? {
      var i :| 0 <= i < |[e] + events| && ([e] + events)[i].body.RunEnd?;
      assert events[i - 1].body.RunEnd?;
    }
    assert e.body.RunEnd? ==> ([e] + events)[0].body.RunEnd?;
  }

  lemma FaithfulToPieces(c: Codec, pieces: seq<Piece>, k: nat)
    requires Faithful(c, EventsIn(pieces)) && k <= |pieces|
    ensures Faithful(c, EventsIn(pieces[..k]))
    ensures k < |pieces| && pieces[k].Sent? ==> Tells(c, pieces[k].event)
  {
    hide EventsIn, Faithful, Tells;
    EventsInPrefix(pieces, k);
    FaithfulToPrefix(c, EventsIn(pieces), EventsIn(pieces[..k]));
    if k < |pieces| {
      assert pieces[..k] + pieces[k..] == pieces;
      EventsInParts(pieces[..k], pieces[k..]);
      FaithfulToSome(c, EventsIn(pieces), EventsIn(pieces[k..]));
      FaithfulToFirst(c, pieces[k..]);
    }
  }

  lemma FaithfulToPrefix(c: Codec, events: seq<Event>, some: seq<Event>)
    requires Faithful(c, events) && some <= events
    ensures Faithful(c, some)
  {
    FaithfulToSome(c, events, some);
  }

  /** The client after a prefix of the server's text: it has read whole pieces, and holds a part of the next. */
  lemma AfterTruncated(c: Codec, lastEventId: int, pieces: seq<Piece>, text: string, k: nat)
    requires Faithful(c, EventsIn(pieces)) && CutAfter(c, pieces, text, k)
    ensures After(c, lastEventId, text)
         == Advanced(Attached(lastEventId).(buffer := Final(Split(text))), EventsIn(pieces[..k]))
  {
    assert Front(Split(text)) == Contents(c, pieces[..k]);
    FaithfulToPieces(c, pieces, k);
    FramesOfPieces(c, Attached(lastEventId).(buffer := Final(Split(text))), pieces[..k]);
  }

  // ----- the result of an attachment -----

  datatype Attachment = Attachment(seen: seq<Event>, cursor: int, terminal: bool, threw: bool)

  function ResultOf(s: Client): Attachment {
    Attachment(s.seen, s.cursor, s.terminal, s.threw)
  }

  function Reached(lastEventId: int, seen: seq<Event>, threw: bool): Attachment {
    Attachment(seen, Latest(lastEventId, seen), HasEnd(seen), threw)
  }

  /** What an attachment that received the first n characters of the server's text comes to. */
  function Outcome(c: Codec, lastEventId: int, pieces: seq<Piece>, n: nat, broken: bool): Attachment {
    var k := Whole(c, pieces, n);
    var seen := EventsIn(pieces[..k]);
    if HasEnd(seen) then Reached(lastEventId, seen, false)
    else if broken then Reached(lastEventId, seen, true)
    else if k < |pieces| && pieces[k].Sent? then
      match PartParsed(c, pieces[k].event, Part(c, pieces, n))
      case Nothing => Reached(lastEventId, seen, false)
      case Malformed => Reached(lastEventId, seen, true)
      case Parsed(e) => Reached(lastEventId, seen + [e], false)
    else Reached(lastEventId, seen, false)
  }

  lemma {:induction false} ServerTextHasNoReturn(c: Codec, pieces: seq<Piece>)
    requires Faithful(c, EventsIn(pieces))
    ensures NoReturn(EncodeStream(c, pieces))
  {
    if pieces != [] {
      FaithfulToFirst(c, pieces);
      ContentTidy(c, pieces[0]);
      ServerTextHasNoReturn(c, pieces[1..]);
      hide Content, Faithful, Tells, EventsIn;
    }
  }

  lemma {:induction false} EventsInParts(a: seq<Piece>, b: seq<Piece>)
    ensures EventsIn(a + b) == EventsIn(a) + EventsIn(b)
    decreases |a|
  {
    hide EventsIn;
    EventsInStep(a);
    EventsInStep(a + b);
    if a == [] {
      assert a + b == b;
    } else {
      assert (a + b)[1..] == a[1..] + b;
      EventsInParts(a[1..], b);
      var head := if a[0].Sent? then [a[0].event] else [];
      assert head + (EventsIn(a[1..]) + EventsIn(b)) == (head + EventsIn(a[1..])) + EventsIn(b);
    }
  }

  lemma EventsInStep(pieces: seq<Piece>)
    ensures EventsIn(pieces) ==
      if pieces == [] then [] else (if pieces[0].Sent? then [pieces[0].event] else []) + EventsIn(pieces[1..])
  {
  }

  lemma EventsInPrefix(pieces: seq<Piece>, k: nat)
    requires k <= |pieces|
    ensures EventsIn(pieces[..k]) <= EventsIn(pieces)
    ensures k < |pieces| && pieces[k].Sent? ==> EventsIn(pieces[..k]) + [pieces[k].event] <= EventsIn(pieces)
  {
    hide EventsIn;
    assert pieces[..k] + pieces[k..] == pieces;
    EventsInParts(pieces[..k], pieces[k..]);
    if k < |pieces| { EventsInFirst(pieces[k..]); }
  }

  lemma EventsInFirst(pieces: seq<Piece>)
    requires pieces != []
    ensures pieces[0].Sent? ==> [pieces[0].event] <= EventsIn(pieces)
  {
  }

  lemma EndIsEverything(events: seq<Event>, all: seq<Event>)
    requires events <= all && EndsAtMostOnce(all) && HasEnd(events)
    ensures events == all && all[|all| - 1].body.RunEnd?
  {
  }

  lemma {:induction false} LatestOneMore(cursor: int, events: seq<Event>, e: Event)
    ensures Latest(cursor, events + [e]) == Max(Latest(cursor, events), e.id)
    decreases |events|
  {
    if events != [] {
      assert (events + [e])[1..] == events[1..] + [e];
      LatestOneMore(Max(cursor, events[0].id), events[1..], e);
    }
  }

  /** The unclosed rest of a cut-off text, parsed. */
  lemma FinishTruncated(c: Codec, lastEventId: int, pieces: seq<Piece>, text: string)
    requires Faithful(c, EventsIn(pieces)) && text <= EncodeStream(c, pieces)
    requires ReadsOn(c, lastEventId, text)
    ensures ResultOf(Finish(c, After(c, lastEventId, text))) == Outcome(c, lastEventId, pieces, |text|, false)
  {
    hide After, Split, EncodeStream, Whole, Part, EventsIn, Latest, Faithful, Tells, ParseFrame, PartParsed, HasEnd;
    hide Content;
    SplitTruncated(c, pieces, text);
    FaithfulToPieces(c, pieces, Whole(c, pieces, |text|));
    var k, part := Whole(c, pieces, |text|), Final(Split(text));
    AfterTruncated(c, lastEventId, pieces, text, k);
    var seen := EventsIn(pieces[..k]);
    assert [] + seen == seen;
    if k < |pieces| {
      PartOfContent(c, pieces[k], part);
      if pieces[k].Sent? {
        HasEndOneMore(seen, pieces[k].event);
        LatestOneMore(lastEventId, seen, pieces[k].event);
      }
    }
    NothingLeft(c);
  }

  lemma NothingLeft(c: Codec)
    ensures ParseFrame(c, "") == Nothing && TrimStart("") == ""
  {
    LinesOne("");
    NoData([""]);
  }

  lemma HasEndOneMore(events: seq<Event>, e: Event)
    ensures HasEnd(events + [e]) <==> HasEnd(events) || e.body.RunEnd?
  {
    assert (events + [e])[|events|] == e;
    if HasEnd(events) {
      var i :| 0 <= i < |events| && events[i].body.RunEnd?;
      assert (events + [e])[i].body.RunEnd?;
    }
  }

  lemma PartOfContent(c: Codec, piece: Piece, part: string)
    requires (piece.Sent? ==> Tells(c, piece.event)) && part <= Content(c, piece) + "\n"
    ensures ParseFrame(c, part) == if piece.Sent? then PartParsed(c, piece.event, |part|) else Nothing
    ensures TrimStart(part) == "" ==> part == ""
  {
    assert part == (Content(c, piece) + "\n")[..|part|];
    if piece.Sent? {
      ParseOfPart(c, piece.event, |part|);
    } else {
      ParseOfKeepalive(c, |part|);
    }
    ContentStart(c, piece);
    hide Content, ParseFrame, PartParsed, Tells;
    assert part != "" ==> !Blank(part[0]);
  }

  lemma ContentStart(c: Codec, piece: Piece)
    ensures Content(c, piece) != "" && !Blank(Content(c, piece)[0])
  {
    assert piece.Sent? ==> Content(c, piece)[0] == IdLine(piece.event)[0];
  }

  /**
   * The client's result depends on how much of the server's text arrived and on how the connection ended,
   * and on nothing else: not on the chunks, and not on keep-alives between the events.
   */
  lemma AttachmentOutcome(c: Codec, lastEventId: int, pieces: seq<Piece>, chunks: seq<string>, broken: bool)
    requires Faithful(c, EventsIn(pieces)) && EndsAtMostOnce(EventsIn(pieces))
    requires Concat(chunks) <= EncodeStream(c, pieces)
    ensures ResultOf(Reads(c, Attached(lastEventId), chunks, broken))
         == Outcome(c, lastEventId, pieces, |Concat(chunks)|, broken)
  {
    var text := Concat(chunks);
    ServerTextHasNoReturn(c, pieces);
    PrefixHasNoReturn(text, EncodeStream(c, pieces));
    AfterNothing(c, lastEventId);
    assert "" + text == text;
    var s := Reads(c, Attached(lastEventId), chunks, broken);
    ChunksDoNotMatter(c, lastEventId, "", chunks, broken);
    hide Reads, Faithful, Concat, EncodeStream;
    if ReadAll(c, lastEventId, text, broken, s) {
      FinishTruncated(c, lastEventId, pieces, text);
      if broken {
        BrokenTruncated(c, lastEventId, pieces, text);
      }
    } else {
      var n: nat :| StoppedAt(c, lastEventId, text, n, s);
      StoppedTruncated(c, lastEventId, pieces, text, n);
    }
  }

  lemma AfterNothing(c: Codec, lastEventId: int)
    ensures After(c, lastEventId, "") == Attached(lastEventId)
  {
  }

  lemma PrefixHasNoReturn(text: string, all: string)
    requires text <= all && NoReturn(all)
    ensures NoReturn(text)
  {
  }

  lemma BrokenTruncated(c: Codec, lastEventId: int, pieces: seq<Piece>, text: string)
    requires Faithful(c, EventsIn(pieces)) && text <= EncodeStream(c, pieces)
    requires ReadsOn(c, lastEventId, text)
    ensures ResultOf(After(c, lastEventId, text).(threw := true)) == Outcome(c, lastEventId, pieces, |text|, true)
  {
    SplitTruncated(c, pieces, text);
    AfterTruncated(c, lastEventId, pieces, text, Whole(c, pieces, |text|));
    hide After, Split, EncodeStream, Whole, Part, EventsIn, Latest, Faithful;
    assert [] + EventsIn(pieces[..Whole(c, pieces, |text|)]) == EventsIn(pieces[..Whole(c, pieces, |text|)]);
  }

  lemma StoppedTruncated(c: Codec, lastEventId: int, pieces: seq<Piece>, text: string, n: nat)
    requires Faithful(c, EventsIn(pieces)) && EndsAtMostOnce(EventsIn(pieces)) && text <= EncodeStream(c, pieces)
    requires n <= |text| && !ReadsOn(c, lastEventId, text[..n])
    ensures ResultOf(After(c, lastEventId, text[..n])) == Outcome(c, lastEventId, pieces, |text|, true)
         == Outcome(c, lastEventId, pieces, |text|, false)
  {
    var k', k := Whole(c, pieces, n), Whole(c, pieces, |text|);
    SplitTruncated(c, pieces, text[..n]);
    AfterTruncated(c, lastEventId, pieces, text[..n], k');
    WholeGrows(c, pieces, n, |text|);
    hide After, Split, EncodeStream, Whole, Part, EventsIn, Latest, Faithful, PartParsed;
    var seen := EventsIn(pieces[..k']);
    assert [] + seen == seen;
    EndStays(pieces, k', k);
  }

  lemma EndStays(pieces: seq<Piece>, m: nat, n: nat)
    requires EndsAtMostOnce(EventsIn(pieces)) && m <= n <= |pieces| && HasEnd(EventsIn(pieces[..m]))
    ensures EventsIn(pieces[..n]) == EventsIn(pieces[..m]) == EventsIn(pieces)
  {
    hide EventsIn, HasEnd, EndsAtMostOnce;
    assert pieces[..n][..m] == pieces[..m];
    EventsInPrefix(pieces, m);
    EventsInPrefix(pieces, n);
    EventsInPrefix(pieces[..n], m);
    EndIsEverything(EventsIn(pieces[..m]), EventsIn(pieces));
    PrefixesMeet(EventsIn(pieces[..m]), EventsIn(pieces[..n]), EventsIn(pieces));
  }

  lemma PrefixesMeet(a: seq<Event>, b: seq<Event>, all: seq<Event>)
    requires a <= b <= all && a == all
    ensures b == all
  {
  }

  lemma {:induction false} WholeGrows(c: Codec, pieces: seq<Piece>, m: nat, n: nat)
    requires m <= n
    ensures Whole(c, pieces, m) <= Whole(c, pieces, n)
    decreases |pieces|
  {
    hide Content, Whole;
    CountStep(c, pieces, m);
    CountStep(c, pieces, n);
    if pieces != [] && m >= |Content(c, pieces[0])| + 2 {
      var length := |Content(c, pieces[0])| + 2;
      WholeGrows(c, pieces[1..], m - length, n - length);
    }
  }

  /** Round trip: a stream received whole, in any chunks, gives back exactly its events. */
  lemma WholeStreamRoundTrip(c: Codec, lastEventId: int, pieces: seq<Piece>, chunks: seq<string>)
    requires Faithful(c, EventsIn(pieces)) && EndsAtMostOnce(EventsIn(pieces))
    requires Concat(chunks) == EncodeStream(c, pieces)
    ensures ResultOf(Reads(c, Attached(lastEventId), chunks, false)) == Reached(lastEventId, EventsIn(pieces), false)
  {
    AttachmentOutcome(c, lastEventId, pieces, chunks, false);
    WholeText(c, pieces);
    assert pieces[..|pieces|] == pieces;
  }

  /** An attachment cut off anywhere shows a prefix, and says it is over only when that is everything. */
  lemma TruncatedStreamIsPrefix(c: Codec, lastEventId: int, pieces: seq<Piece>, n: nat, broken: bool)
    requires EndsAtMostOnce(EventsIn(pieces))
    ensures var r := Outcome(c, lastEventId, pieces, n, broken);
            && r.seen <= EventsIn(pieces) && r.cursor == Latest(lastEventId, r.seen)
            && (r.terminal ==> r.seen == EventsIn(pieces) && r.seen[|r.seen| - 1].body.RunEnd?)
            && r.terminal == HasEnd(r.seen)
  {
    hide Whole, Part, EventsIn, PartParsed, Latest, HasEnd, EndsAtMostOnce;
    OutcomeIsPrefix(c, lastEventId, pieces, n, broken);
    var r := Outcome(c, lastEventId, pieces, n, broken);
    hide Outcome;
    if r.terminal {
      EndIsEverything(r.seen, EventsIn(pieces));
    }
  }

  lemma OutcomeIsPrefix(c: Codec, lastEventId: int, pieces: seq<Piece>, n: nat, broken: bool)
    ensures var r := Outcome(c, lastEventId, pieces, n, broken);
            r.seen <= EventsIn(pieces) && r == Reached(lastEventId, r.seen, r.threw)
  {
    var k := Whole(c, pieces, n);
    hide Whole, Part, EventsIn, Latest, HasEnd, PartParsed;
    EventsInPrefix(pieces, k);
  }
}
