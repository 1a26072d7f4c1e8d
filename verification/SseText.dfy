/** The text of an event stream: what the server writes, and how the browser cuts it back into frames. */
module SseText {
  import opened Records
  import opened RunEvents

  /** JSON, seen from outside: how an event's envelope is printed, and what parsing a text gives. */
  datatype Codec = Codec(show: Event -> string, parse: string -> Option<Event>)

  /** As with a compact JSON object: parsed back, on one line, and no proper part of it is a JSON text. */
  ghost predicate Tells(c: Codec, e: Event) {
    && c.parse(c.show(e)) == Some(e)
    && c.show(e) != "" && c.show(e)[0] == '{' && OneLine(c.show(e))
    && forall k :: 0 < k < |c.show(e)| ==> c.parse(c.show(e)[..k]) == None
  }

  ghost predicate Faithful(c: Codec, events: seq<Event>) {
    forall i :: 0 <= i < |events| ==> Tells(c, events[i])
  }

  lemma FaithfulToSome(c: Codec, events: seq<Event>, some: seq<Event>)
    requires Faithful(c, events) && forall e :: e in some ==> e in events
    ensures Faithful(c, some)
  {
    hide Tells;
    forall i | 0 <= i < |some| ensures Tells(c, some[i]) {
      assert some[i] in events;
    }
  }

  /** No line break of either kind. */
  predicate OneLine(s: string) {
    forall i :: 0 <= i < |s| ==> s[i] != '\n' && s[i] != '\r'
  }

  // ----- the server's side -----

  function Decimal(n: nat): (s: string)
    ensures s != "" && OneLine(s)
  {
    (if n < 10 then "" else Decimal(n / 10)) + ["0123456789"[n % 10]]
  }

  function Name(body: Body): (s: string)
    ensures s != "" && OneLine(s)
  {
    match body
    case Metadata => "metadata"
    case Progress => "progress"
    case Chunk(_) => "message_chunk"
    case ToolCall(_, _) => "tool_call"
    case ToolResult => "tool_result"
    case ArtifactBody(_) => "artifact"
    case ErrorBody => "error"
    case RunEnd(_) => "run_end"
  }

  datatype Piece = Keepalive | Sent(event: Event)

  function IdLine(e: Event): (s: string)
    ensures OneLine(s) && s != "" && s[0] == 'i'
  {
    OneLineJoin("id: ", Decimal(e.id));
    "id: " + Decimal(e.id)
  }

  function NameLine(e: Event): (s: string)
    ensures OneLine(s) && s != "" && s[0] == 'e'
  {
    OneLineJoin("event: ", Name(e.body));
    "event: " + Name(e.body)
  }

  function DataLine(c: Codec, e: Event): string {
    "data: " + c.show(e)
  }

  /** A piece's text without the blank line that ends it. */
  function Content(c: Codec, piece: Piece): string {
    match piece
    case Keepalive => ": keepalive"
    case Sent(e) => IdLine(e) + "\n" + NameLine(e) + "\n" + DataLine(c, e)
  }

  function EncodeStream(c: Codec, pieces: seq<Piece>): string {
    if pieces == [] then "" else Content(c, pieces[0]) + "\n\n" + EncodeStream(c, pieces[1..])
  }

  function EventsIn(pieces: seq<Piece>): seq<Event> {
    if pieces == [] then []
    else (if pieces[0].Sent? then [pieces[0].event] else []) + EventsIn(pieces[1..])
  }

  lemma FaithfulToFirst(c: Codec, pieces: seq<Piece>)
    requires pieces != [] && Faithful(c, EventsIn(pieces))
    ensures pieces[0].Sent? ==> Tells(c, pieces[0].event)
    ensures Faithful(c, EventsIn(pieces[1..]))
  {
    hide Tells;
    var events, rest := EventsIn(pieces), EventsIn(pieces[1..]);
    if pieces[0].Sent? {
      assert events == [pieces[0].event] + rest;
      assert Tells(c, events[0]);
    } else {
      assert events == rest;
    }
    forall i | 0 <= i < |rest| ensures Tells(c, rest[i]) {
      assert rest[i] == events[|events| - |rest| + i];
    }
  }

  function Concat(chunks: seq<string>): string {
    if chunks == [] then "" else chunks[0] + Concat(chunks[1..])
  }

  lemma {:induction false} ConcatOneMore(chunks: seq<string>, chunk: string)
    ensures Concat(chunks + [chunk]) == Concat(chunks) + chunk
  {
    if chunks != [] {
      assert (chunks + [chunk])[1..] == chunks[1..] + [chunk];
      ConcatOneMore(chunks[1..], chunk);
    }
  }

  lemma EncodeFirst(c: Codec, pieces: seq<Piece>, before: string)
    requires pieces != []
    ensures before + EncodeStream(c, pieces)
         == before + (Content(c, pieces[0]) + "\n\n") + EncodeStream(c, pieces[1..])
  {
    hide Content;
  }

  /** One chunk per wait: a keep-alive when it timed out, else the event's frame. */
  method EncodeSseStream(c: Codec, waits: seq<Piece>) returns (chunks: seq<string>)
    ensures Concat(chunks) == EncodeStream(c, waits)
  {
    hide Content;
    chunks := [];
    var i := 0;
    while i < |waits|
      invariant 0 <= i <= |waits|
      invariant Concat(chunks) + EncodeStream(c, waits[i..]) == EncodeStream(c, waits)
    {
      var chunk := Content(c, waits[i]) + "\n\n";
      ConcatOneMore(chunks, chunk);
      EncodeFirst(c, waits[i..], Concat(chunks));
      assert waits[i..][1..] == waits[i + 1..];
      chunks := chunks + [chunk];
      i := i + 1;
    }
  }

  // ----- cutting text at blank lines -----

  function FirstBlankLine(text: string): (k: nat)
    ensures k <= |text|
    ensures forall i :: 0 <= i < k && i + 1 < |text| ==> !(text[i] == '\n' && text[i + 1] == '\n')
    ensures k < |text| ==> k + 1 < |text| && text[k] == '\n' && text[k + 1] == '\n'
  {
    if |text| < 2 then |text|
    else if text[0] == '\n' && text[1] == '\n' then 0
    else 1 + FirstBlankLine(text[1..])
  }

  /** The text between blank lines; the last part is what no blank line has closed yet. */
  function Split(text: string): (parts: seq<string>)
    ensures parts != []
    decreases |text|
  {
    var k := FirstBlankLine(text);
    if k == |text| then [text] else [text[..k]] + Split(text[k + 2..])
  }

  function Front<T>(s: seq<T>): seq<T>
    requires s != []
  {
    s[..|s| - 1]
  }

  function Final<T>(s: seq<T>): T
    requires s != []
  {
    s[|s| - 1]
  }

  /** The first blank line of a text stays first when more text follows. */
  lemma FirstBlankLineStays(a: string, b: string)
    requires FirstBlankLine(a) < |a|
    ensures FirstBlankLine(a + b) == FirstBlankLine(a)
    ensures (a + b)[..FirstBlankLine(a)] == a[..FirstBlankLine(a)]
    ensures (a + b)[FirstBlankLine(a) + 2..] == a[FirstBlankLine(a) + 2..] + b
  {
    var k, k' := FirstBlankLine(a), FirstBlankLine(a + b);
    hide FirstBlankLine;
    assert forall i :: 0 <= i < |a| ==> (a + b)[i] == a[i];
    assert k' <= k < |a| - 1;
    assert (a + b)[k'] == a[k'] && (a + b)[k' + 1] == a[k' + 1];
  }

  lemma SplitAtBlankLine(s: string)
    ensures var k := FirstBlankLine(s);
            Split(s) == if k == |s| then [s] else [s[..k]] + Split(s[k + 2..])
  {
    hide FirstBlankLine;
  }

  /** Cutting piecemeal and carrying the open part over is cutting the whole. */
  lemma {:induction false} SplitIncrementally(a: string, b: string)
    ensures Split(a + b) == Front(Split(a)) + Split(Final(Split(a)) + b)
    decreases |a|
  {
    hide Split, FirstBlankLine;
    SplitAtBlankLine(a);
    SplitAtBlankLine(a + b);
    var k := FirstBlankLine(a);
    if k < |a| {
      var rest := a[k + 2..];
      FirstBlankLineStays(a, b);
      SplitIncrementally(rest, b);
      FrontAfter(a[..k], Split(rest), Split(Final(Split(rest)) + b));
    }
  }

  lemma FrontAfter(first: string, parts: seq<string>, more: seq<string>)
    requires parts != []
    ensures Final([first] + parts) == Final(parts)
    ensures Front([first] + parts) + more == [first] + (Front(parts) + more)
  {
    assert Front([first] + parts) == [first] + Front(parts);
  }

  /** Text that no blank line cuts, on its own or when closed by one. */
  ghost predicate Tidy(s: string) {
    && s != "" && s[|s| - 1] != '\n'
    && (forall i :: 0 <= i < |s| ==> s[i] != '\r')
    && (forall i :: 0 <= i && i + 1 < |s| ==> s[i] == '\n' ==> s[i + 1] != '\n')
  }

  lemma TidyJoin(a: string, b: string)
    requires Tidy(a) && b != "" && OneLine(b)
    ensures Tidy(a + "\n" + b)
  {
    var s := a + "\n" + b;
    assert s[|a|] == '\n' && s[|s| - 1] == b[|b| - 1];
    forall i | 0 <= i && i + 1 < |s| && s[i] == '\n' ensures s[i + 1] != '\n' {
      if i < |a| {
        assert s[i] == a[i];
        assert i + 1 < |a|;
        assert s[i + 1] == a[i + 1];
      } else {
        assert i == |a|;
        assert s[i + 1] == b[0];
      }
    }
  }

  lemma ContentTidy(c: Codec, piece: Piece)
    requires piece.Sent? ==> Tells(c, piece.event)
    ensures Tidy(Content(c, piece))
  {
    if piece.Sent? {
      var e := piece.event;
      OneLineJoin("data: ", c.show(e));
      TidyJoin(IdLine(e), NameLine(e));
      TidyJoin(IdLine(e) + "\n" + NameLine(e), DataLine(c, e));
    }
  }

  lemma OneLineJoin(a: string, b: string)
    requires OneLine(a) && OneLine(b)
    ensures OneLine(a + b)
  {
  }

  lemma SplitClosed(s: string, rest: string)
    requires Tidy(s)
    ensures Split(s + "\n\n" + rest) == [s] + Split(rest)
  {
    var text := s + "\n\n" + rest;
    assert text[|s|] == '\n' && text[|s| + 1] == '\n';
    forall i | 0 <= i < |s| ensures !(text[i] == '\n' && text[i + 1] == '\n') {
      assert text[i] == s[i];
      assert i + 1 < |s| ==> text[i + 1] == s[i + 1];
    }
    assert FirstBlankLine(text) == |s|;
    assert text[..|s|] == s && text[|s| + 2..] == rest;
  }

  lemma SplitOpen(s: string, n: nat)
    requires Tidy(s) && n <= |s| + 1
    ensures Split((s + "\n")[..n]) == [(s + "\n")[..n]]
  {
    var text := (s + "\n")[..n];
    forall i | 0 <= i && i + 1 < |text| ensures !(text[i] == '\n' && text[i + 1] == '\n') {
      assert text[i] == s[i];
      assert i + 1 < |s| ==> text[i + 1] == s[i + 1];
    }
    assert FirstBlankLine(text) == |text|;
  }

  function Contents(c: Codec, pieces: seq<Piece>): seq<string> {
    if pieces == [] then [] else [Content(c, pieces[0])] + Contents(c, pieces[1..])
  }

  /** Some number of whole pieces, then an unclosed part of the next one. */
  ghost predicate CutAfter(c: Codec, pieces: seq<Piece>, text: string, k: nat) {
    && k <= |pieces|
    && Split(text) == Contents(c, pieces[..k]) + [Final(Split(text))]
    && (k == |pieces| ==> Final(Split(text)) == "")
    && (k < |pieces| ==> Final(Split(text)) <= Content(c, pieces[k]) + "\n")
  }

  /** How many pieces the first n characters hold completely, and how many characters follow them. */
  function Whole(c: Codec, pieces: seq<Piece>, n: nat): (k: nat)
    ensures k <= |pieces|
  {
    if pieces == [] || n < |Content(c, pieces[0])| + 2 then 0
    else 1 + Whole(c, pieces[1..], n - |Content(c, pieces[0])| - 2)
  }

  function Part(c: Codec, pieces: seq<Piece>, n: nat): nat {
    if pieces == [] || n < |Content(c, pieces[0])| + 2 then n
    else Part(c, pieces[1..], n - |Content(c, pieces[0])| - 2)
  }

  /** Wherever the server's text is cut off, it splits into its whole pieces and a part of one more. */
  lemma {:induction false} SplitTruncated(c: Codec, pieces: seq<Piece>, text: string)
    requires Faithful(c, EventsIn(pieces)) && text <= EncodeStream(c, pieces)
    ensures CutAfter(c, pieces, text, Whole(c, pieces, |text|))
    ensures |Final(Split(text))| == Part(c, pieces, |text|)
  {
    hide Content, Faithful, Tells, EventsIn, Split, CutAfter;
    CountStep(c, pieces, |text|);
    if pieces == [] {
      CutNothing(c);
    } else {
      FaithfulToFirst(c, pieces);
      var s := Content(c, pieces[0]);
      var rest := EncodeStream(c, pieces[1..]);
      assert EncodeStream(c, pieces) == s + "\n\n" + rest;
      hide EncodeStream, Whole, Part;
      PrefixCut(s, rest, text);
      if |text| < |s| + 2 {
        CutInFirst(c, pieces, |text|);
      } else {
        var text' := text[|s| + 2..];
        SplitTruncated(c, pieces[1..], text');
        CutLater(c, pieces, text', Whole(c, pieces[1..], |text'|));
      }
    }
  }

  lemma CountStep(c: Codec, pieces: seq<Piece>, n: nat)
    ensures if pieces == [] || n < |Content(c, pieces[0])| + 2 then Whole(c, pieces, n) == 0 && Part(c, pieces, n) == n
            else var m := n - |Content(c, pieces[0])| - 2;
                 Whole(c, pieces, n) == 1 + Whole(c, pieces[1..], m) && Part(c, pieces, n) == Part(c, pieces[1..], m)
  {
    hide Content;
  }

  lemma CutNothing(c: Codec)
    ensures CutAfter(c, [], "", 0) && |Final(Split(""))| == 0
  {
  }

  lemma {:induction false} WholeText(c: Codec, pieces: seq<Piece>)
    ensures Whole(c, pieces, |EncodeStream(c, pieces)|) == |pieces|
  {
    if pieces != [] {
      hide Content;
      WholeText(c, pieces[1..]);
    }
  }

  lemma PrefixCut(s: string, rest: string, text: string)
    requires text <= s + "\n\n" + rest
    ensures |text| < |s| + 2 ==> text == (s + "\n")[..|text|]
    ensures |text| >= |s| + 2 ==> text == s + "\n\n" + text[|s| + 2..] && text[|s| + 2..] <= rest
  {
    var whole := s + "\n\n" + rest;
    if |text| >= |s| + 2 {
      assert text[|s| + 2..] == rest[..|text| - |s| - 2];
    }
  }

  lemma CutInFirst(c: Codec, pieces: seq<Piece>, n: nat)
    requires pieces != [] && (pieces[0].Sent? ==> Tells(c, pieces[0].event)) && n <= |Content(c, pieces[0])| + 1
    ensures CutAfter(c, pieces, (Content(c, pieces[0]) + "\n")[..n], 0)
    ensures |Final(Split((Content(c, pieces[0]) + "\n")[..n]))| == n
  {
    ContentTidy(c, pieces[0]);
    SplitOpen(Content(c, pieces[0]), n);
    hide Content;
    assert pieces[..0] == [];
  }

  lemma CutLater(c: Codec, pieces: seq<Piece>, text: string, k: nat)
    requires pieces != [] && (pieces[0].Sent? ==> Tells(c, pieces[0].event)) && CutAfter(c, pieces[1..], text, k)
    ensures CutAfter(c, pieces, Content(c, pieces[0]) + "\n\n" + text, k + 1)
    ensures Final(Split(Content(c, pieces[0]) + "\n\n" + text)) == Final(Split(text))
  {
    hide Tells, Content, Split;
    ContentTidy(c, pieces[0]);
    SplitClosed(Content(c, pieces[0]), text);
    ContentsLater(c, pieces, k);
    hide Contents;
  }

  lemma ContentsLater(c: Codec, pieces: seq<Piece>, k: nat)
    requires k < |pieces|
    ensures Contents(c, pieces[..k + 1]) == [Content(c, pieces[0])] + Contents(c, pieces[1..][..k])
  {
    assert pieces[..k + 1][0] == pieces[0] && pieces[..k + 1][1..] == pieces[1..][..k];
  }

  // ----- reading a frame -----

  datatype Parsed = Nothing | Parsed(event: Event) | Malformed

  function FirstNewline(s: string): (k: nat)
    ensures k <= |s|
    ensures forall i :: 0 <= i < k ==> s[i] != '\n'
    ensures k < |s| ==> s[k] == '\n'
  {
    if s == "" || s[0] == '\n' then 0 else 1 + FirstNewline(s[1..])
  }

  function Lines(s: string): (lines: seq<string>)
    decreases |s|
  {
    var k := FirstNewline(s);
    if k == |s| then [s] else [s[..k]] + Lines(s[k + 1..])
  }

  predicate Blank(ch: char) {
    || ch in " \t\n\r" || ch == '\U{b}' || ch == '\U{c}' || ch == '\U{a0}' || ch == '\U{1680}'
    || '\U{2000}' <= ch <= '\U{200a}'
    || ch in ['\U{2028}', '\U{2029}', '\U{202f}', '\U{205f}', '\U{3000}', '\U{feff}']
  }

  function TrimStart(s: string): string {
    if s != "" && Blank(s[0]) then TrimStart(s[1..]) else s
  }

  predicate IsData(line: string) {
    |line| >= 5 && line[..5] == "data:"
  }

  /** The data lines' values, joined by line breaks. */
  function DataOf(lines: seq<string>): string {
    var values := DataValues(lines);
    Joined(values)
  }

  function DataValues(lines: seq<string>): seq<string> {
    if lines == [] then []
    else (if IsData(lines[0]) then [TrimStart(lines[0][5..])] else []) + DataValues(lines[1..])
  }

  function Joined(values: seq<string>): string {
    if values == [] then "" else if |values| == 1 then values[0] else values[0] + "\n" + Joined(values[1..])
  }

  function ParseFrame(c: Codec, frame: string): Parsed {
    var data := DataOf(Lines(frame));
    if data == "" then Nothing
    else match c.parse(data)
      case Some(event) => Parsed(event)
      case None => Malformed
  }

  lemma LinesOne(s: string)
    requires OneLine(s)
    ensures Lines(s) == [s]
  {
  }

  lemma LinesMore(a: string, b: string)
    requires OneLine(a)
    ensures Lines(a + "\n" + b) == [a] + Lines(b)
  {
    var s := a + "\n" + b;
    assert s[|a|] == '\n';
    assert forall i :: 0 <= i < |a| ==> s[i] == a[i];
    assert FirstNewline(s) == |a|;
    assert s[..|a|] == a && s[|a| + 1..] == b;
  }

  /** What the browser makes of the first n characters of an event's frame. */
  function PartParsed(c: Codec, e: Event, n: nat): (r: Parsed)
    ensures r.Parsed? ==> r.event == e
  {
    var head := |IdLine(e)| + |NameLine(e)| + 2 + |"data: "|;
    if n <= head then Nothing
    else if n < head + |c.show(e)| then Malformed
    else Parsed(e)
  }

  lemma LinesOfThree(one: string, two: string, three: string, n: nat)
    requires OneLine(one) && OneLine(two) && OneLine(three)
    requires n <= |one| + |two| + |three| + 3
    ensures Lines((one + "\n" + two + "\n" + three + "\n")[..n]) ==
            if n <= |one| then [one[..n]]
            else if n <= |one| + 1 + |two| then [one, two[..n - |one| - 1]]
            else if n <= |one| + 1 + |two| + 1 + |three| then [one, two, three[..n - |one| - |two| - 2]]
            else [one, two, three, ""]
  {
    hide Lines, OneLine;
    var rest := two + "\n" + (three + "\n");
    assert one + "\n" + two + "\n" + three + "\n" == one + "\n" + rest;
    LinesOfCut(one, rest, n);
    if n > |one| {
      LinesOfTwo(two, three, n - |one| - 1);
    }
  }

  lemma LinesOfTwo(two: string, three: string, n: nat)
    requires OneLine(two) && OneLine(three) && n <= |two| + |three| + 2
    ensures Lines((two + "\n" + (three + "\n"))[..n]) ==
            if n <= |two| then [two[..n]]
            else if n <= |two| + 1 + |three| then [two, three[..n - |two| - 1]]
            else [two, three, ""]
  {
    hide Lines, OneLine;
    LinesOfCut(two, three + "\n", n);
    if n > |two| {
      assert three + "\n" + "" == three + "\n";
      LinesOfCut(three, "", n - |two| - 1);
      NoLines();
    }
  }

  lemma NoLines()
    ensures Lines(""[..0]) == [""]
  {
  }

  lemma LinesOfCut(line: string, rest: string, n: nat)
    requires OneLine(line) && n <= |line| + 1 + |rest|
    ensures Lines((line + "\n" + rest)[..n]) ==
            if n <= |line| then [line[..n]] else [line] + Lines(rest[..n - |line| - 1])
  {
    if n <= |line| {
      assert (line + "\n" + rest)[..n] == line[..n];
      LinesOne(line[..n]);
    } else {
      assert (line + "\n" + rest)[..n] == line + "\n" + rest[..n - |line| - 1];
      LinesMore(line, rest[..n - |line| - 1]);
    }
  }

  lemma {:induction false} NoData(lines: seq<string>)
    requires forall i :: 0 <= i < |lines| ==> !IsData(lines[i])
    ensures DataValues(lines) == []
  {
    if lines != [] {
      NoData(lines[1..]);
    }
  }

  lemma {:induction false} OneData(before: seq<string>, line: string, after: seq<string>)
    requires forall i :: 0 <= i < |before| ==> !IsData(before[i])
    requires forall i :: 0 <= i < |after| ==> !IsData(after[i])
    requires IsData(line)
    ensures DataValues(before + [line] + after) == [TrimStart(line[5..])]
  {
    if before == [] {
      NoData(after);
      assert (before + [line] + after)[1..] == after;
    } else {
      assert (before + [line] + after)[1..] == before[1..] + [line] + after;
      OneData(before[1..], line, after);
    }
  }

  lemma DataOfPart(c: Codec, e: Event, n: nat)
    requires Tells(c, e)
    requires 5 <= n <= 6 + |c.show(e)|
    ensures IsData(DataLine(c, e)[..n])
    ensures TrimStart(DataLine(c, e)[..n][5..]) == if n == 5 then "" else c.show(e)[..n - 6]
  {
    var line := DataLine(c, e)[..n];
    assert line[..5] == "data:";
    if n == 5 {
      assert line[5..] == "";
    } else {
      assert line[5..] == " " + c.show(e)[..n - 6];
      assert line[5..][1..] == c.show(e)[..n - 6];
    }
  }

  lemma ValuesOfPart(c: Codec, e: Event, n: nat)
    requires Tells(c, e)
    requires n <= |Content(c, Sent(e))| + 1
    ensures var m := n - |IdLine(e)| - |NameLine(e)| - 2;
            DataValues(Lines((Content(c, Sent(e)) + "\n")[..n])) ==
            if m < 5 then [] else if m == 5 then [""]
            else [c.show(e)[..if m <= 6 + |c.show(e)| then m - 6 else |c.show(e)|]]
  {
    var one, two, three := IdLine(e), NameLine(e), DataLine(c, e);
    var m := n - |one| - |two| - 2;
    OneLineJoin("data: ", c.show(e));
    if m >= 5 {
      DataOfPart(c, e, if m <= |three| then m else |three|);
    }
    hide Lines, IdLine, NameLine, Tells, OneLine, DataValues, TrimStart, IsData;
    ValuesOfThree(one, two, three, n);
  }

  /** Of three lines only the third is data, once its prefix has arrived. */
  lemma ValuesOfThree(one: string, two: string, three: string, n: nat)
    requires OneLine(one) && OneLine(two) && OneLine(three) && n <= |one| + |two| + |three| + 3
    requires one != "" && one[0] == 'i' && two != "" && two[0] == 'e'
    requires var m := n - |one| - |two| - 2; m >= 5 ==> IsData(three[..if m <= |three| then m else |three|])
    ensures var m := n - |one| - |two| - 2;
            DataValues(Lines((one + "\n" + two + "\n" + three + "\n")[..n])) ==
            if m < 5 then [] else [TrimStart(three[..if m <= |three| then m else |three|][5..])]
  {
    var m := n - |one| - |two| - 2;
    LinesOfThree(one, two, three, n);
    var lines := Lines((one + "\n" + two + "\n" + three + "\n")[..n]);
    hide Lines, OneLine, DataValues, TrimStart;
    if m < 5 {
      assert 0 < n <= |one| ==> one[..n][0] == 'i';
      assert 0 < n - |one| - 1 <= |two| ==> two[..n - |one| - 1][0] == 'e';
      NoData(lines);
    } else {
      var line := three[..if m <= |three| then m else |three|];
      var after := if m <= |three| then [] else [""];
      assert three[..|three|] == three;
      hide IsData;
      assert lines == [one, two, line] + after;
      ThirdIsData(one, two, line, after);
    }
  }

  lemma ThirdIsData(one: string, two: string, line: string, after: seq<string>)
    requires one != "" && one[0] == 'i' && two != "" && two[0] == 'e' && IsData(line)
    requires after == [] || after == [""]
    ensures DataValues([one, two, line] + after) == [TrimStart(line[5..])]
  {
    assert [one, two, line] + after == [one, two] + [line] + after;
    OneData([one, two], line, after);
  }

  /** A frame cut before its payload is skipped, inside it breaks the parser, and after it gives the event. */
  lemma ParseOfPart(c: Codec, e: Event, n: nat)
    requires Tells(c, e)
    requires n <= |Content(c, Sent(e))| + 1
    ensures ParseFrame(c, (Content(c, Sent(e)) + "\n")[..n]) == PartParsed(c, e, n)
  {
    hide Lines, DataValues, Content, IdLine, NameLine;
    ValuesOfPart(c, e, n);
    assert c.show(e)[..|c.show(e)|] == c.show(e);
  }

  lemma ParseOfKeepalive(c: Codec, n: nat)
    requires n <= |": keepalive"| + 1
    ensures ParseFrame(c, (": keepalive" + "\n")[..n]) == Nothing
  {
    var line := ": keepalive";
    assert OneLine(line);
    if n <= |line| {
      assert (line + "\n")[..n] == line[..n];
      LinesOne(line[..n]);
      assert !IsData(line[..n]);
      NoData([line[..n]]);
    } else {
      assert (line + "\n")[..n] == line + "\n" + "";
      LinesMore(line, "");
      LinesOne("");
      assert !IsData(line) && !IsData("");
      NoData([line, ""]);
    }
  }
}
