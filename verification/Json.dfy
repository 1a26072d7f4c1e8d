/** A codec that is faithful to every event: compact JSON, shown to be readable in one way only. */
module Json {
  import opened Records
  import opened Repository
  import opened RunEvents
  import opened SseText

  // ----- printing, in front of the text that follows -----

  function Escape(ch: char): string {
    match ch
    case '"' => "\\\""
    case '\\' => "\\\\"
    case '\n' => "\\n"
    case '\r' => "\\r"
    case _ => [ch]
  }

  /** The rest of a quoted text, its closing quote, and what follows. */
  function Quoted(s: string, after: string): string {
    if s == "" then "\"" + after else Escape(s[0]) + Quoted(s[1..], after)
  }

  function Numeral(n: int, after: string): string {
    if n < 0 then "-" + (Decimal(-n) + after) else Decimal(n) + after
  }

  ghost function Pick(keys: set<string>): (k: string)
    requires keys != {}
    ensures k in keys
  {
    var k :| k in keys; k
  }

  ghost function Print(v: Value, after: string): string
    decreases v, 1, 0
  {
    match v
    case Null => "null" + after
    case Flag(b) => (if b then "true" else "false") + after
    case Int(n) => Numeral(n, after)
    case Fraction(digits, places) => Numeral(digits, "e-" + (Decimal(places) + after))
    case Text(s) => "\"" + Quoted(s, after)
    case Items(_) => "[" + PrintItems(v, 0, after)
    case Object(fields) => "{" + PrintFields(v, fields.Keys, true, after)
  }

  ghost function PrintItems(v: Value, i: nat, after: string): string
    requires v.Items? && i <= |v.items|
    decreases v, 0, |v.items| - i
  {
    if i == |v.items| then "]" + after
    else (if i == 0 then "" else ",") + Print(v.items[i], PrintItems(v, i + 1, after))
  }

  /** The fields with these keys, in some order. */
  ghost function PrintFields(v: Value, keys: set<string>, first: bool, after: string): string
    requires v.Object? && keys <= v.fields.Keys
    decreases v, 0, |keys|
  {
    if keys == {} then "}" + after
    else
      var k := Pick(keys);
      (if first then "\"" else ",\"") +
      Quoted(k, ":" + Print(v.fields[k], PrintFields(v, keys - {k}, false, after)))
  }

  // ----- a printed value can be read in one way only -----

  /** Where a value may end. */
  predicate Closes(after: string) {
    after == "" || after[0] in ",]}"
  }

  predicate IsDigit(ch: char) {
    '0' <= ch <= '9'
  }

  lemma {:induction false} DecimalIsDigits(n: nat)
    ensures forall i :: 0 <= i < |Decimal(n)| ==> IsDigit(Decimal(n)[i])
  {
    if n >= 10 { DecimalIsDigits(n / 10); }
  }

  lemma LastDigit(n: nat)
    ensures var a := Decimal(n);
            && a[..|a| - 1] == (if n < 10 then "" else Decimal(n / 10))
            && a[|a| - 1] == "0123456789"[n % 10]
  {
    var front, last := if n < 10 then "" else Decimal(n / 10), "0123456789"[n % 10];
    assert Decimal(n) == front + [last];
  }

  lemma OneDigit(i: nat, j: nat)
    requires i < 10 && j < 10 && "0123456789"[i] == "0123456789"[j]
    ensures i == j
  {
  }

  lemma {:induction false} DecimalTellsNumber(m: nat, n: nat)
    requires Decimal(m) == Decimal(n)
    ensures m == n
  {
    LastDigit(m);
    LastDigit(n);
    OneDigit(m % 10, n % 10);
    hide Decimal;
    if m >= 10 && n >= 10 { DecimalTellsNumber(m / 10, n / 10); }
  }

  lemma DigitsGoOn(a: string, x: string, b: string, y: string)
    requires a + x == b + y && |a| < |b| && forall i :: 0 <= i < |b| ==> IsDigit(b[i])
    ensures x != "" && IsDigit(x[0])
  {
    assert (b + y)[|a|] == b[|a|];
    assert (a + x)[|a|] == x[0];
  }

  lemma OneDecimal(m: nat, x: string, n: nat, y: string)
    requires Decimal(m) + x == Decimal(n) + y
    requires (x == "" || !IsDigit(x[0])) && (y == "" || !IsDigit(y[0]))
    ensures m == n && x == y
  {
    var a, b := Decimal(m), Decimal(n);
    DecimalIsDigits(m);
    DecimalIsDigits(n);
    if |a| < |b| { DigitsGoOn(a, x, b, y); }
    if |b| < |a| { DigitsGoOn(b, y, a, x); }
    assert a == (a + x)[..|a|] && x == (a + x)[|a|..];
    assert b == (b + y)[..|b|] && y == (b + y)[|b|..];
    DecimalTellsNumber(m, n);
  }

  lemma TailsMeet(a: string, x: string, y: string)
    requires a + x == a + y
    ensures x == y
  {
    assert x == (a + x)[|a|..] && y == (a + y)[|a|..];
  }

  lemma NumeralStart(n: int, after: string)
    ensures Numeral(n, after) != "" && (if n < 0 then Numeral(n, after)[0] == '-' else IsDigit(Numeral(n, after)[0]))
  {
    if n >= 0 { DecimalIsDigits(n); }
  }

  lemma OneNumeral(m: int, x: string, n: int, y: string)
    requires Numeral(m, x) == Numeral(n, y)
    requires (x == "" || !IsDigit(x[0])) && (y == "" || !IsDigit(y[0]))
    ensures m == n && x == y
  {
    NumeralStart(m, x);
    NumeralStart(n, y);
    hide Decimal, IsDigit;
    assert (m < 0) == (n < 0);
    if m < 0 {
      TailsMeet("-", Decimal(-m) + x, Decimal(-n) + y);
      OneDecimal(-m, x, -n, y);
    } else {
      OneDecimal(m, x, n, y);
    }
  }

  lemma OneEscape(c: char, x: string, d: char, y: string)
    requires Escape(c) + x == Escape(d) + y
    ensures c == d && x == y
  {
    var a := Escape(c) + x;
    assert a[0] == Escape(c)[0] && a[0] == Escape(d)[0];
    assert |Escape(c)| == |Escape(d)|;
    assert |Escape(c)| == 2 ==> a[1] == Escape(c)[1] && a[1] == Escape(d)[1];
    TailsMeet(Escape(c), x, y);
  }

  /** A quote ends the text, and nothing that stands for a character begins with one. */
  lemma QuotedStart(s: string, after: string)
    ensures Quoted(s, after) != "" && (Quoted(s, after)[0] == '"' <==> s == "")
  {
  }

  lemma {:induction false} OneQuoted(s: string, x: string, t: string, y: string)
    requires Quoted(s, x) == Quoted(t, y)
    ensures s == t && x == y
  {
    QuotedStart(s, x);
    QuotedStart(t, y);
    hide Escape;
    if s == "" {
      TailsMeet("\"", x, y);
    } else {
      OneEscape(s[0], Quoted(s[1..], x), t[0], Quoted(t[1..], y));
      OneQuoted(s[1..], x, t[1..], y);
      assert s == [s[0]] + s[1..] && t == [t[0]] + t[1..];
    }
  }

  predicate Starts(v: Value, ch: char) {
    match v
    case Null => ch == 'n'
    case Flag(b) => ch == if b then 't' else 'f'
    case Int(_) => ch == '-' || IsDigit(ch)
    case Fraction(_, _) => ch == '-' || IsDigit(ch)
    case Text(_) => ch == '"'
    case Items(_) => ch == '['
    case Object(_) => ch == '{'
  }

  lemma PrintStart(v: Value, after: string)
    ensures Print(v, after) != "" && Starts(v, Print(v, after)[0])
  {
    match v
    case Int(n) => NumeralStart(n, after);
    case Fraction(digits, places) => NumeralStart(digits, "e-" + (Decimal(places) + after));
    case _ =>
  }

  predicate IsNumber(v: Value) {
    v.Int? || v.Fraction?
  }

  lemma OneNumber(v: Value, x: string, w: Value, y: string)
    requires IsNumber(v) && IsNumber(w) && Closes(x) && Closes(y) && Print(v, x) == Print(w, y)
    ensures v == w && x == y
  {
    var x' := if v.Int? then x else "e-" + (Decimal(v.places) + x);
    var y' := if w.Int? then y else "e-" + (Decimal(w.places) + y);
    OneNumeral(if v.Int? then v.n else v.digits, x', if w.Int? then w.n else w.digits, y');
    if v.Fraction? && w.Fraction? {
      assert x'[2..] == Decimal(v.places) + x && y'[2..] == Decimal(w.places) + y;
      OneDecimal(v.places, x, w.places, y);
    }
  }

  lemma {:induction false} OneValue(v: Value, x: string, w: Value, y: string)
    requires Print(v, x) == Print(w, y) && (IsNumber(v) ==> Closes(x) && Closes(y))
    ensures v == w && x == y
    decreases v, 1, 0
  {
    PrintStart(v, x);
    PrintStart(w, y);
    var a, b := Print(v, x), Print(w, y);
    if IsNumber(v) {
      OneNumber(v, x, w, y);
    } else {
      match v
      case Null => assert a[4..] == x && b[4..] == y;
      case Flag(t) => assert a[if t then 4 else 5..] == x && b[if t then 4 else 5..] == y;
      case Text(s) =>
        assert a[1..] == Quoted(s, x) && b[1..] == Quoted(w.s, y);
        OneQuoted(s, x, w.s, y);
      case Items(_) =>
        assert a[1..] == PrintItems(v, 0, x) && b[1..] == PrintItems(w, 0, y);
        OneList(v, x, w, y, 0);
        assert v.items == v.items[0..] && w.items == w.items[0..];
      case Object(fields) =>
        assert a[1..] == PrintFields(v, fields.Keys, true, x) && b[1..] == PrintFields(w, w.fields.Keys, true, y);
        OneRecord(v, fields.Keys, x, w, w.fields.Keys, y, true);
        assert fields == w.fields;
    }
  }

  lemma {:induction false} OneList(v: Value, x: string, w: Value, y: string, i: nat)
    requires v.Items? && w.Items? && i <= |v.items| && i <= |w.items|
    requires PrintItems(v, i, x) == PrintItems(w, i, y)
    ensures v.items[i..] == w.items[i..] && x == y
    decreases v, 0, |v.items| - i
  {
    var a, b := PrintItems(v, i, x), PrintItems(w, i, y);
    if i < |v.items| { PrintStart(v.items[i], PrintItems(v, i + 1, x)); }
    if i < |w.items| { PrintStart(w.items[i], PrintItems(w, i + 1, y)); }
    if i == |v.items| || i == |w.items| {
      assert a[0] == b[0];
      assert i == |v.items| && i == |w.items|;
      assert a[1..] == x && b[1..] == y;
    } else {
      var k := if i == 0 then 0 else 1;
      assert a[k..] == Print(v.items[i], PrintItems(v, i + 1, x));
      assert b[k..] == Print(w.items[i], PrintItems(w, i + 1, y));
      OneValue(v.items[i], PrintItems(v, i + 1, x), w.items[i], PrintItems(w, i + 1, y));
      OneList(v, x, w, y, i + 1);
      assert v.items[i..] == [v.items[i]] + v.items[i + 1..] && w.items[i..] == [w.items[i]] + w.items[i + 1..];
    }
  }

  lemma OneField(k: string, x: string, l: string, y: string)
    requires Quoted(k, ":" + x) == Quoted(l, ":" + y)
    ensures k == l && x == y
  {
    OneQuoted(k, ":" + x, l, ":" + y);
    TailsMeet(":", x, y);
  }

  lemma {:induction false} OneRecord(v: Value, ks: set<string>, x: string, w: Value, ls: set<string>, y: string,
                                     first: bool)
    requires v.Object? && w.Object? && ks <= v.fields.Keys && ls <= w.fields.Keys
    requires PrintFields(v, ks, first, x) == PrintFields(w, ls, first, y)
    ensures ks == ls && (forall k :: k in ks ==> v.fields[k] == w.fields[k]) && x == y
    decreases v, 0, |ks|
  {
    var a, b := PrintFields(v, ks, first, x), PrintFields(w, ls, first, y);
    if ks == {} || ls == {} {
      assert a[0] == b[0];
      assert ks == {} && ls == {};
      assert a[1..] == x && b[1..] == y;
    } else {
      var k, l := Pick(ks), Pick(ls);
      var n := if first then 1 else 2;
      var restV, restW := PrintFields(v, ks - {k}, false, x), PrintFields(w, ls - {l}, false, y);
      assert a[n..] == Quoted(k, ":" + Print(v.fields[k], restV));
      assert b[n..] == Quoted(l, ":" + Print(w.fields[l], restW));
      OneField(k, Print(v.fields[k], restV), l, Print(w.fields[l], restW));
      OneValue(v.fields[k], restV, w.fields[l], restW);
      OneRecord(v, ks - {k}, x, w, ls - {l}, y, false);
      assert ks == (ks - {k}) + {k} && ls == (ls - {l}) + {l};
    }
  }

  // ----- what follows a value stays outside it -----

  lemma Appends(a: string, x: string, y: string)
    ensures (a + x) + y == a + (x + y)
  {
  }

  lemma {:induction false} QuotedAppends(s: string, x: string, y: string)
    ensures Quoted(s, x) + y == Quoted(s, x + y)
  {
    if s == "" {
      Appends("\"", x, y);
    } else {
      Appends(Escape(s[0]), Quoted(s[1..], x), y);
      QuotedAppends(s[1..], x, y);
    }
  }

  lemma NumeralAppends(n: int, x: string, y: string)
    ensures Numeral(n, x) + y == Numeral(n, x + y)
  {
    Appends(Decimal(if n < 0 then -n else n), x, y);
    Appends("-", Decimal(if n < 0 then -n else n) + x, y);
  }

  lemma {:induction false} PrintAppends(v: Value, x: string, y: string)
    ensures Print(v, x) + y == Print(v, x + y)
    decreases v, 1, 0
  {
    match v
    case Null => Appends("null", x, y);
    case Flag(b) => Appends(if b then "true" else "false", x, y);
    case Int(n) => NumeralAppends(n, x, y);
    case Fraction(digits, places) =>
      NumeralAppends(digits, "e-" + (Decimal(places) + x), y);
      Appends("e-", Decimal(places) + x, y);
      Appends(Decimal(places), x, y);
    case Text(s) =>
      Appends("\"", Quoted(s, x), y);
      QuotedAppends(s, x, y);
    case Items(_) =>
      Appends("[", PrintItems(v, 0, x), y);
      ItemsAppend(v, 0, x, y);
    case Object(fields) =>
      Appends("{", PrintFields(v, fields.Keys, true, x), y);
      FieldsAppend(v, fields.Keys, true, x, y);
  }

  lemma {:induction false} ItemsAppend(v: Value, i: nat, x: string, y: string)
    requires v.Items? && i <= |v.items|
    ensures PrintItems(v, i, x) + y == PrintItems(v, i, x + y)
    decreases v, 0, |v.items| - i
  {
    if i == |v.items| {
      Appends("]", x, y);
    } else {
      Appends(if i == 0 then "" else ",", Print(v.items[i], PrintItems(v, i + 1, x)), y);
      PrintAppends(v.items[i], PrintItems(v, i + 1, x), y);
      ItemsAppend(v, i + 1, x, y);
    }
  }

  lemma {:induction false} FieldsAppend(v: Value, keys: set<string>, first: bool, x: string, y: string)
    requires v.Object? && keys <= v.fields.Keys
    ensures PrintFields(v, keys, first, x) + y == PrintFields(v, keys, first, x + y)
    decreases v, 0, |keys|
  {
    if keys == {} {
      Appends("}", x, y);
    } else {
      var k := Pick(keys);
      var rest := PrintFields(v, keys - {k}, false, x);
      Appends(if first then "\"" else ",\"", Quoted(k, ":" + Print(v.fields[k], rest)), y);
      QuotedAppends(k, ":" + Print(v.fields[k], rest), y);
      Appends(":", Print(v.fields[k], rest), y);
      PrintAppends(v.fields[k], rest, y);
      FieldsAppend(v, keys - {k}, false, x, y);
    }
  }

  // ----- on one line -----

  lemma {:induction false} QuotedOnLine(s: string, after: string)
    requires OneLine(after)
    ensures OneLine(Quoted(s, after))
  {
    if s != "" { QuotedOnLine(s[1..], after); }
  }

  lemma NumeralOnLine(n: int, after: string)
    requires OneLine(after)
    ensures OneLine(Numeral(n, after))
  {
  }

  lemma {:induction false} PrintOnLine(v: Value, after: string)
    requires OneLine(after)
    ensures OneLine(Print(v, after))
    decreases v, 1, 0
  {
    match v
    case Null =>
    case Flag(_) =>
    case Int(n) => NumeralOnLine(n, after);
    case Fraction(digits, places) => NumeralOnLine(digits, "e-" + (Decimal(places) + after));
    case Text(s) => QuotedOnLine(s, after);
    case Items(_) => ItemsOnLine(v, 0, after);
    case Object(fields) => FieldsOnLine(v, fields.Keys, true, after);
  }

  lemma {:induction false} ItemsOnLine(v: Value, i: nat, after: string)
    requires v.Items? && i <= |v.items| && OneLine(after)
    ensures OneLine(PrintItems(v, i, after))
    decreases v, 0, |v.items| - i
  {
    if i < |v.items| {
      ItemsOnLine(v, i + 1, after);
      PrintOnLine(v.items[i], PrintItems(v, i + 1, after));
    }
  }

  lemma {:induction false} FieldsOnLine(v: Value, keys: set<string>, first: bool, after: string)
    requires v.Object? && keys <= v.fields.Keys && OneLine(after)
    ensures OneLine(PrintFields(v, keys, first, after))
    decreases v, 0, |keys|
  {
    if keys != {} {
      var k := Pick(keys);
      FieldsOnLine(v, keys - {k}, false, after);
      PrintOnLine(v.fields[k], PrintFields(v, keys - {k}, false, after));
      QuotedOnLine(k, ":" + Print(v.fields[k], PrintFields(v, keys - {k}, false, after)));
    }
  }

  // ----- envelopes -----

  function StatusName(status: Status): string {
    match status
    case InProgress => "in_progress"
    case Completed => "completed"
    case Failed => "failed"
    case Cancelled => "cancelled"
  }

  function DataOf(body: Body): Payload {
    match body
    case Chunk(delta) => map["delta" := delta]
    case ToolCall(name, arguments) => map["name" := name, "arguments" := arguments]
    case ArtifactBody(data) => data
    case RunEnd(status) => map["status" := Text(StatusName(status))]
    case _ => map[]
  }

  function Envelope(e: Event): Value {
    Object(map["event_id" := Int(e.id), "event" := Text(Name(e.body)), "data" := Object(DataOf(e.body))])
  }

  lemma OneBody(a: Body, b: Body)
    requires Name(a) == Name(b) && DataOf(a) == DataOf(b)
    ensures a == b
  {
    assert |Name(a)| == |Name(b)| && Name(a)[0] == Name(b)[0];
    match a
    case Chunk(delta) => assert DataOf(a)["delta"] == DataOf(b)["delta"];
    case ToolCall(_, _) =>
      assert DataOf(a)["name"] == DataOf(b)["name"] && DataOf(a)["arguments"] == DataOf(b)["arguments"];
    case RunEnd(status) =>
      assert DataOf(a)["status"] == DataOf(b)["status"];
      assert |StatusName(status)| == |StatusName(b.status)| && StatusName(status)[1] == StatusName(b.status)[1];
    case _ =>
  }

  lemma OneEnvelope(e: Event, f: Event)
    requires Envelope(e) == Envelope(f)
    ensures e == f
  {
    var a, b := Envelope(e).fields, Envelope(f).fields;
    assert a["event_id"] == b["event_id"] && a["event"] == b["event"] && a["data"] == b["data"];
    OneBody(e.body, f.body);
  }

  ghost function ShowEvent(e: Event): string {
    Print(Envelope(e), "")
  }

  /** The event whose text this is, if it is the text of one. */
  ghost function ParseEvent(text: string): Option<Event> {
    if exists e :: ShowEvent(e) == text then
      var e :| ShowEvent(e) == text;
      Some(e)
    else None
  }

  ghost function JsonCodec(): Codec {
    Codec(e => ShowEvent(e), text => ParseEvent(text))
  }

  /** An event's text is no other event's, nor a proper beginning of one. */
  lemma OneEvent(e: Event, f: Event, rest: string)
    requires ShowEvent(f) + rest == ShowEvent(e)
    ensures e == f && rest == ""
  {
    PrintAppends(Envelope(f), "", rest);
    assert "" + rest == rest;
    OneValue(Envelope(e), "", Envelope(f), rest);
    OneEnvelope(e, f);
  }

  lemma JsonTells(e: Event)
    ensures Tells(JsonCodec(), e)
  {
    var text := ShowEvent(e);
    hide Print;
    PrintStart(Envelope(e), "");
    PrintOnLine(Envelope(e), "");
    forall f | ShowEvent(f) == text ensures f == e {
      OneEvent(e, f, "");
    }
    forall k | 0 < k < |text| ensures ParseEvent(text[..k]) == None {
      forall f | ShowEvent(f) == text[..k] ensures false {
        assert text[..k] + text[k..] == text;
        OneEvent(e, f, text[k..]);
      }
    }
  }

  /** JSON is faithful to every event, so the theorems that ask for a faithful codec are about something. */
  lemma JsonIsFaithful(events: seq<Event>)
    ensures Faithful(JsonCodec(), events)
  {
    forall i | 0 <= i < |events| ensures Tells(JsonCodec(), events[i]) {
      JsonTells(events[i]);
    }
  }
}
