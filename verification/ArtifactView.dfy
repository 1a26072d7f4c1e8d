/** What a finished turn shows: the backend's scan over stored artifacts, and the browser's fold over run events. */
module ArtifactView {
  import opened Records
  import opened Repository
  import opened RunEvents
  import opened RunChannel

  // ----- the backend: drop errors that a later success of their type supersedes -----

  predicate Succeeded(a: Payload) {
    Get(a, "status") == Text("ok")
  }

  predicate HasTextType(a: Payload) {
    Get(a, "artifact_type").Text?
  }

  function TypeName(a: Payload): string
    requires HasTextType(a)
  {
    Get(a, "artifact_type").s
  }

  function SuccessfulTypes(artifacts: seq<Payload>): set<string> {
    set i | 0 <= i < |artifacts| && HasTextType(artifacts[i]) && Succeeded(artifacts[i]) :: TypeName(artifacts[i])
  }

  /** Dropped from storage because of what comes after it. */
  predicate Superseded(a: Payload, later: seq<Payload>) {
    HasTextType(a) && !Succeeded(a) && TypeName(a) in SuccessfulTypes(later)
  }

  function Stored(artifacts: seq<Payload>): seq<Payload> {
    if artifacts == [] then []
    else (if Superseded(artifacts[0], artifacts[1..]) then [] else [artifacts[0]]) + Stored(artifacts[1..])
  }

  lemma SuccessfulTypesFirst(a: Payload, later: seq<Payload>)
    ensures SuccessfulTypes([a] + later)
         == SuccessfulTypes(later) + if HasTextType(a) && Succeeded(a) then {TypeName(a)} else {}
  {
    var all := [a] + later;
    forall t | t in SuccessfulTypes(later) ensures t in SuccessfulTypes(all) {
      var i :| 0 <= i < |later| && HasTextType(later[i]) && Succeeded(later[i]) && TypeName(later[i]) == t;
      assert all[i + 1] == later[i];
    }
    if HasTextType(a) && Succeeded(a) { assert all[0] == a; }
    forall t | t in SuccessfulTypes(all)
      ensures t in SuccessfulTypes(later) + if HasTextType(a) && Succeeded(a) then {TypeName(a)} else {}
    {
      var i :| 0 <= i < |all| && HasTextType(all[i]) && Succeeded(all[i]) && TypeName(all[i]) == t;
      if i > 0 { assert later[i - 1] == all[i]; }
    }
  }

  method WithoutSupersededErrors(artifacts: seq<Payload>) returns (kept: seq<Payload>)
    ensures kept == Stored(artifacts)
  {
    var successful: set<string> := {};
    var reversed: seq<Payload> := [];
    var i := |artifacts|;
    while i > 0
      invariant 0 <= i <= |artifacts|
      invariant successful == SuccessfulTypes(artifacts[i..])
      invariant Reverse(reversed) == Stored(artifacts[i..])
    {
      i := i - 1;
      var a := artifacts[i];
      assert artifacts[i..] == [a] + artifacts[i + 1..];
      SuccessfulTypesFirst(a, artifacts[i + 1..]);
      ReverseOneMore(reversed, a);
      if !Get(a, "artifact_type").Text? {
        reversed := reversed + [a];
      } else if Get(a, "status") == Text("ok") {
        successful := successful + {Get(a, "artifact_type").s};
        reversed := reversed + [a];
      } else if Get(a, "artifact_type").s !in successful {
        reversed := reversed + [a];
      }
    }
    assert artifacts[0..] == artifacts;
    kept := Reverse(reversed);
  }

  function Reverse<T>(s: seq<T>): (r: seq<T>)
    ensures |r| == |s|
  {
    if s == [] then [] else [s[|s| - 1]] + Reverse(s[..|s| - 1])
  }

  lemma ReverseOneMore<T>(s: seq<T>, x: T)
    ensures Reverse(s + [x]) == [x] + Reverse(s)
  {
    assert (s + [x])[..|s|] == s;
  }

  // ----- the browser: each success removes the errors of its type shown so far -----

  function Field(a: Payload, name: string): Option<Value> {
    if name in a then Some(a[name]) else None
  }

  /** JavaScript's === on parsed JSON: numbers by value, and no object or array is identical to another. */
  predicate Identical(x: Option<Value>, y: Option<Value>) {
    || (x == y && (x.Some? ==> !x.value.Object? && !x.value.Items?))
    || (x.Some? && y.Some? && NumberOf(x.value).Some? && NumberOf(x.value) == NumberOf(y.value))
  }

  predicate Replaces(success: Payload, a: Payload) {
    && Get(success, "status") == Text("ok")
    && Identical(Field(a, "artifact_type"), Field(success, "artifact_type")) && Get(a, "status") == Text("error")
  }

  function WithoutReplaced(shown: seq<Payload>, a: Payload): seq<Payload> {
    if shown == [] then []
    else (if Replaces(a, shown[0]) then [] else [shown[0]]) + WithoutReplaced(shown[1..], a)
  }

  function ShowArtifact(shown: seq<Payload>, a: Payload): seq<Payload> {
    WithoutReplaced(shown, a) + [a]
  }

  function Shown(artifacts: seq<Payload>): seq<Payload> {
    if artifacts == [] then []
    else ShowArtifact(Shown(artifacts[..|artifacts| - 1]), artifacts[|artifacts| - 1])
  }

  /** Dropped from view because of what comes after it. */
  predicate Replaced(a: Payload, later: seq<Payload>) {
    exists i :: 0 <= i < |later| && Replaces(later[i], a)
  }

  /** The artifacts of which nothing later disposes. */
  function Live(artifacts: seq<Payload>): seq<Payload> {
    if artifacts == [] then []
    else (if Replaced(artifacts[0], artifacts[1..]) then [] else [artifacts[0]]) + Live(artifacts[1..])
  }

  lemma ReplacedOneMore(a: Payload, later: seq<Payload>, x: Payload)
    ensures Replaced(a, later + [x]) <==> Replaced(a, later) || Replaces(x, a)
  {
    var all := later + [x];
    assert all[|later|] == x;
    if Replaced(a, later) {
      var i :| 0 <= i < |later| && Replaces(later[i], a);
      assert all[i] == later[i];
    }
  }

  lemma {:induction false} LiveOneMore(artifacts: seq<Payload>, x: Payload)
    ensures Live(artifacts + [x]) == ShowArtifact(Live(artifacts), x)
  {
    var all := artifacts + [x];
    if artifacts == [] {
      assert all[1..] == [];
    } else {
      var a := artifacts[0];
      assert all[1..] == artifacts[1..] + [x];
      LiveOneMore(artifacts[1..], x);
      ReplacedOneMore(a, artifacts[1..], x);
      var rest := Live(artifacts[1..]);
      hide Replaces, Replaced;
      if Replaced(a, artifacts[1..]) {
        assert Live(artifacts) == rest;
      } else {
        assert Live(artifacts) == [a] + rest && ([a] + rest)[1..] == rest;
        var head := if Replaces(x, a) then [] else [a];
        assert WithoutReplaced([a] + rest, x) == head + WithoutReplaced(rest, x);
        assert Live(all) == head + (WithoutReplaced(rest, x) + [x]);
      }
    }
  }

  /** The browser's incremental view keeps exactly the artifacts that no later success replaces. */
  lemma {:induction false} ShownIsLive(artifacts: seq<Payload>)
    ensures Shown(artifacts) == Live(artifacts)
  {
    if artifacts != [] {
      var before := artifacts[..|artifacts| - 1];
      ShownIsLive(before);
      LiveOneMore(before, artifacts[|artifacts| - 1]);
      assert before + [artifacts[|artifacts| - 1]] == artifacts;
    }
  }

  // ----- when the two views are the same -----

  /** One view drops the first artifact and the other keeps it. */
  predicate Disputed(a: Payload, later: seq<Payload>) {
    Superseded(a, later) != Replaced(a, later)
  }

  predicate AnyDisputed(artifacts: seq<Payload>) {
    artifacts != [] && (Disputed(artifacts[0], artifacts[1..]) || AnyDisputed(artifacts[1..]))
  }

  /** The statuses and types that can be disputed; the tools produce neither. */
  predicate Odd(a: Payload) {
    if HasTextType(a) then Get(a, "status") != Text("ok") && Get(a, "status") != Text("error")
    else Get(a, "status") == Text("error")
  }

  lemma SupersededIsReplaced(a: Payload, later: seq<Payload>)
    ensures HasTextType(a) && Get(a, "status") == Text("error") ==> (Superseded(a, later) <==> Replaced(a, later))
    ensures HasTextType(a) && Get(a, "status") != Text("error") ==> !Replaced(a, later)
    ensures !HasTextType(a) ==> !Superseded(a, later)
    ensures Get(a, "status") != Text("error") && !HasTextType(a) ==> !Replaced(a, later)
  {
    if HasTextType(a) && Get(a, "status") == Text("error") {
      if Superseded(a, later) {
        var i :| 0 <= i < |later| && HasTextType(later[i]) && Succeeded(later[i]) && TypeName(later[i]) == TypeName(a);
        assert Replaces(later[i], a);
      }
      if Replaced(a, later) {
        var i :| 0 <= i < |later| && Replaces(later[i], a);
        assert HasTextType(later[i]) && Succeeded(later[i]);
      }
    }
  }

  lemma DisputedIsOdd(a: Payload, later: seq<Payload>)
    requires Disputed(a, later)
    ensures Odd(a) && (HasTextType(a) ==> Superseded(a, later)) && (!HasTextType(a) ==> Replaced(a, later))
  {
    SupersededIsReplaced(a, later);
  }

  /** How often an artifact occurs. */
  function Count(artifacts: seq<Payload>, a: Payload): nat {
    if artifacts == [] then 0 else (if artifacts[0] == a then 1 else 0) + Count(artifacts[1..], a)
  }

  lemma {:induction false} CountParts(x: seq<Payload>, y: seq<Payload>, a: Payload)
    ensures Count(x + y, a) == Count(x, a) + Count(y, a)
  {
    if x == [] {
      assert x + y == y;
    } else {
      assert (x + y)[1..] == x[1..] + y;
      CountParts(x[1..], y, a);
    }
  }

  /** An odd artifact is never dropped from one of the views; if it is dropped from the other it is rarer there. */
  lemma {:induction false} OddCounts(artifacts: seq<Payload>, a: Payload)
    requires Odd(a)
    ensures HasTextType(a) ==> Count(Stored(artifacts), a) <= Count(Live(artifacts), a)
    ensures !HasTextType(a) ==> Count(Live(artifacts), a) <= Count(Stored(artifacts), a)
  {
    if artifacts != [] {
      var first, later := artifacts[0], artifacts[1..];
      OddCounts(later, a);
      SupersededIsReplaced(first, later);
      CountParts(if Superseded(first, later) then [] else [first], Stored(later), a);
      CountParts(if Replaced(first, later) then [] else [first], Live(later), a);
      CountOne(first, a);
      hide Superseded, Replaced;
    }
  }

  lemma CountOne(first: Payload, a: Payload)
    ensures Count([first], a) == (if first == a then 1 else 0) && Count([], a) == 0
  {
  }

  lemma {:induction false} DisputeShows(artifacts: seq<Payload>)
    requires AnyDisputed(artifacts)
    ensures Stored(artifacts) != Live(artifacts)
  {
    var first, later := artifacts[0], artifacts[1..];
    if Disputed(first, later) {
      DisputedIsOdd(first, later);
      OddCounts(later, first);
      CountParts(if Superseded(first, later) then [] else [first], Stored(later), first);
      CountParts(if Replaced(first, later) then [] else [first], Live(later), first);
      CountOne(first, first);
      hide Superseded, Replaced;
    } else {
      DisputeShows(later);
      SameHead(if Superseded(first, later) then [] else [first], Stored(later), Live(later));
    }
  }

  lemma SameHead(head: seq<Payload>, x: seq<Payload>, y: seq<Payload>)
    requires x != y
    ensures head + x != head + y
  {
    assert (head + x)[|head|..] == x && (head + y)[|head|..] == y;
  }

  /** The live view and the stored view are equal exactly when no artifact is dropped from only one of them. */
  lemma {:induction false} ViewsAgreeIff(artifacts: seq<Payload>)
    ensures Shown(artifacts) == Stored(artifacts) <==> !AnyDisputed(artifacts)
  {
    ShownIsLive(artifacts);
    if AnyDisputed(artifacts) {
      DisputeShows(artifacts);
    } else {
      UndisputedAgree(artifacts);
    }
  }

  lemma {:induction false} UndisputedAgree(artifacts: seq<Payload>)
    requires !AnyDisputed(artifacts)
    ensures Live(artifacts) == Stored(artifacts)
  {
    if artifacts != [] {
      UndisputedAgree(artifacts[1..]);
    }
  }

  /** What the tools emit: a text type, and status ok or error. */
  predicate Regular(a: Payload) {
    HasTextType(a) && (Get(a, "status") == Text("ok") || Get(a, "status") == Text("error"))
  }

  lemma {:induction false} RegularViewsAgree(artifacts: seq<Payload>)
    requires forall i :: 0 <= i < |artifacts| ==> Regular(artifacts[i])
    ensures Shown(artifacts) == Stored(artifacts)
  {
    ViewsAgreeIff(artifacts);
    RegularIsUndisputed(artifacts);
  }

  lemma {:induction false} RegularIsUndisputed(artifacts: seq<Payload>)
    requires forall i :: 0 <= i < |artifacts| ==> Regular(artifacts[i])
    ensures !AnyDisputed(artifacts)
  {
    if artifacts != [] {
      SupersededIsReplaced(artifacts[0], artifacts[1..]);
      RegularIsUndisputed(artifacts[1..]);
    }
  }

  // ----- the whole live turn -----

  datatype LiveStatus = Running | CompletedTurn | CancelledTurn | ErrorTurn

  datatype LiveCall = LiveCall(name: string, arguments: Payload)

  datatype LiveTurn = LiveTurn(assistant: string, calls: seq<LiveCall>, artifacts: seq<Payload>, status: LiveStatus)

  const NEW_TURN := LiveTurn("", [], [], Running)

  function ReduceRunEvent(turn: LiveTurn, body: Body): LiveTurn {
    match body
    case Metadata => turn
    case Progress => turn
    case Chunk(delta) => turn.(assistant := turn.assistant + if delta.Text? then delta.s else "")
    case ToolCall(name, arguments) =>
      turn.(calls := turn.calls + [LiveCall(if name.Text? then name.s else "unknown tool",
                                        if arguments.Object? then arguments.fields else map[])])
    case ToolResult => turn
    case ArtifactBody(data) => turn.(artifacts := ShowArtifact(turn.artifacts, data))
    case ErrorBody => turn.(status := ErrorTurn)
    case RunEnd(status) =>
      turn.(status := match status
                      case Completed => CompletedTurn
                      case Cancelled => CancelledTurn
                      case InProgress => ErrorTurn
                      case Failed => ErrorTurn)
  }

  function Viewed(events: seq<Event>): LiveTurn {
    if events == [] then NEW_TURN
    else ReduceRunEvent(Viewed(events[..|events| - 1]), events[|events| - 1].body)
  }

  predicate ProperCall(body: Body) {
    body.ToolCall? ==> body.name.Text? && body.arguments.Object?
  }

  function Recorded(calls: seq<LiveCall>): seq<Payload> {
    seq(|calls|, i requires 0 <= i < |calls| =>
      map["name" := Text(calls[i].name), "arguments" := Object(calls[i].arguments)])
  }

  /** The live turn shows the text that a cancellation would store, and its view of the artifacts. */
  lemma {:induction false} LiveTurnIsSnapshot(events: seq<Event>)
    ensures Viewed(events).assistant == Answer(events)
    ensures Viewed(events).artifacts == Shown(Artifacts(events))
  {
    if events != [] {
      var before := events[..|events| - 1];
      LiveTurnIsSnapshot(before);
      var body := events[|events| - 1].body;
      ViewedStep(events);
      SnapshotStep(events);
      hide Viewed, Answer, Artifacts, ShowArtifact, Shown;
      if body.ArtifactBody? { ShownOneMore(Artifacts(before), body.data); }
    }
  }

  lemma ViewedStep(events: seq<Event>)
    requires events != []
    ensures Viewed(events) == ReduceRunEvent(Viewed(events[..|events| - 1]), events[|events| - 1].body)
  {
    hide ReduceRunEvent;
  }

  lemma SnapshotStep(events: seq<Event>)
    requires events != []
    ensures var before, body := events[..|events| - 1], events[|events| - 1].body;
            && Answer(events) ==
                 (if body.Chunk? && body.delta.Text? then Answer(before) + body.delta.s else Answer(before))
            && Artifacts(events) == if body.ArtifactBody? then Artifacts(before) + [body.data] else Artifacts(before)
  {
  }

  lemma ShownOneMore(artifacts: seq<Payload>, a: Payload)
    ensures Shown(artifacts + [a]) == ShowArtifact(Shown(artifacts), a)
  {
    assert (artifacts + [a])[..|artifacts|] == artifacts;
    hide ShowArtifact;
  }

  /** Every call is shown, and a proper one is stored as it is shown; an improper one is not stored. */
  lemma CallsStep(events: seq<Event>)
    requires events != []
    ensures var before, body := events[..|events| - 1], events[|events| - 1].body;
            && |Viewed(events).calls| == |Viewed(before).calls| + (if body.ToolCall? then 1 else 0)
            && |ToolCalls(events)| == |ToolCalls(before)| + (if body.ToolCall? && ProperCall(body) then 1 else 0)
    ensures var before, body := events[..|events| - 1], events[|events| - 1].body;
            ProperCall(body) && Recorded(Viewed(before).calls) == ToolCalls(before) ==>
              Recorded(Viewed(events).calls) == ToolCalls(events)
  {
    var before, last := events[..|events| - 1], events[|events| - 1].body;
    var calls := Viewed(before).calls;
    if last.ToolCall? && ProperCall(last) {
      assert Recorded(Viewed(events).calls)
          == Recorded(calls) + [map["name" := last.name, "arguments" := last.arguments]];
    }
  }

  lemma {:induction false} CallCounts(events: seq<Event>)
    ensures |ToolCalls(events)| <= |Viewed(events).calls|
    ensures (forall i :: 0 <= i < |events| ==> ProperCall(events[i].body)) ==>
      Recorded(Viewed(events).calls) == ToolCalls(events)
    ensures !(forall i :: 0 <= i < |events| ==> ProperCall(events[i].body)) ==>
      |ToolCalls(events)| < |Viewed(events).calls|
  {
    if events != [] {
      var before := events[..|events| - 1];
      CallCounts(before);
      CallsStep(events);
      assert forall i :: 0 <= i < |before| ==> before[i] == events[i];
      hide Viewed, ToolCalls, Recorded;
    }
  }

  /** The live calls are the calls that a cancellation would store if and only if all of them are proper. */
  lemma LiveCallsAreSnapshotIff(events: seq<Event>)
    ensures Recorded(Viewed(events).calls) == ToolCalls(events)
            <==> forall i :: 0 <= i < |events| ==> ProperCall(events[i].body)
  {
    CallCounts(events);
    assert |Recorded(Viewed(events).calls)| == |Viewed(events).calls|;
  }

  /** Once a run has ended the live status is the status its run_end reported. */
  lemma LiveStatusAtEnd(events: seq<Event>, status: Status)
    requires events != [] && events[|events| - 1].body == RunEnd(status)
    ensures Viewed(events).status.CompletedTurn? <==> status.Completed?
    ensures Viewed(events).status.CancelledTurn? <==> status.Cancelled?
  {
  }

  /**
   * A cancellation stores every artifact as recorded, while the live turn has dropped the replaced ones: the two are
   * the same exactly when nothing was replaced.
   */
  lemma CancelledViewAgreesIff(events: seq<Event>)
    ensures Viewed(events).artifacts == Artifacts(events) <==> !AnyReplaced(Artifacts(events))
  {
    LiveTurnIsSnapshot(events);
    ShownIsLive(Artifacts(events));
    LiveLength(Artifacts(events));
  }

  predicate AnyReplaced(artifacts: seq<Payload>) {
    artifacts != [] && (Replaced(artifacts[0], artifacts[1..]) || AnyReplaced(artifacts[1..]))
  }

  lemma {:induction false} LiveLength(artifacts: seq<Payload>)
    ensures if AnyReplaced(artifacts) then |Live(artifacts)| < |artifacts| else Live(artifacts) == artifacts
    ensures |Live(artifacts)| <= |artifacts|
  {
    if artifacts != [] {
      LiveLength(artifacts[1..]);
      hide Replaced;
    }
  }
}
