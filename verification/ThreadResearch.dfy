/** What the thread service answers: the first response of a run, its replays, and the stream of a replay. */
module ThreadResearch {
  import opened Records
  import opened Repository
  import opened History
  import opened RunEvents
  import opened RunChannel
  import opened ArtifactView

  // ----- tool calls in and out of storage -----

  datatype ToolStatus = ToolOk | ToolError

  datatype ExecutedToolCall = ExecutedToolCall(name: string, arguments: Payload, status: Option<ToolStatus>,
                                               summary: Option<string>)

  function StatusText(s: ToolStatus): string {
    match s case ToolOk => "ok" case ToolError => "error"
  }

  function ToolCallPayload(call: ExecutedToolCall): Payload {
    var named: Payload := map["name" := Text(call.name), "arguments" := Object(call.arguments)];
    var rated := if call.status.Some? then named["status" := Text(StatusText(call.status.value))] else named;
    if call.summary.Some? then rated["summary" := Text(call.summary.value)] else rated
  }

  function ToolCallPayloads(calls: seq<ExecutedToolCall>): seq<Payload> {
    seq(|calls|, i requires 0 <= i < |calls| => ToolCallPayload(calls[i]))
  }

  function ReadStatus(v: Value): Option<ToolStatus> {
    if v == Text("ok") then Some(ToolOk) else if v == Text("error") then Some(ToolError) else None
  }

  /** A stored call reads back unless its name or its arguments are not what they should be. */
  function ReadCall(stored: Payload): Option<ExecutedToolCall> {
    var name, arguments, summary := Get(stored, "name"), Get(stored, "arguments"), Get(stored, "summary");
    if !name.Text? || !arguments.Object? then None
    else Some(ExecutedToolCall(name.s, arguments.fields, ReadStatus(Get(stored, "status")),
                               if summary.Text? then Some(summary.s) else None))
  }

  function ReadCalls(stored: seq<Payload>): seq<ExecutedToolCall> {
    if stored == [] then []
    else
      var last := ReadCall(stored[|stored| - 1]);
      ReadCalls(stored[..|stored| - 1]) + if last.Some? then [last.value] else []
  }

  method StoredToolCalls(stored: seq<Payload>) returns (calls: seq<ExecutedToolCall>)
    ensures calls == ReadCalls(stored)
  {
    calls := [];
    var i := 0;
    while i < |stored|
      invariant 0 <= i <= |stored| && calls == ReadCalls(stored[..i])
    {
      var name, arguments := Get(stored[i], "name"), Get(stored[i], "arguments");
      assert stored[..i + 1][..i] == stored[..i];
      i := i + 1;
      if !name.Text? || !arguments.Object? {
        continue;
      }
      var summary := Get(stored[i - 1], "summary");
      calls := calls + [ExecutedToolCall(name.s, arguments.fields, ReadStatus(Get(stored[i - 1], "status")),
                                         if summary.Text? then Some(summary.s) else None)];
    }
    assert stored[..|stored|] == stored;
  }

  lemma CallReadsBack(call: ExecutedToolCall)
    ensures ReadCall(ToolCallPayload(call)) == Some(call)
  {
    var payload := ToolCallPayload(call);
    assert Get(payload, "name") == Text(call.name) && Get(payload, "arguments") == Object(call.arguments);
    assert Get(payload, "status") == if call.status.Some? then Text(StatusText(call.status.value)) else Null;
    assert Get(payload, "summary") == if call.summary.Some? then Text(call.summary.value) else Null;
  }

  /** Round trip: the calls a run executed are the calls its stored turn reports. */
  lemma {:induction false} CallsReadBack(calls: seq<ExecutedToolCall>)
    ensures ReadCalls(ToolCallPayloads(calls)) == calls
  {
    hide ReadCall, ToolCallPayload;
    if calls != [] {
      var front, last := calls[..|calls| - 1], calls[|calls| - 1];
      CallsReadBack(front);
      CallReadsBack(last);
      var stored := ToolCallPayloads(calls);
      assert stored[..|stored| - 1] == ToolCallPayloads(front);
      assert stored[|stored| - 1] == ToolCallPayload(last);
      hide ToolCallPayloads;
    }
  }

  // ----- artifacts out of storage -----

  /** How identities are written; what it does to them is not looked at. */
  type IdText = ArtifactId -> string

  function ArtifactEnvelope(a: Artifact, idText: IdText): Payload {
    var e: Payload := map["artifact_id" := Text(idText(a.artifactId)), "artifact_type" := Text(a.kind),
                          "schema_version" := Int(a.schemaVersion), "status" := Text(if a.ok then "ok" else "error")];
    var e1 := if a.data.Some? then e["data" := Object(a.data.value)] else e;
    var e2 := if a.error.Some? then e1["error" := Text(a.error.value)] else e1;
    if a.provenance.Some? then e2["provenance" := Object(a.provenance.value)] else e2
  }

  /** Storing a well-formed artifact and reading its envelope gives its fields back. */
  lemma EnvelopeReadsBack(runId: Id, ordinal: nat, raw: RawArtifact, now: Instant, idText: IdText)
    requires WellFormed(raw)
    ensures var e := ArtifactEnvelope(StoreArtifact(runId, ordinal, raw, now), idText);
            && Get(e, "artifact_type") == raw.kind && Get(e, "schema_version") == raw.schemaVersion
            && Get(e, "status") == raw.status && Get(e, "data") == raw.data && Get(e, "error") == raw.error
            && Get(e, "provenance") == raw.provenance
            && Regular(e)
  {
  }

  // ----- results -----

  datatype ResearchTurn = ResearchTurn(threadId: Id, runId: Id, turn: nat, answer: string,
                                       toolCalls: seq<ExecutedToolCall>, artifacts: seq<Payload>, replayed: bool)

  function Envelopes(artifacts: seq<Artifact>, idText: IdText): seq<Payload> {
    seq(|artifacts|, i requires 0 <= i < |artifacts| => ArtifactEnvelope(artifacts[i], idText))
  }

  function CompletedResult(turn: Turn, idText: IdText, replayed: bool): ResearchTurn {
    ResearchTurn(turn.run.threadId, turn.run.runId, turn.run.turn,
                 if turn.run.answer.Some? then turn.run.answer.value else "",
                 ReadCalls(turn.run.toolCalls), Envelopes(turn.artifacts, idText), replayed)
  }

  datatype Response =
    | Responded(result: ResearchTurn) | StillRunning(runId: Id) | RunFailedBefore(code: string) | Missing

  /** A retransmission is answered from storage, by the status its admission saw. */
  function Replay(s: Repo, run: Run, idText: IdText): Response {
    match run.status
    case InProgress => StillRunning(run.runId)
    case Failed => RunFailedBefore(if NonBlank(run.errorCode) then run.errorCode.value else "research_failed")
    case Cancelled => RunFailedBefore(if NonBlank(run.errorCode) then run.errorCode.value else "research_failed")
    case Completed =>
      var turn := GetTurn(s, run.runId);
      if turn.None? then Missing else Responded(CompletedResult(turn.value, idText, true))
  }

  predicate NonBlank(s: Option<string>) {
    s.Some? && s.value != ""
  }

  /** The finalization of a run from its admission and the agent's result. */
  function Finalize(admission: Admission, checkpoint: string, answer: string, calls: seq<ExecutedToolCall>,
                    artifacts: seq<RawArtifact>, now: Instant): Call
  {
    CompleteCall(admission.run.runId, admission.fromCheckpoint, checkpoint, answer, ToolCallPayloads(calls), artifacts,
                 now)
  }

  /** A successful finalization answers with what the agent produced. */
  lemma FirstResponse(s: Repo, admission: Admission, checkpoint: string, answer: string, calls: seq<ExecutedToolCall>,
                      artifacts: seq<RawArtifact>, now: Instant, idText: IdText)
    requires Linked(s)
    requires CompletionOf(s, Finalize(admission, checkpoint, answer, calls, artifacts, now)).Ok?
    ensures var turn := CompletionOf(s, Finalize(admission, checkpoint, answer, calls, artifacts, now)).value;
            var result := CompletedResult(turn, idText, false);
            && result.runId == admission.run.runId && result.answer == answer && result.toolCalls == calls
            && AllWellFormed(artifacts) && |result.artifacts| == |artifacts|
            && forall i :: 0 <= i < |artifacts| ==>
                 result.artifacts[i] == ArtifactEnvelope(StoreArtifact(result.runId, i, artifacts[i], now), idText)
  {
    CallsReadBack(calls);
    hide ArtifactEnvelope, StoreArtifact, ReadCalls, ToolCallPayloads;
  }

  /**
   * Once a run has completed, every later retransmission of its request, whatever the repository did in between and
   * does until the turn is read, is answered with the first response.
   */
  lemma ReplayEqualsFirstResponse(ws: seq<World>, cs: seq<Call>, i: nat, j: nat, k: nat, again: Call, idText: IdText)
    requires IsHistory(ws, cs) && i < |cs| && i < j <= k < |ws|
    requires cs[i].CompleteCall? && Linked(ws[i].repo) && CompletionOf(ws[i].repo, cs[i]).Ok?
    requires again.AdmitCall? && again.key.Some? && again.key.value in ws[i].repo.keys
    requires ws[i].repo.keys[again.key.value] == cs[i].runId
    requires !KeyMismatch(CompletionOf(ws[i].repo, cs[i]).value.run, again.threadId, again.message)
    ensures Inv(ws[j].repo) && AdmissionOf(ws[j].repo, again).Ok? && AdmissionOf(ws[j].repo, again).value.replayed
    ensures var first := CompletedResult(CompletionOf(ws[i].repo, cs[i]).value, idText, false);
            Replay(ws[k].repo, AdmissionOf(ws[j].repo, again).value.run, idText) == Responded(first.(replayed := true))
  {
    HistoryInv(ws, cs, j);
    CompletedTurnIsFrozen(ws, cs, i, j);
    CompletedTurnIsFrozen(ws, cs, i, k);
    HistoryExtends(ws, cs, i, j);
    hide IsHistory;
    ReplayReadsTurn(ws[i].repo, ws[j].repo, ws[k].repo, cs[i], again, idText);
  }

  lemma ReplayReadsTurn(s: Repo, s': Repo, s'': Repo, c: Call, again: Call, idText: IdText)
    requires Linked(s) && c.CompleteCall? && CompletionOf(s, c).Ok? && Inv(s') && Extends(s, s')
    requires again.AdmitCall? && again.key.Some? && again.key.value in s.keys && s.keys[again.key.value] == c.runId
    requires !KeyMismatch(CompletionOf(s, c).value.run, again.threadId, again.message)
    requires GetTurn(s', c.runId) == GetTurn(s'', c.runId) == Some(CompletionOf(s, c).value)
    ensures AdmissionOf(s', again).Ok? && AdmissionOf(s', again).value.replayed
    ensures var first := CompletedResult(CompletionOf(s, c).value, idText, false);
            Replay(s'', AdmissionOf(s', again).value.run, idText) == Responded(first.(replayed := true))
  {
    var turn := CompletionOf(s, c).value;
    CompletionTurn(s, c);
    hide CompletionOf, Envelopes, ReadCalls, CompletedResult, LifecycleCheck, TurnsGapFree, NewestRunLeads;
    hide EvidenceFiled;
    assert s'.keys[again.key.value] == c.runId && s'.runs[c.runId] == turn.run;
  }

  lemma CompletionTurn(s: Repo, c: Call)
    requires Linked(s) && c.CompleteCall? && CompletionOf(s, c).Ok?
    ensures CompletionOf(s, c).value.run.status == Completed && CompletionOf(s, c).value.run.runId == c.runId
  {
  }

  /** The agent runs once per fresh admission, and no run and no key is ever admitted fresh twice. */
  lemma AgentRunsAtMostOnce(ws: seq<World>, cs: seq<Call>, i: nat, j: nat)
    requires IsHistory(ws, cs) && i < j < |cs| && cs[i].AdmitCall? && cs[j].AdmitCall?
    requires Linked(ws[i].repo) && Linked(ws[j].repo)
    requires AdmissionOf(ws[i].repo, cs[i]).Ok? && !AdmissionOf(ws[i].repo, cs[i]).value.replayed
    requires AdmissionOf(ws[j].repo, cs[j]).Ok? && !AdmissionOf(ws[j].repo, cs[j]).value.replayed
    ensures AdmissionOf(ws[i].repo, cs[i]).value.run.runId != AdmissionOf(ws[j].repo, cs[j]).value.run.runId
    ensures cs[i].key.Some? ==> cs[j].key != cs[i].key
  {
    FreshAdmission(ws, cs, i);
    FreshAdmission(ws, cs, j);
    HistoryExtends(ws, cs, i + 1, j);
    hide Admit;
    if cs[i].key.Some? {
      var d := cs[j];
      var again := AdmitCall(d.threadId, d.message, cs[i].key, d.freshThread, d.freshRun, d.now);
      RetransmissionIsIdempotent(ws, cs, i + 1, j, again);
    }
  }

  /** A fresh admission's run and key are new before it and bound after it. */
  lemma FreshAdmission(ws: seq<World>, cs: seq<Call>, i: nat)
    requires IsHistory(ws, cs) && i < |cs| && cs[i].AdmitCall? && Linked(ws[i].repo)
    requires AdmissionOf(ws[i].repo, cs[i]).Ok? && !AdmissionOf(ws[i].repo, cs[i]).value.replayed
    ensures AdmissionOf(ws[i].repo, cs[i]).value.run.runId == cs[i].freshRun
    ensures cs[i].freshRun !in ws[i].repo.runs && cs[i].freshRun in ws[i + 1].repo.runs
    ensures cs[i].key.Some? ==> cs[i].key.value in ws[i + 1].repo.keys
  {
    assert Follows(ws, cs, i);
    HistoryInv(ws, cs, i);
    var c := cs[i];
    hide IsHistory;
    AdmitShape(ws[i].repo, c.threadId, c.message, c.key, c.freshThread, c.freshRun, c.now);
  }

  /** The service's own handling of a checkpoint conflict is dead: its finalization never meets one. */
  lemma ThreadConflictUnreachable(ws: seq<World>, cs: seq<Call>, i: nat, j: nat, checkpoint: string, answer: string,
                                  calls: seq<ExecutedToolCall>, artifacts: seq<RawArtifact>, now: Instant)
    requires IsHistory(ws, cs) && i < |cs| && i < j < |ws| && cs[i].AdmitCall? && Linked(ws[i].repo)
    requires AdmissionOf(ws[i].repo, cs[i]).Ok? && !AdmissionOf(ws[i].repo, cs[i]).value.replayed
    ensures Linked(ws[j].repo)
    ensures CompletionOf(ws[j].repo,
              Finalize(AdmissionOf(ws[i].repo, cs[i]).value, checkpoint, answer, calls, artifacts, now))
            != Err(CheckpointConflict)
  {
    var admission := AdmissionOf(ws[i].repo, cs[i]).value;
    var c := cs[i];
    assert Follows(ws, cs, i);
    HistoryInv(ws, cs, i);
    AdmitShape(ws[i].repo, c.threadId, c.message, c.key, c.freshThread, c.freshRun, c.now);
    assert admission.run.runId == c.freshRun;
    CheckpointConflictUnreachable(ws, cs, i, j, Finalize(admission, checkpoint, answer, calls, artifacts, now));
  }

  // ----- the stream of a replay -----

  function CallBodies(calls: seq<ExecutedToolCall>): seq<Body> {
    seq(|calls|, i requires 0 <= i < |calls| => ToolCall(Text(calls[i].name), Object(calls[i].arguments)))
  }

  function ArtifactBodies(artifacts: seq<Payload>): seq<Body> {
    seq(|artifacts|, i requires 0 <= i < |artifacts| => ArtifactBody(artifacts[i]))
  }

  function ReplayBodies(r: ResearchTurn): seq<Body> {
    [Metadata] + CallBodies(r.toolCalls) + ArtifactBodies(r.artifacts)
    + (if r.answer != "" then [Chunk(Text(r.answer))] else []) + [RunEnd(Completed)]
  }

  function NumberedFrom(bodies: seq<Body>, n: nat): seq<Event> {
    seq(|bodies|, i requires 0 <= i < |bodies| => Event(n + 1 + i, bodies[i]))
  }

  method EmitAll(producer: RunEventProducer, bodies: seq<Body>) returns (events: seq<Event>)
    modifies producer
    ensures events == NumberedFrom(bodies, old(producer.sequence))
    ensures producer.sequence == old(producer.sequence) + |bodies|
  {
    events := [];
    var i := 0;
    while i < |bodies|
      invariant 0 <= i <= |bodies| && producer.sequence == old(producer.sequence) + i
      invariant events == NumberedFrom(bodies, old(producer.sequence))[..i]
    {
      var event := producer.Emit(bodies[i]);
      events := events + [event];
      i := i + 1;
    }
  }

  method StreamReplay(r: ResearchTurn) returns (events: seq<Event>)
    ensures events == NumberedFrom(ReplayBodies(r), 0)
  {
    var producer := new RunEventProducer();
    var first := producer.Emit(Metadata);
    var calls := EmitAll(producer, CallBodies(r.toolCalls));
    var artifacts := EmitAll(producer, ArtifactBodies(r.artifacts));
    events := [first] + calls + artifacts;
    if r.answer != "" {
      var chunk := producer.Emit(Chunk(Text(r.answer)));
      events := events + [chunk];
    }
    var end := producer.Emit(RunEnd(Completed));
    events := events + [end];
  }

  /** The live turn after some events, continued with more bodies. */
  function ViewedAfter(turn: LiveTurn, bodies: seq<Body>): LiveTurn {
    if bodies == [] then turn
    else ReduceRunEvent(ViewedAfter(turn, bodies[..|bodies| - 1]), bodies[|bodies| - 1])
  }

  lemma {:induction false} ViewedOfNumbered(bodies: seq<Body>, n: nat)
    ensures Viewed(NumberedFrom(bodies, n)) == ViewedAfter(NEW_TURN, bodies)
  {
    if bodies != [] {
      var events := NumberedFrom(bodies, n);
      assert events[..|events| - 1] == NumberedFrom(bodies[..|bodies| - 1], n);
      ViewedOfNumbered(bodies[..|bodies| - 1], n);
      hide ReduceRunEvent;
    }
  }

  lemma {:induction false} ViewedInTwoGoes(turn: LiveTurn, a: seq<Body>, b: seq<Body>)
    ensures ViewedAfter(turn, a + b) == ViewedAfter(ViewedAfter(turn, a), b)
    decreases |b|
  {
    if b == [] {
      assert a + b == a;
    } else {
      assert (a + b)[..|a + b| - 1] == a + b[..|b| - 1];
      ViewedInTwoGoes(turn, a, b[..|b| - 1]);
      hide ReduceRunEvent;
    }
  }

  function AsCalls(calls: seq<ExecutedToolCall>): seq<LiveCall> {
    seq(|calls|, i requires 0 <= i < |calls| => LiveCall(calls[i].name, calls[i].arguments))
  }

  lemma {:induction false} ViewOfCalls(turn: LiveTurn, calls: seq<ExecutedToolCall>)
    ensures ViewedAfter(turn, CallBodies(calls)) == turn.(calls := turn.calls + AsCalls(calls))
    decreases |calls|
  {
    if calls != [] {
      var front, bodies := calls[..|calls| - 1], CallBodies(calls);
      assert bodies[..|bodies| - 1] == CallBodies(front);
      ViewOfCalls(turn, front);
      var last := LiveCall(calls[|calls| - 1].name, calls[|calls| - 1].arguments);
      assert AsCalls(calls) == AsCalls(front) + [last];
      assert turn.calls + AsCalls(front) + [last] == turn.calls + AsCalls(calls);
    }
  }

  lemma {:induction false} ViewOfArtifacts(turn: LiveTurn, artifacts: seq<Payload>)
    requires turn.artifacts == []
    ensures ViewedAfter(turn, ArtifactBodies(artifacts)) == turn.(artifacts := Shown(artifacts))
    decreases |artifacts|
  {
    if artifacts != [] {
      var front, bodies := artifacts[..|artifacts| - 1], ArtifactBodies(artifacts);
      assert bodies[..|bodies| - 1] == ArtifactBodies(front);
      ViewOfArtifacts(turn, front);
    }
  }

  /** The browser shows of a replayed stream the answer, the calls and the artifacts of the stored turn. */
  lemma ReplayStreamShowsResult(r: ResearchTurn)
    ensures var view := Viewed(NumberedFrom(ReplayBodies(r), 0));
            && view.assistant == r.answer && view.calls == AsCalls(r.toolCalls) && view.status.CompletedTurn?
            && view.artifacts == Shown(r.artifacts)
  {
    ViewedOfNumbered(ReplayBodies(r), 0);
    ViewOfReplay(r);
    hide Viewed, ViewedAfter, ReplayBodies, NumberedFrom;
  }

  lemma ViewOfReplay(r: ResearchTurn)
    ensures ViewedAfter(NEW_TURN, ReplayBodies(r))
         == LiveTurn(r.answer, AsCalls(r.toolCalls), Shown(r.artifacts), CompletedTurn)
  {
    hide ReduceRunEvent, Shown, CallBodies, ArtifactBodies, AsCalls;
    var calls, artifacts := CallBodies(r.toolCalls), ArtifactBodies(r.artifacts);
    var chunk := if r.answer != "" then [Chunk(Text(r.answer))] else [];
    ViewedInTwoGoes(NEW_TURN, [Metadata] + calls + artifacts + chunk, [RunEnd(Completed)]);
    ViewedInTwoGoes(NEW_TURN, [Metadata] + calls + artifacts, chunk);
    ViewedInTwoGoes(NEW_TURN, [Metadata] + calls, artifacts);
    ViewedInTwoGoes(NEW_TURN, [Metadata], calls);
    hide ViewedAfter;
    OneBody(NEW_TURN, Metadata);
    ViewOfCalls(NEW_TURN, r.toolCalls);
    assert NEW_TURN.calls + AsCalls(r.toolCalls) == AsCalls(r.toolCalls);
    var called := NEW_TURN.(calls := AsCalls(r.toolCalls));
    ViewOfArtifacts(called, r.artifacts);
    ViewOfEnd(called.(artifacts := Shown(r.artifacts)), r.answer);
  }

  lemma ViewOfEnd(turn: LiveTurn, answer: string)
    requires turn.assistant == ""
    ensures var chunk := if answer != "" then [Chunk(Text(answer))] else [];
            ViewedAfter(ViewedAfter(turn, chunk), [RunEnd(Completed)])
            == turn.(assistant := answer, status := CompletedTurn)
    ensures ReduceRunEvent(NEW_TURN, Metadata) == NEW_TURN
  {
    var chunk := if answer != "" then [Chunk(Text(answer))] else [];
    OneBody(turn, Chunk(Text(answer)));
    OneBody(ViewedAfter(turn, chunk), RunEnd(Completed));
    assert "" + answer == answer;
  }

  /** Its events are numbered 1 .. n, with the one run_end last. */
  lemma ReplayStreamIsNumbered(r: ResearchTurn)
    ensures Numbered(Log(NumberedFrom(ReplayBodies(r), 0), true))
  {
    var bodies := ReplayBodies(r);
    assert forall i :: 0 <= i < |bodies| - 1 ==> !bodies[i].RunEnd?;
  }

  lemma OneBody(turn: LiveTurn, body: Body)
    ensures ViewedAfter(turn, [body]) == ReduceRunEvent(turn, body)
    ensures ViewedAfter(turn, []) == turn
  {
    assert [body][..0] == [];
  }

  // ----- nothing stored is hidden again -----

  lemma {:induction false} StoredKeepsSuccesses(artifacts: seq<Payload>)
    ensures SuccessfulTypes(Stored(artifacts)) == SuccessfulTypes(artifacts)
  {
    if artifacts != [] {
      var first, later := artifacts[0], artifacts[1..];
      StoredKeepsSuccesses(later);
      SuccessfulTypesFirst(first, later);
      SuccessfulTypesFirst(first, Stored(later));
      assert artifacts == [first] + later;
      assert Superseded(first, later) ==> Stored(artifacts) == Stored(later);
      hide SuccessfulTypes;
    }
  }

  /** Filtering a turn's artifacts again changes nothing, so its replay shows all of them. */
  lemma {:induction false} StoredIsStable(artifacts: seq<Payload>)
    ensures Stored(Stored(artifacts)) == Stored(artifacts)
  {
    if artifacts != [] {
      var first, later := artifacts[0], artifacts[1..];
      StoredIsStable(later);
      StoredKeepsSuccesses(later);
      hide SuccessfulTypes;
      if Superseded(first, later) {
        assert Stored(artifacts) == Stored(later);
      } else {
        var kept := [first] + Stored(later);
        assert Stored(artifacts) == kept && kept[1..] == Stored(later);
      }
    }
  }

  lemma ReplayShowsEveryArtifact(artifacts: seq<Payload>)
    requires forall i :: 0 <= i < |Stored(artifacts)| ==> Regular(Stored(artifacts)[i])
    ensures Shown(Stored(artifacts)) == Stored(artifacts)
  {
    RegularViewsAgree(Stored(artifacts));
    StoredIsStable(artifacts);
  }
}
