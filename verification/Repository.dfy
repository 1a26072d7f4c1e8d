/** The durable run lifecycle: every operation of the repository as a function on its four maps. */
module Repository {
  import opened Records

  datatype Status = InProgress | Completed | Failed | Cancelled

  datatype Run = Run(
    runId: Id,
    threadId: Id,
    turn: nat,
    attempt: nat,
    key: Option<Id>,
    status: Status,
    message: string,
    answer: Option<string>,
    toolCalls: seq<Payload>,
    errorCode: Option<string>,
    errorMessage: Option<string>,
    startedAt: Instant,
    completedAt: Option<Instant>)

  datatype Thread = Thread(threadId: Id, status: Status, head: Option<string>, nextTurn: nat)

  /** A generated artifact identity is a fresh UUID; the row it names determines it here. */
  datatype ArtifactId = Supplied(id: Id) | Generated(runId: Id, ordinal: nat)

  datatype Artifact = Artifact(
    artifactId: ArtifactId,
    runId: Id,
    ordinal: nat,
    kind: string,
    schemaVersion: int,
    ok: bool,
    data: Option<Payload>,
    error: Option<string>,
    failure: Option<Payload>,
    provenance: Option<Payload>,
    createdAt: Instant)

  datatype Error =
    | RequestKeyConflict
    | ThreadNotFound
    | RunAlreadyActive
    | RunNotFound
    | LifecycleConflict
    | CheckpointConflict
    | MalformedArtifact

  datatype Admission = Admission(run: Run, fromCheckpoint: Option<string>, replayed: bool)

  datatype Turn = Turn(run: Run, artifacts: seq<Artifact>)

  datatype Repo = Repo(
    threads: map<Id, Thread>,
    runs: map<Id, Run>,
    keys: map<Id, Id>,
    artifacts: map<Id, seq<Artifact>>)

  const EMPTY := Repo(map[], map[], map[], map[])

  // ----- artifacts -----

  /** An identity as supplied: none, one that reads as a UUID, or something else. */
  datatype Identity = NoIdentity | Uuid(id: Id) | NotUuid

  datatype RawArtifact = RawArtifact(
    identity: Identity,
    kind: Value,
    schemaVersion: Value,
    status: Value,
    data: Value,
    error: Value,
    failure: Value,
    provenance: Value)

  const FAILURE_FIELDS: set<string> :=
    {"schema_version", "code", "category", "source", "operation", "retryable", "attempt", "max_attempts", "recovery",
     "tool_call_id"}

  predicate IsIdentifier(v: Value) {
    v.Text? && v.s != "" && |v.s| <= 100 && forall i :: 0 <= i < |v.s| ==> !IsSpace(v.s[i])
  }

  predicate IsPositive(v: Value) {
    v.Int? && v.n >= 1
  }

  /** A structured failure that an error artifact may carry. */
  predicate WellFormedFailure(f: Payload) {
    var recovery, call := Get(f, "recovery"), Get(f, "tool_call_id");
    && f.Keys <= FAILURE_FIELDS
    && NumberOf(Get(f, "schema_version")) == Some(1.0)
    && IsIdentifier(Get(f, "code")) && IsIdentifier(Get(f, "source")) && IsIdentifier(Get(f, "operation"))
    && Get(f, "category") in [Text("tool_input"), Text("provider"), Text("tool_runtime")]
    && Get(f, "retryable").Flag?
    && IsPositive(Get(f, "attempt")) && IsPositive(Get(f, "max_attempts"))
    && Get(f, "attempt").n <= Get(f, "max_attempts").n
    && recovery in
         [Text("model_correction"), Text("retry"), Text("exhausted"), Text("degraded"), Text("continue_without_tool")]
    && (recovery == Text("retry") ==> Get(f, "retryable").b)
    && (call.Null? || (call.Text? && !OnlySpaces(call.s)))
  }

  predicate WellFormed(raw: RawArtifact) {
    && !raw.identity.NotUuid?
    && raw.kind.Text? && raw.kind.s != ""
    && raw.schemaVersion.Int? && raw.schemaVersion.n >= 1
    && (raw.status == Text("ok") || raw.status == Text("error"))
    && (raw.status == Text("ok") ==> raw.data.Object? && raw.error.Null? && raw.failure.Null?)
    && (raw.status == Text("error") ==> raw.data.Null? && raw.error.Text? && raw.error.s != "")
    && (raw.failure.Null? || (raw.failure.Object? && WellFormedFailure(raw.failure.fields)))
    && (raw.provenance.Null? || raw.provenance.Object?)
  }

  predicate AllWellFormed(raws: seq<RawArtifact>) {
    forall i :: 0 <= i < |raws| ==> WellFormed(raws[i])
  }

  /** A failure is stored with its version as an integer, and without an empty tool call. */
  function StoredFailure(f: Payload): Payload {
    var versioned := f["schema_version" := Int(1)];
    if Get(f, "tool_call_id").Null? then versioned - {"tool_call_id"} else versioned
  }

  function StoreArtifact(runId: Id, ordinal: nat, raw: RawArtifact, now: Instant): Artifact
    requires WellFormed(raw)
  {
    Artifact(
      if raw.identity.Uuid? then Supplied(raw.identity.id) else Generated(runId, ordinal),
      runId, ordinal, raw.kind.s, raw.schemaVersion.n,
      raw.status == Text("ok"),
      if raw.data.Object? then Some(raw.data.fields) else None,
      if raw.error.Text? then Some(raw.error.s) else None,
      if raw.failure.Object? then Some(StoredFailure(raw.failure.fields)) else None,
      if raw.provenance.Object? then Some(raw.provenance.fields) else None,
      now)
  }

  function StoreAll(runId: Id, raws: seq<RawArtifact>, now: Instant): (stored: seq<Artifact>)
    requires AllWellFormed(raws)
    ensures |stored| == |raws|
  {
    seq(|raws|, i requires 0 <= i < |raws| => StoreArtifact(runId, i, raws[i], now))
  }

  // ----- operations -----

  /** The part of the state every operation may rely on, whatever came before. */
  ghost predicate Linked(s: Repo) {
    && (forall k :: k in s.keys ==> s.keys[k] in s.runs)
    && (forall r :: r in s.runs ==> s.runs[r].runId == r && s.runs[r].threadId in s.threads)
    && (forall t :: t in s.threads ==> s.threads[t].threadId == t)
  }

  predicate HasActive(s: Repo, threadId: Id) {
    exists r :: r in s.runs && s.runs[r].threadId == threadId && s.runs[r].status == InProgress
  }

  function NewThread(threadId: Id): Thread {
    Thread(threadId, InProgress, None, 1)
  }

  function NewRun(runId: Id, thread: Thread, key: Option<Id>, message: string, now: Instant): Run {
    Run(runId, thread.threadId, thread.nextTurn, 1, key, InProgress, message,
        None, [], None, None, now, None)
  }

  predicate KeyMismatch(run: Run, threadId: Option<Id>, message: string) {
    run.message != message || (threadId.Some? && run.threadId != threadId.value)
  }

  /** Allocate the next turn of a thread whose row is `thread`. */
  function Allocate(s: Repo, thread: Thread, run: Run): Repo {
    s.(runs := s.runs[run.runId := run],
       keys := if run.key.Some? then s.keys[run.key.value := run.runId] else s.keys,
       threads := s.threads[thread.threadId :=
         thread.(status := InProgress, nextTurn := thread.nextTurn + 1)])
  }

  function Admit(s: Repo, threadId: Option<Id>, message: string, key: Option<Id>,
                 freshThread: Id, freshRun: Id, now: Instant): (Repo, Result<Admission, Error>)
    requires Linked(s)
  {
    if key.Some? && key.value in s.keys then
      var existing := s.runs[s.keys[key.value]];
      if KeyMismatch(existing, threadId, message) then (s, Err(RequestKeyConflict))
      else (s, Ok(Admission(existing, s.threads[existing.threadId].head, true)))
    else if threadId.Some? && threadId.value !in s.threads then (s, Err(ThreadNotFound))
    else
      var t := if threadId.Some? then threadId.value else freshThread;
      var s1 := if threadId.Some? then s else s.(threads := s.threads[t := NewThread(t)]);
      if HasActive(s1, t) then (s1, Err(RunAlreadyActive))
      else
        var thread := s1.threads[t];
        var run := NewRun(freshRun, thread, key, message, now);
        (Allocate(s1, thread, run), Ok(Admission(run, thread.head, false)))
  }

  function RequireActive(s: Repo, runId: Id): Result<Run, Error> {
    if runId !in s.runs then Err(RunNotFound)
    else if s.runs[runId].status != InProgress then Err(LifecycleConflict)
    else Ok(s.runs[runId])
  }

  /** Write a finished run with its evidence, its thread's status and, if it publishes one, the new head. */
  function Finish(s: Repo, run: Run, evidence: Option<seq<Artifact>>, head: Option<string>): Repo
    requires run.threadId in s.threads
  {
    var thread := s.threads[run.threadId];
    s.(runs := s.runs[run.runId := run],
       artifacts := if evidence.Some? then s.artifacts[run.runId := evidence.value] else s.artifacts,
       threads := s.threads[run.threadId :=
         thread.(status := run.status, head := if head.Some? then head else thread.head)])
  }

  function CompletedRun(run: Run, answer: string, toolCalls: seq<Payload>, now: Instant): Run {
    run.(status := Completed, answer := Some(answer), toolCalls := toolCalls, completedAt := Some(now))
  }

  function Complete(s: Repo, runId: Id, expected: Option<string>, checkpoint: string, answer: string,
                    toolCalls: seq<Payload>, artifacts: seq<RawArtifact>, now: Instant)
    : (Repo, Result<Turn, Error>)
    requires Linked(s)
  {
    var active := RequireActive(s, runId);
    if active.Err? then (s, Err(active.error))
    else
      var thread := s.threads[active.value.threadId];
      if thread.head != expected then (s, Err(CheckpointConflict))
      else if !AllWellFormed(artifacts) then (s, Err(MalformedArtifact))
      else
        var run := CompletedRun(active.value, answer, toolCalls, now);
        var stored := StoreAll(runId, artifacts, now);
        (Finish(s, run, Some(stored), Some(checkpoint)), Ok(Turn(run, stored)))
  }

  function FailedRun(run: Run, code: string, text: string, now: Instant): Run {
    run.(status := Failed, errorCode := Some(code), errorMessage := Some(text), completedAt := Some(now))
  }

  function Fail(s: Repo, runId: Id, code: string, text: string, now: Instant): (Repo, Result<Run, Error>)
    requires Linked(s)
  {
    var active := RequireActive(s, runId);
    if active.Err? then (s, Err(active.error))
    else
      var run := FailedRun(active.value, code, text, now);
      (Finish(s, run, None, None), Ok(run))
  }

  const INTERRUPTED_CODE := "process_interrupted"
  const INTERRUPTED_TEXT := "The worker process stopped before completing the run."

  ghost function ActiveRuns(s: Repo): set<Id> {
    set r | r in s.runs && s.runs[r].status == InProgress
  }

  /** Fail every run of `ids` as abandoned work, together with its thread. */
  ghost function Interrupt(s: Repo, ids: set<Id>, now: Instant): Repo
    requires Linked(s)
    requires ids <= s.runs.Keys
  {
    s.(runs := map r | r in s.runs ::
         if r in ids then FailedRun(s.runs[r], INTERRUPTED_CODE, INTERRUPTED_TEXT, now) else s.runs[r],
       threads := map t | t in s.threads ::
         if exists r :: r in ids && s.runs[r].threadId == t then s.threads[t].(status := Failed)
         else s.threads[t])
  }

  ghost function Recover(s: Repo, now: Instant): Repo
    requires Linked(s)
  {
    Interrupt(s, ActiveRuns(s), now)
  }

  function CancelledRun(run: Run, partial: string, toolCalls: seq<Payload>, now: Instant): Run {
    run.(status := Cancelled,
         answer := if partial == "" then None else Some(partial),
         toolCalls := toolCalls,
         errorCode := Some("cancelled"),
         errorMessage := Some("The research run was cancelled."),
         completedAt := Some(now))
  }

  /** The run is written before its artifacts are parsed, so a malformed one leaves half a cancellation. */
  function Cancel(s: Repo, runId: Id, partial: string, toolCalls: seq<Payload>,
                  artifacts: seq<RawArtifact>, now: Instant): (Repo, Result<Run, Error>)
    requires Linked(s)
  {
    var active := RequireActive(s, runId);
    if active.Err? then (s, Err(active.error))
    else
      var run := CancelledRun(active.value, partial, toolCalls, now);
      if !AllWellFormed(artifacts) then
        (s.(runs := s.runs[runId := run]), Err(MalformedArtifact))
      else
        (Finish(s, run, Some(StoreAll(runId, artifacts, now)), None), Ok(run))
  }

  function GetTurn(s: Repo, runId: Id): Option<Turn> {
    if runId !in s.runs then None
    else Some(Turn(s.runs[runId], if runId in s.artifacts then s.artifacts[runId] else []))
  }

  // ----- the reachable-state invariant -----

  /** The lifecycle CHECK constraint of the responses table. */
  predicate LifecycleCheck(r: Run) {
    match r.status
    case InProgress => r.answer.None? && r.errorCode.None? && r.errorMessage.None? && r.completedAt.None?
    case Completed => r.answer.Some? && r.errorCode.None? && r.errorMessage.None? && r.completedAt.Some?
    case Failed => r.answer.None? && r.errorCode.Some? && r.errorMessage.Some? && r.completedAt.Some?
    case Cancelled => r.errorCode.Some? && r.errorMessage.Some? && r.completedAt.Some?
  }

  ghost predicate RunAt(s: Repo, threadId: Id, turn: nat, r: Id) {
    r in s.runs && s.runs[r].threadId == threadId && s.runs[r].turn == turn
  }

  ghost predicate TurnTaken(s: Repo, threadId: Id, turn: nat) {
    exists r :: RunAt(s, threadId, turn, r)
  }

  ghost predicate TurnsInRange(s: Repo)
    requires Linked(s)
  {
    && (forall r :: r in s.runs ==>
          s.runs[r].attempt == 1 && 1 <= s.runs[r].turn < s.threads[s.runs[r].threadId].nextTurn)
    && (forall t :: t in s.threads ==> 2 <= s.threads[t].nextTurn)
  }

  ghost predicate TurnsDistinct(s: Repo) {
    forall t, n, r, q :: RunAt(s, t, n, r) && RunAt(s, t, n, q) ==> r == q
  }

  ghost predicate TurnsCovered(s: Repo) {
    forall t, n: nat {:trigger TurnTaken(s, t, n)} ::
      t in s.threads && 1 <= n < s.threads[t].nextTurn ==> TurnTaken(s, t, n)
  }

  /** A thread's runs carry the turns 1 .. nextTurn-1, each exactly once. */
  ghost predicate TurnsGapFree(s: Repo)
    requires Linked(s)
  {
    TurnsInRange(s) && TurnsDistinct(s) && TurnsCovered(s)
  }

  /** Only a thread's newest run may be open, and the thread shows that run's status. */
  ghost predicate NewestRunLeads(s: Repo)
    requires Linked(s)
  {
    forall r :: r in s.runs ==>
      var thread := s.threads[s.runs[r].threadId];
      if s.runs[r].turn + 1 == thread.nextTurn then thread.status == s.runs[r].status
      else s.runs[r].status != InProgress
  }

  /** The key map and the runs' own keys are inverse to each other. */
  ghost predicate KeysInverse(s: Repo)
    requires Linked(s)
  {
    && (forall k :: k in s.keys ==> s.runs[s.keys[k]].key == Some(k))
    && (forall r :: r in s.runs && s.runs[r].key.Some? ==>
          s.runs[r].key.value in s.keys && s.keys[s.runs[r].key.value] == r)
  }

  ghost predicate EvidenceFiled(s: Repo) {
    && (forall r :: r in s.artifacts ==> r in s.runs && s.runs[r].status in {Completed, Cancelled})
    && (forall r :: r in s.runs && s.runs[r].status == Completed ==> r in s.artifacts)
    && (forall r, i :: r in s.artifacts && 0 <= i < |s.artifacts[r]| ==>
          s.artifacts[r][i].runId == r && s.artifacts[r][i].ordinal == i)
  }

  ghost predicate Inv(s: Repo) {
    && Linked(s)
    && (forall r :: r in s.runs ==> LifecycleCheck(s.runs[r]))
    && TurnsGapFree(s)
    && NewestRunLeads(s)
    && KeysInverse(s)
    && EvidenceFiled(s)
  }

  lemma AtMostOneActive(s: Repo, r: Id, q: Id)
    requires Inv(s)
    requires r in s.runs && s.runs[r].status == InProgress
    requires q in s.runs && s.runs[q].status == InProgress
    requires s.runs[r].threadId == s.runs[q].threadId
    ensures r == q
  {
    assert RunAt(s, s.runs[r].threadId, s.runs[r].turn, r);
    assert RunAt(s, s.runs[r].threadId, s.runs[r].turn, q);
  }

  // ----- preservation, one operation at a time -----

  /** What admission knows about the thread row and the new run before it writes them. */
  ghost predicate MayAllocate(s: Repo, thread: Thread, run: Run) {
    && run == NewRun(run.runId, thread, run.key, run.message, run.startedAt)
    && run.runId !in s.runs
    && (run.key.Some? ==> run.key.value !in s.keys)
    && (if thread.threadId in s.threads
        then thread == s.threads[thread.threadId] && !HasActive(s, thread.threadId)
        else thread == NewThread(thread.threadId))
  }

  lemma AllocateKeepsTurns(s: Repo, thread: Thread, run: Run)
    requires Linked(s) && TurnsGapFree(s) && MayAllocate(s, thread, run)
    ensures Linked(Allocate(s, thread, run)) && TurnsGapFree(Allocate(s, thread, run))
  {
    var s' := Allocate(s, thread, run);
    forall u, n, r, q | RunAt(s', u, n, r) && RunAt(s', u, n, q)
      ensures r == q
    {
      if r != run.runId && q != run.runId {
        assert RunAt(s, u, n, r) && RunAt(s, u, n, q);
      }
    }
    forall u, n: nat {:trigger TurnTaken(s', u, n)} | u in s'.threads && 1 <= n < s'.threads[u].nextTurn
      ensures TurnTaken(s', u, n)
    {
      if u == thread.threadId && n == thread.nextTurn {
        assert RunAt(s', u, n, run.runId);
      } else {
        assert TurnTaken(s, u, n);
        var r :| RunAt(s, u, n, r);
        assert RunAt(s', u, n, r);
      }
    }
  }

  lemma AllocateKeepsNewest(s: Repo, thread: Thread, run: Run)
    requires Linked(s) && TurnsInRange(s) && NewestRunLeads(s) && MayAllocate(s, thread, run)
    ensures Linked(Allocate(s, thread, run)) && NewestRunLeads(Allocate(s, thread, run))
  {
    hide LifecycleCheck;
    assert forall r :: r in s.runs && s.runs[r].threadId == thread.threadId ==> s.runs[r].status != InProgress;
    hide HasActive;
  }

  predicate LifecycleChecked(s: Repo) {
    forall r :: r in s.runs ==> LifecycleCheck(s.runs[r])
  }

  lemma AllocateKeepsKeys(s: Repo, thread: Thread, run: Run)
    requires Linked(s) && KeysInverse(s) && MayAllocate(s, thread, run)
    ensures Linked(Allocate(s, thread, run)) && KeysInverse(Allocate(s, thread, run))
  {
    hide LifecycleCheck;
  }

  lemma AllocateKeepsEvidence(s: Repo, thread: Thread, run: Run)
    requires Linked(s) && LifecycleChecked(s) && EvidenceFiled(s) && MayAllocate(s, thread, run)
    ensures LifecycleChecked(Allocate(s, thread, run)) && EvidenceFiled(Allocate(s, thread, run))
  {
    assert LifecycleCheck(run);
    hide LifecycleCheck;
  }

  lemma AllocateKeepsInv(s: Repo, thread: Thread, run: Run)
    requires Inv(s) && MayAllocate(s, thread, run)
    ensures Inv(Allocate(s, thread, run))
  {
    AllocateKeepsTurns(s, thread, run);
    AllocateKeepsNewest(s, thread, run);
    AllocateKeepsKeys(s, thread, run);
    AllocateKeepsEvidence(s, thread, run);
  }

  /** `run` is a later version of the row `before`: identity, turn, key and message are the same. */
  ghost predicate SameRow(run: Run, before: Run) {
    run == before.(status := run.status, answer := run.answer, toolCalls := run.toolCalls,
                   errorCode := run.errorCode, errorMessage := run.errorMessage, completedAt := run.completedAt)
  }

  ghost predicate MayFinish(s: Repo, run: Run, evidence: Option<seq<Artifact>>) {
    && run.runId in s.runs && s.runs[run.runId].status == InProgress
    && SameRow(run, s.runs[run.runId])
    && run.status != InProgress && LifecycleCheck(run)
    && (evidence.Some? <==> run.status != Failed)
    && (evidence.Some? ==> forall i :: 0 <= i < |evidence.value| ==>
          evidence.value[i].runId == run.runId && evidence.value[i].ordinal == i)
  }

  lemma FinishKeepsTurns(s: Repo, run: Run, evidence: Option<seq<Artifact>>, head: Option<string>)
    requires Linked(s) && TurnsGapFree(s) && MayFinish(s, run, evidence)
    ensures Linked(Finish(s, run, evidence, head)) && TurnsGapFree(Finish(s, run, evidence, head))
  {
    var s' := Finish(s, run, evidence, head);
    assert forall u, n, r :: RunAt(s', u, n, r) <==> RunAt(s, u, n, r);
    assert forall u, n :: TurnTaken(s, u, n) ==> TurnTaken(s', u, n);
  }

  lemma FinishKeepsNewest(s: Repo, run: Run, evidence: Option<seq<Artifact>>, head: Option<string>)
    requires Linked(s) && TurnsInRange(s) && TurnsDistinct(s) && NewestRunLeads(s) && MayFinish(s, run, evidence)
    ensures Linked(Finish(s, run, evidence, head)) && NewestRunLeads(Finish(s, run, evidence, head))
  {
    var s' := Finish(s, run, evidence, head);
    var row := s.runs[run.runId];
    forall r | r in s'.runs
      ensures var thread := s'.threads[s'.runs[r].threadId];
              if s'.runs[r].turn + 1 == thread.nextTurn then thread.status == s'.runs[r].status
              else s'.runs[r].status != InProgress
    {
      assert RunAt(s, row.threadId, row.turn, run.runId);
      assert s.runs[r].threadId == row.threadId && s.runs[r].turn == row.turn ==>
          RunAt(s, row.threadId, row.turn, r);
    }
  }

  lemma FinishKeepsKeys(s: Repo, run: Run, evidence: Option<seq<Artifact>>, head: Option<string>)
    requires Linked(s) && KeysInverse(s) && MayFinish(s, run, evidence)
    ensures Linked(Finish(s, run, evidence, head)) && KeysInverse(Finish(s, run, evidence, head))
  {
    hide LifecycleCheck;
    var s' := Finish(s, run, evidence, head);
    assert forall r :: r in s.runs ==> s'.runs[r].key == s.runs[r].key;
  }

  lemma FinishKeepsEvidence(s: Repo, run: Run, evidence: Option<seq<Artifact>>, head: Option<string>)
    requires Linked(s) && LifecycleChecked(s) && EvidenceFiled(s) && MayFinish(s, run, evidence)
    ensures LifecycleChecked(Finish(s, run, evidence, head)) && EvidenceFiled(Finish(s, run, evidence, head))
  {
    hide LifecycleCheck;
  }

  lemma FinishKeepsInv(s: Repo, run: Run, evidence: Option<seq<Artifact>>, head: Option<string>)
    requires Inv(s) && MayFinish(s, run, evidence)
    ensures Inv(Finish(s, run, evidence, head))
  {
    FinishKeepsTurns(s, run, evidence, head);
    FinishKeepsNewest(s, run, evidence, head);
    FinishKeepsKeys(s, run, evidence, head);
    FinishKeepsEvidence(s, run, evidence, head);
  }

  /** The row a fresh admission allocates its turn from. */
  function AdmissionThread(s: Repo, threadId: Option<Id>, freshThread: Id): Thread
    requires threadId.Some? ==> threadId.value in s.threads
  {
    if threadId.Some? then s.threads[threadId.value] else NewThread(freshThread)
  }

  /** An admission that is not fresh writes nothing; a fresh one is one allocation. */
  lemma AdmitShape(s: Repo, threadId: Option<Id>, message: string, key: Option<Id>,
                   freshThread: Id, freshRun: Id, now: Instant)
    requires Linked(s)
    requires freshThread !in s.threads && freshRun !in s.runs
    ensures var (s', result) := Admit(s, threadId, message, key, freshThread, freshRun, now);
            if result.Err? || result.value.replayed then s' == s
            else
              && (threadId.Some? ==> threadId.value in s.threads)
              && var thread := AdmissionThread(s, threadId, freshThread);
                 var run := NewRun(freshRun, thread, key, message, now);
                 && MayAllocate(s, thread, run)
                 && result.value == Admission(run, thread.head, false)
                 && s' == Allocate(s, thread, run)
  {
    var (s', result) := Admit(s, threadId, message, key, freshThread, freshRun, now);
    if threadId.None? {
      var s1 := s.(threads := s.threads[freshThread := NewThread(freshThread)]);
      assert !HasActive(s1, freshThread);
      var run := NewRun(freshRun, NewThread(freshThread), key, message, now);
      assert Allocate(s1, NewThread(freshThread), run) == Allocate(s, NewThread(freshThread), run);
    }
  }

  lemma AdmitKeepsInv(s: Repo, threadId: Option<Id>, message: string, key: Option<Id>,
                      freshThread: Id, freshRun: Id, now: Instant)
    requires Inv(s)
    requires freshThread !in s.threads && freshRun !in s.runs
    ensures Inv(Admit(s, threadId, message, key, freshThread, freshRun, now).0)
  {
    AdmitShape(s, threadId, message, key, freshThread, freshRun, now);
    var result := Admit(s, threadId, message, key, freshThread, freshRun, now).1;
    if result.Ok? && !result.value.replayed {
      AllocateKeepsInv(s, AdmissionThread(s, threadId, freshThread), result.value.run);
    }
  }

  lemma CompleteKeepsInv(s: Repo, runId: Id, expected: Option<string>, checkpoint: string, answer: string,
                         toolCalls: seq<Payload>, artifacts: seq<RawArtifact>, now: Instant)
    requires Inv(s)
    ensures Inv(Complete(s, runId, expected, checkpoint, answer, toolCalls, artifacts, now).0)
  {
    var result := Complete(s, runId, expected, checkpoint, answer, toolCalls, artifacts, now).1;
    if result.Ok? {
      FinishKeepsInv(s, result.value.run, Some(result.value.artifacts), Some(checkpoint));
    }
  }

  lemma FailKeepsInv(s: Repo, runId: Id, code: string, text: string, now: Instant)
    requires Inv(s)
    ensures Inv(Fail(s, runId, code, text, now).0)
  {
    var result := Fail(s, runId, code, text, now).1;
    if result.Ok? {
      FinishKeepsInv(s, result.value, None, None);
    }
  }

  /** A cancellation keeps the invariant exactly when the artifacts it is given parse. */
  lemma CancelKeepsInvIffWellFormed(s: Repo, runId: Id, partial: string, toolCalls: seq<Payload>,
                                    artifacts: seq<RawArtifact>, now: Instant)
    requires Inv(s)
    ensures Inv(Cancel(s, runId, partial, toolCalls, artifacts, now).0)
            <==> (AllWellFormed(artifacts) || RequireActive(s, runId).Err?)
  {
    var (s', result) := Cancel(s, runId, partial, toolCalls, artifacts, now);
    if result.Ok? {
      FinishKeepsInv(s, result.value, Some(StoreAll(runId, artifacts, now)), None);
    } else if result.error == MalformedArtifact {
      var row := s.runs[runId];
      assert row.turn + 1 == s.threads[row.threadId].nextTurn;
      assert s'.threads[row.threadId].status == InProgress && s'.runs[runId].status == Cancelled;
    }
  }

  lemma InterruptNone(s: Repo, now: Instant)
    requires Linked(s)
    ensures Interrupt(s, {}, now) == s
  {
    assert Interrupt(s, {}, now).runs == s.runs;
    assert Interrupt(s, {}, now).threads == s.threads;
  }

  /** Interrupting one more active run is one more failure with the interruption's code and text. */
  lemma InterruptOneMore(s: Repo, done: set<Id>, r: Id, now: Instant)
    requires Linked(s)
    requires done <= s.runs.Keys && r in ActiveRuns(s) - done
    ensures var mid := Interrupt(s, done, now);
            && Linked(mid) && r in mid.runs && mid.runs[r] == s.runs[r]
            && Interrupt(s, done + {r}, now)
               == Finish(mid, FailedRun(s.runs[r], INTERRUPTED_CODE, INTERRUPTED_TEXT, now), None, None)
  {
    var mid := Interrupt(s, done, now);
    var left := Finish(mid, FailedRun(s.runs[r], INTERRUPTED_CODE, INTERRUPTED_TEXT, now), None, None);
    var right := Interrupt(s, done + {r}, now);
    assert left.runs == right.runs;
    assert r in done + {r};
    assert left.threads == right.threads;
  }

  lemma {:induction false} InterruptKeepsInv(s: Repo, ids: set<Id>, now: Instant)
    requires Inv(s)
    requires ids <= ActiveRuns(s)
    ensures Inv(Interrupt(s, ids, now))
    decreases |ids|
  {
    if ids == {} {
      InterruptNone(s, now);
    } else {
      var r :| r in ids;
      var rest := ids - {r};
      assert rest + {r} == ids;
      InterruptKeepsInv(s, rest, now);
      InterruptOneMore(s, rest, r, now);
      FinishKeepsInv(Interrupt(s, rest, now), FailedRun(s.runs[r], INTERRUPTED_CODE, INTERRUPTED_TEXT, now), None,
                     None);
    }
  }

  /** Any listing of a thread's runs in (turn, attempt) order is the gap-free sequence of its turns. */
  ghost predicate IsTranscript(s: Repo, threadId: Id, listing: seq<Run>) {
    && (forall i :: 0 <= i < |listing| ==>
          listing[i].runId in s.runs && s.runs[listing[i].runId] == listing[i] && listing[i].threadId == threadId)
    && (forall r :: r in s.runs && s.runs[r].threadId == threadId ==> s.runs[r] in listing)
    && (forall i, j :: 0 <= i < j < |listing| ==> listing[i] != listing[j])
    && (forall i, j :: 0 <= i < j < |listing| ==>
          listing[i].turn < listing[j].turn
          || (listing[i].turn == listing[j].turn && listing[i].attempt <= listing[j].attempt))
  }

  lemma {:induction false} TranscriptIsGapFree(s: Repo, threadId: Id, listing: seq<Run>)
    requires Inv(s) && threadId in s.threads
    requires IsTranscript(s, threadId, listing)
    ensures |listing| == s.threads[threadId].nextTurn - 1
    ensures forall i :: 0 <= i < |listing| ==> listing[i].turn == i + 1
    ensures forall i :: 0 <= i < |listing| - 1 ==> listing[i].status != InProgress
    ensures s.threads[threadId].status == listing[|listing| - 1].status
  {
    forall i, j | 0 <= i < j < |listing|
      ensures listing[i].turn < listing[j].turn
    {
      if listing[i].turn == listing[j].turn {
        assert RunAt(s, threadId, listing[i].turn, listing[i].runId);
        assert RunAt(s, threadId, listing[i].turn, listing[j].runId);
      }
    }
    TranscriptTurns(s, threadId, listing, |listing|);
    if |listing| + 1 < s.threads[threadId].nextTurn {
      var i := TurnAppears(s, threadId, listing, |listing| + 1);
    }
    assert s.threads[threadId].nextTurn == |listing| + 1;
  }

  lemma {:induction false} TranscriptTurns(s: Repo, threadId: Id, listing: seq<Run>, n: nat)
    requires Inv(s) && threadId in s.threads
    requires IsTranscript(s, threadId, listing)
    requires forall i, j :: 0 <= i < j < |listing| ==> listing[i].turn < listing[j].turn
    requires n <= |listing|
    ensures n < s.threads[threadId].nextTurn
    ensures forall i :: 0 <= i < n ==> listing[i].turn == i + 1
  {
    if n > 0 {
      TranscriptTurns(s, threadId, listing, n - 1);
      assert listing[n - 1].runId in s.runs;
      assert n >= 2 ==> listing[n - 2].turn < listing[n - 1].turn;
      var i := TurnAppears(s, threadId, listing, n);
      assert i >= n - 1;
    }
  }

  lemma TurnAppears(s: Repo, threadId: Id, listing: seq<Run>, turn: nat) returns (i: nat)
    requires Inv(s) && threadId in s.threads
    requires IsTranscript(s, threadId, listing)
    requires 1 <= turn < s.threads[threadId].nextTurn
    ensures i < |listing| && listing[i].turn == turn
  {
    assert TurnTaken(s, threadId, turn);
    var r :| RunAt(s, threadId, turn, r);
    assert s.runs[r] in listing;
    i :| 0 <= i < |listing| && listing[i] == s.runs[r];
  }
}
