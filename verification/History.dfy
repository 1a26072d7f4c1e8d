/** Whole histories of repository calls, with what each call told its caller. */
module History {
  import opened Records
  import opened Repository

  datatype Call =
    | AdmitCall(threadId: Option<Id>, message: string, key: Option<Id>, freshThread: Id, freshRun: Id, now: Instant)
    | CompleteCall(runId: Id, expected: Option<string>, checkpoint: string, answer: string,
                   toolCalls: seq<Payload>, artifacts: seq<RawArtifact>, now: Instant)
    | FailCall(runId: Id, code: string, text: string, now: Instant)
    | RecoverCall(now: Instant)
    | CancelCall(runId: Id, partial: string, toolCalls: seq<Payload>, artifacts: seq<RawArtifact>, now: Instant)

  /**
   * The repository together with two facts its callers were told: the checkpoint a fresh admission
   * started from, and the checkpoint a successful completion published.
   */
  datatype World = World(repo: Repo, startedFrom: map<Id, Option<string>>, published: map<Id, string>)

  const ORIGIN := World(EMPTY, map[], map[])

  function AdmissionOf(s: Repo, c: Call): Result<Admission, Error>
    requires Linked(s) && c.AdmitCall?
  {
    Admit(s, c.threadId, c.message, c.key, c.freshThread, c.freshRun, c.now).1
  }

  function CompletionOf(s: Repo, c: Call): Result<Turn, Error>
    requires Linked(s) && c.CompleteCall?
  {
    Complete(s, c.runId, c.expected, c.checkpoint, c.answer, c.toolCalls, c.artifacts, c.now).1
  }

  ghost function After(s: Repo, c: Call): Repo
    requires Linked(s)
  {
    match c
    case AdmitCall(t, m, k, ft, fr, now) => Admit(s, t, m, k, ft, fr, now).0
    case CompleteCall(r, e, cp, a, tc, arts, now) => Complete(s, r, e, cp, a, tc, arts, now).0
    case FailCall(r, code, text, now) => Fail(s, r, code, text, now).0
    case RecoverCall(now) => Recover(s, now)
    case CancelCall(r, p, tc, arts, now) => Cancel(s, r, p, tc, arts, now).0
  }

  ghost function Step(w: World, c: Call): World
    requires Linked(w.repo)
  {
    World(After(w.repo, c),
          if c.AdmitCall? && AdmissionOf(w.repo, c).Ok? && !AdmissionOf(w.repo, c).value.replayed
          then w.startedFrom[c.freshRun := AdmissionOf(w.repo, c).value.fromCheckpoint] else w.startedFrom,
          if c.CompleteCall? && CompletionOf(w.repo, c).Ok?
          then w.published[c.runId := c.checkpoint] else w.published)
  }

  /** Generated UUIDs are new, and a cancellation's artifacts parse (CancelKeepsInvIffWellFormed). */
  ghost predicate Fits(s: Repo, c: Call) {
    match c
    case AdmitCall(_, _, _, freshThread, freshRun, _) => freshThread !in s.threads && freshRun !in s.runs
    case CancelCall(runId, _, _, artifacts, _) => AllWellFormed(artifacts) || RequireActive(s, runId).Err?
    case _ => true
  }

  lemma AfterKeepsInv(s: Repo, c: Call)
    requires Inv(s) && Fits(s, c)
    ensures Inv(After(s, c))
  {
    match c
    case AdmitCall(t, m, k, ft, fr, now) => AdmitKeepsInv(s, t, m, k, ft, fr, now);
    case CompleteCall(r, e, cp, a, tc, arts, now) => CompleteKeepsInv(s, r, e, cp, a, tc, arts, now);
    case FailCall(r, code, text, now) => FailKeepsInv(s, r, code, text, now);
    case RecoverCall(now) => InterruptKeepsInv(s, ActiveRuns(s), now);
    case CancelCall(r, p, tc, arts, now) => CancelKeepsInvIffWellFormed(s, r, p, tc, arts, now);
  }

  // ----- the thread head -----

  ghost predicate CompletedIn(s: Repo, t: Id, r: Id) {
    r in s.runs && s.runs[r].threadId == t && s.runs[r].status == Completed
  }

  /** r is the completed run of t with the highest turn. */
  ghost predicate LastCompleted(s: Repo, t: Id, r: Id) {
    && CompletedIn(s, t, r)
    && forall q :: CompletedIn(s, t, q) ==> s.runs[q].turn <= s.runs[r].turn
  }

  /** The head is the checkpoint of the highest-turn completed run, None if there is none. */
  ghost predicate HeadPublished(w: World, t: Id)
    requires t in w.repo.threads
  {
    match w.repo.threads[t].head
    case None => forall r :: !CompletedIn(w.repo, t, r)
    case Some(c) => exists r :: LastCompleted(w.repo, t, r) && r in w.published && w.published[r] == c
  }

  ghost predicate HeadsPublished(w: World) {
    forall t :: t in w.repo.threads ==> HeadPublished(w, t)
  }

  /** An open run's thread still has the head the run was admitted from. */
  ghost predicate OpenRunsCurrent(w: World)
    requires Linked(w.repo)
  {
    forall r :: r in w.repo.runs && w.repo.runs[r].status == InProgress ==>
      r in w.startedFrom && w.startedFrom[r] == w.repo.threads[w.repo.runs[r].threadId].head
  }

  ghost predicate WorldInv(w: World) {
    Inv(w.repo) && HeadsPublished(w) && OpenRunsCurrent(w)
  }

  lemma AllocateKeepsHeads(w: World, thread: Thread, run: Run)
    requires Linked(w.repo) && HeadsPublished(w) && MayAllocate(w.repo, thread, run)
    ensures HeadsPublished(w.(repo := Allocate(w.repo, thread, run)))
  {
    var s, w' := w.repo, w.(repo := Allocate(w.repo, thread, run));
    forall t | t in w'.repo.threads
      ensures HeadPublished(w', t)
    {
      assert forall r :: CompletedIn(w'.repo, t, r) <==> CompletedIn(s, t, r);
      if t in s.threads {
        assert HeadPublished(w, t);
        assert forall r :: LastCompleted(s, t, r) ==> LastCompleted(w'.repo, t, r);
      }
    }
  }

  lemma AllocateKeepsOpen(w: World, thread: Thread, run: Run)
    requires Linked(w.repo) && OpenRunsCurrent(w) && MayAllocate(w.repo, thread, run)
    ensures var w' := w.(repo := Allocate(w.repo, thread, run),
                         startedFrom := w.startedFrom[run.runId := thread.head]);
            Linked(w'.repo) && OpenRunsCurrent(w')
  {
  }

  lemma AdmitKeepsWorld(w: World, c: Call)
    requires WorldInv(w) && Fits(w.repo, c) && c.AdmitCall?
    ensures Linked(Step(w, c).repo) && HeadsPublished(Step(w, c)) && OpenRunsCurrent(Step(w, c))
  {
    var s, result := w.repo, AdmissionOf(w.repo, c);
    AdmitShape(s, c.threadId, c.message, c.key, c.freshThread, c.freshRun, c.now);
    if result.Ok? && !result.value.replayed {
      var thread := AdmissionThread(s, c.threadId, c.freshThread);
      AllocateKeepsHeads(w, thread, result.value.run);
      AllocateKeepsOpen(w, thread, result.value.run);
      HeadsIgnoreStarts(w.(repo := After(s, c)), Step(w, c).startedFrom);
    } else {
      assert Step(w, c) == w;
    }
  }

  lemma HeadsIgnoreStarts(w: World, startedFrom: map<Id, Option<string>>)
    requires HeadsPublished(w)
    ensures HeadsPublished(w.(startedFrom := startedFrom))
  {
    var w' := w.(startedFrom := startedFrom);
    forall t | t in w'.repo.threads ensures HeadPublished(w', t) { assert HeadPublished(w, t); }
  }

  /** Every ending but a completion leaves each head and the set of completed runs alone. */
  ghost predicate HeadsUntouched(s: Repo, s': Repo) {
    && s'.threads.Keys == s.threads.Keys
    && (forall t :: t in s.threads ==> s'.threads[t].head == s.threads[t].head)
    && s'.runs.Keys == s.runs.Keys
    && (forall r :: r in s.runs ==>
          && s'.runs[r].threadId == s.runs[r].threadId && s'.runs[r].turn == s.runs[r].turn
          && (s'.runs[r].status == Completed <==> s.runs[r].status == Completed)
          && (s'.runs[r].status == InProgress ==> s.runs[r].status == InProgress))
  }

  lemma UntouchedKeepsWorld(w: World, s': Repo)
    requires WorldInv(w) && HeadsUntouched(w.repo, s') && Linked(s')
    ensures HeadsPublished(w.(repo := s')) && OpenRunsCurrent(w.(repo := s'))
  {
    var s, w' := w.repo, w.(repo := s');
    assert forall t, r :: CompletedIn(s', t, r) <==> CompletedIn(s, t, r);
    forall t | t in s'.threads
      ensures HeadPublished(w', t)
    {
      assert HeadPublished(w, t);
      assert forall r :: LastCompleted(s, t, r) ==> LastCompleted(s', t, r);
    }
  }

  /** The state after a completion, seen as one Finish that publishes its checkpoint. */
  ghost predicate Publishes(w: World, w': World, run: Run, evidence: seq<Artifact>, checkpoint: string)
    requires Linked(w.repo)
  {
    && MayFinish(w.repo, run, Some(evidence)) && run.status == Completed
    && w' == World(Finish(w.repo, run, Some(evidence), Some(checkpoint)), w.startedFrom,
                   w.published[run.runId := checkpoint])
  }

  lemma PublishKeepsHeads(w: World, w': World, run: Run, evidence: seq<Artifact>, checkpoint: string)
    requires Linked(w.repo) && TurnsInRange(w.repo) && NewestRunLeads(w.repo) && HeadsPublished(w)
    requires Publishes(w, w', run, evidence, checkpoint)
    ensures HeadsPublished(w')
  {
    assert run.turn + 1 == w.repo.threads[run.threadId].nextTurn;
    forall t | t in w'.repo.threads
      ensures HeadPublished(w', t)
    {
      if t == run.threadId {
        assert LastCompleted(w'.repo, t, run.runId);
      } else {
        assert HeadPublished(w, t);
        assert forall r :: CompletedIn(w'.repo, t, r) <==> CompletedIn(w.repo, t, r);
        assert forall r :: LastCompleted(w.repo, t, r) ==> LastCompleted(w'.repo, t, r);
      }
    }
  }

  lemma PublishKeepsOpen(w: World, w': World, run: Run, evidence: seq<Artifact>, checkpoint: string)
    requires Inv(w.repo) && OpenRunsCurrent(w)
    requires Publishes(w, w', run, evidence, checkpoint)
    ensures Linked(w'.repo) && OpenRunsCurrent(w')
  {
    forall r | r in w'.repo.runs && w'.repo.runs[r].status == InProgress
      ensures w.repo.runs[r].threadId != run.threadId
    {
      if w.repo.runs[r].threadId == run.threadId { AtMostOneActive(w.repo, r, run.runId); }
    }
  }

  lemma CompleteKeepsWorld(w: World, c: Call)
    requires WorldInv(w) && c.CompleteCall? && CompletionOf(w.repo, c).Ok?
    ensures Linked(Step(w, c).repo) && HeadsPublished(Step(w, c)) && OpenRunsCurrent(Step(w, c))
  {
    var turn := CompletionOf(w.repo, c).value;
    PublishKeepsHeads(w, Step(w, c), turn.run, turn.artifacts, c.checkpoint);
    PublishKeepsOpen(w, Step(w, c), turn.run, turn.artifacts, c.checkpoint);
  }

  /** The world's two records change only on a fresh admission and on a successful completion. */
  ghost predicate Quiet(s: Repo, c: Call)
    requires Linked(s)
  {
    !c.AdmitCall? && (c.CompleteCall? ==> CompletionOf(s, c).Err?)
  }

  lemma FinishLeavesHeads(s: Repo, run: Run, evidence: Option<seq<Artifact>>)
    requires Linked(s) && run.runId in s.runs && s.runs[run.runId].status == InProgress
    requires SameRow(run, s.runs[run.runId]) && run.status in {Failed, Cancelled}
    ensures HeadsUntouched(s, Finish(s, run, evidence, None))
  {
  }

  lemma QuietStepsLeaveHeads(s: Repo, c: Call)
    requires Linked(s) && Quiet(s, c) && Fits(s, c)
    ensures HeadsUntouched(s, After(s, c))
  {
    match c
    case CompleteCall(_, _, _, _, _, _, _) =>
    case FailCall(r, code, text, now) =>
      var result := Fail(s, r, code, text, now).1;
      if result.Ok? { FinishLeavesHeads(s, result.value, None); }
    case RecoverCall(now) => assert HeadsUntouched(s, Recover(s, now));
    case CancelCall(r, p, tc, arts, now) =>
      var result := Cancel(s, r, p, tc, arts, now).1;
      if result.Ok? { FinishLeavesHeads(s, result.value, Some(StoreAll(r, arts, now))); }
  }

  lemma StepKeepsWorldInv(w: World, c: Call)
    requires WorldInv(w) && Fits(w.repo, c)
    ensures WorldInv(Step(w, c))
  {
    AfterKeepsInv(w.repo, c);
    if c.AdmitCall? {
      AdmitKeepsWorld(w, c);
    } else if c.CompleteCall? && CompletionOf(w.repo, c).Ok? {
      CompleteKeepsWorld(w, c);
    } else {
      QuietStepsLeaveHeads(w.repo, c);
      UntouchedKeepsWorld(w, After(w.repo, c));
    }
  }

  // ----- histories -----

  ghost predicate Follows(ws: seq<World>, cs: seq<Call>, i: nat)
    requires |ws| == |cs| + 1 && i < |cs|
  {
    Linked(ws[i].repo) && Fits(ws[i].repo, cs[i]) && ws[i + 1] == Step(ws[i], cs[i])
  }

  /** `ws` are the states a valid sequence of calls passes through, starting from an empty store. */
  ghost predicate IsHistory(ws: seq<World>, cs: seq<Call>) {
    && |ws| == |cs| + 1
    && ws[0] == ORIGIN
    && forall i :: 0 <= i < |cs| ==> Follows(ws, cs, i)
  }

  lemma OriginInv()
    ensures WorldInv(ORIGIN)
  {
  }

  lemma HistoryNext(ws: seq<World>, cs: seq<Call>, i: nat)
    requires IsHistory(ws, cs) && i < |cs| && WorldInv(ws[i])
    ensures WorldInv(ws[i + 1])
  {
    assert Follows(ws, cs, i);
    StepKeepsWorldInv(ws[i], cs[i]);
  }

  lemma {:induction false} HistoryInv(ws: seq<World>, cs: seq<Call>, i: nat)
    requires IsHistory(ws, cs) && i < |ws|
    ensures WorldInv(ws[i])
  {
    hide WorldInv;
    OriginInv();
    if i > 0 {
      HistoryInv(ws, cs, i - 1);
      HistoryNext(ws, cs, i - 1);
    }
  }

  /** What no call may undo: identities and keys stay, and a finished run is frozen with its evidence. */
  ghost predicate Extends(s: Repo, s': Repo) {
    && s.threads.Keys <= s'.threads.Keys
    && (forall k :: k in s.keys ==> k in s'.keys && s'.keys[k] == s.keys[k])
    && (forall r :: r in s.runs ==> r in s'.runs && SameRow(s'.runs[r], s.runs[r]))
    && (forall r :: r in s.runs && s.runs[r].status != InProgress ==>
          && s'.runs[r] == s.runs[r]
          && (r in s'.artifacts <==> r in s.artifacts)
          && (r in s.artifacts ==> s'.artifacts[r] == s.artifacts[r]))
  }

  lemma ExtendsTransitive(s: Repo, s': Repo, s'': Repo)
    requires Extends(s, s') && Extends(s', s'')
    ensures Extends(s, s'')
  {
  }

  lemma ExtendsReflexive(s: Repo)
    ensures Extends(s, s)
  {
  }

  lemma FinishExtends(s: Repo, run: Run, evidence: Option<seq<Artifact>>, head: Option<string>)
    requires Linked(s) && run.runId in s.runs && s.runs[run.runId].status == InProgress
    requires SameRow(run, s.runs[run.runId])
    ensures Extends(s, Finish(s, run, evidence, head))
  {
  }

  lemma CancelExtends(s: Repo, c: Call)
    requires Linked(s) && Fits(s, c) && c.CancelCall?
    ensures Extends(s, After(s, c))
  {
    var result := Cancel(s, c.runId, c.partial, c.toolCalls, c.artifacts, c.now).1;
    if result.Ok? {
      FinishExtends(s, result.value, Some(StoreAll(c.runId, c.artifacts, c.now)), None);
    }
  }

  lemma AdmitExtends(s: Repo, c: Call)
    requires Linked(s) && Fits(s, c) && c.AdmitCall?
    ensures Extends(s, After(s, c))
  {
    AdmitShape(s, c.threadId, c.message, c.key, c.freshThread, c.freshRun, c.now);
  }

  lemma RecoverExtends(s: Repo, now: Instant)
    requires Linked(s)
    ensures Extends(s, Recover(s, now))
  {
  }

  lemma AfterExtends(s: Repo, c: Call)
    requires Linked(s) && Fits(s, c)
    ensures Extends(s, After(s, c))
  {
    ExtendsReflexive(s);
    hide Extends;
    match c
    case AdmitCall(_, _, _, _, _, _) => AdmitExtends(s, c);
    case CompleteCall(r, _, cp, _, _, _, _) =>
      var result := CompletionOf(s, c);
      if result.Ok? { FinishExtends(s, result.value.run, Some(result.value.artifacts), Some(cp)); }
    case FailCall(r, code, text, now) =>
      var result := Fail(s, r, code, text, now).1;
      if result.Ok? { FinishExtends(s, result.value, None, None); }
    case RecoverCall(now) => RecoverExtends(s, now);
    case CancelCall(_, _, _, _, _) => CancelExtends(s, c);
  }

  lemma HistoryStep(ws: seq<World>, cs: seq<Call>, i: nat)
    requires IsHistory(ws, cs) && i < |cs|
    ensures Extends(ws[i].repo, ws[i + 1].repo)
    ensures forall r :: r in ws[i].startedFrom && r in ws[i].repo.runs ==>
              r in ws[i + 1].startedFrom && ws[i + 1].startedFrom[r] == ws[i].startedFrom[r]
  {
    assert Follows(ws, cs, i);
    AfterExtends(ws[i].repo, cs[i]);
  }

  lemma {:induction false} HistoryExtends(ws: seq<World>, cs: seq<Call>, i: nat, j: nat)
    requires IsHistory(ws, cs) && i <= j < |ws|
    ensures Extends(ws[i].repo, ws[j].repo)
    decreases j
  {
    if i < j {
      HistoryExtends(ws, cs, i, j - 1);
      HistoryStep(ws, cs, j - 1);
      ExtendsTransitive(ws[i].repo, ws[j - 1].repo, ws[j].repo);
    } else {
      ExtendsReflexive(ws[i].repo);
    }
  }

  lemma {:induction false} StartedFromStays(ws: seq<World>, cs: seq<Call>, i: nat, j: nat, r: Id)
    requires IsHistory(ws, cs) && i <= j < |ws|
    requires r in ws[i].repo.runs && r in ws[i].startedFrom
    ensures r in ws[j].repo.runs && r in ws[j].startedFrom && ws[j].startedFrom[r] == ws[i].startedFrom[r]
    decreases j
  {
    if i < j {
      StartedFromStays(ws, cs, i, j - 1, r);
      HistoryStep(ws, cs, j - 1);
    }
  }

  /**
   * The checkpoint compare-and-swap never fires on an honest completion: from a fresh admission until its
   * run ends, the thread head is the checkpoint the admission returned.
   */
  lemma CheckpointConflictUnreachable(ws: seq<World>, cs: seq<Call>, i: nat, j: nat, completion: Call)
    requires IsHistory(ws, cs) && i < |cs| && i < j < |ws|
    requires cs[i].AdmitCall? && Linked(ws[i].repo)
    requires AdmissionOf(ws[i].repo, cs[i]).Ok? && !AdmissionOf(ws[i].repo, cs[i]).value.replayed
    requires completion.CompleteCall? && completion.runId == cs[i].freshRun
    requires completion.expected == AdmissionOf(ws[i].repo, cs[i]).value.fromCheckpoint
    ensures Inv(ws[j].repo) && cs[i].freshRun in ws[j].repo.runs
    ensures var run := ws[j].repo.runs[cs[i].freshRun];
            run.status == InProgress ==> ws[j].repo.threads[run.threadId].head == completion.expected
    ensures CompletionOf(ws[j].repo, completion) != Err(CheckpointConflict)
    ensures CompletionOf(ws[j].repo, completion).Err? <==>
            ws[j].repo.runs[cs[i].freshRun].status != InProgress || !AllWellFormed(completion.artifacts)
  {
    var r := cs[i].freshRun;
    assert Follows(ws, cs, i);
    HistoryInv(ws, cs, i);
    var c := cs[i];
    AdmitShape(ws[i].repo, c.threadId, c.message, c.key, c.freshThread, c.freshRun, c.now);
    StartedFromStays(ws, cs, i + 1, j, r);
    HistoryExtends(ws, cs, i + 1, j);
    HistoryInv(ws, cs, j);
  }

  /** The head of every thread is the checkpoint of its highest-turn completed run. */
  lemma HeadIsLastCompletion(ws: seq<World>, cs: seq<Call>, i: nat, t: Id, r: Id)
    requires IsHistory(ws, cs) && i < |ws|
    requires t in ws[i].repo.threads
    ensures ws[i].repo.threads[t].head.None? <==> forall q :: !CompletedIn(ws[i].repo, t, q)
    ensures LastCompleted(ws[i].repo, t, r) && Inv(ws[i].repo) ==>
              r in ws[i].published && ws[i].repo.threads[t].head == Some(ws[i].published[r])
  {
    HistoryInv(ws, cs, i);
    var s := ws[i].repo;
    assert HeadPublished(ws[i], t);
    if LastCompleted(s, t, r) {
      var q :| LastCompleted(s, t, q) && q in ws[i].published && s.threads[t].head == Some(ws[i].published[q]);
      assert RunAt(s, t, s.runs[r].turn, r) && RunAt(s, t, s.runs[r].turn, q);
    }
  }

  /** Once a key is bound, a later admission with it names the same run or conflicts, and writes nothing. */
  lemma RetransmissionIsIdempotent(ws: seq<World>, cs: seq<Call>, i: nat, j: nat, again: Call)
    requires IsHistory(ws, cs) && i <= j < |ws|
    requires again.AdmitCall? && again.key.Some? && again.key.value in ws[i].repo.keys
    ensures Inv(ws[i].repo) && Inv(ws[j].repo)
    ensures After(ws[j].repo, again) == ws[j].repo
    ensures var run := ws[i].repo.runs[ws[i].repo.keys[again.key.value]];
            if KeyMismatch(run, again.threadId, again.message)
            then AdmissionOf(ws[j].repo, again) == Err(RequestKeyConflict)
            else && AdmissionOf(ws[j].repo, again).Ok?
                 && AdmissionOf(ws[j].repo, again).value.replayed
                 && SameRow(AdmissionOf(ws[j].repo, again).value.run, run)
  {
    HistoryInv(ws, cs, i);
    HistoryInv(ws, cs, j);
    HistoryExtends(ws, cs, i, j);
  }

  /** A completed turn reads back unchanged from every later state. */
  lemma CompletedTurnIsFrozen(ws: seq<World>, cs: seq<Call>, i: nat, j: nat)
    requires IsHistory(ws, cs) && i < |cs| && i < j < |ws|
    requires cs[i].CompleteCall? && Linked(ws[i].repo) && CompletionOf(ws[i].repo, cs[i]).Ok?
    ensures GetTurn(ws[j].repo, cs[i].runId) == Some(CompletionOf(ws[i].repo, cs[i]).value)
  {
    assert Follows(ws, cs, i);
    HistoryExtends(ws, cs, i + 1, j);
  }
}
