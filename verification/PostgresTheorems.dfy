/** What every interleaving of admissions and endings guarantees. */
module PostgresTheorems {
  import opened Records
  import opened Repository
  import opened Postgres

  const QUIET := Sys(EMPTY, map[])

  ghost predicate Leads(ss: seq<Sys>, acts: seq<Action>, i: nat)
    requires |ss| == |acts| + 1 && i < |acts|
  {
    Linked(ss[i].db) && Enabled(ss[i], acts[i]) && ss[i + 1] == Next(ss[i], acts[i])
  }

  ghost predicate IsExecution(ss: seq<Sys>, acts: seq<Action>) {
    && |ss| == |acts| + 1
    && ss[0] == QUIET
    && forall i :: 0 <= i < |acts| ==> Leads(ss, acts, i)
  }

  lemma QuietInv()
    ensures SysInv(QUIET)
  {
  }

  lemma {:induction false} ExecutionInv(ss: seq<Sys>, acts: seq<Action>, i: nat)
    requires IsExecution(ss, acts) && i < |ss|
    ensures SysInv(ss[i])
  {
    hide SysInv;
    QuietInv();
    if i > 0 {
      ExecutionInv(ss, acts, i - 1);
      assert Leads(ss, acts, i - 1);
      NextKeepsSysInv(ss[i - 1], acts[i - 1]);
    }
  }

  /** The committed rows an atomic repository would show after the same commit. */
  ghost predicate CommitsAtomically(s: Sys, s': Sys, tx: Tx)
    requires Linked(s.db)
    requires tx.EndTx? && tx.end.LockThreads? ==> tx.end.runs <= s.db.runs.Keys
  {
    match tx
    case AdmitTx(req, phase) =>
      && phase.Written?
      && (s'.db, Ok(Admission(phase.run, phase.thread.head, false)))
         == Admit(s.db, req.threadId, req.message, req.key, phase.thread.threadId, phase.run.runId, req.at)
    case EndTx(CompleteOp(r, expected, checkpoint, answer, toolCalls, artifacts, at), _) =>
      var atomic := Complete(s.db, r, expected, checkpoint, answer, toolCalls, artifacts, at);
      s'.db == atomic.0 && atomic.1.Ok?
    case EndTx(FailOp(r, code, text, at), _) =>
      var atomic := Fail(s.db, r, code, text, at);
      s'.db == atomic.0 && atomic.1.Ok?
    case EndTx(CancelOp(r, partial, toolCalls, artifacts, at), _) =>
      var atomic := Cancel(s.db, r, partial, toolCalls, artifacts, at);
      s'.db == atomic.0 && atomic.1.Ok?
    case EndTx(RecoverOp(at), end) =>
      end.LockThreads? && end.runs <= ActiveRuns(s.db) && s'.db == Interrupt(s.db, end.runs, at)
  }

  lemma AdmitCommitsAtomically(s: Sys, x: Id, c: Choice)
    requires Inv(s.db) && TxsOk(s) && x in s.txs && CanMove(s, x, c)
    requires s.txs[x].AdmitTx? && s.txs[x].phase.Written?
    ensures CommitsAtomically(s, Moved(s, x, c), s.txs[x])
  {
    var req, thread, run := s.txs[x].req, s.txs[x].phase.thread, s.txs[x].phase.run;
    assert AdmitOk(s.db, req, Written(thread, run));
    if req.threadId.None? {
      AdmitShape(s.db, req.threadId, req.message, req.key, thread.threadId, run.runId, req.at);
      assert !HasActive(s.db.(threads := s.db.threads[thread.threadId := thread]), thread.threadId);
    }
  }

  /** A transaction takes its next step, heard of or not. */
  predicate Steps(a: Action) {
    a.Move? || a.Unheard?
  }

  /** Every step either leaves the committed rows alone or is one operation of the atomic repository. */
  lemma StepRefinesRepository(s: Sys, a: Action)
    requires SysInv(s) && Enabled(s, a)
    ensures Steps(a) ==> TxOk(s.db, s.txs[a.x])
    ensures if Steps(a) && Commits(s.db, s.txs[a.x]) then CommitsAtomically(s, Next(s, a), s.txs[a.x])
            else Next(s, a).db == s.db
  {
    if Steps(a) && s.txs[a.x].AdmitTx? && s.txs[a.x].phase.Written? {
      AdmitCommitsAtomically(s, a.x, a.choice);
    }
  }

  /**
   * In every reachable state: one run per request key, one active run per thread, turns without gaps,
   * and no thread without a run, so an admission that did not commit left nothing behind.
   */
  lemma CommittedStatesAreSound(ss: seq<Sys>, acts: seq<Action>, i: nat)
    requires IsExecution(ss, acts) && i < |ss|
    ensures var db := ss[i].db;
      && Inv(db)
      && (forall r, q :: r in db.runs && q in db.runs && db.runs[r].key.Some? && db.runs[r].key == db.runs[q].key
                         ==> r == q)
      && (forall t :: t in db.threads ==> exists r :: RunAt(db, t, 1, r))
  {
    ExecutionInv(ss, acts, i);
    var db := ss[i].db;
    forall t | t in db.threads ensures exists r :: RunAt(db, t, 1, r) { assert TurnTaken(db, t, 1); }
  }

  /** What an answered admission has told its caller, in every reachable state. */
  lemma AnswersAreSound(ss: seq<Sys>, acts: seq<Action>, i: nat, x: Id)
    requires IsExecution(ss, acts) && i < |ss|
    requires x in ss[i].txs && ss[i].txs[x].AdmitTx? && ss[i].txs[x].phase.Answered?
    ensures OutcomeOk(ss[i].db, ss[i].txs[x].req, ss[i].txs[x].phase.outcome)
    ensures ss[i].txs[x].phase.outcome != Broken
  {
    ExecutionInv(ss, acts, i);
    assert TxOk(ss[i].db, ss[i].txs[x]);
  }

  /** A caller who did not hear of its commit gets the run it created when it asks again with the same key. */
  lemma UnheardAdmissionIsReplayed(s: Sys, x: Id, c: Choice, again: Choice)
    requires SysInv(s) && x in s.txs && s.txs[x].AdmitTx? && s.txs[x].phase.Written? && s.txs[x].req.key.Some?
    ensures Enabled(s, Unheard(x, c)) && Linked(s.db)
    ensures var req, thread, run := s.txs[x].req, s.txs[x].phase.thread, s.txs[x].phase.run;
            var s' := Next(s, Unheard(x, c));
            && s'.txs[x] == AdmitTx(req, Answered(Lost)) && Linked(s'.db)
            && Admit(s'.db, req.threadId, req.message, req.key, again.uuid, again.uuid, req.at).1
               == Ok(Admission(run, thread.head, true))
  {
    assert TxOk(s.db, s.txs[x]);
    AllocateKeepsKeys(s.db, s.txs[x].phase.thread, s.txs[x].phase.run);
  }

  // ----- admission against its atomic version -----

  ghost predicate KeyBound(db: Repo, req: Request) {
    req.key.Some? && req.key.value in db.keys
  }

  /** The same kind of answer about the same run. */
  predicate SameAnswer(outcome: Outcome, atomic: Result<Admission, Error>) {
    match outcome
    case Fresh(a) => atomic == Ok(a)
    case Replayed(a) =>
      && atomic.Ok? && atomic.value.replayed
      && atomic.value.run.runId == a.run.runId && atomic.value.fromCheckpoint == a.fromCheckpoint
    case Refused(e) => atomic == Err(e)
    case _ => false
  }

  /** The atomic repository asked at this very moment, handed the identities the transaction uses. */
  function AtomicAnswer(db: Repo, req: Request, phase: AdmitPhase, c: Choice): Result<Admission, Error>
    requires Linked(db)
  {
    var threadId := if phase.Written? then phase.thread.threadId else c.uuid;
    var runId := if phase.Written? then phase.run.runId else c.uuid;
    Admit(db, req.threadId, req.message, req.key, threadId, runId, req.at).1
  }

  /** The next step of the admission refuses for the thread's sake: the thread is missing, or it is busy. */
  predicate RefusesForThread(db: Repo, req: Request, phase: AdmitPhase) {
    || (phase.TakeThread? && req.threadId.Some? && req.threadId.value !in db.threads)
    || (phase.CheckActive? && HasActive(db, phase.thread.threadId))
  }

  lemma UncommittedAnswer(db: Repo, req: Request, phase: AdmitPhase, c: Choice)
    requires Linked(db) && KeysInverse(db) && AdmitOk(db, req, phase)
    requires !phase.Written? && !phase.Answered? && MoveAdmit(db, req, phase, c).Answered?
    requires phase.InsertRun? ==> !TurnTaken(db, phase.thread.threadId, phase.thread.nextTurn)
    ensures SameAnswer(MoveAdmit(db, req, phase, c).outcome, AtomicAnswer(db, req, phase, c))
            <==> !(KeyBound(db, req) && RefusesForThread(db, req, phase))
  {
  }

  /**
   * The step that answers an admission gives the atomic repository's answer if and only if it does not meet, its key
   * bound meanwhile, a named thread that is missing or a locked thread that is busy.
   */
  lemma AnswerIsAtomicUnlessKeyBoundMeanwhile(s: Sys, x: Id, c: Choice)
    requires SysInv(s) && x in s.txs && CanMove(s, x, c)
    requires s.txs[x].AdmitTx? && Moved(s, x, c).txs[x].phase.Answered?
    ensures var req, phase := s.txs[x].req, s.txs[x].phase;
            SameAnswer(Moved(s, x, c).txs[x].phase.outcome, AtomicAnswer(s.db, req, phase, c))
            <==> !(KeyBound(s.db, req) && RefusesForThread(s.db, req, phase))
  {
    var req, phase := s.txs[x].req, s.txs[x].phase;
    assert TxOk(s.db, s.txs[x]);
    if phase.Written? {
      AdmitCommitsAtomically(s, x, c);
    } else {
      if phase.InsertRun? { InsertCannotCollide(s.db, req, phase.thread); }
      UncommittedAnswer(s.db, req, phase, c);
    }
  }

  // ----- the race the exception describes -----

  predicate WaitsForThread(s: Sys, x: Id, req: Request) {
    x in s.txs && s.txs[x] == AdmitTx(req, TakeThread)
  }

  /** The run the winner creates, the state its commit leaves, and the state the loser's refusal leaves. */
  function WinningRun(thread: Thread, req: Request, c: Choice): Run {
    NewRun(c.uuid, thread, req.key, req.message, req.at)
  }

  function Won(s: Sys, x: Id, req: Request, thread: Thread, c: Choice): Sys {
    Sys(Allocate(s.db, thread, WinningRun(thread, req, c)),
        s.txs[x := AdmitTx(req, Answered(Fresh(Admission(WinningRun(thread, req, c), thread.head, false))))])
  }

  function Rejected(s: Sys, y: Id, req: Request): Sys {
    s.(txs := s.txs[y := AdmitTx(req, Answered(Refused(RunAlreadyActive)))])
  }

  /** The moves of `order`, one after the other, lead from s to s'. */
  ghost predicate Reaches(s: Sys, order: seq<Id>, c: Choice, s': Sys)
    decreases |order|
  {
    if order == [] then s' == s
    else Linked(s.db) && order[0] in s.txs && CanMove(s, order[0], c)
         && Reaches(Moved(s, order[0], c), order[1..], c, s')
  }

  lemma MoveReaches(s: Sys, x: Id, rest: seq<Id>, c: Choice, s': Sys)
    requires Linked(s.db) && x in s.txs && CanMove(s, x, c)
    requires Reaches(Moved(s, x, c), rest, c, s')
    ensures Reaches(s, [x] + rest, c, s')
  {
    assert ([x] + rest)[1..] == rest;
  }

  /** The winner, with the thread row in hand: check, insert, commit. */
  lemma WinnerCommits(s: Sys, x: Id, req: Request, thread: Thread, c: Choice)
    requires Linked(s.db) && x in s.txs && s.txs[x] == AdmitTx(req, CheckActive(thread))
    requires req.key.Some? && req.key.value !in s.db.keys && KeyFree(s, x, req.key.value)
    requires !HasActive(s.db, thread.threadId) && !TurnTaken(s.db, thread.threadId, thread.nextTurn)
    requires c.uuid !in s.db.runs && RunFree(s, x, c.uuid)
    ensures Reaches(s, [x] + ([x] + ([x] + [])), c, Won(s, x, req, thread, c))
  {
    var s1 := s.(txs := s.txs[x := AdmitTx(req, InsertRun(thread))]);
    var s2 := s.(txs := s.txs[x := AdmitTx(req, Written(thread, WinningRun(thread, req, c)))]);
    var s3 := Won(s, x, req, thread, c);
    assert Moved(s, x, c) == s1;
    assert Moved(s1, x, c) == s2;
    assert Moved(s2, x, c) == s3;
    MoveReaches(s2, x, [], c, s3);
    MoveReaches(s1, x, [x] + [], c, s3);
    MoveReaches(s, x, [x] + ([x] + []), c, s3);
  }

  predicate RaceIsOpen(db: Repo, req: Request) {
    && req.threadId.Some? && req.key.Some? && req.key.value !in db.keys
    && req.threadId.value in db.threads && !HasActive(db, req.threadId.value)
  }

  lemma WinnerTakesThread(s: Sys, x: Id, req: Request, c: Choice)
    requires SysInv(s) && WaitsForThread(s, x, req) && RaceIsOpen(s.db, req)
    requires ThreadFree(s, x, req.threadId.value) && KeyFree(s, x, req.key.value)
    requires c.uuid !in s.db.runs && RunFree(s, x, c.uuid)
    ensures Reaches(s, [x] + ([x] + ([x] + ([x] + []))), c, Won(s, x, req, s.db.threads[req.threadId.value], c))
  {
    var thread := s.db.threads[req.threadId.value];
    var s1 := s.(txs := s.txs[x := AdmitTx(req, CheckActive(thread))]);
    hide Reaches, Inv, Won, TurnTaken, HasActive;
    assert Linked(s.db) by { SysIsLinked(s); }
    assert CanMove(s, x, c) && Moved(s, x, c) == s1;
    TurnIsFree(s, req);
    assert KeyFree(s1, x, req.key.value) && RunFree(s1, x, c.uuid);
    hide CanMove, Moved, SysInv;
    WinnerCommits(s1, x, req, thread, c);
    WonAnyhow(s, s1, x, req, thread, c);
    MoveReaches(s, x, [x] + ([x] + ([x] + [])), c, Won(s, x, req, thread, c));
  }

  lemma SysIsLinked(s: Sys)
    requires SysInv(s)
    ensures Linked(s.db)
  {
  }

  lemma TurnIsFree(s: Sys, req: Request)
    requires SysInv(s) && RaceIsOpen(s.db, req)
    ensures var thread := s.db.threads[req.threadId.value];
            thread.threadId == req.threadId.value && !TurnTaken(s.db, thread.threadId, thread.nextTurn)
  {
    InsertCannotCollide(s.db, req, s.db.threads[req.threadId.value]);
  }

  lemma WonAnyhow(s: Sys, s1: Sys, x: Id, req: Request, thread: Thread, c: Choice)
    requires Linked(s.db) && x in s.txs && s1 == s.(txs := s.txs[x := AdmitTx(req, CheckActive(thread))])
    ensures Won(s1, x, req, thread, c) == Won(s, x, req, thread, c)
  {
  }

  /** The loser finds the winner's run open under the lock it waited for. */
  lemma LoserIsRefused(s: Sys, y: Id, req: Request, c: Choice, r: Id)
    requires Linked(s.db) && WaitsForThread(s, y, req) && req.threadId.Some?
    requires ThreadFree(s, y, req.threadId.value) && req.threadId.value in s.db.threads
    requires r in s.db.runs && s.db.runs[r].status == InProgress && s.db.runs[r].threadId == req.threadId.value
    ensures Reaches(s, [y] + ([y] + []), c, Rejected(s, y, req))
  {
    var s1 := s.(txs := s.txs[y := AdmitTx(req, CheckActive(s.db.threads[req.threadId.value]))]);
    assert Moved(s, y, c) == s1;
    assert Moved(s1, y, c) == Rejected(s, y, req);
    MoveReaches(s1, y, [], c, Rejected(s, y, req));
    MoveReaches(s, y, [y] + [], c, Rejected(s, y, req));
  }

  /**
   * Two callers retransmit one request and have both found its key unbound. Whichever takes the thread row
   * first is admitted; the other, when it gets the row, is refused although the atomic repository would
   * have replayed the winner's run to it.
   */
  lemma LateCallerIsRefused(s: Sys, x: Id, y: Id, req: Request, c: Choice)
    requires SysInv(s) && x != y && WaitsForThread(s, x, req) && WaitsForThread(s, y, req)
    requires RaceIsOpen(s.db, req)
    requires ThreadFree(s, x, req.threadId.value) && KeyFree(s, x, req.key.value)
    requires c.uuid !in s.db.runs && RunFree(s, x, c.uuid)
    ensures var thread := s.db.threads[req.threadId.value];
            var won := Won(s, x, req, thread, c);
            && Reaches(s, [x] + ([x] + ([x] + ([x] + []))), c, won)
            && Reaches(won, [y] + ([y] + []), c, Rejected(won, y, req))
            && Linked(won.db)
            && Admit(won.db, req.threadId, req.message, req.key, c.uuid, c.uuid, req.at).1
               == Ok(Admission(WinningRun(thread, req, c), thread.head, true))
  {
    var thread := s.db.threads[req.threadId.value];
    WinnerTakesThread(s, x, req, c);
    AllocateKeepsKeys(s.db, thread, WinningRun(thread, req, c));
    LoserIsRefused(Won(s, x, req, thread, c), y, req, c, c.uuid);
  }

  // ----- no deadlock -----

  lemma {:induction false} UnusedId(ids: set<Id>) returns (n: Id)
    ensures forall i :: i in ids ==> i < n
    decreases |ids|
  {
    if ids == {} {
      n := 0;
    } else {
      var i :| i in ids;
      n := UnusedId(ids - {i});
      n := if i < n then n else i + 1;
      assert forall j :: j in ids ==> j == i || j in ids - {i};
    }
  }

  function AllHeldRuns(txs: map<Id, Tx>): set<Id> {
    set x, r | x in txs && r in HeldRuns(txs[x]) :: r
  }

  function AllHeldThreads(txs: map<Id, Tx>): set<Id> {
    set x, t | x in txs && t in HeldThreads(txs[x]) :: t
  }

  predicate Pending(s: Sys, x: Id) {
    x in s.txs && !Finished(s.txs[x])
  }

  /** Admissions and single-run endings never wait for each other in a circle. */
  lemma SomeoneCanMove(s: Sys, some: Id) returns (x: Id, c: Choice)
    requires SysInv(s) && Pending(s, some)
    requires forall y :: Pending(s, y) && s.txs[y].EndTx? ==> !s.txs[y].op.RecoverOp?
    ensures Pending(s, x) && CanMove(s, x, c)
  {
    var n := UnusedUuid(s);
    c := Choice(n, None);
    if w :| w in s.txs && s.txs[w].AdmitTx? && s.txs[w].phase.Written? {
      x := w;
    } else if w :| Pending(s, w) && s.txs[w].AdmitTx? && !s.txs[w].phase.TakeThread? {
      x := w;
      NoPendingKeys(s, w);
    } else if w :| Pending(s, w) && s.txs[w].EndTx? && s.txs[w].end.LockThreads? {
      x := w;
      c := EndingCanMove(s, w, n);
    } else {
      x := some;
      LastCanMove(s, some, c);
    }
  }

  /** With nobody about to commit, no key is pending. */
  lemma NoPendingKeys(s: Sys, x: Id)
    requires forall w :: w in s.txs && s.txs[w].AdmitTx? ==> !s.txs[w].phase.Written?
    ensures forall k :: KeyFree(s, x, k)
  {
  }

  lemma UnusedUuid(s: Sys) returns (n: Id)
    ensures n !in s.db.runs && n !in s.db.threads
    ensures forall y :: y in s.txs ==> n !in HeldRuns(s.txs[y]) && n !in HeldThreads(s.txs[y])
  {
    var r := UnusedId(s.db.runs.Keys + AllHeldRuns(s.txs));
    var t := UnusedId(s.db.threads.Keys + AllHeldThreads(s.txs));
    n := if r < t then t else r;
    forall y | y in s.txs ensures n !in HeldRuns(s.txs[y]) && n !in HeldThreads(s.txs[y]) {
      assert forall q :: q in HeldRuns(s.txs[y]) ==> q in AllHeldRuns(s.txs);
      assert forall q :: q in HeldThreads(s.txs[y]) ==> q in AllHeldThreads(s.txs);
    }
  }

  /** With nobody past its first lock, nothing is held. */
  lemma LastCanMove(s: Sys, x: Id, c: Choice)
    requires TxsOk(s) && Pending(s, x)
    requires c.uuid !in s.db.threads && c.pick.None?
    requires forall y :: Pending(s, y) && s.txs[y].EndTx? ==> !s.txs[y].op.RecoverOp? && s.txs[y].end.LockRuns?
    requires forall y :: Pending(s, y) && s.txs[y].AdmitTx? ==> s.txs[y].phase.TakeThread?
    ensures CanMove(s, x, c)
  {
    forall y | y in s.txs ensures HeldThreads(s.txs[y]) == {} && HeldRuns(s.txs[y]) == {} {
      assert TxOk(s.db, s.txs[y]);
      assert Pending(s, y) || Finished(s.txs[y]);
    }
  }

  lemma EndingCanMove(s: Sys, w: Id, n: Id) returns (c: Choice)
    requires SysInv(s) && Pending(s, w) && s.txs[w].EndTx? && s.txs[w].end.LockThreads?
    requires forall y :: Pending(s, y) && s.txs[y].EndTx? ==> !s.txs[y].op.RecoverOp?
    requires forall y :: Pending(s, y) && s.txs[y].AdmitTx? ==> s.txs[y].phase.TakeThread?
    ensures CanMove(s, w, c)
  {
    var op, end := s.txs[w].op, s.txs[w].end;
    assert EndOk(s.db, op, end);
    var t := s.db.runs[op.runId].threadId;
    assert ThreadsOf(s.db, end.runs) == {t};
    c := Choice(n, Some(t));
    forall y | y in s.txs && y != w ensures t !in HeldThreads(s.txs[y]) {
      assert TxOk(s.db, s.txs[y]) && Apart(s.txs[w], s.txs[y]);
      if t in HeldThreads(s.txs[y]) {
        assert s.txs[y].EndTx?;
        AtMostOneActive(s.db, op.runId, s.txs[y].op.runId);
      }
    }
  }
}
