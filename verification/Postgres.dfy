/**
 * PostgreSQL admission and finalization as interleaved transactions under READ COMMITTED.
 *
 * `db` holds the committed rows. What a transaction has written but not committed is in its own phase,
 * together with the row locks it holds. A step moves one transaction, or loses its connection, or both: a commit may
 * land although the caller never hears of it.
 */
module Postgres {
  import opened Records
  import opened Repository
  import opened History

  // ----- transactions -----

  datatype Request = Request(threadId: Option<Id>, message: string, key: Option<Id>, at: Instant)

  /** Broken is ConversationPersistenceError; Lost is a connection that died, whether or not the commit landed. */
  datatype Outcome =
    | Fresh(admission: Admission) | Replayed(admission: Admission) | Refused(error: Error) | Broken | Lost

  datatype AdmitPhase =
    | ReadKey
    | TakeThread
    | CheckActive(thread: Thread)
    | InsertRun(thread: Thread)
    | Written(thread: Thread, run: Run)
    | ReadHead(existing: Run)
    | RacedKey
    | Answered(outcome: Outcome)

  datatype Ending =
    | CompleteOp(runId: Id, expected: Option<string>, checkpoint: string, answer: string,
                 toolCalls: seq<Payload>, artifacts: seq<RawArtifact>, at: Instant)
    | FailOp(runId: Id, code: string, text: string, at: Instant)
    | CancelOp(runId: Id, partial: string, toolCalls: seq<Payload>, artifacts: seq<RawArtifact>, at: Instant)
    | RecoverOp(at: Instant)

  datatype EndPhase =
    | LockRuns(runs: set<Id>)
    | LockThreads(runs: set<Id>, threads: set<Id>)
    | Ended(error: Option<Error>)
    | Cut

  datatype Tx = AdmitTx(req: Request, phase: AdmitPhase) | EndTx(op: Ending, end: EndPhase)

  datatype Sys = Sys(db: Repo, txs: map<Id, Tx>)

  /** Thread rows a transaction has locked or created. */
  function HeldThreads(tx: Tx): set<Id> {
    match tx
    case AdmitTx(_, CheckActive(thread)) => {thread.threadId}
    case AdmitTx(_, InsertRun(thread)) => {thread.threadId}
    case AdmitTx(_, Written(thread, _)) => {thread.threadId}
    case EndTx(_, LockThreads(_, threads)) => threads
    case _ => {}
  }

  /** Run rows a transaction has locked or created. */
  function HeldRuns(tx: Tx): set<Id> {
    match tx
    case AdmitTx(_, Written(_, run)) => {run.runId}
    case EndTx(_, LockRuns(runs)) => runs
    case EndTx(_, LockThreads(runs, _)) => runs
    case _ => {}
  }

  /** The request key of a transaction's uncommitted run. */
  function PendingKey(tx: Tx): set<Id> {
    if tx.AdmitTx? && tx.phase.Written? && tx.phase.run.key.Some? then {tx.phase.run.key.value} else {}
  }

  ghost predicate ThreadFree(s: Sys, x: Id, t: Id) {
    forall y :: y in s.txs && y != x ==> t !in HeldThreads(s.txs[y])
  }

  ghost predicate RunFree(s: Sys, x: Id, r: Id) {
    forall y :: y in s.txs && y != x ==> r !in HeldRuns(s.txs[y])
  }

  ghost predicate KeyFree(s: Sys, x: Id, k: Id) {
    forall y :: y in s.txs && y != x ==> k !in PendingKey(s.txs[y])
  }

  function ThreadsOf(db: Repo, runs: set<Id>): set<Id>
    requires runs <= db.runs.Keys
  {
    set r | r in runs :: db.runs[r].threadId
  }

  // ----- one transaction's next step -----

  /** `uuid` is the identity a default would generate; `pick` the row a multi-row statement touches next. */
  datatype Choice = Choice(uuid: Id, pick: Option<Id>)

  /** A statement that would wait for a lock, or for another transaction's uncommitted key, is not enabled. */
  ghost predicate CanMove(s: Sys, x: Id, c: Choice)
    requires x in s.txs
  {
    match s.txs[x]
    case AdmitTx(req, TakeThread) =>
      if req.threadId.None? then c.uuid !in s.db.threads && ThreadFree(s, x, c.uuid)
      else req.threadId.value in s.db.threads ==> ThreadFree(s, x, req.threadId.value)
    case AdmitTx(req, InsertRun(_)) =>
      && c.uuid !in s.db.runs && RunFree(s, x, c.uuid)
      && (req.key.Some? ==> KeyFree(s, x, req.key.value))
    case AdmitTx(_, Answered(_)) => false
    case EndTx(op, LockRuns(runs)) =>
      if op.RecoverOp? then
        c.pick.Some? ==> c.pick.value in ActiveRuns(s.db) - runs && RunFree(s, x, c.pick.value)
      else MalformedEnding(op) || (op.runId in s.db.runs ==> RunFree(s, x, op.runId))
    case EndTx(op, LockThreads(runs, threads)) =>
      && runs <= s.db.runs.Keys
      && (threads == ThreadsOf(s.db, runs) || (
            && c.pick.Some? && c.pick.value in ThreadsOf(s.db, runs) - threads && c.pick.value in s.db.threads
            && (HeadMoved(s.db, op, c.pick.value) || ThreadFree(s, x, c.pick.value))))
    case EndTx(_, Ended(_)) => false
    case EndTx(_, Cut) => false
    case _ => true
  }

  predicate MalformedEnding(op: Ending) {
    match op
    case CompleteOp(_, _, _, _, _, artifacts, _) => !AllWellFormed(artifacts)
    case CancelOp(_, _, _, artifacts, _) => !AllWellFormed(artifacts)
    case _ => false
  }

  predicate HeadMoved(db: Repo, op: Ending, t: Id)
    requires t in db.threads
  {
    op.CompleteOp? && db.threads[t].head != op.expected
  }

  function ReadExisting(db: Repo, req: Request, existing: Run): AdmitPhase {
    if KeyMismatch(existing, req.threadId, req.message) then Answered(Refused(RequestKeyConflict))
    else ReadHead(existing)
  }

  ghost function MoveAdmit(db: Repo, req: Request, phase: AdmitPhase, c: Choice): AdmitPhase
    requires Linked(db)
  {
    match phase
    case ReadKey =>
      if req.key.Some? && req.key.value in db.keys then ReadExisting(db, req, db.runs[db.keys[req.key.value]])
      else TakeThread
    case TakeThread =>
      if req.threadId.None? then CheckActive(NewThread(c.uuid))
      else if req.threadId.value !in db.threads then Answered(Refused(ThreadNotFound))
      else CheckActive(db.threads[req.threadId.value])
    case CheckActive(thread) =>
      if HasActive(db, thread.threadId) then Answered(Refused(RunAlreadyActive)) else InsertRun(thread)
    case InsertRun(thread) =>
      if TurnTaken(db, thread.threadId, thread.nextTurn) then Answered(Broken)
      else if HasActive(db, thread.threadId) then Answered(Refused(RunAlreadyActive))
      else if req.key.Some? && req.key.value in db.keys then RacedKey
      else Written(thread, NewRun(c.uuid, thread, req.key, req.message, req.at))
    case Written(thread, run) => Answered(Fresh(Admission(run, thread.head, false)))
    case ReadHead(existing) =>
      if existing.threadId !in db.threads then Answered(Refused(ThreadNotFound))
      else Answered(Replayed(Admission(existing, db.threads[existing.threadId].head, true)))
    case RacedKey =>
      if req.key.Some? && req.key.value in db.keys then ReadExisting(db, req, db.runs[db.keys[req.key.value]])
      else Answered(Broken)
    case Answered(_) => phase
  }

  /** The commit of an admission publishes its run, its key and its thread row together. */
  function CommitAdmit(db: Repo, phase: AdmitPhase): Repo {
    if phase.Written? then Allocate(db, phase.thread, phase.run) else db
  }

  function MoveEnd(db: Repo, op: Ending, end: EndPhase, c: Choice): EndPhase
    requires end.LockThreads? ==> end.runs <= db.runs.Keys
    requires end.LockThreads? && end.threads != ThreadsOf(db, end.runs) && c.pick.Some? ==> c.pick.value in db.threads
  {
    match end
    case LockRuns(runs) =>
      if op.RecoverOp? then
        if c.pick.Some? then LockRuns(runs + {c.pick.value}) else LockThreads(runs, {})
      else if MalformedEnding(op) then Ended(Some(MalformedArtifact))
      else
        var active := RequireActive(db, op.runId);
        if active.Err? then Ended(Some(active.error)) else LockThreads({op.runId}, {})
    case LockThreads(runs, threads) =>
      if threads == ThreadsOf(db, runs) then Ended(None)
      else if c.pick.None? then end
      else if HeadMoved(db, op, c.pick.value) then Ended(Some(CheckpointConflict))
      else LockThreads(runs, threads + {c.pick.value})
    case Ended(_) => end
    case Cut => end
  }

  /** The run a single-run ending writes. */
  function EndedRun(run: Run, op: Ending): Run
    requires !op.RecoverOp?
  {
    match op
    case CompleteOp(_, _, _, answer, toolCalls, _, at) => CompletedRun(run, answer, toolCalls, at)
    case FailOp(_, code, text, at) => FailedRun(run, code, text, at)
    case CancelOp(_, partial, toolCalls, _, at) => CancelledRun(run, partial, toolCalls, at)
  }

  function EndedEvidence(op: Ending): Option<seq<Artifact>>
    requires !op.RecoverOp? && !MalformedEnding(op)
  {
    if op.FailOp? then None else Some(StoreAll(op.runId, op.artifacts, op.at))
  }

  ghost function CommitEnd(db: Repo, op: Ending, end: EndPhase): Repo
    requires Linked(db)
  {
    if end.LockThreads? && end.runs <= db.runs.Keys && end.threads == ThreadsOf(db, end.runs) then
      if op.RecoverOp? then Interrupt(db, end.runs, op.at)
      else if op.runId in db.runs && !MalformedEnding(op) then
        Finish(db, EndedRun(db.runs[op.runId], op), EndedEvidence(op),
               if op.CompleteOp? then Some(op.checkpoint) else None)
      else db
    else db
  }

  // ----- the system -----

  datatype Action = Begin(x: Id, tx: Tx) | Move(x: Id, choice: Choice) | Unheard(x: Id, choice: Choice) | Crash(x: Id)

  predicate Starts(tx: Tx) {
    match tx
    case AdmitTx(_, phase) => phase == ReadKey
    case EndTx(_, end) => end == LockRuns({})
  }

  ghost predicate Enabled(s: Sys, a: Action) {
    match a
    case Begin(x, tx) => x !in s.txs && Starts(tx)
    case Move(x, c) => x in s.txs && CanMove(s, x, c)
    case Unheard(x, c) => x in s.txs && CanMove(s, x, c)
    case Crash(x) => x in s.txs && !Finished(s.txs[x])
  }

  predicate Finished(tx: Tx) {
    match tx
    case AdmitTx(_, phase) => phase.Answered?
    case EndTx(_, end) => end.Ended? || end.Cut?
  }

  ghost function Moved(s: Sys, x: Id, c: Choice): Sys
    requires Linked(s.db) && x in s.txs && CanMove(s, x, c)
  {
    match s.txs[x]
    case AdmitTx(req, phase) =>
      Sys(CommitAdmit(s.db, phase), s.txs[x := AdmitTx(req, MoveAdmit(s.db, req, phase, c))])
    case EndTx(op, end) =>
      Sys(CommitEnd(s.db, op, end), s.txs[x := EndTx(op, MoveEnd(s.db, op, end, c))])
  }

  /** Losing a connection ends the transaction: what of it is not in `db` by then never will be. */
  function Abort(tx: Tx): Tx {
    match tx
    case AdmitTx(req, _) => AdmitTx(req, Answered(Lost))
    case EndTx(op, _) => EndTx(op, Cut)
  }

  ghost function Next(s: Sys, a: Action): Sys
    requires Linked(s.db) && Enabled(s, a)
  {
    match a
    case Begin(x, tx) => s.(txs := s.txs[x := tx])
    case Move(x, c) => Moved(s, x, c)
    case Unheard(x, c) => var moved := Moved(s, x, c); moved.(txs := moved.txs[x := Abort(moved.txs[x])])
    case Crash(x) => s.(txs := s.txs[x := Abort(s.txs[x])])
  }

  // ----- the invariant -----

  /** The row an admission holds is still the committed one, or is its own new row. */
  ghost predicate RowCurrent(db: Repo, req: Request, thread: Thread) {
    if req.threadId.Some?
    then thread.threadId == req.threadId.value && thread.threadId in db.threads && db.threads[thread.threadId] == thread
    else thread.threadId !in db.threads && thread == NewThread(thread.threadId)
  }

  /** `run` is an earlier version of the committed run that owns the request's key. */
  ghost predicate OwnsKey(db: Repo, req: Request, run: Run) {
    && req.key.Some? && req.key.value in db.keys && db.keys[req.key.value] == run.runId
    && run.runId in db.runs && SameRow(db.runs[run.runId], run)
    && !KeyMismatch(run, req.threadId, req.message)
  }

  /** `run` is an earlier version of the committed run this request created. */
  ghost predicate CreatedBy(db: Repo, req: Request, run: Run) {
    && run.runId in db.runs && SameRow(db.runs[run.runId], run)
    && run.key == req.key && run.message == req.message
    && (req.threadId.Some? ==> run.threadId == req.threadId.value)
    && run.threadId in db.threads
    && (req.key.Some? ==> req.key.value in db.keys && db.keys[req.key.value] == run.runId)
  }

  ghost predicate OutcomeOk(db: Repo, req: Request, outcome: Outcome) {
    match outcome
    case Fresh(a) => !a.replayed && CreatedBy(db, req, a.run)
    case Replayed(a) => a.replayed && OwnsKey(db, req, a.run)
    case Refused(RequestKeyConflict) =>
      && req.key.Some? && req.key.value in db.keys && db.keys[req.key.value] in db.runs
      && KeyMismatch(db.runs[db.keys[req.key.value]], req.threadId, req.message)
    case Refused(ThreadNotFound) => req.threadId.Some?
    case Refused(RunAlreadyActive) => req.threadId.Some?
    case Refused(_) => false
    case Broken => false
    case Lost => true
  }

  ghost predicate AdmitOk(db: Repo, req: Request, phase: AdmitPhase) {
    match phase
    case ReadKey => true
    case TakeThread => true
    case CheckActive(thread) => RowCurrent(db, req, thread)
    case InsertRun(thread) => RowCurrent(db, req, thread) && !HasActive(db, thread.threadId)
    case Written(thread, run) =>
      && RowCurrent(db, req, thread) && MayAllocate(db, thread, run)
      && run.key == req.key && run.message == req.message && run.startedAt == req.at
    case ReadHead(existing) => OwnsKey(db, req, existing)
    case RacedKey => req.key.Some? && req.key.value in db.keys
    case Answered(outcome) => OutcomeOk(db, req, outcome)
  }

  ghost predicate EndOk(db: Repo, op: Ending, end: EndPhase) {
    match end
    case LockRuns(runs) => runs <= ActiveRuns(db) && (!op.RecoverOp? ==> runs == {})
    case LockThreads(runs, threads) =>
      && runs <= ActiveRuns(db) && threads <= ThreadsOf(db, runs) && threads <= db.threads.Keys
      && (!op.RecoverOp? ==> runs == {op.runId} && !MalformedEnding(op))
      && (op.CompleteOp? ==> forall t :: t in threads ==> db.threads[t].head == op.expected)
    case Ended(_) => true
    case Cut => true
  }

  ghost predicate TxOk(db: Repo, tx: Tx) {
    match tx
    case AdmitTx(req, phase) => AdmitOk(db, req, phase)
    case EndTx(op, end) => EndOk(db, op, end)
  }

  ghost predicate Apart(tx: Tx, other: Tx) {
    && HeldThreads(tx) !! HeldThreads(other)
    && HeldRuns(tx) !! HeldRuns(other)
    && PendingKey(tx) !! PendingKey(other)
  }

  ghost predicate TxsOk(s: Sys) {
    forall x :: x in s.txs ==> TxOk(s.db, s.txs[x])
  }

  ghost predicate LocksApart(s: Sys) {
    forall x, y :: x in s.txs && y in s.txs && x != y ==> Apart(s.txs[x], s.txs[y])
  }

  ghost predicate SysInv(s: Sys) {
    Inv(s.db) && TxsOk(s) && LocksApart(s)
  }

  // ----- what a commit leaves alone -----

  lemma OwnershipGrows(db: Repo, db': Repo, req: Request, run: Run)
    requires Linked(db) && Linked(db') && Extends(db, db')
    ensures OwnsKey(db, req, run) ==> OwnsKey(db', req, run)
    ensures CreatedBy(db, req, run) ==> CreatedBy(db', req, run)
  {
  }

  lemma OutcomeGrows(db: Repo, db': Repo, req: Request, outcome: Outcome)
    requires Linked(db) && Linked(db') && Extends(db, db') && OutcomeOk(db, req, outcome)
    ensures OutcomeOk(db', req, outcome)
  {
    match outcome
    case Fresh(a) => OwnershipGrows(db, db', req, a.run);
    case Replayed(a) => OwnershipGrows(db, db', req, a.run);
    case _ =>
  }

  lemma AllocateExtends(db: Repo, thread: Thread, run: Run)
    requires Linked(db) && MayAllocate(db, thread, run)
    ensures Linked(Allocate(db, thread, run)) && Extends(db, Allocate(db, thread, run))
  {
  }

  lemma AllocateElsewhere(db: Repo, thread: Thread, run: Run)
    requires Linked(db) && MayAllocate(db, thread, run)
    ensures forall t :: t != thread.threadId && HasActive(Allocate(db, thread, run), t) ==> HasActive(db, t)
  {
  }

  lemma AllocateKeepsAdmission(db: Repo, thread: Thread, run: Run, req: Request, phase: AdmitPhase)
    requires Linked(db) && MayAllocate(db, thread, run) && AdmitOk(db, req, phase)
    requires thread.threadId !in HeldThreads(AdmitTx(req, phase)) && run.runId !in HeldRuns(AdmitTx(req, phase))
    requires run.key.Some? ==> run.key.value !in PendingKey(AdmitTx(req, phase))
    ensures AdmitOk(Allocate(db, thread, run), req, phase)
  {
    var db' := Allocate(db, thread, run);
    AllocateExtends(db, thread, run);
    AllocateElsewhere(db, thread, run);
    hide HasActive, LifecycleCheck, KeyMismatch;
    match phase
    case ReadHead(existing) => OwnershipGrows(db, db', req, existing);
    case Answered(outcome) => OutcomeGrows(db, db', req, outcome);
    case _ => hide OwnsKey, OutcomeOk, CreatedBy;
  }

  lemma AllocateKeepsEnding(db: Repo, thread: Thread, run: Run, op: Ending, end: EndPhase)
    requires Linked(db) && MayAllocate(db, thread, run) && EndOk(db, op, end)
    requires thread.threadId !in HeldThreads(EndTx(op, end)) && run.runId !in HeldRuns(EndTx(op, end))
    ensures EndOk(Allocate(db, thread, run), op, end)
  {
    if end.LockThreads? { assert ThreadsOf(Allocate(db, thread, run), end.runs) == ThreadsOf(db, end.runs); }
    hide HasActive, LifecycleCheck;
  }

  /** Another transaction's view survives the commit of an admission whose locks it does not share. */
  lemma AllocateKeepsOther(db: Repo, thread: Thread, run: Run, tx: Tx)
    requires Linked(db) && MayAllocate(db, thread, run) && TxOk(db, tx)
    requires thread.threadId !in HeldThreads(tx) && run.runId !in HeldRuns(tx)
    requires run.key.Some? ==> run.key.value !in PendingKey(tx)
    ensures TxOk(Allocate(db, thread, run), tx)
  {
    hide MayAllocate, AdmitOk, EndOk;
    match tx
    case AdmitTx(req, phase) => AllocateKeepsAdmission(db, thread, run, req, phase);
    case EndTx(op, end) => AllocateKeepsEnding(db, thread, run, op, end);
  }

  /** The runs of `runs` are over; nothing else moved but the rows of their threads. */
  ghost predicate Settles(db: Repo, db': Repo, runs: set<Id>) {
    && runs <= db.runs.Keys
    && db'.runs.Keys == db.runs.Keys && db'.keys == db.keys && db'.threads.Keys == db.threads.Keys
    && (forall r :: r in db.runs && r !in runs ==> db'.runs[r] == db.runs[r])
    && (forall r :: r in runs ==> db'.runs[r].status != InProgress)
    && (forall t :: t in db.threads && t !in ThreadsOf(db, runs) ==> db'.threads[t] == db.threads[t])
  }

  lemma SettleKeepsOther(db: Repo, db': Repo, runs: set<Id>, tx: Tx)
    requires Linked(db) && Linked(db') && Extends(db, db') && Settles(db, db', runs) && TxOk(db, tx)
    requires HeldRuns(tx) !! runs && HeldThreads(tx) !! ThreadsOf(db, runs)
    ensures TxOk(db', tx)
  {
    hide Settles, Extends, Linked, AdmitOk, EndOk;
    match tx
    case AdmitTx(req, phase) => SettleKeepsAdmission(db, db', runs, req, phase);
    case EndTx(op, end) => SettleKeepsEnding(db, db', runs, op, end);
  }

  lemma SettleKeepsAdmission(db: Repo, db': Repo, runs: set<Id>, req: Request, phase: AdmitPhase)
    requires Linked(db) && Linked(db') && Extends(db, db') && Settles(db, db', runs) && AdmitOk(db, req, phase)
    requires HeldRuns(AdmitTx(req, phase)) !! runs && HeldThreads(AdmitTx(req, phase)) !! ThreadsOf(db, runs)
    ensures AdmitOk(db', req, phase)
  {
    assert forall t :: HasActive(db', t) ==> HasActive(db, t);
    hide HasActive, LifecycleCheck, KeyMismatch;
    match phase
    case Written(thread, run) => assert MayAllocate(db', thread, run);
    case ReadHead(existing) => OwnershipGrows(db, db', req, existing);
    case Answered(outcome) => OutcomeGrows(db, db', req, outcome);
    case _ => hide OwnsKey, OutcomeOk, CreatedBy;
  }

  lemma SettleKeepsEnding(db: Repo, db': Repo, runs: set<Id>, op: Ending, end: EndPhase)
    requires Linked(db) && Linked(db') && Extends(db, db') && Settles(db, db', runs) && EndOk(db, op, end)
    requires HeldRuns(EndTx(op, end)) !! runs && HeldThreads(EndTx(op, end)) !! ThreadsOf(db, runs)
    ensures EndOk(db', op, end)
  {
    if end.LockThreads? { assert ThreadsOf(db', end.runs) == ThreadsOf(db, end.runs); }
    hide HasActive, LifecycleCheck;
  }

  // ----- one transaction's own step -----

  lemma ReadExistingOk(db: Repo, req: Request)
    requires Linked(db) && KeysInverse(db)
    requires req.key.Some? && req.key.value in db.keys
    ensures AdmitOk(db, req, ReadExisting(db, req, db.runs[db.keys[req.key.value]]))
  {
  }

  /** No step of an admission ever answers Broken: the lock it holds makes its insert succeed. */
  lemma MoveAdmitOk(s: Sys, x: Id, req: Request, phase: AdmitPhase, c: Choice)
    requires Inv(s.db) && x in s.txs && s.txs[x] == AdmitTx(req, phase)
    requires CanMove(s, x, c) && AdmitOk(s.db, req, phase) && !phase.Written?
    ensures AdmitOk(s.db, req, MoveAdmit(s.db, req, phase, c))
  {
    var db := s.db;
    match phase
    case ReadKey => if req.key.Some? && req.key.value in db.keys { ReadExistingOk(db, req); }
    case RacedKey => ReadExistingOk(db, req);
    case InsertRun(thread) => InsertCannotCollide(db, req, thread);
    case _ =>
  }

  /** Under its thread lock, an admission's insert can violate no index but the one on request keys. */
  lemma InsertCannotCollide(db: Repo, req: Request, thread: Thread)
    requires Inv(db) && RowCurrent(db, req, thread) && !HasActive(db, thread.threadId)
    ensures !TurnTaken(db, thread.threadId, thread.nextTurn)
  {
    assert forall r :: !RunAt(db, thread.threadId, thread.nextTurn, r);
  }

  lemma CommitAdmitOk(db: Repo, req: Request, thread: Thread, run: Run)
    requires Linked(db) && AdmitOk(db, req, Written(thread, run))
    ensures OutcomeOk(Allocate(db, thread, run), req, Fresh(Admission(run, thread.head, false)))
  {
  }

  lemma InterruptSettles(db: Repo, runs: set<Id>, at: Instant)
    requires Linked(db) && runs <= ActiveRuns(db)
    ensures Linked(Interrupt(db, runs, at))
    ensures Extends(db, Interrupt(db, runs, at)) && Settles(db, Interrupt(db, runs, at), runs)
  {
  }

  lemma FinishSettles(db: Repo, run: Run, evidence: Option<seq<Artifact>>, head: Option<string>)
    requires Linked(db) && MayFinish(db, run, evidence)
    ensures Linked(Finish(db, run, evidence, head))
    ensures Settles(db, Finish(db, run, evidence, head), {run.runId})
  {
    assert ThreadsOf(db, {run.runId}) == {run.threadId};
  }

  ghost predicate AboutToCommit(db: Repo, op: Ending, end: EndPhase) {
    end.LockThreads? && EndOk(db, op, end) && end.runs <= db.runs.Keys && end.threads == ThreadsOf(db, end.runs)
  }

  lemma EndingMayFinish(db: Repo, op: Ending, end: EndPhase)
    requires Linked(db) && (forall r :: r in db.runs ==> LifecycleCheck(db.runs[r]))
    requires AboutToCommit(db, op, end) && !op.RecoverOp?
    ensures op.runId in db.runs && MayFinish(db, EndedRun(db.runs[op.runId], op), EndedEvidence(op))
    ensures CommitEnd(db, op, end) == Finish(db, EndedRun(db.runs[op.runId], op), EndedEvidence(op),
                                             if op.CompleteOp? then Some(op.checkpoint) else None)
  {
  }

  lemma CommitEndKeepsInv(db: Repo, op: Ending, end: EndPhase)
    requires Inv(db) && AboutToCommit(db, op, end)
    ensures Inv(CommitEnd(db, op, end))
  {
    if op.RecoverOp? {
      InterruptKeepsInv(db, end.runs, op.at);
    } else {
      EndingMayFinish(db, op, end);
      FinishKeepsInv(db, EndedRun(db.runs[op.runId], op), EndedEvidence(op),
                     if op.CompleteOp? then Some(op.checkpoint) else None);
    }
  }

  lemma CommitEndSettles(db: Repo, op: Ending, end: EndPhase)
    requires Linked(db) && (forall r :: r in db.runs ==> LifecycleCheck(db.runs[r]))
    requires AboutToCommit(db, op, end)
    ensures Linked(CommitEnd(db, op, end))
    ensures Extends(db, CommitEnd(db, op, end)) && Settles(db, CommitEnd(db, op, end), end.runs)
  {
    if op.RecoverOp? {
      InterruptSettles(db, end.runs, op.at);
    } else {
      EndingMayFinish(db, op, end);
      var run := EndedRun(db.runs[op.runId], op);
      var head := if op.CompleteOp? then Some(op.checkpoint) else None;
      FinishExtends(db, run, EndedEvidence(op), head);
      FinishSettles(db, run, EndedEvidence(op), head);
    }
  }

  lemma MoveEndOk(s: Sys, x: Id, op: Ending, end: EndPhase, c: Choice)
    requires Linked(s.db) && x in s.txs && s.txs[x] == EndTx(op, end)
    requires CanMove(s, x, c) && EndOk(s.db, op, end)
    ensures EndOk(s.db, op, MoveEnd(s.db, op, end, c))
  {
  }

  // ----- locks stay exclusive -----

  lemma MoveKeepsApart(s: Sys, x: Id, c: Choice, y: Id)
    requires Linked(s.db) && x in s.txs && y in s.txs && y != x
    requires CanMove(s, x, c) && Apart(s.txs[x], s.txs[y]) && Apart(s.txs[y], s.txs[x])
    ensures Apart(Moved(s, x, c).txs[x], s.txs[y]) && Apart(s.txs[y], Moved(s, x, c).txs[x])
  {
  }

  lemma MoveKeepsLocks(s: Sys, x: Id, c: Choice)
    requires Linked(s.db) && LocksApart(s) && x in s.txs && CanMove(s, x, c)
    ensures LocksApart(Moved(s, x, c))
  {
    var s' := Moved(s, x, c);
    forall y, z | y in s'.txs && z in s'.txs && y != z
      ensures Apart(s'.txs[y], s'.txs[z])
    {
      if y == x {
        MoveKeepsApart(s, x, c, z);
      } else if z == x {
        MoveKeepsApart(s, x, c, y);
      }
    }
  }

  lemma AdmitStepKeeps(s: Sys, x: Id, c: Choice)
    requires SysInv(s) && x in s.txs && CanMove(s, x, c) && s.txs[x].AdmitTx?
    ensures Inv(Moved(s, x, c).db) && TxsOk(Moved(s, x, c))
  {
    var db, req, phase := s.db, s.txs[x].req, s.txs[x].phase;
    if phase.Written? {
      AllocateKeepsInv(db, phase.thread, phase.run);
      CommitAdmitOk(db, req, phase.thread, phase.run);
      hide Inv, Allocate, AdmitOk;
      forall y | y in s.txs && y != x ensures TxOk(Moved(s, x, c).db, s.txs[y]) {
        assert Apart(s.txs[x], s.txs[y]);
        AllocateKeepsOther(db, phase.thread, phase.run, s.txs[y]);
      }
    } else {
      MoveAdmitOk(s, x, req, phase, c);
    }
  }

  lemma OthersSettle(s: Sys, x: Id, db': Repo, runs: set<Id>)
    requires Linked(s.db) && Linked(db') && TxsOk(s) && LocksApart(s) && x in s.txs
    requires Extends(s.db, db') && Settles(s.db, db', runs)
    requires runs <= HeldRuns(s.txs[x]) && ThreadsOf(s.db, runs) <= HeldThreads(s.txs[x])
    ensures forall y :: y in s.txs && y != x ==> TxOk(db', s.txs[y])
  {
    forall y | y in s.txs && y != x ensures TxOk(db', s.txs[y]) {
      assert Apart(s.txs[x], s.txs[y]);
      SettleKeepsOther(s.db, db', runs, s.txs[y]);
    }
  }

  predicate Commits(db: Repo, tx: Tx)
    requires tx.EndTx? && tx.end.LockThreads? ==> tx.end.runs <= db.runs.Keys
  {
    match tx
    case AdmitTx(_, phase) => phase.Written?
    case EndTx(_, end) => end.LockThreads? && end.threads == ThreadsOf(db, end.runs)
  }

  lemma EndCommitKeepsTxs(s: Sys, x: Id, c: Choice)
    requires Linked(s.db) && (forall r :: r in s.db.runs ==> LifecycleCheck(s.db.runs[r]))
    requires TxsOk(s) && LocksApart(s) && x in s.txs && CanMove(s, x, c)
    requires s.txs[x].EndTx? && AboutToCommit(s.db, s.txs[x].op, s.txs[x].end)
    ensures TxsOk(Moved(s, x, c))
  {
    var op, end := s.txs[x].op, s.txs[x].end;
    CommitEndSettles(s.db, op, end);
    OthersSettle(s, x, CommitEnd(s.db, op, end), end.runs);
    EndMoves(s, x, c);
    EndedIsOk(CommitEnd(s.db, op, end), op);
    hide Moved, CommitEnd, CanMove, LifecycleCheck, LocksApart, Linked, AboutToCommit, TxOk, Settles;
    hide Extends, ThreadsOf;
  }

  lemma EndMoves(s: Sys, x: Id, c: Choice)
    requires Linked(s.db) && x in s.txs && CanMove(s, x, c)
    requires s.txs[x].EndTx? && AboutToCommit(s.db, s.txs[x].op, s.txs[x].end)
    ensures Moved(s, x, c) ==
      Sys(CommitEnd(s.db, s.txs[x].op, s.txs[x].end), s.txs[x := EndTx(s.txs[x].op, Ended(None))])
  {
    hide CommitEnd;
  }

  lemma EndedIsOk(db: Repo, op: Ending)
    ensures TxOk(db, EndTx(op, Ended(None)))
  {
  }

  lemma EndWaitKeeps(s: Sys, x: Id, c: Choice)
    requires Linked(s.db) && TxsOk(s) && x in s.txs && CanMove(s, x, c)
    requires s.txs[x].EndTx? && !Commits(s.db, s.txs[x])
    ensures Moved(s, x, c).db == s.db && TxsOk(Moved(s, x, c))
  {
    MoveEndOk(s, x, s.txs[x].op, s.txs[x].end, c);
  }

  lemma EndStepKeeps(s: Sys, x: Id, c: Choice)
    requires SysInv(s) && x in s.txs && CanMove(s, x, c) && s.txs[x].EndTx?
    ensures Inv(Moved(s, x, c).db) && TxsOk(Moved(s, x, c))
  {
    assert TxOk(s.db, s.txs[x]);
    if Commits(s.db, s.txs[x]) {
      EndCommitKeepsTxs(s, x, c);
      CommitEndKeepsInv(s.db, s.txs[x].op, s.txs[x].end);
    } else {
      EndWaitKeeps(s, x, c);
    }
  }

  /** A transaction that starts, or is rolled back, holds nothing and has written nothing. */
  lemma QuietChangeKeeps(s: Sys, x: Id, tx: Tx)
    requires TxsOk(s) && LocksApart(s) && TxOk(s.db, tx)
    requires HeldThreads(tx) == {} && HeldRuns(tx) == {} && PendingKey(tx) == {}
    ensures TxsOk(s.(txs := s.txs[x := tx])) && LocksApart(s.(txs := s.txs[x := tx]))
  {
  }

  lemma MoveKeepsSysInv(s: Sys, x: Id, c: Choice)
    requires SysInv(s) && x in s.txs && CanMove(s, x, c)
    ensures SysInv(Moved(s, x, c))
  {
    MoveKeepsLocks(s, x, c);
    if s.txs[x].AdmitTx? { AdmitStepKeeps(s, x, c); } else { EndStepKeeps(s, x, c); }
  }

  lemma UnheardKeepsSysInv(s: Sys, x: Id, c: Choice)
    requires SysInv(s) && x in s.txs && CanMove(s, x, c)
    ensures SysInv(Next(s, Unheard(x, c)))
  {
    MoveKeepsSysInv(s, x, c);
    var moved := Moved(s, x, c);
    assert x in moved.txs;
    hide Moved, CanMove, Inv;
    QuietChangeKeeps(moved, x, Abort(moved.txs[x]));
  }

  lemma NextKeepsSysInv(s: Sys, a: Action)
    requires SysInv(s) && Enabled(s, a)
    ensures SysInv(Next(s, a))
  {
    match a
    case Begin(x, tx) => QuietChangeKeeps(s, x, tx);
    case Move(x, c) => MoveKeepsSysInv(s, x, c);
    case Unheard(x, c) => UnheardKeepsSysInv(s, x, c);
    case Crash(x) => QuietChangeKeeps(s, x, Abort(s.txs[x]));
  }
}