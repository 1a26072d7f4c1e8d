/** The race in which a retransmission is refused, reached from an empty database. */
module PostgresRace {
  import opened Records
  import opened Repository
  import opened Postgres
  import opened PostgresTheorems

  ghost predicate Reachable(s: Sys) {
    exists ss, acts :: IsExecution(ss, acts) && ss[|acts|] == s
  }

  lemma QuietIsReachable()
    ensures Reachable(QUIET)
  {
    assert IsExecution([QUIET], []);
  }

  lemma NextIsReachable(s: Sys, a: Action)
    requires Reachable(s) && Linked(s.db) && Enabled(s, a)
    ensures Reachable(Next(s, a))
  {
    var ss, acts :| IsExecution(ss, acts) && ss[|acts|] == s;
    hide Enabled, Next, Linked;
    var ss', acts' := ss + [Next(s, a)], acts + [a];
    forall i | 0 <= i < |acts'| ensures Leads(ss', acts', i) {
      if i < |acts| {
        assert Leads(ss, acts, i);
        assert ss'[i] == ss[i] && ss'[i + 1] == ss[i + 1] && acts'[i] == acts[i];
      }
    }
    assert IsExecution(ss', acts') && ss'[|acts'|] == Next(s, a);
  }

  lemma {:induction false} ReachedIsReachable(s: Sys, order: seq<Id>, c: Choice, s': Sys)
    requires Reachable(s) && Reaches(s, order, c, s')
    ensures Reachable(s')
    decreases |order|
  {
    if order != [] {
      NextIsReachable(s, Move(order[0], c));
      hide Reachable, Moved, CanMove;
      ReachedIsReachable(Moved(s, order[0], c), order[1..], c, s');
    }
  }

  lemma ReachableInv(s: Sys)
    requires Reachable(s)
    ensures SysInv(s)
  {
    var ss, acts :| IsExecution(ss, acts) && ss[|acts|] == s;
    ExecutionInv(ss, acts, |acts|);
  }

  // ----- a thread whose first run has failed -----

  const FIRST := Request(None, "first", Some(0), 0)
  const ONCE := Choice(0, None)
  const RUN0 := NewRun(0, NewThread(0), Some(0), "first", 0)
  const OPENED := Allocate(EMPTY, NewThread(0), RUN0)

  /** Admit the first run of a new thread. */
  function Admitted(): Sys {
    Sys(OPENED, map[0 := AdmitTx(FIRST, Answered(Fresh(Admission(RUN0, None, false))))])
  }

  lemma AdmittedIsReachable()
    ensures Reachable(Admitted())
  {
    QuietIsReachable();
    var s1 := Sys(EMPTY, map[0 := AdmitTx(FIRST, ReadKey)]);
    var s2 := Sys(EMPTY, map[0 := AdmitTx(FIRST, TakeThread)]);
    var s3 := Sys(EMPTY, map[0 := AdmitTx(FIRST, CheckActive(NewThread(0)))]);
    hide Reachable;
    NextIsReachable(QUIET, Begin(0, AdmitTx(FIRST, ReadKey)));
    assert Next(QUIET, Begin(0, AdmitTx(FIRST, ReadKey))) == s1;
    NextIsReachable(s1, Move(0, ONCE));
    assert Next(s1, Move(0, ONCE)) == s2;
    NextIsReachable(s2, Move(0, ONCE));
    assert Next(s2, Move(0, ONCE)) == s3;
    WinnerCommits(s3, 0, FIRST, NewThread(0), ONCE);
    assert Won(s3, 0, FIRST, NewThread(0), ONCE) == Admitted();
    ReachedIsReachable(s3, [0] + ([0] + ([0] + [])), ONCE, Admitted());
  }

  const FAILS := FailOp(0, "research_failed", "failed", 1)
  const NEXT := Choice(1, Some(0))
  const CLOSED := Finish(OPENED, FailedRun(RUN0, "research_failed", "failed", 1), None, None)

  /** And fail it. */
  function Closed(): Sys {
    Sys(CLOSED, Admitted().txs[1 := EndTx(FAILS, Ended(None))])
  }

  /** The failure of the first run, at one of its phases. */
  function Failing(end: EndPhase): Sys {
    Sys(OPENED, Admitted().txs[1 := EndTx(FAILS, end)])
  }

  lemma OpenedFacts()
    ensures Linked(OPENED) && OPENED.runs == map[0 := RUN0] && ThreadsOf(OPENED, {0}) == {0}
  {
  }

  lemma FailureBegins()
    ensures Enabled(Admitted(), Begin(1, EndTx(FAILS, LockRuns({}))))
    ensures Next(Admitted(), Begin(1, EndTx(FAILS, LockRuns({})))) == Failing(LockRuns({}))
  {
    OpenedFacts();
  }

  lemma FailureLocksRun()
    ensures Enabled(Failing(LockRuns({})), Move(1, NEXT))
    ensures Linked(OPENED) && Next(Failing(LockRuns({})), Move(1, NEXT)) == Failing(LockThreads({0}, {}))
  {
    OpenedFacts();
  }

  lemma FailureLocksThread()
    ensures Enabled(Failing(LockThreads({0}, {})), Move(1, NEXT))
    ensures Linked(OPENED) && Next(Failing(LockThreads({0}, {})), Move(1, NEXT)) == Failing(LockThreads({0}, {0}))
  {
    OpenedFacts();
    assert {} + {0} == {0};
  }

  lemma FailureCommits()
    ensures Enabled(Failing(LockThreads({0}, {0})), Move(1, NEXT))
    ensures Linked(OPENED) && Next(Failing(LockThreads({0}, {0})), Move(1, NEXT)) == Closed()
  {
    OpenedFacts();
  }

  lemma ClosedIsReachable()
    ensures Reachable(Closed())
  {
    AdmittedIsReachable();
    OpenedFacts();
    FailureBegins();
    FailureLocksRun();
    FailureLocksThread();
    FailureCommits();
    hide Reachable, Enabled, Next, Linked, Closed;
    NextIsReachable(Admitted(), Begin(1, EndTx(FAILS, LockRuns({}))));
    NextIsReachable(Failing(LockRuns({})), Move(1, NEXT));
    NextIsReachable(Failing(LockThreads({0}, {})), Move(1, NEXT));
    NextIsReachable(Failing(LockThreads({0}, {0})), Move(1, NEXT));
  }

  // ----- two callers of one request -----

  const AGAIN := Request(Some(0), "again", Some(1), 2)

  /** Both have looked for the key, found nothing, and come to the thread's row. */
  function Race(): Sys {
    Sys(CLOSED, Closed().txs[2 := AdmitTx(AGAIN, TakeThread)][3 := AdmitTx(AGAIN, TakeThread)])
  }

  /** A caller of the request looks for its key and comes to the thread's row. */
  lemma CallerArrives(s: Sys, x: Id)
    requires Reachable(s) && s.db == CLOSED && x !in s.txs
    ensures Reachable(s.(txs := s.txs[x := AdmitTx(AGAIN, TakeThread)]))
  {
    var begun := s.(txs := s.txs[x := AdmitTx(AGAIN, ReadKey)]);
    ClosedFacts();
    hide Reachable, Linked;
    NextIsReachable(s, Begin(x, AdmitTx(AGAIN, ReadKey)));
    assert Next(s, Begin(x, AdmitTx(AGAIN, ReadKey))) == begun;
    NextIsReachable(begun, Move(x, NEXT));
    assert begun.txs[x := AdmitTx(AGAIN, TakeThread)] == s.txs[x := AdmitTx(AGAIN, TakeThread)];
    assert Next(begun, Move(x, NEXT)) == s.(txs := s.txs[x := AdmitTx(AGAIN, TakeThread)]);
  }

  lemma ClosedFacts()
    ensures Linked(CLOSED) && 1 !in CLOSED.keys
  {
  }

  lemma RaceIsReachable()
    ensures Reachable(Race())
  {
    ClosedIsReachable();
    hide Reachable;
    CallerArrives(Closed(), 2);
    CallerArrives(Closed().(txs := Closed().txs[2 := AdmitTx(AGAIN, TakeThread)]), 3);
  }

  lemma RaceFacts()
    ensures WaitsForThread(Race(), 2, AGAIN) && WaitsForThread(Race(), 3, AGAIN)
    ensures RaceIsOpen(CLOSED, AGAIN) && NEXT.uuid !in CLOSED.runs
    ensures ThreadFree(Race(), 2, 0) && KeyFree(Race(), 2, 1) && RunFree(Race(), 2, NEXT.uuid)
  {
  }

  /**
   * From an empty database: of two callers that send one request at once, one is admitted and the other is refused
   * because the thread is busy, at a moment when the atomic repository would replay the admitted run to it.
   */
  lemma RefusalIsReachable()
    ensures var thread := CLOSED.threads[0];
            var won := Won(Race(), 2, AGAIN, thread, NEXT);
            && Reachable(won) && Reachable(Rejected(won, 3, AGAIN))
            && Rejected(won, 3, AGAIN).txs[3] == AdmitTx(AGAIN, Answered(Refused(RunAlreadyActive)))
            && Linked(won.db)
            && Admit(won.db, AGAIN.threadId, AGAIN.message, AGAIN.key, 1, 1, AGAIN.at).1
               == Ok(Admission(WinningRun(thread, AGAIN, NEXT), thread.head, true))
  {
    RaceIsReachable();
    ReachableInv(Race());
    RaceFacts();
    hide Reachable, SysInv, Reaches, Linked;
    LateCallerIsRefused(Race(), 2, 3, AGAIN, NEXT);
    var won := Won(Race(), 2, AGAIN, CLOSED.threads[0], NEXT);
    ReachedIsReachable(Race(), [2] + ([2] + ([2] + ([2] + []))), NEXT, won);
    ReachedIsReachable(won, [3] + ([3] + []), NEXT, Rejected(won, 3, AGAIN));
  }
}
