/** The whole manager: its runs, the queue, the one worker that executes them, and shutdown. */
module DetachedManager {
  import opened Records
  import opened Repository
  import opened RunEvents
  import opened RunChannel
  import opened RunManager

  datatype QueueItem = Job(r: Id) | Sentinel

  datatype Worker = Waiting | Busy(r: Id) | Leaving(r: Id) | Stopped

  datatype Manager = Manager(runs: map<Id, RunState>, queue: seq<QueueItem>, worker: Worker, sweeping: bool)

  datatype Action =
    | Appear(r: Id, durable: Status)
    | AdmitHere(r: Id)
    | Attach(r: Id, replayed: bool)
    | Take
    | Resume(crashed: bool)
    | Close
    | TimeOut
    | Sweep
    | Act(r: Id, local: Local)

  /** The local steps that need nothing from the worker's side. */
  predicate Free(a: Local) {
    a.ForeignEnd? || a.Die? || a.Execute? || a.CancelBegins? || a.CancelResumes? || a.CancelMoves?
  }

  predicate ExecutionOver(m: Manager, r: Id) {
    r in m.runs && !m.runs[r].exec.Live?
  }

  predicate Enabled(m: Manager, a: Action) {
    match a
    case Appear(r, _) => r !in m.runs
    case AdmitHere(r) => r !in m.runs
    case Attach(r, replayed) => r in m.runs && LocalEnabled(m.runs[r], Open(replayed))
    case Take =>
      && m.worker.Waiting? && m.queue != []
      && (m.queue[0].Job? ==> m.queue[0].r in m.runs && m.runs[m.queue[0].r].attached)
    case Resume(crashed) =>
      || (m.worker.Busy? && ExecutionOver(m, m.worker.r))
      || (m.worker.Leaving? && ExecutionOver(m, m.worker.r) && crashed)
    case Close => true
    case TimeOut => !m.worker.Stopped? && !m.worker.Leaving?
    case Sweep => m.worker.Stopped?
    case Act(r, local) =>
      r in m.runs && LocalEnabled(m.runs[r], local) && (Free(local) || (local.SweepMoves? && m.sweeping))
  }

  function Update(m: Manager, r: Id, local: Local): map<Id, RunState>
    requires r in m.runs && LocalEnabled(m.runs[r], local)
  {
    m.runs[r := LocalStep(m.runs[r], local)]
  }

  function Next(m: Manager, a: Action): Manager
    requires Enabled(m, a)
  {
    match a
    case Appear(r, durable) => m.(runs := m.runs[r := Untouched(durable, false)])
    case AdmitHere(r) => m.(runs := m.runs[r := Untouched(InProgress, true)])
    case Attach(r, replayed) => m.(runs := Update(m, r, Open(replayed)), queue := m.queue + [Job(r)])
    case Take =>
      if m.queue[0].Sentinel? then m.(queue := m.queue[1..], worker := Stopped)
      else if m.runs[m.queue[0].r].cancelRequested then m.(queue := m.queue[1..])
      else m.(runs := Update(m, m.queue[0].r, Start), queue := m.queue[1..], worker := Busy(m.queue[0].r))
    case Resume(crashed) => m.(worker := if crashed then Stopped else Waiting)
    case Close => m.(queue := m.queue + [Sentinel])
    case TimeOut =>
      if m.worker.Busy? && m.worker.r in m.runs && m.runs[m.worker.r].exec.Live?
      then m.(runs := Update(m, m.worker.r, Doom), worker := Leaving(m.worker.r))
      else m.(worker := Stopped)
    case Sweep => m.(sweeping := true)
    case Act(r, local) => m.(runs := Update(m, r, local))
  }

  // ----- the invariant -----

  /** A queued run has a channel, waits to be executed for the first time, and is queued once. */
  ghost predicate QueueOk(m: Manager) {
    && (forall i :: 0 <= i < |m.queue| && m.queue[i].Job? ==>
          m.queue[i].r in m.runs && m.runs[m.queue[i].r].attached && m.runs[m.queue[i].r].exec.Idle?)
    && (forall i, j :: 0 <= i < j < |m.queue| && m.queue[i].Job? ==> m.queue[i] != m.queue[j])
  }

  /** At most one execution is alive, the worker's, and the sweep begins after the worker has stopped. */
  ghost predicate WorkerOk(m: Manager) {
    && (forall r :: r in m.runs && m.runs[r].exec.Live? ==> (m.worker.Busy? || m.worker.Leaving?) && m.worker.r == r)
    && (m.sweeping ==> m.worker.Stopped?)
    && (forall r :: r in m.runs && !m.runs[r].sweep.Calling? ==> m.sweeping)
  }

  ghost predicate AllRunsOk(m: Manager) {
    forall r :: r in m.runs ==> RunOk(m.runs[r])
  }

  ghost predicate ManagerOk(m: Manager) {
    AllRunsOk(m) && QueueOk(m) && WorkerOk(m)
  }

  /** The local step, if any, by which an action moves a run. */
  function LocalOf(m: Manager, a: Action): Option<(Id, Local)>
    requires Enabled(m, a)
  {
    match a
    case Attach(r, replayed) => Some((r, Open(replayed)))
    case Take =>
      if m.queue[0].Job? && !m.runs[m.queue[0].r].cancelRequested then Some((m.queue[0].r, Start)) else None
    case TimeOut =>
      if m.worker.Busy? && m.worker.r in m.runs && m.runs[m.worker.r].exec.Live? then Some((m.worker.r, Doom)) else None
    case Act(r, local) => Some((r, local))
    case _ => None
  }

  /** What the manager owes LocalStepKeeps: it starts only idle runs, and sweeps only runs nobody executes. */
  lemma LocalIsSafe(m: Manager, a: Action)
    requires ManagerOk(m) && Enabled(m, a)
    ensures LocalOf(m, a).Some? ==>
      var (r, local) := LocalOf(m, a).value;
      && r in m.runs && RunOk(m.runs[r]) && LocalEnabled(m.runs[r], local)
      && (local.Start? ==> m.runs[r].exec.Idle? && m.runs[r].sweep.Calling?)
      && (local.SweepMoves? ==> !m.runs[r].exec.Live?)
  {
  }

  /** A step changes one run at most: by a local step, or by bringing it into view. */
  lemma NextRuns(m: Manager, a: Action)
    requires Enabled(m, a)
    ensures if LocalOf(m, a).Some? then Next(m, a).runs == Update(m, LocalOf(m, a).value.0, LocalOf(m, a).value.1)
            else if a.Appear? then Next(m, a).runs == m.runs[a.r := Untouched(a.durable, false)]
            else if a.AdmitHere? then Next(m, a).runs == m.runs[a.r := Untouched(InProgress, true)]
            else Next(m, a).runs == m.runs
  {
    hide LocalStep, LocalEnabled;
  }

  lemma OneRunKeepsOk(m: Manager, r: Id, rs: RunState, m': Manager)
    requires AllRunsOk(m) && RunOk(rs) && m'.runs == m.runs[r := rs]
    ensures AllRunsOk(m')
  {
    hide RunOk;
  }

  lemma UntouchedIsOk(s: Status)
    ensures RunOk(Untouched(s, false)) && RunOk(Untouched(InProgress, true))
  {
  }

  lemma NextKeepsRuns(m: Manager, a: Action)
    requires ManagerOk(m) && Enabled(m, a)
    ensures AllRunsOk(Next(m, a))
  {
    NextRuns(m, a);
    LocalIsSafe(m, a);
    hide RunOk, LocalStep, LocalEnabled, Next, QueueOk, WorkerOk, LocalOf;
    if LocalOf(m, a).Some? {
      var (r, local) := LocalOf(m, a).value;
      LocalStepKeeps(m.runs[r], local);
      OneRunKeepsOk(m, r, LocalStep(m.runs[r], local), Next(m, a));
    } else if a.Appear? {
      UntouchedIsOk(a.durable);
      OneRunKeepsOk(m, a.r, Untouched(a.durable, false), Next(m, a));
    } else if a.AdmitHere? {
      UntouchedIsOk(InProgress);
      OneRunKeepsOk(m, a.r, Untouched(InProgress, true), Next(m, a));
    }
  }

  /** How a step may change what the queue and the worker rely on. */
  ghost predicate KeepsPlace(rs: RunState, rs': RunState, local: Local) {
    && (rs.attached ==> rs'.attached)
    && (rs'.exec.Idle? <==> rs.exec.Idle? && !local.Start?)
    && (rs'.exec.Live? ==> rs.exec.Live? || local.Start?)
    && (!local.SweepMoves? ==> rs'.sweep == rs.sweep)
  }

  /** What a step of the execution may touch. */
  ghost predicate StaysOut(rs: RunState, rs': RunState) {
    && rs'.attached == rs.attached && rs'.sweep == rs.sweep && !rs'.exec.Idle?
    && rs'.cancels == rs.cancels && rs'.cancelRequested == rs.cancelRequested
    && (rs.durable != InProgress ==> rs'.durable == rs.durable)
  }

  lemma ContinueStaysOut(rs: RunState, n: nat, next: Then)
    requires rs.exec.Live?
    ensures StaysOut(rs, Continue(rs, n, next))
  {
  }

  lemma EmitStaysOut(rs: RunState, n: nat, body: Body, next: Then)
    ensures StaysOut(rs, Emit(rs, n, body, next))
  {
  }

  lemma ExecStepStaysOut(rs: RunState, reply: Reply)
    requires rs.exec.Live? && ReplyFits(rs, reply)
    ensures StaysOut(rs, ExecStep(rs, reply))
  {
    var n, stage := rs.exec.sequence, rs.exec.stage;
    hide Emit, Continue, PublishTerminal, Record;
    if stage.Produce? {
      if reply.Item? {
        EmitStaysOut(rs, n, reply.body, KeepProducing);
      } else {
        EmitStaysOut(rs, n, RunEnd(Completed), Finish);
      }
    } else if stage.Recording? {
      ContinueStaysOut(rs.(log := Record(rs.log, stage.event).0), n, stage.next);
    } else if stage.Publishing? {
      ContinueStaysOut(rs.(handed := rs.handed + [stage.event]), n, stage.next);
    } else if stage.Completing? || stage.Failing? {
      CommitStaysOut(rs, reply);
    } else {
      ClosingStaysOut(rs, reply);
    }
  }

  lemma CommitStaysOut(rs: RunState, reply: Reply)
    requires rs.exec.Live? && ReplyFits(rs, reply) && (rs.exec.stage.Completing? || rs.exec.stage.Failing?)
    ensures StaysOut(rs, ExecStep(rs, reply))
  {
    var n := rs.exec.sequence;
    hide Emit;
    if rs.exec.stage.Completing? {
      EmitStaysOut(rs.(durable := Completed), n, RunEnd(Completed), Finish);
    } else {
      EmitStaysOut(rs.(durable := Failed), n, ErrorBody, EmitEnd(Failed));
    }
  }

  lemma ClosingStaysOut(rs: RunState, reply: Reply)
    requires rs.exec.Live? && ReplyFits(rs, reply)
    requires rs.exec.stage.Escalated? || rs.exec.stage.Closing? || rs.exec.stage.Handing?
    ensures StaysOut(rs, ExecStep(rs, reply))
  {
    hide Emit, Continue, PublishTerminal, Record;
  }

  lemma LocalStepKeepsPlace(rs: RunState, local: Local)
    requires LocalEnabled(rs, local)
    ensures KeepsPlace(rs, LocalStep(rs, local), local)
  {
    hide ExecStep, ReplyFits;
    if local.Execute? { ExecStepStaysOut(rs, local.reply); }
  }

  lemma UnattachedIsIdle(rs: RunState)
    requires RunOk(rs)
    ensures !rs.attached ==> rs.exec.Idle?
  {
  }

  /** Popping, or pushing a run that has just been attached, keeps the queue. */
  lemma StepKeepsQueue(m: Manager, r: Id, local: Local, rs': RunState)
    requires QueueOk(m) && r in m.runs && KeepsPlace(m.runs[r], rs', local) && !local.Start?
    ensures QueueOk(m.(runs := m.runs[r := rs']))
  {
  }

  lemma AttachKeepsQueue(m: Manager, r: Id, rs': RunState)
    requires QueueOk(m) && r in m.runs && !m.runs[r].attached && rs'.attached && rs'.exec.Idle?
    ensures QueueOk(m.(runs := m.runs[r := rs'], queue := m.queue + [Job(r)]))
  {
  }

  lemma TakeKeepsQueue(m: Manager, rs': RunState)
    requires QueueOk(m) && m.queue != [] && m.queue[0].Job? && m.queue[0].r in m.runs && rs'.attached
    ensures QueueOk(m.(runs := m.runs[m.queue[0].r := rs'], queue := m.queue[1..]))
  {
  }

  lemma OpenAttaches(rs: RunState, replayed: bool)
    requires LocalEnabled(rs, Open(replayed)) && RunOk(rs)
    ensures !rs.attached && LocalStep(rs, Open(replayed)).attached && LocalStep(rs, Open(replayed)).exec.Idle?
  {
    UnattachedIsIdle(rs);
  }

  /** The steps that move no run keep the queue. */
  lemma QuietKeepsQueue(m: Manager, a: Action)
    requires QueueOk(m) && Enabled(m, a) && LocalOf(m, a).None?
    ensures QueueOk(Next(m, a))
  {
    hide LocalStep, LocalEnabled;
  }

  lemma NextKeepsQueue(m: Manager, a: Action)
    requires ManagerOk(m) && Enabled(m, a)
    ensures QueueOk(Next(m, a))
  {
    LocalIsSafe(m, a);
    if LocalOf(m, a).Some? {
      var (r, local) := LocalOf(m, a).value;
      hide RunOk, LocalStep, QueueOk, LocalEnabled, WorkerOk;
      var rs' := LocalStep(m.runs[r], local);
      LocalStepKeepsPlace(m.runs[r], local);
      match a {
        case Attach(_, replayed) =>
          OpenAttaches(m.runs[r], replayed);
          AttachKeepsQueue(m, r, rs');
        case Take => TakeKeepsQueue(m, rs');
        case _ => StepKeepsQueue(m, r, local, rs');
      }
    } else {
      QuietKeepsQueue(m, a);
    }
  }

  lemma StepKeepsWorker(m: Manager, r: Id, local: Local, rs': RunState)
    requires WorkerOk(m) && r in m.runs && KeepsPlace(m.runs[r], rs', local) && !local.Start?
    requires local.SweepMoves? ==> m.sweeping
    ensures WorkerOk(m.(runs := m.runs[r := rs']))
  {
  }

  lemma TakeKeepsWorker(m: Manager, r: Id, rs': RunState)
    requires WorkerOk(m) && m.worker.Waiting? && r in m.runs && rs'.sweep == m.runs[r].sweep
    ensures WorkerOk(m.(runs := m.runs[r := rs'], worker := Busy(r)))
  {
  }

  /** The steps that move no run keep the worker's account. */
  lemma QuietKeepsWorker(m: Manager, a: Action)
    requires WorkerOk(m) && Enabled(m, a) && LocalOf(m, a).None?
    ensures WorkerOk(Next(m, a))
  {
    hide LocalStep, LocalEnabled;
  }

  lemma NextKeepsWorker(m: Manager, a: Action)
    requires ManagerOk(m) && Enabled(m, a)
    ensures WorkerOk(Next(m, a))
  {
    LocalIsSafe(m, a);
    if LocalOf(m, a).Some? {
      var (r, local) := LocalOf(m, a).value;
      hide RunOk, LocalStep, QueueOk, LocalEnabled;
      var rs' := LocalStep(m.runs[r], local);
      LocalStepKeepsPlace(m.runs[r], local);
      if a.Take? {
        TakeKeepsWorker(m, r, rs');
      } else {
        StepKeepsWorker(m, r, local, rs');
      }
      hide KeepsPlace;
    } else {
      QuietKeepsWorker(m, a);
    }
  }

  lemma NextKeepsOk(m: Manager, a: Action)
    requires ManagerOk(m) && Enabled(m, a)
    ensures ManagerOk(Next(m, a))
  {
    NextKeepsRuns(m, a);
    NextKeepsQueue(m, a);
    NextKeepsWorker(m, a);
  }

  // ----- every execution of the manager -----

  const STARTED := Manager(map[], [], Waiting, false)

  predicate Leads(ms: seq<Manager>, acts: seq<Action>, i: nat)
    requires |ms| == |acts| + 1 && i < |acts|
  {
    Enabled(ms[i], acts[i]) && ms[i + 1] == Next(ms[i], acts[i])
  }

  ghost predicate IsExecution(ms: seq<Manager>, acts: seq<Action>) {
    && |ms| == |acts| + 1
    && ms[0] == STARTED
    && forall i :: 0 <= i < |acts| ==> Leads(ms, acts, i)
  }

  lemma {:induction false} ExecutionOk(ms: seq<Manager>, acts: seq<Action>, i: nat)
    requires IsExecution(ms, acts) && i < |ms|
    ensures ManagerOk(ms[i])
  {
    if i == 0 {
      assert ManagerOk(STARTED);
    } else {
      hide ManagerOk;
      ExecutionOk(ms, acts, i - 1);
      assert Leads(ms, acts, i - 1);
      NextKeepsOk(ms[i - 1], acts[i - 1]);
    }
  }

  /** A durable ending is final. */
  lemma LocalStepKeepsEnding(rs: RunState, local: Local)
    requires LocalEnabled(rs, local) && rs.durable != InProgress
    ensures LocalStep(rs, local).durable == rs.durable
  {
    hide ExecStep, ReplyFits;
    if local.Execute? { ExecStepStaysOut(rs, local.reply); }
  }

  lemma {:induction false} DurableEndingIsFinal(ms: seq<Manager>, acts: seq<Action>, i: nat, j: nat, r: Id)
    requires IsExecution(ms, acts) && i <= j < |ms|
    requires r in ms[i].runs
    ensures r in ms[j].runs
    ensures ms[i].runs[r].durable != InProgress ==> ms[j].runs[r].durable == ms[i].runs[r].durable
    decreases j
  {
    if i < j {
      DurableEndingIsFinal(ms, acts, i, j - 1, r);
      var m, a := ms[j - 1], acts[j - 1];
      assert Leads(ms, acts, j - 1);
      var touched := LocalOf(m, a);
      if touched.Some? && touched.value.0 == r && m.runs[r].durable != InProgress {
        LocalStepKeepsEnding(m.runs[r], touched.value.1);
      }
      hide LocalStep, LocalEnabled;
    }
  }

  lemma EndIsHandedLast(log: Log, handed: seq<Event>, k: nat)
    requires Numbered(log) && HandedInOrder(log, handed) && k < |handed| && handed[k].body.RunEnd?
    ensures k == |handed| - 1 && handed[k].id == |log.events|
  {
    var e, last := handed[k], handed[|handed| - 1];
    assert e.id <= last.id && (e.id == last.id ==> k == |handed| - 1);
    assert log.events[e.id - 1] == e && last.id <= |log.events|;
  }

  /**
   * Whatever interleaves, a run_end the store was handed carries the durable status of its run, then and
   * ever after; it is the last event handed, and the agent was started for the run at most once.
   */
  lemma RunEndTellsDurableStatus(ms: seq<Manager>, acts: seq<Action>, i: nat, j: nat, r: Id, k: nat)
    requires IsExecution(ms, acts) && i <= j < |ms|
    requires r in ms[i].runs && k < |ms[i].runs[r].handed| && ms[i].runs[r].handed[k].body.RunEnd?
    ensures r in ms[j].runs && ms[j].runs[r].durable != InProgress
    ensures ms[i].runs[r].handed[k].body == RunEnd(ms[j].runs[r].durable)
    ensures k == |ms[i].runs[r].handed| - 1
    ensures ms[i].runs[r].starts <= 1
  {
    ExecutionOk(ms, acts, i);
    HandedEndTellsStatus(ms[i].runs[r], k);
    hide RunOk, IsExecution, ManagerOk;
    DurableEndingIsFinal(ms, acts, i, j, r);
  }

  lemma HandedEndTellsStatus(rs: RunState, k: nat)
    requires RunOk(rs) && k < |rs.handed| && rs.handed[k].body.RunEnd?
    ensures k == |rs.handed| - 1 && rs.handed[k].body == RunEnd(rs.durable)
    ensures rs.durable != InProgress && rs.starts <= 1
  {
    EndIsHandedLast(rs.log, rs.handed, k);
    var e := rs.handed[k];
    assert rs.log.events[e.id - 1] == e;
    assert e.id == |rs.log.events|;
    hide Increasing, EndersOk;
  }

  /** Channel identities are 1 .. n with one run_end at most, last; the store sees them strictly increasing. */
  lemma ChannelAndStoreOrder(ms: seq<Manager>, acts: seq<Action>, i: nat, r: Id)
    requires IsExecution(ms, acts) && i < |ms| && r in ms[i].runs
    ensures var rs := ms[i].runs[r];
            && (forall k :: 0 <= k < |rs.log.events| ==> rs.log.events[k].id == k + 1)
            && EndsAtMostOnce(rs.log.events) && EndsAtMostOnce(rs.handed)
            && Increasing(rs.handed)
            && (forall k :: 0 <= k < |rs.handed| ==> rs.handed[k] in rs.log.events)
            && rs.starts <= 1
  {
    ExecutionOk(ms, acts, i);
    var rs := ms[i].runs[r];
    assert RunOk(rs);
    forall k | 0 <= k < |rs.handed| - 1 ensures !rs.handed[k].body.RunEnd? {
      assert rs.handed[k].id < rs.handed[|rs.handed| - 1].id;
    }
  }
}
