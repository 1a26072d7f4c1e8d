/**
 * Detached execution as a step system: one worker, its queue, the executions it drives, cancel requests,
 * shutdown, and other processes, interleaved at every await.
 *
 * A repository call that raises has not committed. What is said about a run's durable record is its status.
 */
module RunManager {
  import opened Records
  import opened Repository
  import opened RunEvents
  import opened RunChannel

  // ----- one run -----

  /** Where an execution goes on after it has recorded and published an event. */
  datatype Then = KeepProducing | EmitEnd(status: Status) | Finish

  datatype Stage =
    | Produce
    | Recording(event: Event, next: Then)
    | Publishing(event: Event, next: Then)
    | Completing
    | Failing
    | Escalated
    | Closing
    | Handing(event: Event)

  /** `sequence` is the producer's counter; a doomed execution resumes with CancelledError. */
  datatype Exec = Idle | Live(sequence: nat, stage: Stage, doomed: bool) | Gone

  datatype Ender = Awaiting | Calling | Committed | Storing(event: Event) | Over

  /** `own` runs were admitted by this process; `attached` runs have a channel here. */
  datatype RunState = RunState(
    durable: Status,
    own: bool,
    attached: bool,
    replay: bool,
    log: Log,
    cancelRequested: bool,
    exec: Exec,
    starts: nat,
    cancels: map<Id, Ender>,
    sweep: Ender,
    handed: seq<Event>)

  function Untouched(durable: Status, own: bool): RunState {
    RunState(durable, own, false, false, Log([], false), false, Idle, 0, map[], Calling, [])
  }

  /** What the agent, or the repository, answers to the await an execution is at. */
  datatype Reply =
    | Item(body: Body)
    | AgentDone
    | AgentError
    | AgentRaises
    | Commits
    | LifecycleError
    | CasError
    | Raises
    | Proceed

  predicate ReplyFits(rs: RunState, reply: Reply)
    requires rs.exec.Live?
  {
    match rs.exec.stage
    case Produce =>
      match reply {
        case Item(body) => !body.RunEnd?
        case AgentDone => true
        case AgentError => !rs.replay
        case AgentRaises => !rs.replay
        case _ => false
      }
    case Completing => RepositoryReply(rs, reply) || reply == CasError
    case Failing => RepositoryReply(rs, reply)
    case Escalated => if rs.log.terminal then reply == Proceed else RepositoryReply(rs, reply)
    case _ => reply == Proceed
  }

  predicate RepositoryReply(rs: RunState, reply: Reply) {
    match reply
    case Commits => rs.durable == InProgress
    case LifecycleError => rs.durable != InProgress
    case Raises => true
    case _ => false
  }

  function Emit(rs: RunState, sequence: nat, body: Body, next: Then): RunState {
    rs.(exec := Live(sequence + 1, Recording(Event(sequence + 1, body), next), false))
  }

  function Continue(rs: RunState, sequence: nat, next: Then): RunState {
    match next
    case KeepProducing => rs.(exec := Live(sequence, Produce, false))
    case EmitEnd(status) => Emit(rs, sequence, RunEnd(status), Finish)
    case Finish => rs.(exec := Gone)
  }

  /** One step of the execution coroutine between two awaits. */
  function ExecStep(rs: RunState, reply: Reply): RunState
    requires rs.exec.Live? && ReplyFits(rs, reply)
  {
    var n := rs.exec.sequence;
    match rs.exec.stage
    case Produce =>
      (match reply {
         case Item(body) => Emit(rs, n, body, KeepProducing)
         case AgentDone =>
           if rs.replay then Emit(rs, n, RunEnd(Completed), Finish)
           else rs.(exec := Live(n, Completing, false))
         case AgentError => rs.(exec := Live(n, Failing, false))
         case _ => rs.(exec := Live(n, Escalated, false))
       })
    case Recording(event, next) =>
      var (log, accepted) := Record(rs.log, event);
      var recorded := rs.(log := log);
      if accepted then recorded.(exec := Live(n, Publishing(event, next), false)) else Continue(recorded, n, next)
    case Publishing(event, next) => Continue(rs.(handed := rs.handed + [event]), n, next)
    case Completing =>
      (match reply {
         case Commits => Emit(rs.(durable := Completed), n, RunEnd(Completed), Finish)
         case CasError => rs.(exec := Live(n, Failing, false))
         case _ => rs.(exec := Live(n, Escalated, false))
       })
    case Failing =>
      if reply == Commits then Emit(rs.(durable := Failed), n, ErrorBody, EmitEnd(Failed))
      else rs.(exec := Live(n, Escalated, false))
    case Escalated =>
      (match reply {
         case Commits => rs.(durable := Failed, exec := Live(n, Closing, false))
         case LifecycleError => rs.(exec := Live(n, Closing, false))
         case _ => rs.(exec := Gone)
       })
    case Closing =>
      var (log, event) := PublishTerminal(rs.log, Failed);
      rs.(log := log, exec := if event.Some? then Live(n, Handing(event.value), false) else Gone)
    case Handing(event) => rs.(handed := rs.handed + [event], exec := Gone)
  }

  /** One step of a cancel request, or of the shutdown sweep, once the repository call is due. */
  function EnderStep(rs: RunState, ender: Ender, status: Status, reply: Reply): (RunState, Ender)
    requires ender.Calling? ==> RepositoryReply(rs, reply)
  {
    match ender
    case Calling =>
      if reply == Commits then (rs.(durable := status), Committed) else (rs, Over)
    case Committed =>
      var (log, event) := PublishTerminal(rs.log, status);
      (rs.(log := log), if event.Some? then Storing(event.value) else Over)
    case Storing(event) => (rs.(handed := rs.handed + [event]), Over)
    case _ => (rs, ender)
  }

  datatype Local =
    | ForeignEnd(status: Status)
    | Open(replayed: bool)
    | Start
    | Doom
    | Die
    | Execute(reply: Reply)
    | CancelBegins(c: Id)
    | CancelResumes(c: Id)
    | CancelMoves(c: Id, reply: Reply)
    | SweepMoves(reply: Reply)

  predicate LocalEnabled(rs: RunState, a: Local) {
    match a
    case ForeignEnd(status) => rs.durable == InProgress && status != InProgress && (rs.own ==> status == Failed)
    case Open(replayed) => !rs.attached && (if replayed then rs.durable == Completed else rs.own)
    case Start => rs.attached && !rs.cancelRequested
    case Doom => rs.exec.Live?
    case Die => rs.exec.Live? && rs.exec.doomed
    case Execute(reply) => rs.exec.Live? && !rs.exec.doomed && ReplyFits(rs, reply)
    case CancelBegins(c) => rs.attached && c !in rs.cancels
    case CancelResumes(c) => c in rs.cancels && rs.cancels[c].Awaiting? && !rs.exec.Live?
    case CancelMoves(c, reply) =>
      && c in rs.cancels && !rs.cancels[c].Awaiting? && !rs.cancels[c].Over?
      && (rs.cancels[c].Calling? ==> RepositoryReply(rs, reply))
    case SweepMoves(reply) =>
      && rs.attached && !rs.sweep.Awaiting? && !rs.sweep.Over?
      && (rs.sweep.Calling? ==> !rs.log.terminal && RepositoryReply(rs, reply))
  }

  function LocalStep(rs: RunState, a: Local): RunState
    requires LocalEnabled(rs, a)
  {
    match a
    case ForeignEnd(status) => rs.(durable := status)
    case Open(replayed) => rs.(attached := true, replay := replayed)
    case Start => rs.(exec := Live(0, Produce, false), starts := rs.starts + 1)
    case Doom => rs.(exec := rs.exec.(doomed := true))
    case Die => rs.(exec := Gone)
    case Execute(reply) => ExecStep(rs, reply)
    case CancelBegins(c) =>
      rs.(cancelRequested := true,
          exec := if rs.exec.Live? then rs.exec.(doomed := true) else rs.exec,
          cancels := rs.cancels[c := if rs.exec.Live? then Awaiting else Calling])
    case CancelResumes(c) => rs.(cancels := rs.cancels[c := Calling])
    case CancelMoves(c, reply) =>
      var (next, ender) := EnderStep(rs, rs.cancels[c], Cancelled, reply);
      next.(cancels := rs.cancels[c := ender])
    case SweepMoves(reply) =>
      var (next, ender) := EnderStep(rs, rs.sweep, Failed, reply);
      next.(sweep := ender)
  }

  // ----- what stays true of one run -----

  /** The event is the newest recorded one and the store has not been handed it yet. */
  ghost predicate Undelivered(log: Log, handed: seq<Event>, event: Event) {
    && log.events != [] && log.events[|log.events| - 1] == event
    && forall i :: 0 <= i < |handed| ==> handed[i].id < event.id
  }

  /** Every event handed to the store was recorded, in strictly increasing order. */
  ghost predicate HandedInOrder(log: Log, handed: seq<Event>) {
    && Increasing(handed)
    && forall i :: 0 <= i < |handed| ==>
         1 <= handed[i].id <= |log.events| && log.events[handed[i].id - 1] == handed[i]
  }

  /** A recorded run_end tells the durable status, which is final. */
  ghost predicate EndTellsStatus(log: Log, durable: Status) {
    log.terminal ==>
      && log.events != [] && log.events[|log.events| - 1].body == RunEnd(durable)
      && durable != InProgress
  }

  ghost predicate NextFits(rs: RunState, event: Event, next: Then) {
    match next
    case KeepProducing => !event.body.RunEnd? && Unfinished(rs)
    case EmitEnd(status) => !event.body.RunEnd? && status == rs.durable == Failed
    case Finish => event.body == RunEnd(rs.durable) && rs.durable != InProgress
  }

  /** Before its own finalization an execution can only have been failed by another process. */
  ghost predicate Unfinished(rs: RunState) {
    if rs.replay then rs.durable == Completed else rs.durable in {InProgress, Failed}
  }

  ghost predicate StageOk(rs: RunState, n: nat, stage: Stage) {
    var count := |rs.log.events|;
    match stage
    case Produce => n == count && !rs.log.terminal && Unfinished(rs)
    case Recording(event, next) => n == count + 1 && event.id == n && !rs.log.terminal && NextFits(rs, event, next)
    case Publishing(event, next) =>
      && n == count && Undelivered(rs.log, rs.handed, event) && NextFits(rs, event, next)
      && (rs.log.terminal <==> event.body.RunEnd?)
    case Completing => n == count && !rs.log.terminal && !rs.replay && Unfinished(rs)
    case Failing => n == count && !rs.log.terminal && !rs.replay && Unfinished(rs)
    case Escalated => !rs.log.terminal && !rs.replay && Unfinished(rs)
    case Closing => !rs.log.terminal && rs.durable == Failed
    case Handing(event) => Undelivered(rs.log, rs.handed, event)
  }

  ghost predicate EnderOk(rs: RunState, ender: Ender, status: Status) {
    match ender
    case Awaiting => true
    case Calling => true
    case Committed => rs.durable == status && !rs.log.terminal
    case Storing(event) => Undelivered(rs.log, rs.handed, event) && rs.log.terminal
    case Over => true
  }

  /** Someone has committed an ending and still owes the channel, or the store, its run_end. */
  predicate Owes(ender: Ender) {
    ender.Committed? || ender.Storing?
  }

  ghost predicate EndersOk(rs: RunState) {
    && (forall c :: c in rs.cancels ==> rs.cancelRequested && EnderOk(rs, rs.cancels[c], Cancelled))
    && EnderOk(rs, rs.sweep, Failed)
    && (forall c, d :: c in rs.cancels && d in rs.cancels && c != d ==> !(Owes(rs.cancels[c]) && Owes(rs.cancels[d])))
    && (forall c :: c in rs.cancels && Owes(rs.cancels[c]) ==> !Owes(rs.sweep))
  }

  ghost predicate ExecOk(rs: RunState) {
    match rs.exec
    case Idle =>
      && rs.starts == 0
      && (rs.attached && !rs.cancelRequested && rs.sweep.Calling? ==> Unfinished(rs) && rs.log == Log([], false))
    case Live(n, stage, _) =>
      && rs.starts == 1 && StageOk(rs, n, stage) && rs.sweep.Calling?
      && forall c :: c in rs.cancels ==> rs.cancels[c].Awaiting?
    case Gone => rs.starts == 1
  }

  ghost predicate RunOk(rs: RunState) {
    && Numbered(rs.log) && HandedInOrder(rs.log, rs.handed) && EndTellsStatus(rs.log, rs.durable)
    && (rs.own && !rs.attached ==> rs.durable in {InProgress, Failed})
    && (!rs.attached ==> rs == Untouched(rs.durable, rs.own))
    && (rs.attached ==> if rs.replay then rs.durable == Completed else rs.own)
    && EndersOk(rs) && ExecOk(rs)
  }

  // ----- each step keeps it -----

  lemma HandKeeps(log: Log, handed: seq<Event>, event: Event)
    requires Numbered(log) && HandedInOrder(log, handed) && Undelivered(log, handed, event)
    ensures HandedInOrder(log, handed + [event])
  {
  }

  lemma GrowKeepsHanded(log: Log, handed: seq<Event>, event: Event, terminal: bool)
    requires Numbered(log) && HandedInOrder(log, handed) && event.id == |log.events| + 1
    ensures HandedInOrder(Log(log.events + [event], terminal), handed)
    ensures Undelivered(Log(log.events + [event], terminal), handed, event)
  {
  }

  /** An execution's steps touch neither the cancel requests nor the sweep, none of which has begun to end the run. */
  lemma EndersWait(rs: RunState, rs': RunState)
    requires EndersOk(rs) && rs.exec.Live? && ExecOk(rs)
    requires rs'.cancels == rs.cancels && rs'.sweep == rs.sweep && rs'.cancelRequested == rs.cancelRequested
    ensures EndersOk(rs')
  {
  }

  predicate Executing(rs: RunState, reply: Reply) {
    rs.attached && rs.exec.Live? && !rs.exec.doomed && ReplyFits(rs, reply)
  }

  lemma ProduceKeeps(rs: RunState, reply: Reply)
    requires RunOk(rs) && Executing(rs, reply) && rs.exec.stage.Produce?
    ensures RunOk(ExecStep(rs, reply))
  {
    EndersWait(rs, ExecStep(rs, reply));
    hide Numbered, HandedInOrder, EndTellsStatus, EndersOk;
  }

  lemma RecordingKeeps(rs: RunState, reply: Reply)
    requires RunOk(rs) && Executing(rs, reply) && rs.exec.stage.Recording?
    ensures RunOk(ExecStep(rs, reply))
  {
    RecordKeepsNumbered(rs.log, rs.exec.stage.event);
    GrowKeepsHanded(rs.log, rs.handed, rs.exec.stage.event, rs.exec.stage.event.body.RunEnd?);
    EndersWait(rs, ExecStep(rs, reply));
    hide Numbered, HandedInOrder, Undelivered, EndersOk;
  }

  lemma PublishingKeeps(rs: RunState, reply: Reply)
    requires RunOk(rs) && Executing(rs, reply) && rs.exec.stage.Publishing?
    ensures RunOk(ExecStep(rs, reply))
  {
    HandKeeps(rs.log, rs.handed, rs.exec.stage.event);
    EndersWait(rs, ExecStep(rs, reply));
    hide Numbered, HandedInOrder, EndTellsStatus, EndersOk;
  }

  lemma RepositoryCallKeeps(rs: RunState, reply: Reply)
    requires RunOk(rs) && Executing(rs, reply)
    requires rs.exec.stage.Completing? || rs.exec.stage.Failing? || rs.exec.stage.Escalated?
    ensures RunOk(ExecStep(rs, reply))
  {
    EndersWait(rs, ExecStep(rs, reply));
    assert !rs.log.terminal;
    hide Numbered, HandedInOrder, EndersOk;
  }

  lemma ClosingKeeps(rs: RunState, reply: Reply)
    requires RunOk(rs) && Executing(rs, reply) && rs.exec.stage.Closing?
    ensures RunOk(ExecStep(rs, reply))
  {
    PublishKeepsNumbered(rs.log, Failed);
    GrowKeepsHanded(rs.log, rs.handed, Event(|rs.log.events| + 1, RunEnd(Failed)), true);
    EndersWait(rs, ExecStep(rs, reply));
    hide Numbered, HandedInOrder, Undelivered, EndersOk;
  }

  lemma HandingKeeps(rs: RunState, reply: Reply)
    requires RunOk(rs) && Executing(rs, reply) && rs.exec.stage.Handing?
    ensures RunOk(ExecStep(rs, reply))
  {
    HandKeeps(rs.log, rs.handed, rs.exec.stage.event);
    EndersWait(rs, ExecStep(rs, reply));
    hide Numbered, HandedInOrder, EndersOk;
  }

  lemma ExecStepKeeps(rs: RunState, reply: Reply)
    requires RunOk(rs) && Executing(rs, reply)
    ensures RunOk(ExecStep(rs, reply))
  {
    hide RunOk, ExecStep;
    match rs.exec.stage
    case Produce => ProduceKeeps(rs, reply);
    case Recording(_, _) => RecordingKeeps(rs, reply);
    case Publishing(_, _) => PublishingKeeps(rs, reply);
    case Completing => RepositoryCallKeeps(rs, reply);
    case Failing => RepositoryCallKeeps(rs, reply);
    case Escalated => RepositoryCallKeeps(rs, reply);
    case Closing => ClosingKeeps(rs, reply);
    case Handing(_) => HandingKeeps(rs, reply);
  }

  lemma CancelCallKeeps(rs: RunState, c: Id, reply: Reply)
    requires RunOk(rs) && LocalEnabled(rs, CancelMoves(c, reply)) && rs.cancels[c].Calling?
    ensures RunOk(LocalStep(rs, CancelMoves(c, reply)))
  {
    hide Numbered, HandedInOrder, Undelivered;
  }

  lemma CancelCloseKeeps(rs: RunState, c: Id, reply: Reply)
    requires RunOk(rs) && LocalEnabled(rs, CancelMoves(c, reply)) && rs.cancels[c].Committed?
    ensures RunOk(LocalStep(rs, CancelMoves(c, reply)))
  {
    PublishKeepsNumbered(rs.log, Cancelled);
    GrowKeepsHanded(rs.log, rs.handed, Event(|rs.log.events| + 1, RunEnd(Cancelled)), true);
    hide Numbered, HandedInOrder, Undelivered;
  }

  lemma CancelStoreKeeps(rs: RunState, c: Id, reply: Reply)
    requires RunOk(rs) && LocalEnabled(rs, CancelMoves(c, reply)) && rs.cancels[c].Storing?
    ensures RunOk(LocalStep(rs, CancelMoves(c, reply)))
  {
    HandKeeps(rs.log, rs.handed, rs.cancels[c].event);
    hide Numbered, HandedInOrder, EndTellsStatus, Undelivered;
  }

  lemma SweepCallKeeps(rs: RunState, reply: Reply)
    requires RunOk(rs) && LocalEnabled(rs, SweepMoves(reply)) && !rs.exec.Live? && rs.sweep.Calling?
    ensures RunOk(LocalStep(rs, SweepMoves(reply)))
  {
    hide Numbered, HandedInOrder, Undelivered;
  }

  lemma SweepCloseKeeps(rs: RunState, reply: Reply)
    requires RunOk(rs) && LocalEnabled(rs, SweepMoves(reply)) && !rs.exec.Live? && rs.sweep.Committed?
    ensures RunOk(LocalStep(rs, SweepMoves(reply)))
  {
    PublishKeepsNumbered(rs.log, Failed);
    GrowKeepsHanded(rs.log, rs.handed, Event(|rs.log.events| + 1, RunEnd(Failed)), true);
    hide Numbered, HandedInOrder, Undelivered;
  }

  lemma SweepStoreKeeps(rs: RunState, reply: Reply)
    requires RunOk(rs) && LocalEnabled(rs, SweepMoves(reply)) && !rs.exec.Live? && rs.sweep.Storing?
    ensures RunOk(LocalStep(rs, SweepMoves(reply)))
  {
    HandKeeps(rs.log, rs.handed, rs.sweep.event);
    hide Numbered, HandedInOrder, EndTellsStatus, Undelivered;
  }

  lemma QuietStepKeeps(rs: RunState, a: Local)
    requires RunOk(rs) && LocalEnabled(rs, a)
    requires !a.Execute? && !a.CancelMoves? && !a.SweepMoves?
    requires a.Start? ==> rs.exec.Idle? && rs.sweep.Calling?
    ensures RunOk(LocalStep(rs, a))
  {
    hide RunOk, LocalStep;
    match a
    case ForeignEnd(_) => ForeignEndKeeps(rs, a);
    case CancelBegins(_) => CancelQueueKeeps(rs, a);
    case CancelResumes(_) => CancelQueueKeeps(rs, a);
    case _ => TaskStepKeeps(rs, a);
  }

  lemma ForeignEndKeeps(rs: RunState, a: Local)
    requires RunOk(rs) && LocalEnabled(rs, a) && a.ForeignEnd?
    ensures RunOk(LocalStep(rs, a))
  {
    assert !rs.log.terminal;
    hide Numbered, HandedInOrder, Undelivered, Owes;
  }

  lemma CancelQueueKeeps(rs: RunState, a: Local)
    requires RunOk(rs) && LocalEnabled(rs, a) && (a.CancelBegins? || a.CancelResumes?)
    ensures RunOk(LocalStep(rs, a))
  {
    hide Numbered, HandedInOrder, Undelivered, EndTellsStatus;
  }

  lemma TaskStepKeeps(rs: RunState, a: Local)
    requires RunOk(rs) && LocalEnabled(rs, a) && (a.Open? || a.Start? || a.Doom? || a.Die?)
    requires a.Start? ==> rs.exec.Idle? && rs.sweep.Calling?
    ensures RunOk(LocalStep(rs, a))
  {
    hide Numbered, HandedInOrder, Undelivered, EndTellsStatus, Owes;
  }

  /** Only an idle run is started, and only a run nobody executes is swept: the manager sees to both. */
  lemma LocalStepKeeps(rs: RunState, a: Local)
    requires RunOk(rs) && LocalEnabled(rs, a)
    requires a.Start? ==> rs.exec.Idle? && rs.sweep.Calling?
    requires a.SweepMoves? ==> !rs.exec.Live?
    ensures RunOk(LocalStep(rs, a))
  {
    match a
    case Execute(reply) =>
      assert rs.attached;
      ExecStepKeeps(rs, reply);
    case CancelMoves(c, reply) =>
      hide RunOk, LocalStep;
      match rs.cancels[c] {
        case Calling => CancelCallKeeps(rs, c, reply);
        case Committed => CancelCloseKeeps(rs, c, reply);
        case _ => CancelStoreKeeps(rs, c, reply);
      }
    case SweepMoves(reply) =>
      hide RunOk, LocalStep;
      match rs.sweep {
        case Calling => SweepCallKeeps(rs, reply);
        case Committed => SweepCloseKeeps(rs, reply);
        case _ => SweepStoreKeeps(rs, reply);
      }
    case _ => QuietStepKeeps(rs, a);
  }

  /**
   * A cancel that lands between the durable ending and the recording of run_end leaves the channel
   * without a terminal event: the execution dies, and the cancel's own repository call is refused.
   */
  lemma CancelMayLoseRunEnd(rs: RunState, c: Id)
    requires RunOk(rs) && rs.attached && c !in rs.cancels
    requires rs.exec.Live? && !rs.exec.doomed && rs.exec.stage.Recording? && rs.exec.stage.event.body.RunEnd?
    ensures LocalEnabled(rs, CancelBegins(c))
    ensures var doomed := LocalStep(rs, CancelBegins(c));
            && LocalEnabled(doomed, Die) && var dead := LocalStep(doomed, Die);
            && LocalEnabled(dead, CancelResumes(c)) && var due := LocalStep(dead, CancelResumes(c));
            && LocalEnabled(due, CancelMoves(c, LifecycleError))
            && !LocalEnabled(due, CancelMoves(c, Commits))
            && var over := LocalStep(due, CancelMoves(c, LifecycleError));
            && !over.log.terminal && over.exec.Gone? && over.cancels[c].Over? && over.durable != InProgress
  {
    assert NextFits(rs, rs.exec.stage.event, rs.exec.stage.next);
  }
}
