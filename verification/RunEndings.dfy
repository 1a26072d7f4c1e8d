/** Exactly which ended runs have a run_end in their channel, over every execution of the manager. */
module RunEndings {
  import opened Records
  import opened Repository
  import opened RunEvents
  import opened RunChannel
  import opened RunManager
  import opened DetachedManager

  /** A cancel request, or the shutdown sweep, durably ends the run. */
  predicate EndsByRequest(rs: RunState, a: Local) {
    || (a.CancelMoves? && a.c in rs.cancels && rs.cancels[a.c].Calling? && a.reply.Commits?)
    || (a.SweepMoves? && rs.sweep.Calling? && a.reply.Commits?)
  }

  /** The execution has recorded its run_end and is about to hand it to the store. */
  predicate EndRecorded(stage: Stage) {
    stage.Handing? || (stage.Publishing? && stage.event.body.RunEnd?)
  }

  /** The execution ends before it has recorded a run_end: it dies, or the repository raises to its last resort. */
  predicate Kills(rs: RunState, a: Local) {
    && rs.exec.Live? && !EndRecorded(rs.exec.stage)
    && (a.Die? || (a.Execute? && rs.exec.stage.Escalated? && a.reply.Raises?))
  }

  /** The part a step of the manager plays in its run's history. */
  predicate At(m: Manager, a: Action, r: Id, what: (RunState, Local) -> bool)
    requires Enabled(m, a)
  {
    var moved := LocalOf(m, a);
    moved.Some? && moved.value.0 == r && r in m.runs && what(m.runs[r], moved.value.1)
  }

  ghost predicate Happened(ms: seq<Manager>, acts: seq<Action>, i: nat, r: Id, what: (RunState, Local) -> bool)
    requires IsExecution(ms, acts) && i < |ms|
  {
    exists k: nat :: k < i && HappenedAt(ms, acts, k, r, what)
  }

  ghost predicate HappenedAt(ms: seq<Manager>, acts: seq<Action>, k: nat, r: Id, what: (RunState, Local) -> bool)
    requires IsExecution(ms, acts) && k < |acts|
  {
    assert Leads(ms, acts, k);
    At(ms[k], acts[k], r, what)
  }

  ghost predicate Requested(ms: seq<Manager>, acts: seq<Action>, i: nat, r: Id)
    requires IsExecution(ms, acts) && i < |ms|
  {
    Happened(ms, acts, i, r, EndsByRequest)
  }

  ghost predicate Killed(ms: seq<Manager>, acts: seq<Action>, i: nat, r: Id)
    requires IsExecution(ms, acts) && i < |ms|
  {
    Happened(ms, acts, i, r, Kills)
  }

  /** A cancel or the sweep has committed the ending and not yet recorded the run_end. */
  ghost predicate OwesRunEnd(rs: RunState) {
    rs.sweep.Committed? || exists c :: c in rs.cancels && rs.cancels[c].Committed?
  }

  // ----- what the history says about the channel -----

  ghost predicate ChannelAccounted(rs: RunState, requested: bool, killed: bool) {
    && (killed ==> rs.exec.Gone?)
    && (rs.exec.Gone? && !killed ==> rs.log.terminal)
    && (rs.exec.Live? && rs.exec.stage.Handing? ==> rs.log.terminal)
    && (requested ==> rs.log.terminal || OwesRunEnd(rs))
    && (rs.log.terminal ==>
          requested || (rs.exec.Live? && EndRecorded(rs.exec.stage)) || (rs.exec.Gone? && !killed))
  }

  ghost predicate RequestAccounted(rs: RunState, requested: bool) {
    && (requested ==> !rs.exec.Live? && rs.attached && (rs.cancelRequested || !rs.sweep.Calling?))
    && (requested ==> rs.durable == Cancelled || rs.durable == Failed)
    && (OwesRunEnd(rs) ==> requested)
    && (rs.attached && rs.durable == Cancelled ==> requested)
    && (rs.attached && !rs.replay && rs.durable == Completed ==> !rs.exec.Idle?)
  }

  ghost predicate Accounted(rs: RunState, requested: bool, killed: bool) {
    ChannelAccounted(rs, requested, killed) && RequestAccounted(rs, requested)
  }

  lemma UntouchedAccounted(durable: Status, own: bool)
    ensures Accounted(Untouched(durable, own), false, false)
  {
  }

  lemma ExecutionAccounted(rs: RunState, reply: Reply, requested: bool, killed: bool)
    requires RunOk(rs) && LocalEnabled(rs, Execute(reply)) && Accounted(rs, requested, killed)
    ensures Accounted(ExecStep(rs, reply), requested, killed || Kills(rs, Execute(reply)))
  {
    hide OwesRunEnd, EndersOk, Numbered, HandedInOrder, Undelivered, EndTellsStatus;
    ExecutionOwes(rs, reply);
  }

  lemma ExecutionOwes(rs: RunState, reply: Reply)
    requires LocalEnabled(rs, Execute(reply))
    ensures StaysOut(rs, ExecStep(rs, reply))
    ensures OwesRunEnd(ExecStep(rs, reply)) <==> OwesRunEnd(rs)
  {
    ExecStepStaysOut(rs, reply);
    hide OwesRunEnd, ExecStep, ReplyFits;
    SameRequestsOwe(rs, ExecStep(rs, reply));
  }

  lemma SameRequestsOwe(rs: RunState, rs': RunState)
    requires rs'.cancels == rs.cancels && rs'.sweep == rs.sweep
    ensures OwesRunEnd(rs') <==> OwesRunEnd(rs)
  {
  }

  /** Who owes a run_end goes on owing it until it moves itself. */
  lemma OwingStays(rs: RunState, rs': RunState, d: Id)
    requires d in rs.cancels && rs.cancels[d].Committed? && d in rs'.cancels && rs'.cancels[d] == rs.cancels[d]
    ensures OwesRunEnd(rs')
  {
  }

  lemma CancelMoveAccounted(rs: RunState, c: Id, reply: Reply, requested: bool, killed: bool)
    requires RunOk(rs) && LocalEnabled(rs, CancelMoves(c, reply)) && Accounted(rs, requested, killed)
    ensures var move := CancelMoves(c, reply);
            Accounted(LocalStep(rs, move), requested || EndsByRequest(rs, move), killed)
  {
    var rs' := LocalStep(rs, CancelMoves(c, reply));
    if rs.cancels[c].Calling? && reply.Commits? {
      assert rs'.cancels[c].Committed?;
    }
    if d :| d in rs.cancels && d != c && rs.cancels[d].Committed? {
      OwingStays(rs, rs', d);
    }
    hide Numbered, HandedInOrder, Undelivered, EndTellsStatus;
  }

  lemma SweepMoveAccounted(rs: RunState, reply: Reply, requested: bool, killed: bool)
    requires RunOk(rs) && LocalEnabled(rs, SweepMoves(reply)) && !rs.exec.Live? && Accounted(rs, requested, killed)
    ensures Accounted(LocalStep(rs, SweepMoves(reply)), requested || EndsByRequest(rs, SweepMoves(reply)), killed)
  {
    var rs' := LocalStep(rs, SweepMoves(reply));
    if d :| d in rs.cancels && rs.cancels[d].Committed? {
      OwingStays(rs, rs', d);
    }
    hide Numbered, HandedInOrder, Undelivered, EndTellsStatus;
  }

  /** The moves that are neither the execution's nor a request's. */
  predicate IsOther(rs: RunState, a: Local) {
    !a.Execute? && !a.CancelMoves? && !a.SweepMoves? && (a.Start? ==> rs.exec.Idle? && rs.sweep.Calling?)
  }

  lemma OtherMoveOwes(rs: RunState, a: Local)
    requires LocalEnabled(rs, a) && IsOther(rs, a)
    ensures OwesRunEnd(LocalStep(rs, a)) <==> OwesRunEnd(rs)
    ensures LocalStep(rs, a).log == rs.log
  {
    var rs' := LocalStep(rs, a);
    if d :| d in rs.cancels && rs.cancels[d].Committed? {
      OwingStays(rs, rs', d);
    }
    if d :| d in rs'.cancels && rs'.cancels[d].Committed? {
      OwingStays(rs', rs, d);
    }
  }

  lemma OtherMoveAccounted(rs: RunState, a: Local, requested: bool, killed: bool)
    requires RunOk(rs) && LocalEnabled(rs, a) && Accounted(rs, requested, killed) && IsOther(rs, a)
    ensures Accounted(LocalStep(rs, a), requested, killed || Kills(rs, a))
  {
    OtherMoveOwes(rs, a);
    hide Numbered, HandedInOrder, Undelivered, EndTellsStatus, OwesRunEnd;
    OtherMoveKeepsChannel(rs, a, requested, killed);
    OtherMoveKeepsRequest(rs, a, requested);
    hide ChannelAccounted, RequestAccounted;
  }

  lemma OtherMoveKeepsChannel(rs: RunState, a: Local, requested: bool, killed: bool)
    requires RunOk(rs) && LocalEnabled(rs, a) && IsOther(rs, a)
    requires ChannelAccounted(rs, requested, killed) && RequestAccounted(rs, requested)
    requires OwesRunEnd(LocalStep(rs, a)) <==> OwesRunEnd(rs)
    ensures ChannelAccounted(LocalStep(rs, a), requested, killed || Kills(rs, a))
  {
    hide Numbered, HandedInOrder, Undelivered, EndTellsStatus, OwesRunEnd, EndersOk;
    assert a.Start? ==> !rs.log.terminal;
  }

  lemma OtherMoveKeepsRequest(rs: RunState, a: Local, requested: bool)
    requires RunOk(rs) && LocalEnabled(rs, a) && IsOther(rs, a) && RequestAccounted(rs, requested)
    requires OwesRunEnd(LocalStep(rs, a)) <==> OwesRunEnd(rs)
    ensures RequestAccounted(LocalStep(rs, a), requested)
  {
    hide Numbered, HandedInOrder, Undelivered, EndTellsStatus, OwesRunEnd, EndersOk;
  }

  lemma LocalMoveAccounted(rs: RunState, a: Local, requested: bool, killed: bool)
    requires RunOk(rs) && LocalEnabled(rs, a) && Accounted(rs, requested, killed)
    requires a.Start? ==> rs.exec.Idle? && rs.sweep.Calling?
    requires a.SweepMoves? ==> !rs.exec.Live?
    ensures Accounted(LocalStep(rs, a), requested || EndsByRequest(rs, a), killed || Kills(rs, a))
  {
    hide RunOk, LocalEnabled, Accounted, ExecStep;
    match a
    case Execute(reply) => ExecutionAccounted(rs, reply, requested, killed);
    case CancelMoves(c, reply) => CancelMoveAccounted(rs, c, reply, requested, killed);
    case SweepMoves(reply) => SweepMoveAccounted(rs, reply, requested, killed);
    case _ => OtherMoveAccounted(rs, a, requested, killed);
  }

  // ----- over executions -----

  lemma HappenedOneMore(ms: seq<Manager>, acts: seq<Action>, i: nat, r: Id, what: (RunState, Local) -> bool)
    requires IsExecution(ms, acts) && 0 < i < |ms|
    ensures Happened(ms, acts, i, r, what) <==>
      Happened(ms, acts, i - 1, r, what) || HappenedAt(ms, acts, i - 1, r, what)
  {
  }

  lemma {:induction false} RunsAreAccounted(ms: seq<Manager>, acts: seq<Action>, i: nat, r: Id)
    requires IsExecution(ms, acts) && i < |ms|
    ensures r in ms[i].runs ==> Accounted(ms[i].runs[r], Requested(ms, acts, i, r), Killed(ms, acts, i, r))
    ensures r !in ms[i].runs ==> !Requested(ms, acts, i, r) && !Killed(ms, acts, i, r)
  {
    if i > 0 {
      hide ManagerOk, Next, Accounted, Happened, HappenedAt, EndsByRequest, Kills;
      RunsAreAccounted(ms, acts, i - 1, r);
      ExecutionOk(ms, acts, i - 1);
      HappenedOneMore(ms, acts, i, r, EndsByRequest);
      HappenedOneMore(ms, acts, i, r, Kills);
      StepIsAccounted(ms, acts, i - 1, r, Requested(ms, acts, i - 1, r), Killed(ms, acts, i - 1, r));
    }
  }

  lemma StepIsAccounted(ms: seq<Manager>, acts: seq<Action>, k: nat, r: Id, requested: bool, killed: bool)
    requires IsExecution(ms, acts) && k < |acts| && ManagerOk(ms[k])
    requires if r in ms[k].runs then Accounted(ms[k].runs[r], requested, killed) else !requested && !killed
    ensures var requested' := requested || HappenedAt(ms, acts, k, r, EndsByRequest);
            var killed' := killed || HappenedAt(ms, acts, k, r, Kills);
            if r in ms[k + 1].runs then Accounted(ms[k + 1].runs[r], requested', killed') else !requested' && !killed'
  {
    assert Leads(ms, acts, k);
    var m, a := ms[k], acts[k];
    hide IsExecution;
    LocalIsSafe(m, a);
    NextRuns(m, a);
    hide ManagerOk, Next, LocalOf, LocalStep, LocalEnabled, RunOk, Accounted, Kills, EndsByRequest;
    if LocalOf(m, a).Some? && LocalOf(m, a).value.0 == r {
      LocalMoveAccounted(m.runs[r], LocalOf(m, a).value.1, requested, killed);
    } else if a.Appear? && a.r == r {
      UntouchedAccounted(a.durable, false);
    } else if a.AdmitHere? && a.r == r {
      UntouchedAccounted(InProgress, true);
    }
  }

  /**
   * Of a run that has durably ended, whose execution is not alive and to which nobody owes a run_end, the channel has
   * one if and only if a cancel or the sweep ended the run, or its execution was started and not ended before it
   * had recorded a run_end. In particular a run that was never started has one only if it was cancelled or swept, and
   * a run failed by another process only if its execution still ran to its own end.
   */
  lemma RunEndRecordedIff(ms: seq<Manager>, acts: seq<Action>, i: nat, r: Id)
    requires IsExecution(ms, acts) && i < |ms| && r in ms[i].runs
    requires var rs := ms[i].runs[r]; rs.attached && rs.durable != InProgress && !rs.exec.Live? && !OwesRunEnd(rs)
    ensures var rs := ms[i].runs[r];
            rs.log.terminal <==> Requested(ms, acts, i, r) || (rs.starts == 1 && !Killed(ms, acts, i, r))
  {
    RunsAreAccounted(ms, acts, i, r);
    ExecutionOk(ms, acts, i);
    assert RunOk(ms[i].runs[r]);
  }

  /** A cancelled run always has its run_end, as soon as the cancel that committed it has recorded it. */
  lemma CancelledRunHasRunEnd(ms: seq<Manager>, acts: seq<Action>, i: nat, r: Id)
    requires IsExecution(ms, acts) && i < |ms| && r in ms[i].runs
    requires var rs := ms[i].runs[r]; rs.attached && rs.durable == Cancelled && !OwesRunEnd(rs)
    ensures ms[i].runs[r].log.terminal
  {
    RunsAreAccounted(ms, acts, i, r);
  }

  /** A run completed here, its execution over, has its run_end if and only if that execution was not killed. */
  lemma CompletedRunHasRunEndIff(ms: seq<Manager>, acts: seq<Action>, i: nat, r: Id)
    requires IsExecution(ms, acts) && i < |ms| && r in ms[i].runs
    requires var rs := ms[i].runs[r]; rs.attached && !rs.replay && rs.durable == Completed && !rs.exec.Live?
    ensures ms[i].runs[r].log.terminal <==> !Killed(ms, acts, i, r)
  {
    RunsAreAccounted(ms, acts, i, r);
  }

  /** A run that was never started has its run_end if and only if a cancel or the sweep ended it. */
  lemma UnstartedRunHasRunEndIff(ms: seq<Manager>, acts: seq<Action>, i: nat, r: Id)
    requires IsExecution(ms, acts) && i < |ms| && r in ms[i].runs
    requires var rs := ms[i].runs[r]; rs.attached && rs.durable != InProgress && rs.exec.Idle? && !OwesRunEnd(rs)
    ensures ms[i].runs[r].log.terminal <==> Requested(ms, acts, i, r)
  {
    RunEndRecordedIff(ms, acts, i, r);
    ExecutionOk(ms, acts, i);
    assert RunOk(ms[i].runs[r]);
  }

  /** Another process ends the run. */
  predicate EndsOutside(rs: RunState, a: Local) {
    a.ForeignEnd?
  }

  ghost predicate EndedOutside(ms: seq<Manager>, acts: seq<Action>, i: nat, r: Id)
    requires IsExecution(ms, acts) && i < |ms|
  {
    Happened(ms, acts, i, r, EndsOutside)
  }

  lemma EndsOnce(ms: seq<Manager>, acts: seq<Action>, k: nat, r: Id)
    requires IsExecution(ms, acts) && k < |acts| && r in ms[k].runs
    requires HappenedAt(ms, acts, k, r, EndsOutside) || HappenedAt(ms, acts, k, r, EndsByRequest)
    ensures ms[k].runs[r].durable == InProgress
    ensures !(HappenedAt(ms, acts, k, r, EndsOutside) && HappenedAt(ms, acts, k, r, EndsByRequest))
    ensures r in ms[k + 1].runs && ms[k + 1].runs[r].durable != InProgress
  {
    assert Leads(ms, acts, k);
    NextRuns(ms[k], acts[k]);
  }

  lemma {:induction false} EndedOneWay(ms: seq<Manager>, acts: seq<Action>, i: nat, r: Id)
    requires IsExecution(ms, acts) && i < |ms|
    ensures !(EndedOutside(ms, acts, i, r) && Requested(ms, acts, i, r))
    ensures EndedOutside(ms, acts, i, r) || Requested(ms, acts, i, r) ==>
      r in ms[i].runs && ms[i].runs[r].durable != InProgress
  {
    if i > 0 {
      EndedOneWay(ms, acts, i - 1, r);
      HappenedOneMore(ms, acts, i, r, EndsOutside);
      HappenedOneMore(ms, acts, i, r, EndsByRequest);
      hide Happened, EndsOutside, EndsByRequest, Next, Enabled;
      if HappenedAt(ms, acts, i - 1, r, EndsOutside) || HappenedAt(ms, acts, i - 1, r, EndsByRequest) {
        assert Leads(ms, acts, i - 1);
        EndsOnce(ms, acts, i - 1, r);
      }
      hide HappenedAt;
      if r in ms[i - 1].runs { DurableEndingIsFinal(ms, acts, i - 1, i, r); }
    }
  }

  /** A run ended by another process has its run_end if and only if its execution was started and not killed first. */
  lemma OutsideEndedRunHasRunEndIff(ms: seq<Manager>, acts: seq<Action>, i: nat, r: Id)
    requires IsExecution(ms, acts) && i < |ms| && r in ms[i].runs && EndedOutside(ms, acts, i, r)
    requires var rs := ms[i].runs[r]; rs.attached && !rs.exec.Live? && !OwesRunEnd(rs)
    ensures var rs := ms[i].runs[r]; rs.log.terminal <==> rs.starts == 1 && !Killed(ms, acts, i, r)
  {
    EndedOneWay(ms, acts, i, r);
    RunEndRecordedIff(ms, acts, i, r);
  }

  // ----- and which of them the store was handed -----

  /** The execution dies with its run_end recorded and not handed to the store. */
  predicate Drops(rs: RunState, a: Local) {
    rs.exec.Live? && EndRecorded(rs.exec.stage) && a.Die?
  }

  ghost predicate Dropped(ms: seq<Manager>, acts: seq<Action>, i: nat, r: Id)
    requires IsExecution(ms, acts) && i < |ms|
  {
    Happened(ms, acts, i, r, Drops)
  }

  predicate EndHanded(rs: RunState) {
    rs.handed != [] && rs.handed[|rs.handed| - 1].body.RunEnd?
  }

  /** A cancel or the sweep has recorded the run_end and not yet handed it to the store. */
  ghost predicate OwesStore(rs: RunState) {
    rs.sweep.Storing? || exists c :: c in rs.cancels && rs.cancels[c].Storing?
  }

  ghost predicate StoreAccounted(rs: RunState, dropped: bool) {
    && (dropped ==> rs.exec.Gone? && rs.log.terminal && !EndHanded(rs) && !OwesStore(rs))
    && (rs.log.terminal && !EndHanded(rs) ==> dropped || (rs.exec.Live? && EndRecorded(rs.exec.stage)) || OwesStore(rs))
    && (rs.exec.Live? && rs.exec.stage.Handing? ==> rs.log.terminal)
  }

  /** What is newest in an ended log and not yet handed is its run_end. */
  lemma UndeliveredEnd(rs: RunState, event: Event)
    requires RunOk(rs) && rs.log.terminal && Undelivered(rs.log, rs.handed, event)
    ensures event.body.RunEnd? && !EndHanded(rs)
  {
    if rs.handed != [] {
      var last := rs.handed[|rs.handed| - 1];
      assert last.id < event.id && rs.log.events[last.id - 1] == last;
    }
  }

  lemma HandedIsEnded(rs: RunState)
    requires RunOk(rs)
    ensures EndHanded(rs) ==> rs.log.terminal
  {
    if EndHanded(rs) {
      var last := rs.handed[|rs.handed| - 1];
      assert rs.log.events[last.id - 1] == last;
    }
  }

  lemma StoringIsUndelivered(rs: RunState)
    requires RunOk(rs)
    ensures OwesStore(rs) ==> rs.log.terminal && !EndHanded(rs) && !rs.exec.Live?
  {
    if d :| d in rs.cancels && rs.cancels[d].Storing? { UndeliveredEnd(rs, rs.cancels[d].event); }
    if rs.sweep.Storing? { UndeliveredEnd(rs, rs.sweep.event); }
  }

  lemma SameRequestsOweStore(rs: RunState, rs': RunState)
    requires rs'.cancels == rs.cancels && rs'.sweep == rs.sweep
    ensures OwesStore(rs') <==> OwesStore(rs)
  {
  }

  lemma ExecutionStoreAccounted(rs: RunState, reply: Reply, dropped: bool)
    requires RunOk(rs) && LocalEnabled(rs, Execute(reply)) && StoreAccounted(rs, dropped)
    ensures StoreAccounted(ExecStep(rs, reply), dropped)
  {
    StoringIsUndelivered(rs);
    HandedIsEnded(rs);
    ExecutionOwes(rs, reply);
    SameRequestsOweStore(rs, ExecStep(rs, reply));
    var stage := rs.exec.stage;
    if EndRecorded(stage) { UndeliveredEnd(rs, stage.event); }
    hide OwesStore, OwesRunEnd, EndersOk, Numbered, HandedInOrder, Undelivered, EndTellsStatus;
  }

  lemma CancelMoveStoreAccounted(rs: RunState, c: Id, reply: Reply, dropped: bool)
    requires RunOk(rs) && LocalEnabled(rs, CancelMoves(c, reply)) && StoreAccounted(rs, dropped)
    ensures StoreAccounted(LocalStep(rs, CancelMoves(c, reply)), dropped)
  {
    StoringIsUndelivered(rs);
    HandedIsEnded(rs);
    if rs.cancels[c].Storing? { UndeliveredEnd(rs, rs.cancels[c].event); }
    var rs' := LocalStep(rs, CancelMoves(c, reply));
    if rs.cancels[c].Committed? { assert rs'.cancels[c].Storing?; }
    if d :| d in rs.cancels && d != c && rs.cancels[d].Storing? { assert rs'.cancels[d].Storing?; }
    hide Numbered, HandedInOrder, Undelivered, EndTellsStatus;
  }

  lemma SweepMoveStoreAccounted(rs: RunState, reply: Reply, dropped: bool)
    requires RunOk(rs) && LocalEnabled(rs, SweepMoves(reply)) && !rs.exec.Live? && StoreAccounted(rs, dropped)
    ensures StoreAccounted(LocalStep(rs, SweepMoves(reply)), dropped)
  {
    StoringIsUndelivered(rs);
    HandedIsEnded(rs);
    if rs.sweep.Storing? { UndeliveredEnd(rs, rs.sweep.event); }
    var rs' := LocalStep(rs, SweepMoves(reply));
    if d :| d in rs.cancels && rs.cancels[d].Storing? { assert rs'.cancels[d].Storing?; }
    hide Numbered, HandedInOrder, Undelivered, EndTellsStatus, EndersOk, ExecOk, Drops;
  }

  lemma OtherMoveStoreAccounted(rs: RunState, a: Local, dropped: bool)
    requires RunOk(rs) && LocalEnabled(rs, a) && IsOther(rs, a) && StoreAccounted(rs, dropped)
    requires a.Start? ==> !rs.log.terminal
    ensures StoreAccounted(LocalStep(rs, a), dropped || Drops(rs, a))
  {
    StoringIsUndelivered(rs);
    HandedIsEnded(rs);
    if rs.exec.Live? && EndRecorded(rs.exec.stage) && rs.log.terminal { UndeliveredEnd(rs, rs.exec.stage.event); }
    var rs' := LocalStep(rs, a);
    if d :| d in rs.cancels && rs.cancels[d].Storing? { assert rs'.cancels[d].Storing?; }
    if d :| d in rs'.cancels && rs'.cancels[d].Storing? { assert rs.cancels[d].Storing?; }
    hide Numbered, HandedInOrder, Undelivered, EndTellsStatus, EndersOk;
  }

  lemma StartsUnended(rs: RunState, a: Local, requested: bool, killed: bool)
    requires RunOk(rs) && LocalEnabled(rs, a) && Accounted(rs, requested, killed)
    requires a.Start? ==> rs.exec.Idle? && rs.sweep.Calling?
    ensures a.Start? ==> !rs.log.terminal
  {
    hide Numbered, HandedInOrder, EndersOk, OwesRunEnd;
  }

  lemma LocalMoveStoreAccounted(rs: RunState, a: Local, dropped: bool)
    requires RunOk(rs) && LocalEnabled(rs, a) && StoreAccounted(rs, dropped)
    requires a.Start? ==> rs.exec.Idle? && rs.sweep.Calling? && !rs.log.terminal
    requires a.SweepMoves? ==> !rs.exec.Live?
    ensures StoreAccounted(LocalStep(rs, a), dropped || Drops(rs, a))
  {
    hide RunOk, LocalEnabled, StoreAccounted, ExecStep;
    match a
    case Execute(reply) => ExecutionStoreAccounted(rs, reply, dropped);
    case CancelMoves(c, reply) => CancelMoveStoreAccounted(rs, c, reply, dropped);
    case SweepMoves(reply) => SweepMoveStoreAccounted(rs, reply, dropped);
    case _ => OtherMoveStoreAccounted(rs, a, dropped);
  }

  lemma UntouchedStoreAccounted(durable: Status, own: bool)
    ensures StoreAccounted(Untouched(durable, own), false)
  {
  }

  lemma StepIsStoreAccounted(ms: seq<Manager>, acts: seq<Action>, k: nat, r: Id, requested: bool, killed: bool,
                             dropped: bool)
    requires IsExecution(ms, acts) && k < |acts| && ManagerOk(ms[k])
    requires r in ms[k].runs ==> Accounted(ms[k].runs[r], requested, killed)
    requires if r in ms[k].runs then StoreAccounted(ms[k].runs[r], dropped) else !dropped
    ensures var dropped' := dropped || HappenedAt(ms, acts, k, r, Drops);
            if r in ms[k + 1].runs then StoreAccounted(ms[k + 1].runs[r], dropped') else !dropped'
  {
    assert Leads(ms, acts, k);
    var m, a := ms[k], acts[k];
    hide IsExecution;
    LocalIsSafe(m, a);
    NextRuns(m, a);
    hide ManagerOk, Next, LocalOf, LocalStep, LocalEnabled, RunOk, Accounted, StoreAccounted, Drops;
    if LocalOf(m, a).Some? && LocalOf(m, a).value.0 == r {
      StartsUnended(m.runs[r], LocalOf(m, a).value.1, requested, killed);
      LocalMoveStoreAccounted(m.runs[r], LocalOf(m, a).value.1, dropped);
    } else if a.Appear? && a.r == r {
      UntouchedStoreAccounted(a.durable, false);
    } else if a.AdmitHere? && a.r == r {
      UntouchedStoreAccounted(InProgress, true);
    }
  }

  lemma {:induction false} RunsAreStoreAccounted(ms: seq<Manager>, acts: seq<Action>, i: nat, r: Id)
    requires IsExecution(ms, acts) && i < |ms|
    ensures if r in ms[i].runs then StoreAccounted(ms[i].runs[r], Dropped(ms, acts, i, r)) else !Dropped(ms, acts, i, r)
  {
    if i > 0 {
      hide ManagerOk, Next, Accounted, StoreAccounted, Happened, HappenedAt, Drops;
      RunsAreStoreAccounted(ms, acts, i - 1, r);
      RunsAreAccounted(ms, acts, i - 1, r);
      ExecutionOk(ms, acts, i - 1);
      HappenedOneMore(ms, acts, i, r, Drops);
      StepIsStoreAccounted(ms, acts, i - 1, r, Requested(ms, acts, i - 1, r), Killed(ms, acts, i - 1, r),
                           Dropped(ms, acts, i - 1, r));
    }
  }

  /** The store was handed the run_end if and only if the channel has one and no execution died holding it. */
  lemma RunEndHandedIff(ms: seq<Manager>, acts: seq<Action>, i: nat, r: Id)
    requires IsExecution(ms, acts) && i < |ms| && r in ms[i].runs
    requires !ms[i].runs[r].exec.Live? && !OwesStore(ms[i].runs[r])
    ensures var rs := ms[i].runs[r]; EndHanded(rs) <==> rs.log.terminal && !Dropped(ms, acts, i, r)
  {
    RunsAreStoreAccounted(ms, acts, i, r);
    ExecutionOk(ms, acts, i);
    HandedIsEnded(ms[i].runs[r]);
  }

  // ----- an execution that loses its run_end -----

  /** The states a list of actions passes through from the start, as long as each is possible. */
  function Ran(acts: seq<Action>): Option<Manager> {
    if acts == [] then Some(STARTED)
    else
      var before := Ran(acts[..|acts| - 1]);
      if before.Some? && Enabled(before.value, acts[|acts| - 1])
      then Some(Next(before.value, acts[|acts| - 1])) else None
  }

  lemma RanOneMore(acts: seq<Action>, a: Action, m: Manager)
    requires Ran(acts) == Some(m) && Enabled(m, a)
    ensures Ran(acts + [a]) == Some(Next(m, a))
  {
    assert (acts + [a])[..|acts|] == acts;
    hide Enabled, Next;
  }

  ghost predicate Reachable(m: Manager, acts: seq<Action>) {
    exists ms :: IsExecution(ms, acts) && ms[|acts|] == m
  }

  lemma {:induction false} RanIsReachable(acts: seq<Action>)
    requires Ran(acts).Some?
    ensures Reachable(Ran(acts).value, acts)
  {
    if acts == [] {
      assert IsExecution([STARTED], []);
    } else {
      var before, a := acts[..|acts| - 1], acts[|acts| - 1];
      RanIsReachable(before);
      var m := Ran(before).value;
      var ms :| IsExecution(ms, before) && ms[|before|] == m;
      hide Enabled, Next;
      var ms' := ms + [Next(m, a)];
      forall i | 0 <= i < |acts| ensures Leads(ms', acts, i) {
        if i < |before| {
          assert Leads(ms, before, i);
          assert ms'[i] == ms[i] && ms'[i + 1] == ms[i + 1] && acts[i] == before[i];
        }
      }
      assert IsExecution(ms', acts) && ms'[|acts|] == Next(m, a);
    }
  }

  /** The manager with one run in sight. */
  function Alone(r: Id, rs: RunState, queue: seq<QueueItem>, worker: Worker): Manager {
    Manager(map[r := rs], queue, worker, false)
  }

  lemma ActsAlone(acts: seq<Action>, r: Id, rs: RunState, worker: Worker, local: Local)
    requires Ran(acts) == Some(Alone(r, rs, [], worker)) && LocalEnabled(rs, local) && Free(local)
    ensures Ran(acts + [Act(r, local)]) == Some(Alone(r, LocalStep(rs, local), [], worker))
  {
    var m := Alone(r, rs, [], worker);
    RanOneMore(acts, Act(r, local), m);
    assert m.runs[r := LocalStep(rs, local)] == map[r := LocalStep(rs, local)];
    hide LocalStep, LocalEnabled, Ran;
  }

  const META := Event(1, Metadata)
  const END := Event(2, RunEnd(Completed))

  /** The run from its start to the completion, to the cancel that comes too late, and to that cancel's end. */
  function LateRun(k: nat): RunState {
    var started :=
      RunState(InProgress, true, true, false, Log([], false), false, Live(0, Produce, false), 1, map[], Calling, []);
    var published := started.(log := Log([META], false), handed := [META]);
    var completed := published.(durable := Completed, exec := Live(2, Recording(END, Finish), false));
    var doomed := completed.(cancelRequested := true, cancels := map[0 := Awaiting],
                             exec := Live(2, Recording(END, Finish), true));
    match k
    case 0 => started
    case 1 => started.(exec := Live(1, Recording(META, KeepProducing), false))
    case 2 => started.(log := Log([META], false), exec := Live(1, Publishing(META, KeepProducing), false))
    case 3 => published.(exec := Live(1, Produce, false))
    case 4 => published.(exec := Live(1, Completing, false))
    case 5 => completed
    case 6 => doomed
    case 7 => doomed.(exec := Gone)
    case 8 => doomed.(exec := Gone, cancels := map[0 := Calling])
    case _ => doomed.(exec := Gone, cancels := map[0 := Over])
  }

  function LateMove(k: nat): Local {
    match k
    case 0 => Execute(Item(Metadata))
    case 1 => Execute(Proceed)
    case 2 => Execute(Proceed)
    case 3 => Execute(AgentDone)
    case 4 => Execute(Commits)
    case 5 => CancelBegins(0)
    case 6 => Die
    case 7 => CancelResumes(0)
    case _ => CancelMoves(0, LifecycleError)
  }

  lemma ExecutionMoves(k: nat)
    requires k < 5
    ensures LocalEnabled(LateRun(k), LateMove(k)) && LocalStep(LateRun(k), LateMove(k)) == LateRun(k + 1)
  {
    assert [] + [META] == [META];
  }

  lemma CancelMoving(k: nat)
    requires 5 <= k < 9
    ensures LocalEnabled(LateRun(k), LateMove(k)) && LocalStep(LateRun(k), LateMove(k)) == LateRun(k + 1)
  {
    assert map[][0 := Awaiting] == map[0 := Awaiting];
    assert map[0 := Awaiting][0 := Calling] == map[0 := Calling] && map[0 := Calling][0 := Over] == map[0 := Over];
  }

  function Beginning(r: Id): seq<Action> {
    [AdmitHere(r), Attach(r, false), Take]
  }

  function Moves(r: Id, k: nat): seq<Action> {
    if k == 0 then [] else Moves(r, k - 1) + [Act(r, LateMove(k - 1))]
  }

  lemma StartsAlone(r: Id)
    ensures Ran(Beginning(r)) == Some(Alone(r, LateRun(0), [], Busy(r)))
  {
    var rs := Untouched(InProgress, true);
    var attached := rs.(attached := true);
    assert Ran([]) == Some(STARTED);
    RanOneMore([], AdmitHere(r), STARTED);
    assert map[][r := rs] == map[r := rs];
    var first: seq<Action> := [] + [AdmitHere(r)];
    assert Ran(first) == Some(Alone(r, rs, [], Waiting));
    hide Ran;
    RanOneMore(first, Attach(r, false), Alone(r, rs, [], Waiting));
    assert map[r := rs][r := attached] == map[r := attached] && [] + [Job(r)] == [Job(r)];
    var second := first + [Attach(r, false)];
    assert Ran(second) == Some(Alone(r, attached, [Job(r)], Waiting));
    RanOneMore(second, Take, Alone(r, attached, [Job(r)], Waiting));
    assert LocalStep(attached, Start) == LateRun(0) && [Job(r)][1..] == [];
    assert map[r := attached][r := LateRun(0)] == map[r := LateRun(0)];
    assert second + [Take] == Beginning(r);
  }

  lemma {:induction false} MovesAlone(r: Id, k: nat)
    requires k <= 7
    ensures Ran(Beginning(r) + Moves(r, k)) == Some(Alone(r, LateRun(k), [], Busy(r)))
  {
    hide LateRun, LateMove, Ran, LocalEnabled, LocalStep;
    if k == 0 {
      StartsAlone(r);
      assert Beginning(r) + Moves(r, 0) == Beginning(r);
    } else {
      MovesAlone(r, k - 1);
      if k - 1 < 5 { ExecutionMoves(k - 1); } else { CancelMoving(k - 1); }
      ExecutionIsFree(k - 1);
      ActsAlone(Beginning(r) + Moves(r, k - 1), r, LateRun(k - 1), Busy(r), LateMove(k - 1));
      assert Beginning(r) + Moves(r, k) == Beginning(r) + Moves(r, k - 1) + [Act(r, LateMove(k - 1))];
    }
  }

  lemma ExecutionIsFree(k: nat)
    ensures Free(LateMove(k))
  {
  }

  /** Admit, execute to the durable completion, cancel before its run_end is recorded, and let everything finish. */
  function LateCancel(r: Id): seq<Action> {
    Beginning(r) + Moves(r, 7) + [Resume(false)] + [Act(r, LateMove(7))] + [Act(r, LateMove(8))]
  }

  lemma LateCancelEnds(r: Id)
    ensures Ran(LateCancel(r)) == Some(Alone(r, LateRun(9), [], Waiting))
  {
    var moved := Beginning(r) + Moves(r, 7);
    hide Moves, Beginning, LateMove, Ran, LocalEnabled, LocalStep;
    MovesAlone(r, 7);
    RanOneMore(moved, Resume(false), Alone(r, LateRun(7), [], Busy(r)));
    assert Next(Alone(r, LateRun(7), [], Busy(r)), Resume(false)) == Alone(r, LateRun(7), [], Waiting);
    hide LateRun, Next, Enabled;
    CancelMoving(7);
    CancelMoving(8);
    ExecutionIsFree(7);
    ExecutionIsFree(8);
    ActsAlone(moved + [Resume(false)], r, LateRun(7), Waiting, LateMove(7));
    ActsAlone(moved + [Resume(false)] + [Act(r, LateMove(7))], r, LateRun(8), Waiting, LateMove(8));
  }

  /**
   * An execution from the start that ends so: the run is completed for good, nothing is queued, alive or owed, and its
   * channel has no run_end.
   */
  lemma LateCancelLosesRunEnd(r: Id)
    ensures Ran(LateCancel(r)).Some? && Reachable(Ran(LateCancel(r)).value, LateCancel(r))
    ensures var m := Ran(LateCancel(r)).value;
            && r in m.runs && m.worker == Waiting && m.queue == []
            && var rs := m.runs[r];
               rs.attached && rs.durable == Completed && rs.exec.Gone? && !OwesRunEnd(rs) && !rs.log.terminal
  {
    LateCancelEnds(r);
    hide LateCancel, Ran;
    RanIsReachable(LateCancel(r));
  }
}
