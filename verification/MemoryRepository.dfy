/** The in-memory repository: four dictionaries updated in place, each method refining its operation. */
module MemoryRepository {
  import opened Records
  import opened Repository

  class InMemoryConversationRepository {
    var threads: map<Id, Thread>
    var runs: map<Id, Run>
    var requestKeys: map<Id, Id>
    var artifacts: map<Id, seq<Artifact>>

    ghost function State(): Repo
      reads this
    {
      Repo(threads, runs, requestKeys, artifacts)
    }

    ghost predicate Valid()
      reads this
    {
      Linked(State())
    }

    constructor ()
      ensures Valid() && State() == EMPTY
    {
      threads, runs, requestKeys, artifacts := map[], map[], map[], map[];
    }

    /** `freshThread` and `freshRun` are the UUIDs this call would generate. */
    method AdmitRun(threadId: Option<Id>, message: string, key: Option<Id>,
                    freshThread: Id, freshRun: Id, now: Instant)
      returns (result: Result<Admission, Error>)
      requires Valid()
      requires freshThread !in threads && freshRun !in runs
      modifies this
      ensures Valid()
      ensures (State(), result) == Admit(old(State()), threadId, message, key, freshThread, freshRun, now)
    {
      if key.Some? && key.value in requestKeys {
        var existing := runs[requestKeys[key.value]];
        if KeyMismatch(existing, threadId, message) {
          return Err(RequestKeyConflict);
        }
        return Ok(Admission(existing, threads[existing.threadId].head, true));
      }
      var t := freshThread;
      if threadId.None? {
        threads := threads[t := NewThread(t)];
      } else {
        t := threadId.value;
        if t !in threads {
          return Err(ThreadNotFound);
        }
      }
      var thread := threads[t];
      if exists r :: r in runs && runs[r].threadId == t && runs[r].status == InProgress {
        assert HasActive(Repo(threads, runs, requestKeys, artifacts), t);
        return Err(RunAlreadyActive);
      }
      assert !HasActive(Repo(threads, runs, requestKeys, artifacts), t);
      var run := NewRun(freshRun, thread, key, message, now);
      runs := runs[freshRun := run];
      if key.Some? {
        requestKeys := requestKeys[key.value := freshRun];
      }
      threads := threads[t := thread.(status := InProgress, nextTurn := thread.nextTurn + 1)];
      return Ok(Admission(run, thread.head, false));
    }

    method CompleteRun(runId: Id, expected: Option<string>, checkpoint: string, answer: string,
                       toolCalls: seq<Payload>, raw: seq<RawArtifact>, now: Instant)
      returns (result: Result<Turn, Error>)
      requires Valid()
      modifies this
      ensures Valid()
      ensures (State(), result) == Complete(old(State()), runId, expected, checkpoint, answer, toolCalls, raw, now)
    {
      var active := RequireActiveRun(runId);
      if active.Err? { return Err(active.error); }
      var run := active.value;
      var thread := threads[run.threadId];
      if thread.head != expected { return Err(CheckpointConflict); }
      var completed := CompletedRun(run, answer, toolCalls, now);
      if !AllWellFormed(raw) { return Err(MalformedArtifact); }
      var stored := StoreAll(runId, raw, now);
      runs := runs[runId := completed];
      artifacts := artifacts[runId := stored];
      threads := threads[run.threadId := thread.(status := Completed, head := Some(checkpoint))];
      return Ok(Turn(completed, stored));
    }

    method FailRun(runId: Id, code: string, text: string, now: Instant) returns (result: Result<Run, Error>)
      requires Valid()
      modifies this
      ensures Valid()
      ensures (State(), result) == Fail(old(State()), runId, code, text, now)
    {
      var active := RequireActiveRun(runId);
      if active.Err? { return Err(active.error); }
      var failed := FailedRun(active.value, code, text, now);
      WriteFailed(failed);
      return Ok(failed);
    }

    /** Fails the open runs one after the other, in whatever order the dictionary lists them. */
    method RecoverAbandonedRuns(now: Instant) returns (count: nat)
      requires Valid()
      modifies this
      ensures Valid()
      ensures State() == Recover(old(State()), now)
      ensures count == |ActiveRuns(old(State()))|
    {
      ghost var before := State();
      var open := set r | r in runs && runs[r].status == InProgress;
      count := |open|;
      assert open == ActiveRuns(before);
      InterruptAll(before, open, now);
    }

    /** The recovery loop. */
    method InterruptAll(ghost before: Repo, open: set<Id>, now: Instant)
      requires Linked(before) && Valid() && State() == before && open == ActiveRuns(before)
      modifies this
      ensures Valid() && State() == Interrupt(before, open, now)
    {
      var pending := open;
      InterruptNone(before, now);
      assert open - pending == {} && open <= before.runs.Keys;
      hide Interrupt, Linked, ActiveRuns;
      while pending != {}
        invariant pending <= open
        invariant Valid() && State() == Interrupt(before, open - pending, now)
        decreases |pending|
      {
        var r :| r in pending;
        assert (open - pending) + {r} == open - (pending - {r});
        InterruptRun(before, open - pending, r, now);
        pending := pending - {r};
      }
      assert open - pending == open;
    }

    /** One turn of the recovery loop. */
    method InterruptRun(ghost before: Repo, ghost done: set<Id>, r: Id, now: Instant)
      requires Linked(before) && done <= before.runs.Keys && r in ActiveRuns(before) - done
      requires Valid() && State() == Interrupt(before, done, now)
      modifies this
      ensures Valid() && State() == Interrupt(before, done + {r}, now)
    {
      InterruptOneMore(before, done, r, now);
      WriteFailed(FailedRun(runs[r], INTERRUPTED_CODE, INTERRUPTED_TEXT, now));
    }

    method WriteFailed(failed: Run)
      requires Valid()
      requires failed.runId in runs && runs[failed.runId].threadId == failed.threadId && failed.status == Failed
      modifies this
      ensures Valid()
      ensures State() == Finish(old(State()), failed, None, None)
    {
      runs := runs[failed.runId := failed];
      threads := threads[failed.threadId := threads[failed.threadId].(status := Failed)];
    }

    /** The run row is written before the artifacts are parsed. */
    method CancelRun(runId: Id, partial: string, toolCalls: seq<Payload>, raw: seq<RawArtifact>, now: Instant)
      returns (result: Result<Run, Error>)
      requires Valid()
      modifies this
      ensures Valid()
      ensures (State(), result) == Cancel(old(State()), runId, partial, toolCalls, raw, now)
    {
      var active := RequireActiveRun(runId);
      if active.Err? { return Err(active.error); }
      var cancelled := CancelledRun(active.value, partial, toolCalls, now);
      runs := runs[runId := cancelled];
      if !AllWellFormed(raw) { return Err(MalformedArtifact); }
      artifacts := artifacts[runId := StoreAll(runId, raw, now)];
      threads := threads[cancelled.threadId := threads[cancelled.threadId].(status := Cancelled)];
      return Ok(cancelled);
    }

    method ReadTurn(runId: Id) returns (turn: Option<Turn>)
      ensures turn == GetTurn(State(), runId)
    {
      if runId !in runs { return None; }
      turn := Some(Turn(runs[runId], if runId in artifacts then artifacts[runId] else []));
    }

    /** In a reachable state the run found is the one that carries the key, and nothing found means none does. */
    method RunByRequestKey(key: Id) returns (run: Option<Run>)
      requires Valid()
      ensures run.Some? ==> run.value.runId in runs && runs[run.value.runId] == run.value
      ensures run.Some? <==> key in requestKeys
      ensures KeysInverse(State()) && run.Some? ==> run.value.key == Some(key)
      ensures KeysInverse(State()) && run.Some? ==>
        forall r :: r in runs && runs[r].key == Some(key) ==> r == run.value.runId
      ensures KeysInverse(State()) && run.None? ==> forall r :: r in runs ==> runs[r].key != Some(key)
    {
      run := if key in requestKeys then Some(runs[requestKeys[key]]) else None;
    }

    method RequireActiveRun(runId: Id) returns (active: Result<Run, Error>)
      ensures active == RequireActive(State(), runId)
    {
      if runId !in runs { return Err(RunNotFound); }
      if runs[runId].status != InProgress { return Err(LifecycleConflict); }
      active := Ok(runs[runId]);
    }
  }
}
