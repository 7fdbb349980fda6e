/** What each request and each turn of an execution does to a run, said of its rows and its status, and what
    follows for whole histories. */
module Promises {
  import opened Common
  import opened Locks
  import opened Steps
  import opened Runs
  import opened Undo
  import StepSafety

  // ---------------------------------------------------------------- nothing without an approve

  /** Not approved: planned, or set aside before it began. */
  ghost predicate Untouched(r: Run) {
    && (r.status.Planned? || r.status.Cancelled?) && !r.started && r.exec.Idle?
    && r.log == [] && r.world == {} && !r.secrets
    && forall i :: 0 <= i < |r.steps| ==> (r.steps[i].status.Pending? || r.steps[i].status.Skipped?) && r.steps[i].cleanups == []
  }

  lemma StaysUntouched(r: Run, e: Event)
    requires Untouched(r) && !e.Approve?
    ensures Untouched(Step(r, e))
  {
    NothingRegistered(r.steps);
  }

  /** In every history without an approve no step of the plan starts, nothing is changed outside and no execution
      runs, whatever is retried, skipped or aborted. */
  lemma {:induction false} NothingWithoutApprove(plan: Plan, es: seq<Event>)
    requires forall e :: e in es ==> !e.Approve?
    ensures Untouched(After(NewRun(plan), es))
  {
    if es != [] {
      var front, e := es[..|es| - 1], es[|es| - 1];
      assert e in es && forall x :: x in front ==> x in es;
      NothingWithoutApprove(plan, front);
      StaysUntouched(After(NewRun(plan), front), e);
    }
  }

  // ---------------------------------------------------------------- cancel

  lemma CancelSignals(r: Run)
    requires r.exec.Walking? || r.exec.InStep?
    ensures Step(r, Signal) == r.(exec := r.exec.(aborted := true))
    ensures StepSafety.Signalled(Step(r, Signal))
  {
  }

  /** A cancel of a run in flight, between two steps or in the middle of one: no further step starts, and the run
      ends cancelled, or succeeded if nothing but the step in flight was left, until somebody takes it up again. */
  lemma NoStepAfterCancelling(r: Run, es: seq<Event>)
    requires RunOk(r) && (r.exec.Walking? || r.exec.InStep?) && forall e :: e in es ==> !StepSafety.Refires(e)
    ensures var r' := After(Step(r, Signal), es);
      && r'.log == r.log
      && (r'.exec.Idle? ==> r'.status.Cancelled? || (r'.status.Succeeded? && StepSafety.OthersFinished(r)))
  {
    var s := Step(r, Signal);
    CancelSignals(r);
    StepKeepsOk(r, Signal);
    hide RunOk, Step;
    StepSafety.NoStepAfterCancel(s, es);
  }

  // ---------------------------------------------------------------- one turn of the walk

  ghost predicate AllDone(rows: seq<StepRow>) { forall i :: 0 <= i < |rows| ==> rows[i].status.Ok? || rows[i].status.Skipped? }

  /** The first row that is neither. */
  ghost predicate IsNext(rows: seq<StepRow>, k: int) {
    && 0 <= k < |rows| && !rows[k].status.Ok? && !rows[k].status.Skipped?
    && forall i :: 0 <= i < k ==> rows[i].status.Ok? || rows[i].status.Skipped?
  }

  function Ended(r: Run, status: RunStatus): Run { r.(status := status, exec := Idle, secrets := false) }

  /** With every row done the run ends, succeeded or cleaned up. Else a cancelled run ends before its next row, a
      process that is stopping leaves it to the next one, running as it is, a compensation nobody implements fails
      it, and any other row is started and its start logged. */
  ghost predicate Walked(r: Run, r': Run, stopping: bool, hasImpl: bool)
    requires r.exec.Walking?
  {
    && (AllDone(r.steps) ==>
          r' == Ended(r, if exists i :: 0 <= i < |r.steps| && r.steps[i].name.Cleanup? then Cancelled else Succeeded))
    && (forall k :: IsNext(r.steps, k) ==>
          if r.exec.aborted then r' == Ended(r, Cancelled)
          else if stopping then r' == r.(exec := Idle, secrets := false) && r'.status.Running?
          else if r.steps[k].name.Cleanup? && !hasImpl then
            r' == Ended(r.(steps := r.steps[k := r.steps[k].(status := StepStatus.Failed)]), RunStatus.Failed)
          else
            r' == r.(steps := r.steps[k := r.steps[k].(status := StepStatus.Running)], exec := InStep(k, false), log := r.log + [r.steps[k].ordinal]))
  }

  lemma DoneOrNext(rows: seq<StepRow>)
    ensures AllDone(rows) <==> FirstUnfinished(rows) == |rows|
    ensures forall k :: IsNext(rows, k) <==> k == FirstUnfinished(rows) < |rows|
  {
    forall k | IsNext(rows, k) ensures k == FirstUnfinished(rows) { FirstUnfinishedIs(rows, k); }
  }

  lemma TurnIsWalked(r: Run, stopping: bool, hasImpl: bool)
    requires RunOk(r) && r.exec.Walking?
    ensures Walked(r, Step(r, Advance(stopping, hasImpl)), stopping, hasImpl)
  {
    DoneOrNext(r.steps);
    StepSafety.WalkIsNeverRefused(r);
  }

  lemma TurnIsNotQueued(r: Run, stopping: bool, hasImpl: bool)
    requires RunOk(r) && r.exec.Walking?
    ensures !Step(r, Advance(stopping, hasImpl)).status.Queued?
  {
  }

  // ---------------------------------------------------------------- retry

  /** The row a retry starts from. Named, it is the first row of that name, and it is failed, skipped or pending;
      not named, it is the first failed one, or of a cancelled run the first failed or pending one. */
  ghost predicate IsTarget(r: Run, target: Option<StepName>, k: int) {
    && 0 <= k < |r.steps|
    && match target
       case Some(name) =>
         && r.steps[k].name == name && (forall i :: 0 <= i < k ==> r.steps[i].name != name)
         && (r.steps[k].status.Failed? || r.steps[k].status.Skipped? || r.steps[k].status.Pending?)
       case None => Stopped(r, r.steps[k].status) && forall i :: 0 <= i < k ==> !Stopped(r, r.steps[i].status)
  }

  ghost predicate Stopped(r: Run, s: StepStatus) { s.Failed? || (r.status.Cancelled? && s.Pending?) }

  lemma {:induction false} FirstResumableIs(rows: seq<StepRow>, pendingToo: bool)
    ensures var t := FirstResumable(rows, pendingToo);
      t.Some? ==> forall i :: 0 <= i < t.value ==> !rows[i].status.Failed? && !(pendingToo && rows[i].status.Pending?)
  {
    if rows != [] && !(rows[0].status.Failed? || (pendingToo && rows[0].status.Pending?)) { FirstResumableIs(rows[1..], pendingToo); }
  }

  lemma TargetIff(r: Run, target: Option<StepName>, k: int)
    ensures IsTarget(r, target, k) <==> RetryTarget(r, target) == Some(k)
  {
    FirstResumableIs(r.steps, r.status.Cancelled?);
    if target.Some? {
      var f := Find(r.steps, target.value);
      forall i | 0 <= i < f ensures r.steps[i].name != target.value { FoundIsFirst(r.steps, target.value, i); }
    }
  }

  /** From the row `k` on every row that is not ok is pending again and keeps all else, no other row moves, and the
      run is fired. */
  ghost predicate Retried(r: Run, r': Run, k: int)
    requires 0 <= k < |r.steps|
  {
    && r' == r.(steps := r'.steps, status := RunStatus.Running, exec := Fired, secrets := true)
    && |r'.steps| == |r.steps|
    && forall i :: 0 <= i < |r.steps| ==>
      r'.steps[i] == if i >= k && !r.steps[i].status.Ok? then r.steps[i].(status := Pending) else r.steps[i]
  }

  lemma RetryIsRetried(r: Run, target: Option<StepName>, k: int)
    requires RunOk(r) && Recoverable(r) && r.exec.Idle? && IsTarget(r, target, k)
    ensures Retried(r, Step(r, Retry(target)), k)
  {
    TargetIff(r, target, k);
    hide Step, RetryTarget, IsTarget;
    RetriedRun(r, target);
    assert forall i :: 0 <= i < |r.steps| ==> (i >= k <==> r.steps[i].ordinal >= r.steps[k].ordinal);
  }

  // ---------------------------------------------------------------- abort

  /** Nothing was registered: what was not ok is given up, and the run is over. */
  ghost predicate GivenUp(r: Run, r': Run) {
    && r' == r.(steps := r'.steps, status := Cancelled) && |r'.steps| == |r.steps|
    && forall i :: 0 <= i < |r.steps| ==> r'.steps[i] == r.steps[i].(status := if r.steps[i].status.Ok? then Ok else Skipped)
  }

  lemma SettleGivesUp(r: Run)
    requires Abortable(r) && r.exec.Idle? && Registered(r.steps) == []
    ensures GivenUp(r, Step(r, Settle))
  {
  }

  /** The rows that were there keep all but their status: what is ok stays so, what is not is given up, and the
      row of a registered compensation is pending. Behind them stands one pending row for each registered name
      that had none, and the run is fired. */
  ghost predicate SetToUnwind(r: Run, r': Run, typed: bool) {
    && r' == r.(steps := r'.steps, status := RunStatus.Running, exec := Fired, secrets := r.secrets || typed)
    && |r.steps| <= |r'.steps|
    && (forall i :: 0 <= i < |r.steps| ==>
          var row := r.steps[i];
          r'.steps[i] == row.(status :=
            if row.name.Cleanup? && Registers(r.steps, row.name.undoes) then Pending else if row.status.Ok? then Ok else Skipped))
    && (forall i :: |r.steps| <= i < |r'.steps| ==>
          var row := r'.steps[i];
          row.name.Cleanup? && Registers(r.steps, row.name.undoes) && row.status.Pending? && row.cleanups == [] && row.data.None?
          && (forall j :: 0 <= j < i ==> r'.steps[j].name != row.name && r'.steps[j].ordinal < row.ordinal))
    && (forall n :: Registers(r.steps, n) ==> exists i :: 0 <= i < |r'.steps| && r'.steps[i].name == Cleanup(n))
  }

  lemma ScheduledIs(r: Run, typed: bool)
    requires Step(r, ScheduleCleanups(typed)) != r
    ensures r.steps != []
    ensures Step(r, ScheduleCleanups(typed))
      == r.(steps := Schedule(r.steps), status := RunStatus.Running, exec := Fired, secrets := r.secrets || typed)
  {
    hide Registered, Schedule;
  }

  lemma EarlierDiffer(plan: Plan, rows: seq<StepRow>)
    requires Shaped(plan, rows)
    ensures forall i, j :: 0 <= j < i < |rows| ==> rows[j].name != rows[i].name && rows[j].ordinal < rows[i].ordinal
  {
  }

  lemma AbortSetsToUnwind(r: Run, typed: bool)
    requires RunOk(r) && Step(r, ScheduleCleanups(typed)) != r
    ensures SetToUnwind(r, Step(r, ScheduleCleanups(typed)), typed)
  {
    hide Step, Schedule, Registered, Registers, IsFresh, Shaped, Consistent, StatusFits;
    ScheduledIs(r, typed);
    StepKeepsShape(r, ScheduleCleanups(typed));
    EarlierDiffer(r.plan, Schedule(r.steps));
    OldRows(r.steps);
    NewRowsAre(r.steps);
    forall n | Registers(r.steps, n) ensures exists i :: 0 <= i < |Schedule(r.steps)| && Schedule(r.steps)[i].name == Cleanup(n) {
      CleanupIsThere(r.steps, n);
      HasRowIff(Schedule(r.steps), Cleanup(n));
    }
  }

  lemma OldRows(rows: seq<StepRow>)
    requires rows != []
    ensures |rows| <= |Schedule(rows)|
    ensures forall i :: 0 <= i < |rows| ==>
      Schedule(rows)[i] == rows[i].(status :=
        if rows[i].name.Cleanup? && Registers(rows, rows[i].name.undoes) then Pending else if rows[i].status.Ok? then Ok else Skipped)
  {
    ScheduleRows(rows);
    hide Schedule, Registered, IsFresh, MaxOrdinal, Registers;
    forall i | 0 <= i < |rows| && rows[i].name.Cleanup?
      ensures Registers(rows, rows[i].name.undoes) <==> rows[i].name.undoes in Registered(rows)
    {
      RegistersIff(rows, rows[i].name.undoes);
    }
  }

  lemma NewRowsAre(rows: seq<StepRow>)
    requires rows != []
    ensures |rows| <= |Schedule(rows)|
    ensures forall i :: |rows| <= i < |Schedule(rows)| ==>
      var row := Schedule(rows)[i];
      row.name.Cleanup? && Registers(rows, row.name.undoes) && row.status.Pending? && row.cleanups == [] && row.data.None?
  {
    ScheduleRows(rows);
    hide Schedule, Registered, MaxOrdinal, Registers;
    forall i | |rows| <= i < |Schedule(rows)| ensures Schedule(rows)[i].name.Cleanup? && Registers(rows, Schedule(rows)[i].name.undoes) {
      RegistersIff(rows, Schedule(rows)[i].name.undoes);
    }
  }

  // ---------------------------------------------------------------- a boot that dies

  /** A boot that dies after it put some runs' rows back changes nothing for the next one. */
  lemma DeadBootIsHarmless(r: Run)
    ensures Step(Step(r, NormalizeRows), Resume) == Step(r, Resume)
  {
    if r.exec.Cut? { assert Normalize(Normalize(r.steps)) == Normalize(r.steps); }
  }

  /** What the death of a process and the next boot make of a run under way: it is executed again, and every row
      stands as it stood, but for the one that was running. */
  lemma BootResumes(r: Run)
    requires r.status.Approved? || r.status.Running?
    ensures var r' := Step(Step(r, Crash), Resume);
      && r' == r.(steps := r'.steps, exec := Fired, secrets := false) && |r'.steps| == |r.steps|
      && forall i :: 0 <= i < |r.steps| ==> r'.steps[i] == if r.steps[i].status.Running? then r.steps[i].(status := Pending) else r.steps[i]
  {
  }
}
