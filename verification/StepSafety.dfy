/** What holds of one run's steps over every history: the step table is never broken, one step runs at a
    time, and what the end states mean. */
module StepSafety {
  import opened Locks
  import opened Steps
  import opened Runs

  // ---------------------------------------------------------------- the step table

  /** The walk's own write is never refused: the row it starts is pending or failed, because no row is
      running when the walk looks for the next one. */
  lemma WalkIsNeverRefused(r: Run)
    requires RunOk(r) && r.exec.Walking?
    ensures var k := FirstUnfinished(r.steps);
      k < |r.steps| ==> CanStep(r.steps[k].status, StepStatus.Running)
  {
  }

  /** Rows are never lost or renamed, and each row's status moves as the table allows or stays. */
  ghost predicate LegalChange(before: seq<StepRow>, after: seq<StepRow>) {
    && |before| <= |after|
    && forall i :: 0 <= i < |before| ==>
      && after[i].name == before[i].name && after[i].ordinal == before[i].ordinal
      && (after[i].status == before[i].status || CanStep(before[i].status, after[i].status))
  }

  lemma AdvanceIsLegal(r: Run, stopping: bool, hasImpl: bool)
    requires r.exec.Walking?
    ensures LegalChange(r.steps, Advanced(r, stopping, hasImpl).steps)
  {
  }

  lemma BodyIsLegal(r: Run, e: Event)
    requires IsBody(e)
    ensures LegalChange(r.steps, Step(r, e).steps)
  {
  }

  lemma RecoveryIsLegal(r: Run, e: Event)
    requires IsRecovery(e)
    ensures LegalChange(r.steps, Step(r, e).steps)
  {
    if e.ScheduleCleanups? && Step(r, e) != r { ScheduleIsLegal(r, e.typed); }
  }

  lemma ScheduleIsLegal(r: Run, typed: bool)
    requires Step(r, ScheduleCleanups(typed)) != r
    ensures LegalChange(r.steps, Step(r, ScheduleCleanups(typed)).steps)
  {
    hide Step, Registered, Fresh, MaxOrdinal;
    ScheduledStep(r, typed);
    var stood, after := Rearm(r.steps, Registered(r.steps)), Schedule(r.steps);
    forall i | 0 <= i < |r.steps| ensures after[i] == stood[i] { }
  }

  lemma EveryChangeIsLegal(r: Run, e: Event)
    ensures LegalChange(r.steps, Step(r, e).steps)
  {
    if e.Advance? {
      if r.exec.Walking? { AdvanceIsLegal(r, e.stopping, e.hasImpl); }
    } else if IsBody(e) {
      BodyIsLegal(r, e);
    } else if IsRecovery(e) {
      RecoveryIsLegal(r, e);
    }
  }

  /** No row is done but one that was running. */
  lemma OkComesFromRunning(r: Run, e: Event, i: nat)
    requires i < |r.steps|
    ensures |r.steps| <= |Step(r, e).steps|
    ensures Step(r, e).steps[i].status.Ok? ==> r.steps[i].status.Ok? || r.steps[i].status.Running?
  {
    hide Step;
    EveryChangeIsLegal(r, e);
  }

  /** At most one step of a run is running in any state it can reach, and none is when an execution
      begins or looks for its next step. */
  lemma OneStepAtATime(plan: Plan, es: seq<Event>)
    requires WellPlanned(plan)
    ensures OneRunningAtMost(After(NewRun(plan), es).steps)
    ensures var r := After(NewRun(plan), es); r.exec.Fired? || r.exec.Walking? ==> NoneRunning(r.steps)
  {
    NewRunOk(plan);
    AfterKeepsOk(NewRun(plan), es);
  }

  // ---------------------------------------------------------------- the end states

  lemma SucceededStays(r: Run, e: Event)
    requires RunOk(r) && r.status.Succeeded?
    ensures Step(r, e).status.Succeeded? && Step(r, e).steps == r.steps && Step(r, e).log == r.log && Step(r, e).world == r.world
  {
  }

  /** A succeeded run has every step ok or skipped and no compensation row, and nothing moves it again. */
  lemma {:induction false} SucceededIsFinal(plan: Plan, before: seq<Event>, after: seq<Event>)
    requires WellPlanned(plan) && After(NewRun(plan), before).status.Succeeded?
    ensures var r, r' := After(NewRun(plan), before), After(After(NewRun(plan), before), after);
      && AllFinished(r.steps) && !IsCleanupRun(r.steps)
      && r'.status.Succeeded? && r'.steps == r.steps && r'.log == r.log && r'.world == r.world
    decreases |after|
  {
    NewRunOk(plan);
    AfterKeepsOk(NewRun(plan), before);
    if after != [] {
      var last := |after| - 1;
      SucceededIsFinal(plan, before, after[..last]);
      var r' := After(After(NewRun(plan), before), after[..last]);
      AfterKeepsOk(After(NewRun(plan), before), after[..last]);
      SucceededStays(r', after[last]);
    }
  }

  lemma CleanupRowsStay(r: Run, e: Event)
    requires RunOk(r) && IsCleanupRun(r.steps)
    ensures IsCleanupRun(Step(r, e).steps)
  {
    EveryChangeIsLegal(r, e);
    var i :| 0 <= i < |r.steps| && r.steps[i].name.Cleanup?;
    assert Step(r, e).steps[i].name.Cleanup?;
  }

  /** A run once aborted with cleanup never ends succeeded. */
  lemma {:induction false} AbortedNeverSucceeds(r: Run, es: seq<Event>)
    requires RunOk(r) && IsCleanupRun(r.steps)
    ensures IsCleanupRun(After(r, es).steps) && !After(r, es).status.Succeeded?
    decreases |es|
  {
    if es != [] {
      var last := |es| - 1;
      AbortedNeverSucceeds(r, es[..last]);
      AfterKeepsOk(r, es[..last]);
      AfterKeepsOk(r, es);
      CleanupRowsStay(After(r, es[..last]), es[last]);
    }
  }

  // ---------------------------------------------------------------- cancel

  /** Events that set a run going again. */
  predicate Refires(e: Event) { e.Retry? || e.Skip? || e.ScheduleCleanups? || e.Resume? }

  ghost predicate Signalled(r: Run) { (r.exec.Walking? || r.exec.InStep?) && r.exec.aborted }

  /** Nothing but the step that was running when the signal came was left to do. */
  ghost predicate OthersFinished(r: Run) {
    forall i :: 0 <= i < |r.steps| && !(r.exec.InStep? && i == r.exec.at) ==> Finished(r.steps[i])
  }

  /** `q` is where the signalled execution of `r` got to. */
  ghost predicate Halting(r: Run, q: Run) {
    && q.log == r.log
    && match q.exec
       case Fired => false
       case Cut => true
       case Idle => q.status.Cancelled? || (q.status.Succeeded? && OthersFinished(r))
       case InStep(_, aborted) => aborted && q.exec == r.exec && OthersStand(r, q)
       case Walking(aborted) => aborted && OthersStand(r, q)
  }

  ghost predicate OthersStand(r: Run, q: Run) {
    |q.steps| == |r.steps|
    && forall i :: 0 <= i < |r.steps| && !(r.exec.InStep? && i == r.exec.at) ==> q.steps[i].status == r.steps[i].status
  }

  lemma HaltingStays(r: Run, q: Run, e: Event)
    requires Halting(r, q) && RunOk(q) && !Refires(e)
    ensures Halting(r, Step(q, e))
  {
    if e.Advance? && q.exec.Walking? {
      var k := FirstUnfinished(q.steps);
      if k == |q.steps| { assert OthersFinished(r); }
    }
  }

  /** After a cancel signal no further step starts, and the run ends cancelled, never failed and never paused,
      or succeeded if nothing but the step in flight was left: until somebody retries, skips, aborts or a boot
      resumes it. */
  lemma {:induction false} NoStepAfterCancel(r: Run, es: seq<Event>)
    requires RunOk(r) && Signalled(r) && forall e :: e in es ==> !Refires(e)
    ensures After(r, es).log == r.log
    ensures After(r, es).exec.Idle? ==> After(r, es).status.Cancelled? || (After(r, es).status.Succeeded? && OthersFinished(r))
    ensures Halting(r, After(r, es))
    decreases |es|
  {
    if es != [] {
      var last := |es| - 1;
      NoStepAfterCancel(r, es[..last]);
      AfterKeepsOk(r, es[..last]);
      HaltingStays(r, After(r, es[..last]), es[last]);
      AfterKeepsOk(r, es);
    }
  }

  // ---------------------------------------------------------------- typed secrets

  /** A run holds typed secrets only while it waits for its start or is being executed. */
  predicate SecretsInUse(r: Run) {
    r.secrets ==> r.status.Queued? || r.exec.Fired? || r.exec.Walking? || r.exec.InStep?
  }

  lemma AdvanceKeepsSecrets(r: Run, stopping: bool, hasImpl: bool)
    requires r.exec.Walking?
    ensures SecretsInUse(Advanced(r, stopping, hasImpl))
  {
  }

  lemma StepKeepsSecrets(r: Run, e: Event)
    requires SecretsInUse(r)
    ensures SecretsInUse(Step(r, e))
  {
    if e.Advance? {
      if r.exec.Walking? { AdvanceKeepsSecrets(r, e.stopping, e.hasImpl); }
    }
  }

  /** Whatever way a run ends, is paused, discarded, deleted or cut off, its typed secrets go with it. */
  lemma {:induction false} SecretsEndWithTheRun(plan: Plan, es: seq<Event>)
    ensures SecretsInUse(After(NewRun(plan), es))
  {
    if es != [] {
      SecretsEndWithTheRun(plan, es[..|es| - 1]);
      StepKeepsSecrets(After(NewRun(plan), es[..|es| - 1]), es[|es| - 1]);
    }
  }

  // ---------------------------------------------------------------- discard

  /** What the discard writes, guarded by the run table alone, which admits a running run. */
  function TableDiscard(r: Run): Run {
    if CanRun(r.status, Cancelled) && !r.deleted then r.(status := Cancelled, secrets := false) else r
  }

  /** The execution, if there is one, leaves a discarded run alone: there is none, or a cancel reached it and
      work is left, or it is a cleanup run's at its end. */
  predicate Heeds(r: Run) {
    match r.exec
    case Idle => true
    case Cut => true
    case Fired => false
    case Walking(aborted) => if FirstUnfinished(r.steps) == |r.steps| then IsCleanupRun(r.steps) else aborted
    case InStep(at, aborted) => aborted && (IsCleanupRun(r.steps) || exists i | 0 <= i < |r.steps| :: i != at && !Finished(r.steps[i]))
  }

  /** Nothing that follows by itself starts a step of the run or overwrites its cancelled status. */
  ghost predicate StaysDiscarded(q: Run) {
    forall es :: (forall e :: e in es ==> !Refires(e)) ==> After(q, es).status.Cancelled? && After(q, es).log == q.log
  }

  lemma HeedingAdvance(q: Run, stopping: bool, hasImpl: bool)
    requires q.status.Cancelled? && Heeds(q) && q.exec.Walking?
    ensures var q' := Advanced(q, stopping, hasImpl); q'.status.Cancelled? && Heeds(q') && q'.log == q.log
  {
  }

  lemma SameFinished(rows: seq<StepRow>, rows': seq<StepRow>)
    requires |rows| == |rows'| && forall i :: 0 <= i < |rows| ==> rows'[i].name == rows[i].name && rows'[i].status == rows[i].status
    ensures FirstUnfinished(rows') == FirstUnfinished(rows)
    ensures IsCleanupRun(rows') <==> IsCleanupRun(rows)
  {
    FirstUnfinishedIs(rows', FirstUnfinished(rows));
    if i :| 0 <= i < |rows| && rows[i].name.Cleanup? { assert rows'[i].name.Cleanup?; }
    if i :| 0 <= i < |rows| && rows'[i].name.Cleanup? { assert rows[i].name.Cleanup?; }
  }

  lemma SameHeed(q: Run, q': Run)
    requires q.status.Cancelled? && Heeds(q) && q'.status == q.status && q'.log == q.log && |q'.steps| == |q.steps|
    requires forall i :: 0 <= i < |q.steps| ==> q'.steps[i].name == q.steps[i].name && q'.steps[i].status == q.steps[i].status
    requires q'.exec == q.exec || q'.exec.Idle? || (q.exec.Walking? && q'.exec == Walking(true)) || (q.exec.InStep? && q'.exec == InStep(q.exec.at, true))
    ensures Heeds(q')
  {
    SameFinished(q.steps, q'.steps);
    if q.exec.InStep? && !IsCleanupRun(q.steps) {
      var i :| 0 <= i < |q.steps| && i != q.exec.at && !Finished(q.steps[i]);
      assert !Finished(q'.steps[i]);
    }
  }

  lemma HeedingOk(q: Run)
    requires q.status.Cancelled? && Heeds(q) && Inside(q)
    ensures var q' := StepEnded(q); q'.status.Cancelled? && Heeds(q') && q'.log == q.log
  {
    var at, q' := q.exec.at, StepEnded(q);
    if i :| 0 <= i < |q.steps| && q.steps[i].name.Cleanup? { assert q'.steps[i].name.Cleanup?; }
    if i :| 0 <= i < |q.steps| && i != at && !Finished(q.steps[i]) { assert !Finished(q'.steps[i]); }
  }

  lemma HeedingBody(q: Run, e: Event)
    requires q.status.Cancelled? && Heeds(q) && IsBody(e)
    ensures var q' := Step(q, e); q'.status.Cancelled? && Heeds(q') && q'.log == q.log
  {
    if e.StepOk? {
      if Inside(q) { HeedingOk(q); }
    } else if !e.StepFail? {
      SameHeed(q, Step(q, e));
    }
  }

  lemma HeedingStep(q: Run, e: Event)
    requires q.status.Cancelled? && Heeds(q) && !Refires(e)
    ensures var q' := Step(q, e); q'.status.Cancelled? && Heeds(q') && q'.log == q.log
  {
    if e.Advance? {
      if q.exec.Walking? { HeedingAdvance(q, e.stopping, e.hasImpl); }
    } else if IsBody(e) {
      HeedingBody(q, e);
    } else if !e.NormalizeRows? && !e.Settle? {
      SameHeed(q, Step(q, e));
    }
  }

  lemma {:induction false} HeedingLasts(q: Run, es: seq<Event>)
    requires q.status.Cancelled? && Heeds(q) && forall e :: e in es ==> !Refires(e)
    ensures var q' := After(q, es); q'.status.Cancelled? && Heeds(q') && q'.log == q.log
    decreases |es|
  {
    if es != [] {
      HeedingLasts(q, es[..|es| - 1]);
      HeedingStep(After(q, es[..|es| - 1]), es[|es| - 1]);
    }
  }

  lemma AfterOne(q: Run, e: Event)
    ensures After(q, [e]) == Step(q, e)
  {
    AfterFirst(q, e, []);
    assert [e] + [] == [e];
  }

  lemma WalkGoesOn(r: Run)
    requires RunOk(r) && r.status.Running? && !r.deleted && r.exec.Walking? && !Heeds(r)
    ensures var q := Step(TableDiscard(r), Advance(false, true)); !q.status.Cancelled? || q.log != r.log
  {
  }

  lemma StepGoesOn(r: Run)
    requires RunOk(r) && r.status.Running? && !r.deleted && r.exec.InStep? && !r.exec.aborted
    ensures !Step(TableDiscard(r), StepFail(false)).status.Cancelled?
  {
  }

  lemma FiredGoesOn(r: Run)
    requires r.status.Running? && !r.deleted && r.exec.Fired?
    ensures !Step(TableDiscard(r), Begin).status.Cancelled?
  {
  }

  /** What the execution of a run goes on to do when it does not heed the discard. */
  lemma GoesOn(r: Run) returns (es: seq<Event>)
    requires RunOk(r) && r.status.Running? && !r.deleted && !Heeds(r)
    ensures forall e :: e in es ==> !Refires(e)
    ensures var q := After(TableDiscard(r), es); !q.status.Cancelled? || q.log != r.log
  {
    hide Step, TableDiscard, RunOk;
    var q := TableDiscard(r);
    if r.exec.Fired? {
      es := [Begin];
      FiredGoesOn(r);
      AfterOne(q, Begin);
    } else if r.exec.Walking? {
      es := [Advance(false, true)];
      WalkGoesOn(r);
      AfterOne(q, Advance(false, true));
    } else if !r.exec.aborted {
      es := [StepFail(false)];
      StepGoesOn(r);
      AfterOne(q, StepFail(false));
    } else {
      es := [StepOk] + [Advance(false, true)];
      EndsSucceeded(r);
      AfterFirst(q, StepOk, [Advance(false, true)]);
      AfterOne(Step(q, StepOk), Advance(false, true));
    }
  }

  lemma EndsSucceeded(r: Run)
    requires RunOk(r) && r.status.Running? && !r.deleted && r.exec.InStep? && r.exec.aborted && !Heeds(r)
    ensures Step(Step(TableDiscard(r), StepOk), Advance(false, true)).status.Succeeded?
  {
    var q := Step(TableDiscard(r), StepOk);
    assert forall i :: 0 <= i < |q.steps| ==> Finished(q.steps[i]) && q.steps[i].name == r.steps[i].name;
    FirstUnfinishedIs(q.steps, |q.steps|);
  }

  /** A discard that the table lets through holds, until somebody takes the run up again, exactly when the
      run's execution heeds it; otherwise a step still starts or the cancelled status is overwritten. */
  lemma DiscardHoldsIff(r: Run)
    requires RunOk(r) && CanRun(r.status, Cancelled) && !r.deleted
    ensures StaysDiscarded(TableDiscard(r)) <==> Heeds(r)
  {
    var q := TableDiscard(r);
    if Heeds(r) {
      forall es | forall e :: e in es ==> !Refires(e) ensures After(q, es).status.Cancelled? && After(q, es).log == q.log {
        HeedingLasts(q, es);
      }
    } else {
      var es := GoesOn(r);
    }
  }

  /** A running run that no cancel has reached: the discard of it holds at the last turn of a cleanup run, and
      at no other point between its fire and its end. */
  lemma RunningDiscardHoldsIff(r: Run)
    requires RunOk(r) && r.status.Running? && !r.deleted
    requires r.exec.Fired? || ((r.exec.Walking? || r.exec.InStep?) && !r.exec.aborted)
    ensures StaysDiscarded(TableDiscard(r)) <==> r.exec.Walking? && AllFinished(r.steps) && IsCleanupRun(r.steps)
  {
    hide RunOk, StaysDiscarded, TableDiscard;
    DiscardHoldsIff(r);
    var k := FirstUnfinished(r.steps);
    if k < |r.steps| { assert !Finished(r.steps[k]); }
  }
}
