/** Failing closed (guards.ts, step-recovery.ts): in a mutating run no later step starts unless attest-target
    is ok. It holds in every history without an abort, and an abort is the one thing
    that can break it. */
module FailClosed {
  import opened Common
  import opened Locks
  import opened Steps
  import opened Runs

  predicate IsAbort(e: Event) { e.ScheduleCleanups? || e.Settle? }

  /** The precondition row has not been passed over. */
  predicate Armed(r: Run) { r.steps != [] && !r.steps[0].status.Skipped? }

  /** A step after the precondition has started. */
  ghost predicate StartedLater(r: Run) { exists x :: x in r.log && x > 0 }

  /** Nothing after the precondition has moved, or the precondition is ok. */
  ghost predicate Guarded(r: Run) {
    && Armed(r)
    && (StartedLater(r) || (exists i :: 0 < i < |r.steps| && !r.steps[i].status.Pending?) ==> r.steps[0].status.Ok?)
  }

  lemma FindFirst(r: Run)
    requires Shaped(r.plan, r.steps) && r.plan.mutating
    ensures r.steps != [] && r.steps[0].name == Work(ATTEST) && r.steps[0].ordinal == 0
    ensures Find(r.steps, Work(ATTEST)) == 0
  {
  }

  lemma AdvanceKeepsGuarded(r: Run, stopping: bool, hasImpl: bool)
    requires RunOk(r) && r.plan.mutating && Guarded(r) && r.exec.Walking?
    ensures Guarded(Advanced(r, stopping, hasImpl))
  {
    FindFirst(r);
    var k, r' := FirstUnfinished(r.steps), Advanced(r, stopping, hasImpl);
    if r'.log != r.log {
      assert k > 0 ==> Finished(r.steps[0]);
      assert r'.log == r.log + [r.steps[k].ordinal];
      if StartedLater(r') && !StartedLater(r) {
        assert r.steps[k].ordinal > 0;
      }
    }
  }

  lemma BodyKeepsGuarded(r: Run, e: Event)
    requires RunOk(r) && r.plan.mutating && Guarded(r) && IsBody(e)
    ensures Guarded(Step(r, e))
  {
    FindFirst(r);
    assert Step(r, e).log == r.log;
  }

  lemma RecoveryKeepsGuarded(r: Run, e: Event)
    requires RunOk(r) && r.plan.mutating && Guarded(r) && IsRecovery(e) && !IsAbort(e)
    ensures Guarded(Step(r, e))
  {
    FindFirst(r);
    assert Step(r, e).log == r.log;
  }

  lemma StepKeepsGuarded(r: Run, e: Event)
    requires RunOk(r) && r.plan.mutating && Guarded(r) && !IsAbort(e)
    ensures Guarded(Step(r, e))
  {
    if e.Advance? {
      if r.exec.Walking? { AdvanceKeepsGuarded(r, e.stopping, e.hasImpl); }
    } else if IsBody(e) {
      BodyKeepsGuarded(r, e);
    } else if IsRecovery(e) {
      RecoveryKeepsGuarded(r, e);
    }
  }

  /** In every history without an abort, no step after the precondition of a mutating run has started
      unless the precondition is ok, whatever steps retries name and whatever skips are asked for. */
  lemma {:induction false} NoAbortFailsClosed(plan: Plan, es: seq<Event>)
    requires WellPlanned(plan) && plan.mutating && forall e :: e in es ==> !IsAbort(e)
    ensures Guarded(After(NewRun(plan), es))
  {
    NewRunOk(plan);
    if es != [] {
      var last := |es| - 1;
      NoAbortFailsClosed(plan, es[..last]);
      AfterKeepsOk(NewRun(plan), es[..last]);
      AfterPlan(NewRun(plan), es[..last]);
      StepKeepsGuarded(After(NewRun(plan), es[..last]), es[last]);
    }
  }

  // ---------------------------------------------------------------- with aborts

  /** The walk starts a later step over an unanswered precondition exactly when that row is skipped. */
  lemma StartsUnattestedIff(r: Run, stopping: bool, hasImpl: bool)
    requires RunOk(r) && r.plan.mutating && r.exec.Walking?
    requires Advanced(r, stopping, hasImpl).log != r.log && FirstUnfinished(r.steps) > 0
    ensures r.steps[0].status.Ok? <==> Armed(r)
  {
    FindFirst(r);
  }

  /** A row becomes skipped by an operator's skip of it, or by an abort. */
  lemma AdvanceSkipsNone(r: Run, stopping: bool, hasImpl: bool, i: nat)
    requires r.exec.Walking? && i < |r.steps| && !r.steps[i].status.Skipped?
    ensures !Advanced(r, stopping, hasImpl).steps[i].status.Skipped?
  {
  }

  lemma RecoverySkips(r: Run, e: Event, i: nat)
    requires IsRecovery(e) && !IsAbort(e) && i < |r.steps| && !r.steps[i].status.Skipped?
    ensures i < |Step(r, e).steps|
    ensures Step(r, e).steps[i].status.Skipped? ==> e.Skip? && Find(r.steps, e.step) == i && Skippable(r, e.step)
  {
  }

  lemma OnlySkipSkips(r: Run, e: Event, i: nat)
    requires !IsAbort(e) && i < |r.steps| && !r.steps[i].status.Skipped?
    ensures i < |Step(r, e).steps|
    ensures Step(r, e).steps[i].status.Skipped? ==> e.Skip? && Find(r.steps, e.step) == i && Skippable(r, e.step)
  {
    if e.Advance? {
      if r.exec.Walking? { AdvanceSkipsNone(r, e.stopping, e.hasImpl, i); }
    } else if IsRecovery(e) {
      RecoverySkips(r, e, i);
    }
  }

  /** Only an abort passes the precondition over, and only one that found it not ok. */
  lemma OnlyAbortDisarms(r: Run, e: Event)
    requires RunOk(r) && r.plan.mutating && Armed(r) && !Armed(Step(r, e))
    ensures IsAbort(e) && !r.steps[0].status.Ok?
  {
    hide Step;
    FindFirst(r);
    if IsAbort(e) { AbortKeepsOk(r, e); } else { OnlySkipSkips(r, e, 0); }
  }

  lemma AbortKeepsOk(r: Run, e: Event)
    requires IsAbort(e) && r.steps != [] && r.steps[0].name.Work?
    ensures Step(r, e).steps != [] && (r.steps[0].status.Ok? ==> Step(r, e).steps[0].status.Ok?)
  {
    if e.ScheduleCleanups? && Step(r, e) != r {
      ScheduledStep(r, e.typed);
      assert Schedule(r.steps)[0] == Rearm(r.steps, Registered(r.steps))[0];
    }
  }

  /** Whether the precondition is asked again can be read off before the retry: it stays passed over
      exactly when it is skipped and the retry starts after it. */
  lemma RetryAsksPreconditionIff(r: Run, target: Option<StepName>)
    requires RunOk(r) && r.plan.mutating && Recoverable(r) && RetryTarget(r, target).Some?
    ensures Armed(Step(r, Retry(target))) <==> (Armed(r) || RetryTarget(r, target).value == 0)
  {
    FindFirst(r);
  }

  // ---------------------------------------------------------------- what a retry may start

  /** The event starts a planned step behind the precondition, and the precondition is not ok. */
  ghost predicate StartsUnattested(q: Run, e: Event) {
    && e.Advance? && q.exec.Walking? && Step(q, e).log != q.log && q.steps != [] && !q.steps[0].status.Ok?
    && var k := FirstUnfinished(q.steps); 0 < k < |q.steps| && q.steps[k].name.Work?
  }

  /** Nothing that follows by itself, through crashes and boots, starts such a step. */
  ghost predicate StaysClosed(q: Run) {
    forall es, e :: (forall x :: x in es ==> !IsRecovery(x)) ==> !StartsUnattested(After(q, es), e)
  }

  ghost predicate PlannedFinished(rows: seq<StepRow>) { forall i :: 0 <= i < |rows| && rows[i].name.Work? ==> Finished(rows[i]) }

  /** The precondition has not been passed over, or no planned step is left to start. */
  ghost predicate Closed(q: Run) { RunOk(q) && q.plan.mutating && (Armed(q) || PlannedFinished(q.steps)) }

  lemma AdvanceKeepsFinished(q: Run, stopping: bool, hasImpl: bool)
    requires q.exec.Walking? && PlannedFinished(q.steps)
    ensures PlannedFinished(Advanced(q, stopping, hasImpl).steps)
  {
  }

  lemma BodyKeepsFinished(q: Run, e: Event)
    requires IsBody(e) && PlannedFinished(q.steps)
    ensures PlannedFinished(Step(q, e).steps)
  {
  }

  lemma StepKeepsFinished(q: Run, e: Event)
    requires PlannedFinished(q.steps) && !IsRecovery(e)
    ensures PlannedFinished(Step(q, e).steps)
  {
    if e.Advance? {
      if q.exec.Walking? { AdvanceKeepsFinished(q, e.stopping, e.hasImpl); }
    } else if IsBody(e) {
      BodyKeepsFinished(q, e);
    }
  }

  lemma StepKeepsClosed(q: Run, e: Event)
    requires Closed(q) && !IsRecovery(e)
    ensures Closed(Step(q, e))
  {
    hide Step, RunOk, PlannedFinished;
    StepKeepsOk(q, e);
    if Armed(q) { OnlySkipSkips(q, e, 0); } else { StepKeepsFinished(q, e); }
  }

  lemma {:induction false} ClosedLasts(q: Run, es: seq<Event>)
    requires Closed(q) && forall e :: e in es ==> !IsRecovery(e)
    ensures Closed(After(q, es))
    decreases |es|
  {
    hide Step, Closed;
    if es != [] {
      var last := |es| - 1;
      assert es[last] in es;
      ClosedLasts(q, es[..last]);
      StepKeepsClosed(After(q, es[..last]), es[last]);
    }
  }

  lemma ClosedStartsNone(q: Run, e: Event)
    requires Closed(q)
    ensures !StartsUnattested(q, e)
  {
    if e.Advance? && q.exec.Walking? && Step(q, e).log != q.log && FirstUnfinished(q.steps) > 0 {
      StartsUnattestedIff(q, e.stopping, e.hasImpl);
    }
  }

  /** The retry begins to walk, and its first start is one of those. */
  lemma OpenStarts(r: Run, target: Option<StepName>)
    requires RunOk(r) && r.plan.mutating && Recoverable(r) && RetryTarget(r, target).Some?
    requires !Armed(r) && RetryTarget(r, target).value > 0
    requires r.steps[RetryTarget(r, target).value].name.Work? || !PlannedFinished(r.steps)
    ensures StartsUnattested(After(Step(r, Retry(target)), [Begin]), Advance(false, true))
  {
    hide Step, RetryTarget, RunOk, Registered;
    var a := Step(r, Retry(target));
    var q := After(a, [Begin]);
    IdleWhenRecoverable(r);
    RetriedRun(r, target);
    AfterFirst(a, Begin, []);
    assert [Begin] + [] == [Begin];
    BeginWalks(a);
    StepKeepsOk(r, Retry(target));
    StepKeepsOk(a, Begin);
    var t := RetryTarget(r, target).value;
    TargetIsNotOk(r, target);
    ResetIsOpen(r, t);
    WalkStarts(q);
  }

  lemma IdleWhenRecoverable(r: Run)
    requires RunOk(r) && Recoverable(r)
    ensures r.exec.Idle?
  {
  }

  lemma TargetIsNotOk(r: Run, target: Option<StepName>)
    requires RetryTarget(r, target).Some?
    ensures !r.steps[RetryTarget(r, target).value].status.Ok?
  {
  }

  lemma BeginWalks(a: Run)
    requires a.exec.Fired?
    ensures Step(a, Begin) == a.(status := RunStatus.Running, started := true, exec := Walking(false))
  {
  }

  lemma Ascending(r: Run, t: nat)
    requires RunOk(r) && 0 < t < |r.steps|
    ensures r.steps[0].ordinal < r.steps[t].ordinal
  {
  }

  /** The planned rows come first. */
  lemma WorkBefore(r: Run, i: nat, k: nat)
    requires RunOk(r) && i < |r.steps| && r.steps[i].name.Work?
    ensures k <= i ==> r.steps[k].name.Work?
  {
  }

  /** After the reset the precondition is still passed over, and the next row is a planned one behind it. */
  lemma ResetIsOpen(r: Run, t: nat)
    requires RunOk(r) && r.plan.mutating && !Armed(r) && 0 < t < |r.steps| && !r.steps[t].status.Ok?
    requires r.steps[t].name.Work? || !PlannedFinished(r.steps)
    ensures var rows := ResetFrom(r.steps, r.steps[t].ordinal);
      && rows[0].status.Skipped?
      && var k := FirstUnfinished(rows); 0 < k < |rows| && rows[k].name.Work?
  {
    FindFirst(r);
    hide RunOk;
    Ascending(r, t);
    var rows := ResetFrom(r.steps, r.steps[t].ordinal);
    assert r.steps[0].ordinal < r.steps[t].ordinal;
    var i := t;
    if !r.steps[t].name.Work? { i :| 0 <= i < |r.steps| && r.steps[i].name.Work? && !Finished(r.steps[i]); }
    WorkBefore(r, i, FirstUnfinished(rows));
  }

  lemma WalkStarts(q: Run)
    requires RunOk(q) && q.exec == Walking(false) && q.steps != [] && q.steps[0].status.Skipped?
    requires var k := FirstUnfinished(q.steps); 0 < k < |q.steps| && q.steps[k].name.Work?
    ensures StartsUnattested(q, Advance(false, true))
  {
  }

  /** Exactly when a retry fails closed, which a caller can see before it: no planned step behind the precondition
      starts over it, in any continuation nobody interferes with, if it was not passed over, if the retry starts
      from it, or if the retry starts from a compensation and every planned step is done with. */
  lemma RetryStaysClosedIff(r: Run, target: Option<StepName>)
    requires RunOk(r) && r.plan.mutating && Recoverable(r) && RetryTarget(r, target).Some?
    ensures var t := RetryTarget(r, target).value;
      StaysClosed(Step(r, Retry(target))) <==> Armed(r) || t == 0 || (r.steps[t].name.Cleanup? && PlannedFinished(r.steps))
  {
    hide Step, RunOk, RetryTarget, PlannedFinished, StartsUnattested;
    var t, a := RetryTarget(r, target).value, Step(r, Retry(target));
    if Armed(r) || t == 0 || (r.steps[t].name.Cleanup? && PlannedFinished(r.steps)) {
      StepKeepsOk(r, Retry(target));
      if Armed(r) || t == 0 { RetryAsksPreconditionIff(r, target); } else { RetryKeepsFinished(r, target); }
      forall es, e | forall x :: x in es ==> !IsRecovery(x) ensures !StartsUnattested(After(a, es), e) {
        ClosedLasts(a, es);
        ClosedStartsNone(After(a, es), e);
      }
    } else {
      OpenStarts(r, target);
      assert forall x :: x in [Begin] ==> !IsRecovery(x);
    }
  }

  lemma RetryKeepsFinished(r: Run, target: Option<StepName>)
    requires RunOk(r) && Recoverable(r) && RetryTarget(r, target).Some?
    requires r.steps[RetryTarget(r, target).value].name.Cleanup? && PlannedFinished(r.steps)
    ensures PlannedFinished(Step(r, Retry(target)).steps)
  {
    hide Step, RetryTarget;
    IdleWhenRecoverable(r);
    RetriedRun(r, target);
  }

  // ---------------------------------------------------------------- the history that fails open

  /** A mutating run whose precondition refused. */
  lemma Refused(plan: Plan) returns (es: seq<Event>)
    requires WellPlanned(plan) && plan.mutating
    ensures Steady(es)
    ensures After(NewRun(plan), es) == NewRun(plan).(
      status := RunStatus.Failed, approvedAt := 1, started := true, log := [0],
      steps := NewRows(plan)[0 := NewRows(plan)[0].(status := StepStatus.Failed)])
  {
    var r0 := NewRun(plan);
    es := [];
    AfterThen(r0, es, Approve(1));
    es := es + [Approve(1)];
    AfterThen(r0, es, Start);
    es := es + [Start];
    AfterThen(r0, es, Begin);
    es := es + [Begin];
    AfterThen(r0, es, Advance(false, true));
    FirstUnfinishedIs(r0.steps, 0);
    es := es + [Advance(false, true)];
    AfterThen(r0, es, StepFail(false));
    es := es + [StepFail(false)];
  }

  /** ... and that run aborted, with nothing to clean up: every row is passed over. */
  lemma RefusedAndAborted(plan: Plan) returns (es: seq<Event>)
    requires WellPlanned(plan) && plan.mutating
    ensures Steady(es)
    ensures var r := After(NewRun(plan), es);
      r == NewRun(plan).(status := Cancelled, approvedAt := 1, started := true, log := [0], steps := r.steps)
      && |r.steps| == |plan.steps|
      && forall i :: 0 <= i < |r.steps| ==> r.steps[i] == NewRows(plan)[i].(status := Skipped)
  {
    es := Refused(plan);
    NothingRegistered(After(NewRun(plan), es).steps);
    AfterThen(NewRun(plan), es, Settle);
    es := es + [Settle];
  }

  /** The case the argument in step-recovery.ts leaves out, for every mutating plan of two steps or more:
      the precondition refuses, the run is aborted with nothing to clean up, a retry names the second
      step, and that step starts although the precondition stands skipped and never was ok. */
  lemma AbortThenRetryStartsUnattested(plan: Plan) returns (es: seq<Event>)
    requires WellPlanned(plan) && plan.mutating && |plan.steps| >= 2
    ensures Steady(es)
    ensures var r := After(NewRun(plan), es); r.log == [0, 1] && r.steps != [] && r.steps[0].status.Skipped?
  {
    var r0, second := NewRun(plan), Work(plan.steps[1]);
    es := RefusedAndAborted(plan);
    var r1 := After(r0, es);
    FindSecond(r1.steps, second);
    assert RetryTarget(r1, Some(second)) == Some(1);
    hide Step, After, RetryTarget, Find;
    RetriedRun(r1, Some(second));
    AfterThen(r0, es, Retry(Some(second)));
    es := es + [Retry(Some(second))];
    var r2 := After(r0, es);
    assert r2.exec == Fired && r2.steps == ResetFrom(r1.steps, 1) && r2.log == [0];
    BeginWalks(r2);
    AfterThen(r0, es, Begin);
    es := es + [Begin];
    FirstUnfinishedIs(r2.steps, 1);
    WalkLogs(After(r0, es), 1);
    AfterThen(r0, es, Advance(false, true));
    es := es + [Advance(false, true)];
  }

  lemma WalkLogs(q: Run, k: nat)
    requires q.exec == Walking(false) && k == FirstUnfinished(q.steps) < |q.steps| && q.steps[k].status.Pending?
    ensures var q' := Step(q, Advance(false, true));
      q'.log == q.log + [q.steps[k].ordinal] && q'.steps == q.steps[k := q.steps[k].(status := StepStatus.Running)]
  {
  }

  lemma FindSecond(rows: seq<StepRow>, name: StepName)
    requires |rows| >= 2 && rows[0].name != name && rows[1].name == name
    ensures Find(rows, name) == 1
  {
    assert rows[1..][0].name == name;
  }
}
