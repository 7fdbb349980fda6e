/** The unwinding as it runs: what an aborted run's log shows of its compensations, over every history. */
module ReverseOrder {
  import opened Common
  import opened Locks
  import opened Steps
  import opened Runs
  import opened Undo
  import opened Progress

  /** The rows from `from` on are the compensations of `names`, in that order, and nothing before them is one. */
  ghost predicate Compensate(rows: seq<StepRow>, from: nat, names: seq<string>) {
    && |rows| == from + |names|
    && (forall i :: 0 <= i < from ==> rows[i].name.Work?)
    && (forall i :: 0 <= i < |names| ==> rows[from + i].name == Cleanup(names[i]))
  }

  lemma CompensateSame(rows: seq<StepRow>, rows': seq<StepRow>, from: nat, names: seq<string>)
    requires Compensate(rows, from, names) && SameRows(rows, rows')
    ensures Compensate(rows', from, names)
  {
  }

  lemma PlannedOnly(r: Run)
    requires RunOk(r) && !IsCleanupRun(r.steps) && r.steps != []
    ensures forall i :: 0 <= i < |r.steps| ==> r.steps[i].name.Work? && r.steps[i].ordinal == i
    ensures MaxOrdinal(r.steps) == |r.steps| - 1
  {
    var last := |r.steps| - 1;
    assert r.steps[last].ordinal == last;
  }

  /** A first abort sets the compensations up behind the planned rows, untouched, in the order of the names. */
  lemma FirstAbortIsLinear(r: Run, typed: bool)
    requires RunOk(r) && !IsCleanupRun(r.steps) && Step(r, ScheduleCleanups(typed)) != r
    ensures var a := Step(r, ScheduleCleanups(typed));
      && a.log == r.log && Registered(r.steps) != [] && Compensate(a.steps, |r.steps|, Registered(r.steps))
      && Linear(a, |r.steps|, r.log)
  {
    hide Registered, MaxOrdinal, RunOk, Schedule, Rearm, IsFresh, IsCleanupRun;
    var a, n := Step(r, ScheduleCleanups(typed)), |r.steps|;
    ScheduledStep(r, typed);
    PlannedOnly(r);
    FirstAbortOrder(r.steps, Registered(r.steps));
    ScheduleRows(r.steps);
    assert a.log == r.log && r.log[|r.log|..] == [];
    LinearHere(a, n, r.log, n);
  }

  /** While a run unwinds, the planned rows stay as they are. */
  lemma UnwindLeaves(q: Run, e: Event, from: nat)
    requires RunOk(q) && Unwinding(q) && Unwinds(e) && Plain(e) && from <= |q.steps|
    requires forall i :: 0 <= i < from ==> q.steps[i].name.Work?
    ensures Leaves(q, e, from)
  {
    hide Step, RunOk, Unwinding;
    if e.Advance? {
      AdvanceLeaves(q, e.stopping, e.hasImpl, from);
    } else if e.Retry? {
      RetryLeaves(q, e.target, from);
    } else if IsBody(e) {
      BodyLeaves(q, e, from);
    } else {
      OtherSteps(q, e);
      RowsDoNotRun(q, from);
    }
  }

  lemma RowsDoNotRun(q: Run, from: nat)
    requires Unwinding(q) && from <= |q.steps| && forall i :: 0 <= i < from ==> q.steps[i].name.Work?
    ensures forall i :: 0 <= i < from ==> Finished(q.steps[i])
  {
  }

  lemma AdvanceLeaves(q: Run, stopping: bool, hasImpl: bool, from: nat)
    requires Unwinding(q) && from <= |q.steps| && forall i :: 0 <= i < from ==> q.steps[i].name.Work?
    ensures Leaves(q, Advance(stopping, hasImpl), from)
  {
    RowsDoNotRun(q, from);
    hide Unwinding;
  }

  lemma BodyLeaves(q: Run, e: Event, from: nat)
    requires IsBody(e) && Unwinding(q) && from <= |q.steps| && forall i :: 0 <= i < from ==> q.steps[i].name.Work?
    ensures Leaves(q, e, from)
  {
    RowsDoNotRun(q, from);
    hide Unwinding;
  }

  lemma RetryLeaves(q: Run, target: Option<StepName>, from: nat)
    requires RunOk(q) && Unwinding(q) && Unwinds(Retry(target)) && from <= |q.steps|
    requires forall i :: 0 <= i < from ==> q.steps[i].name.Work?
    ensures Leaves(q, Retry(target), from)
  {
    var t := RetryTarget(q, target);
    if t.Some? {
      RetryTargetsCleanup(q, target);
      hide RetryTarget;
      assert t.value >= from;
    }
  }

  /** With a compensation registered there is nothing to settle. */
  lemma NothingToSettle(q: Run, from: nat, names: seq<string>)
    requires Backed(q.steps) && Compensate(q.steps, from, names) && names != []
    ensures Step(q, Settle) == q
  {
    RegistersIff(q.steps, names[0]);
    assert q.steps[from].name == Cleanup(names[0]);
  }

  ghost predicate InReverse(q: Run, from: nat, before: seq<nat>, names: seq<string>) {
    RunOk(q) && Backed(q.steps) && Unwinding(q) && Compensate(q.steps, from, names) && Linear(q, from, before)
  }

  lemma StepInReverse(q: Run, e: Event, from: nat, before: seq<nat>, names: seq<string>)
    requires InReverse(q, from, before, names) && names != [] && Unwinds(e) && !e.ScheduleCleanups?
    ensures InReverse(Step(q, e), from, before, names)
  {
    hide Step, RunOk, Unwinding, Linear, Backed;
    if e.Settle? {
      NothingToSettle(q, from, names);
    } else {
      UnwindLeaves(q, e, from);
      StepRows(q, e);
      CompensateSame(q.steps, Step(q, e).steps, from, names);
      StepKeepsLinear(q, e, from, before);
      StepUnwinds(q, e);
      StepKeepsOk(q, e);
      StepKeepsBacked(q, e);
    }
  }

  lemma {:induction false} StaysInReverse(a: Run, es: seq<Event>, from: nat, before: seq<nat>, names: seq<string>)
    requires InReverse(a, from, before, names) && names != [] && forall e :: e in es ==> Unwinds(e) && !e.ScheduleCleanups?
    ensures InReverse(After(a, es), from, before, names)
    decreases |es|
  {
    hide Step, InReverse;
    if es != [] {
      var last := |es| - 1;
      assert es[last] in es;
      StaysInReverse(a, es[..last], from, before, names);
      StepInReverse(After(a, es[..last]), es[last], from, before, names);
    }
  }

  /** After a first abort the compensations run one by one in reverse: through crashes, boots, failures and
      retries, what is started after the abort never goes back, and without repeats it is the first so many of
      the compensations, a later step's before an earlier step's; once the cleanup has ended, all of them. */
  lemma UnwindsInReverse(plan: Plan, before: seq<Event>, typed: bool, unwinding: seq<Event>)
    requires WellPlanned(plan) && forall e :: e in unwinding ==> Unwinds(e) && !e.ScheduleCleanups?
    requires !IsCleanupRun(After(NewRun(plan), before).steps)
    requires Step(After(NewRun(plan), before), ScheduleCleanups(typed)) != After(NewRun(plan), before)
    ensures var r, q := After(NewRun(plan), before), After(Step(After(NewRun(plan), before), ScheduleCleanups(typed)), unwinding);
      var names, n := Registered(r.steps), |r.steps|;
      && Compensate(q.steps, n, names) && Numbered(q.steps, n) && r.log <= q.log
      && var tail := q.log[|r.log|..];
        && (forall i, j :: 0 <= i < j < |tail| ==> tail[i] <= tail[j])
        && (exists m :: 0 <= m <= |names| && Collapse(tail) == Count(n, m))
        && (CleanupEnded(q) ==> Collapse(tail) == Count(n, |names|))
  {
    hide Step, After, RunOk, Unwinding, Backed, Compensate, LinearAt, Registered, IsCleanupRun;
    var r := After(NewRun(plan), before);
    var a := Step(r, ScheduleCleanups(typed));
    NewRunOk(plan);
    AfterKeepsOk(NewRun(plan), before);
    AlwaysBacked(plan, before);
    FirstAbortIsLinear(r, typed);
    AbortStartsUnwinding(r, typed);
    StepKeepsOk(r, ScheduleCleanups(typed));
    StepKeepsBacked(r, ScheduleCleanups(typed));
    StaysInReverse(a, unwinding, |r.steps|, r.log, Registered(r.steps));
    var q := After(a, unwinding);
    ShownInReverse(q, |r.steps|, r.log, Registered(r.steps));
  }

  lemma ShownInReverse(q: Run, from: nat, before: seq<nat>, names: seq<string>)
    requires InReverse(q, from, before, names)
    ensures before <= q.log
    ensures var tail := q.log[|before|..];
      && (forall i, j :: 0 <= i < j < |tail| ==> tail[i] <= tail[j])
      && (exists m :: 0 <= m <= |names| && Collapse(tail) == Count(from, m))
      && (CleanupEnded(q) ==> Collapse(tail) == Count(from, |names|))
  {
    hide RunOk, Unwinding, Backed, LinearAt;
    var k := FirstUnfinished(q.steps);
    ClimbShows(q.steps, q.log[|before|..], from, k);
    assert CleanupEnded(q) ==> k == |q.steps|;
  }
}
