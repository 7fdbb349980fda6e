/** What a retry does to a run whose compensations have been scheduled: exactly when the promise that nothing
    of it is left still holds. */
module Retries {
  import opened Common
  import opened Locks
  import opened Steps
  import opened Runs
  import opened Undo
  import StepSafety

  /** A history by its first event, with its discipline. */
  lemma Onward(r: Run, e: Event, es: seq<Event>)
    ensures After(r, [e] + es) == After(Step(r, e), es)
    ensures Disciplined(r, [e] + es) <==> RegisteredFirst(r, e) && Disciplined(Step(r, e), es)
  {
    AfterFirst(r, e, es);
    DisciplinedFirst(r, e, es);
  }

  // ---------------------------------------------------------------- a walk that runs to its end

  /** The next row is started, and it ends ok. */
  function RowDone(r: Run): Run { Step(Step(r, Advance(false, true)), StepOk) }

  lemma RowIsDone(r: Run)
    requires RunOk(r) && r.exec == Walking(false) && FirstUnfinished(r.steps) < |r.steps|
    ensures var k, r' := FirstUnfinished(r.steps), RowDone(r);
      && r'.exec == Walking(false) && r'.steps == r.steps[k := r.steps[k].(status := Ok)]
      && r'.world == if r.steps[k].name.Cleanup? then r.world - Of(r.world, r.steps[k].name.undoes) else r.world
  {
  }

  lemma EndsTheWalk(r: Run)
    requires r.exec.Walking? && FirstUnfinished(r.steps) == |r.steps| && IsCleanupRun(r.steps)
    ensures CleanupEnded(Step(r, Advance(false, true))) && Step(r, Advance(false, true)).world == r.world
  {
  }

  lemma UnfinishedMoves(rows: seq<StepRow>, k: nat)
    requires k == FirstUnfinished(rows) < |rows|
    ensures FirstUnfinished(rows[k := rows[k].(status := Ok)]) > k
  {
    var rows' := rows[k := rows[k].(status := Ok)];
    var j := FirstUnfinished(rows');
    if j <= k { assert Finished(rows'[j]); }
  }

  lemma SameNamesSameRows(rows: seq<StepRow>, rows': seq<StepRow>, name: StepName)
    requires |rows| == |rows'| && forall i :: 0 <= i < |rows| ==> rows'[i].name == rows[i].name
    ensures HasRow(rows', name) <==> HasRow(rows, name)
    ensures IsCleanupRun(rows') <==> IsCleanupRun(rows)
  {
    HasRowIff(rows, name);
    HasRowIff(rows', name);
    if i :| 0 <= i < |rows| && rows[i].name.Cleanup? { assert rows'[i].name.Cleanup?; }
    if i :| 0 <= i < |rows| && rows'[i].name.Cleanup? { assert rows[i].name.Cleanup?; }
  }

  /** No row takes back any of these effects. */
  ghost predicate NoRowFor(rows: seq<StepRow>, kept: set<Effect>) { forall x :: x in kept ==> !HasRow(rows, Cleanup(x.undoneBy)) }

  /** From any state between two steps, a cleanup run can go on to its end, every row of it finished; what no
      row takes back stands on. */
  lemma {:induction false} RunsOut(r: Run, kept: set<Effect>) returns (es: seq<Event>)
    requires RunOk(r) && r.exec == Walking(false) && IsCleanupRun(r.steps) && kept <= r.world && NoRowFor(r.steps, kept)
    ensures (forall e :: e in es ==> e.Advance? || e.StepOk?) && Disciplined(r, es) && Steady(es)
    ensures CleanupEnded(After(r, es)) && kept <= After(r, es).world
    decreases |r.steps| - FirstUnfinished(r.steps)
  {
    hide Step, RunOk, CleanupEnded, IsCleanupRun;
    var k := FirstUnfinished(r.steps);
    if k == |r.steps| {
      es := [Advance(false, true)];
      EndsTheWalk(r);
      Onward(r, Advance(false, true), []);
      assert es + [] == es;
    } else {
      var r1, r2 := Step(r, Advance(false, true)), RowDone(r);
      RowIsDone(r);
      StepKeepsOk(r, Advance(false, true));
      StepKeepsOk(r1, StepOk);
      UnfinishedMoves(r.steps, k);
      KeptStands(r, r2, k, kept);
      var rest := RunsOut(r2, kept);
      Onward(r1, StepOk, rest);
      Onward(r, Advance(false, true), [StepOk] + rest);
      es := [Advance(false, true)] + ([StepOk] + rest);
    }
  }

  lemma KeptStands(r: Run, r2: Run, k: nat, kept: set<Effect>)
    requires k < |r.steps| && IsCleanupRun(r.steps) && kept <= r.world && NoRowFor(r.steps, kept)
    requires r2.steps == r.steps[k := r.steps[k].(status := Ok)]
    requires r2.world == if r.steps[k].name.Cleanup? then r.world - Of(r.world, r.steps[k].name.undoes) else r.world
    ensures IsCleanupRun(r2.steps) && kept <= r2.world && NoRowFor(r2.steps, kept)
  {
    SameNamesSameRows(r.steps, r2.steps, r.steps[k].name);
    forall x | x in kept ensures x in r2.world && !HasRow(r2.steps, Cleanup(x.undoneBy)) {
      SameNamesSameRows(r.steps, r2.steps, Cleanup(x.undoneBy));
      OtherStands(r, k, x);
    }
  }

  lemma OtherStands(r: Run, k: nat, x: Effect)
    requires k < |r.steps| && !HasRow(r.steps, Cleanup(x.undoneBy))
    ensures r.steps[k].name.Cleanup? ==> x !in Of(r.world, r.steps[k].name.undoes)
  {
    HasRowIff(r.steps, Cleanup(x.undoneBy));
  }

  // ---------------------------------------------------------------- a retry that names a planned step

  lemma RetryRow(r: Run, target: Option<StepName>)
    requires RetryTarget(r, target).Some?
    ensures var row := r.steps[RetryTarget(r, target).value]; !row.status.Ok? && (target.Some? ==> row.name == target.value)
  {
  }

  /** The retried row is where the walk begins. */
  lemma RetryWalksFrom(r: Run, t: nat)
    requires RunOk(r) && Unwinding(r) && t < |r.steps| && r.steps[t].name.Work? && !r.steps[t].status.Ok?
    ensures var rows := ResetFrom(r.steps, r.steps[t].ordinal); FirstUnfinished(rows) == t && rows[t].status.Pending?
  {
    var rows := ResetFrom(r.steps, r.steps[t].ordinal);
    forall i | 0 <= i < t ensures Finished(rows[i]) {
      assert r.steps[i].ordinal < r.steps[t].ordinal && r.steps[i].name.Work?;
    }
    FirstUnfinishedIs(rows, t);
  }

  /** The retried step does its work again: it registers a compensation and changes something. */
  function Reworked(r: Run, target: Option<StepName>, x: Effect): Run {
    Step(Step(Step(Step(Step(Step(r, Retry(target)), Begin), Advance(false, true)), Register(x.undoneBy)), Mutate(x)), StepOk)
  }

  lemma BeginsToWalk(r: Run)
    requires r.exec.Fired?
    ensures Step(r, Begin) == r.(status := RunStatus.Running, started := true, exec := Walking(false))
  {
  }

  lemma StartsNext(r: Run, t: nat)
    requires r.exec == Walking(false) && t == FirstUnfinished(r.steps) < |r.steps| && r.steps[t].status.Pending?
    ensures var r' := Step(r, Advance(false, true));
      r' == r.(exec := InStep(t, false), steps := r.steps[t := r.steps[t].(status := StepStatus.Running)], log := r.log + [r.steps[t].ordinal])
  {
  }

  lemma WalksAgain(r: Run, target: Option<StepName>)
    requires RunOk(r) && Unwinding(r) && Recoverable(r) && RetryTarget(r, target).Some?
    requires r.steps[RetryTarget(r, target).value].name.Work?
    ensures var t, r3 := RetryTarget(r, target).value, Step(Step(Step(r, Retry(target)), Begin), Advance(false, true));
      && RunOk(r3) && r3.exec == InStep(t, false) && |r3.steps| == |r.steps| && r3.world == r.world
      && (forall i :: 0 <= i < |r.steps| ==> r3.steps[i].name == r.steps[i].name)
  {
    var t := RetryTarget(r, target).value;
    var r1 := Step(r, Retry(target));
    var r2 := Step(r1, Begin);
    RetryRow(r, target);
    RecoverableIsIdle(r);
    hide Step, RetryTarget, RunOk, Unwinding;
    RetriedRun(r, target);
    RetryWalksFrom(r, t);
    BeginsToWalk(r1);
    StartsNext(r2, t);
    StepKeepsOk(r, Retry(target));
    StepKeepsOk(r1, Begin);
    StepKeepsOk(r2, Advance(false, true));
  }

  lemma RecoverableIsIdle(r: Run)
    requires RunOk(r) && Recoverable(r)
    ensures r.exec.Idle?
  {
  }

  lemma WorksInside(r: Run, x: Effect)
    requires RunOk(r) && r.exec.InStep? && !r.exec.aborted && r.steps[r.exec.at].name.Work?
    ensures var r4 := Step(r, Register(x.undoneBy));
      && RegisteredFirst(r4, Mutate(x))
      && var r6 := Step(Step(r4, Mutate(x)), StepOk);
        && RunOk(r6) && r6.exec == Walking(false) && x in r6.world && |r6.steps| == |r.steps|
        && (forall i :: 0 <= i < |r.steps| ==> r6.steps[i].name == r.steps[i].name)
  {
    var r4 := Step(r, Register(x.undoneBy));
    StepKeepsOk(r, Register(x.undoneBy));
    StepKeepsOk(r4, Mutate(x));
    StepKeepsOk(Step(r4, Mutate(x)), StepOk);
  }

  /** After the compensations were scheduled, a retry of a planned step lets that step do its work again,
      registering first, and the run still ends as cleaned up, with that work standing. */
  lemma RetryLeavesAnEffect(r: Run, target: Option<StepName>, x: Effect) returns (es: seq<Event>)
    requires RunOk(r) && Unwinding(r) && IsCleanupRun(r.steps) && Recoverable(r) && RetryTarget(r, target).Some?
    requires r.steps[RetryTarget(r, target).value].name.Work? && !HasRow(r.steps, Cleanup(x.undoneBy))
    ensures es != [] && es[0] == Retry(target) && (forall e :: e in es[1..] ==> Unwinds(e)) && Disciplined(r, es) && Steady(es)
    ensures CleanupEnded(After(r, es)) && x in After(r, es).world
  {
    var r3 := Step(Step(Step(r, Retry(target)), Begin), Advance(false, true));
    WalksAgain(r, target);
    WorksInside(r3, x);
    var r6 := Reworked(r, target, x);
    SameNamesSameRows(r.steps, r6.steps, Cleanup(x.undoneBy));
    var rest := RunsOut(r6, {x});
    es := Chain(r, target, x, rest);
  }

  lemma Chain(r: Run, target: Option<StepName>, x: Effect, rest: seq<Event>) returns (es: seq<Event>)
    requires var r4 := Step(Step(Step(Step(r, Retry(target)), Begin), Advance(false, true)), Register(x.undoneBy)); RegisteredFirst(r4, Mutate(x))
    requires Disciplined(Reworked(r, target, x), rest) && Steady(rest) && forall e :: e in rest ==> e.Advance? || e.StepOk?
    ensures es != [] && es[0] == Retry(target) && (forall e :: e in es[1..] ==> Unwinds(e))
    ensures Disciplined(r, es) && Steady(es) && After(r, es) == After(Reworked(r, target, x), rest)
  {
    hide Step, Disciplined, After;
    var r1 := Step(r, Retry(target));
    var r2 := Step(r1, Begin);
    var r3 := Step(r2, Advance(false, true));
    var r4 := Step(r3, Register(x.undoneBy));
    var r5 := Step(r4, Mutate(x));
    Onward(r5, StepOk, rest);
    Onward(r4, Mutate(x), [StepOk] + rest);
    Onward(r3, Register(x.undoneBy), [Mutate(x)] + ([StepOk] + rest));
    Onward(r2, Advance(false, true), [Register(x.undoneBy)] + ([Mutate(x)] + ([StepOk] + rest)));
    Onward(r1, Begin, [Advance(false, true)] + ([Register(x.undoneBy)] + ([Mutate(x)] + ([StepOk] + rest))));
    var tail := [Begin] + ([Advance(false, true)] + ([Register(x.undoneBy)] + ([Mutate(x)] + ([StepOk] + rest))));
    Onward(r, Retry(target), tail);
    es := [Retry(target)] + tail;
    assert es[1..] == tail;
  }

  // ---------------------------------------------------------------- exactly when the promise holds

  /** Whatever follows the retry, but for another one of a planned step and an operator's skip: if every step
      registers first and the cleanup run ends, nothing is left but what nobody had registered before. */
  ghost predicate KeepsThePromise(r: Run, target: Option<StepName>) {
    forall es :: StaysInOrder(r, target, es) ==> forall x :: x in After(r, es).world ==> x in r.world && !Registers(r.steps, x.undoneBy)
  }

  ghost predicate StaysInOrder(r: Run, target: Option<StepName>, es: seq<Event>) {
    && es != [] && es[0] == Retry(target) && (forall e :: e in es[1..] ==> Unwinds(e))
    && Disciplined(r, es) && CleanupEnded(After(r, es))
  }

  lemma {:induction false} LongerThanAll(names: set<string>) returns (n: nat)
    ensures forall s :: s in names ==> |s| < n
  {
    if names == {} {
      n := 0;
    } else {
      var s :| s in names;
      var m := LongerThanAll(names - {s});
      n := if |s| < m then m else |s| + 1;
    }
  }

  function CleanupNames(rows: seq<StepRow>): set<string> {
    set i | 0 <= i < |rows| && rows[i].name.Cleanup? :: rows[i].name.undoes
  }

  lemma RowHasName(rows: seq<StepRow>, v: string)
    requires HasRow(rows, Cleanup(v))
    ensures v in CleanupNames(rows)
  {
    assert rows[Find(rows, Cleanup(v))].name.undoes == v;
  }

  /** A name that no row undoes and no effect goes by. */
  lemma FreshName(rows: seq<StepRow>, world: set<Effect>) returns (v: string)
    ensures !HasRow(rows, Cleanup(v)) && forall x :: x in world ==> x.undoneBy != v
  {
    var undone := set x | x in world :: x.undoneBy;
    var n := LongerThanAll(undone + CleanupNames(rows));
    v := seq(n, _ => 'v');
    if HasRow(rows, Cleanup(v)) { RowHasName(rows, v); }
    forall x | x in world ensures x.undoneBy != v { assert x.undoneBy in undone; }
  }

  /** A retry keeps the promise exactly when the row it starts from is a compensation's, which a caller can
      read off the step it names. */
  lemma RetryKeepsThePromiseIff(r: Run, target: Option<StepName>)
    requires RunOk(r) && Backed(r.steps) && Unwinding(r) && IsCleanupRun(r.steps) && Recoverable(r) && RetryTarget(r, target).Some?
    ensures KeepsThePromise(r, target) <==> r.steps[RetryTarget(r, target).value].name.Cleanup?
  {
    RetryRow(r, target);
    if r.steps[RetryTarget(r, target).value].name.Cleanup? {
      forall es | StaysInOrder(r, target, es)
        ensures forall x :: x in After(r, es).world ==> x in r.world && !Registers(r.steps, x.undoneBy)
      {
        forall e | e in es ensures Unwinds(e) { if e != es[0] { assert e in es[1..]; } }
        EndIsExact(r, es);
      }
    } else {
      var v := FreshName(r.steps, r.world);
      var x := Effect(v, "");
      var es := RetryLeavesAnEffect(r, target, x);
      assert StaysInOrder(r, target, es) && x in After(r, es).world && x !in r.world;
    }
  }

  lemma AbortMakesCleanupRun(r: Run, typed: bool)
    requires RunOk(r) && Backed(r.steps) && Step(r, ScheduleCleanups(typed)) != r
    ensures RunOk(Step(r, ScheduleCleanups(typed))) && IsCleanupRun(Step(r, ScheduleCleanups(typed)).steps)
  {
    var a := Step(r, ScheduleCleanups(typed));
    var n := Registered(r.steps)[0];
    AbortStartsUnwinding(r, typed);
    StepKeepsOk(r, ScheduleCleanups(typed));
    RegistersIff(r.steps, n);
    assert Registers(a.steps, n);
    assert a.steps[Find(a.steps, Cleanup(n))].name.Cleanup?;
  }

  /** So it is for every run that was aborted, first or again, wherever its unwinding has got to: a retry
      keeps the promise exactly when it starts from a compensation's row. */
  lemma RetryAfterAbortIff(plan: Plan, before: seq<Event>, typed: bool, unwinding: seq<Event>, target: Option<StepName>)
    requires WellPlanned(plan) && forall e :: e in unwinding ==> Unwinds(e)
    requires Step(After(NewRun(plan), before), ScheduleCleanups(typed)) != After(NewRun(plan), before)
    requires var r := After(Step(After(NewRun(plan), before), ScheduleCleanups(typed)), unwinding);
      Recoverable(r) && RetryTarget(r, target).Some?
    ensures var r := After(Step(After(NewRun(plan), before), ScheduleCleanups(typed)), unwinding);
      KeepsThePromise(r, target) <==> r.steps[RetryTarget(r, target).value].name.Cleanup?
  {
    hide Step, After, RunOk, Unwinding, KeepsThePromise, RetryTarget, Recoverable;
    var r0 := After(NewRun(plan), before);
    var a := Step(r0, ScheduleCleanups(typed));
    NewRunOk(plan);
    AfterKeepsOk(NewRun(plan), before);
    AlwaysBacked(plan, before);
    AbortMakesCleanupRun(r0, typed);
    AbortStartsUnwinding(r0, typed);
    StepKeepsBacked(r0, ScheduleCleanups(typed));
    UnwindingLasts(a, unwinding);
    StepSafety.AbortedNeverSucceeds(a, unwinding);
    RetryKeepsThePromiseIff(After(a, unwinding), target);
  }
}
