/** Undo completeness: what an abort with cleanup takes back, over every history of the run. */
module Undo {
  import opened Common
  import opened Locks
  import opened Steps
  import opened Runs

  /** Some step persisted the compensation's name. */
  ghost predicate Registers(rows: seq<StepRow>, name: string) {
    exists i :: 0 <= i < |rows| && name in rows[i].cleanups
  }

  lemma RegistersIff(rows: seq<StepRow>, name: string)
    ensures Registers(rows, name) <==> name in Registered(rows)
  {
    RegisteredMembers(rows);
  }

  // ---------------------------------------------------------------- registered names are never lost

  lemma RowsKeepNames(rows: seq<StepRow>, rows': seq<StepRow>)
    requires |rows| <= |rows'| && forall i, n :: 0 <= i < |rows| && n in rows[i].cleanups ==> n in rows'[i].cleanups
    ensures forall n :: Registers(rows, n) ==> Registers(rows', n)
  {
    forall n | Registers(rows, n) ensures Registers(rows', n) {
      var i :| 0 <= i < |rows| && n in rows[i].cleanups;
      assert n in rows'[i].cleanups;
    }
  }

  lemma RegisterKeepsNames(r: Run, name: string)
    ensures |r.steps| == |Step(r, Register(name)).steps|
    ensures forall i, n :: 0 <= i < |r.steps| && n in r.steps[i].cleanups ==> n in Step(r, Register(name)).steps[i].cleanups
  {
  }

  lemma EventKeepsNames(r: Run, e: Event)
    ensures |r.steps| <= |Step(r, e).steps|
    ensures forall i, n :: 0 <= i < |r.steps| && n in r.steps[i].cleanups ==> n in Step(r, e).steps[i].cleanups
  {
    hide Step, Schedule, Registered;
    if e.ScheduleCleanups? {
      if Step(r, e) != r {
        ScheduledStep(r, e.typed);
        ScheduleRows(r.steps);
      }
    } else if e.Register? {
      RegisterKeepsNames(r, e.name);
    } else {
      StepNames(r, e);
    }
  }

  /** No checkpoint, retry, restart or abort loses a registered compensation. */
  lemma {:induction false} NamesAreNeverLost(r: Run, es: seq<Event>)
    ensures forall n :: Registers(r.steps, n) ==> Registers(After(r, es).steps, n)
    decreases |es|
  {
    if es != [] {
      var last := |es| - 1;
      NamesAreNeverLost(r, es[..last]);
      EventKeepsNames(After(r, es[..last]), es[last]);
      RowsKeepNames(After(r, es[..last]).steps, After(r, es).steps);
    }
  }

  // ---------------------------------------------------------------- register before you mutate

  /** A step mutates only what the name of its compensation was persisted for before. */
  ghost predicate RegisteredFirst(r: Run, e: Event) {
    e.Mutate? && Inside(r) && r.steps[r.exec.at].name.Work? ==> e.effect.undoneBy in r.steps[r.exec.at].cleanups
  }

  /** The promise of the README, over a whole history. */
  ghost predicate Disciplined(r: Run, es: seq<Event>) {
    es == [] || (Disciplined(r, es[..|es| - 1]) && RegisteredFirst(After(r, es[..|es| - 1]), es[|es| - 1]))
  }

  lemma {:induction false} DisciplinedBoth(r: Run, a: seq<Event>, b: seq<Event>)
    ensures Disciplined(r, a + b) <==> Disciplined(r, a) && Disciplined(After(r, a), b)
  {
    if b == [] {
      assert a + b == a;
    } else {
      var last := |b| - 1;
      assert (a + b)[..|a + b| - 1] == a + b[..last];
      DisciplinedBoth(r, a, b[..last]);
      AfterBoth(r, a, b[..last]);
    }
  }

  lemma DisciplinedFirst(r: Run, e: Event, es: seq<Event>)
    ensures Disciplined(r, [e] + es) <==> RegisteredFirst(r, e) && Disciplined(Step(r, e), es)
  {
    DisciplinedBoth(r, [e], es);
    assert [e][..0] == [];
    AfterFirst(r, e, []);
    assert [e] + [] == [e];
  }

  /** Every effect that stands outside can be taken back by name. */
  ghost predicate Accounted(r: Run) { forall x :: x in r.world ==> Registers(r.steps, x.undoneBy) }

  lemma StepKeepsAccounted(r: Run, e: Event)
    requires Accounted(r) && RegisteredFirst(r, e)
    ensures Accounted(Step(r, e))
  {
    EventKeepsNames(r, e);
    RowsKeepNames(r.steps, Step(r, e).steps);
    forall x | x in Step(r, e).world ensures Registers(Step(r, e).steps, x.undoneBy) {
      assert x in r.world || (e.Mutate? && x == e.effect && Inside(r));
    }
  }

  lemma {:induction false} DisciplineAccounts(plan: Plan, es: seq<Event>)
    requires Disciplined(NewRun(plan), es)
    ensures Accounted(After(NewRun(plan), es))
  {
    if es != [] {
      DisciplineAccounts(plan, es[..|es| - 1]);
      StepKeepsAccounted(After(NewRun(plan), es[..|es| - 1]), es[|es| - 1]);
    }
  }

  // ---------------------------------------------------------------- unwinding

  /** The state an abort leaves and a cleanup run keeps: only compensation rows are left to run, every
      registered name has one that nobody waved through, and one that is ok has nothing left standing. */
  ghost predicate Unwinding(r: Run) {
    && (forall i :: 0 <= i < |r.steps| && r.steps[i].name.Work? ==> Finished(r.steps[i]))
    && (forall n :: Registers(r.steps, n) ==> HasRow(r.steps, Cleanup(n)))
    && (forall i :: 0 <= i < |r.steps| && r.steps[i].name.Cleanup? ==> !r.steps[i].status.Skipped?)
    && (forall i, x :: 0 <= i < |r.steps| && x in r.world && r.steps[i].name == Cleanup(x.undoneBy) ==> !r.steps[i].status.Ok?)
  }

  /** Every compensation row stands for a registered name. */
  ghost predicate Backed(rows: seq<StepRow>) {
    forall i :: 0 <= i < |rows| && rows[i].name.Cleanup? ==> Registers(rows, rows[i].name.undoes)
  }

  lemma StepKeepsBacked(r: Run, e: Event)
    requires Backed(r.steps)
    ensures Backed(Step(r, e).steps)
  {
    var r' := Step(r, e);
    EventKeepsNames(r, e);
    RowsKeepNames(r.steps, r'.steps);
    if e.ScheduleCleanups? {
      if r' != r { ScheduleIsBacked(r.steps); }
    } else {
      StepRows(r, e);
    }
  }

  /** A scheduled abort, row by row: the rows that were there, then the new ones. */
  lemma ScheduleRows(rows: seq<StepRow>)
    requires rows != []
    ensures |rows| <= |Schedule(rows)|
    ensures forall i :: 0 <= i < |rows| ==> Schedule(rows)[i] == Rearm(rows, Registered(rows))[i]
    ensures forall i :: |rows| <= i < |Schedule(rows)| ==> IsFresh(rows, Registered(rows), MaxOrdinal(rows) + 1, Schedule(rows)[i])
  {
    hide Registered, MaxOrdinal, Fresh, Rearm, IsFresh;
    var names, next := Registered(rows), MaxOrdinal(rows) + 1;
    FreshAre(rows, names, next);
    AppendedRows(Rearm(rows, names), Fresh(rows, names, next));
  }

  lemma AppendedRows(stood: seq<StepRow>, added: seq<StepRow>)
    ensures forall i :: 0 <= i < |stood| ==> (stood + added)[i] == stood[i]
    ensures forall i :: |stood| <= i < |stood + added| ==> (stood + added)[i] in added
  {
    forall i | |stood| <= i < |stood + added| ensures (stood + added)[i] in added {
      assert (stood + added)[i] == added[i - |stood|];
    }
  }

  /** Scheduling registers nothing and loses nothing. */
  lemma ScheduleRegisters(rows: seq<StepRow>)
    requires rows != []
    ensures forall n :: Registers(Schedule(rows), n) <==> Registers(rows, n)
  {
    var all := Schedule(rows);
    ScheduleRows(rows);
    forall n ensures Registers(all, n) <==> Registers(rows, n) {
      if i :| 0 <= i < |all| && n in all[i].cleanups {
        assert i < |rows| && n in rows[i].cleanups;
      }
      if i :| 0 <= i < |rows| && n in rows[i].cleanups { assert n in all[i].cleanups; }
    }
  }

  lemma ScheduleIsBacked(rows: seq<StepRow>)
    requires rows != [] && Backed(rows)
    ensures Backed(Schedule(rows))
  {
    var all := Schedule(rows);
    ScheduleRows(rows);
    ScheduleRegisters(rows);
    forall i | 0 <= i < |all| && all[i].name.Cleanup? ensures Registers(all, all[i].name.undoes) {
      if i < |rows| {
        assert rows[i].name == all[i].name;
      } else {
        RegistersIff(rows, all[i].name.undoes);
      }
    }
  }

  lemma {:induction false} AlwaysBacked(plan: Plan, es: seq<Event>)
    ensures Backed(After(NewRun(plan), es).steps)
  {
    if es != [] {
      AlwaysBacked(plan, es[..|es| - 1]);
      StepKeepsBacked(After(NewRun(plan), es[..|es| - 1]), es[|es| - 1]);
    }
  }

  /** After a scheduled abort the planned rows are finished and every compensation row is pending. */
  lemma ScheduleLeavesCleanups(rows: seq<StepRow>)
    requires rows != [] && Backed(rows)
    ensures forall i :: 0 <= i < |Schedule(rows)| ==>
      var row := Schedule(rows)[i]; (row.name.Work? ==> Finished(row)) && (row.name.Cleanup? ==> row.status.Pending?)
  {
    var all := Schedule(rows);
    ScheduleRows(rows);
    forall i | 0 <= i < |all| ensures (all[i].name.Work? ==> Finished(all[i])) && (all[i].name.Cleanup? ==> all[i].status.Pending?) {
      if i < |rows| && rows[i].name.Cleanup? { RegistersIff(rows, rows[i].name.undoes); }
    }
  }

  /** An abort that goes through starts an unwinding. */
  lemma AbortStartsUnwinding(r: Run, typed: bool)
    requires Backed(r.steps) && Step(r, ScheduleCleanups(typed)) != r
    ensures Unwinding(Step(r, ScheduleCleanups(typed)))
    ensures forall n :: Registers(Step(r, ScheduleCleanups(typed)).steps, n) <==> Registers(r.steps, n)
  {
    hide Step, Schedule, Registers;
    var all := Step(r, ScheduleCleanups(typed)).steps;
    ScheduledStep(r, typed);
    ScheduleLeavesCleanups(r.steps);
    ScheduleRegisters(r.steps);
    forall n | Registers(all, n) ensures HasRow(all, Cleanup(n)) { CleanupIsThere(r.steps, n); }
  }

  lemma CleanupIsThere(rows: seq<StepRow>, n: string)
    requires rows != [] && Registers(rows, n)
    ensures HasRow(Schedule(rows), Cleanup(n))
  {
    var names, all := Registered(rows), Schedule(rows);
    RegistersIff(rows, n);
    HasRowIff(all, Cleanup(n));
    ScheduleRows(rows);
    if HasRow(rows, Cleanup(n)) {
      assert all[Find(rows, Cleanup(n))].name == Cleanup(n);
    } else {
      FreshCovers(rows, names, MaxOrdinal(rows) + 1, n);
      var row :| row in Fresh(rows, names, MaxOrdinal(rows) + 1) && row.name == Cleanup(n);
      assert row in all;
      var k :| 0 <= k < |all| && all[k] == row;
    }
  }

  /** What may happen while a run unwinds: anything but an operator's skip and a retry that names a
      planned step. Crashes, boots, failures, cancels, retries of compensations and further aborts may. */
  predicate Unwinds(e: Event) {
    !e.Skip? && !(e.Retry? && e.target.Some? && e.target.value.Work?)
  }

  /** `r'` went on from `r` without registering anything, and what it took back is registered. */
  ghost predicate OnlyTakesBack(r: Run, r': Run) {
    && (forall n :: Registers(r'.steps, n) <==> Registers(r.steps, n))
    && r'.world <= r.world
    && (forall x :: x in r.world && !Registers(r.steps, x.undoneBy) ==> x in r'.world)
  }

  lemma RowsTakeBack(r: Run, r': Run)
    requires |r.steps| == |r'.steps| && forall i :: 0 <= i < |r.steps| ==> r'.steps[i].cleanups == r.steps[i].cleanups
    requires r'.world <= r.world && forall x :: x in r.world && x !in r'.world ==> Registers(r.steps, x.undoneBy)
    ensures OnlyTakesBack(r, r')
  {
    forall n ensures Registers(r'.steps, n) <==> Registers(r.steps, n) {
      if i :| 0 <= i < |r.steps| && n in r.steps[i].cleanups { assert n in r'.steps[i].cleanups; }
      if i :| 0 <= i < |r'.steps| && n in r'.steps[i].cleanups { assert n in r.steps[i].cleanups; }
    }
  }

  /** Rows that keep their names, and move as an unwinding may, keep it. */
  lemma RowsKeepUnwinding(r: Run, r': Run)
    requires Unwinding(r) && OnlyTakesBack(r, r') && |r.steps| == |r'.steps|
    requires forall i :: 0 <= i < |r.steps| ==>
      var row, row' := r.steps[i], r'.steps[i];
      && row'.name == row.name
      && (row.name.Work? ==> row'.status == row.status)
      && (row.name.Cleanup? ==> !row'.status.Skipped?)
      && (row.name.Cleanup? && row'.status.Ok? ==> row.status.Ok? || Of(r'.world, row.name.undoes) == {})
    ensures Unwinding(r')
  {
    forall n | Registers(r'.steps, n) ensures HasRow(r'.steps, Cleanup(n)) {
      var k := Find(r.steps, Cleanup(n));
      HasRowIff(r'.steps, Cleanup(n));
      assert r'.steps[k].name == Cleanup(n);
    }
    forall i, x | 0 <= i < |r'.steps| && x in r'.world && r'.steps[i].name == Cleanup(x.undoneBy) ensures !r'.steps[i].status.Ok? {
      assert x in Of(r'.world, x.undoneBy);
    }
  }

  lemma AdvanceUnwinds(r: Run, stopping: bool, hasImpl: bool)
    requires RunOk(r) && Unwinding(r) && r.exec.Walking?
    ensures var r' := Advanced(r, stopping, hasImpl); Unwinding(r') && OnlyTakesBack(r, r')
  {
    RowsTakeBack(r, Advanced(r, stopping, hasImpl));
    RowsKeepUnwinding(r, Advanced(r, stopping, hasImpl));
  }

  lemma BodyUnwinds(r: Run, e: Event)
    requires RunOk(r) && Backed(r.steps) && Unwinding(r) && IsBody(e)
    ensures Unwinding(Step(r, e)) && OnlyTakesBack(r, Step(r, e))
  {
    hide StatusFits, WellPlanned, NamesDiffer, Ascends;
    if Inside(r) {
      assert r.steps[r.exec.at].name.Cleanup?;
      assert Registers(r.steps, r.steps[r.exec.at].name.undoes);
    }
    RowsTakeBack(r, Step(r, e));
    RowsKeepUnwinding(r, Step(r, e));
  }

  /** A retry while a run unwinds starts from a compensation row unless it names a planned one. */
  lemma RetryTargetsCleanup(r: Run, target: Option<StepName>)
    requires Unwinding(r) && Unwinds(Retry(target)) && RetryTarget(r, target).Some?
    ensures r.steps[RetryTarget(r, target).value].name.Cleanup?
  {
  }

  lemma RetryUnwinds(r: Run, target: Option<StepName>)
    requires RunOk(r) && Unwinding(r) && Unwinds(Retry(target))
    ensures Unwinding(Step(r, Retry(target))) && OnlyTakesBack(r, Step(r, Retry(target)))
  {
    hide Registers, HasRow, RetryTarget;
    var t, r' := RetryTarget(r, target), Step(r, Retry(target));
    if r' != r {
      RetryTargetsCleanup(r, target);
      assert r'.steps == ResetFrom(r.steps, r.steps[t.value].ordinal);
      RowsTakeBack(r, r');
      RowsKeepUnwinding(r, r');
    }
  }

  lemma StepUnwinds(r: Run, e: Event)
    requires RunOk(r) && Backed(r.steps) && Unwinding(r) && Unwinds(e)
    ensures Unwinding(Step(r, e)) && OnlyTakesBack(r, Step(r, e))
  {
    if e.Advance? {
      if r.exec.Walking? { AdvanceUnwinds(r, e.stopping, e.hasImpl); }
    } else if IsBody(e) {
      BodyUnwinds(r, e);
    } else if e.Retry? {
      RetryUnwinds(r, e.target);
    } else if e.ScheduleCleanups? {
      if Step(r, e) != r {
        ScheduledStep(r, e.typed);
        AbortStartsUnwinding(r, e.typed);
      }
    } else if e.Settle? {
      SettleUnwinds(r);
    } else {
      OtherUnwinds(r, e);
    }
  }

  lemma SettleUnwinds(r: Run)
    requires RunOk(r) && Backed(r.steps) && Unwinding(r)
    ensures Unwinding(Step(r, Settle)) && OnlyTakesBack(r, Step(r, Settle))
  {
    hide Registers, Registered;
    forall i | 0 <= i < |r.steps| && r.steps[i].name.Cleanup? ensures Registered(r.steps) != [] {
      RegistersIff(r.steps, r.steps[i].name.undoes);
    }
    RowsTakeBack(r, Step(r, Settle));
    RowsKeepUnwinding(r, Step(r, Settle));
  }

  predicate IsOther(e: Event) { !e.Advance? && !IsBody(e) && !IsRecovery(e) }

  /** The rest of the events leave the rows alone, but for those a boot puts back to pending. */
  lemma OtherSteps(r: Run, e: Event)
    requires IsOther(e)
    ensures Step(r, e).world == r.world && |Step(r, e).steps| == |r.steps|
    ensures forall i :: 0 <= i < |r.steps| ==>
      var row, row' := r.steps[i], Step(r, e).steps[i]; row' == row || (row.status.Running? && row' == row.(status := Pending))
  {
  }

  lemma OtherUnwinds(r: Run, e: Event)
    requires Unwinding(r) && IsOther(e)
    ensures Unwinding(Step(r, e)) && OnlyTakesBack(r, Step(r, e))
  {
    hide Step, Registers;
    OtherSteps(r, e);
    RowsTakeBack(r, Step(r, e));
    RowsKeepUnwinding(r, Step(r, e));
  }

  lemma {:induction false} UnwindingLasts(r: Run, es: seq<Event>)
    requires RunOk(r) && Backed(r.steps) && Unwinding(r) && forall e :: e in es ==> Unwinds(e)
    ensures RunOk(After(r, es)) && Backed(After(r, es).steps) && Unwinding(After(r, es)) && OnlyTakesBack(r, After(r, es))
    decreases |es|
  {
    if es != [] {
      var last := |es| - 1;
      UnwindingLasts(r, es[..last]);
      StepUnwinds(After(r, es[..last]), es[last]);
      StepKeepsOk(After(r, es[..last]), es[last]);
      StepKeepsBacked(After(r, es[..last]), es[last]);
    }
  }

  /** The end a cleanup run reaches: cancelled, with every row ok or skipped. */
  ghost predicate CleanupEnded(r: Run) { r.status.Cancelled? && AllFinished(r.steps) }

  /** A cleanup run that ended has taken back exactly what was registered: of the effects that stood when
      the abort was made, those remain whose compensation's name no step had persisted. It holds for every
      abort, the first and any later one, whatever crashes, boots, failures and retries of compensations
      lie between. */
  lemma UndoIsExact(plan: Plan, before: seq<Event>, typed: bool, unwinding: seq<Event>)
    requires WellPlanned(plan) && forall e :: e in unwinding ==> Unwinds(e)
    requires Step(After(NewRun(plan), before), ScheduleCleanups(typed)) != After(NewRun(plan), before)
    requires CleanupEnded(After(Step(After(NewRun(plan), before), ScheduleCleanups(typed)), unwinding))
    ensures var r, end := After(NewRun(plan), before), After(Step(After(NewRun(plan), before), ScheduleCleanups(typed)), unwinding);
      forall x :: x in end.world <==> x in r.world && x.undoneBy !in Registered(r.steps)
  {
    NewRunOk(plan);
    AfterKeepsOk(NewRun(plan), before);
    AlwaysBacked(plan, before);
    UndoFrom(After(NewRun(plan), before), typed, unwinding);
  }

  lemma UndoFrom(r: Run, typed: bool, unwinding: seq<Event>)
    requires RunOk(r) && Backed(r.steps) && forall e :: e in unwinding ==> Unwinds(e)
    requires Step(r, ScheduleCleanups(typed)) != r
    requires CleanupEnded(After(Step(r, ScheduleCleanups(typed)), unwinding))
    ensures forall x :: x in After(Step(r, ScheduleCleanups(typed)), unwinding).world <==> x in r.world && x.undoneBy !in Registered(r.steps)
  {
    var a := Step(r, ScheduleCleanups(typed));
    AbortStartsUnwinding(r, typed);
    StepKeepsOk(r, ScheduleCleanups(typed));
    StepKeepsBacked(r, ScheduleCleanups(typed));
    assert a.world == r.world;
    EndIsExact(a, unwinding);
    forall x ensures Registers(a.steps, x) <==> x in Registered(r.steps) { RegistersIff(r.steps, x); }
  }

  lemma EndIsExact(a: Run, unwinding: seq<Event>)
    requires RunOk(a) && Backed(a.steps) && Unwinding(a) && forall e :: e in unwinding ==> Unwinds(e)
    requires CleanupEnded(After(a, unwinding))
    ensures forall x :: x in After(a, unwinding).world <==> x in a.world && !Registers(a.steps, x.undoneBy)
  {
    UnwindingLasts(a, unwinding);
    var end := After(a, unwinding);
    forall x ensures x in end.world <==> x in a.world && !Registers(a.steps, x.undoneBy) {
      if Registers(a.steps, x.undoneBy) { EndLeavesNothing(end, x.undoneBy); }
    }
  }

  lemma EndLeavesNothing(r: Run, n: string)
    requires Unwinding(r) && AllFinished(r.steps) && Registers(r.steps, n)
    ensures forall x :: x in r.world ==> x.undoneBy != n
  {
    var k := Find(r.steps, Cleanup(n));
    assert HasRow(r.steps, Cleanup(n)) && r.steps[k].name == Cleanup(n) && r.steps[k].status.Ok?;
  }

  /** The README's promise: if every step persists its compensation's name before it mutates anything, no
      effect of the run is left when the cleanup run has ended. */
  lemma UndoIsComplete(plan: Plan, before: seq<Event>, typed: bool, unwinding: seq<Event>)
    requires WellPlanned(plan) && Disciplined(NewRun(plan), before) && forall e :: e in unwinding ==> Unwinds(e)
    requires Step(After(NewRun(plan), before), ScheduleCleanups(typed)) != After(NewRun(plan), before)
    requires CleanupEnded(After(Step(After(NewRun(plan), before), ScheduleCleanups(typed)), unwinding))
    ensures After(Step(After(NewRun(plan), before), ScheduleCleanups(typed)), unwinding).world == {}
  {
    var r := After(NewRun(plan), before);
    UndoIsExact(plan, before, typed, unwinding);
    DisciplineAccounts(plan, before);
    forall x | x in r.world ensures x.undoneBy in Registered(r.steps) { RegistersIff(r.steps, x.undoneBy); }
  }

  /** An abort that finds nothing registered has nothing to take back. */
  lemma NothingToUndo(plan: Plan, es: seq<Event>)
    requires Disciplined(NewRun(plan), es) && Registered(After(NewRun(plan), es).steps) == []
    ensures After(NewRun(plan), es).world == {}
  {
    var r := After(NewRun(plan), es);
    DisciplineAccounts(plan, es);
    forall x | x in r.world ensures false {
      RegistersIff(r.steps, x.undoneBy);
    }
  }
}
