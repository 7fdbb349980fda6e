/** The order in which an abort's compensations run, first and again, and the two aborts that go wrong: the one
    whose names clash, and the one that meets a new name behind an old one. */
module Aborts {
  import opened Common
  import opened Locks
  import opened Steps
  import opened Runs
  import opened Undo
  import opened Retries

  // ---------------------------------------------------------------- a repeated abort with new names

  /** The rows of the names stand in the order of the names. */
  ghost predicate StandInOrder(rows: seq<StepRow>, names: seq<string>) {
    forall i, j :: 0 <= i < j < |names| && names[i] != names[j] ==> Find(rows, Cleanup(names[i])) < Find(rows, Cleanup(names[j]))
  }

  /** As far as they have rows. */
  ghost predicate OldInOrder(rows: seq<StepRow>, names: seq<string>) {
    forall i, j :: 0 <= i < j < |names| && names[i] != names[j] && HasRow(rows, Cleanup(names[i])) && HasRow(rows, Cleanup(names[j]))
      ==> Find(rows, Cleanup(names[i])) < Find(rows, Cleanup(names[j]))
  }

  /** No name without a row stands before one that has a row. */
  ghost predicate NewComeLast(rows: seq<StepRow>, names: seq<string>) {
    forall i, j :: 0 <= i < j < |names| && HasRow(rows, Cleanup(names[j])) ==> HasRow(rows, Cleanup(names[i]))
  }

  lemma {:induction false} FindIs(rows: seq<StepRow>, name: StepName, k: nat)
    requires k < |rows| && rows[k].name == name && forall i :: 0 <= i < k ==> rows[i].name != name
    ensures Find(rows, name) == k
  {
    if k > 0 { FindIs(rows[1..], name, k - 1); }
  }

  /** Where a name is found in the rows that were there and the new ones behind them. */
  lemma FindInBoth(stood: seq<StepRow>, added: seq<StepRow>, name: StepName)
    ensures Find(stood + added, name) == if HasRow(stood, name) then Find(stood, name) else |stood| + Find(added, name)
  {
    hide Find;
    var all, k := stood + added, if HasRow(stood, name) then Find(stood, name) else |stood| + Find(added, name);
    forall i | 0 <= i < k ensures all[i].name != name {
      if i < |stood| { FoundIsFirst(stood, name, i); } else { FoundIsFirst(added, name, i - |stood|); }
    }
    if k < |all| { FindIs(all, name, k); }
  }

  lemma FindSame(rows: seq<StepRow>, rows': seq<StepRow>, name: StepName)
    requires |rows'| == |rows| && forall i :: 0 <= i < |rows| ==> rows'[i].name == rows[i].name
    ensures Find(rows', name) == Find(rows, name)
  {
    hide Find;
    var k := Find(rows, name);
    forall i | 0 <= i < k ensures rows[i].name != name { FoundIsFirst(rows, name, i); }
    if k < |rows| { FindIs(rows', name, k); }
  }

  /** New names get their rows in the order of the names. */
  lemma {:induction false} FreshInOrder(rows: seq<StepRow>, names: seq<string>, next: nat, i: nat, j: nat)
    requires i < j < |names| && names[i] != names[j] && !HasRow(rows, Cleanup(names[i])) && !HasRow(rows, Cleanup(names[j]))
    requires !Clash(rows, names)
    ensures Find(Fresh(rows, names, next), Cleanup(names[i])) < Find(Fresh(rows, names, next), Cleanup(names[j]))
    decreases names
  {
    var all, rest := Fresh(rows, names, next), Fresh(rows, names[1..], next + 1);
    if i == 0 {
      assert all == [CleanupRow(next, names[0])] + rest;
    } else {
      ClashTail(rows, names);
      FreshInOrder(rows, names[1..], next + 1, i - 1, j - 1);
      var front := if HasRow(rows, Cleanup(names[0])) then [] else [CleanupRow(next, names[0])];
      assert all == front + rest;
      NotTheFirst(rows, names, i);
      NotTheFirst(rows, names, j);
      FindInBoth(front, rest, Cleanup(names[i]));
      FindInBoth(front, rest, Cleanup(names[j]));
    }
  }

  /** Without a clash, a later name without a row is another one than the first. */
  lemma NotTheFirst(rows: seq<StepRow>, names: seq<string>, i: nat)
    requires 0 < i < |names| && !HasRow(rows, Cleanup(names[i])) && !Clash(rows, names)
    ensures names[i] != names[0]
  {
  }

  /** Every place of a scheduled name: the row it had, or a new one behind all that were there. */
  lemma ScheduledPlace(rows: seq<StepRow>, names: seq<string>, n: string)
    requires rows != [] && n in names
    ensures var all, added := ScheduleNames(rows, names), Fresh(rows, names, MaxOrdinal(rows) + 1);
      Find(all, Cleanup(n)) == if HasRow(rows, Cleanup(n)) then Find(rows, Cleanup(n)) else |rows| + Find(added, Cleanup(n))
    ensures HasRow(ScheduleNames(rows, names), Cleanup(n))
  {
    hide Find, Fresh, MaxOrdinal;
    var stood, added := Rearm(rows, names), Fresh(rows, names, MaxOrdinal(rows) + 1);
    FindInBoth(stood, added, Cleanup(n));
    FindSame(rows, stood, Cleanup(n));
    if !HasRow(rows, Cleanup(n)) {
      FreshCovers(rows, names, MaxOrdinal(rows) + 1, n);
      var row :| row in added && row.name == Cleanup(n);
      var k :| 0 <= k < |added| && added[k] == row;
      assert Find(added, Cleanup(n)) < |added|;
    }
  }

  lemma PairOrder(rows: seq<StepRow>, names: seq<string>, i: nat, j: nat)
    requires rows != [] && !Clash(rows, names) && i < j < |names| && names[i] != names[j]
    ensures var all := ScheduleNames(rows, names);
      Find(all, Cleanup(names[i])) < Find(all, Cleanup(names[j])) <==>
        (HasRow(rows, Cleanup(names[j])) ==> HasRow(rows, Cleanup(names[i])) && Find(rows, Cleanup(names[i])) < Find(rows, Cleanup(names[j])))
  {
    hide Find, Fresh, ScheduleNames, Clash;
    ScheduledPlace(rows, names, names[i]);
    ScheduledPlace(rows, names, names[j]);
    if !HasRow(rows, Cleanup(names[i])) && !HasRow(rows, Cleanup(names[j])) { FreshInOrder(rows, names, MaxOrdinal(rows) + 1, i, j); }
  }

  /** After an abort, first or repeated, the compensations stand as the registered names do, a later step's
      before an earlier step's, exactly when the rows that were there do and no name that is new comes before
      one that has its row already. */
  lemma AbortOrderIff(rows: seq<StepRow>, names: seq<string>)
    requires rows != [] && !Clash(rows, names)
    ensures StandInOrder(ScheduleNames(rows, names), names) <==> OldInOrder(rows, names) && NewComeLast(rows, names)
  {
    hide Find, HasRow, ScheduleNames, Clash;
    var all := ScheduleNames(rows, names);
    forall i, j | 0 <= i < j < |names| && names[i] != names[j]
      ensures Find(all, Cleanup(names[i])) < Find(all, Cleanup(names[j])) <==>
        (HasRow(rows, Cleanup(names[j])) ==> HasRow(rows, Cleanup(names[i])) && Find(rows, Cleanup(names[i])) < Find(rows, Cleanup(names[j])))
    {
      PairOrder(rows, names, i, j);
    }
    if StandInOrder(all, names) {
      forall i, j | 0 <= i < j < |names| && HasRow(rows, Cleanup(names[j])) ensures HasRow(rows, Cleanup(names[i])) {
        assert names[i] != names[j] ==> Find(all, Cleanup(names[i])) < Find(all, Cleanup(names[j]));
      }
    }
  }

  // ---------------------------------------------------------------- one name of two steps

  ghost predicate TwoRegister(rows: seq<StepRow>, name: string) {
    exists i, j :: 0 <= i < j < |rows| && name in rows[i].cleanups && name in rows[j].cleanups
  }

  lemma TwoClash(rows: seq<StepRow>, name: string)
    requires TwoRegister(rows, name) && !HasRow(rows, Cleanup(name))
    ensures Clash(rows, Registered(rows))
  {
    hide HasRow;
    var i, j :| 0 <= i < j < |rows| && name in rows[i].cleanups && name in rows[j].cleanups;
    var p :| 0 <= p < |rows[i].cleanups| && rows[i].cleanups[p] == name;
    var q :| 0 <= q < |rows[j].cleanups| && rows[j].cleanups[q] == name;
    RegisteredOrder(rows, i, p, j, q);
    RegisteredOrder(rows, j, q, i, p);
    assert PlaceOf(rows, j, q) < PlaceOf(rows, i, p);
  }

  /** A run that can never be cleaned up: two steps registered the name, and no row takes it back. */
  ghost predicate Stranded(r: Run, name: string) { TwoRegister(r.steps, name) && !HasRow(r.steps, Cleanup(name)) }

  lemma StrandedIsRefused(r: Run, name: string, typed: bool)
    requires Stranded(r, name)
    ensures Step(r, ScheduleCleanups(typed)) == r
  {
    TwoClash(r.steps, name);
  }

  lemma NoRowStays(rows: seq<StepRow>, rows': seq<StepRow>, name: StepName)
    requires SameRows(rows, rows') && !HasRow(rows, name)
    ensures !HasRow(rows', name)
  {
    SameNamesSameRows(rows, rows', name);
  }

  lemma StrandedStays(r: Run, e: Event, name: string)
    requires Stranded(r, name)
    ensures Stranded(Step(r, e), name)
    ensures forall x :: x in r.world && x.undoneBy == name ==> x in Step(r, e).world
  {
    hide Step, HasRow;
    if e.ScheduleCleanups? {
      StrandedIsRefused(r, name, e.typed);
    } else {
      StepRows(r, e);
      NoRowStays(r.steps, Step(r, e).steps, Cleanup(name));
      EventKeepsNames(r, e);
      var i, j :| 0 <= i < j < |r.steps| && name in r.steps[i].cleanups && name in r.steps[j].cleanups;
      assert name in Step(r, e).steps[i].cleanups && name in Step(r, e).steps[j].cleanups;
      EffectStays(r, e, name);
    }
  }

  /** Only a row of that name takes an effect of that name back. */
  lemma EffectStays(r: Run, e: Event, name: string)
    requires !HasRow(r.steps, Cleanup(name))
    ensures forall x :: x in r.world && x.undoneBy == name ==> x in Step(r, e).world
  {
    HasRowIff(r.steps, Cleanup(name));
  }

  /** Two steps that registered one name before a first abort: from there on every abort with cleanup is
      refused, in every history, and what they changed under that name is never taken back. */
  lemma {:induction false} TwoNamesStrand(r: Run, name: string, es: seq<Event>, typed: bool)
    requires Stranded(r, name)
    ensures var r' := After(r, es);
      && Stranded(r', name) && Step(r', ScheduleCleanups(typed)) == r'
      && forall x :: x in r.world && x.undoneBy == name ==> x in r'.world
    decreases |es|
  {
    hide Step;
    if es != [] {
      var last := |es| - 1;
      TwoNamesStrand(r, name, es[..last], typed);
      StrandedStays(After(r, es[..last]), es[last], name);
    }
    StrandedIsRefused(After(r, es), name, typed);
  }

  /** No step has a name twice. */
  ghost predicate NamedOnce(rows: seq<StepRow>) { forall i :: 0 <= i < |rows| ==> Distinct(rows[i].cleanups) }

  lemma RegisterNamesOnce(r: Run, name: string)
    requires NamedOnce(r.steps)
    ensures NamedOnce(Step(r, Register(name)).steps)
  {
  }

  lemma StepNamesOnce(r: Run, e: Event)
    requires NamedOnce(r.steps)
    ensures NamedOnce(Step(r, e).steps)
  {
    hide Step, Schedule, Registered, Distinct;
    if e.Register? {
      RegisterNamesOnce(r, e.name);
    } else if !e.ScheduleCleanups? {
      StepNames(r, e);
    } else if Step(r, e) != r {
      ScheduledStep(r, e.typed);
      ScheduleRows(r.steps);
      NoneIsDistinct();
    }
  }

  lemma NoneIsDistinct()
    ensures Distinct<string>([])
  {
  }

  lemma {:induction false} AlwaysNamedOnce(plan: Plan, es: seq<Event>)
    ensures NamedOnce(After(NewRun(plan), es).steps)
  {
    hide Step;
    if es != [] {
      AlwaysNamedOnce(plan, es[..|es| - 1]);
      StepNamesOnce(After(NewRun(plan), es[..|es| - 1]), es[|es| - 1]);
    }
  }

  /** What clashes is registered by two steps. */
  lemma ClashIsTwo(rows: seq<StepRow>) returns (name: string)
    requires NamedOnce(rows) && Clash(rows, Registered(rows))
    ensures TwoRegister(rows, name) && !HasRow(rows, Cleanup(name))
  {
    hide HasRow;
    var names := Registered(rows);
    var a, b :| 0 <= a < b < |names| && names[a] == names[b] && !HasRow(rows, Cleanup(names[a]));
    name := names[a];
    RegisteredIsComplete(rows, a);
    RegisteredIsComplete(rows, b);
    var i, p :| 0 <= i < |rows| && 0 <= p < |rows[i].cleanups| && PlaceOf(rows, i, p) == a;
    var j, q :| 0 <= j < |rows| && 0 <= q < |rows[j].cleanups| && PlaceOf(rows, j, q) == b;
    RegisteredOrder(rows, i, p, j, q);
    RegisteredOrder(rows, j, q, i, p);
    assert rows[i].cleanups[p] == name && rows[j].cleanups[q] == name;
    assert Distinct(rows[i].cleanups);
    assert j < i;
  }

  /** An abort that has something to clean up is refused exactly when two steps registered a name that no row
      takes back: so it is for every run a history leads to. */
  lemma AbortRefusedIff(plan: Plan, es: seq<Event>, typed: bool)
    requires var r := After(NewRun(plan), es); Abortable(r) && r.exec.Idle? && Registered(r.steps) != []
    ensures var r := After(NewRun(plan), es); Step(r, ScheduleCleanups(typed)) == r <==> exists n :: Stranded(r, n)
  {
    var r := After(NewRun(plan), es);
    AlwaysNamedOnce(plan, es);
    hide After, Registered, HasRow;
    assert Registered([]) == [] by { NothingRegistered([]); }
    if Clash(r.steps, Registered(r.steps)) {
      var n := ClashIsTwo(r.steps);
      assert Stranded(r, n);
      StrandedIsRefused(r, n, typed);
    } else {
      ScheduledRun(r, Registered(r.steps), typed);
      if n :| Stranded(r, n) { TwoClash(r.steps, n); }
    }
  }

  // ---------------------------------------------------------------- histories

  lemma Then(r: Run, es: seq<Event>, e: Event)
    requires Disciplined(r, es) && RegisteredFirst(After(r, es), e)
    ensures After(r, es + [e]) == Step(After(r, es), e) && Disciplined(r, es + [e])
    ensures Steady(es) && !e.Crash? && !(e.Advance? && e.stopping) ==> Steady(es + [e])
  {
    AfterThen(r, es, e);
    assert (es + [e])[..|es|] == es;
  }

  /** The rows when the first step ended ok, having registered `name`, and the second is running. */
  function SecondRuns(plan: Plan, name: string): seq<StepRow>
    requires |plan.steps| >= 2
  {
    NewRows(plan)[0 := NewRows(plan)[0].(status := Ok, cleanups := [name])][1 := NewRows(plan)[1].(status := StepStatus.Running)]
  }

  /** A new run in its first step. */
  lemma ToTheFirst(plan: Plan) returns (es: seq<Event>)
    requires WellPlanned(plan) && plan.steps != []
    ensures Disciplined(NewRun(plan), es) && Steady(es)
    ensures After(NewRun(plan), es) == NewRun(plan).(
      status := RunStatus.Running, approvedAt := 1, started := true, log := [0], secrets := true, exec := InStep(0, false),
      steps := NewRows(plan)[0 := NewRows(plan)[0].(status := StepStatus.Running)])
  {
    var r0 := NewRun(plan);
    es := [];
    Then(r0, es, Approve(1));
    es := es + [Approve(1)];
    Then(r0, es, Start);
    es := es + [Start];
    Then(r0, es, Begin);
    es := es + [Begin];
    FirstUnfinishedIs(r0.steps, 0);
    Then(r0, es, Advance(false, true));
    es := es + [Advance(false, true)];
  }

  /** The first step registers, changes something and ends ok; the second begins. */
  lemma ToTheSecond(plan: Plan, x: Effect) returns (es: seq<Event>)
    requires WellPlanned(plan) && |plan.steps| >= 2
    ensures Disciplined(NewRun(plan), es) && Steady(es)
    ensures After(NewRun(plan), es) == NewRun(plan).(
      status := RunStatus.Running, approvedAt := 1, started := true, log := [0, 1], secrets := true, exec := InStep(1, false),
      steps := SecondRuns(plan, x.undoneBy), world := {x})
  {
    var r0, rows := NewRun(plan), NewRows(plan);
    es := ToTheFirst(plan);
    FirstEnds(After(r0, es), x);
    hide Step, After, Disciplined;
    Then(r0, es, Register(x.undoneBy));
    es := es + [Register(x.undoneBy)];
    Then(r0, es, Mutate(x));
    es := es + [Mutate(x)];
    Then(r0, es, StepOk);
    es := es + [StepOk];
    var done := rows[0 := rows[0].(status := Ok, cleanups := [x.undoneBy])];
    assert After(r0, es).steps == done;
    FirstUnfinishedIs(done, 1);
    Retries.StartsNext(After(r0, es), 1);
    Then(r0, es, Advance(false, true));
    es := es + [Advance(false, true)];
    assert done[1] == rows[1] && rows[1].ordinal == 1;
  }

  lemma RegistersIt(r: Run, name: string)
    requires Inside(r) && r.steps[r.exec.at].name.Work? && r.steps[r.exec.at].cleanups == []
    ensures Step(r, Register(name)) == r.(steps := r.steps[r.exec.at := r.steps[r.exec.at].(cleanups := [name])])
  {
    assert [] + [name] == [name];
  }

  lemma ChangesIt(r: Run, x: Effect)
    requires Inside(r) && r.steps[r.exec.at].name.Work?
    ensures Step(r, Mutate(x)) == r.(world := r.world + {x})
  {
  }

  lemma EndsOk(r: Run)
    requires Inside(r) && r.steps[r.exec.at].name.Work?
    ensures Step(r, StepOk) == r.(steps := r.steps[r.exec.at := r.steps[r.exec.at].(status := Ok)], exec := Walking(r.exec.aborted))
  {
  }

  lemma FailsIt(r: Run)
    requires Inside(r)
    ensures Step(r, StepFail(false)) == StepFailed(r, false)
  {
  }

  lemma FirstEnds(r: Run, x: Effect)
    requires r.exec == InStep(0, false) && r.steps != [] && r.steps[0].status.Running? && r.steps[0].name.Work? && r.steps[0].cleanups == []
    ensures var r1 := Step(r, Register(x.undoneBy));
      && RegisteredFirst(r1, Mutate(x))
      && Step(Step(r1, Mutate(x)), StepOk) == r.(
           exec := Walking(false), world := r.world + {x},
           steps := r.steps[0 := r.steps[0].(status := Ok, cleanups := [x.undoneBy])])
  {
    hide Step;
    var registered := r.steps[0].(cleanups := [x.undoneBy]);
    var r1 := r.(steps := r.steps[0 := registered]);
    RegistersIt(r, x.undoneBy);
    ChangesIt(r1, x);
    EndsOk(r1.(world := r.world + {x}));
    assert r.steps[0 := registered][0 := registered.(status := Ok)] == r.steps[0 := registered.(status := Ok)];
  }

  /** For every plan of two steps or more there is such a run, with every step registering first: the second
      step registers the first one's name and fails. No abort with cleanup ever goes through, and what the
      two changed stands for good. */
  lemma SharedNameStrands(plan: Plan, x: Effect, y: Effect) returns (es: seq<Event>)
    requires WellPlanned(plan) && |plan.steps| >= 2 && x.undoneBy == y.undoneBy
    ensures Disciplined(NewRun(plan), es) && Steady(es)
    ensures var r := After(NewRun(plan), es); Abortable(r) && !IsCleanupRun(r.steps) && r.world == {x, y} && Stranded(r, x.undoneBy)
  {
    var r0, rows := NewRun(plan), SecondRuns(plan, x.undoneBy);
    es := ToTheSecond(plan, x);
    var inSecond := After(r0, es);
    RegistersIt(inSecond, y.undoneBy);
    ChangesIt(Step(inSecond, Register(y.undoneBy)), y);
    FailsIt(Step(Step(inSecond, Register(y.undoneBy)), Mutate(y)));
    hide Step, After, Disciplined;
    Then(r0, es, Register(y.undoneBy));
    es := es + [Register(y.undoneBy)];
    Then(r0, es, Mutate(y));
    es := es + [Mutate(y)];
    Then(r0, es, StepFail(false));
    es := es + [StepFail(false)];
    var r := After(r0, es);
    assert r.steps[0].cleanups == [x.undoneBy] && r.steps[1].cleanups == [y.undoneBy];
    assert {x} + {y} == {x, y};
  }

  /** The second step fails, with nothing of its own registered. */
  lemma SecondFails(plan: Plan, x: Effect) returns (es: seq<Event>)
    requires WellPlanned(plan) && |plan.steps| >= 2
    ensures Disciplined(NewRun(plan), es) && Steady(es)
    ensures var r := After(NewRun(plan), es);
      && RunOk(r) && Abortable(r) && r.exec.Idle? && r.started
      && r.steps == SecondRuns(plan, x.undoneBy)[1 := NewRows(plan)[1].(status := StepStatus.Failed)]
  {
    var r0 := NewRun(plan);
    es := ToTheSecond(plan, x);
    Then(r0, es, StepFail(false));
    es := es + [StepFail(false)];
    NewRunOk(plan);
    AfterKeepsOk(r0, es);
  }

  /** What a walk to the end leaves as it was. */
  lemma {:induction false} WalkStays(r: Run, es: seq<Event>)
    requires RunOk(r) && forall e :: e in es ==> e.Advance? || e.StepOk?
    ensures var r' := After(r, es);
      && RunOk(r') && r'.started == r.started && r'.deleted == r.deleted && SameNames(r.steps, r'.steps)
      && forall i :: 0 <= i < |r.steps| ==>
        r'.steps[i].name == r.steps[i].name && (r.steps[i].status.Skipped? ==> r'.steps[i].status.Skipped?)
    decreases |es|
  {
    hide RunOk, Step;
    if es != [] {
      var last := |es| - 1;
      WalkStays(r, es[..last]);
      StepKeepsOk(After(r, es[..last]), es[last]);
      WalkStep(After(r, es[..last]), es[last]);
    }
  }

  lemma WalkStep(r: Run, e: Event)
    requires RunOk(r) && (e.Advance? || e.StepOk?)
    ensures var r' := Step(r, e);
      && r'.started == r.started && r'.deleted == r.deleted && SameNames(r.steps, r'.steps)
      && forall i :: 0 <= i < |r.steps| ==>
        r'.steps[i].name == r.steps[i].name && (r.steps[i].status.Skipped? ==> r'.steps[i].status.Skipped?)
  {
    StepNames(r, e);
  }

  /** The planned rows, of which the first registered `first` and the second what `second` says, and behind
      them one row, which takes `first` back. */
  ghost predicate OneUndone(rows: seq<StepRow>, first: string, second: seq<string>) {
    && |rows| >= 3 && rows[0].cleanups == [first] && rows[1].cleanups == second
    && (forall i :: 2 <= i < |rows| ==> rows[i].cleanups == [])
    && (forall i :: 0 <= i < |rows| - 1 ==> rows[i].name.Work?)
    && rows[|rows| - 1].name == Cleanup(first)
  }

  lemma OneUndoneStays(rows: seq<StepRow>, rows': seq<StepRow>, first: string, second: seq<string>)
    requires OneUndone(rows, first, second) && SameNames(rows, rows') && forall i :: 0 <= i < |rows| ==> rows'[i].name == rows[i].name
    ensures OneUndone(rows', first, second)
  {
  }

  /** The first abort of the run whose second step failed. */
  lemma FirstAbort(plan: Plan, r: Run, first: string)
    requires RunOk(r) && Abortable(r) && r.exec.Idle? && r.plan == plan && |plan.steps| >= 2
    requires r.steps == SecondRuns(plan, first)[1 := NewRows(plan)[1].(status := StepStatus.Failed)]
    ensures var a := Step(r, ScheduleCleanups(false));
      && a != r && RunOk(a) && Backed(a.steps) && Unwinding(a) && IsCleanupRun(a.steps) && a.exec == Fired
      && a.started == r.started && a.deleted == r.deleted && OneUndone(a.steps, first, []) && a.steps[1].status.Skipped?
  {
    hide Step, ScheduleNames, Unwinding, RunOk, Registers, Clash, IsCleanupRun, OneUndone;
    NoCleanups(r.steps);
    var names := Registered(r.steps);
    RegisteredTwo(r.steps);
    assert names == [first];
    ScheduledRun(r, names, false);
    AbortStartsUnwinding(r, false);
    StepKeepsOk(r, ScheduleCleanups(false));
    StepKeepsBacked(r, ScheduleCleanups(false));
    ScheduledRows(r.steps, first);
  }

  lemma NoCleanups(rows: seq<StepRow>)
    requires forall i :: 0 <= i < |rows| ==> rows[i].name.Work?
    ensures !IsCleanupRun(rows) && Backed(rows)
    ensures forall n: string :: !Clash(rows, [n])
  {
  }

  lemma ScheduledRows(rows: seq<StepRow>, first: string)
    requires |rows| >= 2 && Registered(rows) == [first] && rows[0].cleanups == [first] && (forall i :: 1 <= i < |rows| ==> rows[i].cleanups == [])
    requires (forall i :: 0 <= i < |rows| ==> rows[i].name.Work?) && rows[1].status.Failed?
    ensures OneUndone(Schedule(rows), first, []) && Schedule(rows)[1].status.Skipped? && IsCleanupRun(Schedule(rows))
  {
    FirstAbortOrder(rows, [first]);
    ScheduleRows(rows);
    assert Schedule(rows)[|rows|].name.Cleanup?;
  }

  /** The abort of a run in which the second step has since registered a name of its own. */
  lemma SecondAbort(r: Run, first: string, second: string)
    requires RunOk(r) && Abortable(r) && r.exec.Idle? && OneUndone(r.steps, first, [second]) && first != second
    ensures var a := Step(r, ScheduleCleanups(false));
      && a != r && !StandInOrder(a.steps, Registered(r.steps))
      && Registered(r.steps) == [second, first] && FirstUnfinished(a.steps) == Find(a.steps, Cleanup(first)) < Find(a.steps, Cleanup(second))
  {
    hide Step, RunOk, ScheduleNames, Find, HasRow, Fresh, MaxOrdinal, IsFresh;
    var names, last := Registered(r.steps), |r.steps| - 1;
    RegisteredTwo(r.steps);
    assert [second] + [first] == [second, first];
    HasRowIff(r.steps, Cleanup(first));
    HasRowIff(r.steps, Cleanup(second));
    FindIs(r.steps, Cleanup(first), last);
    ScheduledRun(r, names, false);
    ScheduledPlace(r.steps, names, first);
    ScheduledPlace(r.steps, names, second);
    ScheduleRows(r.steps);
    FirstUnfinishedIs(ScheduleNames(r.steps, names), last);
    assert names[0] == second && names[1] == first;
  }

  /** The run whose second step failed is aborted, and its cleanup runs to the end. */
  lemma CleanedUp(plan: Plan, x: Effect) returns (es: seq<Event>)
    requires WellPlanned(plan) && |plan.steps| >= 2
    ensures Disciplined(NewRun(plan), es) && Steady(es)
    ensures var r := After(NewRun(plan), es);
      && RunOk(r) && Backed(r.steps) && Unwinding(r) && CleanupEnded(r) && Recoverable(r) && r.plan == plan
      && OneUndone(r.steps, x.undoneBy, []) && r.steps[1].status.Skipped?
  {
    hide Step, RunOk, Unwinding, Disciplined, OneUndone, SecondRuns, IsCleanupRun;
    var r0 := NewRun(plan);
    es := SecondFails(plan, x);
    AfterPlan(r0, es);
    var r := After(r0, es);
    FirstAbort(plan, r, x.undoneBy);
    Then(r0, es, ScheduleCleanups(false));
    es := es + [ScheduleCleanups(false)];
    var a := After(r0, es);
    BeginsToWalk(a);
    Then(r0, es, Begin);
    es := es + [Begin];
    var b := After(r0, es);
    StepKeepsOk(a, Begin);
    var walk := RunsOut(b, {});
    WalkEnds(a, b, walk, x.undoneBy);
    DisciplinedBoth(r0, es, walk);
    assert Steady(walk);
    AfterBoth(r0, es, walk);
    es := es + walk;
    AfterPlan(r0, es);
  }

  lemma WalkEnds(a: Run, b: Run, walk: seq<Event>, first: string)
    requires RunOk(a) && Backed(a.steps) && Unwinding(a) && !a.deleted && OneUndone(a.steps, first, []) && a.steps[1].status.Skipped?
    requires a.exec.Fired? && b == Step(a, Begin) && b.steps == a.steps && b.started && !b.deleted
    requires (forall e :: e in walk ==> e.Advance? || e.StepOk?) && CleanupEnded(After(b, walk))
    ensures var r := After(b, walk);
      && RunOk(r) && Backed(r.steps) && Unwinding(r) && Recoverable(r) && OneUndone(r.steps, first, []) && r.steps[1].status.Skipped?
  {
    hide Step, RunOk, Unwinding, OneUndone, Backed;
    StepKeepsOk(a, Begin);
    WalkStays(b, walk);
    UnwindingLasts(a, [Begin] + walk);
    AfterFirst(a, Begin, walk);
    OneUndoneStays(b.steps, After(b, walk).steps, first, []);
  }

  /** The second step, retried by name, registers a name of its own and fails again. */
  lemma SecondAgain(r: Run, first: string, second: string) returns (es: seq<Event>)
    requires RunOk(r) && Unwinding(r) && Recoverable(r) && |r.plan.steps| >= 2
    requires OneUndone(r.steps, first, []) && r.steps[1].status.Skipped?
    ensures Disciplined(r, es) && Steady(es)
    ensures var q := After(r, es); RunOk(q) && Abortable(q) && q.exec.Idle? && OneUndone(q.steps, first, [second])
  {
    hide Step, RunOk, Unwinding, Disciplined;
    var target := Some(Work(r.plan.steps[1]));
    SecondIsTarget(r);
    WalksAgain(r, target);
    es := [];
    Then(r, es, Retry(target));
    es := es + [Retry(target)];
    Then(r, es, Begin);
    es := es + [Begin];
    Then(r, es, Advance(false, true));
    es := es + [Advance(false, true)];
    var q := After(r, es);
    SameCheckpoints(r, target);
    OneUndoneStays(r.steps, q.steps, first, []);
    FailsAgain(q, first, second);
    Then(r, es, Register(second));
    es := es + [Register(second)];
    Then(r, es, StepFail(false));
    es := es + [StepFail(false)];
  }

  lemma SecondIsTarget(r: Run)
    requires RunOk(r) && |r.plan.steps| >= 2 && r.steps[1].status.Skipped?
    ensures RetryTarget(r, Some(Work(r.plan.steps[1]))) == Some(1) && r.steps[1].name.Work?
  {
    assert r.steps[0].name != r.steps[1].name;
    FindIs(r.steps, Work(r.plan.steps[1]), 1);
  }

  lemma SameCheckpoints(r: Run, target: Option<StepName>)
    ensures SameNames(r.steps, Step(Step(Step(r, Retry(target)), Begin), Advance(false, true)).steps)
  {
    hide Step;
    StepNames(r, Retry(target));
    StepNames(Step(r, Retry(target)), Begin);
    StepNames(Step(Step(r, Retry(target)), Begin), Advance(false, true));
  }

  lemma FailsAgain(q: Run, first: string, second: string)
    requires RunOk(q) && q.exec == InStep(1, false) && OneUndone(q.steps, first, [])
    ensures var q' := Step(Step(q, Register(second)), StepFail(false));
      RunOk(q') && q'.status.Failed? && Abortable(q') && q'.exec.Idle? && OneUndone(q'.steps, first, [second])
  {
    StepKeepsOk(q, Register(second));
    StepKeepsOk(Step(q, Register(second)), StepFail(false));
    RegistersIt(q, second);
  }

  /** An abort made again after the second step registered a name of its own: for every plan of two steps or
      more there is a history, every step registering first, in which the abort goes through and the first
      step's compensation is the next to run, before the second step's. */
  lemma LaterStepUndoneLast(plan: Plan, x: Effect, second: string) returns (es: seq<Event>)
    requires WellPlanned(plan) && |plan.steps| >= 2 && x.undoneBy != second
    ensures Disciplined(NewRun(plan), es) && Steady(es)
    ensures var r := After(NewRun(plan), es);
      && Registered(r.steps) == [second, x.undoneBy]
      && var a := Step(r, ScheduleCleanups(false));
        && a != r && !StandInOrder(a.steps, Registered(r.steps))
        && FirstUnfinished(a.steps) == Find(a.steps, Cleanup(x.undoneBy)) < Find(a.steps, Cleanup(second))
  {
    hide Step, RunOk, Unwinding, Disciplined, OneUndone, Registered, After, StandInOrder, Backed;
    var r0 := NewRun(plan);
    es := CleanedUp(plan, x);
    var again := SecondAgain(After(r0, es), x.undoneBy, second);
    SecondAbort(After(After(r0, es), again), x.undoneBy, second);
    DisciplinedBoth(r0, es, again);
    AfterBoth(r0, es, again);
    es := es + again;
  }
}
