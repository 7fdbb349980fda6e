/** One run of the executor: its persisted rows, its part of the process memory, and what its steps have
    changed outside. An event is one database transaction, one step of a step body, or one thing the
    outside does (a crash, a boot, a request); an event that is not possible changes nothing. */
module Runs {
  import opened Common
  import opened Locks
  import opened Steps

  datatype RunStatus = Planned | Queued | Approved | Running | Succeeded | Failed | Cancelled

  /** The run transition table, asserted by approve and discard alone. */
  predicate CanRun(from: RunStatus, to: RunStatus) {
    match from
    case Planned => to.Queued? || to.Cancelled?
    case Queued => to.Approved? || to.Cancelled?
    case Approved => to.Running?
    case Running => to.Succeeded? || to.Failed? || to.Cancelled?
    case Failed => to.Running?
    case Succeeded => false
    case Cancelled => to.Running?
  }

  /** What the process memory holds of a run's execution. `Fired`: about to begin. `Walking`: between two
      steps. `InStep`: inside the body of row `at`. `Cut`: the process that executed it is gone, so the
      memory holds nothing and the rows stand as it left them. */
  datatype Exec = Idle | Fired | Walking(aborted: bool) | InStep(at: nat, aborted: bool) | Cut

  /** Something a step changed outside, and the name of the compensation that takes it back. */
  datatype Effect = Effect(undoneBy: string, what: string)

  datatype Run = Run(
    status: RunStatus, plan: Plan, approvedAt: nat, started: bool, deleted: bool,
    steps: seq<StepRow>, log: seq<nat>,  // persisted; `log` is the ordinals of the run log's step-start lines
    secrets: bool, exec: Exec,           // memory
    world: set<Effect>)                  // outside

  const ATTEST := "attest-target"

  /** What the unique (run, name) index and the boot's guards.armed check ask of a plan. */
  ghost predicate WellPlanned(plan: Plan) {
    && Distinct(plan.steps)
    && (plan.mutating ==> plan.steps != [] && plan.steps[0] == ATTEST)
  }

  function NewRows(plan: Plan): (r: seq<StepRow>)
    ensures |r| == |plan.steps|
    ensures forall i :: 0 <= i < |r| ==> r[i] == StepRow(i, Work(plan.steps[i]), Pending, [], None)
  {
    seq(|plan.steps|, i requires 0 <= i < |plan.steps| => StepRow(i, Work(plan.steps[i]), Pending, [], None))
  }

  function NewRun(plan: Plan): Run {
    Run(Planned, plan, 0, false, false, NewRows(plan), [], false, Idle, {})
  }

  // ---------------------------------------------------------------- events

  datatype Event =
    | Quiet
    | Approve(at: nat) | Retype | Discard | Start
    | Begin | FailBegin | Signal | Advance(stopping: bool, hasImpl: bool)
    | Register(name: string) | Save(data: string) | Mutate(effect: Effect) | TakeBack(gone: set<Effect>)
    | StepOk | StepFail(abortError: bool)
    | Retry(target: Option<StepName>) | Skip(step: StepName) | ScheduleCleanups(typed: bool) | Settle
    | Delete | CancelPaused
    | Crash | NormalizeRows | Resume

  predicate Deletable(s: RunStatus) { s.Planned? || s.Failed? || s.Cancelled? || s.Succeeded? }

  /** It failed, or it was cancelled once under way. */
  predicate Recoverable(r: Run) {
    !r.deleted && (r.status.Failed? || (r.status.Cancelled? && r.started))
  }

  predicate Abortable(r: Run) { !r.deleted && (r.status.Failed? || r.status.Cancelled?) }

  predicate Inside(r: Run) {
    r.exec.InStep? && r.exec.at < |r.steps| && r.steps[r.exec.at].status.Running?
  }

  /** The row a retry starts from: the named one if it is not ok or running, else the first failed row,
      or for a cancelled run the first failed or pending one. */
  function RetryTarget(r: Run, target: Option<StepName>): (t: Option<nat>)
    ensures t.Some? ==> t.value < |r.steps|
  {
    if target.Some? then
      var k := Find(r.steps, target.value);
      if k < |r.steps| && (r.steps[k].status.Failed? || r.steps[k].status.Skipped? || r.steps[k].status.Pending?) then Some(k) else None
    else
      FirstResumable(r.steps, r.status.Cancelled?)
  }

  function FirstResumable(rows: seq<StepRow>, pendingToo: bool): (t: Option<nat>)
    ensures t.Some? ==> t.value < |rows| && (rows[t.value].status.Failed? || (pendingToo && rows[t.value].status.Pending?))
    ensures t.None? ==> forall i :: 0 <= i < |rows| ==> !rows[i].status.Failed? && (pendingToo ==> !rows[i].status.Pending?)
  {
    if rows == [] then None
    else if rows[0].status.Failed? || (pendingToo && rows[0].status.Pending?) then Some(0)
    else match FirstResumable(rows[1..], pendingToo)
      case None => None
      case Some(k) => Some(k + 1)
  }

  /** The step a skip is always refused for. */
  predicate IsPrecondition(plan: Plan, step: StepName) { plan.mutating && step == Work(ATTEST) }

  predicate Skippable(r: Run, step: StepName) {
    && Recoverable(r) && HasRow(r.steps, step) && r.steps[Find(r.steps, step)].status.Failed?
    && !IsPrecondition(r.plan, step)
  }

  function Of(world: set<Effect>, name: string): set<Effect> {
    set x | x in world && x.undoneBy == name
  }

  /** The execution ends; a run that stops in the middle keeps its rows, and its typed secrets go. */
  function End(r: Run, status: RunStatus): Run {
    r.(status := status, exec := Idle, secrets := false)
  }

  /** What the walk does between two steps: end the run, obey a cancel, pause for a shutdown, fail on a
      missing implementation, or start the next row that is not finished. */
  function Advanced(r: Run, stopping: bool, hasImpl: bool): Run
    requires r.exec.Walking?
  {
    var k := FirstUnfinished(r.steps);
    if k == |r.steps| then End(r, if IsCleanupRun(r.steps) then Cancelled else Succeeded)
    else if r.exec.aborted then End(r, Cancelled)
    else if stopping then r.(exec := Idle, secrets := false)
    else if r.steps[k].name.Cleanup? && !hasImpl then End(r.(steps := SetStatus(r.steps, k, StepStatus.Failed)), RunStatus.Failed)
    else if CanStep(r.steps[k].status, StepStatus.Running) then
      r.(steps := SetStatus(r.steps, k, StepStatus.Running), exec := InStep(k, false), log := r.log + [r.steps[k].ordinal])
    else End(r, RunStatus.Failed)
  }

  function StepEnded(r: Run): Run
    requires Inside(r)
  {
    var row := r.steps[r.exec.at];
    r.(steps := SetStatus(r.steps, r.exec.at, Ok), exec := Walking(r.exec.aborted),
       world := if row.name.Cleanup? then r.world - Of(r.world, row.name.undoes) else r.world)
  }

  function StepFailed(r: Run, abortError: bool): Run
    requires Inside(r)
  {
    End(r.(steps := SetStatus(r.steps, r.exec.at, StepStatus.Failed)),
      if r.exec.aborted || abortError then Cancelled else RunStatus.Failed)
  }

  function Step(r: Run, e: Event): (r': Run)
    ensures r'.plan == r.plan
  {
    match e
    case Quiet => r
    case Approve(at) => if r.status.Planned? && !r.deleted then r.(status := Queued, approvedAt := at, secrets := true) else r
    case Retype => if r.status.Queued? then r.(secrets := true) else r
    case Discard => if (r.status.Planned? || r.status.Queued?) && !r.deleted then r.(status := Cancelled, secrets := false) else r
    case Start => if r.status.Queued? then r.(status := Approved, exec := Fired) else r
    case Begin => if r.exec.Fired? then r.(status := RunStatus.Running, started := true, exec := Walking(false)) else r
    case FailBegin => if r.exec.Fired? then End(r, RunStatus.Failed) else r
    case Signal =>
      if r.exec.Walking? || r.exec.InStep? then r.(exec := r.exec.(aborted := true)) else r
    case Advance(stopping, hasImpl) => if r.exec.Walking? then Advanced(r, stopping, hasImpl) else r
    case Register(name) =>
      if Inside(r) && r.steps[r.exec.at].name.Work? then
        var row := r.steps[r.exec.at];
        r.(steps := r.steps[r.exec.at := row.(cleanups := AddName(row.cleanups, name))])
      else r
    case Save(data) =>
      if Inside(r) then r.(steps := r.steps[r.exec.at := r.steps[r.exec.at].(data := Some(data))]) else r
    case Mutate(effect) => if Inside(r) && r.steps[r.exec.at].name.Work? then r.(world := r.world + {effect}) else r
    case TakeBack(gone) =>
      if Inside(r) && r.steps[r.exec.at].name.Cleanup? then r.(world := r.world - Of(gone, r.steps[r.exec.at].name.undoes)) else r
    case StepOk => if Inside(r) then StepEnded(r) else r
    case StepFail(abortError) => if Inside(r) then StepFailed(r, abortError) else r
    case Retry(target) =>
      var t := RetryTarget(r, target);
      if Recoverable(r) && r.exec.Idle? && t.Some? then
        r.(steps := ResetFrom(r.steps, r.steps[t.value].ordinal), status := RunStatus.Running, secrets := true, exec := Fired)
      else r
    case Skip(step) =>
      if Skippable(r, step) && r.exec.Idle? then
        r.(steps := SetStatus(r.steps, Find(r.steps, step), Skipped), status := RunStatus.Running, exec := Fired)
      else r
    case ScheduleCleanups(typed) =>
      if Abortable(r) && r.exec.Idle? && r.steps != [] && Registered(r.steps) != [] && !Clashes(r.steps, Registered(r.steps)) then
        r.(steps := Schedule(r.steps), status := RunStatus.Running, exec := Fired, secrets := r.secrets || typed)
      else r
    case Settle =>
      if Abortable(r) && r.exec.Idle? && Registered(r.steps) == [] then r.(steps := Abandon(r.steps), status := Cancelled) else r
    case Delete => if Deletable(r.status) && !r.deleted then r.(deleted := true, secrets := false) else r
    case CancelPaused => if r.status.Running? && r.exec.Idle? then r.(status := Cancelled) else r
    case Crash => r.(exec := if r.status.Approved? || r.status.Running? then Cut else Idle, secrets := false)
    case NormalizeRows => if r.exec.Cut? then r.(steps := Normalize(r.steps)) else r
    case Resume => if r.exec.Cut? then r.(steps := Normalize(r.steps), exec := Fired) else r
  }

  /** Executable form of `Clash`. */
  predicate Clashes(rows: seq<StepRow>, names: seq<string>)
    ensures Clashes(rows, names) <==> Clash(rows, names)
  {
    exists i, j | 0 <= i < |names| && 0 <= j < |names| :: i < j && names[i] == names[j] && !HasRow(rows, Cleanup(names[i]))
  }

  lemma QuietKeeps(r: Run)
    ensures Step(r, Quiet) == r
  {
  }

  lemma RetriedRun(r: Run, target: Option<StepName>)
    requires Recoverable(r) && r.exec.Idle? && RetryTarget(r, target).Some?
    ensures Step(r, Retry(target))
      == r.(steps := ResetFrom(r.steps, r.steps[RetryTarget(r, target).value].ordinal), status := RunStatus.Running, secrets := true, exec := Fired)
  {
  }

  lemma SkippedRun(r: Run, step: StepName)
    requires Skippable(r, step) && r.exec.Idle?
    ensures Step(r, Skip(step)) == r.(steps := SetStatus(r.steps, Find(r.steps, step), Skipped), status := RunStatus.Running, exec := Fired)
  {
  }

  /** A run's history: the events in order. */
  function After(r: Run, es: seq<Event>): Run {
    if es == [] then r else Step(After(r, es[..|es| - 1]), es[|es| - 1])
  }

  lemma AfterThen(r: Run, es: seq<Event>, e: Event)
    ensures After(r, es + [e]) == Step(After(r, es), e)
  {
    assert (es + [e])[..|es|] == es;
  }

  /** Neither the death of the process nor a shutdown. */
  ghost predicate Steady(es: seq<Event>) { forall e :: e in es ==> !e.Crash? && !(e.Advance? && e.stopping) }

  /** One history and then another. */
  lemma {:induction false} AfterBoth(r: Run, a: seq<Event>, b: seq<Event>)
    ensures After(r, a + b) == After(After(r, a), b)
  {
    if b == [] {
      assert a + b == a;
    } else {
      var last := |b| - 1;
      AfterBoth(r, a, b[..last]);
      Assoc(a, b[..last], [b[last]]);
      assert b[..last] + [b[last]] == b;
      AfterThen(r, a + b[..last], b[last]);
    }
  }

  /** A history by its first event. */
  lemma AfterFirst(r: Run, e: Event, es: seq<Event>)
    ensures After(r, [e] + es) == After(Step(r, e), es)
  {
    AfterBoth(r, [e], es);
    assert [e][..0] == [];
    assert After(r, [e]) == Step(r, e);
  }

  lemma {:induction false} AfterPlan(r: Run, es: seq<Event>)
    ensures After(r, es).plan == r.plan
  {
    if es != [] { AfterPlan(r, es[..|es| - 1]); }
  }

  // ---------------------------------------------------------------- what every event keeps

  /** The planned rows stand first, in plan order; compensation rows follow and register nothing. */
  ghost predicate Shaped(plan: Plan, rows: seq<StepRow>) {
    && WellPlanned(plan)
    && |plan.steps| <= |rows|
    && (forall i :: 0 <= i < |plan.steps| ==> rows[i].name == Work(plan.steps[i]) && rows[i].ordinal == i)
    && (forall i :: |plan.steps| <= i < |rows| ==> rows[i].name.Cleanup? && rows[i].cleanups == [])
    && NamesDiffer(rows) && Ascends(rows)
  }

  ghost predicate NoneRunning(rows: seq<StepRow>) { forall i :: 0 <= i < |rows| ==> !rows[i].status.Running? }

  ghost predicate OneRunningAtMost(rows: seq<StepRow>) {
    forall i, j :: 0 <= i < j < |rows| ==> !(rows[i].status.Running? && rows[j].status.Running?)
  }

  /** The memory of the execution agrees with the rows. */
  ghost predicate Consistent(r: Run) {
    match r.exec
    case Idle => !r.status.Approved? && NoneRunning(r.steps)
    case Fired => (r.status.Approved? || r.status.Running?) && NoneRunning(r.steps)
    case Walking(_) => r.status.Running? && r.started && NoneRunning(r.steps)
    case InStep(at, _) =>
      && r.status.Running? && r.started && at < |r.steps| && r.steps[at].status.Running?
      && (forall i :: 0 <= i < at ==> Finished(r.steps[i]))
      && (forall i :: 0 <= i < |r.steps| && i != at ==> !r.steps[i].status.Running?)
    case Cut => (r.status.Approved? || r.status.Running?) && OneRunningAtMost(r.steps)
  }

  ghost predicate StatusFits(r: Run) {
    && (r.deleted ==> Deletable(r.status))
    && (r.status.Planned? || r.status.Queued? || r.status.Approved? ==> r.steps == NewRows(r.plan) && !r.started && r.log == [] && r.world == {})
    && (r.status.Succeeded? ==> AllFinished(r.steps) && !IsCleanupRun(r.steps))
  }

  ghost predicate RunOk(r: Run) { Shaped(r.plan, r.steps) && Consistent(r) && StatusFits(r) }

  lemma NewRunOk(plan: Plan)
    requires WellPlanned(plan)
    ensures RunOk(NewRun(plan))
  {
  }

  /** The rows keep their names and places; only what a step body and a status change write differs. */
  ghost predicate SameRows(a: seq<StepRow>, b: seq<StepRow>) {
    && |a| == |b|
    && forall i :: 0 <= i < |a| ==> a[i].name == b[i].name && a[i].ordinal == b[i].ordinal && (a[i].name.Work? || a[i].cleanups == b[i].cleanups)
  }

  lemma ShapeSame(plan: Plan, rows: seq<StepRow>, rows': seq<StepRow>)
    requires Shaped(plan, rows) && SameRows(rows, rows')
    ensures Shaped(plan, rows')
  {
    forall i, j | 0 <= i < j < |rows| ensures rows'[i].name != rows'[j].name && rows'[i].ordinal < rows'[j].ordinal {
      assert rows[i].name != rows[j].name && rows[i].ordinal < rows[j].ordinal;
    }
  }

  lemma ScheduleKeepsShape(plan: Plan, rows: seq<StepRow>, names: seq<string>)
    requires Shaped(plan, rows) && rows != [] && !Clash(rows, names)
    ensures Shaped(plan, ScheduleNames(rows, names))
  {
    var next := MaxOrdinal(rows) + 1;
    FreshAre(rows, names, next);
    FreshAscends(rows, names, next);
    FreshDistinct(rows, names, next);
    ShapeAppends(plan, rows, names, Rearm(rows, names), Fresh(rows, names, next), next);
  }

  /** Appending compensation rows with new names and larger ordinals keeps the shape. */
  lemma ShapeAppends(plan: Plan, rows: seq<StepRow>, names: seq<string>, stood: seq<StepRow>, added: seq<StepRow>, next: nat)
    requires Shaped(plan, rows) && SameRows(rows, stood)
    requires forall i :: 0 <= i < |rows| ==> rows[i].ordinal < next
    requires forall row :: row in added ==> IsFresh(rows, names, next, row)
    requires Ascends(added) && NamesDiffer(added)
    ensures Shaped(plan, stood + added)
  {
    ShapeSame(plan, rows, stood);
    var all, n := stood + added, |stood|;
    forall i | n <= i < |all| ensures IsFresh(rows, names, next, all[i]) { assert all[i] == added[i - n]; }
    forall i, j | 0 <= i < j < |all| ensures all[i].name != all[j].name && all[i].ordinal < all[j].ordinal {
      if i < n <= j {
        assert !HasRow(rows, all[j].name) && all[i].name == rows[i].name;
      }
    }
  }

  lemma ScheduleStopsAll(rows: seq<StepRow>, names: seq<string>)
    requires rows != []
    ensures NoneRunning(ScheduleNames(rows, names))
  {
    var stood, added := Rearm(rows, names), Fresh(rows, names, MaxOrdinal(rows) + 1);
    FreshAre(rows, names, MaxOrdinal(rows) + 1);
    var all := stood + added;
    forall i | 0 <= i < |all| ensures !all[i].status.Running? {
      if i >= |stood| { assert all[i] in added; }
    }
  }

  lemma AdvancedRows(r: Run, stopping: bool, hasImpl: bool)
    requires r.exec.Walking?
    ensures SameRows(r.steps, Advanced(r, stopping, hasImpl).steps)
  {
    var k := FirstUnfinished(r.steps);
    if k < |r.steps| {
      assert forall s :: SameRows(r.steps, r.steps[k := r.steps[k].(status := s)]);
    }
  }

  /** Events other than a scheduled abort leave every row where it is. */
  lemma StepRows(r: Run, e: Event)
    requires !e.ScheduleCleanups?
    ensures SameRows(r.steps, Step(r, e).steps)
  {
    match e
    case Advance(stopping, hasImpl) => if r.exec.Walking? { AdvancedRows(r, stopping, hasImpl); }
    case _ =>
  }

  /** Only a registration and a scheduled abort touch the registered names. */
  ghost predicate SameNames(a: seq<StepRow>, b: seq<StepRow>) {
    |a| == |b| && forall i :: 0 <= i < |a| ==> b[i].cleanups == a[i].cleanups
  }

  lemma AdvancedNames(r: Run, stopping: bool, hasImpl: bool)
    requires r.exec.Walking?
    ensures SameNames(r.steps, Advanced(r, stopping, hasImpl).steps)
  {
  }

  lemma BodyNames(r: Run, e: Event)
    requires IsBody(e) && !e.Register?
    ensures SameNames(r.steps, Step(r, e).steps)
  {
  }

  lemma RecoveryNames(r: Run, e: Event)
    requires IsRecovery(e) && !e.ScheduleCleanups?
    ensures SameNames(r.steps, Step(r, e).steps)
  {
  }

  lemma StepNames(r: Run, e: Event)
    requires !e.Register? && !e.ScheduleCleanups?
    ensures SameNames(r.steps, Step(r, e).steps)
  {
    if e.Advance? {
      if r.exec.Walking? { AdvancedNames(r, e.stopping, e.hasImpl); }
    } else if IsBody(e) {
      BodyNames(r, e);
    } else if IsRecovery(e) {
      RecoveryNames(r, e);
    }
  }

  lemma ScheduledRun(r: Run, names: seq<string>, typed: bool)
    requires Abortable(r) && r.exec.Idle? && r.steps != [] && names == Registered(r.steps) && names != [] && !Clash(r.steps, names)
    ensures Step(r, ScheduleCleanups(typed))
      == r.(steps := ScheduleNames(r.steps, names), status := RunStatus.Running, exec := Fired, secrets := r.secrets || typed)
  {
  }

  /** What a scheduled abort that goes through writes. */
  lemma ScheduledStep(r: Run, typed: bool)
    requires Step(r, ScheduleCleanups(typed)) != r
    ensures r.steps != [] && Step(r, ScheduleCleanups(typed)).steps == Schedule(r.steps)
    ensures Step(r, ScheduleCleanups(typed)).world == r.world
  {
  }

  lemma StepKeepsShape(r: Run, e: Event)
    requires Shaped(r.plan, r.steps)
    ensures Shaped(r.plan, Step(r, e).steps)
  {
    if e.ScheduleCleanups? {
      if Step(r, e) != r { ScheduleKeepsShape(r.plan, r.steps, Registered(r.steps)); }
    } else {
      StepRows(r, e);
      ShapeSame(r.plan, r.steps, Step(r, e).steps);
    }
  }

  lemma AdvancedKeepsConsistent(r: Run, stopping: bool, hasImpl: bool)
    requires Consistent(r) && r.exec.Walking?
    ensures Consistent(Advanced(r, stopping, hasImpl))
  {
  }

  predicate IsBody(e: Event) {
    e.Register? || e.Save? || e.Mutate? || e.TakeBack? || e.StepOk? || e.StepFail? || e.Signal?
  }

  predicate IsRecovery(e: Event) { e.Retry? || e.Skip? || e.ScheduleCleanups? || e.Settle? }

  lemma BodyKeepsConsistent(r: Run, e: Event)
    requires Consistent(r) && IsBody(e)
    ensures Consistent(Step(r, e))
  {
  }

  lemma RecoveryKeepsConsistent(r: Run, e: Event)
    requires Consistent(r) && Shaped(r.plan, r.steps) && IsRecovery(e)
    ensures Consistent(Step(r, e))
  {
    if e.ScheduleCleanups? && Step(r, e) != r { ScheduleStopsAll(r.steps, Registered(r.steps)); }
  }

  lemma StepKeepsConsistent(r: Run, e: Event)
    requires Consistent(r) && Shaped(r.plan, r.steps)
    ensures Consistent(Step(r, e))
  {
    if e.Advance? {
      if r.exec.Walking? { AdvancedKeepsConsistent(r, e.stopping, e.hasImpl); }
    } else if IsBody(e) {
      BodyKeepsConsistent(r, e);
    } else if IsRecovery(e) {
      RecoveryKeepsConsistent(r, e);
    }
  }

  lemma AdvancedKeepsStatus(r: Run, stopping: bool, hasImpl: bool)
    requires RunOk(r) && r.exec.Walking?
    ensures StatusFits(Advanced(r, stopping, hasImpl))
  {
  }

  lemma BodyKeepsStatus(r: Run, e: Event)
    requires RunOk(r) && IsBody(e)
    ensures StatusFits(Step(r, e))
  {
  }

  lemma StepKeepsStatus(r: Run, e: Event)
    requires RunOk(r)
    ensures StatusFits(Step(r, e))
  {
    if e.Advance? {
      if r.exec.Walking? { AdvancedKeepsStatus(r, e.stopping, e.hasImpl); }
    } else if IsBody(e) {
      BodyKeepsStatus(r, e);
    }
  }

  lemma StepKeepsOk(r: Run, e: Event)
    requires RunOk(r)
    ensures RunOk(Step(r, e))
  {
    StepKeepsShape(r, e);
    StepKeepsConsistent(r, e);
    StepKeepsStatus(r, e);
  }

  lemma {:induction false} AfterKeepsOk(r: Run, es: seq<Event>)
    requires RunOk(r)
    ensures RunOk(After(r, es))
  {
    if es != [] {
      AfterKeepsOk(r, es[..|es| - 1]);
      StepKeepsOk(After(r, es[..|es| - 1]), es[|es| - 1]);
    }
  }
}
