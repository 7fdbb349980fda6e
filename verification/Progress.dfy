/** Crash transparency: in every history of starts, failures, cancels, crashes, boots and retries from any
    step, with no skip and no abort, the run walks its plan once. What its log shows is the planned step
    list, cut short where it stopped, with repeats where a step was run again. */
module Progress {
  import opened Locks
  import opened Steps
  import opened Runs

  /** Neither skipped nor aborted. */
  predicate Plain(e: Event) { !e.Skip? && !e.ScheduleCleanups? && !e.Settle? }

  /** The log begins at `from`, and each entry repeats the one before it or is the next one. */
  ghost predicate Climbs(log: seq<nat>, from: nat) {
    && (log != [] ==> log[0] == from)
    && forall i :: 0 < i < |log| ==> log[i] == log[i - 1] || log[i] == log[i - 1] + 1
  }

  /** The log without its repeats. */
  function Collapse(log: seq<nat>): seq<nat> {
    if log == [] then [] else
      var c := Collapse(log[..|log| - 1]);
      if c != [] && c[|c| - 1] == log[|log| - 1] then c else c + [log[|log| - 1]]
  }

  /** The `n` numbers from `from` on. */
  function Count(from: nat, n: nat): (r: seq<nat>)
    ensures |r| == n && forall i :: 0 <= i < n ==> r[i] == from + i
  {
    seq(n, i => from + i)
  }

  lemma {:induction false} CollapseClimb(log: seq<nat>, from: nat)
    requires Climbs(log, from) && log != []
    ensures from <= log[|log| - 1] && Collapse(log) == Count(from, log[|log| - 1] + 1 - from)
  {
    if |log| > 1 {
      var p := log[..|log| - 1];
      CollapseClimb(p, from);
      assert log[|log| - 1] == p[|p| - 1] || log[|log| - 1] == p[|p| - 1] + 1;
    } else {
      assert Collapse(log[..0]) == [];
    }
  }

  lemma {:induction false} ClimbIsSorted(log: seq<nat>, from: nat, i: nat, j: nat)
    requires Climbs(log, from) && i <= j < |log|
    ensures log[i] <= log[j]
  {
    if i < j { ClimbIsSorted(log, from, i, j - 1); }
  }

  /** Behind the rows before `from`, which are finished: ok rows, then at most one row that was started, then
      untouched ones; and the log says so. */
  ghost predicate LinearAt(rows: seq<StepRow>, log: seq<nat>, from: nat, k: nat) {
    && from <= k <= |rows|
    && (forall i :: 0 <= i < from ==> Finished(rows[i]))
    && (forall i :: from <= i < k ==> rows[i].status.Ok?)
    && (forall i :: k < i < |rows| ==> rows[i].status.Pending?)
    && (k < |rows| ==> !Finished(rows[k]))
    && Climbs(log, from)
    && (log == [] ==> k == from)
    && (log != [] ==> log[|log| - 1] < |rows| && k - 1 <= log[|log| - 1] <= k)
    && (k < |rows| && rows[k].status.Running? ==> log != [] && log[|log| - 1] == k)
  }

  ghost predicate Numbered(rows: seq<StepRow>, from: nat) { forall i :: from <= i < |rows| ==> rows[i].ordinal == i }

  /** The run walks its rows from `from` on in order, as its log shows from where it said `before`. */
  ghost predicate Linear(r: Run, from: nat, before: seq<nat>) {
    before <= r.log && Numbered(r.steps, from) && LinearAt(r.steps, r.log[|before|..], from, FirstUnfinished(r.steps))
  }

  lemma LinearHere(r: Run, from: nat, before: seq<nat>, k: nat)
    requires before <= r.log && Numbered(r.steps, from) && LinearAt(r.steps, r.log[|before|..], from, k)
    ensures FirstUnfinished(r.steps) == k && Linear(r, from, before)
  {
    FirstUnfinishedIs(r.steps, k);
  }

  /** Any row from `from` on that is not ok may be sent back to pending, or to failed where it was the one
      started. */
  lemma ResetKeepsLinear(rows: seq<StepRow>, log: seq<nat>, from: nat, k: nat, rows': seq<StepRow>)
    requires LinearAt(rows, log, from, k) && |rows'| == |rows|
    requires forall i :: 0 <= i < |rows| ==>
      || rows'[i].status == rows[i].status
      || (i >= from && !rows[i].status.Ok? && (rows'[i].status.Pending? || (i == k && rows'[i].status.Failed?)))
    ensures LinearAt(rows', log, from, k)
  {
  }

  lemma StartKeepsLinear(rows: seq<StepRow>, log: seq<nat>, from: nat, k: nat, row: StepRow)
    requires LinearAt(rows, log, from, k) && k < |rows| && row.status.Running?
    ensures LinearAt(rows[k := row], log + [k], from, k)
  {
  }

  lemma OkKeepsLinear(rows: seq<StepRow>, log: seq<nat>, from: nat, k: nat, row: StepRow)
    requires LinearAt(rows, log, from, k) && k < |rows| && rows[k].status.Running? && row.status.Ok?
    ensures LinearAt(rows[k := row], log, from, k + 1)
  {
  }

  lemma AdvanceKeepsLinear(r: Run, stopping: bool, hasImpl: bool, from: nat, before: seq<nat>)
    requires RunOk(r) && Linear(r, from, before) && r.exec.Walking?
    ensures Linear(Advanced(r, stopping, hasImpl), from, before)
  {
    var k, r', log := FirstUnfinished(r.steps), Advanced(r, stopping, hasImpl), r.log[|before|..];
    if r'.log != r.log || r'.steps != r.steps {
      TurnWrites(r, stopping, hasImpl);
      hide RunOk, Climbs, Advanced, LinearAt;
      if r'.log != r.log {
        assert r'.log[|before|..] == log + [k];
        StartKeepsLinear(r.steps, log, from, k, r'.steps[k]);
      } else {
        FailsHere(r.steps, log, from, k, r'.steps);
      }
      LinearHere(r', from, before, k);
    }
  }

  /** A turn that writes the rows writes the first unfinished one. */
  lemma TurnWrites(r: Run, stopping: bool, hasImpl: bool)
    requires r.exec.Walking?
    ensures var r', k := Advanced(r, stopping, hasImpl), FirstUnfinished(r.steps);
      && (r'.log != r.log ==> k < |r.steps| && r'.log == r.log + [r.steps[k].ordinal] && r'.steps == r.steps[k := r.steps[k].(status := StepStatus.Running)])
      && (r'.log == r.log && r'.steps != r.steps ==> k < |r.steps| && r'.steps == r.steps[k := r.steps[k].(status := StepStatus.Failed)])
  {
  }

  lemma FailsHere(rows: seq<StepRow>, log: seq<nat>, from: nat, k: nat, rows': seq<StepRow>)
    requires LinearAt(rows, log, from, k) && k < |rows| && rows' == rows[k := rows[k].(status := StepStatus.Failed)]
    ensures LinearAt(rows', log, from, k)
  {
    ResetKeepsLinear(rows, log, from, k, rows');
  }

  lemma StepOkKeepsLinear(r: Run, from: nat, before: seq<nat>)
    requires RunOk(r) && Linear(r, from, before) && Inside(r)
    ensures Linear(StepEnded(r), from, before)
  {
    FirstUnfinishedIs(r.steps, r.exec.at);
    OkKeepsLinear(r.steps, r.log[|before|..], from, r.exec.at, StepEnded(r).steps[r.exec.at]);
    LinearHere(StepEnded(r), from, before, r.exec.at + 1);
  }

  /** What every other event does to the rows: send some back to pending, or fail the one inside. */
  lemma OtherRows(r: Run, e: Event)
    requires Plain(e) && !e.Advance? && !e.StepOk?
    ensures Step(r, e).log == r.log && |Step(r, e).steps| == |r.steps|
    ensures forall i :: 0 <= i < |r.steps| ==>
      var s := Step(r, e).steps[i].status;
      s == r.steps[i].status || (!r.steps[i].status.Ok? && (s.Pending? || (Inside(r) && i == r.exec.at && s.Failed?)))
  {
  }

  /** Nothing happens to the rows before `from`. */
  ghost predicate Leaves(r: Run, e: Event, from: nat) {
    forall i :: 0 <= i < from && i < |r.steps| && i < |Step(r, e).steps| ==> Step(r, e).steps[i].status == r.steps[i].status
  }

  lemma OtherKeepsLinear(r: Run, e: Event, from: nat, before: seq<nat>)
    requires RunOk(r) && Linear(r, from, before) && Plain(e) && Leaves(r, e, from) && !e.Advance? && !e.StepOk?
    ensures Linear(Step(r, e), from, before)
  {
    hide Step, Shaped, StatusFits;
    var k, r' := FirstUnfinished(r.steps), Step(r, e);
    if Inside(r) { FirstUnfinishedIs(r.steps, r.exec.at); }
    OtherRows(r, e);
    StepRows(r, e);
    ResetKeepsLinear(r.steps, r.log[|before|..], from, k, r'.steps);
    LinearHere(r', from, before, k);
  }

  lemma StepKeepsLinear(r: Run, e: Event, from: nat, before: seq<nat>)
    requires RunOk(r) && Linear(r, from, before) && Plain(e) && Leaves(r, e, from)
    ensures Linear(Step(r, e), from, before)
  {
    if e.Advance? {
      if r.exec.Walking? { AdvanceKeepsLinear(r, e.stopping, e.hasImpl, from, before); }
    } else if e.StepOk? {
      if Inside(r) { StepOkKeepsLinear(r, from, before); }
    } else {
      OtherKeepsLinear(r, e, from, before);
    }
  }

  /** What a log that climbs shows: it never goes back, and without repeats it is a stretch of numbers. */
  lemma ClimbShows(rows: seq<StepRow>, log: seq<nat>, from: nat, k: nat)
    requires LinearAt(rows, log, from, k)
    ensures forall i, j :: 0 <= i < j < |log| ==> log[i] <= log[j]
    ensures exists m :: 0 <= m <= |rows| - from && Collapse(log) == Count(from, m)
    ensures k == |rows| ==> Collapse(log) == Count(from, |rows| - from)
  {
    forall i, j | 0 <= i < j < |log| ensures log[i] <= log[j] { ClimbIsSorted(log, from, i, j); }
    if log == [] {
      assert Collapse(log) == Count(from, 0);
    } else {
      CollapseClimb(log, from);
      assert 0 <= log[|log| - 1] + 1 - from <= |rows| - from;
    }
  }

  lemma NewIsLinear(plan: Plan)
    ensures Linear(NewRun(plan), 0, [])
  {
    LinearHere(NewRun(plan), 0, [], 0);
  }

  lemma {:induction false} AlwaysLinear(plan: Plan, es: seq<Event>)
    requires WellPlanned(plan) && forall e :: e in es ==> Plain(e)
    ensures var r := After(NewRun(plan), es); |r.steps| == |plan.steps| && Linear(r, 0, [])
  {
    hide Step, RunOk, Linear;
    NewRunOk(plan);
    if es == [] {
      NewIsLinear(plan);
    } else {
      var last := |es| - 1;
      assert Plain(es[last]);
      AlwaysLinear(plan, es[..last]);
      AfterKeepsOk(NewRun(plan), es[..last]);
      StepRows(After(NewRun(plan), es[..last]), es[last]);
      StepKeepsLinear(After(NewRun(plan), es[..last]), es[last], 0, []);
    }
  }

  /** The starts never go back, and without repeats they are the first steps of the plan in order; a run
      that succeeded has walked all of them. */
  lemma CrashTransparency(plan: Plan, es: seq<Event>)
    requires WellPlanned(plan) && forall e :: e in es ==> Plain(e)
    ensures var log := After(NewRun(plan), es).log;
      && (forall i, j :: 0 <= i < j < |log| ==> log[i] <= log[j])
      && (exists m :: 0 <= m <= |plan.steps| && Collapse(log) == Count(0, m))
    ensures After(NewRun(plan), es).status.Succeeded? ==> Collapse(After(NewRun(plan), es).log) == Count(0, |plan.steps|)
  {
    var r := After(NewRun(plan), es);
    AlwaysLinear(plan, es);
    assert r.log[0..] == r.log;
    ClimbShows(r.steps, r.log, 0, FirstUnfinished(r.steps));
    if r.status.Succeeded? {
      NewRunOk(plan);
      AfterKeepsOk(NewRun(plan), es);
    }
  }

  // ---------------------------------------------------------------- an ok step is never started again

  lemma OkStays(r: Run, e: Event, i: nat)
    requires i < |r.steps| && r.steps[i].status.Ok? && !e.ScheduleCleanups?
    ensures i < |Step(r, e).steps| && Step(r, e).steps[i].status.Ok?
    ensures Step(r, e).steps[i].ordinal == r.steps[i].ordinal
  {
    StepRows(r, e);
    assert !Inside(r) || r.exec.at != i;
  }

  /** Only a second abort takes an ok row back; in every other history an ok step stays ok and its start
      is never logged again. */
  lemma {:induction false} OkNeverRestarts(r: Run, es: seq<Event>, i: nat)
    requires RunOk(r) && i < |r.steps| && r.steps[i].status.Ok? && forall e :: e in es ==> !e.ScheduleCleanups?
    ensures var r' := After(r, es);
      && i < |r'.steps| && r'.steps[i].status.Ok? && r'.steps[i].ordinal == r.steps[i].ordinal
      && r.log <= r'.log && r.steps[i].ordinal !in r'.log[|r.log|..]
  {
    if es != [] {
      var last := |es| - 1;
      OkNeverRestarts(r, es[..last], i);
      AfterKeepsOk(r, es[..last]);
      var q := After(r, es[..last]);
      OkStays(q, es[last], i);
      LogGrows(q, es[last], i);
    }
  }

  /** The log only grows, and never by the ordinal of an ok row. */
  lemma LogGrows(r: Run, e: Event, i: nat)
    requires RunOk(r) && i < |r.steps| && r.steps[i].status.Ok?
    ensures Step(r, e).log == r.log || exists x :: Step(r, e).log == r.log + [x] && x != r.steps[i].ordinal
  {
    if e.Advance? && r.exec.Walking? && Step(r, e).log != r.log {
      var k := FirstUnfinished(r.steps);
      assert Step(r, e).log == r.log + [r.steps[k].ordinal];
      assert k < i ==> r.steps[k].ordinal < r.steps[i].ordinal;
      assert i < k ==> r.steps[i].ordinal < r.steps[k].ordinal;
    }
  }
}
