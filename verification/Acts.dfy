/** What one more act adds to a history, spelled out for each kind of act: the step between the class that
    rewrites rows and the histories the theorems are about. */
module Acts {
  import opened Locks
  import opened Queue
  import opened Steps
  import opened Runs
  import opened System
  import opened LockSafety
  import WholeSystem

  lemma Grow(h: seq<Act>, a: Act)
    ensures Play(INIT, h + [a]) == Apply(Play(INIT, h), a)
  {
    assert (h + [a])[..|h|] == h;
  }

  /** An act that is nothing to any run, and leaves the process alone. */
  lemma QuietAct(s: Sys, a: Act, locks: seq<Taken>)
    requires a.Acquire? || a.Release?
    requires LocksAfter(s, a) == locks
    ensures Apply(s, a) == s.(locks := locks)
  {
    hide Step;
    forall x | x in s.runs ensures Step(s.runs[x], EventFor(s, a, x)) == s.runs[x] {
      assert EventFor(s, a, x) == Quiet;
      QuietKeeps(s.runs[x]);
    }
  }

  lemma EventAct(h: seq<Act>, s: Sys, id: RunId, e: Event, r: Run)
    requires s == Play(INIT, h) && s.up && id in s.runs && Admitted(s, id, e) && !e.Delete?
    requires r == Step(s.runs[id], e)
    ensures Play(INIT, h + [On(id, e)]) == s.(runs := s.runs[id := r])
  {
    hide Step;
    Grow(h, On(id, e));
    forall x | x in s.runs ensures Step(s.runs[x], EventFor(s, On(id, e), x)) == s.runs[id := r][x] {
      if x != id {
        assert EventFor(s, On(id, e), x) == Quiet;
        QuietKeeps(s.runs[x]);
      }
    }
  }

  /** A soft-deleted run: its row and its steps stay. */
  function Removed(r: Run): Run { r.(deleted := true, secrets := false) }

  lemma RemovedRun(s: Sys, id: RunId, x: RunId)
    requires s.up && id in s.runs && x in s.runs && Deletable(s.runs[id].status) && !s.runs[id].deleted
    ensures Step(s.runs[x], EventFor(s, On(id, Delete), x)) == if x == id then Removed(s.runs[x]) else s.runs[x]
  {
    assert EventFor(s, On(id, Delete), x) == if x == id then Delete else Quiet;
  }

  lemma RemovedRuns(s: Sys, id: RunId)
    requires s.up && id in s.runs && Deletable(s.runs[id].status) && !s.runs[id].deleted
    ensures Apply(s, On(id, Delete)).runs == s.runs[id := Removed(s.runs[id])]
  {
    forall x | x in s.runs ensures Apply(s, On(id, Delete)).runs[x] == s.runs[id := Removed(s.runs[id])][x] {
      RemovedRun(s, id, x);
    }
  }

  lemma DeleteAct(h: seq<Act>, s: Sys, id: RunId)
    requires s == Play(INIT, h) && s.up && id in s.runs && Deletable(s.runs[id].status) && !s.runs[id].deleted
    ensures Play(INIT, h + [On(id, Delete)]) == s.(runs := s.runs[id := Removed(s.runs[id])], locks := Without(s.locks, id))
  {
    Grow(h, On(id, Delete));
    RemovedRuns(s, id);
  }

  lemma ProposeAct(h: seq<Act>, s: Sys, id: RunId, plan: Plan)
    requires s == Play(INIT, h) && s.up && id !in s.runs && WellPlanned(plan)
    ensures Play(INIT, h + [Propose(id, plan)]) == s.(runs := s.runs[id := NewRun(plan)])
  {
    hide Step;
    Grow(h, Propose(id, plan));
    forall x | x in s.runs ensures Step(s.runs[x], EventFor(s, Propose(id, plan), x)) == s.runs[x] {
      assert EventFor(s, Propose(id, plan), x) == Quiet;
      QuietKeeps(s.runs[x]);
    }
  }

  lemma AcquireAct(h: seq<Act>, s: Sys, id: RunId)
    requires s == Play(INIT, h) && s.up && id in s.runs && Abortable(s.runs[id])
    ensures Play(INIT, h + [Acquire(id)]) == s.(locks := Acquired(s.locks, PlanClaims(s.runs[id].plan), id))
  {
    Grow(h, Acquire(id));
    QuietAct(s, Acquire(id), Acquired(s.locks, PlanClaims(s.runs[id].plan), id));
  }

  /** After an acquire that met no conflict the run holds every claim of its plan. */
  lemma AcquiredAll(locks: seq<Taken>, plan: Plan, id: RunId)
    requires LockConflicts(Without(locks, id), Missing(locks, PlanClaims(plan), id)) == []
    ensures HoldsAll(Acquired(locks, PlanClaims(plan), id), plan, id)
  {
    var held := Held(Missing(locks, PlanClaims(plan), id), id);
    forall c | c in PlanClaims(plan) ensures Taken(c, id) in locks + held {
      if Taken(c, id) !in locks { assert Taken(c, id) in held; }
    }
  }

  lemma ReleaseAct(h: seq<Act>, s: Sys, id: RunId)
    requires s == Play(INIT, h) && s.up && id in s.runs && Over(s.runs[id])
    ensures Play(INIT, h + [Release(id)]) == s.(locks := Without(s.locks, id))
  {
    Grow(h, Release(id));
    QuietAct(s, Release(id), Without(s.locks, id));
  }

  /** `runs` is `s.runs` with the runs of `ids` approved and fired. */
  ghost predicate AllFired(s: Sys, ids: set<RunId>, runs: map<RunId, Run>) {
    runs.Keys == s.runs.Keys
    && forall x :: x in s.runs ==> runs[x] == if x in ids then s.runs[x].(status := RunStatus.Approved, exec := Fired) else s.runs[x]
  }

  lemma StartedRun(s: Sys, id: RunId)
    requires id in s.runs && id in Ids(Started(s.locks, Line(s)))
    ensures Step(s.runs[id], Start) == s.runs[id].(status := RunStatus.Approved, exec := Fired)
  {
    var w :| w in Started(s.locks, Line(s)) && w.id == id;
    StartedInLine(s, w);
  }

  lemma ApprovedRuns(s: Sys, ids: set<RunId>, runs: map<RunId, Run>)
    requires s.up && !s.stopping && ids == Ids(Started(s.locks, Line(s))) && AllFired(s, ids, runs)
    ensures Apply(s, Dispatch).runs == runs
  {
    hide Step;
    forall x | x in s.runs ensures Apply(s, Dispatch).runs[x] == runs[x] {
      WholeSystem.DispatchedRun(s, x);
      if x in ids { StartedRun(s, x); }
    }
  }

  lemma DispatchAct(h: seq<Act>, s: Sys, started: seq<Waiting>, runs: map<RunId, Run>)
    requires s == Play(INIT, h) && s.up && !s.stopping && started == Started(s.locks, Line(s)) && AllFired(s, Ids(started), runs)
    ensures Play(INIT, h + [Dispatch]) == s.(runs := runs, locks := s.locks + Inserted(s.locks, Line(s)))
  {
    hide Step;
    Grow(h, Dispatch);
    ApprovedRuns(s, Ids(started), runs);
  }

  lemma StoppingDispatch(h: seq<Act>, s: Sys)
    requires s == Play(INIT, h) && s.stopping
    ensures Play(INIT, h + [Dispatch]) == s
  {
    hide Step;
    Grow(h, Dispatch);
    forall x | x in s.runs ensures Step(s.runs[x], EventFor(s, Dispatch, x)) == s.runs[x] {
      assert EventFor(s, Dispatch, x) == Quiet;
      QuietKeeps(s.runs[x]);
    }
  }

  lemma ShutdownAct(h: seq<Act>, s: Sys)
    requires s == Play(INIT, h) && s.up
    ensures Play(INIT, h + [Shutdown]) == s.(stopping := true)
  {
    hide Step;
    Grow(h, Shutdown);
    forall x | x in s.runs ensures Step(s.runs[x], EventFor(s, Shutdown, x)) == s.runs[x] {
      assert EventFor(s, Shutdown, x) == Quiet;
      QuietKeeps(s.runs[x]);
    }
  }

  predicate Active(r: Run) { r.status.Approved? || r.status.Running? }

  /** What the end of the process leaves of a run, and what the next boot makes of one. */
  function CutOff(r: Run): Run { r.(exec := if Active(r) then Cut else Idle, secrets := false) }

  function Resumed(r: Run): Run { if Active(r) then r.(steps := Normalize(r.steps), exec := Fired) else r }

  lemma CutOffRun(r: Run)
    ensures Step(r, Crash) == CutOff(r)
  {
  }

  lemma DeadRun(s: Sys, id: RunId)
    requires id in s.runs
    ensures Apply(s, Die).runs[id] == CutOff(s.runs[id])
  {
    hide Step;
    CutOffRun(s.runs[id]);
  }

  lemma DieAct(h: seq<Act>, s: Sys, runs: map<RunId, Run>)
    requires s == Play(INIT, h) && runs.Keys == s.runs.Keys && forall x :: x in s.runs ==> runs[x] == CutOff(s.runs[x])
    ensures Play(INIT, h + [Die]) == Sys(runs, s.locks, false, false)
  {
    hide Step;
    Grow(h, Die);
    forall x | x in s.runs ensures Apply(s, Die).runs[x] == runs[x] { DeadRun(s, x); }
  }

  lemma AlwaysAttended(h: seq<Act>, s: Sys, id: RunId)
    requires s == Play(INIT, h) && id in s.runs
    ensures Attended(s.up, s.stopping, s.runs[id])
  {
    AlwaysOk(h);
  }

  lemma ResumedRun(r: Run)
    requires r.exec.Cut? <==> Active(r)
    ensures Step(r, Resume) == Resumed(r)
  {
  }

  lemma BootEvent(s: Sys, id: RunId)
    requires !s.up && id in s.runs
    ensures EventFor(s, Boot, id) == Resume
  {
  }

  lemma BootedRun(s: Sys, id: RunId)
    requires !s.up && id in s.runs && Attended(s.up, s.stopping, s.runs[id])
    ensures Apply(s, Boot).runs[id] == Resumed(s.runs[id])
  {
    hide Step;
    ResumedRun(s.runs[id]);
    BootEvent(s, id);
  }

  lemma BootAct(h: seq<Act>, s: Sys, runs: map<RunId, Run>)
    requires s == Play(INIT, h) && !s.up && runs.Keys == s.runs.Keys && forall x :: x in s.runs ==> runs[x] == Resumed(s.runs[x])
    ensures Play(INIT, h + [Boot]) == Sys(runs, Reconciled(s.runs, s.locks), true, s.stopping)
  {
    hide Step;
    Grow(h, Boot);
    forall x | x in s.runs ensures Apply(s, Boot).runs[x] == runs[x] {
      AlwaysAttended(h, s, x);
      BootedRun(s, x);
    }
  }

  // ---------------------------------------------------------------- what every reachable state offers a method

  lemma RowsInOrder(h: seq<Act>, s: Sys, id: RunId)
    requires s == Play(INIT, h) && id in s.runs
    ensures RunOk(s.runs[id])
  {
    AlwaysOk(h);
  }

  /** A run that is not under way is not being executed. */
  lemma Settled(h: seq<Act>, s: Sys, id: RunId)
    requires s == Play(INIT, h) && id in s.runs
    ensures !Active(s.runs[id]) ==> s.runs[id].exec.Idle?
  {
    RowsInOrder(h, s, id);
  }

  /** While the process is up nothing is cut, and a queued run is not a deleted one. */
  lemma InFlight(h: seq<Act>, s: Sys, id: RunId)
    requires s == Play(INIT, h) && s.up && id in s.runs
    ensures !s.runs[id].exec.Cut?
    ensures s.runs[id].status.Queued? ==> !s.runs[id].deleted
  {
    AlwaysAttended(h, s, id);
    RowsInOrder(h, s, id);
  }

  // ---------------------------------------------------------------- what the recoveries write

  lemma SettledRun(r: Run)
    requires Abortable(r) && r.exec.Idle? && Registered(r.steps) == []
    ensures Step(r, Settle) == r.(steps := Abandon(r.steps), status := Cancelled) && Over(Step(r, Settle))
  {
    FirstUnfinishedIs(Abandon(r.steps), |r.steps|);
  }
}
