/** server/executor/executor.ts, step-recovery.ts, queue-dispatch.ts, context.ts and the writing half of
    locks.ts, as the object they are: a class over the run rows, the lock rows and the process memory, whose
    methods rewrite them. `history` is the acts performed so far. Every method is proved to do exactly the
    acts it appends, so whatever is proved of every history holds of every sequence of calls. */
module Execution {
  import opened Common
  import opened Text
  import opened Locks
  import opened Queue
  import opened Steps
  import opened Runs
  import opened System
  import opened Acts
  import opened Dispatching
  import opened Promises
  import LockSafety
  import StepSafety
  import WholeSystem

  // ---------------------------------------------------------------- loops over values

  /** The queued runs, `order by approved_at, id`. */
  method ReadQueue(runs: map<RunId, Run>) returns (ids: seq<RunId>)
    ensures ids == QueueIds(runs)
  {
    var rest := QueuedIds(runs);
    ids := [];
    while rest != {}
      invariant rest <= QueuedIds(runs)
      invariant Orders(runs, QueuedIds(runs) - rest, ids)
      decreases rest
    {
      var x :| x in rest;
      InsertInOrder(runs, ids, x);
      ids := Insert(runs, ids, x);
      rest := rest - {x};
    }
    OrderIsUnique(runs, ids, QueueIds(runs));
  }

  /** The status writes of `startQueuedRuns`, and the fire of each started run. */
  method FireStarted(s: Sys, started: seq<Waiting>) returns (runs: map<RunId, Run>)
    requires forall w :: w in started ==> w.id in s.runs
    ensures AllFired(s, Ids(started), runs)
  {
    runs := s.runs;
    for i := 0 to |started|
      invariant AllFired(s, Ids(started[..i]), runs)
    {
      TakeNext(started, i);
      assert Ids(started[..i + 1]) == Ids(started[..i]) + {started[i].id};
      assert started[i] in started;
      var id := started[i].id;
      runs := runs[id := runs[id].(status := RunStatus.Approved, exec := Fired)];
    }
    TakeAll(started);
  }

  /** The place the walk goes on at: rows that are ok or skipped are passed over. */
  method NextRow(rows: seq<StepRow>) returns (k: nat)
    ensures k == FirstUnfinished(rows)
  {
    k := 0;
    while k < |rows| && Finished(rows[k])
      invariant k <= |rows| && forall i :: 0 <= i < k ==> Finished(rows[i])
    {
      k := k + 1;
    }
    FirstUnfinishedIs(rows, k);
  }

  /** `reconcileLocks`: every lock is looked at once, and dropped if its run may not hold one. */
  method ReconcileLocks(runs: map<RunId, Run>, locks: seq<Taken>) returns (kept: seq<Taken>)
    ensures kept == Reconciled(runs, locks)
  {
    kept := [];
    for i := 0 to |locks|
      invariant kept == Reconciled(runs, locks[..i])
    {
      assert locks[..i + 1][..i] == locks[..i];
      if Keeps(runs, locks[i].run) {
        kept := kept + [locks[i]];
      }
    }
    TakeAll(locks);
  }

  /** What `resumeOnBoot` does to the rows: two loops over the runs under way, the first putting every step
      that a crash left running back to pending, the second firing each run. */
  method ResumeRuns(runs: map<RunId, Run>) returns (r: map<RunId, Run>)
    ensures r.Keys == runs.Keys && forall x :: x in runs ==> r[x] == Resumed(runs[x])
  {
    var pending := set id | id in runs && Active(runs[id]);
    r := runs;
    var rest := pending;
    while rest != {}
      invariant rest <= pending && r.Keys == runs.Keys
      invariant forall x :: x in runs ==> r[x] == if x in pending - rest then runs[x].(steps := Normalize(runs[x].steps)) else runs[x]
      decreases rest
    {
      var x :| x in rest;
      r := r[x := r[x].(steps := SetStatusIn(r[x].steps, {StepStatus.Running}, Pending))];
      rest := rest - {x};
    }
    ghost var normal := r;
    rest := pending;
    while rest != {}
      invariant rest <= pending && r.Keys == runs.Keys
      invariant forall x :: x in runs ==> r[x] == if x in pending - rest then normal[x].(exec := Fired) else normal[x]
      decreases rest
    {
      var x :| x in rest;
      r := r[x := r[x].(exec := Fired)];
      rest := rest - {x};
    }
  }

  /** Every claim of the plan is held now, and no other lock came or went. */
  ghost predicate GainsRest(before: seq<Taken>, after: seq<Taken>, plan: Plan, id: RunId) {
    forall t :: t in after <==> t in before || (t.run == id && t.claim in PlanClaims(plan))
  }

  lemma RestIsGained(locks: seq<Taken>, plan: Plan, id: RunId)
    ensures GainsRest(locks, locks + Held(Missing(locks, PlanClaims(plan), id), id), plan, id)
  {
  }

  /** The transaction of `acquireLocks`. */
  method TakeMissing(locks: seq<Taken>, plan: Plan, id: RunId) returns (ok: bool, after: seq<Taken>)
    ensures after == Acquired(locks, PlanClaims(plan), id)
    ensures ok <==> !AnyCollision(Without(locks, id), Missing(locks, PlanClaims(plan), id))
    ensures if ok then GainsRest(locks, after, plan, id) else after == locks
    ensures ok ==> HoldsAll(after, plan, id)
  {
    var missing := Missing(locks, PlanClaims(plan), id);
    ConflictsIffCollision(Without(locks, id), missing);
    ok := |LockConflicts(Without(locks, id), missing)| == 0;
    after := locks;
    if ok {
      AcquiredAll(locks, plan, id);
      RestIsGained(locks, plan, id);
      after := InsertLocks(locks, missing, id);
    }
  }

  /** What one turn of the walk comes to: a step's body runs or the run is paused, the run ended at its end,
      or it ended in the middle. */
  datatype Turn = GoesOn | AtEnd | Broken

  /** One turn of the loop of `execute`, from one await to the next. */
  method TakeTurn(r: Run, stopping: bool, hasImpl: bool) returns (r': Run, turn: Turn)
    requires RunOk(r) && r.exec.Walking?
    ensures r' == Step(r, Advance(stopping, hasImpl))
    ensures turn == TurnOf(r, r') && (turn.AtEnd? ==> Over(r'))
  {
    StepSafety.WalkIsNeverRefused(r);
    var k := NextRow(r.steps);
    if k == |r.steps| {
      return End(r, if IsCleanupRun(r.steps) then Cancelled else Succeeded), AtEnd;
    }
    if r.exec.aborted {
      return End(r, Cancelled), Broken;
    }
    if stopping {
      return r.(exec := Idle, secrets := false), GoesOn;
    }
    if r.steps[k].name.Cleanup? && !hasImpl {
      return End(r.(steps := SetStatus(r.steps, k, StepStatus.Failed)), RunStatus.Failed), Broken;
    }
    var rows := SetStatus(r.steps, k, StepStatus.Running);
    return r.(steps := rows, exec := InStep(k, false), log := r.log + [r.steps[k].ordinal]), GoesOn;
  }

  function TurnOf(r: Run, r': Run): Turn {
    if r'.status.Running? then GoesOn else if FirstUnfinished(r.steps) == |r.steps| then AtEnd else Broken
  }

  /** What the end of the process leaves: the rows, and no memory. */
  method LoseMemory(runs: map<RunId, Run>) returns (r: map<RunId, Run>)
    ensures r.Keys == runs.Keys && forall x :: x in runs ==> r[x] == CutOff(runs[x])
  {
    r := map id | id in runs :: CutOff(runs[id]);
  }

  // ---------------------------------------------------------------- what a method answers

  predicate Covers(required: seq<string>, typed: set<string>) { forall n :: n in required ==> n in typed }

  predicate NeedsSecrets(r: Run) { r.plan.requiredSecrets != [] && !r.secrets }

  /** The acts that follow one turn of the walk: a run that reached its end lets its locks go, and whatever
      ends (a pause ends nothing) dispatches the queue. */
  function AfterTurn(id: RunId, turn: Turn): seq<Act> {
    match turn
    case GoesOn => []
    case AtEnd => [Release(id), Dispatch]
    case Broken => [Dispatch]
  }

  class Executor {
    var runs: map<RunId, Run>
    var locks: seq<Taken>
    var up: bool
    var stopping: bool
    ghost var history: seq<Act>

    ghost function State(): Sys
      reads this
    {
      Sys(runs, locks, up, stopping)
    }

    ghost predicate Valid()
      reads this
    {
      State() == Play(INIT, history)
    }

    /** Whatever is proved of every history holds of the object: here the invariants of the whole system. */
    lemma IsSafe()
      requires Valid()
      ensures LockSafety.SysOk(State())
    {
      LockSafety.AlwaysOk(history);
    }

    constructor ()
      ensures Valid() && history == [] && up
    {
      runs, locks, up, stopping, history := map[], [], true, false, [];
    }

    // ---------------------------------------------------------------- the queue and the locks

    /** One look at the line: every run in it that waits for nothing is approved, given its claims and fired. */
    method DispatchQueue()
      requires Valid() && up
      modifies this`runs, this`locks, this`history
      ensures Valid() && history == old(history) + [Dispatch] && runs.Keys == old(runs).Keys
      ensures Dispatched(old(State()), State())
      ensures forall x :: x in runs && runs[x].status.Queued? && runs[x].plan.requiredSecrets != [] && !runs[x].secrets ==> runs[x] == old(runs)[x]
    {
      hide Play, Started, Inserted, Ids, LocksTheStarted, OvertakesNobody, LeavesNobodyIdle;
      ghost var s := State();
      Grow(history, Dispatch);
      DispatchEffects(s);
      if stopping {
        StoppingDispatch(history, s);
      } else {
        var ids := ReadQueue(runs);
        var started, held := StartWaiting(locks, AsLine(runs, ids));
        forall w | w in started ensures w.id in runs { LockSafety.StartedInLine(s, w); }
        runs := FireStarted(Sys(runs, locks, up, stopping), started);
        locks := held;
        DispatchAct(history, s, started, runs);
      }
      history := history + [Dispatch];
    }

    /** Take every claim of the plan that the run is still missing, or none: it fails exactly when one of them
        collides with a lock another run holds. */
    method AcquireLocks(id: RunId) returns (ok: bool)
      requires Valid() && up && id in runs && Abortable(runs[id])
      modifies this`locks, this`history
      ensures Valid() && history == old(history) + [Acquire(id)]
      ensures ok <==> LocksFree(old(State()), id)
      ensures if ok then GainsRest(old(locks), locks, runs[id].plan, id) && HoldsAll(locks, runs[id].plan, id) else locks == old(locks)
      ensures LockSafety.Holder(runs[id]) ==> ok
    {
      hide Play, Acquired, HoldsAll, LockSafety.Holder;
      if LockSafety.Holder(runs[id]) { HolderIsFree(history, State(), id); }
      AcquireAct(history, State(), id);
      history := history + [Acquire(id)];
      ok, locks := TakeMissing(locks, runs[id].plan, id);
    }

    /** The locks of a recovery: a run that stopped in the middle always gets them. */
    method TryLocks(id: RunId) returns (o: Outcome)
      requires Valid() && up && id in runs && Abortable(runs[id])
      modifies this`locks, this`history
      ensures Valid() && history == old(history) + [Acquire(id)]
      ensures o.Done? <==> LocksFree(old(State()), id)
      ensures o.Done? ==> GainsRest(old(locks), locks, runs[id].plan, id) && HoldsAll(locks, runs[id].plan, id)
      ensures o.Refused? ==> o.reason.ResourceBusy? && locks == old(locks) && !LockSafety.Holder(runs[id])
    {
      var ok := AcquireLocks(id);
      o := if ok then Done else Refused(ResourceBusy);
    }

    method ReleaseLocks(id: RunId)
      requires Valid() && up && id in runs && Over(runs[id])
      modifies this`locks, this`history
      ensures Valid() && history == old(history) + [Release(id)]
      ensures locks == Without(old(locks), id) && forall t :: t in locks <==> t in old(locks) && t.run != id
    {
      ReleaseAct(history, State(), id);
      locks := Without(locks, id);
      history := history + [Release(id)];
    }

    /** One event of one run, written down. */
    method Write(id: RunId, r: Run, ghost e: Event)
      requires Valid() && up && id in runs && Admitted(State(), id, e) && !e.Delete? && r == Step(runs[id], e)
      modifies this`runs, this`history
      ensures Valid() && history == old(history) + [On(id, e)] && runs == old(runs)[id := r]
    {
      EventAct(history, State(), id, e, r);
      runs := runs[id := r];
      history := history + [On(id, e)];
    }

    // ---------------------------------------------------------------- plan, approve, discard, delete, cancel

    method Propose(id: RunId, plan: Plan)
      requires Valid() && up && id !in runs && WellPlanned(plan)
      modifies this`runs, this`history
      ensures Valid() && history == old(history) + [Act.Propose(id, plan)]
      ensures id in runs && runs == old(runs)[id := runs[id]] && Untouched(runs[id]) && runs[id].status.Planned? && !runs[id].deleted
      ensures runs[id].plan == plan && |runs[id].steps| == |plan.steps|
      ensures forall i :: 0 <= i < |plan.steps| ==> runs[id].steps[i] == StepRow(i, Work(plan.steps[i]), Pending, [], None)
    {
      ProposeAct(history, State(), id, plan);
      runs := runs[id := NewRun(plan)];
      history := history + [Act.Propose(id, plan)];
    }

    /** Whether an approve may go on, and why not. `typed` is the names typed with a value, `accepted` the definition's own
        word on them. */
    method CheckApprove(id: RunId, typed: set<string>, accepted: bool, onlyIfFree: bool) returns (o: Outcome)
      ensures o.Done? <==> MayApprove(State(), id, typed, accepted, onlyIfFree)
      ensures o == Refused(NotFound) <==> id !in runs
      ensures o == Refused(DeletedRun) <==> id in runs && runs[id].deleted
      ensures o == Refused(IllegalTransition) <==> id in runs && !runs[id].deleted && !MayAsk(State(), id)
      ensures o == Refused(MissingSecret) <==> MayAsk(State(), id) && exists n :: n in runs[id].plan.requiredSecrets && n !in typed
      ensures o == Refused(NotApprovable) <==> MayAsk(State(), id) && (forall n :: n in runs[id].plan.requiredSecrets ==> n in typed) && !accepted
      ensures o == Refused(ResourceBusy) <==>
        && MayAsk(State(), id) && (forall n :: n in runs[id].plan.requiredSecrets ==> n in typed) && accepted
        && runs[id].status.Planned? && onlyIfFree && !FreeToJoin(State(), runs[id].plan)
    {
      if id !in runs { return Refused(NotFound); }
      var r := runs[id];
      if r.deleted { return Refused(DeletedRun); }
      if r.status.Queued? {
        if !NeedsSecrets(r) { return Refused(IllegalTransition); }
      } else if !CanRun(r.status, Queued) {
        return Refused(IllegalTransition);
      }
      if !Covers(r.plan.requiredSecrets, typed) { return Refused(MissingSecret); }
      if !accepted { return Refused(NotApprovable); }
      if !r.status.Queued? && onlyIfFree {
        EndIsFreeIff(State(), r.plan);
        var conflicts := ConflictsIfLast(PlanClaims(r.plan));
        if |conflicts| > 0 { return Refused(ResourceBusy); }
      }
      return Done;
    }

    /** Approve a planned run, or hand a queued one its secrets again. Asked to start it only if it is free,
        an approve that goes through has started it. */
    method Approve(id: RunId, at: nat, typed: set<string>, accepted: bool, onlyIfFree: bool) returns (o: Outcome, started: bool)
      requires Valid() && up
      modifies this`runs, this`locks, this`history
      ensures Valid()
      ensures o.Done? <==> MayApprove(old(State()), id, typed, accepted, onlyIfFree)
      ensures o == Refused(NotFound) <==> id !in old(runs)
      ensures o == Refused(DeletedRun) <==> id in old(runs) && old(runs)[id].deleted
      ensures history == old(history) +
        if o.Refused? then [] else if old(runs)[id].status.Queued? then [On(id, Retype), Dispatch] else [On(id, Event.Approve(at)), Dispatch]
      ensures if o.Refused? then State() == old(State()) else
        Dispatched(old(State()).(runs := old(runs)[id := LetIn(old(runs)[id], at)]), State())
      ensures o.Done? ==> id in runs && (started <==> !runs[id].status.Queued?)
      ensures o.Done? && onlyIfFree && !stopping && old(runs)[id].status.Planned? ==> runs[id].status.Approved?
    {
      hide Dispatched, FreeToJoin, Play;
      o := CheckApprove(id, typed, accepted, onlyIfFree);
      if o.Refused? { return o, false; }
      if runs[id].status.Queued? {
        Write(id, runs[id].(secrets := true), Retype);
        DispatchQueue();
      } else {
        JoinLine(id, at, onlyIfFree);
      }
      started := !runs[id].status.Queued?;
    }

    /** The queueing and the dispatch behind it; a run with nothing in its way at the end of the line starts. */
    method JoinLine(id: RunId, at: nat, free: bool)
      requires Valid() && up && id in runs && runs[id].status.Planned? && !runs[id].deleted
      requires free ==> FreeToJoin(State(), runs[id].plan)
      modifies this`runs, this`locks, this`history
      ensures Valid() && history == old(history) + [On(id, Event.Approve(at)), Dispatch]
      ensures Dispatched(old(State()).(runs := old(runs)[id := LetIn(old(runs)[id], at)]), State())
      ensures id in runs && (free && !stopping ==> runs[id].status.Approved?)
    {
      hide Dispatched, FreeToJoin;
      if free && !stopping {
        EndIsFreeIff(State(), runs[id].plan);
        StartsIfFree(history, State(), id, at);
      }
      Write(id, runs[id].(status := Queued, approvedAt := at, secrets := true), Event.Approve(at));
      DispatchQueue();
    }

    /** The taken claims in the way of a run that would join the line behind everybody. */
    method ConflictsIfLast(claims: seq<Claim>) returns (r: seq<Taken>)
      ensures r == ConflictsAtEnd(locks, Line(State()), claims)
    {
      var ids := ReadQueue(runs);
      var _, taken := WalkQueue(locks, AsLine(runs, ids));
      r := LockConflicts(taken, claims);
    }

    /** A run that has not begun is set aside as cancelled. Only the run table stands guard, and it would let a
        running run through as well; no caller that follows the rule asks for one. */
    method Discard(id: RunId) returns (o: Outcome)
      requires Valid() && up
      requires id in runs ==> !runs[id].status.Running?
      modifies this`runs, this`locks, this`history
      ensures Valid()
      ensures o.Done? <==> id in old(runs) && !old(runs)[id].deleted && (old(runs)[id].status.Planned? || old(runs)[id].status.Queued?)
      ensures o == Refused(NotFound) <==> id !in old(runs)
      ensures o == Refused(DeletedRun) <==> id in old(runs) && old(runs)[id].deleted
      ensures history == old(history) +
        if o.Refused? then [] else if old(runs)[id].status.Queued? then [On(id, Event.Discard), Dispatch] else [On(id, Event.Discard)]
      ensures o.Refused? ==> State() == old(State())
      ensures o.Done? ==>
        var mid := old(State()).(runs := old(runs)[id := old(runs)[id].(status := Cancelled, secrets := false)]);
        if old(runs)[id].status.Queued? then Dispatched(mid, State()) else State() == mid
    {
      hide Dispatched, Play;
      if id !in runs { return Refused(NotFound); }
      if runs[id].deleted { return Refused(DeletedRun); }
      if !CanRun(runs[id].status, Cancelled) { return Refused(IllegalTransition); }
      var wasQueued := runs[id].status.Queued?;
      Write(id, runs[id].(status := Cancelled, secrets := false), Event.Discard);
      if wasQueued { DispatchQueue(); }
      return Done;
    }

    /** Soft-delete a settled run; deleting a deleted one is no act at all. */
    method DeleteRun(id: RunId) returns (o: Outcome)
      requires Valid() && up
      modifies this`runs, this`locks, this`history
      ensures Valid()
      ensures o.Done? <==> id in old(runs) && (old(runs)[id].deleted || !InTheMiddle(old(runs)[id].status))
      ensures o == Refused(NotFound) <==> id !in old(runs)
      ensures history == old(history) + if o.Refused? || old(runs)[id].deleted then [] else [On(id, Delete), Dispatch]
      ensures if o.Refused? || old(runs)[id].deleted then State() == old(State()) else
        Dispatched(old(State()).(runs := old(runs)[id := old(runs)[id].(deleted := true, secrets := false)], locks := Without(old(locks), id)), State())
    {
      hide Dispatched, Play;
      if id !in runs { return Refused(NotFound); }
      if runs[id].deleted { return Done; }
      if !Deletable(runs[id].status) { return Refused(IllegalTransition); }
      DeleteAct(history, State(), id);
      locks := Without(locks, id);
      runs := runs[id := Removed(runs[id])];
      history := history + [On(id, Delete)];
      DispatchQueue();
      return Done;
    }

    /** Cancel: a queued run is discarded, a run in flight is signalled, a run paused by a shutdown ends here.
        A run is never between its fire and its begin when a request is served: the two are one stretch. */
    method Cancel(id: RunId) returns (o: Outcome)
      requires Valid() && up
      requires id in runs ==> !runs[id].exec.Fired?
      modifies this`runs, this`locks, this`history
      ensures Valid() && history == old(history) + CancelActs(old(State()), id)
      ensures id !in old(runs) ==> State() == old(State())
      ensures id in old(runs) ==>
        var r := old(runs)[id];
        if r.status.Queued? then Dispatched(old(State()).(runs := old(runs)[id := r.(status := Cancelled, secrets := false)]), State())
        else if r.exec.Walking? || r.exec.InStep? then State() == old(State()).(runs := old(runs)[id := r.(exec := r.exec.(aborted := true))])
        else if stopping && r.status.Running? then State() == old(State()).(runs := old(runs)[id := r.(status := Cancelled)])
        else State() == old(State())
      ensures id in old(runs) && (old(runs)[id].exec.Walking? || old(runs)[id].exec.InStep?) ==> StepSafety.Signalled(runs[id])
    {
      hide Dispatched, Play;
      if id !in runs { return Done; }
      Settled(history, State(), id);
      InFlight(history, State(), id);
      if runs[id].status.Queued? {
        o := Discard(id);
        return;
      }
      if runs[id].exec.Walking? || runs[id].exec.InStep? {
        Write(id, runs[id].(exec := runs[id].exec.(aborted := true)), Signal);
      } else if stopping && runs[id].status.Running? {
        Write(id, runs[id].(status := Cancelled), CancelPaused);
      }
      return Done;
    }

    // ---------------------------------------------------------------- one execution, between its awaits

    /** The start of `execute`. A run whose kind is unknown or whose step list diverged fails here. */
    method Begin(id: RunId, sound: bool)
      requires Valid() && up && id in runs && runs[id].exec.Fired?
      modifies this`runs, this`locks, this`history
      ensures Valid() && history == old(history) + if sound then [On(id, Event.Begin)] else [On(id, FailBegin), Dispatch]
      ensures if sound then
          State() == old(State()).(runs := old(runs)[id := old(runs)[id].(status := RunStatus.Running, started := true, exec := Walking(false))])
        else Dispatched(old(State()).(runs := old(runs)[id := Ended(old(runs)[id], RunStatus.Failed)]), State())
    {
      hide Dispatched, Play;
      if sound {
        Write(id, runs[id].(status := RunStatus.Running, started := true, exec := Walking(false)), Event.Begin);
      } else {
        Write(id, End(runs[id], RunStatus.Failed), FailBegin);
        DispatchQueue();
      }
    }

    /** From one await to the next: the loop passes over finished rows and starts the next step, or the run
        ends, is cancelled, fails on a missing implementation, or pauses for a shutdown. */
    method WalkOn(id: RunId, hasImpl: bool)
      requires Valid() && up && id in runs && runs[id].exec.Walking?
      modifies this`runs, this`locks, this`history
      ensures Valid()
      ensures var r := old(runs)[id];
        history == old(history) + [On(id, Advance(stopping, hasImpl))] + AfterTurn(id, TurnOf(r, Step(r, Advance(stopping, hasImpl))))
      ensures id in runs && Walked(old(runs)[id], runs[id], stopping, hasImpl)
      ensures AllDone(old(runs)[id].steps) ==> forall t :: t in locks ==> t.run != id
      ensures var mid := old(State()).(runs := old(runs)[id := runs[id]], locks := if AllDone(old(runs)[id].steps) then Without(old(locks), id) else old(locks));
        if runs[id].status.Running? then State() == mid else Dispatched(mid, State())
    {
      hide Dispatched, Play, Walked;
      var r := runs[id];
      RowsInOrder(history, State(), id);
      TurnIsWalked(r, stopping, hasImpl);
      DoneOrNext(r.steps);
      var r', turn := TakeTurn(r, stopping, hasImpl);
      Write(id, r', Advance(stopping, hasImpl));
      ghost var walked := State();
      TurnIsNotQueued(r, stopping, hasImpl);
      EndTurn(id, turn);
      if turn.AtEnd? { DispatchLeaves(walked.(locks := Without(walked.locks, id)), State(), id); }
      if turn.Broken? { DispatchLeaves(walked, State(), id); }
    }

    /** `finishRun`: a run at its end lets its locks go, and whatever ended dispatches the queue. */
    method EndTurn(id: RunId, turn: Turn)
      requires Valid() && up && id in runs && (turn.AtEnd? ==> Over(runs[id]))
      modifies this`runs, this`locks, this`history
      ensures Valid() && history == old(history) + AfterTurn(id, turn)
      ensures turn.GoesOn? ==> State() == old(State())
      ensures turn.Broken? ==> Dispatched(old(State()), State())
      ensures turn.AtEnd? ==> Dispatched(old(State()).(locks := Without(old(locks), id)), State())
    {
      hide Dispatched, Play;
      if turn.AtEnd? { ReleaseLocks(id); }
      if !turn.GoesOn? { DispatchQueue(); }
    }

    /** `ctx.registerCleanup`: the name is persisted before the call answers. */
    method RegisterCleanup(id: RunId, name: string)
      requires Valid() && up && id in runs && Inside(runs[id]) && runs[id].steps[runs[id].exec.at].name.Work?
      modifies this`runs, this`history
      ensures Valid() && history == old(history) + [On(id, Register(name))]
      ensures var r := old(runs)[id];
        var names := r.steps[r.exec.at].cleanups;
        var row := r.steps[r.exec.at].(cleanups := if name in names then names else names + [name]);
        runs == old(runs)[id := r.(steps := r.steps[r.exec.at := row])] && name in row.cleanups
    {
      var r := runs[id];
      var row := r.steps[r.exec.at];
      var names := row.cleanups;
      if name !in names { names := names + [name]; }
      Write(id, r.(steps := r.steps[r.exec.at := row.(cleanups := names)]), Register(name));
    }

    /** `ctx.checkpoint`: refused when the redactor would change it; the registered names stay. */
    method Checkpoint(id: RunId, data: string, clean: bool) returns (o: Outcome)
      requires Valid() && up && id in runs && Inside(runs[id])
      modifies this`runs, this`history
      ensures Valid() && (o.Done? <==> clean)
      ensures history == old(history) + if clean then [On(id, Save(data))] else []
      ensures var r := old(runs)[id];
        runs == if clean then old(runs)[id := r.(steps := r.steps[r.exec.at := r.steps[r.exec.at].(data := Some(data))])] else old(runs)
    {
      if !clean { return Refused(SecretInCheckpoint); }
      var r := runs[id];
      Write(id, r.(steps := r.steps[r.exec.at := r.steps[r.exec.at].(data := Some(data))]), Save(data));
      return Done;
    }

    /** The step's body ends. Only a failure ends the execution, and then the queue is dispatched. */
    method FinishStep(id: RunId, ok: bool, abortError: bool)
      requires Valid() && up && id in runs && Inside(runs[id])
      modifies this`runs, this`locks, this`history
      ensures Valid() && history == old(history) + if ok then [On(id, StepOk)] else [On(id, StepFail(abortError)), Dispatch]
      ensures if ok then State() == old(State()).(runs := old(runs)[id := EndedOk(old(runs)[id])])
        else Dispatched(old(State()).(runs := old(runs)[id := EndedFailed(old(runs)[id], abortError)]), State())
    {
      hide Dispatched, Play;
      var r := runs[id];
      var at, row := r.exec.at, r.steps[r.exec.at];
      if ok {
        // A compensation that ends ok has taken back what stands under its name.
        var left := if row.name.Cleanup? then r.world - Of(r.world, row.name.undoes) else r.world;
        assert row.name.Cleanup? ==> left == set x | x in r.world && x.undoneBy != row.name.undoes;
        Write(id, r.(steps := SetStatus(r.steps, at, Ok), exec := Walking(r.exec.aborted), world := left), StepOk);
      } else {
        var status := if r.exec.aborted || abortError then Cancelled else RunStatus.Failed;
        Write(id, r.(steps := SetStatus(r.steps, at, StepStatus.Failed), status := status, exec := Idle, secrets := false), StepFail(abortError));
        DispatchQueue();
      }
    }

    // ---------------------------------------------------------------- recovery

    method CheckRetry(id: RunId, target: Option<StepName>) returns (o: Outcome, k: nat)
      ensures o.Done? <==> MayRecover(State(), id) && exists j :: IsTarget(runs[id], target, j)
      ensures o.Done? ==> IsTarget(runs[id], target, k)
      ensures o == Refused(NotFound) <==> id !in runs
      ensures o == Refused(DeletedRun) <==> id in runs && runs[id].deleted
      ensures o == Refused(NotRecoverable) <==> id in runs && !runs[id].deleted && !MayRecover(State(), id)
      ensures o == Refused(NoSuchStep) <==> MayRecover(State(), id) && target.Some? && !Carries(runs[id], target.value)
      ensures o == Refused(NotRetryable) <==>
        && MayRecover(State(), id) && !(exists j :: IsTarget(runs[id], target, j))
        && (target.Some? ==> Carries(runs[id], target.value))
      ensures o.Refused? ==> !o.reason.ResourceBusy?
    {
      k := 0;
      if id !in runs { return Refused(NotFound), 0; }
      var r := runs[id];
      if r.deleted { return Refused(DeletedRun), 0; }
      if !Recoverable(r) { return Refused(NotRecoverable), 0; }
      if target.Some? { HasRowIff(r.steps, target.value); }
      if target.Some? && !HasRow(r.steps, target.value) { return Refused(NoSuchStep), 0; }
      var t := RetryTarget(r, target);
      forall j ensures IsTarget(r, target, j) <==> t == Some(j) { TargetIff(r, target, j); }
      if t.None? { return Refused(NotRetryable), 0; }
      return Done, t.value;
    }

    /** Retry from a step: its locks again, every row from that one on that is not ok pending again, and the
        execution fired. Refused it changes nothing, and a failed run is never refused for its locks. */
    method RetryFromStep(id: RunId, target: Option<StepName>) returns (o: Outcome)
      requires Valid() && up
      modifies this`runs, this`locks, this`history
      ensures Valid()
      ensures o.Refused? ==> State() == old(State())
      ensures o.Done? || o.reason.ResourceBusy? <==> MayRecover(old(State()), id) && exists j :: IsTarget(old(runs)[id], target, j)
      ensures o == Refused(ResourceBusy) ==> !LockSafety.Holder(old(runs)[id])
      ensures o.Done? ==> LocksFree(old(State()), id)
      ensures o.Done? ==> id in runs && GainsRest(old(locks), locks, runs[id].plan, id)
      ensures o.Done? ==> runs == old(runs)[id := runs[id]] && exists j :: IsTarget(old(runs)[id], target, j) && Retried(old(runs)[id], runs[id], j)
      ensures o == Refused(ResourceBusy) ==> !LocksFree(old(State()), id)
      ensures history == old(history) +
        if o.Done? then [Acquire(id), On(id, Retry(target))] else if o.reason.ResourceBusy? then [Acquire(id)] else []
    {
      hide LocksFree, LockSafety.Holder, IsTarget, Retried, HoldsAll;
      var k;
      o, k := CheckRetry(id, target);
      if o.Refused? { return; }
      Settled(history, State(), id);
      RowsInOrder(history, State(), id);
      TargetIff(runs[id], target, k);
      RetryIsRetried(runs[id], target, k);
      o := TryLocks(id);
      if o.Refused? { return; }
      FireRetry(id, target, k);
    }

    method FireRetry(id: RunId, target: Option<StepName>, k: nat)
      requires Valid() && up && id in runs && HoldsAll(locks, runs[id].plan, id)
      requires Recoverable(runs[id]) && runs[id].exec.Idle? && RetryTarget(runs[id], target) == Some(k)
      modifies this`runs, this`history
      ensures Valid() && history == old(history) + [On(id, Retry(target))]
      ensures runs == old(runs)[id := Step(old(runs)[id], Retry(target))]
    {
      var r := runs[id];
      var rows := ResetLater(r.steps, r.steps[k].ordinal);
      RetriedRun(r, target);
      Write(id, r.(steps := rows, status := RunStatus.Running, secrets := true, exec := Fired), Retry(target));
    }

    method CheckSkip(id: RunId, step: StepName, reason: string) returns (o: Outcome)
      ensures o.Done? <==> MayRecover(State(), id) && !Blank(reason) && (exists j :: IsFailed(runs[id], step, j)) && !MustHold(runs[id], step)
      ensures o.Done? ==> id in runs && Skippable(runs[id], step)
      ensures o == Refused(NotFound) <==> id !in runs
      ensures o == Refused(DeletedRun) <==> id in runs && runs[id].deleted
      ensures o == Refused(NotRecoverable) <==> id in runs && !runs[id].deleted && !MayRecover(State(), id)
      ensures o == Refused(EmptyReason) <==> MayRecover(State(), id) && Blank(reason)
      ensures o == Refused(NoSuchStep) <==> MayRecover(State(), id) && !Blank(reason) && !Carries(runs[id], step)
      ensures o == Refused(NotTheFailedStep) <==>
        MayRecover(State(), id) && !Blank(reason) && Carries(runs[id], step) && !(exists j :: IsFailed(runs[id], step, j))
      ensures o == Refused(Precondition) <==>
        MayRecover(State(), id) && !Blank(reason) && (exists j :: IsFailed(runs[id], step, j)) && MustHold(runs[id], step)
      ensures o.Refused? ==> !o.reason.ResourceBusy?
    {
      if id !in runs { return Refused(NotFound); }
      var r := runs[id];
      if r.deleted { return Refused(DeletedRun); }
      if !Recoverable(r) { return Refused(NotRecoverable); }
      if Blank(reason) { return Refused(EmptyReason); }
      HasRowIff(r.steps, step);
      forall j ensures IsFailed(r, step, j) <==> HasRow(r.steps, step) && j == Find(r.steps, step) && r.steps[j].status.Failed? { FailedIff(r, step, j); }
      if !HasRow(r.steps, step) { return Refused(NoSuchStep); }
      if !r.steps[Find(r.steps, step)].status.Failed? { return Refused(NotTheFailedStep); }
      if IsPrecondition(r.plan, step) { return Refused(Precondition); }
      return Done;
    }

    /** Skip the failed step, unless it is a mutating run's precondition. */
    method SkipStep(id: RunId, step: StepName, reason: string) returns (o: Outcome)
      requires Valid() && up
      modifies this`runs, this`locks, this`history
      ensures Valid()
      ensures o.Refused? ==> State() == old(State())
      ensures o.Done? || o.reason.ResourceBusy? <==>
        MayRecover(old(State()), id) && !Blank(reason) && (exists j :: IsFailed(old(runs)[id], step, j)) && !MustHold(old(runs)[id], step)
      ensures o == Refused(Precondition) <==>
        MayRecover(old(State()), id) && !Blank(reason) && (exists j :: IsFailed(old(runs)[id], step, j)) && MustHold(old(runs)[id], step)
      ensures o.Done? ==> id in runs && GainsRest(old(locks), locks, runs[id].plan, id)
      ensures o.Done? ==> runs == old(runs)[id := runs[id]] && exists j :: IsFailed(old(runs)[id], step, j) && WavedThrough(old(runs)[id], runs[id], j)
      ensures o == Refused(ResourceBusy) ==> !LockSafety.Holder(old(runs)[id])
      ensures o.Done? ==> LocksFree(old(State()), id)
      ensures o == Refused(ResourceBusy) ==> !LocksFree(old(State()), id)
      ensures history == old(history) +
        if o.Done? then [Acquire(id), On(id, Skip(step))] else if o.reason.ResourceBusy? then [Acquire(id)] else []
    {
      hide LocksFree, LockSafety.Holder, Find, IsFailed, MustHold, HoldsAll;
      o := CheckSkip(id, step, reason);
      if o.Refused? { return; }
      Settled(history, State(), id);
      FailedIff(runs[id], step, Find(runs[id].steps, step));
      o := TryLocks(id);
      if o.Refused? { return; }
      FireSkip(id, step);
    }

    method FireSkip(id: RunId, step: StepName)
      requires Valid() && up && id in runs && HoldsAll(locks, runs[id].plan, id)
      requires Skippable(runs[id], step) && runs[id].exec.Idle?
      modifies this`runs, this`history
      ensures Valid() && history == old(history) + [On(id, Skip(step))]
      ensures runs == old(runs)[id := runs[id]] && WavedThrough(old(runs)[id], runs[id], Find(old(runs)[id].steps, step))
    {
      var r := runs[id];
      SkippedRun(r, step);
      Write(id, r.(steps := SetStatus(r.steps, Find(r.steps, step), Skipped), status := RunStatus.Running, exec := Fired), Skip(step));
    }

    /** Turn the registered compensations into pending rows and fire the run, or, with none registered,
        settle it cancelled. `allowed` is the definition's own word. A name that two steps registered is
        refused by the unique index the first time, with the locks already taken. */
    method AbortWithCleanup(id: RunId, typed: bool, allowed: bool) returns (o: Outcome)
      requires Valid() && up
      modifies this`runs, this`locks, this`history
      ensures Valid()
      ensures o.Refused? ==> runs == old(runs)
      ensures o == Refused(NotFound) <==> id !in old(runs)
      ensures o == Refused(DeletedRun) <==> id in old(runs) && old(runs)[id].deleted
      ensures o == Refused(NotRecoverable) <==> id in old(runs) && !old(runs)[id].deleted && !MayAbort(old(State()), id)
      ensures o == Refused(NotAbortable) <==> MayAbort(old(State()), id) && Registered(old(runs)[id].steps) != [] && !allowed
      ensures o == Refused(ResourceBusy) <==> MaySchedule(old(State()), id, allowed) && !LocksFree(old(State()), id)
      ensures o == Refused(DuplicateCleanup) <==>
        MaySchedule(old(State()), id, allowed) && LocksFree(old(State()), id) && Clash(old(runs)[id].steps, Registered(old(runs)[id].steps))
      ensures o.Done? <==>
        || (MayAbort(old(State()), id) && Registered(old(runs)[id].steps) == [])
        || (MaySchedule(old(State()), id, allowed) && LocksFree(old(State()), id) && !Clash(old(runs)[id].steps, Registered(old(runs)[id].steps)))
      ensures history == old(history) +
        if o.Done? then
          (if Registered(old(runs)[id].steps) == [] then [On(id, Settle), Release(id), Dispatch] else [Acquire(id), On(id, ScheduleCleanups(typed))])
        else if o.reason.ResourceBusy? || o.reason.DuplicateCleanup? then [Acquire(id)] else []
      ensures o.Done? && Registered(old(runs)[id].steps) == [] ==>
        exists r :: GivenUp(old(runs)[id], r) && Dispatched(old(State()).(runs := old(runs)[id := r], locks := Without(old(locks), id)), State())
      ensures o.Done? && Registered(old(runs)[id].steps) != [] ==>
        id in runs && runs == old(runs)[id := runs[id]] && SetToUnwind(old(runs)[id], runs[id], typed) && GainsRest(old(locks), locks, runs[id].plan, id)
    {
      hide Dispatched, Play, GivenUp, SetToUnwind, LocksFree, HoldsAll;
      if id !in runs { return Refused(NotFound); }
      if runs[id].deleted { return Refused(DeletedRun); }
      if !Abortable(runs[id]) { return Refused(NotRecoverable); }
      Settled(history, State(), id);
      RowsInOrder(history, State(), id);
      var names := RegisteredCleanupNames(runs[id].steps);
      if |names| == 0 {
        SettleRun(id);
        return Done;
      }
      if !allowed { return Refused(NotAbortable); }
      o := ScheduleAbort(id, names, typed);
    }

    method SettleRun(id: RunId)
      requires Valid() && up && id in runs && Abortable(runs[id]) && runs[id].exec.Idle? && Registered(runs[id].steps) == []
      modifies this`runs, this`locks, this`history
      ensures Valid() && history == old(history) + [On(id, Settle), Release(id), Dispatch]
      ensures exists r :: GivenUp(old(runs)[id], r) && Dispatched(old(State()).(runs := old(runs)[id := r], locks := Without(old(locks), id)), State())
    {
      hide Dispatched, Play, GivenUp;
      var r := runs[id];
      SettledRun(r);
      SettleGivesUp(r);
      Write(id, r.(steps := Abandon(r.steps), status := Cancelled), Settle);
      EndTurn(id, AtEnd);
    }

    method ScheduleAbort(id: RunId, names: seq<string>, typed: bool) returns (o: Outcome)
      requires Valid() && up && id in runs && Abortable(runs[id]) && runs[id].exec.Idle?
      requires runs[id].steps != [] && NamesDiffer(runs[id].steps)
      requires names == Registered(runs[id].steps) && names != []
      modifies this`runs, this`locks, this`history
      ensures Valid()
      ensures o.Refused? ==> runs == old(runs) && (o.reason.ResourceBusy? || o.reason.DuplicateCleanup?)
      ensures o == Refused(ResourceBusy) <==> !LocksFree(old(State()), id)
      ensures o == Refused(DuplicateCleanup) <==> LocksFree(old(State()), id) && Clash(old(runs)[id].steps, names)
      ensures history == old(history) + if o.Done? then [Acquire(id), On(id, ScheduleCleanups(typed))] else [Acquire(id)]
      ensures o.Done? ==>
        id in runs && runs == old(runs)[id := runs[id]] && SetToUnwind(old(runs)[id], runs[id], typed) && GainsRest(old(locks), locks, runs[id].plan, id)
    {
      hide LocksFree, LockSafety.Holder, SetToUnwind, HoldsAll;
      RowsInOrder(history, State(), id);
      o := TryLocks(id);
      if o.Refused? { return; }
      var r := runs[id];
      var rows := ScheduleCleanupSteps(r.steps, names);
      if rows.None? { return Refused(DuplicateCleanup); }
      ScheduledRun(r, names, typed);
      AbortSetsToUnwind(r, typed);
      Write(id, r.(steps := rows.value, status := RunStatus.Running, exec := Fired, secrets := r.secrets || typed), ScheduleCleanups(typed));
      return Done;
    }

    // ---------------------------------------------------------------- the process

    method StopForRestart()
      requires Valid() && up
      modifies this`stopping, this`history
      ensures Valid() && history == old(history) + [Shutdown] && stopping
    {
      ShutdownAct(history, State());
      stopping := true;
      history := history + [Shutdown];
    }

    /** The process is gone, at whatever point it was. */
    method EndOfProcess()
      requires Valid()
      modifies this
      ensures Valid() && history == old(history) + [Die]
      ensures !up && !stopping && locks == old(locks) && runs.Keys == old(runs).Keys
      ensures forall x :: x in runs ==>
        var r := old(runs)[x]; runs[x] == r.(exec := if r.status.Approved? || r.status.Running? then Cut else Idle, secrets := false)
    {
      var cut := LoseMemory(runs);
      DieAct(history, State(), cut);
      runs, up, stopping := cut, false, false;
      history := history + [Die];
    }

    /** The next process: orphaned locks go, every run under way is resumed, and the queue is dispatched. */
    method BootUp()
      requires Valid() && !up
      modifies this
      ensures Valid() && up && history == old(history) + [Boot, Dispatch]
      ensures exists mid :: Rebooted(old(State()), mid) && Dispatched(mid, State())
    {
      hide Dispatched, Play;
      var kept := ReconcileLocks(runs, locks);
      var resumed := ResumeRuns(runs);
      BootAct(history, State(), resumed);
      runs, locks, up := resumed, kept, true;
      history := history + [Boot];
      assert Rebooted(old(State()), State());
      DispatchQueue();
    }
  }

  /** The boot before its dispatch: the locks of runs that are under way or stopped stay, every run under way is
      executed again with the row that was running pending, and nothing else changes. */
  ghost predicate Rebooted(s: Sys, mid: Sys) {
    && mid.up && mid.stopping == s.stopping && mid.runs.Keys == s.runs.Keys
    && (forall t :: t in mid.locks <==>
          t in s.locks && t.run in s.runs
          && (s.runs[t.run].status.Approved? || s.runs[t.run].status.Running? || s.runs[t.run].status.Failed? || s.runs[t.run].status.Cancelled?))
    && (forall x :: x in s.runs ==>
          var r, r' := s.runs[x], mid.runs[x];
          if r.status.Approved? || r.status.Running? then
            && r' == r.(exec := Fired, steps := r'.steps) && |r'.steps| == |r.steps|
            && forall i :: 0 <= i < |r.steps| ==> r'.steps[i] == if r.steps[i].status.Running? then r.steps[i].(status := Pending) else r.steps[i]
          else r' == r)
  }

  /** A planned run, or a queued one whose secrets are gone, is there to be approved. */
  ghost predicate MayAsk(s: Sys, id: RunId) {
    && id in s.runs && !s.runs[id].deleted
    && (s.runs[id].status.Planned? || (s.runs[id].status.Queued? && s.runs[id].plan.requiredSecrets != [] && !s.runs[id].secrets))
  }

  ghost predicate MayApprove(s: Sys, id: RunId, typed: set<string>, accepted: bool, onlyIfFree: bool) {
    && id in s.runs && !s.runs[id].deleted && (forall n :: n in s.runs[id].plan.requiredSecrets ==> n in typed) && accepted
    && (|| (s.runs[id].status.Queued? && s.runs[id].plan.requiredSecrets != [] && !s.runs[id].secrets)
        || (s.runs[id].status.Planned? && (onlyIfFree ==> FreeToJoin(s, s.runs[id].plan))))
  }

  /** A run that failed, or that was cancelled once it had begun. */
  ghost predicate MayRecover(s: Sys, id: RunId) {
    id in s.runs && !s.runs[id].deleted && (s.runs[id].status.Failed? || (s.runs[id].status.Cancelled? && s.runs[id].started))
  }

  /** The first row of that name, and it is failed. */
  ghost predicate IsFailed(r: Run, step: StepName, k: int) {
    0 <= k < |r.steps| && r.steps[k].name == step && r.steps[k].status.Failed? && forall i :: 0 <= i < k ==> r.steps[i].name != step
  }

  lemma FailedIff(r: Run, step: StepName, k: int)
    ensures IsFailed(r, step, k) <==> HasRow(r.steps, step) && k == Find(r.steps, step) && r.steps[k].status.Failed?
  {
    forall i | 0 <= i < Find(r.steps, step) ensures r.steps[i].name != step { FoundIsFirst(r.steps, step, i); }
  }

  /** The step a mutating run asks first and nobody may wave through. */
  ghost predicate MustHold(r: Run, step: StepName) { r.plan.mutating && step == Work("attest-target") }

  /** That row is skipped, no other moves, and the run is fired. */
  ghost predicate WavedThrough(r: Run, r': Run, k: int)
    requires 0 <= k < |r.steps|
  {
    r' == r.(steps := r.steps[k := r.steps[k].(status := Skipped)], status := RunStatus.Running, exec := Fired)
  }

  ghost predicate Carries(r: Run, step: StepName) { exists i :: 0 <= i < |r.steps| && r.steps[i].name == step }

  /** The step in flight ended ok: its row says so, the walk goes on, and what a compensation stands for is gone. */
  ghost function EndedOk(r: Run): Run
    requires Inside(r)
  {
    var row := r.steps[r.exec.at];
    r.(steps := r.steps[r.exec.at := row.(status := Ok)], exec := Walking(r.exec.aborted),
       world := if row.name.Cleanup? then set x | x in r.world && x.undoneBy != row.name.undoes else r.world)
  }

  /** It failed: its row says so, and the run is over for now, cancelled if that was asked for and failed if not. */
  ghost function EndedFailed(r: Run, abortError: bool): Run
    requires Inside(r)
  {
    Ended(r.(steps := r.steps[r.exec.at := r.steps[r.exec.at].(status := StepStatus.Failed)]),
      if r.exec.aborted || abortError then Cancelled else RunStatus.Failed)
  }

  /** What an approve makes of a planned run, or of a queued one whose secrets are typed again. */
  ghost function LetIn(r: Run, at: nat): Run {
    if r.status.Queued? then r.(secrets := true) else r.(status := Queued, approvedAt := at, secrets := true)
  }

  /** Waiting for its start, or under way. */
  ghost predicate InTheMiddle(s: RunStatus) { s.Queued? || s.Approved? || s.Running? }

  /** Nothing the run still lacks of its plan's claims collides with another run's lock. */
  ghost predicate LocksFree(s: Sys, id: RunId)
    requires id in s.runs
  {
    !AnyCollision(Without(s.locks, id), Missing(s.locks, PlanClaims(s.runs[id].plan), id))
  }

  /** An abort that has something to schedule and the definition's leave. */
  ghost predicate MaySchedule(s: Sys, id: RunId, allowed: bool) {
    MayAbort(s, id) && Registered(s.runs[id].steps) != [] && allowed
  }

  /** What an abort is for: failed, or cancelled, begun or not. */
  ghost predicate MayAbort(s: Sys, id: RunId) {
    id in s.runs && !s.runs[id].deleted && (s.runs[id].status.Failed? || s.runs[id].status.Cancelled?)
  }

  ghost function CancelActs(s: Sys, id: RunId): seq<Act> {
    if id !in s.runs then []
    else if s.runs[id].status.Queued? then [On(id, Event.Discard), Dispatch]
    else if s.runs[id].exec.Walking? || s.runs[id].exec.InStep? then [On(id, Signal)]
    else if s.stopping && s.runs[id].status.Running? then [On(id, CancelPaused)]
    else []
  }

  lemma StartsIfFree(h: seq<Act>, s: Sys, id: RunId, at: nat)
    requires s == Play(INIT, h) && s.up && !s.stopping && id in s.runs && s.runs[id].status.Planned? && !s.runs[id].deleted
    requires ConflictsAtEnd(s.locks, Line(s), PlanClaims(s.runs[id].plan)) == []
    ensures var s' := Play(INIT, h + [On(id, Event.Approve(at))] + [Dispatch]); id in s'.runs && s'.runs[id].status.Approved?
  {
    Grow(h, On(id, Event.Approve(at)));
    Grow(h + [On(id, Event.Approve(at))], Dispatch);
    WholeSystem.FreeApproveStarts(s, id, at);
  }

  lemma HolderIsFree(h: seq<Act>, s: Sys, id: RunId)
    requires s == Play(INIT, h) && id in s.runs && LockSafety.Holder(s.runs[id])
    ensures !AnyCollision(Without(s.locks, id), Missing(s.locks, PlanClaims(s.runs[id].plan), id))
  {
    LockSafety.RecoveryNeverBusy(h, id);
  }
}
