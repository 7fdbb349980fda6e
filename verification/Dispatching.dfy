/** What one look at the queue does to the runs and the locks, said of the rows themselves. */
module Dispatching {
  import opened Locks
  import opened Queue
  import opened Runs
  import opened System
  import opened WholeSystem
  import LockSafety

  /** The run stands in line with everything it needs typed. */
  ghost predicate InLine(r: Run) { r.status.Queued? && !r.deleted && (r.plan.requiredSecrets == [] || r.secrets) }

  /** Approved before, or at the same moment with the smaller id. */
  ghost predicate Earlier(runs: map<RunId, Run>, y: RunId, x: RunId)
    requires x in runs && y in runs
  {
    runs[y].approvedAt < runs[x].approvedAt || (runs[y].approvedAt == runs[x].approvedAt && y < x)
  }

  /** Some claim of the one plan collides with some claim of the other. */
  ghost predicate PlansCollide(a: Plan, b: Plan) { exists c, d :: c in PlanClaims(a) && d in PlanClaims(b) && Collides(c, d) }

  /** A run that stands in line with all it needs may be started; every other is left as it is. */
  ghost predicate StartsOnlyReady(s: Sys, s': Sys) {
    s'.runs.Keys == s.runs.Keys
    && forall x :: x in s.runs ==>
      s'.runs[x] == s.runs[x] || (InLine(s.runs[x]) && s'.runs[x] == s.runs[x].(status := RunStatus.Approved, exec := Fired))
  }

  /** Every lock that was held is, and those that are new are the claims of the started runs, all of them. */
  ghost predicate LocksTheStarted(s: Sys, s': Sys)
    requires s'.runs.Keys == s.runs.Keys
  {
    forall t :: t in s'.locks <==>
      t in s.locks || (t.run in s.runs && s'.runs[t.run] != s.runs[t.run] && t.claim in PlanClaims(s.runs[t.run].plan))
  }

  /** No started run passes a lock it collides with, or an earlier run in line that it collides with. */
  ghost predicate OvertakesNobody(s: Sys, s': Sys)
    requires s'.runs.Keys == s.runs.Keys
  {
    forall x :: x in s.runs && s'.runs[x] != s.runs[x] ==>
      && (forall t, c :: t in s.locks && c in PlanClaims(s.runs[x].plan) ==> !Collides(t.claim, c))
      && (forall y :: y in s.runs && InLine(s.runs[y]) && Earlier(s.runs, y, x) ==> !PlansCollide(s.runs[y].plan, s.runs[x].plan))
  }

  /** Who is left in line with all it needs collides with a lock, or with an earlier one left there. */
  ghost predicate LeavesNobodyIdle(s': Sys) {
    forall x :: x in s'.runs && InLine(s'.runs[x]) ==>
      || (exists t, c :: t in s'.locks && c in PlanClaims(s'.runs[x].plan) && Collides(t.claim, c))
      || (exists y :: y in s'.runs && InLine(s'.runs[y]) && Earlier(s'.runs, y, x) && PlansCollide(s'.runs[y].plan, s'.runs[x].plan))
  }

  /** What a dispatch does. */
  ghost predicate Dispatched(s: Sys, s': Sys) {
    && s'.up == s.up && s'.stopping == s.stopping
    && StartsOnlyReady(s, s') && LocksTheStarted(s, s') && OvertakesNobody(s, s')
    && (if s.stopping then s' == s else LeavesNobodyIdle(s'))
  }

  lemma WaitingIff(s: Sys, x: RunId)
    requires x in s.runs
    ensures InLine(s.runs[x]) <==> x in QueuedIds(s.runs) && !AsWaiting(s.runs, x).needsSecrets
  {
  }

  lemma EarlierIff(s: Sys, y: RunId, x: RunId)
    requires x in s.runs && y in s.runs
    ensures Before(s.runs, y, x) <==> Earlier(s.runs, y, x)
  {
  }

  lemma EarlierPlace(s: Sys, y: RunId, x: RunId, i: nat, j: nat)
    requires y in s.runs && x in s.runs && i < |Line(s)| && j < |Line(s)| && Line(s)[i].id == y && Line(s)[j].id == x
    ensures i < j <==> Earlier(s.runs, y, x)
  {
    hide Line;
    LineInOrder(s);
    if i < j { assert Ahead(s.runs, Line(s)[i], Line(s)[j]); }
    if j < i { assert Ahead(s.runs, Line(s)[j], Line(s)[i]); }
  }

  /** Whether a run is started is whether its place in line starts. */
  lemma StartedIff(s: Sys, x: RunId, j: nat)
    requires s.up && !s.stopping && x in QueuedIds(s.runs) && j < |Line(s)| && Line(s)[j] == AsWaiting(s.runs, x)
    ensures Apply(s, Dispatch).runs.Keys == s.runs.Keys
    ensures if Starts(s.locks, Line(s), j)
      then Apply(s, Dispatch).runs[x] == s.runs[x].(status := RunStatus.Approved, exec := Fired) && AsWaiting(s.runs, x) in Started(s.locks, Line(s))
      else Apply(s, Dispatch).runs[x] == s.runs[x] && AsWaiting(s.runs, x) !in Started(s.locks, Line(s))
  {
    hide Line, Started, Starts;
    StartedAre(s.locks, Line(s));
    LineInOrder(s);
    DispatchedRun(s, x);
    StartedById(s, x);
    StartOf(s.runs[x]);
    hide Step, Apply;
    if AsWaiting(s.runs, x) in Started(s.locks, Line(s)) {
      var k :| 0 <= k < |Line(s)| && Line(s)[k] == AsWaiting(s.runs, x) && Starts(s.locks, Line(s), k);
      assert k == j;
    }
  }

  lemma StartOf(r: Run)
    requires r.status.Queued?
    ensures Step(r, Start) == r.(status := RunStatus.Approved, exec := Fired)
  {
  }

  /** A run that is not queued is not touched. */
  lemma OthersStay(s: Sys, x: RunId)
    requires s.up && !s.stopping && x in s.runs && x !in QueuedIds(s.runs)
    ensures x in Apply(s, Dispatch).runs && Apply(s, Dispatch).runs[x] == s.runs[x]
  {
    hide Line, Started;
    DispatchedRun(s, x);
    if x in Ids(Started(s.locks, Line(s))) {
      var w :| w in Started(s.locks, Line(s)) && w.id == x;
      LockSafety.StartedInLine(s, w);
    }
  }

  lemma StartsNeedSecrets(taken: seq<Taken>, q: seq<Waiting>, j: nat)
    requires j < |q| && Starts(taken, q, j)
    ensures !q[j].needsSecrets
  {
  }

  lemma ReadyStarts(s: Sys)
    requires s.up && !s.stopping
    ensures StartsOnlyReady(s, Apply(s, Dispatch))
  {
    hide Step, Line, Starts;
    var s' := Apply(s, Dispatch);
    forall x | x in s.runs
      ensures s'.runs[x] == s.runs[x] || (InLine(s.runs[x]) && s'.runs[x] == s.runs[x].(status := RunStatus.Approved, exec := Fired))
    {
      if x in QueuedIds(s.runs) {
        var j := PlaceInLine(s, x);
        StartedIff(s, x, j);
        if Starts(s.locks, Line(s), j) { StartsNeedSecrets(s.locks, Line(s), j); }
      } else {
        OthersStay(s, x);
      }
    }
  }

  lemma InsertedIsOf(s: Sys, t: Taken)
    requires t in Inserted(s.locks, Line(s))
    ensures t.run in QueuedIds(s.runs) && AsWaiting(s.runs, t.run) in Started(s.locks, Line(s)) && t.claim in PlanClaims(s.runs[t.run].plan)
  {
    hide Line, Started, Inserted;
    InsertedAre(s.locks, Line(s));
    var w :| w in Started(s.locks, Line(s)) && t in Held(w.claims, w.id);
    LockSafety.StartedInLine(s, w);
  }

  lemma StartedInserts(s: Sys, x: RunId, c: Claim)
    requires x in s.runs && AsWaiting(s.runs, x) in Started(s.locks, Line(s)) && c in PlanClaims(s.runs[x].plan)
    ensures Taken(c, x) in Inserted(s.locks, Line(s))
  {
    hide Line, Started, Inserted;
    InsertedAre(s.locks, Line(s));
    var w := AsWaiting(s.runs, x);
    assert Taken(c, x) in Held(w.claims, w.id);
  }

  lemma StartedLocks(s: Sys)
    requires s.up && !s.stopping
    ensures Apply(s, Dispatch).runs.Keys == s.runs.Keys && LocksTheStarted(s, Apply(s, Dispatch))
  {
    hide Step, Line, Starts, Started, Inserted;
    var s' := Apply(s, Dispatch);
    forall t ensures t in s'.locks <==>
      t in s.locks || (t.run in s.runs && s'.runs[t.run] != s.runs[t.run] && t.claim in PlanClaims(s.runs[t.run].plan))
    {
      if t in Inserted(s.locks, Line(s)) {
        InsertedIsOf(s, t);
        var j := PlaceInLine(s, t.run);
        StartedIff(s, t.run, j);
      }
      if t.run in s.runs && s'.runs[t.run] != s.runs[t.run] && t.claim in PlanClaims(s.runs[t.run].plan) {
        ChangedIsStarted(s, t.run);
        StartedInserts(s, t.run, t.claim);
        assert t == Taken(t.claim, t.run);
      }
    }
  }

  lemma ChangedIsStarted(s: Sys, x: RunId)
    requires s.up && !s.stopping && x in s.runs && x in Apply(s, Dispatch).runs && Apply(s, Dispatch).runs[x] != s.runs[x]
    ensures x in QueuedIds(s.runs) && AsWaiting(s.runs, x) in Started(s.locks, Line(s))
  {
    hide Step, Line, Starts, Started, Inserted, Apply;
    if x in QueuedIds(s.runs) {
      var j := PlaceInLine(s, x);
      StartedIff(s, x, j);
    } else {
      OthersStay(s, x);
    }
  }

  lemma FairToLocks(s: Sys, x: RunId, t: Taken, c: Claim)
    requires s.up && !s.stopping && x in s.runs && x in Apply(s, Dispatch).runs && Apply(s, Dispatch).runs[x] != s.runs[x]
    requires t in s.locks && c in PlanClaims(s.runs[x].plan)
    ensures !Collides(t.claim, c)
  {
    hide Step, Line, Starts, Started, Inserted, Apply;
    ChangedIsStarted(s, x);
    var j := PlaceInLine(s, x);
    StartedIff(s, x, j);
    DispatchIsFair(s.locks, Line(s), j, c);
  }

  lemma FairToEarlier(s: Sys, x: RunId, y: RunId)
    requires s.up && !s.stopping && x in s.runs && x in Apply(s, Dispatch).runs && Apply(s, Dispatch).runs[x] != s.runs[x]
    requires y in s.runs && InLine(s.runs[y]) && Earlier(s.runs, y, x)
    ensures !PlansCollide(s.runs[y].plan, s.runs[x].plan)
  {
    hide Step, Line, Starts, Started, Inserted, Apply, Earlier;
    ChangedIsStarted(s, x);
    var j := PlaceInLine(s, x);
    var i := PlaceInLine(s, y);
    StartedIff(s, x, j);
    EarlierPlace(s, y, x, i, j);
    forall d | d in PlanClaims(s.runs[x].plan) ensures forall c :: c in PlanClaims(s.runs[y].plan) ==> !Collides(c, d) {
      DispatchIsFair(s.locks, Line(s), j, d);
      assert !Line(s)[i].needsSecrets && Line(s)[i].claims == PlanClaims(s.runs[y].plan);
    }
  }

  lemma NobodyOvertaken(s: Sys)
    requires s.up && !s.stopping
    ensures Apply(s, Dispatch).runs.Keys == s.runs.Keys && OvertakesNobody(s, Apply(s, Dispatch))
  {
    StartedLocks(s);
    hide Step, Apply, PlansCollide, Earlier, InLine;
    var s' := Apply(s, Dispatch);
    forall x | x in s.runs && s'.runs[x] != s.runs[x]
      ensures forall t, c :: t in s.locks && c in PlanClaims(s.runs[x].plan) ==> !Collides(t.claim, c)
      ensures forall y :: y in s.runs && InLine(s.runs[y]) && Earlier(s.runs, y, x) ==> !PlansCollide(s.runs[y].plan, s.runs[x].plan)
    {
      forall t, c | t in s.locks && c in PlanClaims(s.runs[x].plan) ensures !Collides(t.claim, c) { FairToLocks(s, x, t, c); }
      forall y | y in s.runs && InLine(s.runs[y]) && Earlier(s.runs, y, x) ensures !PlansCollide(s.runs[y].plan, s.runs[x].plan) {
        FairToEarlier(s, x, y);
      }
    }
  }

  /** What the run at a place that does not start waits for. */
  lemma WaitsWithCause(s: Sys, x: RunId)
    requires s.up && !s.stopping && x in Apply(s, Dispatch).runs && InLine(Apply(s, Dispatch).runs[x])
    ensures var s' := Apply(s, Dispatch);
      || AnyCollision(s'.locks, PlanClaims(s'.runs[x].plan))
      || exists y :: y in s'.runs && InLine(s'.runs[y]) && Earlier(s'.runs, y, x) && PlansCollide(s'.runs[y].plan, s'.runs[x].plan)
  {
    ReadyStarts(s);
    AddsInserted(s);
    hide Step, Line, Starts, Started, Inserted, Apply, PlansCollide;
    var s' := Apply(s, Dispatch);
    assert s'.runs[x] == s.runs[x];
    var j := PlaceInLine(s, x);
    StartedIff(s, x, j);
    StartedIsNotQueued(s, x);
    DispatchIsMaximal(s.locks, Line(s), j);
    if !AnyCollision(s'.locks, PlanClaims(s.runs[x].plan)) {
      var i :| 0 <= i < j && !Line(s)[i].needsSecrets && !Starts(s.locks, Line(s), i) && AnyCollision(Held(Line(s)[i].claims, Line(s)[i].id), Line(s)[j].claims);
      EarlierLeft(s, x, i, j);
    }
  }

  lemma AddsInserted(s: Sys)
    requires s.up && !s.stopping
    ensures Apply(s, Dispatch).locks == s.locks + Inserted(s.locks, Line(s))
  {
  }

  lemma StartedIsNotQueued(s: Sys, x: RunId)
    requires s.up && !s.stopping && x in s.runs && x in Apply(s, Dispatch).runs && Apply(s, Dispatch).runs[x] == s.runs[x] && s.runs[x].status.Queued?
    ensures Apply(s, Dispatch).runs[x] != s.runs[x].(status := RunStatus.Approved, exec := Fired)
  {
  }

  lemma EarlierLeft(s: Sys, x: RunId, i: nat, j: nat)
    requires s.up && !s.stopping && x in s.runs && i < j < |Line(s)| && Line(s)[j] == AsWaiting(s.runs, x)
    requires !Line(s)[i].needsSecrets && !Starts(s.locks, Line(s), i) && AnyCollision(Held(Line(s)[i].claims, Line(s)[i].id), Line(s)[j].claims)
    requires x in Apply(s, Dispatch).runs && Apply(s, Dispatch).runs[x] == s.runs[x]
    ensures var s', y := Apply(s, Dispatch), Line(s)[i].id;
      y in s'.runs && InLine(s'.runs[y]) && Earlier(s'.runs, y, x) && PlansCollide(s'.runs[y].plan, s'.runs[x].plan)
  {
    hide Step, Line, Starts, Started, Inserted, Apply;
    var y := Line(s)[i].id;
    LineEntries(s, Line(s)[i]);
    StartedIff(s, y, i);
    EarlierPlace(s, y, x, i, j);
    var t, c :| t in Held(Line(s)[i].claims, y) && c in Line(s)[j].claims && Collides(t.claim, c);
    assert t.claim in PlanClaims(s.runs[y].plan) && c in PlanClaims(s.runs[x].plan);
  }

  lemma NobodyIdle(s: Sys)
    requires s.up && !s.stopping
    ensures LeavesNobodyIdle(Apply(s, Dispatch))
  {
    hide Apply, PlansCollide, Earlier, InLine;
    var s' := Apply(s, Dispatch);
    forall x | x in s'.runs && InLine(s'.runs[x])
      ensures (exists t, c :: t in s'.locks && c in PlanClaims(s'.runs[x].plan) && Collides(t.claim, c))
        || (exists y :: y in s'.runs && InLine(s'.runs[y]) && Earlier(s'.runs, y, x) && PlansCollide(s'.runs[y].plan, s'.runs[x].plan))
    {
      WaitsWithCause(s, x);
    }
  }

  /** One look at the queue, in every state of the system: it starts only runs that have what they need and are
      in line, gives each all its claims, passes over nobody, and leaves nobody without cause. */
  lemma DispatchEffects(s: Sys)
    requires s.up
    ensures Dispatched(s, Apply(s, Dispatch))
  {
    hide Step, Line, StartsOnlyReady, LocksTheStarted, OvertakesNobody, LeavesNobodyIdle;
    if s.stopping {
      StoppedIsIdle(s);
    } else {
      ReadyStarts(s);
      StartedLocks(s);
      NobodyOvertaken(s);
      NobodyIdle(s);
    }
  }

  lemma StoppedIsIdle(s: Sys)
    requires s.stopping
    ensures Apply(s, Dispatch) == s && StartsOnlyReady(s, s) && LocksTheStarted(s, s) && OvertakesNobody(s, s)
  {
    hide Step, PlansCollide, InLine, Earlier;
    forall x | x in s.runs ensures Step(s.runs[x], EventFor(s, Dispatch, x)) == s.runs[x] {
      assert EventFor(s, Dispatch, x) == Quiet;
      QuietKeeps(s.runs[x]);
    }
  }

  /** No dispatch starts a run without the secrets it needs. */
  lemma StartHasSecrets(s: Sys, id: RunId)
    requires id in s.runs && EventFor(s, Dispatch, id) == Start
    ensures s.runs[id].status.Queued? && !s.runs[id].deleted && (s.runs[id].plan.requiredSecrets == [] || s.runs[id].secrets)
  {
    hide Step, Line, Starts, Started;
    var w :| w in Started(s.locks, Line(s)) && w.id == id;
    LockSafety.StartedInLine(s, w);
    StartedAre(s.locks, Line(s));
    var j :| 0 <= j < |Line(s)| && Line(s)[j] == w && Starts(s.locks, Line(s), j);
    StartsNeedSecrets(s.locks, Line(s), j);
  }

  /** Nothing stands in the way of the plan at the end of the line: no lock, and no run in line with all it needs. */
  ghost predicate FreeToJoin(s: Sys, plan: Plan) {
    forall c :: c in PlanClaims(plan) ==>
      && (forall t :: t in s.locks ==> !Collides(t.claim, c))
      && (forall y, d :: y in s.runs && InLine(s.runs[y]) && d in PlanClaims(s.runs[y].plan) ==> !Collides(d, c))
  }

  lemma EndIsFreeIff(s: Sys, plan: Plan)
    ensures ConflictsAtEnd(s.locks, Line(s), PlanClaims(plan)) == [] <==> FreeToJoin(s, plan)
  {
    hide Line;
    var q := Line(s);
    ConflictsIffCollision(TakenBefore(s.locks, q, |q|), PlanClaims(plan));
    TakenBeforeAre(s.locks, q, |q|);
    if AnyCollision(TakenBefore(s.locks, q, |q|), PlanClaims(plan)) {
      var t, c :| t in TakenBefore(s.locks, q, |q|) && c in PlanClaims(plan) && Collides(t.claim, c);
      if t !in s.locks { ReservedInLine(s, t); }
    }
    if !FreeToJoin(s, plan) {
      var c :| c in PlanClaims(plan) && !((forall t :: t in s.locks ==> !Collides(t.claim, c))
        && (forall y, d :: y in s.runs && InLine(s.runs[y]) && d in PlanClaims(s.runs[y].plan) ==> !Collides(d, c)));
      if t :| t in s.locks && Collides(t.claim, c) {
        assert t in TakenBefore(s.locks, q, |q|);
      } else {
        var y, d :| y in s.runs && InLine(s.runs[y]) && d in PlanClaims(s.runs[y].plan) && Collides(d, c);
        InLineReserves(s, y, d);
        assert Taken(d, y) in TakenBefore(s.locks, q, |q|);
      }
    }
  }

  lemma ReservedInLine(s: Sys, t: Taken)
    requires ReservedBefore(Line(s), |Line(s)|, t)
    ensures t.run in s.runs && InLine(s.runs[t.run]) && t.claim in PlanClaims(s.runs[t.run].plan)
  {
    hide Line;
    var q := Line(s);
    var k :| 0 <= k < |q| && !q[k].needsSecrets && t.run == q[k].id && t.claim in q[k].claims;
    LineEntries(s, q[k]);
    WaitingIff(s, t.run);
  }

  lemma InLineReserves(s: Sys, y: RunId, d: Claim)
    requires y in s.runs && InLine(s.runs[y]) && d in PlanClaims(s.runs[y].plan)
    ensures ReservedBefore(Line(s), |Line(s)|, Taken(d, y))
  {
    hide Line;
    var k := PlaceInLine(s, y);
    assert Line(s)[k].claims == PlanClaims(s.runs[y].plan) && !Line(s)[k].needsSecrets;
  }

  /** A dispatch is nothing to a run that is not queued, nor to its locks. */
  lemma DispatchLeaves(s: Sys, s': Sys, id: RunId)
    requires Dispatched(s, s') && id in s.runs && !s.runs[id].status.Queued?
    ensures id in s'.runs && s'.runs[id] == s.runs[id]
    ensures forall t: Taken :: t.run == id ==> (t in s'.locks <==> t in s.locks)
  {
  }
}
