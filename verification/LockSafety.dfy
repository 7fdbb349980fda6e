/** Lock safety over whole runs of the system: through dispatch, retry, skip, abort, delete, crash and boot
    repair no two live locks of different runs collide, every approved or running run holds every claim of
    its plan, and a planned or queued run holds none. */
module LockSafety {
  import opened Common
  import opened Locks
  import opened Queue
  import opened Steps
  import opened Runs
  import opened System

  /** A run that must hold all its claims: it is under way, or it stopped in the middle. */
  predicate Holder(r: Run) {
    !r.deleted && (r.status.Approved? || r.status.Running? || r.status.Failed? || (r.status.Cancelled? && r.started && FirstUnfinished(r.steps) < |r.steps|))
  }

  /** Every lock belongs to a run that may have it, and is one of its plan's claims. */
  ghost predicate LocksOwned(s: Sys) {
    forall t :: t in s.locks ==>
      && t.run in s.runs && t.claim in PlanClaims(s.runs[t.run].plan) && !s.runs[t.run].deleted
      && !s.runs[t.run].status.Planned? && !s.runs[t.run].status.Queued?
  }

  ghost predicate HoldersHold(s: Sys) {
    forall id :: id in s.runs && Holder(s.runs[id]) ==> HoldsAll(s.locks, s.runs[id].plan, id)
  }

  /** The memory agrees with the process: nothing executes while it is down, and while it is up and not
      shutting down every approved or running run is being executed. */
  predicate Attended(up: bool, stopping: bool, r: Run) {
    var active := r.status.Approved? || r.status.Running?;
    && (r.exec.Cut? <==> !up && active)
    && (!up ==> r.exec.Idle? || r.exec.Cut?)
    && (up && !stopping && active ==> !r.exec.Idle?)
  }

  ghost predicate SysOk(s: Sys) {
    && (forall id :: id in s.runs ==> RunOk(s.runs[id]) && Attended(s.up, s.stopping, s.runs[id]))
    && CollisionFree(s.locks) && Distinct(s.locks)
    && LocksOwned(s) && HoldersHold(s)
    && (!s.up ==> !s.stopping)
  }

  // ---------------------------------------------------------------- one run's part

  lemma RunsStayOk(s: Sys, a: Act)
    requires SysOk(s)
    ensures forall id :: id in Apply(s, a).runs ==> RunOk(Apply(s, a).runs[id])
  {
    var s' := Apply(s, a);
    forall id | id in s'.runs ensures RunOk(s'.runs[id]) {
      if id in s.runs { StepKeepsOk(s.runs[id], EventFor(s, a, id)); } else { NewRunOk(s'.runs[id].plan); }
    }
  }

  /** What can happen to a run while the process is up, and while it is down. */
  predicate Possible(up: bool, stopping: bool, e: Event) {
    match e
    case Quiet => true
    case NormalizeRows => !up
    case Crash => false
    case Resume => false
    case Start => up && !stopping
    case Advance(s, _) => up && s == stopping
    case CancelPaused => up && stopping
    case _ => up
  }

  lemma AdvanceAttended(r: Run, stopping: bool, hasImpl: bool)
    requires Attended(true, stopping, r) && r.exec.Walking? && RunOk(r)
    ensures Attended(true, stopping, Advanced(r, stopping, hasImpl))
  {
  }

  lemma BodyAttended(stopping: bool, r: Run, e: Event)
    requires Attended(true, stopping, r) && RunOk(r) && IsBody(e)
    ensures Attended(true, stopping, Step(r, e))
  {
  }

  lemma EventAttended(up: bool, stopping: bool, r: Run, e: Event)
    requires Attended(up, stopping, r) && RunOk(r) && Possible(up, stopping, e)
    ensures Attended(up, stopping, Step(r, e))
  {
    if e.Advance? {
      if r.exec.Walking? { AdvanceAttended(r, stopping, e.hasImpl); }
    } else if IsBody(e) {
      BodyAttended(stopping, r, e);
    }
  }

  lemma EventIsPossible(s: Sys, a: Act, id: RunId)
    requires id in s.runs && !a.Die? && !a.Boot?
    ensures Possible(s.up, s.stopping, EventFor(s, a, id))
  {
  }

  lemma CutAttended(r: Run)
    ensures Attended(false, false, Step(r, Crash))
  {
  }

  lemma ResumedAttended(stopping: bool, r: Run)
    requires Attended(false, stopping, r)
    ensures Attended(true, stopping, Step(r, Resume))
  {
  }

  lemma RunStaysAttended(s: Sys, a: Act, id: RunId)
    requires id in s.runs && RunOk(s.runs[id]) && Attended(s.up, s.stopping, s.runs[id])
    ensures Attended(Apply(s, a).up, Apply(s, a).stopping, Step(s.runs[id], EventFor(s, a, id)))
  {
    hide Step, RunOk, LocksAfter, Attended, Admitted;
    var r := s.runs[id];
    if a.Die? {
      CutAttended(r);
    } else if a.Boot? && !s.up {
      ResumedAttended(s.stopping, r);
    } else if a.Boot? {
      QuietKeeps(r);
    } else {
      EventIsPossible(s, a, id);
      EventAttended(s.up, s.stopping, r, EventFor(s, a, id));
      if a.Shutdown? && s.up { StoppingAttended(s.up, s.stopping, Step(r, EventFor(s, a, id))); }
    }
  }

  lemma StoppingAttended(up: bool, stopping: bool, r: Run)
    requires Attended(up, stopping, r)
    ensures Attended(up, true, r)
  {
  }

  lemma StaysAttended(s: Sys, a: Act)
    requires SysOk(s)
    ensures forall id :: id in Apply(s, a).runs ==> Attended(Apply(s, a).up, Apply(s, a).stopping, Apply(s, a).runs[id])
  {
    hide Step, RunOk, LocksAfter;
    var s' := Apply(s, a);
    forall id | id in s'.runs ensures Attended(s'.up, s'.stopping, s'.runs[id]) {
      if id in s.runs { RunStaysAttended(s, a, id); }
    }
  }

  /** A run becomes a holder only by being started, or by a recovery. */
  lemma NewHolder(r: Run, e: Event)
    requires RunOk(r) && Holder(Step(r, e)) && !Holder(r)
    ensures e.Start? || e.Retry? || e.Skip? || e.ScheduleCleanups?
  {
  }

  /** A run that may own a lock still may after any event but its deletion. */
  lemma StaysOwner(r: Run, e: Event)
    requires !r.deleted && !r.status.Planned? && !r.status.Queued?
    ensures !Step(r, e).status.Planned? && !Step(r, e).status.Queued?
    ensures Step(r, e).deleted ==> e.Delete? && Deletable(r.status)
  {
  }

  // ---------------------------------------------------------------- the table's part

  lemma RemovalKeepsSafe(locks: seq<Taken>, fewer: seq<Taken>)
    requires CollisionFree(locks) && Distinct(fewer) && forall t :: t in fewer ==> t in locks
    ensures CollisionFree(fewer)
  {
  }

  lemma WithoutKeepsSafe(locks: seq<Taken>, p: Taken -> bool)
    requires CollisionFree(locks) && Distinct(locks)
    ensures CollisionFree(Filter(locks, p)) && Distinct(Filter(locks, p))
  {
    FilterDistinct(locks, p);
    RemovalKeepsSafe(locks, Filter(locks, p));
  }

  lemma AcquireKeepsSafe(locks: seq<Taken>, plan: Plan, id: RunId)
    requires CollisionFree(locks) && Distinct(locks)
    ensures CollisionFree(Acquired(locks, PlanClaims(plan), id)) && Distinct(Acquired(locks, PlanClaims(plan), id))
  {
    var missing := Missing(locks, PlanClaims(plan), id);
    FilterDistinct(PlanClaims(plan), (c: Claim) => Taken(c, id) !in locks);
    assert Distinct(missing);
    forall t | t in locks && t.run == id ensures t.claim !in missing { assert t == Taken(t.claim, id); }
    if LockConflicts(Without(locks, id), missing) == [] { AdmitKeepsSafe(locks, Without(locks, id), missing, id); }
  }

  lemma LocksStaySafe(s: Sys, a: Act)
    requires SysOk(s)
    ensures CollisionFree(LocksAfter(s, a)) && Distinct(LocksAfter(s, a))
  {
    hide Acquired, Started, Inserted, CollisionFree;
    match a
    case On(run, e) => WithoutKeepsSafe(s.locks, (t: Taken) => t.run != run);
    case Dispatch =>
      forall w | w in Line(s) ensures Distinct(w.claims) { }
      DispatchKeepsLocksSafe(s.locks, s.locks, Line(s));
    case Acquire(id) =>
      if id in s.runs { AcquireKeepsSafe(s.locks, s.runs[id].plan, id); }
    case Release(id) => WithoutKeepsSafe(s.locks, (t: Taken) => t.run != id);
    case DropOrphan(k) =>
      if k < |s.locks| { RemovalKeepsSafe(s.locks, s.locks[..k] + s.locks[k + 1..]); }
    case Boot => WithoutKeepsSafe(s.locks, (t: Taken) => Keeps(s.runs, t.run));
    case _ =>
  }

  /** What a dispatch starts comes from the line, with its plan's claims. */
  lemma StartedInLine(s: Sys, w: Waiting)
    requires w in Started(s.locks, Line(s))
    ensures w.id in s.runs && s.runs[w.id].status.Queued? && !s.runs[w.id].deleted && w == AsWaiting(s.runs, w.id)
  {
    StartedAre(s.locks, Line(s));
    var i :| 0 <= i < |Line(s)| && Line(s)[i] == w && Starts(s.locks, Line(s), i);
    assert QueueIds(s.runs)[i] in QueueIds(s.runs);
  }

  lemma DispatchOwned(s: Sys, t: Taken)
    requires SysOk(s) && s.up && !s.stopping && t in Inserted(s.locks, Line(s))
    ensures t.run in s.runs && t.claim in PlanClaims(s.runs[t.run].plan) && EventFor(s, Dispatch, t.run) == Start
    ensures s.runs[t.run].status.Queued? && !s.runs[t.run].deleted
  {
    hide Step, RunOk, Inserted, Started;
    InsertedAre(s.locks, Line(s));
    var w :| w in Started(s.locks, Line(s)) && t in Held(w.claims, w.id);
    StartedInLine(s, w);
  }

  lemma OldLockOwned(s: Sys, a: Act, t: Taken)
    requires SysOk(s) && t in s.locks && t in LocksAfter(s, a)
    ensures var r' := Step(s.runs[t.run], EventFor(s, a, t.run)); !r'.status.Planned? && !r'.status.Queued? && !r'.deleted
  {
    StaysOwner(s.runs[t.run], EventFor(s, a, t.run));
  }

  /** Only a dispatch and an acquire add locks. */
  lemma OnlyTwoAdd(s: Sys, a: Act, t: Taken)
    requires t !in s.locks && t in LocksAfter(s, a)
    ensures a.Acquire? || (a.Dispatch? && s.up && !s.stopping && t in Inserted(s.locks, Line(s)))
  {
    hide Step, Acquired, Inserted;
  }

  lemma AcquiredIsOwn(locks: seq<Taken>, claims: seq<Claim>, id: RunId, t: Taken)
    requires t !in locks && t in Acquired(locks, claims, id)
    ensures t.run == id && t.claim in claims
  {
    assert t in Held(Missing(locks, claims, id), id);
  }

  lemma AcquirerOwns(s: Sys, id: RunId, t: Taken)
    requires t !in s.locks && t in LocksAfter(s, Acquire(id))
    ensures t.run in s.runs && t.claim in PlanClaims(s.runs[t.run].plan)
    ensures var r' := Step(s.runs[t.run], EventFor(s, Acquire(id), t.run)); !r'.status.Planned? && !r'.status.Queued? && !r'.deleted
  {
    hide Step, Acquired;
    AcquiredIsOwn(s.locks, PlanClaims(s.runs[id].plan), id, t);
    assert EventFor(s, Acquire(id), t.run) == Quiet;
    QuietKeeps(s.runs[t.run]);
  }

  lemma StartedOwner(r: Run)
    requires r.status.Queued? && !r.deleted
    ensures var r' := Step(r, Start); !r'.status.Planned? && !r'.status.Queued? && !r'.deleted
  {
  }

  lemma NewLockOwned(s: Sys, a: Act, t: Taken)
    requires SysOk(s) && t !in s.locks && t in LocksAfter(s, a)
    ensures t.run in s.runs && t.claim in PlanClaims(s.runs[t.run].plan)
    ensures var r' := Step(s.runs[t.run], EventFor(s, a, t.run)); !r'.status.Planned? && !r'.status.Queued? && !r'.deleted
  {
    hide Step, Inserted, Acquired;
    OnlyTwoAdd(s, a, t);
    if a.Dispatch? {
      DispatchOwned(s, t);
      StartedOwner(s.runs[t.run]);
    } else {
      AcquirerOwns(s, a.holder, t);
    }
  }

  lemma LockOwned(s: Sys, a: Act, t: Taken)
    requires SysOk(s) && t in LocksAfter(s, a)
    ensures t.run in s.runs && t.claim in PlanClaims(s.runs[t.run].plan)
    ensures var r' := Step(s.runs[t.run], EventFor(s, a, t.run)); !r'.status.Planned? && !r'.status.Queued? && !r'.deleted
  {
    if t in s.locks { OldLockOwned(s, a, t); } else { NewLockOwned(s, a, t); }
  }

  lemma LocksStayOwned(s: Sys, a: Act)
    requires SysOk(s)
    ensures LocksOwned(Apply(s, a))
  {
    hide Step, LocksAfter;
    forall t | t in Apply(s, a).locks
      ensures t.run in s.runs && t.claim in PlanClaims(s.runs[t.run].plan)
      ensures var r' := Step(s.runs[t.run], EventFor(s, a, t.run)); !r'.status.Planned? && !r'.status.Queued? && !r'.deleted
    {
      LockOwned(s, a, t);
    }
  }

  lemma DropKeepsOthers(locks: seq<Taken>, k: nat, t: Taken)
    requires k < |locks| && t in locks && t != locks[k]
    ensures t in locks[..k] + locks[k + 1..]
  {
    var i :| 0 <= i < |locks| && locks[i] == t;
    if i < k { assert locks[..k][i] == t; } else { assert locks[k + 1..][i - k - 1] == t; }
  }

  lemma DeletedIsNoHolder(r: Run)
    requires Deletable(r.status)
    ensures !Holder(Step(r, Delete))
  {
  }

  lemma OverIsNoHolder(r: Run)
    requires Over(r)
    ensures !Holder(r)
  {
  }

  /** A holder loses no lock while it stays one. */
  lemma HolderKeeps(s: Sys, a: Act, t: Taken)
    requires t in s.locks && t.run in s.runs && Holder(s.runs[t.run]) && Holder(Step(s.runs[t.run], EventFor(s, a, t.run)))
    ensures t in LocksAfter(s, a)
  {
    match a
    case On(run, e) =>
      if run == t.run && s.up && e.Delete? && Deletable(s.runs[run].status) {
        assert EventFor(s, a, run) == Delete;
        DeletedIsNoHolder(s.runs[run]);
      }
    case Release(run) =>
      if run == t.run && Over(s.runs[run]) { OverIsNoHolder(s.runs[run]); }
    case DropOrphan(k) =>
      assert Keeps(s.runs, t.run);
      if k < |s.locks| && t != s.locks[k] { DropKeepsOthers(s.locks, k, t); }
    case _ =>
  }

  lemma StartedHolds(s: Sys, id: RunId, c: Claim)
    requires SysOk(s) && s.up && !s.stopping && id in Ids(Started(s.locks, Line(s))) && id in s.runs && c in PlanClaims(s.runs[id].plan)
    ensures Taken(c, id) in Inserted(s.locks, Line(s))
  {
    var w :| w in Started(s.locks, Line(s)) && w.id == id;
    StartedInLine(s, w);
    InsertedAre(s.locks, Line(s));
    assert Taken(c, id) in Held(w.claims, w.id);
  }

  lemma HolderStays(s: Sys, a: Act, id: RunId, c: Claim)
    requires SysOk(s) && id in s.runs && Holder(Step(s.runs[id], EventFor(s, a, id))) && c in PlanClaims(s.runs[id].plan)
    ensures Taken(c, id) in LocksAfter(s, a)
  {
    hide Step, RunOk, Attended, CollisionFree, Started, Inserted, Acquired, LocksOwned, Holder;
    var r, e := s.runs[id], EventFor(s, a, id);
    if Holder(r) {
      assert Taken(c, id) in s.locks;
      HolderKeeps(s, a, Taken(c, id));
    } else {
      NewHolder(r, e);
      if e.Start? {
        StartedHolds(s, id, c);
      } else {
        assert a.On? && Admitted(s, id, e) && LocksAfter(s, a) == s.locks;
      }
    }
  }

  lemma HoldersStay(s: Sys, a: Act)
    requires SysOk(s)
    ensures HoldersHold(Apply(s, a))
  {
    forall id, c | id in s.runs && Holder(Step(s.runs[id], EventFor(s, a, id))) && c in PlanClaims(s.runs[id].plan)
      ensures Taken(c, id) in LocksAfter(s, a)
    {
      HolderStays(s, a, id, c);
    }
  }

  /** Every act keeps every invariant of the system. */
  lemma ApplyKeepsOk(s: Sys, a: Act)
    requires SysOk(s)
    ensures SysOk(Apply(s, a))
  {
    RunsStayOk(s, a);
    StaysAttended(s, a);
    LocksStaySafe(s, a);
    LocksStayOwned(s, a);
    HoldersStay(s, a);
  }

  lemma {:induction false} AlwaysOk(h: seq<Act>)
    ensures SysOk(Play(INIT, h))
  {
    if h != [] {
      AlwaysOk(h[..|h| - 1]);
      ApplyKeepsOk(Play(INIT, h[..|h| - 1]), h[|h| - 1]);
    }
  }

  /** Lock safety in every reachable state: no two locks of different runs collide, a run under way or
      stopped in the middle holds every claim of its plan, a planned or queued run holds none, and no run
      holds what its plan did not claim. */
  lemma LockSafety(h: seq<Act>)
    ensures var s := Play(INIT, h);
      && (forall a, b :: a in s.locks && b in s.locks && a.run != b.run ==> !Collides(a.claim, b.claim))
      && (forall id, c :: id in s.runs && Holder(s.runs[id]) && c in PlanClaims(s.runs[id].plan) ==> Taken(c, id) in s.locks)
      && (forall t :: t in s.locks ==>
            && t.run in s.runs && t.claim in PlanClaims(s.runs[t.run].plan)
            && !s.runs[t.run].status.Planned? && !s.runs[t.run].status.Queued? && !s.runs[t.run].deleted)
  {
    AlwaysOk(h);
  }

  /** Two runs whose plans collide are never under way together. */
  lemma MutualExclusion(h: seq<Act>, a: RunId, b: RunId, c: Claim, d: Claim)
    requires var s := Play(INIT, h); a in s.runs && b in s.runs && a != b && s.runs[a].status.Running? && s.runs[b].status.Running?
    requires var s := Play(INIT, h); c in PlanClaims(s.runs[a].plan) && d in PlanClaims(s.runs[b].plan)
    ensures !Collides(c, d)
  {
    var s := Play(INIT, h);
    AlwaysOk(h);
    assert Holder(s.runs[a]) && Holder(s.runs[b]);
    assert Taken(c, a) in s.locks && Taken(d, b) in s.locks;
  }

  /** A recovery of a run that stopped in the middle never waits: it still holds every claim. */
  lemma RecoveryNeverBusy(h: seq<Act>, id: RunId)
    requires var s := Play(INIT, h); id in s.runs && Holder(s.runs[id])
    ensures var s := Play(INIT, h); Missing(s.locks, PlanClaims(s.runs[id].plan), id) == []
  {
    var s := Play(INIT, h);
    AlwaysOk(h);
    FilterEmpty(PlanClaims(s.runs[id].plan), (c: Claim) => Taken(c, id) !in s.locks);
  }

  /** No run is stranded: while the process is up and not shutting down, every approved or running run is
      being executed, whatever crashes and boots came before. */
  lemma NobodyStranded(h: seq<Act>, id: RunId)
    requires var s := Play(INIT, h); s.up && !s.stopping && id in s.runs && (s.runs[id].status.Approved? || s.runs[id].status.Running?)
    ensures var e := Play(INIT, h).runs[id].exec; e.Fired? || e.Walking? || e.InStep?
  {
    AlwaysOk(h);
  }
}
