/** When the locks of a run that is over are let go, and when they are not. */
module LockRelease {
  import opened Locks
  import opened Queue
  import opened Steps
  import opened Runs
  import opened System
  import opened LockSafety
  import Acts

  ghost predicate HoldsNone(s: Sys, id: RunId) { forall t :: t in s.locks ==> t.run != id }

  ghost predicate Begun(s: Sys, id: RunId) { id in s.runs && !s.runs[id].status.Planned? && !s.runs[id].status.Queued? }

  // ---------------------------------------------------------------- let go for good

  lemma BegunStays(s: Sys, a: Act, id: RunId)
    requires Begun(s, id)
    ensures Begun(Apply(s, a), id)
  {
    BegunRun(s.runs[id], EventFor(s, a, id));
  }

  lemma BegunRun(r: Run, e: Event)
    requires !r.status.Planned? && !r.status.Queued?
    ensures !Step(r, e).status.Planned? && !Step(r, e).status.Queued?
  {
  }

  lemma NoneStays(s: Sys, a: Act, id: RunId)
    requires SysOk(s) && Begun(s, id) && HoldsNone(s, id) && a != Acquire(id)
    ensures HoldsNone(Apply(s, a), id)
  {
    hide Step, LocksAfter, SysOk, Inserted, Acquired;
    forall t | t in LocksAfter(s, a) ensures t.run != id {
      if t !in s.locks {
        OnlyTwoAdd(s, a, t);
        if a.Dispatch? { DispatchOwned(s, t); } else { AcquirerIs(s, a.holder, t); }
      }
    }
  }

  lemma AcquirerIs(s: Sys, id: RunId, t: Taken)
    requires t !in s.locks && t in LocksAfter(s, Acquire(id))
    ensures t.run == id
  {
    hide Acquired;
    AcquiredIsOwn(s.locks, PlanClaims(s.runs[id].plan), id, t);
  }

  /** A run that has let its locks go holds none, whatever happens, until a recovery asks for them. */
  lemma {:induction false} ReleasedStaysFree(s: Sys, id: RunId, h: seq<Act>)
    requires SysOk(s) && Begun(s, id) && HoldsNone(s, id) && forall a :: a in h ==> a != Acquire(id)
    ensures SysOk(Play(s, h)) && Begun(Play(s, h), id) && HoldsNone(Play(s, h), id)
    decreases |h|
  {
    hide SysOk, Apply, Begun, HoldsNone;
    if h != [] {
      var last := |h| - 1;
      assert h[last] in h && forall a :: a in h[..last] ==> a in h;
      ReleasedStaysFree(s, id, h[..last]);
      BegunStays(Play(s, h[..last]), h[last], id);
      NoneStays(Play(s, h[..last]), h[last], id);
      ApplyKeepsOk(Play(s, h[..last]), h[last]);
    }
  }

  // ---------------------------------------------------------------- the process dies at the end of a run

  lemma EndedRun(r: Run, stopping: bool)
    requires r.exec.Walking? && FirstUnfinished(r.steps) == |r.steps|
    ensures var r' := Step(Step(Step(r, Advance(stopping, true)), Crash), Resume);
      Over(r') && r'.exec.Idle? && (MayHold(r'.status) <==> IsCleanupRun(r.steps))
  {
  }

  lemma PlayThree(s: Sys, a: Act, b: Act, c: Act)
    ensures Play(s, [a, b, c]) == Apply(Apply(Apply(s, a), b), c)
  {
    hide Apply;
    assert [a, b, c][..2] == [a, b] && [a, b][..1] == [a] && [a][..0] == [];
    assert Play(s, [a]) == Apply(s, a);
  }

  lemma EventThere(s: Sys, id: RunId, e: Event)
    requires s.up && id in s.runs && Admitted(s, id, e) && !e.Delete?
    ensures var s' := Apply(s, On(id, e)); id in s'.runs && s'.runs[id] == Step(s.runs[id], e) && s'.locks == s.locks && s'.up
  {
    hide Step;
  }

  lemma DeathThere(s: Sys, id: RunId)
    requires id in s.runs
    ensures var s' := Apply(s, Die); id in s'.runs && s'.runs[id] == Step(s.runs[id], Crash) && s'.locks == s.locks && !s'.up
  {
    hide Step;
  }

  lemma BootThere(s: Sys, id: RunId)
    requires !s.up && id in s.runs
    ensures var s' := Apply(s, Boot); id in s'.runs && s'.runs[id] == Step(s.runs[id], Resume)
    ensures forall t :: t in Apply(s, Boot).locks <==> t in s.locks && Keeps(s.runs, t.run)
  {
    hide Step;
  }

  lemma ResumeHolds(r: Run)
    ensures MayHold(Step(r, Resume).status) <==> MayHold(r.status)
  {
  }

  /** A run is at its end when the process dies, before its locks are let go. The next boot takes the locks of
      a succeeded run from it and leaves those of a run that was cleaned up. */
  lemma DeathAtTheEndIff(s: Sys, id: RunId, c: Claim)
    requires SysOk(s) && s.up && id in s.runs && s.runs[id].exec.Walking? && FirstUnfinished(s.runs[id].steps) == |s.runs[id].steps|
    requires c in PlanClaims(s.runs[id].plan)
    ensures var s' := Play(s, [On(id, Advance(s.stopping, true)), Die, Boot]);
      && id in s'.runs && Over(s'.runs[id]) && s'.runs[id].exec.Idle?
      && (Taken(c, id) in s'.locks <==> IsCleanupRun(s.runs[id].steps))
  {
    hide Step, Apply, Play, SysOk, Holder, IsCleanupRun, Over, MayHold;
    var e := Advance(s.stopping, true);
    WalkerHolds(s, id, c);
    EndedRun(s.runs[id], s.stopping);
    DeathAfter(s, id, e);
    ResumeHolds(Step(Step(s.runs[id], e), Crash));
  }

  lemma BootedIdle(r: Run)
    requires r.status.Cancelled? && r.exec.Idle?
    ensures Step(r, Crash) == r.(secrets := false) && Step(Step(r, Crash), Resume) == r.(secrets := false)
  {
  }

  lemma SettledIs(r: Run)
    requires Abortable(r) && r.exec.Idle? && Registered(r.steps) == []
    ensures Step(r, Settle) == r.(steps := Abandon(r.steps), status := Cancelled)
  {
  }

  lemma SettledRun(r: Run)
    requires Abortable(r) && r.exec.Idle? && Registered(r.steps) == []
    ensures var r' := Step(Step(Step(r, Settle), Crash), Resume); Over(r') && r'.status.Cancelled? && r'.exec.Idle?
    ensures MayHold(Step(Step(r, Settle), Crash).status)
  {
    hide Step, Registered;
    var rows := Abandon(r.steps);
    SettledIs(r);
    BootedIdle(Step(r, Settle));
    FirstUnfinishedIs(rows, |rows|);
  }

  /** Three acts: something of one run that takes no lock away, the death and the boot. */
  lemma DeathAfter(s: Sys, id: RunId, e: Event)
    requires s.up && id in s.runs && Admitted(s, id, e) && !e.Delete?
    ensures var s' := Play(s, [On(id, e), Die, Boot]);
      && id in s'.runs && s'.runs[id] == Step(Step(Step(s.runs[id], e), Crash), Resume)
      && forall t: Taken :: t.run == id ==> (t in s'.locks <==> t in s.locks && MayHold(Step(Step(s.runs[id], e), Crash).status))
  {
    hide Step, Apply, Play, MayHold;
    var s1 := Apply(s, On(id, e));
    PlayThree(s, On(id, e), Die, Boot);
    EventThere(s, id, e);
    DeathThere(s1, id);
    BootThere(Apply(s1, Die), id);
  }

  /** A run is settled for want of anything registered, and the process dies before the locks are let go: the next boot leaves
      the run every lock it held, which is all of its plan's claims if it had stopped in the middle. */
  lemma DeathAtTheSettling(s: Sys, id: RunId)
    requires SysOk(s) && s.up && id in s.runs && Abortable(s.runs[id]) && s.runs[id].exec.Idle? && Registered(s.runs[id].steps) == []
    ensures var s' := Play(s, [On(id, Settle), Die, Boot]);
      && Parked(s', id) && Over(s'.runs[id])
      && (forall t: Taken :: t.run == id ==> (t in s'.locks <==> t in s.locks))
      && (Holder(s.runs[id]) ==> forall c :: c in PlanClaims(s.runs[id].plan) ==> Taken(c, id) in s'.locks)
  {
    hide Step, Apply, Play, SysOk, Holder, Over, Registered, MayHold;
    SettledRun(s.runs[id]);
    DeathAfter(s, id, Settle);
    if Holder(s.runs[id]) {
      forall c | c in PlanClaims(s.runs[id].plan) ensures Taken(c, id) in s.locks { HolderTakes(s, id, c); }
    }
  }

  lemma AcquireThere(s: Sys, id: RunId)
    requires s.up && id in s.runs && Abortable(s.runs[id])
    ensures var s' := Apply(s, Acquire(id)); id in s'.runs && s'.runs[id] == s.runs[id] && s'.up
    ensures Apply(s, Acquire(id)).locks == Acquired(s.locks, PlanClaims(s.runs[id].plan), id)
  {
    QuietKeeps(s.runs[id]);
    hide Step;
  }

  lemma TakesAll(locks: seq<Taken>, plan: Plan, id: RunId)
    requires !AnyCollision(Without(locks, id), Missing(locks, PlanClaims(plan), id))
    ensures HoldsAll(Acquired(locks, PlanClaims(plan), id), plan, id)
  {
    ConflictsIffCollision(Without(locks, id), Missing(locks, PlanClaims(plan), id));
    Acts.AcquiredAll(locks, plan, id);
  }

  lemma ParkedBoots(r: Run)
    requires r.status.Cancelled? && r.exec.Idle? && Over(r)
    ensures var r' := Step(Step(r, Crash), Resume); r'.status.Cancelled? && r'.exec.Idle? && Over(r')
    ensures MayHold(Step(r, Crash).status)
  {
    BootedIdle(r);
    hide Step;
  }

  /** A recovery of a run that is over takes its locks first, and the process dies before it rewrites a row: the
      next boot leaves the run all of them, over as it is. */
  lemma DeathAtTheRecovery(s: Sys, id: RunId)
    requires SysOk(s) && s.up && Parked(s, id) && Over(s.runs[id]) && !s.runs[id].deleted
    requires !AnyCollision(Without(s.locks, id), Missing(s.locks, PlanClaims(s.runs[id].plan), id))
    ensures var s' := Play(s, [Acquire(id), Die, Boot]);
      Parked(s', id) && Over(s'.runs[id]) && HoldsAll(s'.locks, s.runs[id].plan, id)
  {
    hide Step, Apply, Play, SysOk, Over, Acquired, MayHold;
    var s1 := Apply(s, Acquire(id));
    AcquireThere(s, id);
    TakesAll(s.locks, s.runs[id].plan, id);
    PlayThree(s, Acquire(id), Die, Boot);
    DeathThere(s1, id);
    BootThere(Apply(s1, Die), id);
    ParkedBoots(s.runs[id]);
  }

  lemma WalkerHolds(s: Sys, id: RunId, c: Claim)
    requires SysOk(s) && id in s.runs && s.runs[id].exec.Walking? && c in PlanClaims(s.runs[id].plan)
    ensures Taken(c, id) in s.locks
  {
    HolderTakes(s, id, c);
  }

  // ---------------------------------------------------------------- and stays held

  /** Nobody asks for anything of the run, and nothing lets its locks go. */
  ghost predicate Untouched(h: seq<Act>, id: RunId) {
    forall a :: a in h ==> a != Release(id) && !(a.On? && a.run == id)
  }

  ghost predicate Parked(s: Sys, id: RunId) { id in s.runs && s.runs[id].status.Cancelled? && s.runs[id].exec.Idle? }

  lemma ParkedRun(s: Sys, a: Act, id: RunId)
    requires Parked(s, id) && !(a.On? && a.run == id)
    ensures Parked(Apply(s, a), id)
  {
    var e := EventFor(s, a, id);
    assert e.Quiet? || e.Start? || e.Crash? || e.NormalizeRows? || e.Resume?;
    ParkedStep(s.runs[id], e);
    hide Step;
  }

  lemma ParkedStep(r: Run, e: Event)
    requires r.status.Cancelled? && r.exec.Idle? && (e.Quiet? || e.Start? || e.Crash? || e.NormalizeRows? || e.Resume?)
    ensures Step(r, e).status.Cancelled? && Step(r, e).exec.Idle?
  {
  }

  lemma LockStays(s: Sys, a: Act, t: Taken)
    requires Parked(s, t.run) && t in s.locks && a != Release(t.run) && !(a.On? && a.run == t.run)
    ensures t in Apply(s, a).locks
  {
    hide Step, Inserted, LockConflicts;
    match a
    case DropOrphan(k) =>
      if k < |s.locks| && t != s.locks[k] { DropKeepsOthers(s.locks, k, t); }
    case _ =>
  }

  lemma {:induction false} LockLasts(s: Sys, t: Taken, h: seq<Act>)
    requires SysOk(s) && Parked(s, t.run) && t in s.locks && Untouched(h, t.run)
    ensures SysOk(Play(s, h)) && Parked(Play(s, h), t.run) && t in Play(s, h).locks
    decreases |h|
  {
    hide SysOk, Apply, Parked;
    if h != [] {
      var last := |h| - 1;
      assert h[last] in h && forall a :: a in h[..last] ==> a in h;
      LockLasts(s, t, h[..last]);
      ParkedRun(Play(s, h[..last]), h[last], t.run);
      LockStays(Play(s, h[..last]), h[last], t);
      ApplyKeepsOk(Play(s, h[..last]), h[last]);
    }
  }

  /** The lock a cleaned-up run kept over a crash bars every run whose claims collide with it, through any
      number of dispatches, crashes and boots, until somebody deletes the run or takes it up again. */
  lemma KeptLockBars(s: Sys, t: Taken, h: seq<Act>, id: RunId, c: Claim)
    requires SysOk(s) && Parked(s, t.run) && t in s.locks && Untouched(h, t.run)
    requires id in Play(s, h).runs && id != t.run && c in PlanClaims(Play(s, h).runs[id].plan) && Collides(t.claim, c)
    ensures t in Play(s, h).locks && !Holder(Play(s, h).runs[id])
  {
    LockLasts(s, t, h);
    BarredRun(Play(s, h), t, id, c);
  }

  lemma HolderTakes(s: Sys, id: RunId, c: Claim)
    requires SysOk(s) && id in s.runs && Holder(s.runs[id]) && c in PlanClaims(s.runs[id].plan)
    ensures Taken(c, id) in s.locks
  {
  }

  lemma BarredRun(s: Sys, t: Taken, id: RunId, c: Claim)
    requires SysOk(s) && t in s.locks && id in s.runs && id != t.run && c in PlanClaims(s.runs[id].plan) && Collides(t.claim, c)
    ensures !Holder(s.runs[id])
  {
    if Holder(s.runs[id]) { HolderTakes(s, id, c); }
  }
}
