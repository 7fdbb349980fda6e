/** The way back from one run's histories to the system's: a run that is alone in the system lives every history
    of events there is, but for a shutdown and a start without its secrets. */
module Alone {
  import opened Common
  import opened Locks
  import opened Queue
  import opened Runs
  import opened System
  import opened LockSafety
  import Acts
  import NoDeadlock

  /** The walk does not meet a shutdown, and a queued run that starts has its secrets. */
  predicate Unhindered(r: Run, e: Event) {
    !(e.Advance? && e.stopping) && (e.Start? && r.status.Queued? ==> r.plan.requiredSecrets == [] || r.secrets)
  }

  ghost predicate AllUnhindered(r: Run, es: seq<Event>) {
    es == [] || (AllUnhindered(r, es[..|es| - 1]) && Unhindered(After(r, es[..|es| - 1]), es[|es| - 1]))
  }

  ghost predicate IsAlone(s: Sys, id: RunId) { SysOk(s) && s.runs.Keys == {id} && !s.stopping }

  // ---------------------------------------------------------------- one act

  lemma OneAct(s: Sys, id: RunId, a: Act)
    requires IsAlone(s, id) && !a.Shutdown? && !a.Propose?
    ensures IsAlone(Apply(s, a), id) && Apply(s, a).runs[id] == Step(s.runs[id], EventFor(s, a, id))
    ensures Apply(s, a).up == if a.Die? then false else a.Boot? || s.up
  {
    hide Step, SysOk, EventFor, LocksAfter;
    ApplyKeepsOk(s, a);
  }

  lemma LocksAreOwn(s: Sys, id: RunId)
    requires IsAlone(s, id)
    ensures Without(s.locks, id) == []
    ensures s.runs[id].status.Queued? ==> s.locks == [] && !s.runs[id].deleted
  {
    FirstIsMember(Without(s.locks, id));
    FirstIsMember(s.locks);
    assert RunOk(s.runs[id]);
  }

  lemma StartsAlone(s: Sys, id: RunId)
    requires IsAlone(s, id) && s.up && s.runs[id].status.Queued? && Unhindered(s.runs[id], Start)
    ensures EventFor(s, Dispatch, id) == Start
  {
    hide Step, SysOk, Started, Line;
    LocksAreOwn(s, id);
    assert NoDeadlock.WaitsForLocks(s, id);
    assert NoDeadlock.Live(s);
    var x := NoDeadlock.FirstStarts(s, id);
    NoDeadlock.AheadIsThere(s, id, x);
  }

  lemma AcquiresAlone(s: Sys, id: RunId)
    requires IsAlone(s, id) && s.up && Abortable(s.runs[id])
    ensures var s' := Apply(s, Acquire(id));
      IsAlone(s', id) && s'.up && s'.runs[id] == s.runs[id] && HoldsAll(s'.locks, s.runs[id].plan, id)
  {
    hide Step, SysOk, Acquired;
    LocksAreOwn(s, id);
    OneAct(s, id, Acquire(id));
    QuietKeeps(s.runs[id]);
    var missing := Missing(s.locks, PlanClaims(s.runs[id].plan), id);
    ConflictsIffCollision([], missing);
    Acts.AcquiredAll(s.locks, s.runs[id].plan, id);
  }

  // ---------------------------------------------------------------- one event

  lemma Two(s: Sys, a: Act, b: Act)
    ensures Play(s, [a]) == Apply(s, a) && Play(s, [a, b]) == Apply(Apply(s, a), b)
  {
    hide Apply;
    assert [a, b][..1] == [a] && [a][..0] == [];
    assert Play(s, []) == s;
  }

  predicate TakesLocks(e: Event) { e.Retry? || e.Skip? || e.ScheduleCleanups? }

  /** Events that change nothing where the process is up, or where the run is not what they are for. */
  lemma Idles(s: Sys, id: RunId, e: Event)
    requires IsAlone(s, id) && s.up
    ensures e.Resume? || e.NormalizeRows? || e.CancelPaused? ==> Step(s.runs[id], e) == s.runs[id]
    ensures e.Start? && !s.runs[id].status.Queued? ==> Step(s.runs[id], e) == s.runs[id]
    ensures TakesLocks(e) && !Abortable(s.runs[id]) ==> Step(s.runs[id], e) == s.runs[id]
  {
    assert RunOk(s.runs[id]) && Attended(s.up, s.stopping, s.runs[id]);
    IdlesHere(s.runs[id], e);
  }

  lemma IdlesHere(r: Run, e: Event)
    requires !r.exec.Cut? && !(r.status.Running? && r.exec.Idle?)
    ensures e.Resume? || e.NormalizeRows? || e.CancelPaused? ==> Step(r, e) == r
    ensures e.Start? && !r.status.Queued? ==> Step(r, e) == r
    ensures TakesLocks(e) && !Abortable(r) ==> Step(r, e) == r
  {
  }

  /** The acts that are one event for the run, while the process is up. */
  lemma LivesEvent(s: Sys, id: RunId, e: Event) returns (h: seq<Act>)
    requires IsAlone(s, id) && s.up && Unhindered(s.runs[id], e)
    ensures IsAlone(Play(s, h), id) && Play(s, h).runs[id] == Step(s.runs[id], e)
  {
    hide Step, SysOk, Apply, Abortable;
    Idles(s, id, e);
    if e.Crash? {
      h := [Die];
      OneAct(s, id, Die);
    } else if e.Start? && s.runs[id].status.Queued? {
      h := [Dispatch];
      StartsAlone(s, id);
      OneAct(s, id, Dispatch);
    } else if TakesLocks(e) && Abortable(s.runs[id]) {
      h := [Acquire(id), On(id, e)];
      AcquiresAlone(s, id);
      RecoversAlone(Apply(s, Acquire(id)), id, e);
    } else if e.Start? || e.Resume? || e.NormalizeRows? || e.CancelPaused? || TakesLocks(e) {
      h := [];
    } else {
      h := [On(id, e)];
      PlainAlone(s, id, e);
    }
    if h != [] { Two(s, h[0], h[|h| - 1]); }
  }

  lemma RecoversAlone(s: Sys, id: RunId, e: Event)
    requires IsAlone(s, id) && s.up && TakesLocks(e) && HoldsAll(s.locks, s.runs[id].plan, id)
    ensures IsAlone(Apply(s, On(id, e)), id) && Apply(s, On(id, e)).runs[id] == Step(s.runs[id], e)
  {
    hide Step, SysOk;
    OneAct(s, id, On(id, e));
  }

  lemma PlainAlone(s: Sys, id: RunId, e: Event)
    requires IsAlone(s, id) && s.up && Unhindered(s.runs[id], e)
    requires !e.Crash? && !e.Start? && !e.Resume? && !e.NormalizeRows? && !e.CancelPaused? && !TakesLocks(e)
    ensures IsAlone(Apply(s, On(id, e)), id) && Apply(s, On(id, e)).runs[id] == Step(s.runs[id], e)
  {
    hide Step, SysOk;
    OneAct(s, id, On(id, e));
  }

  // ---------------------------------------------------------------- while the process is down

  lemma CutIdles(r: Run, e: Event)
    requires Consistent(r) && r.exec.Cut? && !e.Crash? && !e.Resume? && !e.NormalizeRows?
    ensures Step(r, e) == r
  {
  }

  lemma NotCutBoots(r: Run)
    requires !r.exec.Cut?
    ensures Step(r, Resume) == r
  {
  }

  lemma DownRun(s: Sys, id: RunId)
    requires IsAlone(s, id) && !s.up
    ensures Consistent(s.runs[id])
  {
    assert RunOk(s.runs[id]);
  }

  lemma PlayNone(s: Sys)
    ensures Play(s, []) == s
  {
  }

  lemma DownAct(s: Sys, id: RunId, a: Act, e: Event)
    requires IsAlone(s, id) && !s.up
    requires (a.Die? && e.Crash?) || (a.Boot? && e.Resume?) || (a == NormalizeOne(id) && e.NormalizeRows?)
    ensures IsAlone(Apply(s, a), id) && Apply(s, a).runs[id] == Step(s.runs[id], e) && (a.Boot? ==> Apply(s, a).up)
  {
    hide Step, SysOk;
    OneAct(s, id, a);
  }

  lemma LivesDown(s: Sys, id: RunId, e: Event) returns (h: seq<Act>)
    requires IsAlone(s, id) && !s.up && Unhindered(s.runs[id], e)
    ensures IsAlone(Play(s, h), id) && Play(s, h).runs[id] == Step(s.runs[id], e)
  {
    hide Step, SysOk, Apply, Play;
    DownRun(s, id);
    if e.Crash? || e.Resume? || e.NormalizeRows? {
      var a := if e.Crash? then Die else if e.Resume? then Boot else NormalizeOne(id);
      h := [a];
      DownAct(s, id, a, e);
      Two(s, a, a);
    } else if s.runs[id].exec.Cut? {
      h := [];
      CutIdles(s.runs[id], e);
      PlayNone(s);
    } else {
      NotCutBoots(s.runs[id]);
      DownAct(s, id, Boot, Resume);
      Two(s, Boot, Boot);
      var rest := LivesEvent(Apply(s, Boot), id, e);
      NoDeadlock.PlayBoth(s, [Boot], rest);
      h := [Boot] + rest;
    }
  }

  // ---------------------------------------------------------------- every history

  lemma {:induction false} LivesOn(s: Sys, id: RunId, es: seq<Event>) returns (h: seq<Act>)
    requires IsAlone(s, id) && AllUnhindered(s.runs[id], es)
    ensures IsAlone(Play(s, h), id) && Play(s, h).runs[id] == After(s.runs[id], es)
    decreases |es|
  {
    hide Step, IsAlone, Apply;
    if es == [] {
      h := [];
    } else {
      var last := |es| - 1;
      var h0 := LivesOn(s, id, es[..last]);
      var mid := Play(s, h0);
      var h1;
      if mid.up { h1 := LivesEvent(mid, id, es[last]); } else { h1 := LivesDown(mid, id, es[last]); }
      NoDeadlock.PlayBoth(s, h0, h1);
      h := h0 + h1;
    }
  }

  lemma ProposedAlone(id: RunId, plan: Plan)
    requires WellPlanned(plan)
    ensures var s := Play(INIT, [Propose(id, plan)]); IsAlone(s, id) && s.runs[id] == NewRun(plan)
  {
    AlwaysOk([Propose(id, plan)]);
    hide SysOk, Step;
    Two(INIT, Propose(id, plan), Boot);
  }

  /** Every state a run's own history leads to, if the history meets no shutdown and no start without its
      secrets, is that of a run in a reachable state of the whole system. */
  lemma EveryHistoryIsLived(id: RunId, plan: Plan, es: seq<Event>) returns (h: seq<Act>)
    requires WellPlanned(plan) && AllUnhindered(NewRun(plan), es)
    ensures id in Play(INIT, h).runs && Play(INIT, h).runs[id] == After(NewRun(plan), es)
  {
    hide Apply, After, AllUnhindered, SysOk;
    var propose := [Propose(id, plan)];
    ProposedAlone(id, plan);
    var rest := LivesOn(Play(INIT, propose), id, es);
    NoDeadlock.PlayBoth(INIT, propose, rest);
    h := propose + rest;
  }

  lemma SecretsStay(r: Run, e: Event)
    requires Consistent(r) && (r.deleted ==> Deletable(r.status)) && (r.status.Queued? ==> r.secrets) && !e.Crash?
    ensures Step(r, e).status.Queued? ==> Step(r, e).secrets
  {
  }

  /** Without a death of the process a queued run has its secrets. */
  lemma {:induction false} SteadyIsUnhindered(plan: Plan, es: seq<Event>)
    requires WellPlanned(plan) && Steady(es)
    ensures AllUnhindered(NewRun(plan), es)
    ensures var r := After(NewRun(plan), es); r.status.Queued? ==> r.secrets
  {
    hide Step;
    if es != [] {
      var front, e := es[..|es| - 1], es[|es| - 1];
      assert e in es && forall x :: x in front ==> x in es;
      SteadyIsUnhindered(plan, front);
      NewRunOk(plan);
      AfterKeepsOk(NewRun(plan), front);
      SecretsStay(After(NewRun(plan), front), e);
    }
  }

  /** So it is for every history without a death or a shutdown, and those that show a promise broken are such. */
  lemma SteadyHistoryIsLived(id: RunId, plan: Plan, es: seq<Event>) returns (h: seq<Act>)
    requires WellPlanned(plan) && Steady(es)
    ensures id in Play(INIT, h).runs && Play(INIT, h).runs[id] == After(NewRun(plan), es)
  {
    SteadyIsUnhindered(plan, es);
    h := EveryHistoryIsLived(id, plan, es);
  }
}
