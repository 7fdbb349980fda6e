/** Nobody waits for ever: whatever happens to the runs that hold locks, every queued run that has its secrets
    starts once the queue has been looked at often enough with no lock held, and such looks can always be had. */
module NoDeadlock {
  import opened Common
  import opened Locks
  import opened Queue
  import opened Runs
  import opened System
  import opened LockSafety
  import opened WholeSystem

  /** What it takes to end a run and to take it away. */
  predicate Ending(e: Event) { e.FailBegin? || e.Signal? || e.Advance? || e.StepFail? || e.Delete? }

  ghost predicate Live(s: Sys) { SysOk(s) && s.up && !s.stopping }

  // ---------------------------------------------------------------- one holder ends

  lemma PlayNext(s: Sys, h: seq<Act>, a: Act)
    ensures Play(s, h + [a]) == Apply(Play(s, h), a)
  {
    assert (h + [a])[..|h|] == h;
  }

  lemma {:induction false} PlayBoth(s: Sys, a: seq<Act>, b: seq<Act>)
    ensures Play(s, a + b) == Play(Play(s, a), b)
  {
    hide Apply;
    if b == [] {
      assert a + b == a;
    } else {
      var last := |b| - 1;
      PlayBoth(s, a, b[..last]);
      assert (a + b)[..|a + b| - 1] == a + b[..last];
    }
  }

  lemma TraceNext(s: Sys, h: seq<Act>, a: Act, id: RunId)
    requires id in s.runs
    ensures id in Play(s, h).runs && TraceFrom(s, h + [a], id) == TraceFrom(s, h, id) + [EventFor(Play(s, h), a, id)]
  {
    hide Apply, EventFor;
    TraceFromLeads(s, h, id);
    var all := h + [a];
    assert all[..|all| - 1] == h && all[|all| - 1] == a;
  }

  /** `s'` is `s` but for run `id`. */
  ghost predicate OnlyIt(s: Sys, s': Sys, id: RunId) {
    && s'.up == s.up && s'.stopping == s.stopping && s'.runs.Keys == s.runs.Keys
    && forall x :: x in s.runs && x != id ==> s'.runs[x] == s.runs[x]
  }

  lemma EventOnIt(s: Sys, id: RunId, e: Event)
    requires Live(s) && id in s.runs && Admitted(s, id, e)
    ensures var s' := Apply(s, On(id, e));
      && Live(s') && OnlyIt(s, s', id) && s'.runs[id] == Step(s.runs[id], e)
      && s'.locks == if e.Delete? && Deletable(s.runs[id].status) && !s.runs[id].deleted then Without(s.locks, id) else s.locks
  {
    hide Step, SysOk;
    ApplyKeepsOk(s, On(id, e));
    forall x | x in s.runs && x != id ensures Step(s.runs[x], EventFor(s, On(id, e), x)) == s.runs[x] { QuietKeeps(s.runs[x]); }
  }

  /** A run that is under way or settled, and not taken away. */
  predicate Present(r: Run) { !r.status.Planned? && !r.status.Queued? && !r.deleted }

  lemma EndsFired(r: Run)
    requires r.exec.Fired? && Present(r)
    ensures var r' := Step(r, FailBegin); Present(r') && Deletable(r'.status)
  {
  }

  lemma EndsWalking(r: Run)
    requires r.exec.Walking? && Present(r)
    ensures var r1 := Step(r, Signal); Present(r1) && r1.exec == Walking(true)
    ensures var r2 := Step(Step(r, Signal), Advance(false, true)); Present(r2) && Deletable(r2.status)
  {
    SignalWalking(r);
    hide Step;
    EndsSignalled(Step(r, Signal));
  }

  lemma SignalWalking(r: Run)
    requires r.exec.Walking?
    ensures Step(r, Signal) == r.(exec := Walking(true))
  {
  }

  lemma EndsSignalled(r: Run)
    requires r.exec == Walking(true) && Present(r)
    ensures var r' := Step(r, Advance(false, true)); Present(r') && Deletable(r'.status)
  {
  }

  lemma EndsInStep(r: Run)
    requires Inside(r) && Present(r)
    ensures var r' := Step(r, StepFail(false)); Present(r') && Deletable(r'.status)
  {
  }

  lemma OneEvent(s: Sys, id: RunId, e: Event) returns (h: seq<Act>)
    requires Live(s) && id in s.runs && Admitted(s, id, e)
    ensures h == [On(id, e)] && Play(s, h) == Apply(s, On(id, e))
  {
    hide Apply;
    h := [] + [On(id, e)];
    PlayNext(s, [], On(id, e));
  }

  /** The execution of a run is brought to its end, wherever it is. */
  lemma EndIt(s: Sys, id: RunId) returns (h: seq<Act>)
    requires Live(s) && id in s.runs && Present(s.runs[id])
    ensures forall a :: a in h ==> a.On? && a.run == id && Ending(a.event)
    ensures var s' := Play(s, h); Live(s') && OnlyIt(s, s', id) && s'.locks == s.locks && Present(s'.runs[id]) && Deletable(s'.runs[id].status)
  {
    hide Step, Apply, Live, Present, Deletable;
    LiveRun(s, id);
    match s.runs[id].exec
    case Fired =>
      EndsFired(s.runs[id]);
      EventOnIt(s, id, FailBegin);
      h := OneEvent(s, id, FailBegin);
    case Walking(_) =>
      EndsWalking(s.runs[id]);
      EventOnIt(s, id, Signal);
      var h1 := OneEvent(s, id, Signal);
      var s1 := Play(s, h1);
      LiveAdmits(s1, id);
      EventOnIt(s1, id, Advance(false, true));
      PlayNext(s, h1, On(id, Advance(false, true)));
      h := h1 + [On(id, Advance(false, true))];
    case InStep(_, _) =>
      EndsInStep(s.runs[id]);
      EventOnIt(s, id, StepFail(false));
      h := OneEvent(s, id, StepFail(false));
    case _ =>
      h := [];
  }

  lemma LiveAdmits(s: Sys, id: RunId)
    requires Live(s) && id in s.runs
    ensures Admitted(s, id, Advance(false, true))
  {
  }

  /** In a live system a run is executed, or it has settled. */
  lemma LiveRun(s: Sys, id: RunId)
    requires Live(s) && id in s.runs && Present(s.runs[id])
    ensures var r := s.runs[id];
      && (r.exec.InStep? ==> Inside(r)) && !r.exec.Cut? && (r.exec.Idle? ==> Deletable(r.status))
  {
    assert RunOk(s.runs[id]) && Attended(true, false, s.runs[id]);
  }

  /** ... and taken away, which lets its locks go. */
  lemma FreeIt(s: Sys, id: RunId) returns (h: seq<Act>)
    requires Live(s) && id in s.runs && Present(s.runs[id])
    ensures forall a :: a in h ==> a.On? && a.run == id && Ending(a.event)
    ensures var s' := Play(s, h); Live(s') && OnlyIt(s, s', id) && s'.locks == Without(s.locks, id) && !s'.runs[id].status.Queued?
  {
    hide Step, Live;
    h := EndIt(s, id);
    var s1 := Play(s, h);
    EventOnIt(s1, id, Delete);
    DeletedRun(s1.runs[id]);
    PlayNext(s, h, On(id, Delete));
    h := h + [On(id, Delete)];
  }

  lemma DeletedRun(r: Run)
    requires Present(r)
    ensures !Step(r, Delete).status.Queued?
  {
  }

  // ---------------------------------------------------------------- all holders end

  /** Every holder ends and is taken away: no lock is left. */
  lemma {:induction false} AllEnd(s: Sys) returns (h: seq<Act>)
    requires Live(s)
    ensures forall a :: a in h ==> a.On? && Ending(a.event)
    ensures Live(Play(s, h)) && Play(s, h).locks == []
    decreases |s.locks|
  {
    hide Step, Apply;
    if s.locks == [] {
      h := [];
    } else {
      var t := s.locks[0];
      assert t in s.locks && t.run in s.runs && Present(s.runs[t.run]);
      hide Live;
      var h1 := FreeIt(s, t.run);
      var s1 := Play(s, h1);
      FilterShrinks(s.locks, (u: Taken) => u.run != t.run, t);
      var h2 := AllEnd(s1);
      PlayBoth(s, h1, h2);
      h := h1 + h2;
    }
  }

  // ---------------------------------------------------------------- round after round

  /** A queued run that has what it needs. */
  ghost predicate WaitsForLocks(s: Sys, id: RunId) { id in QueuedIds(s.runs) && !AsWaiting(s.runs, id).needsSecrets }

  /** What a dispatch does to a run that waits for locks alone: it starts it, or leaves it waiting. */
  lemma StartsOrWaits(s: Sys, id: RunId)
    requires Live(s) && WaitsForLocks(s, id)
    ensures EventFor(s, Dispatch, id) == Start || WaitsForLocks(Apply(s, Dispatch), id)
  {
    hide Step, SysOk, Started, Left;
    var w := AsWaiting(s.runs, id);
    LineInOrder(s);
    LineEntries(s, w);
    StartedXorLeft(s.locks, Line(s), w);
    QueuedAfterDispatch(s, id);
    StartedById(s, id);
  }

  /** Whoever is queued or handed its secrets joins behind run `id`, nobody takes that one out of the line, and
      the process goes on. */
  ghost predicate Behind(s: Sys, a: Act, id: RunId)
    requires id in s.runs
  {
    && !a.Shutdown? && !a.Die?
    && (a.On? ==>
      match a.event
      case Approve(at) => at > s.runs[id].approvedAt || (at == s.runs[id].approvedAt && a.run > id)
      case Retype => a.run in s.runs ==> !Before(s.runs, a.run, id)
      case Discard => a.run != id
      case _ => true)
  }

  ghost predicate AllBehind(s: Sys, h: seq<Act>, id: RunId)
    requires id in s.runs
  {
    h == [] ||
      var front := h[..|h| - 1];
      AllBehind(s, front, id) && id in Play(s, front).runs && Behind(Play(s, front), h[|h| - 1], id)
  }

  /** How many looks at the queue in the history found no lock held. */
  ghost function FreeLooks(s: Sys, h: seq<Act>): nat {
    if h == [] then 0 else
      var front := h[..|h| - 1];
      FreeLooks(s, front) + if h[|h| - 1].Dispatch? && Play(s, front).locks == [] then 1 else 0
  }

  /** The runs that wait for locks alone and stand no later in line than run `id`, itself among them. */
  ghost function ReadyAhead(s: Sys, id: RunId): (r: set<RunId>)
    requires id in s.runs
    ensures WaitsForLocks(s, id) ==> id in r
  {
    set x | x in QueuedIds(s.runs) && WaitsForLocks(s, x) && (x == id || Before(s.runs, x, id))
  }

  lemma AtPlace(s: Sys, i: nat)
    requires i < |Line(s)|
    ensures var w := Line(s)[i]; w.id in QueuedIds(s.runs) && w == AsWaiting(s.runs, w.id)
  {
    hide Line;
    LineEntries(s, Line(s)[i]);
  }

  lemma EarlierPlace(s: Sys, i: nat, j: nat)
    requires i <= j < |Line(s)|
    ensures i < j ==> Ahead(s.runs, Line(s)[i], Line(s)[j])
  {
    hide Line;
    LineInOrder(s);
  }

  lemma StartedNow(s: Sys, x: RunId)
    requires Live(s) && x in QueuedIds(s.runs) && AsWaiting(s.runs, x) in Started(s.locks, Line(s))
    ensures EventFor(s, Dispatch, x) == Start
  {
    hide Line, Started, SysOk;
    StartedById(s, x);
  }

  /** A look that finds no lock held starts the first of them. */
  lemma FirstStarts(s: Sys, id: RunId) returns (x: RunId)
    requires Live(s) && s.locks == [] && WaitsForLocks(s, id)
    ensures x in ReadyAhead(s, id) && EventFor(s, Dispatch, x) == Start
  {
    hide Live, Started, Line, EventFor, QueuedIds;
    var j := PlaceInLine(s, id);
    var i := FirstReady(Line(s), j);
    x := Line(s)[i].id;
    AtPlace(s, i);
    EarlierPlace(s, i, j);
    FirstReadyStarts(Line(s), i);
    StartedNow(s, x);
  }

  /** After a dispatch nobody stands ahead who did not before, and whoever started does not. */
  lemma DispatchKeepsAhead(s: Sys, id: RunId)
    requires Live(s) && WaitsForLocks(s, id) && WaitsForLocks(Apply(s, Dispatch), id)
    ensures ReadyAhead(Apply(s, Dispatch), id) <= ReadyAhead(s, id)
    ensures forall x :: x in s.runs && EventFor(s, Dispatch, x) == Start ==> x !in ReadyAhead(Apply(s, Dispatch), id)
  {
    hide Step, SysOk, Started, Left, Line, Apply;
    var s' := Apply(s, Dispatch);
    QueuedAfterDispatch(s, id);
    forall x | x in ReadyAhead(s', id) ensures x in ReadyAhead(s, id) && EventFor(s, Dispatch, x) != Start {
      QueuedAfterDispatch(s, x);
      StartLeaves(s, x);
    }
  }

  lemma StartLeaves(s: Sys, x: RunId)
    requires x in s.runs && x in QueuedIds(s.runs) && x in QueuedIds(Apply(s, Dispatch).runs)
    ensures EventFor(s, Dispatch, x) != Start
  {
    StartApproves(s.runs[x]);
    hide Step;
  }

  /** What an event other than a start may do to a run in line, and who may get into it. */
  lemma LineEvent(r: Run, e: Event)
    requires Consistent(r) && (r.deleted ==> Deletable(r.status)) && !e.Start? && !e.Crash? && !e.Resume? && !e.NormalizeRows?
    ensures var r' := Step(r, e);
      && (r.status.Queued? && !e.Discard? ==> r' == r || (e.Retype? && r' == r.(secrets := true)))
      && (r'.status.Queued? ==> if r.status.Queued? then r' == r || (e.Retype? && r' == r.(secrets := true)) else e.Approve? && r'.approvedAt == e.at)
  {
  }

  lemma OtherAct(s: Sys, a: Act, x: RunId)
    requires Live(s) && x in s.runs && !a.Dispatch? && !a.Die?
    ensures var e := EventFor(s, a, x);
      && !e.Start? && !e.Crash? && !e.Resume? && !e.NormalizeRows?
      && (e.Approve? || e.Retype? || e.Discard? ==> a == On(x, e))
      && Consistent(s.runs[x]) && (s.runs[x].deleted ==> Deletable(s.runs[x].status))
  {
    assert RunOk(s.runs[x]);
  }

  lemma WaiterStays(s: Sys, a: Act, id: RunId)
    requires Live(s) && WaitsForLocks(s, id) && Behind(s, a, id) && !a.Dispatch?
    ensures var s' := Apply(s, a); WaitsForLocks(s', id) && s'.runs[id].approvedAt == s.runs[id].approvedAt
  {
    hide Step, SysOk, LocksAfter, EventFor;
    OtherAct(s, a, id);
    LineEvent(s.runs[id], EventFor(s, a, id));
    QueuedIsThere(s, id);
    StaysThere(s, a, id);
  }

  lemma StaysThere(s: Sys, a: Act, x: RunId)
    requires x in s.runs
    ensures x in Apply(s, a).runs && Apply(s, a).runs[x] == Step(s.runs[x], EventFor(s, a, x))
  {
    hide Step, EventFor;
  }

  lemma QueuedIsThere(s: Sys, id: RunId)
    requires Live(s) && id in s.runs && s.runs[id].status.Queued?
    ensures !s.runs[id].deleted
  {
    assert RunOk(s.runs[id]);
  }

  lemma NewcomerIsPlanned(s: Sys, a: Act, x: RunId)
    requires x !in s.runs && x in Apply(s, a).runs
    ensures !Apply(s, a).runs[x].status.Queued?
  {
    hide Step;
  }

  /** Nobody gets ahead of the run. */
  lemma NobodyOvertakes(s: Sys, a: Act, id: RunId, x: RunId)
    requires Live(s) && WaitsForLocks(s, id) && Behind(s, a, id) && !a.Dispatch?
    requires id in Apply(s, a).runs && Apply(s, a).runs[id].approvedAt == s.runs[id].approvedAt && x in ReadyAhead(Apply(s, a), id)
    ensures x in ReadyAhead(s, id)
  {
    hide Step, SysOk, LocksAfter, EventFor, Apply;
    if x !in s.runs {
      NewcomerIsPlanned(s, a, x);
    } else {
      OtherAct(s, a, x);
      LineEvent(s.runs[x], EventFor(s, a, x));
      StaysThere(s, a, x);
      if s.runs[x].status.Queued? { QueuedIsThere(s, x); }
    }
  }

  /** What one more act does: nobody gets ahead of the run, and a look that finds no lock held takes one of those
      ahead, or the run itself, out of the line. */
  lemma OneMoreAct(s: Sys, a: Act, id: RunId)
    requires Live(s) && WaitsForLocks(s, id) && Behind(s, a, id)
    ensures var s' := Apply(s, a);
      && Live(s')
      && (EventFor(s, a, id) == Start ||
          (WaitsForLocks(s', id) && ReadyAhead(s', id) <= ReadyAhead(s, id)
           && (a.Dispatch? && s.locks == [] ==> ReadyAhead(s', id) < ReadyAhead(s, id))))
  {
    hide Step, SysOk, Apply, EventFor, ReadyAhead;
    var s' := Apply(s, a);
    StaysLive(s, a);
    StaysThere(s, a, id);
    if a.Dispatch? {
      StartsOrWaits(s, id);
      if EventFor(s, a, id) != Start {
        DispatchKeepsAhead(s, id);
        if s.locks == [] { var x := FirstStarts(s, id); AheadIsThere(s, id, x); }
      }
    } else {
      WaiterStays(s, a, id);
      forall x | x in ReadyAhead(s', id) ensures x in ReadyAhead(s, id) { NobodyOvertakes(s, a, id, x); }
    }
  }

  lemma AheadIsThere(s: Sys, id: RunId, x: RunId)
    requires id in s.runs && x in ReadyAhead(s, id)
    ensures x in s.runs
  {
  }

  lemma StaysLive(s: Sys, a: Act)
    requires Live(s) && !a.Shutdown? && !a.Die?
    ensures Live(Apply(s, a))
  {
    hide Step, SysOk;
    ApplyKeepsOk(s, a);
  }

  lemma {:induction false} AheadDwindles(s: Sys, h: seq<Act>, id: RunId)
    requires Live(s) && WaitsForLocks(s, id) && AllBehind(s, h, id)
    ensures var s' := Play(s, h);
      && Live(s')
      && (Start in TraceFrom(s, h, id) || (WaitsForLocks(s', id) && |ReadyAhead(s', id)| + FreeLooks(s, h) <= |ReadyAhead(s, id)|))
    decreases |h|
  {
    hide Step, Apply, Live, EventFor, ReadyAhead;
    if h != [] {
      var front, a := h[..|h| - 1], h[|h| - 1];
      assert front + [a] == h;
      AheadDwindles(s, front, id);
      TraceNext(s, front, a, id);
      if Start in TraceFrom(s, front, id) {
        StaysLiveBehind(Play(s, front), a, id);
      } else {
        OneMoreAct(Play(s, front), a, id);
        if EventFor(Play(s, front), a, id) != Start {
          SubsetIsSmaller(ReadyAhead(Play(s, h), id), ReadyAhead(Play(s, front), id));
          if a.Dispatch? && Play(s, front).locks == [] { ProperIsSmaller(ReadyAhead(Play(s, h), id), ReadyAhead(Play(s, front), id)); }
        }
      }
    }
  }

  lemma StaysLiveBehind(s: Sys, a: Act, id: RunId)
    requires Live(s) && id in s.runs && Behind(s, a, id)
    ensures Live(Apply(s, a))
  {
    hide Live, Apply;
    StaysLive(s, a);
  }

  lemma ProperIsSmaller(a: set<RunId>, b: set<RunId>)
    requires a < b
    ensures |a| < |b|
  {
    var x :| x in b && x !in a;
    SubsetIsSmaller(a, b - {x});
  }

  /** No deadlock: from every state of a process that is up and not shutting down, every history in which nobody
      gets ahead of a queued run that has its secrets, and nobody discards it, starts that run, as soon as as
      many looks at the queue as there are such runs up to it in line have found no lock held, in whatever order
      and way the holders ended and whoever joins behind it. */
  lemma NobodyWaitsForEver(before: seq<Act>, h: seq<Act>, id: RunId)
    requires var s := Play(INIT, before);
      && s.up && !s.stopping && WaitsForLocks(s, id) && AllBehind(s, h, id) && FreeLooks(s, h) >= |ReadyAhead(s, id)|
    ensures Start in TraceFrom(Play(INIT, before), h, id)
  {
    hide Step, Apply, TraceFrom;
    AlwaysOk(before);
    var s := Play(INIT, before);
    AheadDwindles(s, h, id);
    if WaitsForLocks(Play(s, h), id) { NotEmpty(ReadyAhead(Play(s, h), id), id); }
  }

  lemma NotEmpty(a: set<RunId>, x: RunId)
    requires x in a
    ensures |a| > 0
  {
  }

  // ---------------------------------------------------------------- and free looks can be had

  lemma {:induction false} LooksAdd(s: Sys, h: seq<Act>, g: seq<Act>)
    ensures FreeLooks(s, h + g) >= FreeLooks(s, h)
    decreases |g|
  {
    if g == [] {
      assert h + g == h;
    } else {
      assert (h + g)[..|h + g| - 1] == h + g[..|g| - 1];
      LooksAdd(s, h, g[..|g| - 1]);
    }
  }

  /** Runs that end or are taken away overtake nobody. */
  lemma {:induction false} EndingsStayBehind(s: Sys, h: seq<Act>, id: RunId)
    requires id in s.runs && forall a :: a in h ==> a.Dispatch? || (a.On? && Ending(a.event))
    ensures AllBehind(s, h, id)
    decreases |h|
  {
    hide Apply;
    if h != [] {
      var front, a := h[..|h| - 1], h[|h| - 1];
      assert a in h && forall b :: b in front ==> b in h;
      EndingsStayBehind(s, front, id);
      TraceFromLeads(s, front, id);
    }
  }

  /** From every such state as many free looks as one likes are to be had, by ending the holders round after
      round and taking them away. */
  lemma {:induction false} FreeLooksCanBeHad(s: Sys, n: nat) returns (h: seq<Act>)
    requires Live(s)
    ensures forall a :: a in h ==> a.Dispatch? || (a.On? && Ending(a.event))
    ensures Live(Play(s, h)) && FreeLooks(s, h) >= n && forall id :: id in s.runs ==> AllBehind(s, h, id)
  {
    hide Apply, Live, AllBehind;
    if n == 0 {
      h := [];
    } else {
      var h0 := FreeLooksCanBeHad(s, n - 1);
      var h1 := AllEnd(Play(s, h0));
      PlayBoth(s, h0, h1);
      LooksAdd(s, h0, h1);
      StaysLive(Play(s, h0 + h1), Dispatch);
      PlayNext(s, h0 + h1, Dispatch);
      var all := h0 + h1 + [Dispatch];
      assert all[..|all| - 1] == h0 + h1 && all[|all| - 1] == Dispatch;
      h := all;
    }
    forall id | id in s.runs ensures AllBehind(s, h, id) { EndingsStayBehind(s, h, id); }
  }
}
