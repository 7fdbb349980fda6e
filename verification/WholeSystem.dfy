/** The theorems about one run and about one line, said of every history of the whole system. */
module WholeSystem {
  import opened Common
  import opened Locks
  import opened Queue
  import opened Runs
  import opened System
  import LockSafety
  import Progress
  import FailClosed
  import Undo

  // ---------------------------------------------------------------- one run among others

  /** None of the acts asks run `id` for an event outside `p`. */
  ghost predicate Only(h: seq<Act>, id: RunId, p: Event -> bool) {
    forall a :: a in h && a.On? && a.run == id ==> p(a.event)
  }

  /** Events no request can bring about. */
  predicate Ambient(e: Event) { e.Quiet? || e.Start? || e.Crash? || e.NormalizeRows? || e.Resume? }

  lemma {:induction false} TraceIsOnly(h: seq<Act>, id: RunId, p: Event -> bool)
    requires Only(h, id, p) && forall e :: Ambient(e) ==> p(e)
    ensures forall e :: e in Trace(h, id) ==> p(e)
  {
    hide Step;
    if h != [] {
      var last := |h| - 1;
      assert Only(h[..last], id, p);
      TraceIsOnly(h[..last], id, p);
      assert h[last] in h;
    }
  }

  /** Crash transparency of every run, whatever happens to the others. */
  lemma EveryRunIsTransparent(h: seq<Act>, id: RunId)
    requires id in Play(INIT, h).runs && Only(h, id, Progress.Plain)
    ensures var r := Play(INIT, h).runs[id];
      && (forall i, j :: 0 <= i < j < |r.log| ==> r.log[i] <= r.log[j])
      && (exists m :: 0 <= m <= |r.plan.steps| && Progress.Collapse(r.log) == Progress.Count(0, m))
      && (r.status.Succeeded? ==> Progress.Collapse(r.log) == Progress.Count(0, |r.plan.steps|))
  {
    RunsLiveTheirTraces(h, id);
    TraceIsOnly(h, id, Progress.Plain);
    Progress.CrashTransparency(Play(INIT, h).runs[id].plan, Trace(h, id));
  }

  /** Every mutating run that was never aborted fails closed. */
  lemma EveryRunFailsClosed(h: seq<Act>, id: RunId)
    requires id in Play(INIT, h).runs && Play(INIT, h).runs[id].plan.mutating
    requires Only(h, id, (e: Event) => !FailClosed.IsAbort(e))
    ensures var r := Play(INIT, h).runs[id];
      FailClosed.Armed(r) && (FailClosed.StartedLater(r) ==> r.steps[0].status.Ok?)
  {
    RunsLiveTheirTraces(h, id);
    TraceIsOnly(h, id, (e: Event) => !FailClosed.IsAbort(e));
    FailClosed.NoAbortFailsClosed(Play(INIT, h).runs[id].plan, Trace(h, id));
  }

  /** What the acts of a history are for a run that is there from the start of it. */
  ghost function TraceFrom(s: Sys, h: seq<Act>, id: RunId): seq<Event>
    requires id in s.runs
    ensures id in Play(s, h).runs
  {
    if h == [] then [] else
      var t := TraceFrom(s, h[..|h| - 1], id);
      t + [EventFor(Play(s, h[..|h| - 1]), h[|h| - 1], id)]
  }

  lemma {:induction false} TraceFromLeads(s: Sys, h: seq<Act>, id: RunId)
    requires id in s.runs
    ensures id in Play(s, h).runs && Play(s, h).runs[id] == After(s.runs[id], TraceFrom(s, h, id))
  {
    hide Step;
    if h != [] {
      var last := |h| - 1;
      TraceFromLeads(s, h[..last], id);
      AfterThen(s.runs[id], TraceFrom(s, h[..last], id), EventFor(Play(s, h[..last]), h[last], id));
    }
  }

  lemma {:induction false} TraceFromIsOnly(s: Sys, h: seq<Act>, id: RunId, p: Event -> bool)
    requires id in s.runs && Only(h, id, p) && forall e :: Ambient(e) ==> p(e)
    ensures forall e :: e in TraceFrom(s, h, id) ==> p(e)
  {
    hide Step;
    if h != [] {
      var last := |h| - 1;
      assert Only(h[..last], id, p);
      TraceFromIsOnly(s, h[..last], id, p);
      assert h[last] in h;
    }
  }

  lemma Aborted(s: Sys, id: RunId, typed: bool)
    requires id in s.runs
    requires id in Apply(s, On(id, ScheduleCleanups(typed))).runs ==> Apply(s, On(id, ScheduleCleanups(typed))).runs[id] != s.runs[id]
    ensures id in Apply(s, On(id, ScheduleCleanups(typed))).runs
    ensures Apply(s, On(id, ScheduleCleanups(typed))).runs[id] == Step(s.runs[id], ScheduleCleanups(typed))
  {
    hide Step;
    QuietKeeps(s.runs[id]);
  }

  /** Undo completeness of every run of the system: its steps register before they mutate, it is aborted,
      nobody waves a compensation through or retries a planned step by name, and its cleanup run ends.
      Then nothing it changed is left, whatever crashes, boots and other runs come in between. */
  lemma EveryRunIsUndone(h: seq<Act>, id: RunId, typed: bool, h': seq<Act>)
    requires id in Play(INIT, h).runs && Undo.Disciplined(NewRun(Play(INIT, h).runs[id].plan), Trace(h, id))
    requires Only(h', id, Undo.Unwinds)
    requires var s := Apply(Play(INIT, h), On(id, ScheduleCleanups(typed)));
      s.runs[id] != Play(INIT, h).runs[id] && id in Play(s, h').runs && Undo.CleanupEnded(Play(s, h').runs[id])
    ensures var s := Apply(Play(INIT, h), On(id, ScheduleCleanups(typed)));
      Play(s, h').runs[id].world == {}
  {
    hide Step, Apply, Play, Trace, TraceFrom, After, Undo.Disciplined, Undo.CleanupEnded;
    var s0 := Play(INIT, h);
    var s := Apply(s0, On(id, ScheduleCleanups(typed)));
    Aborted(s0, id, typed);
    RunsLiveTheirTraces(h, id);
    TraceFromLeads(s, h', id);
    TraceFromIsOnly(s, h', id, Undo.Unwinds);
    Undo.UndoIsComplete(s0.runs[id].plan, Trace(h, id), typed, TraceFrom(s, h', id));
  }

  // ---------------------------------------------------------------- the queue

  /** Every entry of the line is a queued run's, and no run stands in it twice. */
  lemma LineEntries(s: Sys, w: Waiting)
    ensures w in Line(s) <==> w.id in QueuedIds(s.runs) && w == AsWaiting(s.runs, w.id)
  {
    var ids := QueueIds(s.runs);
    if w in Line(s) {
      var i :| 0 <= i < |Line(s)| && Line(s)[i] == w;
      assert ids[i] in ids;
    }
    if w.id in QueuedIds(s.runs) && w == AsWaiting(s.runs, w.id) {
      assert w.id in ids;
      var i :| 0 <= i < |ids| && ids[i] == w.id;
      assert Line(s)[i] == w;
    }
  }

  /** Where a queued run stands. */
  lemma PlaceInLine(s: Sys, id: RunId) returns (j: nat)
    requires id in QueuedIds(s.runs)
    ensures j < |Line(s)| && Line(s)[j] == AsWaiting(s.runs, id)
  {
    hide Line;
    LineEntries(s, AsWaiting(s.runs, id));
    j :| 0 <= j < |Line(s)| && Line(s)[j] == AsWaiting(s.runs, id);
  }

  ghost predicate Ahead(runs: map<RunId, Run>, a: Waiting, b: Waiting) {
    a.id in runs && b.id in runs && Before(runs, a.id, b.id)
  }

  lemma LineInOrder(s: Sys)
    ensures Pairwise(Line(s), (a, b) => Ahead(s.runs, a, b)) && Distinct(Line(s))
  {
    var ids, q := QueueIds(s.runs), Line(s);
    forall i, j | 0 <= i < j < |q| ensures Ahead(s.runs, q[i], q[j]) && q[i] != q[j] { assert Before(s.runs, ids[i], ids[j]); }
  }

  /** What a dispatch does to one run. */
  lemma DispatchedRun(s: Sys, id: RunId)
    requires s.up && !s.stopping && id in s.runs
    ensures id in Apply(s, Dispatch).runs
    ensures Apply(s, Dispatch).runs[id] == if id in Ids(Started(s.locks, Line(s))) then Step(s.runs[id], Start) else s.runs[id]
  {
  }

  lemma StartedById(s: Sys, id: RunId)
    requires id in QueuedIds(s.runs)
    ensures id in Ids(Started(s.locks, Line(s))) <==> AsWaiting(s.runs, id) in Started(s.locks, Line(s))
  {
    if id in Ids(Started(s.locks, Line(s))) {
      var w :| w in Started(s.locks, Line(s)) && w.id == id;
      LockSafety.StartedInLine(s, w);
    }
  }

  /** A run is queued after a dispatch exactly when its entry was left, and then it is untouched. */
  lemma QueuedAfterDispatch(s: Sys, id: RunId)
    requires s.up && !s.stopping
    ensures id in QueuedIds(Apply(s, Dispatch).runs) <==> id in QueuedIds(s.runs) && AsWaiting(s.runs, id) in Left(s.locks, Line(s))
    ensures id in QueuedIds(Apply(s, Dispatch).runs) ==> Apply(s, Dispatch).runs[id] == s.runs[id]
  {
    if id in s.runs {
      DispatchedRun(s, id);
      if id in QueuedIds(s.runs) {
        StartedById(s, id);
        LineInOrder(s);
        LineEntries(s, AsWaiting(s.runs, id));
        StartedXorLeft(s.locks, Line(s), AsWaiting(s.runs, id));
      }
    }
  }

  function IdsInOrder(q: seq<Waiting>): (r: seq<RunId>)
    ensures |r| == |q| && forall i :: 0 <= i < |r| ==> r[i] == q[i].id
  {
    seq(|q|, i requires 0 <= i < |q| => q[i].id)
  }

  /** A list of entries that is in order and lists exactly the queued runs is the line. */
  lemma LineIs(s: Sys, q: seq<Waiting>)
    requires Pairwise(q, (a, b) => Ahead(s.runs, a, b))
    requires forall w :: w in q ==> w.id in QueuedIds(s.runs) && w == AsWaiting(s.runs, w.id)
    requires forall id :: id in QueuedIds(s.runs) ==> AsWaiting(s.runs, id) in q
    ensures q == Line(s)
  {
    var ids := IdsInOrder(q);
    forall i | 0 <= i < |ids| ensures ids[i] in s.runs && q[i] == AsWaiting(s.runs, ids[i]) { assert q[i] in q; }
    forall i, j | 0 <= i < j < |ids| ensures Before(s.runs, ids[i], ids[j]) { assert Ahead(s.runs, q[i], q[j]); }
    forall x ensures x in ids <==> x in QueueIds(s.runs) {
      if x in QueuedIds(s.runs) {
        var i :| 0 <= i < |q| && q[i] == AsWaiting(s.runs, x);
        assert ids[i] == x;
      }
      if x in ids {
        var i :| 0 <= i < |ids| && ids[i] == x;
        assert q[i] in q;
      }
    }
    OrderIsUnique(s.runs, ids, QueueIds(s.runs));
  }

  /** After a dispatch the line is what the walk left, in the same order. */
  lemma LineAfterDispatch(s: Sys)
    requires s.up && !s.stopping
    ensures Line(Apply(s, Dispatch)) == Left(s.locks, Line(s))
  {
    var s', left := Apply(s, Dispatch), Left(s.locks, Line(s));
    LineInOrder(s);
    LeftKeepsOrder(s.locks, Line(s), (a, b) => Ahead(s.runs, a, b));
    forall w | w in left ensures w.id in QueuedIds(s'.runs) && w == AsWaiting(s'.runs, w.id) {
      LineEntries(s, w);
      QueuedAfterDispatch(s, w.id);
    }
    forall id | id in QueuedIds(s'.runs) ensures AsWaiting(s'.runs, id) in left { QueuedAfterDispatch(s, id); }
    forall i, j | 0 <= i < j < |left| ensures Ahead(s'.runs, left[i], left[j]) {
      assert Ahead(s.runs, left[i], left[j]) && left[i] in left && left[j] in left;
      QueuedAfterDispatch(s, left[i].id);
      QueuedAfterDispatch(s, left[j].id);
    }
    LineIs(s', left);
  }

  /** A dispatch that starts nothing changes nothing. */
  lemma IdleDispatch(s: Sys)
    requires Started(s.locks, Line(s)) == []
    ensures Apply(s, Dispatch) == s
  {
    hide Step, Inserted;
    NothingInserted(s.locks, Line(s));
    assert s.locks + [] == s.locks;
    forall id | id in s.runs ensures Step(s.runs[id], EventFor(s, Dispatch, id)) == s.runs[id] {
      assert EventFor(s, Dispatch, id) == Quiet;
      QuietKeeps(s.runs[id]);
    }
  }

  lemma NothingInserted(locks: seq<Taken>, q: seq<Waiting>)
    requires Started(locks, q) == []
    ensures Inserted(locks, q) == []
  {
    InsertedAre(locks, q);
    FirstIsMember(Inserted(locks, q));
  }

  /** A second dispatch right after the first changes nothing at all. */
  lemma DispatchTwice(s: Sys)
    requires s.up && !s.stopping
    ensures Apply(Apply(s, Dispatch), Dispatch) == Apply(s, Dispatch)
  {
    LineAfterDispatch(s);
    SecondDispatchStartsNothing(s.locks, Line(s));
    IdleDispatch(Apply(s, Dispatch));
  }

  /** `s'` is `s` with the planned run `id` queued. */
  ghost predicate Joined(s: Sys, s': Sys, id: RunId) {
    && s'.runs.Keys == s.runs.Keys && id in s.runs && s'.locks == s.locks && s'.up == s.up && s'.stopping == s.stopping
    && id !in QueuedIds(s.runs) && id in QueuedIds(s'.runs) && s'.runs[id].plan == s.runs[id].plan && s'.runs[id].secrets
    && forall x :: x in s.runs && x != id ==> s'.runs[x] == s.runs[x]
  }

  lemma ApproveJoins(s: Sys, id: RunId, at: nat)
    requires s.up && id in s.runs && s.runs[id].status.Planned? && !s.runs[id].deleted
    ensures Joined(s, Apply(s, On(id, Approve(at))), id)
  {
    assert EventFor(s, On(id, Approve(at)), id) == Approve(at);
    forall x | x in s.runs && x != id ensures EventFor(s, On(id, Approve(at)), x) == Quiet { }
  }

  /** An entry of the line without the new run's is an entry of the line there was. */
  lemma JoinedEntry(s: Sys, s': Sys, id: RunId, w: Waiting)
    requires Joined(s, s', id)
    ensures w in Line(s') && w.id != id <==> w in Line(s)
  {
    LineEntries(s, w);
    LineEntries(s', w);
  }

  /** Taking the newly approved run out of the line leaves the line there was. */
  lemma LineWithout(s: Sys, s': Sys, id: RunId, n: nat)
    requires Joined(s, s', id) && n < |Line(s')| && Line(s')[n].id == id
    ensures Line(s')[..n] + Line(s')[n + 1..] == Line(s)
  {
    hide Line;
    var q := Line(s');
    var rest := q[..n] + q[n + 1..];
    LineInOrder(s');
    RestMembers(s', q, n);
    forall w | w in rest ensures w.id in QueuedIds(s.runs) && w == AsWaiting(s.runs, w.id) {
      JoinedEntry(s, s', id, w);
      LineEntries(s, w);
    }
    forall x | x in QueuedIds(s.runs) ensures AsWaiting(s.runs, x) in rest {
      LineEntries(s, AsWaiting(s.runs, x));
      JoinedEntry(s, s', id, AsWaiting(s.runs, x));
    }
    forall i, j | 0 <= i < j < |rest| ensures Ahead(s.runs, rest[i], rest[j]) {
      assert rest[i] in rest && rest[j] in rest;
      assert Ahead(s'.runs, rest[i], rest[j]);
    }
    LineIs(s, rest);
  }

  lemma RestMembers(s': Sys, q: seq<Waiting>, n: nat)
    requires n < |q| && Pairwise(q, (a, b) => Ahead(s'.runs, a, b))
    ensures var rest := q[..n] + q[n + 1..];
      && (forall w :: w in rest <==> w in q && w.id != q[n].id)
      && Pairwise(rest, (a, b) => Ahead(s'.runs, a, b))
  {
    var rest := q[..n] + q[n + 1..];
    forall i, j | 0 <= i < j < |rest| ensures Ahead(s'.runs, rest[i], rest[j]) {
      var i', j' := if i < n then i else i + 1, if j < n then j else j + 1;
      assert Ahead(s'.runs, q[i'], q[j']);
    }
    forall w ensures w in rest <==> w in q && w.id != q[n].id {
      if w in rest {
        var i :| 0 <= i < |rest| && rest[i] == w;
        if i < n { assert Ahead(s'.runs, q[i], q[n]); } else { assert Ahead(s'.runs, q[n], q[i + 1]); }
      }
      if w in q && w.id != q[n].id {
        var k :| 0 <= k < |q| && q[k] == w;
        if k < n { assert rest[k] == w; } else { assert rest[k - 1] == w; }
      }
    }
  }

  lemma StartedIsApproved(s: Sys, id: RunId)
    requires s.up && !s.stopping && id in QueuedIds(s.runs) && AsWaiting(s.runs, id) in Started(s.locks, Line(s))
    ensures id in Apply(s, Dispatch).runs && Apply(s, Dispatch).runs[id].status.Approved?
  {
    hide Step, Started, Line;
    StartedById(s, id);
    DispatchedRun(s, id);
    StartApproves(s.runs[id]);
  }

  lemma StartApproves(r: Run)
    requires r.status.Queued?
    ensures Step(r, Start).status.Approved?
  {
  }

  lemma JoinedStarts(s: Sys, s': Sys, id: RunId)
    requires Joined(s, s', id)
    requires ConflictsAtEnd(s.locks, Line(s), PlanClaims(s.runs[id].plan)) == []
    ensures AsWaiting(s'.runs, id) in Started(s'.locks, Line(s'))
  {
    var w := AsWaiting(s'.runs, id);
    LineEntries(s', w);
    StartedFromLine(s, s', id, w);
  }

  lemma StartedFromLine(s: Sys, s': Sys, id: RunId, w: Waiting)
    requires Joined(s, s', id) && w in Line(s') && w.id == id && !w.needsSecrets
    requires ConflictsAtEnd(s.locks, Line(s), w.claims) == []
    ensures w in Started(s'.locks, Line(s'))
  {
    var n :| 0 <= n < |Line(s')| && Line(s')[n] == w;
    LineWithout(s, s', id, n);
    SplitAt(Line(s'), n);
    FreeAtEndStartsAnywhere(s.locks, Line(s')[..n], Line(s')[n + 1..], w);
  }

  /** `approve` with onlyIfFree: if nothing stands in the way at the end of the line, the approve starts
      the run, whatever its approve time and id make of its place. */
  lemma FreeApproveStarts(s: Sys, id: RunId, at: nat)
    requires s.up && !s.stopping && id in s.runs && s.runs[id].status.Planned? && !s.runs[id].deleted
    requires ConflictsAtEnd(s.locks, Line(s), PlanClaims(s.runs[id].plan)) == []
    ensures id in Apply(Apply(s, On(id, Approve(at))), Dispatch).runs
    ensures Apply(Apply(s, On(id, Approve(at))), Dispatch).runs[id].status.Approved?
  {
    ApproveJoins(s, id, at);
    JoinedStarts(s, Apply(s, On(id, Approve(at))), id);
    StartedIsApproved(Apply(s, On(id, Approve(at))), id);
  }
}
