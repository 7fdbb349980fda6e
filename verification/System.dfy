/** The executor as a whole: all runs, the lock table and the process. An act is one database transaction,
    one thing a step body does, or one thing the outside does; any act may be tried at any time, and one
    that is refused changes nothing. A crash may fall between any two acts. */
module System {
  import opened Common
  import opened Locks
  import opened Queue
  import opened Steps
  import opened Runs

  datatype Sys = Sys(runs: map<RunId, Run>, locks: seq<Taken>, up: bool, stopping: bool)

  const INIT := Sys(map[], [], true, false)

  datatype Act =
    | Propose(id: RunId, plan: Plan)   // a planned run and its step rows
    | On(run: RunId, event: Event)     // an event of one run
    | Dispatch                         // startQueuedRuns
    | Acquire(holder: RunId)           // acquireLocks, the first transaction of a recovery
    | Release(holder: RunId)           // releaseLocks, after a run ended with nothing left to do
    | Shutdown
    | Die                              // the process is gone, and its memory with it
    | DropOrphan(lock: nat)            // one row of reconcileLocks
    | NormalizeOne(run: RunId)         // one run's rows, in a boot that dies before it resumes anything
    | Boot                             // reconcileLocks and resumeOnBoot

  // ---------------------------------------------------------------- locks of a run

  function Without(locks: seq<Taken>, run: RunId): (r: seq<Taken>)
    ensures forall t :: t in r <==> t in locks && t.run != run
  {
    Filter(locks, (t: Taken) => t.run != run)
  }

  function Missing(locks: seq<Taken>, claims: seq<Claim>, run: RunId): (r: seq<Claim>)
    ensures forall c :: c in r <==> c in claims && Taken(c, run) !in locks
  {
    Filter(claims, (c: Claim) => Taken(c, run) !in locks)
  }

  /** The lock table after `run` asked for `claims`: all it lacked, or nothing. */
  function Acquired(locks: seq<Taken>, claims: seq<Claim>, run: RunId): seq<Taken> {
    var missing := Missing(locks, claims, run);
    if LockConflicts(Without(locks, run), missing) == [] then locks + Held(missing, run) else locks
  }

  predicate HoldsAll(locks: seq<Taken>, plan: Plan, run: RunId) {
    forall c :: c in PlanClaims(plan) ==> Taken(c, run) in locks
  }

  /** The states reconcileLocks lets hold a lock. */
  predicate MayHold(s: RunStatus) { s.Approved? || s.Running? || s.Failed? || s.Cancelled? }

  // ---------------------------------------------------------------- the line

  /** The queue's order: approvedAt, then the id. */
  predicate Before(runs: map<RunId, Run>, a: RunId, b: RunId)
    requires a in runs && b in runs
  {
    runs[a].approvedAt < runs[b].approvedAt || (runs[a].approvedAt == runs[b].approvedAt && a < b)
  }

  ghost predicate InOrder(runs: map<RunId, Run>, ids: seq<RunId>) {
    && (forall i :: 0 <= i < |ids| ==> ids[i] in runs)
    && (forall i, j :: 0 <= i < j < |ids| ==> Before(runs, ids[i], ids[j]))
  }

  function QueuedIds(runs: map<RunId, Run>): set<RunId> {
    set id | id in runs && runs[id].status.Queued? && !runs[id].deleted
  }

  /** `id` put where it belongs in a list that is in order. */
  function Insert(runs: map<RunId, Run>, ids: seq<RunId>, id: RunId): (r: seq<RunId>)
    requires id in runs && id !in ids && forall i :: 0 <= i < |ids| ==> ids[i] in runs
    ensures forall x :: x in r <==> x in ids || x == id
    ensures forall i :: 0 <= i < |r| ==> r[i] in runs
  {
    if ids == [] then [id]
    else if Before(runs, id, ids[0]) then [id] + ids
    else [ids[0]] + Insert(runs, ids[1..], id)
  }

  lemma {:induction false} InsertInOrder(runs: map<RunId, Run>, ids: seq<RunId>, id: RunId)
    requires id in runs && id !in ids && InOrder(runs, ids)
    ensures InOrder(runs, Insert(runs, ids, id))
  {
    if ids != [] && !Before(runs, id, ids[0]) {
      InsertInOrder(runs, ids[1..], id);
      var rest := Insert(runs, ids[1..], id);
      forall i | 0 <= i < |rest| ensures Before(runs, ids[0], rest[i]) { assert rest[i] in rest; }
    }
  }

  lemma {:induction false} OrderIsUnique(runs: map<RunId, Run>, a: seq<RunId>, b: seq<RunId>)
    requires InOrder(runs, a) && InOrder(runs, b) && forall x :: x in a <==> x in b
    ensures a == b
  {
    if a != [] { assert a[0] in a; }
    if b != [] { assert b[0] in b; }
    if a != [] {
      var i :| 0 <= i < |b| && b[i] == a[0];
      var j :| 0 <= j < |a| && a[j] == b[0];
      assert i == 0;
      forall x ensures x in a[1..] <==> x in b[1..] {
        if x in a[1..] {
          var k :| 0 < k < |a| && a[k] == x;
          assert Before(runs, a[0], a[k]) && x in b;
        }
        if x in b[1..] {
          var k :| 0 < k < |b| && b[k] == x;
          assert Before(runs, b[0], b[k]) && x in a;
        }
      }
      OrderIsUnique(runs, a[1..], b[1..]);
    }
  }

  /** `r` is the set `ids` in queue order. */
  ghost predicate Orders(runs: map<RunId, Run>, ids: set<RunId>, r: seq<RunId>) {
    InOrder(runs, r) && forall x :: x in r <==> x in ids
  }

  lemma {:induction false} OrderExists(runs: map<RunId, Run>, ids: set<RunId>)
    requires ids <= runs.Keys
    ensures exists r :: Orders(runs, ids, r)
  {
    if ids == {} {
      assert Orders(runs, ids, []);
    } else {
      var x :| x in ids;
      OrderExists(runs, ids - {x});
      var r :| Orders(runs, ids - {x}, r);
      InsertInOrder(runs, r, x);
      assert Orders(runs, ids, Insert(runs, r, x));
    }
  }

  /** The queued runs in line order: `order by approved_at, id`. */
  ghost function QueueIds(runs: map<RunId, Run>): (r: seq<RunId>)
    ensures Orders(runs, QueuedIds(runs), r)
  {
    OrderExists(runs, QueuedIds(runs));
    var r :| Orders(runs, QueuedIds(runs), r);
    r
  }

  function AsWaiting(runs: map<RunId, Run>, id: RunId): Waiting
    requires id in runs
  {
    Waiting(id, PlanClaims(runs[id].plan), runs[id].plan.requiredSecrets != [] && !runs[id].secrets)
  }

  function AsLine(runs: map<RunId, Run>, ids: seq<RunId>): (q: seq<Waiting>)
    requires forall i :: 0 <= i < |ids| ==> ids[i] in runs
    ensures |q| == |ids| && forall i :: 0 <= i < |q| ==> q[i] == AsWaiting(runs, ids[i])
  {
    seq(|ids|, i requires 0 <= i < |ids| => AsWaiting(runs, ids[i]))
  }

  ghost function Line(s: Sys): seq<Waiting> { AsLine(s.runs, QueueIds(s.runs)) }

  function Ids(q: seq<Waiting>): set<RunId> { set w | w in q :: w.id }

  // ---------------------------------------------------------------- acts

  /** Events a request or a step body can bring about by itself, given the locks and the process. */
  predicate Admitted(s: Sys, id: RunId, e: Event)
    requires id in s.runs
  {
    match e
    case Start => false
    case Crash => false
    case NormalizeRows => false
    case Resume => false
    case Advance(stopping, _) => stopping == s.stopping
    case CancelPaused => s.stopping
    case Retry(_) => HoldsAll(s.locks, s.runs[id].plan, id)
    case Skip(_) => HoldsAll(s.locks, s.runs[id].plan, id)
    case ScheduleCleanups(_) => HoldsAll(s.locks, s.runs[id].plan, id)
    case _ => true
  }

  /** The event the act is for run `id`. */
  ghost function EventFor(s: Sys, a: Act, id: RunId): Event
    requires id in s.runs
  {
    match a
    case On(run, e) => if s.up && run == id && Admitted(s, id, e) then e else Quiet
    case Dispatch => if s.up && !s.stopping && id in Ids(Started(s.locks, Line(s))) then Start else Quiet
    case Die => Crash
    case NormalizeOne(run) => if !s.up && run == id then NormalizeRows else Quiet
    case Boot => if !s.up then Resume else Quiet
    case _ => Quiet
  }

  /** A run whose end gave its locks back: succeeded, or cancelled with nothing left to run. */
  predicate Over(r: Run) { r.status.Succeeded? || (r.status.Cancelled? && FirstUnfinished(r.steps) == |r.steps|) }

  ghost function LocksAfter(s: Sys, a: Act): seq<Taken> {
    match a
    case On(run, e) =>
      if s.up && run in s.runs && e.Delete? && Deletable(s.runs[run].status) && !s.runs[run].deleted then Without(s.locks, run) else s.locks
    case Dispatch => if s.up && !s.stopping then s.locks + Inserted(s.locks, Line(s)) else s.locks
    case Acquire(id) =>
      if s.up && id in s.runs && Abortable(s.runs[id]) then Acquired(s.locks, PlanClaims(s.runs[id].plan), id) else s.locks
    case Release(id) => if s.up && id in s.runs && Over(s.runs[id]) then Without(s.locks, id) else s.locks
    case DropOrphan(k) =>
      if !s.up && k < |s.locks| && !Keeps(s.runs, s.locks[k].run) then s.locks[..k] + s.locks[k + 1..] else s.locks
    case Boot => if !s.up then Reconciled(s.runs, s.locks) else s.locks
    case _ => s.locks
  }

  predicate Keeps(runs: map<RunId, Run>, id: RunId) { id in runs && MayHold(runs[id].status) }

  /** `reconcileLocks`: a lock stays only with a run that may hold one. */
  function Reconciled(runs: map<RunId, Run>, locks: seq<Taken>): (r: seq<Taken>)
    ensures forall t :: t in r <==> t in locks && Keeps(runs, t.run)
  {
    Filter(locks, (t: Taken) => Keeps(runs, t.run))
  }

  ghost function Apply(s: Sys, a: Act): Sys {
    var runs := map id | id in s.runs :: Step(s.runs[id], EventFor(s, a, id));
    Sys(
      if a.Propose? && s.up && a.id !in s.runs && WellPlanned(a.plan) then runs[a.id := NewRun(a.plan)] else runs,
      LocksAfter(s, a),
      if a.Die? then false else if a.Boot? then true else s.up,
      if a.Die? then false else if a.Shutdown? && s.up then true else s.stopping)
  }

  ghost function Play(s: Sys, h: seq<Act>): Sys {
    if h == [] then s else Apply(Play(s, h[..|h| - 1]), h[|h| - 1])
  }

  // ---------------------------------------------------------------- each run lives its own history

  /** What the acts of a history were for one run, from the act that proposed it on. */
  ghost function Trace(h: seq<Act>, id: RunId): seq<Event> {
    if h == [] then [] else
      var s := Play(INIT, h[..|h| - 1]);
      if id in s.runs then Trace(h[..|h| - 1], id) + [EventFor(s, h[|h| - 1], id)] else []
  }

  /** Whatever happens to the system, a run is in the state its own events lead to. What holds of
      all histories of one run holds of every run of every history of the system. */
  lemma {:induction false} RunsLiveTheirTraces(h: seq<Act>, id: RunId)
    requires id in Play(INIT, h).runs
    ensures var r := Play(INIT, h).runs[id]; WellPlanned(r.plan) && r == After(NewRun(r.plan), Trace(h, id))
  {
    var last := |h| - 1;
    var s, a := Play(INIT, h[..last]), h[last];
    if id in s.runs {
      RunsLiveTheirTraces(h[..last], id);
      AfterThen(NewRun(s.runs[id].plan), Trace(h[..last], id), EventFor(s, a, id));
    }
  }
}
