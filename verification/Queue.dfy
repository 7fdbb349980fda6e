/** server/executor/queue.ts: the FIFO queue with reservations. The line is read once, front to back. A run
    that has its secrets puts its claims among the taken ones even where it must go on waiting, and is
    started exactly when it collides with nothing taken before it. */
module Queue {
  import opened Common
  import opened Locks

  /** A queued run as the walk sees it. */
  datatype Waiting = Waiting(id: RunId, claims: seq<Claim>, needsSecrets: bool)

  function Reservation(w: Waiting): seq<Taken> {
    if w.needsSecrets then [] else Held(w.claims, w.id)
  }

  /** What is taken once the walk passed the first `i` runs of the line. */
  function TakenBefore(taken: seq<Taken>, q: seq<Waiting>, i: nat): seq<Taken>
    requires i <= |q|
    decreases i
  {
    if i == 0 then taken else TakenBefore(taken + Reservation(q[0]), q[1..], i - 1)
  }

  /** A run met with `taken` already taken starts. */
  predicate Goes(taken: seq<Taken>, w: Waiting) {
    !w.needsSecrets && LockConflicts(taken, w.claims) == []
  }

  /** What the run at place `i` of the line waits for. */
  function WaitsFor(taken: seq<Taken>, q: seq<Waiting>, i: nat): seq<Taken>
    requires i < |q|
  {
    if q[i].needsSecrets then [] else LockConflicts(TakenBefore(taken, q, i), q[i].claims)
  }

  predicate Starts(taken: seq<Taken>, q: seq<Waiting>, i: nat)
    requires i < |q|
  {
    Goes(TakenBefore(taken, q, i), q[i])
  }

  /** The runs one dispatch starts, in line order. */
  function Started(taken: seq<Taken>, q: seq<Waiting>): seq<Waiting>
    decreases |q|
  {
    if q == [] then [] else
      var rest := Started(taken + Reservation(q[0]), q[1..]);
      if Goes(taken, q[0]) then [q[0]] + rest else rest
  }

  /** The line one dispatch leaves behind. */
  function Left(taken: seq<Taken>, q: seq<Waiting>): seq<Waiting>
    decreases |q|
  {
    if q == [] then [] else
      var rest := Left(taken + Reservation(q[0]), q[1..]);
      if Goes(taken, q[0]) then rest else [q[0]] + rest
  }

  /** The lock rows one dispatch inserts: the claims of every run it starts. */
  function Inserted(taken: seq<Taken>, q: seq<Waiting>): seq<Taken>
    decreases |q|
  {
    if q == [] then [] else
      var rest := Inserted(taken + Reservation(q[0]), q[1..]);
      if Goes(taken, q[0]) then Held(q[0].claims, q[0].id) + rest else rest
  }

  /** What every run of the line waits for. */
  function Walk(taken: seq<Taken>, q: seq<Waiting>): (r: seq<seq<Taken>>)
    ensures |r| == |q|
    decreases |q|
  {
    if q == [] then [] else
      [if q[0].needsSecrets then [] else LockConflicts(taken, q[0].claims)] + Walk(taken + Reservation(q[0]), q[1..])
  }

  lemma {:induction false} WalkAnswers(taken: seq<Taken>, q: seq<Waiting>, i: nat)
    requires i < |q|
    ensures Walk(taken, q)[i] == WaitsFor(taken, q, i)
    decreases i
  {
    hide LockConflicts, Reservation;
    if i > 0 {
      var taken' := taken + Reservation(q[0]);
      WalkAnswers(taken', q[1..], i - 1);
      assert q[1..][i - 1] == q[i] && TakenBefore(taken, q, i) == TakenBefore(taken', q[1..], i - 1);
    }
  }

  /** The walk itself: `taken` grows while the line is read once. */
  method WalkQueue(locks: seq<Taken>, q: seq<Waiting>) returns (waitsFor: seq<seq<Taken>>, taken: seq<Taken>)
    ensures waitsFor == Walk(locks, q)
    ensures taken == TakenBefore(locks, q, |q|)
  {
    taken := locks;
    waitsFor := [];
    for i := 0 to |q|
      invariant taken == TakenBefore(locks, q, i)
      invariant waitsFor + Walk(taken, q[i..]) == Walk(locks, q)
    {
      TakenBeforeNext(locks, q, i);
      assert q[i..][1..] == q[i + 1..];
      var w := if q[i].needsSecrets then [] else LockConflicts(taken, q[i].claims);
      taken := taken + if q[i].needsSecrets then [] else Held(q[i].claims, q[i].id);
      Assoc(waitsFor, [w], Walk(taken, q[i + 1..]));
      waitsFor := waitsFor + [w];
    }
  }

  /** The loop of `startQueuedRuns`: the runs that wait for nothing take their claims, one by one. */
  method StartWaiting(locks: seq<Taken>, q: seq<Waiting>) returns (started: seq<Waiting>, held: seq<Taken>)
    ensures started == Started(locks, q)
    ensures held == locks + Inserted(locks, q)
  {
    var waitsFor, _ := WalkQueue(locks, q);
    started := [];
    held := locks;
    for i := 0 to |q|
      invariant started + Started(TakenBefore(locks, q, i), q[i..]) == Started(locks, q)
      invariant held + Inserted(TakenBefore(locks, q, i), q[i..]) == locks + Inserted(locks, q)
    {
      TakenBeforeNext(locks, q, i);
      assert q[i..][1..] == q[i + 1..];
      WalkAnswers(locks, q, i);
      if !q[i].needsSecrets && |waitsFor[i]| == 0 {
        Assoc(held, Held(q[i].claims, q[i].id), Inserted(TakenBefore(locks, q, i + 1), q[i + 1..]));
        Assoc(started, [q[i]], Started(TakenBefore(locks, q, i + 1), q[i + 1..]));
        held := InsertLocks(held, q[i].claims, q[i].id);
        started := started + [q[i]];
      }
    }
  }

  /** `insertLock` for every claim of a run. */
  method InsertLocks(locks: seq<Taken>, claims: seq<Claim>, run: RunId) returns (held: seq<Taken>)
    ensures held == locks + Held(claims, run)
  {
    held := locks;
    for k := 0 to |claims|
      invariant held == locks + Held(claims, run)[..k]
    {
      held := held + [Taken(claims[k], run)];
    }
    assert Held(claims, run)[..|claims|] == Held(claims, run);
  }

  // ---------------------------------------------------------------- what is taken

  lemma {:induction false} TakenBeforeNext(taken: seq<Taken>, q: seq<Waiting>, i: nat)
    requires i < |q|
    ensures TakenBefore(taken, q, i + 1) == TakenBefore(taken, q, i) + Reservation(q[i])
    decreases |q|
  {
    hide Reservation;
    if i > 0 { TakenBeforeNext(taken + Reservation(q[0]), q[1..], i - 1); }
  }

  /** `t` is reserved by one of the first `i` runs of the line. */
  ghost predicate ReservedBefore(q: seq<Waiting>, i: nat, t: Taken)
    requires i <= |q|
  {
    exists k :: 0 <= k < i && !q[k].needsSecrets && t.run == q[k].id && t.claim in q[k].claims
  }

  lemma {:induction false} TakenBeforeIs(taken: seq<Taken>, q: seq<Waiting>, i: nat, t: Taken)
    requires i <= |q|
    ensures t in TakenBefore(taken, q, i) <==> t in taken || ReservedBefore(q, i, t)
    decreases i
  {
    hide Reservation;
    if i > 0 {
      TakenBeforeIs(taken, q, i - 1, t);
      TakenBeforeNext(taken, q, i - 1);
      ReservedNext(q, i - 1, t);
    }
  }

  lemma TakenBeforeAre(taken: seq<Taken>, q: seq<Waiting>, i: nat)
    requires i <= |q|
    ensures forall t :: t in TakenBefore(taken, q, i) <==> t in taken || ReservedBefore(q, i, t)
  {
    forall t ensures t in TakenBefore(taken, q, i) <==> t in taken || ReservedBefore(q, i, t) { TakenBeforeIs(taken, q, i, t); }
  }

  lemma ReservedNext(q: seq<Waiting>, i: nat, t: Taken)
    requires i < |q|
    ensures ReservedBefore(q, i + 1, t) <==> ReservedBefore(q, i, t) || t in Reservation(q[i])
  {
  }

  lemma {:induction false} StartedAre(taken: seq<Taken>, q: seq<Waiting>)
    ensures forall i :: 0 <= i < |q| && Starts(taken, q, i) ==> q[i] in Started(taken, q)
    ensures forall w :: w in Started(taken, q) ==> exists i :: 0 <= i < |q| && q[i] == w && Starts(taken, q, i)
    decreases |q|
  {
    hide Goes, Reservation;
    if q != [] {
      var taken' := taken + Reservation(q[0]);
      StartedAre(taken', q[1..]);
      forall i | 0 <= i < |q| && Starts(taken, q, i) ensures q[i] in Started(taken, q) {
        if i > 0 { assert q[1..][i - 1] == q[i] && Starts(taken', q[1..], i - 1); }
      }
      forall w | w in Started(taken, q) ensures exists i :: 0 <= i < |q| && q[i] == w && Starts(taken, q, i) {
        if w in Started(taken', q[1..]) {
          var i :| 0 <= i < |q[1..]| && q[1..][i] == w && Starts(taken', q[1..], i);
          assert q[i + 1] == w && Starts(taken, q, i + 1);
        } else {
          assert Starts(taken, q, 0);
        }
      }
    }
  }

  lemma {:induction false} InsertedAre(taken: seq<Taken>, q: seq<Waiting>)
    ensures forall t :: t in Inserted(taken, q) <==> exists w :: w in Started(taken, q) && t in Held(w.claims, w.id)
    decreases |q|
  {
    hide Goes, Reservation;
    if q != [] { InsertedAre(taken + Reservation(q[0]), q[1..]); }
  }

  // ---------------------------------------------------------------- fairness

  /** Nothing overtakes: a started run collides with no lock already held, and with no run before it in
      line that has its secrets, be that one started or left waiting. */
  lemma DispatchIsFair(taken: seq<Taken>, q: seq<Waiting>, j: nat, d: Claim)
    requires j < |q| && Starts(taken, q, j) && d in q[j].claims
    ensures forall t :: t in taken ==> !Collides(t.claim, d)
    ensures forall i, c :: 0 <= i < j && !q[i].needsSecrets && c in q[i].claims ==> !Collides(c, d)
  {
    TakenBeforeAre(taken, q, j);
    ConflictsIffCollision(TakenBefore(taken, q, j), q[j].claims);
    forall i, c | 0 <= i < j && !q[i].needsSecrets && c in q[i].claims ensures !Collides(c, d) {
      assert ReservedBefore(q, j, Taken(c, q[i].id));
      assert Taken(c, q[i].id) in TakenBefore(taken, q, j);
    }
  }

  /** Nobody waits without cause: a run left waiting with its secrets collides with a lock that is held
      after the dispatch, or with a run before it in line that is left waiting too. */
  lemma DispatchIsMaximal(taken: seq<Taken>, q: seq<Waiting>, j: nat)
    requires j < |q| && !q[j].needsSecrets && !Starts(taken, q, j)
    ensures
      || AnyCollision(taken + Inserted(taken, q), q[j].claims)
      || exists i :: 0 <= i < j && !q[i].needsSecrets && !Starts(taken, q, i) && AnyCollision(Held(q[i].claims, q[i].id), q[j].claims)
  {
    ConflictsIffCollision(TakenBefore(taken, q, j), q[j].claims);
    var t, c :| t in TakenBefore(taken, q, j) && c in q[j].claims && Collides(t.claim, c);
    TakenBeforeAre(taken, q, j);
    if t !in taken {
      var i :| 0 <= i < j && !q[i].needsSecrets && t.run == q[i].id && t.claim in q[i].claims;
      assert t in Held(q[i].claims, q[i].id);
      if Starts(taken, q, i) {
        StartedAre(taken, q);
        InsertedAre(taken, q);
        assert t in taken + Inserted(taken, q);
      }
    }
  }

  lemma {:induction false} NothingLeftGoes(taken: seq<Taken>, q: seq<Waiting>, held: seq<Taken>)
    requires forall t :: t in taken || t in Inserted(taken, q) ==> t in held
    ensures Started(held, Left(taken, q)) == []
    decreases |q|
  {
    if q != [] {
      var w, taken' := q[0], taken + Reservation(q[0]);
      if Goes(taken, w) {
        NothingLeftGoes(taken', q[1..], held);
      } else {
        NothingLeftGoes(taken', q[1..], held + Reservation(w));
        ConflictsMonotone(taken, held, w.claims);
        assert Left(taken, q)[1..] == Left(taken', q[1..]);
      }
    }
  }

  /** A second dispatch right after the first starts nothing. */
  lemma SecondDispatchStartsNothing(taken: seq<Taken>, q: seq<Waiting>)
    ensures Started(taken + Inserted(taken, q), Left(taken, q)) == []
  {
    NothingLeftGoes(taken, q, taken + Inserted(taken, q));
  }

  // ---------------------------------------------------------------- no deadlock

  /** Every waits-for edge leads to a lock holder, or to a strictly earlier place in line. */
  lemma WaitsForEarlierOnly(taken: seq<Taken>, q: seq<Waiting>, i: nat, t: Taken)
    requires i < |q| && t in WaitsFor(taken, q, i)
    ensures t in taken || ReservedBefore(q, i, t)
    ensures exists c :: c in q[i].claims && Collides(t.claim, c)
  {
    ConflictsAreCollisions(TakenBefore(taken, q, i), q[i].claims);
    TakenBeforeAre(taken, q, i);
  }

  /** The first run of the line that has its secrets. */
  lemma {:induction false} FirstReady(q: seq<Waiting>, j: nat) returns (i: nat)
    requires j < |q| && !q[j].needsSecrets
    ensures i <= j && !q[i].needsSecrets && forall k :: 0 <= k < i ==> q[k].needsSecrets
  {
    if k: nat :| k < j && !q[k].needsSecrets { i := FirstReady(q, k); } else { i := j; }
  }

  /** With no lock held a dispatch starts it. */
  lemma FirstReadyStarts(q: seq<Waiting>, i: nat)
    requires i < |q| && !q[i].needsSecrets && forall k :: 0 <= k < i ==> q[k].needsSecrets
    ensures q[i] in Started([], q)
  {
    TakenBeforeAre([], q, i);
    FirstIsMember(TakenBefore([], q, i));
    assert TakenBefore([], q, i) == [];
    StartedAre([], q);
    assert Starts([], q, i);
  }

  function Secretless(q: seq<Waiting>): seq<Waiting> {
    if q == [] then [] else (if q[0].needsSecrets then [q[0]] else []) + Secretless(q[1..])
  }

  /** A run leaves the line only by starting. */
  lemma {:induction false} OnlyStartsLeave(taken: seq<Taken>, q: seq<Waiting>)
    ensures multiset(q) == multiset(Started(taken, q)) + multiset(Left(taken, q))
    decreases |q|
  {
    hide Goes, Reservation;
    if q != [] {
      OnlyStartsLeave(taken + Reservation(q[0]), q[1..]);
      assert q == [q[0]] + q[1..];
    }
  }

  /** The runs that wait for a password keep their order among themselves. */
  lemma {:induction false} SecretlessKeepPlaces(taken: seq<Taken>, q: seq<Waiting>)
    ensures Secretless(Left(taken, q)) == Secretless(q)
    decreases |q|
  {
    hide LockConflicts, Reservation;
    if q != [] {
      var rest := Left(taken + Reservation(q[0]), q[1..]);
      SecretlessKeepPlaces(taken + Reservation(q[0]), q[1..]);
      if !Goes(taken, q[0]) { SecretlessFirst(q[0], rest); }
    }
  }

  lemma SecretlessFirst(w: Waiting, rest: seq<Waiting>)
    ensures Secretless([w] + rest) == (if w.needsSecrets then [w] else []) + Secretless(rest)
  {
    assert ([w] + rest)[1..] == rest;
  }

  /** Each run of the line is either started or left, never both. */
  lemma StartedXorLeft(taken: seq<Taken>, q: seq<Waiting>, w: Waiting)
    requires Distinct(q)
    ensures w in q <==> w in Started(taken, q) || w in Left(taken, q)
    ensures !(w in Started(taken, q) && w in Left(taken, q))
  {
    OnlyStartsLeave(taken, q);
    CountsAtMostOnce(q, w);
    assert w in multiset(q) <==> w in multiset(Started(taken, q)) || w in multiset(Left(taken, q));
  }

  ghost predicate Pairwise(q: seq<Waiting>, r: (Waiting, Waiting) -> bool) {
    forall i, j :: 0 <= i < j < |q| ==> r(q[i], q[j])
  }

  /** The runs that are left keep their order. */
  lemma {:induction false} LeftKeepsOrder(taken: seq<Taken>, q: seq<Waiting>, r: (Waiting, Waiting) -> bool)
    requires Pairwise(q, r)
    ensures Pairwise(Left(taken, q), r)
    ensures forall w :: w in Left(taken, q) ==> w in q
    decreases |q|
  {
    hide Goes, Reservation;
    if q != [] {
      var rest := Left(taken + Reservation(q[0]), q[1..]);
      LeftKeepsOrder(taken + Reservation(q[0]), q[1..], r);
      assert q == [q[0]] + q[1..];
      if !Goes(taken, q[0]) {
        assert Left(taken, q) == [q[0]] + rest;
        forall j | 0 <= j < |rest| ensures r(q[0], rest[j]) { assert rest[j] in q[1..]; }
      }
    }
  }

  // ---------------------------------------------------------------- joining the line

  /** `conflictsAtEndOfQueue`: the taken claims in the way of `claims` once the whole line has been read. */
  function ConflictsAtEnd(taken: seq<Taken>, q: seq<Waiting>, claims: seq<Claim>): seq<Taken> {
    LockConflicts(TakenBefore(taken, q, |q|), claims)
  }

  /** If nothing stands in the way at the end of the line, the next dispatch starts the run wherever its
      (approvedAt, id) puts it. */
  lemma FreeAtEndStartsAnywhere(taken: seq<Taken>, before: seq<Waiting>, after: seq<Waiting>, w: Waiting)
    requires !w.needsSecrets && ConflictsAtEnd(taken, before + after, w.claims) == []
    ensures w in Started(taken, before + [w] + after)
  {
    var q, line, n := before + after, before + [w] + after, |before|;
    TakenBeforeAre(taken, q, |q|);
    TakenBeforeAre(taken, line, n);
    forall t | t in TakenBefore(taken, line, n) ensures t in TakenBefore(taken, q, |q|) {
      if t !in taken {
        var k :| 0 <= k < n && !line[k].needsSecrets && t.run == line[k].id && t.claim in line[k].claims;
        assert q[k] == line[k];
      }
    }
    ConflictsMonotone(TakenBefore(taken, line, n), TakenBefore(taken, q, |q|), w.claims);
    assert line[n] == w && Starts(taken, line, n);
    StartedAre(taken, line);
  }

  // ---------------------------------------------------------------- lock safety of one dispatch

  /** No two locks of different runs collide. */
  ghost predicate CollisionFree(locks: seq<Taken>) {
    forall a, b :: a in locks && b in locks && a.run != b.run ==> !Collides(a.claim, b.claim)
  }

  /** Letting in one run that collides with nothing taken keeps the table safe. */
  lemma AdmitKeepsSafe(locks: seq<Taken>, taken: seq<Taken>, claims: seq<Claim>, run: RunId)
    requires CollisionFree(locks) && Distinct(locks) && Distinct(claims)
    requires forall t :: t in locks && t.run != run ==> t in taken
    requires forall t :: t in locks && t.run == run ==> t.claim !in claims
    requires LockConflicts(taken, claims) == []
    ensures CollisionFree(locks + Held(claims, run)) && Distinct(locks + Held(claims, run))
  {
    ConflictsIffCollision(taken, claims);
    forall t, c | t in locks && t.run != run && c in claims ensures !Collides(t.claim, c) && !Collides(c, t.claim) { }
    var after := locks + Held(claims, run);
    forall i, j | 0 <= i < j < |after| ensures after[i] != after[j] {
      if i < |locks| <= j { assert locks[i] in locks; }
    }
  }

  /** A dispatch keeps the lock table free of collisions and never inserts a claim twice, so no
      insert of it is ever refused. */
  lemma {:induction false} DispatchKeepsLocksSafe(locks: seq<Taken>, taken: seq<Taken>, q: seq<Waiting>)
    requires CollisionFree(locks) && Distinct(locks)
    requires forall t :: t in locks ==> t in taken
    requires forall w :: w in q ==> Distinct(w.claims)
    ensures CollisionFree(locks + Inserted(taken, q))
    ensures Distinct(locks + Inserted(taken, q))
    decreases |q|
  {
    if q == [] {
      assert locks + [] == locks;
    } else {
      var w := q[0];
      forall v | v in q[1..] ensures Distinct(v.claims) { assert v in q; }
      if Goes(taken, w) {
        ConflictsIffCollision(taken, w.claims);
        forall t | t in locks ensures t.claim !in w.claims { assert Collides(t.claim, t.claim); }
        AdmitKeepsSafe(locks, taken, w.claims, w.id);
        var locks' := locks + Held(w.claims, w.id);
        DispatchKeepsLocksSafe(locks', taken + Reservation(w), q[1..]);
        Assoc(locks, Held(w.claims, w.id), Inserted(taken + Reservation(w), q[1..]));
      } else {
        DispatchKeepsLocksSafe(locks, taken + Reservation(w), q[1..]);
      }
    }
  }
}
