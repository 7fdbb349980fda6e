/** server/executor/locks.ts and the claims half of queue.ts and run-targets.ts: what a plan claims,
    when two claims collide, and which taken claims a run would wait for. */
module Locks {
  import opened Common

  /** A run's id, by its rank in the order the queue's tie-break sorts ids in. */
  type RunId = nat

  datatype Resource = Server | GitBranch | MasterKube | MasterVault | Manager | All

  datatype Claim = Claim(resource: Resource, key: string)

  /** A claim that is taken: held by a run, or reserved by a queued run ahead in line. */
  datatype Taken = Taken(claim: Claim, run: RunId)

  datatype TargetRef = TargetRef(serverId: string, ownsHost: bool)

  /** The part of a frozen plan that the executor reads. `targets` is absent where the plan lists none. */
  datatype Plan = Plan(
    targetsServer: bool, targetId: string, targets: Option<seq<TargetRef>>, locks: seq<Claim>,
    requiredSecrets: seq<string>, steps: seq<string>, mutating: bool)

  predicate IsGlobal(c: Claim) {
    c == Claim(Manager, "self") || c == Claim(All, "*")
  }

  /** The collision relation: the same claim, or a global one on either side. */
  predicate Collides(a: Claim, b: Claim) {
    a == b || IsGlobal(a) || IsGlobal(b)
  }

  /** The two global claims collide with every claim, and any other two only if they are the same. */
  lemma CollidesIff(a: Claim, b: Claim)
    ensures Collides(a, b) <==>
      a == b || a in {Claim(Manager, "self"), Claim(All, "*")} || b in {Claim(Manager, "self"), Claim(All, "*")}
  {
  }

  function DefaultTargets(plan: Plan): seq<TargetRef> {
    if plan.targetsServer then [TargetRef(plan.targetId, true)] else []
  }

  function ServerLocks(targets: seq<TargetRef>): (r: seq<Claim>)
    ensures forall c :: c in r <==> exists t :: t in targets && t.ownsHost && c == Claim(Server, t.serverId)
  {
    if targets == [] then [] else
      var rest := ServerLocks(targets[1..]);
      assert targets == [targets[0]] + targets[1..];
      if targets[0].ownsHost then [Claim(Server, targets[0].serverId)] + rest else rest
  }

  /** The first occurrence of every claim, in order. The source keys its Set by "resource:key"; no
      resource name carries a colon, so that key tells two claims apart exactly when they differ. */
  function Dedupe(claims: seq<Claim>): (r: seq<Claim>)
    ensures forall c :: c in r <==> c in claims
    ensures Distinct(r)
  {
    if claims == [] then [] else
      var t := Dedupe(claims[..|claims| - 1]);
      assert claims == claims[..|claims| - 1] + [claims[|claims| - 1]];
      if claims[|claims| - 1] in t then t else t + [claims[|claims| - 1]]
  }

  /** The place of the first of the claims equal to `c`. */
  function FirstAt(claims: seq<Claim>, c: Claim): (k: nat)
    requires c in claims
    ensures k < |claims| && claims[k] == c && forall i :: 0 <= i < k ==> claims[i] != c
  {
    if claims[0] == c then 0 else 1 + FirstAt(claims[1..], c)
  }

  /** The claims that are kept stand in the order of their first occurrences. */
  lemma {:induction false} DedupeKeepsOrder(claims: seq<Claim>, i: nat, j: nat)
    requires i < j < |Dedupe(claims)|
    ensures Dedupe(claims)[i] in claims && Dedupe(claims)[j] in claims
    ensures FirstAt(claims, Dedupe(claims)[i]) < FirstAt(claims, Dedupe(claims)[j])
  {
    var front, last := claims[..|claims| - 1], claims[|claims| - 1];
    assert claims == front + [last];
    var kept := Dedupe(front);
    assert Dedupe(claims)[i] in Dedupe(claims) && Dedupe(claims)[j] in Dedupe(claims);
    assert kept[i] in kept;
    FirstAtFront(front, last, kept[i]);
    if j < |kept| {
      DedupeKeepsOrder(front, i, j);
      FirstAtFront(front, last, kept[j]);
    } else {
      FirstAtEnd(front, last);
    }
  }

  lemma FirstAtFront(front: seq<Claim>, last: Claim, c: Claim)
    requires c in front
    ensures FirstAt(front + [last], c) == FirstAt(front, c)
  {
    FirstAtIs(front + [last], c, FirstAt(front, c));
  }

  lemma FirstAtIs(claims: seq<Claim>, c: Claim, k: nat)
    requires k < |claims| && claims[k] == c && forall i :: 0 <= i < k ==> claims[i] != c
    ensures FirstAt(claims, c) == k
  {
  }

  lemma FirstAtEnd(front: seq<Claim>, last: Claim)
    requires last !in front
    ensures FirstAt(front + [last], last) == |front|
  {
    FirstAtIs(front + [last], last, |front|);
  }

  method DedupeClaims(claims: seq<Claim>) returns (out: seq<Claim>)
    ensures out == Dedupe(claims)
  {
    var seen: set<Claim> := {};
    out := [];
    for i := 0 to |claims|
      invariant out == Dedupe(claims[..i])
      invariant forall c :: c in seen <==> c in out
    {
      assert claims[..i + 1][..i] == claims[..i];
      if claims[i] !in seen {
        seen := seen + {claims[i]};
        out := out + [claims[i]];
      }
    }
    assert claims[..|claims|] == claims;
  }

  function PlanClaims(plan: Plan): (r: seq<Claim>)
    ensures Distinct(r)
  {
    var targets := if plan.targets.Some? then plan.targets.value else DefaultTargets(plan);
    Dedupe(ServerLocks(targets) + plan.locks)
  }

  /** Every claim of a plan: one server lock per host it owns, its own locks, and nothing else. */
  lemma PlanClaimsAre(plan: Plan)
    ensures forall c :: c in PlanClaims(plan) <==>
      || c in plan.locks
      || (plan.targets.Some? && exists t :: t in plan.targets.value && t.ownsHost && c == Claim(Server, t.serverId))
      || (plan.targets.None? && plan.targetsServer && c == Claim(Server, plan.targetId))
  {
    if plan.targets.None? && plan.targetsServer {
      assert TargetRef(plan.targetId, true) in DefaultTargets(plan);
    }
  }

  /** What is reported to stand in the way of `claims`. */
  function LockConflicts(taken: seq<Taken>, claims: seq<Claim>): (r: seq<Taken>) {
    if claims == [] then [] else
      var global := Filter(taken, (t: Taken) => IsGlobal(t.claim));
      if global != [] then global
      else if exists c :: c in claims && IsGlobal(c) then taken
      else Filter(taken, (t: Taken) => t.claim in claims)
  }

  /** Some taken claim and some asked claim collide. */
  ghost predicate AnyCollision(taken: seq<Taken>, claims: seq<Claim>) {
    exists t, c :: t in taken && c in claims && Collides(t.claim, c)
  }

  /** The three-way answer reports a conflict exactly when some pair really collides. */
  lemma ConflictsIffCollision(taken: seq<Taken>, claims: seq<Claim>)
    ensures LockConflicts(taken, claims) != [] <==> AnyCollision(taken, claims)
  {
    FilterEmpty(taken, (t: Taken) => IsGlobal(t.claim));
    FilterEmpty(taken, (t: Taken) => t.claim in claims);
    var r := LockConflicts(taken, claims);
    if r != [] {
      ConflictsAreCollisions(taken, claims);
      assert r[0] in r;
    }
    if t, c :| t in taken && c in claims && Collides(t.claim, c) {
      if t.claim != c && !IsGlobal(t.claim) {
        assert IsGlobal(c);
      }
    }
  }

  /** What is reported is taken and collides with something asked; nothing is reported that does not. */
  lemma ConflictsAreCollisions(taken: seq<Taken>, claims: seq<Claim>)
    ensures forall t :: t in LockConflicts(taken, claims) ==>
      t in taken && exists c :: c in claims && Collides(t.claim, c)
  {
    forall t | t in LockConflicts(taken, claims)
      ensures t in taken && exists c :: c in claims && Collides(t.claim, c)
    {
      if IsGlobal(t.claim) {
        assert claims[0] in claims && Collides(t.claim, claims[0]);
      } else if exists c :: c in claims && IsGlobal(c) {
        var c :| c in claims && IsGlobal(c);
        assert Collides(t.claim, c);
      } else {
        assert Collides(t.claim, t.claim);
      }
    }
  }

  /** What is reported, exactly: every taken global claim if there is one, else everything taken that collides. */
  lemma ConflictsAreExactly(taken: seq<Taken>, claims: seq<Claim>, t: Taken)
    ensures t in LockConflicts(taken, claims) <==>
      && claims != [] && t in taken
      && if exists g :: g in taken && IsGlobal(g.claim) then IsGlobal(t.claim) else exists c :: c in claims && Collides(t.claim, c)
  {
    FilterEmpty(taken, (t: Taken) => IsGlobal(t.claim));
    if claims != [] { assert claims[0] in claims && (IsGlobal(t.claim) ==> Collides(t.claim, claims[0])); }
    if c :| c in claims && IsGlobal(c) { assert Collides(t.claim, c); }
    if t.claim in claims { assert Collides(t.claim, t.claim); }
  }

  /** Taking more can only add conflicts. */
  lemma ConflictsMonotone(few: seq<Taken>, many: seq<Taken>, claims: seq<Claim>)
    requires forall t :: t in few ==> t in many
    ensures LockConflicts(many, claims) == [] ==> LockConflicts(few, claims) == []
  {
    ConflictsIffCollision(few, claims);
    ConflictsIffCollision(many, claims);
  }

  /** The rows `run` adds to the lock table for `claims`. */
  function Held(claims: seq<Claim>, run: RunId): (r: seq<Taken>)
    ensures |r| == |claims|
    ensures forall i :: 0 <= i < |r| ==> r[i] == Taken(claims[i], run)
    ensures forall t :: t in r <==> t.run == run && t.claim in claims
  {
    seq(|claims|, i requires 0 <= i < |claims| => Taken(claims[i], run))
  }
}
