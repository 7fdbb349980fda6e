/** Small shared vocabulary. */
module Common {

  datatype Option<+T> = None | Some(value: T)

  /** What an operation answers: it went through, or it was refused for a reason. */
  datatype Outcome = Done | Refused(reason: Refusal)

  datatype Refusal =
    | NotFound | DeletedRun | IllegalTransition | MissingSecret | ResourceBusy
    | NotRecoverable | NoSuchStep | NotRetryable | NotTheFailedStep | Precondition
    | EmptyReason | DuplicateCleanup | NotApprovable | NotAbortable | SecretInCheckpoint

  /** The elements of `s` that satisfy `p`, in order. */
  function Filter<T(!new)>(s: seq<T>, p: T -> bool): (r: seq<T>)
    ensures |r| <= |s|
    ensures forall x :: x in r <==> x in s && p(x)
  {
    if s == [] then [] else
      var t := Filter(s[..|s| - 1], p);
      assert s == s[..|s| - 1] + [s[|s| - 1]];
      if p(s[|s| - 1]) then t + [s[|s| - 1]] else t
  }

  ghost predicate Distinct<T>(s: seq<T>) {
    forall i, j :: 0 <= i < j < |s| ==> s[i] != s[j]
  }

  lemma {:induction false} FilterDistinct<T(!new)>(s: seq<T>, p: T -> bool)
    requires Distinct(s)
    ensures Distinct(Filter(s, p))
  {
    if s != [] {
      FilterDistinct(s[..|s| - 1], p);
    }
  }

  /** Nothing satisfies `p` exactly when the filter is empty. */
  lemma FilterEmpty<T(!new)>(s: seq<T>, p: T -> bool)
    ensures Filter(s, p) == [] <==> forall x :: x in s ==> !p(x)
  {
    var f := Filter(s, p);
    if f != [] { assert f[0] in f; }
  }

  lemma Assoc<T>(a: seq<T>, b: seq<T>, c: seq<T>)
    ensures (a + b) + c == a + (b + c)
  {
  }

  lemma TakeNext<T>(s: seq<T>, i: nat)
    requires i < |s|
    ensures s[..i + 1] == s[..i] + [s[i]]
  {
  }

  lemma TakeAll<T>(s: seq<T>)
    ensures s[..|s|] == s
  {
  }

  lemma SplitAt<T>(s: seq<T>, n: nat)
    requires n < |s|
    ensures s[..n] + [s[n]] + s[n + 1..] == s
  {
  }

  /** Pigeonhole: a list of different things, all out of one set, is no longer than the set is large. */
  lemma {:induction false} Pigeonhole<T>(s: seq<T>, pool: set<T>)
    requires Distinct(s) && forall x :: x in s ==> x in pool
    ensures |s| <= |pool|
  {
    if s != [] {
      var rest := s[..|s| - 1];
      forall x | x in rest ensures x in pool - {s[|s| - 1]} { assert x in s; }
      Pigeonhole(rest, pool - {s[|s| - 1]});
    }
  }

  lemma {:induction false} CountsAtMostOnce<T>(s: seq<T>, x: T)
    requires Distinct(s)
    ensures multiset(s)[x] <= 1
  {
    if s != [] {
      assert s == [s[0]] + s[1..];
      CountsAtMostOnce(s[1..], x);
    }
  }

  /** Two lists without repeats that hold the same things are the same list in another order. */
  lemma SameThings<T>(a: seq<T>, b: seq<T>)
    requires Distinct(a) && Distinct(b) && forall x :: x in a <==> x in b
    ensures multiset(a) == multiset(b)
  {
    forall x ensures multiset(a)[x] == multiset(b)[x] {
      CountsAtMostOnce(a, x);
      CountsAtMostOnce(b, x);
      assert x in multiset(a) <==> x in a;
      assert x in multiset(b) <==> x in b;
    }
  }

  /** Filtering twice is filtering once, where the second test is the stricter one. */
  lemma {:induction false} FilterTwice<T(!new)>(s: seq<T>, loose: T -> bool, strict: T -> bool)
    requires forall x :: strict(x) ==> loose(x)
    ensures Filter(Filter(s, loose), strict) == Filter(s, strict)
  {
    if s != [] {
      var rest, last := s[..|s| - 1], s[|s| - 1];
      FilterTwice(rest, loose, strict);
      if loose(last) {
        var f := Filter(rest, loose);
        assert (f + [last])[..|f|] == f;
      }
    }
  }

  lemma {:induction false} FilterSame<T(!new)>(s: seq<T>, p: T -> bool, q: T -> bool)
    requires forall x :: x in s ==> p(x) == q(x)
    ensures Filter(s, p) == Filter(s, q)
  {
    if s != [] {
      assert s == s[..|s| - 1] + [s[|s| - 1]];
      FilterSame(s[..|s| - 1], p, q);
    }
  }

  /** A filter that drops something makes the list shorter. */
  lemma {:induction false} FilterShrinks<T(!new)>(s: seq<T>, p: T -> bool, x: T)
    requires x in s && !p(x)
    ensures |Filter(s, p)| < |s|
  {
    var rest, last := s[..|s| - 1], s[|s| - 1];
    if p(last) {
      assert s == rest + [last];
      FilterShrinks(rest, p, x);
    }
  }

  lemma {:induction false} SubsetIsSmaller<T>(a: set<T>, b: set<T>)
    requires a <= b
    ensures |a| <= |b|
  {
    if a != {} {
      var x :| x in a;
      SubsetIsSmaller(a - {x}, b - {x});
    }
  }

  /** A list without repeats is as long as the set of what it holds. */
  lemma {:induction false} SetOfDistinct<T>(s: seq<T>)
    requires Distinct(s)
    ensures |set x | x in s| == |s|
  {
    if s != [] {
      var front, last := s[..|s| - 1], s[|s| - 1];
      SetOfDistinct(front);
      assert s == front + [last];
      assert (set x | x in s) == (set x | x in front) + {last};
    }
  }

  lemma FirstIsMember<T>(s: seq<T>)
    ensures s != [] ==> s[0] in s
  {
  }
}
