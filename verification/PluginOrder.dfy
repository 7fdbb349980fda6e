/** server/boot/plugin-set.ts: the order in which plugins are activated, each after everything it requires. */
module PluginOrder {
  import opened Common

  /** `needs` is empty where the source leaves `requires` out. */
  datatype Item = Item(name: string, needs: seq<string>)

  /** `inDependencyOrder` answers an order, or refuses: a name nobody has, or items that wait for each other. */
  datatype Answer = Ordered(items: seq<Item>) | MissingName | EachOther(rest: seq<Item>)

  function Names(items: seq<Item>): (r: set<string>)
    ensures forall n :: n in r <==> exists p :: p in items && p.name == n
  {
    set p | p in items :: p.name
  }

  ghost predicate AllKnown(items: seq<Item>) {
    forall p, n :: p in items && n in p.needs ==> n in Names(items)
  }

  ghost predicate DistinctNames(items: seq<Item>) {
    forall i, j :: 0 <= i < j < |items| ==> items[i].name != items[j].name
  }

  function Unplaced(items: seq<Item>, placed: set<string>): seq<Item> { Filter(items, (p: Item) => p.name !in placed) }

  predicate Ready(p: Item, placed: set<string>) { forall n :: n in p.needs ==> n in placed }

  /** Everything an item requires stands before it. */
  ghost predicate InOrder(items: seq<Item>) {
    forall i, n :: 0 <= i < |items| && n in items[i].needs ==> exists j :: 0 <= j < i && items[j].name == n
  }

  function After<T>(c: seq<T>, k: nat): T
    requires k < |c|
  {
    c[if k + 1 == |c| then 0 else k + 1]
  }

  /** Items of which each requires the next, and the last the first. */
  ghost predicate Cycle(items: seq<Item>, c: seq<Item>) {
    c != [] && forall k :: 0 <= k < |c| ==> c[k] in items && After(c, k).name in c[k].needs
  }

  // ---------------------------------------------------------------- the loop

  /** Where the loop stands: what is placed is in order, and what is left are the items not placed. */
  ghost predicate Placing(items: seq<Item>, ordered: seq<Item>, placed: set<string>, rest: seq<Item>) {
    && InOrder(ordered) && placed == Names(ordered) && (forall p :: p in ordered ==> p in items)
    && (DistinctNames(items) ==> DistinctNames(ordered))
    && rest == Unplaced(items, placed)
  }

  method InDependencyOrder(items: seq<Item>) returns (a: Answer)
    ensures a.MissingName? <==> !AllKnown(items)
    ensures a.Ordered? ==> InOrder(a.items) && (forall p :: p in a.items ==> p in items) && Names(a.items) == Names(items)
    ensures a.EachOther? ==> exists c :: Cycle(items, c)
    ensures DistinctNames(items) && a.Ordered? ==> multiset(a.items) == multiset(items) && !exists c :: Cycle(items, c)
  {
    var names := Names(items);
    if exists p, n | p in items && n in p.needs :: n !in names {
      return MissingName;
    }
    var ordered, placed, rest := [], {}, items;
    StartsPlacing(items);
    while |rest| > 0
      invariant Placing(items, ordered, placed, rest)
      decreases |rest|
    {
      var ready := Filter(rest, (p: Item) => Ready(p, placed));
      if |ready| == 0 {
        Stuck(items, ordered, placed, rest);
        return EachOther(rest);
      }
      ordered, placed, rest := PlaceReady(items, ordered, placed, rest, ready);
    }
    EndsPlacing(items, ordered, placed, rest);
    if DistinctNames(items) {
      OrderHasNoCycle(items, ordered);
    }
    return Ordered(ordered);
  }

  /** `for (const p of ready)`, and the filter after it. */
  method PlaceReady(items: seq<Item>, ordered: seq<Item>, placed: set<string>, rest: seq<Item>, ready: seq<Item>)
    returns (ordered': seq<Item>, placed': set<string>, rest': seq<Item>)
    requires Placing(items, ordered, placed, rest)
    requires ready == Filter(rest, (p: Item) => Ready(p, placed)) && ready != []
    ensures Placing(items, ordered', placed', rest') && |rest'| < |rest|
  {
    ordered', placed' := ordered, placed;
    for i := 0 to |ready|
      invariant ordered' == ordered + ready[..i]
      invariant placed' == placed + Names(ready[..i])
    {
      TakeNext(ready, i);
      ordered' := ordered' + [ready[i]];
      placed' := placed' + {ready[i].name};
    }
    TakeAll(ready);
    rest' := Unplaced(rest, placed');
    Placed(items, ordered, placed, rest, ready);
  }

  lemma Placed(items: seq<Item>, ordered: seq<Item>, placed: set<string>, rest: seq<Item>, ready: seq<Item>)
    requires Placing(items, ordered, placed, rest)
    requires ready == Filter(rest, (p: Item) => Ready(p, placed)) && ready != []
    ensures var placed' := placed + Names(ready);
      var rest' := Unplaced(rest, placed');
      Placing(items, ordered + ready, placed', rest') && |rest'| < |rest|
  {
    var placed' := placed + Names(ready);
    var later := (p: Item) => p.name !in placed';
    FilterTwice(items, (p: Item) => p.name !in placed, later);
    assert ready[0] in ready;
    FilterShrinks(rest, later, ready[0]);
    ReadyAreInOrder(ordered, placed, ready);
    if DistinctNames(items) { StaysDistinct(items, ordered, placed, rest, ready); }
  }

  lemma ReadyAreInOrder(ordered: seq<Item>, placed: set<string>, ready: seq<Item>)
    requires InOrder(ordered) && placed == Names(ordered) && forall p :: p in ready ==> Ready(p, placed)
    ensures InOrder(ordered + ready)
  {
    var all := ordered + ready;
    forall i, n | 0 <= i < |all| && n in all[i].needs ensures exists j :: 0 <= j < i && all[j].name == n {
      if i < |ordered| {
        var j :| 0 <= j < i && ordered[j].name == n;
        assert all[j].name == n;
      } else {
        assert all[i] in ready;
        var p :| p in ordered && p.name == n;
        var j :| 0 <= j < |ordered| && ordered[j] == p;
        assert all[j].name == n;
      }
    }
  }

  lemma StaysDistinct(items: seq<Item>, ordered: seq<Item>, placed: set<string>, rest: seq<Item>, ready: seq<Item>)
    requires Placing(items, ordered, placed, rest) && DistinctNames(items)
    requires ready == Filter(rest, (p: Item) => Ready(p, placed))
    ensures DistinctNames(ordered + ready)
  {
    assert Distinct(items);
    FilterDistinct(items, (p: Item) => p.name !in placed);
    FilterDistinct(rest, (p: Item) => Ready(p, placed));
    var all := ordered + ready;
    forall i, j | 0 <= i < j < |all| ensures all[i].name != all[j].name {
      if |ordered| <= i {
        assert all[i] in ready && all[j] in ready && all[i] != all[j];
        SameNameSameItem(items, all[i], all[j]);
      } else if |ordered| <= j {
        assert all[j] in ready && all[i] in ordered;
      }
    }
  }

  lemma SameNameSameItem(items: seq<Item>, p: Item, q: Item)
    requires DistinctNames(items) && p in items && q in items
    ensures p.name == q.name ==> p == q
  {
    var i :| 0 <= i < |items| && items[i] == p;
    var j :| 0 <= j < |items| && items[j] == q;
    if i < j { assert items[i].name != items[j].name; } else if j < i { assert items[j].name != items[i].name; }
  }

  lemma {:induction false} KeepsAll<T(!new)>(s: seq<T>, p: T -> bool)
    requires forall x :: x in s ==> p(x)
    ensures Filter(s, p) == s
  {
    if s != [] {
      assert s == s[..|s| - 1] + [s[|s| - 1]];
      KeepsAll(s[..|s| - 1], p);
    }
  }

  lemma StartsPlacing(items: seq<Item>)
    ensures Placing(items, [], {}, items)
  {
    var none: set<string> := {};
    KeepsAll(items, (p: Item) => p.name !in none);
    assert Unplaced(items, none) == items;
  }

  // ---------------------------------------------------------------- the two ends of the loop

  /** Nothing is left: everything stands in the order, once. */
  lemma EndsPlacing(items: seq<Item>, ordered: seq<Item>, placed: set<string>, rest: seq<Item>)
    requires Placing(items, ordered, placed, rest) && rest == []
    ensures Names(ordered) == Names(items)
    ensures DistinctNames(items) ==> multiset(ordered) == multiset(items)
  {
    FilterEmpty(items, (p: Item) => p.name !in placed);
    if DistinctNames(items) {
      forall p | p in items ensures p in ordered {
        var q :| q in ordered && q.name == p.name;
        SameNameSameItem(items, p, q);
      }
      SameThings(ordered, items);
    }
  }

  /** An order leaves no cycle: following a cycle from any place of the order leads ever further back. */
  lemma OrderHasNoCycle(items: seq<Item>, ordered: seq<Item>)
    requires InOrder(ordered) && DistinctNames(items) && forall p :: p in items <==> p in ordered
    ensures !exists c :: Cycle(items, c)
  {
    forall c | Cycle(items, c) ensures false {
      assert c[0] in ordered;
      var i :| 0 <= i < |ordered| && ordered[i] == c[0];
      FurtherBack(items, ordered, c, 0, i);
    }
  }

  lemma {:induction false} FurtherBack(items: seq<Item>, ordered: seq<Item>, c: seq<Item>, k: nat, i: nat)
    requires InOrder(ordered) && DistinctNames(items) && (forall p :: p in items <==> p in ordered)
    requires Cycle(items, c) && k < |c| && i < |ordered| && ordered[i] == c[k]
    ensures false
    decreases i
  {
    var j :| 0 <= j < i && ordered[j].name == After(c, k).name;
    var next := if k + 1 == |c| then 0 else k + 1;
    SameNameSameItem(items, ordered[j], c[next]);
    FurtherBack(items, ordered, c, next, j);
  }

  /** Nothing is ready: whoever is left requires somebody who is left, so some of them require each other. */
  lemma Stuck(items: seq<Item>, ordered: seq<Item>, placed: set<string>, rest: seq<Item>)
    requires Placing(items, ordered, placed, rest) && AllKnown(items) && rest != []
    requires Filter(rest, (p: Item) => Ready(p, placed)) == []
    ensures exists c :: Cycle(items, c)
  {
    FilterEmpty(rest, (p: Item) => Ready(p, placed));
    forall p {:trigger Waits(rest, p)} | p in rest ensures Waits(rest, p) { StuckItem(items, placed, rest, p); }
    var pool := set p | p in rest;
    var w := Follow(rest, |pool| + 1);
    if Distinct(w) { Pigeonhole(w, pool); }
    var i, j :| 0 <= i < j < |w| && w[i] == w[j];
    Closes(items, w, i, j);
  }

  /** An item that is not ready requires one that is not placed either. */
  lemma StuckItem(items: seq<Item>, placed: set<string>, rest: seq<Item>, p: Item)
    requires AllKnown(items) && rest == Unplaced(items, placed) && p in rest && !Ready(p, placed)
    ensures Waits(rest, p)
  {
    var n :| n in p.needs && n !in placed;
    assert p in items && n in Names(items);
    var q :| q in items && q.name == n;
    assert q in rest;
  }

  ghost predicate Waits(rest: seq<Item>, p: Item) { exists q :: q in rest && q.name in p.needs }

  /** A walk of `n + 1` items, each requiring the next. */
  lemma {:induction false} Follow(rest: seq<Item>, n: nat) returns (w: seq<Item>)
    requires rest != [] && forall p {:trigger Waits(rest, p)} :: p in rest ==> Waits(rest, p)
    ensures |w| == n + 1 && (forall p :: p in w ==> p in rest)
    ensures forall k :: 0 <= k < n ==> w[k + 1].name in w[k].needs
  {
    if n == 0 {
      w := [rest[0]];
    } else {
      var v := Follow(rest, n - 1);
      assert v[n - 1] in v && Waits(rest, v[n - 1]);
      var q :| q in rest && q.name in v[n - 1].needs;
      w := v + [q];
    }
  }

  lemma Closes(items: seq<Item>, w: seq<Item>, i: nat, j: nat)
    requires i < j < |w| && w[i] == w[j] && (forall p :: p in w ==> p in items)
    requires forall k :: 0 <= k < |w| - 1 ==> w[k + 1].name in w[k].needs
    ensures Cycle(items, w[i..j])
  {
    var c := w[i..j];
    forall k | 0 <= k < |c| ensures c[k] in items && After(c, k).name in c[k].needs {
      assert c[k] == w[i + k] && w[i + k] in w;
      assert After(c, k) == w[i + k + 1];
    }
  }
}
