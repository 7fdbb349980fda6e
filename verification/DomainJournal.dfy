/** shared/domain-move.ts: the journal of a domain move over a registration's tree, its application and its
    reversal. */
module DomainJournal {
  import opened Common
  import opened Text

  /** A JSON value; an array is a node whose keys are its indexes. */
  datatype Tree = Str(s: string) | Atom(other: string) | Node(children: map<string, Tree>)

  type Path = seq<string>

  datatype Anchor = Anchor(path: Path, value: string)

  datatype Change = Change(path: Path, before: string, after: string, anchors: seq<Anchor>)

  /** `at` */
  function At(t: Tree, p: Path): Option<Tree> {
    if p == [] then Some(t)
    else if t.Node? && p[0] in t.children then At(t.children[p[0]], p[1..])
    else None
  }

  /** The tree with the text `v` at `p`, if there is anything at `p`. */
  function SetAt(t: Tree, p: Path, v: string): Tree {
    if p == [] then Str(v)
    else if t.Node? && p[0] in t.children then Node(t.children[p[0] := SetAt(t.children[p[0]], p[1..], v)])
    else t
  }

  // ---------------------------------------------------------------- applying the journal

  datatype Applied = Applied(tree: Tree) | UnsafePath | AnchorMoved | ValueChanged

  predicate IsSafe(p: Path) { "__proto__" !in p && "constructor" !in p && "prototype" !in p }

  predicate AnchorsHold(t: Tree, anchors: seq<Anchor>) {
    forall a :: a in anchors ==> At(t, a.path) == Some(Str(a.value))
  }

  function ApplyOne(t: Tree, c: Change): Applied {
    if !IsSafe(c.path) then UnsafePath
    else if !AnchorsHold(t, c.anchors) then AnchorMoved
    else if At(t, c.path) == Some(Str(c.after)) then Applied.Applied(t)
    else if At(t, c.path) != Some(Str(c.before)) then ValueChanged
    else Applied.Applied(SetAt(t, c.path, c.after))
  }

  function Apply(t: Tree, cs: seq<Change>): Applied
    decreases |cs|
  {
    if cs == [] then Applied.Applied(t)
    else match ApplyOne(t, cs[0])
      case Applied(next) => Apply(next, cs[1..])
      case refused => refused
  }

  function Flip(c: Change): Change { c.(before := c.after, after := c.before) }

  function Flipped(cs: seq<Change>): (r: seq<Change>)
    ensures |r| == |cs| && forall i :: 0 <= i < |r| ==> r[i] == Flip(cs[i])
  {
    seq(|cs|, i requires 0 <= i < |cs| => Flip(cs[i]))
  }

  /** `applyDomainChanges`: a copy is written change by change, or the first change that does not stand
      refuses. */
  method ApplyDomainChanges(entry: Tree, changes: seq<Change>, reverse: bool) returns (r: Applied)
    ensures r == Apply(entry, if reverse then Flipped(changes) else changes)
  {
    ghost var cs := if reverse then Flipped(changes) else changes;
    var next := entry;
    for i := 0 to |changes|
      invariant Apply(next, cs[i..]) == Apply(entry, cs)
    {
      var change := changes[i];
      assert cs[i..][0] == cs[i] && cs[i..][1..] == cs[i + 1..];
      if !IsSafe(change.path) { return UnsafePath; }
      if !AnchorsHold(next, change.anchors) { return AnchorMoved; }
      var before := if reverse then change.after else change.before;
      var after := if reverse then change.before else change.after;
      var standing := At(next, change.path);
      if standing == Some(Str(after)) { continue; }
      if standing != Some(Str(before)) { return ValueChanged; }
      next := SetAt(next, change.path, after);
    }
    return Applied.Applied(next);
  }

  // ---------------------------------------------------------------- writing at a path

  predicate Apart(p: Path, q: Path) { !(p <= q) && !(q <= p) }

  lemma {:induction false} AtSet(t: Tree, p: Path, v: string)
    requires At(t, p).Some?
    ensures At(SetAt(t, p, v), p) == Some(Str(v))
  {
    if p != [] { AtSet(t.children[p[0]], p[1..], v); }
  }

  lemma Tails(p: Path, q: Path)
    requires p != [] && q != [] && p[0] == q[0]
    ensures q <= p <==> q[1..] <= p[1..]
  {
    assert p == [p[0]] + p[1..] && q == [q[0]] + q[1..];
  }

  /** A write at `p` is seen on no path that `p` does not go on from. */
  lemma {:induction false} AtElsewhere(t: Tree, p: Path, v: string, q: Path)
    requires At(t, p).Some? && At(t, p).value.Str? && !(q <= p)
    ensures At(SetAt(t, p, v), q) == At(t, q)
  {
    if p != [] && p[0] == q[0] {
      Tails(p, q);
      AtElsewhere(t.children[p[0]], p[1..], v, q[1..]);
    }
  }

  lemma {:induction false} SetTwice(t: Tree, p: Path, v: string, w: string)
    requires At(t, p).Some?
    ensures At(SetAt(t, p, v), p).Some? && SetAt(SetAt(t, p, v), p, w) == SetAt(t, p, w)
  {
    AtSet(t, p, v);
    if p != [] { SetTwice(t.children[p[0]], p[1..], v, w); }
  }

  lemma {:induction false} SetSame(t: Tree, p: Path)
    requires At(t, p).Some? && At(t, p).value.Str?
    ensures SetAt(t, p, At(t, p).value.s) == t
  {
    if p != [] { SetSame(t.children[p[0]], p[1..]); }
  }

  lemma {:induction false} SetsCommute(t: Tree, p: Path, v: string, q: Path, w: string)
    requires At(t, p).Some? && At(t, p).value.Str? && At(t, q).Some? && At(t, q).value.Str? && Apart(p, q)
    ensures At(SetAt(t, p, v), q) == At(t, q) && At(SetAt(t, q, w), p) == At(t, p)
    ensures SetAt(SetAt(t, p, v), q, w) == SetAt(SetAt(t, q, w), p, v)
  {
    AtElsewhere(t, p, v, q);
    AtElsewhere(t, q, w, p);
    if p[0] == q[0] {
      Tails(p, q);
      Tails(q, p);
      SetsCommute(t.children[p[0]], p[1..], v, q[1..], w);
    }
  }

  // ---------------------------------------------------------------- when a journal applies, and what it does

  /** The changes do not touch one another, nor one another's anchors. */
  ghost predicate Independent(cs: seq<Change>) {
    && (forall i, j :: 0 <= i < j < |cs| ==> Apart(cs[i].path, cs[j].path))
    && (forall c, d, a :: c in cs && d in cs && a in d.anchors ==> Apart(c.path, a.path))
  }

  /** A change stands in a tree: its anchors do, and its field holds the old or the new value. */
  predicate Stands(t: Tree, c: Change) {
    IsSafe(c.path) && AnchorsHold(t, c.anchors) && (At(t, c.path) == Some(Str(c.before)) || At(t, c.path) == Some(Str(c.after)))
  }

  lemma OthersStand(t: Tree, c: Change, d: Change)
    requires Stands(t, c) && Apart(c.path, d.path) && forall a :: a in d.anchors ==> Apart(c.path, a.path)
    ensures Stands(SetAt(t, c.path, c.after), d) <==> Stands(t, d)
    ensures At(SetAt(t, c.path, c.after), d.path) == At(t, d.path)
  {
    AtElsewhere(t, c.path, c.after, d.path);
    forall a | a in d.anchors ensures At(SetAt(t, c.path, c.after), a.path) == At(t, a.path) {
      AtElsewhere(t, c.path, c.after, a.path);
    }
  }

  /** Every changed field with its new value. */
  function Written(t: Tree, cs: seq<Change>): Tree
    decreases |cs|
  {
    if cs == [] then t else Written(SetAt(t, cs[0].path, cs[0].after), cs[1..])
  }

  lemma IndependentTail(cs: seq<Change>)
    requires Independent(cs) && cs != []
    ensures Independent(cs[1..])
    ensures forall d :: d in cs[1..] ==> Apart(cs[0].path, d.path) && forall a :: a in d.anchors ==> Apart(cs[0].path, a.path)
  {
    assert forall d :: d in cs[1..] ==> d in cs;
    assert cs[0] in cs;
  }

  /** A journal applies exactly where every change of it stands; then it writes every field. */
  lemma {:induction false} AppliesIff(t: Tree, cs: seq<Change>)
    requires Independent(cs)
    ensures Apply(t, cs).Applied? <==> forall c :: c in cs ==> Stands(t, c)
    ensures Apply(t, cs).Applied? ==> Apply(t, cs).tree == Written(t, cs)
    decreases |cs|
  {
    if cs != [] {
      var c, rest := cs[0], cs[1..];
      IndependentTail(cs);
      assert forall d :: d in cs <==> d == c || d in rest;
      if Stands(t, c) {
        var next := SetAt(t, c.path, c.after);
        OneApplies(t, c);
        forall d | d in rest ensures Stands(next, d) <==> Stands(t, d) { OthersStand(t, c, d); }
        AppliesIff(next, rest);
      }
    }
  }

  lemma OneApplies(t: Tree, c: Change)
    requires Stands(t, c)
    ensures ApplyOne(t, c) == Applied.Applied(SetAt(t, c.path, c.after))
  {
    if At(t, c.path) == Some(Str(c.after)) { SetSame(t, c.path); }
  }

  /** Only the changed fields change: they hold the new values, and nothing else differs. */
  lemma {:induction false} OnlyFieldsChange(t: Tree, cs: seq<Change>, q: Path)
    requires Independent(cs) && forall c :: c in cs ==> Stands(t, c)
    ensures forall c :: c in cs ==> At(Written(t, cs), c.path) == Some(Str(c.after))
    ensures (forall c :: c in cs ==> !(q <= c.path)) ==> At(Written(t, cs), q) == At(t, q)
    decreases |cs|
  {
    if cs != [] {
      var c, rest := cs[0], cs[1..];
      var next := SetAt(t, c.path, c.after);
      IndependentTail(cs);
      assert c in cs && forall d :: d in rest ==> d in cs;
      forall d | d in rest ensures Stands(next, d) { OthersStand(t, c, d); }
      OnlyFieldsChange(next, rest, q);
      OnlyFieldsChange(next, rest, c.path);
      AtSet(t, c.path, c.after);
      if !(q <= c.path) { AtElsewhere(t, c.path, c.after, q); }
    }
  }

  lemma WrittenStands(t: Tree, cs: seq<Change>, d: Change)
    requires Independent(cs) && (forall c :: c in cs ==> Stands(t, c)) && d in cs
    ensures AnchorsHold(Written(t, cs), d.anchors)
  {
    forall a | a in d.anchors ensures At(Written(t, cs), a.path) == At(t, a.path) { OnlyFieldsChange(t, cs, a.path); }
  }

  /** Applied again, the journal changes nothing. */
  lemma ApplyIsIdempotent(t: Tree, cs: seq<Change>)
    requires Independent(cs) && Apply(t, cs).Applied?
    ensures Apply(Apply(t, cs).tree, cs) == Apply(t, cs)
  {
    AppliesIff(t, cs);
    var t' := Written(t, cs);
    forall c | c in cs ensures Stands(t', c) && At(t', c.path) == Some(Str(c.after)) {
      WrittenStands(t, cs, c);
      OnlyFieldsChange(t, cs, c.path);
    }
    AppliesIff(t', cs);
    WritesNothing(t', cs);
  }

  lemma {:induction false} WritesNothing(t: Tree, cs: seq<Change>)
    requires forall c :: c in cs ==> At(t, c.path) == Some(Str(c.after))
    ensures Written(t, cs) == t
    decreases |cs|
  {
    if cs != [] {
      assert cs[0] in cs && forall c :: c in cs[1..] ==> c in cs;
      SetSame(t, cs[0].path);
      WritesNothing(t, cs[1..]);
    }
  }

  lemma FlippedIsIndependent(cs: seq<Change>)
    requires Independent(cs)
    ensures Independent(Flipped(cs))
  {
    var fs := Flipped(cs);
    forall c, d, a | c in fs && d in fs && a in d.anchors ensures Apart(c.path, a.path) {
      var i :| 0 <= i < |fs| && fs[i] == c;
      var j :| 0 <= j < |fs| && fs[j] == d;
      assert cs[i] in cs && cs[j] in cs && a in cs[j].anchors;
    }
  }

  /** A write apart from all changed fields can be made before or after them. */
  lemma {:induction false} WriteFirst(t: Tree, cs: seq<Change>, p: Path, v: string)
    requires forall c :: c in cs ==> Apart(p, c.path) && At(t, c.path).Some? && At(t, c.path).value.Str?
    requires At(t, p).Some? && At(t, p).value.Str?
    requires forall i, j :: 0 <= i < j < |cs| ==> Apart(cs[i].path, cs[j].path)
    ensures SetAt(Written(t, cs), p, v) == Written(SetAt(t, p, v), cs)
    decreases |cs|
  {
    if cs != [] {
      var c, rest := cs[0], cs[1..];
      assert c in cs && forall d :: d in rest ==> d in cs;
      var next := SetAt(t, c.path, c.after);
      forall d | d in rest ensures Apart(c.path, d.path) && At(next, d.path) == At(t, d.path) { AtElsewhere(t, c.path, c.after, d.path); }
      SetsCommute(t, p, v, c.path, c.after);
      WriteFirst(next, rest, p, v);
    }
  }

  /** Writing the old values over the new ones leaves the tree with the old values. */
  lemma {:induction false} WrittenBack(t: Tree, cs: seq<Change>)
    requires Independent(cs) && forall c :: c in cs ==> Stands(t, c)
    ensures Written(Written(t, cs), Flipped(cs)) == Written(t, Flipped(cs))
    decreases |cs|
  {
    if cs != [] {
      var c, rest := cs[0], cs[1..];
      var next, old_ := SetAt(t, c.path, c.after), SetAt(t, c.path, c.before);
      IndependentTail(cs);
      assert c in cs && forall d :: d in rest ==> d in cs;
      assert Flipped(cs)[1..] == Flipped(rest);
      forall d | d in rest ensures Stands(next, d) && Stands(old_, d) {
        OthersStand(t, c, d);
        OthersStand(t, Flip(c), d);
      }
      AtSet(t, c.path, c.after);
      WriteFirst(next, rest, c.path, c.before);
      SetTwice(t, c.path, c.after, c.before);
      WrittenBack(old_, rest);
    }
  }

  /** Applied and then reversed, the journal leaves the tree in which every field holds the old value. That is
      the tree it started from exactly when no field held the new value already. */
  lemma ReverseRestoresIff(t: Tree, cs: seq<Change>)
    requires Independent(cs) && Apply(t, cs).Applied? && forall c :: c in cs ==> c.before != c.after
    ensures Apply(Apply(t, cs).tree, Flipped(cs)) == Applied.Applied(Written(t, Flipped(cs)))
    ensures Apply(Apply(t, cs).tree, Flipped(cs)) == Applied.Applied(t) <==> forall c :: c in cs ==> At(t, c.path) == Some(Str(c.before))
  {
    AppliesIff(t, cs);
    var t', fs := Written(t, cs), Flipped(cs);
    FlippedIsIndependent(cs);
    forall f | f in fs ensures Stands(t', f) && Stands(t, f) {
      var i :| 0 <= i < |fs| && fs[i] == f;
      assert cs[i] in cs;
      WrittenStands(t, cs, cs[i]);
      OnlyFieldsChange(t, cs, f.path);
    }
    AppliesIff(t', fs);
    WrittenBack(t, cs);
    OldValues(t, cs);
  }

  lemma OldValues(t: Tree, cs: seq<Change>)
    requires Independent(Flipped(cs)) && forall f :: f in Flipped(cs) ==> Stands(t, f)
    ensures Written(t, Flipped(cs)) == t <==> forall c :: c in cs ==> At(t, c.path) == Some(Str(c.before))
  {
    var fs := Flipped(cs);
    OnlyFieldsChange(t, fs, []);
    if forall c :: c in cs ==> At(t, c.path) == Some(Str(c.before)) {
      forall f | f in fs ensures At(t, f.path) == Some(Str(f.after)) {
        var i :| 0 <= i < |fs| && fs[i] == f;
        assert cs[i] in cs;
      }
      WritesNothing(t, fs);
    }
    if Written(t, fs) == t {
      forall c | c in cs ensures At(t, c.path) == Some(Str(c.before)) {
        var i :| 0 <= i < |cs| && cs[i] == c;
        assert fs[i] in fs;
      }
    }
  }

  // ---------------------------------------------------------------- writing the journal

  const WORDS := ["domain", "fqdn", "host", "url", "issuer", "origin", "apex", "endpoint"]

  function LowerChar(c: char): char { if IsUpper(c) then 'a' + (c - 'A') else c }

  predicate StandsIn(w: string, s: string, i: nat) {
    i + |w| <= |s| && forall k :: 0 <= k < |w| ==> LowerChar(s[i + k]) == w[k]
  }

  /** /(?:domain|fqdn|host|url|issuer|origin|apex|endpoint)/i */
  predicate IsDomainField(s: string) { exists i, w | 0 <= i <= |s| && w in WORDS :: StandsIn(w, s, i) }

  function LastOf(p: Path): string { if p == [] then "" else p[|p| - 1] }

  /** The value of the nearest "name" around a field. */
  function EnvName(anchors: seq<Anchor>): string {
    if anchors == [] then ""
    else if LastOf(anchors[|anchors| - 1].path) == "name" then anchors[|anchors| - 1].value
    else EnvName(anchors[..|anchors| - 1])
  }

  predicate IsPublicPath(path: Path, anchors: seq<Anchor>) {
    || IsDomainField(LastOf(path)) || "ownDomainRedirects" in path
    || (LastOf(path) == "value" && IsDomainField(EnvName(anchors)))
  }

  /** The text with its capitals made small. */
  function Lowered(s: string): (r: string)
    ensures |r| == |s| && forall i :: 0 <= i < |s| ==> r[i] == LowerChar(s[i])
  {
    seq(|s|, i requires 0 <= i < |s| => LowerChar(s[i]))
  }

  /** One of the eight words stands in the text, in whatever case. */
  ghost predicate MentionsAddress(s: string) {
    exists a, word, b :: s == a + word + b && Lowered(word) in ["domain", "fqdn", "host", "url", "issuer", "origin", "apex", "endpoint"]
  }

  lemma DomainFieldIff(s: string)
    ensures IsDomainField(s) <==> MentionsAddress(s)
  {
    if IsDomainField(s) {
      var i, w :| 0 <= i <= |s| && w in WORDS && StandsIn(w, s, i);
      var word := s[i..i + |w|];
      assert Lowered(word) == w;
      assert s == s[..i] + word + s[i + |w|..];
    }
    if MentionsAddress(s) {
      var a, word, b :| s == a + word + b && Lowered(word) in ["domain", "fqdn", "host", "url", "issuer", "origin", "apex", "endpoint"];
      assert Lowered(word) in WORDS && StandsIn(Lowered(word), s, |a|);
    }
  }

  /** The nearest object around a field that has a name calls it `name`. */
  ghost predicate IsNamed(anchors: seq<Anchor>, name: string) {
    exists i :: 0 <= i < |anchors| && LastOf(anchors[i].path) == "name" && anchors[i].value == name
      && forall j :: i < j < |anchors| ==> LastOf(anchors[j].path) != "name"
  }

  lemma {:induction false} EnvNameAt(anchors: seq<Anchor>) returns (i: int)
    ensures -1 <= i < |anchors| && forall j :: i < j < |anchors| ==> LastOf(anchors[j].path) != "name"
    ensures if i >= 0 then LastOf(anchors[i].path) == "name" && EnvName(anchors) == anchors[i].value else EnvName(anchors) == ""
  {
    if anchors == [] {
      i := -1;
    } else if LastOf(anchors[|anchors| - 1].path) == "name" {
      i := |anchors| - 1;
    } else {
      i := EnvNameAt(anchors[..|anchors| - 1]);
    }
  }

  lemma EnvNameIs(anchors: seq<Anchor>)
    ensures forall name :: IsNamed(anchors, name) ==> EnvName(anchors) == name
    ensures IsNamed(anchors, EnvName(anchors)) || EnvName(anchors) == ""
  {
    hide LastOf, EnvName;
    var i := EnvNameAt(anchors);
    if i >= 0 { assert IsNamed(anchors, anchors[i].value); }
    forall name | IsNamed(anchors, name) ensures EnvName(anchors) == name {
      var k :| 0 <= k < |anchors| && LastOf(anchors[k].path) == "name" && anchors[k].value == name
        && forall j :: k < j < |anchors| ==> LastOf(anchors[j].path) != "name";
      assert k == i;
    }
  }

  /** A field is public if its key has one of the eight words in it, or it is below `ownDomainRedirects`, or it is
      the `value` beside a name with such a word. */
  lemma PublicPathIff(path: Path, anchors: seq<Anchor>)
    ensures IsPublicPath(path, anchors) <==>
      || (path != [] && MentionsAddress(path[|path| - 1]))
      || "ownDomainRedirects" in path
      || (path != [] && path[|path| - 1] == "value" && exists name :: IsNamed(anchors, name) && MentionsAddress(name))
  {
    hide MentionsAddress, IsDomainField, IsNamed;
    EnvNameIs(anchors);
    DomainFieldIff(LastOf(path));
    DomainFieldIff(EnvName(anchors));
    NothingMentioned();
  }

  lemma NothingMentioned()
    ensures !MentionsAddress("")
  {
    DomainFieldIff("");
  }

  datatype Journal = Journal(changes: seq<Change>, unsafe: seq<Path>)

  /** How a public address moves; none where it cannot be journaled safely. */
  type Mover = string -> Option<string>

  function WalkText(s: string, path: Path, anchors: seq<Anchor>, move: Mover): Journal {
    if !IsPublicPath(path, anchors) then Journal([], [])
    else if move(s).None? then Journal([], [path])
    else if move(s).value == s then Journal([], [])
    else Journal([Change(path, s, move(s).value, anchors)], [])
  }

  function Mark(children: map<string, Tree>, path: Path, key: string): seq<Anchor> {
    if key in children && children[key].Str? then [Anchor(path + [key], children[key].s)] else []
  }

  function Marks(children: map<string, Tree>, path: Path, anchors: seq<Anchor>): seq<Anchor> {
    anchors + Mark(children, path, "name") + Mark(children, path, "chart")
  }

  lemma {:induction false} LeastExists(keys: set<string>) returns (k: string)
    requires keys != {}
    ensures k in keys && forall x :: x in keys ==> x == k || Before(k, x)
  {
    var y :| y in keys;
    if keys == {y} {
      k := y;
    } else {
      var l := LeastExists(keys - {y});
      BeforeIsTotal(l, y);
      k := if Before(y, l) then y else l;
      forall x | x in keys ensures x == k || Before(k, x) {
        if x != y && x != l && Before(y, l) { BeforeChains(y, l, x); }
      }
    }
  }

  ghost predicate IsLeast(keys: set<string>, k: string) { k in keys && forall x :: x in keys ==> x == k || Before(k, x) }

  /** `Object.keys(object).sort()` */
  ghost function SortedKeys(keys: set<string>): (r: seq<string>)
    ensures (forall x :: x in r <==> x in keys) && Distinct(r)
  {
    if keys == {} then [] else
      assert exists k :: IsLeast(keys, k) by { var k := LeastExists(keys); assert IsLeast(keys, k); }
      var k :| IsLeast(keys, k);
      [k] + SortedKeys(keys - {k})
  }

  function Both(a: Journal, b: Journal): Journal { Journal(a.changes + b.changes, a.unsafe + b.unsafe) }

  ghost function Walk(v: Tree, path: Path, anchors: seq<Anchor>, move: Mover): Journal
    decreases v, 1, 0
  {
    match v
    case Str(s) => WalkText(s, path, anchors, move)
    case Atom(_) => Journal([], [])
    case Node(children) => WalkKeys(v, SortedKeys(children.Keys), path, Marks(children, path, anchors), move)
  }

  ghost function WalkKeys(v: Tree, keys: seq<string>, path: Path, anchors: seq<Anchor>, move: Mover): Journal
    requires v.Node? && forall k :: k in keys ==> k in v.children
    decreases v, 0, |keys|
  {
    if keys == [] then Journal([], []) else
      Both(Walk(v.children[keys[0]], path + [keys[0]], anchors, move), WalkKeys(v, keys[1..], path, anchors, move))
  }

  /** `domainChanges`: the fields below each of the given top-level keys. */
  ghost function DomainChanges(root: Tree, prefixes: seq<string>, move: Mover): Journal {
    if prefixes == [] then Journal([], []) else
      var first := if At(root, [prefixes[0]]).Some? then Walk(At(root, [prefixes[0]]).value, [prefixes[0]], [], move) else Journal([], []);
      Both(first, DomainChanges(root, prefixes[1..], move))
  }

  // ---------------------------------------------------------------- what the journal records

  /** A change records a public field of the tree as it stands, the value it moves to, and the names around it. */
  ghost predicate Records(root: Tree, c: Change, move: Mover) {
    && At(root, c.path) == Some(Str(c.before)) && move(c.before) == Some(c.after) && c.before != c.after
    && IsPublicPath(c.path, c.anchors) && AnchorsHold(root, c.anchors)
    && forall a :: a in c.anchors ==> LastOf(a.path) == "name" || LastOf(a.path) == "chart"
  }

  ghost predicate DistinctPaths(cs: seq<Change>) { forall i, j :: 0 <= i < j < |cs| ==> cs[i].path != cs[j].path }

  /** What a walk from `path` answers: records of fields below it, each once. */
  ghost predicate RecordsBelow(root: Tree, path: Path, cs: seq<Change>, move: Mover) {
    (forall c :: c in cs ==> Records(root, c, move) && path <= c.path) && DistinctPaths(cs)
  }

  ghost predicate MarksHold(root: Tree, anchors: seq<Anchor>) {
    AnchorsHold(root, anchors) && forall a :: a in anchors ==> LastOf(a.path) == "name" || LastOf(a.path) == "chart"
  }

  lemma {:induction false} AtStep(t: Tree, p: Path, k: string)
    requires At(t, p).Some? && At(t, p).value.Node? && k in At(t, p).value.children
    ensures At(t, p + [k]) == Some(At(t, p).value.children[k])
  {
    if p == [] {
      assert [k][1..] == [];
    } else {
      AtStep(t.children[p[0]], p[1..], k);
      assert (p + [k])[1..] == p[1..] + [k];
    }
  }

  lemma MarksAreHeld(root: Tree, path: Path, children: map<string, Tree>, anchors: seq<Anchor>)
    requires At(root, path) == Some(Node(children)) && MarksHold(root, anchors)
    ensures MarksHold(root, Marks(children, path, anchors))
  {
    forall a | a in Marks(children, path, anchors)
      ensures At(root, a.path) == Some(Str(a.value)) && (LastOf(a.path) == "name" || LastOf(a.path) == "chart")
    {
      if a !in anchors {
        var key := if a in Mark(children, path, "name") then "name" else "chart";
        assert a == Anchor(path + [key], children[key].s);
        AtStep(root, path, key);
      }
    }
  }

  lemma {:induction false} WalkRecords(root: Tree, v: Tree, path: Path, anchors: seq<Anchor>, move: Mover)
    requires At(root, path) == Some(v) && MarksHold(root, anchors)
    ensures RecordsBelow(root, path, Walk(v, path, anchors, move).changes, move)
    decreases v, 1, 0
  {
    match v
    case Str(s) =>
    case Atom(_) =>
    case Node(children) =>
      MarksAreHeld(root, path, children, anchors);
      WalkKeysRecord(root, v, SortedKeys(children.Keys), path, Marks(children, path, anchors), move);
  }

  /** Below distinct keys lie distinct fields. */
  lemma {:induction false} WalkKeysRecord(root: Tree, v: Tree, keys: seq<string>, path: Path, anchors: seq<Anchor>, move: Mover)
    requires v.Node? && (forall k :: k in keys ==> k in v.children) && Distinct(keys)
    requires At(root, path) == Some(v) && MarksHold(root, anchors)
    ensures RecordsBelow(root, path, WalkKeys(v, keys, path, anchors, move).changes, move)
    ensures forall c :: c in WalkKeys(v, keys, path, anchors, move).changes ==> |c.path| > |path| && c.path[|path|] in keys
    decreases v, 0, |keys|
  {
    if keys != [] {
      var k := keys[0];
      AtStep(root, path, k);
      WalkRecords(root, v.children[k], path + [k], anchors, move);
      WalkKeysRecord(root, v, keys[1..], path, anchors, move);
      var first := Walk(v.children[k], path + [k], anchors, move).changes;
      var rest := WalkKeys(v, keys[1..], path, anchors, move).changes;
      forall c | c in first ensures path <= c.path && |c.path| > |path| && c.path[|path|] == k { BelowKey(path, k, c.path); }
      forall c, d | c in first && d in rest ensures c.path != d.path { assert keys[0] !in keys[1..]; }
      PathsJoin(first, rest);
    }
  }

  lemma BelowKey(path: Path, k: string, p: Path)
    requires path + [k] <= p
    ensures path <= p && |p| > |path| && p[|path|] == k
  {
    assert p[..|path| + 1] == path + [k];
    assert p[|path|] == (path + [k])[|path|];
  }

  lemma PathsJoin(a: seq<Change>, b: seq<Change>)
    requires DistinctPaths(a) && DistinctPaths(b) && forall c, d :: c in a && d in b ==> c.path != d.path
    ensures DistinctPaths(a + b)
  {
    var all := a + b;
    forall i, j | 0 <= i < j < |all| ensures all[i].path != all[j].path {
      if i < |a| <= j { assert all[i] in a && all[j] in b; }
    }
  }

  lemma {:induction false} DomainChangesRecord(root: Tree, prefixes: seq<string>, move: Mover)
    requires Distinct(prefixes)
    ensures RecordsBelow(root, [], DomainChanges(root, prefixes, move).changes, move)
    ensures forall c :: c in DomainChanges(root, prefixes, move).changes ==> c.path != [] && c.path[0] in prefixes
  {
    if prefixes != [] {
      var k := prefixes[0];
      DomainChangesRecord(root, prefixes[1..], move);
      var rest := DomainChanges(root, prefixes[1..], move).changes;
      if At(root, [k]).Some? {
        WalkRecords(root, At(root, [k]).value, [k], [], move);
        var first := Walk(At(root, [k]).value, [k], [], move).changes;
        forall c | c in first ensures c.path != [] && c.path[0] == k { BelowKey([], k, c.path); }
        forall c, d | c in first && d in rest ensures c.path != d.path { assert prefixes[0] !in prefixes[1..]; }
        PathsJoin(first, rest);
      } else {
        assert [] + rest == rest;
      }
    }
  }

  // ---------------------------------------------------------------- everything public is recorded

  /** The names met on the way down from `v` along `r`. */
  function MarksAlong(v: Tree, path: Path, anchors: seq<Anchor>, r: Path): seq<Anchor>
    decreases |r|
  {
    if r == [] || !v.Node? || r[0] !in v.children then anchors
    else MarksAlong(v.children[r[0]], path + [r[0]], Marks(v.children, path, anchors), r[1..])
  }

  lemma {:induction false} WalkFinds(v: Tree, path: Path, anchors: seq<Anchor>, move: Mover, r: Path, s: string)
    requires At(v, r) == Some(Str(s)) && IsPublicPath(path + r, MarksAlong(v, path, anchors, r)) && move(s).Some? && move(s).value != s
    ensures Change(path + r, s, move(s).value, MarksAlong(v, path, anchors, r)) in Walk(v, path, anchors, move).changes
    decreases v, 1, 0
  {
    if r == [] {
      assert path + [] == path;
    } else {
      WalkKeysFind(v, SortedKeys(v.children.Keys), path, Marks(v.children, path, anchors), move, r, s);
    }
  }

  lemma {:induction false} WalkKeysFind(v: Tree, keys: seq<string>, path: Path, anchors: seq<Anchor>, move: Mover, r: Path, s: string)
    requires v.Node? && (forall k :: k in keys ==> k in v.children) && r != [] && r[0] in keys && At(v, r) == Some(Str(s))
    requires IsPublicPath(path + r, MarksAlong(v.children[r[0]], path + [r[0]], anchors, r[1..])) && move(s).Some? && move(s).value != s
    ensures Change(path + r, s, move(s).value, MarksAlong(v.children[r[0]], path + [r[0]], anchors, r[1..]))
      in WalkKeys(v, keys, path, anchors, move).changes
    decreases v, 0, |keys|
  {
    assert r == [r[0]] + r[1..];
    Assoc(path, [r[0]], r[1..]);
    if r[0] == keys[0] {
      WalkFinds(v.children[r[0]], path + [r[0]], anchors, move, r[1..], s);
    } else {
      WalkKeysFind(v, keys[1..], path, anchors, move, r, s);
    }
  }

  /** Every public field below the given keys whose value moves is recorded, with the names around it. */
  lemma {:induction false} DomainChangesFind(root: Tree, prefixes: seq<string>, move: Mover, q: Path, s: string)
    requires q != [] && q[0] in prefixes && At(root, q) == Some(Str(s)) && move(s).Some? && move(s).value != s
    requires IsPublicPath(q, MarksAlong(root.children[q[0]], [q[0]], [], q[1..]))
    ensures Change(q, s, move(s).value, MarksAlong(root.children[q[0]], [q[0]], [], q[1..])) in DomainChanges(root, prefixes, move).changes
  {
    if q[0] == prefixes[0] {
      var v := root.children[q[0]];
      assert [q[0]][1..] == [] && At(root, [q[0]]) == Some(v) && q == [q[0]] + q[1..];
      WalkFinds(v, [q[0]], [], move, q[1..], s);
    } else {
      DomainChangesFind(root, prefixes[1..], move, q, s);
    }
  }

  // ---------------------------------------------------------------- when a recorded journal makes its round trip

  /** None of the changed fields is one of the names a change is anchored to. */
  predicate AnchorsStay(cs: seq<Change>) { forall c, d, a :: c in cs && d in cs && a in d.anchors ==> a.path != c.path }

  /** Two texts of one tree stand apart. */
  lemma {:induction false} TextsStandApart(t: Tree, p: Path, q: Path)
    requires At(t, p).Some? && At(t, p).value.Str? && At(t, q).Some? && At(t, q).value.Str? && p != q
    ensures Apart(p, q)
  {
    if p != [] && q != [] && p[0] == q[0] {
      assert p == [p[0]] + p[1..] && q == [q[0]] + q[1..];
      Tails(p, q);
      Tails(q, p);
      TextsStandApart(t.children[p[0]], p[1..], q[1..]);
    }
  }

  lemma RecordedApart(root: Tree, cs: seq<Change>, move: Mover)
    requires RecordsBelow(root, [], cs, move)
    ensures PathsApart(cs)
  {
    forall i, j | 0 <= i < j < |cs| ensures Apart(cs[i].path, cs[j].path) {
      assert cs[i] in cs && cs[j] in cs;
      TextsStandApart(root, cs[i].path, cs[j].path);
    }
  }

  /** A recorded journal whose anchors stay touches nothing twice. */
  lemma StayingIsIndependent(root: Tree, cs: seq<Change>, move: Mover)
    requires RecordsBelow(root, [], cs, move) && AnchorsStay(cs)
    ensures Independent(cs)
  {
    RecordedApart(root, cs, move);
    forall c, d, a | c in cs && d in cs && a in d.anchors ensures Apart(c.path, a.path) { TextsStandApart(root, c.path, a.path); }
  }

  /** The round trip: a computed journal whose anchors stay, applied to any tree that agrees with the tree it
      was computed for on the changed fields and their anchors, goes through, applies again to nothing, and
      its reversal restores that tree. */
  lemma JournalRoundTrip(root: Tree, prefixes: seq<string>, move: Mover, t: Tree)
    requires Distinct(prefixes) && AnchorsStay(DomainChanges(root, prefixes, move).changes)
    requires var cs := DomainChanges(root, prefixes, move).changes;
      forall c :: c in cs ==> IsSafe(c.path) && At(t, c.path) == At(root, c.path) && forall a :: a in c.anchors ==> At(t, a.path) == At(root, a.path)
    ensures var cs := DomainChanges(root, prefixes, move).changes;
      && Apply(t, cs).Applied?
      && Apply(Apply(t, cs).tree, cs) == Apply(t, cs)
      && Apply(Apply(t, cs).tree, Flipped(cs)) == Applied.Applied(t)
  {
    var cs := DomainChanges(root, prefixes, move).changes;
    DomainChangesRecord(root, prefixes, move);
    StayingIsIndependent(root, cs, move);
    forall c | c in cs ensures Stands(t, c) && c.before != c.after && At(t, c.path) == Some(Str(c.before)) { }
    AppliesIff(t, cs);
    ApplyIsIdempotent(t, cs);
    ReverseRestoresIff(t, cs);
  }

  // ---------------------------------------------------------------- and exactly when

  ghost predicate PathsApart(cs: seq<Change>) { forall i, j :: 0 <= i < j < |cs| ==> Apart(cs[i].path, cs[j].path) }

  lemma {:induction false} ApplyElsewhere(t: Tree, cs: seq<Change>, q: Path)
    requires Apply(t, cs).Applied? && forall c :: c in cs ==> !(q <= c.path)
    ensures At(Apply(t, cs).tree, q) == At(t, q)
    decreases |cs|
  {
    if cs != [] {
      assert cs[0] in cs && forall c :: c in cs[1..] ==> c in cs;
      ApplyElsewhere(ApplyOne(t, cs[0]).tree, cs[1..], q);
      if ApplyOne(t, cs[0]).tree != t { AtElsewhere(t, cs[0].path, cs[0].after, q); }
    }
  }

  lemma PathsApartTail(cs: seq<Change>)
    requires PathsApart(cs) && cs != []
    ensures PathsApart(cs[1..]) && forall c :: c in cs[1..] ==> Apart(cs[0].path, c.path)
  {
    forall c | c in cs[1..] ensures Apart(cs[0].path, c.path) {
      var j :| 1 <= j < |cs| && cs[j] == c;
      assert Apart(cs[0].path, cs[j].path);
    }
  }

  /** A journal that went through has written its fields, anchored or not. */
  lemma {:induction false} AppliedFields(t: Tree, cs: seq<Change>)
    requires Apply(t, cs).Applied? && PathsApart(cs)
    ensures forall c :: c in cs ==> At(Apply(t, cs).tree, c.path) == Some(Str(c.after))
    decreases |cs|
  {
    if cs != [] {
      var next := ApplyOne(t, cs[0]).tree;
      PathsApartTail(cs);
      AppliedFields(next, cs[1..]);
      ApplyElsewhere(next, cs[1..], cs[0].path);
      AtSet(t, cs[0].path, cs[0].after);
      assert forall c :: c in cs <==> c == cs[0] || c in cs[1..];
    }
  }

  /** The change at place `j` of a journal that went through found its anchors in the tree the changes before
      it left. */
  lemma {:induction false} AnchorsHeldAt(t: Tree, cs: seq<Change>, j: nat)
    requires Apply(t, cs).Applied? && j < |cs|
    ensures Apply(t, cs[..j]).Applied? && AnchorsHold(Apply(t, cs[..j]).tree, cs[j].anchors)
    decreases j
  {
    if j > 0 {
      AnchorsHeldAt(ApplyOne(t, cs[0]).tree, cs[1..], j - 1);
      assert cs[..j][1..] == cs[1..][..j - 1];
    }
  }

  /** The field of one change, before the change at place `j` is made: the new value once it was written, else
      what stood there. */
  lemma FieldAt(t: Tree, cs: seq<Change>, i: nat, j: nat)
    requires i < |cs| && j <= |cs| && PathsApart(cs) && Apply(t, cs[..j]).Applied?
    ensures At(Apply(t, cs[..j]).tree, cs[i].path) == if i < j then Some(Str(cs[i].after)) else At(t, cs[i].path)
  {
    if i < j {
      AppliedFields(t, cs[..j]);
      assert cs[..j][i] in cs[..j];
    } else {
      forall c | c in cs[..j] ensures !(cs[i].path <= c.path) {
        var k :| 0 <= k < j && cs[k] == c;
        assert Apart(cs[k].path, cs[i].path);
      }
      ApplyElsewhere(t, cs[..j], cs[i].path);
    }
  }

  lemma FlippedApart(cs: seq<Change>)
    requires PathsApart(cs)
    ensures PathsApart(Flipped(cs))
  {
  }

  /** A changed field that is an anchor is written before its anchor is looked at, on the way there or, if not
      then, on every way after it. */
  lemma AnchorIsLost(root: Tree, cs: seq<Change>, i: nat, j: nat, a: Anchor)
    requires i < |cs| && j < |cs| && PathsApart(cs) && a in cs[j].anchors && a.path == cs[i].path
    requires At(root, a.path) == Some(Str(a.value)) && At(root, a.path) == Some(Str(cs[i].before)) && cs[i].before != cs[i].after
    requires Apply(root, cs).Applied?
    ensures !Apply(Apply(root, cs).tree, cs).Applied? && !Apply(Apply(root, cs).tree, Flipped(cs)).Applied?
  {
    var t, fs := Apply(root, cs).tree, Flipped(cs);
    AnchorsHeldAt(root, cs, j);
    FieldAt(root, cs, i, j);
    assert i >= j;
    AppliedFields(root, cs);
    assert cs[i] in cs && At(t, cs[i].path) == Some(Str(cs[i].after));
    if Apply(t, cs).Applied? { NoAnchor(t, cs, i, j, a); }
    FlippedApart(cs);
    if Apply(t, fs).Applied? { NoAnchor(t, fs, i, j, a); }
  }

  lemma NoAnchor(t: Tree, cs: seq<Change>, i: nat, j: nat, a: Anchor)
    requires j <= i < |cs| && PathsApart(cs) && a in cs[j].anchors && a.path == cs[i].path && Apply(t, cs).Applied?
    ensures At(t, a.path) == Some(Str(a.value))
  {
    AnchorsHeldAt(t, cs, j);
    FieldAt(t, cs, i, j);
  }

  /** What `JournalRoundTrip` asks for cannot be had with less: a computed journal goes through on its own tree
      and is reversed to it exactly when none of its fields is a name that one of its changes is anchored to,
      and it goes through a second time in exactly that case. */
  lemma RoundTripIff(root: Tree, prefixes: seq<string>, move: Mover)
    requires Distinct(prefixes) && forall c :: c in DomainChanges(root, prefixes, move).changes ==> IsSafe(c.path)
    ensures var cs := DomainChanges(root, prefixes, move).changes;
      && (Apply(root, cs).Applied? && Apply(Apply(root, cs).tree, Flipped(cs)) == Applied.Applied(root) <==> AnchorsStay(cs))
      && (Apply(root, cs).Applied? && Apply(Apply(root, cs).tree, cs).Applied? <==> AnchorsStay(cs))
  {
    var cs := DomainChanges(root, prefixes, move).changes;
    DomainChangesRecord(root, prefixes, move);
    RecordedApart(root, cs, move);
    if AnchorsStay(cs) {
      JournalRoundTrip(root, prefixes, move, root);
    } else if Apply(root, cs).Applied? {
      SomeAnchorIsLost(root, cs, move);
    }
  }

  lemma SomeAnchorIsLost(root: Tree, cs: seq<Change>, move: Mover)
    requires RecordsBelow(root, [], cs, move) && PathsApart(cs) && !AnchorsStay(cs) && Apply(root, cs).Applied?
    ensures !Apply(Apply(root, cs).tree, cs).Applied? && !Apply(Apply(root, cs).tree, Flipped(cs)).Applied?
  {
    var c, d, a :| c in cs && d in cs && a in d.anchors && a.path == c.path;
    var i :| 0 <= i < |cs| && cs[i] == c;
    var j :| 0 <= j < |cs| && cs[j] == d;
    AnchorIsLost(root, cs, i, j, a);
  }

  // ---------------------------------------------------------------- whose anchors stay

  lemma NamesAreNotPublic(s: string)
    requires s == "name" || s == "chart"
    ensures !IsDomainField(s)
  {
    forall i, w | 0 <= i <= |s| && w in WORDS ensures !StandsIn(w, s, i) {
      assert s == "name" ==> s[0] == 'n' && s[1] == 'a';
      assert s == "chart" ==> s[0] == 'c' && s[1] == 'h' && s[2] == 'a';
      if i + |w| <= |s| {
        assert |w| >= 3;
        assert w in ["fqdn", "host", "url", "apex"];
        if s == "chart" && w == "host" && i == 1 { assert s[i + 1] == 'a' && w[1] == 'o'; } else { assert LowerChar(s[i + 0]) != w[0]; }
      }
    }
  }

  /** No object stands below `ownDomainRedirects`: its texts are not names. */
  ghost predicate RedirectsAreTexts(root: Tree) {
    forall p :: "ownDomainRedirects" in p && At(root, p).Some? && At(root, p).value.Str? ==> LastOf(p) != "name" && LastOf(p) != "chart"
  }

  /** Then the anchors of every journal computed for the tree stay. */
  lemma RedirectsKeepAnchors(root: Tree, prefixes: seq<string>, move: Mover)
    requires Distinct(prefixes) && RedirectsAreTexts(root)
    ensures AnchorsStay(DomainChanges(root, prefixes, move).changes)
  {
    var cs := DomainChanges(root, prefixes, move).changes;
    DomainChangesRecord(root, prefixes, move);
    forall c, d, a | c in cs && d in cs && a in d.anchors ensures a.path != c.path { NamesAreNotPublic(LastOf(a.path)); }
  }

  /** A name among the marks of its own object. */
  lemma {:induction false} OwnMark(v: Tree, path: Path, anchors: seq<Anchor>, r: Path, s: string)
    requires r != [] && At(v, r) == Some(Str(s)) && (r[|r| - 1] == "name" || r[|r| - 1] == "chart")
    ensures Anchor(path + r, s) in MarksAlong(v, path, anchors, r)
    decreases |r|
  {
    var marks := Marks(v.children, path, anchors);
    if |r| == 1 {
      assert r == [r[0]] && r[1..] == [];
      assert Anchor(path + [r[0]], s) in marks;
    } else {
      OwnMark(v.children[r[0]], path + [r[0]], marks, r[1..], s);
      assert r == [r[0]] + r[1..];
      Assoc(path, [r[0]], r[1..]);
    }
  }

  /** And an object below `ownDomainRedirects` whose name moves breaks it: the name is recorded, and is one of
      its own anchors. */
  lemma NamedRedirectMoves(root: Tree, prefixes: seq<string>, move: Mover, q: Path, s: string)
    requires |q| >= 2 && q[0] == "ownDomainRedirects" && q[0] in prefixes && (LastOf(q) == "name" || LastOf(q) == "chart")
    requires At(root, q) == Some(Str(s)) && move(s).Some? && move(s).value != s
    ensures !AnchorsStay(DomainChanges(root, prefixes, move).changes)
  {
    var v := root.children[q[0]];
    assert q == [q[0]] + q[1..];
    assert "ownDomainRedirects" in q;
    OwnMark(v, [q[0]], [], q[1..], s);
    DomainChangesFind(root, prefixes, move, q, s);
    var c := Change(q, s, move(s).value, MarksAlong(v, [q[0]], [], q[1..]));
    assert c in DomainChanges(root, prefixes, move).changes && Anchor(q, s) in c.anchors;
  }

  // ---------------------------------------------------------------- one host name

  predicate EndsWith(s: string, tail: string) { |tail| <= |s| && s[|s| - |tail|..] == tail }

  predicate IsLabel(s: string) {
    && 1 <= |s| <= 63 && (IsLower(s[0]) || IsDigit(s[0])) && (IsLower(s[|s| - 1]) || IsDigit(s[|s| - 1]))
    && forall i :: 0 <= i < |s| ==> IsLower(s[i]) || IsDigit(s[i]) || s[i] == '-'
  }

  /** `publicFqdn` */
  predicate IsFqdn(s: string) { |Split(s, '.')| >= 2 && forall l :: l in Split(s, '.') ==> IsLabel(l) }

  function Wildcard(host: string): string { if "*." <= host then "*." else "" }

  function Bare(host: string): string { if "*." <= host then host[2..] else host }

  predicate IsUnder(bare: string, domain: string) { bare == domain || EndsWith(bare, "." + domain) }

  function Moved(bare: string, from: string, to: string): string {
    if bare == from then to else if EndsWith(bare, "." + from) then bare[..|bare| - |from|] + to else bare
  }

  /** `moveDomain`; none where the source throws. */
  function MoveDomain(host: string, from: string, to: string): Option<string> {
    if |host| > 253 || !IsFqdn(Bare(host)) then None
    else
      var next := Moved(Bare(host), from, to);
      if !IsFqdn(next) || |Wildcard(host) + next| > 253 then None else Some(Wildcard(host) + next)
  }

  /** Where a bare host goes: the domain itself to the new one, a host below it to the same place below the new
      one, and any other stays. */
  ghost predicate GoesTo(bare: string, from: string, to: string, next: string) {
    || (bare == from && next == to)
    || (exists front :: bare == front + "." + from && next == front + "." + to)
    || (bare == next && bare != from && forall front :: bare != front + "." + from)
  }

  lemma BelowIff(bare: string, from: string)
    ensures EndsWith(bare, "." + from) <==> exists front :: bare == front + "." + from
  {
    if EndsWith(bare, "." + from) {
      var front := bare[..|bare| - |from| - 1];
      assert bare == front + ("." + from) == front + "." + from;
    }
    if front :| bare == front + "." + from {
      assert bare == front + ("." + from);
      assert bare[|front|..] == "." + from;
    }
  }

  lemma MovedIff(bare: string, from: string, to: string, next: string)
    ensures Moved(bare, from, to) == next <==> GoesTo(bare, from, to, next)
  {
    hide EndsWith;
    BelowIff(bare, from);
    forall front | bare == front + "." + from ensures bare != from && bare[..|bare| - |from|] == front + "." {}
    if EndsWith(bare, "." + from) {
      var front :| bare == front + "." + from;
      assert Moved(bare, from, to) == front + "." + to;
    }
  }

  /** A host moves with the domain it is or is below, its wildcard mark kept; refused where a name on the way is
      no public name or too long. */
  lemma MoveDomainIs(mark: string, bare: string, from: string, to: string, next: string)
    requires mark == "*." || (mark == "" && !("*." <= bare))
    requires GoesTo(bare, from, to, next)
    ensures MoveDomain(mark + bare, from, to) ==
      if |mark + bare| <= 253 && IsFqdn(bare) && IsFqdn(next) && |mark + next| <= 253 then Some(mark + next) else None
  {
    hide GoesTo, Moved, IsFqdn;
    MovedIff(bare, from, to, next);
    var host := mark + bare;
    if mark == "" { assert host == bare; }
    assert Bare(host) == bare && Wildcard(host) == mark;
  }

  lemma WildcardIsNoFqdn(s: string)
    requires "*." <= s
    ensures !IsFqdn(s)
  {
    assert s[0] == '*' && s[1] == '.';
    assert s == "*" + ['.'] + s[2..];
    SplitFront("*", '.', s[2..]);
    var first := Split(s, '.')[0];
    assert first in Split(s, '.') && first[0] == '*';
  }

  lemma MovedBack(bare: string, from: string, to: string)
    requires from != to
    ensures Moved(Moved(bare, from, to), to, from) == bare <==> IsUnder(bare, from) || !IsUnder(bare, to)
  {
    var next := Moved(bare, from, to);
    if bare != from && EndsWith(bare, "." + from) {
      var stem := bare[..|bare| - |from|];
      assert bare[|bare| - |from| - 1..][0] == '.' && stem[|stem| - 1] == '.';
      assert next[|next| - |to| - 1..] == "." + to;
      assert bare[|bare| - |from| - 1..][1..] == from;
      assert bare == stem + from && next[..|next| - |to|] == stem;
    } else if bare != from && bare != to && EndsWith(bare, "." + to) {
      var stem := bare[..|bare| - |to|];
      assert bare[|bare| - |to| - 1..][1..] == to;
      assert bare == stem + to;
      assert (stem + from)[|stem|..] == from && bare[|stem|..] == to;
    }
  }

  /** Moving a host there and back gives it back exactly when it was under the old domain, or stands under
      neither; a host that was under the new domain already does not come back. */
  lemma MovesBackIff(host: string, from: string, to: string)
    requires from != to && MoveDomain(host, from, to).Some?
    ensures MoveDomain(MoveDomain(host, from, to).value, to, from) == Some(host)
      <==> IsUnder(Bare(host), from) || !IsUnder(Bare(host), to)
  {
    var moved := MoveDomain(host, from, to).value;
    var next := Moved(Bare(host), from, to);
    assert host == Wildcard(host) + Bare(host);
    if "*." <= host {
      assert "*." <= moved && moved[2..] == next;
    } else {
      if "*." <= next { WildcardIsNoFqdn(next); }
      assert moved == next;
    }
    MovedBack(Bare(host), from, to);
  }
}
