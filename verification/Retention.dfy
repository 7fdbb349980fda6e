/** shared/registry-retention.ts: which image tags of a repository are kept, and which may go. */
module Retention {
  import opened Common
  import opened Text
  import opened Calendar
  import opened Release

  datatype Klass = StableRelease | NonStable

  /** `pushedAt` is the push time as Date.parse reads it, none where there is none or it is no date. */
  datatype RepoTag = RepoTag(tag: string, ts14: Option<string>, pushedAt: Option<int>)

  predicate IsHex(c: char) { IsDigit(c) || 'a' <= c <= 'f' }

  /** -[0-9a-f]{7}$ */
  predicate HasSha(tag: string) {
    |tag| >= 8 && tag[|tag| - 8] == '-' && forall i :: |tag| - 7 <= i < |tag| ==> IsHex(tag[i])
  }

  function Base(tag: string): string { if HasSha(tag) then tag[..|tag| - 8] else tag }

  datatype ClassifiedTag = ClassifiedTag(klass: Klass, ts14: Option<string>)

  function ClassifyImageTag(tag: string): ClassifiedTag {
    var parsed := ParseReleaseTag(Base(tag));
    if parsed.None? then ClassifiedTag(NonStable, None)
    else if parsed.value.channel.Stable? then ClassifiedTag(StableRelease, Some(parsed.value.ts14))
    else ClassifiedTag(NonStable, Some(parsed.value.ts14))
  }

  /** A tag's own stamp wins over the caller's. */
  function Enriched(t: RepoTag): RepoTag {
    var c := ClassifyImageTag(t.tag);
    t.(ts14 := if c.ts14.Some? then c.ts14 else t.ts14)
  }

  /** `effectiveEpochMs`: the stamp, else the push time, else none. */
  function Time(t: RepoTag): Option<int> {
    if t.ts14.Some? && IsTs14(t.ts14.value) then Some(Epoch(t.ts14.value)) else t.pushedAt
  }

  /** `byNewestFirst` */
  function Compare(a: RepoTag, b: RepoTag): int {
    var ea, eb := Time(a), Time(b);
    if ea.Some? && eb.Some? && ea.value != eb.value then eb.value - ea.value
    else if ea.Some? && eb.None? then -1
    else if ea.None? && eb.Some? then 1
    else if Before(a.tag, b.tag) then 1
    else if Before(b.tag, a.tag) then -1
    else 0
  }

  /** `a` sorts before `b`. */
  predicate Newer(a: RepoTag, b: RepoTag) { Compare(a, b) < 0 }

  // ---------------------------------------------------------------- what a tag is

  ghost predicate IsCommit(sha: string) { |sha| == 7 && forall c :: c in sha ==> c in "0123456789abcdef" }

  /** What is left of an image tag once the commit behind its last dash is off. */
  ghost predicate IsBare(tag: string, base: string) {
    || (exists sha :: IsCommit(sha) && tag == base + "-" + sha)
    || (tag == base && forall b, sha :: IsCommit(sha) ==> tag != b + "-" + sha)
  }

  lemma HexIs(c: char)
    ensures IsHex(c) <==> c in "0123456789abcdef"
  {
    DigitIs(c);
    if 'a' <= c <= 'f' { assert "0123456789abcdef"[10 + (c as int - 'a' as int)] == c; }
    if IsDigit(c) { assert "0123456789abcdef"[Digit(c)] == "0123456789"[Digit(c)]; }
  }

  lemma CommitIff(sha: string)
    ensures IsCommit(sha) <==> |sha| == 7 && forall i :: 0 <= i < |sha| ==> IsHex(sha[i])
  {
    forall i | 0 <= i < |sha| ensures IsHex(sha[i]) <==> sha[i] in "0123456789abcdef" { HexIs(sha[i]); }
    if IsCommit(sha) { assert forall i :: 0 <= i < |sha| ==> sha[i] in sha; }
  }

  lemma HasShaIff(tag: string)
    ensures HasSha(tag) <==> exists b, sha :: IsCommit(sha) && tag == b + "-" + sha
  {
    if HasSha(tag) {
      var b, sha := tag[..|tag| - 8], tag[|tag| - 7..];
      forall i | 0 <= i < |sha| ensures IsHex(sha[i]) { assert sha[i] == tag[|tag| - 7 + i]; }
      CommitIff(sha);
      assert tag == b + "-" + sha;
    }
    if b, sha :| IsCommit(sha) && tag == b + "-" + sha { ShaComesOff(b, sha); }
  }

  lemma ShaComesOff(b: string, sha: string)
    requires IsCommit(sha)
    ensures HasSha(b + "-" + sha) && Base(b + "-" + sha) == b
  {
    var tag := b + "-" + sha;
    CommitIff(sha);
    forall i | |tag| - 7 <= i < |tag| ensures IsHex(tag[i]) { assert tag[i] == sha[i - |b| - 1]; }
  }

  lemma BaseIff(tag: string, base: string)
    ensures Base(tag) == base <==> IsBare(tag, base)
  {
    HasShaIff(tag);
    if HasSha(tag) {
      var b, sha :| IsCommit(sha) && tag == b + "-" + sha;
      ShaComesOff(b, sha);
      if IsBare(tag, base) {
        var s :| IsCommit(s) && tag == base + "-" + s;
        ShaComesOff(base, s);
      }
    }
  }

  /** A tag belongs to the stable pot exactly when it is the text of a stable release, with a commit behind it
      or without; every other release and every other text shares the second pot. A release has its own stamp,
      any other text none. */
  lemma PotIff(tag: string, base: string)
    requires IsBare(tag, base)
    ensures ClassifyImageTag(tag).klass.StableRelease? <==> exists v, ts :: IsReleaseText(base, v, "stable", ts)
    ensures forall v, channel, ts :: IsReleaseText(base, v, channel, ts) ==> ClassifyImageTag(tag).ts14 == Some(ts)
    ensures ClassifyImageTag(tag).ts14.None? <==> forall v, channel, ts :: !IsReleaseText(base, v, channel, ts)
  {
    BaseIff(tag, base);
    var parsed := ParseReleaseTag(base);
    if parsed.Some? { ParseIff(base, parsed.value.version, parsed.value.channel, parsed.value.ts14); }
    forall v, channel, ts | IsReleaseText(base, v, channel, ts)
      ensures parsed == Some(ParsedRelease(v, if channel == "alpha" then Alpha else if channel == "beta" then Beta else Stable, ts))
    {
      ParseIff(base, v, if channel == "alpha" then Alpha else if channel == "beta" then Beta else Stable, ts);
    }
  }

  /** A release is timed by its own stamp, whatever the caller says; any other tag by the stamp the caller gives
      it, where that has fourteen digits, else by its push time, else by nothing. */
  lemma TimeIs(t: RepoTag, base: string)
    requires IsBare(t.tag, base)
    ensures forall v, channel, ts :: IsReleaseText(base, v, channel, ts) ==> IsTs14(ts) && Time(Enriched(t)) == Some(Epoch(ts))
    ensures (forall v, channel, ts :: !IsReleaseText(base, v, channel, ts)) ==>
      Time(Enriched(t)) == if t.ts14.Some? && IsTs14(t.ts14.value) then Some(Epoch(t.ts14.value)) else t.pushedAt
    ensures Enriched(t).tag == t.tag
  {
    PotIff(t.tag, base);
    forall v, channel, ts | IsReleaseText(base, v, channel, ts) ensures IsTs14(ts) { Ts14Iff(ts); }
  }

  // ---------------------------------------------------------------- the comparator is a total order

  /** The later time comes first, and any time before none; of two tags of one time, or of none, the one that
      is greater as a text. */
  lemma NewerIff(a: RepoTag, b: RepoTag)
    ensures Newer(a, b) <==>
      || (Time(a).Some? && Time(b).None?)
      || (Time(a).Some? && Time(b).Some? && Time(a).value > Time(b).value)
      || (Time(a) == Time(b) && Before(b.tag, a.tag))
  {
    BeforeIsTotal(a.tag, b.tag);
  }

  lemma CompareIsTotal(a: RepoTag, b: RepoTag)
    ensures Compare(a, b) < 0 <==> Compare(b, a) > 0
    ensures Compare(a, b) == 0 <==> a.tag == b.tag && Time(a) == Time(b)
  {
    BeforeIsTotal(a.tag, b.tag);
  }

  lemma NewerChains(a: RepoTag, b: RepoTag, c: RepoTag)
    requires Newer(a, b) && Newer(b, c)
    ensures Newer(a, c)
  {
    BeforeIsTotal(a.tag, b.tag);
    BeforeIsTotal(b.tag, c.tag);
    BeforeIsTotal(a.tag, c.tag);
    if Before(b.tag, a.tag) && Before(c.tag, b.tag) { BeforeChains(c.tag, b.tag, a.tag); }
  }

  /** What compares alike compares alike with everything. */
  lemma NewerThanBoth(a: RepoTag, b: RepoTag, c: RepoTag)
    requires !Newer(b, a) && Newer(b, c)
    ensures Newer(a, c)
  {
    CompareIsTotal(a, b);
    if Newer(a, b) { NewerChains(a, b, c); }
  }

  // ---------------------------------------------------------------- sorting

  /** Nothing stands behind something older. */
  ghost predicate Sorted(s: seq<RepoTag>) { forall i, j :: 0 <= i < j < |s| ==> !Newer(s[j], s[i]) }

  /** The insertion of a stable sort: behind everything that is not older. */
  function InsertTag(s: seq<RepoTag>, t: RepoTag): (r: seq<RepoTag>)
    ensures multiset(r) == multiset(s) + multiset{t}
  {
    if s == [] then [t]
    else if Newer(t, s[0]) then [t] + s
    else
      assert s == [s[0]] + s[1..];
      [s[0]] + InsertTag(s[1..], t)
  }

  /** `sort(byNewestFirst)` */
  function Sort(s: seq<RepoTag>): (r: seq<RepoTag>)
    ensures multiset(r) == multiset(s)
  {
    if s == [] then [] else
      assert s == s[..|s| - 1] + [s[|s| - 1]];
      InsertTag(Sort(s[..|s| - 1]), s[|s| - 1])
  }

  lemma SameMembers(a: seq<RepoTag>, b: seq<RepoTag>)
    requires multiset(a) == multiset(b)
    ensures |a| == |b| && forall x :: x in a <==> x in b
  {
    assert |multiset(a)| == |multiset(b)|;
    forall x ensures x in a <==> x in b { assert x in multiset(a) <==> x in multiset(b); }
  }

  lemma {:induction false} InsertSorts(s: seq<RepoTag>, t: RepoTag)
    requires Sorted(s)
    ensures Sorted(InsertTag(s, t))
  {
    if s != [] {
      CompareIsTotal(s[0], t);
      if Newer(t, s[0]) {
        forall j | 0 < j < |s| ensures !Newer(s[j], t) { if Newer(s[j], t) { NewerChains(s[j], t, s[0]); } }
      } else {
        InsertSorts(s[1..], t);
        var rest := InsertTag(s[1..], t);
        forall j | 0 <= j < |rest| ensures !Newer(rest[j], s[0]) {
          assert rest[j] in multiset(rest);
          if rest[j] != t { assert rest[j] in s[1..]; }
        }
      }
    }
  }

  lemma {:induction false} SortSorts(s: seq<RepoTag>)
    ensures Sorted(Sort(s))
  {
    if s != [] {
      SortSorts(s[..|s| - 1]);
      InsertSorts(Sort(s[..|s| - 1]), s[|s| - 1]);
    }
  }

  /** What the comparator looks at. */
  function Keys(s: seq<RepoTag>): (r: seq<(string, Option<int>)>)
    ensures |r| == |s| && forall i :: 0 <= i < |r| ==> r[i] == (s[i].tag, Time(s[i]))
  {
    seq(|s|, i requires 0 <= i < |s| => (s[i].tag, Time(s[i])))
  }

  lemma FirstIsNewest(a: seq<RepoTag>, b: seq<RepoTag>)
    requires Sorted(b) && a != [] && b != [] && Keys(a)[0] in Keys(b)
    ensures !Newer(a[0], b[0])
  {
    var k :| 0 <= k < |b| && Keys(b)[k] == Keys(a)[0];
    CompareIsTotal(b[0], b[0]);
    assert !Newer(b[k], b[0]);
  }

  lemma TailKeys(a: seq<RepoTag>)
    requires a != []
    ensures Keys(a) == [Keys(a)[0]] + Keys(a[1..])
    ensures multiset(Keys(a[1..])) == multiset(Keys(a)) - multiset{Keys(a)[0]}
  {
    assert Keys(a) == [Keys(a)[0]] + Keys(a[1..]);
  }

  lemma FirstKeysSame(a: seq<RepoTag>, b: seq<RepoTag>)
    requires Sorted(a) && Sorted(b) && a != [] && b != [] && Keys(a)[0] in Keys(b) && Keys(b)[0] in Keys(a)
    ensures Keys(a)[0] == Keys(b)[0]
  {
    FirstIsNewest(a, b);
    FirstIsNewest(b, a);
    CompareIsTotal(a[0], b[0]);
  }

  /** There is one sorted order, whatever algorithm finds it: two sorted lists of the same names and times
      agree, place by place, on name and time. */
  lemma {:induction false} SortedIsUnique(a: seq<RepoTag>, b: seq<RepoTag>)
    requires Sorted(a) && Sorted(b) && multiset(Keys(a)) == multiset(Keys(b))
    ensures Keys(a) == Keys(b)
    decreases |a|
  {
    hide Newer, Time;
    assert |multiset(Keys(a))| == |multiset(Keys(b))|;
    if a != [] {
      assert Keys(a)[0] in multiset(Keys(b)) && Keys(b)[0] in multiset(Keys(a));
      FirstKeysSame(a, b);
      TailKeys(a);
      TailKeys(b);
      SortedIsUnique(a[1..], b[1..]);
    }
  }

  // ---------------------------------------------------------------- the two pots

  function KlassOf(t: RepoTag): Klass { ClassifyImageTag(t.tag).klass }

  function Pot(tags: seq<RepoTag>, klass: Klass): (r: seq<RepoTag>)
    ensures forall x :: x in r <==> exists t :: t in tags && KlassOf(t) == klass && Enriched(t) == x
  {
    if tags == [] then [] else
      var rest, last := Pot(tags[..|tags| - 1], klass), tags[|tags| - 1];
      assert tags == tags[..|tags| - 1] + [last];
      if KlassOf(last) == klass then rest + [Enriched(last)] else rest
  }

  /** How many entries of the pot are newer. */
  function Rank(pot: seq<RepoTag>, x: RepoTag): nat { |Filter(pot, (y: RepoTag) => Newer(y, x))| }

  function Limit(klass: Klass, keepStable: nat, keepNonStable: nat): nat {
    match klass
    case StableRelease => keepStable
    case NonStable => keepNonStable
  }

  /** Kept by count: some entry of this name has fewer newer ones in its pot than the pot keeps. */
  ghost predicate ByCount(tags: seq<RepoTag>, keepStable: nat, keepNonStable: nat, t: RepoTag) {
    exists x :: x in Pot(tags, KlassOf(t)) && x.tag == t.tag && Rank(Pot(tags, KlassOf(t)), x) < Limit(KlassOf(t), keepStable, keepNonStable)
  }

  ghost predicate Kept(tags: seq<RepoTag>, referenced: set<string>, keepStable: nat, keepNonStable: nat, t: RepoTag) {
    t.tag in referenced || ByCount(tags, keepStable, keepNonStable, t)
  }

  function TagNames(tags: seq<RepoTag>): (r: seq<string>)
    ensures |r| == |tags| && forall i :: 0 <= i < |r| ==> r[i] == tags[i].tag
  {
    seq(|tags|, i requires 0 <= i < |tags| => tags[i].tag)
  }

  function Top(pot: seq<RepoTag>, n: nat): seq<RepoTag> {
    var s := Sort(pot);
    if n < |s| then s[..n] else s
  }

  function NamesOf(tags: seq<RepoTag>): set<string> { set t | t in tags :: t.tag }

  // ---------------------------------------------------------------- what the count keeps

  lemma {:induction false} FilterCounts<T(!new)>(s: seq<T>, p: T -> bool, x: T)
    ensures multiset(Filter(s, p))[x] == if p(x) then multiset(s)[x] else 0
  {
    if s != [] {
      assert s == s[..|s| - 1] + [s[|s| - 1]];
      FilterCounts(s[..|s| - 1], p, x);
    }
  }

  lemma RankIsOfMultiset(a: seq<RepoTag>, b: seq<RepoTag>, x: RepoTag)
    requires multiset(a) == multiset(b)
    ensures Rank(a, x) == Rank(b, x)
  {
    var p := (y: RepoTag) => Newer(y, x);
    forall y ensures multiset(Filter(a, p))[y] == multiset(Filter(b, p))[y] {
      FilterCounts(a, p, y);
      FilterCounts(b, p, y);
    }
    assert multiset(Filter(a, p)) == multiset(Filter(b, p));
    assert |multiset(Filter(a, p))| == |multiset(Filter(b, p))|;
  }

  /** In a sorted list the newer entries are the first so many. */
  lemma {:induction false} NewerStandFirst(s: seq<RepoTag>, x: RepoTag, k: nat)
    requires Sorted(s) && k < |s|
    ensures Newer(s[k], x) <==> k < Rank(s, x)
  {
    var front, last := s[..|s| - 1], s[|s| - 1];
    if Newer(last, x) {
      AllNewer(s, x);
    } else if k < |front| {
      NewerStandFirst(front, x, k);
    }
  }

  lemma {:induction false} AllNewer(s: seq<RepoTag>, x: RepoTag)
    requires Sorted(s) && s != [] && Newer(s[|s| - 1], x)
    ensures Rank(s, x) == |s| && forall i :: 0 <= i < |s| ==> Newer(s[i], x)
  {
    if |s| > 1 {
      NewerThanBoth(s[|s| - 2], s[|s| - 1], x);
      AllNewer(s[..|s| - 1], x);
    }
  }

  /** The names of the first `n` of the sorted pot are those of an entry with fewer than `n` newer ones. */
  lemma TopIsByRank(pot: seq<RepoTag>, n: nat, name: string)
    ensures name in NamesOf(Top(pot, n)) <==> exists x :: x in pot && x.tag == name && Rank(pot, x) < n
  {
    var s, top := Sort(pot), Top(pot, n);
    SortSorts(pot);
    SameMembers(s, pot);
    if name in NamesOf(top) {
      var k :| 0 <= k < |top| && top[k].tag == name;
      InTopRanks(s, k);
      RankIsOfMultiset(s, pot, s[k]);
      assert s[k] in pot && Rank(pot, s[k]) < n;
    }
    if x :| x in pot && x.tag == name && Rank(pot, x) < n {
      RankIsOfMultiset(s, pot, x);
      RankedInTop(s, x);
      assert top[Rank(s, x)] in top;
    }
  }

  lemma InTopRanks(s: seq<RepoTag>, k: nat)
    requires Sorted(s) && k < |s|
    ensures Rank(s, s[k]) <= k
  {
    CompareIsTotal(s[k], s[k]);
    NewerStandFirst(s, s[k], k);
  }

  /** At the place of its rank stands an entry of its name. */
  lemma RankedInTop(s: seq<RepoTag>, x: RepoTag)
    requires Sorted(s) && x in s
    ensures Rank(s, x) < |s| && s[Rank(s, x)].tag == x.tag
  {
    var k, r :| 0 <= k < |s| && s[k] == x && r == Rank(s, x);
    InTopRanks(s, k);
    NewerStandFirst(s, x, r);
    if r < k { assert !Newer(s[k], s[r]); }
    CompareIsTotal(s[r], x);
  }

  ghost predicate DistinctTags(s: seq<RepoTag>) { forall i, j :: 0 <= i < j < |s| ==> s[i].tag != s[j].tag }

  /** By count a pot without repeated names keeps exactly as many as it may, or all it has. */
  lemma CountIsExact(pot: seq<RepoTag>, n: nat)
    requires DistinctTags(pot)
    ensures |set x | x in pot && Rank(pot, x) < n| == if n < |pot| then n else |pot|
  {
    var s, top := Sort(pot), Top(pot, n);
    SortSorts(pot);
    SameMembers(s, pot);
    SortIsDistinct(pot);
    SetOfDistinct(top);
    forall x ensures x in top <==> x in pot && Rank(pot, x) < n { TopIfRanked(pot, n, x); }
    assert (set x | x in pot && Rank(pot, x) < n) == (set x | x in top);
  }

  lemma TopIfRanked(pot: seq<RepoTag>, n: nat, x: RepoTag)
    requires DistinctTags(pot)
    ensures x in Top(pot, n) <==> x in pot && Rank(pot, x) < n
  {
    var s, top := Sort(pot), Top(pot, n);
    SameMembers(s, pot);
    TopIsByRank(pot, n, x.tag);
    if x in top {
      var y :| y in pot && y.tag == x.tag && Rank(pot, y) < n;
      SameNameSame(pot, x, y);
    }
    if x in pot && Rank(pot, x) < n {
      var y :| y in top && y.tag == x.tag;
      SameNameSame(pot, x, y);
    }
  }

  lemma SameNameSame(pot: seq<RepoTag>, x: RepoTag, y: RepoTag)
    requires DistinctTags(pot) && x in pot && y in pot && x.tag == y.tag
    ensures x == y
  {
    var i :| 0 <= i < |pot| && pot[i] == x;
    var j :| 0 <= j < |pot| && pot[j] == y;
    assert i == j;
  }

  lemma SortIsDistinct(pot: seq<RepoTag>)
    requires DistinctTags(pot)
    ensures Distinct(Sort(pot))
  {
    var s := Sort(pot);
    assert Distinct(pot);
    forall i, j | 0 <= i < j < |s| ensures s[i] != s[j] {
      CountsAtMostOnce(pot, s[i]);
      if s[i] == s[j] { TwiceCounts(s, i, j); }
    }
  }

  lemma TwiceCounts<T>(s: seq<T>, i: nat, j: nat)
    requires i < j < |s| && s[i] == s[j]
    ensures multiset(s)[s[i]] >= 2
  {
    assert s == s[..j] + [s[j]] + s[j + 1..] && s[..j][i] == s[i] && s[i] in multiset(s[..j]);
  }

  /** What lies before something kept has no more newer ones than it. */
  lemma {:induction false} FewerAreNewer(pot: seq<RepoTag>, x: RepoTag, y: RepoTag)
    requires Newer(y, x)
    ensures Rank(pot, y) <= Rank(pot, x)
  {
    if pot != [] {
      var last := pot[|pot| - 1];
      FewerAreNewer(pot[..|pot| - 1], x, y);
      if Newer(last, y) { NewerChains(last, y, x); }
    }
  }

  // ---------------------------------------------------------------- the plan

  /** The loop that fills the pots. */
  method FillPots(tags: seq<RepoTag>) returns (stable: seq<RepoTag>, nonStable: seq<RepoTag>)
    ensures stable == Pot(tags, StableRelease) && nonStable == Pot(tags, NonStable)
  {
    stable, nonStable := [], [];
    for i := 0 to |tags|
      invariant stable == Pot(tags[..i], StableRelease) && nonStable == Pot(tags[..i], NonStable)
    {
      assert tags[..i + 1][..i] == tags[..i];
      if KlassOf(tags[i]).StableRelease? {
        stable := stable + [Enriched(tags[i])];
      } else {
        nonStable := nonStable + [Enriched(tags[i])];
      }
    }
    TakeAll(tags);
  }

  /** The loop that splits the tags, in their order. */
  method SplitTags(tags: seq<RepoTag>, kept: set<string>) returns (keep: seq<string>, del: seq<string>)
    ensures keep == TagNames(Filter(tags, (t: RepoTag) => t.tag in kept))
    ensures del == TagNames(Filter(tags, (t: RepoTag) => t.tag !in kept))
  {
    keep, del := [], [];
    for i := 0 to |tags|
      invariant keep == TagNames(Filter(tags[..i], (t: RepoTag) => t.tag in kept))
      invariant del == TagNames(Filter(tags[..i], (t: RepoTag) => t.tag !in kept))
    {
      assert tags[..i + 1][..i] == tags[..i];
      if tags[i].tag in kept {
        keep := keep + [tags[i].tag];
      } else {
        del := del + [tags[i].tag];
      }
    }
    TakeAll(tags);
  }

  method PlanRetention(tags: seq<RepoTag>, referenced: set<string>, keepStable: nat, keepNonStable: nat)
    returns (keep: seq<string>, del: seq<string>)
    ensures keep == TagNames(Filter(tags, (t: RepoTag) => Kept(tags, referenced, keepStable, keepNonStable, t)))
    ensures del == TagNames(Filter(tags, (t: RepoTag) => !Kept(tags, referenced, keepStable, keepNonStable, t)))
  {
    var stable, nonStable := FillPots(tags);
    var keptByCount := NamesOf(Top(stable, keepStable)) + NamesOf(Top(nonStable, keepNonStable));
    keep, del := SplitTags(tags, referenced + keptByCount);
    forall t | t in tags ensures t.tag in referenced + keptByCount <==> Kept(tags, referenced, keepStable, keepNonStable, t) {
      TopByName(tags, keepStable, keepNonStable, t);
    }
    FilterSame(tags, (t: RepoTag) => t.tag in referenced + keptByCount,
      (t: RepoTag) => Kept(tags, referenced, keepStable, keepNonStable, t));
    FilterSame(tags, (t: RepoTag) => t.tag !in referenced + keptByCount,
      (t: RepoTag) => !Kept(tags, referenced, keepStable, keepNonStable, t));
  }

  /** A tag's name is among the kept names exactly when the tag is kept by count. */
  lemma TopByName(tags: seq<RepoTag>, keepStable: nat, keepNonStable: nat, t: RepoTag)
    ensures t.tag in NamesOf(Top(Pot(tags, StableRelease), keepStable)) + NamesOf(Top(Pot(tags, NonStable), keepNonStable))
      <==> ByCount(tags, keepStable, keepNonStable, t)
  {
    TopIsByRank(Pot(tags, StableRelease), keepStable, t.tag);
    TopIsByRank(Pot(tags, NonStable), keepNonStable, t.tag);
  }

  lemma {:induction false} RankCounts(tags: seq<RepoTag>, klass: Klass, x: RepoTag)
    ensures Rank(Pot(tags, klass), x) == |Filter(tags, (y: RepoTag) => KlassOf(y) == klass && Newer(Enriched(y), x))|
  {
    hide Rank, KlassOf, Enriched, Newer;
    if tags == [] {
      NothingRanks(x);
    } else {
      var front, last := tags[..|tags| - 1], tags[|tags| - 1];
      RankCounts(front, klass, x);
      PotNext(front, last, klass, x);
      assert tags == front + [last];
    }
  }

  lemma NothingRanks(x: RepoTag)
    ensures Rank([], x) == 0
  {
  }

  /** How many of the tags are of the same kind and newer. */
  function NewerOfItsKind(tags: seq<RepoTag>, u: RepoTag): nat {
    |Filter(tags, (y: RepoTag) => KlassOf(y) == KlassOf(u) && Newer(Enriched(y), Enriched(u)))|
  }

  /** A tag is kept exactly when it is pinned, or some entry of its name has fewer newer ones of its kind, stable
      releases or all the rest, than the plan keeps of that kind. */
  lemma KeptIff(tags: seq<RepoTag>, referenced: set<string>, keepStable: nat, keepNonStable: nat, t: RepoTag)
    ensures Kept(tags, referenced, keepStable, keepNonStable, t) <==>
      || t.tag in referenced
      || exists u :: u in tags && u.tag == t.tag && NewerOfItsKind(tags, u) < if KlassOf(t).StableRelease? then keepStable else keepNonStable
  {
    hide Rank, Newer, Enriched;
    var klass := KlassOf(t);
    forall u | u in tags && u.tag == t.tag
      ensures KlassOf(u) == klass && Enriched(u) in Pot(tags, klass) && Enriched(u).tag == u.tag
      ensures Rank(Pot(tags, klass), Enriched(u)) == NewerOfItsKind(tags, u)
    {
      EnrichedKeepsName(u);
      RankCounts(tags, klass, Enriched(u));
      FilterSame(tags, (y: RepoTag) => KlassOf(y) == klass && Newer(Enriched(y), Enriched(u)),
        (y: RepoTag) => KlassOf(y) == KlassOf(u) && Newer(Enriched(y), Enriched(u)));
    }
    forall x | x in Pot(tags, klass) ensures exists u :: u in tags && KlassOf(u) == klass && Enriched(u) == x && u.tag == x.tag {
      var u :| u in tags && KlassOf(u) == klass && Enriched(u) == x;
      EnrichedKeepsName(u);
    }
  }

  lemma EnrichedKeepsName(t: RepoTag)
    ensures Enriched(t).tag == t.tag
  {
  }

  /** Nothing that is deleted sorts before an entry its pot keeps by count, and no pinned tag is deleted. */
  lemma NothingNewerGoes(tags: seq<RepoTag>, referenced: set<string>, keepStable: nat, keepNonStable: nat, x: RepoTag, y: RepoTag)
    requires x in tags && y in tags && KlassOf(x) == KlassOf(y) && !Kept(tags, referenced, keepStable, keepNonStable, y)
    requires Rank(Pot(tags, KlassOf(x)), Enriched(x)) < Limit(KlassOf(x), keepStable, keepNonStable)
    ensures !Newer(Enriched(y), Enriched(x)) && y.tag !in referenced
  {
    if Newer(Enriched(y), Enriched(x)) {
      FewerAreNewer(Pot(tags, KlassOf(x)), Enriched(x), Enriched(y));
    }
  }

  /** Fewer tags, fewer newer ones. */
  lemma {:induction false} RankOfFewer(tags: seq<RepoTag>, p: RepoTag -> bool, klass: Klass, x: RepoTag)
    ensures Rank(Pot(Filter(tags, p), klass), x) <= Rank(Pot(tags, klass), x)
  {
    hide Pot, Rank, KlassOf, Enriched, Newer;
    if tags == [] {
      assert Filter(tags, p) == tags;
    } else {
      var front, last := tags[..|tags| - 1], tags[|tags| - 1];
      RankOfFewer(front, p, klass, x);
      PotNext(front, last, klass, x);
      assert tags == front + [last];
      if p(last) { PotNext(Filter(front, p), last, klass, x); }
    }
  }

  lemma PotNext(tags: seq<RepoTag>, t: RepoTag, klass: Klass, x: RepoTag)
    ensures Rank(Pot(tags + [t], klass), x) == Rank(Pot(tags, klass), x) + if KlassOf(t) == klass && Newer(Enriched(t), x) then 1 else 0
  {
    assert (tags + [t])[..|tags|] == tags;
    var pot := Pot(tags, klass);
    assert (pot + [Enriched(t)])[..|pot|] == pot;
  }

  /** Run again on what it kept, the plan deletes nothing. */
  lemma PlanIsIdempotent(tags: seq<RepoTag>, referenced: set<string>, keepStable: nat, keepNonStable: nat)
    ensures var once := Filter(tags, (t: RepoTag) => Kept(tags, referenced, keepStable, keepNonStable, t));
      Filter(once, (t: RepoTag) => !Kept(once, referenced, keepStable, keepNonStable, t)) == []
  {
    var p := (t: RepoTag) => Kept(tags, referenced, keepStable, keepNonStable, t);
    var once := Filter(tags, p);
    forall t | t in once ensures Kept(once, referenced, keepStable, keepNonStable, t) {
      if t.tag !in referenced {
        var klass := KlassOf(t);
        var x :| x in Pot(tags, klass) && x.tag == t.tag && Rank(Pot(tags, klass), x) < Limit(klass, keepStable, keepNonStable);
        var u :| u in tags && KlassOf(u) == klass && Enriched(u) == x;
        assert u in once;
        assert x in Pot(once, klass);
        RankOfFewer(tags, p, klass, x);
      }
    }
    FilterEmpty(once, (t: RepoTag) => !Kept(once, referenced, keepStable, keepNonStable, t));
  }

  // ---------------------------------------------------------------- shared/tenant.ts: the other time order

  /** `approvedImageTag`: <x.y.z>-<channel>-<ts14>-<sha7> */
  predicate IsImageTag(tag: string) { HasSha(tag) && ParseReleaseTag(Base(tag)).Some? }

  function Stamp(tag: string): string
    requires IsImageTag(tag)
  {
    ParseReleaseTag(Base(tag)).value.ts14
  }

  predicate IsOlderRelease(next: string, held: string) {
    IsImageTag(next) && IsImageTag(held) && Before(Stamp(next), Stamp(held))
  }

  /** The stamp is the third field between the dashes. */
  lemma StampIsThirdField(tag: string)
    requires IsImageTag(tag)
    ensures |Split(tag, '-')| == 4 && Split(tag, '-')[2] == Stamp(tag)
  {
    var base, sha := Base(tag), tag[|tag| - 7..];
    SplitThree(base, '-');
    var f := Split(base, '-');
    assert tag == base + ['-'] + sha;
    FourFields(f[0], f[1], f[2], sha, '-');
  }

  lemma FourFields(a: string, b: string, c: string, d: string, dash: char)
    requires dash !in a && dash !in b && dash !in c && dash !in d
    ensures Split(a + [dash] + b + [dash] + c + [dash] + d, dash) == [a, b, c, d]
  {
    hide Split;
    var tail := b + [dash] + c + [dash] + d;
    ThreeFields(b, c, d, dash);
    SplitFront(a, dash, tail);
    assert a + [dash] + b + [dash] + c + [dash] + d == a + [dash] + tail;
  }

  /** The two time orders agree: of two image tags whose stamps are dates from the year 100 on, the one that
      is the older release is the one the retention puts behind the other. */
  lemma OlderReleaseSortsBehind(a: RepoTag, b: RepoTag)
    requires IsImageTag(a.tag) && IsImageTag(b.tag)
    requires IsValid(Fields(Stamp(a.tag))) && IsValid(Fields(Stamp(b.tag)))
    requires Fields(Stamp(a.tag)).year >= 100 && Fields(Stamp(b.tag)).year >= 100
    requires Stamp(a.tag) != Stamp(b.tag)
    ensures IsOlderRelease(a.tag, b.tag) <==> Newer(Enriched(b), Enriched(a))
  {
    EpochIsMonotone(Stamp(a.tag), Stamp(b.tag));
    EpochIsMonotone(Stamp(b.tag), Stamp(a.tag));
    BeforeIsTotal(Stamp(a.tag), Stamp(b.tag));
  }
}
