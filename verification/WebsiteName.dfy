/** shared/tenant.ts: the app name a new website gets, and how such a name is recognised. */
module WebsiteName {
  import opened Common
  import opened Text

  predicate IsNameChar(c: char) { IsLower(c) || IsDigit(c) || c == '-' }

  /** [a-z][a-z0-9-]{0,28}[a-z0-9] */
  predicate IsAppName(s: string) {
    && 2 <= |s| <= 30 && IsLower(s[0]) && (IsLower(s[|s| - 1]) || IsDigit(s[|s| - 1]))
    && forall i :: 0 <= i < |s| ==> IsNameChar(s[i])
  }

  /** [a-z][a-z0-9-]{0,62} */
  predicate IsSiteId(s: string) { 1 <= |s| <= 63 && IsLower(s[0]) && forall i :: 0 <= i < |s| ==> IsNameChar(s[i]) }

  // ---------------------------------------------------------------- numbers as text

  function Power(k: nat): nat { if k == 0 then 1 else 10 * Power(k - 1) }

  lemma {:induction false} DecimalIsShort(n: nat, k: nat)
    requires k > 0 && n < Power(k)
    ensures |Decimal(n)| <= k
  {
    if n >= 10 {
      assert k > 1;
      DecimalIsShort(n / 10, k - 1);
    }
  }

  // ---------------------------------------------------------------- the numbered names

  /** `replace(/-+$/, "")` */
  function StripDashes(s: string): (r: string)
    ensures r <= s && (r != [] ==> r[|r| - 1] != '-')
    ensures s != [] && s[0] != '-' ==> r != []
  {
    if s == [] || s[|s| - 1] != '-' then s else StripDashes(s[..|s| - 1])
  }

  function Suffix(n: nat): string { if n == 1 then "" else "-" + Decimal(n) }

  /** `slice(0, end)`: a negative end counts from the back. */
  function SliceTo(s: string, end: int): (r: string)
    ensures r <= s
  {
    if end >= |s| then s else if end >= 0 then s[..end] else if |s| + end >= 0 then s[..|s| + end] else []
  }

  function NumberedSiteName(site: string, n: nat): string {
    StripDashes(SliceTo(site, 30 - |Suffix(n)|)) + Suffix(n)
  }

  /** The counter is a number the language counts exactly: below 2^53. No Set holds that many names. */
  const SAFE: nat := 9007199254740992

  lemma SuffixIsShort(n: nat)
    requires n < SAFE
    ensures |Suffix(n)| <= 17
  {
    assert Power(4) == 10000;
    assert Power(8) == 100000000 by { assert Power(6) == 1000000; }
    assert Power(12) == 1000000000000 by { assert Power(10) == 10000000000; }
    assert Power(16) == 10000000000000000 by { assert Power(14) == 100000000000000; }
    DecimalIsShort(n, 16);
  }

  /** Every numbered name from the second on is an app name; the first is one unless a single letter is left. */
  lemma NumberedNameIsAppName(site: string, n: nat)
    requires IsSiteId(site) && 2 <= n < SAFE
    ensures IsAppName(NumberedSiteName(site, n))
  {
    SuffixIsShort(n);
    var cut := SliceTo(site, 30 - |Suffix(n)|);
    var stem, tail := StripDashes(cut), Suffix(n);
    assert cut[0] == site[0];
    assert stem[0] == site[0];
    var name := stem + tail;
    forall i | 0 <= i < |name| ensures IsNameChar(name[i]) {
      if i < |stem| { assert name[i] == site[i]; }
    }
  }

  /** The first `k` characters do not end with a dash, and within the room only dashes follow. */
  ghost predicate IsStem(site: string, room: int, k: int) {
    0 <= k <= |site| && k <= room && (k > 0 ==> site[k - 1] != '-') && forall j :: k <= j < |site| && j < room ==> site[j] == '-'
  }

  lemma StemIs(site: string, room: nat) returns (k: nat)
    ensures IsStem(site, room, k) && StripDashes(SliceTo(site, room)) == site[..k]
  {
    var cut := SliceTo(site, room);
    StrippedAreDashes(cut);
    k := |StripDashes(cut)|;
    forall j | k <= j < |site| && j < room ensures site[j] == '-' { assert cut[j] == site[j]; }
  }

  lemma StemAndSuffix(site: string, n: nat) returns (k: nat)
    requires |Suffix(n)| <= 30
    ensures IsStem(site, 30 - |Suffix(n)|, k) && NumberedSiteName(site, n) == site[..k] + Suffix(n) && |NumberedSiteName(site, n)| <= 30
  {
    hide StripDashes, SliceTo, Suffix;
    k := StemIs(site, 30 - |Suffix(n)|);
  }

  /** A numbered name is the longest front of the site id that leaves room for the number within thirty
      characters and does not end with a dash, and then the number. */
  lemma LongestStem(site: string, n: nat)
    requires IsSiteId(site) && 1 <= n < SAFE
    ensures var name, tail := NumberedSiteName(site, n), if n == 1 then "" else "-" + Decimal(n);
      |name| <= 30 && exists k :: IsStem(site, 30 - |tail|, k) && name == site[..k] + tail
  {
    hide NumberedSiteName, IsSiteId, IsStem, Decimal;
    SuffixIsShort(n);
    var k := StemAndSuffix(site, n);
    assert Suffix(n) == if n == 1 then "" else "-" + Decimal(n);
  }

  /** Only dashes come off. */
  lemma {:induction false} StrippedAreDashes(s: string)
    ensures forall j :: |StripDashes(s)| <= j < |s| ==> s[j] == '-'
  {
    if s != [] && s[|s| - 1] == '-' { StrippedAreDashes(s[..|s| - 1]); }
  }

  /** `s` ends with the digits `d`, behind its last dash. */
  ghost predicate EndsIn(s: string, d: string) {
    && |s| > |d| && s[|s| - |d| - 1] == '-' && s[|s| - |d|..] == d
    && forall k :: |s| - |d| <= k < |s| ==> IsDigit(s[k])
  }

  lemma EndsInOne(s: string, a: string, b: string)
    requires EndsIn(s, a) && EndsIn(s, b)
    ensures a == b
  {
    var i, j := |s| - |a| - 1, |s| - |b| - 1;
    assert !IsDigit(s[i]) && !IsDigit(s[j]);
    assert i == j;
  }

  lemma EndsWithNumber(site: string, n: nat)
    requires n != 1
    ensures EndsIn(NumberedSiteName(site, n), Decimal(n))
  {
    hide Decimal, StripDashes, SliceTo;
    var s, d := NumberedSiteName(site, n), Decimal(n);
    assert s[|s| - |d|..] == d;
    forall k | |s| - |d| <= k < |s| ensures IsDigit(s[k]) { assert s[k] == d[k - (|s| - |d|)]; }
  }

  lemma NumbersDiffer(site: string, a: nat, b: nat)
    requires 2 <= a && 2 <= b && NumberedSiteName(site, a) == NumberedSiteName(site, b)
    ensures a == b
  {
    EndsWithNumber(site, a);
    EndsWithNumber(site, b);
    EndsInOne(NumberedSiteName(site, a), Decimal(a), Decimal(b));
    DecimalReads(a);
    DecimalReads(b);
  }

  // ---------------------------------------------------------------- the search

  predicate Free(site: string, taken: set<string>, n: nat) {
    IsAppName(NumberedSiteName(site, n)) && NumberedSiteName(site, n) !in taken
  }

  /** The search passed all names before the `n`th. */
  ghost predicate NoneFree(site: string, taken: set<string>, n: nat) {
    forall k :: 1 <= k < n ==> !Free(site, taken, k)
  }

  lemma FirstIsItself(site: string)
    requires IsAppName(site)
    ensures NumberedSiteName(site, 1) == site
  {
  }

  /** A site id that is an app name and free is its own website's name. */
  lemma OwnIdFirst(site: string, taken: set<string>, n: nat)
    requires n >= 1 && Free(site, taken, n) && NoneFree(site, taken, n)
    ensures IsAppName(site) && site !in taken ==> NumberedSiteName(site, n) == site
  {
    hide NumberedSiteName, IsAppName;
    if IsAppName(site) {
      FirstIsItself(site);
      assert site !in taken ==> Free(site, taken, 1);
    }
  }

  lemma OneMoreTaken(site: string, taken: set<string>, n: nat)
    requires NoneFree(site, taken, n) && !Free(site, taken, n)
    ensures NoneFree(site, taken, n + 1)
  {
  }

  /** The names from the second on. */
  function Numbered(site: string, count: nat): (r: seq<string>)
    ensures |r| == count && forall i :: 0 <= i < count ==> r[i] == NumberedSiteName(site, i + 2)
  {
    seq(count, i requires 0 <= i < count => NumberedSiteName(site, i + 2))
  }

  lemma NumberedDiffer(site: string, count: nat)
    ensures Distinct(Numbered(site, count))
  {
    hide NumberedSiteName;
    var names := Numbered(site, count);
    forall i, j | 0 <= i < j < count ensures names[i] != names[j] {
      if names[i] == names[j] { NumbersDiffer(site, i + 2, j + 2); }
    }
  }

  /** The search goes on only while names are taken, and they run out: of the names from the second to the
      (|taken| + 2)nd, all different and all app names, one is free. */
  lemma NamesRunOut(site: string, taken: set<string>, n: nat)
    requires IsSiteId(site) && |taken| + 2 < SAFE
    requires NoneFree(site, taken, n)
    ensures n <= |taken| + 2
  {
    if n > |taken| + 2 {
      var names := Numbered(site, |taken| + 1);
      NumberedDiffer(site, |taken| + 1);
      forall x | x in names ensures x in taken {
        var i :| 0 <= i < |names| && names[i] == x;
        NumberedNameIsAppName(site, i + 2);
        assert !Free(site, taken, i + 2);
      }
      Pigeonhole(names, taken);
    }
  }

  /** The unbounded loop stops within |taken| + 2 tries, at the first name that is free. */
  method WebsiteAppName(site: string, taken: set<string>) returns (name: string, ghost n: nat)
    requires IsSiteId(site) && |taken| + 2 < SAFE
    ensures 1 <= n <= |taken| + 2 && name == NumberedSiteName(site, n)
    ensures IsAppName(name) && name !in taken
    ensures IsAppName(site) && site !in taken ==> name == site
    ensures NoneFree(site, taken, n)
  {
    var i := 1;
    NamesRunOut(site, taken, i);
    while true
      invariant 1 <= i <= |taken| + 2
      invariant NoneFree(site, taken, i)
      decreases |taken| + 2 - i
    {
      name := NumberedSiteName(site, i);
      if IsAppName(name) && name !in taken {
        n := i;
        OwnIdFirst(site, taken, n);
        return;
      }
      OneMoreTaken(site, taken, i);
      i := i + 1;
      NamesRunOut(site, taken, i);
    }
  }

  // ---------------------------------------------------------------- recognising a name

  function TrailingDigits(s: string): (k: nat)
    ensures k <= |s| && forall i :: |s| - k <= i < |s| ==> IsDigit(s[i])
    ensures k < |s| ==> !IsDigit(s[|s| - k - 1])
  {
    if s == [] || !IsDigit(s[|s| - 1]) then 0 else 1 + TrailingDigits(s[..|s| - 1])
  }

  /** [2-9]|[1-9][0-9]+ */
  predicate IsSuffixNumber(d: string) { (|d| == 1 && '2' <= d[0] <= '9') || (|d| >= 2 && d[0] != '0') }

  /** The number behind the last dash, 1 where there is none. */
  function NumberIn(name: string): nat {
    var k := TrailingDigits(name);
    if k < |name| && name[|name| - k - 1] == '-' && IsSuffixNumber(name[|name| - k..]) then Value(name[|name| - k..]) else 1
  }

  predicate IsWebsiteAppNameOf(name: string, site: string) {
    IsAppName(name) && (name == NumberedSiteName(site, 1) || name == NumberedSiteName(site, NumberIn(name)))
  }

  lemma NumberIsRead(site: string, n: nat)
    requires n >= 2
    ensures NumberIn(NumberedSiteName(site, n)) == n
  {
    hide NumberedSiteName, Decimal, TrailingDigits;
    var s, d := NumberedSiteName(site, n), Decimal(n);
    EndsWithNumber(site, n);
    var k := TrailingDigits(s);
    LastDashIs(s, |s| - |d| - 1, k);
    DecimalReads(n);
    if |d| == 1 { assert Value(d[..0]) == 0; }
  }

  lemma LastDashIs(s: string, i: nat, k: nat)
    requires i < |s| && s[i] == '-' && (forall j :: i < j < |s| ==> IsDigit(s[j])) && k == TrailingDigits(s)
    ensures k == |s| - i - 1
  {
  }

  /** The name that was found is recognised, whatever was taken. */
  lemma FoundIsRecognised(site: string, taken: set<string>, n: nat)
    requires n >= 1 && Free(site, taken, n)
    ensures IsWebsiteAppNameOf(NumberedSiteName(site, n), site)
  {
    if n >= 2 { NumberIsRead(site, n); }
  }

  /** `n` is where the search for a free name of `site` stops. */
  ghost predicate Found(site: string, taken: set<string>, n: nat) {
    n >= 1 && Free(site, taken, n) && NoneFree(site, taken, n)
  }

  /** The first number that gives `name`. */
  lemma {:induction false} FirstOf(site: string, name: string, n: nat) returns (m: nat)
    requires n >= 1 && NumberedSiteName(site, n) == name
    ensures 1 <= m <= n && NumberedSiteName(site, m) == name
    ensures forall k :: 1 <= k < m ==> NumberedSiteName(site, k) != name
  {
    if k :| 1 <= k < n && NumberedSiteName(site, k) == name {
      m := FirstOf(site, name, k);
    } else {
      m := n;
    }
  }

  /** And nothing else is: every name that is recognised is the one the search gives for some taken names. */
  lemma RecognisedIsFound(name: string, site: string) returns (taken: set<string>, m: nat)
    requires IsWebsiteAppNameOf(name, site)
    ensures Found(site, taken, m) && NumberedSiteName(site, m) == name
  {
    var n := if name == NumberedSiteName(site, 1) then 1 else NumberIn(name);
    ReadsPositive(name);
    m := FirstOf(site, name, n);
    taken := set k | 1 <= k < m :: NumberedSiteName(site, k);
  }

  lemma ReadsPositive(name: string)
    ensures NumberIn(name) >= 1
  {
    var k := TrailingDigits(name);
    var d := name[|name| - k..];
    if NumberIn(name) != 1 { FirstDigitCounts(d); }
  }
}
