/** shared/release.ts: the release-tag grammar, and the choice of the next version. */
module Release {
  import opened Common
  import opened Text
  import opened Calendar

  datatype Channel = Alpha | Beta | Stable

  datatype ParsedRelease = ParsedRelease(version: string, channel: Channel, ts14: string)

  function ChannelName(c: Channel): string {
    match c
    case Alpha => "alpha"
    case Beta => "beta"
    case Stable => "stable"
  }

  function ChannelOf(s: string): (c: Option<Channel>)
    ensures c.Some? ==> ChannelName(c.value) == s
  {
    if s == "alpha" then Some(Alpha) else if s == "beta" then Some(Beta) else if s == "stable" then Some(Stable) else None
  }

  /** 0|[1-9][0-9]* */
  predicate IsNumeral(s: string) { s != [] && AllDigits(s) && (s[0] == '0' ==> |s| == 1) }

  /** The third position: three digits, or a number without leading zeros. */
  predicate IsPatch(s: string) { (|s| == 3 && AllDigits(s)) || IsNumeral(s) }

  /** RELEASE_VERSION_RE */
  predicate IsVersion(s: string) {
    var f := Split(s, '.');
    |f| == 3 && IsNumeral(f[0]) && IsNumeral(f[1]) && IsPatch(f[2])
  }

  /** `parseReleaseTag`: neither a version nor a stamp carries a dash, so the tag is its three fields. */
  function ParseReleaseTag(tag: string): Option<ParsedRelease> {
    var f := Split(tag, '-');
    if |f| == 3 && IsVersion(f[0]) && ChannelOf(f[1]).Some? && IsTs14(f[2]) then Some(ParsedRelease(f[0], ChannelOf(f[1]).value, f[2])) else None
  }

  function TagOf(version: string, channel: Channel, ts14: string): string {
    version + "-" + ChannelName(channel) + "-" + ts14
  }

  /** `composeReleaseTag` with the stamp of its moment; refused when the grammar does not match. */
  function ComposeReleaseTag(version: string, channel: Channel, ts14: string): Option<string> {
    var tag := TagOf(version, channel, ts14);
    if ParseReleaseTag(tag).Some? then Some(tag) else None
  }

  // ---------------------------------------------------------------- the grammar is read one way

  lemma VersionIsPlain(v: string)
    requires IsVersion(v)
    ensures forall i :: 0 <= i < |v| ==> IsDigit(v[i]) || v[i] == '.'
  {
    var f := Split(v, '.');
    SplitThree(v, '.');
    forall i | 0 <= i < |v| ensures IsDigit(v[i]) || v[i] == '.' {
      if i < |f[0]| { assert v[i] == f[0][i]; }
      else if |f[0]| < i < |f[0]| + 1 + |f[1]| { assert v[i] == f[1][i - |f[0]| - 1]; }
      else if i > |f[0]| + 1 + |f[1]| { assert v[i] == f[2][i - |f[0]| - |f[1]| - 2]; }
    }
  }

  lemma ThreeFields(a: string, b: string, c: string, d: char)
    requires d !in a && d !in b && d !in c
    ensures Split(a + [d] + b + [d] + c, d) == [a, b, c]
  {
    SplitNone(c, d);
    SplitFront(b, d, c);
    SplitFront(a, d, b + [d] + c);
    assert a + [d] + b + [d] + c == a + [d] + (b + [d] + c);
  }

  /** What is composed is parsed back into its parts. */
  lemma ComposedIsParsed(version: string, channel: Channel, ts14: string)
    requires IsVersion(version) && IsTs14(ts14)
    ensures ComposeReleaseTag(version, channel, ts14) == Some(TagOf(version, channel, ts14))
    ensures ParseReleaseTag(TagOf(version, channel, ts14)) == Some(ParsedRelease(version, channel, ts14))
  {
    VersionIsPlain(version);
    ThreeFields(version, ChannelName(channel), ts14, '-');
  }

  /** A tag that is parsed is the one its parts compose: no two parts give one tag, no tag two parts. */
  lemma ParsedIsComposed(tag: string)
    requires ParseReleaseTag(tag).Some?
    ensures var r := ParseReleaseTag(tag).value; TagOf(r.version, r.channel, r.ts14) == tag && IsVersion(r.version) && IsTs14(r.ts14)
  {
    SplitThree(tag, '-');
  }

  lemma DecimalIsNumeral(n: nat)
    ensures IsNumeral(Decimal(n))
  {
    DecimalReads(n);
  }

  /** A number is written without leading zeros. */
  lemma NumeralIff(s: string)
    ensures IsNumeral(s) <==> exists n :: s == Decimal(n)
  {
    if IsNumeral(s) { DecimalOf(s); }
    if n :| s == Decimal(n) { DecimalIsNumeral(n); }
  }

  /** `x.y.z`: two numbers and a third position that is a number or has three digits. */
  ghost predicate IsVersionText(v: string) { exists major, minor, patch :: IsTextOf(v, major, minor, patch) }

  ghost predicate IsTextOf(v: string, major: nat, minor: nat, patch: string) {
    v == Decimal(major) + "." + Decimal(minor) + "." + patch && IsPatchText(patch)
  }

  ghost predicate IsPatchText(s: string) { IsThreeDigits(s) || exists n :: s == Decimal(n) }

  ghost predicate IsThreeDigits(s: string) { |s| == 3 && forall c :: c in s ==> c in "0123456789" }

  lemma ThreeDigitsIff(s: string)
    ensures IsThreeDigits(s) <==> |s| == 3 && AllDigits(s)
  {
    if |s| == 3 && AllDigits(s) {
      forall c | c in s ensures c in "0123456789" { DigitIs(c); }
    }
    if IsThreeDigits(s) {
      forall i | 0 <= i < 3 ensures IsDigit(s[i]) { assert s[i] in s; DigitIs(s[i]); }
    }
  }

  lemma VersionIff(v: string)
    ensures IsVersion(v) <==> IsVersionText(v)
  {
    if IsVersion(v) {
      SplitThree(v, '.');
      var f := Split(v, '.');
      NumeralIff(f[0]);
      NumeralIff(f[1]);
      NumeralIff(f[2]);
      ThreeDigitsIff(f[2]);
      DecimalOf(f[0]);
      DecimalOf(f[1]);
      assert IsTextOf(v, Value(f[0]), Value(f[1]), f[2]);
    }
    if IsVersionText(v) { VersionTextIsRead(v); }
  }

  lemma PatchIsRead(patch: string)
    requires IsPatchText(patch)
    ensures IsPatch(patch)
  {
    ThreeDigitsIff(patch);
    if !IsThreeDigits(patch) {
      var n :| patch == Decimal(n);
      DecimalIsNumeral(n);
    }
  }

  lemma FieldsAreRead(major: string, minor: string, patch: string)
    requires IsNumeral(major) && IsNumeral(minor) && IsPatch(patch)
    ensures IsVersion(major + "." + minor + "." + patch)
  {
    ThreeFields(major, minor, patch, '.');
  }

  lemma VersionTextIsRead(v: string)
    requires IsVersionText(v)
    ensures IsVersion(v)
  {
    hide Decimal, IsNumeral;
    var major, minor, patch :| IsTextOf(v, major, minor, patch);
    DecimalIsNumeral(major);
    DecimalIsNumeral(minor);
    PatchIsRead(patch);
    FieldsAreRead(Decimal(major), Decimal(minor), patch);
  }

  /** The text of a release: its version, one of the three channels, and fourteen digits. */
  ghost predicate IsReleaseText(tag: string, version: string, channel: string, ts14: string) {
    && tag == version + "-" + channel + "-" + ts14
    && IsVersionText(version) && channel in ["alpha", "beta", "stable"]
    && |ts14| == 14 && forall c :: c in ts14 ==> c in "0123456789"
  }

  lemma Ts14Iff(s: string)
    ensures IsTs14(s) <==> |s| == 14 && forall c :: c in s ==> c in "0123456789"
  {
    if IsTs14(s) {
      forall c | c in s ensures c in "0123456789" { DigitIs(c); }
    }
    if |s| == 14 && forall c :: c in s ==> c in "0123456789" {
      forall i | 0 <= i < 14 ensures IsDigit(s[i]) { assert s[i] in s; DigitIs(s[i]); }
    }
  }

  /** A tag is parsed into exactly the parts it is the text of. */
  lemma ParseIff(tag: string, version: string, channel: Channel, ts14: string)
    ensures ParseReleaseTag(tag) == Some(ParsedRelease(version, channel, ts14))
      <==> IsReleaseText(tag, version, match channel case Alpha => "alpha" case Beta => "beta" case Stable => "stable", ts14)
  {
    VersionIff(version);
    Ts14Iff(ts14);
    if ParseReleaseTag(tag) == Some(ParsedRelease(version, channel, ts14)) { ParsedIsComposed(tag); }
    if IsVersion(version) && IsTs14(ts14) { ComposedIsParsed(version, channel, ts14); }
  }

  // ---------------------------------------------------------------- the next version

  datatype Triple = Triple(major: nat, minor: nat, patch: nat)

  function TripleOf(version: string): Triple
    requires IsVersion(version)
  {
    var f := Split(version, '.');
    Triple(Value(f[0]), Value(f[1]), Value(f[2]))
  }

  predicate Higher(a: Triple, b: Triple) {
    a.major > b.major || (a.major == b.major && (a.minor > b.minor || (a.minor == b.minor && a.patch > b.patch)))
  }

  ghost predicate VersionIs(tag: string, t: Triple) {
    ParseReleaseTag(tag).Some? && TripleOf(ParseReleaseTag(tag).value.version) == t
  }

  /** The versions among the tags that are releases. */
  ghost predicate IsReleased(tags: seq<string>, t: Triple) {
    exists tag :: tag in tags && VersionIs(tag, t)
  }

  /** `best` is the highest version released, none where none is. */
  ghost predicate IsBest(tags: seq<string>, best: Option<Triple>) {
    && (best.None? ==> forall t :: !IsReleased(tags, t))
    && (best.Some? ==> IsReleased(tags, best.value) && forall t :: IsReleased(tags, t) ==> !Higher(t, best.value))
  }

  function NextBest(best: Option<Triple>, tag: string): Option<Triple> {
    var parsed := ParseReleaseTag(tag);
    if parsed.None? then best
    else
      var t := TripleOf(parsed.value.version);
      if best.None? || Higher(t, best.value) then Some(t) else best
  }

  lemma BestNext(before: seq<string>, tag: string, best: Option<Triple>)
    requires IsBest(before, best)
    ensures IsBest(before + [tag], NextBest(best, tag))
  {
    OneMoreTag(before, tag);
    if ParseReleaseTag(tag).Some? { assert VersionIs(tag, TripleOf(ParseReleaseTag(tag).value.version)); }
  }

  /** `padStart(3, "0")` of a number below a thousand. */
  function Padded(n: nat): (s: string)
    requires n < 1000
  {
    [DigitChar(n / 100), DigitChar(n / 10 % 10), DigitChar(n % 10)]
  }

  function DigitChar(d: nat): (c: char)
    requires d < 10
    ensures IsDigit(c) && Digit(c) == d
  {
    '0' + d as char
  }

  lemma PaddedReads(n: nat)
    requires n < 1000
    ensures |Padded(n)| == 3 && AllDigits(Padded(n)) && Value(Padded(n)) == n
  {
    var s := Padded(n);
    assert s[..2] == [s[0], s[1]] && [s[0], s[1]][..1] == [s[0]] && [s[0]][..0] == [];
    assert Value([s[0]]) == n / 100;
    assert Value([s[0], s[1]]) == 10 * (n / 100) + n / 10 % 10;
    assert Value(s) == 10 * Value(s[..2]) + n % 10;
  }

  function VersionText(t: Triple): string
    requires t.patch < 1000
  {
    Decimal(t.major) + "." + Decimal(t.minor) + "." + Padded(t.patch)
  }

  lemma VersionTextReads(t: Triple)
    requires t.patch < 1000
    ensures IsVersion(VersionText(t)) && TripleOf(VersionText(t)) == t && |Split(VersionText(t), '.')[2]| == 3
  {
    PaddedReads(t.patch);
    DecimalReads(t.major);
    DecimalReads(t.minor);
    ThreeFields(Decimal(t.major), Decimal(t.minor), Padded(t.patch), '.');
  }

  /** The three numbers are the ones written. */
  lemma TripleIs(t: Triple)
    ensures var v := Decimal(t.major) + "." + Decimal(t.minor) + "." + Decimal(t.patch);
      IsVersion(v) && TripleOf(v) == t
  {
    DecimalReads(t.major);
    DecimalReads(t.minor);
    DecimalReads(t.patch);
    ThreeFields(Decimal(t.major), Decimal(t.minor), Decimal(t.patch), '.');
  }

  /** What the next version is to the highest released one: `first` where nothing was released, else one
      patch above it, above every version there is and in the grammar, with three digits of patch; none exactly
      when the patch would need a fourth. */
  ghost predicate Follows(tags: seq<string>, best: Option<Triple>, first: string, next: Option<string>) {
    match best
    case None => next == Some(first)
    case Some(b) =>
      && (next.None? <==> b.patch >= 999)
      && (next.Some? ==>
        && IsVersion(next.value) && TripleOf(next.value) == b.(patch := b.patch + 1)
        && |Split(next.value, '.')[2]| == 3
        && forall t :: IsReleased(tags, t) ==> Higher(TripleOf(next.value), t))
  }

  method NextReleaseVersion(tags: seq<string>, first: string) returns (next: Option<string>)
    ensures exists best :: IsBest(tags, best) && Follows(tags, best, first, next)
  {
    var best: Option<Triple> := None;
    for i := 0 to |tags|
      invariant IsBest(tags[..i], best)
    {
      BestNext(tags[..i], tags[i], best);
      TakeNext(tags, i);
      var parsed := ParseReleaseTag(tags[i]);
      if parsed.Some? {
        var t := TripleOf(parsed.value.version);
        if best.None? || Higher(t, best.value) {
          best := Some(t);
        }
      }
    }
    TakeAll(tags);
    if best.None? {
      next := Some(first);
    } else if best.value.patch >= 999 {
      next := None;
    } else {
      var t := best.value.(patch := best.value.patch + 1);
      VersionTextReads(t);
      next := Some(VersionText(t));
    }
    assert Follows(tags, best, first, next);
  }

  /** There is one highest version, so one next version. */
  lemma BestIsUnique(tags: seq<string>, a: Option<Triple>, b: Option<Triple>)
    requires IsBest(tags, a) && IsBest(tags, b)
    ensures a == b
  {
    if a.Some? && b.Some? { assert IsReleased(tags, a.value) && IsReleased(tags, b.value); }
  }

  lemma OneMoreTag(before: seq<string>, tag: string)
    ensures forall t :: IsReleased(before + [tag], t) <==> IsReleased(before, t) || VersionIs(tag, t)
  {
    var tags := before + [tag];
    assert tags[|before|] == tag;
    forall t | IsReleased(before, t) ensures IsReleased(tags, t) {
      var x :| x in before && VersionIs(x, t);
      assert x in tags;
    }
  }
}
