/** server/security/redact.ts: the registry of secrets and the pass that masks them. A pass over the text
    replaces, from the left, every place a matcher matches at; a registered secret is such a matcher, and so
    is each of the generic patterns. */
module Redaction {
  import opened Common
  import opened Text

  const DOT := '\U{2022}'
  const MASK: string := [DOT, DOT, DOT]

  ghost predicate OccursAt(u: string, t: string, k: nat) { k <= |t| && u <= t[k..] }

  ghost predicate Occurs(u: string, t: string) { exists k: nat :: OccursAt(u, t, k) }

  /** A matcher says how many characters it matches at the start of a text; 0 is no match. */
  type Matcher = string -> nat

  /** `out.split(secret).join(MASK)`, `out.replace(re, MASK)`: the leftmost match is masked, and the search
      goes on behind it. */
  function Sweep(t: string, m: Matcher): string
    decreases |t|
  {
    if t == [] then []
    else if 0 < m(t) <= |t| then MASK + Sweep(t[m(t)..], m)
    else [t[0]] + Sweep(t[1..], m)
  }

  predicate Matches(m: Matcher, t: string) { 0 < m(t) <= |t| }

  lemma SweepMasks(t: string, m: Matcher)
    requires Matches(m, t)
    ensures Sweep(t, m) == MASK + Sweep(t[m(t)..], m)
  {
  }

  lemma SweepPasses(t: string, m: Matcher)
    requires t != [] && !Matches(m, t)
    ensures Sweep(t, m) == [t[0]] + Sweep(t[1..], m)
  {
  }

  /** Where a registered secret matches. */
  function Literal(secret: string): Matcher { (t: string) => if secret <= t then |secret| else 0 }

  // ---------------------------------------------------------------- the generic patterns

  predicate IsAlnum(c: char) { IsDigit(c) || IsUpper(c) || IsLower(c) }

  /** How many characters of a class stand at the start of `t`. */
  function Run(t: string, of: char -> bool): (n: nat)
    ensures n <= |t| && forall i :: 0 <= i < n ==> of(t[i])
    ensures n < |t| ==> !of(t[n])
  {
    if t == [] || !of(t[0]) then 0 else 1 + Run(t[1..], of)
  }

  /** At least twenty characters of a class behind a fixed start. */
  function Token(t: string, start: nat, of: char -> bool): nat
    requires start <= |t|
  {
    if Run(t[start..], of) >= 20 then start + Run(t[start..], of) else 0
  }

  /** gh[pousr]_[A-Za-z0-9]{20,} */
  function GithubToken(t: string): nat {
    if |t| >= 4 && t[..2] == "gh" && t[2] in "pousr" && t[3] == '_' then Token(t, 4, (c: char) => IsAlnum(c)) else 0
  }

  /** github_pat_[A-Za-z0-9_]{20,} */
  function GithubPat(t: string): nat {
    if "github_pat_" <= t then Token(t, 11, (c: char) => IsAlnum(c) || c == '_') else 0
  }

  /** One line of a key's frame, from `mark` to its closing dashes: the words before PRIVATE KEY are capitals,
      digits and blanks, so the run of those ends with PRIVATE KEY and the dashes follow. */
  function FrameLine(t: string, mark: string): (n: nat)
    ensures n <= |t|
  {
    if !(mark <= t) then 0 else
      var n := |mark| + Run(t[|mark|..], (c: char) => IsUpper(c) || IsDigit(c) || c == ' ');
      if n >= |mark| + 11 && t[n - 11..n] == "PRIVATE KEY" && "-----" <= t[n..] then n + 5 else 0
  }

  const BEGIN := "-----BEGIN "
  const END := "-----END "

  /** The end of the first closing frame line in `t`, 0 if there is none. */
  function FirstEnd(t: string): (n: nat)
    ensures n <= |t|
    decreases |t|
  {
    if t == [] then 0
    else if FrameLine(t, END) > 0 then FrameLine(t, END)
    else if FirstEnd(t[1..]) > 0 then 1 + FirstEnd(t[1..])
    else 0
  }

  function PrivateKey(t: string): nat {
    var head := FrameLine(t, BEGIN);
    if head > 0 && FirstEnd(t[head..]) > 0 then head + FirstEnd(t[head..]) else 0
  }

  const PATTERNS: seq<Matcher> := [PrivateKey, GithubToken, GithubPat]

  // ---------------------------------------------------------------- no pass re-creates anything

  /** A text no mask can become part of: it neither begins nor ends with the mask character, and holds no
      whole mask. Every text without the mask character is one. */
  ghost predicate IsClean(u: string) { u != [] && u[0] != DOT && u[|u| - 1] != DOT && !Occurs(MASK, u) }

  /** The rest of a clean text. */
  ghost predicate IsTail(u: string) { (u != [] ==> u[|u| - 1] != DOT) && !Occurs(MASK, u) }

  lemma TailOfTail(u: string)
    requires IsTail(u) && u != []
    ensures IsTail(u[1..])
  {
    if Occurs(MASK, u[1..]) { OccursLater(MASK, u, 1); }
  }

  lemma OccursLater(u: string, t: string, n: nat)
    requires n <= |t| && Occurs(u, t[n..])
    ensures Occurs(u, t)
  {
    var k: nat :| OccursAt(u, t[n..], k);
    assert t[n..][k..] == t[n + k..];
    assert OccursAt(u, t, n + k);
  }

  /** Where a text occurs, its characters stand. */
  lemma CharAt(u: string, t: string, k: nat, i: nat)
    requires OccursAt(u, t, k) && i < |u|
    ensures k + i < |t| && t[k + i] == u[i]
  {
    assert t[k..][i] == u[i];
  }

  lemma OccursHas(u: string, t: string, i: nat)
    requires Occurs(u, t) && i < |u|
    ensures u[i] in t
  {
    var k: nat :| OccursAt(u, t, k);
    CharAt(u, t, k, i);
  }

  lemma StartOccurs(u: string, t: string)
    requires u <= t
    ensures Occurs(u, t)
  {
    assert t[0..] == t;
    assert OccursAt(u, t, 0);
  }

  lemma PlainIsClean(u: string)
    requires u != [] && DOT !in u
    ensures IsClean(u)
  {
    assert MASK[0] == DOT;
    if Occurs(MASK, u) { OccursHas(MASK, u, 0); }
  }

  /** What starts with a mask, or with a part of one, is not the rest of a clean text. */
  lemma MaskAhead(rest: string, u: string)
    requires u <= MASK + rest && u != []
    ensures !IsTail(u)
  {
    var out := MASK + rest;
    assert forall i :: 0 <= i < |u| && i < 3 ==> u[i] == out[i] == DOT;
    if |u| >= 3 {
      assert MASK == u[..3];
      StartOccurs(MASK, u);
    }
  }

  /** Where the text is masked at its start, the rest of a clean text does not start. */
  lemma NotMasked(t: string, m: Matcher, u: string)
    requires u <= Sweep(t, m) && IsTail(u) && u != [] && t != []
    ensures !(0 < m(t) <= |t|)
  {
    if 0 < m(t) <= |t| { MaskAhead(Sweep(t[m(t)..], m), u); }
  }

  /** The rest of a clean text that starts the swept text started the text itself. */
  lemma {:induction false} StartStood(t: string, m: Matcher, u: string)
    requires u <= Sweep(t, m) && IsTail(u)
    ensures u <= t
    decreases |t|
  {
    if u != [] && t != [] {
      NotMasked(t, m, u);
      TailOfTail(u);
      assert u[1..] <= Sweep(t[1..], m);
      StartStood(t[1..], m, u[1..]);
    }
  }

  /** `u` stands at `i` in the text, and the matcher does not match there. */
  ghost predicate StoodUnmatched(t: string, m: Matcher, u: string, i: nat) {
    OccursAt(u, t, i) && !(0 < m(t[i..]) <= |t[i..]|)
  }

  lemma StoodLater(t: string, m: Matcher, u: string, n: nat, i: nat)
    requires n <= |t| && StoodUnmatched(t[n..], m, u, i)
    ensures StoodUnmatched(t, m, u, n + i)
  {
    assert t[n..][i..] == t[n + i..];
  }

  lemma BehindMask(rest: string, u: string, k: nat)
    requires OccursAt(u, MASK + rest, k) && u != [] && u[0] != DOT
    ensures k >= 3 && OccursAt(u, rest, k - 3)
  {
    var out := MASK + rest;
    assert out[k..][0] == out[k] == u[0];
    assert out[0] == DOT && out[1] == DOT && out[2] == DOT;
    assert k >= 3;
    assert out[k..] == rest[k - 3..];
  }

  /** A clean text anywhere in the swept text stood in the text, at a place where nothing was matched. */
  lemma {:induction false} OccurrenceStood(t: string, m: Matcher, u: string, k: nat)
    requires OccursAt(u, Sweep(t, m), k) && IsClean(u)
    ensures exists i: nat :: StoodUnmatched(t, m, u, i)
    decreases |t|
  {
    hide OccursAt, Occurs, IsClean, StoodUnmatched, Sweep;
    CleanBegins(u);
    NotAtEnd(t, m, u, k);
    if Matches(m, t) {
      var n := m(t);
      SweepMasks(t, m);
      BehindMask(Sweep(t[n..], m), u, k);
      OccurrenceStood(t[n..], m, u, k - 3);
      var i: nat :| StoodUnmatched(t[n..], m, u, i);
      StoodLater(t, m, u, n, i);
    } else if k == 0 {
      StoodHere(t, m, u);
    } else {
      SweepPasses(t, m);
      OccursBehind(t, Sweep(t[1..], m), u, k);
      OccurrenceStood(t[1..], m, u, k - 1);
      var i: nat :| StoodUnmatched(t[1..], m, u, i);
      StoodLater(t, m, u, 1, i);
    }
  }

  lemma StoodHere(t: string, m: Matcher, u: string)
    requires OccursAt(u, Sweep(t, m), 0) && IsClean(u) && !Matches(m, t)
    ensures StoodUnmatched(t, m, u, 0)
  {
    OccursAtStart(u, Sweep(t, m));
    StartStood(t, m, u);
    OccursAtStart(u, t);
    assert t[0..] == t;
  }

  /** What a matcher matches wherever it stands. */
  ghost predicate AlwaysMatched(m: Matcher, u: string) {
    forall t :: u <= t ==> 0 < m(t) <= |t|
  }

  /** A pass leaves nothing its matcher always matches, and brings back nothing that was gone. */
  lemma LeftBySweep(t: string, m: Matcher, u: string)
    requires IsClean(u) && Occurs(u, Sweep(t, m))
    ensures Occurs(u, t) && !AlwaysMatched(m, u)
  {
    var k: nat :| OccursAt(u, Sweep(t, m), k);
    OccurrenceStood(t, m, u, k);
    var i: nat :| StoodUnmatched(t, m, u, i);
    assert OccursAt(u, t, i) && u <= t[i..];
  }

  /** All passes, in the order of the list. */
  function SweepAll(t: string, ms: seq<Matcher>): string
    decreases |ms|
  {
    if ms == [] then t else SweepAll(Sweep(t, ms[0]), ms[1..])
  }

  /** Whatever the order of the passes, nothing that one of them always matches is left at the end. */
  lemma {:induction false} NothingLeft(t: string, ms: seq<Matcher>, u: string)
    requires IsClean(u)
    requires !Occurs(u, t) || exists m :: m in ms && AlwaysMatched(m, u)
    ensures !Occurs(u, SweepAll(t, ms))
    decreases |ms|
  {
    if ms != [] {
      if Occurs(u, Sweep(t, ms[0])) {
        LeftBySweep(t, ms[0], u);
        var m :| m in ms && AlwaysMatched(m, u);
        assert m in ms[1..];
      }
      NothingLeft(Sweep(t, ms[0]), ms[1..], u);
    }
  }

  lemma {:induction false} SweepNext(t: string, ms: seq<Matcher>, i: nat)
    requires i < |ms|
    ensures SweepAll(t, ms[..i + 1]) == Sweep(SweepAll(t, ms[..i]), ms[i])
    decreases i
  {
    if i > 0 {
      assert ms[..i + 1][1..] == ms[1..][..i] && ms[..i][1..] == ms[1..][..i - 1];
      SweepNext(Sweep(t, ms[0]), ms[1..], i - 1);
    }
  }

  // ---------------------------------------------------------------- what a token is

  /** The shortest thing the first GitHub pattern matches. */
  ghost predicate IsGithubToken(u: string) {
    |u| == 24 && u[..2] == "gh" && u[2] in "pousr" && u[3] == '_' && forall i :: 4 <= i < 24 ==> IsAlnum(u[i])
  }

  ghost predicate IsGithubPat(u: string) {
    |u| == 31 && u[..11] == "github_pat_" && forall i :: 11 <= i < 31 ==> IsAlnum(u[i]) || u[i] == '_'
  }

  lemma {:induction false} RunIsLong(t: string, of: char -> bool, n: nat)
    requires n <= |t| && forall i :: 0 <= i < n ==> of(t[i])
    ensures Run(t, of) >= n
  {
    if n > 0 { RunIsLong(t[1..], of, n - 1); }
  }

  lemma TokenIsMatched(u: string)
    requires IsGithubToken(u)
    ensures AlwaysMatched(GithubToken, u) && DOT !in u
  {
    forall t: string | u <= t ensures 0 < GithubToken(t) <= |t| {
      assert forall i :: 0 <= i < 24 ==> t[i] == u[i];
      assert t[..2] == u[..2];
      RunIsLong(t[4..], (c: char) => IsAlnum(c), 20);
    }
    forall i | 0 <= i < |u| ensures u[i] != DOT { assert i < 2 ==> u[i] == u[..2][i]; }
  }

  lemma PatIsMatched(u: string)
    requires IsGithubPat(u)
    ensures AlwaysMatched(GithubPat, u) && DOT !in u
  {
    forall t: string | u <= t ensures 0 < GithubPat(t) <= |t| {
      assert forall i :: 0 <= i < 31 ==> t[i] == u[i];
      assert t[..11] == u[..11];
      RunIsLong(t[11..], (c: char) => IsAlnum(c) || c == '_', 20);
    }
    forall i | 0 <= i < |u| ensures u[i] != DOT { assert i < 11 ==> u[i] == u[..11][i]; }
  }

  // ---------------------------------------------------------------- what a key block is

  ghost predicate IsFrame(u: string, mark: string) { FrameLine(u, mark) == |u| > 0 }

  /** An opening line at `i`, and a closing line somewhere behind it. */
  ghost predicate BlockAt(t: string, u: string, v: string, i: nat, j: nat) {
    IsFrame(u, BEGIN) && IsFrame(v, END) && OccursAt(u, t, i) && OccursAt(v, t, j) && i + |u| <= j
  }

  ghost predicate HasBlock(t: string) { exists u, v, i: nat, j: nat :: BlockAt(t, u, v, i, j) }

  lemma FrameIsPlain(u: string, mark: string)
    requires IsFrame(u, mark) && DOT !in mark
    ensures DOT !in u
  {
    var n := |mark| + Run(u[|mark|..], (c: char) => IsUpper(c) || IsDigit(c) || c == ' ');
    assert "-----" == u[n..];
    forall i | 0 <= i < |u| ensures u[i] != DOT {
      if i < |mark| { assert u[i] == mark[i] && mark[i] in mark; }
      else if i < n { assert u[i] == u[|mark|..][i - |mark|]; }
      else { assert u[i] == u[n..][i - n]; }
    }
  }

  lemma {:induction false} RunIs(t: string, of: char -> bool, n: nat)
    requires n < |t| && (forall i :: 0 <= i < n ==> of(t[i])) && !of(t[n])
    ensures Run(t, of) == n
  {
    if n > 0 { RunIs(t[1..], of, n - 1); }
  }

  /** A frame line stays one whatever follows it. */
  lemma FrameExtends(u: string, t: string, mark: string)
    requires IsFrame(u, mark) && u <= t
    ensures FrameLine(t, mark) == |u|
  {
    var of := (c: char) => IsUpper(c) || IsDigit(c) || c == ' ';
    var m := Run(u[|mark|..], of);
    var n := |mark| + m;
    assert u[n..] == "-----" && u[n] == u[n..][0];
    forall i | 0 <= i <= m ensures t[|mark|..][i] == u[|mark|..][i] { }
    RunIs(t[|mark|..], of, m);
    assert t[n - 11..n] == u[n - 11..n];
    assert u[n..] <= t[n..];
  }

  lemma {:induction false} FirstEndFinds(t: string, j: nat)
    requires j < |t| && FrameLine(t[j..], END) > 0
    ensures FirstEnd(t) > 0
    decreases j
  {
    if j == 0 {
      assert t[0..] == t;
    } else {
      assert t[1..][j - 1..] == t[j..];
      FirstEndFinds(t[1..], j - 1);
    }
  }

  /** A block is matched where it begins. */
  lemma BlockIsMatched(t: string, u: string, v: string, i: nat, j: nat)
    requires BlockAt(t, u, v, i, j)
    ensures 0 < PrivateKey(t[i..]) <= |t[i..]|
  {
    var s, d := t[i..], j - i - |u|;
    FrameExtends(u, s, BEGIN);
    assert s[|u|..][d..] == t[j..];
    TailIsFound(s[|u|..], v, d);
  }

  lemma TailIsFound(t: string, v: string, d: nat)
    requires IsFrame(v, END) && OccursAt(v, t, d)
    ensures FirstEnd(t) > 0
  {
    FrameExtends(v, t[d..], END);
    FirstEndFinds(t, d);
  }

  /** What the swept text starts with, if it is the rest of a clean text, was passed over as it stood. */
  lemma {:induction false} StartPassed(t: string, m: Matcher, u: string)
    requires u <= Sweep(t, m) && IsTail(u)
    ensures u <= t && Sweep(t, m) == u + Sweep(t[|u|..], m)
    decreases |t|
  {
    if u != [] && t != [] {
      NotMasked(t, m, u);
      TailOfTail(u);
      assert u[1..] <= Sweep(t[1..], m);
      StartPassed(t[1..], m, u[1..]);
      assert t[1..][|u| - 1..] == t[|u|..] && u == [u[0]] + u[1..];
      Assoc([u[0]], u[1..], Sweep(t[|u|..], m));
    } else {
      assert t[|u|..] == t;
    }
  }

  /** A text that starts the swept text, and another behind it. */
  lemma NextStood(t: string, m: Matcher, u: string, v: string, l: nat) returns (j: nat)
    requires OccursAt(u, Sweep(t, m), 0) && OccursAt(v, Sweep(t, m), l) && |u| <= l
    requires IsClean(u) && IsClean(v) && !(0 < m(t) <= |t|)
    ensures StoodUnmatched(t, m, u, 0) && OccursAt(v, t, j) && |u| <= j
  {
    OccursAtStart(u, Sweep(t, m));
    StartPassed(t, m, u);
    assert t[0..] == t;
    var rest := Sweep(t[|u|..], m);
    assert Sweep(t, m)[l..] == rest[l - |u|..];
    OccurrenceStood(t[|u|..], m, v, l - |u|);
    var at: nat :| StoodUnmatched(t[|u|..], m, v, at);
    assert t[|u|..][at..] == t[|u| + at..];
    j := |u| + at;
  }

  lemma CleanBegins(u: string)
    requires IsClean(u)
    ensures u != [] && u[0] != DOT
  {
  }

  /** An occurrence behind a character that was passed over. */
  lemma OccursBehind(t: string, rest: string, u: string, k: nat)
    requires t != [] && OccursAt(u, [t[0]] + rest, k) && k > 0
    ensures OccursAt(u, rest, k - 1)
  {
    assert ([t[0]] + rest)[k..] == rest[k - 1..];
  }

  /** Two such texts in the swept text, one behind the other, stood so in the text. */
  lemma {:induction false} PairStood(t: string, m: Matcher, u: string, v: string, k: nat, l: nat) returns (i: nat, j: nat)
    requires OccursAt(u, Sweep(t, m), k) && OccursAt(v, Sweep(t, m), l) && k + |u| <= l
    requires IsClean(u) && IsClean(v)
    ensures StoodUnmatched(t, m, u, i) && OccursAt(v, t, j) && i + |u| <= j
    decreases |t|
  {
    hide OccursAt, Occurs, IsClean, StoodUnmatched, Sweep;
    CleanBegins(u);
    CleanBegins(v);
    NotAtEnd(t, m, u, k);
    if Matches(m, t) {
      var n := m(t);
      SweepMasks(t, m);
      BehindMask(Sweep(t[n..], m), u, k);
      BehindMask(Sweep(t[n..], m), v, l);
      i, j := PairStood(t[n..], m, u, v, k - 3, l - 3);
      PairLater(t, m, u, v, n, i, j);
      i, j := n + i, n + j;
    } else if k == 0 {
      i := 0;
      j := NextStood(t, m, u, v, l);
    } else {
      SweepPasses(t, m);
      OccursBehind(t, Sweep(t[1..], m), u, k);
      OccursBehind(t, Sweep(t[1..], m), v, l);
      i, j := PairStood(t[1..], m, u, v, k - 1, l - 1);
      PairLater(t, m, u, v, 1, i, j);
      i, j := 1 + i, 1 + j;
    }
  }

  lemma NotAtEnd(t: string, m: Matcher, u: string, k: nat)
    requires OccursAt(u, Sweep(t, m), k) && u != []
    ensures t != []
  {
  }

  lemma PairLater(t: string, m: Matcher, u: string, v: string, n: nat, i: nat, j: nat)
    requires n <= |t| && StoodUnmatched(t[n..], m, u, i) && OccursAt(v, t[n..], j)
    ensures StoodUnmatched(t, m, u, n + i) && OccursAt(v, t, n + j)
  {
    StoodLater(t, m, u, n, i);
    assert t[n..][j..] == t[n + j..];
  }

  /** No pass writes a key block, and the pass for them leaves none. */
  lemma BlockLeftBySweep(t: string, m: Matcher)
    requires HasBlock(Sweep(t, m))
    ensures HasBlock(t) && m != PrivateKey
  {
    hide FrameLine, PrivateKey, Occurs, IsClean;
    var u, v, k: nat, l: nat :| BlockAt(Sweep(t, m), u, v, k, l);
    FrameIsPlain(u, BEGIN);
    FrameIsPlain(v, END);
    PlainIsClean(u);
    PlainIsClean(v);
    var i, j := PairStood(t, m, u, v, k, l);
    assert BlockAt(t, u, v, i, j);
    BlockIsMatched(t, u, v, i, j);
  }

  lemma {:induction false} NoBlockLeft(t: string, ms: seq<Matcher>)
    requires !HasBlock(t) || PrivateKey in ms
    ensures !HasBlock(SweepAll(t, ms))
    decreases |ms|
  {
    if ms != [] {
      if HasBlock(Sweep(t, ms[0])) { BlockLeftBySweep(t, ms[0]); }
      NoBlockLeft(Sweep(t, ms[0]), ms[1..]);
    }
  }

  // ---------------------------------------------------------------- the registry

  function Literals(secrets: seq<string>): (r: seq<Matcher>)
    ensures |r| == |secrets| && forall i :: 0 <= i < |r| ==> r[i] == Literal(secrets[i])
  {
    seq(|secrets|, i requires 0 <= i < |secrets| => Literal(secrets[i]))
  }

  lemma SecretIsMatched(s: string)
    requires s != []
    ensures AlwaysMatched(Literal(s), s)
  {
  }

  /** Completeness: whatever is registered, in whatever order, and whatever the text, no clean registered
      secret is left, and no GitHub token either. */
  lemma RedactionIsComplete(text: string, secrets: seq<string>, u: string)
    requires (u in secrets && IsClean(u)) || IsGithubToken(u) || IsGithubPat(u)
    ensures !Occurs(u, SweepAll(text, Literals(secrets) + PATTERNS))
  {
    hide Occurs, IsClean, AlwaysMatched;
    var ms := Literals(secrets) + PATTERNS;
    assert PATTERNS[1] == GithubToken && PATTERNS[2] == GithubPat;
    assert ms[|secrets| + 1] == GithubToken && ms[|secrets| + 2] == GithubPat;
    if IsGithubToken(u) {
      TokenIsMatched(u);
      PlainIsClean(u);
    } else if IsGithubPat(u) {
      PatIsMatched(u);
      PlainIsClean(u);
    } else {
      var i :| 0 <= i < |secrets| && secrets[i] == u;
      CleanBegins(u);
      SecretIsMatched(u);
      assert ms[i] == Literal(u);
    }
    NothingLeft(text, ms, u);
  }

  /** No private key block is left either. */
  lemma NoKeyIsLeft(text: string, secrets: seq<string>)
    ensures !HasBlock(SweepAll(text, Literals(secrets) + PATTERNS))
  {
    assert PATTERNS[0] == PrivateKey && (Literals(secrets) + PATTERNS)[|secrets|] == PrivateKey;
    NoBlockLeft(text, Literals(secrets) + PATTERNS);
  }

  // ---------------------------------------------------------------- which secrets stay out

  /** A pass whose matcher matches nowhere leaves the text alone. */
  lemma {:induction false} SweptNowhere(t: string, m: Matcher)
    requires forall k :: 0 <= k <= |t| ==> !Matches(m, t[k..])
    ensures Sweep(t, m) == t
    decreases |t|
  {
    if t != [] {
      assert t[0..] == t;
      forall k | 0 <= k <= |t[1..]| ensures !Matches(m, t[1..][k..]) { assert t[1..][k..] == t[k + 1..]; }
      SweptNowhere(t[1..], m);
    }
  }

  lemma SweptBare(t: string, x: string)
    requires !Occurs(x, t)
    ensures Sweep(t, Literal(x)) == t
  {
    forall k | 0 <= k <= |t| ensures !Matches(Literal(x), t[k..]) { assert !OccursAt(x, t, k); }
    SweptNowhere(t, Literal(x));
  }

  /** A secret that is first met behind `a`, and not again in `b`, is masked there and nowhere else. */
  lemma SweptOnce(a: string, x: string, b: string)
    requires x != [] && !Occurs(x, b) && forall k: nat :: k < |a| ==> !OccursAt(x, a + x + b, k)
    ensures Sweep(a + x + b, Literal(x)) == a + MASK + b
  {
    hide Occurs, OccursAt, Sweep;
    SecretIsMaskedWhole(a, x, b);
    SweptBare(b, x);
  }

  /** A registered secret is masked whole where it first stands, what is before it stays, and what follows is
      looked at on its own. */
  lemma {:induction false} SecretIsMaskedWhole(a: string, x: string, b: string)
    requires x != [] && forall k: nat :: k < |a| ==> !OccursAt(x, a + x + b, k)
    ensures Sweep(a + x + b, Literal(x)) == a + MASK + Sweep(b, Literal(x))
    decreases |a|
  {
    hide Occurs, OccursAt, Sweep;
    var t, rest := a + x + b, Sweep(b, Literal(x));
    if a == [] {
      assert t == x + b && t[|x|..] == b;
      SweepMasks(t, Literal(x));
    } else {
      assert t[1..] == a[1..] + x + b;
      assert !OccursAt(x, t, 0);
      OccursAtStart(x, t);
      SweepPasses(t, Literal(x));
      forall k: nat | k < |a[1..]| ensures !OccursAt(x, a[1..] + x + b, k) {
        if OccursAt(x, t[1..], k) { OccursOneOn(x, t, k); }
      }
      SecretIsMaskedWhole(a[1..], x, b);
      assert a + MASK + rest == [a[0]] + (a[1..] + MASK + rest);
    }
  }

  lemma OccursAtStart(x: string, t: string)
    ensures OccursAt(x, t, 0) <==> x <= t
  {
    assert t[0..] == t;
  }

  lemma OccursOneOn(x: string, t: string, k: nat)
    requires t != [] && OccursAt(x, t[1..], k)
    ensures OccursAt(x, t, k + 1)
  {
    assert t[1..][k..] == t[k + 1..];
  }

  function Dots(s: string): nat { multiset(s)[DOT] }

  lemma DotsAdd(a: string, b: string)
    ensures Dots(a + b) == Dots(a) + Dots(b)
  {
  }

  /** A part of a text has no more mask characters than the text. */
  lemma PartHasFewerDots(u: string, t: string)
    requires Occurs(u, t)
    ensures Dots(u) <= Dots(t)
  {
    var k: nat :| OccursAt(u, t, k);
    var rest := t[k..][|u|..];
    assert t == t[..k] + (u + rest);
    DotsAdd(u, rest);
    DotsAdd(t[..k], u + rest);
  }

  /** `n` mask characters. */
  function DotRow(n: nat): (s: string)
    ensures |s| == n && forall i :: 0 <= i < n ==> s[i] == DOT
  {
    seq(n, _ => DOT)
  }

  /** The two sides of a mask that completes `u`: with the mask between them they are `u` and nothing but mask
      characters around it, and without it they have fewer mask characters than `u`. */
  ghost predicate Completes(u: string, a: string, b: string) {
    (exists p, q :: a + MASK + b == DotRow(p) + u + DotRow(q)) && Dots(a) + Dots(b) < Dots(u) && |a| + |b| < |u|
    && (forall c :: c in a ==> c in u) && (forall c :: c in b ==> c in u)
  }

  lemma MaskCompletesStart(u: string)
    requires u != [] && u[0] == DOT
    ensures Completes(u, [], u[1..])
  {
    assert u == [DOT] + u[1..];
    DotsAdd([DOT], u[1..]);
    assert [] + MASK + u[1..] == DotRow(2) + u + DotRow(0);
  }

  lemma MaskCompletesEnd(u: string)
    requires u != [] && u[|u| - 1] == DOT
    ensures Completes(u, u[..|u| - 1], [])
  {
    var a := u[..|u| - 1];
    assert u == a + [DOT];
    DotsAdd(a, [DOT]);
    assert a + MASK + [] == DotRow(0) + u + DotRow(2);
  }

  lemma MaskCompletesMiddle(u: string, k: nat)
    requires OccursAt(MASK, u, k)
    ensures k + 3 <= |u| && Completes(u, u[..k], u[k + 3..])
  {
    var a, b := u[..k], u[k + 3..];
    assert u[k..] == MASK + b;
    assert u == a + (MASK + b);
    DotsAdd(MASK, b);
    DotsAdd(a, MASK + b);
    assert a + MASK + b == DotRow(0) + u + DotRow(0);
  }

  lemma MaskCompletes(u: string) returns (a: string, b: string)
    requires u != [] && !IsClean(u)
    ensures Completes(u, a, b)
  {
    hide Completes;
    if u[0] == DOT {
      a, b := [], u[1..];
      MaskCompletesStart(u);
    } else if u[|u| - 1] == DOT {
      a, b := u[..|u| - 1], [];
      MaskCompletesEnd(u);
    } else {
      var k: nat :| OccursAt(MASK, u, k);
      a, b := u[..k], u[k + 3..];
      MaskCompletesMiddle(u, k);
    }
  }

  // ---------------------------------------------------------------- what the patterns see

  /** A token, or a block of a private key: no such text is left by the patterns. */
  ghost predicate HoldsPattern(u: string) {
    HasBlock(u) || exists w :: (IsGithubToken(w) || IsGithubPat(w)) && Occurs(w, u)
  }

  lemma OccursThrough(w: string, u: string, t: string)
    requires Occurs(w, u) && Occurs(u, t)
    ensures Occurs(w, t)
  {
    var k: nat :| OccursAt(w, u, k);
    var l: nat :| OccursAt(u, t, l);
    OccursInside(w, u, t, k, l);
  }

  lemma OccursInside(w: string, u: string, t: string, k: nat, l: nat)
    requires OccursAt(w, u, k) && OccursAt(u, t, l)
    ensures OccursAt(w, t, l + k)
  {
    assert t[l..][..|u|] == u;
    assert t[l + k..] == t[l..][k..];
    assert t[l..] == u + t[l..][|u|..];
  }

  lemma BlockThrough(u: string, t: string)
    requires HasBlock(u) && Occurs(u, t)
    ensures HasBlock(t)
  {
    hide OccursAt;
    var v, w, i: nat, j: nat :| BlockAt(u, v, w, i, j);
    var l: nat :| OccursAt(u, t, l);
    OccursInside(v, u, t, i, l);
    OccursInside(w, u, t, j, l);
    assert BlockAt(t, v, w, l + i, l + j);
  }

  /** What holds a token or a key block is never left, clean or not. */
  lemma HoldersGo(text: string, secrets: seq<string>, u: string)
    requires HoldsPattern(u)
    ensures !Occurs(u, SweepAll(text, Literals(secrets) + PATTERNS))
  {
    hide Occurs, SweepAll;
    var out := SweepAll(text, Literals(secrets) + PATTERNS);
    NoKeyIsLeft(text, secrets);
    if Occurs(u, out) {
      if HasBlock(u) {
        BlockThrough(u, out);
      } else {
        var w :| (IsGithubToken(w) || IsGithubPat(w)) && Occurs(w, u);
        OccursThrough(w, u, out);
        RedactionIsComplete(text, secrets, w);
      }
    }
  }

  /** A text without the mask character that stands among mask characters around `u` stands in `u`. */
  lemma PlainStandsInside(v: string, u: string, p: nat, q: nat, k: nat)
    requires v != [] && DOT !in v && OccursAt(v, DotRow(p) + u + DotRow(q), k)
    ensures p <= k && OccursAt(v, u, k - p)
  {
    var t := DotRow(p) + u + DotRow(q);
    var last := |v| - 1;
    CharAt(v, t, k, 0);
    CharAt(v, t, k, last);
    assert v[0] != DOT && v[last] != DOT;
    assert t[k..][..|v|] == v;
    assert u[k - p..][..|v|] == v;
  }

  lemma PatternsInside(t: string, u: string, p: nat, q: nat)
    requires t == DotRow(p) + u + DotRow(q) && HoldsPattern(t)
    ensures HoldsPattern(u)
  {
    hide OccursAt, IsFrame;
    if HasBlock(t) {
      var v, w, i: nat, j: nat :| BlockAt(t, v, w, i, j);
      FramesArePlain(v, w);
      PlainStandsInside(v, u, p, q, i);
      PlainStandsInside(w, u, p, q, j);
      assert BlockAt(u, v, w, i - p, j - p);
    } else {
      var w :| (IsGithubToken(w) || IsGithubPat(w)) && Occurs(w, t);
      if IsGithubToken(w) { TokenIsMatched(w); } else { PatIsMatched(w); }
      var k: nat :| OccursAt(w, t, k);
      PlainStandsInside(w, u, p, q, k);
      assert OccursAt(w, u, k - p);
    }
  }

  lemma FramesArePlain(v: string, w: string)
    requires IsFrame(v, BEGIN) && IsFrame(w, END)
    ensures v != [] && w != [] && DOT !in v && DOT !in w
  {
    FrameIsPlain(v, BEGIN);
    FrameIsPlain(w, END);
  }

  lemma StartIsThere(w: string, t: string, k: nat)
    requires k <= |t| && w <= t[k..]
    ensures Occurs(w, t)
  {
    assert OccursAt(w, t, k);
  }

  /** Where a pattern matches, its shortest match stands. */
  lemma TokenStands(t: string)
    requires GithubToken(t) > 0
    ensures |t| >= 24 && IsGithubToken(t[..24])
  {
    forall i | 4 <= i < 24 ensures IsAlnum(t[i]) { assert t[4..][i - 4] == t[i]; }
    assert t[..24][..2] == t[..2];
  }

  lemma PatStands(t: string)
    requires GithubPat(t) > 0
    ensures |t| >= 31 && IsGithubPat(t[..31])
  {
    forall i | 11 <= i < 31 ensures IsAlnum(t[i]) || t[i] == '_' { assert t[11..][i - 11] == t[i]; }
    assert t[..31][..11] == t[..11] == "github_pat_";
  }

  lemma FrameStands(t: string, mark: string)
    requires FrameLine(t, mark) > 0
    ensures IsFrame(t[..FrameLine(t, mark)], mark)
  {
    var of := (c: char) => IsUpper(c) || IsDigit(c) || c == ' ';
    var m := Run(t[|mark|..], of);
    var n := |mark| + m;
    var u := t[..n + 5];
    assert t[n..][0] == '-';
    assert u[|mark|..][m] == t[n] == '-';
    forall i | 0 <= i < m ensures of(u[|mark|..][i]) { assert u[|mark|..][i] == t[|mark|..][i]; }
    RunIs(u[|mark|..], of, m);
    assert u[n - 11..n] == t[n - 11..n];
    assert u[n..] == "-----";
  }

  lemma {:induction false} EndStands(t: string) returns (d: nat)
    requires FirstEnd(t) > 0
    ensures d <= |t| && FrameLine(t[d..], END) > 0
    decreases |t|
  {
    if FrameLine(t, END) > 0 {
      d := 0;
      assert t[0..] == t;
    } else {
      var e := EndStands(t[1..]);
      d := e + 1;
      assert t[1..][e..] == t[d..];
    }
  }

  lemma KeyStands(t: string)
    requires PrivateKey(t) > 0
    ensures HasBlock(t)
  {
    hide FrameLine, FirstEnd, IsFrame;
    var head := FrameLine(t, BEGIN);
    var d := EndStands(t[head..]);
    var rest := t[head + d..];
    assert t[head..][d..] == rest;
    FrameStands(t, BEGIN);
    FrameStands(rest, END);
    var u, v := t[..head], rest[..FrameLine(rest, END)];
    OccursAtStart(u, t);
    assert OccursAt(v, t, head + d);
    assert BlockAt(t, u, v, 0, head + d);
  }

  lemma RestOccurs(t: string, k: nat)
    requires k <= |t|
    ensures Occurs(t[k..], t)
  {
    StartIsThere(t[k..], t, k);
  }

  /** A pattern matches only where a token or a block stands. */
  lemma MatchIsPattern(t: string, m: Matcher, k: nat)
    requires m in PATTERNS && k <= |t| && m(t[k..]) > 0
    ensures HoldsPattern(t)
  {
    hide Occurs, HasBlock, IsGithubToken, IsGithubPat, PrivateKey, GithubToken, GithubPat;
    var rest := t[k..];
    if m == PrivateKey {
      KeyStands(rest);
      RestOccurs(t, k);
      BlockThrough(rest, t);
    } else if m == GithubToken {
      TokenStands(rest);
      StartIsThere(rest[..24], t, k);
    } else {
      assert m == GithubPat;
      PatStands(rest);
      StartIsThere(rest[..31], t, k);
    }
  }

  lemma {:induction false} PatternsPass(t: string, ms: seq<Matcher>)
    requires !HoldsPattern(t) && forall m :: m in ms ==> m in PATTERNS
    ensures SweepAll(t, ms) == t
    decreases |ms|
  {
    hide HoldsPattern, Sweep;
    if ms != [] {
      assert ms[0] in ms;
      forall k | 0 <= k <= |t| ensures !Matches(ms[0], t[k..]) {
        if ms[0](t[k..]) > 0 { MatchIsPattern(t, ms[0], k); }
      }
      SweptNowhere(t, ms[0]);
      PatternsPass(t, ms[1..]);
    }
  }

  lemma {:induction false} SweepBoth(t: string, ms: seq<Matcher>, ns: seq<Matcher>)
    ensures SweepAll(t, ms + ns) == SweepAll(SweepAll(t, ms), ns)
    decreases |ms|
  {
    hide Sweep;
    if ms == [] {
      assert ms + ns == ns;
    } else {
      assert (ms + ns)[1..] == ms[1..] + ns;
      SweepBoth(Sweep(t, ms[0]), ms[1..], ns);
    }
  }

  // ---------------------------------------------------------------- what is masked, whole

  /** What no match begins in is passed over as it stands. */
  lemma {:induction false} SweptFront(front: string, rest: string, m: Matcher)
    requires forall i :: 0 <= i < |front| ==> !Matches(m, (front + rest)[i..])
    ensures Sweep(front + rest, m) == front + Sweep(rest, m)
    decreases |front|
  {
    if front == [] {
      assert front + rest == rest;
    } else {
      var t := front + rest;
      assert t[0..] == t && t[1..] == front[1..] + rest;
      forall i | 0 <= i < |front[1..]| ensures !Matches(m, (front[1..] + rest)[i..]) { assert t[1..][i..] == t[i + 1..]; }
      SweepPasses(t, m);
      SweptFront(front[1..], rest, m);
      assert front == [front[0]] + front[1..];
    }
  }

  /** What matches whole is masked whole, and the search goes on behind it. */
  lemma SweptWhole(whole: string, rest: string, m: Matcher)
    requires whole != [] && m(whole + rest) == |whole|
    ensures Sweep(whole + rest, m) == MASK + Sweep(rest, m)
  {
    SweepMasks(whole + rest, m);
    assert (whole + rest)[|whole|..] == rest;
  }

  lemma FirstOf(t: string, i: nat)
    requires i < |t|
    ensures t[i..] != [] && t[i..][0] == t[i]
  {
  }

  /** A token begins with a letter, a block with a dash. */
  lemma TokenBegins(t: string)
    ensures GithubToken(t) > 0 || GithubPat(t) > 0 ==> t != [] && t[0] == 'g'
    ensures PrivateKey(t) > 0 ==> t != [] && t[0] == '-'
  {
  }

  lemma MaskIsPassed(rest: string)
    ensures Sweep(MASK + rest, GithubToken) == MASK + Sweep(rest, GithubToken)
    ensures Sweep(MASK + rest, GithubPat) == MASK + Sweep(rest, GithubPat)
  {
    forall i | 0 <= i < 3 ensures GithubToken((MASK + rest)[i..]) == 0 && GithubPat((MASK + rest)[i..]) == 0 {
      FirstOf(MASK + rest, i);
      TokenBegins((MASK + rest)[i..]);
    }
    SweptFront(MASK, rest, GithubToken);
    SweptFront(MASK, rest, GithubPat);
  }

  lemma ThreePatterns(t: string)
    ensures SweepAll(t, PATTERNS) == Sweep(Sweep(Sweep(t, PrivateKey), GithubToken), GithubPat)
  {
    hide Sweep;
    var two: seq<Matcher>, one: seq<Matcher> := [GithubToken, GithubPat], [GithubPat];
    assert PATTERNS[1..] == two && two[1..] == one && one[1..] == [];
    assert SweepAll(t, PATTERNS) == SweepAll(Sweep(t, PrivateKey), two);
    assert SweepAll(Sweep(t, PrivateKey), two) == SweepAll(Sweep(Sweep(t, PrivateKey), GithubToken), one);
  }

  /** An opening line, a body and the first closing line behind it. */
  ghost predicate IsKeyBlock(open: string, body: string, close: string, post: string) {
    && IsFrame(open, BEGIN) && IsFrame(close, END)
    && forall j: nat, v :: j < |body| && IsFrame(v, END) ==> !OccursAt(v, body + close + post, j)
  }

  lemma {:induction false} FirstEndAt(t: string, j: nat)
    requires j <= |t| && FrameLine(t[j..], END) > 0 && forall i :: 0 <= i < j ==> FrameLine(t[i..], END) == 0
    ensures FirstEnd(t) == j + FrameLine(t[j..], END)
    decreases j
  {
    hide FrameLine;
    if j == 0 {
      assert t[0..] == t;
    } else {
      assert t[0..] == t;
      assert t[1..][j - 1..] == t[j..];
      forall i | 0 <= i < j - 1 ensures FrameLine(t[1..][i..], END) == 0 { assert t[1..][i..] == t[i + 1..]; }
      FirstEndAt(t[1..], j - 1);
    }
  }

  lemma NoFrameEarlier(body: string, close: string, post: string, i: nat)
    requires i < |body| && forall v :: IsFrame(v, END) ==> !OccursAt(v, body + close + post, i)
    ensures FrameLine((body + close + post)[i..], END) == 0
  {
    hide FrameLine;
    if FrameLine((body + close + post)[i..], END) > 0 { FrameOccurs(body + close + post, i); }
  }

  lemma FrameOccurs(t: string, i: nat)
    requires i <= |t| && FrameLine(t[i..], END) > 0
    ensures exists v :: IsFrame(v, END) && OccursAt(v, t, i)
  {
    hide FrameLine;
    FrameStands(t[i..], END);
    assert OccursAt(t[i..][..FrameLine(t[i..], END)], t, i);
  }

  lemma BlockIsMatchedWhole(open: string, body: string, close: string, post: string)
    requires IsKeyBlock(open, body, close, post)
    ensures PrivateKey(open + body + close + post) == |open + body + close|
  {
    hide FrameLine;
    var t, s := open + body + close + post, body + close + post;
    FrameExtends(open, t, BEGIN);
    assert t[|open|..] == s;
    assert s[|body|..] == close + post;
    FrameExtends(close, s[|body|..], END);
    forall i | 0 <= i < |body| ensures FrameLine(s[i..], END) == 0 { NoFrameEarlier(body, close, post, i); }
    FirstEndAt(s, |body|);
  }

  /** A block of a private key is masked whole, its body with its lines, and what follows is redacted as if it
      stood alone. */
  lemma KeyIsMaskedWhole(open: string, body: string, close: string, post: string)
    requires IsKeyBlock(open, body, close, post)
    ensures SweepAll(open + body + close + post, PATTERNS) == MASK + SweepAll(post, PATTERNS)
  {
    hide PrivateKey, GithubToken, GithubPat, Sweep, FrameLine;
    BlockIsMatchedWhole(open, body, close, post);
    SweptWhole(open + body + close, post, PrivateKey);
    MaskIsPassed(Sweep(post, PrivateKey));
    MaskIsPassed(Sweep(Sweep(post, PrivateKey), GithubToken));
    ThreePatterns(open + body + close + post);
    ThreePatterns(post);
  }

  /** The whole run of a GitHub token: what follows does not go on with it. */
  ghost predicate IsWholeToken(u: string, post: string) {
    && |u| >= 24 && u[..2] == "gh" && u[2] in "pousr" && u[3] == '_' && (forall i :: 4 <= i < |u| ==> IsAlnum(u[i]))
    && (post != [] ==> !IsAlnum(post[0]))
  }

  /** So of a fine-grained one. */
  ghost predicate IsWholePat(u: string, post: string) {
    && |u| >= 31 && u[..11] == "github_pat_" && (forall i :: 11 <= i < |u| ==> IsAlnum(u[i]) || u[i] == '_')
    && (post != [] ==> !IsAlnum(post[0]) && post[0] != '_')
  }

  lemma {:induction false} RunEnds(front: string, rest: string, of: char -> bool)
    requires (forall i :: 0 <= i < |front| ==> of(front[i])) && (rest != [] ==> !of(rest[0]))
    ensures Run(front + rest, of) == |front|
  {
    if front == [] {
      assert front + rest == rest;
    } else {
      assert (front + rest)[1..] == front[1..] + rest;
      RunEnds(front[1..], rest, of);
    }
  }

  lemma TokenIsMatchedWhole(u: string, post: string)
    requires IsWholeToken(u, post)
    ensures GithubToken(u + post) == |u|
  {
    var t := u + post;
    assert t[..2] == u[..2] && t[4..] == u[4..] + post;
    RunEnds(u[4..], post, (c: char) => IsAlnum(c));
  }

  lemma PatIsMatchedWhole(u: string, post: string)
    requires IsWholePat(u, post)
    ensures GithubPat(u + post) == |u|
  {
    var t := u + post;
    assert t[..11] == u[..11] && t[11..] == u[11..] + post;
    RunEnds(u[11..], post, (c: char) => IsAlnum(c) || c == '_');
  }

  /** A pass leaves no more of what follows at the front than its first character or a mask. */
  lemma SweptBegins(t: string, m: Matcher)
    ensures t == [] ==> Sweep(t, m) == []
    ensures t != [] ==> Sweep(t, m) != [] && (Sweep(t, m)[0] == t[0] || Sweep(t, m)[0] == DOT)
  {
  }

  lemma NoKeyInside(u: string, rest: string)
    requires forall i :: 0 <= i < |u| ==> u[i] != '-'
    ensures Sweep(u + rest, PrivateKey) == u + Sweep(rest, PrivateKey)
  {
    forall i | 0 <= i < |u| ensures !Matches(PrivateKey, (u + rest)[i..]) {
      FirstOf(u + rest, i);
      TokenBegins((u + rest)[i..]);
    }
    SweptFront(u, rest, PrivateKey);
  }

  lemma TokenHasNoDash(u: string, post: string)
    ensures IsWholeToken(u, post) || IsWholePat(u, post) ==> forall i :: 0 <= i < |u| ==> u[i] != '-'
  {
    if IsWholeToken(u, post) { assert u[0] == u[..2][0] && u[1] == u[..2][1]; }
    if IsWholePat(u, post) { forall i | 0 <= i < |u| ensures u[i] != '-' { if i < 11 { assert u[i] == u[..11][i]; } } }
  }

  /** A GitHub token is masked whole, however long it is. */
  lemma TokenIsMaskedWhole(u: string, post: string)
    requires IsWholeToken(u, post)
    ensures SweepAll(u + post, PATTERNS) == MASK + SweepAll(post, PATTERNS)
  {
    hide PrivateKey, GithubToken, GithubPat, Sweep;
    var rest := Sweep(post, PrivateKey);
    TokenHasNoDash(u, post);
    NoKeyInside(u, post);
    SweptBegins(post, PrivateKey);
    TokenIsMatchedWhole(u, rest);
    SweptWhole(u, rest, GithubToken);
    MaskIsPassed(Sweep(rest, GithubToken));
    ThreePatterns(u + post);
    ThreePatterns(post);
  }

  /** A pass falls apart where no match reaches across. */
  lemma {:induction false} SweepSplits(q: string, r: string, m: Matcher)
    requires forall i :: 0 <= i < |q| ==> m((q + r)[i..]) == m(q[i..]) <= |q| - i
    ensures Sweep(q + r, m) == Sweep(q, m) + Sweep(r, m)
    decreases |q|
  {
    hide Sweep;
    var t := q + r;
    if q == [] {
      assert t == r;
      NothingToSweep(m);
    } else {
      assert t[0..] == t && q[0..] == q;
      var n := if Matches(m, q) then m(q) else 1;
      assert t[n..] == q[n..] + r;
      forall i | 0 <= i < |q[n..]| ensures m((q[n..] + r)[i..]) == m(q[n..][i..]) <= |q[n..]| - i {
        assert t[n..][i..] == t[n + i..] && q[n..][i..] == q[n + i..];
      }
      SweepSplits(q[n..], r, m);
      if Matches(m, q) {
        SweepMasks(t, m);
        SweepMasks(q, m);
      } else {
        SweepPasses(t, m);
        SweepPasses(q, m);
      }
    }
  }

  lemma NothingToSweep(m: Matcher)
    ensures Sweep([], m) == []
  {
  }

  lemma {:induction false} RunStops(a: string, r: string, of: char -> bool)
    requires r != [] ==> !of(r[0])
    ensures Run(a + r, of) == Run(a, of)
  {
    if a == [] {
      assert a + r == r;
    } else {
      assert (a + r)[1..] == a[1..] + r;
      RunStops(a[1..], r, of);
    }
  }

  /** What stands behind a character no token has does not make it longer or shorter. */
  ghost predicate StopsTokens(r: string) { r != [] ==> !IsAlnum(r[0]) && r[0] != '_' }

  lemma TokenStops(a: string, r: string)
    requires StopsTokens(r)
    ensures GithubToken(a + r) == GithubToken(a) <= |a|
  {
    var t := a + r;
    if |a| >= 4 {
      assert t[..2] == a[..2] && t[4..] == a[4..] + r;
      RunStops(a[4..], r, (c: char) => IsAlnum(c));
    } else if |t| >= 4 {
      assert t[|a|] == r[0];
      assert |a| < 2 ==> t[..2][|a|] == r[0];
    }
  }

  lemma NoPatAcross(a: string, r: string)
    requires StopsTokens(r) && |a| < 11
    ensures !("github_pat_" <= a + r)
  {
    assert r != [] ==> (a + r)[|a|] == r[0];
    assert IsAlnum("github_pat_"[|a|]) || "github_pat_"[|a|] == '_';
  }

  lemma PatStops(a: string, r: string)
    requires StopsTokens(r)
    ensures GithubPat(a + r) == GithubPat(a) <= |a|
  {
    var t := a + r;
    if |a| >= 11 {
      assert t[..11] == a[..11] && t[11..] == a[11..] + r;
      RunStops(a[11..], r, (c: char) => IsAlnum(c) || c == '_');
    } else {
      NoPatAcross(a, r);
    }
  }

  /** A text without dashes is redacted on its own where no token goes on behind it. */
  lemma PatternsSplit(u: string, post: string)
    requires StopsTokens(post) && forall i :: 0 <= i < |u| ==> u[i] != '-'
    ensures SweepAll(u + post, PATTERNS) == Sweep(Sweep(u, GithubToken), GithubPat) + SweepAll(post, PATTERNS)
  {
    hide PrivateKey, GithubToken, GithubPat, Sweep;
    var rest, w := Sweep(post, PrivateKey), Sweep(u, GithubToken);
    NoKeyInside(u, post);
    SweptBegins(post, PrivateKey);
    forall i | 0 <= i < |u| ensures GithubToken((u + rest)[i..]) == GithubToken(u[i..]) <= |u| - i {
      assert (u + rest)[i..] == u[i..] + rest;
      TokenStops(u[i..], rest);
    }
    SweepSplits(u, rest, GithubToken);
    var last := Sweep(rest, GithubToken);
    SweptBegins(rest, GithubToken);
    forall i | 0 <= i < |w| ensures GithubPat((w + last)[i..]) == GithubPat(w[i..]) <= |w| - i {
      assert (w + last)[i..] == w[i..] + last;
      PatStops(w[i..], last);
    }
    SweepSplits(w, last, GithubPat);
    ThreePatterns(u + post);
    ThreePatterns(post);
  }

  /** No match of a token begins in a text that holds none. */
  lemma NoTokenInside(u: string, i: nat)
    requires i <= |u| && forall w :: IsGithubToken(w) ==> !Occurs(w, u)
    ensures GithubToken(u[i..]) == 0
  {
    if GithubToken(u[i..]) > 0 {
      TokenStands(u[i..]);
      StartIsThere(u[i..][..24], u, i);
    }
  }

  lemma MaskIsThere(t: string, m: Matcher)
    requires Matches(m, t)
    ensures DOT in Sweep(t, m)
  {
    assert MASK[0] == DOT;
    SweepMasks(t, m);
  }

  lemma {:induction false} NoMaskNoChange(t: string, m: Matcher)
    requires DOT !in Sweep(t, m)
    ensures Sweep(t, m) == t
    decreases |t|
  {
    if Matches(m, t) {
      MaskIsThere(t, m);
    } else if t != [] {
      SweepPasses(t, m);
      NoMaskNoChange(t[1..], m);
    }
  }

  /** The pass of the GitHub tokens leaves a mask in a text that holds one. */
  lemma MaskIsLeft(u: string, w: string)
    requires IsGithubToken(w) && Occurs(w, u)
    ensures DOT in Sweep(u, GithubToken)
  {
    hide Sweep, GithubToken, Occurs;
    TokenIsMatched(w);
    NoDotIsClean(w);
    if DOT !in Sweep(u, GithubToken) {
      NoMaskNoChange(u, GithubToken);
      LeftBySweep(u, GithubToken, w);
    }
  }

  lemma NoDotIsClean(w: string)
    requires w != [] && DOT !in w
    ensures IsClean(w)
  {
    if Occurs(MASK, w) {
      var k: nat :| OccursAt(MASK, w, k);
      CharAt(MASK, w, k, 0);
    }
  }

  /** A text that begins with a letter and has a mask in it is not masked whole by the last pass. */
  lemma MaskedInParts(x: string)
    requires x != [] && x[0] == 'g' && DOT in x
    ensures Sweep(x, GithubPat) != MASK
  {
    if Matches(GithubPat, x) {
      var n := GithubPat(x);
      PatHasNoDot(x);
      assert x[..n] + x[n..] == x;
      SweepMasks(x, GithubPat);
      SweptBegins(x[n..], GithubPat);
    } else {
      SweepPasses(x, GithubPat);
      assert Sweep(x, GithubPat)[0] == 'g' && MASK[0] != 'g';
    }
  }

  lemma PatHasNoDot(x: string)
    requires Matches(GithubPat, x)
    ensures DOT !in x[..GithubPat(x)]
  {
    var n := GithubPat(x);
    forall i | 0 <= i < n ensures x[i] != DOT {
      if i < 11 { assert x[i] == "github_pat_"[i]; } else { assert x[i] == x[11..][i - 11]; }
    }
  }

  /** A fine-grained token is masked whole exactly when none of the others stands in it: those are masked first,
      and cut it. */
  lemma PatIsMaskedWholeIff(u: string, post: string)
    requires IsWholePat(u, post)
    ensures SweepAll(u + post, PATTERNS) == MASK + SweepAll(post, PATTERNS) <==> forall w :: IsGithubToken(w) ==> !Occurs(w, u)
  {
    hide PrivateKey, GithubToken, GithubPat, Sweep, Occurs, IsGithubToken;
    TokenHasNoDash(u, post);
    PatternsSplit(u, post);
    var x := Sweep(u, GithubToken);
    if forall w :: IsGithubToken(w) ==> !Occurs(w, u) {
      forall i | 0 <= i <= |u| ensures !Matches(GithubToken, u[i..]) { NoTokenInside(u, i); }
      SweptNowhere(u, GithubToken);
      assert u + [] == u;
      PatIsMatchedWhole(u, []);
      SweptWhole(u, [], GithubPat);
      NothingToSweep(GithubPat);
      assert Sweep(x, GithubPat) == MASK;
    } else {
      var w :| IsGithubToken(w) && Occurs(w, u);
      MaskIsLeft(u, w);
      PatBegins(u);
      MaskedInParts(x);
      FrontsDiffer(Sweep(x, GithubPat), MASK, SweepAll(post, PATTERNS));
    }
  }

  lemma FrontsDiffer(a: string, b: string, s: string)
    requires a != b
    ensures a + s != b + s
  {
    if |a| == |b| { assert (a + s)[..|a|] == a && (b + s)[..|b|] == b; }
  }

  lemma PatBegins(u: string)
    requires |u| >= 11 && u[..11] == "github_pat_"
    ensures Sweep(u, GithubToken) != [] && Sweep(u, GithubToken)[0] == 'g'
  {
    assert u[0] == u[..11][0] && u[1] == u[..11][1];
    assert u[..2][1] == u[1];
    SweepPasses(u, GithubToken);
  }

  const PAT := "github_pat_"

  lemma NoneBefore(v: string, tail: string, i: nat)
    requires 'g' !in v && i < |PAT + v|
    ensures i > 0 ==> GithubToken((PAT + v + tail)[i..]) == 0 && GithubPat((PAT + v + tail)[i..]) == 0
    ensures GithubToken(PAT + v + tail) == 0
  {
    var t := PAT + v + tail;
    assert t[..2][1] == 'i';
    if i > 0 {
      assert t[i] == (PAT + v)[i] && t[i] != 'g';
      FirstOf(t, i);
      TokenBegins(t[i..]);
    }
  }

  lemma TooShort(v: string)
    requires |v| < 20 && forall i :: 0 <= i < |v| ==> IsAlnum(v[i]) || v[i] == '_'
    ensures GithubPat(PAT + v + MASK) == 0
  {
    hide IsAlnum;
    assert (PAT + v + MASK)[11..] == v + MASK && MASK[0] == DOT;
    DotIsNone();
    RunEnds(v, MASK, (c: char) => IsAlnum(c) || c == '_');
  }

  lemma DotIsNone()
    ensures !IsAlnum(DOT) && DOT != '_' && DOT != 'g'
  {
  }

  lemma MaskBegins(t: string, i: nat)
    requires i < |t| && t[i] == DOT
    ensures GithubPat(t[i..]) == 0
  {
    FirstOf(t, i);
    TokenBegins(t[i..]);
    DotIsNone();
  }

  lemma CutPatPasses(v: string)
    requires 'g' !in v && |v| < 20 && forall i :: 0 <= i < |v| ==> IsAlnum(v[i]) || v[i] == '_'
    ensures Sweep(PAT + v + MASK, GithubPat) == PAT + v + MASK
  {
    hide GithubPat, Sweep, IsAlnum;
    var t := PAT + v + MASK;
    assert t[0..] == t && t[|t|..] == [];
    TooShort(v);
    TokenBegins([]);
    forall i | 0 < i < |t| ensures GithubPat(t[i..]) == 0 {
      if i < |PAT + v| { NoneBefore(v, MASK, i); } else { MaskBegins(t, i); }
    }
    SweptNowhere(t, GithubPat);
  }

  /** Of a fine-grained token that goes on with one of the others before its twentieth character, all that stands
      before that one is left in the text. */
  lemma CutPatIsLeft(v: string, w: string, post: string)
    requires 'g' !in v && |v| < 20 && (forall i :: 0 <= i < |v| ==> IsAlnum(v[i]) || v[i] == '_')
    requires IsWholeToken(w, post) && StopsTokens(post)
    ensures IsWholePat(PAT + v + w, post)
    ensures SweepAll(PAT + v + w + post, PATTERNS) == PAT + v + MASK + SweepAll(post, PATTERNS)
  {
    hide Sweep, GithubToken, GithubPat;
    var u := PAT + v + w;
    WholeWithin(v, w, post);
    TokenHasNoDash(u, post);
    PatternsSplit(u, post);
    forall i | 0 <= i < |PAT + v| ensures !Matches(GithubToken, u[i..]) {
      assert u[0..] == u;
      NoneBefore(v, w, i);
    }
    SweptFront(PAT + v, w, GithubToken);
    assert w + [] == w;
    TokenIsMatchedWhole(w, []);
    SweptWhole(w, [], GithubToken);
    NothingToSweep(GithubToken);
    assert Sweep(u, GithubToken) == PAT + v + MASK;
    CutPatPasses(v);
  }

  lemma WholeWithin(v: string, w: string, post: string)
    requires forall i :: 0 <= i < |v| ==> IsAlnum(v[i]) || v[i] == '_'
    requires IsWholeToken(w, post) && StopsTokens(post)
    ensures IsWholePat(PAT + v + w, post)
  {
    var u := PAT + v + w;
    assert w[0] == w[..2][0] && w[1] == w[..2][1];
    assert u[..11] == PAT;
    forall i | 11 <= i < |u| ensures IsAlnum(u[i]) || u[i] == '_' {
      if i < 11 + |v| { assert u[i] == v[i - 11]; } else { assert u[i] == w[i - 11 - |v|]; }
    }
  }

  lemma {:induction false} SecretsPass(t: string, secrets: seq<string>)
    requires forall s :: s in secrets ==> !Occurs(s, t)
    ensures SweepAll(t, Literals(secrets)) == t
    decreases |secrets|
  {
    hide Sweep, Occurs;
    if secrets != [] {
      assert secrets[0] in secrets && Literals(secrets)[1..] == Literals(secrets[1..]);
      SweptBare(t, secrets[0]);
      SecretsPass(t, secrets[1..]);
    }
  }

  /** A text that holds no registered secret is redacted by the patterns alone, and one that holds no token and
      no key block either is left as it is. */
  lemma RestIsLeft(text: string, secrets: seq<string>)
    requires forall s :: s in secrets ==> !Occurs(s, text)
    ensures SweepAll(text, Literals(secrets) + PATTERNS) == SweepAll(text, PATTERNS)
    ensures !HoldsPattern(text) ==> SweepAll(text, Literals(secrets) + PATTERNS) == text
  {
    hide Sweep, Occurs, HoldsPattern;
    SweepBoth(text, Literals(secrets), PATTERNS);
    SecretsPass(text, secrets);
    if !HoldsPattern(text) { PatternsPass(text, PATTERNS); }
  }

  // ---------------------------------------------------------------- what comes back

  /** `x`, registered after `u`, is masked between the two sides, and the mask writes `u`, which the patterns
      leave. */
  lemma ComesBack(u: string, a: string, x: string, b: string)
    requires u != [] && Completes(u, a, b) && !HoldsPattern(u) && DOT !in x && x != []
    requires !Occurs(x, b) && forall k: nat :: k < |a| ==> !OccursAt(x, a + x + b, k)
    ensures Occurs(u, SweepAll(a + x + b, Literals([u, x]) + PATTERNS))
  {
    hide HoldsPattern;
    SecretPassesWrite(u, a, x, b);
    var out := a + MASK + b;
    var p, q :| out == DotRow(p) + u + DotRow(q);
    if HoldsPattern(out) { PatternsInside(out, u, p, q); }
    PatternsPass(out, PATTERNS);
    SweepBoth(a + x + b, Literals([u, x]), PATTERNS);
    StandsBetween(u, p, q);
  }

  lemma StandsBetween(u: string, p: nat, q: nat)
    ensures Occurs(u, DotRow(p) + u + DotRow(q))
  {
    assert (DotRow(p) + u + DotRow(q))[p..] == u + DotRow(q);
    StartIsThere(u, DotRow(p) + u + DotRow(q), p);
  }

  lemma SecretPassesWrite(u: string, a: string, x: string, b: string)
    requires u != [] && Completes(u, a, b) && DOT !in x && x != []
    requires !Occurs(x, b) && forall k: nat :: k < |a| ==> !OccursAt(x, a + x + b, k)
    ensures SweepAll(a + x + b, Literals([u, x])) == a + MASK + b
  {
    hide Occurs, OccursAt;
    var t, ms := a + x + b, Literals([u, x]);
    assert ms == [Literal(u), Literal(x)] && ms[1..] == [Literal(x)] && ms[1..][1..] == [];
    DotsAdd(a, x);
    DotsAdd(a + x, b);
    if Occurs(u, t) { PartHasFewerDots(u, t); }
    SweptBare(t, u);
    SweptOnce(a, x, b);
    assert SweepAll(t, ms) == SweepAll(t, ms[1..]) == a + MASK + b;
  }

  lemma StartsIn(a: string, rest: string, x: string, k: nat)
    requires OccursAt(x, a + rest, k) && k < |a| && x != []
    ensures x[0] in a
  {
    CharAt(x, a + rest, k, 0);
    assert (a + rest)[k] == a[k];
  }

  lemma StartIsIn(x: string, t: string)
    requires Occurs(x, t) && x != []
    ensures x[0] in t
  {
    OccursHas(x, t, 0);
  }

  /** Every secret that is not clean, and holds nothing the patterns mask, can come back: with any other secret
      registered after it that is without the mask character and begins with a character foreign to it, there
      is a text whose redaction holds the first, written by the masking of the second. */
  lemma UncleanSecretComesBack(u: string, x: string) returns (t: string)
    requires u != [] && !IsClean(u) && !HoldsPattern(u) && DOT !in x && |x| >= 4 && x[0] !in u
    ensures Occurs(u, SweepAll(t, Literals([u, x]) + PATTERNS))
  {
    hide HoldsPattern;
    var a, b := MaskCompletes(u);
    t := a + x + b;
    assert t == a + (x + b);
    forall k: nat | k < |a| ensures !OccursAt(x, t, k) {
      if OccursAt(x, t, k) { StartsIn(a, x + b, x, k); }
    }
    if Occurs(x, b) { StartIsIn(x, b); }
    ComesBack(u, a, x, b);
  }

  /** Whatever else is registered and whatever the text, no redacted text holds `u`. */
  ghost predicate StaysOut(u: string) {
    forall text, secrets :: u in secrets && (forall s :: s in secrets ==> |s| >= 4) ==> !Occurs(u, SweepAll(text, Literals(secrets) + PATTERNS))
  }

  /** A registered secret stays out of every redacted text exactly when it is clean or holds a token or a key
      block, which can be seen when it is registered. */
  lemma StaysOutIff(u: string)
    requires |u| >= 4
    ensures StaysOut(u) <==> IsClean(u) || HoldsPattern(u)
  {
    hide HoldsPattern, IsClean, Occurs;
    if IsClean(u) || HoldsPattern(u) {
      forall text, secrets | u in secrets ensures !Occurs(u, SweepAll(text, Literals(secrets) + PATTERNS)) {
        if IsClean(u) { RedactionIsComplete(text, secrets, u); } else { HoldersGo(text, secrets, u); }
      }
    } else {
      LongSecretWritesIt(u);
    }
  }

  function Repeated(c: char, n: nat): (s: string)
    ensures |s| == n && forall i :: 0 <= i < n ==> s[i] == c
  {
    seq(n, _ => c)
  }

  lemma LongSecretWritesIt(u: string)
    requires |u| >= 4 && !IsClean(u) && !HoldsPattern(u)
    ensures !StaysOut(u)
  {
    hide HoldsPattern;
    var a, b := MaskCompletes(u);
    var n := |u| + 3;
    var x := Repeated('a', n) + "b";
    var t := a + x + b;
    forall k: nat | k < |a| ensures !OccursAt(x, t, k) {
      assert t[k + n] == 'a' && x[n] == 'b';
      if OccursAt(x, t, k) { CharAt(x, t, k, n); }
    }
    assert !Occurs(x, b);
    ComesBack(u, a, x, b);
    assert forall s :: s in [u, x] ==> |s| >= 4;
    assert u in [u, x];
  }

  lemma NoSecretNoPass(text: string)
    ensures SweepAll(text, Literals([])) == text
  {
  }

  /** All that no redacted text holds. */
  lemma NothingIsLeft(text: string, secrets: seq<string>)
    ensures var out := SweepAll(text, Literals(secrets) + PATTERNS);
      && (forall u :: (u in secrets && IsClean(u)) || HoldsPattern(u) || IsGithubToken(u) || IsGithubPat(u) ==> !Occurs(u, out))
      && !HasBlock(out)
  {
    hide SweepAll, HasBlock, HoldsPattern, IsGithubToken, IsGithubPat, IsClean, Occurs;
    var out := SweepAll(text, Literals(secrets) + PATTERNS);
    NoKeyIsLeft(text, secrets);
    forall u | (u in secrets && IsClean(u)) || HoldsPattern(u) || IsGithubToken(u) || IsGithubPat(u) ensures !Occurs(u, out) {
      if HoldsPattern(u) { HoldersGo(text, secrets, u); } else { RedactionIsComplete(text, secrets, u); }
    }
  }

  /** The process-wide registry. `redact` walks it in whatever order its Map and its Sets keep. */
  class Redactor {
    var registry: map<string, set<string>>

    /** No registered secret is a trivially short one. */
    ghost predicate Valid()
      reads this
    {
      forall scope, s :: scope in registry && s in registry[scope] ==> |s| >= 4
    }

    ghost predicate IsRegistered(s: string)
      reads this
    {
      exists scope :: scope in registry && s in registry[scope]
    }

    constructor ()
      ensures Valid() && registry == map[]
    {
      registry := map[];
    }

    method Register(scope: string, value: string)
      requires Valid()
      modifies this
      ensures Valid()
      ensures registry == if |value| < 4 then old(registry)
        else old(registry)[scope := (if scope in old(registry) then old(registry)[scope] else {}) + {value}]
    {
      if |value| < 4 { return; }
      var secrets := if scope in registry then registry[scope] else {};
      secrets := secrets + {value};
      registry := registry[scope := secrets];
    }

    method Unregister(scope: string)
      requires Valid()
      modifies this
      ensures Valid() && registry == old(registry) - {scope}
    {
      registry := registry - {scope};
    }

    /** The passes: every secret of every scope in some order, then every pattern. */
    method Redact(text: string) returns (out: string, ghost order: seq<string>)
      requires Valid()
      ensures (forall s :: s in order <==> IsRegistered(s)) && out == SweepAll(text, Literals(order) + PATTERNS)
      ensures forall s :: (IsRegistered(s) && IsClean(s)) || HoldsPattern(s) ==> !Occurs(s, out)
      ensures (forall u :: IsGithubToken(u) || IsGithubPat(u) ==> !Occurs(u, out)) && !HasBlock(out)
      ensures (forall s :: IsRegistered(s) ==> !Occurs(s, text)) ==> out == SweepAll(text, PATTERNS) && (!HoldsPattern(text) ==> out == text)
    {
      hide Occurs, IsClean, HasBlock, HoldsPattern, IsGithubToken, IsGithubPat, Literals, SweepAll, Sweep;
      out, order := text, [];
      NoSecretNoPass(text);
      var scopes := registry.Keys;
      while scopes != {}
        invariant scopes <= registry.Keys && out == SweepAll(text, Literals(order))
        invariant forall s :: s in order <==> exists c :: c in registry && c !in scopes && s in registry[c]
        decreases scopes
      {
        var scope :| scope in scopes;
        out, order := SweepScope(text, out, order, registry[scope]);
        scopes := scopes - {scope};
      }
      ghost var ms := Literals(order) + PATTERNS;
      assert ms[..|order|] == Literals(order);
      for i := 0 to |PATTERNS|
        invariant out == SweepAll(text, ms[..|order| + i])
      {
        SweepNext(text, ms, |order| + i);
        out := Sweep(out, PATTERNS[i]);
      }
      TakeAll(ms);
      NothingIsLeft(text, order);
      if forall s :: IsRegistered(s) ==> !Occurs(s, text) { RestIsLeft(text, order); }
    }
  }

  method SweepScope(text: string, before: string, ghost passed: seq<string>, secrets: set<string>)
    returns (out: string, ghost order: seq<string>)
    requires before == SweepAll(text, Literals(passed))
    ensures out == SweepAll(text, Literals(order))
    ensures forall s :: s in order <==> s in passed || s in secrets
  {
    out, order := before, passed;
    var rest := secrets;
    while rest != {}
      invariant rest <= secrets && out == SweepAll(text, Literals(order))
      invariant forall s :: s in order <==> s in passed || s in secrets - rest
      decreases rest
    {
      var secret :| secret in rest;
      ghost var ms := Literals(order + [secret]);
      assert ms[..|order|] == Literals(order) && ms[..|order| + 1] == ms;
      SweepNext(text, ms, |order|);
      out, order := Sweep(out, Literal(secret)), order + [secret];
      rest := rest - {secret};
    }
  }
}
