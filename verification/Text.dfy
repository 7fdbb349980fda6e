/** Characters, digits and fields of a text, as the regular expressions of the shared modules read them. */
module Text {
  import opened Common

  predicate IsDigit(c: char) { '0' <= c <= '9' }

  predicate IsLower(c: char) { 'a' <= c <= 'z' }

  predicate IsUpper(c: char) { 'A' <= c <= 'Z' }

  predicate AllDigits(s: string) { forall i :: 0 <= i < |s| ==> IsDigit(s[i]) }

  function Digit(c: char): (d: nat)
    requires IsDigit(c)
    ensures d < 10
  {
    c as int - '0' as int
  }

  lemma DigitIs(c: char)
    ensures IsDigit(c) <==> c in "0123456789"
    ensures IsDigit(c) ==> "0123456789"[Digit(c)] == c
  {
    if IsDigit(c) { assert "0123456789"[c as int - '0' as int] == c; }
  }

  /** The number the digits spell. */
  function Value(s: string): nat
    requires AllDigits(s)
  {
    if s == [] then 0 else
      assert IsDigit(s[|s| - 1]);
      10 * Value(s[..|s| - 1]) + Digit(s[|s| - 1])
  }

  /** `String(n)` */
  function Decimal(n: nat): (s: string)
    ensures s != [] && AllDigits(s)
  {
    if n < 10 then ['0' + n as char] else Decimal(n / 10) + ['0' + (n % 10) as char]
  }

  lemma {:induction false} DecimalReads(n: nat)
    ensures Value(Decimal(n)) == n
    ensures n > 0 ==> Decimal(n)[0] != '0'
    ensures n < 10 ==> Decimal(n) == ['0' + n as char]
  {
    if n >= 10 {
      var s := Decimal(n / 10);
      DecimalReads(n / 10);
      assert (s + ['0' + (n % 10) as char])[..|s|] == s;
    } else {
      assert Decimal(n)[..0] == [];
    }
  }

  /** Digits without leading zeros are how their number is written. */
  lemma {:induction false} DecimalOf(s: string)
    requires s != [] && AllDigits(s) && (s[0] == '0' ==> |s| == 1)
    ensures Decimal(Value(s)) == s
    ensures |s| > 1 ==> Value(s) >= 10
  {
    var n := |s| - 1;
    if n == 0 {
      assert s[..0] == [];
    } else {
      DecimalOf(s[..n]);
      FirstDigitCounts(s[..n]);
      assert s == s[..n] + [s[n]];
    }
  }

  lemma {:induction false} FirstDigitCounts(d: string)
    requires d != [] && d[0] != '0' && AllDigits(d)
    ensures Value(d) >= 1
  {
    if |d| > 1 { FirstDigitCounts(d[..|d| - 1]); } else { assert d[..0] == []; }
  }

  /** JavaScript's `<` on strings: by the first character that differs, then by length. */
  predicate Before(a: string, b: string) {
    if a == [] then b != []
    else b != [] && (a[0] < b[0] || (a[0] == b[0] && Before(a[1..], b[1..])))
  }

  lemma {:induction false} BeforeIsTotal(a: string, b: string)
    ensures Before(a, b) || a == b || Before(b, a)
    ensures !(Before(a, b) && Before(b, a)) && !Before(a, a)
  {
    if a != [] && b != [] {
      BeforeIsTotal(a[1..], b[1..]);
      assert a == [a[0]] + a[1..] && b == [b[0]] + b[1..];
    }
    if a != [] { BeforeIsTotal(a[1..], a[1..]); }
  }

  lemma {:induction false} BeforeChains(a: string, b: string, c: string)
    requires Before(a, b) && Before(b, c)
    ensures Before(a, c)
  {
    if a != [] && a[0] == b[0] == c[0] { BeforeChains(a[1..], b[1..], c[1..]); }
  }

  /** `s.split(c)` */
  function Split(s: string, c: char): (r: seq<string>)
    ensures r != []
  {
    if s == [] then [""]
    else if s[0] == c then [""] + Split(s[1..], c)
    else var rest := Split(s[1..], c); [[s[0]] + rest[0]] + rest[1..]
  }

  /** A field without the separator comes off the front. */
  lemma {:induction false} SplitFront(a: string, c: char, rest: string)
    requires c !in a
    ensures Split(a + [c] + rest, c) == [a] + Split(rest, c)
  {
    var s := a + [c] + rest;
    if a == [] {
      assert s[1..] == rest;
    } else {
      assert s[1..] == a[1..] + [c] + rest;
      SplitFront(a[1..], c, rest);
      assert a == [a[0]] + a[1..];
    }
  }

  lemma {:induction false} SplitNone(a: string, c: char)
    requires c !in a
    ensures Split(a, c) == [a]
  {
    if a != [] {
      SplitNone(a[1..], c);
      assert a == [a[0]] + a[1..];
    }
  }

  /** Three fields and nothing else: the fields carry no separator and make up the text. */
  lemma SplitThree(s: string, c: char)
    requires |Split(s, c)| == 3
    ensures var f := Split(s, c); c !in f[0] && c !in f[1] && c !in f[2] && s == f[0] + [c] + f[1] + [c] + f[2]
  {
    Joined(s, c);
    var f := Split(s, c);
    assert f[1..] == [f[1], f[2]] && [f[1], f[2]][1..] == [f[2]];
    assert Join([f[2]], c) == f[2];
    assert Join(f[1..], c) == f[1] + [c] + f[2];
    Assoc(f[0] + [c], f[1] + [c], f[2]);
    Assoc(f[0] + [c], f[1], [c]);
  }

  function Join(f: seq<string>, c: char): string
    requires f != []
  {
    if |f| == 1 then f[0] else f[0] + [c] + Join(f[1..], c)
  }

  lemma {:induction false} Joined(s: string, c: char)
    ensures Join(Split(s, c), c) == s
    ensures forall f :: f in Split(s, c) ==> c !in f
  {
    if s != [] {
      var rest := Split(s[1..], c);
      Joined(s[1..], c);
      var f := Split(s, c);
      if s[0] == c {
        assert f[1..] == rest;
      } else {
        assert f[1..] == rest[1..];
        forall x | x in f ensures c !in x { if x != f[0] { assert x in rest; } else { assert rest[0] in rest; } }
      }
      assert s == [s[0]] + s[1..];
    }
  }

  /** What `String.prototype.trim` takes off (section 22.1.3.32 of ECMA-262). */
  predicate IsSpace(c: char) {
    c in {' ', '\t', '\n', '\r', '\U{b}', '\U{c}', '\U{a0}', '\U{1680}', '\U{2028}', '\U{2029}', '\U{202f}', '\U{205f}', '\U{3000}', '\U{feff}'}
    || '\U{2000}' <= c <= '\U{200a}'
  }

  predicate Blank(text: string) { forall i :: 0 <= i < |text| ==> IsSpace(text[i]) }

  /** `s.trim()` */
  function Trim(s: string): (r: string)
    ensures r != [] ==> !IsSpace(r[0]) && !IsSpace(r[|r| - 1])
    ensures !Blank(s) ==> r != []
    decreases |s|
  {
    if s == [] then []
    else if IsSpace(s[0]) then assert s == [s[0]] + s[1..]; Trim(s[1..])
    else if IsSpace(s[|s| - 1]) then Trim(s[..|s| - 1])
    else s
  }

  /** Blanks come off both ends, and nothing else does. */
  lemma {:induction false} TrimIs(a: string, s: string, b: string)
    requires Blank(a) && Blank(b) && (s != [] ==> !IsSpace(s[0]) && !IsSpace(s[|s| - 1]))
    ensures Trim(a + s + b) == s
    decreases |a| + |b|
  {
    var t := a + s + b;
    if a != [] {
      assert t[1..] == a[1..] + s + b;
      TrimIs(a[1..], s, b);
    } else if b != [] {
      var front := b[..|b| - 1];
      assert t[..|t| - 1] == a + s + front;
      TrimIs(a, s, front);
      if s == [] {
        assert t == b && t[1..] == b[1..] + s + [];
        TrimIs(b[1..], s, []);
      }
    } else {
      assert t == s;
    }
  }

  /** The fields of a text that was joined are the ones it was joined from. */
  lemma {:induction false} SplitJoin(f: seq<string>, c: char)
    requires f != [] && forall x :: x in f ==> c !in x
    ensures Split(Join(f, c), c) == f
  {
    assert f[0] in f;
    if |f| == 1 {
      SplitNone(f[0], c);
    } else {
      forall x | x in f[1..] ensures c !in x { assert x in f; }
      SplitJoin(f[1..], c);
      SplitFront(f[0], c, Join(f[1..], c));
    }
  }
}
