/** Strings as the gateway uses them: trimming, lower-casing, ordering and decimal rendering.
    Characters are code points; white space and case folding are ASCII. */
module Text {

  predicate IsSpace(c: char) {
    c == ' ' || '\t' <= c <= '\r'
  }

  function TrimLeft(s: string): string {
    if s != [] && IsSpace(s[0]) then TrimLeft(s[1..]) else s
  }

  function TrimRight(s: string): string {
    if s != [] && IsSpace(s[|s| - 1]) then TrimRight(s[..|s| - 1]) else s
  }

  /** `strings.TrimSpace`. */
  function Trim(s: string): string {
    TrimRight(TrimLeft(s))
  }

  predicate Trimmed(s: string) {
    s == [] || (!IsSpace(s[0]) && !IsSpace(s[|s| - 1]))
  }

  lemma TrimRightIsPrefix(s: string)
    ensures TrimRight(s) <= s
    ensures TrimRight(s) == [] || !IsSpace(TrimRight(s)[|TrimRight(s)| - 1])
  {
  }

  lemma TrimLeftHead(s: string)
    ensures TrimLeft(s) == [] || !IsSpace(TrimLeft(s)[0])
  {
  }

  /** Trimming yields trimmed text and leaves trimmed text alone. */
  lemma TrimIdempotent(s: string)
    ensures Trimmed(Trim(s))
    ensures Trim(Trim(s)) == Trim(s)
    ensures Trimmed(s) ==> Trim(s) == s
  {
    TrimLeftHead(s);
    TrimRightIsPrefix(TrimLeft(s));
  }

  predicate Blank(s: string) {
    forall c | c in s :: IsSpace(c)
  }

  lemma {:induction false} TrimLeftCuts(s: string)
    ensures exists a :: s == a + TrimLeft(s) && Blank(a)
  {
    if s != [] && IsSpace(s[0]) {
      TrimLeftCuts(s[1..]);
      var a :| s[1..] == a + TrimLeft(s[1..]) && Blank(a);
      assert s == ([s[0]] + a) + TrimLeft(s) && Blank([s[0]] + a);
    } else {
      assert s == "" + TrimLeft(s) && Blank("");
    }
  }

  lemma {:induction false} TrimRightCuts(s: string)
    ensures exists b :: s == TrimRight(s) + b && Blank(b)
  {
    if s != [] && IsSpace(s[|s| - 1]) {
      var front := s[..|s| - 1];
      TrimRightCuts(front);
      var b :| front == TrimRight(front) + b && Blank(b);
      assert s == TrimRight(s) + (b + [s[|s| - 1]]) && Blank(b + [s[|s| - 1]]);
    } else {
      assert s == TrimRight(s) + "" && Blank("");
    }
  }

  /** Trimming cuts white space off both ends, all of it and nothing else. */
  lemma {:induction false} TrimCuts(s: string)
    ensures exists a, b :: s == a + Trim(s) + b && Blank(a) && Blank(b)
    ensures Trimmed(Trim(s))
    ensures Trim(s) == "" <==> Blank(s)
  {
    TrimIdempotent(s);
    hide TrimLeft, TrimRight, IsSpace;
    TrimLeftCuts(s);
    TrimRightCuts(TrimLeft(s));
    var a :| s == a + TrimLeft(s) && Blank(a);
    var b :| TrimLeft(s) == Trim(s) + b && Blank(b);
    CutsJoin(s, a, Trim(s), b);
  }

  lemma CutsJoin(s: string, a: string, m: string, b: string)
    requires s == a + (m + b) && Blank(a) && Blank(b) && Trimmed(m)
    ensures s == a + m + b && (m == "" <==> Blank(s))
  {
    hide IsSpace;
    if m != "" {
      assert s[|a|] == m[0];
    } else {
      assert forall c | c in s :: c in a || c in b;
    }
  }

  function LowerChar(c: char): char {
    if 'A' <= c <= 'Z' then ((c as int) + 32) as char else c
  }

  /** `strings.ToLower`. */
  function ToLower(s: string): (r: string)
    ensures |r| == |s|
  {
    seq(|s|, i requires 0 <= i < |s| => LowerChar(s[i]))
  }

  /** The characters are the same, or the capital and the small form of one ASCII letter. */
  predicate SameLetter(c: char, d: char) {
    || c == d
    || ('A' <= c <= 'Z' && d as int == c as int + 32)
    || ('A' <= d <= 'Z' && c as int == d as int + 32)
  }

  /** Lower-casing identifies exactly the texts that differ in the case of letters only. */
  lemma {:induction false} LowerIff(s: string, t: string)
    ensures ToLower(s) == ToLower(t) <==> |s| == |t| && forall i | 0 <= i < |s| :: SameLetter(s[i], t[i])
  {
    if ToLower(s) == ToLower(t) {
      forall i | 0 <= i < |s|
        ensures SameLetter(s[i], t[i])
      {
        assert ToLower(s)[i] == ToLower(t)[i];
      }
    }
  }

  /** Canonical spelling of a type name. */
  function TypeName(s: string): string {
    ToLower(Trim(s))
  }

  lemma LowerTrimmed(s: string)
    requires Trimmed(s)
    ensures Trimmed(ToLower(s)) && ToLower(ToLower(s)) == ToLower(s)
  {
  }

  lemma TypeNameIdempotent(s: string)
    ensures TypeName(TypeName(s)) == TypeName(s)
  {
    TrimIdempotent(s);
    LowerTrimmed(Trim(s));
    TrimIdempotent(ToLower(Trim(s)));
  }

  /** Go's `<` on strings. */
  predicate Less(a: string, b: string) {
    if b == [] then false
    else if a == [] then true
    else a[0] < b[0] || (a[0] == b[0] && Less(a[1..], b[1..]))
  }

  lemma LessIrreflexive(a: string)
    ensures !Less(a, a)
  {
  }

  lemma LessTransitive(a: string, b: string, c: string)
    requires Less(a, b) && Less(b, c)
    ensures Less(a, c)
  {
  }

  lemma {:induction false} LessConnected(a: string, b: string)
    requires a != b
    ensures Less(a, b) || Less(b, a)
  {
    if a != [] && b != [] && a[0] == b[0] {
      assert a == [a[0]] + a[1..] && b == [b[0]] + b[1..];
      LessConnected(a[1..], b[1..]);
    }
  }

  lemma {:induction false} LessLonger(a: string, c: char)
    ensures Less(a, a + [c])
  {
    if a != [] {
      LessLonger(a[1..], c);
      assert (a + [c])[1..] == a[1..] + [c];
    }
  }

  /** Text before a first separator cannot be shorter on one side of an equation than on the other. */
  lemma PrefixSplits(n: string, s: string, n': string, s': string, sep: char)
    requires s' == "" || s'[0] == sep
    requires n + s == n' + s'
    ensures |n| <= |n'| || sep in n
  {
    if |n'| < |n| {
      assert (n' + s')[|n'|] == s'[0];
      assert n[|n'|] == sep;
    }
  }

  lemma {:induction false} Longest(names: set<string>) returns (n: nat)
    ensures forall x | x in names :: |x| <= n
    decreases |names|
  {
    n := 0;
    if |names| > 0 {
      var y :| y in names;
      var rest := Longest(names - {y});
      n := if |y| > rest then |y| else rest;
      assert forall x | x in names :: x == y || x in names - {y};
    }
  }

  /** There is always a name that is not in use. */
  lemma FreshName(names: set<string>) returns (x: string)
    ensures x !in names && x != ""
  {
    var n := Longest(names);
    x := seq(n + 1, _ => 'x');
    assert |x| == n + 1;
  }

  /** Joined with a slash, slash-free first parts and their second parts can be told apart. */
  lemma {:induction false} SlashInjective(a: string, b: string, c: string, d: string)
    requires '/' !in a && '/' !in c && a + "/" + b == c + "/" + d
    ensures a == c && b == d
  {
    var x, y := a + "/" + b, c + "/" + d;
    assert x == a + ("/" + b) && y == c + ("/" + d);
    PrefixSplits(a, "/" + b, c, "/" + d, '/');
    PrefixSplits(c, "/" + d, a, "/" + b, '/');
    assert a == x[..|a|] && c == y[..|a|];
    assert b == x[|a| + 1..] && d == y[|a| + 1..];
  }

  /** Decimal rendering of a non-negative integer (`%d`). */
  function Itoa(n: nat): (s: string)
    ensures |s| >= 1 && (n >= 10 ==> |s| >= 2)
  {
    if n < 10 then ["0123456789"[n]] else Itoa(n / 10) + ["0123456789"[n % 10]]
  }

  lemma {:induction false} ItoaInjective(m: nat, n: nat)
    requires Itoa(m) == Itoa(n)
    ensures m == n
  {
    if m >= 10 && n >= 10 {
      var a, b := Itoa(m), Itoa(n);
      assert a[..|a| - 1] == Itoa(m / 10) && b[..|b| - 1] == Itoa(n / 10);
      assert a[|a| - 1] == "0123456789"[m % 10] && b[|b| - 1] == "0123456789"[n % 10];
      DigitInjective(m % 10, n % 10);
      ItoaInjective(m / 10, n / 10);
    } else if m < 10 && n < 10 {
      assert Itoa(m)[0] == "0123456789"[m] && Itoa(n)[0] == "0123456789"[n];
      DigitInjective(m, n);
    }
  }

  lemma DigitInjective(m: nat, n: nat)
    requires m < 10 && n < 10
    requires "0123456789"[m] == "0123456789"[n]
    ensures m == n
  {
  }
}
