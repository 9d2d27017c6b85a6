/** Strings in code-unit order, and joined lists. */
module Text {
  import opened Seqs

  predicate StrLe(a: string, b: string) {
    a == [] || (b != [] && (a[0] < b[0] || (a[0] == b[0] && StrLe(a[1..], b[1..]))))
  }

  lemma {:induction false} StrTotal(a: string, b: string)
    ensures StrLe(a, b) || StrLe(b, a)
    ensures StrLe(a, b) && StrLe(b, a) ==> a == b
  {
    if a != [] && b != [] && a[0] == b[0] {
      StrTotal(a[1..], b[1..]);
      assert a == [a[0]] + a[1..] && b == [b[0]] + b[1..];
    }
  }

  /** The first place where they differ has the lower unit in `a`. */
  predicate LowerAt(a: string, b: string, i: nat) { i < |a| && i < |b| && a[..i] == b[..i] && a[i] < b[i] }

  /** Code-unit order: a beginning, or lower where they first differ. */
  lemma {:induction false} StrLeIs(a: string, b: string)
    ensures StrLe(a, b) <==> a <= b || exists i :: LowerAt(a, b, i)
  {
    if a != [] && b != [] {
      assert LowerAt(a, b, 0) <==> a[0] < b[0];
      assert a == [a[0]] + a[1..] && b == [b[0]] + b[1..];
      if a[0] == b[0] {
        StrLeIs(a[1..], b[1..]);
        assert a <= b <==> a[1..] <= b[1..];
        forall i: nat ensures LowerAt(a, b, i + 1) <==> LowerAt(a[1..], b[1..], i) { LowerLater(a, b, i); }
        if i: nat :| LowerAt(a[1..], b[1..], i) { assert LowerAt(a, b, i + 1); }
        if i: nat :| LowerAt(a, b, i) { assert LowerAt(a[1..], b[1..], i - 1); }
      } else {
        if i: nat :| LowerAt(a, b, i) { assert i > 0 ==> a[..i][0] == b[..i][0]; }
      }
    }
  }

  lemma LowerLater(a: string, b: string, i: nat)
    requires a != [] && b != [] && a[0] == b[0]
    ensures LowerAt(a, b, i + 1) <==> LowerAt(a[1..], b[1..], i)
  {
    if i + 1 < |a| && i + 1 < |b| {
      assert a[..i + 1] == [a[0]] + a[1..][..i] && b[..i + 1] == [b[0]] + b[1..][..i];
      assert a[1..][..i] == a[..i + 1][1..] && b[1..][..i] == b[..i + 1][1..];
    }
  }

  lemma {:induction false} StrTransitive(a: string, b: string, c: string)
    requires StrLe(a, b) && StrLe(b, c)
    ensures StrLe(a, c)
  {
    if a != [] && a[0] == b[0] && b[0] == c[0] {
      StrTransitive(a[1..], b[1..], c[1..]);
    }
  }

  lemma StrPreorder()
    ensures Preorder(StrLe)
  {
    forall a, b ensures StrLe(a, b) || StrLe(b, a) { StrTotal(a, b); }
    forall a, b, c | StrLe(a, b) && StrLe(b, c) ensures StrLe(a, c) { StrTransitive(a, b, c); }
  }

  function Sorted(xs: seq<string>): seq<string> { SortBy(StrLe, xs) }

  /** Sorting is canonical: it depends only on which strings there are, and how often. */
  lemma {:induction false} SortedCanonical(xs: seq<string>, ys: seq<string>)
    requires Permutes(xs, ys)
    ensures Sorted(xs) == Sorted(ys)
  {
    StrPreorder();
    SortBySorted(StrLe, xs);
    SortBySorted(StrLe, ys);
    SortByPermutes(StrLe, xs);
    SortByPermutes(StrLe, ys);
    SortedSame(Sorted(xs), Sorted(ys));
  }

  lemma {:induction false} SortedSame(xs: seq<string>, ys: seq<string>)
    requires SortedBy(StrLe, xs) && SortedBy(StrLe, ys) && Permutes(xs, ys)
    ensures xs == ys
  {
    PermutesIn(xs, ys);
    if xs != [] {
      HeadLeast(StrLe, xs, ys[0]);
      HeadLeast(StrLe, ys, xs[0]);
      StrTotal(xs[0], ys[0]);
      TailPermutes(xs, ys);
      SortedSame(xs[1..], ys[1..]);
    }
  }

  // ---- Joined lists ----

  function Join(xs: seq<string>, sep: char): string {
    if xs == [] then "" else if |xs| == 1 then xs[0] else xs[0] + [sep] + Join(xs[1..], sep)
  }

  ghost predicate Without(xs: seq<string>, sep: char) {
    forall x :: x in xs ==> sep !in x
  }

  /** The text before a separator is determined by the whole text. */
  lemma {:induction false} HeadSplit(a: string, s: string, b: string, t: string, sep: char)
    requires sep !in a && sep !in b
    requires a + [sep] + s == b + [sep] + t
    ensures a == b && s == t
  {
    var u, v := a + [sep] + s, b + [sep] + t;
    assert u[|a|] == sep && v[|b|] == sep;
    assert forall i | 0 <= i < |a| :: u[i] in a;
    assert forall i | 0 <= i < |b| :: v[i] in b;
    assert |a| == |b|;
    assert u[..|a|] == a && v[..|b|] == b;
    assert u[|a| + 1..] == s && v[|b| + 1..] == t;
  }

  lemma JoinHasSep(xs: seq<string>, sep: char)
    requires xs != [] && Without(xs, sep)
    ensures sep in Join(xs, sep) <==> |xs| > 1
  {
    assert xs[0] in xs;
    if |xs| > 1 {
      assert Join(xs, sep)[|xs[0]|] == sep;
    }
  }

  /** Lists of separator-free texts can be read back from their join. */
  lemma {:induction false} JoinInjective(xs: seq<string>, ys: seq<string>, sep: char)
    requires xs != [] && ys != [] && Without(xs, sep) && Without(ys, sep)
    requires Join(xs, sep) == Join(ys, sep)
    ensures xs == ys
  {
    JoinHasSep(xs, sep);
    JoinHasSep(ys, sep);
    if |xs| > 1 {
      HeadSplit(xs[0], Join(xs[1..], sep), ys[0], Join(ys[1..], sep), sep);
      JoinInjective(xs[1..], ys[1..], sep);
      assert xs == [xs[0]] + xs[1..] && ys == [ys[0]] + ys[1..];
    }
  }

  lemma {:induction false} JoinWithout(xs: seq<string>, sep: char, other: char)
    requires other != sep && Without(xs, other)
    ensures other !in Join(xs, sep)
  {
    if |xs| > 1 {
      JoinWithout(xs[1..], sep, other);
    }
  }

  // ---- Blanks ----

  predicate IsSpace(c: char) { c == ' ' || c == '\t' || c == '\n' || c == '\r' }

  predicate Blank(s: string) { forall c :: c in s ==> IsSpace(c) }

  function Trim(s: string): string {
    if s != [] && IsSpace(s[0]) then Trim(s[1..])
    else if s != [] && IsSpace(s[|s| - 1]) then Trim(s[..|s| - 1])
    else s
  }

  /** What trimming leaves is the middle, with blanks alone around it and none at its ends. */
  lemma {:induction false} TrimIsMiddle(s: string) returns (front: string, back: string)
    ensures s == front + Trim(s) + back && Blank(front) && Blank(back)
    ensures Trim(s) != "" ==> !IsSpace(Trim(s)[0]) && !IsSpace(Trim(s)[|Trim(s)| - 1])
    ensures Trim(s) == "" <==> Blank(s)
    decreases |s|
  {
    front, back := "", "";
    if s != [] && IsSpace(s[0]) {
      front, back := TrimIsMiddle(s[1..]);
      front := [s[0]] + front;
    } else if s != [] && IsSpace(s[|s| - 1]) {
      front, back := TrimIsMiddle(s[..|s| - 1]);
      back := back + [s[|s| - 1]];
    }
  }

  // ---- Decimal text ----

  function Digit(d: nat): char
    requires d < 10
  {
    "0123456789"[d]
  }

  function NatText(n: nat): string {
    if n < 10 then [Digit(n)] else NatText(n / 10) + [Digit(n % 10)]
  }

  function IntText(n: int): string {
    if n < 0 then "-" + NatText(-n) else NatText(n)
  }

  predicate IsDigit(c: char) { '0' <= c <= '9' }

  lemma {:induction false} NatTextDigits(n: nat)
    ensures |NatText(n)| > 0 && forall c :: c in NatText(n) ==> IsDigit(c)
  {
    if n >= 10 { NatTextDigits(n / 10); }
  }

  lemma {:induction false} NatTextInjective(m: nat, n: nat)
    requires NatText(m) == NatText(n)
    ensures m == n
  {
    var s := NatText(m);
    assert s[|s| - 1] == Digit(m % 10) && s[|s| - 1] == Digit(n % 10);
    NatTextDigits(m / 10);
    NatTextDigits(n / 10);
    if m >= 10 && n >= 10 {
      assert s[..|s| - 1] == NatText(m / 10) && s[..|s| - 1] == NatText(n / 10);
      NatTextInjective(m / 10, n / 10);
    }
  }

  lemma IntTextSign(n: int)
    ensures |IntText(n)| > 0 && (IntText(n)[0] == '-' <==> n < 0)
  {
    NatTextDigits(if n < 0 then -n else n);
    assert n >= 0 ==> IntText(n)[0] in IntText(n);
  }

  lemma IntTextInjective(m: int, n: int)
    requires IntText(m) == IntText(n)
    ensures m == n
  {
    IntTextSign(m);
    IntTextSign(n);
    if m < 0 {
      assert IntText(m)[1..] == NatText(-m) && IntText(n)[1..] == NatText(-n);
      NatTextInjective(-m, -n);
    } else {
      NatTextInjective(m, n);
    }
  }

  lemma IntTextChars(n: int, c: char)
    requires c in IntText(n)
    ensures IsDigit(c) || c == '-'
  {
    NatTextDigits(if n < 0 then -n else n);
  }
}
