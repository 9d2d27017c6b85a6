/** Filtering, stable sorting and permutations of sequences: the list operations
    that the result grid, the approval queue and the access editor share. */
module Seqs {

  function Filter<T>(xs: seq<T>, p: T -> bool): (r: seq<T>)
    ensures forall x :: x in r ==> x in xs && p(x)
    ensures forall x :: x in xs && p(x) ==> x in r
  {
    if xs == [] then []
    else if p(xs[0]) then [xs[0]] + Filter(xs[1..], p)
    else Filter(xs[1..], p)
  }

  function Map<A, B>(xs: seq<A>, f: A -> B): (r: seq<B>)
    ensures |r| == |xs|
    ensures forall i :: 0 <= i < |xs| ==> r[i] == f(xs[i])
  {
    seq(|xs|, i requires 0 <= i < |xs| => f(xs[i]))
  }

  ghost predicate Permutes<T>(xs: seq<T>, ys: seq<T>) {
    multiset(xs) == multiset(ys)
  }

  lemma PermutesIn<T>(xs: seq<T>, ys: seq<T>)
    requires Permutes(xs, ys)
    ensures |xs| == |ys|
    ensures forall x :: x in xs ==> x in ys
    ensures forall x :: x in ys ==> x in xs
  {
    assert |multiset(xs)| == |xs| && |multiset(ys)| == |ys|;
    forall x | x in xs ensures x in ys { assert x in multiset(xs); }
    forall x | x in ys ensures x in xs { assert x in multiset(ys); }
  }

  ghost predicate Distinct<T>(xs: seq<T>) {
    forall i, j :: 0 <= i < j < |xs| ==> xs[i] != xs[j]
  }

  lemma CountTwice<T>(xs: seq<T>, i: nat, j: nat)
    requires i < j < |xs| && xs[i] == xs[j]
    ensures multiset(xs)[xs[i]] >= 2
  {
    var front, back := xs[..j], xs[j..];
    assert xs == front + back && front[i] == xs[i] && back[0] == xs[j];
    assert xs[i] in multiset(front) && xs[j] in multiset(back);
  }

  lemma {:induction false} CountOnce<T>(xs: seq<T>, x: T)
    requires Distinct(xs)
    ensures multiset(xs)[x] <= 1
  {
    if xs != [] {
      CountOnce(xs[1..], x);
      assert xs == [xs[0]] + xs[1..];
      if x == xs[0] { assert x !in xs[1..]; }
    }
  }

  lemma DistinctPermutes<T>(xs: seq<T>, ys: seq<T>)
    requires Permutes(xs, ys) && Distinct(xs)
    ensures Distinct(ys)
  {
    forall i, j | 0 <= i < j < |ys| ensures ys[i] != ys[j] {
      if ys[i] == ys[j] {
        CountTwice(ys, i, j);
        CountOnce(xs, ys[i]);
      }
    }
  }

  lemma {:induction false} FilterAppend<T>(xs: seq<T>, ys: seq<T>, p: T -> bool)
    ensures Filter(xs + ys, p) == Filter(xs, p) + Filter(ys, p)
  {
    if xs == [] {
      assert xs + ys == ys;
    } else {
      assert (xs + ys)[1..] == xs[1..] + ys;
      FilterAppend(xs[1..], ys, p);
    }
  }

  lemma {:induction false} FilterMultiset<T>(xs: seq<T>, p: T -> bool, x: T)
    ensures multiset(Filter(xs, p))[x] == if p(x) then multiset(xs)[x] else 0
  {
    if xs != [] {
      assert xs == [xs[0]] + xs[1..];
      FilterMultiset(xs[1..], p, x);
    }
  }

  lemma {:induction false} FilterAll<T>(xs: seq<T>, p: T -> bool)
    requires forall x :: x in xs ==> p(x)
    ensures Filter(xs, p) == xs
  {
    if xs != [] { FilterAll(xs[1..], p); }
  }

  lemma {:induction false} FilterNone<T>(xs: seq<T>, p: T -> bool)
    requires forall x :: x in xs ==> !p(x)
    ensures Filter(xs, p) == []
  {
    if xs != [] { FilterNone(xs[1..], p); }
  }

  lemma {:induction false} FilterSame<T>(xs: seq<T>, p: T -> bool, q: T -> bool)
    requires forall x :: x in xs ==> p(x) == q(x)
    ensures Filter(xs, p) == Filter(xs, q)
  {
    if xs != [] { FilterSame(xs[1..], p, q); }
  }

  lemma FilterPermutes<T(!new)>(xs: seq<T>, ys: seq<T>, p: T -> bool)
    requires Permutes(xs, ys)
    ensures Permutes(Filter(xs, p), Filter(ys, p))
  {
    forall x ensures multiset(Filter(xs, p))[x] == multiset(Filter(ys, p))[x] {
      FilterMultiset(xs, p, x);
      FilterMultiset(ys, p, x);
    }
    assert multiset(Filter(xs, p)) == multiset(Filter(ys, p));
  }

  lemma SplitAt<T>(xs: seq<T>, x: T) returns (i: nat)
    requires x in xs
    ensures i < |xs| && xs == xs[..i] + [x] + xs[i + 1..]
    ensures multiset(xs[..i] + xs[i + 1..]) == multiset(xs) - multiset{x}
  {
    i :| 0 <= i < |xs| && xs[i] == x;
    assert xs == xs[..i] + [x] + xs[i + 1..];
  }

  lemma MapAround<A, B>(front: seq<A>, x: A, back: seq<A>, f: A -> B)
    ensures multiset(Map(front + [x] + back, f)) == multiset(Map(front + back, f)) + multiset{f(x)}
  {
    assert Map(front + [x] + back, f) == Map(front, f) + [f(x)] + Map(back, f);
    assert Map(front + back, f) == Map(front, f) + Map(back, f);
  }

  lemma {:induction false} MapPermutes<A, B>(xs: seq<A>, ys: seq<A>, f: A -> B)
    requires Permutes(xs, ys)
    ensures Permutes(Map(xs, f), Map(ys, f))
    decreases |xs|
  {
    PermutesIn(xs, ys);
    if xs != [] {
      var x, rest := xs[0], xs[1..];
      assert xs == [] + [x] + rest && [] + rest == rest;
      var i := SplitAt(ys, x);
      var front, back := ys[..i], ys[i + 1..];
      assert multiset(rest) == multiset(xs) - multiset{x};
      MapPermutes(rest, front + back, f);
      MapAround([], x, rest, f);
      MapAround(front, x, back, f);
    }
  }

  lemma WithKey<A, B>(ys: seq<A>, f: A -> B, key: B) returns (front: seq<A>, y: A, back: seq<A>)
    requires key in Map(ys, f)
    ensures ys == front + [y] + back && f(y) == key && y in ys
    ensures forall z :: z in front + back ==> z in ys
    ensures multiset(Map(ys, f)) == multiset(Map(front + back, f)) + multiset{key}
  {
    var j :| 0 <= j < |ys| && Map(ys, f)[j] == key;
    front, y, back := ys[..j], ys[j], ys[j + 1..];
    MapAround(front, y, back, f);
  }

  lemma MapFirst<A, B>(x: A, xs: seq<A>, f: A -> B)
    ensures multiset(Map([x] + xs, f)) == multiset{f(x)} + multiset(Map(xs, f))
  {
    assert Map([x] + xs, f) == [f(x)] + Map(xs, f);
  }

  /** If equal keys mean equal values, lists with the same keys have the same values. */
  lemma {:induction false} KeysPermute<A(!new), B, C>(xs: seq<A>, ys: seq<A>, f: A -> B, g: A -> C)
    requires Permutes(Map(xs, f), Map(ys, f))
    requires forall x, y :: x in xs && y in ys && f(x) == f(y) ==> g(x) == g(y)
    ensures Permutes(Map(xs, g), Map(ys, g))
    decreases |xs|
  {
    PermutesIn(Map(xs, f), Map(ys, f));
    if xs != [] {
      var x, rest := xs[0], xs[1..];
      assert xs == [x] + rest && x in xs;
      assert Map(xs, f)[0] == f(x);
      var front, y, back := WithKey(ys, f, f(x));
      assert Permutes(Map(rest, f), Map(front + back, f)) by {
        MapFirst(x, rest, f);
        assert multiset(Map(rest, f)) == multiset(Map(xs, f)) - multiset{f(x)};
      }
      KeysPermute(rest, front + back, f, g);
      MapFirst(x, rest, g);
      MapAround(front, y, back, g);
    }
  }

  lemma {:induction false} FilterMap<A, B>(xs: seq<A>, f: A -> B, p: A -> bool, q: B -> bool)
    requires forall x :: x in xs ==> p(x) == q(f(x))
    ensures Filter(Map(xs, f), q) == Map(Filter(xs, p), f)
  {
    if xs != [] {
      FilterMap(xs[1..], f, p, q);
      assert Map(xs, f)[1..] == Map(xs[1..], f);
    }
  }

  lemma {:induction false} FilterTwice<T>(xs: seq<T>, p: T -> bool, q: T -> bool, both: T -> bool)
    requires forall x :: x in xs ==> both(x) == (p(x) && q(x))
    ensures Filter(Filter(xs, p), q) == Filter(xs, both)
  {
    if xs != [] {
      FilterTwice(xs[1..], p, q, both);
      if p(xs[0]) {
        assert ([xs[0]] + Filter(xs[1..], p))[1..] == Filter(xs[1..], p);
      }
    }
  }

  // ---- Stable sorting ----

  ghost predicate Preorder<T(!new)>(le: (T, T) -> bool) {
    && (forall a, b :: le(a, b) || le(b, a))
    && (forall a, b, c :: le(a, b) && le(b, c) ==> le(a, c))
  }

  ghost predicate SortedBy<T>(le: (T, T) -> bool, xs: seq<T>) {
    forall i, j :: 0 <= i < j < |xs| ==> le(xs[i], xs[j])
  }

  function Insert<T>(le: (T, T) -> bool, x: T, ys: seq<T>): seq<T> {
    if ys == [] || le(x, ys[0]) then [x] + ys
    else [ys[0]] + Insert(le, x, ys[1..])
  }

  /** The stable sort: an element stays ahead of the later ones it ties with. */
  function SortBy<T>(le: (T, T) -> bool, xs: seq<T>): seq<T> {
    if xs == [] then [] else Insert(le, xs[0], SortBy(le, xs[1..]))
  }

  lemma {:induction false} InsertPermutes<T>(le: (T, T) -> bool, x: T, ys: seq<T>)
    ensures Permutes(Insert(le, x, ys), [x] + ys)
  {
    if ys != [] && !le(x, ys[0]) {
      InsertPermutes(le, x, ys[1..]);
      assert ys == [ys[0]] + ys[1..];
    }
  }

  lemma {:induction false} SortByPermutes<T>(le: (T, T) -> bool, xs: seq<T>)
    ensures Permutes(SortBy(le, xs), xs)
  {
    if xs != [] {
      SortByPermutes(le, xs[1..]);
      InsertPermutes(le, xs[0], SortBy(le, xs[1..]));
      assert xs == [xs[0]] + xs[1..];
    }
  }

  lemma {:induction false} InsertSorted<T(!new)>(le: (T, T) -> bool, x: T, ys: seq<T>)
    requires SortedBy(le, ys) && Preorder(le)
    ensures SortedBy(le, Insert(le, x, ys))
  {
    if ys != [] && le(x, ys[0]) {
      forall y | y in ys ensures le(x, y) { HeadLeast(le, ys, y); }
    } else if ys != [] {
      var r := Insert(le, x, ys[1..]);
      InsertSorted(le, x, ys[1..]);
      InsertPermutes(le, x, ys[1..]);
      PermutesIn(r, [x] + ys[1..]);
      forall y | y in r ensures le(ys[0], y) {
        if y != x { assert y in ys; HeadLeast(le, ys, y); }
      }
    }
  }

  lemma {:induction false} SortBySorted<T(!new)>(le: (T, T) -> bool, xs: seq<T>)
    requires Preorder(le)
    ensures SortedBy(le, SortBy(le, xs))
  {
    if xs != [] {
      var rest := SortBy(le, xs[1..]);
      SortBySorted(le, xs[1..]);
      SortByPermutes(le, xs[1..]);
      PermutesIn(rest, xs[1..]);
      InsertSorted(le, xs[0], rest);
    }
  }

  /** Sorting an already sorted sequence leaves it alone. */
  lemma {:induction false} SortByFixed<T>(le: (T, T) -> bool, xs: seq<T>)
    requires SortedBy(le, xs)
    ensures SortBy(le, xs) == xs
  {
    if xs != [] {
      SortByFixed(le, xs[1..]);
      assert xs == [xs[0]] + xs[1..];
    }
  }

  lemma HeadLeast<T>(le: (T, T) -> bool, xs: seq<T>, y: T)
    requires SortedBy(le, xs) && y in xs
    ensures y == xs[0] || le(xs[0], y)
  {}

  lemma FilterCons<T>(x: T, xs: seq<T>, p: T -> bool)
    ensures Filter([x] + xs, p) == if p(x) then [x] + Filter(xs, p) else Filter(xs, p)
  {
    assert ([x] + xs)[1..] == xs;
  }

  lemma InsertCons<T>(le: (T, T) -> bool, x: T, y: T, ys: seq<T>)
    requires !le(x, y)
    ensures Insert(le, x, [y] + ys) == [y] + Insert(le, x, ys)
  {
    assert ([y] + ys)[1..] == ys;
  }

  lemma SortByCons<T>(le: (T, T) -> bool, x: T, xs: seq<T>)
    ensures SortBy(le, [x] + xs) == Insert(le, x, SortBy(le, xs))
  {
    assert ([x] + xs)[1..] == xs;
  }

  lemma InsertFront<T(!new)>(le: (T, T) -> bool, x: T, ys: seq<T>, p: T -> bool)
    requires SortedBy(le, ys) && Preorder(le)
    requires ys == [] || le(x, ys[0])
    ensures Insert(le, x, Filter(ys, p)) == [x] + Filter(ys, p)
  {
    if Filter(ys, p) != [] {
      var y := Filter(ys, p)[0];
      assert y in Filter(ys, p);
      HeadLeast(le, ys, y);
    }
  }

  /** A filter may be taken before or after inserting into a sorted sequence. */
  lemma {:induction false} InsertFilter<T(!new)>(le: (T, T) -> bool, x: T, ys: seq<T>, p: T -> bool)
    requires SortedBy(le, ys) && Preorder(le)
    ensures Filter(Insert(le, x, ys), p)
         == if p(x) then Insert(le, x, Filter(ys, p)) else Filter(ys, p)
  {
    if ys == [] || le(x, ys[0]) {
      FilterCons(x, ys, p);
      InsertFront(le, x, ys, p);
    } else {
      var y, tail := ys[0], ys[1..];
      InsertFilter(le, x, tail, p);
      FilterCons(y, Insert(le, x, tail), p);
      if p(y) { InsertCons(le, x, y, Filter(tail, p)); }
    }
  }

  lemma {:induction false} SortFilterCommute<T(!new)>(le: (T, T) -> bool, xs: seq<T>, p: T -> bool)
    requires Preorder(le)
    ensures Filter(SortBy(le, xs), p) == SortBy(le, Filter(xs, p))
  {
    if xs != [] {
      var x, tail := xs[0], xs[1..];
      SortBySorted(le, tail);
      InsertFilter(le, x, SortBy(le, tail), p);
      SortFilterCommute(le, tail, p);
      if p(x) { SortByCons(le, x, Filter(tail, p)); }
    }
  }

  lemma TailPermutes<T>(xs: seq<T>, ys: seq<T>)
    requires Permutes(xs, ys) && xs != [] && ys != [] && xs[0] == ys[0]
    ensures Permutes(xs[1..], ys[1..])
  {
    assert xs == [xs[0]] + xs[1..] && ys == [ys[0]] + ys[1..];
    assert multiset(xs[1..]) == multiset(xs) - multiset{xs[0]};
    assert multiset(ys[1..]) == multiset(ys) - multiset{ys[0]};
  }

  /** Under a strict order a set of elements has only one sorted arrangement. */
  lemma {:induction false} StrictlySortedUnique<T(!new)>(lt: (T, T) -> bool, xs: seq<T>, ys: seq<T>)
    requires forall a, b :: a in xs && b in xs && lt(a, b) ==> !lt(b, a)
    requires SortedBy(lt, xs) && SortedBy(lt, ys) && Permutes(xs, ys)
    ensures xs == ys
  {
    PermutesIn(xs, ys);
    if xs != [] {
      HeadLeast(lt, xs, ys[0]);
      HeadLeast(lt, ys, xs[0]);
      TailPermutes(xs, ys);
      StrictlySortedUnique(lt, xs[1..], ys[1..]);
    }
  }

  lemma {:induction false} InsertAgree<T>(le: (T, T) -> bool, le': (T, T) -> bool, x: T, ys: seq<T>)
    requires forall y :: y in ys ==> le(x, y) == le'(x, y)
    ensures Insert(le, x, ys) == Insert(le', x, ys)
  {
    if ys != [] { InsertAgree(le, le', x, ys[1..]); }
  }

  /** The sort reads its order only on the elements it sorts. */
  lemma {:induction false} SortByAgree<T>(le: (T, T) -> bool, le': (T, T) -> bool, xs: seq<T>)
    requires forall x, y :: x in xs && y in xs ==> le(x, y) == le'(x, y)
    ensures SortBy(le, xs) == SortBy(le', xs)
  {
    if xs != [] {
      SortByAgree(le, le', xs[1..]);
      SortByPermutes(le, xs[1..]);
      PermutesIn(SortBy(le, xs[1..]), xs[1..]);
      InsertAgree(le, le', xs[0], SortBy(le, xs[1..]));
    }
  }

  // ---- Positions as tie-breaks ----

  datatype Indexed<T> = Indexed(val: T, at: int)

  function Index<T>(xs: seq<T>, from: int): (r: seq<Indexed<T>>)
    ensures |r| == |xs|
    ensures forall i :: 0 <= i < |xs| ==> r[i] == Indexed(xs[i], from + i)
  {
    seq(|xs|, i requires 0 <= i < |xs| => Indexed(xs[i], from + i))
  }

  function Values<T>(xs: seq<Indexed<T>>): (r: seq<T>)
    ensures |r| == |xs|
  {
    seq(|xs|, i requires 0 <= i < |xs| => xs[i].val)
  }

  /** `x` goes before `y`: by the order, and by position where the order ties. */
  predicate Before<T>(le: (T, T) -> bool, x: Indexed<T>, y: Indexed<T>) {
    le(x.val, y.val) && (le(y.val, x.val) ==> x.at < y.at)
  }

  function OnValues<T>(le: (T, T) -> bool): (Indexed<T>, Indexed<T>) -> bool {
    (x: Indexed<T>, y: Indexed<T>) => le(x.val, y.val)
  }

  function BeforeBy<T>(le: (T, T) -> bool): (Indexed<T>, Indexed<T>) -> bool {
    (x: Indexed<T>, y: Indexed<T>) => Before(le, x, y)
  }

  lemma {:induction false} InsertValues<T>(le: (T, T) -> bool, x: Indexed<T>, ys: seq<Indexed<T>>)
    ensures Values(Insert(OnValues(le), x, ys)) == Insert(le, x.val, Values(ys))
  {
    if ys != [] {
      InsertValues(le, x, ys[1..]);
      assert Values(ys)[1..] == Values(ys[1..]);
    }
  }

  lemma {:induction false} SortByValues<T>(le: (T, T) -> bool, xs: seq<Indexed<T>>)
    ensures Values(SortBy(OnValues(le), xs)) == SortBy(le, Values(xs))
  {
    if xs != [] {
      SortByValues(le, xs[1..]);
      InsertValues(le, xs[0], SortBy(OnValues(le), xs[1..]));
      assert Values(xs)[1..] == Values(xs[1..]);
    }
  }

  lemma {:induction false} InsertStable<T(!new)>(le: (T, T) -> bool, x: Indexed<T>, ys: seq<Indexed<T>>)
    requires Preorder(le) && SortedBy(BeforeBy(le), ys)
    requires forall y :: y in ys ==> x.at < y.at
    ensures SortedBy(BeforeBy(le), Insert(OnValues(le), x, ys))
  {
    if ys != [] && le(x.val, ys[0].val) {
      forall y | y in ys ensures Before(le, x, y) { HeadLeast(BeforeBy(le), ys, y); }
    } else if ys != [] {
      var r := Insert(OnValues(le), x, ys[1..]);
      InsertStable(le, x, ys[1..]);
      InsertPermutes(OnValues(le), x, ys[1..]);
      PermutesIn(r, [x] + ys[1..]);
      forall y | y in r ensures Before(le, ys[0], y) {
        if y != x { assert y in ys; HeadLeast(BeforeBy(le), ys, y); }
      }
    }
  }

  lemma {:induction false} SortByStable<T(!new)>(le: (T, T) -> bool, xs: seq<Indexed<T>>)
    requires Preorder(le)
    requires forall i, j :: 0 <= i < j < |xs| ==> xs[i].at < xs[j].at
    ensures SortedBy(BeforeBy(le), SortBy(OnValues(le), xs))
  {
    if xs != [] {
      SortByStable(le, xs[1..]);
      SortByPermutes(OnValues(le), xs[1..]);
      PermutesIn(SortBy(OnValues(le), xs[1..]), xs[1..]);
      InsertStable(le, xs[0], SortBy(OnValues(le), xs[1..]));
    }
  }

  /** Whatever arrangement respects the order and breaks ties by position is the
      stable sort: there is only one. */
  lemma StableUnique<T(!new)>(le: (T, T) -> bool, xs: seq<T>, out: seq<Indexed<T>>)
    requires Preorder(le) && Permutes(out, Index(xs, 0))
    requires SortedBy(BeforeBy(le), out)
    ensures Values(out) == SortBy(le, xs)
  {
    var items := Index(xs, 0);
    var sorted := SortBy(OnValues(le), items);
    SortByStable(le, items);
    SortByPermutes(OnValues(le), items);
    StrictlySortedUnique(BeforeBy(le), out, sorted);
    SortByValues(le, items);
    assert Values(items) == xs;
  }
}
