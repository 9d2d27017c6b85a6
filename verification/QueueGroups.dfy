/** The approval queue's groups (qh-admin.jsx): the items of a batch arrive interleaved with
    everyone else's, and are shown together, as written, at the place of the first. */
module QueueGroups {
  import opened Options
  import opened Seqs

  /** A waiting request; `bundle` is "" for one that came alone. */
  datatype Item = Item(id: nat, bundle: string, position: Option<int>, size: nat)

  datatype Group = Solo(item: Item) | Bundle(id: string, rows: seq<Item>, size: nat)

  function Position(x: Item): int { if x.position.Some? then x.position.value else 0 }

  function ByPosition(): (Item, Item) -> bool { (x: Item, y: Item) => Position(x) <= Position(y) }

  function InBundle(id: string): Item -> bool { (x: Item) => x.bundle == id }

  function RowsOf(shown: seq<Item>, id: string): seq<Item> { SortBy(ByPosition(), Filter(shown, InBundle(id))) }

  function BundleOf(shown: seq<Item>, it: Item): Group {
    var rows := RowsOf(shown, it.bundle);
    Bundle(it.bundle, rows, if it.size == 0 then |rows| else it.size)
  }

  function Seen(items: seq<Item>): set<string> { set x | x in items && x.bundle != "" :: x.bundle }

  /** The groups of the first `n` items. */
  function GroupsUpTo(shown: seq<Item>, n: nat): seq<Group>
    requires n <= |shown|
  {
    if n == 0 then []
    else
      var before, it := GroupsUpTo(shown, n - 1), shown[n - 1];
      if it.bundle == "" then before + [Solo(it)]
      else if it.bundle in Seen(shown[..n - 1]) then before
      else before + [BundleOf(shown, it)]
  }

  function Groups(shown: seq<Item>): seq<Group> { GroupsUpTo(shown, |shown|) }

  method BuildGroups(shown: seq<Item>) returns (out: seq<Group>)
    ensures out == Groups(shown)
  {
    out := [];
    var seen := {};
    var i := 0;
    while i < |shown|
      invariant 0 <= i <= |shown|
      invariant seen == Seen(shown[..i]) && out == GroupsUpTo(shown, i)
    {
      var it := shown[i];
      assert shown[..i + 1] == shown[..i] + [it];
      if it.bundle == "" {
        out := out + [Solo(it)];
      } else if it.bundle !in seen {
        seen := seen + {it.bundle};
        out := out + [BundleOf(shown, it)];
      }
      i := i + 1;
    }
  }

  function Members(g: Group): seq<Item> { if g.Solo? then [g.item] else g.rows }

  /** The order in which the queue is walked with the keyboard. */
  function Order(gs: seq<Group>): seq<Item> {
    if gs == [] then [] else Order(gs[..|gs| - 1]) + Members(gs[|gs| - 1])
  }

  // ---- Nothing is lost, nothing is shown twice ----

  lemma RowsCount(shown: seq<Item>, id: string, x: Item)
    ensures multiset(RowsOf(shown, id))[x] == if x.bundle == id then multiset(shown)[x] else 0
  {
    SortByPermutes(ByPosition(), Filter(shown, InBundle(id)));
    FilterMultiset(shown, InBundle(id), x);
  }

  /** How often `x` is among the groups of the first `n` items. */
  ghost function Placed(shown: seq<Item>, n: nat, x: Item): nat
    requires n <= |shown|
  {
    if x.bundle == "" then multiset(shown[..n])[x] else if x.bundle in Seen(shown[..n]) then multiset(shown)[x] else 0
  }

  lemma PlacedGrows(shown: seq<Item>, n: nat, x: Item)
    requires 0 < n <= |shown|
    ensures var it := shown[n - 1];
      Placed(shown, n, x) == Placed(shown, n - 1, x) +
        if it.bundle == "" then multiset([it])[x]
        else if it.bundle in Seen(shown[..n - 1]) || x.bundle != it.bundle then 0 else multiset(shown)[x]
  {
    assert shown[..n] == shown[..n - 1] + [shown[n - 1]];
  }

  lemma OrderStep(shown: seq<Item>, n: nat, x: Item)
    requires 0 < n <= |shown|
    ensures var it := shown[n - 1];
      multiset(Order(GroupsUpTo(shown, n)))[x] == multiset(Order(GroupsUpTo(shown, n - 1)))[x] +
        if it.bundle == "" then multiset([it])[x]
        else if it.bundle in Seen(shown[..n - 1]) || x.bundle != it.bundle then 0 else multiset(shown)[x]
  {
    var it, before := shown[n - 1], GroupsUpTo(shown, n - 1);
    RowsCount(shown, it.bundle, x);
  }

  lemma {:induction false} OrderCount(shown: seq<Item>, n: nat, x: Item)
    requires n <= |shown|
    ensures multiset(Order(GroupsUpTo(shown, n)))[x] == Placed(shown, n, x)
  {
    if n > 0 {
      OrderCount(shown, n - 1, x);
      PlacedGrows(shown, n, x);
      OrderStep(shown, n, x);
    }
  }

  /** The flattened groups are the shown requests, each as often as it is shown. */
  lemma GroupsLoseNothing(shown: seq<Item>)
    ensures Permutes(Order(Groups(shown)), shown)
  {
    assert shown[..|shown|] == shown;
    forall x ensures multiset(Order(Groups(shown)))[x] == multiset(shown)[x] {
      OrderCount(shown, |shown|, x);
      if x in shown && x.bundle != "" { assert x.bundle in Seen(shown); }
    }
    assert multiset(Order(Groups(shown))) == multiset(shown);
  }

  // ---- A batch as written ----

  function At(p: int): Item -> bool { (x: Item) => Position(x) == p }

  function InBundleAt(id: string, p: int): Item -> bool { (x: Item) => x.bundle == id && Position(x) == p }

  lemma OnePositionSorted(xs: seq<Item>, p: int)
    requires forall x :: x in xs ==> Position(x) == p
    ensures SortedBy(ByPosition(), xs)
  {
    forall i, j | 0 <= i < j < |xs| ensures ByPosition()(xs[i], xs[j]) {
      assert xs[i] in xs && xs[j] in xs;
    }
  }

  /** The rows of a batch rise by position, a missing one counted as 0, and those at one position
      keep queue order. */
  lemma RowsStable(shown: seq<Item>, id: string, p: int)
    ensures forall i, j :: 0 <= i < j < |RowsOf(shown, id)| ==>
      var x, y := RowsOf(shown, id)[i].position, RowsOf(shown, id)[j].position;
      (if x.Some? then x.value else 0) <= (if y.Some? then y.value else 0)
    ensures Filter(RowsOf(shown, id), At(p)) == Filter(shown, InBundleAt(id, p))
  {
    var rows := Filter(shown, InBundle(id));
    SortBySorted(ByPosition(), rows);
    SortFilterCommute(ByPosition(), rows, At(p));
    FilterTwice(shown, InBundle(id), At(p), InBundleAt(id, p));
    OnePositionSorted(Filter(rows, At(p)), p);
    SortByFixed(ByPosition(), Filter(rows, At(p)));
    assert forall i, j :: 0 <= i < j < |RowsOf(shown, id)| ==> ByPosition()(RowsOf(shown, id)[i], RowsOf(shown, id)[j]);
  }

  // ---- Each batch once, at its first row's place ----

  function FirstWhere(xs: seq<Item>, p: Item -> bool): (i: nat)
    ensures i <= |xs| && (forall j :: 0 <= j < i ==> !p(xs[j])) && (i < |xs| ==> p(xs[i]))
  {
    if xs == [] || p(xs[0]) then 0 else 1 + FirstWhere(xs[1..], p)
  }

  function Belongs(g: Group): Item -> bool {
    (x: Item) => if g.Solo? then x == g.item else x.bundle == g.id
  }

  /** Where the first of a group's rows stands in the queue. */
  function Place(shown: seq<Item>, g: Group): nat { FirstWhere(shown, Belongs(g)) }

  /** A batch with all its rows, as long as its first row says, or as it is. */
  ghost predicate Whole(shown: seq<Item>, g: Group) {
    g.Bundle? ==>
      && g.id != "" && g.rows == RowsOf(shown, g.id)
      && Place(shown, g) < |shown| && shown[Place(shown, g)].bundle == g.id
      && g.size == (if shown[Place(shown, g)].size > 0 then shown[Place(shown, g)].size else |g.rows|)
  }

  lemma PlaceOfNew(shown: seq<Item>, n: nat)
    requires 0 < n <= |shown| && Distinct(shown)
    ensures shown[n - 1].bundle == "" ==> Place(shown, Solo(shown[n - 1])) == n - 1
    ensures shown[n - 1].bundle != "" && shown[n - 1].bundle !in Seen(shown[..n - 1]) ==>
      Place(shown, BundleOf(shown, shown[n - 1])) == n - 1
  {
    var it := shown[n - 1];
    assert Belongs(Solo(it))(it) && Belongs(BundleOf(shown, it))(it);
    forall j | 0 <= j < n - 1 ensures it.bundle != "" && it.bundle !in Seen(shown[..n - 1]) ==> shown[j].bundle != it.bundle {
      assert shown[..n - 1][j] == shown[j];
    }
  }

  ghost predicate Rising(shown: seq<Item>, gs: seq<Group>, n: nat) {
    && (forall k :: 0 <= k < |gs| ==> Place(shown, gs[k]) < n && Whole(shown, gs[k]))
    && (forall k, l :: 0 <= k < l < |gs| ==> Place(shown, gs[k]) < Place(shown, gs[l]))
  }

  lemma RisingAppend(shown: seq<Item>, gs: seq<Group>, g: Group, n: nat)
    requires Rising(shown, gs, n) && Place(shown, g) == n && Whole(shown, g)
    ensures Rising(shown, gs + [g], n + 1)
  {
    var r := gs + [g];
    assert forall k :: 0 <= k < |gs| ==> r[k] == gs[k];
  }

  lemma RisingOn(shown: seq<Item>, gs: seq<Group>, n: nat)
    requires Rising(shown, gs, n)
    ensures Rising(shown, gs, n + 1)
  {
  }

  lemma {:induction false} PlacesRise(shown: seq<Item>, n: nat)
    requires n <= |shown| && Distinct(shown)
    ensures Rising(shown, GroupsUpTo(shown, n), n)
  {
    if n > 0 {
      var it, before := shown[n - 1], GroupsUpTo(shown, n - 1);
      PlacesRise(shown, n - 1);
      PlaceOfNew(shown, n);
      if it.bundle == "" {
        RisingAppend(shown, before, Solo(it), n - 1);
      } else if it.bundle !in Seen(shown[..n - 1]) {
        RisingAppend(shown, before, BundleOf(shown, it), n - 1);
      } else {
        RisingOn(shown, before, n - 1);
      }
    }
  }

  lemma {:induction false} FirstWhereSame(xs: seq<Item>, p: Item -> bool, q: Item -> bool)
    requires forall x :: x in xs ==> p(x) == q(x)
    ensures FirstWhere(xs, p) == FirstWhere(xs, q)
  {
    if xs != [] {
      FirstWhereSame(xs[1..], p, q);
    }
  }

  /** Groups stand in queue order by their first row; so no two are the same batch, and each
      batch holds every row of it. */
  lemma GroupsKeepQueueOrder(shown: seq<Item>)
    requires Distinct(shown)
    ensures var gs := Groups(shown);
      && (forall k, l :: 0 <= k < l < |gs| ==> Place(shown, gs[k]) < Place(shown, gs[l]))
      && (forall k, l :: 0 <= k < l < |gs| && gs[k].Bundle? && gs[l].Bundle? ==> gs[k].id != gs[l].id)
      && (forall k :: 0 <= k < |gs| ==> Whole(shown, gs[k]))
  {
    PlacesRise(shown, |shown|);
    var gs := Groups(shown);
    forall k, l | 0 <= k < l < |gs| && gs[k].Bundle? && gs[l].Bundle? ensures gs[k].id != gs[l].id {
      if gs[k].id == gs[l].id { FirstWhereSame(shown, Belongs(gs[k]), Belongs(gs[l])); }
    }
  }
}
