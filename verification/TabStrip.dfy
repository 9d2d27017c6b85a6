/** The editor's tab strip: fresh ids, closing, reopening, and the saved workspace
    (qh-app.jsx). */
module TabStrip {
  import opened Options
  import opened Seqs
  import opened Text

  /** The id texts 'welcome', 'whatsnew' and 't<n>'; the first two are also the tab's kind. */
  datatype Id = Welcome | WhatsNew | T(n: nat)

  datatype Tab = Tab(id: Id, name: string, sql: string, conn: string, db: string, dirty: bool, touchedAt: int)

  datatype Snap = Snap(name: string, sql: string, conn: string, db: string)

  /** `next` is TAB_SEQ; `closed` is the reopen stack, newest last. */
  datatype World = World(tabs: seq<Tab>, active: Id, next: nat, closed: seq<Snap>)

  const MAX_CLOSED := 30
  const WS_TTL := 30 * 24 * 3600 * 1000
  const FIRST_SEQ := 3

  function Fresh(n: nat, s: Snap, dirty: bool, now: int): Tab { Tab(T(n), s.name, s.sql, s.conn, s.db, dirty, now) }

  function PageTab(id: Id, now: int): Tab {
    Tab(id, if id == Welcome then "Welcome" else "What's new", "", "prod-replica", "users_ro", false, now)
  }

  function Find(tabs: seq<Tab>, id: Id): (i: int)
    ensures -1 <= i < |tabs|
    ensures i >= 0 ==> tabs[i].id == id && forall j :: 0 <= j < i ==> tabs[j].id != id
    ensures i == -1 ==> forall t :: t in tabs ==> t.id != id
  {
    if tabs == [] then -1
    else if tabs[0].id == id then 0
    else var i := Find(tabs[1..], id); if i < 0 then -1 else i + 1
  }

  predicate Has(tabs: seq<Tab>, id: Id) { exists t :: t in tabs && t.id == id }

  // ---- Closing ----

  datatype Kind = One | Others | Right | All

  function NotId(id: Id): Tab -> bool { (t: Tab) => t.id != id }

  function IsId(id: Id): Tab -> bool { (t: Tab) => t.id == id }

  function NotBlank(): Tab -> bool { (t: Tab) => !Blank(t.sql) }

  function SnapOf(): Tab -> Snap { (t: Tab) => Snap(t.name, t.sql, t.conn, t.db) }

  function Victims(tabs: seq<Tab>, kind: Kind, id: Id): seq<Tab> {
    match kind
    case Others => Filter(tabs, NotId(id))
    case All => tabs
    case Right => var i := Find(tabs, id); if i < 0 then [] else tabs[i + 1..]
    case One => Filter(tabs, IsId(id))
  }

  function Latest(closed: seq<Snap>): seq<Snap> {
    if |closed| > MAX_CLOSED then closed[|closed| - MAX_CLOSED..] else closed
  }

  function Remember(closed: seq<Snap>, victims: seq<Tab>): seq<Snap> {
    Latest(closed + Map(Filter(victims, NotBlank()), SnapOf()))
  }

  lemma {:induction false} WithoutTabLength(tabs: seq<Tab>, id: Id)
    ensures |Filter(tabs, NotId(id))| >= Find(tabs, id)
  {
    if tabs != [] {
      WithoutTabLength(tabs[1..], id);
    }
  }

  function WithoutTab(tabs: seq<Tab>, id: Id): (r: seq<Tab>)
    ensures |r| >= Find(tabs, id)
  {
    WithoutTabLength(tabs, id);
    Filter(tabs, NotId(id))
  }

  function CloseNow(w: World, kind: Kind, id: Id, now: int): World {
    match kind
    case Others => w.(active := id, tabs := Filter(w.tabs, IsId(id)))
    case All => w.(active := Welcome, tabs := [PageTab(Welcome, now)])
    case Right =>
      var i := Find(w.tabs, id);
      w.(active := if Find(w.tabs, w.active) > i then id else w.active, tabs := if i < 0 then w.tabs else w.tabs[..i + 1])
    case One =>
      var i := Find(w.tabs, id);
      var rest := WithoutTab(w.tabs, id);
      if rest == [] then w.(active := Welcome, tabs := [PageTab(Welcome, now)])
      else w.(tabs := rest, active := if id == w.active then rest[if i <= 0 then 0 else i - 1].id else w.active)
  }

  function PerformClose(w: World, kind: Kind, id: Id, now: int): World {
    CloseNow(w.(closed := Remember(w.closed, Victims(w.tabs, kind, id))), kind, id, now)
  }

  // ---- The saved workspace ----

  datatype Saved = Saved(tabs: seq<Tab>, active: Id)

  function Restamp(now: int): Tab -> Tab {
    (t: Tab) => t.(dirty := false, touchedAt := if t.touchedAt == 0 then now else t.touchedAt)
  }

  function Recent(now: int): Tab -> bool { (t: Tab) => t.touchedAt == 0 || now - t.touchedAt < WS_TTL }

  function Save(w: World, now: int): Saved { Saved(Map(w.tabs, Restamp(now)), w.active) }

  function IdNumber(id: Id): nat { if id.T? then id.n else 0 }

  function MaxNumber(tabs: seq<Tab>): (n: nat)
    ensures forall t :: t in tabs ==> IdNumber(t.id) <= n
  {
    if tabs == [] then 0
    else var n := MaxNumber(tabs[..|tabs| - 1]); var m := IdNumber(tabs[|tabs| - 1].id); if m > n then m else n
  }

  /** The saved tabs that are not too old. */
  function RecentOf(saved: Option<Saved>, now: int): seq<Tab> {
    if saved.Some? then Filter(saved.value.tabs, Recent(now)) else []
  }

  /** The strip on page load, from the saved workspace (None when there is none) and the
      saved reopen stack. */
  function LoadFrom(saved: Option<Saved>, closed: seq<Snap>, now: int): World {
    var recent := RecentOf(saved, now);
    if recent == [] then
      World([PageTab(Welcome, now), Tab(T(1), "Query 1", "", "", "", false, now)], Welcome, FIRST_SEQ, closed)
    else LoadRecent(recent, saved.value.active, closed, now)
  }

  function LoadRecent(recent: seq<Tab>, active: Id, closed: seq<Snap>, now: int): World
    requires recent != []
  {
    var tabs := Map(recent, Restamp(now));
    var n := MaxNumber(recent) + 1;
    World(if Has(tabs, Welcome) then tabs else [PageTab(Welcome, now)] + tabs,
          if Has(recent, active) then active else tabs[0].id,
          if n > FIRST_SEQ then n else FIRST_SEQ, closed)
  }

  // ---- The other moves ----

  predicate WordChar(c: char) { 'a' <= c <= 'z' || 'A' <= c <= 'Z' || '0' <= c <= '9' || c == '_' }

  predicate EndsInCopy(name: string) {
    |name| >= 4 && name[|name| - 4..] == "copy" && (|name| == 4 || !WordChar(name[|name| - 5]))
  }

  function CopyName(name: string): string { if EndsInCopy(name) then name else name + " copy" }

  function FreshAll(n: nat, snaps: seq<Snap>, now: int): (r: seq<Tab>)
    ensures |r| == |snaps| && forall i :: 0 <= i < |r| ==> r[i] == Fresh(n + i, snaps[i], false, now)
  {
    seq(|snaps|, i requires 0 <= i < |snaps| => Fresh(n + i, snaps[i], false, now))
  }

  /** Taking the element at `from` out and putting it back at `to`. */
  function MoveTo<A>(xs: seq<A>, from: nat, to: nat): (r: seq<A>)
    requires from < |xs| && to < |xs|
    ensures |r| == |xs| && r[to] == xs[from]
  {
    var rest := xs[..from] + xs[from + 1..];
    rest[..to] + [xs[from]] + rest[to..]
  }

  datatype Event =
    | New(over: Snap, dirty: bool, now: int)
    | Duplicate(id: Id, now: int)
    | Restore(snaps: seq<Snap>, now: int)
    | Reorder(fromId: Id, toId: Id)
    | Close(kind: Kind, id: Id, now: int)
    | Reopen(now: int)
    | OpenPage(page: Id, now: int)
    | Select(id: Id, now: int)
    | Edit(id: Id, to: Snap, now: int)
    | Reload(saveNow: int, now: int)

  /** What the screen offers: a tab's own buttons name a tab that is there. */
  predicate Offered(w: World, e: Event) {
    match e
    case Close(kind, id, _) => (kind.Others? || kind.Right?) ==> Has(w.tabs, id)
    case Select(id, _) => Has(w.tabs, id)
    case OpenPage(page, _) => !page.T?
    case _ => true
  }

  function Append(w: World, s: Snap, dirty: bool, now: int): World {
    w.(tabs := w.tabs + [Fresh(w.next, s, dirty, now)], active := T(w.next), next := w.next + 1)
  }

  function Patched(tabs: seq<Tab>, id: Id, t: Tab -> Tab): (r: seq<Tab>)
    ensures |r| == |tabs| && forall i :: 0 <= i < |tabs| ==> r[i] == if tabs[i].id == id then t(tabs[i]) else tabs[i]
  {
    seq(|tabs|, i requires 0 <= i < |tabs| => if tabs[i].id == id then t(tabs[i]) else tabs[i])
  }

  function Touch(now: int): Tab -> Tab { (t: Tab) => t.(touchedAt := now) }

  function Rewrite(s: Snap, now: int): Tab -> Tab {
    (t: Tab) => t.(name := s.name, sql := s.sql, conn := s.conn, db := s.db, dirty := true, touchedAt := now)
  }

  function Step(w: World, e: Event): World {
    match e
    case New(over, dirty, now) => Append(w, over, dirty, now)
    case Duplicate(id, now) =>
      var i := Find(w.tabs, id);
      if i < 0 then w
      else var t := w.tabs[i];
        var clone := Fresh(w.next, Snap(CopyName(t.name), t.sql, t.conn, t.db), false, now);
        w.(tabs := w.tabs[..i + 1] + [clone] + w.tabs[i + 1..], active := clone.id, next := w.next + 1)
    case Restore(snaps, now) =>
      if snaps == [] then w
      else w.(tabs := w.tabs + FreshAll(w.next, snaps, now), active := T(w.next), next := w.next + |snaps|)
    case Reorder(fromId, toId) =>
      var from, to := Find(w.tabs, fromId), Find(w.tabs, toId);
      if from < 0 || to < 0 || from == to then w else w.(tabs := MoveTo(w.tabs, from, to))
    case Close(kind, id, now) => PerformClose(w, kind, id, now)
    case Reopen(now) =>
      if w.closed == [] then w
      else Append(w.(closed := w.closed[..|w.closed| - 1]), w.closed[|w.closed| - 1], true, now)
    case OpenPage(page, now) =>
      w.(active := page,
         tabs := if Has(w.tabs, page) then w.tabs
                 else if page == Welcome then [PageTab(page, now)] + w.tabs else w.tabs + [PageTab(page, now)])
    case Select(id, now) => w.(active := id, tabs := Patched(w.tabs, id, Touch(now)))
    case Edit(id, to, now) => w.(tabs := Patched(w.tabs, id, Rewrite(to, now)))
    case Reload(saveNow, now) => LoadFrom(Some(Save(w, saveNow)), w.closed, now)
  }

  class Strip {
    var tabs: seq<Tab>
    var activeId: Id
    var tabSeq: nat
    var closedStack: seq<Snap>

    function State(): World
      reads this
    {
      World(tabs, activeId, tabSeq, closedStack)
    }

    constructor (w: World)
      ensures State() == w
    {
      tabs, activeId, tabSeq, closedStack := w.tabs, w.active, w.next, w.closed;
    }

    method NewTab(over: Snap, dirty: bool, now: int)
      modifies this`tabs, this`activeId, this`tabSeq
      ensures State() == Step(old(State()), New(over, dirty, now))
    {
      var f := Fresh(tabSeq, over, dirty, now);
      tabSeq := tabSeq + 1;
      tabs := tabs + [f];
      activeId := f.id;
    }

    method RestoreSession(snaps: seq<Snap>, now: int)
      modifies this`tabs, this`activeId, this`tabSeq
      ensures State() == Step(old(State()), Restore(snaps, now))
    {
      if snaps == [] { return; }
      var made := [];
      var i := 0;
      while i < |snaps|
        invariant 0 <= i <= |snaps| && tabSeq == old(tabSeq) + i && tabs == old(tabs) && activeId == old(activeId)
        invariant made == FreshAll(old(tabSeq), snaps, now)[..i]
      {
        made := made + [Fresh(tabSeq, snaps[i], false, now)];
        tabSeq := tabSeq + 1;
        i := i + 1;
      }
      assert made == FreshAll(old(tabSeq), snaps, now);
      tabs := tabs + made;
      activeId := made[0].id;
    }

    method ReopenLast(now: int) returns (found: bool)
      modifies this
      ensures found == (old(closedStack) != []) && State() == Step(old(State()), Reopen(now))
    {
      found := |closedStack| > 0;
      if found {
        var snap := closedStack[|closedStack| - 1];
        closedStack := closedStack[..|closedStack| - 1];
        NewTab(snap, true, now);
      }
    }

    method RememberClosed(victims: seq<Tab>)
      modifies this`closedStack
      ensures closedStack == Remember(old(closedStack), victims)
    {
      var removed := Filter(victims, NotBlank());
      var i := 0;
      while i < |removed|
        invariant 0 <= i <= |removed|
        invariant closedStack == old(closedStack) + Map(removed, SnapOf())[..i]
      {
        var t := removed[i];
        closedStack := closedStack + [Snap(t.name, t.sql, t.conn, t.db)];
        i := i + 1;
      }
      assert Map(removed, SnapOf())[..i] == Map(removed, SnapOf());
      if |closedStack| > MAX_CLOSED { closedStack := closedStack[|closedStack| - MAX_CLOSED..]; }
    }

    method CloseTabs(kind: Kind, id: Id, now: int)
      modifies this
      ensures State() == Step(old(State()), Close(kind, id, now))
    {
      RememberClosed(Victims(tabs, kind, id));
      CloseNowOf(kind, id, now);
    }

    method CloseNowOf(kind: Kind, id: Id, now: int)
      modifies this`tabs, this`activeId
      ensures State() == CloseNow(old(State()), kind, id, now)
    {
      match kind
      case Others => CloseOthers(id);
      case All => CloseAll(now);
      case Right => CloseRight(id);
      case One => CloseOne(id, now);
    }

    method CloseOthers(id: Id)
      modifies this`tabs, this`activeId
      ensures tabs == Filter(old(tabs), IsId(id)) && activeId == id
    {
      activeId := id;
      tabs := Filter(tabs, IsId(id));
    }

    method CloseAll(now: int)
      modifies this`tabs, this`activeId
      ensures tabs == [PageTab(Welcome, now)] && activeId == Welcome
    {
      tabs := [PageTab(Welcome, now)];
      activeId := Welcome;
    }

    method CloseRight(id: Id)
      modifies this`tabs, this`activeId
      ensures tabs == if Find(old(tabs), id) < 0 then old(tabs) else old(tabs)[..Find(old(tabs), id) + 1]
      ensures activeId == if Find(old(tabs), old(activeId)) > Find(old(tabs), id) then id else old(activeId)
    {
      var ii, ai := Find(tabs, id), Find(tabs, activeId);
      if ai > ii { activeId := id; }
      if ii >= 0 { tabs := tabs[..ii + 1]; }
    }

    method CloseOne(id: Id, now: int)
      modifies this`tabs, this`activeId
      ensures State() == CloseNow(old(State()), One, id, now)
    {
      var i := Find(tabs, id);
      var next := WithoutTab(tabs, id);
      if next == [] {
        activeId := Welcome;
        tabs := [PageTab(Welcome, now)];
      } else {
        if id == activeId { activeId := next[if i <= 0 then 0 else i - 1].id; }
        tabs := next;
      }
    }
  }

  // ---- What every reachable strip keeps ----

  ghost predicate DistinctIds(tabs: seq<Tab>) {
    forall i, j :: 0 <= i < j < |tabs| ==> tabs[i].id != tabs[j].id
  }

  ghost predicate Below(tabs: seq<Tab>, next: nat) {
    forall t :: t in tabs && t.id.T? ==> t.id.n < next
  }

  ghost predicate Inv(w: World) {
    && w.tabs != [] && DistinctIds(w.tabs) && Below(w.tabs, w.next) && Has(w.tabs, w.active)
    && |w.closed| <= MAX_CLOSED && forall s :: s in w.closed ==> !Blank(s.sql)
  }

  /** Keeping the tabs a test picks keeps ids apart. */
  lemma {:induction false} FilterDistinct(tabs: seq<Tab>, p: Tab -> bool)
    requires DistinctIds(tabs)
    ensures DistinctIds(Filter(tabs, p))
  {
    if tabs != [] {
      assert forall t :: t in tabs[1..] ==> t.id != tabs[0].id;
      FilterDistinct(tabs[1..], p);
      assert forall t :: t in Filter(tabs[1..], p) ==> t.id != tabs[0].id;
    }
  }

  /** The tabs without the one at `i`; all of them for -1. */
  function CutAt(tabs: seq<Tab>, i: int): seq<Tab>
    requires i < |tabs|
  {
    if i < 0 then tabs else tabs[..i] + tabs[i + 1..]
  }

  /** With distinct ids, filtering one id out drops just that position. */
  lemma {:induction false} FilterOut(tabs: seq<Tab>, id: Id)
    requires DistinctIds(tabs)
    ensures Filter(tabs, NotId(id)) == CutAt(tabs, Find(tabs, id))
  {
    if tabs != [] {
      FilterOut(tabs[1..], id);
      if tabs[0].id == id {
        HeadOnce(tabs);
        assert tabs[..0] + tabs[1..] == tabs[1..];
      } else {
        CutBehind(tabs, Find(tabs[1..], id));
      }
    }
  }

  lemma HeadOnce(tabs: seq<Tab>)
    requires tabs != [] && DistinctIds(tabs)
    ensures Find(tabs[1..], tabs[0].id) == -1
  {
    assert forall j :: 0 <= j < |tabs| - 1 ==> tabs[1..][j].id != tabs[0].id;
  }

  lemma CutBehind(tabs: seq<Tab>, i: int)
    requires tabs != [] && -1 <= i < |tabs| - 1
    ensures [tabs[0]] + CutAt(tabs[1..], i) == CutAt(tabs, if i < 0 then -1 else i + 1)
  {
  }

  lemma {:induction false} FilterOnly(tabs: seq<Tab>, id: Id)
    requires DistinctIds(tabs)
    ensures var i := Find(tabs, id);
      Filter(tabs, IsId(id)) == if i < 0 then [] else [tabs[i]]
  {
    if tabs != [] {
      FilterOnly(tabs[1..], id);
    }
  }

  lemma RememberKeeps(closed: seq<Snap>, victims: seq<Tab>)
    requires forall s :: s in closed ==> !Blank(s.sql)
    ensures |Remember(closed, victims)| <= MAX_CLOSED
    ensures forall s :: s in Remember(closed, victims) ==> !Blank(s.sql)
  {
    var kept := Filter(victims, NotBlank());
    assert forall i :: 0 <= i < |kept| ==> kept[i] in kept && !Blank(Map(kept, SnapOf())[i].sql);
  }

  lemma AppendKeeps(w: World, s: Snap, dirty: bool, now: int)
    requires Inv(w)
    ensures Inv(Append(w, s, dirty, now))
  {
    var r := Append(w, s, dirty, now);
    assert r.tabs[|w.tabs|].id == r.active;
    forall t | t in r.tabs && t.id.T? ensures t.id.n < r.next { }
  }

  lemma InsertKeeps(tabs: seq<Tab>, k: nat, t: Tab, next: nat)
    requires k <= |tabs| && DistinctIds(tabs) && Below(tabs, next) && t.id == T(next)
    ensures var r := tabs[..k] + [t] + tabs[k..];
      DistinctIds(r) && Below(r, next + 1) && Has(r, t.id)
  {
    var r := tabs[..k] + [t] + tabs[k..];
    forall j | 0 <= j < |tabs| ensures tabs[j].id != t.id { assert tabs[j] in tabs; }
    assert r[k] == t;
    assert forall j :: 0 <= j < |r| && j != k ==> r[j] == tabs[if j < k then j else j - 1];
    forall x | x in r && x.id.T? ensures x.id.n < next + 1 { }
  }

  lemma DuplicateKeeps(w: World, id: Id, now: int)
    requires Inv(w)
    ensures Inv(Step(w, Duplicate(id, now)))
  {
    var i := Find(w.tabs, id);
    if i >= 0 {
      InsertKeeps(w.tabs, i + 1, Step(w, Duplicate(id, now)).tabs[i + 1], w.next);
    }
  }

  lemma RestoreKeeps(w: World, snaps: seq<Snap>, now: int)
    requires Inv(w)
    ensures Inv(Step(w, Restore(snaps, now)))
  {
    if snaps != [] {
      var r := Step(w, Restore(snaps, now));
      assert r.tabs[|w.tabs|].id == r.active;
      forall j | 0 <= j < |w.tabs| ensures w.tabs[j].id.T? ==> w.tabs[j].id.n < w.next { assert w.tabs[j] in w.tabs; }
      forall t | t in r.tabs && t.id.T? ensures t.id.n < r.next { }
    }
  }

  /** Moving one element keeps every element and the order of the others. */
  lemma MoveToMoves<A>(xs: seq<A>, from: nat, to: nat)
    requires from < |xs| && to < |xs|
    ensures var r := MoveTo(xs, from, to);
      && multiset(r) == multiset(xs)
      && r[..to] + r[to + 1..] == xs[..from] + xs[from + 1..]
  {
    var rest := xs[..from] + xs[from + 1..];
    var r := MoveTo(xs, from, to);
    Pulled(xs, from);
    Pulled(r, to);
    assert r[..to] == rest[..to] && r[to + 1..] == rest[to..];
    assert rest[..to] + rest[to..] == rest;
  }

  lemma Pulled<A>(xs: seq<A>, i: nat)
    requires i < |xs|
    ensures multiset(xs) == multiset(xs[..i] + xs[i + 1..]) + multiset{xs[i]}
  {
    assert xs == xs[..i] + [xs[i]] + xs[i + 1..];
  }

  lemma PermutedIds(tabs: seq<Tab>, other: seq<Tab>)
    requires Permutes(tabs, other) && DistinctIds(tabs)
    ensures DistinctIds(other)
  {
    assert Distinct(tabs);
    DistinctPermutes(tabs, other);
    PermutesIn(tabs, other);
    forall i, j | 0 <= i < j < |other| ensures other[i].id != other[j].id {
      assert other[i] in tabs && other[j] in tabs;
      var p :| 0 <= p < |tabs| && tabs[p] == other[i];
      var q :| 0 <= q < |tabs| && tabs[q] == other[j];
      assert p != q;
    }
  }

  lemma ReorderKeeps(w: World, fromId: Id, toId: Id)
    requires Inv(w)
    ensures Inv(Step(w, Reorder(fromId, toId))) && Permutes(w.tabs, Step(w, Reorder(fromId, toId)).tabs)
  {
    var from, to := Find(w.tabs, fromId), Find(w.tabs, toId);
    if from >= 0 && to >= 0 && from != to {
      MoveToMoves(w.tabs, from, to);
      PermutedIds(w.tabs, MoveTo(w.tabs, from, to));
      PermutesIn(w.tabs, MoveTo(w.tabs, from, to));
    }
  }

  lemma PageKeeps(w: World, page: Id, now: int)
    requires Inv(w) && !page.T?
    ensures Inv(Step(w, OpenPage(page, now)))
  {
    var r := Step(w, OpenPage(page, now));
    if !Has(w.tabs, page) {
      assert r.tabs[if page == Welcome then 0 else |w.tabs|] == PageTab(page, now);
      assert forall j :: 0 <= j < |w.tabs| ==> w.tabs[j] in w.tabs && w.tabs[j].id != page;
    }
  }

  lemma PatchKeeps(w: World, id: Id, f: Tab -> Tab)
    requires Inv(w) && forall t :: f(t).id == t.id
    ensures Inv(w.(tabs := Patched(w.tabs, id, f)))
    ensures forall x :: Has(w.tabs, x) ==> Has(Patched(w.tabs, id, f), x)
  {
    var r := Patched(w.tabs, id, f);
    assert forall i :: 0 <= i < |r| ==> r[i].id == w.tabs[i].id;
    forall x | Has(w.tabs, x) ensures Has(r, x) {
      var i :| 0 <= i < |w.tabs| && w.tabs[i].id == x;
      assert r[i].id == x;
    }
    forall t | t in r && t.id.T? ensures t.id.n < w.next {
      var i :| 0 <= i < |r| && r[i] == t;
      assert w.tabs[i] in w.tabs;
    }
  }

  // ---- Closing ----

  ghost function NotIn(out: seq<Tab>): Tab -> bool { (t: Tab) => t !in out }

  lemma RightOf(tabs: seq<Tab>, i: nat)
    requires DistinctIds(tabs) && i < |tabs|
    ensures Filter(tabs, NotIn(tabs[i + 1..])) == tabs[..i + 1]
  {
    var a, b := tabs[..i + 1], tabs[i + 1..];
    assert tabs == a + b;
    FilterAppend(a, b, NotIn(b));
    FilterAll(a, NotIn(b));
    FilterNone(b, NotIn(b));
  }

  /** Who closes, at each place of a sound strip. */
  lemma WhoCloses(tabs: seq<Tab>, kind: Kind, i: nat, j: nat)
    requires DistinctIds(tabs) && i < |tabs| && j < |tabs|
    ensures tabs[j] in Victims(tabs, kind, tabs[i].id) <==>
      match kind case One => j == i case Others => j != i case Right => j > i case All => true
  {
    var id := tabs[i].id;
    FindAt(tabs, i);
    assert tabs[j] in tabs;
    if j != i { assert tabs[j].id != id; }
    if kind.Right? { InTail(tabs, i + 1, j); }
  }

  lemma FindAt(tabs: seq<Tab>, i: nat)
    requires DistinctIds(tabs) && i < |tabs|
    ensures Find(tabs, tabs[i].id) == i
  {
    assert tabs[i] in tabs;
  }

  lemma InTail(tabs: seq<Tab>, k: nat, j: nat)
    requires DistinctIds(tabs) && k <= |tabs| && j < |tabs|
    ensures tabs[j] in tabs[k..] <==> k <= j
  {
    assert tabs == tabs[..k] + tabs[k..];
    if j < k {
      forall t | t in tabs[k..] ensures t.id != tabs[j].id {}
    } else {
      assert tabs[k..][j - k] == tabs[j];
    }
  }

  /** Each close takes away exactly its victims and keeps the order of the rest; only a
      strip left empty becomes one Welcome tab. */
  lemma CloseRemovesVictims(w: World, kind: Kind, id: Id, now: int)
    requires Inv(w) && Offered(w, Close(kind, id, now))
    ensures var rest := Filter(w.tabs, NotIn(Victims(w.tabs, kind, id)));
      PerformClose(w, kind, id, now).tabs == if rest == [] then [PageTab(Welcome, now)] else rest
  {
    var out := Victims(w.tabs, kind, id);
    match kind
    case One => FilterSame(w.tabs, NotId(id), NotIn(out));
    case Others =>
      FilterSame(w.tabs, IsId(id), NotIn(out));
      FilterOnly(w.tabs, id);
    case Right => RightOf(w.tabs, Find(w.tabs, id));
    case All => FilterNone(w.tabs, NotIn(out));
  }

  /** The tab in front stays in front unless it is closed; a single closed tab hands over
      to its left neighbour, the first one to its right one. */
  lemma CloseKeepsFocus(w: World, kind: Kind, id: Id, now: int)
    requires Inv(w) && Offered(w, Close(kind, id, now))
    ensures var r := PerformClose(w, kind, id, now);
      (forall t :: t in Victims(w.tabs, kind, id) ==> t.id != w.active) ==> r.active == w.active
    ensures var i := Find(w.tabs, id);
      kind.One? && id == w.active && |w.tabs| > 1 ==>
        PerformClose(w, kind, id, now).active == w.tabs[if i > 0 then i - 1 else 1].id
  {
    match kind
    case One => FilterOut(w.tabs, id);
    case Others => OthersFocus(w.tabs, id, w.active);
    case Right => RightVictim(w.tabs, Find(w.tabs, id), Find(w.tabs, w.active));
    case All =>
  }

  /** If it is closed by another close, the tab asked on comes to the front, or Welcome when
      nothing is left. */
  lemma CloseMovesFocus(w: World, i: nat, a: nat, now: int)
    requires Inv(w) && i < |w.tabs| && a < |w.tabs| && w.tabs[a].id == w.active
    ensures PerformClose(w, Others, w.tabs[i].id, now).active == w.tabs[i].id
    ensures a > i ==> PerformClose(w, Right, w.tabs[i].id, now).active == w.tabs[i].id
    ensures PerformClose(w, All, w.tabs[i].id, now).active == Welcome
    ensures |w.tabs| == 1 ==> PerformClose(w, One, w.tabs[i].id, now).active == Welcome
  {
    if |w.tabs| == 1 { LastTabCloses(w, w.tabs[i].id, now); }
    if a > i { RightTakesFocus(w, i, a, now); }
  }

  lemma RightTakesFocus(w: World, i: nat, a: nat, now: int)
    requires Inv(w) && i < a < |w.tabs| && w.tabs[a].id == w.active
    ensures CloseNow(w, Right, w.tabs[i].id, now).active == w.tabs[i].id
  {
    FindAt(w.tabs, i);
    FindAt(w.tabs, a);
  }

  lemma LastTabCloses(w: World, id: Id, now: int)
    requires |w.tabs| == 1 && w.tabs[0].id == id
    ensures CloseNow(w, One, id, now).active == Welcome
  {
    FilterNone(w.tabs, NotId(id));
  }

  /** Asked on a tab that is gone: one closes nothing, the ones to the right close nothing and the
      missing tab comes to the front, the others close every tab. */
  lemma CloseOnGone(w: World, id: Id, now: int)
    requires Inv(w) && !Has(w.tabs, id)
    ensures PerformClose(w, One, id, now) == w
    ensures PerformClose(w, Right, id, now) == w.(active := id)
    ensures PerformClose(w, Others, id, now).tabs == [] && PerformClose(w, Others, id, now).active == id
  {
    OneOnGone(w, id, now);
    RightOnGone(w, id, now);
    FilterNone(w.tabs, IsId(id));
  }

  lemma OneOnGone(w: World, id: Id, now: int)
    requires Inv(w) && !Has(w.tabs, id)
    ensures PerformClose(w, One, id, now) == w
  {
    FilterAll(w.tabs, NotId(id));
    FilterNone(w.tabs, IsId(id));
    RememberNothing(w.closed);
  }

  lemma RightOnGone(w: World, id: Id, now: int)
    requires Inv(w) && !Has(w.tabs, id)
    ensures PerformClose(w, Right, id, now) == w.(active := id)
  {
    RememberNothing(w.closed);
    assert Find(w.tabs, id) == -1 && Find(w.tabs, w.active) >= 0;
  }

  lemma RememberNothing(closed: seq<Snap>)
    requires |closed| <= MAX_CLOSED
    ensures Remember(closed, []) == closed
  {
    assert closed + Map(Filter([], NotBlank()), SnapOf()) == closed;
  }

  lemma OthersFocus(tabs: seq<Tab>, id: Id, active: Id)
    requires Has(tabs, active)
    ensures active != id ==> exists t :: t in Filter(tabs, NotId(id)) && t.id == active
  {
    var t :| t in tabs && t.id == active;
    assert active != id ==> t in Filter(tabs, NotId(id));
  }

  lemma RightVictim(tabs: seq<Tab>, i: int, a: int)
    requires 0 <= i < |tabs| && 0 <= a < |tabs|
    ensures a > i ==> tabs[a] in tabs[i + 1..]
  {
    assert a > i ==> tabs[i + 1..][a - i - 1] == tabs[a];
  }

  lemma FilterKeepsBelow(tabs: seq<Tab>, p: Tab -> bool, next: nat)
    requires DistinctIds(tabs) && Below(tabs, next)
    ensures DistinctIds(Filter(tabs, p)) && Below(Filter(tabs, p), next)
  {
    FilterDistinct(tabs, p);
  }

  lemma OneKeeps(w: World, id: Id, now: int)
    requires DistinctIds(w.tabs) && Below(w.tabs, w.next) && Has(w.tabs, w.active)
    ensures var r := CloseNow(w, One, id, now);
      r.tabs != [] && DistinctIds(r.tabs) && Below(r.tabs, w.next) && Has(r.tabs, r.active)
  {
    FilterKeepsBelow(w.tabs, NotId(id), w.next);
    var r := CloseNow(w, One, id, now);
    if id != w.active {
      var t :| t in w.tabs && t.id == w.active;
      assert t in Filter(w.tabs, NotId(id));
    }
  }

  lemma CloseNowKeeps(w: World, kind: Kind, id: Id, now: int)
    requires w.tabs != [] && DistinctIds(w.tabs) && Below(w.tabs, w.next) && Has(w.tabs, w.active)
    requires Offered(w, Close(kind, id, now))
    ensures var r := CloseNow(w, kind, id, now);
      r.tabs != [] && DistinctIds(r.tabs) && Below(r.tabs, w.next) && Has(r.tabs, r.active)
  {
    match kind
    case One => OneKeeps(w, id, now);
    case Others =>
      FilterKeepsBelow(w.tabs, IsId(id), w.next);
      FilterOnly(w.tabs, id);
    case Right => RightFocus(w, id, now);
    case All =>
  }

  lemma CloseKeeps(w: World, kind: Kind, id: Id, now: int)
    requires Inv(w) && Offered(w, Close(kind, id, now))
    ensures Inv(PerformClose(w, kind, id, now))
  {
    RememberKeeps(w.closed, Victims(w.tabs, kind, id));
    CloseNowKeeps(w.(closed := Remember(w.closed, Victims(w.tabs, kind, id))), kind, id, now);
  }

  lemma RightFocus(w: World, id: Id, now: int)
    requires DistinctIds(w.tabs) && Below(w.tabs, w.next) && Has(w.tabs, w.active) && Has(w.tabs, id)
    ensures var r := CloseNow(w, Right, id, now);
      DistinctIds(r.tabs) && Below(r.tabs, w.next) && Has(r.tabs, r.active)
  {
    var i, a := Find(w.tabs, id), Find(w.tabs, w.active);
    var r := CloseNow(w, Right, id, now);
    assert r.tabs[if a > i then i else a].id == r.active;
  }

  /** Closing keeps the strip sound exactly when 'others' and 'to the right' name a tab
      that is still there: otherwise the first empties the strip and the second puts a
      missing tab in front. */
  lemma CloseKeepsInvIff(w: World, kind: Kind, id: Id, now: int)
    requires Inv(w)
    ensures Inv(PerformClose(w, kind, id, now)) <==> kind.One? || kind.All? || Has(w.tabs, id)
  {
    if Offered(w, Close(kind, id, now)) {
      CloseKeeps(w, kind, id, now);
    } else if kind.Others? {
      FilterNone(w.tabs, IsId(id));
    } else {
      assert Find(w.tabs, w.active) > Find(w.tabs, id);
    }
  }

  // ---- Runs ----

  lemma StepKeepsInv(w: World, e: Event)
    requires Inv(w) && Offered(w, e)
    ensures Inv(Step(w, e))
  {
    match e
    case New(over, dirty, now) => AppendKeeps(w, over, dirty, now);
    case Duplicate(id, now) => DuplicateKeeps(w, id, now);
    case Restore(snaps, now) => RestoreKeeps(w, snaps, now);
    case Reorder(fromId, toId) => ReorderKeeps(w, fromId, toId);
    case Close(kind, id, now) => CloseKeeps(w, kind, id, now);
    case Reopen(now) =>
      if w.closed != [] {
        var rest := w.(closed := w.closed[..|w.closed| - 1]);
        assert Inv(rest);
        AppendKeeps(rest, w.closed[|w.closed| - 1], true, now);
      }
    case OpenPage(page, now) => PageKeeps(w, page, now);
    case Select(id, now) => PatchKeeps(w, id, Touch(now));
    case Edit(id, to, now) => PatchKeeps(w, id, Rewrite(to, now));
    case Reload(saveNow, now) =>
      LoadIsSound(Some(Save(w, saveNow)), w.closed, now);
  }

  function Run(w: World, es: seq<Event>): Option<World>
    decreases |es|
  {
    if es == [] then Some(w) else if Offered(w, es[0]) then Run(Step(w, es[0]), es[1..]) else None
  }

  lemma {:induction false} RunKeepsInv(w: World, es: seq<Event>)
    requires Inv(w) && Run(w, es).Some?
    ensures Inv(Run(w, es).value)
    decreases |es|
  {
    if es != [] {
      StepKeepsInv(w, es[0]);
      RunKeepsInv(Step(w, es[0]), es[1..]);
    }
  }

  lemma GrownAbsent(tabs: seq<Tab>, k: nat, more: seq<Tab>, x: Id)
    requires k <= |tabs| && !Has(tabs, x) && forall t :: t in more ==> t.id != x
    ensures !Has(tabs[..k] + more + tabs[k..], x)
  {
  }

  lemma AddedAbsent(tabs: seq<Tab>, more: seq<Tab>, x: Id)
    requires !Has(tabs, x) && !Has(more, x)
    ensures !Has(tabs + more, x)
  {
  }

  lemma AppendAbsent(w: World, s: Snap, dirty: bool, now: int, n: nat)
    requires n < w.next && !Has(w.tabs, T(n))
    ensures !Has(Append(w, s, dirty, now).tabs, T(n))
  {
    AddedAbsent(w.tabs, [Fresh(w.next, s, dirty, now)], T(n));
  }

  lemma ClosedAbsent(w: World, kind: Kind, id: Id, now: int, x: Id)
    requires !Has(w.tabs, x) && x != Welcome
    ensures !Has(CloseNow(w, kind, id, now).tabs, x)
  {
  }

  lemma AbsentStays(w: World, e: Event, n: nat)
    requires Inv(w) && n < w.next && !Has(w.tabs, T(n)) && Offered(w, e) && !e.Reload?
    ensures w.next <= Step(w, e).next && !Has(Step(w, e).tabs, T(n))
  {
    match e
    case New(over, dirty, now) => AppendAbsent(w, over, dirty, now, n);
    case Duplicate(id, now) =>
      var i := Find(w.tabs, id);
      if i >= 0 { GrownAbsent(w.tabs, i + 1, [Step(w, e).tabs[i + 1]], T(n)); }
    case Restore(snaps, now) => AddedAbsent(w.tabs, FreshAll(w.next, snaps, now), T(n));
    case Reorder(fromId, toId) =>
      ReorderKeeps(w, fromId, toId);
      PermutesIn(w.tabs, Step(w, e).tabs);
    case Close(kind, id, now) =>
      ClosedAbsent(w.(closed := Remember(w.closed, Victims(w.tabs, kind, id))), kind, id, now, T(n));
    case Reopen(now) =>
      if w.closed != [] {
        AppendAbsent(w.(closed := w.closed[..|w.closed| - 1]), w.closed[|w.closed| - 1], true, now, n);
      }
    case OpenPage(page, now) =>
      AddedAbsent(w.tabs, [PageTab(page, now)], T(n));
      AddedAbsent([PageTab(page, now)], w.tabs, T(n));
    case Select(id, now) => PatchedIds(w.tabs, id, Touch(now));
    case Edit(id, to, now) => PatchedIds(w.tabs, id, Rewrite(to, now));
  }

  lemma PatchedIds(tabs: seq<Tab>, id: Id, f: Tab -> Tab)
    requires forall t :: f(t).id == t.id
    ensures forall x :: Has(Patched(tabs, id, f), x) ==> Has(tabs, x)
  {
    var r := Patched(tabs, id, f);
    forall x | Has(r, x) ensures Has(tabs, x) {
      var i :| 0 <= i < |r| && r[i].id == x;
      assert tabs[i].id == x;
    }
  }

  /** While the page stays loaded, an id once given out and closed is never given out again,
      so nothing that still arrives for a closed tab can land in a later one. */
  lemma {:induction false} IdsNeverComeBack(w: World, es: seq<Event>, n: nat)
    requires Inv(w) && Run(w, es).Some? && n < w.next && !Has(w.tabs, T(n))
    requires forall e: Event :: e in es ==> !e.Reload?
    ensures !Has(Run(w, es).value.tabs, T(n))
    decreases |es|
  {
    if es != [] {
      assert es[0] in es;
      StepKeepsInv(w, es[0]);
      AbsentStays(w, es[0], n);
      forall e: Event | e in es[1..] ensures !e.Reload? { assert e in es; }
      IdsNeverComeBack(Step(w, es[0]), es[1..], n);
    }
  }

  function NewTabs(k: nat): seq<Event> { seq(k, _ => New(Snap("", "", "", ""), false, 0)) }

  lemma {:induction false} NewTabsReach(w: World, k: nat)
    ensures var r := Run(w, NewTabs(k));
      r.Some? && r.value.next == w.next + k && (k > 0 ==> Has(r.value.tabs, T(w.next + k - 1)))
    decreases k
  {
    if k > 0 {
      var n := Step(w, NewTabs(k)[0]);
      assert NewTabs(k)[1..] == NewTabs(k - 1);
      NewTabsReach(n, k - 1);
      assert n.tabs[|w.tabs|].id == T(w.next);
    }
  }

  ghost predicate ComesBack(w: World, n: nat) {
    exists es :: (forall e: Event :: e in es ==> !e.Reload?) && Run(w, es).Some? && Has(Run(w, es).value.tabs, T(n))
  }

  /** A reload starts the count again above the tabs it brings back: an id closed before it
      can be on a tab after it exactly when it is not below the new count, or the first query
      tab of an empty strip has it. */
  lemma ReloadForgets(w: World, saveNow: int, now: int, n: nat)
    requires Inv(w) && n < w.next && !Has(w.tabs, T(n))
    ensures var r := Step(w, Reload(saveNow, now));
      ComesBack(r, n) <==> n >= r.next || Has(r.tabs, T(n))
    ensures var recent := RecentOf(Some(Save(w, saveNow)), now);
      Has(Step(w, Reload(saveNow, now)).tabs, T(n)) <==> recent == [] && n == 1
  {
    var r := Step(w, Reload(saveNow, now));
    StepKeepsInv(w, Reload(saveNow, now));
    ReloadedIds(w, saveNow, now, n);
    if n >= r.next {
      NewTabsReach(r, n - r.next + 1);
      assert ComesBack(r, n);
    } else if Has(r.tabs, T(n)) {
      assert Run(r, []) == Some(r);
      assert ComesBack(r, n);
    } else if ComesBack(r, n) {
      var es :| (forall e: Event :: e in es ==> !e.Reload?) && Run(r, es).Some? && Has(Run(r, es).value.tabs, T(n));
      IdsNeverComeBack(r, es, n);
    }
  }

  lemma ReloadedIds(w: World, saveNow: int, now: int, n: nat)
    requires Inv(w) && !Has(w.tabs, T(n))
    ensures var recent := RecentOf(Some(Save(w, saveNow)), now);
      Has(Step(w, Reload(saveNow, now)).tabs, T(n)) <==> recent == [] && n == 1
  {
    var r, recent := Step(w, Reload(saveNow, now)), RecentOf(Some(Save(w, saveNow)), now);
    if recent == [] {
      assert r.tabs[1].id == T(1);
    } else {
      FilterDistinct(Save(w, saveNow).tabs, Recent(now));
      assert !Has(recent, T(n));
    }
  }

  // ---- Reopening ----

  function ReopenMany(w: World, k: nat, now: int): World
    decreases k
  {
    if k == 0 then w else ReopenMany(Step(w, Reopen(now)), k - 1, now)
  }

  predicate Holds(t: Tab, s: Snap) { t.name == s.name && t.sql == s.sql && t.conn == s.conn && t.db == s.db }

  predicate SameContent(t: Tab, v: Tab) { t.name == v.name && t.sql == v.sql && t.conn == v.conn && t.db == v.db }

  function FromEnd<A>(xs: seq<A>, i: nat): A
    requires i < |xs|
  {
    xs[|xs| - 1 - i]
  }

  /** Tabs with the ids from `n` on that hold the last snapshots, newest first, unsaved. */
  ghost predicate Brings(added: seq<Tab>, closed: seq<Snap>, n: nat) {
    && |added| <= |closed|
    && forall i :: 0 <= i < |added| ==> added[i].id == T(n + i) && added[i].dirty && Holds(added[i], FromEnd(closed, i))
  }

  /** Reopening brings back, newest first and as unsaved, what the snapshots hold; the last one
      brought back is in front. */
  lemma {:induction false} ReopenRestores(w: World, k: nat, now: int) returns (added: seq<Tab>)
    requires k <= |w.closed|
    ensures |added| == k && Brings(added, w.closed, w.next)
    ensures var r := ReopenMany(w, k, now);
      && r.tabs == w.tabs + added && r.closed == w.closed[..|w.closed| - k]
      && r.next == w.next + k && r.active == if k == 0 then w.active else T(w.next + k - 1)
    decreases k
  {
    added := [];
    if k > 0 {
      var n := Step(w, Reopen(now));
      var rest := ReopenRestores(n, k - 1, now);
      var t := n.tabs[|w.tabs|];
      added := [t] + rest;
      assert n.tabs == w.tabs + [t] && w.tabs + [t] + rest == w.tabs + added;
    }
  }

  function Remembered(closed: seq<Snap>, kept: seq<Tab>): seq<Snap> { Latest(closed + Map(kept, SnapOf())) }

  lemma RememberedTail(closed: seq<Snap>, kept: seq<Tab>, k: nat)
    requires k <= |kept| && k <= MAX_CLOSED
    ensures var r := Remembered(closed, kept);
      && k <= |r| && (forall i :: 0 <= i < k ==> Holds(FromEnd(kept, i), FromEnd(r, i)))
      && (|closed| + |kept| <= MAX_CLOSED && k == |kept| ==> r[..|r| - k] == closed)
  {
    var all, r := closed + Map(kept, SnapOf()), Remembered(closed, kept);
    forall i | 0 <= i < k ensures FromEnd(r, i) == SnapOf()(FromEnd(kept, i)) {
      assert FromEnd(all, i) == Map(kept, SnapOf())[|kept| - 1 - i];
    }
  }

  /** Closing tabs and reopening as many (up to the stack's size) brings back what those that
      were not blank held, the last first, after the tabs that stayed; the stack is then as it
      was before the close when nothing fell off its end. */
  lemma CloseThenReopen(w: World, kind: Kind, id: Id, now: int, later: int) returns (kept: seq<Tab>, back: seq<Tab>)
    ensures kept == Filter(Victims(w.tabs, kind, id), NotBlank())
    ensures forall t :: t in kept <==> t in Victims(w.tabs, kind, id) && !Blank(t.sql)
    ensures |back| == if |kept| < MAX_CLOSED then |kept| else MAX_CLOSED
    ensures forall i :: 0 <= i < |back| ==> SameContent(back[i], FromEnd(kept, i)) && back[i].dirty
    ensures var shut := PerformClose(w, kind, id, now);
      var r := ReopenMany(shut, |back|, later);
      r.tabs == shut.tabs + back && (|w.closed| + |kept| <= MAX_CLOSED ==> r.closed == w.closed)
  {
    kept := Filter(Victims(w.tabs, kind, id), NotBlank());
    var k := if |kept| < MAX_CLOSED then |kept| else MAX_CLOSED;
    var shut := PerformClose(w, kind, id, now);
    RememberedTail(w.closed, kept, k);
    back := ReopenRestores(shut, k, later);
    assert forall i :: 0 <= i < k ==> Holds(back[i], FromEnd(shut.closed, i));
  }

  // ---- What the other moves do to the tabs' contents ----

  /** A new tab goes last and in front, with the next id and what it was opened on. */
  lemma NewOpens(w: World, over: Snap, dirty: bool, now: int) returns (t: Tab)
    ensures t.id == T(w.next) && Holds(t, over) && t.dirty == dirty && t.touchedAt == now
    ensures Step(w, New(over, dirty, now)) == World(w.tabs + [t], t.id, w.next + 1, w.closed)
  {
    t := Step(w, New(over, dirty, now)).tabs[|w.tabs|];
  }

  /** A saved session opens in its order after the tabs that are there, its first in front. */
  lemma RestoreOpens(w: World, snaps: seq<Snap>, now: int) returns (made: seq<Tab>)
    ensures |made| == |snaps|
    ensures forall i :: 0 <= i < |made| ==> made[i].id == T(w.next + i) && Holds(made[i], snaps[i]) && !made[i].dirty && made[i].touchedAt == now
    ensures Step(w, Restore(snaps, now)) ==
      World(w.tabs + made, if snaps == [] then w.active else T(w.next), w.next + |snaps|, w.closed)
  {
    made := FreshAll(w.next, snaps, now);
    assert w.tabs + [] == w.tabs;
  }

  /** The name ends in `copy` as a word. */
  predicate NamedCopy(name: string) {
    exists k :: 0 <= k <= |name| && name[k..] == "copy" && (k > 0 ==> !WordChar(name[k - 1]))
  }

  /** A copy of a copy keeps its name; any other name gets ` copy` at its end. */
  lemma CopyNames(name: string)
    ensures CopyName(name) == if NamedCopy(name) then name else name + " copy"
    ensures NamedCopy(CopyName(name)) && CopyName(CopyName(name)) == CopyName(name)
  {
    if k :| 0 <= k <= |name| && name[k..] == "copy" && (k > 0 ==> !WordChar(name[k - 1])) {
      assert k == |name| - 4;
    }
    if EndsInCopy(name) { assert name[|name| - 4..] == "copy"; }
    var long := name + " copy";
    assert long[|name| + 1..] == "copy" && long[|name|] == ' ';
  }

  /** A duplicate stands just after the tab it copies, in front, with its content. */
  lemma DuplicateCopies(w: World, i: nat, now: int) returns (t: Tab)
    requires i < |w.tabs| && DistinctIds(w.tabs)
    ensures t.id == T(w.next) && !t.dirty && t.touchedAt == now
    ensures Holds(t, Snap(CopyName(w.tabs[i].name), w.tabs[i].sql, w.tabs[i].conn, w.tabs[i].db))
    ensures Step(w, Duplicate(w.tabs[i].id, now)) == World(w.tabs[..i + 1] + [t] + w.tabs[i + 1..], t.id, w.next + 1, w.closed)
  {
    FindAt(w.tabs, i);
    t := Step(w, Duplicate(w.tabs[i].id, now)).tabs[i + 1];
  }

  /** An edit changes the content of the one tab it is made in, and marks it unsaved. */
  lemma EditChanges(w: World, i: nat, to: Snap, now: int)
    requires i < |w.tabs| && DistinctIds(w.tabs)
    ensures var r := Step(w, Edit(w.tabs[i].id, to, now));
      && |r.tabs| == |w.tabs| && (forall j :: 0 <= j < |w.tabs| && j != i ==> r.tabs[j] == w.tabs[j])
      && r.tabs[i].id == w.tabs[i].id && Holds(r.tabs[i], to) && r.tabs[i].dirty && r.tabs[i].touchedAt == now
      && r.active == w.active && r.next == w.next && r.closed == w.closed
  {
    forall j | 0 <= j < |w.tabs| && j != i ensures w.tabs[j].id != w.tabs[i].id {}
  }

  /** A drag moves the one tab to the other's place; a tab that is not there moves nothing. */
  lemma ReorderMoves(w: World, from: nat, to: nat, gone: Id)
    requires DistinctIds(w.tabs) && from < |w.tabs| && to < |w.tabs| && !Has(w.tabs, gone)
    ensures Step(w, Reorder(w.tabs[from].id, w.tabs[to].id)) == w.(tabs := MoveTo(w.tabs, from, to))
    ensures Step(w, Reorder(gone, w.tabs[to].id)) == w == Step(w, Reorder(w.tabs[from].id, gone))
  {
    FindAt(w.tabs, from);
    FindAt(w.tabs, to);
    if from == to { assert MoveTo(w.tabs, from, from) == w.tabs; }
  }

  /** Selecting a tab or opening a page puts it in front and leaves every tab's content; a page
      that is not there yet is added, Welcome first and the other one last. */
  lemma SelectAndPages(w: World, id: Id, page: Id, now: int)
    requires !page.T?
    ensures var r := Step(w, Select(id, now));
      && r.active == id && |r.tabs| == |w.tabs|
      && forall j :: 0 <= j < |w.tabs| ==>
           && r.tabs[j].id == w.tabs[j].id && SameContent(r.tabs[j], w.tabs[j]) && r.tabs[j].dirty == w.tabs[j].dirty
           && r.tabs[j].touchedAt == if w.tabs[j].id == id then now else w.tabs[j].touchedAt
    ensures var r := Step(w, OpenPage(page, now));
      && r.active == page && (Has(w.tabs, page) ==> r.tabs == w.tabs)
      && (!Has(w.tabs, page) ==> r.tabs == if page == Welcome then [PageTab(page, now)] + w.tabs else w.tabs + [PageTab(page, now)])
    ensures PageTab(page, now).id == page && PageTab(page, now).sql == "" && !PageTab(page, now).dirty && PageTab(page, now).touchedAt == now
  {
  }

  // ---- Loading ----

  method LoadWorkspace(saved: Option<Saved>, closed: seq<Snap>, now: int) returns (w: World)
    ensures w == LoadFrom(saved, closed, now)
  {
    var recent := RecentOf(saved, now);
    if recent == [] {
      return World([PageTab(Welcome, now), Tab(T(1), "Query 1", "", "", "", false, now)], Welcome, FIRST_SEQ, closed);
    }
    var tabs, maxN := RestoreTabs(recent, now);
    var active := if Has(recent, saved.value.active) then saved.value.active else tabs[0].id;
    if !Has(tabs, Welcome) { tabs := [PageTab(Welcome, now)] + tabs; }
    w := World(tabs, active, if maxN + 1 > FIRST_SEQ then maxN + 1 else FIRST_SEQ, closed);
  }

  lemma RestoreNext(recent: seq<Tab>, i: nat, now: int)
    requires i < |recent|
    ensures var n, m := MaxNumber(recent[..i]), IdNumber(recent[i].id);
      MaxNumber(recent[..i + 1]) == if m > n then m else n
    ensures Map(recent, Restamp(now))[..i + 1] == Map(recent, Restamp(now))[..i] + [Restamp(now)(recent[i])]
  {
    assert recent[..i + 1][..i] == recent[..i];
  }

  method RestoreTabs(recent: seq<Tab>, now: int) returns (tabs: seq<Tab>, maxN: nat)
    ensures tabs == Map(recent, Restamp(now)) && maxN == MaxNumber(recent)
  {
    maxN, tabs := 0, [];
    var i := 0;
    while i < |recent|
      invariant 0 <= i <= |recent|
      invariant maxN == MaxNumber(recent[..i])
      invariant tabs == Map(recent, Restamp(now))[..i]
    {
      RestoreNext(recent, i, now);
      var n := IdNumber(recent[i].id);
      if n > maxN { maxN := n; }
      tabs := tabs + [Restamp(now)(recent[i])];
      i := i + 1;
    }
    assert recent[..i] == recent;
  }

  lemma RecentIsSound(recent: seq<Tab>, active: Id, closed: seq<Snap>, now: int)
    requires recent != [] && DistinctIds(recent)
    requires |closed| <= MAX_CLOSED && forall s :: s in closed ==> !Blank(s.sql)
    ensures Inv(LoadRecent(recent, active, closed, now)) && Has(LoadRecent(recent, active, closed, now).tabs, Welcome)
  {
    var w := LoadRecent(recent, active, closed, now);
    var tabs := Map(recent, Restamp(now));
    assert tabs[0] in tabs;
    if !Has(tabs, Welcome) { PrependKeeps(tabs, PageTab(Welcome, now), w.active, MaxNumber(recent) + 1); }
  }

  lemma PrependKeeps(tabs: seq<Tab>, page: Tab, active: Id, next: nat)
    requires DistinctIds(tabs) && Below(tabs, next) && Has(tabs, active) && !Has(tabs, page.id) && !page.id.T?
    ensures var r := [page] + tabs;
      DistinctIds(r) && Below(r, next) && Has(r, active) && Has(r, page.id)
  {
    PrependDistinct(tabs, page);
    PrependHas(tabs, page, active);
  }

  lemma PrependDistinct(tabs: seq<Tab>, page: Tab)
    requires DistinctIds(tabs) && !Has(tabs, page.id)
    ensures DistinctIds([page] + tabs)
  {
    var r := [page] + tabs;
    forall i, j | 0 <= i < j < |r| ensures r[i].id != r[j].id {
      assert r[j] == tabs[j - 1] && r[j] in tabs;
      if i > 0 { assert r[i] == tabs[i - 1]; }
    }
  }

  lemma PrependHas(tabs: seq<Tab>, page: Tab, active: Id)
    requires Has(tabs, active)
    ensures Has([page] + tabs, active) && Has([page] + tabs, page.id)
  {
    var r := [page] + tabs;
    assert r[0] == page;
    var i :| 0 <= i < |tabs| && tabs[i].id == active;
    assert r[i + 1].id == active;
  }

  /** Whatever was saved and whenever it is loaded: the strip is sound exactly when the tabs
      not too old have distinct ids and the reopen stack is one the app leaves. */
  lemma LoadIsSoundIff(saved: Option<Saved>, closed: seq<Snap>, now: int)
    ensures Inv(LoadFrom(saved, closed, now)) <==>
      DistinctIds(RecentOf(saved, now)) && |closed| <= MAX_CLOSED && forall s :: s in closed ==> !Blank(s.sql)
  {
    var recent, w := RecentOf(saved, now), LoadFrom(saved, closed, now);
    if recent == [] {
      assert w.tabs[0].id == Welcome;
    } else {
      if DistinctIds(recent) && |closed| <= MAX_CLOSED && forall s :: s in closed ==> !Blank(s.sql) {
        RecentIsSound(recent, saved.value.active, closed, now);
      }
      if Inv(w) { LoadedIdsDistinct(recent, saved.value.active, closed, now); }
    }
  }

  lemma LoadedIdsDistinct(recent: seq<Tab>, active: Id, closed: seq<Snap>, now: int)
    requires recent != [] && DistinctIds(LoadRecent(recent, active, closed, now).tabs)
    ensures DistinctIds(recent)
  {
    var tabs := Map(recent, Restamp(now));
    if !Has(tabs, Welcome) { BehindDistinct(PageTab(Welcome, now), tabs); }
    RestampedDistinct(recent, now);
  }

  lemma BehindDistinct(page: Tab, tabs: seq<Tab>)
    requires DistinctIds([page] + tabs)
    ensures DistinctIds(tabs)
  {
    forall i, j | 0 <= i < j < |tabs| ensures tabs[i].id != tabs[j].id {
      assert ([page] + tabs)[i + 1] == tabs[i] && ([page] + tabs)[j + 1] == tabs[j];
    }
  }

  lemma RestampedDistinct(tabs: seq<Tab>, now: int)
    requires DistinctIds(Map(tabs, Restamp(now)))
    ensures DistinctIds(tabs)
  {
    forall i, j | 0 <= i < j < |tabs| ensures tabs[i].id != tabs[j].id {
      assert Map(tabs, Restamp(now))[i].id != Map(tabs, Restamp(now))[j].id;
    }
  }

  /** So a workspace that the app saved loads into a sound strip, with a Welcome tab. */
  lemma LoadIsSound(saved: Option<Saved>, closed: seq<Snap>, now: int)
    requires saved.Some? ==> DistinctIds(saved.value.tabs)
    requires |closed| <= MAX_CLOSED && forall s :: s in closed ==> !Blank(s.sql)
    ensures Inv(LoadFrom(saved, closed, now)) && Has(LoadFrom(saved, closed, now).tabs, Welcome)
  {
    if saved.Some? { FilterDistinct(saved.value.tabs, Recent(now)); }
    LoadIsSoundIff(saved, closed, now);
    if RecentOf(saved, now) == [] {
      assert LoadFrom(saved, closed, now).tabs[0].id == Welcome;
    } else {
      RecentIsSound(RecentOf(saved, now), saved.value.active, closed, now);
    }
  }

  /** From any load that is sound and any run after it, reloads included: a strip with tabs,
      distinct ids below the next one, and a tab in front. */
  lemma StripSafe(saved: Option<Saved>, closed: seq<Snap>, now: int, es: seq<Event>)
    requires DistinctIds(RecentOf(saved, now)) && |closed| <= MAX_CLOSED && forall s :: s in closed ==> !Blank(s.sql)
    ensures var r := Run(LoadFrom(saved, closed, now), es);
      r.Some? ==> var w := r.value;
        w.tabs != [] && DistinctIds(w.tabs) && Below(w.tabs, w.next) && Has(w.tabs, w.active) && |w.closed| <= 30
  {
    LoadIsSoundIff(saved, closed, now);
    if Run(LoadFrom(saved, closed, now), es).Some? { RunKeepsInv(LoadFrom(saved, closed, now), es); }
  }

  predicate Young(t: Tab, now: int) { t.touchedAt == 0 || now - t.touchedAt < 2592000000 }

  /** A tab never stamped is stamped at the load. */
  predicate Stamped(t: Tab, u: Tab, now: int) { u.touchedAt == if t.touchedAt == 0 then now else t.touchedAt }

  ghost predicate SavedYoung(saved: Saved, now: int, u: Tab) {
    exists v :: v in saved.tabs && Young(v, now) && v.id == u.id && SameContent(u, v)
  }

  lemma LoadedTabs(saved: Saved, closed: seq<Snap>, now: int, u: Tab)
    requires RecentOf(Some(saved), now) != []
    ensures var made := Map(RecentOf(Some(saved), now), Restamp(now));
      (u in LoadFrom(Some(saved), closed, now).tabs ==> u in made || u.id == Welcome)
      && (u in made ==> u in LoadFrom(Some(saved), closed, now).tabs)
  {
  }

  /** What a load keeps, when anything saved is recent enough: the tabs touched less than thirty
      days ago or never stamped, with their content; and besides them at most a Welcome tab. */
  lemma LoadKeepsRecent(saved: Saved, closed: seq<Snap>, now: int, t: Tab)
    requires t in saved.tabs && Young(t, now)
    ensures exists u :: u in LoadFrom(Some(saved), closed, now).tabs && u.id == t.id && SameContent(u, t) && !u.dirty && Stamped(t, u, now)
    ensures forall u :: u in LoadFrom(Some(saved), closed, now).tabs && u.id != Welcome ==> SavedYoung(saved, now, u)
  {
    var recent := RecentOf(Some(saved), now);
    assert t in recent;
    var i :| 0 <= i < |recent| && recent[i] == t;
    LoadedTabs(saved, closed, now, Map(recent, Restamp(now))[i]);
    forall u | u in LoadFrom(Some(saved), closed, now).tabs && u.id != Welcome ensures SavedYoung(saved, now, u) {
      LoadedTabs(saved, closed, now, u);
      MadeIsSaved(saved, now, u);
    }
  }

  lemma MadeIsSaved(saved: Saved, now: int, u: Tab)
    requires u in Map(RecentOf(Some(saved), now), Restamp(now))
    ensures SavedYoung(saved, now, u)
  {
    var recent := RecentOf(Some(saved), now);
    var j :| 0 <= j < |recent| && Map(recent, Restamp(now))[j] == u;
    assert recent[j] in recent;
  }

  /** With nothing recent the strip is Welcome and one empty query. */
  lemma LoadWithNothing(saved: Option<Saved>, closed: seq<Snap>, now: int)
    requires saved.Some? ==> forall t :: t in saved.value.tabs ==> !Young(t, now)
    ensures var r := LoadFrom(saved, closed, now);
      && |r.tabs| == 2 && r.tabs[0].id == Welcome == r.active && r.tabs[1].id == T(1) && r.tabs[1].sql == "" && !r.tabs[1].dirty && r.next == 3
  {
    if saved.Some? { FilterNone(saved.value.tabs, Recent(now)); }
  }

  lemma LoadRestores(w: World, saveNow: int, now: int)
    requires Inv(w) && Has(w.tabs, Welcome)
    requires forall t :: t in w.tabs ==> Recent(now)(Restamp(saveNow)(t))
    ensures var r := LoadFrom(Some(Save(w, saveNow)), w.closed, now);
      && |r.tabs| == |w.tabs| && r.active == w.active && r.closed == w.closed
      && (forall i :: 0 <= i < |w.tabs| ==>
            r.tabs[i].id == w.tabs[i].id && SameContent(r.tabs[i], w.tabs[i]) && !r.tabs[i].dirty)
      && Inv(r) && r.next <= if w.next > FIRST_SEQ then w.next else FIRST_SEQ
  {
    LoadSaved(w, saveNow, now);
    RestampTwice(w.tabs, saveNow, now);
  }

  /** A reload before anything is too old brings back every tab in order, the same one in
      front, nothing unsaved; ids go on above every one in use. */
  lemma ReloadRestores(w: World, saveNow: int, now: int)
    requires Inv(w) && Has(w.tabs, Welcome)
    requires forall t :: t in w.tabs ==> Recent(now)(Restamp(saveNow)(t))
    ensures var r := Step(w, Reload(saveNow, now));
      && |r.tabs| == |w.tabs| && r.active == w.active && r.closed == w.closed
      && (forall i :: 0 <= i < |w.tabs| ==>
            r.tabs[i].id == w.tabs[i].id && SameContent(r.tabs[i], w.tabs[i]) && !r.tabs[i].dirty)
      && Inv(r) && r.next <= if w.next > FIRST_SEQ then w.next else FIRST_SEQ
  {
    LoadRestores(w, saveNow, now);
    ReloadIsLoad(w, saveNow, now);
  }

  lemma ReloadIsLoad(w: World, saveNow: int, now: int)
    ensures Step(w, Reload(saveNow, now)) == LoadFrom(Some(Save(w, saveNow)), w.closed, now)
  {
  }

  lemma LoadSaved(w: World, saveNow: int, now: int)
    requires Inv(w) && Has(w.tabs, Welcome)
    requires forall t :: t in w.tabs ==> Recent(now)(Restamp(saveNow)(t))
    ensures var r := LoadFrom(Some(Save(w, saveNow)), w.closed, now);
      && Inv(r) && r.tabs == Map(Map(w.tabs, Restamp(saveNow)), Restamp(now)) && r.active == w.active && r.closed == w.closed
      && r.next <= if w.next > FIRST_SEQ then w.next else FIRST_SEQ
  {
    var saved := Save(w, saveNow);
    SavedRecent(w.tabs, saveNow, now);
    FilterAll(saved.tabs, Recent(now));
    RestampedBelow(w.tabs, saveNow, w.next);
    LoadAllRecent(saved.tabs, w.active, w.closed, now, w.next);
  }

  lemma RestampTwice(tabs: seq<Tab>, a: int, b: int)
    ensures var r := Map(Map(tabs, Restamp(a)), Restamp(b));
      forall i :: 0 <= i < |tabs| ==> r[i].id == tabs[i].id && SameContent(r[i], tabs[i]) && !r[i].dirty
  {
  }

  lemma LoadAllRecent(recent: seq<Tab>, active: Id, closed: seq<Snap>, now: int, next: nat)
    requires recent != [] && DistinctIds(recent) && Below(recent, next) && Has(recent, active) && Has(recent, Welcome)
    requires |closed| <= MAX_CLOSED && forall s :: s in closed ==> !Blank(s.sql)
    ensures var r := LoadRecent(recent, active, closed, now);
      && Inv(r) && r.tabs == Map(recent, Restamp(now)) && r.active == active && r.closed == closed
      && r.next <= if next > FIRST_SEQ then next else FIRST_SEQ
  {
    RecentIsSound(recent, active, closed, now);
    MaxBelow(recent, next);
  }

  lemma SavedRecent(tabs: seq<Tab>, saveNow: int, now: int)
    requires forall t :: t in tabs ==> Recent(now)(Restamp(saveNow)(t))
    ensures forall t :: t in Map(tabs, Restamp(saveNow)) ==> Recent(now)(t)
  {
    var r := Map(tabs, Restamp(saveNow));
    forall t | t in r ensures Recent(now)(t) {
      var i :| 0 <= i < |r| && r[i] == t;
      assert tabs[i] in tabs;
    }
  }

  lemma RestampedBelow(tabs: seq<Tab>, now: int, next: nat)
    requires Below(tabs, next)
    ensures Below(Map(tabs, Restamp(now)), next)
  {
    var r := Map(tabs, Restamp(now));
    forall t | t in r && t.id.T? ensures t.id.n < next {
      var i :| 0 <= i < |r| && r[i] == t;
      assert tabs[i] in tabs;
    }
  }

  lemma {:induction false} MaxBelow(tabs: seq<Tab>, next: nat)
    requires Below(tabs, next)
    ensures MaxNumber(tabs) == 0 || MaxNumber(tabs) < next
  {
    if tabs != [] {
      var front := tabs[..|tabs| - 1];
      assert forall t :: t in front ==> t in tabs;
      assert tabs[|tabs| - 1] in tabs;
      MaxBelow(front, next);
    }
  }
}
