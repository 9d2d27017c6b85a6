/** The bulk auto-approve form (qh-admin-access.jsx): what a subject can query, folded from
    the access rows, and the one tier and the targets that the form may write. */
module AutoReach {
  import opened Options
  import opened AccessBox
  import opened Expiry
  import opened Text

  /** One database of an access row; a team's row names none for "every database". */
  datatype Per = Per(database: Option<string>, tier: Option<Tier>)

  datatype Access = Access(conn: string, tier: Option<Tier>, allDatabases: bool, perDatabase: seq<Per>, databases: seq<string>)

  /** What is held on one connection. */
  datatype Entry = Entry(top: Option<Tier>, all: bool, dbs: map<string, Option<Tier>>)

  type Reach = map<string, Entry>

  const BLANK := Entry(None, false, map[])

  function Higher(a: Option<Tier>, b: Option<Tier>): Option<Tier> {
    if a.None? then b else if b.None? then a else Some(MaxTier(a.value, b.value))
  }

  function Lower(a: Option<Tier>, b: Option<Tier>): Option<Tier> {
    if a.None? then b else if b.None? then a else if Rank(b.value) < Rank(a.value) then b else a
  }

  function PerTier(a: Access, p: Per): Option<Tier> { if p.tier.Some? then p.tier else a.tier }

  function Held(dbs: map<string, Option<Tier>>, d: string): Option<Tier> { if d in dbs then dbs[d] else None }

  function AddDb(e: Entry, d: string, t: Option<Tier>): Entry { e.(dbs := e.dbs[d := Higher(Held(e.dbs, d), t)]) }

  function AddPer(e: Entry, a: Access, p: Per): Entry {
    if p.database.None? then e.(all := true) else AddDb(e, p.database.value, PerTier(a, p))
  }

  function AddPers(e: Entry, a: Access, n: nat): Entry
    requires n <= |a.perDatabase|
  {
    if n == 0 then e else AddPer(AddPers(e, a, n - 1), a, a.perDatabase[n - 1])
  }

  function AddDbs(e: Entry, a: Access, n: nat): Entry
    requires n <= |a.databases|
  {
    if n == 0 then e else AddDb(AddDbs(e, a, n - 1), a.databases[n - 1], a.tier)
  }

  function AddEntry(e: Entry, a: Access): Entry {
    var e1 := e.(top := Higher(e.top, a.tier), all := e.all || a.allDatabases);
    if a.perDatabase != [] then AddPers(e1, a, |a.perDatabase|) else AddDbs(e1, a, |a.databases|)
  }

  function AddRow(m: Reach, a: Access): Reach {
    if a.conn == "" then m else m[a.conn := AddEntry(if a.conn in m then m[a.conn] else BLANK, a)]
  }

  function Folded(access: seq<Access>): Reach {
    if access == [] then map[] else AddRow(Folded(access[..|access| - 1]), access[|access| - 1])
  }

  method QhAutoReach(access: seq<Access>) returns (out: Reach)
    ensures out == Folded(access)
    ensures out == ReachOf(access)
  {
    out := map[];
    var i := 0;
    while i < |access|
      invariant 0 <= i <= |access| && out == Folded(access[..i])
    {
      assert access[..i + 1][..i] == access[..i];
      if access[i].conn != "" {
        var e := AddAccess(if access[i].conn in out then out[access[i].conn] else BLANK, access[i]);
        out := out[access[i].conn := e];
      }
      i := i + 1;
    }
    assert access[..i] == access;
    FoldIsReach(access);
  }

  method AddAccess(was: Entry, a: Access) returns (e: Entry)
    ensures e == AddEntry(was, a)
  {
    e := was.(top := Higher(was.top, a.tier));
    if a.allDatabases { e := e.(all := true); }
    ghost var e1 := e;
    var i := 0;
    if a.perDatabase != [] {
      while i < |a.perDatabase|
        invariant 0 <= i <= |a.perDatabase| && e == AddPers(e1, a, i)
      {
        var p := a.perDatabase[i];
        if p.database.None? { e := e.(all := true); }
        else { e := e.(dbs := e.dbs[p.database.value := Higher(Held(e.dbs, p.database.value), PerTier(a, p))]); }
        i := i + 1;
      }
    } else {
      while i < |a.databases|
        invariant 0 <= i <= |a.databases| && e == AddDbs(e1, a, i)
      {
        e := e.(dbs := e.dbs[a.databases[i] := Higher(Held(e.dbs, a.databases[i]), a.tier)]);
        i := i + 1;
      }
    }
  }

  // ---- What the fold means, row by row and in no order ----

  /** The highest of some tiers. */
  function TopOf(ts: set<Tier>): Option<Tier> {
    if DDL in ts then Some(DDL) else if RW in ts then Some(RW) else if RO in ts then Some(RO) else None
  }

  function Tiers(t: Option<Tier>): set<Tier> { if t.Some? then {t.value} else {} }

  predicate Opens(a: Access) { a.allDatabases || exists p :: p in a.perDatabase && p.database.None? }

  function Names(a: Access): set<string> {
    if a.perDatabase != [] then set p | p in a.perDatabase && p.database.Some? :: p.database.value
    else set d | d in a.databases
  }

  function TiersFor(a: Access, d: string): set<Tier> {
    if a.perDatabase != [] then
      set p | p in a.perDatabase && p.database == Some(d) && PerTier(a, p).Some? :: PerTier(a, p).value
    else if d in a.databases then Tiers(a.tier) else {}
  }

  function Rows(access: seq<Access>, c: string): set<Access> { set a | a in access && a.conn == c }

  function TopTiers(rows: set<Access>): set<Tier> { set a | a in rows && a.tier.Some? :: a.tier.value }

  function AllNames(rows: set<Access>): set<string> { set a, d | a in rows && d in Names(a) :: d }

  function AllTiers(rows: set<Access>, d: string): set<Tier> { set a, t | a in rows && t in TiersFor(a, d) :: t }

  function EntryOf(rows: set<Access>): Entry {
    Entry(TopOf(TopTiers(rows)), exists a :: a in rows && Opens(a), map d | d in AllNames(rows) :: TopOf(AllTiers(rows, d)))
  }

  function Conns(access: seq<Access>): set<string> { set a | a in access && a.conn != "" :: a.conn }

  /** The reach, read off the rows: per connection the highest tier of its rows, whether one
      covers every database, and per database named the highest tier it is given. */
  function ReachOf(access: seq<Access>): Reach {
    map c | c in Conns(access) :: EntryOf(Rows(access, c))
  }

  lemma TopJoin(a: set<Tier>, b: set<Tier>)
    ensures TopOf(a + b) == Higher(TopOf(a), TopOf(b))
  {
  }

  lemma HigherMonoid(a: Option<Tier>, b: Option<Tier>, c: Option<Tier>)
    ensures Higher(Higher(a, b), c) == Higher(a, Higher(b, c))
    ensures Higher(a, None) == a && TopOf(Tiers(a)) == a && TopOf({}) == None
  {
    assert (DDL in Tiers(a) <==> a == Some(DDL)) && (RW in Tiers(a) <==> a == Some(RW)) && (RO in Tiers(a) <==> a == Some(RO));
    assert a.Some? ==> a.value.RO? || a.value.RW? || a.value.DDL?;
  }

  function PerNames(a: Access, n: nat): set<string>
    requires n <= |a.perDatabase|
  {
    set p | p in a.perDatabase[..n] && p.database.Some? :: p.database.value
  }

  function PerTiers(a: Access, n: nat, d: string): set<Tier>
    requires n <= |a.perDatabase|
  {
    set p | p in a.perDatabase[..n] && p.database == Some(d) && PerTier(a, p).Some? :: PerTier(a, p).value
  }

  lemma {:induction false} AddPersMeans(e: Entry, a: Access, n: nat, d: string)
    requires n <= |a.perDatabase|
    ensures var r := AddPers(e, a, n);
      && r.top == e.top
      && (r.all <==> e.all || exists p :: p in a.perDatabase[..n] && p.database.None?)
      && (d in r.dbs <==> d in e.dbs || d in PerNames(a, n))
      && Held(r.dbs, d) == Higher(Held(e.dbs, d), TopOf(PerTiers(a, n, d)))
  {
    if n > 0 {
      var p := a.perDatabase[n - 1];
      AddPersMeans(e, a, n - 1, d);
      assert a.perDatabase[..n] == a.perDatabase[..n - 1] + [p];
      var own := if p.database == Some(d) then Tiers(PerTier(a, p)) else {};
      assert PerTiers(a, n, d) == PerTiers(a, n - 1, d) + own;
      TopJoin(PerTiers(a, n - 1, d), own);
      HigherMonoid(Held(e.dbs, d), TopOf(PerTiers(a, n - 1, d)), PerTier(a, p));
      HigherMonoid(Held(e.dbs, d), TopOf(PerTiers(a, n - 1, d)), None);
      HigherMonoid(PerTier(a, p), None, None);
      HigherMonoid(TopOf(PerTiers(a, n - 1, d)), None, None);
    } else {
      assert PerTiers(a, n, d) == {};
      HigherMonoid(Held(e.dbs, d), None, None);
    }
  }

  lemma {:induction false} AddDbsMeans(e: Entry, a: Access, n: nat, d: string)
    requires n <= |a.databases|
    ensures var r := AddDbs(e, a, n);
      && r.top == e.top && r.all == e.all
      && (d in r.dbs <==> d in e.dbs || d in a.databases[..n])
      && Held(r.dbs, d) == Higher(Held(e.dbs, d), if d in a.databases[..n] then a.tier else None)
  {
    if n > 0 {
      AddDbsMeans(e, a, n - 1, d);
      assert a.databases[..n] == a.databases[..n - 1] + [a.databases[n - 1]];
    }
  }

  lemma AddEntryMeans(e: Entry, a: Access, d: string)
    ensures var r := AddEntry(e, a);
      && r.top == Higher(e.top, a.tier) && (r.all <==> e.all || Opens(a))
      && (d in r.dbs <==> d in e.dbs || d in Names(a))
      && Held(r.dbs, d) == Higher(Held(e.dbs, d), TopOf(TiersFor(a, d)))
  {
    var e1 := e.(top := Higher(e.top, a.tier), all := e.all || a.allDatabases);
    AddPersMeans(e1, a, |a.perDatabase|, d);
    AddDbsMeans(e1, a, |a.databases|, d);
    assert a.perDatabase[..|a.perDatabase|] == a.perDatabase && a.databases[..|a.databases|] == a.databases;
    if a.perDatabase != [] {
      assert PerTiers(a, |a.perDatabase|, d) == TiersFor(a, d);
    }
    HigherMonoid(a.tier, None, None);
    HigherMonoid(Held(e.dbs, d), None, None);
  }

  lemma EntryOfAdds(rows: set<Access>, a: Access)
    ensures EntryOf(rows + {a}) == AddEntry(EntryOf(rows), a)
  {
    var was, got, all := EntryOf(rows), AddEntry(EntryOf(rows), a), rows + {a};
    assert TopTiers(all) == TopTiers(rows) + Tiers(a.tier);
    TopJoin(TopTiers(rows), Tiers(a.tier));
    HigherMonoid(a.tier, None, None);
    forall d ensures (d in got.dbs <==> d in AllNames(all)) && Held(got.dbs, d) == Higher(Held(was.dbs, d), TopOf(TiersFor(a, d))) {
      AddEntryMeans(was, a, d);
    }
    AddEntryMeans(was, a, "");
    forall d | d in AllNames(all) ensures got.dbs[d] == TopOf(AllTiers(all, d)) {
      assert AllTiers(all, d) == AllTiers(rows, d) + TiersFor(a, d);
      TopJoin(AllTiers(rows, d), TiersFor(a, d));
      NamedTiers(rows, d);
      assert Held(was.dbs, d) == TopOf(AllTiers(rows, d));
    }
    assert got.dbs == EntryOf(all).dbs;
    assert (exists b :: b in all && Opens(b)) <==> Opens(a) || exists b :: b in rows && Opens(b);
  }

  lemma NamedTiers(rows: set<Access>, d: string)
    ensures d !in AllNames(rows) ==> AllTiers(rows, d) == {}
  {
    forall a | a in rows && d !in Names(a) ensures TiersFor(a, d) == {} { UnnamedTiers(a, d); }
  }

  lemma UnnamedTiers(a: Access, d: string)
    ensures d !in Names(a) ==> TiersFor(a, d) == {}
  {
    if a.perDatabase != [] {
      assert forall p :: p in a.perDatabase && p.database == Some(d) ==> d in Names(a);
    }
  }

  /** The loop's fold is the reach read off the rows. */
  lemma {:induction false} FoldIsReach(access: seq<Access>)
    ensures Folded(access) == ReachOf(access)
  {
    if access != [] {
      var front, a := access[..|access| - 1], access[|access| - 1];
      FoldIsReach(front);
      assert access == front + [a];
      RowAdds(front, a);
    }
  }

  lemma RowAdds(front: seq<Access>, a: Access)
    ensures ReachOf(front + [a]) == AddRow(ReachOf(front), a)
  {
    var m := AddRow(ReachOf(front), a);
    assert Conns(front + [a]) == Conns(front) + (if a.conn == "" then {} else {a.conn});
    forall c | c in Conns(front + [a]) ensures m[c] == EntryOf(Rows(front + [a], c)) {
      if c == a.conn {
        assert Rows(front + [a], c) == Rows(front, c) + {a};
        EntryOfAdds(Rows(front, c), a);
        if c !in Conns(front) {
          assert Rows(front, c) == {};
          EntryOfNone();
        }
      } else {
        assert Rows(front + [a], c) == Rows(front, c);
      }
    }
  }

  lemma EntryOfNone()
    ensures EntryOf({}) == BLANK
  {
    assert TopTiers({}) == {} && AllNames({}) == {};
  }

  /** The order of the access rows, and repeats of one, make no difference. */
  lemma OrderIrrelevant(xs: seq<Access>, ys: seq<Access>)
    requires forall a :: a in xs <==> a in ys
    ensures Folded(xs) == Folded(ys)
  {
    FoldIsReach(xs);
    FoldIsReach(ys);
    forall c ensures Rows(xs, c) == Rows(ys, c) { }
    assert Conns(xs) == Conns(ys);
  }

  // ---- The tier the form writes ----

  /** One target: a connection, and a database or all of them. */
  datatype Target = Target(conn: string, db: Option<string>)

  predicate Named(db: Option<string>) { db.Some? && db.value != "" }

  /** The tier the form takes for the one held where a target points. */
  function CapOf(reach: Reach, r: Target): Option<Tier> {
    if r.conn !in reach then None
    else
      var e := reach[r.conn];
      if !Named(r.db) then e.top
      else if Held(e.dbs, r.db.value).Some? then Held(e.dbs, r.db.value)
      else if e.all then e.top else None
  }

  function CapFrom(reach: Reach, rows: seq<Target>, c: Option<Tier>): Option<Tier>
    decreases |rows|
  {
    if rows == [] then c
    else CapFrom(reach, rows[1..], Lower(c, Some(OrRO(CapOf(reach, rows[0])))))
  }

  function OrRO(t: Option<Tier>): Tier { if t.Some? then t.value else RO }

  /** The lowest of the targets' tiers. */
  function Cap(reach: Reach, rows: seq<Target>): Tier { OrRO(CapFrom(reach, rows, None)) }

  function UseTier(reach: Reach, rows: seq<Target>, picked: Tier): Tier {
    var fits := Rank(RW) <= Rank(Cap(reach, rows));
    if picked.RO? || (picked.RW? && fits) then picked else if fits then RW else RO
  }

  lemma {:induction false} CapIsLeast(reach: Reach, rows: seq<Target>, c: Option<Tier>)
    requires rows != [] || c.Some?
    ensures var r := CapFrom(reach, rows, c);
      && r.Some?
      && (c.Some? ==> Rank(r.value) <= Rank(c.value))
      && (forall x :: x in rows ==> Rank(r.value) <= Rank(OrRO(CapOf(reach, x))))
      && (r == c || exists x :: x in rows && r == Some(OrRO(CapOf(reach, x))))
    decreases |rows|
  {
    if rows != [] {
      var own := Some(OrRO(CapOf(reach, rows[0])));
      CapIsLeast(reach, rows[1..], Lower(c, own));
      assert rows[0] in rows && forall x :: x in rows[1..] ==> x in rows;
      assert forall x :: x in rows ==> x == rows[0] || x in rows[1..];
    }
  }

  /** The tier written is read or write, never above the one the form takes for held at any
      target; and it is write exactly when more than read is picked and all of them bear it. */
  lemma NeverAboveCap(reach: Reach, rows: seq<Target>, picked: Tier)
    requires rows != []
    ensures var t := UseTier(reach, rows, picked);
      && (t.RO? || t.RW?)
      && (forall r :: r in rows && CapOf(reach, r).Some? ==> Rank(t) <= Rank(CapOf(reach, r).value))
      && (t.RW? <==> !picked.RO? && forall r :: r in rows ==> CapOf(reach, r).Some? && !CapOf(reach, r).value.RO?)
  {
    CapIsLeast(reach, rows, None);
  }

  // ---- What is really held ----

  /** What one access row gives on every database: its entries that name none. */
  function WildTiers(a: Access): set<Tier> {
    if a.perDatabase != [] then set p | p in a.perDatabase && p.database.None? && PerTier(a, p).Some? :: PerTier(a, p).value
    else if a.allDatabases then Tiers(a.tier) else {}
  }

  function AllWild(rows: set<Access>): set<Tier> { set a, t | a in rows && t in WildTiers(a) :: t }

  /** The tier the access rows give at a target: on a database, the highest of the entries
      that name it or name none; on a whole connection, the highest of all. */
  function HeldAt(access: seq<Access>, r: Target): Option<Tier> {
    var rows := Rows(access, r.conn);
    if Named(r.db) then TopOf(AllTiers(rows, r.db.value) + AllWild(rows)) else TopOf(TopTiers(rows))
  }

  predicate AtMost(t: Tier, held: Option<Tier>) { held.Some? && Rank(t) <= Rank(held.value) }

  /** On a connection reached as a whole, the entry for every database gives at least `t`. */
  predicate WildGives(access: seq<Access>, conn: string, t: Tier) { AtMost(t, TopOf(AllWild(Rows(access, conn)))) }

  lemma TopOfIs(ts: set<Tier>)
    ensures TopOf(ts).Some? <==> ts != {}
    ensures TopOf(ts).Some? ==> TopOf(ts).value in ts && forall t :: t in ts ==> Rank(t) <= Rank(TopOf(ts).value)
  {
    if t :| t in ts { assert t.RO? || t.RW? || t.DDL?; }
  }

  lemma TopOfMore(ts: set<Tier>, us: set<Tier>)
    ensures TopOf(ts).Some? ==> AtMost(TopOf(ts).value, TopOf(ts + us)) && AtMost(TopOf(ts).value, TopOf(us + ts))
  {
    TopOfIs(ts);
    TopOfIs(ts + us);
    assert us + ts == ts + us;
  }

  /** The tier taken for held is held, or comes from the highest tier of a connection reached
      as a whole. */
  lemma CapHeldOrTop(access: seq<Access>, r: Target)
    requires CapOf(ReachOf(access), r).Some?
    ensures var e := ReachOf(access)[r.conn];
      AtMost(CapOf(ReachOf(access), r).value, HeldAt(access, r)) || (Named(r.db) && e.all && CapOf(ReachOf(access), r) == e.top)
  {
    var rows := Rows(access, r.conn);
    if Named(r.db) { TopOfMore(AllTiers(rows, r.db.value), AllWild(rows)); }
  }

  /** Some database of this connection has no entry of its own. */
  lemma UnnamedDatabase(access: seq<Access>, conn: string) returns (r: Target)
    requires conn in ReachOf(access)
    ensures r.conn == conn && Named(r.db)
    ensures var e := ReachOf(access)[conn];
      CapOf(ReachOf(access), r) == (if e.all then e.top else None)
    ensures HeldAt(access, r) == TopOf(AllWild(Rows(access, conn)))
  {
    var rows := Rows(access, conn);
    var d := FreshName(AllNames(rows) + {""});
    r := Target(conn, Some(d));
    NamedTiers(rows, d);
    assert AllTiers(rows, d) + AllWild(rows) == AllWild(rows);
  }

  /** What the form takes for held, read off the access rows: on a whole connection the highest
      tier of its rows; on a database the highest of the entries that name it, and where none
      does, on a connection reached as a whole, that same highest tier. */
  lemma CapReads(access: seq<Access>, r: Target)
    requires r.conn in Conns(access)
    ensures var rows := Rows(access, r.conn);
      CapOf(ReachOf(access), r) ==
        if !Named(r.db) then TopOf(TopTiers(rows))
        else if AllTiers(rows, r.db.value) != {} then TopOf(AllTiers(rows, r.db.value))
        else if exists a :: a in rows && Opens(a) then TopOf(TopTiers(rows)) else None
  {
    if Named(r.db) {
      NamedTiers(Rows(access, r.conn), r.db.value);
      TopOfIs(AllTiers(Rows(access, r.conn), r.db.value));
    }
  }

  // The other way about: is all that is held offered?

  ghost predicate OffersHeld(access: seq<Access>) {
    forall r: Target :: r.conn in Conns(access) && HeldAt(access, r).Some? ==>
      AtMost(HeldAt(access, r).value, CapOf(ReachOf(access), r))
  }

  /** The entry for every database gives no more than this. */
  predicate WildWithin(access: seq<Access>, conn: string, t: Option<Tier>) {
    var wild := TopOf(AllWild(Rows(access, conn)));
    wild.Some? ==> AtMost(wild.value, t)
  }

  /** On every connection, the entry for every database is no higher than the rows' own tier, nor
      than the entries of any database that has some. */
  ghost predicate OwnIsEnough(access: seq<Access>) {
    forall k :: k in Conns(access) ==>
      && WildWithin(access, k, TopOf(TopTiers(Rows(access, k))))
      && forall d :: d != "" && AllTiers(Rows(access, k), d) != {} ==> WildWithin(access, k, TopOf(AllTiers(Rows(access, k), d)))
  }

  lemma WildOpens(rows: set<Access>)
    requires AllWild(rows) != {}
    ensures exists a :: a in rows && Opens(a)
  {
    var t :| t in AllWild(rows);
    var a :| a in rows && t in WildTiers(a);
    assert Opens(a);
  }

  lemma HeldIsOwnOrWild(access: seq<Access>, r: Target)
    requires Named(r.db)
    ensures var own, wild := AllTiers(Rows(access, r.conn), r.db.value), AllWild(Rows(access, r.conn));
      && (HeldAt(access, r).Some? <==> own != {} || wild != {})
      && (HeldAt(access, r).Some? ==> HeldAt(access, r) == TopOf(own) || HeldAt(access, r) == TopOf(wild))
      && (TopOf(wild).Some? ==> AtMost(TopOf(wild).value, HeldAt(access, r)))
  {
    var own, wild := AllTiers(Rows(access, r.conn), r.db.value), AllWild(Rows(access, r.conn));
    TopOfIs(own);
    TopOfIs(wild);
    TopOfIs(own + wild);
  }

  /** All that is held at a target is offered there exactly when, on every connection, the entry
      for every database is no higher than the rows' own tier, nor than the entries of a database
      that has some: those hide it. */
  lemma OffersHeldIff(access: seq<Access>)
    ensures OffersHeld(access) <==> OwnIsEnough(access)
  {
    if OwnIsEnough(access) {
      forall r: Target | r.conn in Conns(access) && HeldAt(access, r).Some?
        ensures AtMost(HeldAt(access, r).value, CapOf(ReachOf(access), r))
      {
        OffersAt(access, r);
      }
    }
    if OffersHeld(access) {
      forall k | k in Conns(access)
        ensures WildWithin(access, k, TopOf(TopTiers(Rows(access, k))))
        ensures forall d :: d != "" && AllTiers(Rows(access, k), d) != {} ==> WildWithin(access, k, TopOf(AllTiers(Rows(access, k), d)))
      {
        HeldNeedsOwn(access, k);
      }
    }
  }

  lemma OffersAt(access: seq<Access>, r: Target)
    requires OwnIsEnough(access) && r.conn in Conns(access) && HeldAt(access, r).Some?
    ensures AtMost(HeldAt(access, r).value, CapOf(ReachOf(access), r))
  {
    var rows := Rows(access, r.conn);
    CapReads(access, r);
    if Named(r.db) {
      HeldIsOwnOrWild(access, r);
      TopOfIs(AllTiers(rows, r.db.value));
      TopOfIs(AllWild(rows));
      if AllWild(rows) != {} { WildOpens(rows); }
    }
  }

  lemma HeldNeedsOwn(access: seq<Access>, k: string)
    requires OffersHeld(access) && k in Conns(access)
    ensures WildWithin(access, k, TopOf(TopTiers(Rows(access, k))))
    ensures forall d :: d != "" && AllTiers(Rows(access, k), d) != {} ==> WildWithin(access, k, TopOf(AllTiers(Rows(access, k), d)))
  {
    var rows := Rows(access, k);
    TopOfIs(AllWild(rows));
    var u := UnnamedDatabase(access, k);
    forall d | d != "" && AllTiers(rows, d) != {} ensures WildWithin(access, k, TopOf(AllTiers(rows, d))) {
      var r := Target(k, Some(d));
      CapReads(access, r);
      HeldIsOwnOrWild(access, r);
    }
  }

  /** A team that writes every database, with one entry of its own to read: the form offers
      to read there, where it may write. */
  lemma OffersBelowHeld()
    ensures var access := [Access("main", Some(RW), true, [Per(None, Some(RW)), Per(Some("a"), Some(RO))], ["a"])];
      CapOf(ReachOf(access), Target("main", Some("a"))) == Some(RO) && HeldAt(access, Target("main", Some("a"))) == Some(RW)
  {
    var p, q := Per(None, Some(RW)), Per(Some("a"), Some(RO));
    var a := Access("main", Some(RW), true, [p, q], ["a"]);
    var access := [a];
    assert Rows(access, "main") == {a} && "main" in Conns(access);
    assert p in a.perDatabase && q in a.perDatabase;
    assert TiersFor(a, "a") == {RO} && WildTiers(a) == {RW};
    assert AllTiers({a}, "a") == {RO} && AllTiers({a}, "a") + AllWild({a}) == {RO, RW};
    CapReads(access, Target("main", Some("a")));
  }

  ghost predicate CapsHeld(access: seq<Access>) {
    forall r :: CapOf(ReachOf(access), r).Some? ==> AtMost(CapOf(ReachOf(access), r).value, HeldAt(access, r))
  }

  /** On every connection reached as a whole, the entry for every database is as high as any. */
  predicate WildIsTop(access: seq<Access>) {
    forall k :: k in Conns(access) && ReachOf(access)[k].all && ReachOf(access)[k].top.Some? ==>
      WildGives(access, k, ReachOf(access)[k].top.value)
  }

  lemma WildCovers(access: seq<Access>, r: Target, t: Tier)
    requires Named(r.db) && WildGives(access, r.conn, t)
    ensures AtMost(t, HeldAt(access, r))
  {
    var rows := Rows(access, r.conn);
    TopOfMore(AllWild(rows), AllTiers(rows, r.db.value));
  }

  /** What the form takes for held is held at every target exactly when, on every connection
      reached as a whole, the entry for every database is as high as any other. */
  lemma CapsHeldIff(access: seq<Access>)
    ensures CapsHeld(access) <==> WildIsTop(access)
  {
    if WildIsTop(access) {
      forall r | CapOf(ReachOf(access), r).Some? ensures AtMost(CapOf(ReachOf(access), r).value, HeldAt(access, r)) {
        CapHeldOrTop(access, r);
        var e := ReachOf(access)[r.conn];
        if Named(r.db) && e.all && CapOf(ReachOf(access), r) == e.top { WildCovers(access, r, e.top.value); }
      }
    }
    if CapsHeld(access) {
      forall k | k in Conns(access) && ReachOf(access)[k].all && ReachOf(access)[k].top.Some?
        ensures WildGives(access, k, ReachOf(access)[k].top.value)
      {
        var r := UnnamedDatabase(access, k);
      }
    }
  }

  /** What the form writes is held at every target that it takes for held. */
  ghost predicate WritesHeld(access: seq<Access>) {
    forall rows, picked, r :: r in rows && CapOf(ReachOf(access), r).Some? ==>
      AtMost(UseTier(ReachOf(access), rows, picked), HeldAt(access, r))
  }

  /** A rule is read or write, so the entry need not go above write. */
  predicate WildIsEnough(access: seq<Access>) {
    forall k :: k in Conns(access) && ReachOf(access)[k].all && ReachOf(access)[k].top.Some? ==>
      WildGives(access, k, if ReachOf(access)[k].top.value.RO? then RO else RW)
  }

  /** The tier written is held at every target exactly when, on every connection reached as a
      whole, the entry for every database gives the highest tier there, or write. */
  lemma NeverMoreThanHeldIff(access: seq<Access>)
    ensures WritesHeld(access) <==> WildIsEnough(access)
  {
    if WildIsEnough(access) {
      forall rows, picked, r | r in rows && CapOf(ReachOf(access), r).Some?
        ensures AtMost(UseTier(ReachOf(access), rows, picked), HeldAt(access, r))
      {
        NeverAboveCap(ReachOf(access), rows, picked);
        CapHeldOrTop(access, r);
        var e := ReachOf(access)[r.conn];
        if Named(r.db) && e.all && CapOf(ReachOf(access), r) == e.top {
          WildCovers(access, r, if e.top.value.RO? then RO else RW);
        }
      }
    }
    if WritesHeld(access) {
      forall k | k in Conns(access) && ReachOf(access)[k].all && ReachOf(access)[k].top.Some?
        ensures WildGives(access, k, if ReachOf(access)[k].top.value.RO? then RO else RW)
      {
        var r := UnnamedDatabase(access, k);
        assert CapFrom(ReachOf(access), [r], None) == Some(OrRO(CapOf(ReachOf(access), r)));
        assert r in [r] && AtMost(UseTier(ReachOf(access), [r], RW), HeldAt(access, r));
      }
    }
  }

  /** A team that reads every database and writes one: the form offers to write in any other. */
  lemma WritesAboveHeld()
    ensures var access := [Access("main", Some(RW), true, [Per(None, Some(RO)), Per(Some("a"), Some(RW))], ["a"])];
      var r := Target("main", Some("b"));
      UseTier(Folded(access), [r], RW) == RW && HeldAt(access, r) == Some(RO)
  {
    var p, q := Per(None, Some(RO)), Per(Some("a"), Some(RW));
    var a := Access("main", Some(RW), true, [p, q], ["a"]);
    var access, r := [a], Target("main", Some("b"));
    FoldIsReach(access);
    assert Rows(access, "main") == {a};
    assert p in a.perDatabase && q in a.perDatabase && Opens(a);
    assert TiersFor(a, "b") == {} && WildTiers(a) == {RO};
    assert AllTiers({a}, "b") + AllWild({a}) == {RO};
    assert "b" !in Names(a);
    assert TopTiers({a}) == {RW};
    assert "main" in Conns(access) && "b"[0] != "a"[0];
    assert CapOf(ReachOf(access), r) == Some(RW);
    assert CapFrom(ReachOf(access), [r], None) == Some(RW);
  }

  // ---- The targets it writes ----

  function DbText(db: Option<string>): string { if Named(db) then db.value else "*" }

  function KeyOf(r: Target): string { r.conn + "/" + DbText(r.db) }

  function FindKey(rows: seq<Target>, key: string): (i: nat)
    ensures i <= |rows| && (i < |rows| ==> KeyOf(rows[i]) == key) && forall j :: 0 <= j < i ==> KeyOf(rows[j]) != key
  {
    if rows == [] || KeyOf(rows[0]) == key then 0 else 1 + FindKey(rows[1..], key)
  }

  predicate DupeIn(rows: seq<Target>, i: nat)
    requires i < |rows|
  {
    FindKey(rows, KeyOf(rows[i])) != i
  }

  /** No database is named, or the star that stands for all. */
  predicate WholeConn(r: Target) { r.db.None? || r.db == Some("") || r.db == Some("*") }

  predicate SameTarget(a: Target, b: Target) { a.conn == b.conn && (a.db == b.db || (WholeConn(a) && WholeConn(b))) }

  predicate HeldBy(held: seq<Target>, r: Target) { exists a :: a in held && SameTarget(a, r) }

  datatype Form = Form(subject: string, rows: seq<Target>, picked: Tier, end: Pick, busy: bool)

  /** Save is off. `reach` is None until it has loaded. */
  predicate Bad(c: Clock, f: Form, reach: Option<Reach>, held: seq<Target>, maxDays: int) {
    || Trim(f.subject) == "" || reach.None? || f.rows == []
    || (exists i :: 0 <= i < |f.rows| && (DupeIn(f.rows, i) || HeldBy(held, f.rows[i])))
    || AutoEndWhy(c, f.end, maxDays).Some? || f.busy
  }

  /** A form that can be saved names no target twice and none already held, at a tier that the
      form takes for held at every target, with an end within the limit; and where the entries
      for every database are high enough, at a tier that is held there. */
  lemma UnblockedIsSound(c: Clock, f: Form, access: seq<Access>, held: seq<Target>, maxDays: int)
    requires maxDays >= 1 && !Bad(c, f, Some(ReachOf(access)), held, maxDays)
    ensures forall i, j :: 0 <= i < j < |f.rows| ==> !SameTarget(f.rows[i], f.rows[j])
    ensures forall r, a :: r in f.rows && a in held ==> !SameTarget(a, r)
    ensures var t := UseTier(ReachOf(access), f.rows, f.picked);
      forall r :: r in f.rows && CapOf(ReachOf(access), r).Some? ==>
        && Rank(t) <= Rank(CapOf(ReachOf(access), r).value)
        && (WildIsEnough(access) ==> AtMost(t, HeldAt(access, r)))
    ensures var end := RuleEnd(c, f.end, maxDays);
      end.Some? && end.value <= c.now + maxDays * DAY
  {
    forall i, j | 0 <= i < j < |f.rows| ensures !SameTarget(f.rows[i], f.rows[j]) {
      assert !DupeIn(f.rows, i) && !DupeIn(f.rows, j);
    }
    forall r, a | r in f.rows && a in held ensures !SameTarget(a, r) {
      var i :| 0 <= i < |f.rows| && f.rows[i] == r;
      assert !HeldBy(held, f.rows[i]);
    }
    NeverAboveCap(ReachOf(access), f.rows, f.picked);
    NeverMoreThanHeldIff(access);
    AcceptedEndBounds(c, f.end, maxDays);
  }

  /** On every list of rows over these connections, a row is marked a duplicate exactly when
      an earlier one names the same target. */
  ghost predicate DupesExact(conns: set<string>) {
    forall rows: seq<Target>, i: nat :: i < |rows| && (forall r :: r in rows ==> r.conn in conns) ==>
      (DupeIn(rows, i) <==> SameBefore(rows, i))
  }

  predicate SameBefore(rows: seq<Target>, i: nat)
    requires i < |rows|
  {
    exists j :: 0 <= j < i && SameTarget(rows[j], rows[i])
  }

  /** Some connection's id is another's followed by a slash and more. */
  predicate Extends(conns: set<string>) { exists a, b :: a in conns && b in conns && a + "/" <= b }

  lemma ShorterIsExtended(a: string, s: string, b: string, t: string)
    requires a + "/" + s == b + "/" + t
    ensures |a| < |b| ==> a + "/" <= b
    ensures |a| == |b| ==> a == b && s == t
  {
    var k := a + "/" + s;
    assert k[..|a| + 1] == a + "/" && k[..|a|] == a && k[|a| + 1..] == s;
    assert k[..|b|] == b && k[|b| + 1..] == t;
    if |a| < |b| { assert k[..|b|][..|a| + 1] == k[..|a| + 1]; }
  }

  lemma KeySplits(a: Target, b: Target)
    requires !(a.conn + "/" <= b.conn) && !(b.conn + "/" <= a.conn)
    ensures KeyOf(a) == KeyOf(b) <==> SameTarget(a, b)
  {
    if KeyOf(a) == KeyOf(b) {
      ShorterIsExtended(a.conn, DbText(a.db), b.conn, DbText(b.db));
      ShorterIsExtended(b.conn, DbText(b.db), a.conn, DbText(a.db));
    }
  }

  /** Two rows that share a key and are not the same target. */
  function Confused(a: string, b: string): seq<Target>
    requires a + "/" <= b
  {
    [Target(a, Some(b[|a| + 1..] + "/x")), Target(b, Some("x"))]
  }

  lemma ConfusedDupe(a: string, b: string)
    requires a + "/" <= b
    ensures DupeIn(Confused(a, b), 1) && !SameBefore(Confused(a, b), 1)
  {
    var rows := Confused(a, b);
    assert b == a + "/" + b[|a| + 1..];
    assert KeyOf(rows[0]) == a + "/" + (b[|a| + 1..] + "/x") == b + "/" + "x" == KeyOf(rows[1]);
  }

  /** The duplicate mark is exact on these connections exactly when no id extends another by
      a slash. */
  lemma DupeExactIff(conns: set<string>)
    ensures DupesExact(conns) <==> !Extends(conns)
  {
    if a, b :| a in conns && b in conns && a + "/" <= b {
      var rows := Confused(a, b);
      ConfusedDupe(a, b);
      assert forall r :: r in rows ==> r.conn in conns;
    }
    if !Extends(conns) {
      forall rows: seq<Target>, i: nat | i < |rows| && (forall r :: r in rows ==> r.conn in conns)
        ensures DupeIn(rows, i) <==> SameBefore(rows, i)
      {
        forall j | 0 <= j < |rows| ensures KeyOf(rows[j]) == KeyOf(rows[i]) <==> SameTarget(rows[j], rows[i]) {
          assert rows[j] in rows && rows[i] in rows;
          KeySplits(rows[j], rows[i]);
        }
      }
    }
  }

  /** Over connections of which none extends another by a slash, Save is open exactly when there
      is a subject, its reach is loaded, the targets are some, different and not held yet, the end
      is one a rule may have, and nothing is being saved. */
  lemma RuleOpenIff(c: Clock, f: Form, reach: Option<Reach>, held: seq<Target>, maxDays: int, conns: set<string>)
    requires !Extends(conns) && forall r :: r in f.rows ==> r.conn in conns
    ensures !Bad(c, f, reach, held, maxDays) <==>
      && !Blank(f.subject) && reach.Some? && f.rows != [] && !f.busy
      && (forall i, j :: 0 <= i < j < |f.rows| ==> !SameTarget(f.rows[i], f.rows[j]))
      && (forall r, a :: r in f.rows && a in held ==> !SameTarget(a, r))
      && AutoEndWhy(c, f.end, maxDays).None?
  {
    DupeExactIff(conns);
    var front, back := TrimIsMiddle(f.subject);
    forall i | 0 <= i < |f.rows| ensures DupeIn(f.rows, i) <==> SameBefore(f.rows, i) {}
    if !Bad(c, f, reach, held, maxDays) {
      forall i, j | 0 <= i < j < |f.rows| ensures !SameTarget(f.rows[i], f.rows[j]) { assert !SameBefore(f.rows, j); }
      forall r, a | r in f.rows && a in held ensures !SameTarget(a, r) {
        var i :| 0 <= i < |f.rows| && f.rows[i] == r;
        assert !HeldBy(held, f.rows[i]);
      }
    }
  }

  /** The ids `a` and `a/b` are such a pair. */
  lemma SlashConfusesTargets()
    ensures var rows := [Target("a", Some("b/x")), Target("a/b", Some("x"))];
      DupeIn(rows, 1) && !SameTarget(rows[0], rows[1])
  {
    assert "a" + "/" <= "a/b" && "a/b"[2..] + "/x" == "b/x";
    ConfusedDupe("a", "a/b");
    assert Confused("a", "a/b") == [Target("a", Some("b/x")), Target("a/b", Some("x"))];
  }
}
