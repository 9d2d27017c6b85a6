/** The reach of access on one connection, as a product: every level up to a tier,
    on a set of databases, until an end. */
module AccessBox {
  datatype Tier = RO | RW | DDL

  function Rank(t: Tier): nat { match t case RO => 0 case RW => 1 case DDL => 2 }
  function MaxTier(a: Tier, b: Tier): Tier { if Rank(b) > Rank(a) then b else a }

  datatype End = Forever | At(ms: int)

  predicate EndLe(a: End, b: End) { b.Forever? || (a.At? && a.ms <= b.ms) }
  function MaxEnd(a: End, b: End): End { if EndLe(b, a) then a else b }

  /** All databases includes the ones created later, so it is no finite set of names. */
  datatype Databases = AllDbs | Only(names: set<string>)

  predicate DbsLe(a: Databases, b: Databases) { b.AllDbs? || (a.Only? && a.names <= b.names) }
  function UnionDbs(a: Databases, b: Databases): Databases {
    if a.AllDbs? || b.AllDbs? then AllDbs else Only(a.names + b.names)
  }

  datatype Box = Box(tier: Tier, dbs: Databases, end: End)
  {
    predicate Proper() { dbs.Only? ==> dbs.names != {} && "*" !in dbs.names }

    predicate Reaches(db: string, level: Tier, at: int) {
      Rank(level) <= Rank(tier) && (dbs.Only? ==> db in dbs.names) && EndLe(At(at), end)
    }
  }

  predicate BoxLe(a: Box, b: Box) {
    Rank(a.tier) <= Rank(b.tier) && DbsLe(a.dbs, b.dbs) && EndLe(a.end, b.end)
  }

  function JoinBox(a: Box, b: Box): Box {
    Box(MaxTier(a.tier, b.tier), UnionDbs(a.dbs, b.dbs), MaxEnd(a.end, b.end))
  }

  function JoinAll(bs: seq<Box>): Box
    requires bs != []
  {
    if |bs| == 1 then bs[0] else JoinBox(JoinAll(bs[..|bs| - 1]), bs[|bs| - 1])
  }

  /** There is always one more database name. */
  lemma {:induction false} FreshName(names: set<string>) returns (db: string)
    ensures db !in names && db != "*"
  {
    var n := LengthBound(names);
    db := seq(n + 2, i => 'x');
    assert |db| == n + 2;
  }

  lemma {:induction false} LengthBound(names: set<string>) returns (n: nat)
    ensures forall s :: s in names ==> |s| <= n
  {
    if names == {} {
      n := 0;
    } else {
      var s :| s in names;
      var m := LengthBound(names - {s});
      n := if |s| > m then |s| else m;
    }
  }

  lemma InstantWithin(e: End) returns (at: int)
    ensures EndLe(At(at), e)
  {
    at := if e.At? then e.ms else 0;
  }

  lemma NameWithin(d: Databases) returns (db: string)
    requires d.Only? ==> d.names != {} && "*" !in d.names
    ensures db != "*" && (d.Only? ==> db in d.names)
  {
    if d.AllDbs? { db := FreshName({}); } else { db :| db in d.names; }
  }

  /** One product lies inside another exactly when everything it reaches is reached. */
  lemma BoxLeIsReach(a: Box, b: Box)
    requires a.Proper()
    ensures BoxLe(a, b) <==>
            forall db, level, at {:trigger b.Reaches(db, level, at)} :: db != "*" && a.Reaches(db, level, at) ==> b.Reaches(db, level, at)
  {
    if !BoxLe(a, b) {
      var db, level, at := Outside(a, b);
    }
  }

  lemma Outside(a: Box, b: Box) returns (db: string, level: Tier, at: int)
    requires a.Proper() && !BoxLe(a, b)
    ensures db != "*" && a.Reaches(db, level, at) && !b.Reaches(db, level, at)
  {
    level := a.tier;
    db := NameWithin(a.dbs);
    at := InstantWithin(a.end);
    if Rank(a.tier) <= Rank(b.tier) {
      if !DbsLe(a.dbs, b.dbs) {
        if a.dbs.AllDbs? { db := FreshName(b.dbs.names); } else { db :| db in a.dbs.names && db !in b.dbs.names; }
      } else {
        at := if a.end.At? then a.end.ms else b.end.ms + 1;
      }
    }
  }

  lemma JoinSelf(b: Box)
    ensures JoinBox(b, b) == b && BoxLe(b, b)
  {
    assert b.dbs.Only? ==> b.dbs.names + b.dbs.names == b.dbs.names;
  }

  lemma BoxLeOrder(a: Box, b: Box, c: Box)
    ensures BoxLe(a, a)
    ensures BoxLe(a, b) && BoxLe(b, c) ==> BoxLe(a, c)
    ensures BoxLe(a, b) && BoxLe(b, a) ==> a == b
  {
  }

  /** The join is the least product that contains every one of its parts. */
  lemma {:induction false} JoinAllLeast(bs: seq<Box>, bound: Box)
    requires bs != []
    ensures forall b :: b in bs ==> BoxLe(b, JoinAll(bs))
    ensures (forall b :: b in bs ==> BoxLe(b, bound)) ==> BoxLe(JoinAll(bs), bound)
    ensures (forall b :: b in bs ==> b.Proper()) ==> JoinAll(bs).Proper()
  {
    var init, last := bs[..|bs| - 1], bs[|bs| - 1];
    assert bs == init + [last];
    forall b | b in init ensures b in bs {}
    assert last in bs;
    if init != [] {
      JoinAllLeast(init, bound);
    }
  }

  /** It depends on the set of parts alone, not on their order or repetition. */
  lemma JoinAllSet(bs: seq<Box>, cs: seq<Box>)
    requires bs != [] && cs != []
    requires forall b :: b in bs <==> b in cs
    ensures JoinAll(bs) == JoinAll(cs)
  {
    JoinAllLeast(bs, JoinAll(cs));
    JoinAllLeast(cs, JoinAll(bs));
    BoxLeOrder(JoinAll(bs), JoinAll(cs), JoinAll(bs));
  }
}
