/** The access editor: rows merged per connection, and what an edit would change
    (accMerge, accDiff and SubjectAccessEditor in qh-admin-access.jsx). */
module AccessEditor {
  import opened Options
  import opened Seqs
  import opened Text
  import opened AccessBox
  import opened Expiry

  datatype Row = Row(key: nat, locked: bool, removed: bool, conn: string, databases: seq<string>, tier: Tier, pick: RowPick)
  {
    predicate Live() { !locked && !removed && conn != "" }
    function Dbs(): seq<string> { if databases == [] then ["*"] else databases }
  }

  function AccEnd(c: Clock, p: RowPick): End {
    match p
    case NoEnd => Forever
    case OnDay(day) => At(if day.Some? then DayEnd(c, day.value) else 0)
    case InDays(n) => At(c.now + n * DAY)
  }

  function TierText(t: Tier): string { match t case RO => "RO" case RW => "RW" case DDL => "DDL" }

  function PickText(p: RowPick): seq<string> {
    match p
    case NoEnd => ["none", ""]
    case OnDay(day) => ["date", if day.Some? then IntText(day.value) else ""]
    case InDays(n) => [IntText(n), ""]
  }

  /** A row as the change test reads it: one text. */
  function Sig(r: Row): string {
    Join([TierText(r.tier), Join(Sorted(r.Dbs()), ',')] + PickText(r.pick), '|')
  }

  datatype Merged = Merged(tier: Tier, all: bool, dbs: set<string>, end: End, sigs: seq<string>)
  {
    function Reach(): Box { Box(tier, if all then AllDbs else Only(dbs), end) }
  }

  function NameSet(names: seq<string>): set<string> { set d | d in names }

  lemma NameSetAppend(a: seq<string>, b: seq<string>)
    ensures NameSet(a + b) == NameSet(a) + NameSet(b)
  {
  }

  /** What one row reaches on its connection. */
  function RowReach(c: Clock, r: Row): Box {
    Box(r.tier, if "*" in r.Dbs() then AllDbs else Only(NameSet(r.Dbs())), AccEnd(c, r.pick))
  }

  function LiveOn(rows: seq<Row>, conn: string): seq<Row> {
    Filter(rows, (r: Row) => r.Live() && r.conn == conn)
  }

  function Reaches(c: Clock, rows: seq<Row>): seq<Box> { Map(rows, (r: Row) => RowReach(c, r)) }
  function Sigs(rows: seq<Row>): seq<string> { Map(rows, (r: Row) => Sig(r)) }

  function Conns(rows: seq<Row>): set<string> { set r | r in rows && r.Live() :: r.conn }

  /** One connection's merge: the join of its rows' reaches, and their texts. */
  ghost predicate MergedOn(c: Clock, live: seq<Row>, x: Merged) {
    live != [] && (x.all <==> "*" in x.dbs) && x.Reach() == JoinAll(Reaches(c, live)) && x.sigs == Sigs(live)
  }

  ghost predicate IsMerge(c: Clock, rows: seq<Row>, m: map<string, Merged>) {
    m.Keys == Conns(rows) && forall k :: k in m ==> MergedOn(c, LiveOn(rows, k), m[k])
  }

  lemma LiveOnSnoc(rows: seq<Row>, r: Row, k: string)
    ensures LiveOn(rows + [r], k) == if r.Live() && r.conn == k then LiveOn(rows, k) + [r] else LiveOn(rows, k)
  {
    FilterAppend(rows, [r], (x: Row) => x.Live() && x.conn == k);
    assert Filter([r], (x: Row) => x.Live() && x.conn == k) == if r.Live() && r.conn == k then [r] else [];
  }

  lemma JoinAllSnoc(bs: seq<Box>, b: Box)
    requires bs != []
    ensures JoinAll(bs + [b]) == JoinBox(JoinAll(bs), b)
  {
    assert (bs + [b])[..|bs|] == bs;
  }

  lemma ConnsSnoc(rows: seq<Row>, r: Row)
    ensures Conns(rows + [r]) == if r.Live() then Conns(rows) + {r.conn} else Conns(rows)
  {
    var all := rows + [r];
    forall k | k in Conns(rows) ensures k in Conns(all) {
      var q :| q in rows && q.Live() && q.conn == k;
      assert q in all;
    }
    assert r in all;
  }

  lemma LiveOnEmpty(rows: seq<Row>, k: string)
    ensures LiveOn(rows, k) == [] <==> k !in Conns(rows)
  {
    if LiveOn(rows, k) != [] {
      assert LiveOn(rows, k)[0] in LiveOn(rows, k);
    }
  }

  function First(c: Clock, r: Row): Merged {
    Merged(r.tier, "*" in r.Dbs(), NameSet(r.Dbs()), AccEnd(c, r.pick), [Sig(r)])
  }

  function Absorb(c: Clock, x: Merged, r: Row): Merged {
    Merged(MaxTier(x.tier, r.tier), x.all || "*" in r.Dbs(), x.dbs + NameSet(r.Dbs()),
           MaxEnd(x.end, AccEnd(c, r.pick)), x.sigs + [Sig(r)])
  }

  /** One row's turn in the merge, for the connection it is on. */
  function Turn(c: Clock, m: map<string, Merged>, r: Row): Merged {
    if r.conn in m then Absorb(c, m[r.conn], r) else First(c, r)
  }

  lemma FirstMerged(c: Clock, r: Row)
    ensures MergedOn(c, [r], First(c, r))
  {
    assert Reaches(c, [r]) == [RowReach(c, r)];
    assert Sigs([r]) == [Sig(r)];
  }

  lemma AbsorbMerged(c: Clock, had: seq<Row>, r: Row, x: Merged)
    requires MergedOn(c, had, x)
    ensures MergedOn(c, had + [r], Absorb(c, x, r))
  {
    assert Sigs(had + [r]) == Sigs(had) + [Sig(r)];
    assert Reaches(c, had + [r]) == Reaches(c, had) + [RowReach(c, r)];
    JoinAllSnoc(Reaches(c, had), RowReach(c, r));
  }

  lemma TurnMerged(c: Clock, rows: seq<Row>, r: Row, m: map<string, Merged>)
    requires IsMerge(c, rows, m) && r.Live()
    ensures MergedOn(c, LiveOn(rows + [r], r.conn), Turn(c, m, r))
  {
    LiveOnSnoc(rows, r, r.conn);
    if r.conn in m {
      AbsorbMerged(c, LiveOn(rows, r.conn), r, m[r.conn]);
    } else {
      LiveOnEmpty(rows, r.conn);
      FirstMerged(c, r);
    }
  }

  function MergeRows(c: Clock, rows: seq<Row>): map<string, Merged> {
    if rows == [] then map[]
    else
      var m, r := MergeRows(c, rows[..|rows| - 1]), rows[|rows| - 1];
      if r.Live() then m[r.conn := Turn(c, m, r)] else m
  }

  method AccMerge(c: Clock, rows: seq<Row>) returns (m: map<string, Merged>)
    ensures m == MergeRows(c, rows)
  {
    m := map[];
    var i := 0;
    while i < |rows|
      invariant 0 <= i <= |rows|
      invariant m == MergeRows(c, rows[..i])
    {
      var r := rows[i];
      assert rows[..i + 1][..i] == rows[..i];
      if r.Live() {
        var dbs := r.Dbs();
        var x := if r.conn in m then m[r.conn] else Merged(r.tier, false, {}, AccEnd(c, r.pick), []);
        x := x.(tier := MaxTier(x.tier, r.tier));
        if "*" in dbs { x := x.(all := true); }
        x := x.(dbs := x.dbs + NameSet(dbs));
        x := x.(end := MaxEnd(x.end, AccEnd(c, r.pick)));
        x := x.(sigs := x.sigs + [Sig(r)]);
        assert x == Turn(c, m, r);
        m := m[r.conn := x];
      }
      i := i + 1;
    }
    assert rows[..i] == rows;
  }

  lemma OtherConn(c: Clock, rows: seq<Row>, r: Row, k: string, x: Merged)
    requires MergedOn(c, LiveOn(rows, k), x) && !(r.Live() && r.conn == k)
    ensures MergedOn(c, LiveOn(rows + [r], k), x)
  {
    LiveOnSnoc(rows, r, k);
  }

  /** The merge holds exactly the connections with live rows, each with the join of
      their reaches. */
  lemma {:induction false} MergeRowsIsMerge(c: Clock, rows: seq<Row>)
    ensures IsMerge(c, rows, MergeRows(c, rows))
  {
    if rows != [] {
      var init, r := rows[..|rows| - 1], rows[|rows| - 1];
      assert rows == init + [r];
      var m := MergeRows(c, init);
      MergeRowsIsMerge(c, init);
      ConnsSnoc(init, r);
      forall k | k in MergeRows(c, rows) ensures MergedOn(c, LiveOn(rows, k), MergeRows(c, rows)[k]) {
        if r.Live() && k == r.conn { TurnMerged(c, init, r, m); } else { OtherConn(c, init, r, k, m[k]); }
      }
    }
  }
}
