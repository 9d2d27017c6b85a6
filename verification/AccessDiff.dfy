/** What Save would change, and whether it widens (accDiff in qh-admin-access.jsx). */
module AccessDiff {
  import opened Options
  import opened Seqs
  import opened Text
  import opened AccessBox
  import opened Expiry
  import opened AccessEditor

  datatype Diff = Diff(added: set<string>, changed: set<string>, removed: set<string>, any: bool, widens: bool)

  function SigText(x: Merged): string { Join(Sorted(x.sigs), ';') }

  predicate Wider(x: Merged, y: Merged) {
    || MaxTier(x.tier, y.tier) != x.tier
    || (!x.all && (y.all || exists d :: d in y.dbs && d !in x.dbs))
    || !EndLe(y.end, x.end)
  }

  function AccDiff(c: Clock, initial: seq<Row>, rows: seq<Row>): Diff {
    var a, b := MergeRows(c, initial), MergeRows(c, rows);
    var added := b.Keys - a.Keys;
    var removed := a.Keys - b.Keys;
    var changed := set k | k in b && k in a && SigText(a[k]) != SigText(b[k]);
    Diff(added, changed, removed, added != {} || changed != {} || removed != {},
         added != {} || exists k :: k in changed && Wider(a[k], b[k]))
  }

  // ---- Widening, as reach ----

  ghost predicate Reachable(m: map<string, Merged>, conn: string, db: string, level: Tier, at: int) {
    conn in m && m[conn].Reach().Reaches(db, level, at)
  }

  /** Some real database, at some level and instant, is reached after and not before. */
  ghost predicate Grows(a: map<string, Merged>, b: map<string, Merged>) {
    exists conn, db, level, at :: db != "*" && Reachable(b, conn, db, level, at) && !Reachable(a, conn, db, level, at)
  }

  predicate GrewOn(a: map<string, Merged>, b: map<string, Merged>, conn: string) {
    conn in b && (conn in a ==> Wider(a[conn], b[conn]))
  }

  lemma WiderIsReach(x: Merged, y: Merged)
    ensures Wider(x, y) <==> !BoxLe(y.Reach(), x.Reach())
  {
  }

  lemma RowReachProper(c: Clock, r: Row)
    ensures RowReach(c, r).Proper()
  {
    assert r.Dbs()[0] in NameSet(r.Dbs());
  }

  lemma MergedProper(c: Clock, rows: seq<Row>, conn: string)
    requires conn in MergeRows(c, rows)
    ensures MergeRows(c, rows)[conn].Reach().Proper()
  {
    MergeRowsIsMerge(c, rows);
    var bs := Reaches(c, LiveOn(rows, conn));
    forall b | b in bs ensures b.Proper() {
      var i :| 0 <= i < |bs| && bs[i] == b;
      RowReachProper(c, LiveOn(rows, conn)[i]);
    }
    JoinAllLeast(bs, bs[0]);
  }

  lemma GrowsByConn(c: Clock, initial: seq<Row>, rows: seq<Row>)
    ensures var a, b := MergeRows(c, initial), MergeRows(c, rows);
      Grows(a, b) <==> exists k :: GrewOn(a, b, k)
  {
    var a, b := MergeRows(c, initial), MergeRows(c, rows);
    if Grows(a, b) {
      var k, db, level, at :| db != "*" && Reachable(b, k, db, level, at) && !Reachable(a, k, db, level, at);
      if k in a { WiderIsReach(a[k], b[k]); }
      assert GrewOn(a, b, k);
    }
    if k :| GrewOn(a, b, k) {
      MergedProper(c, rows, k);
      var reach := b[k].Reach();
      if k in a {
        WiderIsReach(a[k], b[k]);
        var db, level, at := Outside(reach, a[k].Reach());
        assert Reachable(b, k, db, level, at) && !Reachable(a, k, db, level, at);
      } else {
        var db := NameWithin(reach.dbs);
        var at := InstantWithin(reach.end);
        assert Reachable(b, k, db, reach.tier, at) && !Reachable(a, k, db, reach.tier, at);
      }
    }
  }

  predicate ReadsTheSame(a: map<string, Merged>, b: map<string, Merged>, conn: string) {
    conn in a && conn in b && SigText(a[conn]) == SigText(b[conn])
  }

  /** Reach grew on a connection that is new or whose rows read differently. */
  ghost predicate GrewInSight(a: map<string, Merged>, b: map<string, Merged>) {
    exists k :: GrewOn(a, b, k) && !ReadsTheSame(a, b, k)
  }

  /** What the flag means, for every edit: it is raised exactly for growth in sight. */
  lemma WidensMeans(c: Clock, initial: seq<Row>, rows: seq<Row>)
    ensures AccDiff(c, initial, rows).widens <==> GrewInSight(MergeRows(c, initial), MergeRows(c, rows))
  {
    var a, b := MergeRows(c, initial), MergeRows(c, rows);
    var d := AccDiff(c, initial, rows);
    forall k ensures k in d.added || (k in d.changed && Wider(a[k], b[k])) <==> GrewOn(a, b, k) && !ReadsTheSame(a, b, k) { }
    if k :| k in d.added {
      assert GrewOn(a, b, k) && !ReadsTheSame(a, b, k);
    }
    if k :| k in d.changed && Wider(a[k], b[k]) {
      assert GrewOn(a, b, k) && !ReadsTheSame(a, b, k);
    }
    if k :| GrewOn(a, b, k) && !ReadsTheSame(a, b, k) {
      assert k in d.added || (k in d.changed && Wider(a[k], b[k]));
    }
  }

  /** Growth goes unflagged exactly when there is some, and every connection that grew was
      there before and reads the same. */
  lemma HiddenGrowthIff(c: Clock, initial: seq<Row>, rows: seq<Row>)
    ensures var a, b := MergeRows(c, initial), MergeRows(c, rows);
      Grows(a, b) && !AccDiff(c, initial, rows).widens <==>
        (exists k :: GrewOn(a, b, k)) && forall k :: GrewOn(a, b, k) ==> ReadsTheSame(a, b, k)
  {
    GrowsByConn(c, initial, rows);
    WidensMeans(c, initial, rows);
  }

  // ---- Row order ----

  /** Two merges of one connection that the diff cannot tell apart. */
  predicate SameMerge(x: Merged, y: Merged) { x.Reach() == y.Reach() && SigText(x) == SigText(y) }

  lemma MergeOrderIrrelevant(c: Clock, rows: seq<Row>, other: seq<Row>)
    requires Permutes(rows, other)
    ensures MergeRows(c, rows).Keys == MergeRows(c, other).Keys
    ensures forall k :: k in MergeRows(c, rows) ==> SameMerge(MergeRows(c, rows)[k], MergeRows(c, other)[k])
  {
    var m, n := MergeRows(c, rows), MergeRows(c, other);
    MergeRowsIsMerge(c, rows);
    MergeRowsIsMerge(c, other);
    PermutesIn(rows, other);
    assert Conns(rows) == Conns(other);
    forall k | k in m ensures SameMerge(m[k], n[k]) {
      FilterPermutes(rows, other, (r: Row) => r.Live() && r.conn == k);
      SameRowsSameMerge(c, LiveOn(rows, k), LiveOn(other, k), m[k], n[k]);
    }
  }

  lemma SameRowsSameMerge(c: Clock, la: seq<Row>, lb: seq<Row>, x: Merged, y: Merged)
    requires Permutes(la, lb) && MergedOn(c, la, x) && MergedOn(c, lb, y)
    ensures SameMerge(x, y)
  {
    MapPermutes(la, lb, (r: Row) => RowReach(c, r));
    MapPermutes(la, lb, (r: Row) => Sig(r));
    PermutesIn(Reaches(c, la), Reaches(c, lb));
    JoinAllSet(Reaches(c, la), Reaches(c, lb));
    SortedCanonical(Sigs(la), Sigs(lb));
  }

  /** The change shown, and the widening flag, do not depend on the order of the rows. */
  lemma DiffOrderIrrelevant(c: Clock, initial: seq<Row>, initial': seq<Row>, rows: seq<Row>, rows': seq<Row>)
    requires Permutes(initial, initial') && Permutes(rows, rows')
    ensures AccDiff(c, initial, rows) == AccDiff(c, initial', rows')
  {
    MergeOrderIrrelevant(c, initial, initial');
    MergeOrderIrrelevant(c, rows, rows');
    var a, b := MergeRows(c, initial), MergeRows(c, rows);
    var a', b' := MergeRows(c, initial'), MergeRows(c, rows');
    forall k | k in a && k in b ensures Wider(a[k], b[k]) == Wider(a'[k], b'[k]) {
      WiderIsReach(a[k], b[k]);
      WiderIsReach(a'[k], b'[k]);
    }
  }

  // ---- Rows read as text ----

  predicate PlainName(d: string) { ',' !in d && '|' !in d && ';' !in d }

  /** No database name holds one of the three separators. */
  ghost predicate PlainNames(rows: seq<Row>) {
    forall r, d :: r in rows && d in r.databases ==> PlainName(d)
  }

  ghost predicate PlainRow(r: Row) { forall d :: d in r.databases ==> PlainName(d) }

  function SigParts(r: Row): seq<string> {
    [TierText(r.tier), Join(Sorted(r.Dbs()), ',')] + PickText(r.pick)
  }

  lemma PlainDbs(r: Row, sep: char)
    requires PlainRow(r) && (sep == ',' || sep == '|' || sep == ';')
    ensures Without(Sorted(r.Dbs()), sep) && Sorted(r.Dbs()) != []
  {
    SortByPermutes(StrLe, r.Dbs());
    PermutesIn(Sorted(r.Dbs()), r.Dbs());
  }

  lemma PickTextPlain(p: RowPick, sep: char)
    requires sep == '|' || sep == ';'
    ensures Without(PickText(p), sep)
  {
    var n := match p case NoEnd => 0 case OnDay(day) => (if day.Some? then day.value else 0) case InDays(n) => n;
    if sep in IntText(n) { IntTextChars(n, sep); }
  }

  lemma SigPartsPlain(r: Row, sep: char)
    requires PlainRow(r) && (sep == '|' || sep == ';')
    ensures Without(SigParts(r), sep)
  {
    PlainDbs(r, sep);
    JoinWithout(Sorted(r.Dbs()), ',', sep);
    PickTextPlain(r.pick, sep);
  }

  lemma IntTextNotWord(n: int)
    ensures IntText(n) != "none" && IntText(n) != "date" && IntText(n) != ""
  {
    IntTextSign(n);
    IntTextChars(n, IntText(n)[0]);
  }

  lemma PickTextInjective(p: RowPick, q: RowPick)
    requires PickText(p) == PickText(q)
    ensures p == q
  {
    assert PickText(p)[0] == PickText(q)[0] && PickText(p)[1] == PickText(q)[1];
    if p.InDays? { IntTextNotWord(p.n); }
    if q.InDays? { IntTextNotWord(q.n); }
    if p.OnDay? && p.day.Some? { IntTextNotWord(p.day.value); }
    if q.OnDay? && q.day.Some? { IntTextNotWord(q.day.value); }
    if p.InDays? && q.InDays? { IntTextInjective(p.n, q.n); }
    if p.OnDay? && q.OnDay? && p.day.Some? && q.day.Some? { IntTextInjective(p.day.value, q.day.value); }
  }

  /** What a row holds, whatever the order of its databases. */
  datatype Content = Content(tier: Tier, dbs: multiset<string>, pick: RowPick)

  function ContentOf(): Row -> Content { (r: Row) => Content(r.tier, multiset(r.Dbs()), r.pick) }

  /** With plain names a row's text determines what it holds. */
  lemma SigTells(r: Row, s: Row)
    requires PlainRow(r) && PlainRow(s) && Sig(r) == Sig(s)
    ensures ContentOf()(r) == ContentOf()(s)
  {
    SigPartsPlain(r, '|');
    SigPartsPlain(s, '|');
    var p, q := SigParts(r), SigParts(s);
    JoinInjective(p, q, '|');
    assert p[0] == q[0] && p[1] == q[1] && p[2..] == PickText(r.pick) && q[2..] == PickText(s.pick);
    TierTextInjective(r.tier, s.tier);
    PickTextInjective(r.pick, s.pick);
    PlainDbs(r, ',');
    PlainDbs(s, ',');
    JoinInjective(Sorted(r.Dbs()), Sorted(s.Dbs()), ',');
    SortByPermutes(StrLe, r.Dbs());
    SortByPermutes(StrLe, s.Dbs());
  }

  lemma TierTextInjective(a: Tier, b: Tier)
    requires TierText(a) == TierText(b)
    ensures a == b
  {
    assert TierText(a)[1] == TierText(b)[1];
  }

  lemma SameContentSameSig(r: Row, s: Row)
    requires ContentOf()(r) == ContentOf()(s)
    ensures Sig(r) == Sig(s)
  {
    SortedCanonical(r.Dbs(), s.Dbs());
  }

  lemma SigDetermines(c: Clock, r: Row, s: Row)
    requires PlainRow(r) && PlainRow(s) && Sig(r) == Sig(s)
    ensures RowReach(c, r) == RowReach(c, s)
  {
    SigTells(r, s);
    PermutesIn(r.Dbs(), s.Dbs());
    assert NameSet(r.Dbs()) == NameSet(s.Dbs());
  }

  lemma SigsPlain(rows: seq<Row>)
    requires PlainNames(rows)
    ensures Without(Sorted(Sigs(rows)), ';')
  {
    SortByPermutes(StrLe, Sigs(rows));
    PermutesIn(Sorted(Sigs(rows)), Sigs(rows));
    forall s | s in Sigs(rows) ensures ';' !in s {
      var i :| 0 <= i < |rows| && Sigs(rows)[i] == s;
      assert rows[i] in rows;
      SigPartsPlain(rows[i], ';');
      JoinWithout(SigParts(rows[i]), '|', ';');
    }
  }

  lemma SameTextSubset(c: Clock, la: seq<Row>, lb: seq<Row>, box: Box)
    requires PlainNames(la) && PlainNames(lb) && Permutes(Sigs(la), Sigs(lb))
    requires box in Reaches(c, la)
    ensures box in Reaches(c, lb)
  {
    var i :| 0 <= i < |la| && Reaches(c, la)[i] == box;
    PermutesIn(Sigs(la), Sigs(lb));
    assert Sigs(la)[i] in Sigs(lb);
    var j :| 0 <= j < |lb| && Sigs(lb)[j] == Sigs(la)[i];
    assert la[i] in la && lb[j] in lb;
    SigDetermines(c, la[i], lb[j]);
    assert Reaches(c, lb)[j] == box;
  }

  lemma SameTextSameReach(c: Clock, la: seq<Row>, lb: seq<Row>)
    requires la != [] && lb != [] && PlainNames(la) && PlainNames(lb)
    requires Join(Sorted(Sigs(la)), ';') == Join(Sorted(Sigs(lb)), ';')
    ensures JoinAll(Reaches(c, la)) == JoinAll(Reaches(c, lb))
  {
    SigsPlain(la);
    SigsPlain(lb);
    SortByPermutes(StrLe, Sigs(la));
    SortByPermutes(StrLe, Sigs(lb));
    PermutesIn(Sorted(Sigs(la)), Sigs(la));
    PermutesIn(Sorted(Sigs(lb)), Sigs(lb));
    JoinInjective(Sorted(Sigs(la)), Sorted(Sigs(lb)), ';');
    assert Permutes(Sigs(la), Sigs(lb));
    forall box ensures box in Reaches(c, la) <==> box in Reaches(c, lb) {
      if box in Reaches(c, la) { SameTextSubset(c, la, lb, box); }
      if box in Reaches(c, lb) { SameTextSubset(c, lb, la, box); }
    }
    JoinAllSet(Reaches(c, la), Reaches(c, lb));
  }

  /** With plain names the flag is exact: Save widens when the merged reach grows,
      and only then. */
  lemma WidensExact(c: Clock, initial: seq<Row>, rows: seq<Row>)
    requires PlainNames(initial) && PlainNames(rows)
    ensures AccDiff(c, initial, rows).widens <==> Grows(MergeRows(c, initial), MergeRows(c, rows))
  {
    var a, b := MergeRows(c, initial), MergeRows(c, rows);
    WidensMeans(c, initial, rows);
    GrowsByConn(c, initial, rows);
    forall k | ReadsTheSame(a, b, k) ensures !GrewOn(a, b, k) { SameTextNotWider(c, initial, rows, k); }
  }

  lemma SameTextNotWider(c: Clock, initial: seq<Row>, rows: seq<Row>, k: string)
    requires PlainNames(initial) && PlainNames(rows) && ReadsTheSame(MergeRows(c, initial), MergeRows(c, rows), k)
    ensures !Wider(MergeRows(c, initial)[k], MergeRows(c, rows)[k])
  {
    MergeRowsIsMerge(c, initial);
    MergeRowsIsMerge(c, rows);
    SameTextSameReach(c, LiveOn(initial, k), LiveOn(rows, k));
    SameReachNotWider(MergeRows(c, initial)[k], MergeRows(c, rows)[k]);
  }

  // ---- What the change line says ----

  function Contents(rows: seq<Row>, conn: string): multiset<Content> { multiset(Map(LiveOn(rows, conn), ContentOf())) }

  /** The live rows of this connection hold something else, or are more or fewer. */
  predicate RowsDiffer(initial: seq<Row>, rows: seq<Row>, conn: string) { Contents(initial, conn) != Contents(rows, conn) }

  lemma SameContentsSameText(la: seq<Row>, lb: seq<Row>)
    requires multiset(Map(la, ContentOf())) == multiset(Map(lb, ContentOf()))
    ensures Join(Sorted(Sigs(la)), ';') == Join(Sorted(Sigs(lb)), ';')
  {
    forall r: Row, s: Row | ContentOf()(r) == ContentOf()(s) ensures Sig(r) == Sig(s) { SameContentSameSig(r, s); }
    KeysPermute(la, lb, ContentOf(), (r: Row) => Sig(r));
    SortedCanonical(Sigs(la), Sigs(lb));
  }

  lemma SameTextSameContents(la: seq<Row>, lb: seq<Row>)
    requires la != [] && lb != [] && PlainNames(la) && PlainNames(lb)
    requires Join(Sorted(Sigs(la)), ';') == Join(Sorted(Sigs(lb)), ';')
    ensures multiset(Map(la, ContentOf())) == multiset(Map(lb, ContentOf()))
  {
    SigsPlain(la);
    SigsPlain(lb);
    SortByPermutes(StrLe, Sigs(la));
    SortByPermutes(StrLe, Sigs(lb));
    PermutesIn(Sorted(Sigs(la)), Sigs(la));
    PermutesIn(Sorted(Sigs(lb)), Sigs(lb));
    JoinInjective(Sorted(Sigs(la)), Sorted(Sigs(lb)), ';');
    forall r, s | r in la && s in lb && Sig(r) == Sig(s) ensures ContentOf()(r) == ContentOf()(s) { SigTells(r, s); }
    KeysPermute(la, lb, (r: Row) => Sig(r), ContentOf());
  }

  lemma TextIsContents(c: Clock, initial: seq<Row>, rows: seq<Row>, k: string)
    requires k in MergeRows(c, initial) && k in MergeRows(c, rows)
    ensures RowsDiffer(initial, rows, k) <== SigText(MergeRows(c, initial)[k]) != SigText(MergeRows(c, rows)[k])
    ensures PlainNames(initial) && PlainNames(rows) && RowsDiffer(initial, rows, k) ==>
      SigText(MergeRows(c, initial)[k]) != SigText(MergeRows(c, rows)[k])
  {
    MergeRowsIsMerge(c, initial);
    MergeRowsIsMerge(c, rows);
    var la, lb := LiveOn(initial, k), LiveOn(rows, k);
    if !RowsDiffer(initial, rows, k) { SameContentsSameText(la, lb); }
    if PlainNames(initial) && PlainNames(rows) && SigText(MergeRows(c, initial)[k]) == SigText(MergeRows(c, rows)[k]) {
      SameTextSameContents(la, lb);
    }
  }

  lemma OneSideDiffers(initial: seq<Row>, rows: seq<Row>, k: string)
    requires (k in Conns(initial)) != (k in Conns(rows))
    ensures RowsDiffer(initial, rows, k)
  {
    LiveOnEmpty(initial, k);
    LiveOnEmpty(rows, k);
    var a, b := Map(LiveOn(initial, k), ContentOf()), Map(LiveOn(rows, k), ContentOf());
    assert |multiset(a)| == |a| && |multiset(b)| == |b|;
  }

  lemma NoSideSame(initial: seq<Row>, rows: seq<Row>, k: string)
    requires k !in Conns(initial) && k !in Conns(rows)
    ensures !RowsDiffer(initial, rows, k)
  {
    LiveOnEmpty(initial, k);
    LiveOnEmpty(rows, k);
  }

  lemma AddedRemoved(c: Clock, initial: seq<Row>, rows: seq<Row>)
    ensures var d := AccDiff(c, initial, rows);
      d.added == Conns(rows) - Conns(initial) && d.removed == Conns(initial) - Conns(rows)
  {
    MergeRowsIsMerge(c, initial);
    MergeRowsIsMerge(c, rows);
  }

  lemma ChangedMeans(c: Clock, initial: seq<Row>, rows: seq<Row>, k: string)
    ensures var changed := AccDiff(c, initial, rows).changed;
      && (k in changed ==> k in Conns(initial) && k in Conns(rows) && RowsDiffer(initial, rows, k))
      && (PlainNames(initial) && PlainNames(rows) && k in Conns(initial) && k in Conns(rows) && RowsDiffer(initial, rows, k) ==> k in changed)
  {
    MergeRowsIsMerge(c, initial);
    MergeRowsIsMerge(c, rows);
    if k in Conns(initial) && k in Conns(rows) { TextIsContents(c, initial, rows, k); }
  }

  /** The change line, for every edit: the connections that came and went; and with plain names
      the ones changed are those on both sides whose live rows differ in level, databases or end. */
  lemma DiffMeans(c: Clock, initial: seq<Row>, rows: seq<Row>)
    ensures var d := AccDiff(c, initial, rows);
      d.added == Conns(rows) - Conns(initial) && d.removed == Conns(initial) - Conns(rows)
    ensures PlainNames(initial) && PlainNames(rows) ==>
      forall k :: k in AccDiff(c, initial, rows).changed <==> k in Conns(initial) && k in Conns(rows) && RowsDiffer(initial, rows, k)
  {
    AddedRemoved(c, initial, rows);
    forall k ensures PlainNames(initial) && PlainNames(rows) ==>
      (k in AccDiff(c, initial, rows).changed <==> k in Conns(initial) && k in Conns(rows) && RowsDiffer(initial, rows, k))
    {
      ChangedMeans(c, initial, rows, k);
    }
  }

  predicate InDiff(d: Diff, k: string) { k in d.added || k in d.removed || k in d.changed }

  lemma InDiffDiffers(c: Clock, initial: seq<Row>, rows: seq<Row>, k: string)
    ensures InDiff(AccDiff(c, initial, rows), k) ==> RowsDiffer(initial, rows, k)
    ensures PlainNames(initial) && PlainNames(rows) && RowsDiffer(initial, rows, k) ==> InDiff(AccDiff(c, initial, rows), k)
  {
    AddedRemoved(c, initial, rows);
    ChangedMeans(c, initial, rows, k);
    if (k in Conns(initial)) != (k in Conns(rows)) { OneSideDiffers(initial, rows, k); }
    if k !in Conns(initial) && k !in Conns(rows) { NoSideSame(initial, rows, k); }
  }

  /** With plain names there is a change exactly when some connection's rows differ; with any
      names, only then. */
  lemma AnyMeans(c: Clock, initial: seq<Row>, rows: seq<Row>)
    ensures AccDiff(c, initial, rows).any ==> exists k :: RowsDiffer(initial, rows, k)
    ensures PlainNames(initial) && PlainNames(rows) && (exists k :: RowsDiffer(initial, rows, k)) ==> AccDiff(c, initial, rows).any
  {
    var d := AccDiff(c, initial, rows);
    if d.any {
      var j :| j in d.added || j in d.removed || j in d.changed;
      assert InDiff(d, j);
      InDiffDiffers(c, initial, rows, j);
    }
    if k :| RowsDiffer(initial, rows, k) {
      InDiffDiffers(c, initial, rows, k);
      assert PlainNames(initial) && PlainNames(rows) ==> InDiff(d, k);
    }
  }

  lemma OneRow(c: Clock, r: Row)
    requires r.Live()
    ensures MergeRows(c, [r]) == map[r.conn := First(c, r)]
  {
    assert [r][..0] == [];
  }

  lemma SortedPair(a: string, b: string)
    requires StrLe(a, b)
    ensures Sorted([a, b]) == [a, b]
  {
    SortByFixed(StrLe, [a, b]);
  }

  /** A comma in a database name can hide a widening: the edit from the one database
      `a,b` to the two databases `a` and `b` counts as no change at all. */
  lemma CommaHidesWidening(c: Clock) returns (initial: seq<Row>, rows: seq<Row>)
    ensures !AccDiff(c, initial, rows).any && !AccDiff(c, initial, rows).widens
    ensures Grows(MergeRows(c, initial), MergeRows(c, rows))
  {
    var r := Row(0, false, false, "main", ["a,b"], RO, NoEnd);
    var s := r.(databases := ["a", "b"]);
    initial, rows := [r], [s];
    OneRow(c, r);
    OneRow(c, s);
    SortedPair("a", "b");
    SortByFixed(StrLe, ["a,b"]);
    assert Join(["a", "b"], ',') == "a" + [','] + Join(["a", "b"][1..], ',') == "a,b";
    assert SigParts(r) == SigParts(s);
    var a, b := MergeRows(c, initial), MergeRows(c, rows);
    assert "a" in b["main"].dbs && "a" !in a["main"].dbs;
    assert Reachable(b, "main", "a", RO, 0) && !Reachable(a, "main", "a", RO, 0);
  }

  // ---- The merged reach and the actual reach ----

  ghost predicate HeldOn(c: Clock, live: seq<Row>, db: string, level: Tier, at: int) {
    exists b :: b in Reaches(c, live) && b.Reaches(db, level, at)
  }

  /** The merge reaches only what some row reaches. */
  ghost predicate MergeIsActual(c: Clock, live: seq<Row>)
    requires live != []
  {
    forall db, level, at :: db != "*" && JoinAll(Reaches(c, live)).Reaches(db, level, at) ==> HeldOn(c, live, db, level, at)
  }

  /** A row that holds the merge's own tier and end on these databases. */
  predicate HoldsAtTop(c: Clock, r: Row, top: Box, dbs: Databases) {
    r.tier == top.tier && AccEnd(c, r.pick) == top.end && DbsLe(dbs, RowReach(c, r).dbs)
  }

  /** Every merged database is held at the merged tier until the merged end by one row. */
  predicate Attained(c: Clock, live: seq<Row>)
    requires live != []
  {
    var top := JoinAll(Reaches(c, live));
    if top.dbs.AllDbs? then exists r :: r in live && HoldsAtTop(c, r, top, AllDbs)
    else forall d :: d in top.dbs.names ==> exists r :: r in live && HoldsAtTop(c, r, top, Only({d}))
  }

  /** An instant that only the ends equal to `e` last until. */
  lemma {:induction false} InstantOfEnd(bs: seq<Box>, e: End) returns (at: int)
    ensures EndLe(At(at), e)
    ensures forall b :: b in bs && EndLe(b.end, e) && EndLe(At(at), b.end) ==> b.end == e
  {
    if e.At? {
      at := e.ms;
    } else if bs == [] {
      at := 0;
    } else {
      var rest := InstantOfEnd(bs[1..], e);
      at := if bs[0].end.At? && bs[0].end.ms >= rest then bs[0].end.ms + 1 else rest;
    }
  }

  /** A real name that is in `d`, and in no finite list of `bs` when `d` is all databases. */
  lemma {:induction false} AllNames(bs: seq<Box>) returns (names: set<string>)
    ensures forall b :: b in bs && b.dbs.Only? ==> b.dbs.names <= names
  {
    names := {};
    if bs != [] {
      var rest := AllNames(bs[1..]);
      names := rest + if bs[0].dbs.Only? then bs[0].dbs.names else {};
    }
  }

  lemma RowOfBox(c: Clock, live: seq<Row>, b: Box) returns (r: Row)
    requires b in Reaches(c, live)
    ensures r in live && RowReach(c, r) == b
  {
    var i :| 0 <= i < |live| && Reaches(c, live)[i] == b;
    r := live[i];
  }

  lemma HolderOf(c: Clock, live: seq<Row>, d: string, at: int) returns (r: Row)
    requires live != [] && MergeIsActual(c, live) && d != "*"
    requires var top := JoinAll(Reaches(c, live));
      && top.Reaches(d, top.tier, at)
      && forall b :: b in Reaches(c, live) && EndLe(b.end, top.end) && EndLe(At(at), b.end) ==> b.end == top.end
    ensures r in live && HoldsAtTop(c, r, JoinAll(Reaches(c, live)), Only({d}))
  {
    var bs, top := Reaches(c, live), JoinAll(Reaches(c, live));
    JoinAllLeast(bs, top);
    var b :| b in bs && b.Reaches(d, top.tier, at);
    r := RowOfBox(c, live, b);
  }

  lemma ActualIsAttained(c: Clock, live: seq<Row>)
    requires live != [] && MergeIsActual(c, live)
    ensures Attained(c, live)
  {
    var bs := Reaches(c, live);
    var top := JoinAll(bs);
    var at := InstantOfEnd(bs, top.end);
    if top.dbs.AllDbs? {
      var names := AllNames(bs);
      var db := FreshName(names);
      var r := HolderOf(c, live, db, at);
      RowBox(c, live, r);
      assert HoldsAtTop(c, r, top, AllDbs);
    } else {
      MergedNamesReal(c, live);
      forall d | d in top.dbs.names ensures exists r :: r in live && HoldsAtTop(c, r, top, Only({d})) {
        var r := HolderOf(c, live, d, at);
      }
    }
  }

  lemma RowBox(c: Clock, live: seq<Row>, r: Row)
    requires r in live
    ensures RowReach(c, r) in Reaches(c, live)
  {
    var i :| 0 <= i < |live| && live[i] == r;
    assert Reaches(c, live)[i] == RowReach(c, r);
  }

  /** The flag judges merged reach. That is what the rows really reach exactly when
      each merged database is held at the top by one row. */
  lemma MergeIsActualIff(c: Clock, live: seq<Row>)
    requires live != []
    ensures MergeIsActual(c, live) <==> Attained(c, live)
  {
    var bs := Reaches(c, live);
    var top := JoinAll(bs);
    JoinAllLeast(bs, top);
    if MergeIsActual(c, live) { ActualIsAttained(c, live); }
    if Attained(c, live) {
      forall db, level, at | db != "*" && top.Reaches(db, level, at) ensures HeldOn(c, live, db, level, at) {
        AttainedHeld(c, live, db, level, at);
      }
    }
  }

  lemma AttainedHeld(c: Clock, live: seq<Row>, db: string, level: Tier, at: int)
    requires live != [] && Attained(c, live) && JoinAll(Reaches(c, live)).Reaches(db, level, at)
    ensures HeldOn(c, live, db, level, at)
  {
    var r := TopRow(c, live, db);
    RowBox(c, live, r);
    assert RowReach(c, r).Reaches(db, level, at);
  }

  lemma TopRow(c: Clock, live: seq<Row>, db: string) returns (r: Row)
    requires live != [] && Attained(c, live)
    requires var top := JoinAll(Reaches(c, live)); top.dbs.Only? ==> db in top.dbs.names
    ensures r in live && HoldsAtTop(c, r, JoinAll(Reaches(c, live)), Only({db}))
  {
    var top := JoinAll(Reaches(c, live));
    if top.dbs.AllDbs? {
      r :| r in live && HoldsAtTop(c, r, top, AllDbs);
    } else {
      r :| r in live && HoldsAtTop(c, r, top, Only({db}));
    }
  }

  lemma MergedNamesReal(c: Clock, live: seq<Row>)
    requires live != []
    ensures JoinAll(Reaches(c, live)).Proper()
  {
    var bs := Reaches(c, live);
    forall b | b in bs ensures b.Proper() {
      var r := RowOfBox(c, live, b);
      RowReachProper(c, r);
    }
    JoinAllLeast(bs, bs[0]);
  }

  /** One row on a connection is its own merge. */
  lemma SingleRowActual(c: Clock, r: Row)
    ensures MergeIsActual(c, [r])
  {
    assert Reaches(c, [r]) == [RowReach(c, r)];
  }

  lemma LiveOnPair(r: Row, s: Row, conn: string)
    ensures LiveOn([r, s], conn) ==
      (if r.Live() && r.conn == conn then [r] else []) + (if s.Live() && s.conn == conn then [s] else [])
  {
    LiveOnSnoc([r], s, conn);
    LiveOnSnoc([], r, conn);
    assert [] + [r] == [r] && [r] + [s] == [r, s];
  }

  lemma MergePair(c: Clock, r: Row, s: Row)
    requires s.Live() && (r.Live() ==> r.conn == s.conn)
    ensures MergeRows(c, [r, s]) == map[s.conn := if r.Live() then Absorb(c, First(c, r), s) else First(c, s)]
  {
    assert [r, s][..1] == [r] && [r][..0] == [];
    assert MergeRows(c, [r]) == if r.Live() then map[r.conn := First(c, r)] else map[];
    assert MergeRows(c, [r, s]) == MergeRows(c, [r])[s.conn := Turn(c, MergeRows(c, [r]), s)];
  }

  lemma HeldByOne(c: Clock, r: Row, db: string, level: Tier, at: int)
    ensures HeldOn(c, [r], db, level, at) <==> RowReach(c, r).Reaches(db, level, at)
  {
    assert Reaches(c, [r]) == [RowReach(c, r)];
    assert RowReach(c, r) in [RowReach(c, r)];
  }

  lemma HeldByPair(c: Clock, r: Row, s: Row, db: string, level: Tier, at: int)
    ensures HeldOn(c, [r, s], db, level, at) <==> RowReach(c, r).Reaches(db, level, at) || RowReach(c, s).Reaches(db, level, at)
  {
    var bs := [RowReach(c, r), RowReach(c, s)];
    assert Reaches(c, [r, s]) == bs;
    assert bs[0] in bs && bs[1] in bs;
  }

  /** Two rows the server sent for one connection can hide a widening: dropping the
      row for `a` and giving `a` to the open-ended row of `b` is not called wider. */
  lemma DuplicateRowsHideWidening(c: Clock, at: int) returns (initial: seq<Row>, rows: seq<Row>)
    requires at > DayEnd(c, 0)
    ensures !AccDiff(c, initial, rows).widens
    ensures HeldOn(c, LiveOn(rows, "main"), "a", RO, at) && !HeldOn(c, LiveOn(initial, "main"), "a", RO, at)
  {
    var r := Row(0, false, false, "main", ["a"], RO, OnDay(Some(0)));
    var s := Row(1, false, false, "main", ["b"], RO, NoEnd);
    var gone, s' := r.(removed := true), s.(databases := ["a", "b"]);
    initial, rows := [r, s], [gone, s'];
    SwappedRowSame(c, r, s);
    SwappedRowHolds(c, at, r, s);
  }

  lemma SwappedRowSame(c: Clock, r: Row, s: Row)
    requires r == Row(0, false, false, "main", ["a"], RO, OnDay(Some(0)))
    requires s == Row(1, false, false, "main", ["b"], RO, NoEnd)
    ensures !AccDiff(c, [r, s], [r.(removed := true), s.(databases := ["a", "b"])]).widens
  {
    MergePair(c, r, s);
    MergePair(c, r.(removed := true), s.(databases := ["a", "b"]));
    assert NameSet(["a", "b"]) == NameSet(["a"]) + NameSet(["b"]);
  }

  lemma SwappedRowHolds(c: Clock, at: int, r: Row, s: Row)
    requires at > DayEnd(c, 0)
    requires r == Row(0, false, false, "main", ["a"], RO, OnDay(Some(0)))
    requires s == Row(1, false, false, "main", ["b"], RO, NoEnd)
    ensures HeldOn(c, LiveOn([r.(removed := true), s.(databases := ["a", "b"])], "main"), "a", RO, at)
    ensures !HeldOn(c, LiveOn([r, s], "main"), "a", RO, at)
  {
    var gone, s' := r.(removed := true), s.(databases := ["a", "b"]);
    LiveOnPair(r, s, "main");
    LiveOnPair(gone, s', "main");
    assert LiveOn([r, s], "main") == [r, s] && LiveOn([gone, s'], "main") == [s'];
    assert "a" in NameSet(["a", "b"]) && "a" !in NameSet(["b"]);
    assert "*"[0] != "b"[0];
    assert RowReach(c, s).dbs == Only(NameSet(["b"]));
    HeldByPair(c, r, s, "a", RO, at);
    HeldByOne(c, s', "a", RO, at);
  }

  // ---- The flag against actual reach ----

  /** On every connection, each merged database is held at the top by one row. */
  predicate AllAttained(c: Clock, rows: seq<Row>) {
    forall k :: k in Conns(rows) ==> LiveOn(rows, k) != [] && Attained(c, LiveOn(rows, k))
  }

  /** Some real database, at some level and instant, is held by a row after the edit and by
      none before. */
  ghost predicate NewlyHeld(c: Clock, initial: seq<Row>, rows: seq<Row>) {
    exists conn, db, level, at ::
      db != "*" && HeldOn(c, LiveOn(rows, conn), db, level, at) && !HeldOn(c, LiveOn(initial, conn), db, level, at)
  }

  lemma HeldIsMerged(c: Clock, rows: seq<Row>, conn: string, db: string, level: Tier, at: int)
    requires HeldOn(c, LiveOn(rows, conn), db, level, at)
    ensures Reachable(MergeRows(c, rows), conn, db, level, at)
  {
    var live := LiveOn(rows, conn);
    var b :| b in Reaches(c, live) && b.Reaches(db, level, at);
    var r := RowOfBox(c, live, b);
    MergeRowsIsMerge(c, rows);
    assert conn in Conns(rows);
    JoinAllLeast(Reaches(c, live), b);
    assert BoxLe(b, JoinAll(Reaches(c, live)));
  }

  lemma MergedIsHeld(c: Clock, rows: seq<Row>, conn: string, db: string, level: Tier, at: int)
    requires AllAttained(c, rows) && db != "*" && Reachable(MergeRows(c, rows), conn, db, level, at)
    ensures HeldOn(c, LiveOn(rows, conn), db, level, at)
  {
    MergeRowsIsMerge(c, rows);
    AttainedHeld(c, LiveOn(rows, conn), db, level, at);
  }

  /** Where the rows it opened with attain their merge, an edit that is not called wider gives
      nobody anything new. */
  lemma NotWiderIsSafe(c: Clock, initial: seq<Row>, rows: seq<Row>)
    requires PlainNames(initial) && PlainNames(rows) && AllAttained(c, initial)
    ensures NewlyHeld(c, initial, rows) ==> AccDiff(c, initial, rows).widens
  {
    if NewlyHeld(c, initial, rows) {
      var conn, db, level, at :|
        db != "*" && HeldOn(c, LiveOn(rows, conn), db, level, at) && !HeldOn(c, LiveOn(initial, conn), db, level, at);
      HeldIsMerged(c, rows, conn, db, level, at);
      if Reachable(MergeRows(c, initial), conn, db, level, at) { MergedIsHeld(c, initial, conn, db, level, at); }
      WidensExact(c, initial, rows);
    }
  }

  /** Where both do, the flag is right about what is held: raised exactly when some row gives
      something that none gave. */
  lemma WidensIsNewlyHeld(c: Clock, initial: seq<Row>, rows: seq<Row>)
    requires PlainNames(initial) && PlainNames(rows) && AllAttained(c, initial) && AllAttained(c, rows)
    ensures AccDiff(c, initial, rows).widens <==> NewlyHeld(c, initial, rows)
  {
    NotWiderIsSafe(c, initial, rows);
    WidensExact(c, initial, rows);
    var a, b := MergeRows(c, initial), MergeRows(c, rows);
    if Grows(a, b) {
      var conn, db, level, at :| db != "*" && Reachable(b, conn, db, level, at) && !Reachable(a, conn, db, level, at);
      MergedIsHeld(c, rows, conn, db, level, at);
      if HeldOn(c, LiveOn(initial, conn), db, level, at) { HeldIsMerged(c, initial, conn, db, level, at); }
    }
  }

  // A row that alone reaches what a connection's merge reaches, and the edit that adds it.

  function AllDbNames(live: seq<Row>): seq<string> { if live == [] then [] else live[0].Dbs() + AllDbNames(live[1..]) }

  lemma {:induction false} AllDbNamesAre(live: seq<Row>)
    ensures forall d :: d in AllDbNames(live) <==> exists r :: r in live && d in r.Dbs()
  {
    if live != [] {
      AllDbNamesAre(live[1..]);
      assert forall r :: r in live <==> r == live[0] || r in live[1..];
    }
  }

  lemma {:induction false} AllDbNamesSnoc(front: seq<Row>, r: Row)
    ensures AllDbNames(front + [r]) == AllDbNames(front) + r.Dbs()
  {
    if front == [] {
      assert [] + [r] == [r] && AllDbNames([r]) == r.Dbs() + [] == [] + r.Dbs();
    } else {
      AllDbNamesSnoc(front[1..], r);
      assert (front + [r])[1..] == front[1..] + [r];
    }
  }

  lemma {:induction false} JoinAllNames(c: Clock, live: seq<Row>)
    requires live != []
    ensures var names := AllDbNames(live);
      JoinAll(Reaches(c, live)).dbs == if "*" in names then AllDbs else Only(NameSet(names))
  {
    var front, r := live[..|live| - 1], live[|live| - 1];
    assert live == front + [r];
    AllDbNamesSnoc(front, r);
    NameSetAppend(AllDbNames(front), r.Dbs());
    assert Reaches(c, live) == Reaches(c, front) + [RowReach(c, r)];
    if front == [] {
      assert AllDbNames(live) == r.Dbs();
    } else {
      JoinAllNames(c, front);
      JoinAllSnoc(Reaches(c, front), RowReach(c, r));
    }
  }

  lemma {:induction false} TopPick(c: Clock, live: seq<Row>) returns (r: Row)
    requires live != []
    ensures r in live && AccEnd(c, r.pick) == JoinAll(Reaches(c, live)).end
  {
    var front, last := live[..|live| - 1], live[|live| - 1];
    assert live == front + [last];
    r := last;
    if front == [] {
      assert Reaches(c, live) == [RowReach(c, last)];
    } else {
      var q := TopPick(c, front);
      assert Reaches(c, live) == Reaches(c, front) + [RowReach(c, last)];
      JoinAllSnoc(Reaches(c, front), RowReach(c, last));
      if JoinAll(Reaches(c, live)).end == AccEnd(c, q.pick) { r := q; }
    }
  }

  lemma TopRowOf(c: Clock, live: seq<Row>, conn: string) returns (r: Row)
    requires live != [] && conn != ""
    ensures r.Live() && r.conn == conn && RowReach(c, r) == JoinAll(Reaches(c, live))
    ensures PlainNames(live) ==> PlainRow(r)
  {
    var top, names := JoinAll(Reaches(c, live)), AllDbNames(live);
    var q := TopPick(c, live);
    JoinAllNames(c, live);
    AllDbNamesAre(live);
    assert live[0].Dbs()[0] in names;
    r := Row(0, false, false, conn, names, top.tier, q.pick);
    assert PlainName("*");
    forall d | d in names && PlainNames(live) ensures PlainName(d) {
      var s :| s in live && d in s.Dbs();
    }
  }

  lemma TopAgain(c: Clock, live: seq<Row>, r: Row)
    requires live != [] && RowReach(c, r) == JoinAll(Reaches(c, live))
    ensures JoinAll(Reaches(c, live + [r])) == RowReach(c, r)
  {
    assert Reaches(c, live + [r]) == Reaches(c, live) + [RowReach(c, r)];
    JoinAllSnoc(Reaches(c, live), RowReach(c, r));
    JoinSelf(RowReach(c, r));
  }

  lemma SameReachNotWider(x: Merged, y: Merged)
    requires x.Reach() == y.Reach()
    ensures !Wider(x, y)
  {
    WiderIsReach(x, y);
    JoinSelf(x.Reach());
  }

  lemma AddedElsewhere(c: Clock, initial: seq<Row>, r: Row, j: string)
    requires j in MergeRows(c, initial) && j in MergeRows(c, initial + [r]) && j != r.conn
    ensures SigText(MergeRows(c, initial)[j]) == SigText(MergeRows(c, initial + [r])[j])
  {
    MergeRowsIsMerge(c, initial);
    MergeRowsIsMerge(c, initial + [r]);
    LiveOnSnoc(initial, r, j);
  }

  lemma AddedTopMerge(c: Clock, initial: seq<Row>, r: Row)
    requires r.Live() && r.conn in MergeRows(c, initial)
    requires RowReach(c, r) == MergeRows(c, initial)[r.conn].Reach()
    ensures r.conn in MergeRows(c, initial + [r]) && MergeRows(c, initial + [r])[r.conn].Reach() == RowReach(c, r)
    ensures MergeRows(c, initial + [r]).Keys == MergeRows(c, initial).Keys
  {
    MergeRowsIsMerge(c, initial);
    MergeRowsIsMerge(c, initial + [r]);
    ConnsSnoc(initial, r);
    LiveOnSnoc(initial, r, r.conn);
    TopAgain(c, LiveOn(initial, r.conn), r);
  }

  lemma AddedTop(c: Clock, initial: seq<Row>, r: Row)
    requires r.Live() && r.conn in MergeRows(c, initial)
    requires RowReach(c, r) == MergeRows(c, initial)[r.conn].Reach()
    ensures !AccDiff(c, initial, initial + [r]).widens
  {
    var a, b := MergeRows(c, initial), MergeRows(c, initial + [r]);
    AddedTopMerge(c, initial, r);
    SameReachNotWider(a[r.conn], b[r.conn]);
    forall j | j in a && j != r.conn ensures SigText(a[j]) == SigText(b[j]) { AddedElsewhere(c, initial, r, j); }
  }

  /** Otherwise the flag hides something: on a connection whose merge its rows do not attain,
      adding the row that does is not called wider, and holds what none held. */
  lemma UnattainedHidesWidening(c: Clock, initial: seq<Row>, conn: string) returns (rows: seq<Row>)
    requires conn in Conns(initial) && LiveOn(initial, conn) != [] && !Attained(c, LiveOn(initial, conn))
    ensures !AccDiff(c, initial, rows).widens && NewlyHeld(c, initial, rows)
    ensures PlainNames(initial) ==> PlainNames(rows)
  {
    var live := LiveOn(initial, conn);
    MergeIsActualIff(c, live);
    var db, level, at :| db != "*" && JoinAll(Reaches(c, live)).Reaches(db, level, at) && !HeldOn(c, live, db, level, at);
    var r := TopRowOf(c, live, conn);
    rows := initial + [r];
    MergeRowsIsMerge(c, initial);
    AddedTop(c, initial, r);
    LiveOnSnoc(initial, r, conn);
    var i := |live|;
    assert Reaches(c, live + [r])[i] == RowReach(c, r);
    assert HeldOn(c, LiveOn(rows, conn), db, level, at);
  }

  /** The rows the editor opened with attain their merge exactly when no edit hides a widening. */
  lemma FlagSoundIff(c: Clock, initial: seq<Row>)
    requires PlainNames(initial)
    ensures AllAttained(c, initial) <==>
      forall rows :: PlainNames(rows) && NewlyHeld(c, initial, rows) ==> AccDiff(c, initial, rows).widens
  {
    if AllAttained(c, initial) {
      forall rows | PlainNames(rows) && NewlyHeld(c, initial, rows) ensures AccDiff(c, initial, rows).widens {
        NotWiderIsSafe(c, initial, rows);
      }
    } else {
      MergeRowsIsMerge(c, initial);
      var k :| k in Conns(initial) && !(LiveOn(initial, k) != [] && Attained(c, LiveOn(initial, k)));
      assert MergedOn(c, LiveOn(initial, k), MergeRows(c, initial)[k]);
      var rows := UnattainedHidesWidening(c, initial, k);
    }
  }

  // ---- One row for each connection ----

  predicate OneEach(rows: seq<Row>) {
    forall i, j :: 0 <= i < j < |rows| && rows[i].Live() && rows[j].Live() ==> rows[i].conn != rows[j].conn
  }

  lemma {:induction false} OneLiveRow(rows: seq<Row>, i: nat, conn: string)
    requires i < |rows| && rows[i].Live() && rows[i].conn == conn
    requires forall j :: 0 <= j < |rows| && j != i && rows[j].Live() ==> rows[j].conn != conn
    ensures LiveOn(rows, conn) == [rows[i]]
  {
    var p := (r: Row) => r.Live() && r.conn == conn;
    if i == 0 {
      FilterNone(rows[1..], p);
    } else {
      OneLiveRow(rows[1..], i - 1, conn);
    }
  }

  lemma OneEachAttained(c: Clock, rows: seq<Row>)
    requires OneEach(rows)
    ensures AllAttained(c, rows)
  {
    forall k | k in Conns(rows) ensures LiveOn(rows, k) != [] && Attained(c, LiveOn(rows, k)) {
      var r :| r in rows && r.Live() && r.conn == k;
      var i :| 0 <= i < |rows| && rows[i] == r;
      OneLiveRow(rows, i, k);
      SingleRowActual(c, r);
      MergeIsActualIff(c, [r]);
    }
  }
}
