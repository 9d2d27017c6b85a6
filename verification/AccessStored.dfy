/** The access editor against what the subject held: the rows open with their ends rounded up
    to the last second of the day, and Save writes every listed row again. */
module AccessStored {
  import opened Options
  import opened Seqs
  import opened AccessBox
  import opened Expiry
  import opened AccessEditor
  import opened AccessDiff
  import opened AccessSave
  import opened AccessForm

  // ---- What the store gives ----

  function GrantReach(g: Grant): Box { TargetReach(Target(g.conn, g.databases, g.tier, g.expiresAt)) }

  ghost predicate AnyReaches(gs: set<Grant>, db: string, level: Tier, at: int) {
    exists g :: g in gs && GrantReach(g).Reaches(db, level, at)
  }

  ghost predicate StoreHolds(store: set<Grant>, who: Subject, conn: string, db: string, level: Tier, at: int) {
    AnyReaches(RowsAt(store, who, conn), db, level, at)
  }

  /** Some real database, at some level and instant, that the subject had not before. */
  ghost predicate Gains(before: set<Grant>, after: set<Grant>, who: Subject) {
    exists conn, db, level, at ::
      db != "*" && StoreHolds(after, who, conn, db, level, at) && !StoreHolds(before, who, conn, db, level, at)
  }

  function OfSubject(who: Subject): Grant -> bool { (g: Grant) => g.subject == who }

  function HeldBy(grants: seq<Grant>, who: Subject): seq<Grant> { Filter(grants, OfSubject(who)) }

  /** The rows the editor opens with for this subject. */
  function Opened(c: Clock, grants: seq<Grant>, who: Subject): seq<Row> {
    OpenTo(c, HeldBy(grants, who), |HeldBy(grants, who)|)
  }

  /** One grant for each connection, and each names one. */
  predicate OneGrantEach(held: seq<Grant>) {
    && (forall g :: g in held ==> g.conn != "")
    && forall i, j :: 0 <= i < j < |held| ==> held[i].conn != held[j].conn
  }

  /** Every call of an offered Save went through, in some order. */
  ghost predicate Saved(c: Clock, grants: seq<Grant>, who: Subject, rows: seq<Row>, newId: string -> string, ds: seq<Done>) {
    RunOf(PlanOf(grants, who, TargetsOf(c, rows), LockedConns(rows)), newId, ds) && forall d :: d in ds ==> d.ok
  }

  /** An offered Save of these rows, every call of which went through. */
  ghost predicate CompleteSave(c: Clock, grants: seq<Grant>, who: Subject, newId: string -> string, rows: seq<Row>, ds: seq<Done>) {
    && PlainNames(rows) && SaveWhy(c, true, Opened(c, grants, who), rows) == None
    && Saved(c, grants, who, rows, newId, ds)
  }

  /** It gave the subject something new, and was not called a widening. */
  ghost predicate HiddenGain(c: Clock, grants: seq<Grant>, who: Subject, newId: string -> string, rows: seq<Row>, ds: seq<Done>) {
    && CompleteSave(c, grants, who, newId, rows, ds)
    && !AccDiff(c, Opened(c, grants, who), rows).widens
    && Gains(StoreOf(grants), ApplyAll(StoreOf(grants), who, ds), who)
  }

  // ---- The opened rows and the grants they come from ----

  lemma {:induction false} OpenedPlainly(c: Clock, held: seq<Grant>, n: nat)
    requires n <= |held| && OneGrantEach(held)
    ensures var out := OpenTo(c, held, n);
      |out| == n && forall i :: 0 <= i < n ==> out[i] == OpenRow(c, i, held[i])
  {
    if n > 0 {
      OpenedPlainly(c, held, n - 1);
    }
  }

  lemma OpenedOn(c: Clock, grants: seq<Grant>, who: Subject, i: nat)
    requires var held := HeldBy(grants, who); OneGrantEach(held) && i < |held|
    ensures var g := HeldBy(grants, who)[i];
      && LiveOn(Opened(c, grants, who), g.conn) == [OpenRow(c, i, g)]
      && RowsAt(StoreOf(grants), who, g.conn) == {g}
  {
    var held, rows := HeldBy(grants, who), Opened(c, grants, who);
    OpenedPlainly(c, held, |held|);
    forall j | 0 <= j < |rows| && j != i && rows[j].Live() ensures rows[j].conn != held[i].conn { }
    assert held[i] in held;
    OneLiveRow(rows, i, held[i].conn);
    forall g | g in RowsAt(StoreOf(grants), who, held[i].conn) ensures g == held[i] {
      assert g in held;
      var j :| 0 <= j < |held| && held[j] == g;
    }
  }

  lemma OpenedNowhereElse(c: Clock, grants: seq<Grant>, who: Subject, conn: string)
    requires OneGrantEach(HeldBy(grants, who)) && forall g :: g in HeldBy(grants, who) ==> g.conn != conn
    ensures LiveOn(Opened(c, grants, who), conn) == [] && RowsAt(StoreOf(grants), who, conn) == {}
  {
    var held, rows := HeldBy(grants, who), Opened(c, grants, who);
    OpenedPlainly(c, held, |held|);
    forall r | r in rows ensures r.conn != conn {
      var i :| 0 <= i < |rows| && rows[i] == r;
      assert held[i] in held;
    }
    FilterNone(rows, (r: Row) => r.Live() && r.conn == conn);
    assert forall g :: g in grants && g.subject == who ==> g in held;
  }

  lemma HeldOnOne(c: Clock, r: Row, g: Grant, store: set<Grant>, who: Subject, db: string, level: Tier, at: int)
    requires RowsAt(store, who, g.conn) == {g}
    ensures StoreHolds(store, who, g.conn, db, level, at) <==> GrantReach(g).Reaches(db, level, at)
    ensures HeldOn(c, [r], db, level, at) <==> RowReach(c, r).Reaches(db, level, at)
  {
    assert g in RowsAt(store, who, g.conn);
    HeldByOne(c, r, db, level, at);
  }

  /** A stored end is at or after the last second of its day, or is none. */
  predicate EndsLate(c: Clock, g: Grant) { g.expiresAt.Some? ==> TimeOfDay(c, g.expiresAt.value) >= LAST_SECOND }

  predicate EndsAtLastSecond(c: Clock, g: Grant) { g.expiresAt.Some? ==> TimeOfDay(c, g.expiresAt.value) == LAST_SECOND }

  /** On this connection the opened row gives no more than the grant. */
  lemma OpenedWithinHeld(c: Clock, grants: seq<Grant>, who: Subject, conn: string, db: string, level: Tier, at: int)
    requires OneGrantEach(HeldBy(grants, who)) && HeldOn(c, LiveOn(Opened(c, grants, who), conn), db, level, at)
    requires forall g :: g in HeldBy(grants, who) && g.conn == conn ==> EndsLate(c, g)
    ensures StoreHolds(StoreOf(grants), who, conn, db, level, at)
  {
    var held := HeldBy(grants, who);
    if i :| 0 <= i < |held| && held[i].conn == conn {
      OpenedOn(c, grants, who, i);
      HeldOnOne(c, OpenRow(c, i, held[i]), held[i], StoreOf(grants), who, db, level, at);
    } else {
      OpenedNowhereElse(c, grants, who, conn);
    }
  }

  lemma HeldWithinOpened(c: Clock, grants: seq<Grant>, who: Subject, conn: string, db: string, level: Tier, at: int)
    requires OneGrantEach(HeldBy(grants, who)) && StoreHolds(StoreOf(grants), who, conn, db, level, at)
    requires forall g :: g in HeldBy(grants, who) ==> EndsAtLastSecond(c, g)
    ensures HeldOn(c, LiveOn(Opened(c, grants, who), conn), db, level, at)
  {
    var held := HeldBy(grants, who);
    if i :| 0 <= i < |held| && held[i].conn == conn {
      OpenedOn(c, grants, who, i);
      HeldOnOne(c, OpenRow(c, i, held[i]), held[i], StoreOf(grants), who, db, level, at);
    } else {
      OpenedNowhereElse(c, grants, who, conn);
    }
  }

  // ---- The store after the Save and the rows on screen ----

  lemma ListedAlone(c: Clock, initial: seq<Row>, rows: seq<Row>, r: Row)
    requires SaveWhy(c, true, initial, rows) == None && r in rows && Listed(r)
    ensures LiveOn(rows, r.conn) == [r] && r.conn !in LockedConns(rows)
  {
    OpenSaveIsClean(c, initial, rows);
    var i :| 0 <= i < |rows| && rows[i] == r;
    forall j | 0 <= j < |rows| && j != i && rows[j].Live() ensures rows[j].conn != r.conn {}
    OneLiveRow(rows, i, r.conn);
  }

  lemma ShownReach(c: Clock, initial: seq<Row>, rows: seq<Row>, who: Subject, r: Row, id: string, had: set<Grant>, has: set<Grant>,
                   db: string, level: Tier, at: int)
    requires SaveWhy(c, true, initial, rows) == None && r in rows && Listed(r)
    requires HoldsShown(c, rows, who, r.conn, id, had, has)
    ensures AnyReaches(has, db, level, at) <==> HeldOn(c, LiveOn(rows, r.conn), db, level, at)
  {
    ListedAlone(c, initial, rows, r);
    var x :| has == {Written(who, x, id)} && TargetReach(x) == RowReach(c, r);
    assert Written(who, x, id) in has;
    HeldByOne(c, r, db, level, at);
  }

  lemma NoneShown(c: Clock, rows: seq<Row>, conn: string, db: string, level: Tier, at: int)
    requires forall r :: r in rows && Listed(r) ==> r.conn != conn
    ensures !HeldOn(c, LiveOn(rows, conn), db, level, at)
  {
    FilterNone(rows, (r: Row) => r.Live() && r.conn == conn);
  }

  /** After the Save, the store gives on each connection what its live rows show, and on a
      read-only one what it gave before. */
  lemma StoredIsShown(c: Clock, grants: seq<Grant>, who: Subject, initial: seq<Row>, rows: seq<Row>,
                      newId: string -> string, ds: seq<Done>, conn: string, db: string, level: Tier, at: int)
    requires c.now >= 0 && SaveWhy(c, true, initial, rows) == None && IdsNamePairs(StoreOf(grants), who, newId)
    ensures Saved(c, grants, who, rows, newId, ds) ==>
      (StoreHolds(ApplyAll(StoreOf(grants), who, ds), who, conn, db, level, at) <==>
         if ReadOnly(rows, conn) then StoreHolds(StoreOf(grants), who, conn, db, level, at)
         else HeldOn(c, LiveOn(rows, conn), db, level, at))
  {
    var had, has := RowsAt(StoreOf(grants), who, conn), RowsAt(ApplyAll(StoreOf(grants), who, ds), who, conn);
    OfferedSaveHolds(c, grants, who, initial, rows, newId, ds, conn);
    if conn !in LockedConns(rows) && Saved(c, grants, who, rows, newId, ds) {
      assert HoldsShown(c, rows, who, conn, newId(conn), had, has);
      if r :| r in rows && Listed(r) && r.conn == conn {
        ShownReach(c, initial, rows, who, r, newId(conn), had, has, db, level, at);
      } else {
        NoneShown(c, rows, conn, db, level, at);
      }
    }
  }

  // ---- The flag, against the store ----

  predicate EndedDay(c: Clock, g: Grant) { g.expiresAt.Some? && LocalDay(c, g.expiresAt.value) < LocalDay(c, c.now) }

  /** The end is none, late, or of a day gone by: such a row cannot be saved as it opened. */
  predicate EndKept(c: Clock, g: Grant) { EndsLate(c, g) || EndedDay(c, g) }

  lemma MergedOne(c: Clock, rows: seq<Row>, r: Row)
    requires LiveOn(rows, r.conn) == [r]
    ensures r.conn in MergeRows(c, rows) && MergeRows(c, rows)[r.conn].Reach() == RowReach(c, r)
    ensures MergeRows(c, rows)[r.conn].sigs == [Sig(r)]
  {
    MergeRowsIsMerge(c, rows);
    LiveOnEmpty(rows, r.conn);
    assert Reaches(c, [r]) == [RowReach(c, r)] && Sigs([r]) == [Sig(r)];
  }

  /** A listed row on a connection whose opened row ends on a day gone by is a wider one. */
  lemma PastDayWidens(c: Clock, grants: seq<Grant>, who: Subject, rows: seq<Row>, i: nat, r: Row)
    requires OneGrantEach(HeldBy(grants, who)) && i < |HeldBy(grants, who)| && HeldBy(grants, who)[i].conn == r.conn
    requires EndedDay(c, HeldBy(grants, who)[i])
    requires SaveWhy(c, true, Opened(c, grants, who), rows) == None && r in rows && Listed(r)
    requires PlainNames(Opened(c, grants, who)) && PlainNames(rows)
    ensures AccDiff(c, Opened(c, grants, who), rows).widens
  {
    var held, initial := HeldBy(grants, who), Opened(c, grants, who);
    var a, b := MergeRows(c, initial), MergeRows(c, rows);
    OpenedOn(c, grants, who, i);
    ListedAlone(c, initial, rows, r);
    OpenSaveIsClean(c, initial, rows);
    MergedOne(c, initial, OpenRow(c, i, held[i]));
    MergedOne(c, rows, r);
    WiderIsReach(a[r.conn], b[r.conn]);
    GrowsByConn(c, initial, rows);
    assert GrewOn(a, b, r.conn);
    WidensExact(c, initial, rows);
  }

  lemma OpenedIsOneEach(c: Clock, grants: seq<Grant>, who: Subject)
    requires OneGrantEach(HeldBy(grants, who))
    ensures OneEach(Opened(c, grants, who))
  {
    OpenedOneEach(c, HeldBy(grants, who), |HeldBy(grants, who)|);
  }

  lemma GainIsFlagged(c: Clock, grants: seq<Grant>, who: Subject, rows: seq<Row>, conn: string, db: string, level: Tier, at: int)
    requires OneGrantEach(HeldBy(grants, who)) && forall g :: g in HeldBy(grants, who) ==> EndKept(c, g)
    requires PlainNames(Opened(c, grants, who)) && PlainNames(rows)
    requires SaveWhy(c, true, Opened(c, grants, who), rows) == None
    requires db != "*" && HeldOn(c, LiveOn(rows, conn), db, level, at) && !StoreHolds(StoreOf(grants), who, conn, db, level, at)
    ensures AccDiff(c, Opened(c, grants, who), rows).widens
  {
    var held, initial := HeldBy(grants, who), Opened(c, grants, who);
    var b :| b in Reaches(c, LiveOn(rows, conn)) && b.Reaches(db, level, at);
    var r := RowOfBox(c, LiveOn(rows, conn), b);
    if i :| 0 <= i < |held| && held[i].conn == conn && !EndsLate(c, held[i]) {
      assert held[i] in held;
      PastDayWidens(c, grants, who, rows, i, r);
    } else {
      if HeldOn(c, LiveOn(initial, conn), db, level, at) { OpenedWithinHeld(c, grants, who, conn, db, level, at); }
      assert NewlyHeld(c, initial, rows);
      OpenedIsOneEach(c, grants, who);
      OneEachAttained(c, initial);
      NotWiderIsSafe(c, initial, rows);
    }
  }

  /** An offered Save that is not called a widening gives the subject nothing it did not hold,
      whatever the order of its calls, if every stored end is none, in the last second of its
      day or later, or of a day gone by. */
  lemma UnflaggedSaveIsSafe(c: Clock, grants: seq<Grant>, who: Subject, rows: seq<Row>, newId: string -> string, ds: seq<Done>)
    requires c.now >= 0 && OneGrantEach(HeldBy(grants, who)) && forall g :: g in HeldBy(grants, who) ==> EndKept(c, g)
    requires PlainNames(Opened(c, grants, who)) && IdsNamePairs(StoreOf(grants), who, newId)
    ensures !HiddenGain(c, grants, who, newId, rows, ds)
  {
    var before, after, initial := StoreOf(grants), ApplyAll(StoreOf(grants), who, ds), Opened(c, grants, who);
    if HiddenGain(c, grants, who, newId, rows, ds) {
      var conn, db, level, at :|
        db != "*" && StoreHolds(after, who, conn, db, level, at) && !StoreHolds(before, who, conn, db, level, at);
      StoredIsShown(c, grants, who, initial, rows, newId, ds, conn, db, level, at);
      GainIsFlagged(c, grants, who, rows, conn, db, level, at);
    }
  }

  lemma NewRowIsGain(c: Clock, grants: seq<Grant>, who: Subject, rows: seq<Row>, newId: string -> string, ds: seq<Done>)
    requires c.now >= 0 && OneGrantEach(HeldBy(grants, who)) && forall g :: g in HeldBy(grants, who) ==> EndsAtLastSecond(c, g)
    requires IdsNamePairs(StoreOf(grants), who, newId)
    ensures CompleteSave(c, grants, who, newId, rows, ds) && NewlyHeld(c, Opened(c, grants, who), rows) ==>
      Gains(StoreOf(grants), ApplyAll(StoreOf(grants), who, ds), who)
  {
    var before, initial := StoreOf(grants), Opened(c, grants, who);
    if CompleteSave(c, grants, who, newId, rows, ds) && NewlyHeld(c, initial, rows) {
      var conn, db, level, at :|
        db != "*" && HeldOn(c, LiveOn(rows, conn), db, level, at) && !HeldOn(c, LiveOn(initial, conn), db, level, at);
      var b :| b in Reaches(c, LiveOn(rows, conn)) && b.Reaches(db, level, at);
      var r := RowOfBox(c, LiveOn(rows, conn), b);
      ListedAlone(c, initial, rows, r);
      StoredIsShown(c, grants, who, initial, rows, newId, ds, conn, db, level, at);
      if StoreHolds(before, who, conn, db, level, at) { HeldWithinOpened(c, grants, who, conn, db, level, at); }
    }
  }

  /** Where every stored end is none or the last second of its day, the flag is right about
      the store: raised exactly when the Save gives the subject something new. */
  lemma FlagIsStoreGain(c: Clock, grants: seq<Grant>, who: Subject, rows: seq<Row>, newId: string -> string, ds: seq<Done>)
    requires c.now >= 0 && OneGrantEach(HeldBy(grants, who)) && forall g :: g in HeldBy(grants, who) ==> EndsAtLastSecond(c, g)
    requires PlainNames(Opened(c, grants, who)) && IdsNamePairs(StoreOf(grants), who, newId)
    ensures CompleteSave(c, grants, who, newId, rows, ds) ==>
      (AccDiff(c, Opened(c, grants, who), rows).widens <==> Gains(StoreOf(grants), ApplyAll(StoreOf(grants), who, ds), who))
  {
    if CompleteSave(c, grants, who, newId, rows, ds) {
      UnflaggedSaveIsSafe(c, grants, who, rows, newId, ds);
      OpenedIsOneEach(c, grants, who);
      OfferedSaveWidensIff(c, Opened(c, grants, who), rows);
      NewRowIsGain(c, grants, who, rows, newId, ds);
    }
  }

  // ---- The exact condition ----

  /** Every other connection's row marked removed. */
  function OnlyOn(rows: seq<Row>, conn: string): seq<Row> {
    Map(rows, (r: Row) => if r.conn == conn then r else r.(removed := true))
  }

  /** No row is read-only, and only the one at `i` is listed. */
  predicate OneListed(rows: seq<Row>, i: nat) {
    && i < |rows| && rows[i].Live()
    && forall j :: 0 <= j < |rows| ==> !rows[j].locked && (Listed(rows[j]) <==> j == i)
  }

  lemma OneListedAlone(rows: seq<Row>, i: nat)
    requires OneListed(rows, i)
    ensures Conns(rows) == {rows[i].conn} && LiveOn(rows, rows[i].conn) == [rows[i]]
  {
    assert rows[i] in rows;
    OneLiveRow(rows, i, rows[i].conn);
  }

  lemma OnlyOnRows(c: Clock, grants: seq<Grant>, who: Subject, i: nat)
    requires OneGrantEach(HeldBy(grants, who)) && i < |HeldBy(grants, who)|
    ensures var rows := OnlyOn(Opened(c, grants, who), HeldBy(grants, who)[i].conn);
      && OneListed(rows, i) && rows[i] == OpenRow(c, i, HeldBy(grants, who)[i])
      && Conns(rows) == {rows[i].conn} && LiveOn(rows, rows[i].conn) == [rows[i]]
  {
    var held, initial := HeldBy(grants, who), Opened(c, grants, who);
    OpenedPlainly(c, held, |held|);
    assert held[i] in held;
    forall j | 0 <= j < |initial| ensures initial[j] == OpenRow(c, j, held[j]) && (held[j].conn == held[i].conn <==> j == i) {}
    OneListedAlone(OnlyOn(initial, held[i].conn), i);
  }

  lemma ConnDropped(c: Clock, initial: seq<Row>, rows: seq<Row>, conn: string)
    requires conn in Conns(initial) && conn !in Conns(rows)
    ensures AccDiff(c, initial, rows).any
  {
    MergeRowsIsMerge(c, initial);
    MergeRowsIsMerge(c, rows);
    assert conn in AccDiff(c, initial, rows).removed;
  }

  /** Nothing stands against a Save that lists one row and drops another connection. */
  lemma OneListedOffered(c: Clock, initial: seq<Row>, rows: seq<Row>, i: nat, other: string)
    requires OneListed(rows, i) && !ExpBad(c, rows[i].pick)
    requires other in Conns(initial) && other !in Conns(rows)
    ensures SaveWhy(c, true, initial, rows) == None
  {
    ConnDropped(c, initial, rows, other);
    forall r | r in rows && Listed(r) ensures r == rows[i] {}
  }

  lemma OpenedConn(c: Clock, grants: seq<Grant>, who: Subject, i: nat)
    requires OneGrantEach(HeldBy(grants, who)) && i < |HeldBy(grants, who)|
    ensures HeldBy(grants, who)[i].conn in Conns(Opened(c, grants, who))
  {
    OpenedOn(c, grants, who, i);
    LiveOnEmpty(Opened(c, grants, who), HeldBy(grants, who)[i].conn);
  }

  lemma OnlyOnOffered(c: Clock, grants: seq<Grant>, who: Subject, i: nat)
    requires OneGrantEach(HeldBy(grants, who)) && i < |HeldBy(grants, who)| && |HeldBy(grants, who)| >= 2
    requires !EndedDay(c, HeldBy(grants, who)[i])
    ensures SaveWhy(c, true, Opened(c, grants, who), OnlyOn(Opened(c, grants, who), HeldBy(grants, who)[i].conn)) == None
  {
    var k: nat := if i == 0 then 1 else 0;
    var conn, other := HeldBy(grants, who)[i].conn, HeldBy(grants, who)[k].conn;
    OnlyOnRows(c, grants, who, i);
    OpenedConn(c, grants, who, k);
    assert other != conn;
    var initial := Opened(c, grants, who);
    var rows := OnlyOn(initial, conn);
    assert rows[i] == OpenRow(c, i, HeldBy(grants, who)[i]);
    OneListedOffered(c, initial, rows, i, other);
  }

  lemma OnlyOnUnflagged(c: Clock, grants: seq<Grant>, who: Subject, i: nat)
    requires OneGrantEach(HeldBy(grants, who)) && i < |HeldBy(grants, who)|
    ensures var initial, conn := Opened(c, grants, who), HeldBy(grants, who)[i].conn;
      var gone := Conns(initial) - {conn};
      AccDiff(c, initial, OnlyOn(initial, conn)) == Diff({}, {}, gone, gone != {}, false)
  {
    var g, initial := HeldBy(grants, who)[i], Opened(c, grants, who);
    var rows := OnlyOn(initial, g.conn);
    OnlyOnRows(c, grants, who, i);
    OpenedOn(c, grants, who, i);
    MergedOne(c, initial, OpenRow(c, i, g));
    MergedOne(c, rows, OpenRow(c, i, g));
    MergeRowsIsMerge(c, initial);
    MergeRowsIsMerge(c, rows);
  }

  lemma LaterThanStored(c: Clock, g: Grant)
    requires !EndsLate(c, g)
    ensures DayEnd(c, LocalDay(c, g.expiresAt.value)) > g.expiresAt.value
  {
  }

  /** After the Save the subject holds this database until the end of the day, and not before. */
  ghost predicate EndGained(c: Clock, grants: seq<Grant>, who: Subject, g: Grant, db: string, after: set<Grant>)
    requires g.expiresAt.Some?
  {
    var last := DayEnd(c, LocalDay(c, g.expiresAt.value));
    StoreHolds(after, who, g.conn, db, g.tier, last) && !StoreHolds(StoreOf(grants), who, g.conn, db, g.tier, last)
  }

  lemma EarlyEndHeld(c: Clock, grants: seq<Grant>, who: Subject, i: nat, newId: string -> string, ds: seq<Done>, db: string)
    requires c.now >= 0 && OneGrantEach(HeldBy(grants, who)) && i < |HeldBy(grants, who)| && |HeldBy(grants, who)| >= 2
    requires !EndKept(c, HeldBy(grants, who)[i]) && IdsNamePairs(StoreOf(grants), who, newId)
    ensures var g := HeldBy(grants, who)[i];
      Saved(c, grants, who, OnlyOn(Opened(c, grants, who), g.conn), newId, ds) && GrantReach(g).Reaches(db, g.tier, g.expiresAt.value) ==>
        EndGained(c, grants, who, g, db, ApplyAll(StoreOf(grants), who, ds))
  {
    var g, initial := HeldBy(grants, who)[i], Opened(c, grants, who);
    var rows, last := OnlyOn(initial, g.conn), DayEnd(c, LocalDay(c, g.expiresAt.value));
    OnlyOnOffered(c, grants, who, i);
    OnlyOnRows(c, grants, who, i);
    OpenedOn(c, grants, who, i);
    LaterThanStored(c, g);
    StoredIsShown(c, grants, who, initial, rows, newId, ds, g.conn, db, g.tier, last);
    HeldOnOne(c, OpenRow(c, i, g), g, StoreOf(grants), who, db, g.tier, last);
  }

  lemma EndGainedIsGain(c: Clock, grants: seq<Grant>, who: Subject, g: Grant, db: string, after: set<Grant>)
    requires g.expiresAt.Some? && db != "*" && EndGained(c, grants, who, g, db, after)
    ensures Gains(StoreOf(grants), after, who)
  {
    assert StoreHolds(after, who, g.conn, db, g.tier, DayEnd(c, LocalDay(c, g.expiresAt.value)));
  }

  lemma GrantName(g: Grant) returns (db: string)
    requires g.expiresAt.Some?
    ensures db != "*" && GrantReach(g).Reaches(db, g.tier, g.expiresAt.value)
  {
    var t := Target(g.conn, g.databases, g.tier, g.expiresAt);
    assert t.Dbs()[0] in NameSet(t.Dbs());
    db := NameWithin(GrantReach(g).dbs);
  }

  /** The other way about: with a stored end earlier in a day still to come, and a second
      connection to remove, Save is offered, is called no widening, and leaves the subject with
      all that grant gave until the last second of the day. */
  lemma EarlyEndGains(c: Clock, grants: seq<Grant>, who: Subject, i: nat, newId: string -> string, ds: seq<Done>)
    requires c.now >= 0 && OneGrantEach(HeldBy(grants, who)) && i < |HeldBy(grants, who)| && |HeldBy(grants, who)| >= 2
    requires !EndKept(c, HeldBy(grants, who)[i])
    ensures var initial := Opened(c, grants, who);
      var rows := OnlyOn(initial, HeldBy(grants, who)[i].conn);
      SaveWhy(c, true, initial, rows) == None && !AccDiff(c, initial, rows).widens
    ensures var g, after := HeldBy(grants, who)[i], ApplyAll(StoreOf(grants), who, ds);
      IdsNamePairs(StoreOf(grants), who, newId) && Saved(c, grants, who, OnlyOn(Opened(c, grants, who), g.conn), newId, ds) ==>
        && Gains(StoreOf(grants), after, who)
        && forall db :: GrantReach(g).Reaches(db, g.tier, g.expiresAt.value) ==> EndGained(c, grants, who, g, db, after)
  {
    OnlyOnOffered(c, grants, who, i);
    OnlyOnUnflagged(c, grants, who, i);
    var g, after := HeldBy(grants, who)[i], ApplyAll(StoreOf(grants), who, ds);
    if IdsNamePairs(StoreOf(grants), who, newId) && Saved(c, grants, who, OnlyOn(Opened(c, grants, who), g.conn), newId, ds) {
      forall db | GrantReach(g).Reaches(db, g.tier, g.expiresAt.value) ensures EndGained(c, grants, who, g, db, after) {
        EarlyEndHeld(c, grants, who, i, newId, ds, db);
      }
      var name := GrantName(g);
      EndGainedIsGain(c, grants, who, g, name, after);
    }
  }

  /** A run in which every planned call goes through. */
  lemma CompleteRun(plan: Plan, newId: string -> string) returns (ds: seq<Done>)
    requires plan.Calls?
    ensures RunOf(plan, newId, ds) && forall d :: d in ds ==> d.ok
  {
    var calls := PostCalls(plan.posts, newId) + DeleteCalls(plan.deletes);
    ds := Map(calls, (call: Call) => Done(call, true));
    assert CallsOf(ds) == calls;
  }

  lemma EarlyEndHides(c: Clock, grants: seq<Grant>, who: Subject, i: nat, newId: string -> string) returns (rows: seq<Row>, ds: seq<Done>)
    requires c.now >= 0 && OneGrantEach(HeldBy(grants, who)) && i < |HeldBy(grants, who)| && |HeldBy(grants, who)| >= 2
    requires PlainNames(Opened(c, grants, who)) && IdsNamePairs(StoreOf(grants), who, newId)
    requires !EndKept(c, HeldBy(grants, who)[i])
    ensures HiddenGain(c, grants, who, newId, rows, ds)
  {
    var initial := Opened(c, grants, who);
    rows := OnlyOn(initial, HeldBy(grants, who)[i].conn);
    ds := CompleteRun(PlanOf(grants, who, TargetsOf(c, rows), LockedConns(rows)), newId);
    EarlyEndGains(c, grants, who, i, newId, ds);
    forall r, d | r in rows && d in r.databases ensures PlainName(d) {
      var j :| 0 <= j < |rows| && rows[j] == r;
      assert initial[j] in initial;
    }
  }

  /** For a subject with grants on two connections or more, no Save hides a gain exactly when
      every stored end is none, in the last second of its day or later, or of a day gone by. */
  lemma NoHiddenGainIff(c: Clock, grants: seq<Grant>, who: Subject, newId: string -> string)
    requires c.now >= 0 && OneGrantEach(HeldBy(grants, who)) && |HeldBy(grants, who)| >= 2
    requires PlainNames(Opened(c, grants, who)) && IdsNamePairs(StoreOf(grants), who, newId)
    ensures (forall g :: g in HeldBy(grants, who) ==> EndKept(c, g)) <==> forall rows, ds :: !HiddenGain(c, grants, who, newId, rows, ds)
  {
    if forall g :: g in HeldBy(grants, who) ==> EndKept(c, g) {
      forall rows, ds ensures !HiddenGain(c, grants, who, newId, rows, ds) {
        if HiddenGain(c, grants, who, newId, rows, ds) { UnflaggedSaveIsSafe(c, grants, who, rows, newId, ds); }
      }
    } else {
      var held := HeldBy(grants, who);
      var i :| 0 <= i < |held| && !EndKept(c, held[i]);
      var rows, ds := EarlyEndHides(c, grants, who, i, newId);
    }
  }

  function TwoGrants(who: Subject, a: string, b: string, end: int): seq<Grant> {
    [Grant("1", who, a, [], RO, Some(end)), Grant("2", who, b, [], RO, None)]
  }

  lemma TwoHeld(c: Clock, who: Subject, a: string, b: string, end: int)
    requires a != "" && b != "" && a != b
    ensures var grants := TwoGrants(who, a, b, end);
      HeldBy(grants, who) == grants && OneGrantEach(grants) && Conns(Opened(c, grants, who)) == {a, b}
  {
    var grants := TwoGrants(who, a, b, end);
    FilterAll(grants, OfSubject(who));
    assert HeldBy(grants, who) == grants;
    OpenedPlainly(c, grants, 2);
    OpenedConn(c, grants, who, 0);
    OpenedConn(c, grants, who, 1);
  }

  lemma TwoGrantsGain(c: Clock, who: Subject, a: string, b: string, end: int, db: string, newId: string -> string, ds: seq<Done>)
    requires c.now >= 0 && a != "" && b != "" && a != b
    requires TimeOfDay(c, end) < LAST_SECOND && LocalDay(c, end) >= LocalDay(c, c.now)
    ensures var grants := TwoGrants(who, a, b, end);
      var initial, before, last := Opened(c, grants, who), StoreOf(grants), DayEnd(c, LocalDay(c, end));
      && SaveWhy(c, true, initial, OnlyOn(initial, a)) == None
      && AccDiff(c, initial, OnlyOn(initial, a)) == Diff({}, {}, {b}, true, false)
      && !StoreHolds(before, who, a, db, RO, last)
      && (IdsNamePairs(before, who, newId) && Saved(c, grants, who, OnlyOn(initial, a), newId, ds) ==>
            StoreHolds(ApplyAll(before, who, ds), who, a, db, RO, last))
  {
    var grants := TwoGrants(who, a, b, end);
    TwoHeld(c, who, a, b, end);
    OpenedOn(c, grants, who, 0);
    LaterThanStored(c, grants[0]);
    OnlyOnUnflagged(c, grants, who, 0);
    EarlyEndGains(c, grants, who, 0, newId, ds);
    assert {a, b} - {a} == {b};
    assert GrantReach(grants[0]).Reaches(db, RO, end);
  }

  lemma NoonOfDayTen(c: Clock, noon: int)
    requires c == Clock(0, 0) && noon == 10 * DAY + DAY / 2
    ensures TimeOfDay(c, noon) < LAST_SECOND && LocalDay(c, noon) == 10 && DayEnd(c, 10) == noon + DAY / 2 - 1000
  {
  }

  /** Access to one connection until noon and to another without end: the Save that only removes
      the other is shown as a pure removal, and the subject holds the first until 23:59:59. */
  lemma RemovalExtendsAccess(who: Subject, main: string, other: string, newId: string -> string, ds: seq<Done>)
    requires main != "" && other != "" && main != other
    ensures var c, noon := Clock(0, 0), 10 * DAY + DAY / 2;
      var grants := TwoGrants(who, main, other, noon);
      var initial, before := Opened(c, grants, who), StoreOf(grants);
      && SaveWhy(c, true, initial, OnlyOn(initial, main)) == None
      && AccDiff(c, initial, OnlyOn(initial, main)) == Diff({}, {}, {other}, true, false)
      && !StoreHolds(before, who, main, "sales", RO, noon + DAY / 2 - 1000)
      && (IdsNamePairs(before, who, newId) && Saved(c, grants, who, OnlyOn(initial, main), newId, ds) ==>
            StoreHolds(ApplyAll(before, who, ds), who, main, "sales", RO, noon + DAY / 2 - 1000))
  {
    var noon := 10 * DAY + DAY / 2;
    NoonOfDayTen(Clock(0, 0), noon);
    TwoGrantsGain(Clock(0, 0), who, main, other, noon, "sales", newId, ds);
  }
}
