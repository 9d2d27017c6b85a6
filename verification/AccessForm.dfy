/** The editor's own rules: the rows it opens on, Remove and Undo, and when Save is
    open (SubjectAccessEditor in qh-admin-access.jsx). */
module AccessForm {
  import opened Options
  import opened Seqs
  import opened AccessBox
  import opened Expiry
  import opened AccessEditor
  import opened AccessDiff
  import opened AccessSave

  // ---- Opening ----

  /** The subject's rows on this connection differ in level. */
  predicate Mixed(held: seq<Grant>, conn: string) {
    exists g, h :: g in held && h in held && g.conn == conn == h.conn && g.tier != h.tier
  }

  function LockedRow(key: nat, conn: string): Row { Row(key, true, false, conn, [], RO, NoEnd) }

  function OpenRow(c: Clock, key: nat, g: Grant): Row {
    Row(key, false, false, g.conn, if g.databases == [] then ["*"] else g.databases, g.tier, ExpForm(c, g.expiresAt))
  }

  /** One of the first `n` grants is on this connection. */
  predicate Seen(held: seq<Grant>, n: nat, conn: string)
    requires n <= |held|
  {
    exists i :: 0 <= i < n && held[i].conn == conn
  }

  /** The rows after the first `n` grants: one for each, or one read-only row for a
      connection whose levels differ. */
  function OpenTo(c: Clock, held: seq<Grant>, n: nat): seq<Row>
    requires n <= |held|
  {
    if n == 0 then []
    else
      var out, g := OpenTo(c, held, n - 1), held[n - 1];
      if !Mixed(held, g.conn) then out + [OpenRow(c, |out|, g)]
      else if Seen(held, n - 1, g.conn) then out
      else out + [LockedRow(|out|, g.conn)]
  }

  /** The connections already given their read-only row. */
  ghost predicate SeenSet(held: seq<Grant>, n: nat, seen: set<string>)
    requires n <= |held|
  {
    forall k :: k in seen <==> Mixed(held, k) && Seen(held, n, k)
  }

  lemma SeenSetNext(held: seq<Grant>, n: nat, seen: set<string>)
    requires n < |held| && SeenSet(held, n, seen)
    ensures var k := held[n].conn;
      && (Mixed(held, k) ==> (k in seen <==> Seen(held, n, k)))
      && (Mixed(held, k) && k !in seen ==> SeenSet(held, n + 1, seen + {k}))
      && (!Mixed(held, k) || k in seen ==> SeenSet(held, n + 1, seen))
  {
    SeenNext(held, n);
  }

  method RowsForSubject(c: Clock, grants: seq<Grant>, who: Subject) returns (out: seq<Row>)
    ensures var held := Filter(grants, (g: Grant) => g.subject == who); out == OpenTo(c, held, |held|)
  {
    var held := Filter(grants, (g: Grant) => g.subject == who);
    var seen: set<string> := {};
    out := [];
    var i := 0;
    while i < |held|
      invariant 0 <= i <= |held|
      invariant out == OpenTo(c, held, i) && SeenSet(held, i, seen)
    {
      out, seen := OpenGrant(c, held, i, out, seen);
      i := i + 1;
    }
  }

  method OpenGrant(c: Clock, held: seq<Grant>, i: nat, rows: seq<Row>, was: set<string>) returns (out: seq<Row>, seen: set<string>)
    requires i < |held| && rows == OpenTo(c, held, i) && SeenSet(held, i, was)
    ensures out == OpenTo(c, held, i + 1) && SeenSet(held, i + 1, seen)
  {
    out, seen := rows, was;
    var g := held[i];
    SeenSetNext(held, i, seen);
    if Mixed(held, g.conn) {
      if g.conn !in seen {
        seen := seen + {g.conn};
        out := out + [LockedRow(|out|, g.conn)];
      }
    } else {
      out := out + [OpenRow(c, |out|, g)];
    }
  }

  lemma SeenNext(held: seq<Grant>, n: nat)
    requires n < |held|
    ensures forall k :: Seen(held, n + 1, k) <==> Seen(held, n, k) || k == held[n].conn
  {
    forall k ensures Seen(held, n + 1, k) <==> Seen(held, n, k) || k == held[n].conn {
      if k == held[n].conn { assert held[n].conn == k; }
    }
  }

  ghost predicate FromGrant(c: Clock, held: seq<Grant>, r: Row) {
    exists g :: g in held && r == OpenRow(c, r.key, g)
  }

  ghost predicate OpenedWell(c: Clock, held: seq<Grant>, r: Row) {
    !r.removed && r.locked == Mixed(held, r.conn) && (!r.locked ==> FromGrant(c, held, r))
  }

  ghost predicate Shown(out: seq<Row>, conn: string) { exists i :: 0 <= i < |out| && out[i].conn == conn }

  ghost predicate LockedOnce(out: seq<Row>) {
    forall i, j :: 0 <= i < j < |out| && out[i].locked && out[j].locked ==> out[i].conn != out[j].conn
  }

  lemma LockedOnceNext(out: seq<Row>, r: Row)
    requires LockedOnce(out) && (r.locked ==> !Shown(out, r.conn))
    ensures LockedOnce(out + [r])
  {
    forall i | 0 <= i < |out| && r.locked ensures out[i].conn != r.conn {}
  }

  /** A connection opens read-only exactly when its levels differ, once, and with no
      editable row beside it; every held connection is shown; keys are the positions. */
  lemma {:induction false} OpenedRows(c: Clock, held: seq<Grant>, n: nat)
    requires n <= |held|
    ensures var out := OpenTo(c, held, n);
      && (forall i :: 0 <= i < |out| ==> out[i].key == i && OpenedWell(c, held, out[i]))
      && LockedOnce(out)
      && (forall k :: Shown(out, k) <==> Seen(held, n, k))
  {
    if n > 0 {
      var out, g := OpenTo(c, held, n - 1), held[n - 1];
      OpenedRows(c, held, n - 1);
      SeenNext(held, n - 1);
      assert g in held;
      if Mixed(held, g.conn) {
        if !Seen(held, n - 1, g.conn) {
          ShownNext(out, LockedRow(|out|, g.conn));
          LockedOnceNext(out, LockedRow(|out|, g.conn));
        }
      } else {
        assert FromGrant(c, held, OpenRow(c, |out|, g));
        ShownNext(out, OpenRow(c, |out|, g));
        LockedOnceNext(out, OpenRow(c, |out|, g));
      }
    }
  }

  lemma ShownNext(out: seq<Row>, r: Row)
    ensures forall k :: Shown(out + [r], k) <==> Shown(out, k) || k == r.conn
  {
    assert (out + [r])[|out|].conn == r.conn;
    forall k | Shown(out, k) ensures Shown(out + [r], k) {
      var i :| 0 <= i < |out| && out[i].conn == k;
      assert (out + [r])[i].conn == k;
    }
  }

  lemma EditableRow(c: Clock, held: seq<Grant>, r: Row)
    requires r in OpenTo(c, held, |held|) && !r.locked
    ensures FromGrant(c, held, r) && !Mixed(held, r.conn)
  {
    OpenedRows(c, held, |held|);
  }

  /** Editable rows of one connection agree on their level, so saving the rows as they
      opened never names two levels for a connection. */
  lemma OpenedNeverClash(c: Clock, held: seq<Grant>, conn: string)
    ensures !HasClash(TargetsOf(c, OpenTo(c, held, |held|)), conn)
  {
    var rows := OpenTo(c, held, |held|);
    var ts := TargetsOf(c, rows);
    forall t | t in ts && t.conn == conn
      ensures !Mixed(held, conn) && exists g :: g in held && g.conn == conn && g.tier == t.tier
    {
      TargetRow(c, rows, t);
      var r :| r in rows && !r.locked && !r.removed && t == TargetOf(c, r);
      EditableRow(c, held, r);
    }
  }

  lemma TargetRow(c: Clock, rows: seq<Row>, t: Target)
    ensures t in TargetsOf(c, rows) <==> exists r :: r in rows && !r.locked && !r.removed && t == TargetOf(c, r)
  {
    var live := Filter(rows, (r: Row) => !r.locked && !r.removed);
    if t in TargetsOf(c, rows) {
      var i :| 0 <= i < |live| && TargetsOf(c, rows)[i] == t;
      assert live[i] in live;
    }
    if r :| r in rows && !r.locked && !r.removed && t == TargetOf(c, r) {
      var i :| 0 <= i < |live| && live[i] == r;
      assert TargetsOf(c, rows)[i] == t;
    }
  }

  // ---- Editing ----

  datatype Op = Remove(key: nat) | Undo(key: nat) | Add(key: nat)

  ghost predicate Held(initial: seq<Row>, key: nat) { exists r :: r in initial && r.key == key }

  function Mark(rows: seq<Row>, key: nat, removed: bool): seq<Row> {
    Map(rows, (r: Row) => if r.key == key then r.(removed := removed) else r)
  }

  function BlankRow(key: nat): Row { Row(key, false, false, "", ["*"], RO, NoEnd) }

  ghost function EditStep(initial: seq<Row>, rows: seq<Row>, op: Op): seq<Row> {
    match op
    case Remove(k) => if Held(initial, k) then Mark(rows, k, true) else Filter(rows, (r: Row) => r.key != k)
    case Undo(k) => Mark(rows, k, false)
    case Add(k) =>
      if exists r :: r in rows && !r.locked && !r.removed && r.conn == "" then rows else rows + [BlankRow(k)]
  }

  ghost function EditRun(initial: seq<Row>, rows: seq<Row>, ops: seq<Op>): seq<Row>
    decreases |ops|
  {
    if ops == [] then rows else EditRun(initial, EditStep(initial, rows, ops[0]), ops[1..])
  }

  /** New rows take keys of their own. */
  ghost predicate FreshKeys(initial: seq<Row>, ops: seq<Op>) {
    forall op :: op in ops && op.Add? ==> !Held(initial, op.key)
  }

  /** The held rows are still there, in order and unchanged but for their mark. */
  ghost predicate HeldKept(initial: seq<Row>, rows: seq<Row>) {
    && |initial| <= |rows|
    && (forall i :: 0 <= i < |initial| ==> rows[i].(removed := initial[i].removed) == initial[i])
    && (forall i :: |initial| <= i < |rows| ==> !Held(initial, rows[i].key))
  }

  /** Remove marks a held row and takes a new one away. */
  lemma RemoveMeans(initial: seq<Row>, rows: seq<Row>, key: nat)
    ensures var r := EditStep(initial, rows, Remove(key));
      if Held(initial, key) then Marked(rows, r, key, true) else forall q :: q in r <==> q in rows && q.key != key
  {
    MarkMeans(rows, key, true);
  }

  /** Undo takes the mark off, and Add puts a row with no connection last, unless one is waiting
      for its connection. */
  lemma UndoAndAdd(initial: seq<Row>, rows: seq<Row>, key: nat)
    ensures Marked(rows, EditStep(initial, rows, Undo(key)), key, false)
    ensures EditStep(initial, rows, Add(key)) ==
      if exists q :: q in rows && Listed(q) && q.conn == "" then rows
      else rows + [Row(key, false, false, "", ["*"], RO, NoEnd)]
  {
    MarkMeans(rows, key, false);
  }

  predicate Marked(rows: seq<Row>, r: seq<Row>, key: nat, removed: bool) {
    |r| == |rows| && forall i :: 0 <= i < |rows| ==> r[i] == if rows[i].key == key then rows[i].(removed := removed) else rows[i]
  }

  lemma MarkMeans(rows: seq<Row>, key: nat, removed: bool)
    ensures Marked(rows, Mark(rows, key, removed), key, removed)
  {
  }

  lemma EditStepKeeps(initial: seq<Row>, rows: seq<Row>, op: Op)
    requires HeldKept(initial, rows) && (op.Add? ==> !Held(initial, op.key))
    ensures HeldKept(initial, EditStep(initial, rows, op))
  {
    if op.Remove? && !Held(initial, op.key) {
      var p := (r: Row) => r.key != op.key;
      var front, back := rows[..|initial|], rows[|initial|..];
      assert rows == front + back;
      FilterAppend(front, back, p);
      forall r | r in front ensures p(r) {
        var i :| 0 <= i < |initial| && rows[i] == r;
        assert initial[i] in initial;
      }
      FilterAll(front, p);
      forall r | r in Filter(back, p) ensures !Held(initial, r.key) {}
    }
  }

  lemma {:induction false} EditRunKeeps(initial: seq<Row>, rows: seq<Row>, ops: seq<Op>)
    requires HeldKept(initial, rows) && FreshKeys(initial, ops)
    ensures HeldKept(initial, EditRun(initial, rows, ops))
    decreases |ops|
  {
    if ops != [] {
      EditStepKeeps(initial, rows, ops[0]);
      EditRunKeeps(initial, EditStep(initial, rows, ops[0]), ops[1..]);
    }
  }

  lemma ExtraNotHeld(initial: seq<Row>, rows: seq<Row>)
    requires HeldKept(initial, rows) && |rows| > |initial|
    ensures exists r :: r in rows && !Held(initial, r.key)
  {
    assert rows[|initial|] in rows;
  }

  /** Whatever was removed, undone or added on the way: once nothing is marked and no
      new row is left, the editor shows the rows it opened with, and no change. */
  lemma UndoRestores(c: Clock, initial: seq<Row>, ops: seq<Op>)
    requires FreshKeys(initial, ops) && forall r :: r in initial ==> !r.removed
    requires var rows := EditRun(initial, initial, ops); forall r :: r in rows ==> !r.removed && Held(initial, r.key)
    ensures EditRun(initial, initial, ops) == initial
    ensures !AccDiff(c, initial, EditRun(initial, initial, ops)).any
  {
    var rows := EditRun(initial, initial, ops);
    forall i | 0 <= i < |initial| ensures Held(initial, initial[i].key) {}
    EditRunKeeps(initial, initial, ops);
    if |rows| > |initial| { ExtraNotHeld(initial, rows); }
    forall i | 0 <= i < |initial| ensures rows[i] == initial[i] {
      assert rows[i] in rows && initial[i] in initial;
    }
  }

  // ---- When Save is open ----

  datatype Why = PickSubject | PickConnection | DiffersByDatabase | ListedTwice | PickEndDate | NothingToChange

  predicate Listed(r: Row) { !r.locked && !r.removed }

  /** What is wrong with the row at `i`, if anything. */
  function RowFlag(rows: seq<Row>, i: nat): Option<Why>
    requires i < |rows|
  {
    var r := rows[i];
    if !Listed(r) || r.conn == "" then None
    else if exists q :: q in rows && q.locked && q.conn == r.conn then Some(DiffersByDatabase)
    else if exists j :: 0 <= j < i && Listed(rows[j]) && rows[j].conn == r.conn then Some(ListedTwice)
    else None
  }

  function FirstFlag(rows: seq<Row>, i: nat): (w: Option<Why>)
    requires i <= |rows|
    ensures w.None? <==> forall j :: i <= j < |rows| ==> RowFlag(rows, j).None?
    decreases |rows| - i
  {
    if i == |rows| then None
    else if RowFlag(rows, i).Some? then RowFlag(rows, i)
    else FirstFlag(rows, i + 1)
  }

  function SaveWhy(c: Clock, subjectPicked: bool, initial: seq<Row>, rows: seq<Row>): Option<Why> {
    if !subjectPicked then Some(PickSubject)
    else if exists r :: r in rows && Listed(r) && r.conn == "" then Some(PickConnection)
    else if FirstFlag(rows, 0).Some? then FirstFlag(rows, 0)
    else if exists r :: r in rows && Listed(r) && ExpBad(c, r.pick) then Some(PickEndDate)
    else if !AccDiff(c, initial, rows).any then Some(NothingToChange)
    else None
  }

  /** An open Save lists each connection once, none of them read-only, each with an
      end from today on. */
  lemma OpenSaveIsClean(c: Clock, initial: seq<Row>, rows: seq<Row>)
    requires SaveWhy(c, true, initial, rows) == None
    ensures forall i, j :: 0 <= i < j < |rows| && Listed(rows[i]) && Listed(rows[j]) ==> rows[i].conn != rows[j].conn
    ensures forall r, q :: r in rows && q in rows && Listed(r) && q.locked ==> q.conn != r.conn
    ensures forall r :: r in rows && Listed(r) ==> r.Live() && !ExpBad(c, r.pick) && r.pick != OnDay(None)
    ensures AccDiff(c, initial, rows).any
  {
    forall i, j | 0 <= i < j < |rows| && Listed(rows[i]) && Listed(rows[j]) ensures rows[i].conn != rows[j].conn {
      assert rows[j] in rows && RowFlag(rows, j).None?;
    }
    forall r, q | r in rows && q in rows && Listed(r) && q.locked ensures q.conn != r.conn {
      var i :| 0 <= i < |rows| && rows[i] == r;
      assert RowFlag(rows, i).None?;
    }
  }

  ghost predicate OnceEach(rows: seq<Row>) {
    forall i, j :: 0 <= i < j < |rows| && Listed(rows[i]) && Listed(rows[j]) ==> rows[i].conn != rows[j].conn
  }

  ghost predicate OffReadOnly(rows: seq<Row>) {
    forall r, q :: r in rows && q in rows && Listed(r) && q.locked ==> q.conn != r.conn
  }

  /** The rows may be saved, change or no change. */
  ghost predicate InOrder(c: Clock, rows: seq<Row>) {
    && (forall r :: r in rows && Listed(r) ==> r.conn != "" && FromToday(c, r.pick))
    && OnceEach(rows) && OffReadOnly(rows)
  }

  lemma NoFlagIff(rows: seq<Row>)
    requires forall r :: r in rows && Listed(r) ==> r.conn != ""
    ensures FirstFlag(rows, 0).None? <==> OnceEach(rows) && OffReadOnly(rows)
  {
    if OnceEach(rows) && OffReadOnly(rows) {
      forall j | 0 <= j < |rows| ensures RowFlag(rows, j).None? { assert rows[j] in rows; }
    }
    if FirstFlag(rows, 0).None? {
      forall i, j | 0 <= i < j < |rows| && Listed(rows[i]) && Listed(rows[j]) ensures rows[i].conn != rows[j].conn {
        assert rows[j] in rows && RowFlag(rows, j).None?;
      }
      forall r, q | r in rows && q in rows && Listed(r) && q.locked ensures q.conn != r.conn {
        var i :| 0 <= i < |rows| && rows[i] == r;
        assert RowFlag(rows, i).None?;
      }
    }
  }

  /** With plain names Save is offered exactly when a subject is picked, the rows are in order,
      and some connection's rows differ from those it opened with. */
  lemma SaveOfferedIff(c: Clock, subjectPicked: bool, initial: seq<Row>, rows: seq<Row>)
    requires PlainNames(initial) && PlainNames(rows)
    ensures SaveWhy(c, subjectPicked, initial, rows) == None <==>
      subjectPicked && InOrder(c, rows) && exists k :: RowsDiffer(initial, rows, k)
  {
    AnyMeans(c, initial, rows);
    forall r | r in rows ensures FromToday(c, r.pick) <==> !ExpBad(c, r.pick) { FromTodayIs(c, r.pick); }
    if forall r :: r in rows && Listed(r) ==> r.conn != "" { NoFlagIff(rows); }
  }

  lemma FirstFlagAt(rows: seq<Row>, i: nat) returns (j: nat)
    requires i <= |rows| && FirstFlag(rows, i).Some?
    ensures i <= j < |rows| && FirstFlag(rows, i) == RowFlag(rows, j)
    decreases |rows| - i
  {
    if RowFlag(rows, i).Some? { j := i; } else { j := FirstFlagAt(rows, i + 1); }
  }

  /** The reason that Save names is a true one. */
  lemma WhyIsTrue(c: Clock, subjectPicked: bool, initial: seq<Row>, rows: seq<Row>)
    ensures var why := SaveWhy(c, subjectPicked, initial, rows);
      && (why == Some(PickSubject) ==> !subjectPicked)
      && (why == Some(PickConnection) ==> exists r :: r in rows && Listed(r) && r.conn == "")
      && (why == Some(ListedTwice) ==> !OnceEach(rows))
      && (why == Some(DiffersByDatabase) ==> !OffReadOnly(rows))
      && (why == Some(PickEndDate) ==> exists r :: r in rows && Listed(r) && !FromToday(c, r.pick))
      && (why == Some(NothingToChange) && PlainNames(initial) && PlainNames(rows) ==> forall k :: !RowsDiffer(initial, rows, k))
  {
    AnyMeans(c, initial, rows);
    forall r | r in rows ensures FromToday(c, r.pick) <==> !ExpBad(c, r.pick) { FromTodayIs(c, r.pick); }
    if FirstFlag(rows, 0).Some? {
      var j := FirstFlagAt(rows, 0);
      FlagIsTrue(rows, j);
    }
  }

  lemma FlagIsTrue(rows: seq<Row>, i: nat)
    requires i < |rows|
    ensures RowFlag(rows, i) == Some(ListedTwice) ==> !OnceEach(rows)
    ensures RowFlag(rows, i) == Some(DiffersByDatabase) ==> !OffReadOnly(rows)
    ensures RowFlag(rows, i).Some? ==> RowFlag(rows, i).value in {ListedTwice, DiffersByDatabase}
  {
    assert rows[i] in rows;
  }

  /** Then what Save sends for a listed row reaches exactly what the row shows, no two
      targets clash, and no read-only connection is named. */
  lemma OpenSaveSendsRows(c: Clock, initial: seq<Row>, rows: seq<Row>, i: nat)
    requires c.now >= 0 && SaveWhy(c, true, initial, rows) == None
    requires i < |rows| && Listed(rows[i])
    ensures var x := Collapse(TargetsOf(c, rows));
      rows[i].conn in x.entry && TargetReach(x.entry[rows[i].conn]) == RowReach(c, rows[i])
    ensures MergeIsActual(c, [rows[i]])
    ensures !HasClash(TargetsOf(c, rows), rows[i].conn)
  {
    var r := rows[i];
    OpenSaveIsClean(c, initial, rows);
    assert r in rows;
    forall j | 0 <= j < |rows| && j != i && rows[j].Live() ensures rows[j].conn != r.conn {}
    OneLiveRow(rows, i, r.conn);
    assert r.conn in Conns(rows);
    DiffMatchesCalls(c, rows, r.conn);
    MergedEntry(c, rows, r.conn);
    assert Reaches(c, [r]) == [RowReach(c, r)];
    SingleRowActual(c, r);
    forall t | t in TargetsOf(c, rows) && t.conn == r.conn ensures t == TargetOf(c, r) {
      TargetRow(c, rows, t);
      var q :| q in rows && Listed(q) && t == TargetOf(c, q);
      var j :| 0 <= j < |rows| && rows[j] == q;
    }
  }

  // ---- An offered Save, from the rows to the store ----

  /** The read-only connections, which Save leaves alone. */
  function LockedConns(rows: seq<Row>): set<string> { set r | r in rows && r.locked :: r.conn }

  predicate ReadOnly(rows: seq<Row>, conn: string) { exists r :: r in rows && r.locked && r.conn == conn }

  lemma WantedOn(targets: seq<Target>, untouched: set<string>, conn: string)
    requires conn !in untouched
    ensures TargetsOn(Wanted(targets, untouched), conn) == TargetsOn(targets, conn)
  {
    FilterTwice(targets, (t: Target) => t.conn !in untouched, (t: Target) => t.conn == conn, (t: Target) => t.conn == conn);
  }

  /** What one listed row comes to in the calls: the one target on its connection. */
  lemma ListedTarget(c: Clock, initial: seq<Row>, rows: seq<Row>, r: Row)
    requires c.now >= 0 && SaveWhy(c, true, initial, rows) == None && r in rows && Listed(r)
    ensures TargetsOn(TargetsOf(c, rows), r.conn) == [TargetOf(c, r)] && TargetReach(TargetOf(c, r)) == RowReach(c, r)
    ensures r.conn !in LockedConns(rows)
  {
    OpenSaveIsClean(c, initial, rows);
    var i :| 0 <= i < |rows| && rows[i] == r;
    forall j | 0 <= j < |rows| && j != i && rows[j].Live() ensures rows[j].conn != r.conn {}
    OneLiveRow(rows, i, r.conn);
    TargetsOnConn(c, rows, r.conn);
    RowShownAsSent(c, r);
  }

  lemma SavedRow(c: Clock, rows: seq<Row>, r: Row, x: Target)
    requires r.conn !in LockedConns(rows) && TargetsOn(TargetsOf(c, rows), r.conn) == [TargetOf(c, r)]
    requires CollapsedOn(TargetsOn(Wanted(TargetsOf(c, rows), LockedConns(rows)), r.conn), r.conn, x)
    ensures TargetReach(x) == TargetReach(TargetOf(c, r))
  {
    WantedOn(TargetsOf(c, rows), LockedConns(rows), r.conn);
    assert TargetReaches([TargetOf(c, r)]) == [TargetReach(TargetOf(c, r))];
  }

  /** The subject's rows on a connection after every call went through: one row that reaches
      what the row on screen shows, what a read-only connection held, or nothing. */
  ghost predicate HoldsShown(c: Clock, rows: seq<Row>, who: Subject, conn: string, id: string, had: set<Grant>, has: set<Grant>) {
    && (ReadOnly(rows, conn) ==> has == had)
    && (forall r :: r in rows && Listed(r) && r.conn == conn ==>
          exists x :: has == {Written(who, x, id)} && TargetReach(x) == RowReach(c, r))
    && (!ReadOnly(rows, conn) && (forall r :: r in rows && Listed(r) ==> r.conn != conn) ==> has == {})
  }

  /** Then no two targets clash, so the calls are sent; and whatever their order, with none
      refused the subject holds on every connection just what the screen shows. */
  lemma OfferedSaveHolds(c: Clock, grants: seq<Grant>, who: Subject, initial: seq<Row>, rows: seq<Row>,
                         newId: string -> string, ds: seq<Done>, conn: string)
    requires c.now >= 0 && SaveWhy(c, true, initial, rows) == None
    ensures !HasClash(TargetsOf(c, rows), conn)
    ensures var plan := PlanOf(grants, who, TargetsOf(c, rows), LockedConns(rows));
      IdsNamePairs(StoreOf(grants), who, newId) && RunOf(plan, newId, ds) && (forall d :: d in ds ==> d.ok) ==>
        HoldsShown(c, rows, who, conn, newId(conn),
                   RowsAt(StoreOf(grants), who, conn), RowsAt(ApplyAll(StoreOf(grants), who, ds), who, conn))
  {
    NoClash(c, initial, rows, conn);
    var plan := PlanOf(grants, who, TargetsOf(c, rows), LockedConns(rows));
    if IdsNamePairs(StoreOf(grants), who, newId) && RunOf(plan, newId, ds) && forall d :: d in ds ==> d.ok {
      var targets, untouched := TargetsOf(c, rows), LockedConns(rows);
      SaveComplete(grants, who, targets, untouched, newId, ds, conn);
      var has := RowsAt(ApplyAll(StoreOf(grants), who, ds), who, conn);
      forall r | r in rows && Listed(r) && r.conn == conn
        ensures exists x :: has == {Written(who, x, newId(conn))} && TargetReach(x) == RowReach(c, r)
      {
        ListedTarget(c, initial, rows, r);
        TargetRow(c, rows, TargetOf(c, r));
        var x :| has == {Written(who, x, newId(conn))} && CollapsedOn(TargetsOn(Wanted(targets, untouched), conn), conn, x);
        SavedRow(c, rows, r, x);
      }
      if t :| t in targets && t.conn == conn { TargetRow(c, rows, t); }
    }
  }

  lemma NoClash(c: Clock, initial: seq<Row>, rows: seq<Row>, conn: string)
    requires c.now >= 0 && SaveWhy(c, true, initial, rows) == None
    ensures !HasClash(TargetsOf(c, rows), conn)
  {
    forall t | t in TargetsOf(c, rows) && t.conn == conn ensures TargetsOn(TargetsOf(c, rows), conn) == [t] {
      TargetRow(c, rows, t);
      var r :| r in rows && Listed(r) && t == TargetOf(c, r);
      ListedTarget(c, initial, rows, r);
    }
  }

  // ---- The flag, for an offered Save ----

  /** In an editor opened with one row for each connection, an offered Save is called a
      widening exactly when it gives the subject something the opened rows did not. */
  lemma OfferedSaveWidensIff(c: Clock, initial: seq<Row>, rows: seq<Row>)
    requires OneEach(initial) && SaveWhy(c, true, initial, rows) == None
    requires PlainNames(initial) && PlainNames(rows)
    ensures AccDiff(c, initial, rows).widens <==> NewlyHeld(c, initial, rows)
  {
    OpenSaveIsClean(c, initial, rows);
    OneEachAttained(c, initial);
    OneEachAttained(c, rows);
    WidensIsNewlyHeld(c, initial, rows);
  }

  /** A subject with one grant for each connection opens such an editor. */
  lemma {:induction false} OpenedOneEach(c: Clock, held: seq<Grant>, n: nat)
    requires n <= |held| && forall i, j :: 0 <= i < j < |held| ==> held[i].conn != held[j].conn
    ensures OneEach(OpenTo(c, held, n))
  {
    if n > 0 {
      var out, g := OpenTo(c, held, n - 1), held[n - 1];
      OpenedOneEach(c, held, n - 1);
      OpenedRows(c, held, n - 1);
      assert !Seen(held, n - 1, g.conn);
      assert !Shown(out, g.conn);
    }
  }
}
