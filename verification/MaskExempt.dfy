/** Masking exemptions (qh-admin-mask.jsx): what an edit widens, which replace is an edit
    of the same row, and the replace that writes several rows. */
module MaskExempt {
  import opened Options
  import opened AccessBox
  import opened Expiry
  import opened Seqs
  import opened Text

  // ---- Audiences ----

  /** Who an exemption unmasks for; a row may say nothing. A missing team id is "". */
  datatype Audience = Unsaid | Everyone | Admins | Supers | Team(id: string)

  function AudKey(a: Audience): string {
    match a
    case Unsaid => "everyone" case Everyone => "everyone" case Admins => "dba" case Supers => "super"
    case Team(id) => "team:" + id
  }

  /** Whether audience key `a` holds every reader of audience key `b`. */
  predicate AudCovers(a: string, b: string) { a == b || a == "everyone" || (a == "dba" && b == "super") }

  /** Who holds which part: every super-admin is an admin. */
  datatype Org = Org(admins: set<nat>, supers: set<nat>, teams: map<string, set<nat>>)
  {
    predicate Sound() { supers <= admins }

    predicate Includes(a: Audience, person: nat) {
      match a
      case Unsaid => true case Everyone => true
      case Admins => person in admins
      case Supers => person in supers
      case Team(id) => id in teams && person in teams[id]
    }
  }

  lemma AudKeys(a: Audience, b: Audience)
    ensures AudKey(a) == AudKey(b) <==> a == b || (a.Unsaid? && b.Everyone?) || (a.Everyone? && b.Unsaid?)
    ensures AudKey(a) == "everyone" <==> a.Unsaid? || a.Everyone?
    ensures AudKey(a) == "dba" <==> a.Admins?
    ensures AudKey(a) == "super" <==> a.Supers?
  {
    var p := "team:";
    assert a.Team? ==> AudKey(a)[..5] == p && AudKey(a)[5..] == a.id;
    assert b.Team? ==> AudKey(b)[..5] == p && AudKey(b)[5..] == b.id;
    assert "everyone"[0] != 't' && "dba"[0] != 't' && "super"[0] != 't';
    assert a.Team? ==> AudKey(a)[0] == 't';
    assert b.Team? ==> AudKey(b)[0] == 't';
  }

  /** An organisation where person 0 is in `b` and, when it can be, not in `a`. */
  function OrgIn(b: Audience): Org {
    match b
    case Unsaid => Org({}, {}, map[])
    case Everyone => Org({}, {}, map[])
    case Admins => Org({0}, {}, map[])
    case Supers => Org({0}, {0}, map[])
    case Team(id) => Org({}, {}, map[id := {0}])
  }

  lemma OrgInSeparates(a: Audience, b: Audience)
    ensures OrgIn(b).Sound() && OrgIn(b).Includes(b, 0)
    ensures OrgIn(b).Includes(a, 0) ==> AudCovers(AudKey(a), AudKey(b))
  {
    AudKeys(a, b);
    AudKeys(b, a);
  }

  /** One audience holds another's readers in every organisation exactly when the key test
      says so: two teams, and a team and the admins, never do. */
  lemma AudCoversExact(a: Audience, b: Audience)
    ensures AudCovers(AudKey(a), AudKey(b)) <==>
      forall o: Org, p: nat :: o.Sound() && o.Includes(b, p) ==> o.Includes(a, p)
  {
    AudKeys(a, b);
    AudKeys(b, a);
    OrgInSeparates(a, b);
  }

  // ---- What an edit widens ----

  datatype Settings = Settings(full: bool, survivesJoin: bool, audience: Audience, expiresAt: Option<int>)

  datatype Word = ValuesUnchecked | StaysInJoins | MorePeople | AppliesAgain | EndsLater | NoEndDate

  /** One read of a covered column: who, when, through a join or not, and whether the
      value is one the value check would catch. */
  datatype Read = Read(person: nat, at: int, join: bool, caught: bool)

  predicate Exposes(s: Settings, o: Org, r: Read) {
    && o.Includes(s.audience, r.person)
    && (s.expiresAt.Some? ==> r.at < s.expiresAt.value)
    && (r.join ==> s.survivesJoin)
    && (r.caught ==> s.full)
  }

  predicate EndsAfter(a: Option<int>, b: Option<int>) { b.Some? && (a.None? || a.value > b.value) }

  /** `expired` is the server's word on the stored row. */
  predicate Ended(b: Settings, expired: bool, now: int) { expired || (b.expiresAt.Some? && b.expiresAt.value <= now) }

  function One(said: bool, w: Word): seq<Word> { if said then [w] else [] }

  function WidensOf(b: Settings, a: Settings, expired: bool, now: int): seq<Word> {
    One(!b.full && a.full, ValuesUnchecked)
    + One(!b.survivesJoin && a.survivesJoin, StaysInJoins)
    + One(!AudCovers(AudKey(b.audience), AudKey(a.audience)), MorePeople)
    + One(EndsAfter(a.expiresAt, b.expiresAt), if Ended(b, expired, now) then AppliesAgain else if a.expiresAt.Some? then EndsLater else NoEndDate)
  }

  method MxWidens(b: Settings, a: Settings, expired: bool, now: int) returns (out: seq<Word>)
    ensures out == WidensOf(b, a, expired, now)
  {
    out := [];
    if !b.full && a.full { out := out + [ValuesUnchecked]; }
    if !b.survivesJoin && a.survivesJoin { out := out + [StaysInJoins]; }
    if !AudCovers(AudKey(b.audience), AudKey(a.audience)) { out := out + [MorePeople]; }
    if EndsAfter(a.expiresAt, b.expiresAt) {
      out := out + [if Ended(b, expired, now) then AppliesAgain else if a.expiresAt.Some? then EndsLater else NoEndDate];
    }
  }

  /** The edited row exposes nothing, from an instant on, that the stored one does not. */
  ghost predicate NoNewExposure(b: Settings, a: Settings, from: int) {
    forall o: Org, r: Read :: o.Sound() && r.at >= from && Exposes(a, o, r) ==> Exposes(b, o, r)
  }

  /** The read that shows what was widened. */
  function NewRead(b: Settings, a: Settings, from: int): Read {
    var at := if EndsAfter(a.expiresAt, b.expiresAt) && b.expiresAt.value > from then b.expiresAt.value else from;
    Read(0, at, a.survivesJoin, a.full)
  }

  /** The list of widenings is empty exactly when, in every organisation, no read from `from`
      on is newly exposed; the one exception is an edit that has itself ended by then. */
  lemma WidensExact(b: Settings, a: Settings, expired: bool, now: int, from: int)
    ensures NoNewExposure(b, a, from) <==>
      WidensOf(b, a, expired, now) == [] || (a.expiresAt.Some? && a.expiresAt.value <= from)
  {
    AudCoversExact(b.audience, a.audience);
    OrgInSeparates(b.audience, a.audience);
    var o, r := OrgIn(a.audience), NewRead(b, a, from);
    if a.expiresAt.None? || a.expiresAt.value > from {
      assert r.at >= from && Exposes(a, o, r);
      if NoNewExposure(b, a, from) { assert Exposes(b, o, r); }
    }
  }

  /** The settings still hold at this instant. */
  predicate Holds(s: Settings, at: int) { s.expiresAt.Some? ==> at < s.expiresAt.value }

  ghost predicate Outlasts(a: Settings, b: Settings) { exists at :: Holds(a, at) && !Holds(b, at) }

  ghost predicate ReachesMore(a: Audience, b: Audience) {
    exists o: Org, p: nat :: o.Sound() && o.Includes(a, p) && !o.Includes(b, p)
  }

  lemma OutlastsIs(a: Settings, b: Settings)
    ensures Outlasts(a, b) <==> EndsAfter(a.expiresAt, b.expiresAt)
  {
    if EndsAfter(a.expiresAt, b.expiresAt) { assert Holds(a, b.expiresAt.value) && !Holds(b, b.expiresAt.value); }
  }

  /** What each word says of the edit, and that it is said whenever it is so. */
  lemma WordsMean(b: Settings, a: Settings, expired: bool, now: int)
    ensures var out := WidensOf(b, a, expired, now);
      && (ValuesUnchecked in out <==> a.full && !b.full)
      && (StaysInJoins in out <==> a.survivesJoin && !b.survivesJoin)
      && (MorePeople in out <==> ReachesMore(a.audience, b.audience))
      && (AppliesAgain in out <==> Outlasts(a, b) && (expired || !Holds(b, now)))
      && (EndsLater in out <==> Outlasts(a, b) && !expired && Holds(b, now) && a.expiresAt.Some?)
      && (NoEndDate in out <==> Outlasts(a, b) && !expired && Holds(b, now) && a.expiresAt.None?)
  {
    OutlastsIs(a, b);
    AudCoversExact(b.audience, a.audience);
  }

  // ---- Where an exemption reaches ----

  datatype Scope = Fleet | Server | Database | Schema | Table | Column

  /** The fields of a target; "" is a field left empty. */
  datatype Place = Place(scope: Scope, conn: string, db: string, schema: string, table: string)

  datatype Spot = Spot(conn: string, db: string, schema: string, table: string, column: string)

  predicate NeedsSchema(s: Scope) { s.Schema? || s.Table? || s.Column? }
  predicate NeedsTable(s: Scope) { s.Table? || s.Column? }

  /** The first field still to be picked. */
  datatype Missing = AServer | ADatabase | ASchema | ATable | AColumn

  function MissingOf(p: Place, picked: seq<string>): Option<Missing> {
    if p.scope.Fleet? then None
    else if p.conn == "" then Some(AServer)
    else if !p.scope.Server? && p.db == "" then Some(ADatabase)
    else if NeedsSchema(p.scope) && p.schema == "" then Some(ASchema)
    else if NeedsTable(p.scope) && p.table == "" then Some(ATable)
    else if p.scope.Column? && picked == [] then Some(AColumn)
    else None
  }

  /** Every field that the scope uses is filled. */
  predicate Filled(p: Place, picked: seq<string>) {
    && (!p.scope.Fleet? ==> p.conn != "")
    && (!p.scope.Fleet? && !p.scope.Server? ==> p.db != "")
    && (p.scope.Schema? || p.scope.Table? || p.scope.Column? ==> p.schema != "")
    && (p.scope.Table? || p.scope.Column? ==> p.table != "")
    && (p.scope.Column? ==> picked != [])
  }

  /** Fields the scope does not use are empty. */
  predicate Clean(p: Place) {
    && (p.scope.Fleet? ==> p.conn == "")
    && (p.scope.Fleet? || p.scope.Server? ==> p.db == "")
    && (p.scope.Server? || p.scope.Database? ==> p.schema == "")
    && (!NeedsTable(p.scope) ==> p.table == "")
  }

  /** One side of a target: every name, also those created later, or the ones listed. */
  datatype Side = AnyName | Among(names: set<string>)

  predicate In(x: string, s: Side) { s.Among? ==> x in s.names }

  function Conns(p: Place): Side { if p.scope.Fleet? then AnyName else Among({p.conn}) }
  function Dbs(p: Place): Side { if p.scope.Fleet? || p.scope.Server? then AnyName else Among({p.db}) }
  function Schemas(p: Place): Side {
    if p.scope.Server? || p.scope.Database? || (p.scope.Fleet? && p.schema == "") then AnyName else Among({p.schema})
  }
  function Tables(p: Place): Side { if NeedsTable(p.scope) then Among({p.table}) else AnyName }
  function Columns(p: Place, cols: seq<string>): Side {
    if p.scope.Column? then Among(set y | y in cols) else AnyName
  }

  /** What a target covers, as its sentence on screen says. */
  predicate Covers(p: Place, cols: seq<string>, x: Spot) {
    In(x.conn, Conns(p)) && In(x.db, Dbs(p)) && In(x.schema, Schemas(p)) && In(x.table, Tables(p)) && In(x.column, Columns(p, cols))
  }

  ghost predicate SameSpots(p: Place, ps: seq<string>, q: Place, qs: seq<string>) {
    forall x: Spot :: Covers(p, ps, x) <==> Covers(q, qs, x)
  }

  predicate SamePlace(p: Place, orig: Place) { p == orig }

  predicate SameReach(p: Place, picked: seq<string>, orig: Place, column: string) {
    SamePlace(p, orig) && (!p.scope.Column? || picked == [column])
  }

  /** The original's column among others: that one would be a duplicate. */
  predicate Mixed(p: Place, picked: seq<string>, orig: Place, column: string) {
    SamePlace(p, orig) && p.scope.Column? && |picked| > 1 && column in picked
  }

  lemma SomeOutside(names: set<string>)
    ensures exists y :: !In(y, Among(names))
  {
    var y := FreshName(names);
    assert !In(y, Among(names));
  }

  lemma SameNames(a: Side, b: Side)
    requires forall y :: In(y, a) <==> In(y, b)
    ensures a == b
  {
    if a.Among? { SomeOutside(a.names); }
    if b.Among? { SomeOutside(b.names); }
    if a.Among? && b.Among? {
      assert forall y :: y in a.names <==> In(y, b);
    }
  }

  lemma FilledSpot(p: Place, cols: seq<string>) returns (x: Spot)
    requires p.scope.Column? ==> cols != []
    ensures Covers(p, cols, x)
  {
    x := Spot(p.conn, p.db, p.schema, p.table, if p.scope.Column? then cols[0] else "");
  }

  /** Two nonempty products are the same only side by side. */
  lemma SidesAgree(p: Place, ps: seq<string>, q: Place, qs: seq<string>)
    requires SameSpots(p, ps, q, qs) && (p.scope.Column? ==> ps != [])
    ensures Conns(p) == Conns(q) && Dbs(p) == Dbs(q) && Schemas(p) == Schemas(q) && Tables(p) == Tables(q)
    ensures Columns(p, ps) == Columns(q, qs)
  {
    var x := FilledSpot(p, ps);
    assert Covers(q, qs, x);
    forall y ensures In(y, Conns(p)) <==> In(y, Conns(q)) { var z := x.(conn := y); assert Covers(p, ps, z) <==> Covers(q, qs, z); }
    forall y ensures In(y, Dbs(p)) <==> In(y, Dbs(q)) { var z := x.(db := y); assert Covers(p, ps, z) <==> Covers(q, qs, z); }
    forall y ensures In(y, Schemas(p)) <==> In(y, Schemas(q)) { var z := x.(schema := y); assert Covers(p, ps, z) <==> Covers(q, qs, z); }
    forall y ensures In(y, Tables(p)) <==> In(y, Tables(q)) { var z := x.(table := y); assert Covers(p, ps, z) <==> Covers(q, qs, z); }
    forall y ensures In(y, Columns(p, ps)) <==> In(y, Columns(q, qs)) { var z := x.(column := y); assert Covers(p, ps, z) <==> Covers(q, qs, z); }
    SameNames(Conns(p), Conns(q));
    SameNames(Dbs(p), Dbs(q));
    SameNames(Schemas(p), Schemas(q));
    SameNames(Tables(p), Tables(q));
    SameNames(Columns(p, ps), Columns(q, qs));
  }

  lemma SinglePick(picked: seq<string>, column: string)
    requires picked != [] && Distinct(picked)
    ensures (set y | y in picked) == (set y | y in [column]) <==> picked == [column]
  {
    var a, b := (set y | y in picked), (set y | y in [column]);
    assert picked[0] in a && picked[|picked| - 1] in a;
    assert forall y :: y in b <==> y == column;
  }

  /** A replace is taken as an edit of the original exactly when it covers the same spots,
      and no field its scope does not use was left filled in. */
  lemma SameReachExact(p: Place, picked: seq<string>, orig: Place, column: string)
    requires MissingOf(p, picked).None? && Distinct(picked)
    requires Clean(orig) && MissingOf(orig, [column]).None?
    ensures SameReach(p, picked, orig, column) <==> Clean(p) && SameSpots(p, picked, orig, [column])
  {
    if p.scope.Column? { SinglePick(picked, column); }
    if Clean(p) && SameSpots(p, picked, orig, [column]) {
      SidesAgree(p, picked, orig, [column]);
    }
    if SameReach(p, picked, orig, column) {
      assert Columns(p, picked) == Columns(orig, [column]);
    }
  }

  // ---- Saving ----

  datatype NewRow = NewRow(place: Place, column: string, settings: Settings)

  /** A write the server made; an update carries what the row then holds. */
  datatype Write = Added(row: NewRow) | Retired | Updated(settings: Settings)

  /** What the form then says. `column` and `written` are named only where more than one
      column was picked. */
  datatype Failure = NotAdded(column: Option<string>, written: Option<nat>) | NotRetired | NotUpdated

  /** `gone`: a picked column is not in the catalog; `confirmed` and `typed`: the box ticked
      and the phrase typed. */
  datatype Form = Form(place: Place, picked: seq<string>, full: bool, survivesJoin: bool, audience: Audience, end: RowPick,
                       gone: bool, confirmed: bool, typed: bool, reason: string)

  /** The row a replace starts from. */
  datatype Original = Original(place: Place, column: string, enabled: bool, settings: Settings)

  function NewSettings(c: Clock, f: Form): Settings {
    Settings(f.full, f.survivesJoin, f.audience, ExpIso(c, f.end, None, None))
  }

  /** The picker left the end it opened on. */
  predicate EndMoved(c: Clock, f: Form, orig: Original) { f.end != ExpForm(c, orig.settings.expiresAt) }

  /** The original as an update leaves it: an end that was not moved is not sent. */
  function Patched(c: Clock, f: Form, orig: Original): Settings {
    if EndMoved(c, f, orig) then NewSettings(c, f) else NewSettings(c, f).(expiresAt := orig.settings.expiresAt)
  }

  function BodyFor(c: Clock, f: Form, column: string): NewRow { NewRow(f.place, column, NewSettings(c, f)) }

  function NewCount(f: Form): nat { if f.place.scope.Column? then |f.picked| else 1 }

  function Bodies(c: Clock, f: Form): (r: seq<NewRow>)
    ensures |r| == NewCount(f)
  {
    if f.place.scope.Column? then seq(|f.picked|, i requires 0 <= i < |f.picked| => BodyFor(c, f, f.picked[i]))
    else [BodyFor(c, f, "")]
  }

  predicate EditsOriginal(f: Form, orig: Option<Original>) {
    orig.Some? && SameReach(f.place, f.picked, orig.value.place, orig.value.column)
  }

  /** The widenings that the form shows: those of an edit of the original. */
  function FormWidens(c: Clock, f: Form, orig: Option<Original>, expired: bool): seq<Word> {
    if EditsOriginal(f, orig) then WidensOf(orig.value.settings, Patched(c, f, orig.value), expired, c.now) else []
  }

  datatype Why = Pick(what: Missing) | NotInCatalog | RemoveOriginal | Confirm | TypePhrase | PickTeam | PickEnd | WriteReason

  /** Why Save is off, or None. */
  function WhyNot(c: Clock, f: Form, orig: Option<Original>): Option<Why> {
    var missing := MissingOf(f.place, f.picked);
    var same := EditsOriginal(f, orig);
    if missing.Some? then Some(Pick(missing.value))
    else if f.place.scope.Column? && f.gone then Some(NotInCatalog)
    else if orig.Some? && Mixed(f.place, f.picked, orig.value.place, orig.value.column) then Some(RemoveOriginal)
    else if !same && (f.place.scope.Database? || f.place.scope.Server?) && !f.confirmed then Some(Confirm)
    else if !same && f.place.scope.Fleet? && !f.typed then Some(TypePhrase)
    else if f.audience == Team("") then Some(PickTeam)
    else if (!same || EndMoved(c, f, orig.value)) && ExpBad(c, f.end) then Some(PickEnd)
    else if Blank(f.reason) then Some(WriteReason)
    else None
  }

  /** The server takes or refuses each write; `adds[i]` is its answer to the i-th new row. */
  datatype Server = Server(adds: seq<bool>, retires: bool, updates: bool)

  /** How many new rows it takes before it first refuses. */
  function Taken(adds: seq<bool>): (n: nat)
    ensures n <= |adds| && (forall i :: 0 <= i < n ==> adds[i]) && (n < |adds| ==> !adds[n])
  {
    if adds == [] || !adds[0] then 0 else 1 + Taken(adds[1..])
  }

  function AddedAll(rows: seq<NewRow>): (r: seq<Write>)
    ensures |r| == |rows| && forall i :: 0 <= i < |rows| ==> r[i] == Added(rows[i])
  {
    seq(|rows|, i requires 0 <= i < |rows| => Added(rows[i]))
  }

  /** The writes made, in order, and what the form says when one was refused. */
  function SaveSpec(c: Clock, f: Form, orig: Option<Original>, server: Server): (seq<Write>, Option<Failure>)
    requires |server.adds| == NewCount(f)
  {
    if EditsOriginal(f, orig) then if server.updates then ([Updated(Patched(c, f, orig.value))], None) else ([], Some(NotUpdated))
    else
      var n := Taken(server.adds);
      var wrote := AddedAll(Bodies(c, f)[..n]);
      if n < |server.adds| then
        var many := f.place.scope.Column? && |f.picked| > 1;
        (wrote, Some(NotAdded(if many then Some(f.picked[n]) else None, if many && n > 0 then Some(n) else None)))
      else if orig.Some? && orig.value.enabled then
        if server.retires then (wrote + [Retired], None) else (wrote, Some(NotRetired))
      else (wrote, None)
  }

  class MaskForm {
    var writes: seq<Write>
    var failure: Option<Failure>
    var busy: bool
    var closed: bool

    constructor ()
      ensures writes == [] && failure == None && !busy && !closed
    {
      writes, failure, busy, closed := [], None, false, false;
    }

    method Add(row: NewRow, server: Server, i: nat) returns (ok: bool)
      requires i < |server.adds|
      modifies this`writes
      ensures ok == server.adds[i] && writes == if ok then old(writes) + [Added(row)] else old(writes)
    {
      ok := server.adds[i];
      if ok { writes := writes + [Added(row)]; }
    }

    /** One new row at a time, up to the first refusal. */
    method AddRows(rows: seq<NewRow>, server: Server) returns (n: nat)
      requires |server.adds| == |rows|
      modifies this`writes
      ensures n == Taken(server.adds) && writes == old(writes) + AddedAll(rows[..n])
    {
      n := 0;
      var ok := true;
      while n < |rows| && ok
        invariant 0 <= n <= |rows|
        invariant forall j :: 0 <= j < n ==> server.adds[j]
        invariant !ok ==> n < |rows| && !server.adds[n]
        invariant writes == old(writes) + AddedAll(rows[..n])
        decreases |rows| - n, ok
      {
        ok := Add(rows[n], server, n);
        if ok {
          assert AddedAll(rows[..n + 1]) == AddedAll(rows[..n]) + [Added(rows[n])];
          n := n + 1;
        }
      }
    }

    method Save(c: Clock, f: Form, orig: Option<Original>, server: Server)
      requires |server.adds| == NewCount(f)
      modifies this
      ensures old(busy) || WhyNot(c, f, orig).Some? ==>
        writes == old(writes) && failure == old(failure) && closed == old(closed) && busy == old(busy)
      ensures !old(busy) && WhyNot(c, f, orig).None? ==>
        var (wrote, said) := SaveSpec(c, f, orig, server);
        writes == old(writes) + wrote && failure == said && (closed <==> old(closed) || said.None?) && !busy
    {
      if WhyNot(c, f, orig).Some? || busy { return; }
      busy, failure := true, None;
      if EditsOriginal(f, orig) {
        if server.updates { writes := writes + [Updated(Patched(c, f, orig.value))]; } else { failure := Some(NotUpdated); }
      } else {
        var n := AddRows(Bodies(c, f), server);
        if n < |server.adds| {
          var many := f.place.scope.Column? && |f.picked| > 1;
          failure := Some(NotAdded(if many then Some(f.picked[n]) else None, if many && n > 0 then Some(n) else None));
        } else if orig.Some? && orig.value.enabled {
          if server.retires { writes := writes + [Retired]; } else { failure := Some(NotRetired); }
        }
      }
      closed := closed || failure.None?;
      busy := false;
    }
  }

  // ---- What is written ----

  /** The `i`-th new row: the form's own place and settings, for the `i`-th column picked. */
  ghost predicate WrittenFor(c: Clock, f: Form, i: nat, row: NewRow) {
    && row.place == f.place && SettingsOf(c, f, row.settings)
    && row.column == if f.place.scope.Column? then (if i < |f.picked| then f.picked[i] else "") else ""
  }

  /** The form's settings, with an end that lasts as long as the pick says. */
  ghost predicate SettingsOf(c: Clock, f: Form, s: Settings) {
    && s.full == f.full && s.survivesJoin == f.survivesJoin && s.audience == f.audience
    && forall at :: (s.expiresAt.Some? ==> at < s.expiresAt.value) <==> LastsAt(c, f.end, at)
  }

  /** At any moment of a replace or an addition: the writes made so far are new rows for the
      first columns picked, in order, with the form's settings; and the original goes off only
      after every one of them. */
  lemma ReplaceAtEveryPoint(c: Clock, f: Form, orig: Option<Original>, server: Server, k: nat)
    requires |server.adds| == NewCount(f) && !EditsOriginal(f, orig)
    requires k <= |SaveSpec(c, f, orig, server).0|
    ensures var sofar := SaveSpec(c, f, orig, server).0[..k];
      && (forall i :: 0 <= i < k && i < NewCount(f) ==> sofar[i].Added? && WrittenFor(c, f, i, sofar[i].row))
      && (k > NewCount(f) ==> k == NewCount(f) + 1 && sofar[NewCount(f)] == Retired && orig.Some? && orig.value.enabled)
  {
    var all := SaveSpec(c, f, orig, server).0;
    forall i | 0 <= i < k && i < NewCount(f) ensures all[..k][i].Added? && WrittenFor(c, f, i, all[..k][i].row) {
      assert all[..k][i] == all[i] == Added(Bodies(c, f)[i]);
    }
  }

  /** Some new row written covers the spot. */
  ghost predicate SomeCovers(wrote: seq<Write>, x: Spot) {
    exists i :: 0 <= i < |wrote| && wrote[i].Added? && Covers(wrote[i].row.place, [wrote[i].row.column], x)
  }

  /** Once all new rows are written, they cover together exactly what the form's target covers. */
  lemma NewRowsCover(c: Clock, f: Form, orig: Option<Original>, server: Server, x: Spot)
    requires |server.adds| == NewCount(f) && !EditsOriginal(f, orig) && Taken(server.adds) == NewCount(f)
    ensures SomeCovers(SaveSpec(c, f, orig, server).0, x) <==> Covers(f.place, f.picked, x)
  {
    var wrote := SaveSpec(c, f, orig, server).0;
    assert forall i :: 0 <= i < NewCount(f) ==> wrote[i] == Added(Bodies(c, f)[i]);
    if Covers(f.place, f.picked, x) {
      var i: nat := 0;
      if f.place.scope.Column? { i :| 0 <= i < |f.picked| && f.picked[i] == x.column; }
      assert Covers(wrote[i].row.place, [wrote[i].row.column], x);
    }
    if i :| 0 <= i < |wrote| && wrote[i].Added? && Covers(wrote[i].row.place, [wrote[i].row.column], x) {
      assert i < NewCount(f);
      assert x.column in [wrote[i].row.column] ==> x.column == wrote[i].row.column;
    }
  }

  /** Saving is an edit of the original exactly when it covers the same spots and leaves no field
      filled that its scope does not use. */
  lemma EditsOriginalIff(f: Form, orig: Original)
    requires Filled(f.place, f.picked) && Distinct(f.picked) && Clean(orig.place) && Filled(orig.place, [orig.column])
    ensures EditsOriginal(f, Some(orig)) <==> Clean(f.place) && SameSpots(f.place, f.picked, orig.place, [orig.column])
    ensures !EditsOriginal(f, None)
  {
    SameReachExact(f.place, f.picked, orig.place, orig.column);
  }

  /** The outcome, whatever the scope: nothing is said exactly when every write was taken;
      the rows written are the first ones; and where several columns were picked, the count
      named is how many were written and the column named is the first refused. */
  lemma ReplaceTellsTruth(c: Clock, f: Form, orig: Option<Original>, server: Server)
    requires |server.adds| == NewCount(f) && !EditsOriginal(f, orig)
    ensures var (wrote, said) := SaveSpec(c, f, orig, server);
      var many := f.place.scope.Column? && |f.picked| > 1;
      && (said.None? <==> |wrote| == NewCount(f) + (if orig.Some? && orig.value.enabled then 1 else 0))
      && (said == Some(NotRetired) ==> |wrote| == NewCount(f) && Retired !in wrote)
      && (said.None? <==> (forall i :: 0 <= i < |server.adds| ==> server.adds[i]) && (orig.Some? && orig.value.enabled ==> server.retires))
      && (said.Some? && said.value.NotAdded? ==>
            && |wrote| < NewCount(f) && Retired !in wrote
            && said.value.column == (if many then Some(f.picked[|wrote|]) else None)
            && said.value.written == (if many && |wrote| > 0 then Some(|wrote|) else None))
  {
    assert Bodies(c, f)[..|Bodies(c, f)|] == Bodies(c, f);
  }

  /** No new row that a replace writes in the original's own table covers a spot the original
      covers: beside it, never over it. */
  lemma ReplaceNeverOverlaps(c: Clock, f: Form, orig: Original, server: Server, i: nat, x: Spot)
    requires |server.adds| == NewCount(f) && WhyNot(c, f, Some(orig)).None? && !EditsOriginal(f, Some(orig)) && Distinct(f.picked)
    requires SamePlace(f.place, orig.place)
    requires i < |SaveSpec(c, f, Some(orig), server).0| && SaveSpec(c, f, Some(orig), server).0[i].Added?
    ensures var row := SaveSpec(c, f, Some(orig), server).0[i].row;
      !(Covers(row.place, [row.column], x) && Covers(orig.place, [orig.column], x))
  {
    assert |f.picked| == 1 ==> f.picked == [f.picked[0]];
    assert i < NewCount(f);
    assert f.picked[i] in f.picked;
  }

  /** Saving on the original's own reach makes one write, on that row: the form's settings, and
      its end to the millisecond unless the picker was moved; no new row, no row off. */
  lemma SameReachPatches(c: Clock, f: Form, orig: Option<Original>, server: Server)
    requires |server.adds| == NewCount(f)
    ensures var (wrote, said) := SaveSpec(c, f, orig, server);
      if !EditsOriginal(f, orig) then said != Some(NotUpdated) && forall w :: w in wrote ==> !w.Updated?
      else if server.updates then said.None? && |wrote| == 1 && wrote[0].Updated? && HoldsEdit(c, f, orig.value, wrote[0].settings)
      else said == Some(NotUpdated) && wrote == []
  {
  }

  /** The form's settings, and the end it had or the one picked. */
  ghost predicate HoldsEdit(c: Clock, f: Form, orig: Original, s: Settings) {
    if f.end == ExpForm(c, orig.settings.expiresAt)
    then s == Settings(f.full, f.survivesJoin, f.audience, orig.settings.expiresAt)
    else SettingsOf(c, f, s)
  }

  /** The form's own warning is exact: it lists no widening exactly when what Save then writes on
      the original exposes nothing new from any instant on, or has ended by then. */
  lemma WarningExact(c: Clock, f: Form, orig: Original, server: Server, expired: bool, from: int)
    requires |server.adds| == NewCount(f) && EditsOriginal(f, Some(orig)) && server.updates
    ensures var wrote := SaveSpec(c, f, Some(orig), server).0;
      |wrote| == 1 && wrote[0].Updated? &&
      (NoNewExposure(orig.settings, wrote[0].settings, from) <==>
         FormWidens(c, f, Some(orig), expired) == [] ||
         (wrote[0].settings.expiresAt.Some? && wrote[0].settings.expiresAt.value <= from))
    ensures AppliesAgain in FormWidens(c, f, Some(orig), expired) <==>
      Outlasts(Patched(c, f, orig), orig.settings) && (expired || !Holds(orig.settings, c.now))
  {
    WidensExact(orig.settings, Patched(c, f, orig), expired, c.now, from);
    WordsMean(orig.settings, Patched(c, f, orig), expired, c.now);
  }

  // ---- When Save is open ----

  /** Save is open exactly when the target is filled from the catalog, does not name the
      original's column among others, a wide one is confirmed unless it is the original's, the
      audience is named, an end to be written is from today on, and there is a reason. */
  lemma SaveOpenIff(c: Clock, f: Form, orig: Option<Original>)
    ensures WhyNot(c, f, orig).None? <==>
      && Filled(f.place, f.picked) && (f.place.scope.Column? ==> !f.gone)
      && (orig.Some? && f.place == orig.value.place && f.place.scope.Column? && orig.value.column in f.picked ==> |f.picked| == 1)
      && (!EditsOriginal(f, orig) ==>
            (f.place.scope.Database? || f.place.scope.Server? ==> f.confirmed) && (f.place.scope.Fleet? ==> f.typed))
      && f.audience != Team("")
      && ((EditsOriginal(f, orig) && f.end == ExpForm(c, orig.value.settings.expiresAt)) || FromToday(c, f.end))
      && (exists ch :: ch in f.reason && !IsSpace(ch))
  {
    FromTodayIs(c, f.end);
  }

  /** The reason that Save names is a true one. */
  lemma WhyIsTrue(c: Clock, f: Form, orig: Option<Original>)
    ensures match WhyNot(c, f, orig)
      case None => true
      case Some(Pick(AServer)) => f.place.conn == "" && !f.place.scope.Fleet?
      case Some(Pick(ADatabase)) => f.place.db == "" && !f.place.scope.Fleet? && !f.place.scope.Server?
      case Some(Pick(ASchema)) => f.place.schema == "" && NeedsSchema(f.place.scope)
      case Some(Pick(ATable)) => f.place.table == "" && NeedsTable(f.place.scope)
      case Some(Pick(AColumn)) => f.picked == [] && f.place.scope.Column?
      case Some(NotInCatalog) => f.gone
      case Some(RemoveOriginal) => orig.Some? && orig.value.column in f.picked && |f.picked| > 1
      case Some(Confirm) => !f.confirmed
      case Some(TypePhrase) => !f.typed
      case Some(PickTeam) => f.audience == Team("")
      case Some(PickEnd) => !FromToday(c, f.end)
      case Some(WriteReason) => Blank(f.reason)
  {
    FromTodayIs(c, f.end);
  }
}
