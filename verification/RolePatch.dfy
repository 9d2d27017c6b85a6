/** Editing a role: the form (qh-admin-roles.jsx), the partial PATCH it sends
    (qh-admin-data.jsx), and the server's reading of it (routes_admin.py). */
module RolePatch {
  import opened Options
  import opened AccessBox
  import opened Expiry
  import opened Text

  datatype Role = Approver | Granter | Importer | Admin

  /** A role row. Absent and empty texts both mean "none"; `until` is an instant. */
  datatype RoleRow = RoleRow(role: Role, team: Option<string>, target: Option<string>, maxTier: Option<Tier>, until: Option<int>, reason: Option<string>)

  /** `x || null` */
  function OrNull(x: Option<string>): Option<string> { if x == Some("") then None else x }

  function OrEmpty(x: Option<string>): string { if x.Some? then x.value else "" }

  /** `(iso || '').slice(0, 10)`: the day of an instant's UTC text. */
  function UtcDay(end: Option<int>): Option<int> { if end.Some? then Some(end.value / DAY) else None }

  datatype Body = Body(role: Option<Role>,
                       scopeTeamId: Option<string>, scopeTeamAll: bool,
                       scopeTargetId: Option<string>, scopeTargetAll: bool,
                       maxTier: Option<Tier>, clearMaxTier: bool,
                       validUntil: Option<int>, clearValidUntil: bool,
                       reason: Option<string>)

  const NOTHING := Body(None, None, false, None, false, None, false, None, false, None)

  function TextPatch(r: Option<string>, was: Option<string>): (Option<string>, bool) {
    if OrNull(r) == OrNull(was) then (None, false) else if OrNull(r).Some? then (r, false) else (None, true)
  }

  function TierPatch(r: Option<Tier>, was: Option<Tier>): (Option<Tier>, bool) {
    if r == was then (None, false) else (r, r.None?)
  }

  function EndPatch(r: Option<int>, was: Option<int>): (Option<int>, bool) {
    if UtcDay(r) == UtcDay(was) then (None, false) else (r, r.None?)
  }

  /** What the editor sends for the row `r` over the row `was`. */
  function PatchOf(r: RoleRow, was: RoleRow): Body {
    var (team, teamAll) := TextPatch(r.team, was.team);
    var (target, targetAll) := TextPatch(r.target, was.target);
    var (tier, noTier) := TierPatch(r.maxTier, was.maxTier);
    var (end, noEnd) := EndPatch(r.until, was.until);
    Body(if r.role == was.role then None else Some(r.role), team, teamAll, target, targetAll, tier, noTier, end, noEnd,
         if OrNull(r.reason) == OrNull(was.reason) then None else Some(OrEmpty(r.reason)))
  }

  method UpdateRole(r: RoleRow, was: RoleRow) returns (body: Body)
    ensures body == PatchOf(r, was)
  {
    body := NOTHING;
    if r.role != was.role { body := body.(role := Some(r.role)); }
    body := SetScope(body, r, was);
    body := SetLimits(body, r, was);
    if OrNull(r.reason) != OrNull(was.reason) { body := body.(reason := Some(OrEmpty(r.reason))); }
  }

  method SetScope(empty: Body, r: RoleRow, was: RoleRow) returns (body: Body)
    requires empty == NOTHING.(role := empty.role)
    ensures var (team, teamAll) := TextPatch(r.team, was.team);
      var (target, targetAll) := TextPatch(r.target, was.target);
      body == empty.(scopeTeamId := team, scopeTeamAll := teamAll, scopeTargetId := target, scopeTargetAll := targetAll)
  {
    body := empty;
    if OrNull(r.team) != OrNull(was.team) {
      if OrNull(r.team).Some? { body := body.(scopeTeamId := r.team); } else { body := body.(scopeTeamAll := true); }
    }
    if OrNull(r.target) != OrNull(was.target) {
      if OrNull(r.target).Some? { body := body.(scopeTargetId := r.target); } else { body := body.(scopeTargetAll := true); }
    }
  }

  method SetLimits(scoped: Body, r: RoleRow, was: RoleRow) returns (body: Body)
    requires scoped.maxTier.None? && !scoped.clearMaxTier && scoped.validUntil.None? && !scoped.clearValidUntil
    ensures var (tier, noTier) := TierPatch(r.maxTier, was.maxTier);
      var (end, noEnd) := EndPatch(r.until, was.until);
      body == scoped.(maxTier := tier, clearMaxTier := noTier, validUntil := end, clearValidUntil := noEnd)
  {
    body := scoped;
    if r.maxTier != was.maxTier {
      if r.maxTier.Some? { body := body.(maxTier := r.maxTier); } else { body := body.(clearMaxTier := true); }
    }
    if UtcDay(r.until) != UtcDay(was.until) {
      if r.until.Some? { body := body.(validUntil := r.until); } else { body := body.(clearValidUntil := true); }
    }
  }

  /** The row a body asks for: a field that is sent is set, one left out is kept, a flag
      clears; and a row that becomes an admin row drops the ceiling it had. */
  function ApplyBody(b: Body, held: RoleRow): RoleRow {
    var role := if b.role.Some? then b.role.value else held.role;
    RoleRow(role,
            if b.scopeTeamAll then None else if b.scopeTeamId.Some? then b.scopeTeamId else held.team,
            if b.scopeTargetAll then None else if b.scopeTargetId.Some? then b.scopeTargetId else held.target,
            if b.clearMaxTier then None else if b.maxTier.Some? then b.maxTier
            else if role.Admin? && !held.role.Admin? then None else held.maxTier,
            if b.clearValidUntil then None else if b.validUntil.Some? then b.validUntil else held.until,
            if b.reason.Some? then b.reason else held.reason)
  }

  predicate TierApplies(role: Role) { role.Approver? || role.Admin? }

  predicate ApproverTier(t: Option<Tier>) { t == Some(RO) || t == Some(RW) }

  /** What the tables hold: no scope on an admin row, a ceiling only where one is read. */
  predicate Stored(r: RoleRow) {
    && (r.role.Admin? ==> OrNull(r.team).None? && OrNull(r.target).None?)
    && (r.maxTier.Some? ==> TierApplies(r.role))
  }

  /** What the server takes: of those, no importer, and no approver without a ceiling of
      read or write. */
  predicate Legal(r: RoleRow) {
    !r.role.Importer? && Stored(r) && (r.role.Approver? ==> ApproverTier(r.maxTier))
  }

  /** The server's answer to an edit: the new row, or a refusal. */
  function Served(b: Body, held: RoleRow): Option<RoleRow> {
    if Legal(ApplyBody(b, held)) then Some(ApplyBody(b, held)) else None
  }

  /** The row in force after the answer. */
  function RowAfter(b: Body, held: RoleRow): RoleRow {
    if Served(b, held).Some? then Served(b, held).value else held
  }

  /** The same row, up to empty or absent texts and the moment within the end's day. */
  predicate SameRow(a: RoleRow, b: RoleRow) {
    && a.role == b.role && OrNull(a.team) == OrNull(b.team) && OrNull(a.target) == OrNull(b.target)
    && a.maxTier == b.maxTier && UtcDay(a.until) == UtcDay(b.until) && OrNull(a.reason) == OrNull(b.reason)
  }

  /** The server takes an edit and holds the edited row exactly when that row is one it
      takes and is not an admin row that was none before and is meant to keep its ceiling. */
  lemma PatchInvertsApplyIff(r: RoleRow, was: RoleRow)
    ensures var got := Served(PatchOf(r, was), was);
      (got.Some? && SameRow(got.value, r)) <==>
        Legal(r) && !(r.role.Admin? && !was.role.Admin? && r.maxTier.Some? && r.maxTier == was.maxTier)
  {
  }

  /** What was not edited stays to the letter, whatever the answer: the stored end keeps its
      moment. */
  lemma UneditedKept(r: RoleRow, was: RoleRow)
    ensures var got := RowAfter(PatchOf(r, was), was);
      && (OrNull(r.team) == OrNull(was.team) ==> got.team == was.team)
      && (OrNull(r.target) == OrNull(was.target) ==> got.target == was.target)
      && (UtcDay(r.until) == UtcDay(was.until) ==> got.until == was.until)
      && (OrNull(r.reason) == OrNull(was.reason) ==> got.reason == was.reason)
    ensures RowAfter(NOTHING, was) == was
  {
  }

  // ---- The changes shown ----

  datatype Field = RoleField | TeamField | TargetField | TierField | EndField | ReasonField

  datatype Change = Change(field: Field, widens: bool)

  predicate TierUp(a: Option<Tier>, b: Option<Tier>) { b.None? || (a.Some? && Rank(b.value) > Rank(a.value)) }

  predicate EndUp(a: Option<int>, b: Option<int>) { b.None? || (a.Some? && b.value > a.value) }

  predicate Changed(a: RoleRow, b: RoleRow, f: Field) {
    match f
    case RoleField => a.role != b.role
    case TeamField => OrEmpty(a.team) != OrEmpty(b.team)
    case TargetField => OrEmpty(a.target) != OrEmpty(b.target)
    case TierField => a.maxTier != b.maxTier
    case EndField => UtcDay(a.until) != UtcDay(b.until)
    case ReasonField => OrEmpty(a.reason) != OrEmpty(b.reason)
  }

  predicate Flagged(a: RoleRow, b: RoleRow, f: Field) {
    match f
    case RoleField => b.role.Admin?
    case TeamField => OrEmpty(b.team) == ""
    case TargetField => OrEmpty(b.target) == ""
    case TierField => TierUp(a.maxTier, b.maxTier)
    case EndField => EndUp(a.until, b.until)
    case ReasonField => false
  }

  function Note(a: RoleRow, b: RoleRow, f: Field): seq<Change> {
    if Changed(a, b, f) then [Change(f, Flagged(a, b, f))] else []
  }

  function ChangesOf(a: RoleRow, b: RoleRow): seq<Change> {
    Note(a, b, RoleField) + Note(a, b, TeamField) + Note(a, b, TargetField)
    + Note(a, b, TierField) + Note(a, b, EndField) + Note(a, b, ReasonField)
  }

  method Push(out: seq<Change>, a: RoleRow, b: RoleRow, f: Field) returns (r: seq<Change>)
    ensures r == out + Note(a, b, f)
  {
    r := out;
    if Changed(a, b, f) { r := r + [Change(f, Flagged(a, b, f))]; }
  }

  method RolChanges(a: RoleRow, b: RoleRow) returns (out: seq<Change>)
    ensures out == ChangesOf(a, b)
  {
    out := Push([], a, b, RoleField);
    out := Push(out, a, b, TeamField);
    out := Push(out, a, b, TargetField);
    out := Push(out, a, b, TierField);
    out := Push(out, a, b, EndField);
    out := Push(out, a, b, ReasonField);
  }

  predicate Shows(cs: seq<Change>, f: Field) { exists c :: c in cs && c.field == f }

  predicate Sends(b: Body, f: Field) {
    match f
    case RoleField => b.role.Some?
    case TeamField => b.scopeTeamId.Some? || b.scopeTeamAll
    case TargetField => b.scopeTargetId.Some? || b.scopeTargetAll
    case TierField => b.maxTier.Some? || b.clearMaxTier
    case EndField => b.validUntil.Some? || b.clearValidUntil
    case ReasonField => b.reason.Some?
  }

  lemma NoteShows(a: RoleRow, b: RoleRow, note: Field, f: Field)
    ensures Shows(Note(a, b, note), f) <==> Changed(a, b, f) && f == note
  {
    assert Changed(a, b, note) ==> Change(note, Flagged(a, b, note)) in Note(a, b, note);
  }

  lemma ShowsAppend(a: seq<Change>, b: seq<Change>, c: seq<Change>, f: Field)
    ensures Shows(a + b + c, f) <==> Shows(a, f) || Shows(b, f) || Shows(c, f)
  {
  }

  lemma ShowsAre(a: RoleRow, b: RoleRow, f: Field)
    ensures Shows(ChangesOf(a, b), f) <==> Changed(a, b, f)
  {
    var c1, c2, c3 := Note(a, b, RoleField), Note(a, b, TeamField), Note(a, b, TargetField);
    var c4, c5, c6 := Note(a, b, TierField), Note(a, b, EndField), Note(a, b, ReasonField);
    NoteShows(a, b, RoleField, f);
    NoteShows(a, b, TeamField, f);
    NoteShows(a, b, TargetField, f);
    NoteShows(a, b, TierField, f);
    NoteShows(a, b, EndField, f);
    NoteShows(a, b, ReasonField, f);
    ShowsAppend(c1, c2, c3, f);
    ShowsAppend(c1 + c2 + c3, c4, c5, f);
    ShowsAppend(c1 + c2 + c3 + c4 + c5, c6, [], f);
    assert c1 + c2 + c3 + c4 + c5 + c6 + [] == c1 + c2 + c3 + c4 + c5 + c6;
  }

  lemma EmptyShows(cs: seq<Change>)
    ensures cs == [] <==> forall f :: !Shows(cs, f)
  {
    if cs != [] { assert cs[0] in cs && Shows(cs, cs[0].field); }
  }

  /** The changes named on the form are exactly the fields sent: Save is offered exactly
      when something is sent. */
  lemma ShownIsSent(a: RoleRow, b: RoleRow)
    ensures forall f :: Shows(ChangesOf(a, b), f) <==> Sends(PatchOf(b, a), f)
    ensures ChangesOf(a, b) == [] <==> PatchOf(b, a) == NOTHING
  {
    forall f ensures Shows(ChangesOf(a, b), f) <==> Sends(PatchOf(b, a), f) { ShowsAre(a, b, f); }
    EmptyShows(ChangesOf(a, b));
  }

  // ---- What the widening flag means ----

  predicate Widens(cs: seq<Change>) { exists c :: c in cs && c.widens }

  /** What a role is said to allow: an admin has every kind, and every database besides. */
  datatype Kind = Approving | Granting | Importing | Reaching

  predicate Does(role: Role, k: Kind) {
    match role
    case Approver => k.Approving?
    case Granter => k.Granting?
    case Importer => k.Importing?
    case Admin => true
  }

  /** What a role row covers, as its sentence on screen says: which kind of act, for whose
      requests, where, up to which tier, and when. */
  predicate Covers(r: RoleRow, k: Kind, team: string, target: string, tier: Tier, at: int) {
    && Does(r.role, k)
    && (OrNull(r.team).None? || r.team == Some(team))
    && (OrNull(r.target).None? || r.target == Some(target))
    && (r.maxTier.None? || Rank(tier) <= Rank(r.maxTier.value))
    && Live(r, at)
  }

  predicate Live(r: RoleRow, at: int) { r.until.None? || at < r.until.value }

  /** A scope moved from one team or connection to another. */
  predicate Sideways(a: Option<string>, b: Option<string>) {
    OrNull(a).Some? && OrNull(b).Some? && a != b
  }

  /** A role changed for another that is neither above nor below it. */
  predicate RoleSideways(a: Role, b: Role) { a != b && !a.Admin? && !b.Admin? }

  lemma ShownChange(a: RoleRow, b: RoleRow, f: Field)
    requires Changed(a, b, f)
    ensures Change(f, Flagged(a, b, f)) in ChangesOf(a, b)
  {
    ShowsAre(a, b, f);
    var c :| c in ChangesOf(a, b) && c.field == f;
    ChangeSays(a, b, c);
  }

  lemma ChangeSays(a: RoleRow, b: RoleRow, c: Change)
    requires c in ChangesOf(a, b)
    ensures Changed(a, b, c.field) && c.widens == Flagged(a, b, c.field)
  {
  }

  function OtherThan(x: Option<string>): string { if x.Some? then x.value + "x" else "x" }

  /** A point the row covers, outside one scope when it can be. */
  function Inside(x: Option<string>, avoid: Option<string>): string {
    if OrNull(x).Some? then x.value else OtherThan(avoid)
  }

  function EndPoint(x: Option<int>, avoid: Option<int>): int {
    if x.None? then (if avoid.Some? then avoid.value else 0)
    else if avoid.Some? && avoid.value < x.value then avoid.value else x.value - 1
  }

  function TierPoint(x: Option<Tier>): Tier { if x.None? then DDL else x.value }

  function KindOf(role: Role, avoid: Role): Kind {
    match role
    case Approver => Approving
    case Granter => Granting
    case Importer => Importing
    case Admin => if avoid.Admin? then Approving else Reaching
  }

  /** The warning the form gives, leaving out that a schema ceiling is lifted: up to schema
      is already every tier. */
  predicate WidensBeyondSchema(a: RoleRow, b: RoleRow) {
    exists c :: c in ChangesOf(a, b) && c.widens && !(c.field.TierField? && a.maxTier == Some(DDL))
  }

  /** For every edit: the row in force afterwards says more than the one before exactly when
      the server took it, and the form warned of more than a lifted schema ceiling, or the
      role or a scope moved sideways, of which the form does not warn. */
  lemma WidensOrSideways(a: RoleRow, b: RoleRow)
    ensures var got := RowAfter(PatchOf(b, a), a);
      (exists k, team, target, tier, at :: Covers(got, k, team, target, tier, at) && !Covers(a, k, team, target, tier, at))
      <==> Served(PatchOf(b, a), a).Some?
           && (WidensBeyondSchema(a, b) || RoleSideways(a.role, b.role) || Sideways(a.team, b.team) || Sideways(a.target, b.target))
  {
    var got := RowAfter(PatchOf(b, a), a);
    if Served(PatchOf(b, a), a).Some? {
      if WidensBeyondSchema(a, b) || RoleSideways(a.role, b.role) || Sideways(a.team, b.team) || Sideways(a.target, b.target) {
        NewPoint(a, b);
      } else {
        NoNewPoint(a, b);
      }
    }
  }

  lemma NewPoint(a: RoleRow, b: RoleRow)
    requires Served(PatchOf(b, a), a).Some?
    requires WidensBeyondSchema(a, b) || RoleSideways(a.role, b.role) || Sideways(a.team, b.team) || Sideways(a.target, b.target)
    ensures var got := RowAfter(PatchOf(b, a), a);
      var k, team, target := KindOf(got.role, a.role), Inside(got.team, a.team), Inside(got.target, a.target);
      var tier, at := TierPoint(got.maxTier), EndPoint(got.until, a.until);
      Covers(got, k, team, target, tier, at) && !Covers(a, k, team, target, tier, at)
  {
    if WidensBeyondSchema(a, b) {
      var c :| c in ChangesOf(a, b) && c.widens && !(c.field.TierField? && a.maxTier == Some(DDL));
      ChangeSays(a, b, c);
    }
  }

  lemma NoNewPoint(a: RoleRow, b: RoleRow)
    requires Served(PatchOf(b, a), a).Some? && !WidensBeyondSchema(a, b)
    requires !RoleSideways(a.role, b.role) && !Sideways(a.team, b.team) && !Sideways(a.target, b.target)
    ensures var got := RowAfter(PatchOf(b, a), a);
      forall k, team, target, tier, at :: Covers(got, k, team, target, tier, at) ==> Covers(a, k, team, target, tier, at)
  {
    forall f | Changed(a, b, f) && !(f.TierField? && a.maxTier == Some(DDL)) ensures !Flagged(a, b, f) {
      ShownChange(a, b, f);
    }
    assert !(Changed(a, b, RoleField) && Flagged(a, b, RoleField));
    assert !(Changed(a, b, TeamField) && Flagged(a, b, TeamField));
    assert !(Changed(a, b, TargetField) && Flagged(a, b, TargetField));
    assert a.maxTier == Some(DDL) || !(Changed(a, b, TierField) && Flagged(a, b, TierField));
    assert !(Changed(a, b, EndField) && Flagged(a, b, EndField));
  }

  // ---- What the server lets a role do ----

  /** What the server checks a live role for. */
  datatype Ability = Approve(team: string, target: string, tier: Tier) | Grant | Administer | Supervise

  /** An approver's scope and ceiling limit what it approves; a granter's scope limits
      nothing; an admin may grant only without a ceiling, and is a super-admin when it has
      no end either. Nothing reads an importer row. */
  predicate Allows(r: RoleRow, x: Ability, at: int) {
    Live(r, at) &&
    match x
    case Approve(team, target, tier) =>
      && TierApplies(r.role)
      && (OrNull(r.team).None? || r.team == Some(team))
      && (OrNull(r.target).None? || r.target == Some(target))
      && (r.maxTier.None? || Rank(tier) <= Rank(r.maxTier.value))
    case Grant => r.role.Granter? || (r.role.Admin? && r.maxTier.None?)
    case Administer => r.role.Admin?
    case Supervise => r.role.Admin? && r.maxTier.None? && r.until.None?
  }

  /** Scopes are read on an approver row alone. */
  predicate ScopeRead(a: RoleRow, b: RoleRow) { a.role.Approver? && b.role.Approver? }

  predicate WidensWhatIsRead(a: RoleRow, b: RoleRow) {
    exists c :: c in ChangesOf(a, b) && c.widens && (c.field.TeamField? || c.field.TargetField? ==> ScopeRead(a, b))
  }

  function NewAbility(got: RoleRow, a: RoleRow): Ability {
    if got.role.Granter? then Grant
    else if got.role.Admin? && !a.role.Admin? then Administer
    else if got.role.Admin? && got.maxTier.None? && a.maxTier.Some? then Grant
    else Approve(Inside(got.team, a.team), Inside(got.target, a.target), TierPoint(got.maxTier))
  }

  /** For every edit of a stored row: the server lets its holder do something new exactly when
      it took the edit, and the form warned of a field that the server reads, or the role, or
      an approver's scope, moved sideways. */
  lemma WidensAtServer(a: RoleRow, b: RoleRow)
    requires Stored(a)
    ensures var got := RowAfter(PatchOf(b, a), a);
      (exists x, at :: Allows(got, x, at) && !Allows(a, x, at))
      <==> Served(PatchOf(b, a), a).Some?
           && (WidensWhatIsRead(a, b) || RoleSideways(a.role, b.role)
               || (ScopeRead(a, b) && (Sideways(a.team, b.team) || Sideways(a.target, b.target))))
  {
    var got := RowAfter(PatchOf(b, a), a);
    if Served(PatchOf(b, a), a).Some? {
      if WidensWhatIsRead(a, b) || RoleSideways(a.role, b.role)
         || (ScopeRead(a, b) && (Sideways(a.team, b.team) || Sideways(a.target, b.target))) {
        AllowsNew(a, b);
        assert Allows(got, NewAbility(got, a), EndPoint(got.until, a.until));
      } else {
        AllowsNoNew(a, b);
      }
    }
  }

  lemma AllowsNew(a: RoleRow, b: RoleRow)
    requires Stored(a) && Served(PatchOf(b, a), a).Some?
    requires WidensWhatIsRead(a, b) || RoleSideways(a.role, b.role)
      || (ScopeRead(a, b) && (Sideways(a.team, b.team) || Sideways(a.target, b.target)))
    ensures var got := RowAfter(PatchOf(b, a), a);
      Allows(got, NewAbility(got, a), EndPoint(got.until, a.until)) && !Allows(a, NewAbility(got, a), EndPoint(got.until, a.until))
  {
    if WidensWhatIsRead(a, b) {
      var c :| c in ChangesOf(a, b) && c.widens && (c.field.TeamField? || c.field.TargetField? ==> ScopeRead(a, b));
      ChangeSays(a, b, c);
    }
  }

  lemma AllowsNoNew(a: RoleRow, b: RoleRow)
    requires Stored(a) && Served(PatchOf(b, a), a).Some?
    requires !WidensWhatIsRead(a, b) && !RoleSideways(a.role, b.role)
    requires ScopeRead(a, b) ==> !Sideways(a.team, b.team) && !Sideways(a.target, b.target)
    ensures var got := RowAfter(PatchOf(b, a), a);
      forall x, at :: Allows(got, x, at) ==> Allows(a, x, at)
  {
    forall f | Changed(a, b, f) && (f.TeamField? || f.TargetField? ==> ScopeRead(a, b)) ensures !Flagged(a, b, f) {
      ShownChange(a, b, f);
    }
    assert !(Changed(a, b, RoleField) && Flagged(a, b, RoleField));
    assert ScopeRead(a, b) ==> !(Changed(a, b, TeamField) && Flagged(a, b, TeamField));
    assert ScopeRead(a, b) ==> !(Changed(a, b, TargetField) && Flagged(a, b, TargetField));
    assert !(Changed(a, b, TierField) && Flagged(a, b, TierField));
    assert !(Changed(a, b, EndField) && Flagged(a, b, EndField));
  }

  // ---- The form ----

  datatype Form = Form(subject: string, role: Role, team: string, target: string, maxTier: Option<Tier>, end: Pick, reason: string)

  predicate TierOn(f: Form) { TierApplies(f.role) && !f.role.Admin? }

  function OpenForm(c: Clock, subject: string, init: RoleRow): Form {
    Form(subject, init.role, OrEmpty(init.team), OrEmpty(init.target),
         if ApproverTier(init.maxTier) then init.maxTier else None, ExpForm(c, init.until), OrEmpty(init.reason))
  }

  predicate Bad(c: Clock, f: Form) {
    Blank(f.subject) || ExpBad(c, f.end) || (TierOn(f) && !ApproverTier(f.maxTier))
  }

  function NextRow(c: Clock, f: Form): RoleRow
    requires !f.end.Keep?
  {
    RoleRow(f.role,
            if f.role.Admin? then None else OrNull(Some(f.team)),
            if f.role.Admin? then None else OrNull(Some(f.target)),
            if TierOn(f) then f.maxTier else None,
            ExpIso(c, f.end, None, None), OrNull(Some(Trim(f.reason))))
  }

  /** Save is offered. */
  predicate CanSave(c: Clock, f: Form, init: RoleRow)
    requires !f.end.Keep?
  {
    !Bad(c, f) && ChangesOf(init, NextRow(c, f)) != []
  }

  /** Save is offered exactly when something is sent. The server takes what an unblocked form
      sends exactly when the role is not importer, and the row it then holds is the form's. */
  lemma SaveWritesTheForm(c: Clock, f: Form, init: RoleRow)
    requires !f.end.Keep? && !Bad(c, f)
    ensures var body := PatchOf(NextRow(c, f), init);
      && (CanSave(c, f, init) <==> body != NOTHING)
      && (Served(body, init).Some? <==> !f.role.Importer?)
      && (Served(body, init).Some? ==> SameRow(Served(body, init).value, NextRow(c, f)))
  {
    ShownIsSent(init, NextRow(c, f));
    PatchInvertsApplyIff(NextRow(c, f), init);
  }

  /** Save is offered exactly when a person is named, the end is from today on, an approver has
      a ceiling of read or write, and some field reads otherwise than in the stored row. */
  lemma SaveOfferedIff(c: Clock, f: Form, init: RoleRow)
    requires !f.end.Keep?
    ensures CanSave(c, f, init) <==>
      && (exists ch :: ch in f.subject && !IsSpace(ch)) && FromToday(c, f.end)
      && (f.role.Approver? ==> f.maxTier == Some(RO) || f.maxTier == Some(RW))
      && exists field :: Changed(init, NextRow(c, f), field)
  {
    FromTodayIs(c, f.end);
    EmptyShows(ChangesOf(init, NextRow(c, f)));
    forall field ensures Shows(ChangesOf(init, NextRow(c, f)), field) <==> Changed(init, NextRow(c, f), field) {
      ShowsAre(init, NextRow(c, f), field);
    }
  }

  /** What the form stands for: an admin row has no scope, only an approver's has a ceiling, and
      it lasts as long as the pick says. */
  lemma FormRow(c: Clock, f: Form, at: int)
    requires !f.end.Keep?
    ensures var r := NextRow(c, f);
      && r.role == f.role && OrEmpty(r.reason) == Trim(f.reason)
      && OrEmpty(r.team) == (if f.role.Admin? then "" else f.team)
      && OrEmpty(r.target) == (if f.role.Admin? then "" else f.target)
      && r.maxTier == (if f.role.Approver? then f.maxTier else None)
      && ((r.until.Some? ==> at < r.until.value) <==> LastsAt(c, f.end, at))
  {
    EndLasts(c, f.end, at);
  }

  /** The form offers the role that the server refuses. */
  lemma ImporterRefused(c: Clock)
    ensures var init := RoleRow(Granter, None, None, None, None, None);
      var f := OpenForm(c, "clara", init).(role := Importer);
      CanSave(c, f, init) && Served(PatchOf(NextRow(c, f), init), init) == None
  {
    var init := RoleRow(Granter, None, None, None, None, None);
    var f := OpenForm(c, "clara", init).(role := Importer);
    assert 'c' in "clara";
    ShownChange(init, NextRow(c, f), RoleField);
  }

  /** An admin row with a schema ceiling, opened and saved untouched: the form warns and the
      server takes it. The row's sentence covers nothing more, but its holder may now grant
      access, and is a super-admin. */
  lemma UntouchedAdminLosesCeiling(c: Clock)
    ensures var init := RoleRow(Admin, None, None, Some(DDL), None, None);
      var next := NextRow(c, OpenForm(c, "clara", init));
      var got := Served(PatchOf(next, init), init);
      && CanSave(c, OpenForm(c, "clara", init), init) && Widens(ChangesOf(init, next))
      && got == Some(init.(maxTier := None))
      && (forall k, team, target, tier, at :: Covers(got.value, k, team, target, tier, at) ==> Covers(init, k, team, target, tier, at))
      && (forall at :: Allows(got.value, Supervise, at) && Allows(got.value, Grant, at) && !Allows(init, Supervise, at) && !Allows(init, Grant, at))
  {
    var init := RoleRow(Admin, None, None, Some(DDL), None, None);
    var next := NextRow(c, OpenForm(c, "clara", init));
    assert 'c' in "clara";
    ShownChange(init, next, TierField);
  }

  /** A granter made an approver: something new to do, and no warning. */
  lemma RoleMoveNotWarned(c: Clock)
    ensures var init := RoleRow(Granter, None, None, None, None, None);
      var next := NextRow(c, OpenForm(c, "clara", init).(role := Approver, maxTier := Some(RW)));
      var got := Served(PatchOf(next, init), init);
      && got.Some? && !Widens(ChangesOf(init, next))
      && Allows(got.value, Approve("payments", "main", RW), 0) && !Allows(init, Approve("payments", "main", RW), 0)
  {
    var init := RoleRow(Granter, None, None, None, None, None);
    var next := NextRow(c, OpenForm(c, "clara", init).(role := Approver, maxTier := Some(RW)));
    forall ch | ch in ChangesOf(init, next) ensures !ch.widens { ChangeSays(init, next, ch); }
  }

  lemma DivShift(q: int, r: int)
    ensures (q * DAY + r) / DAY == q + r / DAY
  {
    assert r == (r / DAY) * DAY + r % DAY;
    assert q * DAY + r == (q + r / DAY) * DAY + r % DAY;
    DivMod(q + r / DAY, r % DAY);
  }

  /** The field reads the same after opening and closing the form. */
  predicate Keeps(c: Clock, init: RoleRow, f: Field) {
    match f
    case RoleField => true
    case TeamField => init.role.Admin? ==> OrNull(init.team).None?
    case TargetField => init.role.Admin? ==> OrNull(init.target).None?
    case TierField => init.maxTier.None? || (init.role.Approver? && ApproverTier(init.maxTier))
    case EndField => init.until.Some? ==> (TimeOfDay(c, init.until.value) - c.zone) / DAY == (LAST_SECOND - c.zone) / DAY
    case ReasonField => Trim(OrEmpty(init.reason)) == OrEmpty(init.reason)
  }

  lemma UntouchedField(c: Clock, subject: string, init: RoleRow, f: Field)
    ensures Changed(init, NextRow(c, OpenForm(c, subject, init)), f) <==> !Keeps(c, init, f)
  {
    if f.EndField? && init.until.Some? {
      var day := LocalDay(c, init.until.value);
      DivShift(day, TimeOfDay(c, init.until.value) - c.zone);
      DivShift(day, LAST_SECOND - c.zone);
      assert init.until.value + c.zone == day * DAY + TimeOfDay(c, init.until.value);
    }
  }

  /** A form opened on any row, and not touched, names no change exactly when an admin row
      has no scope, a ceiling is an approver's read or write, the reason has no outer blanks,
      and the end, if any, is on one UTC day with the last second of its local day: the days
      compared are UTC days, and the day opened is a local one. */
  lemma UntouchedIsCleanIff(c: Clock, subject: string, init: RoleRow)
    ensures ChangesOf(init, NextRow(c, OpenForm(c, subject, init))) == [] <==> forall f :: Keeps(c, init, f)
  {
    var next := NextRow(c, OpenForm(c, subject, init));
    forall f ensures Shows(ChangesOf(init, next), f) <==> !Keeps(c, init, f) {
      ShowsAre(init, next, f);
      UntouchedField(c, subject, init, f);
    }
    EmptyShows(ChangesOf(init, next));
  }

  /** Three hours east of UTC, an end at one in the morning local time shows as changed on
      an untouched form. */
  lemma UntouchedEndShown()
    ensures var c := Clock(0, 3 * 3600000);
      var init := RoleRow(Granter, None, None, None, Some(5 * DAY - 2 * 3600000), None);
      Legal(init) && ChangesOf(init, NextRow(c, OpenForm(c, "clara", init))) == [Change(EndField, true)]
  {
    var c := Clock(0, 3 * 3600000);
    var init := RoleRow(Granter, None, None, None, Some(5 * DAY - 2 * 3600000), None);
    DivMod(5, 3600000);
    assert LocalDay(c, init.until.value) == 5;
  }
}
