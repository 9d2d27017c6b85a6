/** The editor / admin-panel address: the view effect of the app (qh-app.jsx) and the
    section effect of the panel (qh-admin.jsx) both write the same browser history. */
module HashHistory {
  import opened Options

  datatype Section = Approvals | Kill | Effective | Grants | Auto | Scopes | Teams | Roles | Mask | Conns | Audit | Metrics | Feedback | Config

  datatype Level = Basic | Dba | Super

  datatype View = Dev | Admin

  /** A page address by what the code reads of it: no '#admin' prefix; '#admin/<section>'
      with an optional '?...' part (0 is none); or another '#admin...' address, whose
      leading word may still name a section ('#admin/ddl' names the queue). */
  datatype Hash = Editor(text: nat) | At(section: Section, query: nat) | OtherAdmin(names: Option<Section>, text: nat)

  datatype Panel = Panel(nav: Section, navFirst: bool)

  datatype World = World(entries: seq<Hash>, cursor: nat, view: View, viewFirst: bool, panel: Option<Panel>)

  predicate CanOpen(level: Level, s: Section) {
    match s
    case Effective | Conns => level.Dba? || level.Super?
    case Grants | Auto | Scopes | Teams | Mask | Config => level.Super?
    case _ => true
  }

  function CurNav(level: Level, nav: Section): Section { if CanOpen(level, nav) then nav else Approvals }

  predicate InAdmin(h: Hash) { !h.Editor? }

  function NavFromHash(h: Hash): Option<Section> {
    match h case Editor(_) => None case At(s, _) => Some(s) case OtherAdmin(names, _) => names
  }

  predicate Loaded(w: World) { w.cursor < |w.entries| }

  function Here(w: World): Hash
    requires Loaded(w)
  {
    w.entries[w.cursor]
  }

  function Push(w: World, h: Hash): (r: World)
    requires Loaded(w)
    ensures Loaded(r)
  {
    w.(entries := w.entries[..w.cursor + 1] + [h], cursor := w.cursor + 1)
  }

  function Replace(w: World, h: Hash): (r: World)
    requires Loaded(w)
    ensures Loaded(r)
  {
    w.(entries := w.entries[w.cursor := h])
  }

  /** The panel's effect: on mount, and when the shown section changes. */
  function SectionEffect(level: Level, w: World): (r: World)
    requires Loaded(w) && w.panel.Some?
    ensures Loaded(r) && r.panel.Some?
  {
    var p := w.panel.value;
    var s := CurNav(level, p.nav);
    var done := w.(panel := Some(p.(navFirst := false)));
    if Here(w).At? && Here(w).section == s then done
    else if p.navFirst && InAdmin(Here(w)) then Replace(done, At(s, 0))
    else Push(done, At(s, 0))
  }

  /** The app's effect: on load, and when the view changes. */
  function ViewEffect(w: World): (r: World)
    requires Loaded(w)
    ensures Loaded(r)
  {
    var done := w.(viewFirst := false);
    if w.view.Admin? && !InAdmin(Here(w)) then Push(done, OtherAdmin(None, 0))
    else if w.view.Dev? && InAdmin(Here(w)) then
      if w.viewFirst then Replace(done, Editor(0)) else Push(done, Editor(0))
    else done
  }

  function Mount(w: World): (r: World)
    requires Loaded(w)
    ensures Loaded(r) && r.panel.Some?
  {
    w.(panel := Some(Panel(match NavFromHash(Here(w)) { case Some(s) => s case None => Approvals }, true)))
  }

  /** A view change: the panel mounts, its effect runs, then the app's. */
  function SetView(level: Level, w: World, view: View): (r: World)
    requires Loaded(w)
    ensures Loaded(r)
  {
    if view == w.view then w
    else if view.Admin? then ViewEffect(SectionEffect(level, Mount(w.(view := Admin))))
    else ViewEffect(w.(view := Dev, panel := None))
  }

  function SetNav(level: Level, w: World, s: Section): (r: World)
    requires Loaded(w) && w.panel.Some?
    ensures Loaded(r)
  {
    var r := w.(panel := Some(w.panel.value.(nav := s)));
    if CurNav(level, s) == CurNav(level, w.panel.value.nav) then r else SectionEffect(level, r)
  }

  function AppHears(level: Level, w: World): (r: World)
    requires Loaded(w)
    ensures Loaded(r)
  {
    SetView(level, w, if InAdmin(Here(w)) then Admin else Dev)
  }

  function PanelHears(level: Level, w: World): (r: World)
    requires Loaded(w)
    ensures Loaded(r)
  {
    match NavFromHash(Here(w))
    case None => w
    case Some(s) => if w.panel.Some? then SetNav(level, w, s) else w
  }

  /** A hashchange event. A panel that the app's listener just mounted does not hear it. */
  function HashChange(level: Level, w: World): (r: World)
    requires Loaded(w)
    ensures Loaded(r)
  {
    var a := AppHears(level, w);
    if w.panel.Some? then PanelHears(level, a) else a
  }

  datatype Move = Enter | Leave | Open(s: Section) | Bell(s: Section) | Follow(h: Hash) | Back | Forward

  function Step(level: Level, w: World, m: Move): (r: World)
    requires Loaded(w)
    ensures Loaded(r)
  {
    match m
    case Enter => SetView(level, w, Admin)
    case Leave => SetView(level, w, Dev)
    case Open(s) => if w.panel.Some? && CanOpen(level, s) then SetNav(level, w, s) else w
    case Bell(s) =>
      if Here(w) == At(s, 0) then SetView(level, w, Admin)
      else HashChange(level, SetView(level, Push(w, At(s, 0)), Admin))
    case Follow(h) => if Here(w) == h then w else HashChange(level, Push(w, h))
    case Back => if w.cursor == 0 then w else Travel(level, w, w.cursor - 1)
    case Forward => if w.cursor + 1 == |w.entries| then w else Travel(level, w, w.cursor + 1)
  }

  function Travel(level: Level, w: World, to: nat): (r: World)
    requires Loaded(w) && to < |w.entries|
    ensures Loaded(r)
  {
    var r := w.(cursor := to);
    if Here(r) == Here(w) then r else HashChange(level, r)
  }

  /** Opening the page on some history; `panelFirst` is React's order (the panel's effect
      before the app's), the other order is a panel that mounts after sign-in. */
  function Load(level: Level, entries: seq<Hash>, cursor: nat, panelFirst: bool): (r: World)
    requires cursor < |entries|
    ensures Loaded(r)
  {
    var w := World(entries, cursor, if InAdmin(entries[cursor]) then Admin else Dev, true, None);
    if w.view.Dev? then ViewEffect(w)
    else if panelFirst then ViewEffect(SectionEffect(level, Mount(w)))
    else SectionEffect(level, Mount(ViewEffect(w)))
  }

  class Navigator {
    const level: Level
    var entries: seq<Hash>
    var cursor: nat
    var view: View
    var viewFirst: bool
    var panel: Option<Panel>

    function State(): World
      reads this
    {
      World(entries, cursor, view, viewFirst, panel)
    }

    constructor (level: Level, history: seq<Hash>, at: nat)
      requires at < |history|
      ensures this.level == level && State() == Load(level, history, at, true)
    {
      this.level := level;
      entries, cursor, viewFirst, panel := history, at, true, None;
      view := if InAdmin(history[at]) then Admin else Dev;
      new;
      if view.Admin? {
        MountPanel();
        RunSectionEffect();
      }
      RunViewEffect();
    }

    method PushState(h: Hash)
      requires Loaded(State())
      modifies this`entries, this`cursor
      ensures State() == Push(old(State()), h)
    {
      entries := entries[..cursor + 1] + [h];
      cursor := cursor + 1;
    }

    method ReplaceState(h: Hash)
      requires Loaded(State())
      modifies this`entries
      ensures State() == Replace(old(State()), h)
    {
      entries := entries[cursor := h];
    }

    method MountPanel()
      requires Loaded(State())
      modifies this`panel
      ensures State() == Mount(old(State()))
    {
      var named := NavFromHash(entries[cursor]);
      panel := Some(Panel(if named.Some? then named.value else Approvals, true));
    }

    method RunSectionEffect()
      requires Loaded(State()) && panel.Some?
      modifies this`entries, this`cursor, this`panel
      ensures State() == SectionEffect(level, old(State()))
    {
      var first := panel.value.navFirst;
      var s := CurNav(level, panel.value.nav);
      var h := entries[cursor];
      panel := Some(panel.value.(navFirst := false));
      if !(h.At? && h.section == s) {
        if first && InAdmin(h) { ReplaceState(At(s, 0)); } else { PushState(At(s, 0)); }
      }
    }

    method RunViewEffect()
      requires Loaded(State())
      modifies this`entries, this`cursor, this`viewFirst
      ensures State() == ViewEffect(old(State()))
    {
      var inAdmin := InAdmin(entries[cursor]);
      var first := viewFirst;
      viewFirst := false;
      if view.Admin? && !inAdmin {
        PushState(OtherAdmin(None, 0));
      } else if view.Dev? && inAdmin {
        if first { ReplaceState(Editor(0)); } else { PushState(Editor(0)); }
      }
    }

    method ChangeView(to: View)
      requires Loaded(State())
      modifies this
      ensures State() == SetView(level, old(State()), to)
    {
      if to != view {
        view := to;
        if to.Admin? {
          MountPanel();
          RunSectionEffect();
        } else {
          panel := None;
        }
        RunViewEffect();
      }
    }

    method ChangeSection(s: Section)
      requires Loaded(State()) && panel.Some?
      modifies this
      ensures State() == SetNav(level, old(State()), s)
    {
      var shown := CurNav(level, panel.value.nav);
      panel := Some(panel.value.(nav := s));
      if CurNav(level, s) != shown { RunSectionEffect(); }
    }

    method OnHash()
      requires Loaded(State())
      modifies this
      ensures State() == HashChange(level, old(State()))
    {
      var mounted := panel.Some?;
      ChangeView(if InAdmin(entries[cursor]) then Admin else Dev);
      if mounted && panel.Some? && NavFromHash(entries[cursor]).Some? {
        ChangeSection(NavFromHash(entries[cursor]).value);
      }
    }

    method OpenSubject(s: Section)
      requires Loaded(State())
      modifies this
      ensures State() == Step(level, old(State()), Bell(s))
    {
      if entries[cursor] == At(s, 0) {
        ChangeView(Admin);
      } else {
        PushState(At(s, 0));
        ChangeView(Admin);
        OnHash();
      }
    }

    method GoBack()
      requires Loaded(State())
      modifies this
      ensures State() == Step(level, old(State()), Back)
    {
      if cursor > 0 {
        var left := entries[cursor];
        cursor := cursor - 1;
        if entries[cursor] != left { OnHash(); }
      }
    }
  }

  // ---- Every reachable state ----

  /** An entry the user may open, written the way the panel writes it. */
  predicate Normal(level: Level, h: Hash) { h.Editor? || (h.At? && CanOpen(level, h.section)) }

  /** What the screen shows. */
  function Shown(level: Level, w: World): Option<Section> {
    if w.panel.Some? then Some(CurNav(level, w.panel.value.nav)) else None
  }

  /** What an entry asks for. */
  function Asked(h: Hash): Option<Section> { if h.At? then Some(h.section) else None }

  /** The screen and the address agree, and nothing is left to normalise. */
  predicate Synced(level: Level, w: World) {
    && Loaded(w) && !w.viewFirst
    && (w.view.Admin? <==> w.panel.Some?)
    && (w.panel.Some? ==> !w.panel.value.navFirst)
    && (w.view.Admin? <==> Here(w).At?)
    && !Here(w).OtherAdmin?
    && Shown(level, w) == Asked(Here(w))
  }

  ghost predicate Inv(level: Level, w: World) {
    Synced(level, w) && forall i :: 0 <= i < |w.entries| ==> Normal(level, w.entries[i])
  }

  /** Opening the page on any address, in either effect order, adds no entry: at most the
      entry under the cursor is rewritten, and screen and address then agree. */
  lemma LoadOnlyReplaces(level: Level, entries: seq<Hash>, cursor: nat, panelFirst: bool)
    requires cursor < |entries|
    ensures var w := Load(level, entries, cursor, panelFirst);
      && Synced(level, w) && w.cursor == cursor
      && w.entries == entries[cursor := Here(w)]
      && (Normal(level, entries[cursor]) ==> w.entries == entries)
      && (w.view.Admin? <==> InAdmin(entries[cursor]))
      && w == Load(level, entries, cursor, !panelFirst)
  {
    assert entries[cursor := entries[cursor]] == entries;
  }

  predicate Allowed(level: Level, m: Move) {
    match m
    case Bell(s) => CanOpen(level, s)
    case Follow(h) => Normal(level, h)
    case _ => true
  }

  predicate IsMove(m: Move) { !m.Back? && !m.Forward? }

  /** Where a move is meant to lead. */
  function Target(level: Level, w: World, m: Move): Hash
    requires Loaded(w)
  {
    match m
    case Enter => if w.view.Dev? then At(Approvals, 0) else Here(w)
    case Leave => if w.view.Admin? then Editor(0) else Here(w)
    case Open(s) => if w.panel.Some? && CanOpen(level, s) && Shown(level, w) != Some(s) then At(s, 0) else Here(w)
    case Bell(s) => At(s, 0)
    case Follow(h) => h
    case Back => if w.cursor == 0 then Here(w) else w.entries[w.cursor - 1]
    case Forward => if w.cursor + 1 == |w.entries| then Here(w) else w.entries[w.cursor + 1]
  }

  predicate Idle(w: World) {
    Loaded(w) && !w.viewFirst && (w.view.Admin? <==> w.panel.Some?) && (w.panel.Some? ==> !w.panel.value.navFirst)
  }

  /** A change of address heard on an openable entry brings the screen there and writes
      nothing. */
  lemma HearingSettles(level: Level, w: World)
    requires Idle(w) && Normal(level, Here(w))
    ensures var r := HashChange(level, w);
      Synced(level, r) && r.entries == w.entries && r.cursor == w.cursor
  {
  }

  lemma PushedNormal(level: Level, entries: seq<Hash>, n: nat, h: Hash)
    requires n <= |entries| && Normal(level, h) && forall i :: 0 <= i < |entries| ==> Normal(level, entries[i])
    ensures forall i :: 0 <= i <= n ==> Normal(level, (entries[..n] + [h])[i])
  {
  }

  lemma BellSettles(level: Level, w: World, s: Section)
    requires Synced(level, w) && CanOpen(level, s)
    ensures var r := Step(level, w, Bell(s));
      && Synced(level, r) && Here(r) == At(s, 0)
      && if Here(w) == At(s, 0) then r.entries == w.entries && r.cursor == w.cursor
         else r.entries == w.entries[..w.cursor + 1] + [At(s, 0)] && r.cursor == w.cursor + 1
  {
    if Here(w) != At(s, 0) {
      var a := BellArrives(level, w, s);
      HearingSettles(level, a);
    }
  }

  lemma BellArrives(level: Level, w: World, s: Section) returns (a: World)
    requires Synced(level, w) && CanOpen(level, s) && Here(w) != At(s, 0)
    ensures Idle(a) && a.entries == Push(w, At(s, 0)).entries && a.cursor == w.cursor + 1
    ensures Step(level, w, Bell(s)) == HashChange(level, a)
  {
    a := SetView(level, Push(w, At(s, 0)), Admin);
    if w.view.Dev? { BellMounts(level, w, s); }
  }

  lemma BellMounts(level: Level, w: World, s: Section)
    requires Synced(level, w) && CanOpen(level, s) && w.view.Dev?
    ensures var pushed := Push(w, At(s, 0));
      SetView(level, pushed, Admin) == pushed.(view := Admin, panel := Some(Panel(s, false)))
  {
  }

  lemma ViewSettles(level: Level, w: World, to: View)
    requires Synced(level, w)
    ensures var r := SetView(level, w, to);
      var h := if to.Admin? then At(Approvals, 0) else Editor(0);
      && Synced(level, r)
      && if to == w.view then r == w else r.entries == w.entries[..w.cursor + 1] + [h] && r.cursor == w.cursor + 1
  {
  }

  lemma MoveSettles(level: Level, w: World, m: Move)
    requires Synced(level, w) && Allowed(level, m) && IsMove(m)
    ensures var r := Step(level, w, m);
      && Synced(level, r)
      && if Target(level, w, m) == Here(w) then r.entries == w.entries && r.cursor == w.cursor
         else r.entries == w.entries[..w.cursor + 1] + [Target(level, w, m)] && r.cursor == w.cursor + 1
  {
    match m
    case Enter => ViewSettles(level, w, Admin);
    case Leave => ViewSettles(level, w, Dev);
    case Open(_) =>
    case Bell(s) => BellSettles(level, w, s);
    case Follow(h) => if h != Here(w) { HearingSettles(level, Push(w, h)); }
  }

  /** A move to another address adds exactly that one entry after the cursor; a move to
      where the page already is adds none. Screen and address agree again. */
  lemma OneEntryPerMove(level: Level, w: World, m: Move)
    requires Inv(level, w) && Allowed(level, m) && IsMove(m)
    ensures var r := Step(level, w, m);
      && Inv(level, r)
      && Here(r) == Target(level, w, m)
      && if Target(level, w, m) == Here(w) then r.entries == w.entries && r.cursor == w.cursor
         else r.entries == w.entries[..w.cursor + 1] + [Target(level, w, m)] && r.cursor == w.cursor + 1
  {
    MoveSettles(level, w, m);
    if Target(level, w, m) != Here(w) {
      PushedNormal(level, w.entries, w.cursor + 1, Target(level, w, m));
    }
  }

  lemma TravelSettles(level: Level, w: World, to: nat)
    requires Synced(level, w) && to < |w.entries| && Normal(level, w.entries[to])
    ensures var r := Travel(level, w, to);
      Synced(level, r) && r.entries == w.entries && r.cursor == to
  {
    if w.entries[to] != Here(w) { HearingSettles(level, w.(cursor := to)); }
  }

  /** Back and Forward write nothing, and the screen follows the entry. */
  lemma TravelWritesNothing(level: Level, w: World, m: Move)
    requires Inv(level, w) && !IsMove(m)
    ensures var r := Step(level, w, m);
      Inv(level, r) && r.entries == w.entries && Here(r) == Target(level, w, m)
    ensures m.Back? && w.cursor > 0 ==> Step(level, w, m).cursor == w.cursor - 1
    ensures m.Forward? && w.cursor + 1 < |w.entries| ==> Step(level, w, m).cursor == w.cursor + 1
  {
    if m.Back? && w.cursor > 0 { TravelKeeps(level, w, w.cursor - 1); }
    if m.Forward? && w.cursor + 1 < |w.entries| { TravelKeeps(level, w, w.cursor + 1); }
  }

  lemma TravelKeeps(level: Level, w: World, to: nat)
    requires Inv(level, w) && to < |w.entries|
    ensures var r := Travel(level, w, to);
      Inv(level, r) && r.entries == w.entries && r.cursor == to
  {
    TravelSettles(level, w, to);
  }

  function Run(level: Level, w: World, ms: seq<Move>): (r: World)
    requires Loaded(w)
    ensures Loaded(r)
    decreases |ms|
  {
    if ms == [] then w else Run(level, Step(level, w, ms[0]), ms[1..])
  }

  // ---- Back undoes exactly the moves made ----

  /** Each of the moves leads somewhere else than where it starts. */
  predicate AllMove(level: Level, w: World, ms: seq<Move>)
    requires Loaded(w)
    decreases |ms|
  {
    ms == [] || (IsMove(ms[0]) && Allowed(level, ms[0]) && Target(level, w, ms[0]) != Here(w) && AllMove(level, Step(level, w, ms[0]), ms[1..]))
  }

  function Repeat(m: Move, k: nat): seq<Move> { seq(k, _ => m) }

  lemma {:induction false} MovesStack(level: Level, w: World, ms: seq<Move>)
    requires Inv(level, w) && AllMove(level, w, ms)
    ensures var r := Run(level, w, ms);
      Inv(level, r) && r.cursor == w.cursor + |ms| && |r.entries| > w.cursor && r.entries[..w.cursor + 1] == w.entries[..w.cursor + 1]
    decreases |ms|
  {
    if ms != [] {
      OneEntryPerMove(level, w, ms[0]);
      var n := Step(level, w, ms[0]);
      MovesStack(level, n, ms[1..]);
      assert n.entries[..n.cursor + 1][..w.cursor + 1] == w.entries[..w.cursor + 1];
      var r := Run(level, n, ms[1..]);
      assert r.entries[..n.cursor + 1][..w.cursor + 1] == r.entries[..w.cursor + 1];
    }
  }

  lemma {:induction false} BacksRewind(level: Level, w: World, k: nat)
    requires Inv(level, w) && k <= w.cursor
    ensures var r := Run(level, w, Repeat(Back, k));
      Inv(level, r) && r.entries == w.entries && r.cursor == w.cursor - k
    decreases k
  {
    if k > 0 {
      TravelWritesNothing(level, w, Back);
      assert Repeat(Back, k)[1..] == Repeat(Back, k - 1);
      BacksRewind(level, Step(level, w, Back), k - 1);
    }
  }

  /** After any moves, as many Backs show the same view and section at the same address,
      with the entries below as they were, and add nothing. */
  lemma BackUndoesMoves(level: Level, w: World, ms: seq<Move>)
    requires Inv(level, w) && AllMove(level, w, ms)
    ensures var far := Run(level, w, ms);
      var r := Run(level, far, Repeat(Back, |ms|));
      && r.entries == far.entries && r.cursor == w.cursor && Here(r) == Here(w)
      && r.entries[..w.cursor + 1] == w.entries[..w.cursor + 1]
      && r.view == w.view && Shown(level, r) == Shown(level, w)
  {
    MovesStack(level, w, ms);
    var far := Run(level, w, ms);
    BacksRewind(level, far, |ms|);
    assert far.entries[..w.cursor + 1][w.cursor] == w.entries[..w.cursor + 1][w.cursor];
  }

  /** Forward after Back is where the move led. */
  lemma ForwardRedoes(level: Level, w: World, m: Move)
    requires Inv(level, w) && AllMove(level, w, [m])
    ensures var r := Step(level, w, m);
      var f := Step(level, Step(level, r, Back), Forward);
      f.entries == r.entries && f.cursor == r.cursor && f.view == r.view && Shown(level, f) == Shown(level, r)
  {
    OneEntryPerMove(level, w, m);
    var r := Step(level, w, m);
    TravelWritesNothing(level, r, Back);
    TravelWritesNothing(level, Step(level, r, Back), Forward);
  }

  // ---- The two orders ----

  /** Entering the panel costs one entry whichever of the two effects runs first. */
  lemma EffectOrderIrrelevant(level: Level, w: World)
    requires Inv(level, w) && w.view.Dev?
    ensures SetView(level, w, Admin) == SectionEffect(level, Mount(ViewEffect(w.(view := Admin))))
    ensures SetView(level, w, Admin).entries == w.entries[..w.cursor + 1] + [At(Approvals, 0)]
  {
    var e := w.entries[..w.cursor + 1];
    assert (e + [OtherAdmin(None, 0)])[w.cursor + 1 := At(Approvals, 0)] == e + [At(Approvals, 0)];
  }

  /** The listeners of the app and of the panel may hear a change in either order. */
  lemma ListenerOrderIrrelevant(level: Level, w: World, to: nat)
    requires Inv(level, w) && w.panel.Some? && to < |w.entries|
    ensures var moved := w.(cursor := to);
      HashChange(level, moved) == AppHears(level, PanelHears(level, moved))
  {
    assert Normal(level, w.entries[to]);
  }

  // ---- A link to a section the user may not open ----

  lemma LockedBellFromEditor(level: Level, w: World, s: Section)
    requires Synced(level, w) && w.view.Dev? && !CanOpen(level, s)
    ensures var r := Step(level, w, Bell(s));
      r.cursor == w.cursor + 1 && Here(r) == At(Approvals, 0) && Shown(level, r) == Some(Approvals)
  {
    var a := SetView(level, Push(w, At(s, 0)), Admin);
    assert Here(a) == At(Approvals, 0) && Idle(a);
    HearingSettles(level, a);
  }

  lemma LockedBellFromPanel(level: Level, w: World, s: Section)
    requires Synced(level, w) && w.view.Admin? && !CanOpen(level, s) && Here(w) != At(s, 0)
    ensures var r := Step(level, w, Bell(s));
      && Shown(level, r) == Some(Approvals)
      && if Shown(level, w) == Some(Approvals) then r.cursor == w.cursor + 1 && Here(r) == At(s, 0)
         else r.cursor == w.cursor + 2 && Here(r) == At(Approvals, 0)
  {
    var a := Push(w, At(s, 0));
    assert Step(level, w, Bell(s)) == SetNav(level, a, s);
  }

  /** What a bell item costs, whatever section it names: two entries exactly when the
      section is locked and another section than the queue is on screen. */
  lemma BellCost(level: Level, w: World, s: Section)
    requires Inv(level, w)
    ensures var r := Step(level, w, Bell(s));
      && r.cursor == w.cursor + (if Here(w) == At(s, 0) then 0
                                 else if !CanOpen(level, s) && w.view.Admin? && Shown(level, w) != Some(Approvals) then 2 else 1)
      && (Shown(level, r) == Asked(Here(r)) <==> CanOpen(level, s) || w.view.Dev? || Shown(level, w) != Some(Approvals))
      && Shown(level, r) == Some(CurNav(level, s))
  {
    assert Normal(level, Here(w));
    if CanOpen(level, s) { BellSettles(level, w, s); }
    else if w.view.Dev? { LockedBellFromEditor(level, w, s); }
    else { LockedBellFromPanel(level, w, s); }
  }

  // ---- Any address at all ----

  lemma FollowFromEditor(level: Level, w: World, h: Hash)
    requires Synced(level, w) && w.view.Dev? && InAdmin(h) && !Normal(level, h)
    ensures var r := Step(level, w, Follow(h));
      var s := CurNav(level, if NavFromHash(h).Some? then NavFromHash(h).value else Approvals);
      && r.cursor == w.cursor + 1 && r.entries[..r.cursor] == w.entries[..w.cursor + 1]
      && Here(r) == At(s, 0) && Shown(level, r) == Some(s)
  {
    assert Here(w) != h;
  }

  lemma FollowFromPanel(level: Level, w: World, h: Hash)
    requires Synced(level, w) && w.view.Admin? && InAdmin(h) && !Normal(level, h)
    ensures var r := Step(level, w, Follow(h));
      var named := NavFromHash(h);
      if named.Some? && Some(CurNav(level, named.value)) != Shown(level, w) then
        r.cursor == w.cursor + 2 && Here(r) == At(CurNav(level, named.value), 0) && Shown(level, r) == Some(CurNav(level, named.value))
      else r.cursor == w.cursor + 1 && Here(r) == h && Shown(level, r) == Shown(level, w)
  {
    var a := Push(w, h);
    assert Step(level, w, Follow(h)) == PanelHears(level, a);
  }

  /** Following any address costs one entry and leaves screen and address in step, but for an
      address inside the panel that the user may not open or that the panel writes otherwise:
      from the panel that costs two when it leads to another section than the one on screen,
      and otherwise leaves an address that the screen does not show. */
  lemma FollowCost(level: Level, w: World, h: Hash)
    requires Inv(level, w)
    ensures var r := Step(level, w, Follow(h));
      var odd := InAdmin(h) && !Normal(level, h) && w.view.Admin?;
      var moves := NavFromHash(h).Some? && Some(CurNav(level, NavFromHash(h).value)) != Shown(level, w);
      && r.cursor == w.cursor + (if h == Here(w) then 0 else if odd && moves then 2 else 1)
      && (Synced(level, r) <==> !odd || moves)
  {
    assert Normal(level, Here(w));
    if h == Here(w) {
    } else if Normal(level, h) {
      HearingSettles(level, Push(w, h));
    } else if w.view.Dev? {
      FollowFromEditor(level, w, h);
      FollowKeepsStep(level, w, h);
    } else {
      FollowFromPanel(level, w, h);
      FollowKeepsStep(level, w, h);
    }
  }

  /** The view is in step with the kind of address, and so is the section on screen, if the
      address is one the user may open, written the way the panel writes it. */
  predicate InStep(level: Level, w: World) {
    Idle(w) && (w.view.Admin? <==> InAdmin(Here(w))) && (Normal(level, Here(w)) ==> Shown(level, w) == Asked(Here(w)))
  }

  lemma FollowKeepsStep(level: Level, w: World, h: Hash)
    requires InStep(level, w)
    ensures InStep(level, Step(level, w, Follow(h)))
  {
    HearingKeepsStep(level, Push(w, h));
  }

  lemma HearingKeepsStep(level: Level, w: World)
    requires Idle(w)
    ensures InStep(level, HashChange(level, w))
  {
    AppHearing(level, w);
    if w.panel.Some? { PanelHearing(level, AppHears(level, w)); }
  }

  predicate ViewInStep(w: World) { Idle(w) && (w.view.Admin? <==> InAdmin(Here(w))) }

  lemma AppHearing(level: Level, w: World)
    requires Idle(w)
    ensures ViewInStep(AppHears(level, w)) && (w.panel.None? ==> InStep(level, AppHears(level, w)))
  {
  }

  lemma PanelHearing(level: Level, w: World)
    requires ViewInStep(w)
    ensures InStep(level, PanelHears(level, w))
  {
  }

  lemma ViewChangeKeepsStep(level: Level, w: World, to: View)
    requires InStep(level, w)
    ensures InStep(level, SetView(level, w, to))
  {
  }

  lemma AnyMoveKeepsStep(level: Level, w: World, m: Move)
    requires InStep(level, w)
    ensures InStep(level, Step(level, w, m))
  {
    match m
    case Enter => ViewChangeKeepsStep(level, w, Admin);
    case Leave => ViewChangeKeepsStep(level, w, Dev);
    case Open(_) =>
    case Bell(s) => BellKeepsStep(level, w, s);
    case Follow(h) => FollowKeepsStep(level, w, h);
    case Back => if w.cursor > 0 { TravelKeepsStep(level, w, w.cursor - 1); }
    case Forward => if w.cursor + 1 < |w.entries| { TravelKeepsStep(level, w, w.cursor + 1); }
  }

  lemma TravelKeepsStep(level: Level, w: World, to: nat)
    requires InStep(level, w) && to < |w.entries|
    ensures InStep(level, Travel(level, w, to))
  {
    HearingKeepsStep(level, w.(cursor := to));
  }

  lemma BellKeepsStep(level: Level, w: World, s: Section)
    requires InStep(level, w)
    ensures InStep(level, Step(level, w, Bell(s)))
  {
    ViewChangeKeepsStep(level, w, Admin);
    BellOpensPanel(level, w, s);
    HearingKeepsStep(level, SetView(level, Push(w, At(s, 0)), Admin));
  }

  lemma BellOpensPanel(level: Level, w: World, s: Section)
    requires InStep(level, w)
    ensures Idle(SetView(level, Push(w, At(s, 0)), Admin))
  {
  }

  lemma {:induction false} RunKeepsStep(level: Level, w: World, ms: seq<Move>)
    requires InStep(level, w)
    ensures InStep(level, Run(level, w, ms))
    decreases |ms|
  {
    if ms != [] {
      AnyMoveKeepsStep(level, w, ms[0]);
      RunKeepsStep(level, Step(level, w, ms[0]), ms[1..]);
    }
  }

  /** Whatever the history held, and whatever addresses are followed: the panel is on screen
      exactly at an admin address, and on a section that the user may open; and the screen
      shows what the address asks for exactly when the address is one the user may open,
      written the way the panel writes it. */
  lemma ScreenMatchesAddress(level: Level, entries: seq<Hash>, cursor: nat, panelFirst: bool, ms: seq<Move>)
    requires cursor < |entries|
    ensures var w := Run(level, Load(level, entries, cursor, panelFirst), ms);
      && (w.view.Admin? <==> InAdmin(Here(w))) && (w.panel.Some? <==> w.view.Admin?)
      && (w.panel.Some? ==> CanOpen(level, Shown(level, w).value))
      && (Shown(level, w) == Asked(Here(w)) <==> Normal(level, Here(w)))
  {
    LoadOnlyReplaces(level, entries, cursor, panelFirst);
    RunKeepsStep(level, Load(level, entries, cursor, panelFirst), ms);
  }
}
