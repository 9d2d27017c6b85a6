/** Saving one subject's access: targets collapsed per connection, then concurrent
    calls against the grant store (setSubjectGrants in qh-admin-data.jsx). */
module AccessSave {
  import opened Options
  import opened Seqs
  import opened AccessBox
  import opened Expiry
  import opened AccessEditor

  datatype Subject = Subject(kind: string, name: string)
  datatype Target = Target(conn: string, databases: seq<string>, tier: Tier, expiresAt: Option<int>)
  {
    function Dbs(): seq<string> { if databases == [] then ["*"] else databases }
  }
  datatype Grant = Grant(id: string, subject: Subject, conn: string, databases: seq<string>, tier: Tier, expiresAt: Option<int>)

  function DbsOf(names: seq<string>): Databases { if "*" in names then AllDbs else Only(NameSet(names)) }
  function EndOf(at: Option<int>): End { if at.None? then Forever else At(at.value) }
  function TargetReach(t: Target): Box { Box(t.tier, DbsOf(t.Dbs()), EndOf(t.expiresAt)) }

  // ---- Collapsing the targets ----

  function Later(a: Option<int>, b: Option<int>): Option<int> {
    if a.None? || b.None? then None else if b.value > a.value then b else a
  }

  function Unique(names: seq<string>): (r: seq<string>)
    ensures NameSet(r) == NameSet(names)
  {
    if names == [] then []
    else
      var init, last := names[..|names| - 1], names[|names| - 1];
      assert names == init + [last];
      assert NameSet(names) == NameSet(init) + {last};
      assert NameSet(Unique(init) + [last]) == NameSet(Unique(init)) + {last};
      if last in init then Unique(init) else Unique(init) + [last]
  }

  /** The connections in the order first named, and one entry for each. */
  datatype Collapsed = Collapsed(order: seq<string>, entry: map<string, Target>)

  function Fold(x: Target, t: Target): Target {
    Target(x.conn,
      if "*" in x.databases || "*" in t.Dbs() then ["*"] else Unique(x.databases + t.Dbs()),
      MaxTier(x.tier, t.tier), Later(x.expiresAt, t.expiresAt))
  }

  function Opened(t: Target): Target {
    t.(databases := if "*" in t.Dbs() then ["*"] else t.Dbs())
  }

  function AddTarget(x: Collapsed, t: Target): Collapsed {
    if t.conn in x.entry then x.(entry := x.entry[t.conn := Fold(x.entry[t.conn], t)])
    else Collapsed(x.order + [t.conn], x.entry[t.conn := Opened(t)])
  }

  function Collapse(ts: seq<Target>): Collapsed {
    if ts == [] then Collapsed([], map[]) else AddTarget(Collapse(ts[..|ts| - 1]), ts[|ts| - 1])
  }

  function TargetsOn(ts: seq<Target>, conn: string): seq<Target> { Filter(ts, (t: Target) => t.conn == conn) }
  function TargetReaches(ts: seq<Target>): seq<Box> { Map(ts, (t: Target) => TargetReach(t)) }

  /** One connection's entry: the join of its targets' reaches. */
  ghost predicate CollapsedOn(ts: seq<Target>, conn: string, x: Target) {
    ts != [] && x.conn == conn && x.databases != [] && TargetReach(x) == JoinAll(TargetReaches(ts))
  }

  ghost predicate Names(ts: seq<Target>, k: string) { exists t :: t in ts && t.conn == k }

  ghost predicate IsCollapse(ts: seq<Target>, x: Collapsed) {
    && Distinct(x.order)
    && (forall k :: k in x.order <==> k in x.entry)
    && (forall k :: k in x.entry <==> Names(ts, k))
    && (forall k :: k in x.entry ==> CollapsedOn(TargetsOn(ts, k), k, x.entry[k]))
  }

  lemma TargetsOnSnoc(ts: seq<Target>, t: Target, k: string)
    ensures TargetsOn(ts + [t], k) == if t.conn == k then TargetsOn(ts, k) + [t] else TargetsOn(ts, k)
  {
    FilterAppend(ts, [t], (x: Target) => x.conn == k);
    assert Filter([t], (x: Target) => x.conn == k) == if t.conn == k then [t] else [];
  }

  lemma TargetsOnEmpty(ts: seq<Target>, k: string)
    ensures TargetsOn(ts, k) == [] <==> !exists t :: t in ts && t.conn == k
  {
    if TargetsOn(ts, k) != [] {
      assert TargetsOn(ts, k)[0] in TargetsOn(ts, k);
    }
  }

  lemma FoldReach(x: Target, t: Target)
    requires x.databases != []
    ensures TargetReach(Fold(x, t)) == JoinBox(TargetReach(x), TargetReach(t)) && Fold(x, t).databases != []
  {
    NameSetAppend(x.databases, t.Dbs());
    assert t.Dbs()[0] in NameSet(t.Dbs());
    var u := Unique(x.databases + t.Dbs());
    assert NameSet(u) != {};
    assert "*" in u <==> "*" in NameSet(u);
  }

  lemma FoldCollapsed(ts: seq<Target>, t: Target, x: Target)
    requires CollapsedOn(ts, t.conn, x)
    ensures CollapsedOn(ts + [t], t.conn, Fold(x, t))
  {
    FoldReach(x, t);
    assert TargetReaches(ts + [t]) == TargetReaches(ts) + [TargetReach(t)];
    JoinAllSnoc(TargetReaches(ts), TargetReach(t));
  }

  lemma OpenedCollapsed(t: Target)
    ensures CollapsedOn([t], t.conn, Opened(t))
  {
    assert TargetReaches([t]) == [TargetReach(t)];
  }

  lemma CollapseEntry(init: seq<Target>, t: Target, x: Collapsed)
    requires IsCollapse(init, x)
    ensures CollapsedOn(TargetsOn(init + [t], t.conn), t.conn, AddTarget(x, t).entry[t.conn])
  {
    TargetsOnSnoc(init, t, t.conn);
    if t.conn in x.entry {
      FoldCollapsed(TargetsOn(init, t.conn), t, x.entry[t.conn]);
    } else {
      TargetsOnEmpty(init, t.conn);
      OpenedCollapsed(t);
    }
  }

  lemma OtherEntry(init: seq<Target>, t: Target, k: string, x: Target)
    requires CollapsedOn(TargetsOn(init, k), k, x) && t.conn != k
    ensures CollapsedOn(TargetsOn(init + [t], k), k, x)
  {
    TargetsOnSnoc(init, t, k);
  }

  lemma {:induction false} CollapseIsJoin(ts: seq<Target>)
    ensures IsCollapse(ts, Collapse(ts))
  {
    if ts != [] {
      var init, t := ts[..|ts| - 1], ts[|ts| - 1];
      var x, y := Collapse(init), Collapse(ts);
      assert ts == init + [t];
      CollapseIsJoin(init);
      CollapseEntry(init, t, x);
      forall k | k in y.entry ensures CollapsedOn(TargetsOn(ts, k), k, y.entry[k]) {
        if k != t.conn { OtherEntry(init, t, k, x.entry[k]); }
      }
      forall k ensures k in y.entry <==> Names(ts, k) { NamesGrow(init, t, k); }
    }
  }

  lemma NamesGrow(init: seq<Target>, t: Target, k: string)
    ensures Names(init + [t], k) <==> Names(init, k) || k == t.conn
  {
    assert t in init + [t];
    assert forall u :: u in init ==> u in init + [t];
  }

  // ---- The calls ----

  datatype Plan = Clash(conn: string) | Calls(posts: seq<Target>, deletes: seq<string>)

  function Bodies(x: Collapsed): seq<Target>
    requires forall k :: k in x.order ==> k in x.entry
  {
    Map(x.order, (k: string) => if k in x.entry then x.entry[k] else Target(k, [], RO, None))
  }

  predicate Dropped(who: Subject, kept: set<string>, untouched: set<string>, g: Grant) {
    g.subject == who && g.conn !in kept && g.conn !in untouched
  }

  function PlanOf(grants: seq<Grant>, who: Subject, targets: seq<Target>, untouched: set<string>): Plan {
    var x := Collapse(Filter(targets, (t: Target) => t.conn !in untouched));
    CollapseIsJoin(Filter(targets, (t: Target) => t.conn !in untouched));
    Calls(Bodies(x), Map(Filter(grants, (g: Grant) => Dropped(who, x.entry.Keys, untouched, g)), (g: Grant) => g.id))
  }

  /** Two targets name one connection at different levels. */
  ghost predicate HasClash(targets: seq<Target>, conn: string) {
    exists s, t :: s in targets && t in targets && s.conn == conn == t.conn && s.tier != t.tier
  }

  method FindClash(targets: seq<Target>) returns (clash: Option<string>)
    ensures clash.Some? ==> HasClash(targets, clash.value)
    ensures clash.None? ==> forall k :: !HasClash(targets, k)
  {
    var tierOf: map<string, Tier> := map[];
    var i := 0;
    while i < |targets|
      invariant 0 <= i <= |targets|
      invariant forall t :: t in targets[..i] ==> t.conn in tierOf && tierOf[t.conn] == t.tier
      invariant forall k :: k in tierOf ==> exists t :: t in targets && t.conn == k && t.tier == tierOf[k]
    {
      var t := targets[i];
      assert t in targets;
      if t.conn in tierOf && tierOf[t.conn] != t.tier { return Some(t.conn); }
      tierOf := tierOf[t.conn := t.tier];
      i := i + 1;
    }
    assert targets[..i] == targets;
    return None;
  }

  method CollapseLoop(ts: seq<Target>) returns (x: Collapsed)
    ensures x == Collapse(ts)
  {
    x := Collapsed([], map[]);
    var i := 0;
    while i < |ts|
      invariant 0 <= i <= |ts|
      invariant x == Collapse(ts[..i])
    {
      var t := ts[i];
      assert ts[..i + 1][..i] == ts[..i];
      var dbs := t.Dbs();
      if t.conn !in x.entry {
        x := Collapsed(x.order + [t.conn], x.entry[t.conn := t.(databases := if "*" in dbs then ["*"] else dbs)]);
      } else {
        var ex := x.entry[t.conn];
        ex := ex.(tier := MaxTier(ex.tier, t.tier));
        ex := ex.(databases := if "*" in ex.databases || "*" in dbs then ["*"] else Unique(ex.databases + dbs));
        ex := ex.(expiresAt := Later(ex.expiresAt, t.expiresAt));
        x := x.(entry := x.entry[t.conn := ex]);
      }
      i := i + 1;
    }
    assert ts[..i] == ts;
  }

  /** A clash sends nothing; otherwise the calls are those of the collapsed targets. */
  method SetSubjectGrants(grants: seq<Grant>, who: Subject, targets: seq<Target>, untouched: set<string>) returns (plan: Plan)
    ensures plan.Clash? <==> exists k :: HasClash(targets, k)
    ensures plan.Clash? ==> HasClash(targets, plan.conn)
    ensures plan.Calls? ==> plan == PlanOf(grants, who, targets, untouched)
  {
    var clash := FindClash(targets);
    if clash.Some? { return Clash(clash.value); }
    var mine := Filter(targets, (t: Target) => t.conn !in untouched);
    var x := CollapseLoop(mine);
    CollapseIsJoin(mine);
    var gone := Filter(grants, (g: Grant) => Dropped(who, x.entry.Keys, untouched, g));
    return Calls(Bodies(x), Map(gone, (g: Grant) => g.id));
  }

  // ---- The store under the calls ----

  datatype Call = Post(body: Target, newId: string) | Delete(id: string)
  datatype Done = Done(call: Call, ok: bool)

  function Written(who: Subject, body: Target, id: string): Grant {
    Grant(id, who, body.conn, body.databases, body.tier, body.expiresAt)
  }

  /** POST replaces what the pair (subject, connection) held; DELETE takes the rows of
      an id; a refused call does nothing. */
  function Apply(store: set<Grant>, who: Subject, d: Done): set<Grant> {
    if !d.ok then store
    else match d.call
      case Post(body, id) => (set g | g in store && !(g.subject == who && g.conn == body.conn)) + {Written(who, body, id)}
      case Delete(id) => set g | g in store && g.id != id
  }

  function ApplyAll(store: set<Grant>, who: Subject, ds: seq<Done>): set<Grant> {
    if ds == [] then store else Apply(ApplyAll(store, who, ds[..|ds| - 1]), who, ds[|ds| - 1])
  }

  function RowsAt(store: set<Grant>, who: Subject, conn: string): set<Grant> {
    set g | g in store && g.subject == who && g.conn == conn
  }

  /** An id belongs to one (subject, connection), and a new id to the pair it is given to. */
  ghost predicate IdsNamePairs(store: set<Grant>, who: Subject, newId: string -> string) {
    && (forall g, h :: g in store && h in store && g.id == h.id ==> g.subject == h.subject && g.conn == h.conn)
    && (forall g, k :: g in store && g.id == newId(k) ==> g.subject == who && g.conn == k)
    && (forall j, k :: newId(j) == newId(k) ==> j == k)
  }

  function PostCalls(posts: seq<Target>, newId: string -> string): seq<Call> {
    Map(posts, (p: Target) => Post(p, newId(p.conn)))
  }
  function DeleteCalls(ids: seq<string>): seq<Call> { Map(ids, (id: string) => Delete(id)) }
  function CallsOf(ds: seq<Done>): seq<Call> { Map(ds, (d: Done) => d.call) }

  /** Every planned call ended once, in some order, each granted or refused. */
  ghost predicate RunOf(plan: Plan, newId: string -> string, ds: seq<Done>)
    requires plan.Calls?
  {
    Permutes(CallsOf(ds), PostCalls(plan.posts, newId) + DeleteCalls(plan.deletes))
  }

  ghost predicate Succeeded(ds: seq<Done>, call: Call) { Done(call, true) in ds }

  /** What the calls leave of one pair: the new row if its POST went through, else the
      old rows without the ones whose DELETE did. */
  lemma {:induction false} PairOutcome(store: set<Grant>, who: Subject, owner: Subject, conn: string, body: Target, id: string, ds: seq<Done>)
    requires body.conn == conn
    requires forall d :: d in ds && d.call.Post? && owner == who && d.call.body.conn == conn ==> d.call == Post(body, id)
    requires owner == who && (exists d :: d in ds && d.call == Post(body, id)) ==>
               forall d, g :: d in ds && d.call.Delete? && (g in RowsAt(store, owner, conn) || g == Written(who, body, id)) ==> d.call.id != g.id
    ensures RowsAt(ApplyAll(store, who, ds), owner, conn) ==
            if owner == who && Succeeded(ds, Post(body, id)) then {Written(who, body, id)}
            else set g | g in RowsAt(store, owner, conn) && !Succeeded(ds, Delete(g.id))
  {
    if ds == [] {
    } else {
      var init, d := ds[..|ds| - 1], ds[|ds| - 1];
      assert ds == init + [d];
      assert d in ds;
      forall e | e in init ensures e in ds {}
      PairOutcome(store, who, owner, conn, body, id, init);
      forall call ensures Succeeded(ds, call) <==> Succeeded(init, call) || d == Done(call, true) {}
      var before, after := ApplyAll(store, who, init), ApplyAll(store, who, ds);
      PairStep(before, who, owner, conn, d);
    }
  }

  lemma PairStep(store: set<Grant>, who: Subject, owner: Subject, conn: string, d: Done)
    ensures RowsAt(Apply(store, who, d), owner, conn) ==
      if !d.ok then RowsAt(store, owner, conn)
      else if d.call.Delete? then set g | g in RowsAt(store, owner, conn) && g.id != d.call.id
      else if owner == who && d.call.body.conn == conn then {Written(who, d.call.body, d.call.newId)}
      else RowsAt(store, owner, conn)
  {
  }

  lemma RunCalls(plan: Plan, newId: string -> string, ds: seq<Done>, d: Done)
    requires plan.Calls? && RunOf(plan, newId, ds) && d in ds
    ensures d.call.Post? ==> d.call.body in plan.posts && d.call.newId == newId(d.call.body.conn)
    ensures d.call.Delete? ==> d.call.id in plan.deletes
  {
    var posts, deletes := PostCalls(plan.posts, newId), DeleteCalls(plan.deletes);
    PermutesIn(CallsOf(ds), posts + deletes);
    var i :| 0 <= i < |ds| && ds[i] == d;
    assert CallsOf(ds)[i] == d.call;
    assert d.call in posts + deletes;
    if d.call in posts { var j :| 0 <= j < |posts| && posts[j] == d.call; }
    if d.call in deletes { var j :| 0 <= j < |deletes| && deletes[j] == d.call; }
  }

  lemma RunSends(plan: Plan, newId: string -> string, ds: seq<Done>, call: Call) returns (d: Done)
    requires plan.Calls? && RunOf(plan, newId, ds)
    requires call in PostCalls(plan.posts, newId) + DeleteCalls(plan.deletes)
    ensures d in ds && d.call == call
  {
    PermutesIn(CallsOf(ds), PostCalls(plan.posts, newId) + DeleteCalls(plan.deletes));
    var i :| 0 <= i < |ds| && CallsOf(ds)[i] == call;
    d := ds[i];
  }

  function Wanted(targets: seq<Target>, untouched: set<string>): seq<Target> {
    Filter(targets, (t: Target) => t.conn !in untouched)
  }

  ghost predicate Writes(plan: Plan, conn: string)
    requires plan.Calls?
  {
    exists p :: p in plan.posts && p.conn == conn
  }

  lemma BodyOfEntry(x: Collapsed, p: Target)
    requires forall k :: k in x.order ==> k in x.entry && x.entry[k].conn == k
    requires p in Bodies(x)
    ensures p.conn in x.entry && p == x.entry[p.conn]
  {
    var i :| 0 <= i < |x.order| && Bodies(x)[i] == p;
    assert x.order[i] in x.order;
  }

  /** A body in the plan is the one entry of its connection. */
  lemma PlannedPost(grants: seq<Grant>, who: Subject, targets: seq<Target>, untouched: set<string>, p: Target)
    requires p in PlanOf(grants, who, targets, untouched).posts
    ensures var x := Collapse(Wanted(targets, untouched)); p.conn in x.entry && p == x.entry[p.conn]
  {
    CollapseIsJoin(Wanted(targets, untouched));
    BodyOfEntry(Collapse(Wanted(targets, untouched)), p);
  }

  /** A written connection is a wanted one; its body reaches the join of its targets. */
  lemma PostsAreWanted(grants: seq<Grant>, who: Subject, targets: seq<Target>, untouched: set<string>, conn: string)
    ensures var plan := PlanOf(grants, who, targets, untouched);
      && (Writes(plan, conn) <==> conn !in untouched && exists t :: t in targets && t.conn == conn)
      && (forall p :: p in plan.posts && p.conn == conn ==> CollapsedOn(TargetsOn(Wanted(targets, untouched), conn), conn, p))
  {
    var plan, x := PlanOf(grants, who, targets, untouched), Collapse(Wanted(targets, untouched));
    CollapseIsJoin(Wanted(targets, untouched));
    forall p | p in plan.posts && p.conn == conn ensures p == x.entry[conn] && conn in x.entry {
      PlannedPost(grants, who, targets, untouched, p);
    }
    if conn in x.entry {
      var i :| 0 <= i < |x.order| && x.order[i] == conn;
      assert plan.posts[i] == x.entry[conn];
      assert x.entry[conn] in plan.posts;
    }
  }

  lemma WrittenKeys(grants: seq<Grant>, who: Subject, targets: seq<Target>, untouched: set<string>, conn: string)
    ensures conn in Collapse(Wanted(targets, untouched)).entry.Keys <==> Writes(PlanOf(grants, who, targets, untouched), conn)
  {
    CollapseIsJoin(Wanted(targets, untouched));
    PostsAreWanted(grants, who, targets, untouched, conn);
  }

  /** A delete takes a row of the subject on a connection it neither writes nor leaves
      alone, and every such row is taken. */
  lemma DeletesAreDropped(grants: seq<Grant>, who: Subject, targets: seq<Target>, untouched: set<string>, id: string)
    ensures var plan := PlanOf(grants, who, targets, untouched);
      id in plan.deletes <==>
        exists g :: g in grants && g.id == id && g.subject == who && g.conn !in untouched && !Writes(plan, g.conn)
  {
    var plan := PlanOf(grants, who, targets, untouched);
    var keys := Collapse(Wanted(targets, untouched)).entry.Keys;
    var gone := Filter(grants, (g: Grant) => Dropped(who, keys, untouched, g));
    forall g: Grant ensures g.conn in keys <==> Writes(plan, g.conn) { WrittenKeys(grants, who, targets, untouched, g.conn); }
    if id in plan.deletes {
      var i :| 0 <= i < |gone| && plan.deletes[i] == id;
      assert gone[i] in gone;
    }
    if g :| g in grants && g.id == id && g.subject == who && g.conn !in untouched && !Writes(plan, g.conn) {
      var i :| 0 <= i < |gone| && gone[i] == g;
      assert plan.deletes[i] == g.id;
    }
  }

  function StoreOf(grants: seq<Grant>): set<Grant> { set g | g in grants }

  /** A delete that goes through hits only rows the plan drops. */
  lemma DeleteHits(grants: seq<Grant>, who: Subject, targets: seq<Target>, untouched: set<string>,
                   newId: string -> string, ds: seq<Done>, d: Done, g: Grant)
    requires IdsNamePairs(StoreOf(grants), who, newId)
    requires RunOf(PlanOf(grants, who, targets, untouched), newId, ds)
    requires d in ds && d.call == Delete(g.id)
    requires g in StoreOf(grants) || g.id == newId(g.conn)
    ensures g.conn !in untouched && !Writes(PlanOf(grants, who, targets, untouched), g.conn)
    ensures g in StoreOf(grants) ==> g.subject == who
  {
    RunCalls(PlanOf(grants, who, targets, untouched), newId, ds, d);
    DeletesAreDropped(grants, who, targets, untouched, g.id);
  }

  /** Any order, any refusals: each written connection ends at its old rows or exactly
      its new row, each dropped one at its old rows less the deleted ones, and nothing
      else moves. */
  lemma SaveOutcome(grants: seq<Grant>, who: Subject, targets: seq<Target>, untouched: set<string>,
                    newId: string -> string, ds: seq<Done>, owner: Subject, conn: string)
    requires IdsNamePairs(StoreOf(grants), who, newId)
    requires RunOf(PlanOf(grants, who, targets, untouched), newId, ds)
    ensures var plan := PlanOf(grants, who, targets, untouched);
      var had, has := RowsAt(StoreOf(grants), owner, conn), RowsAt(ApplyAll(StoreOf(grants), who, ds), owner, conn);
      && (owner != who || conn in untouched ==> has == had)
      && (forall p :: owner == who && p in plan.posts && p.conn == conn ==>
            has == if Succeeded(ds, Post(p, newId(conn))) then {Written(who, p, newId(conn))} else had)
      && (owner == who && conn !in untouched && !Writes(plan, conn) ==>
            has == set g | g in had && !Succeeded(ds, Delete(g.id)))
  {
    var plan := PlanOf(grants, who, targets, untouched);
    var body := Target(conn, [], RO, None);
    if p :| p in plan.posts && p.conn == conn { body := p; }
    forall d | d in ds && d.call.Post? && d.call.body.conn == conn ensures d.call == Post(body, newId(conn)) {
      RunCalls(plan, newId, ds, d);
      PlannedPost(grants, who, targets, untouched, d.call.body);
      PlannedPost(grants, who, targets, untouched, body);
    }
    PostsAreWanted(grants, who, targets, untouched, conn);
    forall d: Done, g: Grant | d in ds && d.call == Delete(g.id) && (g in RowsAt(StoreOf(grants), owner, conn) || g == Written(who, body, newId(conn)))
      ensures conn !in untouched && !Writes(plan, conn)
      ensures g in RowsAt(StoreOf(grants), owner, conn) ==> owner == who
    {
      DeleteHits(grants, who, targets, untouched, newId, ds, d, g);
    }
    forall p | p in plan.posts && p.conn == conn ensures p == body {
      PlannedPost(grants, who, targets, untouched, p);
      PlannedPost(grants, who, targets, untouched, body);
    }
    NoPostNoSuccess(plan, newId, ds, body, conn);
    PairOutcome(StoreOf(grants), who, owner, conn, body, newId(conn), ds);
  }

  lemma NoPostNoSuccess(plan: Plan, newId: string -> string, ds: seq<Done>, body: Target, conn: string)
    requires plan.Calls? && RunOf(plan, newId, ds) && body.conn == conn
    ensures (exists d :: d in ds && d.call == Post(body, newId(conn))) ==> Writes(plan, conn)
  {
    if d :| d in ds && d.call == Post(body, newId(conn)) { RunCalls(plan, newId, ds, d); }
  }

  /** The order in which the calls end does not matter: only which of them were refused. */
  lemma SaveConfluent(grants: seq<Grant>, who: Subject, targets: seq<Target>, untouched: set<string>,
                      newId: string -> string, ds: seq<Done>, es: seq<Done>)
    requires IdsNamePairs(StoreOf(grants), who, newId)
    requires RunOf(PlanOf(grants, who, targets, untouched), newId, ds)
    requires RunOf(PlanOf(grants, who, targets, untouched), newId, es)
    requires forall call :: Succeeded(ds, call) <==> Succeeded(es, call)
    ensures ApplyAll(StoreOf(grants), who, ds) == ApplyAll(StoreOf(grants), who, es)
  {
    var s, t := ApplyAll(StoreOf(grants), who, ds), ApplyAll(StoreOf(grants), who, es);
    forall g: Grant ensures g in s <==> g in t {
      SaveOutcome(grants, who, targets, untouched, newId, ds, g.subject, g.conn);
      SaveOutcome(grants, who, targets, untouched, newId, es, g.subject, g.conn);
      assert RowsAt(s, g.subject, g.conn) == RowsAt(t, g.subject, g.conn);
      assert g in s <==> g in RowsAt(s, g.subject, g.conn);
      assert g in t <==> g in RowsAt(t, g.subject, g.conn);
    }
  }

  /** With no refusal the subject holds one row for each wanted connection, reaching
      the join of its targets, its untouched rows, and nothing else. */
  lemma SaveComplete(grants: seq<Grant>, who: Subject, targets: seq<Target>, untouched: set<string>,
                     newId: string -> string, ds: seq<Done>, conn: string)
    requires IdsNamePairs(StoreOf(grants), who, newId)
    requires RunOf(PlanOf(grants, who, targets, untouched), newId, ds)
    requires forall d :: d in ds ==> d.ok
    ensures var plan := PlanOf(grants, who, targets, untouched);
      var had, has := RowsAt(StoreOf(grants), who, conn), RowsAt(ApplyAll(StoreOf(grants), who, ds), who, conn);
      if conn in untouched then has == had
      else if exists t :: t in targets && t.conn == conn then
        exists p :: has == {Written(who, p, newId(conn))} && CollapsedOn(TargetsOn(Wanted(targets, untouched), conn), conn, p)
      else has == {}
  {
    var plan := PlanOf(grants, who, targets, untouched);
    var had := RowsAt(StoreOf(grants), who, conn);
    SaveOutcome(grants, who, targets, untouched, newId, ds, who, conn);
    PostsAreWanted(grants, who, targets, untouched, conn);
    if Writes(plan, conn) {
      var p :| p in plan.posts && p.conn == conn;
      PostSent(plan, newId, p);
      var d := RunSends(plan, newId, ds, Post(p, newId(conn)));
      assert Succeeded(ds, Post(p, newId(conn)));
    } else if conn !in untouched {
      forall g | g in had ensures Succeeded(ds, Delete(g.id)) {
        DeletesAreDropped(grants, who, targets, untouched, g.id);
        DeleteSent(plan, newId, g.id);
        var d := RunSends(plan, newId, ds, Delete(g.id));
      }
    }
  }

  lemma PostSent(plan: Plan, newId: string -> string, p: Target)
    requires plan.Calls? && p in plan.posts
    ensures Post(p, newId(p.conn)) in PostCalls(plan.posts, newId) + DeleteCalls(plan.deletes)
  {
    var i :| 0 <= i < |plan.posts| && plan.posts[i] == p;
    assert PostCalls(plan.posts, newId)[i] == Post(p, newId(p.conn));
  }

  lemma DeleteSent(plan: Plan, newId: string -> string, id: string)
    requires plan.Calls? && id in plan.deletes
    ensures Delete(id) in PostCalls(plan.posts, newId) + DeleteCalls(plan.deletes)
  {
    var i :| 0 <= i < |plan.deletes| && plan.deletes[i] == id;
    assert DeleteCalls(plan.deletes)[i] == Delete(id);
  }

  // ---- The change shown and the calls sent ----

  function TargetOf(c: Clock, r: Row): Target {
    Target(r.conn, r.databases, r.tier, ExpIso(c, r.pick, None, None))
  }

  /** What Save sends: one target for each row that is neither locked nor removed. */
  function TargetsOf(c: Clock, rows: seq<Row>): seq<Target> {
    Map(Filter(rows, (r: Row) => !r.locked && !r.removed), (r: Row) => TargetOf(c, r))
  }

  /** A row is shown and sent with the same reach unless its end date is missing:
      that is shown as ended long ago, and sent as never ending. */
  lemma RowShownAsSent(c: Clock, r: Row)
    requires c.now >= 0
    ensures TargetReach(TargetOf(c, r)) == RowReach(c, r) <==> r.pick != OnDay(None)
  {
  }

  lemma TargetsOnConn(c: Clock, rows: seq<Row>, conn: string)
    requires conn != ""
    ensures TargetsOn(TargetsOf(c, rows), conn) == Map(LiveOn(rows, conn), (r: Row) => TargetOf(c, r))
  {
    var keep, on := (r: Row) => !r.locked && !r.removed, (r: Row) => r.conn == conn;
    FilterMap(Filter(rows, keep), (r: Row) => TargetOf(c, r), on, (t: Target) => t.conn == conn);
    FilterTwice(rows, keep, on, (r: Row) => r.Live() && r.conn == conn);
  }

  lemma SameReaches(c: Clock, live: seq<Row>)
    requires c.now >= 0 && forall r :: r in live ==> r.pick != OnDay(None)
    ensures TargetReaches(Map(live, (r: Row) => TargetOf(c, r))) == Reaches(c, live)
  {
    forall i | 0 <= i < |live| ensures TargetReach(TargetOf(c, live[i])) == RowReach(c, live[i]) {
      assert live[i] in live;
      RowShownAsSent(c, live[i]);
    }
  }

  lemma MergedEntry(c: Clock, rows: seq<Row>, conn: string)
    requires conn in Conns(rows)
    ensures conn in MergeRows(c, rows) && LiveOn(rows, conn) != []
    ensures MergeRows(c, rows)[conn].Reach() == JoinAll(Reaches(c, LiveOn(rows, conn)))
  {
    MergeRowsIsMerge(c, rows);
  }

  lemma CollapsedEntry(ts: seq<Target>, conn: string)
    requires TargetsOn(ts, conn) != []
    ensures conn in Collapse(ts).entry
    ensures TargetReach(Collapse(ts).entry[conn]) == JoinAll(TargetReaches(TargetsOn(ts, conn)))
  {
    CollapseIsJoin(ts);
    TargetsOnEmpty(ts, conn);
  }

  /** The merge behind the change line and the collapse behind the calls agree on
      every connection whose rows all have their end date. */
  lemma DiffMatchesCalls(c: Clock, rows: seq<Row>, conn: string)
    requires c.now >= 0 && conn in Conns(rows)
    requires forall r :: r in LiveOn(rows, conn) ==> r.pick != OnDay(None)
    ensures conn in Collapse(TargetsOf(c, rows)).entry && conn in MergeRows(c, rows)
    ensures TargetReach(Collapse(TargetsOf(c, rows)).entry[conn]) == MergeRows(c, rows)[conn].Reach()
  {
    MergedEntry(c, rows, conn);
    TargetsOnConn(c, rows, conn);
    SameReaches(c, LiveOn(rows, conn));
    CollapsedEntry(TargetsOf(c, rows), conn);
  }
}
