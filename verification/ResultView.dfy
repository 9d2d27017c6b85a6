/** The sorted and filtered view of one result, loaded page by page
    (qhUseResultView in qh-results-tools.jsx, the paging helpers in qh-api.jsx). */
module ResultView {
  import opened Options
  import opened Seqs
  import opened ResultsTools

  const MAX_ROWS := 5000
  const CHUNK := 2000

  /** A result as the hook receives it. Two results are the same object only when
      their ids agree as well. */
  datatype Result = Result(id: nat, isTable: bool, rows: seq<Row>, total: Option<nat>, truncated: bool,
                           cols: seq<string>, canFetch: bool)
  {
    function RowsIn(): seq<Row> { if isTable then rows else [] }
    function BaseTotal(): nat { if isTable && total.Some? then total.value else |RowsIn()| }
    predicate Enabled() { isTable && !truncated && BaseTotal() <= MAX_ROWS }
    predicate Complete() { Enabled() && |RowsIn()| >= BaseTotal() }
  }

  // ---- Loading every row ----

  /** What the server answers for a window; None is a rejected call. */
  type Fetch = (nat, nat) -> Option<seq<Row>>
  datatype Load = Failed | Loaded(rows: seq<Row>)

  function LoadFrom(loaded: seq<Row>, total: nat, canFetch: bool, fetch: Fetch): Load
    decreases total - |loaded|
  {
    if |loaded| >= total || !canFetch then Loaded(loaded)
    else
      var reply := fetch(|loaded|, CHUNK);
      if reply.None? then Failed
      else if reply.value == [] then Loaded(loaded)
      else LoadFrom(loaded + reply.value, total, canFetch, fetch)
  }

  method LoadRows(rowsIn: seq<Row>, total: nat, canFetch: bool, fetch: Fetch) returns (out: Load)
    ensures out == LoadFrom(rowsIn, total, canFetch, fetch)
  {
    var loaded := rowsIn;
    while |loaded| < total
      invariant LoadFrom(loaded, total, canFetch, fetch) == LoadFrom(rowsIn, total, canFetch, fetch)
      decreases total - |loaded|
    {
      if !canFetch { break; }
      var reply := fetch(|loaded|, CHUNK);
      if reply.None? { return Failed; }
      if reply.value == [] { break; }
      loaded := loaded + reply.value;
    }
    return Loaded(loaded);
  }

  /** The server answers windows of `table`, possibly shorter than asked. */
  ghost predicate Serves(fetch: Fetch, table: seq<Row>) {
    forall o: nat :: o < |table| ==>
      var reply := fetch(o, CHUNK);
      reply.Some? && |reply.value| <= |table| - o && reply.value == table[o..o + |reply.value|]
  }

  /** A served load is a prefix of the table, and stops short only where the server
      answered nothing or could not be asked. */
  lemma {:induction false} LoadIsPrefix(loaded: seq<Row>, table: seq<Row>, canFetch: bool, fetch: Fetch) returns (n: nat)
    requires Serves(fetch, table) && |loaded| <= |table| && loaded == table[..|loaded|]
    ensures |loaded| <= n <= |table|
    ensures LoadFrom(loaded, |table|, canFetch, fetch) == Loaded(table[..n])
    ensures n < |table| ==> !canFetch || fetch(n, CHUNK) == Some([])
    decreases |table| - |loaded|
  {
    n := |loaded|;
    if n < |table| && canFetch && fetch(n, CHUNK).value != [] {
      var more := fetch(n, CHUNK).value;
      assert loaded + more == table[..n + |more|];
      n := LoadIsPrefix(loaded + more, table, canFetch, fetch);
    }
  }

  /** The load ends with the whole table exactly when no window came back empty
      before the end. A short load is kept and shown as if it were the table. */
  lemma LoadIsWhole(loaded: seq<Row>, table: seq<Row>, fetch: Fetch)
    requires Serves(fetch, table) && |loaded| <= |table| && loaded == table[..|loaded|]
    ensures (forall o: nat :: |loaded| <= o < |table| ==> fetch(o, CHUNK) != Some([]))
            ==> LoadFrom(loaded, |table|, true, fetch) == Loaded(table)
    ensures LoadFrom(loaded, |table|, true, fetch) == Loaded(table)
            || exists o: nat :: |loaded| <= o < |table| && fetch(o, CHUNK) == Some([])
                 && LoadFrom(loaded, |table|, true, fetch) == Loaded(table[..o])
  {
    var n := LoadIsPrefix(loaded, table, true, fetch);
    if n == |table| { assert table[..n] == table; }
  }

  // ---- The hook ----

  datatype Settings = Settings(res: Result, sort: Option<Sort>, filter: string)

  datatype Hook = Hook(result: Result, st: Settings, cache: Option<(Result, seq<Row>)>, failed: Option<Result>,
                       inFlight: Option<Result>)
  {
    function Cur(): Settings { if st.res == result then st else Settings(result, None, "") }

    predicate Need(ops: TextOps) {
      result.Enabled() && (Cur().sort.Some? || ops.trim(Cur().filter) != "")
    }

    predicate Cached() { cache.Some? && cache.value.0 == result }

    function AllRows(ops: TextOps): Option<seq<Row>> {
      if !Need(ops) then None
      else if result.Complete() then Some(result.RowsIn())
      else if Cached() then Some(cache.value.1) else None
    }

    function Derived(ops: TextOps, collate: Collate): Option<seq<Row>> {
      if AllRows(ops).None? then None
      else Some(SortRows(collate, FilterRows(ops, AllRows(ops).value, result.cols, Cur().filter), Cur().sort))
    }

    predicate Error() { failed == Some(result) }
    predicate Loading(ops: TextOps) { Need(ops) && AllRows(ops).None? && !Error() }
  }

  function Open(result: Result): Hook {
    Hook(result, Settings(result, None, ""), None, None, None)
  }

  datatype Event =
    | Show(next: Result)
    | PickSort(sort: Option<Sort>)
    | Filter(text: string)
    | ToggleSort(col: string)
    | Settle(load: Load)

  /** The load effect: it runs again when the result, the need or its completeness changed. */
  function LoadEffect(ops: TextOps, before: Hook, now: Hook): Hook {
    if before.result == now.result && before.Need(ops) == now.Need(ops) then now
    else if now.Need(ops) && !now.result.Complete() && !now.Cached() then now.(inFlight := Some(now.result))
    else now.(inFlight := None)
  }

  function Toggled(sort: Option<Sort>, col: string): Option<Sort> {
    if sort.None? || sort.value.col != col then Some(Sort(col, Asc))
    else if sort.value.dir.Asc? then Some(Sort(col, Desc))
    else None
  }

  function Step(ops: TextOps, h: Hook, e: Event): Hook {
    match e
    case Show(next) => LoadEffect(ops, h, h.(result := next))
    case PickSort(s) =>
      if !h.result.isTable then h else LoadEffect(ops, h, h.(st := h.Cur().(sort := s)))
    case Filter(text) =>
      if !h.result.isTable then h else LoadEffect(ops, h, h.(st := h.Cur().(filter := text)))
    case ToggleSort(col) =>
      if !h.result.isTable then h else LoadEffect(ops, h, h.(st := h.Cur().(sort := Toggled(h.Cur().sort, col))))
    case Settle(load) =>
      if h.inFlight.None? then h
      else if load.Failed? then h.(failed := h.inFlight, inFlight := None)
      else h.(cache := Some((h.inFlight.value, load.rows)), inFlight := None)
  }

  /** The hook's own variables, changed by its callbacks and by the load it started. */
  class ResultViewHook {
    const ops: TextOps
    var result: Result
    var st: Settings
    var cache: Option<(Result, seq<Row>)>
    var failed: Option<Result>
    var inFlight: Option<Result>

    function State(): Hook
      reads this
    {
      Hook(result, st, cache, failed, inFlight)
    }

    constructor (ops: TextOps, result: Result)
      ensures this.ops == ops && State() == Open(result)
    {
      this.ops := ops;
      this.result := result;
      st := Settings(result, None, "");
      cache, failed, inFlight := None, None, None;
    }

    method RunLoadEffect(before: Hook)
      modifies this`inFlight
      ensures State() == LoadEffect(ops, before, old(State()))
    {
      var now := State();
      if before.result == result && before.Need(ops) == now.Need(ops) { return; }
      inFlight := None;
      if !now.Need(ops) || result.Complete() { return; }
      if now.Cached() { return; }
      inFlight := Some(result);
    }

    method ShowResult(next: Result)
      modifies this
      ensures State() == Step(ops, old(State()), Show(next))
    {
      var before := State();
      result := next;
      RunLoadEffect(before);
    }

    method SetSort(next: Option<Sort>)
      modifies this
      ensures State() == Step(ops, old(State()), PickSort(next))
    {
      if !result.isTable { return; }
      var before := State();
      st := before.Cur().(sort := next);
      RunLoadEffect(before);
    }

    method SetFilter(text: string)
      modifies this
      ensures State() == Step(ops, old(State()), Filter(text))
    {
      if !result.isTable { return; }
      var before := State();
      st := before.Cur().(filter := text);
      RunLoadEffect(before);
    }

    method Toggle(col: string)
      modifies this
      ensures State() == Step(ops, old(State()), ToggleSort(col))
    {
      if !result.isTable { return; }
      var before := State();
      var s := before.Cur().sort;
      var next: Option<Sort>;
      if s.None? || s.value.col != col { next := Some(Sort(col, Asc)); }
      else if s.value.dir.Asc? { next := Some(Sort(col, Desc)); }
      else { next := None; }
      st := before.Cur().(sort := next);
      RunLoadEffect(before);
    }

    method LoadSettled(load: Load)
      modifies this
      ensures State() == Step(ops, old(State()), Settle(load))
    {
      if inFlight.None? { return; }
      if load.Failed? { failed := inFlight; } else { cache := Some((inFlight.value, load.rows)); }
      inFlight := None;
    }
  }

  // ---- Every run ----

  /** The inline rows are the first page of the result's own table. */
  ghost predicate Honest(r: Result, table: Result -> seq<Row>) {
    r.isTable ==>
      && |r.rows| <= |table(r)| && r.rows == table(r)[..|r.rows|]
      && (if r.total.Some? then r.total.value == |table(r)| else |r.rows| == |table(r)|)
  }

  ghost predicate Legal(h: Hook, e: Event, table: Result -> seq<Row>) {
    match e
    case Show(next) => Honest(next, table)
    case Settle(load) => h.inFlight.Some? && load.Loaded? ==> load.rows == table(h.inFlight.value)
    case _ => true
  }

  ghost predicate Inv(ops: TextOps, h: Hook, table: Result -> seq<Row>) {
    && Honest(h.result, table)
    && (h.cache.Some? ==> h.cache.value.1 == table(h.cache.value.0))
    && (h.inFlight.Some? ==> h.inFlight.value == h.result && h.Need(ops) && !h.result.Complete())
    && (h.Need(ops) && !h.result.Complete() && !h.Cached() ==> h.inFlight.Some? || h.Error())
  }

  function Run(ops: TextOps, h: Hook, es: seq<Event>): Hook
    decreases |es|
  {
    if es == [] then h else Run(ops, Step(ops, h, es[0]), es[1..])
  }

  ghost predicate LegalRun(ops: TextOps, h: Hook, es: seq<Event>, table: Result -> seq<Row>)
    decreases |es|
  {
    es != [] ==> Legal(h, es[0], table) && LegalRun(ops, Step(ops, h, es[0]), es[1..], table)
  }

  lemma StepKeepsInv(ops: TextOps, h: Hook, e: Event, table: Result -> seq<Row>)
    requires Inv(ops, h, table) && Legal(h, e, table)
    ensures Inv(ops, Step(ops, h, e), table)
  {
  }

  lemma {:induction false} RunKeepsInv(ops: TextOps, h: Hook, es: seq<Event>, table: Result -> seq<Row>)
    requires Inv(ops, h, table) && LegalRun(ops, h, es, table)
    ensures Inv(ops, Run(ops, h, es), table)
    decreases |es|
  {
    if es != [] {
      StepKeepsInv(ops, h, es[0], table);
      RunKeepsInv(ops, Step(ops, h, es[0]), es[1..], table);
    }
  }

  /** A load from a server that answers windows of the result's own table, none of them
      empty before its end, is a legal one: it brings exactly that table. */
  lemma LoadIsLegal(ops: TextOps, h: Hook, table: Result -> seq<Row>, fetch: Fetch)
    requires Inv(ops, h, table) && h.inFlight.Some? && Serves(fetch, table(h.result))
    requires forall o: nat :: |h.result.rows| <= o < |table(h.result)| ==> fetch(o, CHUNK) != Some([])
    ensures Legal(h, Settle(LoadFrom(h.result.RowsIn(), h.result.BaseTotal(), true, fetch)), table)
  {
    LoadIsWhole(h.result.rows, table(h.result), fetch);
  }

  function Window(rows: seq<Row>, offset: nat, count: nat): seq<Row> {
    if offset >= |rows| then [] else if offset + count >= |rows| then rows[offset..] else rows[offset..offset + count]
  }

  /** A window is the rows from its offset on, as many as asked for while there are some. */
  lemma WindowIs(rows: seq<Row>, offset: nat, count: nat)
    ensures var w := Window(rows, offset, count);
      && |w| == (if offset >= |rows| then 0 else if count <= |rows| - offset then count else |rows| - offset)
      && forall i :: 0 <= i < |w| ==> w[i] == rows[offset + i]
  {
  }

  /** What the grid shows at a window: the derived rows, or the server's own window. */
  ghost function ShownWindow(ops: TextOps, collate: Collate, h: Hook, table: Result -> seq<Row>, offset: nat, count: nat): seq<Row> {
    var d := h.Derived(ops, collate);
    Window(if d.Some? then d.value else table(h.result), offset, count)
  }

  /** A result that is cut short or too long is left to the server. */
  predicate LeftToServer(r: Result, size: nat) { !r.isTable || r.truncated || size > 5000 }

  /** On every run, from any first result: a view that is ready shows the windows of
      the whole table, filtered and sorted by this result's own settings; a view that
      is loading has a load under way for this very result. */
  lemma ViewRefinesTable(ops: TextOps, collate: Collate, first: Result, es: seq<Event>, table: Result -> seq<Row>,
                         offset: nat, count: nat)
    requires Honest(first, table) && LegalRun(ops, Open(first), es, table) && ops.trim("") == ""
    ensures var h := Run(ops, Open(first), es);
      && (!LeftToServer(h.result, |table(h.result)|) && !h.Loading(ops)
            && !(h.Error() && h.Need(ops) && h.AllRows(ops).None?) ==>
            ShownWindow(ops, collate, h, table, offset, count)
            == Window(SortRows(collate, FilterRows(ops, table(h.result), h.result.cols, h.Cur().filter), h.Cur().sort), offset, count))
      && (h.Loading(ops) ==> h.inFlight == Some(h.result))
      && (h.result.isTable && |h.result.rows| == |table(h.result)| ==> h.inFlight.None?)
      && (LeftToServer(h.result, |table(h.result)|) ==>
            h.inFlight.None? && ShownWindow(ops, collate, h, table, offset, count) == Window(table(h.result), offset, count))
  {
    RunKeepsInv(ops, Open(first), es, table);
    var h := Run(ops, Open(first), es);
    if h.result.Complete() {
      assert table(h.result)[..|h.result.rows|] == table(h.result);
    }
  }

  /** A click on a column sorts by it, ascending; the second turns it round, the third takes the
      sort away, and one on another column starts over there. The filter stays. */
  lemma ToggleCycles(ops: TextOps, h: Hook, col: string, other: string)
    requires h.result.isTable && (h.Cur().sort.Some? ==> h.Cur().sort.value.col != col) && other != col
    ensures var a := Step(ops, h, ToggleSort(col));
      var b := Step(ops, a, ToggleSort(col));
      var d := Step(ops, b, ToggleSort(col));
      && a.Cur() == h.Cur().(sort := Some(Sort(col, Asc)))
      && b.Cur() == h.Cur().(sort := Some(Sort(col, Desc)))
      && d.Cur() == h.Cur().(sort := None)
      && Step(ops, a, ToggleSort(other)).Cur() == h.Cur().(sort := Some(Sort(other, Asc)))
      && Step(ops, b, ToggleSort(other)).Cur() == h.Cur().(sort := Some(Sort(other, Asc)))
  {
  }

  /** A load under way ends once, for good or bad, for the result it was started for, and changes
      no setting; with none under way nothing comes of an answer. */
  lemma SettleEnds(ops: TextOps, h: Hook, load: Load)
    ensures var r := Step(ops, h, Settle(load));
      && r.inFlight.None? && r.result == h.result && r.st == h.st
      && (h.inFlight.None? ==> r == h)
      && (h.inFlight.Some? && load.Failed? ==> r.failed == h.inFlight && r.cache == h.cache)
      && (h.inFlight.Some? && load.Loaded? ==> r.cache == Some((h.inFlight.value, load.rows)) && r.failed == h.failed)
  {
  }

  /** Picking a sort or typing a filter sets that and leaves the other; on anything but a table
      neither does a thing. */
  lemma SettingsSet(ops: TextOps, h: Hook, sort: Option<Sort>, text: string, col: string)
    ensures h.result.isTable ==>
      && Step(ops, h, PickSort(sort)).Cur() == h.Cur().(sort := sort)
      && Step(ops, h, Filter(text)).Cur() == h.Cur().(filter := text)
    ensures !h.result.isTable ==> Step(ops, h, PickSort(sort)) == Step(ops, h, Filter(text)) == Step(ops, h, ToggleSort(col)) == h
  {
  }

  /** Sort and filter belong to one result: another result starts without them. */
  lemma SettingsStayWithResult(ops: TextOps, h: Hook, next: Result)
    requires next != h.st.res
    ensures Step(ops, h, Show(next)).Cur() == Settings(next, None, "")
    ensures next.Enabled() && ops.trim("") == "" ==> Step(ops, h, Show(next)).AllRows(ops).None?
  {
  }
}
