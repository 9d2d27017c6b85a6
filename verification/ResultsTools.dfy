/** Sorting, filtering and summing the rows of a result (qh-results-tools.jsx). */
module ResultsTools {
  import opened Options
  import opened Seqs
  import opened Text

  /** A cell as the sort sees it: blank, a number, date-shaped text, or other text. */
  datatype Cell =
    | Empty(text: string)
    | Num(val: real, text: string)
    | DateLike(text: string)
    | Plain(text: string)
  {
    predicate Blank() { Empty? }
    predicate Textual() { DateLike? || Plain? }
  }

  /** A row holds its own columns; any other column reads as an empty cell. */
  type Row = map<string, Cell>
  datatype Dir = Asc | Desc
  datatype Sort = Sort(col: string, dir: Dir)

  /** The browser's text comparison, as a parameter. */
  type Collate = (string, string) -> real

  function CellAt(row: Row, col: string): Cell {
    if col in row then row[col] else Empty("")
  }

  // ---- The comparator ----

  function CompareCells(collate: Collate, a: Cell, b: Cell): real
    requires !a.Blank() && !b.Blank()
  {
    if a.Num? && b.Num? then a.val - b.val
    else if a.Num? then -1.0
    else if b.Num? then 1.0
    else if a.DateLike? && b.DateLike? then
      if a.text == b.text then 0.0 else if StrLe(a.text, b.text) then -1.0 else 1.0
    else collate(a.text, b.text)
  }

  function Sign(dir: Dir): real { if dir.Desc? then -1.0 else 1.0 }

  /** What the sort callback answers for two rows, its index tie-break included. */
  function CompareItems(collate: Collate, sort: Sort, x: Indexed<Row>, y: Indexed<Row>): real {
    var a, b := CellAt(x.val, sort.col), CellAt(y.val, sort.col);
    var tie := (x.at - y.at) as real;
    if a.Blank() && b.Blank() then tie
    else if a.Blank() then 1.0
    else if b.Blank() then -1.0
    else
      var c := CompareCells(collate, a, b) * Sign(sort.dir);
      if c != 0.0 then c else tie
  }

  predicate KnownColumn(rows: seq<Row>, col: string) {
    exists r :: r in rows && col in r
  }

  /** `x` may stand before `y`: the comparator without its tie-break. */
  predicate RowLe(collate: Collate, sort: Sort, x: Row, y: Row) {
    var a, b := CellAt(x, sort.col), CellAt(y, sort.col);
    b.Blank() || (!a.Blank() && CompareCells(collate, a, b) * Sign(sort.dir) <= 0.0)
  }

  function RowOrder(collate: Collate, sort: Sort): (Row, Row) -> bool {
    (x: Row, y: Row) => RowLe(collate, sort, x, y)
  }

  function SortRows(collate: Collate, rows: seq<Row>, sort: Option<Sort>): seq<Row> {
    if sort.None? || sort.value.col == "" || !KnownColumn(rows, sort.value.col) then rows
    else SortBy(RowOrder(collate, sort.value), rows)
  }

  // ---- When the comparator orders a column ----

  /** Text comparison is a total preorder read off its sign. */
  ghost predicate CollateOk(collate: Collate) {
    && (forall a, b {:trigger collate(a, b)} :: collate(a, b) <= 0.0 <==> collate(b, a) >= 0.0)
    && (forall a, b, c {:trigger collate(a, b), collate(b, c)} ::
          collate(a, b) <= 0.0 && collate(b, c) <= 0.0 ==> collate(a, c) <= 0.0)
  }

  /** The column has no text that is not date-shaped (`dates`), or one date text at most. */
  ghost predicate Uniform(rows: seq<Row>, col: string, dates: bool) {
    if dates then forall r :: r in rows ==> !CellAt(r, col).Plain?
    else forall r, s :: r in rows && s in rows && CellAt(r, col).DateLike? && CellAt(s, col).DateLike? ==>
           CellAt(r, col).text == CellAt(s, col).text
  }

  ghost predicate Sortable(collate: Collate, rows: seq<Row>, sort: Option<Sort>) {
    && CollateOk(collate)
    && (sort.Some? ==> exists dates :: Uniform(rows, sort.value.col, dates))
  }

  /** The order of one column once it is known how its text compares. */
  predicate CellLe(collate: Collate, dates: bool, a: Cell, b: Cell)
    requires !a.Blank() && !b.Blank()
  {
    if a.Num? || b.Num? then a.Num? && (b.Num? ==> a.val <= b.val)
    else if dates then StrLe(a.text, b.text)
    else collate(a.text, b.text) <= 0.0
  }

  predicate ColumnLe(collate: Collate, dates: bool, sort: Sort, x: Row, y: Row) {
    var a, b := CellAt(x, sort.col), CellAt(y, sort.col);
    b.Blank() || (!a.Blank() && if sort.dir.Asc? then CellLe(collate, dates, a, b) else CellLe(collate, dates, b, a))
  }

  function ColumnOrder(collate: Collate, dates: bool, sort: Sort): (Row, Row) -> bool {
    (x: Row, y: Row) => ColumnLe(collate, dates, sort, x, y)
  }

  lemma ColumnPreorder(collate: Collate, dates: bool, sort: Sort)
    requires CollateOk(collate)
    ensures Preorder(ColumnOrder(collate, dates, sort))
  {
    forall a: Cell, b: Cell | !a.Blank() && !b.Blank()
      ensures CellLe(collate, dates, a, b) || CellLe(collate, dates, b, a)
    {
      StrTotal(a.text, b.text);
    }
    forall a: Cell, b: Cell, c: Cell {:trigger CellLe(collate, dates, a, b), CellLe(collate, dates, b, c)}
      | !a.Blank() && !b.Blank() && !c.Blank() && CellLe(collate, dates, a, b) && CellLe(collate, dates, b, c)
      ensures CellLe(collate, dates, a, c)
    {
      if dates && a.Textual() { StrTransitive(a.text, b.text, c.text); }
    }
  }

  lemma CellLeSign(collate: Collate, dates: bool, dir: Dir, a: Cell, b: Cell)
    requires CollateOk(collate) && !a.Blank() && !b.Blank()
    requires if dates then !a.Plain? && !b.Plain? else a.DateLike? && b.DateLike? ==> a.text == b.text
    ensures CompareCells(collate, a, b) * Sign(dir) <= 0.0
       <==> if dir.Asc? then CellLe(collate, dates, a, b) else CellLe(collate, dates, b, a)
  {
    StrTotal(a.text, b.text);
  }

  lemma RowLeIsColumnLe(collate: Collate, dates: bool, sort: Sort, rows: seq<Row>)
    requires CollateOk(collate) && Uniform(rows, sort.col, dates)
    ensures forall x, y :: x in rows && y in rows ==>
              RowLe(collate, sort, x, y) == ColumnLe(collate, dates, sort, x, y)
  {
    forall x, y | x in rows && y in rows
      ensures RowLe(collate, sort, x, y) == ColumnLe(collate, dates, sort, x, y)
    {
      var a, b := CellAt(x, sort.col), CellAt(y, sort.col);
      if !a.Blank() && !b.Blank() { CellLeSign(collate, dates, sort.dir, a, b); }
    }
  }

  /** On a uniform column the sort is the sort by one fixed total preorder. */
  lemma SortRowsByColumn(collate: Collate, dates: bool, rows: seq<Row>, sort: Sort)
    requires CollateOk(collate) && Uniform(rows, sort.col, dates)
    requires sort.col != "" && KnownColumn(rows, sort.col)
    ensures SortRows(collate, rows, Some(sort)) == SortBy(ColumnOrder(collate, dates, sort), rows)
  {
    RowLeIsColumnLe(collate, dates, sort, rows);
    SortByAgree(RowOrder(collate, sort), ColumnOrder(collate, dates, sort), rows);
  }

  // ---- Exactly when it does ----

  ghost predicate TransitiveOn(collate: Collate, cells: set<Cell>) {
    forall a, b, c :: a in cells && b in cells && c in cells && !a.Blank() && !b.Blank() && !c.Blank() ==>
      (CompareCells(collate, a, b) <= 0.0 && CompareCells(collate, b, c) <= 0.0 ==> CompareCells(collate, a, c) <= 0.0)
  }

  /** The same test as `Uniform`, on the cells of a column. */
  predicate Comparable(cells: set<Cell>) {
    || (forall a :: a in cells ==> !a.Plain?)
    || (forall a, b :: a in cells && b in cells && a.DateLike? && b.DateLike? ==> a.text == b.text)
  }

  lemma UniformIsComparable(rows: seq<Row>, col: string)
    ensures (exists dates :: Uniform(rows, col, dates)) <==> Comparable(set r | r in rows :: CellAt(r, col))
  {
    var cells := set r | r in rows :: CellAt(r, col);
    assert forall r :: r in rows ==> CellAt(r, col) in cells;
    assert Uniform(rows, col, true) <==> forall a :: a in cells ==> !a.Plain?;
    assert Uniform(rows, col, false) <==> forall a, b :: a in cells && b in cells && a.DateLike? && b.DateLike? ==> a.text == b.text;
  }

  function Place(first: string, last: string, s: string): real {
    if s == first then 0.0 else if s == last then 2.0 else 1.0
  }

  /** A collation that puts the earlier of two dates last. */
  function Against(early: string, late: string): Collate {
    (s: string, t: string) => Place(late, early, s) - Place(late, early, t)
  }

  /** Two date texts and another text: under some collation the comparator runs in a circle. */
  lemma MixedDatesCanCycle(early: Cell, late: Cell, p: Cell)
    requires early.DateLike? && late.DateLike? && p.Plain? && early.text != late.text && StrLe(early.text, late.text)
    ensures CollateOk(Against(early.text, late.text))
    ensures var collate := Against(early.text, late.text);
      CompareCells(collate, early, late) < 0.0 && CompareCells(collate, late, p) <= 0.0 && CompareCells(collate, p, early) <= 0.0
    ensures !TransitiveOn(Against(early.text, late.text), {early, late, p})
  {
    StrTotal(early.text, late.text);
    var collate := Against(early.text, late.text);
    assert CompareCells(collate, late, p) <= 0.0 && CompareCells(collate, p, early) <= 0.0 && CompareCells(collate, late, early) > 0.0;
  }

  /** The comparator orders these cells under every collation exactly when no cell is other
      text or the date-shaped ones have one text. Otherwise the answer of the sort can be up
      to the browser. */
  lemma TransitiveIff(cells: set<Cell>)
    ensures (forall collate :: CollateOk(collate) ==> TransitiveOn(collate, cells)) <==> Comparable(cells)
  {
    if Comparable(cells) {
      forall collate | CollateOk(collate) ensures TransitiveOn(collate, cells) { ComparableTransitive(collate, cells); }
    } else {
      var p :| p in cells && p.Plain?;
      var a, b :| a in cells && b in cells && a.DateLike? && b.DateLike? && a.text != b.text;
      StrTotal(a.text, b.text);
      var early, late := if StrLe(a.text, b.text) then a else b, if StrLe(a.text, b.text) then b else a;
      CycleWithin(cells, early, late, p);
    }
  }

  lemma CycleWithin(cells: set<Cell>, early: Cell, late: Cell, p: Cell)
    requires early in cells && late in cells && p in cells
    requires early.DateLike? && late.DateLike? && p.Plain? && early.text != late.text && StrLe(early.text, late.text)
    ensures exists collate :: CollateOk(collate) && !TransitiveOn(collate, cells)
  {
    MixedDatesCanCycle(early, late, p);
    var collate := Against(early.text, late.text);
    StrTotal(early.text, late.text);
    assert CompareCells(collate, late, p) <= 0.0 && CompareCells(collate, p, early) <= 0.0 && CompareCells(collate, late, early) > 0.0;
  }

  lemma ComparableTransitive(collate: Collate, cells: set<Cell>)
    requires CollateOk(collate) && Comparable(cells)
    ensures TransitiveOn(collate, cells)
  {
    var dates := forall a :: a in cells ==> !a.Plain?;
    forall a, b, c | a in cells && b in cells && c in cells && !a.Blank() && !b.Blank() && !c.Blank() &&
        CompareCells(collate, a, b) <= 0.0 && CompareCells(collate, b, c) <= 0.0
      ensures CompareCells(collate, a, c) <= 0.0
    {
      CellLeSign(collate, dates, Asc, a, b);
      CellLeSign(collate, dates, Asc, b, c);
      CellLeSign(collate, dates, Asc, a, c);
      if dates && a.Textual() { StrTransitive(a.text, b.text, c.text); }
    }
  }

  // ---- Any engine's sort gives the stable sort ----

  /** What a JavaScript engine promises of `items.sort(compare)`. */
  ghost predicate EngineSorted(collate: Collate, sort: Sort, items: seq<Indexed<Row>>, out: seq<Indexed<Row>>) {
    Permutes(out, items) && SortedBy((x, y) => CompareItems(collate, sort, x, y) <= 0.0, out)
  }

  lemma ComparatorIsBefore(collate: Collate, dates: bool, sort: Sort, x: Indexed<Row>, y: Indexed<Row>)
    requires CollateOk(collate) && Uniform([x.val, y.val], sort.col, dates) && x.at != y.at
    requires CompareItems(collate, sort, x, y) <= 0.0
    ensures Before(ColumnOrder(collate, dates, sort), x, y)
  {
    assert x.val in [x.val, y.val] && y.val in [x.val, y.val];
    var a, b := CellAt(x.val, sort.col), CellAt(y.val, sort.col);
    if !a.Blank() && !b.Blank() {
      CellLeSign(collate, dates, sort.dir, a, b);
      CellLeSign(collate, dates, sort.dir, b, a);
      CompareFlips(collate, a, b);
    }
  }

  lemma CompareFlips(collate: Collate, a: Cell, b: Cell)
    requires CollateOk(collate) && !a.Blank() && !b.Blank()
    ensures CompareCells(collate, a, b) <= 0.0 <==> CompareCells(collate, b, a) >= 0.0
  {
    StrTotal(a.text, b.text);
  }

  /** Any engine, any sort algorithm: the rows come out as the stable sort. */
  lemma EngineSortIsSortRows(collate: Collate, rows: seq<Row>, sort: Sort, out: seq<Indexed<Row>>)
    requires Sortable(collate, rows, Some(sort)) && sort.col != "" && KnownColumn(rows, sort.col)
    requires EngineSorted(collate, sort, Index(rows, 0), out)
    ensures Values(out) == SortRows(collate, rows, Some(sort))
  {
    var dates :| Uniform(rows, sort.col, dates);
    var items, le := Index(rows, 0), ColumnOrder(collate, dates, sort);
    PermutesIn(out, items);
    forall i, j | 0 <= i < j < |out| ensures BeforeBy(le)(out[i], out[j]) {
      IndexDistinct(rows, out, i, j);
      assert out[i] in items && out[j] in items;
      assert out[i].val in rows && out[j].val in rows;
      ComparatorIsBefore(collate, dates, sort, out[i], out[j]);
    }
    ColumnPreorder(collate, dates, sort);
    StableUnique(le, rows, out);
    SortRowsByColumn(collate, dates, rows, sort);
  }

  lemma BeforeIsComparator(collate: Collate, dates: bool, sort: Sort, x: Indexed<Row>, y: Indexed<Row>)
    requires CollateOk(collate) && Uniform([x.val, y.val], sort.col, dates) && x.at != y.at
    requires Before(ColumnOrder(collate, dates, sort), x, y)
    ensures CompareItems(collate, sort, x, y) <= 0.0
  {
    assert x.val in [x.val, y.val] && y.val in [x.val, y.val];
    var a, b := CellAt(x.val, sort.col), CellAt(y.val, sort.col);
    if !a.Blank() && !b.Blank() {
      CellLeSign(collate, dates, sort.dir, a, b);
      CellLeSign(collate, dates, sort.dir, b, a);
      CompareFlips(collate, a, b);
    }
  }

  /** And there is such an arrangement: the stable sort itself. */
  lemma StableSortIsEngineSorted(collate: Collate, rows: seq<Row>, sort: Sort) returns (out: seq<Indexed<Row>>)
    requires Sortable(collate, rows, Some(sort))
    ensures EngineSorted(collate, sort, Index(rows, 0), out)
  {
    var dates :| Uniform(rows, sort.col, dates);
    var items, le := Index(rows, 0), ColumnOrder(collate, dates, sort);
    ColumnPreorder(collate, dates, sort);
    out := SortBy(OnValues(le), items);
    SortByStable(le, items);
    SortByPermutes(OnValues(le), items);
    PermutesIn(out, items);
    forall i, j | 0 <= i < j < |out| ensures CompareItems(collate, sort, out[i], out[j]) <= 0.0 {
      IndexDistinct(rows, out, i, j);
      assert out[i] in items && out[j] in items;
      assert out[i].val in rows && out[j].val in rows;
      assert BeforeBy(le)(out[i], out[j]);
      BeforeIsComparator(collate, dates, sort, out[i], out[j]);
    }
  }

  lemma IndexDistinct(rows: seq<Row>, out: seq<Indexed<Row>>, i: int, j: int)
    requires Permutes(out, Index(rows, 0)) && 0 <= i < j < |out|
    ensures out[i].at != out[j].at
  {
    var items := Index(rows, 0);
    PermutesIn(out, items);
    DistinctPermutes(items, out);
    assert out[i] in items && out[j] in items;
  }

  // ---- What the sort keeps ----

  lemma SortRowsPermutes(collate: Collate, rows: seq<Row>, sort: Option<Sort>)
    ensures Permutes(SortRows(collate, rows, sort), rows)
  {
    if sort.Some? { SortByPermutes(RowOrder(collate, sort.value), rows); }
  }

  lemma UniformSubset(rows: seq<Row>, some: seq<Row>, col: string, dates: bool)
    requires Uniform(rows, col, dates) && forall r :: r in some ==> r in rows
    ensures Uniform(some, col, dates)
  {}

  lemma UnknownColumnBlank(rows: seq<Row>, sort: Sort)
    requires !KnownColumn(rows, sort.col)
    ensures forall r :: r in rows ==> CellAt(r, sort.col).Blank()
  {}

  lemma SortedByAgree<T>(le: (T, T) -> bool, le': (T, T) -> bool, xs: seq<T>)
    requires forall x, y :: x in xs && y in xs ==> le(x, y) == le'(x, y)
    requires SortedBy(le, xs)
    ensures SortedBy(le', xs)
  {}

  /** Sorted rows: blanks last in both directions, the rest by the comparator. */
  lemma SortRowsOrdered(collate: Collate, rows: seq<Row>, sort: Sort)
    requires Sortable(collate, rows, Some(sort)) && sort.col != ""
    ensures SortedBy(RowOrder(collate, sort), SortRows(collate, rows, Some(sort)))
  {
    var dates :| Uniform(rows, sort.col, dates);
    var out := SortRows(collate, rows, Some(sort));
    if KnownColumn(rows, sort.col) {
      SortRowsByColumn(collate, dates, rows, sort);
      ColumnPreorder(collate, dates, sort);
      SortBySorted(ColumnOrder(collate, dates, sort), rows);
      SortRowsPermutes(collate, rows, Some(sort));
      PermutesIn(out, rows);
      UniformSubset(rows, out, sort.col, dates);
      RowLeIsColumnLe(collate, dates, sort, out);
      SortedByAgree(ColumnOrder(collate, dates, sort), RowOrder(collate, sort), out);
    } else {
      UnknownColumnBlank(rows, sort);
    }
  }

  /** Numbers stand before text and rise; dates rise as their texts do; other text stands as the
      collation has it. */
  ghost predicate Ascends(collate: Collate, a: Cell, b: Cell) {
    if a.Num? || b.Num? then a.Num? && (b.Num? ==> a.val <= b.val)
    else if a.DateLike? && b.DateLike? then StrLe(a.text, b.text)
    else collate(a.text, b.text) <= 0.0
  }

  lemma CompareAscends(collate: Collate, dir: Dir, a: Cell, b: Cell)
    requires CollateOk(collate) && !a.Blank() && !b.Blank() && CompareCells(collate, a, b) * Sign(dir) <= 0.0
    ensures if dir.Asc? then Ascends(collate, a, b) else Ascends(collate, b, a)
  {
    StrTotal(a.text, b.text);
  }

  /** Any two rows of a sorted result, read off their cells: blanks last in both directions,
      ascending or descending before them. */
  lemma SortRowsAscend(collate: Collate, rows: seq<Row>, sort: Sort, i: nat, j: nat)
    requires Sortable(collate, rows, Some(sort)) && sort.col != "" && i < j < |SortRows(collate, rows, Some(sort))|
    ensures var out := SortRows(collate, rows, Some(sort));
      var a, b := CellAt(out[i], sort.col), CellAt(out[j], sort.col);
      && (a.Blank() ==> b.Blank())
      && (!a.Blank() && !b.Blank() ==> if sort.dir.Asc? then Ascends(collate, a, b) else Ascends(collate, b, a))
  {
    var out := SortRows(collate, rows, Some(sort));
    SortRowsOrdered(collate, rows, sort);
    assert RowOrder(collate, sort)(out[i], out[j]);
    var a, b := CellAt(out[i], sort.col), CellAt(out[j], sort.col);
    if !a.Blank() && !b.Blank() { CompareAscends(collate, sort.dir, a, b); }
  }

  lemma SortRowsIdempotent(collate: Collate, rows: seq<Row>, sort: Option<Sort>)
    requires Sortable(collate, rows, sort)
    ensures SortRows(collate, SortRows(collate, rows, sort), sort) == SortRows(collate, rows, sort)
  {
    if sort.Some? && sort.value.col != "" {
      SortRowsOrdered(collate, rows, sort.value);
      SortByFixed(RowOrder(collate, sort.value), SortRows(collate, rows, sort));
    }
  }

  /** Filtering and sorting commute, the unknown-column return included. */
  lemma SortRowsFilterCommute(collate: Collate, rows: seq<Row>, sort: Option<Sort>, keep: Row -> bool)
    requires Sortable(collate, rows, sort)
    ensures Filter(SortRows(collate, rows, sort), keep) == SortRows(collate, Filter(rows, keep), sort)
  {
    if sort.Some? && sort.value.col != "" && KnownColumn(rows, sort.value.col) {
      var s, kept := sort.value, Filter(rows, keep);
      var dates :| Uniform(rows, s.col, dates);
      ColumnPreorder(collate, dates, s);
      SortRowsByColumn(collate, dates, rows, s);
      SortFilterCommute(ColumnOrder(collate, dates, s), rows, keep);
      UniformSubset(rows, kept, s.col, dates);
      if KnownColumn(kept, s.col) {
        SortRowsByColumn(collate, dates, kept, s);
      } else {
        UnknownColumnBlank(kept, s);
        SortByFixed(ColumnOrder(collate, dates, s), kept);
      }
    }
  }

  // ---- The filter ----

  /** `trim` and `toLowerCase`, as parameters. */
  datatype TextOps = TextOps(trim: string -> string, lower: string -> string)

  predicate Includes(hay: string, needle: string) {
    needle <= hay || (hay != [] && Includes(hay[1..], needle))
  }

  function IndexOf(s: string, c: char): (i: int)
    ensures -1 <= i < |s|
    ensures i >= 0 ==> s[i] == c && c !in s[..i]
    ensures i < 0 ==> c !in s
  {
    if s == [] then -1
    else if s[0] == c then 0
    else
      var rest := IndexOf(s[1..], c);
      assert s == [s[0]] + s[1..];
      assert rest >= 0 ==> s[..rest + 1] == [s[0]] + s[1..][..rest];
      if rest < 0 then -1 else rest + 1
  }

  function FindColumn(ops: TextOps, cols: seq<string>, name: string): Option<string> {
    if cols == [] then None
    else if ops.lower(cols[0]) == name then Some(cols[0])
    else FindColumn(ops, cols[1..], name)
  }

  predicate CellIncludes(ops: TextOps, row: Row, col: string, needle: string) {
    Includes(ops.lower(CellAt(row, col).text), needle)
  }

  function FilterRows(ops: TextOps, rows: seq<Row>, cols: seq<string>, query: string): seq<Row> {
    var q := ops.trim(query);
    if q == "" then rows
    else
      var at := IndexOf(q, ':');
      var column := if at >= 0 then FindColumn(ops, cols, ops.lower(ops.trim(q[..at]))) else None;
      if column.Some? then
        var text := ops.lower(ops.trim(q[at + 1..]));
        if text == "" then rows
        else Filter(rows, (r: Row) => CellIncludes(ops, r, column.value, text))
      else
        var needle := ops.lower(q);
        Filter(rows, (r: Row) => exists c :: c in cols && CellIncludes(ops, r, c, needle))
  }

  /** A query keeps or drops each row on its own. */
  lemma FilterRowsByRow(ops: TextOps, cols: seq<string>, query: string) returns (keep: Row -> bool)
    ensures forall rows :: FilterRows(ops, rows, cols, query) == Filter(rows, keep)
  {
    var q := ops.trim(query);
    var at := IndexOf(q, ':');
    var column := if at >= 0 then FindColumn(ops, cols, ops.lower(ops.trim(q[..at]))) else None;
    var all := (r: Row) => true;
    keep := if q == "" then all
            else if column.Some? then
              var text := ops.lower(ops.trim(q[at + 1..]));
              if text == "" then all else (r: Row) => CellIncludes(ops, r, column.value, text)
            else
              var needle := ops.lower(q);
              (r: Row) => exists c :: c in cols && CellIncludes(ops, r, c, needle);
    forall rows ensures FilterRows(ops, rows, cols, query) == Filter(rows, keep) {
      FilterAll(rows, all);
    }
  }

  predicate OccursAt(needle: string, hay: string, i: nat) { i + |needle| <= |hay| && hay[i..i + |needle|] == needle }

  /** The text stands somewhere in the other. */
  ghost predicate Occurs(needle: string, hay: string) { exists i :: OccursAt(needle, hay, i) }

  lemma OccursLater(needle: string, hay: string, i: nat)
    requires hay != []
    ensures OccursAt(needle, hay, i + 1) <==> OccursAt(needle, hay[1..], i)
  {
    if i + 1 + |needle| <= |hay| { assert hay[i + 1..i + 1 + |needle|] == hay[1..][i..i + |needle|]; }
  }

  lemma {:induction false} IncludesOccurs(hay: string, needle: string)
    ensures Includes(hay, needle) <==> Occurs(needle, hay)
  {
    assert needle <= hay <==> OccursAt(needle, hay, 0);
    if hay != [] {
      IncludesOccurs(hay[1..], needle);
      if i: nat :| OccursAt(needle, hay[1..], i) { OccursLater(needle, hay, i); }
      if i: nat :| OccursAt(needle, hay, i) {
        if i > 0 { OccursLater(needle, hay, i - 1); }
      }
    }
  }

  /** The lowered text stands in the lowered text of one of these cells. */
  ghost predicate RowHas(ops: TextOps, row: Row, cols: seq<string>, text: string) {
    exists c :: c in cols && Occurs(ops.lower(text), ops.lower(if c in row then row[c].text else ""))
  }

  lemma {:induction false} FindColumnFirst(ops: TextOps, cols: seq<string>, name: string, k: nat)
    requires k <= |cols| && (k < |cols| ==> ops.lower(cols[k]) == name)
    requires forall j :: 0 <= j < k ==> ops.lower(cols[j]) != name
    ensures FindColumn(ops, cols, name) == if k < |cols| then Some(cols[k]) else None
  {
    if cols != [] && k > 0 {
      FindColumnFirst(ops, cols[1..], name, k - 1);
    }
  }

  lemma FirstColon(name: string, rest: string)
    requires ':' !in name
    ensures var q := name + ":" + rest;
      IndexOf(q, ':') == |name| && q[..|name|] == name && q[|name| + 1..] == rest
  {
    var q := name + ":" + rest;
    assert q[|name|] == ':';
    var at := IndexOf(q, ':');
    forall j | 0 <= j < at ensures q[j] != ':' { assert q[..at][j] == q[j]; }
    assert forall j :: 0 <= j < |name| ==> q[j] == name[j];
  }

  /** The query `name:text` keeps the rows whose cell in the first column of that name has the
      text, letter case aside. */
  lemma FilterOneColumn(ops: TextOps, rows: seq<Row>, cols: seq<string>, query: string, name: string, rest: string, k: nat, row: Row)
    requires ops.trim(query) == name + ":" + rest && ':' !in name
    requires k < |cols| && ops.lower(cols[k]) == ops.lower(ops.trim(name))
    requires forall j :: 0 <= j < k ==> ops.lower(cols[j]) != ops.lower(ops.trim(name))
    ensures row in FilterRows(ops, rows, cols, query) <==>
      row in rows && (ops.lower(ops.trim(rest)) == "" || RowHas(ops, row, [cols[k]], ops.trim(rest)))
  {
    FirstColon(name, rest);
    FindColumnFirst(ops, cols, ops.lower(ops.trim(name)), k);
    IncludesOccurs(ops.lower(CellAt(row, cols[k]).text), ops.lower(ops.trim(rest)));
    assert cols[k] in [cols[k]];
  }

  /** A query that names no column keeps the rows of which some cell has the whole query; an
      empty one keeps all. */
  lemma FilterAnyColumn(ops: TextOps, rows: seq<Row>, cols: seq<string>, query: string, row: Row)
    requires forall name, rest, j :: ops.trim(query) == name + ":" + rest && ':' !in name && 0 <= j < |cols| ==>
      ops.lower(cols[j]) != ops.lower(ops.trim(name))
    ensures row in FilterRows(ops, rows, cols, query) <==>
      row in rows && (ops.trim(query) == "" || RowHas(ops, row, cols, ops.trim(query)))
  {
    var q := ops.trim(query);
    var at := IndexOf(q, ':');
    if at >= 0 {
      assert q == q[..at] + ":" + q[at + 1..];
      FindColumnFirst(ops, cols, ops.lower(ops.trim(q[..at])), |cols|);
    }
    forall c ensures CellIncludes(ops, row, c, ops.lower(q)) <==> Occurs(ops.lower(q), ops.lower(CellAt(row, c).text)) {
      IncludesOccurs(ops.lower(CellAt(row, c).text), ops.lower(q));
    }
  }

  /** The grid filters, then sorts; sorting first would show the same rows. */
  lemma FilterThenSort(ops: TextOps, collate: Collate, rows: seq<Row>, cols: seq<string>, query: string, sort: Option<Sort>)
    requires Sortable(collate, rows, sort)
    ensures SortRows(collate, FilterRows(ops, rows, cols, query), sort)
         == FilterRows(ops, SortRows(collate, rows, sort), cols, query)
  {
    var keep := FilterRowsByRow(ops, cols, query);
    SortRowsFilterCommute(collate, rows, sort, keep);
  }

  // ---- The aggregate ----

  datatype Aggregate = Aggregate(count: nat, numeric: nat, sum: Option<real>, avg: Option<real>, min: Option<real>, max: Option<real>)

  function Numbers(values: seq<Cell>): seq<real> {
    if values == [] then []
    else if values[0].Num? then [values[0].val] + Numbers(values[1..])
    else Numbers(values[1..])
  }

  function Filled(values: seq<Cell>): nat {
    if values == [] then 0 else (if values[0].Blank() then 0 else 1) + Filled(values[1..])
  }

  function Sum(ns: seq<real>): real {
    if ns == [] then 0.0 else ns[0] + Sum(ns[1..])
  }

  /** The least number, which no other is below. */
  function Least(ns: seq<real>): (m: real)
    requires ns != []
    ensures m in ns && forall n :: n in ns ==> m <= n
  {
    assert ns == [ns[0]] + ns[1..];
    if |ns| == 1 then ns[0] else var r := Least(ns[1..]); if ns[0] < r then ns[0] else r
  }

  function Greatest(ns: seq<real>): (m: real)
    requires ns != []
    ensures m in ns && forall n :: n in ns ==> n <= m
  {
    assert ns == [ns[0]] + ns[1..];
    if |ns| == 1 then ns[0] else var r := Greatest(ns[1..]); if ns[0] > r then ns[0] else r
  }

  function AggregateOf(values: seq<Cell>): Aggregate {
    var ns := Numbers(values);
    if ns == [] then Aggregate(Filled(values), 0, None, None, None, None)
    else Aggregate(Filled(values), |ns|, Some(Sum(ns)), Some(Sum(ns) / |ns| as real), Some(Least(ns)), Some(Greatest(ns)))
  }

  method QhResAggregate(values: seq<Cell>) returns (a: Aggregate)
    ensures a == AggregateOf(values)
  {
    var count, numeric, sum := 0, 0, 0.0;
    var min: Option<real>, max: Option<real> := None, None;
    var i := 0;
    while i < |values|
      invariant 0 <= i <= |values|
      invariant count == Filled(values[..i])
      invariant numeric == |Numbers(values[..i])| && sum == Sum(Numbers(values[..i]))
      invariant min.None? == (numeric == 0) && max.None? == (numeric == 0)
      invariant numeric > 0 ==> min == Some(Least(Numbers(values[..i]))) && max == Some(Greatest(Numbers(values[..i])))
    {
      ghost var before := values[..i];
      assert values[..i + 1] == before + [values[i]];
      AggregateParts(before, [values[i]]);
      assert Numbers([values[i]]) == if values[i].Num? then [values[i].val] else [];
      assert Numbers(before) + [] == Numbers(before);
      if !values[i].Blank() {
        count := count + 1;
        if values[i].Num? {
          var n := values[i].val;
          SumAppend(Numbers(before), [n]);
          assert Sum([n]) == n;
          if numeric > 0 { ExtremesAppend(Numbers(before), [n]); }
          numeric := numeric + 1;
          sum := sum + n;
          if min.None? || n < min.value { min := Some(n); }
          if max.None? || n > max.value { max := Some(n); }
        }
      }
      i := i + 1;
    }
    assert values[..i] == values;
    if numeric == 0 { return Aggregate(count, numeric, None, None, None, None); }
    return Aggregate(count, numeric, Some(sum), Some(sum / numeric as real), min, max);
  }

  lemma {:induction false} AggregateParts(xs: seq<Cell>, ys: seq<Cell>)
    ensures Numbers(xs + ys) == Numbers(xs) + Numbers(ys)
    ensures Filled(xs + ys) == Filled(xs) + Filled(ys)
  {
    if xs == [] {
      assert xs + ys == ys;
    } else {
      assert (xs + ys)[1..] == xs[1..] + ys;
      AggregateParts(xs[1..], ys);
    }
  }

  lemma {:induction false} SumAppend(xs: seq<real>, ys: seq<real>)
    ensures Sum(xs + ys) == Sum(xs) + Sum(ys)
  {
    if xs == [] {
      assert xs + ys == ys;
    } else {
      assert (xs + ys)[1..] == xs[1..] + ys;
      SumAppend(xs[1..], ys);
    }
  }

  lemma ExtremesAppend(xs: seq<real>, ys: seq<real>)
    requires xs != [] && ys != []
    ensures Least(xs + ys) == if Least(ys) < Least(xs) then Least(ys) else Least(xs)
    ensures Greatest(xs + ys) == if Greatest(ys) > Greatest(xs) then Greatest(ys) else Greatest(xs)
  {
    assert Least(xs) in xs + ys && Least(ys) in xs + ys;
    assert Greatest(xs) in xs + ys && Greatest(ys) in xs + ys;
  }

  function OrElse(f: (real, real) -> real, x: Option<real>, y: Option<real>): Option<real> {
    if x.None? then y else if y.None? then x else Some(f(x.value, y.value))
  }

  function Combine(a: Aggregate, b: Aggregate): Aggregate {
    var sum := OrElse((x, y) => x + y, a.sum, b.sum);
    var n := a.numeric + b.numeric;
    Aggregate(a.count + b.count, n, sum, if sum.None? || n == 0 then None else Some(sum.value / n as real),
      OrElse((x: real, y: real) => if y < x then y else x, a.min, b.min),
      OrElse((x: real, y: real) => if y > x then y else x, a.max, b.max))
  }

  /** What one cell adds; with `AggregateAppend`, what any column comes to. */
  lemma AggregateOne(v: Cell)
    ensures AggregateOf([]) == Aggregate(0, 0, None, None, None, None)
    ensures AggregateOf([v]) ==
      match v
      case Empty(_) => Aggregate(0, 0, None, None, None, None)
      case Num(n, _) => Aggregate(1, 1, Some(n), Some(n), Some(n), Some(n))
      case _ => Aggregate(1, 0, None, None, None, None)
  {
    assert [v][1..] == [];
    if v.Num? {
      assert Numbers([v]) == [v.val];
      assert Sum([v.val]) == v.val + Sum([v.val][1..]) == v.val;
    }
  }

  /** Two pages summed apart add up to the aggregate of both. */
  lemma AggregateAppend(xs: seq<Cell>, ys: seq<Cell>)
    ensures AggregateOf(xs + ys) == Combine(AggregateOf(xs), AggregateOf(ys))
  {
    AggregateParts(xs, ys);
    var m, n := Numbers(xs), Numbers(ys);
    SumAppend(m, n);
    if m != [] && n != [] { ExtremesAppend(m, n); }
    if m == [] { assert m + n == n; }
    if n == [] { assert m + n == m; }
  }

  lemma AggregateSwap(xs: seq<Cell>, ys: seq<Cell>)
    ensures AggregateOf(xs + ys) == AggregateOf(ys + xs)
  {
    AggregateAppend(xs, ys);
    AggregateAppend(ys, xs);
  }

  lemma AggregateMoves(front: seq<Cell>, x: Cell, back: seq<Cell>)
    ensures AggregateOf([x] + (front + back)) == AggregateOf(front + [x] + back)
  {
    assert [x] + (front + back) == [x] + front + back;
    AggregateAppend([x] + front, back);
    AggregateAppend(front + [x], back);
    AggregateSwap(front, [x]);
  }

  /** The order of the rows does not matter to the sums under the grid. */
  lemma {:induction false} AggregatePermutes(xs: seq<Cell>, ys: seq<Cell>)
    requires Permutes(xs, ys)
    ensures AggregateOf(xs) == AggregateOf(ys)
    decreases |xs|
  {
    PermutesIn(xs, ys);
    if xs != [] {
      var x, rest := xs[0], xs[1..];
      assert xs == [x] + rest;
      var i := SplitAt(ys, x);
      var front, back := ys[..i], ys[i + 1..];
      assert multiset(rest) == multiset(xs) - multiset{x};
      AggregatePermutes(rest, front + back);
      AggregateAppend([x], rest);
      AggregateAppend([x], front + back);
      AggregateMoves(front, x, back);
    }
  }

  function Column(rows: seq<Row>, col: string): seq<Cell> { Map(rows, (r: Row) => CellAt(r, col)) }

  /** Sorting by any column leaves every column's sums as they were. */
  lemma SortKeepsAggregates(collate: Collate, rows: seq<Row>, sort: Option<Sort>, col: string)
    ensures AggregateOf(Column(SortRows(collate, rows, sort), col)) == AggregateOf(Column(rows, col))
  {
    SortRowsPermutes(collate, rows, sort);
    MapPermutes(SortRows(collate, rows, sort), rows, (r: Row) => CellAt(r, col));
    AggregatePermutes(Column(SortRows(collate, rows, sort), col), Column(rows, col));
  }

  lemma {:induction false} SumBounds(ns: seq<real>, lo: real, hi: real)
    requires forall n :: n in ns ==> lo <= n <= hi
    ensures |ns| as real * lo <= Sum(ns) <= |ns| as real * hi
  {
    if ns != [] {
      forall n | n in ns[1..] ensures n in ns {}
      SumBounds(ns[1..], lo, hi);
      assert ns[0] in ns;
      assert |ns| as real == 1.0 + |ns[1..]| as real;
    }
  }

  lemma AggregateBounds(values: seq<Cell>)
    ensures var a := AggregateOf(values);
      a.numeric > 0 ==> Within(a.numeric, a.min.value, a.sum.value, a.max.value) && a.min.value <= a.avg.value <= a.max.value
  {
    var ns := Numbers(values);
    if ns != [] {
      TotalBounds(ns, Least(ns), Greatest(ns), Sum(ns));
    }
  }

  /** `s` may be the sum of `n` numbers between `lo` and `hi`. */
  predicate Within(n: nat, lo: real, s: real, hi: real) { n as real * lo <= s <= n as real * hi }

  lemma TotalBounds(ns: seq<real>, lo: real, hi: real, s: real)
    requires ns != [] && s == Sum(ns) && forall n :: n in ns ==> lo <= n <= hi
    ensures Within(|ns|, lo, s, hi) && lo <= s / |ns| as real <= hi
  {
    SumBounds(ns, lo, hi);
  }

}
