/** Two reports over one fold: grouped by model for the summary, by day and every
    stackable dimension for the daily grid. */
module Summary {
  import opened Records
  import opened Sets
  import opened Totals
  import opened Pricing
  import opened Requests
  import opened Daily

  /** The tokens of the requests in one group. */
  function GroupTokens<K(==)>(reqs: seq<Request>, key: Request -> K, k: K): Tokens {
    if reqs == [] then NO_TOKENS
    else
      var r := reqs[|reqs| - 1];
      var before := GroupTokens(reqs[..|reqs| - 1], key, k);
      if key(r) == k then Plus(before, TokensOf(r.usage)) else before
  }

  function GroupCount<K(==)>(reqs: seq<Request>, key: Request -> K, k: K): int {
    if reqs == [] then 0
    else GroupCount(reqs[..|reqs| - 1], key, k) + if key(reqs[|reqs| - 1]) == k then 1 else 0
  }

  /** Each request priced on its own. */
  function RequestsCost(prices: PriceTable, reqs: seq<Request>): real {
    if reqs == [] then 0.0
    else RequestsCost(prices, reqs[..|reqs| - 1]) + Cost(prices, reqs[|reqs| - 1].model, TokensOf(reqs[|reqs| - 1].usage))
  }

  /** Each group priced on its sum. */
  ghost function GroupsCost<K>(prices: PriceTable, reqs: seq<Request>, groups: set<K>, key: Request -> K, modelOf: K -> string): real {
    Total(groups, k => Cost(prices, modelOf(k), GroupTokens(reqs, key, k)))
  }

  ghost function GroupsCount<K>(reqs: seq<Request>, groups: set<K>, key: Request -> K): real {
    Total(groups, k => GroupCount(reqs, key, k) as real)
  }

  lemma GroupsTakeOut<K>(prices: PriceTable, reqs: seq<Request>, groups: set<K>, key: Request -> K, modelOf: K -> string, k: K)
    requires k in groups
    ensures GroupsCost(prices, reqs, groups, key, modelOf) ==
              Cost(prices, modelOf(k), GroupTokens(reqs, key, k)) + GroupsCost(prices, reqs, groups - {k}, key, modelOf)
    ensures GroupsCount(reqs, groups, key) == GroupCount(reqs, key, k) as real + GroupsCount(reqs, groups - {k}, key)
  {
    TotalTakesOut(groups, k => Cost(prices, modelOf(k), GroupTokens(reqs, key, k)), k);
    TotalTakesOut(groups, k => GroupCount(reqs, key, k) as real, k);
  }

  /** However requests are grouped, as long as a group has one model, the groups'
      costs sum to the requests' costs, and their counts to the number of requests. */
  lemma {:induction false} GroupingKeepsCost<K>(prices: PriceTable, reqs: seq<Request>, groups: set<K>, key: Request -> K, modelOf: K -> string)
    requires forall r :: r in reqs ==> key(r) in groups && modelOf(key(r)) == r.model
    ensures GroupsCost(prices, reqs, groups, key, modelOf) == RequestsCost(prices, reqs)
    ensures GroupsCount(reqs, groups, key) == |reqs| as real
    decreases |reqs|
  {
    hide Cost;
    if reqs == [] {
      forall k ensures Cost(prices, modelOf(k), NO_TOKENS) == 0.0 {
        CostAdds(prices, modelOf(k), NO_TOKENS, NO_TOKENS);
      }
      TotalOfSome(groups, {}, 0.0, k => Cost(prices, modelOf(k), GroupTokens(reqs, key, k)));
      TotalOfSome(groups, {}, 0.0, k => GroupCount(reqs, key, k) as real);
      TimesUnits(0.0);
    } else {
      var before, r := reqs[..|reqs| - 1], reqs[|reqs| - 1];
      assert r in reqs && forall x :: x in before ==> x in reqs;
      GroupingKeepsCost(prices, before, groups, key, modelOf);
      OneMoreRequest(prices, before, r, reqs, groups, key, modelOf);
    }
  }

  lemma OneMoreRequest<K>(prices: PriceTable, before: seq<Request>, r: Request, reqs: seq<Request>, groups: set<K>, key: Request -> K, modelOf: K -> string)
    requires reqs != [] && before == reqs[..|reqs| - 1] && r == reqs[|reqs| - 1] && key(r) in groups && modelOf(key(r)) == r.model
    ensures GroupsCost(prices, reqs, groups, key, modelOf) ==
              GroupsCost(prices, before, groups, key, modelOf) + Cost(prices, r.model, TokensOf(r.usage))
    ensures GroupsCount(reqs, groups, key) == GroupsCount(before, groups, key) + 1.0
  {
    hide Cost;
    var c := Cost(prices, r.model, TokensOf(r.usage));
    var mine := k => if key(r) == k then c else 0.0;
    var one := k => if key(r) == k then 1.0 else 0.0;
    TotalOfSome(groups, {key(r)}, c, mine);
    TotalOfSome(groups, {key(r)}, 1.0, one);
    TimesUnits(c);
    TimesUnits(1.0);
    forall k | k in groups
      ensures Cost(prices, modelOf(k), GroupTokens(reqs, key, k)) == Cost(prices, modelOf(k), GroupTokens(before, key, k)) + mine(k)
    {
      CostAdds(prices, modelOf(k), GroupTokens(before, key, k), TokensOf(r.usage));
    }
    TotalOfSum(groups, k => Cost(prices, modelOf(k), GroupTokens(before, key, k)), mine, k => Cost(prices, modelOf(k), GroupTokens(reqs, key, k)));
    TotalOfSum(groups, k => GroupCount(before, key, k) as real, one, k => GroupCount(reqs, key, k) as real);
  }

  // ---- The daily grid ----

  datatype Cell = Cell(day: string, model: string, origin: Origin, session: string, cwd: string, branch: string)

  function CellOf(r: Request): Cell {
    Cell(r.day, r.model, r.origin, r.session, r.cwd, r.branch)
  }

  function ModelOfCell(c: Cell): string {
    c.model
  }

  function RowOf(reqs: seq<Request>, c: Cell): GridRow {
    GridRow(c.day, c.model, c.origin, c.session, c.cwd, c.branch,
            GroupCount(reqs, CellOf, c), GroupTokens(reqs, CellOf, c))
  }

  /** One row for each cell that has a request, `WHERE day <> ''`. */
  ghost predicate IsGrid(reqs: seq<Request>, cells: seq<Cell>, grid: seq<GridRow>) {
    && (forall i, j :: 0 <= i < j < |cells| ==> cells[i] != cells[j])
    && (forall c :: c in cells <==> c.day != "" && exists r :: r in reqs && CellOf(r) == c)
    && |grid| == |cells| && forall i :: 0 <= i < |grid| ==> grid[i] == RowOf(reqs, cells[i])
  }

  function CellSet(cells: seq<Cell>): set<Cell> {
    set c | c in cells
  }

  function GridCost(prices: PriceTable, grid: seq<GridRow>): real {
    if grid == [] then 0.0 else GridCost(prices, grid[..|grid| - 1]) + RowCost(prices, grid[|grid| - 1])
  }

  function GridCount(grid: seq<GridRow>): int {
    if grid == [] then 0 else GridCount(grid[..|grid| - 1]) + grid[|grid| - 1].requests
  }

  lemma {:induction false} GridIsCells(prices: PriceTable, reqs: seq<Request>, cells: seq<Cell>, grid: seq<GridRow>)
    requires forall i, j :: 0 <= i < j < |cells| ==> cells[i] != cells[j]
    requires |grid| == |cells| && forall i :: 0 <= i < |grid| ==> grid[i] == RowOf(reqs, cells[i])
    ensures GridCost(prices, grid) == GroupsCost(prices, reqs, CellSet(cells), CellOf, ModelOfCell)
    ensures GridCount(grid) as real == GroupsCount(reqs, CellSet(cells), CellOf)
    decreases |cells|
  {
    hide Cost, GroupTokens, GroupCount;
    if cells == [] {
      assert CellSet(cells) == {};
    } else {
      var before, c := cells[..|cells| - 1], cells[|cells| - 1];
      GridIsCells(prices, reqs, before, grid[..|grid| - 1]);
      var all, was := CellSet(cells), CellSet(before);
      assert all == was + {c} && c !in was;
      GroupsTakeOut(prices, reqs, all, CellOf, ModelOfCell, c);
      assert all - {c} == was;
    }
  }

  /** Days' costs sum to the grid's. */
  lemma {:induction false} DaysSumToGrid(prices: PriceTable, grid: seq<GridRow>, days: set<string>)
    requires forall r :: r in grid ==> r.day in days
    ensures Total(days, d => DayCost(prices, grid, d)) == GridCost(prices, grid)
    decreases |grid|
  {
    hide RowCost;
    if grid == [] {
      TotalOfSome(days, {}, 0.0, d => DayCost(prices, grid, d));
      TimesUnits(0.0);
    } else {
      var before, r := grid[..|grid| - 1], grid[|grid| - 1];
      assert r in grid && forall x :: x in before ==> x in grid;
      DaysSumToGrid(prices, before, days);
      var c := RowCost(prices, r);
      var mine := d => if r.day == d then c else 0.0;
      TotalOfSome(days, {r.day}, c, mine);
      TimesUnits(c);
      TotalOfSum(days, d => DayCost(prices, before, d), mine, d => DayCost(prices, grid, d));
    }
  }

  function ModelOfRequest(r: Request): string {
    r.model
  }

  function Itself(model: string): string {
    model
  }

  /** The model table of the summary. */
  ghost function SummaryCost(prices: PriceTable, reqs: seq<Request>, models: set<string>): real {
    GroupsCost(prices, reqs, models, ModelOfRequest, Itself)
  }

  lemma SummaryIs(prices: PriceTable, reqs: seq<Request>, models: set<string>, f: string -> real)
    requires forall m :: m in models ==> f(m) == Cost(prices, Itself(m), GroupTokens(reqs, ModelOfRequest, m))
    ensures SummaryCost(prices, reqs, models) == Total(models, f)
  {
    hide Cost, GroupTokens;
    SameGroups(prices, reqs, models, ModelOfRequest, Itself, f);
  }

  lemma SameGroups<K>(prices: PriceTable, reqs: seq<Request>, groups: set<K>, key: Request -> K, modelOf: K -> string, f: K -> real)
    requires forall k :: k in groups ==> f(k) == Cost(prices, modelOf(k), GroupTokens(reqs, key, k))
    ensures GroupsCost(prices, reqs, groups, key, modelOf) == Total(groups, f)
  {
    TotalAgrees(groups, k => Cost(prices, modelOf(k), GroupTokens(reqs, key, k)), f);
  }

  lemma SummaryIsRequests(prices: PriceTable, reqs: seq<Request>, models: set<string>)
    requires forall r :: r in reqs ==> r.model in models
    ensures SummaryCost(prices, reqs, models) == RequestsCost(prices, reqs)
  {
    GroupingKeepsCost(prices, reqs, models, ModelOfRequest, Itself);
  }

  lemma GridIsRequests(prices: PriceTable, reqs: seq<Request>, cells: seq<Cell>, grid: seq<GridRow>)
    requires IsGrid(reqs, cells, grid) && forall r :: r in reqs ==> r.day != ""
    ensures GridCost(prices, grid) == RequestsCost(prices, reqs)
    ensures GridCount(grid) == |reqs|
  {
    hide GroupsCost, GroupsCount, RowOf;
    GridIsCells(prices, reqs, cells, grid);
    GroupingKeepsCost(prices, reqs, CellSet(cells), CellOf, ModelOfCell);
  }

  // ---- Requests with a date ----

  predicate HasDay(r: Request) {
    r.day != ""
  }

  function Select(reqs: seq<Request>, keep: Request -> bool): seq<Request> {
    if reqs == [] then []
    else
      var r := reqs[|reqs| - 1];
      Select(reqs[..|reqs| - 1], keep) + if keep(r) then [r] else []
  }

  lemma {:induction false} SelectedAre(reqs: seq<Request>, keep: Request -> bool)
    ensures forall r :: r in Select(reqs, keep) <==> r in reqs && keep(r)
    decreases |reqs|
  {
    if reqs != [] {
      SelectedAre(reqs[..|reqs| - 1], keep);
      assert forall x :: x in reqs <==> x in reqs[..|reqs| - 1] || x == reqs[|reqs| - 1];
    }
  }

  lemma {:induction false} SelectionSplits(prices: PriceTable, reqs: seq<Request>, keep: Request -> bool, drop: Request -> bool)
    requires forall r :: drop(r) <==> !keep(r)
    ensures RequestsCost(prices, reqs) == RequestsCost(prices, Select(reqs, keep)) + RequestsCost(prices, Select(reqs, drop))
    ensures |reqs| == |Select(reqs, keep)| + |Select(reqs, drop)|
    decreases |reqs|
  {
    hide Cost;
    if reqs != [] {
      var before, r := reqs[..|reqs| - 1], reqs[|reqs| - 1];
      SelectionSplits(prices, before, keep, drop);
      assert Select(before, keep) + [r] == if keep(r) then Select(reqs, keep) else Select(before, keep) + [r];
      LastCosts(prices, Select(before, keep), r);
      LastCosts(prices, Select(before, drop), r);
    }
  }

  lemma LastCosts(prices: PriceTable, before: seq<Request>, r: Request)
    ensures RequestsCost(prices, before + [r]) == RequestsCost(prices, before) + Cost(prices, r.model, TokensOf(r.usage))
    ensures RequestsCost(prices, before + []) == RequestsCost(prices, before)
  {
    assert (before + [r])[..|before|] == before && before + [] == before;
  }

  /** A group that only has chosen requests is not changed by the choice. */
  lemma {:induction false} SelectKeepsGroup<K>(reqs: seq<Request>, keep: Request -> bool, key: Request -> K, k: K)
    requires forall r :: key(r) == k ==> keep(r)
    ensures GroupTokens(Select(reqs, keep), key, k) == GroupTokens(reqs, key, k)
    ensures GroupCount(Select(reqs, keep), key, k) == GroupCount(reqs, key, k)
    decreases |reqs|
  {
    if reqs != [] {
      var before, r := reqs[..|reqs| - 1], reqs[|reqs| - 1];
      SelectKeepsGroup(before, keep, key, k);
      var chosen := Select(before, keep);
      assert (chosen + [r])[..|chosen|] == chosen && chosen + [] == chosen;
    }
  }

  function Dated(reqs: seq<Request>): seq<Request> {
    Select(reqs, HasDay)
  }

  function Undated(reqs: seq<Request>): seq<Request> {
    Select(reqs, r => !HasDay(r))
  }

  /** The grid does not see requests without a date. */
  lemma GridIsOfDated(reqs: seq<Request>, cells: seq<Cell>, grid: seq<GridRow>)
    requires IsGrid(reqs, cells, grid)
    ensures IsGrid(Dated(reqs), cells, grid)
  {
    hide GroupTokens, GroupCount, Select;
    SelectedAre(reqs, HasDay);
    forall i | 0 <= i < |grid| ensures grid[i] == RowOf(Dated(reqs), cells[i]) {
      assert cells[i] in cells;
      SelectKeepsGroup(reqs, HasDay, CellOf, cells[i]);
    }
    DatedCells(reqs, cells);
  }

  lemma DatedCells(reqs: seq<Request>, cells: seq<Cell>)
    requires forall c :: c in cells <==> c.day != "" && exists r :: r in reqs && CellOf(r) == c
    ensures forall c :: c in cells <==> c.day != "" && exists r :: r in Dated(reqs) && CellOf(r) == c
  {
    SelectedAre(reqs, HasDay);
    forall c ensures c in cells <==> c.day != "" && exists r :: r in Dated(reqs) && CellOf(r) == c {
      if r :| r in reqs && CellOf(r) == c && c.day != "" {
        assert r in Dated(reqs);
      }
    }
  }

  /** The days' costs and requests, with those of the requests that have no date,
      sum to the summary's. */
  lemma DaysSumToModels(prices: PriceTable, reqs: seq<Request>, cells: seq<Cell>, grid: seq<GridRow>, days: set<string>, models: set<string>)
    requires IsGrid(reqs, cells, grid) && (forall r :: r in grid ==> r.day in days)
    requires forall r :: r in reqs ==> r.model in models
    ensures Total(days, d => DayCost(prices, grid, d)) + RequestsCost(prices, Undated(reqs)) == SummaryCost(prices, reqs, models)
    ensures GridCount(grid) + |Undated(reqs)| == |reqs|
  {
    hide IsGrid, GridCost, RequestsCost, SummaryCost, GridCount, DayCost, Select;
    DaysSumToGrid(prices, grid, days);
    GridIsOfDated(reqs, cells, grid);
    SelectedAre(reqs, HasDay);
    GridIsRequests(prices, Dated(reqs), cells, grid);
    SelectionSplits(prices, reqs, HasDay, r => !HasDay(r));
    SummaryIsRequests(prices, reqs, models);
  }

  // ---- Over the archive's rows ----

  lemma PickedIsRow(rows: seq<Record>, q: string)
    requires Numbered(rows)
    ensures Picked(rows, q).Some? ==> Picked(rows, q).value in rows && Picked(rows, q).value.line.requestId == q != ""
  {
    PickedIsLeast(rows, q);
  }

  /** Each request of the fold is one of the archive's lines. */
  lemma FoldedAreRows(rows: seq<Record>, ids: seq<string>, reqs: seq<Request>)
    requires Numbered(rows) && IsFold(rows, ids, reqs)
    ensures forall r :: r in reqs ==> exists x :: x in rows && x.line.requestId != "" && r == ToRequest(x)
  {
    hide Picked, ToRequest;
    forall r | r in reqs ensures exists x :: x in rows && x.line.requestId != "" && r == ToRequest(x) {
      var i :| 0 <= i < |reqs| && reqs[i] == r;
      PickedIsRow(rows, ids[i]);
    }
  }

  /** Over the fold of the archive's rows: the daily grid and the model table come to
      the same cost and the same number of requests, one for each distinct request
      id, except for the requests whose picked line has no date, which only the
      summary has. */
  lemma DailySumsToSummary(prices: PriceTable, rows: seq<Record>, ids: seq<string>, reqs: seq<Request>,
                           cells: seq<Cell>, grid: seq<GridRow>, days: set<string>, models: set<string>)
    requires Numbered(rows) && IsFold(rows, ids, reqs)
    requires IsGrid(reqs, cells, grid) && forall r :: r in grid ==> r.day in days
    requires forall x :: x in rows && x.line.requestId != "" ==> x.line.model in models
    ensures Total(days, d => DayCost(prices, grid, d)) + RequestsCost(prices, Undated(reqs)) == SummaryCost(prices, reqs, models)
    ensures GridCount(grid) + |Undated(reqs)| == |IdSet(rows)|
    ensures GridCount(grid) == |IdSet(rows)| <==> forall r :: r in reqs ==> r.day != ""
  {
    hide IsGrid, GridCost, RequestsCost, SummaryCost, GridCount, DayCost, Select, Picked, IsFold;
    FoldedAreRows(rows, ids, reqs);
    FoldCounts(rows, ids, reqs);
    DaysSumToModels(prices, reqs, cells, grid, days, models);
    NoneUndated(reqs);
  }

  lemma NoneUndated(reqs: seq<Request>)
    ensures |Undated(reqs)| == 0 <==> forall r :: r in reqs ==> r.day != ""
  {
    SelectedAre(reqs, r => !HasDay(r));
    FirstIsIn(Undated(reqs));
  }

  /** A group's sums do not depend on where in the table its requests are. */
  lemma {:induction false} GroupTakesOut<K>(reqs: seq<Request>, key: Request -> K, k: K, j: nat)
    requires j < |reqs|
    ensures var rest := Without(reqs, j);
            && GroupTokens(reqs, key, k) ==
                 (if key(reqs[j]) == k then Plus(GroupTokens(rest, key, k), TokensOf(reqs[j].usage)) else GroupTokens(rest, key, k))
            && GroupCount(reqs, key, k) == GroupCount(rest, key, k) + if key(reqs[j]) == k then 1 else 0
    decreases |reqs|
  {
    var n := |reqs| - 1;
    if j < n {
      GroupTakesOut(reqs[..n], key, k, j);
      assert Without(reqs, j)[..n - 1] == Without(reqs[..n], j);
    } else {
      assert Without(reqs, j) == reqs[..n];
    }
  }

  ghost predicate SameBill<K>(key: Request -> K, x: Request, y: Request) {
    key(x) == key(y) && x.usage == y.usage
  }

  /** Tables whose corresponding requests agree in group and usage have the same sums. */
  lemma {:induction false} SameSums<K>(a: seq<string>, x: seq<Request>, b: seq<string>, y: seq<Request>, same: (Request, Request) -> bool, key: Request -> K, k: K)
    requires NoRepeats(a) && NoRepeats(b) && (forall q :: q in a <==> q in b)
    requires Correspond(a, x, b, y, same) && forall u, v :: same(u, v) ==> SameBill(key, u, v)
    ensures GroupTokens(x, key, k) == GroupTokens(y, key, k) && GroupCount(x, key, k) == GroupCount(y, key, k)
    ensures |x| == |y|
    decreases |a|
  {
    if a == [] {
      FirstIsIn(b);
    } else {
      var j := FindSame(a, b);
      var n := |a| - 1;
      CorrespondWithout(a, x, b, y, same, j);
      SameSums(a[..n], x[..n], Without(b, j), Without(y, j), same, key, k);
      assert SameBill(key, x[n], y[j]);
      GroupTakesOut(y, key, k, j);
    }
  }

  /** However the rows and the groups come, every group of the fold has the same sums. */
  lemma OrderChangesNoTotal<K>(a: seq<Record>, ids: seq<string>, reqs: seq<Request>, b: seq<Record>, ids': seq<string>, reqs': seq<Request>,
                               key: Request -> K, k: K)
    requires IsFold(a, ids, reqs) && IsFold(b, ids', reqs')
    requires Numbered(a) && OneRowEach(a) && forall r :: r in a <==> r in b
    ensures GroupTokens(reqs', key, k) == GroupTokens(reqs, key, k) && GroupCount(reqs', key, k) == GroupCount(reqs, key, k)
  {
    hide Picked;
    assert IdSet(a) == IdSet(b);
    forall q ensures Picked(a, q) == Picked(b, q) {
      FoldIgnoresOrder(a, b, q);
    }
    SameSums(ids, reqs, ids', reqs', (x, y) => x == y, key, k);
  }

  /** The lines of one request say the same of its usage and model. */
  ghost predicate Repeats(rows: seq<Record>) {
    forall x, y :: x in rows && y in rows && x.line.requestId == y.line.requestId != "" ==>
      x.line.usage == y.line.usage && x.line.model == y.line.model
  }

  ghost predicate SameModelBill(x: Request, y: Request) {
    SameBill(ModelOfRequest, x, y)
  }

  /** Further lines that repeat requests already there change no total: not the
      number of requests, no model's tokens or count, and not the cost. */
  lemma RepeatedLinesChangeNoTotal(prices: PriceTable, rows: seq<Record>, ids: seq<string>, reqs: seq<Request>,
                                   more: seq<Record>, ids': seq<string>, reqs': seq<Request>, models: set<string>)
    requires IsFold(rows, ids, reqs) && IsFold(more, ids', reqs')
    requires Numbered(more) && (forall r :: r in rows ==> r in more) && IdSet(more) == IdSet(rows) && Repeats(more)
    ensures |reqs'| == |reqs| == |IdSet(rows)|
    ensures forall m ::
              && GroupTokens(reqs', ModelOfRequest, m) == GroupTokens(reqs, ModelOfRequest, m)
              && GroupCount(reqs', ModelOfRequest, m) == GroupCount(reqs, ModelOfRequest, m)
    ensures SummaryCost(prices, reqs', models) == SummaryCost(prices, reqs, models)
  {
    hide Picked, GroupTokens, GroupCount, Cost;
    FoldCounts(rows, ids, reqs);
    FoldCounts(more, ids', reqs');
    forall i, j | 0 <= i < |ids| && 0 <= j < |ids'| && ids[i] == ids'[j] ensures SameModelBill(reqs[i], reqs'[j]) {
      PickedIsRow(rows, ids[i]);
      PickedIsRow(more, ids[i]);
    }
    forall m ensures GroupTokens(reqs', ModelOfRequest, m) == GroupTokens(reqs, ModelOfRequest, m)
                  && GroupCount(reqs', ModelOfRequest, m) == GroupCount(reqs, ModelOfRequest, m)
    {
      SameSums(ids, reqs, ids', reqs', (x, y) => SameModelBill(x, y), ModelOfRequest, m);
    }
    SummaryIs(prices, reqs, models, m => Cost(prices, Itself(m), GroupTokens(reqs, ModelOfRequest, m)));
    SummaryIs(prices, reqs', models, m => Cost(prices, Itself(m), GroupTokens(reqs, ModelOfRequest, m)));
  }

  /** There is a grid for any requests. */
  lemma GridExists(reqs: seq<Request>) returns (cells: seq<Cell>, grid: seq<GridRow>)
    ensures IsGrid(reqs, cells, grid)
  {
    cells := Listing(set r | r in reqs && CellOf(r).day != "" :: CellOf(r));
    grid := seq(|cells|, i requires 0 <= i < |cells| => RowOf(reqs, cells[i]));
  }

  /** A line of a request that nobody dated. */
  const UNDATED: Record := Record("o", 1, Line("s", "p", 0, "h", "", "", "", "q", "m", Usage(1, 1, 0, 0, 0, 0), []), BLANK)

  /** The summary has that request, and no grid does. */
  lemma UndatedIsInNoGrid(ids: seq<string>, reqs: seq<Request>, cells: seq<Cell>, grid: seq<GridRow>)
    requires IsFold([UNDATED], ids, reqs) && IsGrid(reqs, cells, grid)
    ensures GridCount(grid) == 0 && |reqs| == |IdSet([UNDATED])| == 1
  {
    hide Picked, RowOf;
    FoldedAreRows([UNDATED], ids, reqs);
    FoldCounts([UNDATED], ids, reqs);
    assert UNDATED in [UNDATED] && IdSet([UNDATED]) == {"q"};
    NoCells(reqs, cells);
  }

  lemma NoCells(reqs: seq<Request>, cells: seq<Cell>)
    requires forall c :: c in cells <==> c.day != "" && exists r :: r in reqs && CellOf(r) == c
    requires forall r :: r in reqs ==> r.day == ""
    ensures cells == []
  {
    FirstIsIn(cells);
  }
}
