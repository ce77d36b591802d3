/** What the reports say, told by the archive's lines: each request is the line the
    fold picked for it, and counts where that line's own fields put it. */
module Billing {
  import opened Records
  import opened Totals
  import opened Pricing
  import opened Requests
  import opened Daily
  import opened Summary
  import opened Deliveries

  // ---- Sums over the picked lines ----

  /** The line the fold picked for each request. */
  function PickedLines(rows: seq<Record>, ids: seq<string>): seq<Record>
    requires forall r :: r in rows ==> 0 <= r.num
    requires forall i :: 0 <= i < |ids| ==> Picked(rows, ids[i]).Some?
  {
    seq(|ids|, i requires 0 <= i < |ids| => Picked(rows, ids[i]).value)
  }

  /** A line's capture time begins with the date: its first ten characters, or all of a
      shorter one. */
  predicate CapturedOn(x: Record, date: string) {
    if |x.line.capturedAt| < 10 then x.line.capturedAt == date
    else x.line.capturedAt[..10] == date
  }

  function Captured(date: string): Record -> bool {
    (x: Record) => CapturedOn(x, date)
  }

  function OfModel(model: string): Record -> bool {
    (x: Record) => x.line.model == model
  }

  function Every(): Record -> bool {
    (x: Record) => true
  }

  function UsageOf(x: Record): Tokens {
    var u := x.line.usage;
    Tokens(u.input as real, u.output as real, u.cacheRead as real, u.cacheWrite5m as real, u.cacheWrite1h as real)
  }

  function CountWhere(lines: seq<Record>, p: Record -> bool): int {
    if lines == [] then 0 else CountWhere(lines[..|lines| - 1], p) + if p(lines[|lines| - 1]) then 1 else 0
  }

  function UsageWhere(lines: seq<Record>, p: Record -> bool): Tokens {
    if lines == [] then NO_TOKENS
    else
      var before := UsageWhere(lines[..|lines| - 1], p);
      if p(lines[|lines| - 1]) then Plus(before, UsageOf(lines[|lines| - 1])) else before
  }

  /** Each line priced by its own model. */
  function CostWhere(prices: PriceTable, lines: seq<Record>, p: Record -> bool): real {
    if lines == [] then 0.0
    else
      var x := lines[|lines| - 1];
      CostWhere(prices, lines[..|lines| - 1], p) + if p(x) then Cost(prices, x.line.model, UsageOf(x)) else 0.0
  }

  lemma {:induction false} SomeCounted(lines: seq<Record>, p: Record -> bool, x: Record)
    requires x in lines && p(x)
    ensures 0 < CountWhere(lines, p)
    decreases |lines|
  {
    var before := lines[..|lines| - 1];
    NothingNegative(before, p);
    if x in before {
      SomeCounted(before, p, x);
    }
  }

  lemma {:induction false} NothingNegative(lines: seq<Record>, p: Record -> bool)
    ensures 0 <= CountWhere(lines, p)
    decreases |lines|
  {
    if lines != [] {
      NothingNegative(lines[..|lines| - 1], p);
    }
  }

  // ---- From requests to lines ----

  ghost predicate Of(reqs: seq<Request>, lines: seq<Record>) {
    |reqs| == |lines| && forall i :: 0 <= i < |reqs| ==> reqs[i] == ToRequest(lines[i])
  }

  lemma FoldIsOfLines(rows: seq<Record>, ids: seq<string>, reqs: seq<Request>)
    requires IsFold(rows, ids, reqs)
    ensures Of(reqs, PickedLines(rows, ids))
  {}

  lemma {:induction false} GroupIsOfLines<K>(reqs: seq<Request>, lines: seq<Record>, key: Request -> K, k: K, p: Record -> bool)
    requires Of(reqs, lines) && forall x :: key(ToRequest(x)) == k <==> p(x)
    ensures GroupCount(reqs, key, k) == CountWhere(lines, p) && GroupTokens(reqs, key, k) == UsageWhere(lines, p)
    decreases |reqs|
  {
    if reqs != [] {
      GroupIsOfLines(reqs[..|reqs| - 1], lines[..|lines| - 1], key, k, p);
    }
  }

  lemma {:induction false} ChosenAreOfLines(prices: PriceTable, reqs: seq<Request>, lines: seq<Record>, keep: Request -> bool, p: Record -> bool)
    requires Of(reqs, lines) && forall x :: keep(ToRequest(x)) <==> p(x)
    ensures |Select(reqs, keep)| == CountWhere(lines, p) && RequestsCost(prices, Select(reqs, keep)) == CostWhere(prices, lines, p)
    decreases |reqs|
  {
    hide Cost;
    if reqs != [] {
      var n := |reqs| - 1;
      var before, r := reqs[..n], reqs[n];
      ChosenAreOfLines(prices, before, lines[..n], keep, p);
      LastCosts(prices, Select(before, keep), r);
    }
  }

  // ---- The rows of the grid ----

  /** The line falls in the cell: same date, model, machine, session, directory, branch. */
  predicate FallsIn(x: Record, g: GridRow) {
    && CapturedOn(x, g.day) && x.line.model == g.model && x.origin == g.origin
    && x.line.session == g.session && x.columns.cwd == g.cwd && x.columns.branch == g.branch
  }

  function Falling(g: GridRow): Record -> bool {
    (x: Record) => FallsIn(x, g)
  }

  lemma CellOfLine(x: Record, c: Cell, g: GridRow)
    requires g.day == c.day && g.model == c.model && g.origin == c.origin && g.session == c.session && g.cwd == c.cwd && g.branch == c.branch
    ensures CellOf(ToRequest(x)) == c <==> FallsIn(x, g)
  {
    if |x.line.capturedAt| == 10 {
      assert x.line.capturedAt[..10] == x.line.capturedAt;
    }
  }

  /** A row of the grid counts the picked lines of its date, model, machine, session,
      directory and branch, of which there is one, and sums their tokens. */
  lemma GridRowIsOfLines(rows: seq<Record>, ids: seq<string>, reqs: seq<Request>, cells: seq<Cell>, grid: seq<GridRow>, i: nat)
    requires IsFold(rows, ids, reqs) && IsGrid(reqs, cells, grid) && i < |grid|
    ensures var lines, g := PickedLines(rows, ids), grid[i];
            && g.day != "" && 0 < g.requests == CountWhere(lines, Falling(g))
            && g.tokens == UsageWhere(lines, Falling(g))
  {
    hide Picked, ToRequest, GroupCount, GroupTokens, CellOf, FallsIn;
    var lines, g, c := PickedLines(rows, ids), grid[i], cells[i];
    FoldIsOfLines(rows, ids, reqs);
    assert c in cells && g == RowOf(reqs, c);
    forall x ensures CellOf(ToRequest(x)) == c <==> FallsIn(x, g) {
      CellOfLine(x, c, g);
    }
    GroupIsOfLines(reqs, lines, CellOf, c, Falling(g));
    var r :| r in reqs && CellOf(r) == c;
    var j :| 0 <= j < |reqs| && reqs[j] == r;
    assert lines[j] in lines;
    SomeCounted(lines, Falling(g), lines[j]);
  }

  /** Every picked line that has a date falls in exactly one row of the grid. */
  lemma LineHasItsRow(rows: seq<Record>, ids: seq<string>, reqs: seq<Request>, cells: seq<Cell>, grid: seq<GridRow>, x: Record)
    requires IsFold(rows, ids, reqs) && IsGrid(reqs, cells, grid) && x in PickedLines(rows, ids) && x.line.capturedAt != ""
    ensures exists i :: 0 <= i < |grid| && FallsIn(x, grid[i])
    ensures forall i, j :: 0 <= i < |grid| && 0 <= j < |grid| && FallsIn(x, grid[i]) && FallsIn(x, grid[j]) ==> i == j
  {
    hide Picked, GroupCount, GroupTokens, FallsIn;
    var lines, c := PickedLines(rows, ids), CellOf(ToRequest(x));
    FoldIsOfLines(rows, ids, reqs);
    var k :| 0 <= k < |lines| && lines[k] == x;
    assert reqs[k] in reqs && c.day != "";
    var i :| 0 <= i < |cells| && cells[i] == c;
    forall j | 0 <= j < |grid| ensures FallsIn(x, grid[j]) <==> cells[j] == c {
      assert grid[j] == RowOf(reqs, cells[j]);
      CellOfLine(x, cells[j], grid[j]);
    }
  }

  // ---- Days ----

  function OfDate(date: string): Request -> bool {
    (r: Request) => r.day == date
  }

  function CellsOn(cells: seq<Cell>, date: string): seq<Cell> {
    if cells == [] then []
    else CellsOn(cells[..|cells| - 1], date) + if cells[|cells| - 1].day == date then [cells[|cells| - 1]] else []
  }

  function GridOn(grid: seq<GridRow>, date: string): seq<GridRow> {
    if grid == [] then []
    else GridOn(grid[..|grid| - 1], date) + if grid[|grid| - 1].day == date then [grid[|grid| - 1]] else []
  }

  /** Rows and cells stand for each other. */
  ghost predicate Rows(reqs: seq<Request>, cells: seq<Cell>, grid: seq<GridRow>) {
    && (forall i, j :: 0 <= i < j < |cells| ==> cells[i] != cells[j])
    && |grid| == |cells| && forall i :: 0 <= i < |grid| ==> grid[i] == RowOf(reqs, cells[i])
  }

  lemma {:induction false} CellsOnAre(cells: seq<Cell>, date: string)
    requires forall i, j :: 0 <= i < j < |cells| ==> cells[i] != cells[j]
    ensures forall c :: c in CellsOn(cells, date) <==> c in cells && c.day == date
    ensures forall i, j :: 0 <= i < j < |CellsOn(cells, date)| ==> CellsOn(cells, date)[i] != CellsOn(cells, date)[j]
    decreases |cells|
  {
    if cells != [] {
      var n := |cells| - 1;
      CellsOnAre(cells[..n], date);
      assert forall x :: x in cells <==> x in cells[..n] || x == cells[n];
      assert cells[n] !in cells[..n];
    }
  }

  lemma {:induction false} GridOnIs(reqs: seq<Request>, cells: seq<Cell>, grid: seq<GridRow>, date: string)
    requires |grid| == |cells| && forall i :: 0 <= i < |grid| ==> grid[i] == RowOf(reqs, cells[i])
    ensures var cs, gs := CellsOn(cells, date), GridOn(grid, date);
            |gs| == |cs| && forall i :: 0 <= i < |gs| ==> gs[i] == RowOf(reqs, cs[i])
    decreases |cells|
  {
    hide GroupCount, GroupTokens;
    if cells != [] {
      var n := |cells| - 1;
      GridOnIs(reqs, cells[..n], grid[..n], date);
    }
  }

  lemma GridOnStep(prices: PriceTable, grid: seq<GridRow>, date: string)
    requires grid != []
    ensures var before, g := grid[..|grid| - 1], grid[|grid| - 1];
            && GridOn(grid, date) == (if g.day == date then GridOn(before, date) + [g] else GridOn(before, date))
            && DayCost(prices, grid, date) == DayCost(prices, before, date) + (if g.day == date then RowCost(prices, g) else 0.0)
            && DayRequests(grid, date) == DayRequests(before, date) + if g.day == date then g.requests else 0
  {
    hide RowCost;
    assert GridOn(grid[..|grid| - 1], date) + [] == GridOn(grid[..|grid| - 1], date);
  }

  lemma NoGridOn(prices: PriceTable, date: string)
    ensures GridCost(prices, GridOn([], date)) == 0.0 == DayCost(prices, [], date)
    ensures GridCount(GridOn([], date)) == 0 == DayRequests([], date)
  {}

  lemma {:induction false} GridOnCosts(prices: PriceTable, grid: seq<GridRow>, date: string)
    ensures GridCost(prices, GridOn(grid, date)) == DayCost(prices, grid, date)
    ensures GridCount(GridOn(grid, date)) == DayRequests(grid, date)
    decreases |grid|
  {
    hide GridCost, GridCount, GridOn, DayCost, DayRequests, RowCost;
    if grid == [] {
      NoGridOn(prices, date);
    } else {
      var n := |grid| - 1;
      GridOnCosts(prices, grid[..n], date);
      GridOnStep(prices, grid, date);
      GridPlus(prices, GridOn(grid[..n], date), grid[n]);
    }
  }

  lemma RowsOn(prices: PriceTable, reqs: seq<Request>, cells: seq<Cell>, grid: seq<GridRow>, date: string)
    requires Rows(reqs, cells, grid)
    ensures Rows(reqs, CellsOn(cells, date), GridOn(grid, date))
    ensures forall c :: c in CellsOn(cells, date) <==> c in cells && c.day == date
    ensures GridCost(prices, GridOn(grid, date)) == DayCost(prices, grid, date)
    ensures GridCount(GridOn(grid, date)) == DayRequests(grid, date)
  {
    hide RowOf, GridCost, GridCount, DayCost, DayRequests, GridOn, CellsOn;
    CellsOnAre(cells, date);
    GridOnIs(reqs, cells, grid, date);
    GridOnCosts(prices, grid, date);
  }

  lemma GridPlus(prices: PriceTable, grid: seq<GridRow>, g: GridRow)
    ensures GridCost(prices, grid + [g]) == GridCost(prices, grid) + RowCost(prices, g)
    ensures GridCount(grid + [g]) == GridCount(grid) + g.requests
    ensures grid + [] == grid
  {
    assert (grid + [g])[..|grid|] == grid;
  }

  lemma GridOfDate(prices: PriceTable, reqs: seq<Request>, cells: seq<Cell>, grid: seq<GridRow>, date: string)
    requires IsGrid(reqs, cells, grid) && date != ""
    ensures IsGrid(Select(reqs, OfDate(date)), CellsOn(cells, date), GridOn(grid, date))
  {
    hide GroupCount, GroupTokens, Select, GridOn, CellsOn, GridCost, DayCost, GridCount, DayRequests;
    var chosen, cs, gs := Select(reqs, OfDate(date)), CellsOn(cells, date), GridOn(grid, date);
    SelectedAre(reqs, OfDate(date));
    RowsOn(prices, reqs, cells, grid, date);
    forall i | 0 <= i < |gs| ensures gs[i] == RowOf(chosen, cs[i]) {
      assert cs[i] in cs;
      SelectKeepsGroup(reqs, OfDate(date), CellOf, cs[i]);
    }
    forall c ensures c in cs <==> c.day != "" && exists r :: r in chosen && CellOf(r) == c {
      if c.day == date {
        if r :| r in reqs && CellOf(r) == c {
          assert r in chosen;
        }
      }
    }
  }

  lemma DayOfLine(x: Record, date: string)
    ensures ToRequest(x).day == date <==> CapturedOn(x, date)
  {
    if |x.line.capturedAt| == 10 {
      assert x.line.capturedAt[..10] == x.line.capturedAt;
    }
  }

  /** The cost and the requests of a day are those of the picked lines whose capture
      time begins with its date. */
  lemma DayIsOfLines(prices: PriceTable, rows: seq<Record>, ids: seq<string>, reqs: seq<Request>, cells: seq<Cell>, grid: seq<GridRow>, date: string)
    requires IsFold(rows, ids, reqs) && IsGrid(reqs, cells, grid) && date != ""
    ensures var lines := PickedLines(rows, ids);
            && DayCost(prices, grid, date) == CostWhere(prices, lines, Captured(date))
            && DayRequests(grid, date) == CountWhere(lines, Captured(date))
  {
    hide Picked, ToRequest, CapturedOn, Select, GridCost, RequestsCost, GridCount, DayCost, DayRequests, RowOf;
    var lines, chosen := PickedLines(rows, ids), Select(reqs, OfDate(date));
    FoldIsOfLines(rows, ids, reqs);
    forall x ensures ToRequest(x).day == date <==> CapturedOn(x, date) {
      DayOfLine(x, date);
    }
    ChosenAreOfLines(prices, reqs, lines, OfDate(date), Captured(date));
    RowsOn(prices, reqs, cells, grid, date);
    GridOfDate(prices, reqs, cells, grid, date);
    SelectedAre(reqs, OfDate(date));
    GridIsRequests(prices, chosen, CellsOn(cells, date), GridOn(grid, date));
  }

  // ---- The model table ----

  /** A model's row of the summary counts the picked lines of that model and sums their
      tokens; the table costs what the picked lines do, each at its own model's prices. */
  lemma SummaryIsOfLines(prices: PriceTable, rows: seq<Record>, ids: seq<string>, reqs: seq<Request>, models: set<string>)
    requires IsFold(rows, ids, reqs)
    ensures var lines := PickedLines(rows, ids);
            && (forall m: string ::
                  && GroupTokens(reqs, ModelOfRequest, m) == UsageWhere(lines, OfModel(m))
                  && GroupCount(reqs, ModelOfRequest, m) == CountWhere(lines, OfModel(m)))
            && ((forall x :: x in lines ==> x.line.model in models) ==> SummaryCost(prices, reqs, models) == CostWhere(prices, lines, Every()))
  {
    hide Picked, GroupTokens, GroupCount, SummaryCost;
    var lines := PickedLines(rows, ids);
    FoldIsOfLines(rows, ids, reqs);
    forall m: string
      ensures GroupTokens(reqs, ModelOfRequest, m) == UsageWhere(lines, OfModel(m))
           && GroupCount(reqs, ModelOfRequest, m) == CountWhere(lines, OfModel(m))
    {
      GroupIsOfLines(reqs, lines, ModelOfRequest, m, OfModel(m));
    }
    if forall x :: x in lines ==> x.line.model in models {
      forall r | r in reqs ensures r.model in models {
        var i :| 0 <= i < |reqs| && reqs[i] == r;
        assert lines[i] in lines;
      }
      SummaryIsRequests(prices, reqs, models);
      AllSelected(reqs);
      ChosenAreOfLines(prices, reqs, lines, EveryRequest(), Every());
    }
  }

  function EveryRequest(): Request -> bool {
    (r: Request) => true
  }

  lemma {:induction false} AllSelected(reqs: seq<Request>)
    ensures Select(reqs, EveryRequest()) == reqs
    decreases |reqs|
  {
    if reqs != [] {
      AllSelected(reqs[..|reqs| - 1]);
    }
  }

  // ---- Pull requests ----

  /** Some line of the session names the pull request. */
  ghost predicate Opened(rows: seq<Record>, session: string, pr: PullRequest) {
    && session != ""
    && exists y :: y in rows && y.line.session == session && y.columns.prRepo == pr.repo != "" && y.columns.prNumber == pr.number
  }

  lemma OpenedIsLinked(rows: seq<Record>, session: string, pr: PullRequest)
    ensures Opened(rows, session, pr) <==> pr in PrsOf(LinksOf(rows), session)
  {
    if Opened(rows, session, pr) {
      assert Link(session, pr) in LinksOf(rows);
    }
  }

  ghost function CountOpened(rows: seq<Record>, lines: seq<Record>, pr: PullRequest): int {
    if lines == [] then 0
    else CountOpened(rows, lines[..|lines| - 1], pr) + if Opened(rows, lines[|lines| - 1].line.session, pr) then 1 else 0
  }

  ghost function OutputOpened(rows: seq<Record>, lines: seq<Record>, pr: PullRequest): int {
    if lines == [] then 0
    else
      var x := lines[|lines| - 1];
      OutputOpened(rows, lines[..|lines| - 1], pr) + if Opened(rows, x.line.session, pr) then x.line.usage.output else 0
  }

  /** An amount of the usage of each line of the model, over the number of pull requests
      that lines of its session name. */
  ghost function ShareOpened(rows: seq<Record>, lines: seq<Record>, model: string, kind: Kind, pr: PullRequest): real {
    if lines == [] then 0.0
    else
      var x := lines[|lines| - 1];
      ShareOpened(rows, lines[..|lines| - 1], model, kind, pr)
      + if x.line.model == model && Opened(rows, x.line.session, pr) then kind(x.line.usage) as real / |AllOpened(rows, x.line.session)| as real else 0.0
  }

  /** Every pull request that lines of the session name. */
  ghost function AllOpened(rows: seq<Record>, session: string): (prs: set<PullRequest>)
    ensures forall pr :: pr in prs <==> Opened(rows, session, pr)
    ensures forall pr :: Opened(rows, session, pr) ==> |prs| > 0
  {
    var prs := set y | y in rows && y.line.session == session && session != "" && y.columns.prRepo != "" ::
      PullRequest(y.columns.prRepo, y.columns.prNumber);
    assert forall pr :: pr in prs <==> Opened(rows, session, pr);
    prs
  }

  lemma {:induction false} EntryCountsLines(rows: seq<Record>, reqs: seq<Request>, lines: seq<Record>, pr: PullRequest)
    requires Of(reqs, lines)
    ensures Touched(reqs, LinksOf(rows), ONE, pr) == CountOpened(rows, lines, pr)
    ensures Touched(reqs, LinksOf(rows), OUTPUT, pr) == OutputOpened(rows, lines, pr)
    decreases |reqs|
  {
    hide PrsOf, LinksOf;
    if reqs != [] {
      var n := |reqs| - 1;
      EntryCountsLines(rows, reqs[..n], lines[..n], pr);
      OpenedIsLinked(rows, lines[n].line.session, pr);
    }
  }

  lemma {:induction false} ShareIsOfLines(rows: seq<Record>, reqs: seq<Request>, lines: seq<Record>, model: string, kind: Kind, pr: PullRequest)
    requires Of(reqs, lines)
    ensures JoinFirst(reqs, LinksOf(rows), model, kind, pr) == ShareOpened(rows, lines, model, kind, pr)
    decreases |reqs|
  {
    hide LinksOf;
    if reqs != [] {
      var n := |reqs| - 1;
      ShareIsOfLines(rows, reqs[..n], lines[..n], model, kind, pr);
      var session := lines[n].line.session;
      forall q ensures q in AllOpened(rows, session) <==> q in PrsOf(LinksOf(rows), session) {
        OpenedIsLinked(rows, session, q);
      }
      assert AllOpened(rows, session) == PrsOf(LinksOf(rows), session);
    }
  }

  /** An entry of the deliveries report counts the requests whose picked line is of a
      session that opened the pull request, by what the archive's lines name, and sums
      their output; a row bills, of each kind of token, the whole part of the sum of
      those lines' tokens, each over the number of pull requests its session opened. */
  lemma EntryIsOfLines(prices: PriceTable, rows: seq<Record>, ids: seq<string>, reqs: seq<Request>, report: seq<ReportRow>, pr: PullRequest)
    requires IsFold(rows, ids, reqs) && IsReport(reqs, LinksOf(rows), report) && pr in PrsIn(report)
    ensures var lines, e := PickedLines(rows, ids), OfPr(prices, report, pr);
            e.requests == CountOpened(rows, lines, pr) && e.output == OutputOpened(rows, lines, pr)
    ensures forall r :: r in report ==>
              var lines := PickedLines(rows, ids);
              && r.shares.input == ShareOpened(rows, lines, r.model, (u: Usage) => u.input, r.pr)
              && r.shares.output == ShareOpened(rows, lines, r.model, (u: Usage) => u.output, r.pr)
              && r.shares.cacheRead == ShareOpened(rows, lines, r.model, (u: Usage) => u.cacheRead, r.pr)
              && r.shares.cacheWrite5m == ShareOpened(rows, lines, r.model, (u: Usage) => u.cacheWrite5m, r.pr)
              && r.shares.cacheWrite1h == ShareOpened(rows, lines, r.model, (u: Usage) => u.cacheWrite1h, r.pr)
  {
    hide Picked, OfPr, LinksOf, Touched, JoinFirst, SumFirst, ShareOpened, Unsplit, CountOpened, OutputOpened, Reported;
    var lines, links := PickedLines(rows, ids), LinksOf(rows);
    FoldIsOfLines(rows, ids, reqs);
    EntryCountsRequests(prices, reqs, links, report, pr);
    EntryCountsLines(rows, reqs, lines, pr);
    forall r | r in report ensures SharesAreOfLines(rows, lines, r) {
      RowSharesOfLines(rows, reqs, lines, r.pr, r.model);
    }
  }

  ghost predicate SharesAreOfLines(rows: seq<Record>, lines: seq<Record>, r: ReportRow) {
    && r.shares.input == ShareOpened(rows, lines, r.model, (u: Usage) => u.input, r.pr)
    && r.shares.output == ShareOpened(rows, lines, r.model, (u: Usage) => u.output, r.pr)
    && r.shares.cacheRead == ShareOpened(rows, lines, r.model, (u: Usage) => u.cacheRead, r.pr)
    && r.shares.cacheWrite5m == ShareOpened(rows, lines, r.model, (u: Usage) => u.cacheWrite5m, r.pr)
    && r.shares.cacheWrite1h == ShareOpened(rows, lines, r.model, (u: Usage) => u.cacheWrite1h, r.pr)
  }

  lemma RowSharesOfLines(rows: seq<Record>, reqs: seq<Request>, lines: seq<Record>, pr: PullRequest, model: string)
    requires Of(reqs, lines)
    ensures SharesAreOfLines(rows, lines, QueryRow(reqs, LinksOf(rows), pr, model))
  {
    hide JoinFirst, SumFirst, ShareOpened, Unsplit, LinksOf;
    var links := LinksOf(rows);
    KindIsOfLines(rows, reqs, lines, model, INPUT, (u: Usage) => u.input, pr);
    KindIsOfLines(rows, reqs, lines, model, OUTPUT, (u: Usage) => u.output, pr);
    KindIsOfLines(rows, reqs, lines, model, CACHE_READ, (u: Usage) => u.cacheRead, pr);
    KindIsOfLines(rows, reqs, lines, model, CACHE_WRITE_5M, (u: Usage) => u.cacheWrite5m, pr);
    KindIsOfLines(rows, reqs, lines, model, CACHE_WRITE_1H, (u: Usage) => u.cacheWrite1h, pr);
  }

  lemma KindIsOfLines(rows: seq<Record>, reqs: seq<Request>, lines: seq<Record>, model: string, kind: Kind, field: Kind, pr: PullRequest)
    requires Of(reqs, lines) && forall u :: kind(u) == field(u)
    ensures SumFirst(reqs, LinksOf(rows), model, kind, pr) == ShareOpened(rows, lines, model, field, pr)
  {
    hide LinksOf;
    SumThenJoinIsJoinThenSum(reqs, LinksOf(rows), model, kind, pr);
    ShareIsOfLines(rows, reqs, lines, model, kind, pr);
    SameShare(rows, lines, model, kind, field, pr);
  }

  lemma {:induction false} SameShare(rows: seq<Record>, lines: seq<Record>, model: string, kind: Kind, field: Kind, pr: PullRequest)
    requires forall u :: kind(u) == field(u)
    ensures ShareOpened(rows, lines, model, kind, pr) == ShareOpened(rows, lines, model, field, pr)
    decreases |lines|
  {
    if lines != [] {
      SameShare(rows, lines[..|lines| - 1], model, kind, field, pr);
    }
  }
}
