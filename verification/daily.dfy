/** A day's cost, divided every way the dashboard can stack it. */
module Daily {
  import opened Records
  import opened Sets
  import opened Keys
  import opened Totals
  import opened Pricing

  const MAX_SEGMENTS: nat := 6
  const OTHER_KEY: string := "__other__"
  const NONE_KEY: string := "__none__"

  /** One cell of the grid: a day's usage of one model, in one session, on one machine. */
  datatype GridRow = GridRow(day: string, model: string, origin: string, session: string,
                             cwd: string, branch: string, requests: int, tokens: Tokens)

  /** Where sessions' and directories' work went. */
  datatype Links = Links(pullRequests: map<string, seq<string>>, projects: map<string, string>)

  datatype Stack = ByModel | ByProject | ByBranch | ByPullRequest | BySession | ByPeer

  datatype Part = Part(key: string, weight: real)

  function Lookup(m: map<string, string>, key: string): string {
    if key in m then m[key] else ""
  }

  function Named(key: string): seq<Part> {
    [Part(if key == "" then NONE_KEY else key, 1.0)]
  }

  /** `evenly`. */
  function Evenly(keys: seq<string>): seq<Part> {
    if keys == [] then [Part(NONE_KEY, 1.0)]
    else seq(|keys|, i requires 0 <= i < |keys| => Part(keys[i], 1.0 / |keys| as real))
  }

  /** The segments a row contributes to. */
  function Divide(stack: Stack, r: GridRow, l: Links): seq<Part> {
    match stack
    case ByModel => [Part(r.model, 1.0)]
    case ByProject => Named(Lookup(l.projects, r.cwd))
    case ByBranch => Named(r.branch)
    case ByPullRequest => Evenly(if r.session in l.pullRequests then l.pullRequests[r.session] else [])
    case BySession => Named(r.session)
    case ByPeer => [Part(r.origin, 1.0)]
  }

  function Weight(parts: seq<Part>): real {
    if parts == [] then 0.0 else Weight(parts[..|parts| - 1]) + parts[|parts| - 1].weight
  }

  lemma {:induction false} EqualWeights(parts: seq<Part>, w: real)
    requires forall p :: p in parts ==> p.weight == w
    ensures Weight(parts) == Times(w, |parts| as real)
    decreases |parts|
  {
    TimesUnits(w);
    hide Times;
    if parts != [] {
      var before := parts[..|parts| - 1];
      assert forall p :: p in before ==> p in parts;
      EqualWeights(before, w);
      Distribute(w, |before| as real, 1.0);
      assert parts[|parts| - 1] in parts;
    }
  }

  lemma PartsOfOne(n: nat)
    requires 0 < n
    ensures Times(1.0 / n as real, n as real) == 1.0
  {}

  /** Dividing a row neither makes cost nor loses any, however it is stacked. */
  lemma WeightsSumToOne(stack: Stack, r: GridRow, l: Links)
    ensures Divide(stack, r, l) != [] && Weight(Divide(stack, r, l)) == 1.0
  {
    var parts := Divide(stack, r, l);
    if |parts| == 1 {
      EqualWeights(parts, parts[0].weight);
      if stack.ByPullRequest? { PartsOfOne(1); }
      TimesUnits(1.0);
    } else {
      PartsOfOne(|parts|);
      EqualWeights(parts, 1.0 / |parts| as real);
    }
  }

  // ---- Pieces of cost ----

  datatype Piece = Piece(day: string, key: string, cost: real)

  function Cut(day: string, cost: real, parts: seq<Part>): seq<Piece> {
    if parts == [] then []
    else
      var part := parts[|parts| - 1];
      Cut(day, cost, parts[..|parts| - 1]) + [Piece(day, part.key, Times(cost, part.weight))]
  }

  /** A row of a model without a price is worth nothing and is not divided. */
  function RowPieces(prices: PriceTable, stack: Stack, l: Links, r: GridRow): seq<Piece> {
    if prices(r.model).None? then [] else Cut(r.day, Cost(prices, r.model, r.tokens), Divide(stack, r, l))
  }

  function Pieces(prices: PriceTable, stack: Stack, l: Links, grid: seq<GridRow>): seq<Piece> {
    if grid == [] then []
    else Pieces(prices, stack, l, grid[..|grid| - 1]) + RowPieces(prices, stack, l, grid[|grid| - 1])
  }

  ghost function These(s: set<string>): iset<string> {
    iset x | x in s
  }

  ghost function Any(): iset<string> {
    iset x: string | 0 <= |x|
  }

  /** What the pieces on these days under these keys come to. */
  ghost function At(pieces: seq<Piece>, days: iset<string>, keys: iset<string>): real {
    if pieces == [] then 0.0
    else
      var p := pieces[|pieces| - 1];
      At(pieces[..|pieces| - 1], days, keys) + if p.day in days && p.key in keys then p.cost else 0.0
  }

  lemma {:induction false} AtAppends(a: seq<Piece>, b: seq<Piece>, days: iset<string>, keys: iset<string>)
    ensures At(a + b, days, keys) == At(a, days, keys) + At(b, days, keys)
    decreases |b|
  {
    if b == [] {
      assert a + b == a;
    } else {
      assert (a + b)[..|a + b| - 1] == a + b[..|b| - 1];
      AtAppends(a, b[..|b| - 1], days, keys);
    }
  }

  /** Summed key by key. */
  lemma {:induction false} AtByKey(pieces: seq<Piece>, days: iset<string>, keys: set<string>)
    ensures Total(keys, k => At(pieces, days, iset{k})) == At(pieces, days, These(keys))
    decreases |pieces|
  {
    if pieces == [] {
      TotalOfSome(keys, {}, 0.0, k => At(pieces, days, iset{k}));
      TimesUnits(0.0);
    } else {
      var before, p := pieces[..|pieces| - 1], pieces[|pieces| - 1];
      AtByKey(before, days, keys);
      var one := k => if p.day in days && p.key == k then p.cost else 0.0;
      var some := if p.key in keys then {p.key} else {};
      var c := if p.day in days then p.cost else 0.0;
      TotalOfSome(keys, some, c, one);
      TimesUnits(c);
      TotalOfSum(keys, k => At(before, days, iset{k}), one, k => At(pieces, days, iset{k}));
    }
  }

  /** Summed day by day. */
  lemma {:induction false} AtByDay(pieces: seq<Piece>, days: set<string>, keys: iset<string>)
    ensures Total(days, d => At(pieces, iset{d}, keys)) == At(pieces, These(days), keys)
    decreases |pieces|
  {
    if pieces == [] {
      TotalOfSome(days, {}, 0.0, d => At(pieces, iset{d}, keys));
      TimesUnits(0.0);
    } else {
      var before, p := pieces[..|pieces| - 1], pieces[|pieces| - 1];
      AtByDay(before, days, keys);
      var one := d => if p.key in keys && p.day == d then p.cost else 0.0;
      var some := if p.day in days then {p.day} else {};
      var c := if p.key in keys then p.cost else 0.0;
      TotalOfSome(days, some, c, one);
      TimesUnits(c);
      TotalOfSum(days, d => At(before, iset{d}, keys), one, d => At(pieces, iset{d}, keys));
    }
  }

  lemma {:induction false} AtAgrees(pieces: seq<Piece>, a: iset<string>, b: iset<string>, x: iset<string>, y: iset<string>)
    requires forall p :: p in pieces ==> ((p.day in a && p.key in x) <==> (p.day in b && p.key in y))
    ensures At(pieces, a, x) == At(pieces, b, y)
    decreases |pieces|
  {
    if pieces != [] {
      assert forall p :: p in pieces[..|pieces| - 1] ==> p in pieces;
      AtAgrees(pieces[..|pieces| - 1], a, b, x, y);
      assert pieces[|pieces| - 1] in pieces;
    }
  }

  ghost predicate NoNegativePiece(pieces: seq<Piece>) {
    forall p :: p in pieces ==> 0.0 <= p.cost
  }

  lemma {:induction false} AtIsNatural(pieces: seq<Piece>, days: iset<string>, keys: iset<string>)
    requires NoNegativePiece(pieces)
    ensures 0.0 <= At(pieces, days, keys)
    decreases |pieces|
  {
    if pieces != [] {
      assert forall p :: p in pieces[..|pieces| - 1] ==> p in pieces;
      AtIsNatural(pieces[..|pieces| - 1], days, keys);
      assert pieces[|pieces| - 1] in pieces;
    }
  }

  // ---- Where a row belongs, told by its columns ----

  /** A column's value, or the key that stands for none. */
  function OrNone(value: string): string {
    if value == "" then "__none__" else value
  }

  /** The part of a row that belongs under a key. */
  function Belongs(stack: Stack, r: GridRow, l: Links, key: string): real {
    match stack
    case ByModel => if key == r.model then 1.0 else 0.0
    case ByPeer => if key == r.origin then 1.0 else 0.0
    case ByBranch => if key == OrNone(r.branch) then 1.0 else 0.0
    case BySession => if key == OrNone(r.session) then 1.0 else 0.0
    case ByProject => if key == OrNone(if r.cwd in l.projects then l.projects[r.cwd] else "") then 1.0 else 0.0
    case ByPullRequest =>
      if r.session in l.pullRequests && l.pullRequests[r.session] != [] then
        multiset(l.pullRequests[r.session])[key] as real / |l.pullRequests[r.session]| as real
      else if key == "__none__" then 1.0 else 0.0
  }

  /** What the rows of these days cost, each by the part that belongs under the key. */
  ghost function CostUnder(prices: PriceTable, stack: Stack, l: Links, grid: seq<GridRow>, days: iset<string>, key: string): real {
    if grid == [] then 0.0
    else
      var r := grid[|grid| - 1];
      CostUnder(prices, stack, l, grid[..|grid| - 1], days, key)
      + if r.day in days then Times(Cost(prices, r.model, r.tokens), Belongs(stack, r, l, key)) else 0.0
  }

  function WeightOf(parts: seq<Part>, key: string): real {
    if parts == [] then 0.0
    else WeightOf(parts[..|parts| - 1], key) + if parts[|parts| - 1].key == key then parts[|parts| - 1].weight else 0.0
  }

  lemma {:induction false} CutAt(day: string, cost: real, parts: seq<Part>, days: iset<string>, key: string)
    ensures At(Cut(day, cost, parts), days, iset{key}) == if day in days then Times(cost, WeightOf(parts, key)) else 0.0
    decreases |parts|
  {
    TimesUnits(cost);
    hide Times;
    if parts != [] {
      var before, part := parts[..|parts| - 1], parts[|parts| - 1];
      CutAt(day, cost, before, days, key);
      var pieces := Cut(day, cost, parts);
      assert pieces[..|pieces| - 1] == Cut(day, cost, before);
      Distribute(cost, WeightOf(before, key), part.weight);
    }
  }

  lemma {:induction false} EvenWeightOf(keys: seq<string>, w: real, parts: seq<Part>, key: string)
    requires |parts| == |keys| && forall i :: 0 <= i < |keys| ==> parts[i] == Part(keys[i], w)
    ensures WeightOf(parts, key) == Times(w, multiset(keys)[key] as real)
    decreases |keys|
  {
    TimesUnits(w);
    hide Times;
    if keys != [] {
      var n := |keys| - 1;
      EvenWeightOf(keys[..n], w, parts[..n], key);
      assert keys == keys[..n] + [keys[n]];
      Distribute(w, multiset(keys[..n])[key] as real, 1.0);
    } else {
      assert multiset(keys)[key] == 0;
    }
  }

  lemma PartOfMany(n: nat, count: nat)
    requires 0 < n
    ensures Times(1.0 / n as real, count as real) == count as real / n as real
  {}

  lemma OneWeight(part: Part, key: string)
    ensures WeightOf([part], key) == if part.key == key then part.weight else 0.0
  {
    assert [part][..0] == [];
  }

  /** Dividing puts each row where its columns say. */
  lemma DividedBelongs(stack: Stack, r: GridRow, l: Links, key: string)
    ensures WeightOf(Divide(stack, r, l), key) == Belongs(stack, r, l, key)
  {
    if stack.ByPullRequest? && r.session in l.pullRequests && l.pullRequests[r.session] != [] {
      var keys := l.pullRequests[r.session];
      EvenWeightOf(keys, 1.0 / |keys| as real, Divide(stack, r, l), key);
      PartOfMany(|keys|, multiset(keys)[key]);
    } else {
      OneWeight(Divide(stack, r, l)[0], key);
    }
  }

  /** What is booked on a day under a key is what belongs there. */
  lemma {:induction false} BookedBelongs(prices: PriceTable, stack: Stack, l: Links, grid: seq<GridRow>, days: iset<string>, key: string)
    ensures At(Pieces(prices, stack, l, grid), days, iset{key}) == CostUnder(prices, stack, l, grid, days, key)
    decreases |grid|
  {
    hide RowPieces, Cost, Belongs, Divide;
    if grid != [] {
      var before, r := grid[..|grid| - 1], grid[|grid| - 1];
      BookedBelongs(prices, stack, l, before, days, key);
      AtAppends(Pieces(prices, stack, l, before), RowPieces(prices, stack, l, r), days, iset{key});
      RowBelongs(prices, stack, l, r, days, key);
    }
  }

  lemma RowBelongs(prices: PriceTable, stack: Stack, l: Links, r: GridRow, days: iset<string>, key: string)
    ensures At(RowPieces(prices, stack, l, r), days, iset{key}) ==
              if r.day in days then Times(Cost(prices, r.model, r.tokens), Belongs(stack, r, l, key)) else 0.0
  {
    hide Belongs, Divide;
    if prices(r.model).Some? {
      CutAt(r.day, Cost(prices, r.model, r.tokens), Divide(stack, r, l), days, key);
      DividedBelongs(stack, r, l, key);
    }
  }

  // ---- What a day costs ----

  function RowCost(prices: PriceTable, r: GridRow): real {
    Cost(prices, r.model, r.tokens)
  }

  function DayCost(prices: PriceTable, grid: seq<GridRow>, day: string): real {
    if grid == [] then 0.0
    else
      var r := grid[|grid| - 1];
      DayCost(prices, grid[..|grid| - 1], day) + if r.day == day then RowCost(prices, r) else 0.0
  }

  lemma {:induction false} CutKeepsCost(day: string, cost: real, parts: seq<Part>, days: iset<string>)
    ensures At(Cut(day, cost, parts), days, Any()) == if day in days then Times(cost, Weight(parts)) else 0.0
    decreases |parts|
  {
    TimesUnits(cost);
    hide Times;
    if parts != [] {
      var before, part := parts[..|parts| - 1], parts[|parts| - 1];
      CutKeepsCost(day, cost, before, days);
      var pieces := Cut(day, cost, parts);
      assert pieces[..|pieces| - 1] == Cut(day, cost, before);
      Distribute(cost, Weight(before), part.weight);
    }
  }

  lemma RowPiecesKeepCost(prices: PriceTable, stack: Stack, l: Links, r: GridRow, day: string)
    ensures At(RowPieces(prices, stack, l, r), iset{day}, Any()) == if r.day == day then RowCost(prices, r) else 0.0
  {
    var cost := RowCost(prices, r);
    if prices(r.model).Some? {
      CutKeepsCost(r.day, cost, Divide(stack, r, l), iset{day});
      WeightsSumToOne(stack, r, l);
      TimesUnits(cost);
    }
  }

  /** The pieces of a day come to the day's cost. */
  lemma {:induction false} PiecesKeepDayCost(prices: PriceTable, stack: Stack, l: Links, grid: seq<GridRow>, day: string)
    ensures At(Pieces(prices, stack, l, grid), iset{day}, Any()) == DayCost(prices, grid, day)
    decreases |grid|
  {
    hide RowPieces, RowCost;
    if grid != [] {
      var before, r := grid[..|grid| - 1], grid[|grid| - 1];
      PiecesKeepDayCost(prices, stack, l, before, day);
      AtAppends(Pieces(prices, stack, l, before), RowPieces(prices, stack, l, r), iset{day}, Any());
      RowPiecesKeepCost(prices, stack, l, r, day);
    }
  }

  // ---- Adding the pieces up ----

  /** What a segment costs on each day, and over all days. */
  ghost predicate Adds(pieces: seq<Piece>, perDay: map<string, map<string, real>>, totals: map<string, real>) {
    && (forall p :: p in pieces ==> p.day in perDay && p.key in perDay[p.day])
    && (forall d :: d in perDay ==> Sums(pieces, iset{d}, perDay[d]))
    && (forall d, k :: d in perDay && k in perDay[d] ==> k in totals)
    && Sums(pieces, Any(), totals)
  }

  /** Every key of these days' pieces, with what its pieces come to. */
  ghost predicate Sums(pieces: seq<Piece>, days: iset<string>, byKey: map<string, real>) {
    && (forall p :: p in pieces && p.day in days ==> p.key in byKey)
    && (forall k :: k in byKey ==> byKey[k] == At(pieces, days, iset{k}))
  }

  function WithCost(m: map<string, real>, key: string, cost: real): map<string, real> {
    m[key := (if key in m then m[key] else 0.0) + cost]
  }

  lemma {:induction false} NothingAt(pieces: seq<Piece>, days: iset<string>, key: string)
    requires forall p :: p in pieces && p.day in days ==> p.key != key
    ensures At(pieces, days, iset{key}) == 0.0
    decreases |pieces|
  {
    if pieces != [] {
      assert forall p :: p in pieces[..|pieces| - 1] ==> p in pieces;
      NothingAt(pieces[..|pieces| - 1], days, key);
      assert pieces[|pieces| - 1] in pieces;
    }
  }

  lemma AtPlus(pieces: seq<Piece>, p: Piece, days: iset<string>, keys: iset<string>)
    ensures At(pieces + [p], days, keys) == At(pieces, days, keys) + if p.day in days && p.key in keys then p.cost else 0.0
  {
    assert (pieces + [p])[..|pieces|] == pieces;
  }

  lemma SumsPlus(pieces: seq<Piece>, days: iset<string>, byKey: map<string, real>, p: Piece)
    requires Sums(pieces, days, byKey)
    ensures Sums(pieces + [p], days, if p.day in days then WithCost(byKey, p.key, p.cost) else byKey)
  {
    hide At;
    var byKey' := if p.day in days then WithCost(byKey, p.key, p.cost) else byKey;
    if p.key !in byKey {
      NothingAt(pieces, days, p.key);
    }
    forall k | k in byKey' ensures byKey'[k] == At(pieces + [p], days, iset{k}) {
      AtPlus(pieces, p, days, iset{k});
    }
  }

  lemma NoSums(pieces: seq<Piece>, days: iset<string>)
    requires forall p :: p in pieces ==> p.day !in days
    ensures Sums(pieces, days, map[])
  {}

  lemma AddPiece(pieces: seq<Piece>, perDay: map<string, map<string, real>>, totals: map<string, real>, p: Piece)
    requires Adds(pieces, perDay, totals)
    ensures var byKey := if p.day in perDay then perDay[p.day] else map[];
            Adds(pieces + [p], perDay[p.day := WithCost(byKey, p.key, p.cost)], WithCost(totals, p.key, p.cost))
  {
    hide At, Sums;
    var byKey := if p.day in perDay then perDay[p.day] else map[];
    var perDay' := perDay[p.day := WithCost(byKey, p.key, p.cost)];
    if p.day !in perDay {
      NoSums(pieces, iset{p.day});
    }
    forall d | d in perDay' ensures Sums(pieces + [p], iset{d}, perDay'[d]) {
      SumsPlus(pieces, iset{d}, if d in perDay then perDay[d] else map[], p);
    }
    SumsPlus(pieces, Any(), totals, p);
  }

  /** The loop over rows and their parts, for one way of stacking. */
  method Divided(prices: PriceTable, stack: Stack, l: Links, grid: seq<GridRow>)
    returns (perDay: map<string, map<string, real>>, totals: map<string, real>)
    ensures Adds(Pieces(prices, stack, l, grid), perDay, totals)
  {
    hide Adds, Divide, Cost, Cut;
    perDay, totals := map[], map[];
    NothingAdds();
    for i := 0 to |grid|
      invariant Adds(Pieces(prices, stack, l, grid[..i]), perDay, totals)
    {
      assert grid[..i + 1][..i] == grid[..i];
      var r := grid[i];
      ghost var before := Pieces(prices, stack, l, grid[..i]);
      if prices(r.model).None? {
        assert before + [] == before;
        continue;
      }
      perDay, totals := DividedRow(r.day, Cost(prices, r.model, r.tokens), Divide(stack, r, l), perDay, totals, before);
    }
    assert grid[..|grid|] == grid;
  }

  method DividedRow(day: string, cost: real, parts: seq<Part>, perDay0: map<string, map<string, real>>, totals0: map<string, real>, ghost before: seq<Piece>)
    returns (perDay: map<string, map<string, real>>, totals: map<string, real>)
    requires Adds(before, perDay0, totals0)
    ensures Adds(before + Cut(day, cost, parts), perDay, totals)
  {
    hide Adds, Times;
    perDay, totals := perDay0, totals0;
    assert before + Cut(day, cost, parts[..0]) == before;
    for j := 0 to |parts|
      invariant Adds(before + Cut(day, cost, parts[..j]), perDay, totals)
    {
      assert parts[..j + 1][..j] == parts[..j];
      var key, share := parts[j].key, Times(cost, parts[j].weight);
      ghost var done := before + Cut(day, cost, parts[..j]);
      AddPiece(done, perDay, totals, Piece(day, key, share));
      assert before + Cut(day, cost, parts[..j + 1]) == done + [Piece(day, key, share)];
      var byKey := if day in perDay then perDay[day] else map[];
      perDay, totals := perDay[day := WithCost(byKey, key, share)], WithCost(totals, key, share);
    }
    assert parts[..|parts|] == parts;
  }

  lemma NothingAdds()
    ensures Adds([], map[], map[])
  {}

  // ---- The legend ----

  datatype Segment = Segment(key: string, total: real)

  function Amount(m: map<string, real>, k: string): real {
    if k in m then m[k] else 0.0
  }

  /** What these keys come to together. */
  ghost function Whole(m: map<string, real>, keys: set<string>): real {
    Total(keys, k => Amount(m, k))
  }

  lemma WholeTakesOut(m: map<string, real>, keys: set<string>, k: string)
    requires k in keys
    ensures Whole(m, keys) == Amount(m, k) + Whole(m, keys - {k})
  {
    TotalTakesOut(keys, x => Amount(m, x), k);
  }

  lemma WholeOfUnion(m: map<string, real>, a: set<string>, b: set<string>)
    requires a !! b
    ensures Whole(m, a + b) == Whole(m, a) + Whole(m, b)
  {
    TotalOverUnion(a, b, k => Amount(m, k));
  }

  lemma WholeOfNothing(m: map<string, real>, keys: set<string>)
    requires forall k :: k in keys ==> Amount(m, k) == 0.0
    ensures Whole(m, keys) == 0.0
  {
    TotalOfSome(keys, {}, 0.0, k => Amount(m, k));
    TimesUnits(0.0);
  }

  /** Dearer first, then by key. */
  predicate Ahead(totals: map<string, real>, a: string, b: string)
    requires a in totals && b in totals
  {
    totals[a] > totals[b] || (totals[a] == totals[b] && Less(a, b))
  }

  ghost function AllAhead(totals: map<string, real>, k: string): set<string>
    requires k in totals
  {
    set j | j in totals && Ahead(totals, j, k)
  }

  /** A segment is named when fewer than six are ahead of it, and it is not the catch-all. */
  ghost predicate IsKept(totals: map<string, real>, k: string)
    requires k in totals
  {
    k != OTHER_KEY && |AllAhead(totals, k)| < MAX_SEGMENTS
  }

  /** The legend: the named segments in order, and what is left over if it is anything. */
  ghost predicate IsLegend(totals: map<string, real>, segments: seq<Segment>, keep: set<string>) {
    && (forall k :: k in keep <==> k in totals && IsKept(totals, k))
    && |keep| <= |segments| <= |keep| + 1
    && (forall i :: 0 <= i < |keep| ==> segments[i].key in keep && segments[i].total == Amount(totals, segments[i].key))
    && (forall i, j :: 0 <= i < j < |keep| ==> Ahead(totals, segments[i].key, segments[j].key))
    && var other := Whole(totals, totals.Keys - keep);
       if 0.0 < other then |segments| == |keep| + 1 && segments[|keep|] == Segment(OTHER_KEY, other)
       else |segments| == |keep|
  }

  lemma AheadIsTotal(totals: map<string, real>, a: string, b: string)
    requires a in totals && b in totals
    ensures Ahead(totals, a, b) || a == b || Ahead(totals, b, a)
    ensures !(Ahead(totals, a, b) && Ahead(totals, b, a)) && !Ahead(totals, a, a)
  {
    LessIsTotal(a, b);
    LessIsTotal(a, a);
  }

  lemma AheadOn(totals: map<string, real>, a: string, b: string, c: string)
    requires a in totals && b in totals && c in totals && Ahead(totals, a, b) && Ahead(totals, b, c)
    ensures Ahead(totals, a, c)
  {
    LessIsStrict(a, b, c);
  }

  ghost predicate InOrder(totals: map<string, real>, keys: seq<string>) {
    && (forall k :: k in keys ==> k in totals)
    && forall i, j :: 0 <= i < j < |keys| ==> Ahead(totals, keys[i], keys[j])
  }

  /** `sort.Slice`, one key at a time. */
  method InsertKey(totals: map<string, real>, keys: seq<string>, k: string) returns (out: seq<string>)
    requires InOrder(totals, keys) && k in totals && k !in keys
    ensures InOrder(totals, out) && forall x :: x in out <==> x in keys || x == k
  {
    var i := |keys|;
    while 0 < i && Ahead(totals, k, keys[i - 1])
      invariant 0 <= i <= |keys| && forall j :: i <= j < |keys| ==> Ahead(totals, k, keys[j])
    {
      i := i - 1;
    }
    out := keys[..i] + [k] + keys[i..];
    forall a | 0 <= a < i ensures Ahead(totals, keys[a], k) {
      AheadIsTotal(totals, keys[i - 1], k);
      assert keys[i - 1] in keys;
      if a < i - 1 { AheadOn(totals, keys[a], keys[i - 1], k); }
    }
  }

  lemma {:induction false} DistinctKeysCount(totals: map<string, real>, keys: seq<string>)
    requires InOrder(totals, keys)
    ensures |set k | k in keys| == |keys|
    decreases |keys|
  {
    hide Ahead;
    if keys != [] {
      var before, k := keys[..|keys| - 1], keys[|keys| - 1];
      assert k in keys && InOrder(totals, before);
      DistinctKeysCount(totals, before);
      AheadIsTotal(totals, k, k);
      forall i | 0 <= i < |before| ensures before[i] != k {
        assert Ahead(totals, keys[i], k);
      }
      assert (set x | x in keys) == (set x | x in before) + {k};
    }
  }

  /** In order, as many are ahead of a key as come before it. */
  lemma AheadAreBefore(totals: map<string, real>, keys: seq<string>, i: nat)
    requires InOrder(totals, keys) && i < |keys| && forall k :: k in totals <==> k in keys
    ensures |AllAhead(totals, keys[i])| == i
  {
    var before := keys[..i];
    DistinctKeysCount(totals, before);
    assert AllAhead(totals, keys[i]) == (set k | k in before) by {
      forall k ensures k in AllAhead(totals, keys[i]) <==> k in before {
        if k in AllAhead(totals, keys[i]) {
          var j :| 0 <= j < |keys| && keys[j] == k;
          if i <= j { AheadIsTotal(totals, keys[i], keys[j]); }
          assert j < i && before[j] == k;
        }
        if k in before {
          var j :| 0 <= j < |before| && before[j] == k;
          assert keys[j] == k;
        }
      }
    }
  }

  /** The keys walked so far: those kept as segments in order, the rest in `other`. */
  ghost predicate Walked(totals: map<string, real>, keys: seq<string>, i: nat, segments: seq<Segment>, keep: set<string>, other: real)
    requires i <= |keys|
  {
    && Keeps(keys, i, keep) && Shows(totals, segments, keep)
    && other == Whole(totals, Range(keys[..i]) - keep)
  }

  function Range(keys: seq<string>): set<string> {
    set k | k in keys
  }

  /** Among the first six, and not the catch-all. */
  ghost predicate Keeps(keys: seq<string>, i: nat, keep: set<string>)
    requires i <= |keys|
  {
    forall k :: k in keep <==> k != OTHER_KEY && exists j :: 0 <= j < i && j < MAX_SEGMENTS && keys[j] == k
  }

  /** The kept keys, in order, with their totals. */
  ghost predicate Shows(totals: map<string, real>, segments: seq<Segment>, keep: set<string>) {
    && |segments| == |keep| && (forall k :: k in keep ==> k in totals)
    && (forall j :: 0 <= j < |segments| ==> segments[j].key in keep && segments[j].total == Amount(totals, segments[j].key))
    && (forall a, b :: 0 <= a < b < |segments| ==> Ahead(totals, segments[a].key, segments[b].key))
  }

  lemma ShowOne(totals: map<string, real>, keys: seq<string>, i: nat, segments: seq<Segment>, keep: set<string>)
    requires InOrder(totals, keys) && i < |keys| && Keeps(keys, i, keep) && Shows(totals, segments, keep)
    ensures Shows(totals, segments + [Segment(keys[i], Amount(totals, keys[i]))], keep + {keys[i]}) && keys[i] !in keep
  {
    hide Ahead;
    var k := keys[i];
    assert k in keys;
    forall x | x in keep ensures x != k && Ahead(totals, x, k) {
      var j :| 0 <= j < i && keys[j] == x;
      assert keys[j] in keys;
      AheadIsTotal(totals, x, k);
    }
  }

  lemma RestPlus(totals: map<string, real>, keys: seq<string>, i: nat, keep: set<string>)
    requires InOrder(totals, keys) && i < |keys| && Keeps(keys, i, keep)
    ensures var k := keys[i];
            && Whole(totals, Range(keys[..i + 1]) - (keep + {k})) == Whole(totals, Range(keys[..i]) - keep)
            && Whole(totals, Range(keys[..i + 1]) - keep) == Whole(totals, Range(keys[..i]) - keep) + Amount(totals, k)
  {
    var k := keys[i];
    KeyIsNew(totals, keys, i);
    assert keys[..i + 1] == keys[..i] + [k];
    assert k !in keep;
    var was, all := Range(keys[..i]), Range(keys[..i + 1]);
    assert all == was + {k};
    assert all - (keep + {k}) == was - keep;
    WholeTakesOut(totals, all - keep, k);
    assert all - keep - {k} == was - keep;
  }

  lemma WalkKey(totals: map<string, real>, keys: seq<string>, i: nat, segments: seq<Segment>, keep: set<string>, other: real)
    requires InOrder(totals, keys) && i < |keys| && Walked(totals, keys, i, segments, keep, other)
    ensures var k := keys[i];
            if i < MAX_SEGMENTS && k != OTHER_KEY then Walked(totals, keys, i + 1, segments + [Segment(k, Amount(totals, k))], keep + {k}, other)
            else Walked(totals, keys, i + 1, segments, keep, other + Amount(totals, k))
  {
    hide Ahead, InOrder, Shows;
    RestPlus(totals, keys, i, keep);
    ShowOne(totals, keys, i, segments, keep);
  }

  lemma KeyIsNew(totals: map<string, real>, keys: seq<string>, i: nat)
    requires InOrder(totals, keys) && i < |keys|
    ensures keys[i] !in keys[..i]
  {
    forall j | 0 <= j < i ensures keys[j] != keys[i] {
      assert keys[i] in keys;
      AheadIsTotal(totals, keys[i], keys[i]);
    }
  }

  /** Named segments never cost less than those after them, equal ones come in byte
      order of their keys, and the catch-all is last. */
  ghost predicate Descends(segments: seq<Segment>) {
    && (forall i, j :: 0 <= i < j < |segments| && segments[j].key != OTHER_KEY ==>
          segments[i].total > segments[j].total || (segments[i].total == segments[j].total && Less(segments[i].key, segments[j].key)))
    && (forall i :: 0 <= i < |segments| && segments[i].key == OTHER_KEY ==> i == |segments| - 1)
  }

  /** A key without a segment costs no more than any named one. */
  ghost predicate Dearest(totals: map<string, real>, segments: seq<Segment>) {
    forall k, seg :: k in totals && k != OTHER_KEY && k !in KeysOf(segments) && seg in segments && seg.key != OTHER_KEY ==>
      totals[k] <= seg.total
  }

  lemma LegendDescends(totals: map<string, real>, segments: seq<Segment>, keep: set<string>)
    requires IsLegend(totals, segments, keep)
    ensures Descends(segments)
  {
    hide IsKept, Whole;
    LegendKeys(totals, segments, keep);
  }

  /** With as many ahead of one key as of another, the other is not behind it. */
  lemma KeptIsNoCheaper(totals: map<string, real>, k: string, named: string)
    requires k in totals && named in totals && |AllAhead(totals, named)| < MAX_SEGMENTS <= |AllAhead(totals, k)|
    ensures totals[k] <= totals[named]
  {
    if totals[named] < totals[k] {
      forall j | j in AllAhead(totals, k) ensures j in AllAhead(totals, named) {
        AheadOn(totals, j, k, named);
      }
      SubsetIsNoLarger(AllAhead(totals, k), AllAhead(totals, named));
    }
  }

  lemma FrontKeys(segments: seq<Segment>, n: nat)
    requires n <= |segments|
    ensures KeysOf(segments[..n]) <= KeysOf(segments)
  {}

  lemma LegendIsDearest(totals: map<string, real>, segments: seq<Segment>, keep: set<string>)
    requires IsLegend(totals, segments, keep)
    ensures Dearest(totals, segments)
  {
    hide Whole, AllAhead, Ahead;
    LegendKeys(totals, segments, keep);
    forall k, seg | k in totals && k != OTHER_KEY && k !in KeysOf(segments) && seg in segments && seg.key != OTHER_KEY
      ensures totals[k] <= seg.total
    {
      var i :| 0 <= i < |segments| && segments[i] == seg;
      assert seg.key in keep && IsKept(totals, seg.key);
      FrontKeys(segments, |keep|);
      KeptIsNoCheaper(totals, k, seg.key);
    }
  }

  /** `rank`. */
  method Rank(totals: map<string, real>) returns (segments: seq<Segment>, keep: set<string>)
    ensures IsLegend(totals, segments, keep)
    ensures Descends(segments) && Dearest(totals, segments)
  {
    hide Ahead, Walked, Descends, Dearest, IsLegend;
    var keys: seq<string> := [];
    var rest := totals.Keys;
    while rest != {}
      invariant rest <= totals.Keys && InOrder(totals, keys)
      invariant forall k :: k in keys <==> k in totals && k !in rest
      decreases |rest|
    {
      var k := Take(rest);
      keys := InsertKey(totals, keys, k);
      rest := rest - {k};
    }
    segments, keep := [], {};
    var other := 0.0;
    assert Walked(totals, keys, 0, segments, keep, other) by { NothingWalked(totals, keys); }
    for i := 0 to |keys|
      invariant Walked(totals, keys, i, segments, keep, other)
    {
      var k := keys[i];
      assert k in keys && k in totals;
      WalkKey(totals, keys, i, segments, keep, other);
      if i < MAX_SEGMENTS && k != OTHER_KEY {
        keep := keep + {k};
        segments := segments + [Segment(k, Amount(totals, k))];
      } else {
        other := other + Amount(totals, k);
      }
    }
    WalkedIsLegend(totals, keys, segments, keep, other);
    if other > 0.0 {
      segments := segments + [Segment(OTHER_KEY, other)];
    }
    LegendDescends(totals, segments, keep);
    LegendIsDearest(totals, segments, keep);
  }

  lemma NothingWalked(totals: map<string, real>, keys: seq<string>)
    ensures Walked(totals, keys, 0, [], {}, 0.0)
  {
    assert Range(keys[..0]) - {} == {};
  }

  lemma WalkedIsLegend(totals: map<string, real>, keys: seq<string>, segments: seq<Segment>, keep: set<string>, other: real)
    requires InOrder(totals, keys) && (forall k :: k in keys <==> k in totals) && Walked(totals, keys, |keys|, segments, keep, other)
    ensures IsLegend(totals, if other > 0.0 then segments + [Segment(OTHER_KEY, other)] else segments, keep)
  {
    hide Ahead, AllAhead, InOrder;
    assert keys[..|keys|] == keys;
    forall k ensures k in keep <==> k in totals && IsKept(totals, k) {
      KeptIsKept(totals, keys, keep, k);
    }
    assert Range(keys) == totals.Keys;
  }

  lemma KeptIsKept(totals: map<string, real>, keys: seq<string>, keep: set<string>, k: string)
    requires InOrder(totals, keys) && (forall x :: x in keys <==> x in totals) && Keeps(keys, |keys|, keep)
    ensures k in keep <==> k in totals && IsKept(totals, k)
  {
    if k in totals {
      var i :| 0 <= i < |keys| && keys[i] == k;
      AheadAreBefore(totals, keys, i);
      if k in keep {
        var j :| 0 <= j < |keys| && j < MAX_SEGMENTS && keys[j] == k;
        AheadAreBefore(totals, keys, j);
      }
    }
  }

  // ---- A day's shares ----

  datatype Share = Share(key: string, cost: real)

  /** What a segment comes to on a day. */
  ghost function OnDay(byKey: map<string, real>, keep: set<string>, key: string): real {
    if key == OTHER_KEY then Whole(byKey, byKey.Keys - keep) else Amount(byKey, key)
  }

  /** Every segment that came to something, in legend order. */
  ghost function SharesOf(byKey: map<string, real>, keep: set<string>, segments: seq<Segment>): seq<Share> {
    if segments == [] then []
    else
      var seg := segments[|segments| - 1];
      var cost := OnDay(byKey, keep, seg.key);
      var before := SharesOf(byKey, keep, segments[..|segments| - 1]);
      if cost == 0.0 then before else before + [Share(seg.key, cost)]
  }

  /** `fold`. */
  method Fold(byKey: map<string, real>, segments: seq<Segment>, keep: set<string>) returns (shares: seq<Share>)
    ensures shares == SharesOf(byKey, keep, segments)
  {
    hide Whole;
    var other := LeftOver(byKey, keep);
    shares := [];
    for i := 0 to |segments|
      invariant shares == SharesOf(byKey, keep, segments[..i])
    {
      assert segments[..i + 1][..i] == segments[..i];
      var seg := segments[i];
      var cost := if seg.key == OTHER_KEY then other else Amount(byKey, seg.key);
      if cost == 0.0 {
        continue;
      }
      shares := shares + [Share(seg.key, cost)];
    }
    assert segments[..|segments|] == segments;
  }

  /** What did not make the legend, one key after another. */
  method LeftOver(byKey: map<string, real>, keep: set<string>) returns (other: real)
    ensures other == Whole(byKey, byKey.Keys - keep)
  {
    hide Whole;
    other := 0.0;
    var rest := byKey.Keys;
    WholeOfNothing(byKey, byKey.Keys - keep - rest);
    while rest != {}
      invariant rest <= byKey.Keys && other == Whole(byKey, byKey.Keys - keep - rest)
      decreases |rest|
    {
      var k := Take(rest);
      OneLess(byKey, keep, rest, k);
      if k !in keep {
        other := other + byKey[k];
      }
      rest := rest - {k};
    }
    assert byKey.Keys - keep - {} == byKey.Keys - keep;
  }

  lemma OneLess(byKey: map<string, real>, keep: set<string>, rest: set<string>, k: string)
    requires k in rest && rest <= byKey.Keys
    ensures Whole(byKey, byKey.Keys - keep - (rest - {k})) ==
              Whole(byKey, byKey.Keys - keep - rest) + if k in keep then 0.0 else byKey[k]
  {
    var left := rest - {k};
    if k !in keep {
      WholeTakesOut(byKey, byKey.Keys - keep - left, k);
      assert byKey.Keys - keep - left - {k} == byKey.Keys - keep - rest;
    } else {
      assert byKey.Keys - keep - left == byKey.Keys - keep - rest;
    }
  }

  function SumOf(shares: seq<Share>): real {
    if shares == [] then 0.0 else SumOf(shares[..|shares| - 1]) + shares[|shares| - 1].cost
  }

  /** What a share list says of a segment: its share, or nothing. */
  ghost function SaysOf(shares: seq<Share>, key: string): real {
    if shares == [] then 0.0
    else SaysOf(shares[..|shares| - 1], key) + if shares[|shares| - 1].key == key then shares[|shares| - 1].cost else 0.0
  }

  lemma SumOfPlus(shares: seq<Share>, share: Share)
    ensures SumOf(shares + [share]) == SumOf(shares) + share.cost
  {
    assert (shares + [share])[..|shares|] == shares;
  }

  /** The kept segments' shares sum to what the day has under the kept keys. */
  lemma {:induction false} KeptSharesSum(byKey: map<string, real>, keep: set<string>, segments: seq<Segment>)
    requires forall i :: 0 <= i < |segments| ==> segments[i].key != OTHER_KEY
    requires forall i, j :: 0 <= i < j < |segments| ==> segments[i].key != segments[j].key
    ensures SumOf(SharesOf(byKey, keep, segments)) == Whole(byKey, KeysOf(segments))
    decreases |segments|
  {
    hide Whole;
    if segments == [] {
      WholeOfNothing(byKey, KeysOf(segments));
    } else {
      var before, seg := segments[..|segments| - 1], segments[|segments| - 1];
      KeptSharesSum(byKey, keep, before);
      assert KeysOf(segments) == KeysOf(before) + {seg.key} && seg.key !in KeysOf(before);
      WholeTakesOut(byKey, KeysOf(segments), seg.key);
      assert KeysOf(segments) - {seg.key} == KeysOf(before);
      SumOfPlus(SharesOf(byKey, keep, before), Share(seg.key, Amount(byKey, seg.key)));
    }
  }

  function KeysOf(segments: seq<Segment>): set<string> {
    set s | s in segments :: s.key
  }

  lemma LegendKeys(totals: map<string, real>, segments: seq<Segment>, keep: set<string>)
    requires IsLegend(totals, segments, keep)
    ensures KeysOf(segments[..|keep|]) == keep
    ensures forall i, j :: 0 <= i < j < |keep| ==> segments[i].key != segments[j].key
    ensures forall i :: 0 <= i < |keep| ==> segments[i].key != OTHER_KEY
  {
    var named := segments[..|keep|];
    forall i, j | 0 <= i < j < |keep| ensures segments[i].key != segments[j].key {
      AheadIsTotal(totals, segments[i].key, segments[j].key);
    }
    DistinctKeys(named);
    SameSizeKeys(KeysOf(named), keep);
  }

  lemma {:induction false} DistinctKeys(segments: seq<Segment>)
    requires forall i, j :: 0 <= i < j < |segments| ==> segments[i].key != segments[j].key
    ensures |KeysOf(segments)| == |segments|
    decreases |segments|
  {
    if segments != [] {
      var before, seg := segments[..|segments| - 1], segments[|segments| - 1];
      DistinctKeys(before);
      assert KeysOf(segments) == KeysOf(before) + {seg.key} && seg.key !in KeysOf(before);
    }
  }

  lemma SameSizeKeys(a: set<string>, b: set<string>)
    requires a <= b && |a| == |b|
    ensures a == b
  {
    if a != b { ProperSubsetIsSmaller(a, b); }
  }

  /** A day's amounts are part of the totals: no key is new, none is negative, and
      a segment that came to nothing came to nothing that day. */
  ghost predicate PartOf(byKey: map<string, real>, totals: map<string, real>) {
    && (forall k :: k in byKey ==> k in totals && 0.0 <= byKey[k] <= totals[k])
    && (forall k :: k in totals ==> 0.0 <= totals[k])
  }

  /** A day's shares sum to the day's cost: nothing is lost to the top six, to the
      catch-all or to the shares left out for being zero. */
  lemma SharesSumToDay(byKey: map<string, real>, totals: map<string, real>, segments: seq<Segment>, keep: set<string>)
    requires IsLegend(totals, segments, keep) && PartOf(byKey, totals)
    ensures SumOf(SharesOf(byKey, keep, segments)) == Whole(byKey, byKey.Keys)
  {
    hide IsKept, Ahead, Whole;
    LegendKeys(totals, segments, keep);
    var named := segments[..|keep|];
    KeptSharesSum(byKey, keep, named);
    KeptAndRest(byKey, keep);
    if |segments| == |keep| {
      assert segments == named;
      NothingElse(byKey, totals, keep);
    } else {
      assert segments[..|segments| - 1] == named;
      SumOfPlus(SharesOf(byKey, keep, named), Share(OTHER_KEY, Whole(byKey, byKey.Keys - keep)));
    }
  }

  lemma KeptAndRest(byKey: map<string, real>, keep: set<string>)
    ensures Whole(byKey, byKey.Keys) == Whole(byKey, keep) + Whole(byKey, byKey.Keys - keep)
  {
    var all := byKey.Keys;
    assert keep == (keep * all) + (keep - all) && all == (keep * all) + (all - keep);
    WholeOfUnion(byKey, keep * all, keep - all);
    WholeOfUnion(byKey, keep * all, all - keep);
    WholeOfNothing(byKey, keep - all);
  }

  lemma {:induction false} WholeIsNatural(m: map<string, real>, keys: set<string>)
    requires forall k :: k in keys ==> 0.0 <= Amount(m, k)
    ensures 0.0 <= Whole(m, keys)
    decreases |keys|
  {
    hide Whole;
    if keys == {} {
      WholeOfNothing(m, keys);
    } else {
      var k := Pick(keys);
      WholeTakesOut(m, keys, k);
      WholeIsNatural(m, keys - {k});
    }
  }

  lemma NothingElse(byKey: map<string, real>, totals: map<string, real>, keep: set<string>)
    requires PartOf(byKey, totals) && Whole(totals, totals.Keys - keep) <= 0.0
    ensures Whole(byKey, byKey.Keys - keep) == 0.0
  {
    hide Whole;
    var dropped := totals.Keys - keep;
    forall k | k in byKey.Keys - keep ensures Amount(byKey, k) == 0.0 {
      WholeTakesOut(totals, dropped, k);
      WholeIsNatural(totals, dropped - {k});
    }
    WholeOfNothing(byKey, byKey.Keys - keep);
  }

  // ---- The whole report, for one way of stacking ----

  function ByKeyOn(perDay: map<string, map<string, real>>, day: string): map<string, real> {
    if day in perDay then perDay[day] else map[]
  }

  ghost predicate NoNegativeRow(grid: seq<GridRow>) {
    forall r :: r in grid ==> AtMost(NO_TOKENS, r.tokens)
  }

  lemma {:induction false} PiecesAreNatural(prices: PriceTable, stack: Stack, l: Links, grid: seq<GridRow>)
    requires NoNegativePrice(prices) && NoNegativeRow(grid)
    ensures NoNegativePiece(Pieces(prices, stack, l, grid))
    decreases |grid|
  {
    hide Cost, Divide, Cut;
    if grid != [] {
      var before, r := grid[..|grid| - 1], grid[|grid| - 1];
      assert r in grid && forall x :: x in before ==> x in grid;
      PiecesAreNatural(prices, stack, l, before);
      CostGrows(prices, r.model, NO_TOKENS, r.tokens);
      CostAdds(prices, r.model, NO_TOKENS, NO_TOKENS);
      WeightsAreNatural(stack, r, l);
      CutIsNatural(r.day, Cost(prices, r.model, r.tokens), Divide(stack, r, l));
    }
  }

  lemma WeightsAreNatural(stack: Stack, r: GridRow, l: Links)
    ensures forall p :: p in Divide(stack, r, l) ==> 0.0 <= p.weight
  {}

  lemma {:induction false} CutIsNatural(day: string, cost: real, parts: seq<Part>)
    requires 0.0 <= cost && forall p :: p in parts ==> 0.0 <= p.weight
    ensures NoNegativePiece(Cut(day, cost, parts))
    decreases |parts|
  {
    if parts != [] {
      var before, part := parts[..|parts| - 1], parts[|parts| - 1];
      assert part in parts && forall p :: p in before ==> p in parts;
      CutIsNatural(day, cost, before);
      TimesGrows(cost, 0.0, part.weight);
      TimesUnits(cost);
    }
  }

  lemma {:induction false} AtGrows(pieces: seq<Piece>, a: iset<string>, b: iset<string>, keys: iset<string>)
    requires NoNegativePiece(pieces) && a <= b
    ensures At(pieces, a, keys) <= At(pieces, b, keys)
    decreases |pieces|
  {
    if pieces != [] {
      assert forall p :: p in pieces[..|pieces| - 1] ==> p in pieces;
      AtGrows(pieces[..|pieces| - 1], a, b, keys);
      assert pieces[|pieces| - 1] in pieces;
    }
  }

  /** Summed over the keys that days' pieces have, the books give what the pieces come to. */
  lemma SumsToAt(pieces: seq<Piece>, days: iset<string>, byKey: map<string, real>, keys: set<string>, all: iset<string>)
    requires Sums(pieces, days, byKey) && keys <= byKey.Keys
    requires forall p :: p in pieces && p.day in days ==> (p.key in keys <==> p.key in all)
    ensures Whole(byKey, keys) == At(pieces, days, all)
  {
    hide At;
    AtByKey(pieces, days, keys);
    TotalAgrees(keys, k => Amount(byKey, k), k => At(pieces, days, iset{k}));
    AtAgrees(pieces, days, days, These(keys), all);
  }

  lemma DayIsPart(pieces: seq<Piece>, perDay: map<string, map<string, real>>, totals: map<string, real>, day: string)
    requires NoNegativePiece(pieces) && Adds(pieces, perDay, totals)
    ensures Sums(pieces, iset{day}, ByKeyOn(perDay, day))
    ensures forall p :: p in pieces && p.day == day ==> p.key in ByKeyOn(perDay, day)
    ensures PartOf(ByKeyOn(perDay, day), totals)
  {
    hide At;
    var byKey := ByKeyOn(perDay, day);
    if day !in perDay {
      NoSums(pieces, iset{day});
    }
    forall k | k in byKey && k in totals ensures 0.0 <= byKey[k] <= totals[k] {
      AtIsNatural(pieces, iset{day}, iset{k});
      AtGrows(pieces, iset{day}, Any(), iset{k});
    }
    forall k | k in totals ensures 0.0 <= totals[k] {
      AtIsNatural(pieces, Any(), iset{k});
    }
  }

  /** The same day reached through the books, whatever keys are asked for. */
  lemma DayAmount(pieces: seq<Piece>, perDay: map<string, map<string, real>>, totals: map<string, real>, day: string, keys: set<string>)
    requires NoNegativePiece(pieces) && Adds(pieces, perDay, totals) && keys <= totals.Keys
    ensures Whole(ByKeyOn(perDay, day), ByKeyOn(perDay, day).Keys * keys) == At(pieces, iset{day}, These(keys))
  {
    hide At, NoNegativePiece, Adds, Whole;
    DayIsPart(pieces, perDay, totals, day);
    var byKey := ByKeyOn(perDay, day);
    SumsToAt(pieces, iset{day}, byKey, byKey.Keys * keys, These(keys));
  }

  /** What a legend segment comes to on a day is what the day's pieces under it do. */
  lemma SegmentOnDay(pieces: seq<Piece>, perDay: map<string, map<string, real>>, totals: map<string, real>, keep: set<string>, day: string, key: string)
    requires NoNegativePiece(pieces) && Adds(pieces, perDay, totals)
    requires keep <= totals.Keys && (key == OTHER_KEY || key in keep)
    ensures OnDay(ByKeyOn(perDay, day), keep, key) ==
              At(pieces, iset{day}, These(if key == OTHER_KEY then totals.Keys - keep else {key}))
  {
    hide At, NoNegativePiece, Adds, Sums;
    var byKey := ByKeyOn(perDay, day);
    DayIsPart(pieces, perDay, totals, day);
    if key == OTHER_KEY {
      DayAmount(pieces, perDay, totals, day, totals.Keys - keep);
      assert byKey.Keys * (totals.Keys - keep) == byKey.Keys - keep;
    } else {
      DayAmount(pieces, perDay, totals, day, {key});
      OneAmount(byKey, key);
    }
  }

  lemma OneAmount(m: map<string, real>, key: string)
    ensures Whole(m, m.Keys * {key}) == Amount(m, key)
  {
    if key in m {
      assert m.Keys * {key} == {key};
      WholeTakesOut(m, {key}, key);
      WholeOfNothing(m, {key} - {key});
    } else {
      WholeOfNothing(m, m.Keys * {key});
    }
  }

  /** A segment's total in the legend is the sum of its shares over all days. */
  lemma LegendSumsOverDays(pieces: seq<Piece>, perDay: map<string, map<string, real>>, totals: map<string, real>,
                           segments: seq<Segment>, keep: set<string>, days: set<string>, seg: Segment)
    requires NoNegativePiece(pieces) && Adds(pieces, perDay, totals) && IsLegend(totals, segments, keep) && seg in segments
    requires forall p :: p in pieces ==> p.day in days
    ensures Total(days, d => OnDay(ByKeyOn(perDay, d), keep, seg.key)) == seg.total
  {
    hide At, NoNegativePiece, Whole, OnDay, IsKept, Ahead;
    LegendKeys(totals, segments, keep);
    var i :| 0 <= i < |segments| && segments[i] == seg;
    var keys := if seg.key == OTHER_KEY then totals.Keys - keep else {seg.key};
    forall d | d in days ensures OnDay(ByKeyOn(perDay, d), keep, seg.key) == At(pieces, iset{d}, These(keys)) {
      SegmentOnDay(pieces, perDay, totals, keep, d, seg.key);
    }
    TotalAgrees(days, d => OnDay(ByKeyOn(perDay, d), keep, seg.key), d => At(pieces, iset{d}, These(keys)));
    AtByDay(pieces, days, These(keys));
    AtAgrees(pieces, These(days), Any(), These(keys), These(keys));
    SumsToAt(pieces, Any(), totals, keys, These(keys));
    if seg.key != OTHER_KEY {
      assert totals.Keys * {seg.key} == {seg.key};
      OneAmount(totals, seg.key);
    }
  }

  /** What a list of shares says of a segment is what the segment comes to. */
  lemma {:induction false} SharesSay(byKey: map<string, real>, keep: set<string>, segments: seq<Segment>, key: string)
    requires forall i, j :: 0 <= i < j < |segments| ==> segments[i].key != segments[j].key
    ensures SaysOf(SharesOf(byKey, keep, segments), key) ==
              if exists s :: s in segments && s.key == key then OnDay(byKey, keep, key) else 0.0
    decreases |segments|
  {
    hide OnDay;
    if segments != [] {
      var before, seg := segments[..|segments| - 1], segments[|segments| - 1];
      SharesSay(byKey, keep, before, key);
      assert forall s :: s in segments <==> s in before || s == seg;
      var shares, share := SharesOf(byKey, keep, before), Share(seg.key, OnDay(byKey, keep, seg.key));
      assert (shares + [share])[..|shares|] == shares;
    }
  }

  lemma LegendKeysDiffer(totals: map<string, real>, segments: seq<Segment>, keep: set<string>)
    requires IsLegend(totals, segments, keep)
    ensures forall i, j :: 0 <= i < j < |segments| ==> segments[i].key != segments[j].key
  {
    hide IsKept, Ahead, Whole;
    LegendKeys(totals, segments, keep);
  }

  /** What the report promises of one way of stacking. */
  ghost predicate Reconciles(prices: PriceTable, grid: seq<GridRow>, days: seq<string>, segments: seq<Segment>, shares: seq<seq<Share>>) {
    && |shares| == |days|
    && (forall i :: 0 <= i < |days| ==> SumOf(shares[i]) == DayCost(prices, grid, days[i]))
    && (forall seg :: seg in segments ==> SumSays(shares, seg.key) == seg.total)
  }

  /** What a stack says, by the columns of the rows: every named segment's share of a
      day and its total are what belongs under its key; named segments descend, and
      nothing left out costs more than one of them. */
  ghost predicate Tells(prices: PriceTable, stack: Stack, l: Links, grid: seq<GridRow>, days: seq<string>, segments: seq<Segment>, shares: seq<seq<Share>>)
    requires |shares| == |days|
  {
    && (forall seg :: seg in segments && seg.key != OTHER_KEY ==>
          && seg.total == CostUnder(prices, stack, l, grid, Any(), seg.key)
          && forall i :: 0 <= i < |days| ==> SaysOf(shares[i], seg.key) == CostUnder(prices, stack, l, grid, iset{days[i]}, seg.key))
    && Descends(segments)
    && (forall k: string, seg :: k != OTHER_KEY && k !in KeysOf(segments) && seg in segments && seg.key != OTHER_KEY ==>
          CostUnder(prices, stack, l, grid, Any(), k) <= seg.total)
  }

  ghost function SumSays(shares: seq<seq<Share>>, key: string): real {
    if shares == [] then 0.0 else SumSays(shares[..|shares| - 1], key) + SaysOf(shares[|shares| - 1], key)
  }

  /** `Daily`, for one dimension: on every day the shares sum to the day's cost, and
      every segment's total is the sum of its shares over the days. */
  method Stacked(prices: PriceTable, stack: Stack, l: Links, grid: seq<GridRow>, days: seq<string>)
    returns (segments: seq<Segment>, shares: seq<seq<Share>>)
    requires NoNegativePrice(prices) && NoNegativeRow(grid)
    requires (forall r :: r in grid ==> r.day in days) && forall i, j :: 0 <= i < j < |days| ==> days[i] != days[j]
    ensures Reconciles(prices, grid, days, segments, shares) && Tells(prices, stack, l, grid, days, segments, shares)
    ensures |segments| <= MAX_SEGMENTS + 1
  {
    hide IsLegend, Adds, SharesOf, NoNegativePrice, NoNegativeRow, Pieces, DayCost, Descends, Dearest, Tells;
    var perDay, totals := Divided(prices, stack, l, grid);
    var keep;
    segments, keep := Rank(totals);
    shares := [];
    for i := 0 to |days|
      invariant |shares| == i
      invariant forall j :: 0 <= j < i ==> shares[j] == SharesOf(ByKeyOn(perDay, days[j]), keep, segments)
    {
      var day := Fold(ByKeyOn(perDay, days[i]), segments, keep);
      shares := shares + [day];
    }
    StackReconciles(prices, stack, l, grid, days, perDay, totals, segments, keep, shares);
    StackTells(prices, stack, l, grid, days, perDay, totals, segments, keep, shares);
  }

  /** A key's total in the books, wherever it is booked. */
  lemma TotalBelongs(prices: PriceTable, stack: Stack, l: Links, grid: seq<GridRow>, perDay: map<string, map<string, real>>, totals: map<string, real>, k: string)
    requires Adds(Pieces(prices, stack, l, grid), perDay, totals)
    ensures Amount(totals, k) == CostUnder(prices, stack, l, grid, Any(), k)
  {
    hide At, Pieces;
    var pieces := Pieces(prices, stack, l, grid);
    BookedBelongs(prices, stack, l, grid, Any(), k);
    if k !in totals {
      NothingAt(pieces, Any(), k);
    }
  }

  lemma ShareBelongs(prices: PriceTable, stack: Stack, l: Links, grid: seq<GridRow>, perDay: map<string, map<string, real>>, totals: map<string, real>,
                     segments: seq<Segment>, keep: set<string>, seg: Segment, day: string)
    requires NoNegativePrice(prices) && NoNegativeRow(grid)
    requires Adds(Pieces(prices, stack, l, grid), perDay, totals) && IsLegend(totals, segments, keep) && seg in segments && seg.key != OTHER_KEY
    ensures SaysOf(SharesOf(ByKeyOn(perDay, day), keep, segments), seg.key) == CostUnder(prices, stack, l, grid, iset{day}, seg.key)
  {
    hide At, Pieces, Adds, SaysOf, SharesOf, OnDay, NoNegativePrice, NoNegativeRow, Ahead, Whole, IsKept, NoNegativePiece;
    var pieces := Pieces(prices, stack, l, grid);
    PiecesAreNatural(prices, stack, l, grid);
    LegendKeysDiffer(totals, segments, keep);
    LegendKeys(totals, segments, keep);
    SharesSay(ByKeyOn(perDay, day), keep, segments, seg.key);
    assert seg.key in keep by {
      var i :| 0 <= i < |segments| && segments[i] == seg;
    }
    SegmentOnDay(pieces, perDay, totals, keep, day, seg.key);
    AtAgrees(pieces, iset{day}, iset{day}, These({seg.key}), iset{seg.key});
    BookedBelongs(prices, stack, l, grid, iset{day}, seg.key);
  }

  lemma StackTells(prices: PriceTable, stack: Stack, l: Links, grid: seq<GridRow>, days: seq<string>, perDay: map<string, map<string, real>>,
                   totals: map<string, real>, segments: seq<Segment>, keep: set<string>, shares: seq<seq<Share>>)
    requires NoNegativePrice(prices) && NoNegativeRow(grid)
    requires Adds(Pieces(prices, stack, l, grid), perDay, totals) && IsLegend(totals, segments, keep)
    requires Descends(segments) && Dearest(totals, segments)
    requires |shares| == |days| && forall j :: 0 <= j < |days| ==> shares[j] == SharesOf(ByKeyOn(perDay, days[j]), keep, segments)
    ensures Tells(prices, stack, l, grid, days, segments, shares)
  {
    hide Adds, SaysOf, SharesOf, Pieces, NoNegativePrice, NoNegativeRow, Descends, CostUnder;
    forall seg | seg in segments && seg.key != OTHER_KEY
      ensures seg.total == CostUnder(prices, stack, l, grid, Any(), seg.key)
    {
      TotalBelongs(prices, stack, l, grid, perDay, totals, seg.key);
      LegendTotal(totals, segments, keep, seg);
    }
    forall seg, i | seg in segments && seg.key != OTHER_KEY && 0 <= i < |days|
      ensures SaysOf(shares[i], seg.key) == CostUnder(prices, stack, l, grid, iset{days[i]}, seg.key)
    {
      ShareBelongs(prices, stack, l, grid, perDay, totals, segments, keep, seg, days[i]);
    }
    hide IsLegend;
    forall k: string, seg | k != OTHER_KEY && k !in KeysOf(segments) && seg in segments && seg.key != OTHER_KEY
      ensures CostUnder(prices, stack, l, grid, Any(), k) <= seg.total
    {
      TotalBelongs(prices, stack, l, grid, perDay, totals, k);
      if k !in totals {
        TotalBelongs(prices, stack, l, grid, perDay, totals, seg.key);
        TotalIsNatural(prices, stack, l, grid, seg.key);
      }
    }
  }

  lemma LegendTotal(totals: map<string, real>, segments: seq<Segment>, keep: set<string>, seg: Segment)
    requires IsLegend(totals, segments, keep) && seg in segments && seg.key != OTHER_KEY
    ensures seg.total == Amount(totals, seg.key)
  {
    hide IsKept, Ahead, Whole;
    var i :| 0 <= i < |segments| && segments[i] == seg;
  }

  lemma TotalIsNatural(prices: PriceTable, stack: Stack, l: Links, grid: seq<GridRow>, k: string)
    requires NoNegativePrice(prices) && NoNegativeRow(grid)
    ensures 0.0 <= CostUnder(prices, stack, l, grid, Any(), k)
  {
    PiecesAreNatural(prices, stack, l, grid);
    AtIsNatural(Pieces(prices, stack, l, grid), Any(), iset{k});
    BookedBelongs(prices, stack, l, grid, Any(), k);
  }

  lemma {:induction false} LegendIsShort(totals: map<string, real>, segments: seq<Segment>, keep: set<string>)
    requires IsLegend(totals, segments, keep)
    ensures |segments| <= MAX_SEGMENTS + 1
  {
    hide Whole, Ahead;
    if |keep| > 0 {
      LegendKeys(totals, segments, keep);
      var last := segments[|keep| - 1].key;
      var before := KeysOf(segments[..|keep| - 1]);
      assert last in keep && IsKept(totals, last);
      DistinctKeys(segments[..|keep| - 1]);
      forall k | k in before ensures k in AllAhead(totals, last) {
        var s :| s in segments[..|keep| - 1] && s.key == k;
        var i :| 0 <= i < |keep| - 1 && segments[i] == s;
      }
      SubsetIsNoLarger(before, AllAhead(totals, last));
    }
  }

  lemma {:induction false} PiecesAreOfRows(prices: PriceTable, stack: Stack, l: Links, grid: seq<GridRow>)
    ensures forall p :: p in Pieces(prices, stack, l, grid) ==> exists r :: r in grid && r.day == p.day
    decreases |grid|
  {
    hide Divide, Cost;
    if grid != [] {
      var before, r := grid[..|grid| - 1], grid[|grid| - 1];
      PiecesAreOfRows(prices, stack, l, before);
      assert r in grid && forall x :: x in before ==> x in grid;
      CutIsOfDay(r.day, Cost(prices, r.model, r.tokens), Divide(stack, r, l));
    }
  }

  lemma {:induction false} CutIsOfDay(day: string, cost: real, parts: seq<Part>)
    ensures forall p :: p in Cut(day, cost, parts) ==> p.day == day
    decreases |parts|
  {
    if parts != [] {
      CutIsOfDay(day, cost, parts[..|parts| - 1]);
    }
  }

  lemma DayReconciles(prices: PriceTable, stack: Stack, l: Links, grid: seq<GridRow>, perDay: map<string, map<string, real>>,
                      totals: map<string, real>, segments: seq<Segment>, keep: set<string>, day: string)
    requires NoNegativePrice(prices) && NoNegativeRow(grid)
    requires Adds(Pieces(prices, stack, l, grid), perDay, totals) && IsLegend(totals, segments, keep)
    ensures SumOf(SharesOf(ByKeyOn(perDay, day), keep, segments)) == DayCost(prices, grid, day)
  {
    hide At, Adds, IsLegend, Whole, SharesOf, Pieces, DayCost, NoNegativePrice, NoNegativeRow;
    var pieces, byKey := Pieces(prices, stack, l, grid), ByKeyOn(perDay, day);
    PiecesAreNatural(prices, stack, l, grid);
    DayIsPart(pieces, perDay, totals, day);
    SharesSumToDay(byKey, totals, segments, keep);
    SumsToAt(pieces, iset{day}, byKey, byKey.Keys, Any());
    PiecesKeepDayCost(prices, stack, l, grid, day);
  }

  lemma {:induction false} SumSaysIsTotal(shares: seq<seq<Share>>, days: seq<string>, key: string, f: string -> real)
    requires |shares| == |days| && forall i, j :: 0 <= i < j < |days| ==> days[i] != days[j]
    requires forall i :: 0 <= i < |days| ==> SaysOf(shares[i], key) == f(days[i])
    ensures SumSays(shares, key) == Total(Range(days), f)
    decreases |days|
  {
    hide SaysOf;
    if days == [] {
      assert Range(days) == {};
    } else {
      var n := |days| - 1;
      SumSaysIsTotal(shares[..n], days[..n], key, f);
      assert Range(days) == Range(days[..n]) + {days[n]} && days[n] !in Range(days[..n]);
      TotalTakesOut(Range(days), f, days[n]);
      assert Range(days) - {days[n]} == Range(days[..n]);
    }
  }

  lemma StackReconciles(prices: PriceTable, stack: Stack, l: Links, grid: seq<GridRow>, days: seq<string>, perDay: map<string, map<string, real>>,
                        totals: map<string, real>, segments: seq<Segment>, keep: set<string>, shares: seq<seq<Share>>)
    requires NoNegativePrice(prices) && NoNegativeRow(grid)
    requires (forall r :: r in grid ==> r.day in days) && forall i, j :: 0 <= i < j < |days| ==> days[i] != days[j]
    requires Adds(Pieces(prices, stack, l, grid), perDay, totals) && IsLegend(totals, segments, keep)
    requires |shares| == |days| && forall j :: 0 <= j < |days| ==> shares[j] == SharesOf(ByKeyOn(perDay, days[j]), keep, segments)
    ensures Reconciles(prices, grid, days, segments, shares) && |segments| <= MAX_SEGMENTS + 1
  {
    hide At, Adds, IsLegend, Whole, SharesOf, Pieces, DayCost, NoNegativePrice, NoNegativeRow, OnDay, SumOf, SaysOf;
    forall i | 0 <= i < |days| ensures SumOf(shares[i]) == DayCost(prices, grid, days[i]) {
      DayReconciles(prices, stack, l, grid, perDay, totals, segments, keep, days[i]);
    }
    LegendKeysDiffer(totals, segments, keep);
    LegendIsShort(totals, segments, keep);
    PiecesAreNatural(prices, stack, l, grid);
    PiecesAreOfRows(prices, stack, l, grid);
    forall seg | seg in segments ensures SumSays(shares, seg.key) == seg.total {
      forall i | 0 <= i < |days| ensures SaysOf(shares[i], seg.key) == OnDay(ByKeyOn(perDay, days[i]), keep, seg.key) {
        SharesSay(ByKeyOn(perDay, days[i]), keep, segments, seg.key);
      }
      SumSaysIsTotal(shares, days, seg.key, d => OnDay(ByKeyOn(perDay, d), keep, seg.key));
      LegendSumsOverDays(Pieces(prices, stack, l, grid), perDay, totals, segments, keep, Range(days), seg);
    }
  }

  // ---- Days, and every way of stacking them ----

  datatype Day = Day(date: string, requests: int, output: real, cost: real)

  function DayRequests(grid: seq<GridRow>, date: string): int {
    if grid == [] then 0
    else DayRequests(grid[..|grid| - 1], date) + if grid[|grid| - 1].day == date then grid[|grid| - 1].requests else 0
  }

  function DayOutput(grid: seq<GridRow>, date: string): real {
    if grid == [] then 0.0
    else DayOutput(grid[..|grid| - 1], date) + if grid[|grid| - 1].day == date then grid[|grid| - 1].tokens.output else 0.0
  }

  /** One entry for each day there is a row of, with what its rows come to. */
  ghost predicate AreDays(prices: PriceTable, grid: seq<GridRow>, days: seq<Day>) {
    && (forall i, j :: 0 <= i < j < |days| ==> days[i].date != days[j].date)
    && (forall r :: r in grid ==> exists i :: 0 <= i < |days| && days[i].date == r.day)
    && (forall i :: 0 <= i < |days| ==>
          var d := days[i].date;
          days[i] == Day(d, DayRequests(grid, d), DayOutput(grid, d), DayCost(prices, grid, d)))
  }

  /** Each date's place among the days. */
  ghost predicate Indexes(days: seq<Day>, index: map<string, nat>) {
    && (forall i :: 0 <= i < |days| ==> days[i].date in index && index[days[i].date] == i)
    && (forall d :: d in index ==> index[d] < |days| && days[index[d]].date == d)
  }

  function Included(prices: PriceTable, d: Day, r: GridRow): Day {
    Day(d.date, d.requests + r.requests, d.output + r.tokens.output, d.cost + RowCost(prices, r))
  }

  lemma {:induction false} NoRowsOf(prices: PriceTable, grid: seq<GridRow>, date: string)
    requires forall r :: r in grid ==> r.day != date
    ensures DayRequests(grid, date) == 0 && DayOutput(grid, date) == 0.0 && DayCost(prices, grid, date) == 0.0
    decreases |grid|
  {
    if grid != [] {
      assert grid[|grid| - 1] in grid && forall r :: r in grid[..|grid| - 1] ==> r in grid;
      NoRowsOf(prices, grid[..|grid| - 1], date);
    }
  }

  lemma RowCounts(prices: PriceTable, grid: seq<GridRow>, r: GridRow, date: string)
    ensures DayRequests(grid + [r], date) == DayRequests(grid, date) + if r.day == date then r.requests else 0
    ensures DayOutput(grid + [r], date) == DayOutput(grid, date) + if r.day == date then r.tokens.output else 0.0
    ensures DayCost(prices, grid + [r], date) == DayCost(prices, grid, date) + if r.day == date then RowCost(prices, r) else 0.0
  {
    assert (grid + [r])[..|grid|] == grid;
  }

  lemma AddDay(prices: PriceTable, grid: seq<GridRow>, days: seq<Day>, index: map<string, nat>, r: GridRow)
    requires AreDays(prices, grid, days) && Indexes(days, index) && r.day !in index
    ensures AreDays(prices, grid + [r], days + [Included(prices, Day(r.day, 0, 0.0, 0.0), r)])
  {
    hide RowCost, DayRequests, DayOutput, DayCost;
    forall x | x in grid ensures x.day != r.day {
      var i :| 0 <= i < |days| && days[i].date == x.day;
    }
    NoRowsOf(prices, grid, r.day);
    var days' := days + [Included(prices, Day(r.day, 0, 0.0, 0.0), r)];
    forall i | 0 <= i < |days'|
      ensures var d := days'[i].date;
              days'[i] == Day(d, DayRequests(grid + [r], d), DayOutput(grid + [r], d), DayCost(prices, grid + [r], d))
    {
      RowCounts(prices, grid, r, days'[i].date);
      assert i < |days| ==> days'[i] == days[i];
    }
    assert days'[|days|].date == r.day;
    forall x | x in grid ensures exists i :: 0 <= i < |days'| && days'[i].date == x.day {
      var i :| 0 <= i < |days| && days[i].date == x.day;
      assert days'[i] == days[i];
    }
  }

  lemma AddToDay(prices: PriceTable, grid: seq<GridRow>, days: seq<Day>, index: map<string, nat>, r: GridRow)
    requires AreDays(prices, grid, days) && Indexes(days, index) && r.day in index
    ensures AreDays(prices, grid + [r], days[index[r.day] := Included(prices, days[index[r.day]], r)])
  {
    hide RowCost, DayRequests, DayOutput, DayCost;
    var k := index[r.day];
    var days' := days[k := Included(prices, days[k], r)];
    assert forall i :: 0 <= i < |days| ==> days'[i].date == days[i].date;
    forall i | 0 <= i < |days'|
      ensures var d := days'[i].date;
              days'[i] == Day(d, DayRequests(grid + [r], d), DayOutput(grid + [r], d), DayCost(prices, grid + [r], d))
    {
      RowCounts(prices, grid, r, days'[i].date);
      assert i != k ==> days'[i] == days[i];
    }
    assert days'[k].date == r.day;
  }

  /** Some row of the one day comes before every row of the other. */
  ghost predicate SeenBefore(grid: seq<GridRow>, a: string, b: string) {
    exists x :: 0 <= x < |grid| && grid[x].day == a && forall y :: 0 <= y < |grid| && grid[y].day == b ==> x < y
  }

  /** Days stand in the order in which the grid first has a row of each. */
  ghost predicate AsSeen(grid: seq<GridRow>, days: seq<Day>) {
    forall i, j :: 0 <= i < j < |days| ==> SeenBefore(grid, days[i].date, days[j].date)
  }

  ghost predicate DaySeen(grid: seq<GridRow>, day: string) {
    exists q :: q in grid && q.day == day
  }

  lemma DayStays(grid: seq<GridRow>, r: GridRow, day: string)
    requires DaySeen(grid, day) || r.day == day
    ensures DaySeen(grid + [r], day)
  {
    assert r in grid + [r];
    if DaySeen(grid, day) {
      var q :| q in grid && q.day == day;
      assert q in grid + [r];
    }
  }

  lemma StillSeenBefore(grid: seq<GridRow>, r: GridRow, a: string, b: string)
    requires SeenBefore(grid, a, b)
    ensures SeenBefore(grid + [r], a, b)
  {
    var x :| 0 <= x < |grid| && grid[x].day == a && forall y :: 0 <= y < |grid| && grid[y].day == b ==> x < y;
    assert (grid + [r])[x].day == a;
    forall y | 0 <= y < |grid + [r]| && (grid + [r])[y].day == b ensures x < y {
      if y < |grid| { assert grid[y].day == b; }
    }
  }

  lemma NewIsSeenLast(grid: seq<GridRow>, r: GridRow, a: string)
    requires DaySeen(grid, a) && forall q :: q in grid ==> q.day != r.day
    ensures SeenBefore(grid + [r], a, r.day)
  {
    var q :| q in grid && q.day == a;
    var x :| 0 <= x < |grid| && grid[x] == q;
    assert (grid + [r])[x].day == a;
    forall y | 0 <= y < |grid| ensures (grid + [r])[y] == grid[y] && grid[y] in grid {}
  }

  /** Dates stay as seen when a row is added. */
  lemma SeenOn(grid: seq<GridRow>, r: GridRow, days: seq<Day>, days': seq<Day>, index: map<string, nat>)
    requires AsSeen(grid, days) && Indexes(days, index) && (forall q :: q in grid ==> q.day in index)
    requires forall i :: 0 <= i < |days| ==> DaySeen(grid, days[i].date)
    requires |days| <= |days'| && forall i :: 0 <= i < |days| ==> days'[i].date == days[i].date
    requires |days'| == if r.day in index then |days| else |days| + 1
    requires r.day !in index ==> days'[|days|].date == r.day
    ensures AsSeen(grid + [r], days')
    ensures forall i :: 0 <= i < |days'| ==> DaySeen(grid + [r], days'[i].date)
  {
    hide SeenBefore;
    forall i, j | 0 <= i < j < |days'| ensures SeenBefore(grid + [r], days'[i].date, days'[j].date) {
      if j < |days| {
        StillSeenBefore(grid, r, days[i].date, days[j].date);
      } else {
        NewIsSeenLast(grid, r, days[i].date);
      }
    }
    forall i | 0 <= i < |days'| ensures DaySeen(grid + [r], days'[i].date) {
      DayStays(grid, r, days'[i].date);
    }
  }

  /** `dailyGrid`: the per-day totals, in the order days first appear. */
  method DailyGrid(prices: PriceTable, grid: seq<GridRow>) returns (days: seq<Day>)
    ensures AreDays(prices, grid, days) && AsSeen(grid, days)
  {
    hide AreDays, RowCost, AsSeen;
    days := [];
    var index: map<string, nat> := map[];
    assert AreDays(prices, [], days) && AsSeen([], days) by { NoDays(prices); }
    for i := 0 to |grid|
      invariant AreDays(prices, grid[..i], days) && Indexes(days, index) && AsSeen(grid[..i], days)
      invariant forall q :: q in grid[..i] ==> q.day in index
      invariant forall j :: 0 <= j < |days| ==> DaySeen(grid[..i], days[j].date)
    {
      var r := grid[i];
      assert grid[..i + 1] == grid[..i] + [r];
      ghost var was, places := days, index;
      if r.day in index {
        AddToDay(prices, grid[..i], days, index, r);
        days := days[index[r.day] := Included(prices, days[index[r.day]], r)];
      } else {
        AddDay(prices, grid[..i], days, index, r);
        index := index[r.day := |days|];
        days := days + [Included(prices, Day(r.day, 0, 0.0, 0.0), r)];
      }
      SeenOn(grid[..i], r, was, days, places);
    }
    assert grid[..|grid|] == grid;
  }

  lemma NoDays(prices: PriceTable)
    ensures AreDays(prices, [], []) && AsSeen([], [])
  {}

  const STACKINGS := [ByModel, ByProject, ByBranch, ByPullRequest, BySession, ByPeer]

  function Dates(days: seq<Day>): seq<string> {
    seq(|days|, i requires 0 <= i < |days| => days[i].date)
  }

  datatype Stacking = Stacking(segments: seq<Segment>, shares: seq<seq<Share>>)

  /** `Daily`: each day once, and for every dimension shares that sum to each day's
      cost and a legend whose totals are the sums of the shares. */
  method Report(prices: PriceTable, l: Links, grid: seq<GridRow>) returns (days: seq<Day>, stacks: seq<Stacking>)
    requires NoNegativePrice(prices) && NoNegativeRow(grid)
    ensures AreDays(prices, grid, days) && |stacks| == |STACKINGS|
    ensures forall k :: 0 <= k < |stacks| ==> |stacks[k].shares| == |days|
    ensures forall k, i :: 0 <= k < |stacks| && 0 <= i < |days| ==> SumOf(stacks[k].shares[i]) == days[i].cost
    ensures forall k, seg :: 0 <= k < |stacks| && seg in stacks[k].segments ==> SumSays(stacks[k].shares, seg.key) == seg.total
    ensures forall k :: 0 <= k < |stacks| ==> Tells(prices, STACKINGS[k], l, grid, Dates(days), stacks[k].segments, stacks[k].shares)
    ensures AsSeen(grid, days)
  {
    hide NoNegativePrice, NoNegativeRow, DayCost, SumOf, SumSays, DayRequests, DayOutput, Tells, AsSeen;
    days := DailyGrid(prices, grid);
    var dates := Dates(days);
    forall r | r in grid ensures r.day in dates {
      var i :| 0 <= i < |days| && days[i].date == r.day;
      assert dates[i] == r.day;
    }
    stacks := [];
    for k := 0 to |STACKINGS|
      invariant |stacks| == k
      invariant forall j :: 0 <= j < k ==> Reconciles(prices, grid, dates, stacks[j].segments, stacks[j].shares)
      invariant forall j :: 0 <= j < k ==> Tells(prices, STACKINGS[j], l, grid, dates, stacks[j].segments, stacks[j].shares)
    {
      var segments, shares := Stacked(prices, STACKINGS[k], l, grid, dates);
      stacks := stacks + [Stacking(segments, shares)];
    }
  }
}
