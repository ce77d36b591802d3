/** What shipped work cost: a session's usage split between the pull requests it
    opened, totalled before the join and priced after it. */
module Deliveries {
  import opened Records
  import opened Sets
  import opened Totals
  import opened Requests
  import opened Pricing
  import opened Summary

  datatype PullRequest = PullRequest(repo: string, number: int)

  /** One row of `links`. The table holds each session and pull request once. */
  datatype Link = Link(session: string, pr: PullRequest)

  /** One of the token counts that are billed. */
  type Kind = Usage -> int

  ghost predicate Counts(reqs: seq<Request>, kind: Kind) {
    forall r :: r in reqs ==> 0 <= kind(r.usage)
  }

  function PrsOf(links: set<Link>, session: string): set<PullRequest> {
    set l | l in links && l.session == session :: l.pr
  }

  function SessionsOf(links: set<Link>, pr: PullRequest): set<string> {
    set l | l in links && l.pr == pr :: l.session
  }

  function AllPrs(links: set<Link>): set<PullRequest> {
    set l | l in links :: l.pr
  }

  function Shipped(links: set<Link>, session: string): bool {
    PrsOf(links, session) != {}
  }

  /** The share of one of a session's pull requests in `n` of its tokens. */
  function Share(links: set<Link>, session: string, n: int): real
    requires Shipped(links, session)
  {
    n as real / |PrsOf(links, session)| as real
  }

  // ---- Joining first ----

  /** What a request gives a pull request, by the row it makes in the join. */
  function JoinedRow(links: set<Link>, model: string, kind: Kind, r: Request, pr: PullRequest): real {
    if r.model == model && pr in PrsOf(links, r.session) then Share(links, r.session, kind(r.usage)) else 0.0
  }

  /** Every request joined to its session's pull requests, then summed. */
  function JoinFirst(reqs: seq<Request>, links: set<Link>, model: string, kind: Kind, pr: PullRequest): real {
    ColumnSum(reqs, (r, p) => JoinedRow(links, model, kind, r, p), pr)
  }

  // ---- Summing first ----

  function OfSession(session: string, model: string, kind: Kind, r: Request): int {
    if r.session == session && r.model == model then kind(r.usage) else 0
  }

  /** `per_session`: integer sums, as SQL keeps them. */
  function PerSession(reqs: seq<Request>, session: string, model: string, kind: Kind): int {
    if reqs == [] then 0
    else PerSession(reqs[..|reqs| - 1], session, model, kind) + OfSession(session, model, kind, reqs[|reqs| - 1])
  }

  function SessionShare(reqs: seq<Request>, links: set<Link>, model: string, kind: Kind, session: string): real {
    if Shipped(links, session) then Share(links, session, PerSession(reqs, session, model, kind)) else 0.0
  }

  /** Each session summed, then joined to its pull requests. */
  ghost function SumFirst(reqs: seq<Request>, links: set<Link>, model: string, kind: Kind, pr: PullRequest): real {
    Total(SessionsOf(links, pr), s => SessionShare(reqs, links, model, kind, s))
  }

  lemma ShareAdds(links: set<Link>, session: string, a: int, b: int)
    requires Shipped(links, session)
    ensures Share(links, session, a + b) == Share(links, session, a) + Share(links, session, b)
    ensures Share(links, session, 0) == 0.0
  {}

  lemma LinkedBothWays(links: set<Link>, session: string, pr: PullRequest)
    ensures pr in PrsOf(links, session) <==> Link(session, pr) in links
    ensures session in SessionsOf(links, pr) <==> Link(session, pr) in links
  {}

  /** Summing within the session first and joining the totals gives what joining
      every request first would. */
  lemma {:induction false} SumThenJoinIsJoinThenSum(reqs: seq<Request>, links: set<Link>, model: string, kind: Kind, pr: PullRequest)
    ensures SumFirst(reqs, links, model, kind, pr) == JoinFirst(reqs, links, model, kind, pr)
    decreases |reqs|
  {
    hide Share, PrsOf, SessionsOf;
    var sessions := SessionsOf(links, pr);
    forall s | s in sessions ensures Shipped(links, s) {
      LinkedBothWays(links, s, pr);
    }
    if reqs == [] {
      forall s | s in sessions ensures SessionShare(reqs, links, model, kind, s) == 0.0 {
        ShareAdds(links, s, 0, 0);
      }
      TotalOfSome(sessions, {}, 0.0, s => SessionShare(reqs, links, model, kind, s));
      TimesUnits(0.0);
    } else {
      var before, r := reqs[..|reqs| - 1], reqs[|reqs| - 1];
      SumThenJoinIsJoinThenSum(before, links, model, kind, pr);
      var mine := s => if s == r.session && r.model == model && Shipped(links, s) then Share(links, s, kind(r.usage)) else 0.0;
      forall s | s in sessions
        ensures SessionShare(reqs, links, model, kind, s) == SessionShare(before, links, model, kind, s) + mine(s)
      {
        ShareAdds(links, s, PerSession(before, s, model, kind), OfSession(s, model, kind, r));
      }
      TotalOfSum(sessions, s => SessionShare(before, links, model, kind, s), mine, s => SessionShare(reqs, links, model, kind, s));
      OneSession(links, model, kind, r, pr, mine);
    }
  }

  lemma OneSession(links: set<Link>, model: string, kind: Kind, r: Request, pr: PullRequest, mine: string -> real)
    requires forall s :: mine(s) == if s == r.session && r.model == model && Shipped(links, s) then Share(links, s, kind(r.usage)) else 0.0
    ensures Total(SessionsOf(links, pr), mine) == JoinedRow(links, model, kind, r, pr)
  {
    var sessions := SessionsOf(links, pr);
    LinkedBothWays(links, r.session, pr);
    var c := mine(r.session);
    TimesUnits(c);
    var some := if r.session in sessions then {r.session} else {};
    TotalOfSome(sessions, some, c, mine);
  }

  // ---- What the shares add up to ----

  /** A request's tokens, if its session shipped anything. */
  function ShippedTokens(links: set<Link>, model: string, kind: Kind, r: Request): real {
    if r.model == model && Shipped(links, r.session) then kind(r.usage) as real else 0.0
  }

  lemma PartsMakeWhole(n: int, parts: nat)
    requires 0 < parts
    ensures Times(n as real / parts as real, parts as real) == n as real
  {}

  lemma RowGivesItsTokens(links: set<Link>, model: string, kind: Kind, r: Request, f: (Request, PullRequest) -> real)
    requires forall p :: f(r, p) == JoinedRow(links, model, kind, r, p)
    ensures RowTotal(AllPrs(links), f, r) == ShippedTokens(links, model, kind, r)
  {
    var prs := PrsOf(links, r.session);
    var c := if r.model == model && prs != {} then Share(links, r.session, kind(r.usage)) else 0.0;
    RowTotalOfSome(AllPrs(links), prs, c, f, r);
    if r.model == model && prs != {} {
      PartsMakeWhole(kind(r.usage), |prs|);
    } else {
      TimesOfNothing(|prs| as real);
    }
  }

  /** Over all pull requests, the shares of one model's usage are the usage of the
      sessions that shipped, no more and no less. */
  lemma SharesSumToShipped(reqs: seq<Request>, links: set<Link>, model: string, kind: Kind)
    ensures Total(AllPrs(links), p => JoinFirst(reqs, links, model, kind, p)) ==
              RowSum(reqs, r => ShippedTokens(links, model, kind, r))
  {
    var f := (r: Request, p: PullRequest) => JoinedRow(links, model, kind, r, p);
    SumsSwap(reqs, AllPrs(links), f);
    forall r | r in reqs ensures RowTotal(AllPrs(links), f, r) == ShippedTokens(links, model, kind, r) {
      RowGivesItsTokens(links, model, kind, r, f);
    }
    RowSumAgrees(reqs, r => RowTotal(AllPrs(links), f, r), r => ShippedTokens(links, model, kind, r));
    TotalAgrees(AllPrs(links), p => ColumnSum(reqs, f, p), p => JoinFirst(reqs, links, model, kind, p));
  }

  lemma TimesOfNothing(x: real)
    ensures Times(0.0, x) == 0.0
  {}

  /** `int64(x)`, which drops the fraction. */
  function Truncated(x: real): int {
    if x < 0.0 then -(-x).Floor else x.Floor
  }

  lemma TruncatesTowardZero(x: real)
    ensures var t := Truncated(x) as real;
            if 0.0 <= x then 0.0 <= t <= x < t + 1.0 else t - 1.0 < x <= t <= 0.0
  {}

  lemma {:induction false} SharesAreNatural(reqs: seq<Request>, links: set<Link>, model: string, kind: Kind, pr: PullRequest)
    requires Counts(reqs, kind)
    ensures 0.0 <= JoinFirst(reqs, links, model, kind, pr)
    decreases |reqs|
  {
    if reqs != [] {
      var r := reqs[|reqs| - 1];
      SharesAreNatural(reqs[..|reqs| - 1], links, model, kind, pr);
      assert r in reqs && 0 <= kind(r.usage);
      if pr in PrsOf(links, r.session) {
        NotNegative(kind(r.usage), |PrsOf(links, r.session)|);
      }
    }
  }

  lemma NotNegative(n: int, parts: nat)
    requires 0 <= n && 0 < parts
    ensures 0.0 <= n as real / parts as real
  {}

  /** What a row of the report bills. */
  function Billed(reqs: seq<Request>, links: set<Link>, model: string, kind: Kind, pr: PullRequest): int {
    Truncated(JoinFirst(reqs, links, model, kind, pr))
  }

  /** All requests of one model, as the summary counts them. */
  function SummaryTokens(model: string, kind: Kind, r: Request): real {
    if r.model == model then kind(r.usage) as real else 0.0
  }

  /** The pull requests the report has a row for under this model. */
  function Reported(reqs: seq<Request>, links: set<Link>, model: string): set<PullRequest> {
    set r, l | r in reqs && l in links && r.model == model && l.session == r.session :: l.pr
  }

  lemma {:induction false} UnreportedShareIsZero(reqs: seq<Request>, links: set<Link>, model: string, kind: Kind, pr: PullRequest)
    requires pr !in Reported(reqs, links, model)
    ensures JoinFirst(reqs, links, model, kind, pr) == 0.0
    decreases |reqs|
  {
    if reqs != [] {
      var before, r := reqs[..|reqs| - 1], reqs[|reqs| - 1];
      assert forall q :: q in before ==> q in reqs;
      UnreportedShareIsZero(before, links, model, kind, pr);
      assert r in reqs;
    }
  }

  /** Sums over all pull requests are sums over those with a row. */
  lemma ReportedIsAll(reqs: seq<Request>, links: set<Link>, model: string, f: PullRequest -> real)
    requires forall p :: p in AllPrs(links) && p !in Reported(reqs, links, model) ==> f(p) == 0.0
    ensures Total(AllPrs(links), f) == Total(Reported(reqs, links, model), f)
  {
    var rows, all := Reported(reqs, links, model), AllPrs(links);
    assert all == rows + (all - rows);
    TotalOverUnion(rows, all - rows, f);
    TotalOfSome(all - rows, {}, 0.0, f);
    TimesUnits(0.0);
  }

  /** Truncated to whole tokens, the pull requests together never bill more of a
      model than the sessions that shipped used, nor therefore than the summary
      counts; and they fall short of what shipped by less than one token for each
      row of the report. */
  lemma BilledIsWithinShipped(reqs: seq<Request>, links: set<Link>, model: string, kind: Kind, billed: PullRequest -> real)
    requires Counts(reqs, kind) && forall p :: billed(p) == Billed(reqs, links, model, kind, p) as real
    ensures var shipped := RowSum(reqs, r => ShippedTokens(links, model, kind, r));
            var rows := Reported(reqs, links, model);
            && 0.0 <= Total(rows, billed) <= shipped <= RowSum(reqs, r => SummaryTokens(model, kind, r))
            && Total(AllPrs(links), billed) == Total(rows, billed)
            && (rows != {} ==> shipped < Total(rows, billed) + |rows| as real)
  {
    hide JoinFirst;
    var rows := Reported(reqs, links, model);
    var share := (p: PullRequest) => JoinFirst(reqs, links, model, kind, p);
    forall p ensures 0.0 <= billed(p) <= share(p) < billed(p) + 1.0 {
      SharesAreNatural(reqs, links, model, kind, p);
    }
    forall p | p !in rows ensures share(p) == 0.0 == billed(p) {
      UnreportedShareIsZero(reqs, links, model, kind, p);
    }
    SharesSumToShipped(reqs, links, model, kind);
    TotalAgrees(AllPrs(links), share, p => JoinFirst(reqs, links, model, kind, p));
    ReportedIsAll(reqs, links, model, share);
    ReportedIsAll(reqs, links, model, billed);
    TotalIsBetween(rows, share, billed);
    var nothing := (p: PullRequest) => 0.0;
    TotalIsBetween(rows, billed, nothing);
    TotalOfSome(rows, {}, 0.0, nothing);
    TimesUnits(0.0);
    TotalFallsShort(rows, share, billed);
    RowSumIsBetween(reqs, r => SummaryTokens(model, kind, r), r => ShippedTokens(links, model, kind, r));
  }

  // ---- In dollars ----

  const INPUT: Kind := (u: Usage) => u.input
  const OUTPUT: Kind := (u: Usage) => u.output
  const CACHE_READ: Kind := (u: Usage) => u.cacheRead
  const CACHE_WRITE_5M: Kind := (u: Usage) => u.cacheWrite5m
  const CACHE_WRITE_1H: Kind := (u: Usage) => u.cacheWrite1h

  /** What a row bills of each kind. */
  function RowTokens(reqs: seq<Request>, links: set<Link>, model: string, p: PullRequest): Tokens {
    Tokens(Billed(reqs, links, model, INPUT, p) as real, Billed(reqs, links, model, OUTPUT, p) as real,
           Billed(reqs, links, model, CACHE_READ, p) as real, Billed(reqs, links, model, CACHE_WRITE_5M, p) as real,
           Billed(reqs, links, model, CACHE_WRITE_1H, p) as real)
  }

  /** What the summary prices for a model. */
  function ModelTokens(reqs: seq<Request>, model: string): Tokens {
    Tokens(RowSum(reqs, r => SummaryTokens(model, INPUT, r)), RowSum(reqs, r => SummaryTokens(model, OUTPUT, r)),
           RowSum(reqs, r => SummaryTokens(model, CACHE_READ, r)), RowSum(reqs, r => SummaryTokens(model, CACHE_WRITE_5M, r)),
           RowSum(reqs, r => SummaryTokens(model, CACHE_WRITE_1H, r)))
  }

  /** Tokens summed kind by kind. */
  ghost function TokensTotal(s: set<PullRequest>, f: PullRequest -> Tokens): Tokens {
    Tokens(Total(s, p => f(p).input), Total(s, p => f(p).output), Total(s, p => f(p).cacheRead),
           Total(s, p => f(p).cacheWrite5m), Total(s, p => f(p).cacheWrite1h))
  }

  lemma {:induction false} CostOfTokensTotal(prices: PriceTable, model: string, s: set<PullRequest>, f: PullRequest -> Tokens)
    ensures Total(s, p => Cost(prices, model, f(p))) == Cost(prices, model, TokensTotal(s, f))
    decreases |s|
  {
    hide Cost;
    CostAdds(prices, model, NO_TOKENS, NO_TOKENS);
    if s != {} {
      var x := Pick(s);
      TotalTakesOut(s, p => Cost(prices, model, f(p)), x);
      TotalTakesOut(s, p => f(p).input, x);
      TotalTakesOut(s, p => f(p).output, x);
      TotalTakesOut(s, p => f(p).cacheRead, x);
      TotalTakesOut(s, p => f(p).cacheWrite5m, x);
      TotalTakesOut(s, p => f(p).cacheWrite1h, x);
      CostOfTokensTotal(prices, model, s - {x}, f);
      assert TokensTotal(s, f) == Plus(f(x), TokensTotal(s - {x}, f));
      CostAdds(prices, model, f(x), TokensTotal(s - {x}, f));
    }
  }

  ghost predicate NoNegativeUsage(reqs: seq<Request>) {
    forall r :: r in reqs ==>
      0 <= r.usage.input && 0 <= r.usage.output && 0 <= r.usage.cacheRead && 0 <= r.usage.cacheWrite5m && 0 <= r.usage.cacheWrite1h
  }

  lemma AllKindsCount(reqs: seq<Request>)
    requires NoNegativeUsage(reqs)
    ensures Counts(reqs, INPUT) && Counts(reqs, OUTPUT) && Counts(reqs, CACHE_READ)
    ensures Counts(reqs, CACHE_WRITE_5M) && Counts(reqs, CACHE_WRITE_1H)
  {}

  lemma KindWithin(reqs: seq<Request>, links: set<Link>, model: string, kind: Kind, f: PullRequest -> real)
    requires Counts(reqs, kind) && forall p :: f(p) == Billed(reqs, links, model, kind, p) as real
    ensures Total(AllPrs(links), f) <= RowSum(reqs, r => SummaryTokens(model, kind, r))
  {
    BilledIsWithinShipped(reqs, links, model, kind, f);
  }

  /** Under one model, the pull requests together cost no more than the model. */
  lemma ModelDeliveredWithin(reqs: seq<Request>, links: set<Link>, prices: PriceTable, model: string)
    requires NoNegativeUsage(reqs) && NoNegativePrice(prices)
    ensures Total(AllPrs(links), p => Cost(prices, model, RowTokens(reqs, links, model, p))) <=
              Cost(prices, model, ModelTokens(reqs, model))
  {
    hide Cost, Billed, SummaryTokens;
    var prs := AllPrs(links);
    var f := (p: PullRequest) => RowTokens(reqs, links, model, p);
    AllKindsCount(reqs);
    KindWithin(reqs, links, model, INPUT, p => f(p).input);
    KindWithin(reqs, links, model, OUTPUT, p => f(p).output);
    KindWithin(reqs, links, model, CACHE_READ, p => f(p).cacheRead);
    KindWithin(reqs, links, model, CACHE_WRITE_5M, p => f(p).cacheWrite5m);
    KindWithin(reqs, links, model, CACHE_WRITE_1H, p => f(p).cacheWrite1h);
    CostOfTokensTotal(prices, model, prs, f);
    CostGrows(prices, model, TokensTotal(prs, f), ModelTokens(reqs, model));
    TotalAgrees(prs, p => Cost(prices, model, f(p)), p => Cost(prices, model, RowTokens(reqs, links, model, p)));
  }

  ghost function DeliveredDollars(reqs: seq<Request>, links: set<Link>, prices: PriceTable, model: string): real {
    Total(AllPrs(links), p => Cost(prices, model, RowTokens(reqs, links, model, p)))
  }

  /** What the bounds above sum up is what the summary groups by model. */
  lemma {:induction false} ModelTokensAreTheSummarys(reqs: seq<Request>, model: string)
    ensures ModelTokens(reqs, model) == GroupTokens(reqs, ModelOfRequest, model)
    decreases |reqs|
  {
    if reqs != [] {
      ModelTokensAreTheSummarys(reqs[..|reqs| - 1], model);
    }
  }

  /** What the pull requests bill never exceeds what the summary counts. */
  lemma SharesWithinSummary(reqs: seq<Request>, links: set<Link>, prices: PriceTable, models: set<string>)
    requires NoNegativeUsage(reqs) && NoNegativePrice(prices)
    ensures Total(models, m => DeliveredDollars(reqs, links, prices, m)) <= SummaryCost(prices, reqs, models)
  {
    hide Cost, GroupTokens;
    var summed := (m: string) => Cost(prices, Itself(m), GroupTokens(reqs, ModelOfRequest, m));
    forall m ensures DeliveredDollars(reqs, links, prices, m) <= summed(m) {
      ModelDeliveredWithin(reqs, links, prices, m);
      ModelTokensAreTheSummarys(reqs, m);
    }
    TotalIsBetween(models, summed, m => DeliveredDollars(reqs, links, prices, m));
    SummaryIs(prices, reqs, models, summed);
  }

  // ---- Counts that are not split ----

  const ONE: Kind := (u: Usage) => 1

  /** `sum(s.requests)` and `sum(s.output_tokens)`: over the linked sessions, whole. */
  ghost function Unsplit(reqs: seq<Request>, links: set<Link>, model: string, kind: Kind, pr: PullRequest): int {
    Sum(SessionsOf(links, pr), s => PerSession(reqs, s, model, kind))
  }

  /** The same, request by request. */
  function UnsplitJoined(reqs: seq<Request>, links: set<Link>, model: string, kind: Kind, pr: PullRequest): int {
    if reqs == [] then 0
    else
      var r := reqs[|reqs| - 1];
      UnsplitJoined(reqs[..|reqs| - 1], links, model, kind, pr)
      + if r.model == model && pr in PrsOf(links, r.session) then kind(r.usage) else 0
  }

  /** Summing first and joining first agree on the counts too. */
  lemma {:induction false} UnsplitEitherWay(reqs: seq<Request>, links: set<Link>, model: string, kind: Kind, pr: PullRequest)
    ensures Unsplit(reqs, links, model, kind, pr) == UnsplitJoined(reqs, links, model, kind, pr)
    decreases |reqs|
  {
    var sessions := SessionsOf(links, pr);
    if reqs == [] {
      SumOfOne(sessions, "", s => PerSession(reqs, s, model, kind));
    } else {
      var before, r := reqs[..|reqs| - 1], reqs[|reqs| - 1];
      UnsplitEitherWay(before, links, model, kind, pr);
      LinkedBothWays(links, r.session, pr);
      SumOfOne(sessions, r.session, s => OfSession(s, model, kind, r));
      SumAdds(sessions, s => PerSession(before, s, model, kind), s => OfSession(s, model, kind, r), s => PerSession(reqs, s, model, kind));
    }
  }

  /** What the requests of a pull request's sessions come to, under any model. */
  function Touched(reqs: seq<Request>, links: set<Link>, kind: Kind, pr: PullRequest): int {
    if reqs == [] then 0
    else
      var r := reqs[|reqs| - 1];
      Touched(reqs[..|reqs| - 1], links, kind, pr) + if pr in PrsOf(links, r.session) then kind(r.usage) else 0
  }

  /** One of the models has the request. */
  lemma {:induction false} ModelsShareRequests(reqs: seq<Request>, links: set<Link>, kind: Kind, pr: PullRequest, models: set<string>)
    requires forall r :: r in reqs && pr in PrsOf(links, r.session) ==> r.model in models
    ensures Sum(models, m => Unsplit(reqs, links, m, kind, pr)) == Touched(reqs, links, kind, pr)
    decreases |reqs|
  {
    hide PrsOf, Unsplit;
    forall m ensures Unsplit(reqs, links, m, kind, pr) == UnsplitJoined(reqs, links, m, kind, pr) {
      UnsplitEitherWay(reqs, links, m, kind, pr);
    }
    SumAgrees(models, m => Unsplit(reqs, links, m, kind, pr), m => UnsplitJoined(reqs, links, m, kind, pr));
    JoinedModelsShare(reqs, links, kind, pr, models);
  }

  lemma {:induction false} JoinedModelsShare(reqs: seq<Request>, links: set<Link>, kind: Kind, pr: PullRequest, models: set<string>)
    requires forall r :: r in reqs && pr in PrsOf(links, r.session) ==> r.model in models
    ensures Sum(models, m => UnsplitJoined(reqs, links, m, kind, pr)) == Touched(reqs, links, kind, pr)
    decreases |reqs|
  {
    hide PrsOf;
    if reqs == [] {
      SumOfOne(models, "", m => UnsplitJoined(reqs, links, m, kind, pr));
    } else {
      var before, r := reqs[..|reqs| - 1], reqs[|reqs| - 1];
      assert r in reqs && forall x :: x in before ==> x in reqs;
      JoinedModelsShare(before, links, kind, pr, models);
      var mine := (m: string) => if r.model == m && pr in PrsOf(links, r.session) then kind(r.usage) else 0;
      SumOfOne(models, r.model, mine);
      SumAdds(models, m => UnsplitJoined(before, links, m, kind, pr), mine, m => UnsplitJoined(reqs, links, m, kind, pr));
    }
  }

  // ---- The query's rows ----

  /** A row of the query: one pull request under one model. `shares` are sums of
      reals, not yet truncated. */
  datatype ReportRow = ReportRow(pr: PullRequest, model: string, requests: int, sessions: int, shared: int, output: int, shares: Tokens)

  /** The sessions that a row of the query joins. */
  function ActiveSessions(reqs: seq<Request>, links: set<Link>, model: string, pr: PullRequest): set<string> {
    set r | r in reqs && r.model == model && pr in PrsOf(links, r.session) :: r.session
  }

  /** `CASE WHEN w.pr_count > 1 THEN s.requests ELSE 0 END`. */
  function SharedRequests(reqs: seq<Request>, links: set<Link>, model: string, session: string): int {
    if |PrsOf(links, session)| > 1 then PerSession(reqs, session, model, ONE) else 0
  }

  ghost function QueryRow(reqs: seq<Request>, links: set<Link>, pr: PullRequest, model: string): ReportRow {
    ReportRow(pr, model, Unsplit(reqs, links, model, ONE, pr), |ActiveSessions(reqs, links, model, pr)|,
              Sum(SessionsOf(links, pr), s => SharedRequests(reqs, links, model, s)),
              Unsplit(reqs, links, model, OUTPUT, pr),
              Tokens(SumFirst(reqs, links, model, INPUT, pr), SumFirst(reqs, links, model, OUTPUT, pr),
                     SumFirst(reqs, links, model, CACHE_READ, pr), SumFirst(reqs, links, model, CACHE_WRITE_5M, pr),
                     SumFirst(reqs, links, model, CACHE_WRITE_1H, pr)))
  }

  /** What `deliveriesQuery` returns: a row for each pull request and model that a
      session joins, in whatever order the groups come out. */
  ghost predicate IsReport(reqs: seq<Request>, links: set<Link>, rows: seq<ReportRow>) {
    && (forall i, j :: 0 <= i < j < |rows| ==> rows[i].pr != rows[j].pr || rows[i].model != rows[j].model)
    && (forall i :: 0 <= i < |rows| ==>
          rows[i].pr in Reported(reqs, links, rows[i].model) && rows[i] == QueryRow(reqs, links, rows[i].pr, rows[i].model))
    && (forall m, p :: p in Reported(reqs, links, m) ==> exists i :: 0 <= i < |rows| && rows[i].pr == p && rows[i].model == m)
  }

  /** The usage a row is priced on: each sum cut to an integer. */
  function WholeTokens(t: Tokens): Tokens {
    Tokens(Truncated(t.input) as real, Truncated(t.output) as real, Truncated(t.cacheRead) as real,
           Truncated(t.cacheWrite5m) as real, Truncated(t.cacheWrite1h) as real)
  }

  function BilledCost(prices: PriceTable, r: ReportRow): real {
    Cost(prices, r.model, WholeTokens(r.shares))
  }

  lemma QueryBillsTokens(reqs: seq<Request>, links: set<Link>, pr: PullRequest, model: string)
    ensures WholeTokens(QueryRow(reqs, links, pr, model).shares) == RowTokens(reqs, links, model, pr)
  {
    hide SumFirst, JoinFirst;
    SumThenJoinIsJoinThenSum(reqs, links, model, INPUT, pr);
    SumThenJoinIsJoinThenSum(reqs, links, model, OUTPUT, pr);
    SumThenJoinIsJoinThenSum(reqs, links, model, CACHE_READ, pr);
    SumThenJoinIsJoinThenSum(reqs, links, model, CACHE_WRITE_5M, pr);
    SumThenJoinIsJoinThenSum(reqs, links, model, CACHE_WRITE_1H, pr);
  }

  // ---- One entry per pull request ----

  datatype Entry = Entry(pr: PullRequest, requests: int, sessions: int, shared: int, output: int, cost: real)

  function First(prices: PriceTable, r: ReportRow): Entry {
    Entry(r.pr, r.requests, r.sessions, r.shared, r.output, BilledCost(prices, r))
  }

  /** A further row adds to neither `sessions` nor `shared`. */
  function With(prices: PriceTable, e: Entry, r: ReportRow): Entry {
    e.(requests := e.requests + r.requests, output := e.output + r.output, cost := e.cost + BilledCost(prices, r))
  }

  function PrsIn(rows: seq<ReportRow>): set<PullRequest> {
    set r | r in rows :: r.pr
  }

  /** What a pull request's rows come to. */
  function OfPr(prices: PriceTable, rows: seq<ReportRow>, pr: PullRequest): (e: Entry)
    requires pr in PrsIn(rows)
    ensures e.pr == pr
  {
    var before, r := rows[..|rows| - 1], rows[|rows| - 1];
    assert forall x :: x in rows <==> x in before || x == r;
    if r.pr != pr then OfPr(prices, before, pr)
    else if pr in PrsIn(before) then With(prices, OfPr(prices, before, pr), r)
    else First(prices, r)
  }

  /** Each pull request that has a row once, with what its rows come to. */
  ghost predicate AreEntries(prices: PriceTable, rows: seq<ReportRow>, out: seq<Entry>) {
    && (forall i, j :: 0 <= i < j < |out| ==> out[i].pr != out[j].pr)
    && (forall p :: p in PrsIn(rows) ==> exists i :: 0 <= i < |out| && out[i].pr == p)
    && (forall i :: 0 <= i < |out| ==> out[i].pr in PrsIn(rows) && out[i] == OfPr(prices, rows, out[i].pr))
  }

  ghost predicate Places(out: seq<Entry>, index: map<PullRequest, nat>) {
    && (forall i :: 0 <= i < |out| ==> out[i].pr in index && index[out[i].pr] == i)
    && (forall p :: p in index ==> index[p] < |out| && out[index[p]].pr == p)
  }

  function RowsCost(prices: PriceTable, rows: seq<ReportRow>): real {
    if rows == [] then 0.0 else RowsCost(prices, rows[..|rows| - 1]) + BilledCost(prices, rows[|rows| - 1])
  }

  function EntriesCost(out: seq<Entry>): real {
    if out == [] then 0.0 else EntriesCost(out[..|out| - 1]) + out[|out| - 1].cost
  }

  lemma AddRow(prices: PriceTable, rows: seq<ReportRow>, out: seq<Entry>, index: map<PullRequest, nat>, r: ReportRow)
    requires AreEntries(prices, rows, out) && Places(out, index)
    ensures r.pr in index ==> AreEntries(prices, rows + [r], out[index[r.pr] := With(prices, out[index[r.pr]], r)])
    ensures r.pr !in index ==> AreEntries(prices, rows + [r], out + [First(prices, r)])
  {
    hide OfPr;
    assert r.pr in index <==> r.pr in PrsIn(rows);
    forall p | p in PrsIn(rows) || p == r.pr
      ensures p in PrsIn(rows + [r])
      ensures OfPr(prices, rows + [r], p) ==
                if r.pr != p then OfPr(prices, rows, p) else if p in PrsIn(rows) then With(prices, OfPr(prices, rows, p), r) else First(prices, r)
    {
      OneRowMore(prices, rows, r, p);
    }
    assert forall p :: p in PrsIn(rows + [r]) <==> p in PrsIn(rows) || p == r.pr;
    if r.pr !in index {
      var out' := out + [First(prices, r)];
      assert out'[|out|].pr == r.pr;
      assert forall i :: 0 <= i < |out| ==> out'[i] == out[i];
    } else {
      var out' := out[index[r.pr] := With(prices, out[index[r.pr]], r)];
      assert forall i :: 0 <= i < |out| ==> out'[i].pr == out[i].pr;
    }
  }

  lemma OneRowMore(prices: PriceTable, rows: seq<ReportRow>, r: ReportRow, p: PullRequest)
    requires p in PrsIn(rows) || p == r.pr
    ensures p in PrsIn(rows + [r])
    ensures OfPr(prices, rows + [r], p) ==
              if r.pr != p then OfPr(prices, rows, p) else if p in PrsIn(rows) then With(prices, OfPr(prices, rows, p), r) else First(prices, r)
  {
    var all := rows + [r];
    assert all[..|all| - 1] == rows && forall x :: x in all <==> x in rows || x == r;
  }

  lemma {:induction false} ChangedEntryCost(out: seq<Entry>, i: nat, e: Entry)
    requires i < |out|
    ensures EntriesCost(out[i := e]) == EntriesCost(out) - out[i].cost + e.cost
    decreases |out|
  {
    var n := |out| - 1;
    if i < n {
      ChangedEntryCost(out[..n], i, e);
      assert out[i := e][..n] == out[..n][i := e];
    } else {
      assert out[i := e][..n] == out[..n];
    }
  }

  /** The loop of `Deliveries` over the query's rows, and its total: a pull request
      that several models worked on is one entry, and no row's cost is lost. */
  method Entries(prices: PriceTable, rows: seq<ReportRow>) returns (out: seq<Entry>, total: real)
    ensures AreEntries(prices, rows, out) && total == RowsCost(prices, rows)
  {
    hide AreEntries, BilledCost;
    out := [];
    var index: map<PullRequest, nat> := map[];
    assert AreEntries(prices, [], out) by { NoEntries(prices); }
    for i := 0 to |rows|
      invariant AreEntries(prices, rows[..i], out) && Places(out, index) && EntriesCost(out) == RowsCost(prices, rows[..i])
    {
      var r := rows[i];
      assert rows[..i + 1] == rows[..i] + [r];
      AddRow(prices, rows[..i], out, index, r);
      if r.pr in index {
        ChangedEntryCost(out, index[r.pr], With(prices, out[index[r.pr]], r));
        out := out[index[r.pr] := With(prices, out[index[r.pr]], r)];
      } else {
        index := index[r.pr := |out|];
        assert (out + [First(prices, r)])[..|out|] == out;
        out := out + [First(prices, r)];
      }
    }
    assert rows[..|rows|] == rows;
    total := 0.0;
    for i := 0 to |out|
      invariant total == EntriesCost(out[..i])
    {
      assert out[..i + 1][..i] == out[..i];
      total := total + out[i].cost;
    }
    assert out[..|out|] == out;
  }

  lemma NoEntries(prices: PriceTable)
    ensures AreEntries(prices, [], [])
  {}

  // ---- The total over the archive's rows ----

  /** The pull requests that have a row under the model. */
  function PrsUnder(rows: seq<ReportRow>, model: string): set<PullRequest> {
    set r | r in rows && r.model == model :: r.pr
  }

  ghost predicate OneRowPerPair(rows: seq<ReportRow>) {
    forall i, j :: 0 <= i < j < |rows| ==> rows[i].pr != rows[j].pr || rows[i].model != rows[j].model
  }

  /** Rows priced one by one, or model by model. */
  lemma {:induction false} RowsByModel(prices: PriceTable, rows: seq<ReportRow>, models: set<string>, f: (string, PullRequest) -> real)
    requires OneRowPerPair(rows)
    requires forall r :: r in rows ==> r.model in models && BilledCost(prices, r) == f(r.model, r.pr)
    ensures RowsCost(prices, rows) == Total(models, m => RowTotal(PrsUnder(rows, m), f, m))
    decreases |rows|
  {
    hide BilledCost;
    if rows == [] {
      forall m ensures RowTotal(PrsUnder(rows, m), f, m) == 0.0 {
        assert PrsUnder(rows, m) == {};
      }
      TotalOfSome(models, {}, 0.0, m => RowTotal(PrsUnder(rows, m), f, m));
      TimesUnits(0.0);
    } else {
      var before, r := rows[..|rows| - 1], rows[|rows| - 1];
      assert r in rows && forall x :: x in before ==> x in rows;
      RowsByModel(prices, before, models, f);
      var c := f(r.model, r.pr);
      var mine := (m: string) => if m == r.model then c else 0.0;
      TotalOfSome(models, {r.model}, c, mine);
      TimesUnits(c);
      forall m ensures RowTotal(PrsUnder(rows, m), f, m) == RowTotal(PrsUnder(before, m), f, m) + mine(m) {
        OneMoreRow(rows, before, r, f, m);
      }
      TotalOfSum(models, m => RowTotal(PrsUnder(before, m), f, m), mine, m => RowTotal(PrsUnder(rows, m), f, m));
    }
  }

  lemma OneMoreRow(rows: seq<ReportRow>, before: seq<ReportRow>, r: ReportRow, f: (string, PullRequest) -> real, m: string)
    requires rows != [] && before == rows[..|rows| - 1] && r == rows[|rows| - 1] && OneRowPerPair(rows)
    ensures RowTotal(PrsUnder(rows, m), f, m) == RowTotal(PrsUnder(before, m), f, m) + if m == r.model then f(m, r.pr) else 0.0
  {
    var was, now := PrsUnder(before, m), PrsUnder(rows, m);
    assert forall x :: x in rows <==> x in before || x == r;
    if m == r.model {
      assert now == was + {r.pr} && r.pr !in was;
      RowTotalTakesOut(now, f, m, r.pr);
      assert now - {r.pr} == was;
    } else {
      assert now == was;
    }
  }

  lemma UnreportedBillsNothing(reqs: seq<Request>, links: set<Link>, prices: PriceTable, model: string, p: PullRequest)
    requires p !in Reported(reqs, links, model)
    ensures Cost(prices, model, RowTokens(reqs, links, model, p)) == 0.0
  {
    hide JoinFirst, Cost;
    UnreportedShareIsZero(reqs, links, model, INPUT, p);
    UnreportedShareIsZero(reqs, links, model, OUTPUT, p);
    UnreportedShareIsZero(reqs, links, model, CACHE_READ, p);
    UnreportedShareIsZero(reqs, links, model, CACHE_WRITE_5M, p);
    UnreportedShareIsZero(reqs, links, model, CACHE_WRITE_1H, p);
    CostAdds(prices, model, NO_TOKENS, NO_TOKENS);
  }

  function TokensCost(prices: PriceTable, reqs: seq<Request>, links: set<Link>): (string, PullRequest) -> real {
    (m: string, p: PullRequest) => Cost(prices, m, RowTokens(reqs, links, m, p))
  }

  /** The query's rows cost what the pull requests bill. */
  lemma ReportCostIsDelivered(prices: PriceTable, reqs: seq<Request>, links: set<Link>, rows: seq<ReportRow>, models: set<string>)
    requires IsReport(reqs, links, rows) && forall r :: r in reqs ==> r.model in models
    ensures RowsCost(prices, rows) == Total(models, m => DeliveredDollars(reqs, links, prices, m))
  {
    hide Cost, RowTokens, QueryRow, RowsCost;
    var f := TokensCost(prices, reqs, links);
    forall r | r in rows ensures r.model in models && BilledCost(prices, r) == f(r.model, r.pr) {
      QueryBillsTokens(reqs, links, r.pr, r.model);
    }
    RowsByModel(prices, rows, models, f);
    forall m | m in models ensures RowTotal(PrsUnder(rows, m), f, m) == DeliveredDollars(reqs, links, prices, m) {
      forall p ensures p in PrsUnder(rows, m) <==> p in Reported(reqs, links, m) {}
      assert PrsUnder(rows, m) == Reported(reqs, links, m);
      DeliveredIsReported(prices, reqs, links, m, f);
    }
    TotalAgrees(models, m => RowTotal(PrsUnder(rows, m), f, m), m => DeliveredDollars(reqs, links, prices, m));
  }

  lemma DeliveredIsReported(prices: PriceTable, reqs: seq<Request>, links: set<Link>, m: string, f: (string, PullRequest) -> real)
    requires f == TokensCost(prices, reqs, links)
    ensures RowTotal(Reported(reqs, links, m), f, m) == DeliveredDollars(reqs, links, prices, m)
  {
    hide Cost, RowTokens, Reported;
    var billed := (p: PullRequest) => Cost(prices, m, RowTokens(reqs, links, m, p));
    forall p | p !in Reported(reqs, links, m) ensures billed(p) == 0.0 {
      UnreportedBillsNothing(reqs, links, prices, m, p);
    }
    RowTotalIs(Reported(reqs, links, m), f, m, billed);
    ReportedIsAll(reqs, links, m, billed);
    TotalAgrees(AllPrs(links), p => Cost(prices, m, RowTokens(reqs, links, m, p)), billed);
  }

  /** The `links` of the query: each session and pull request a line names together. */
  function LinksOf(rows: seq<Record>): set<Link> {
    set x | x in rows && x.columns.prRepo != "" && x.line.session != "" ::
      Link(x.line.session, PullRequest(x.columns.prRepo, x.columns.prNumber))
  }

  ghost predicate NoNegativeLines(rows: seq<Record>) {
    forall x :: x in rows ==>
      var u := x.line.usage;
      0 <= u.input && 0 <= u.output && 0 <= u.cacheRead && 0 <= u.cacheWrite5m && 0 <= u.cacheWrite1h
  }

  /** Over the archive's rows: the cost of the delivery query's rows, truncation and
      all, is within the cost of the model table over the same fold. */
  lemma DeliveredWithinSummary(prices: PriceTable, rows: seq<Record>, ids: seq<string>, reqs: seq<Request>, report: seq<ReportRow>, models: set<string>)
    requires Numbered(rows) && IsFold(rows, ids, reqs) && IsReport(reqs, LinksOf(rows), report)
    requires NoNegativeLines(rows) && NoNegativePrice(prices)
    requires forall x :: x in rows && x.line.requestId != "" ==> x.line.model in models
    ensures RowsCost(prices, report) <= SummaryCost(prices, reqs, models)
  {
    hide Picked, IsFold, IsReport, RowsCost, SummaryCost, NoNegativePrice;
    FoldedAreRows(rows, ids, reqs);
    ReportCostIsDelivered(prices, reqs, LinksOf(rows), report, models);
    SharesWithinSummary(reqs, LinksOf(rows), prices, models);
  }

  /** `Deliveries`, given what its query returned over the archive's rows. */
  method Deliver(prices: PriceTable, report: seq<ReportRow>, ghost rows: seq<Record>, ghost ids: seq<string>, ghost reqs: seq<Request>, ghost models: set<string>)
    returns (out: seq<Entry>, total: real)
    requires Numbered(rows) && IsFold(rows, ids, reqs) && IsReport(reqs, LinksOf(rows), report)
    requires NoNegativeLines(rows) && NoNegativePrice(prices)
    requires forall x :: x in rows && x.line.requestId != "" ==> x.line.model in models
    ensures AreEntries(prices, report, out)
    ensures total == Total(models, m => DeliveredDollars(reqs, LinksOf(rows), prices, m)) <= SummaryCost(prices, reqs, models)
    ensures forall i :: 0 <= i < |out| ==>
              && out[i].requests == Touched(reqs, LinksOf(rows), ONE, out[i].pr)
              && out[i].output == Touched(reqs, LinksOf(rows), OUTPUT, out[i].pr)
  {
    hide Picked, IsFold, IsReport, RowsCost, SummaryCost, DeliveredDollars, Touched, OfPr, LinksOf;
    out, total := Entries(prices, report);
    FoldedAreRows(rows, ids, reqs);
    ReportCostIsDelivered(prices, reqs, LinksOf(rows), report, models);
    DeliveredWithinSummary(prices, rows, ids, reqs, report, models);
    forall i | 0 <= i < |out|
      ensures out[i].requests == Touched(reqs, LinksOf(rows), ONE, out[i].pr)
      ensures out[i].output == Touched(reqs, LinksOf(rows), OUTPUT, out[i].pr)
    {
      EntryCountsRequests(prices, reqs, LinksOf(rows), report, out[i].pr);
    }
  }

  // ---- What an entry says ----

  function ModelsOf(rows: seq<ReportRow>, pr: PullRequest): set<string> {
    set r | r in rows && r.pr == pr :: r.model
  }

  lemma {:induction false} EntryByModel(prices: PriceTable, rows: seq<ReportRow>, pr: PullRequest, requests: string -> int, output: string -> int)
    requires OneRowPerPair(rows) && pr in PrsIn(rows)
    requires forall r :: r in rows && r.pr == pr ==> r.requests == requests(r.model) && r.output == output(r.model)
    ensures var e := OfPr(prices, rows, pr);
            e.requests == Sum(ModelsOf(rows, pr), requests) && e.output == Sum(ModelsOf(rows, pr), output)
    decreases |rows|
  {
    hide BilledCost;
    var before, r := rows[..|rows| - 1], rows[|rows| - 1];
    assert r in rows && forall x :: x in rows <==> x in before || x == r;
    var was, now := ModelsOf(before, pr), ModelsOf(rows, pr);
    if pr in PrsIn(before) {
      EntryByModel(prices, before, pr, requests, output);
    } else {
      assert was == {};
    }
    if r.pr == pr {
      assert r.model in now && r.model !in was && now - {r.model} == was;
      SumTakesOut(now, requests, r.model);
      SumTakesOut(now, output, r.model);
    } else {
      assert now == was;
    }
  }

  /** However many models a pull request's sessions used, its entry counts each of
      their requests once, and their whole output. */
  lemma EntryCountsRequests(prices: PriceTable, reqs: seq<Request>, links: set<Link>, rows: seq<ReportRow>, pr: PullRequest)
    requires IsReport(reqs, links, rows) && pr in PrsIn(rows)
    ensures OfPr(prices, rows, pr).requests == Touched(reqs, links, ONE, pr)
    ensures OfPr(prices, rows, pr).output == Touched(reqs, links, OUTPUT, pr)
  {
    hide Unsplit, OfPr, SumFirst, Touched;
    var models := ModelsOf(rows, pr);
    EntryByModel(prices, rows, pr, m => Unsplit(reqs, links, m, ONE, pr), m => Unsplit(reqs, links, m, OUTPUT, pr));
    forall r | r in reqs && pr in PrsOf(links, r.session) ensures r.model in models {
      LinkedBothWays(links, r.session, pr);
      assert pr in Reported(reqs, links, r.model);
      var i :| 0 <= i < |rows| && rows[i].pr == pr && rows[i].model == r.model;
      assert rows[i] in rows;
    }
    ModelsShareRequests(reqs, links, ONE, pr, models);
    ModelsShareRequests(reqs, links, OUTPUT, pr, models);
  }

  /** The sessions that touched a pull request, under any model. */
  function TouchingSessions(reqs: seq<Request>, links: set<Link>, pr: PullRequest): set<string> {
    set r | r in reqs && pr in PrsOf(links, r.session) :: r.session
  }

  /** The model of a pull request's first row. */
  function FirstModel(rows: seq<ReportRow>, pr: PullRequest): string
    requires pr in PrsIn(rows)
  {
    var before, r := rows[..|rows| - 1], rows[|rows| - 1];
    assert forall x :: x in rows <==> x in before || x == r;
    if pr in PrsIn(before) then FirstModel(before, pr) else r.model
  }

  lemma {:induction false} EntryKeepsFirst(prices: PriceTable, rows: seq<ReportRow>, pr: PullRequest, sessions: string -> int, shared: string -> int)
    requires pr in PrsIn(rows)
    requires forall r :: r in rows && r.pr == pr ==> r.sessions == sessions(r.model) && r.shared == shared(r.model)
    ensures var e := OfPr(prices, rows, pr);
            e.sessions == sessions(FirstModel(rows, pr)) && e.shared == shared(FirstModel(rows, pr))
    decreases |rows|
  {
    hide BilledCost;
    var before, r := rows[..|rows| - 1], rows[|rows| - 1];
    assert r in rows && forall x :: x in rows <==> x in before || x == r;
    if pr in PrsIn(before) {
      EntryKeepsFirst(prices, before, pr, sessions, shared);
    }
  }

  /** The sessions a row says opened other pull requests too. */
  function SharedSessions(reqs: seq<Request>, links: set<Link>, model: string, pr: PullRequest): set<string> {
    set s | s in ActiveSessions(reqs, links, model, pr) && |PrsOf(links, s)| > 1
  }

  /** `Sessions` counts the sessions that touched the pull request exactly when all
      of them used the model of its first row, and too few otherwise. `SharedSessions`
      counts those that opened others exactly when each made a single request under
      that model, and too many otherwise: it is requests that are summed. */
  lemma EntryCountsSessionsIff(prices: PriceTable, reqs: seq<Request>, links: set<Link>, rows: seq<ReportRow>, pr: PullRequest)
    requires IsReport(reqs, links, rows) && pr in PrsIn(rows)
    ensures var e, m := OfPr(prices, rows, pr), FirstModel(rows, pr);
            var all, used := TouchingSessions(reqs, links, pr), ActiveSessions(reqs, links, m, pr);
            var shared := SharedSessions(reqs, links, m, pr);
            && e.sessions <= |all| && (e.sessions == |all| <==> all <= used)
            && |shared| <= e.shared && (e.shared == |shared| <==> forall s :: s in shared ==> PerSession(reqs, s, m, ONE) == 1)
  {
    hide OfPr, Unsplit, SumFirst, PerSession, FirstModel;
    var m := FirstModel(rows, pr);
    var all, used := TouchingSessions(reqs, links, pr), ActiveSessions(reqs, links, m, pr);
    EntryKeepsFirst(prices, rows, pr, k => |ActiveSessions(reqs, links, k, pr)|,
                    k => Sum(SessionsOf(links, pr), s => SharedRequests(reqs, links, k, s)));
    assert used <= all;
    SubsetIsNoLarger(used, all);
    if used != all {
      ProperSubsetIsSmaller(used, all);
    }
    SharedIsSum(reqs, links, m, pr);
  }

  lemma SharedIsSum(reqs: seq<Request>, links: set<Link>, model: string, pr: PullRequest)
    ensures var sum, shared := Sum(SessionsOf(links, pr), s => SharedRequests(reqs, links, model, s)), SharedSessions(reqs, links, model, pr);
            |shared| <= sum && (sum == |shared| <==> forall s :: s in shared ==> PerSession(reqs, s, model, ONE) == 1)
  {
    hide PerSession;
    var f := (s: string) => SharedRequests(reqs, links, model, s);
    var shared, linked := SharedSessions(reqs, links, model, pr), SessionsOf(links, pr);
    forall s | s in shared ensures s in linked && 1 <= f(s) {
      LinkedBothWays(links, s, pr);
      PerSessionCounts(reqs, s, model);
    }
    forall s | s in linked && s !in shared ensures f(s) == 0 {
      LinkedBothWays(links, s, pr);
      PerSessionCounts(reqs, s, model);
    }
    SumOverSome(linked, shared, f);
    SumOfPositives(shared, f);
  }

  lemma {:induction false} SumOverSome<T>(s: set<T>, some: set<T>, f: T -> int)
    requires some <= s && forall x :: x in s && x !in some ==> f(x) == 0
    ensures Sum(s, f) == Sum(some, f)
    decreases |s|
  {
    if s != {} {
      var x := Pick(s);
      SumTakesOut(s, f, x);
      if x in some {
        SumTakesOut(some, f, x);
        SumOverSome(s - {x}, some - {x}, f);
      } else {
        SumOverSome(s - {x}, some, f);
      }
    }
  }

  lemma {:induction false} PerSessionCounts(reqs: seq<Request>, session: string, model: string)
    ensures 0 <= PerSession(reqs, session, model, ONE)
    ensures 0 < PerSession(reqs, session, model, ONE) <==> exists r :: r in reqs && r.session == session && r.model == model
    decreases |reqs|
  {
    if reqs != [] {
      var before, r := reqs[..|reqs| - 1], reqs[|reqs| - 1];
      PerSessionCounts(before, session, model);
      assert forall x :: x in reqs <==> x in before || x == r;
    }
  }

  // ---- Such reports there are ----

  /** The query has an answer for any requests and links. */
  lemma ReportExists(reqs: seq<Request>, links: set<Link>) returns (rows: seq<ReportRow>)
    ensures IsReport(reqs, links, rows)
  {
    hide QueryRow;
    var pairs := Listing(set r, l | r in reqs && l in links && l.session == r.session :: (l.pr, r.model));
    rows := seq(|pairs|, i requires 0 <= i < |pairs| => QueryRow(reqs, links, pairs[i].0, pairs[i].1));
    forall i | 0 <= i < |pairs| ensures rows[i].pr == pairs[i].0 && rows[i].model == pairs[i].1 {
      QueryRowIsOf(reqs, links, pairs[i].0, pairs[i].1);
    }
    forall i | 0 <= i < |rows| ensures rows[i].pr in Reported(reqs, links, rows[i].model) {
      assert pairs[i] in pairs;
    }
    forall m, p | p in Reported(reqs, links, m) ensures exists i :: 0 <= i < |rows| && rows[i].pr == p && rows[i].model == m {
      assert (p, m) in pairs;
      var i :| 0 <= i < |pairs| && pairs[i] == (p, m);
      assert rows[i].pr == p;
    }
  }

  lemma QueryRowIsOf(reqs: seq<Request>, links: set<Link>, pr: PullRequest, model: string)
    ensures QueryRow(reqs, links, pr, model).pr == pr && QueryRow(reqs, links, pr, model).model == model
  {}

  function Asked(session: string, model: string): Request {
    Request(session, model, "o", "", "", "", Usage(0, 0, 0, 0, 0, 0))
  }

  const FIRST_PR := PullRequest("o/r", 1)
  const SECOND_PR := PullRequest("o/r", 2)

  /** Two sessions under two models opened one pull request together: its entry says
      one session too few. */
  lemma SessionsFallShort(prices: PriceTable, rows: seq<ReportRow>)
    requires IsReport([Asked("a", "x"), Asked("b", "y")], {Link("a", FIRST_PR), Link("b", FIRST_PR)}, rows)
    ensures FIRST_PR in PrsIn(rows) && OfPr(prices, rows, FIRST_PR).sessions < 2
    ensures TouchingSessions([Asked("a", "x"), Asked("b", "y")], {Link("a", FIRST_PR), Link("b", FIRST_PR)}, FIRST_PR) == {"a", "b"}
  {
    hide QueryRow, OfPr;
    var reqs, links := [Asked("a", "x"), Asked("b", "y")], {Link("a", FIRST_PR), Link("b", FIRST_PR)};
    assert reqs[0] in reqs && reqs[1] in reqs && forall r :: r in reqs ==> r == reqs[0] || r == reqs[1];
    LinkedBothWays(links, "a", FIRST_PR);
    LinkedBothWays(links, "b", FIRST_PR);
    HasRow(reqs, links, rows, reqs[0], FIRST_PR);
    EntryCountsSessionsIff(prices, reqs, links, rows, FIRST_PR);
    assert "a" in TouchingSessions(reqs, links, FIRST_PR) && "b" in TouchingSessions(reqs, links, FIRST_PR);
    assert TouchingSessions(reqs, links, FIRST_PR) == {"a", "b"};
    var used := ActiveSessions(reqs, links, FirstModel(rows, FIRST_PR), FIRST_PR);
    assert !("a" in used && "b" in used);
  }

  lemma HasRow(reqs: seq<Request>, links: set<Link>, rows: seq<ReportRow>, r: Request, pr: PullRequest)
    requires IsReport(reqs, links, rows) && r in reqs && Link(r.session, pr) in links
    ensures pr in PrsIn(rows)
  {
    assert pr in Reported(reqs, links, r.model);
    var i :| 0 <= i < |rows| && rows[i].pr == pr && rows[i].model == r.model;
    assert rows[i] in rows;
  }

  lemma {:induction false} FirstModelHasRow(rows: seq<ReportRow>, pr: PullRequest)
    requires pr in PrsIn(rows)
    ensures exists r :: r in rows && r.pr == pr && r.model == FirstModel(rows, pr)
    decreases |rows|
  {
    var before, r := rows[..|rows| - 1], rows[|rows| - 1];
    assert r in rows && forall x :: x in rows <==> x in before || x == r;
    if pr in PrsIn(before) {
      FirstModelHasRow(before, pr);
    }
  }

  /** A session of two requests opened two pull requests: each entry says that more
      than one session is shared. */
  lemma SharedCountsRequests(prices: PriceTable, rows: seq<ReportRow>)
    requires IsReport([Asked("a", "x"), Asked("a", "x")], {Link("a", FIRST_PR), Link("a", SECOND_PR)}, rows)
    ensures FIRST_PR in PrsIn(rows) && 1 < OfPr(prices, rows, FIRST_PR).shared
    ensures TouchingSessions([Asked("a", "x"), Asked("a", "x")], {Link("a", FIRST_PR), Link("a", SECOND_PR)}, FIRST_PR) == {"a"}
  {
    hide QueryRow, OfPr;
    var reqs, links := [Asked("a", "x"), Asked("a", "x")], {Link("a", FIRST_PR), Link("a", SECOND_PR)};
    assert reqs[0] in reqs && forall r :: r in reqs ==> r == reqs[0];
    HasRow(reqs, links, rows, reqs[0], FIRST_PR);
    FirstModelHasRow(rows, FIRST_PR);
    var m := FirstModel(rows, FIRST_PR);
    assert FIRST_PR in Reported(reqs, links, m);
    assert m == "x";
    EntryCountsSessionsIff(prices, reqs, links, rows, FIRST_PR);
    TwoOfOne(links);
  }

  lemma TwoOfOne(links: set<Link>)
    requires links == {Link("a", FIRST_PR), Link("a", SECOND_PR)}
    ensures var reqs := [Asked("a", "x"), Asked("a", "x")];
            && TouchingSessions(reqs, links, FIRST_PR) == {"a"}
            && SharedSessions(reqs, links, "x", FIRST_PR) == {"a"} && PerSession(reqs, "a", "x", ONE) == 2
  {
    var reqs := [Asked("a", "x"), Asked("a", "x")];
    LinkedBothWays(links, "a", FIRST_PR);
    LinkedBothWays(links, "a", SECOND_PR);
    assert PrsOf(links, "a") == {FIRST_PR, SECOND_PR};
    assert |PrsOf(links, "a")| == 2;
    assert reqs[0] in reqs && forall r :: r in reqs ==> r == reqs[0];
    assert reqs[..1] == [reqs[0]] && reqs[..1][..0] == [];
  }
}
