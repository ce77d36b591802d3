/** Token counts turned into money, linearly. */
module Pricing {
  import opened Records
  import opened Totals

  /** One row of the price table, in dollars per million tokens. */
  datatype Price = Price(input: real, output: real, cacheRead: real, cacheWrite5m: real, cacheWrite1h: real)

  /** `Lookup`: the row for a model, if there is one. */
  type PriceTable = string -> Option<Price>

  /** The billed kinds of tokens; thinking is part of the output. */
  datatype Tokens = Tokens(input: real, output: real, cacheRead: real, cacheWrite5m: real, cacheWrite1h: real)

  const PER_MILLION := 1_000_000.0

  function Dollars(p: Price, t: Tokens): real {
    (Times(p.input, t.input) + Times(p.output, t.output) + Times(p.cacheRead, t.cacheRead)
     + Times(p.cacheWrite5m, t.cacheWrite5m) + Times(p.cacheWrite1h, t.cacheWrite1h)) / PER_MILLION
  }

  /** `Cost`; a model without a price costs nothing here and is reported elsewhere. */
  function Cost(prices: PriceTable, model: string, t: Tokens): real {
    match prices(model)
    case None => 0.0
    case Some(p) => Dollars(p, t)
  }

  ghost predicate NoNegativePrice(prices: PriceTable) {
    forall m :: prices(m).Some? ==>
      var p := prices(m).value;
      0.0 <= p.input && 0.0 <= p.output && 0.0 <= p.cacheRead && 0.0 <= p.cacheWrite5m && 0.0 <= p.cacheWrite1h
  }

  function Plus(a: Tokens, b: Tokens): Tokens {
    Tokens(a.input + b.input, a.output + b.output, a.cacheRead + b.cacheRead,
           a.cacheWrite5m + b.cacheWrite5m, a.cacheWrite1h + b.cacheWrite1h)
  }

  predicate AtMost(a: Tokens, b: Tokens) {
    && a.input <= b.input && a.output <= b.output && a.cacheRead <= b.cacheRead
    && a.cacheWrite5m <= b.cacheWrite5m && a.cacheWrite1h <= b.cacheWrite1h
  }

  const NO_TOKENS := Tokens(0.0, 0.0, 0.0, 0.0, 0.0)

  function TokensOf(u: Usage): Tokens {
    Tokens(u.input as real, u.output as real, u.cacheRead as real, u.cacheWrite5m as real, u.cacheWrite1h as real)
  }

  /** Pricing a sum is summing the prices, so it does not matter how usage is grouped. */
  lemma CostAdds(prices: PriceTable, model: string, a: Tokens, b: Tokens)
    ensures Cost(prices, model, Plus(a, b)) == Cost(prices, model, a) + Cost(prices, model, b)
    ensures Cost(prices, model, NO_TOKENS) == 0.0
  {
    if prices(model).Some? {
      var p := prices(model).value;
      Distribute(p.input, a.input, b.input);
      Distribute(p.output, a.output, b.output);
      Distribute(p.cacheRead, a.cacheRead, b.cacheRead);
      Distribute(p.cacheWrite5m, a.cacheWrite5m, b.cacheWrite5m);
      Distribute(p.cacheWrite1h, a.cacheWrite1h, b.cacheWrite1h);
      TimesUnits(p.input);
      TimesUnits(p.output);
      TimesUnits(p.cacheRead);
      TimesUnits(p.cacheWrite5m);
      TimesUnits(p.cacheWrite1h);
      hide Times;
    }
  }

  /** A price per million, for `x` of them. */
  function PerMillion(price: real, x: real): real {
    price * x / 1_000_000.0
  }

  /** A million tokens of one kind cost that kind's own price, and any number of them
      the same part of it. */
  lemma EachKindHasItsPrice(prices: PriceTable, model: string, x: real)
    requires prices(model).Some?
    ensures var p := prices(model).value;
            && Cost(prices, model, Tokens(x, 0.0, 0.0, 0.0, 0.0)) == PerMillion(p.input, x)
            && Cost(prices, model, Tokens(0.0, x, 0.0, 0.0, 0.0)) == PerMillion(p.output, x)
            && Cost(prices, model, Tokens(0.0, 0.0, x, 0.0, 0.0)) == PerMillion(p.cacheRead, x)
            && Cost(prices, model, Tokens(0.0, 0.0, 0.0, x, 0.0)) == PerMillion(p.cacheWrite5m, x)
            && Cost(prices, model, Tokens(0.0, 0.0, 0.0, 0.0, x)) == PerMillion(p.cacheWrite1h, x)
  {
    var p := prices(model).value;
    TimesUnits(p.input);
    TimesUnits(p.output);
    TimesUnits(p.cacheRead);
    TimesUnits(p.cacheWrite5m);
    TimesUnits(p.cacheWrite1h);
    IsPerMillion(p.input, x);
    IsPerMillion(p.output, x);
    IsPerMillion(p.cacheRead, x);
    IsPerMillion(p.cacheWrite5m, x);
    IsPerMillion(p.cacheWrite1h, x);
    hide Times, PerMillion;
  }

  lemma IsPerMillion(price: real, x: real)
    ensures PerMillion(price, x) == Times(price, x) / PER_MILLION
  {}

  lemma KindsAddUp(t: Tokens)
    ensures t == Plus(Plus(Plus(Plus(Tokens(t.input, 0.0, 0.0, 0.0, 0.0), Tokens(0.0, t.output, 0.0, 0.0, 0.0)),
                                Tokens(0.0, 0.0, t.cacheRead, 0.0, 0.0)), Tokens(0.0, 0.0, 0.0, t.cacheWrite5m, 0.0)),
                      Tokens(0.0, 0.0, 0.0, 0.0, t.cacheWrite1h))
  {}

  /** So the cost of any usage is settled: each kind's tokens at its own price. */
  lemma CostIsEachKindAtItsPrice(prices: PriceTable, model: string, t: Tokens)
    ensures prices(model).None? ==> Cost(prices, model, t) == 0.0
    ensures prices(model).Some? ==>
              var p := prices(model).value;
              Cost(prices, model, t) ==
                PerMillion(p.input, t.input) + PerMillion(p.output, t.output) + PerMillion(p.cacheRead, t.cacheRead)
                + PerMillion(p.cacheWrite5m, t.cacheWrite5m) + PerMillion(p.cacheWrite1h, t.cacheWrite1h)
  {
    if prices(model).Some? {
      hide Cost, PerMillion;
      var a, b := Tokens(t.input, 0.0, 0.0, 0.0, 0.0), Tokens(0.0, t.output, 0.0, 0.0, 0.0);
      var c, d := Tokens(0.0, 0.0, t.cacheRead, 0.0, 0.0), Tokens(0.0, 0.0, 0.0, t.cacheWrite5m, 0.0);
      var e := Tokens(0.0, 0.0, 0.0, 0.0, t.cacheWrite1h);
      KindsAddUp(t);
      CostAdds(prices, model, a, b);
      CostAdds(prices, model, Plus(a, b), c);
      CostAdds(prices, model, Plus(Plus(a, b), c), d);
      CostAdds(prices, model, Plus(Plus(Plus(a, b), c), d), e);
      EachKindHasItsPrice(prices, model, t.input);
      EachKindHasItsPrice(prices, model, t.output);
      EachKindHasItsPrice(prices, model, t.cacheRead);
      EachKindHasItsPrice(prices, model, t.cacheWrite5m);
      EachKindHasItsPrice(prices, model, t.cacheWrite1h);
    }
  }

  lemma TimesGrows(c: real, a: real, b: real)
    requires 0.0 <= c && a <= b
    ensures Times(c, a) <= Times(c, b)
  {}

  lemma CostGrows(prices: PriceTable, model: string, a: Tokens, b: Tokens)
    requires NoNegativePrice(prices) && AtMost(a, b)
    ensures Cost(prices, model, a) <= Cost(prices, model, b)
  {
    if prices(model).Some? {
      var p := prices(model).value;
      TimesGrows(p.input, a.input, b.input);
      TimesGrows(p.output, a.output, b.output);
      TimesGrows(p.cacheRead, a.cacheRead, b.cacheRead);
      TimesGrows(p.cacheWrite5m, a.cacheWrite5m, b.cacheWrite5m);
      TimesGrows(p.cacheWrite1h, a.cacheWrite1h, b.cacheWrite1h);
      hide Times;
    }
  }
}
