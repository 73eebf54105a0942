/** Portfolios added up over the exchanges of a backtesting. Amounts are reals; the order in which a
    dictionary is gone through is arbitrary. */
module PortfolioTotals {
  import opened Options

  type Values = map<string, real>
  type Portfolio = map<string, Values>

  const AVAILABLE := "available"
  const TOTAL := "total"
  const POSITION := "position"

  datatype Position = Position(currency: string, quantity: real)

  /** What an exchange answers; there is no origin when its portfolio is not initialised. */
  datatype Exchange = Exchange(origin: Option<Portfolio>, end: Portfolio, isFuture: bool, positions: seq<Position>)

  function WithoutAvailable(portfolio: Portfolio): Portfolio {
    map currency | currency in portfolio :: portfolio[currency] - {AVAILABLE}
  }

  function WithPosition(portfolio: Portfolio, p: Position): Portfolio {
    portfolio[p.currency :=
      if p.currency in portfolio then portfolio[p.currency][POSITION := p.quantity]
      else map[AVAILABLE := 0.0, TOTAL := 0.0, POSITION := p.quantity]]
  }

  function WithPositions(portfolio: Portfolio, positions: seq<Position>): Portfolio {
    if positions == [] then portfolio
    else WithPosition(WithPositions(portfolio, positions[..|positions| - 1]), positions[|positions| - 1])
  }

  datatype Side = Origin | End

  /** A portfolio of an exchange as it is added up, None when the exchange is skipped. */
  function Prepared(side: Side, e: Exchange): Option<Portfolio> {
    if e.origin.None? then None
    else if side.Origin? then Some(WithoutAvailable(e.origin.value))
    else if e.isFuture then Some(WithPositions(WithoutAvailable(e.end), e.positions))
    else Some(WithoutAvailable(e.end))
  }

  function AsList(p: Option<Portfolio>): seq<Portfolio> {
    if p.Some? then [p.value] else []
  }

  function Portfolios(side: Side, exchanges: seq<Exchange>): seq<Portfolio> {
    if exchanges == [] then []
    else AsList(Prepared(side, exchanges[0])) + Portfolios(side, exchanges[1..])
  }

  function Amount(values: Values, key: string): real {
    if key in values then values[key] else 0.0
  }

  function ValuesOf(portfolio: Portfolio, currency: string): Values {
    if currency in portfolio then portfolio[currency] else map[]
  }

  function AmountOf(portfolio: Portfolio, currency: string, key: string): real {
    Amount(ValuesOf(portfolio, currency), key)
  }

  function AddedValues(a: Values, b: Values): Values {
    map key | key in a.Keys + b.Keys :: Amount(a, key) + Amount(b, key)
  }

  function Added(a: Portfolio, b: Portfolio): Portfolio {
    map currency | currency in a.Keys + b.Keys :: AddedAt(a, b, currency)
  }

  function AddedAt(a: Portfolio, b: Portfolio, currency: string): Values
    requires currency in a || currency in b
  {
    if currency in b then AddedValues(ValuesOf(a, currency), b[currency]) else a[currency]
  }

  function Totals(portfolios: seq<Portfolio>): Portfolio {
    if portfolios == [] then map[]
    else Added(Totals(portfolios[..|portfolios| - 1]), portfolios[|portfolios| - 1])
  }

  /** The loop over the keys of one currency. */
  method AddValues(total: Values, values: Values) returns (result: Values)
    ensures result == AddedValues(total, values)
  {
    result := total;
    var remaining := values.Keys;
    while remaining != {}
      invariant remaining <= values.Keys
      invariant result.Keys == total.Keys + (values.Keys - remaining)
      invariant forall key :: key in result ==>
        result[key] == Amount(total, key) + (if key in remaining then 0.0 else Amount(values, key))
    {
      var key :| key in remaining;
      result := result[key := Amount(result, key) + values[key]];
      remaining := remaining - {key};
    }
  }

  /** The loop over the currencies of one exchange's portfolio. */
  method AddPortfolio(portfolio: Portfolio, exchangePortfolio: Portfolio) returns (result: Portfolio)
    ensures result == Added(portfolio, exchangePortfolio)
  {
    result := portfolio;
    var remaining := exchangePortfolio.Keys;
    while remaining != {}
      invariant remaining <= exchangePortfolio.Keys
      invariant result.Keys == portfolio.Keys + (exchangePortfolio.Keys - remaining)
      invariant forall c :: c in result ==>
        result[c] == if c in remaining then portfolio[c] else AddedAt(portfolio, exchangePortfolio, c)
    {
      var currency :| currency in remaining;
      var values := AddValues(ValuesOf(result, currency), exchangePortfolio[currency]);
      result := result[currency := values];
      remaining := remaining - {currency};
    }
  }

  /** The loop over the positions of a futures exchange. */
  method SetPositions(portfolio: Portfolio, positions: seq<Position>) returns (result: Portfolio)
    ensures result == WithPositions(portfolio, positions)
  {
    result := portfolio;
    for i := 0 to |positions|
      invariant result == WithPositions(portfolio, positions[..i])
    {
      assert positions[..i + 1][..i] == positions[..i];
      var p := positions[i];
      if p.currency in result {
        result := result[p.currency := result[p.currency][POSITION := p.quantity]];
      } else {
        result := result[p.currency := map[AVAILABLE := 0.0, TOTAL := 0.0, POSITION := p.quantity]];
      }
    }
    assert positions[..|positions|] == positions;
  }

  lemma {:induction false} PortfoliosOfTwo(side: Side, a: seq<Exchange>, b: seq<Exchange>)
    ensures Portfolios(side, a + b) == Portfolios(side, a) + Portfolios(side, b)
  {
    if a == [] {
      assert a + b == b;
    } else {
      assert (a + b)[1..] == a[1..] + b;
      PortfoliosOfTwo(side, a[1..], b);
    }
  }

  lemma OneExchangeMore(side: Side, exchanges: seq<Exchange>, i: nat)
    requires i < |exchanges|
    ensures var p, before := Prepared(side, exchanges[i]), Portfolios(side, exchanges[..i]);
      Totals(Portfolios(side, exchanges[..i + 1])) == if p.Some? then Added(Totals(before), p.value) else Totals(before)
  {
    var before := Portfolios(side, exchanges[..i]);
    assert exchanges[..i + 1] == exchanges[..i] + [exchanges[i]];
    PortfoliosOfTwo(side, exchanges[..i], [exchanges[i]]);
    var p := Prepared(side, exchanges[i]);
    assert Portfolios(side, exchanges[..i + 1]) == before + AsList(p);
    if p.Some? {
      OnePortfolioMore(before, p.value);
    } else {
      assert before + [] == before;
    }
  }

  lemma OnePortfolioMore(portfolios: seq<Portfolio>, p: Portfolio)
    ensures Totals(portfolios + [p]) == Added(Totals(portfolios), p)
  {
    assert (portfolios + [p])[..|portfolios|] == portfolios;
  }

  /** `_get_portfolio` */
  method GetPortfolio(exchanges: seq<Exchange>) returns (origin: Portfolio, end: Portfolio)
    ensures origin == Totals(Portfolios(Origin, exchanges)) && end == Totals(Portfolios(End, exchanges))
  {
    origin, end := map[], map[];
    for i := 0 to |exchanges|
      invariant origin == Totals(Portfolios(Origin, exchanges[..i]))
      invariant end == Totals(Portfolios(End, exchanges[..i]))
    {
      var e := exchanges[i];
      OneExchangeMore(Origin, exchanges, i);
      OneExchangeMore(End, exchanges, i);
      if e.origin.Some? {
        var exchangeOrigin := WithoutAvailable(e.origin.value);
        var exchangeEnd := WithoutAvailable(e.end);
        if e.isFuture {
          exchangeEnd := SetPositions(exchangeEnd, e.positions);
        }
        origin := AddPortfolio(origin, exchangeOrigin);
        end := AddPortfolio(end, exchangeEnd);
      }
    }
    assert exchanges[..|exchanges|] == exchanges;
  }

  function Sum(portfolios: seq<Portfolio>, currency: string, key: string): real {
    if portfolios == [] then 0.0
    else AmountOf(portfolios[0], currency, key) + Sum(portfolios[1..], currency, key)
  }

  lemma {:induction false} SumOfTwo(a: seq<Portfolio>, b: seq<Portfolio>, currency: string, key: string)
    ensures Sum(a + b, currency, key) == Sum(a, currency, key) + Sum(b, currency, key)
  {
    if a == [] {
      assert a + b == b;
    } else {
      assert (a + b)[1..] == a[1..] + b;
      SumOfTwo(a[1..], b, currency, key);
    }
  }

  predicate Holds(portfolio: Portfolio, currency: string, key: string) {
    currency in portfolio && key in portfolio[currency]
  }

  predicate Lists(portfolio: Portfolio, currency: string) {
    currency in portfolio
  }

  lemma AddedAmounts(a: Portfolio, b: Portfolio, currency: string, key: string)
    ensures AmountOf(Added(a, b), currency, key) == AmountOf(a, currency, key) + AmountOf(b, currency, key)
    ensures Holds(Added(a, b), currency, key) <==> Holds(a, currency, key) || Holds(b, currency, key)
    ensures Lists(Added(a, b), currency) <==> Lists(a, currency) || Lists(b, currency)
  {
  }

  /** Amounts are conserved: each total is the sum over the portfolios. */
  lemma {:induction false} TotalIsSum(portfolios: seq<Portfolio>, currency: string, key: string)
    ensures AmountOf(Totals(portfolios), currency, key) == Sum(portfolios, currency, key)
  {
    if portfolios != [] {
      var n := |portfolios| - 1;
      TotalIsSum(portfolios[..n], currency, key);
      assert portfolios == portfolios[..n] + [portfolios[n]];
      SumOfTwo(portfolios[..n], [portfolios[n]], currency, key);
      AddedAmounts(Totals(portfolios[..n]), portfolios[n], currency, key);
    }
  }

  /** A total has a currency or a key of a currency if and only if one of the portfolios has it. */
  lemma {:induction false} TotalHolds(portfolios: seq<Portfolio>, currency: string, key: string)
    ensures Holds(Totals(portfolios), currency, key) <==> exists p :: p in portfolios && Holds(p, currency, key)
    ensures Lists(Totals(portfolios), currency) <==> exists p :: p in portfolios && Lists(p, currency)
  {
    if portfolios != [] {
      var n := |portfolios| - 1;
      TotalHolds(portfolios[..n], currency, key);
      assert portfolios == portfolios[..n] + [portfolios[n]];
      AddedAmounts(Totals(portfolios[..n]), portfolios[n], currency, key);
    }
  }

  lemma WithoutFirst<T>(a: seq<T>, b: seq<T>) returns (i: nat)
    requires a != [] && multiset(a) == multiset(b)
    ensures i < |b| && b[i] == a[0] && multiset(a[1..]) == multiset(b[..i] + b[i + 1..])
  {
    assert a[0] in multiset(a);
    i := PositionOf(b, a[0]);
    WithoutOne(a, 0);
    WithoutOne(b, i);
    assert a[..0] + a[1..] == a[1..];
  }

  lemma PositionOf<T>(list: seq<T>, x: T) returns (i: nat)
    requires x in multiset(list)
    ensures i < |list| && list[i] == x
  {
    assert x in list;
    i :| 0 <= i < |list| && list[i] == x;
  }

  lemma WithoutOne<T>(list: seq<T>, i: nat)
    requires i < |list|
    ensures multiset(list[..i] + list[i + 1..]) == multiset(list) - multiset{list[i]}
  {
    assert list == list[..i] + [list[i]] + list[i + 1..];
  }

  lemma {:induction false} SumIgnoresOrder(a: seq<Portfolio>, b: seq<Portfolio>, currency: string, key: string)
    requires multiset(a) == multiset(b)
    ensures Sum(a, currency, key) == Sum(b, currency, key)
  {
    if a == [] {
      assert |b| == |multiset(b)| == 0;
    } else {
      var i := WithoutFirst(a, b);
      assert b == b[..i] + ([b[i]] + b[i + 1..]);
      SumIgnoresOrder(a[1..], b[..i] + b[i + 1..], currency, key);
      SumOfTwo(b[..i], b[i + 1..], currency, key);
      SumOfTwo(b[..i], [b[i]] + b[i + 1..], currency, key);
      assert ([b[i]] + b[i + 1..])[1..] == b[i + 1..];
    }
  }

  lemma {:induction false} PortfoliosIgnoreOrder(side: Side, a: seq<Exchange>, b: seq<Exchange>)
    requires multiset(a) == multiset(b)
    ensures multiset(Portfolios(side, a)) == multiset(Portfolios(side, b))
  {
    if a == [] {
      assert |b| == |multiset(b)| == 0;
    } else {
      var i := WithoutFirst(a, b);
      assert b == b[..i] + ([b[i]] + b[i + 1..]);
      PortfoliosIgnoreOrder(side, a[1..], b[..i] + b[i + 1..]);
      PortfoliosOfTwo(side, b[..i], b[i + 1..]);
      PortfoliosOfTwo(side, b[..i], [b[i]] + b[i + 1..]);
      assert ([b[i]] + b[i + 1..])[1..] == b[i + 1..];
    }
  }

  /** The totals do not depend on the order of the exchanges. */
  lemma TotalsIgnoreOrder(side: Side, a: seq<Exchange>, b: seq<Exchange>)
    requires multiset(a) == multiset(b)
    ensures Totals(Portfolios(side, a)) == Totals(Portfolios(side, b))
  {
    PortfoliosIgnoreOrder(side, a, b);
    var p, q := Portfolios(side, a), Portfolios(side, b);
    assert forall x :: x in p <==> x in multiset(p);
    assert forall x :: x in q <==> x in multiset(q);
    forall currency
      ensures currency in Totals(p) <==> currency in Totals(q)
      ensures currency in Totals(p) ==> Totals(p)[currency] == Totals(q)[currency]
    {
      SameCurrency(p, q, currency);
    }
  }

  lemma {:induction false} SameCurrency(p: seq<Portfolio>, q: seq<Portfolio>, currency: string)
    requires multiset(p) == multiset(q) && forall x :: x in p <==> x in q
    ensures currency in Totals(p) <==> currency in Totals(q)
    ensures currency in Totals(p) ==> Totals(p)[currency] == Totals(q)[currency]
  {
    forall key
      ensures Holds(Totals(p), currency, key) <==> Holds(Totals(q), currency, key)
      ensures AmountOf(Totals(p), currency, key) == AmountOf(Totals(q), currency, key)
    {
      TotalIsSum(p, currency, key);
      TotalIsSum(q, currency, key);
      TotalHolds(p, currency, key);
      TotalHolds(q, currency, key);
      SumIgnoresOrder(p, q, currency, key);
    }
    TotalHolds(p, currency, "");
    TotalHolds(q, currency, "");
    assert Lists(Totals(p), currency) == Lists(Totals(q), currency);
    if currency in Totals(p) {
      var v, w := Totals(p)[currency], Totals(q)[currency];
      forall key
        ensures key in v <==> key in w
        ensures key in v ==> v[key] == w[key]
      {
        assert Holds(Totals(p), currency, key) == (key in v) && Holds(Totals(q), currency, key) == (key in w);
        assert AmountOf(Totals(p), currency, key) == AmountOf(Totals(q), currency, key);
      }
    }
  }

  /** The last position in a currency, if any. */
  function LastPosition(positions: seq<Position>, currency: string): Option<real> {
    if positions == [] then None
    else if positions[|positions| - 1].currency == currency then Some(positions[|positions| - 1].quantity)
    else LastPosition(positions[..|positions| - 1], currency)
  }

  /** Of several positions in a currency the last one stands; nothing else in the portfolio changes. */
  lemma {:induction false} LastPositionStands(portfolio: Portfolio, positions: seq<Position>, currency: string, key: string)
    ensures AmountOf(WithPositions(portfolio, positions), currency, key) ==
      if key == POSITION && LastPosition(positions, currency).Some? then LastPosition(positions, currency).value
      else AmountOf(portfolio, currency, key)
  {
    if positions != [] {
      LastPositionStands(portfolio, positions[..|positions| - 1], currency, key);
    }
  }

  lemma {:induction false} NothingSummed(portfolios: seq<Portfolio>, currency: string, key: string)
    requires forall p :: p in portfolios ==> AmountOf(p, currency, key) == 0.0
    ensures Sum(portfolios, currency, key) == 0.0
  {
    if portfolios != [] {
      assert portfolios[0] in portfolios;
      NothingSummed(portfolios[1..], currency, key);
    }
  }

  lemma {:induction false} PortfolioIsPrepared(side: Side, exchanges: seq<Exchange>, p: Portfolio) returns (e: Exchange)
    requires p in Portfolios(side, exchanges)
    ensures e in exchanges && Prepared(side, e) == Some(p)
  {
    if Prepared(side, exchanges[0]) == Some(p) {
      e := exchanges[0];
    } else {
      e := PortfolioIsPrepared(side, exchanges[1..], p);
    }
  }

  /** Available amounts are never counted. */
  lemma AvailableIsZero(side: Side, exchanges: seq<Exchange>, currency: string)
    ensures AmountOf(Totals(Portfolios(side, exchanges)), currency, "available") == 0.0
  {
    forall p | p in Portfolios(side, exchanges)
      ensures AmountOf(p, currency, AVAILABLE) == 0.0
    {
      var e := PortfolioIsPrepared(side, exchanges, p);
      LastPositionStands(WithoutAvailable(e.end), e.positions, currency, AVAILABLE);
    }
    NothingSummed(Portfolios(side, exchanges), currency, AVAILABLE);
    TotalIsSum(Portfolios(side, exchanges), currency, AVAILABLE);
  }

  /** What an exchange adds to a total: its own amount on that side, but nothing that is available, and at the
      end of a futures backtesting the last position instead. An exchange without a portfolio adds nothing. */
  function Contribution(side: Side, e: Exchange, currency: string, key: string): real {
    if e.origin.None? || key == "available" then 0.0
    else if side.Origin? then AmountOf(e.origin.value, currency, key)
    else if e.isFuture && key == "position" && LastPosition(e.positions, currency).Some? then
      LastPosition(e.positions, currency).value
    else AmountOf(e.end, currency, key)
  }

  function SumOver(side: Side, exchanges: seq<Exchange>, currency: string, key: string): real {
    if exchanges == [] then 0.0
    else Contribution(side, exchanges[0], currency, key) + SumOver(side, exchanges[1..], currency, key)
  }

  lemma PreparedAmount(side: Side, e: Exchange, currency: string, key: string)
    ensures Contribution(side, e, currency, key) == Sum(AsList(Prepared(side, e)), currency, key)
  {
    LastPositionStands(WithoutAvailable(e.end), e.positions, currency, key);
  }

  lemma {:induction false} PortfoliosSum(side: Side, exchanges: seq<Exchange>, currency: string, key: string)
    ensures Sum(Portfolios(side, exchanges), currency, key) == SumOver(side, exchanges, currency, key)
  {
    if exchanges != [] {
      PortfoliosSum(side, exchanges[1..], currency, key);
      PreparedAmount(side, exchanges[0], currency, key);
      SumOfTwo(AsList(Prepared(side, exchanges[0])), Portfolios(side, exchanges[1..]), currency, key);
    }
  }

  /** Each total, from what the exchanges answer to what is stored. */
  lemma TotalsOfExchanges(side: Side, exchanges: seq<Exchange>, currency: string, key: string)
    ensures AmountOf(Totals(Portfolios(side, exchanges)), currency, key) == SumOver(side, exchanges, currency, key)
  {
    TotalIsSum(Portfolios(side, exchanges), currency, key);
    PortfoliosSum(side, exchanges, currency, key);
  }
}
