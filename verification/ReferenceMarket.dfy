/** The running-mode reference market: the settlement asset of futures, or the most frequent quote. */
module ReferenceMarket {
  import opened Options

  const DEFAULT_REFERENCE_MARKET := "USDT"

  /** A traded pair; the settlement asset is empty when there is none. */
  datatype Symbol = Symbol(base: string, quote: string, settlement: string)

  datatype ContractType = InversePerpetual | LinearPerpetual | InverseExpirable | LinearExpirable

  predicate IsInverse(s: Symbol) {
    s.settlement != "" && s.settlement == s.base
  }

  predicate AllInverse(symbols: seq<Symbol>) {
    forall s | s in symbols :: IsInverse(s)
  }

  /** How the backtesting is configured: the type of its first exchange, and the forced contract type if
      it is not the profile's. */
  datatype Setting = Setting(isFuture: bool, forced: Option<ContractType>)

  function QuotesOf(symbols: seq<Symbol>): (r: seq<string>)
    ensures |r| == |symbols| && forall i | 0 <= i < |r| :: r[i] == symbols[i].quote
  {
    if symbols == [] then [] else QuotesOf(symbols[..|symbols| - 1]) + [symbols[|symbols| - 1].quote]
  }

  /** The quotes counted over the symbols of all exchanges, in order. */
  function Quotes(exchanges: seq<seq<Symbol>>): seq<string> {
    if exchanges == [] then [] else Quotes(exchanges[..|exchanges| - 1]) + QuotesOf(exchanges[|exchanges| - 1])
  }

  /** The market that the first symbol of an exchange decides alone. */
  function Decided(setting: Setting, symbols: seq<Symbol>): Option<string> {
    if !setting.isFuture || symbols == [] then None
    else
      var symbol := symbols[0];
      match setting.forced
      case Some(contract) => Some(if contract.InversePerpetual? then symbol.base else symbol.quote)
      case None => if symbol.settlement != "" then Some(symbol.settlement) else None
  }

  /** The contract type an exchange sets, None when it leaves it. */
  function ContractSet(setting: Setting, symbols: seq<Symbol>): Option<ContractType> {
    if !setting.isFuture || symbols == [] then None
    else if setting.forced.Some? then setting.forced
    else if !IsInverse(symbols[0]) then Some(LinearPerpetual)
    else if !AllInverse(symbols) then Some(InversePerpetual)
    else None
  }

  /** How many exchanges are looked at: up to and including the first that decides. */
  function LookedAt(setting: Setting, exchanges: seq<seq<Symbol>>): (n: nat)
    ensures n <= |exchanges|
    ensures forall i | 0 <= i < n - 1 :: Decided(setting, exchanges[i]).None?
    ensures n == |exchanges| || (n > 0 && Decided(setting, exchanges[n - 1]).Some?)
  {
    if exchanges == [] then 0
    else if Decided(setting, exchanges[0]).Some? then 1
    else 1 + LookedAt(setting, exchanges[1..])
  }

  /** The candidate after each quote: it changes only when another one gets ahead. */
  function Candidate(quotes: seq<string>): Option<string> {
    if quotes == [] then None
    else
      var quote, before := quotes[|quotes| - 1], Candidate(quotes[..|quotes| - 1]);
      match before
      case None => Some(quote)
      case Some(c) => if Count(quotes, c) < Count(quotes, quote) then Some(quote) else before
  }

  function Count(quotes: seq<string>, quote: string): nat {
    multiset(quotes)[quote]
  }

  lemma CountOfOneMore(quotes: seq<string>, quote: string, x: string)
    ensures Count(quotes + [x], quote) == Count(quotes, quote) + if quote == x then 1 else 0
  {
  }

  /** The first quote to reach the highest count, reaching it at position i. */
  ghost predicate IsFirstToReachMaximum(quotes: seq<string>, c: string, i: nat) {
    i < |quotes| && quotes[i] == c &&
    Count(quotes[..i + 1], c) == Count(quotes, c) &&
    (forall x :: Count(quotes, x) <= Count(quotes, c)) &&
    (forall x :: Count(quotes[..i], x) < Count(quotes, c))
  }

  /** The candidate that gets one more, or a quote that gets ahead of it, is the first to reach its count. */
  lemma NewMaximum(before: seq<string>, x: string, most: nat)
    requires (forall q :: Count(before, q) <= most) && Count(before, x) == most
    ensures IsFirstToReachMaximum(before + [x], x, |before|)
  {
    var quotes := before + [x];
    forall q {
      CountOfOneMore(before, q, x);
    }
    assert quotes[..|before| + 1] == quotes && quotes[..|before|] == before;
  }

  lemma SameMaximum(before: seq<string>, x: string, c: string, i: nat)
    requires IsFirstToReachMaximum(before, c, i) && x != c && Count(before, x) < Count(before, c)
    ensures IsFirstToReachMaximum(before + [x], c, i)
  {
    var quotes := before + [x];
    forall q {
      CountOfOneMore(before, q, x);
    }
    assert quotes[..i + 1] == before[..i + 1] && quotes[..i] == before[..i];
  }

  lemma {:induction false} CandidateIsFirstToReach(quotes: seq<string>) returns (i: nat)
    requires quotes != []
    ensures Candidate(quotes).Some?
    ensures IsFirstToReachMaximum(quotes, Candidate(quotes).value, i)
  {
    var n := |quotes| - 1;
    var x, before := quotes[n], quotes[..n];
    assert quotes == before + [x];
    i := n;
    if before == [] {
      NewMaximum(before, x, 0);
    } else {
      var j := CandidateIsFirstToReach(before);
      var c := Candidate(before).value;
      CountOfOneMore(before, c, x);
      CountOfOneMore(before, x, x);
      if x == c || Count(before, c) == Count(before, x) {
        NewMaximum(before, x, Count(before, c));
      } else {
        SameMaximum(before, x, c, j);
        i := j;
      }
    }
  }

  /** There is only one such quote. */
  lemma FirstToReachIsUnique(quotes: seq<string>, c: string, i: nat, d: string, j: nat)
    requires IsFirstToReachMaximum(quotes, c, i) && IsFirstToReachMaximum(quotes, d, j)
    ensures c == d
  {
    if i < j {
      FewerBefore(quotes, i + 1, j, c);
    } else if j < i {
      FewerBefore(quotes, j + 1, i, d);
    }
  }

  lemma FewerBefore(quotes: seq<string>, i: nat, j: nat, q: string)
    requires i <= j <= |quotes|
    ensures Count(quotes[..i], q) <= Count(quotes[..j], q)
  {
    assert quotes[..j] == quotes[..i] + quotes[i..j];
  }

  function MarketOf(setting: Setting, exchanges: seq<seq<Symbol>>): string {
    var n := LookedAt(setting, exchanges);
    if n > 0 && Decided(setting, exchanges[n - 1]).Some? then Decided(setting, exchanges[n - 1]).value
    else OrDefault(Candidate(Quotes(exchanges)))
  }

  function OrDefault(candidate: Option<string>): string {
    if candidate.None? || candidate.value == "" then DEFAULT_REFERENCE_MARKET else candidate.value
  }

  function ContractAfter(setting: Setting, exchanges: seq<seq<Symbol>>, initial: ContractType): ContractType {
    if exchanges == [] then initial
    else
      var last := ContractSet(setting, exchanges[|exchanges| - 1]);
      if last.Some? then last.value else ContractAfter(setting, exchanges[..|exchanges| - 1], initial)
  }

  ghost predicate Counts(candidates: map<string, nat>, quotes: seq<string>) {
    forall q :: (q in candidates <==> q in quotes) && (q in candidates ==> candidates[q] == Count(quotes, q))
  }

  class IndependentBacktesting {
    var futuresContractType: ContractType

    constructor ()
      ensures futuresContractType == LinearPerpetual
    {
      futuresContractType := LinearPerpetual;
    }

    /** The part of the loop that is for futures. */
    method DecideForFutures(setting: Setting, symbols: seq<Symbol>) returns (market: Option<string>)
      requires symbols != [] && setting.isFuture
      modifies this
      ensures market == Decided(setting, symbols)
      ensures futuresContractType == ContractAfter(setting, [symbols], old(futuresContractType))
    {
      var symbol := symbols[0];
      if setting.forced.None? {
        if IsInverse(symbol) {
          if !AllInverse(symbols) {
            futuresContractType := InversePerpetual;
          }
        } else {
          futuresContractType := LinearPerpetual;
        }
        return if symbol.settlement != "" then Some(symbol.settlement) else None;
      }
      futuresContractType := setting.forced.value;
      return Some(if setting.forced.value.InversePerpetual? then symbol.base else symbol.quote);
    }

    /** The body of the counting loop. */
    static method CountQuote(quote: string, ghost quotes: seq<string>,
        candidate: Option<string>, candidates: map<string, nat>)
      returns (newCandidate: Option<string>, newCandidates: map<string, nat>)
      requires candidate == Candidate(quotes) && Counts(candidates, quotes)
      ensures newCandidate == Candidate(quotes + [quote])
      ensures Counts(newCandidates, quotes + [quote])
    {
      newCandidate, newCandidates := candidate, candidates;
      if newCandidate.None? {
        newCandidate := Some(quote);
      }
      if quote in newCandidates {
        newCandidates := newCandidates[quote := newCandidates[quote] + 1];
      } else {
        newCandidates := newCandidates[quote := 1];
      }
      if newCandidate.value != quote && newCandidates[newCandidate.value] < newCandidates[quote] {
        newCandidate := Some(quote);
      }
      assert (quotes + [quote])[..|quotes|] == quotes;
    }

    /** The counting loop over the symbols of one exchange. */
    static method CountQuotes(symbols: seq<Symbol>, ghost quotes: seq<string>,
        candidate: Option<string>, candidates: map<string, nat>)
      returns (newCandidate: Option<string>, newCandidates: map<string, nat>)
      requires candidate == Candidate(quotes) && Counts(candidates, quotes)
      ensures newCandidate == Candidate(quotes + QuotesOf(symbols))
      ensures Counts(newCandidates, quotes + QuotesOf(symbols))
    {
      newCandidate, newCandidates := candidate, candidates;
      ghost var counted := quotes;
      assert quotes + QuotesOf([]) == quotes;
      for i := 0 to |symbols|
        invariant counted == quotes + QuotesOf(symbols[..i])
        invariant newCandidate == Candidate(counted) && Counts(newCandidates, counted)
      {
        OneSymbolMore(symbols, i, quotes);
        newCandidate, newCandidates := CountQuote(symbols[i].quote, counted, newCandidate, newCandidates);
        counted := counted + [symbols[i].quote];
      }
      assert symbols[..|symbols|] == symbols;
    }

    /** `_find_reference_market_and_update_contract_type` */
    method FindReferenceMarket(setting: Setting, exchanges: seq<seq<Symbol>>) returns (market: string)
      modifies this
      ensures market == MarketOf(setting, exchanges)
      ensures futuresContractType ==
        ContractAfter(setting, exchanges[..LookedAt(setting, exchanges)], old(futuresContractType))
    {
      var candidate: Option<string> := None;
      var candidates: map<string, nat> := map[];
      for i := 0 to |exchanges|
        invariant NoneDecides(setting, exchanges[..i])
        invariant candidate == Candidate(Quotes(exchanges[..i])) && Counts(candidates, Quotes(exchanges[..i]))
        invariant futuresContractType == ContractAfter(setting, exchanges[..i], old(futuresContractType))
      {
        var symbols := exchanges[i];
        OneExchangeMore(setting, exchanges, i, old(futuresContractType));
        if symbols != [] {
          if setting.isFuture {
            var decided := DecideForFutures(setting, symbols);
            if decided.Some? {
              DecidesAt(setting, exchanges, i);
              return decided.value;
            }
          }
        }
        candidate, candidates := CountQuotes(symbols, Quotes(exchanges[..i]), candidate, candidates);
      }
      assert exchanges[..|exchanges|] == exchanges;
      NoneDecided(setting, exchanges);
      market := OrDefault(candidate);
    }
  }

  lemma OneSymbolMore(symbols: seq<Symbol>, i: nat, quotes: seq<string>)
    requires i < |symbols|
    ensures quotes + QuotesOf(symbols[..i + 1]) == quotes + QuotesOf(symbols[..i]) + [symbols[i].quote]
  {
    assert symbols[..i + 1][..i] == symbols[..i];
  }

  predicate NoneDecides(setting: Setting, exchanges: seq<seq<Symbol>>) {
    forall symbols | symbols in exchanges :: Decided(setting, symbols).None?
  }

  lemma OneExchangeMore(setting: Setting, exchanges: seq<seq<Symbol>>, i: nat, initial: ContractType)
    requires i < |exchanges|
    ensures Quotes(exchanges[..i + 1]) == Quotes(exchanges[..i]) + QuotesOf(exchanges[i])
    ensures ContractAfter(setting, exchanges[..i + 1], initial) ==
      ContractAfter(setting, [exchanges[i]], ContractAfter(setting, exchanges[..i], initial))
    ensures NoneDecides(setting, exchanges[..i + 1]) <==>
      NoneDecides(setting, exchanges[..i]) && Decided(setting, exchanges[i]).None?
  {
    assert exchanges[..i + 1] == exchanges[..i] + [exchanges[i]];
  }

  lemma {:induction false} LooksUpTo(setting: Setting, exchanges: seq<seq<Symbol>>, n: nat)
    requires n <= |exchanges|
    requires n == |exchanges| ==> n == 0 || NoneDecides(setting, exchanges[..n - 1])
    requires n < |exchanges| ==> n > 0 && NoneDecides(setting, exchanges[..n - 1]) && Decided(setting, exchanges[n - 1]).Some?
    ensures LookedAt(setting, exchanges) == n
  {
    if n > 1 {
      assert exchanges[..n - 1] == [exchanges[0]] + exchanges[1..][..n - 2];
      LooksUpTo(setting, exchanges[1..], n - 1);
    }
  }

  lemma DecidesAt(setting: Setting, exchanges: seq<seq<Symbol>>, i: nat)
    requires i < |exchanges| && NoneDecides(setting, exchanges[..i]) && Decided(setting, exchanges[i]).Some?
    ensures LookedAt(setting, exchanges) == i + 1
    ensures MarketOf(setting, exchanges) == Decided(setting, exchanges[i]).value
  {
    LooksUpTo(setting, exchanges, i + 1);
  }

  lemma {:induction false} NoneDecided(setting: Setting, exchanges: seq<seq<Symbol>>)
    requires NoneDecides(setting, exchanges)
    ensures LookedAt(setting, exchanges) == |exchanges|
    ensures MarketOf(setting, exchanges) == OrDefault(Candidate(Quotes(exchanges)))
  {
    var n := |exchanges|;
    if n > 0 {
      assert exchanges[n - 1] in exchanges;
      assert forall symbols | symbols in exchanges[..n - 1] :: symbols in exchanges;
    }
    LooksUpTo(setting, exchanges, n);
  }

  /** An exchange whose first symbol names no settlement asset, or that has no symbol, leaves the market open
      unless the contract type is forced. */
  predicate LeavesOpen(setting: Setting, symbols: seq<Symbol>) {
    symbols == [] || (setting.forced.None? && symbols[0].settlement == "")
  }

  /** For futures the first exchange that does not leave it open gives the market: the settlement asset of its
      first symbol or, for a forced contract type, that symbol's base when it is inverse and perpetual and its
      quote when not. */
  lemma FuturesMarket(setting: Setting, exchanges: seq<seq<Symbol>>, k: nat)
    requires setting.isFuture && k < |exchanges| && !LeavesOpen(setting, exchanges[k])
    requires forall i | 0 <= i < k :: LeavesOpen(setting, exchanges[i])
    ensures LookedAt(setting, exchanges) == k + 1
    ensures var symbol := exchanges[k][0];
      MarketOf(setting, exchanges) ==
        if setting.forced.None? then symbol.settlement
        else if setting.forced.value == InversePerpetual then symbol.base
        else symbol.quote
  {
    DecidesAt(setting, exchanges, k);
  }

  /** When no exchange decides, the market is the one quote that is first to reach the highest count; the
      default is only for no symbols at all (or for an empty quote). */
  lemma MarketIsMostFrequentQuote(setting: Setting, exchanges: seq<seq<Symbol>>) returns (c: string, i: nat)
    requires !setting.isFuture || forall symbols | symbols in exchanges :: LeavesOpen(setting, symbols)
    ensures Quotes(exchanges) == [] ==> MarketOf(setting, exchanges) == "USDT"
    ensures Quotes(exchanges) != [] ==> IsFirstToReachMaximum(Quotes(exchanges), c, i)
    ensures Quotes(exchanges) != [] ==>
      MarketOf(setting, exchanges) == if c == "" then "USDT" else c
  {
    c, i := "", 0;
    NoneDecided(setting, exchanges);
    if Quotes(exchanges) != [] {
      i := CandidateIsFirstToReach(Quotes(exchanges));
      c := Candidate(Quotes(exchanges)).value;
    }
  }

  predicate SettlesInBase(s: Symbol) {
    s.settlement != "" && s.base == s.settlement
  }

  predicate AllSettleInBase(symbols: seq<Symbol>) {
    forall i | 0 <= i < |symbols| :: SettlesInBase(symbols[i])
  }

  lemma AllInverseSettle(symbols: seq<Symbol>)
    ensures AllInverse(symbols) <==> AllSettleInBase(symbols)
  {
    if AllSettleInBase(symbols) {
      forall s | s in symbols
        ensures IsInverse(s)
      {
        var i :| 0 <= i < |symbols| && symbols[i] == s;
        assert SettlesInBase(symbols[i]);
      }
    } else {
      var i :| 0 <= i < |symbols| && !SettlesInBase(symbols[i]);
      assert symbols[i] in symbols;
    }
  }

  /** For the current profile's futures the contract type is set by the last exchange that is not wholly inverse,
      as its first symbol is, and left as it was when there is none. */
  lemma {:induction false} ProfileContract(exchanges: seq<seq<Symbol>>, k: nat, initial: ContractType)
    requires k <= |exchanges|
    requires k > 0 ==> !AllSettleInBase(exchanges[k - 1])
    requires forall i | k <= i < |exchanges| :: AllSettleInBase(exchanges[i])
    ensures ContractAfter(Setting(true, None), exchanges, initial) ==
      if k == 0 then initial else if SettlesInBase(exchanges[k - 1][0]) then InversePerpetual else LinearPerpetual
  {
    var n := |exchanges| - 1;
    if n >= 0 {
      AllInverseSettle(exchanges[n]);
    }
    if k <= n {
      assert exchanges[n] != [] ==> SettlesInBase(exchanges[n][0]);
      assert forall i | 0 <= i < n :: exchanges[..n][i] == exchanges[i];
      ProfileContract(exchanges[..n], k, initial);
    }
  }

  /** The backtesting of the current profile's futures becomes inverse only for contracts that are mixed:
      with inverse contracts alone the type is left as it was. */
  lemma {:induction false} InverseOnlyWhenMixed(exchanges: seq<seq<Symbol>>)
    ensures var setting := Setting(true, None);
      var n := LookedAt(setting, exchanges);
      ContractAfter(setting, exchanges[..n], LinearPerpetual) == InversePerpetual <==>
      n > 0 && exchanges[n - 1] != [] && SettlesInBase(exchanges[n - 1][0]) &&
      !AllSettleInBase(exchanges[n - 1])
  {
    var setting := Setting(true, None);
    var n := LookedAt(setting, exchanges);
    if n > 0 {
      AllInverseSettle(exchanges[n - 1]);
      assert exchanges[..n][..n - 1] == exchanges[..n - 1];
      UndecidedIsLinear(setting, exchanges[..n - 1]);
    }
  }

  lemma {:induction false} UndecidedIsLinear(setting: Setting, exchanges: seq<seq<Symbol>>)
    requires setting == Setting(true, None)
    requires forall i | 0 <= i < |exchanges| :: Decided(setting, exchanges[i]).None?
    ensures ContractAfter(setting, exchanges, LinearPerpetual) == LinearPerpetual
  {
    if exchanges != [] {
      UndecidedIsLinear(setting, exchanges[..|exchanges| - 1]);
    }
  }

  predicate HasSymbol(exchanges: seq<seq<Symbol>>) {
    exists i | 0 <= i < |exchanges| :: exchanges[i] != []
  }

  lemma {:induction false} SetByForced(setting: Setting, exchanges: seq<seq<Symbol>>, initial: ContractType)
    requires setting.isFuture ==> setting.forced.Some?
    ensures ContractAfter(setting, exchanges, initial) ==
      if setting.isFuture && HasSymbol(exchanges) then setting.forced.value else initial
  {
    if exchanges != [] {
      var n := |exchanges| - 1;
      assert forall i | 0 <= i < n :: exchanges[..n][i] == exchanges[i];
      assert HasSymbol(exchanges) <==> HasSymbol(exchanges[..n]) || exchanges[n] != [];
      SetByForced(setting, exchanges[..n], initial);
    }
  }

  /** A forced contract type is taken over as soon as an exchange has a symbol; without futures the type stays. */
  lemma ForcedContract(setting: Setting, exchanges: seq<seq<Symbol>>, initial: ContractType)
    requires setting.isFuture ==> setting.forced.Some?
    ensures ContractAfter(setting, exchanges[..LookedAt(setting, exchanges)], initial) ==
      if setting.isFuture && HasSymbol(exchanges) then setting.forced.value else initial
  {
    var n := LookedAt(setting, exchanges);
    SetByForced(setting, exchanges[..n], initial);
    if setting.isFuture && HasSymbol(exchanges) {
      var i :| 0 <= i < |exchanges| && exchanges[i] != [];
      assert Decided(setting, exchanges[i]).Some?;
      assert exchanges[..n][n - 1] == exchanges[n - 1] != [];
    } else {
      assert forall i | 0 <= i < n :: exchanges[..n][i] == exchanges[i];
    }
  }
}
