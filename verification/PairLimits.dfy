/** The limit on the number of traded pairs, applied in place to the currencies of a configuration. */
module PairLimits {
  import opened Options

  datatype Symbol = Pair(name: string) | Wildcard

  /** A currency's entry; either of its keys may be missing. */
  datatype Currency = Currency(name: string, enabled: Option<bool>, pairs: Option<seq<Symbol>>)

  /** The text returned: the last wildcard currency, the limit and the pairs said to be traded. */
  datatype Message = Message(wildcardOf: Option<string>, limit: int, pairs: seq<Symbol>)

  predicate Enabled(c: Currency) {
    c.enabled.None? || c.enabled.value
  }

  function PairsOf(c: Currency): seq<Symbol> {
    if c.pairs.Some? then c.pairs.value else []
  }

  function Disabled(c: Currency): Currency {
    c.(enabled := Some(false))
  }

  /** The pairs in front of the first wildcard. */
  function BeforeWildcard(symbols: seq<Symbol>): (r: seq<Symbol>)
    ensures r <= symbols && Wildcard !in r
    ensures r == symbols <==> Wildcard !in symbols
  {
    if symbols == [] || symbols[0].Wildcard? then []
    else [symbols[0]] + BeforeWildcard(symbols[1..])
  }

  function Kept(symbols: seq<Symbol>, room: nat): (r: seq<Symbol>)
    ensures r <= symbols && |r| <= room
  {
    var front := BeforeWildcard(symbols);
    if |front| <= room then front else front[..room]
  }

  /** One currency, when `used` pairs are already enabled. */
  function LimitedOne(c: Currency, limit: int, used: nat): Currency {
    if !Enabled(c) then c
    else if used >= limit then Disabled(c)
    else
      var kept := c.(pairs := Some(Kept(PairsOf(c), limit - used)));
      if Wildcard in PairsOf(c) then Disabled(kept) else kept
  }

  /** The pairs one currency adds to the enabled ones, a wildcard currency's included. */
  function Taken(c: Currency, limit: int, used: nat): (r: seq<Symbol>)
    ensures |r| <= if used < limit then limit - used else 0
  {
    if !Enabled(c) || used >= limit then [] else Kept(PairsOf(c), limit - used)
  }

  predicate MeetsWildcard(c: Currency, limit: int, used: nat) {
    Enabled(c) && used < limit && Wildcard in PairsOf(c)
  }

  predicate LosesPairs(c: Currency, limit: int, used: nat) {
    Enabled(c) && (used >= limit || Taken(c, limit, used) != PairsOf(c) || Wildcard in PairsOf(c))
  }

  /** The configuration and the local variables after a number of currencies. */
  datatype Pass = Pass(currencies: seq<Currency>, taken: seq<Symbol>, lost: bool, wildcardOf: Option<string>)

  function After(p: Pass, c: Currency, limit: int): Pass {
    Pass(
      p.currencies + [LimitedOne(c, limit, |p.taken|)],
      p.taken + Taken(c, limit, |p.taken|),
      p.lost || LosesPairs(c, limit, |p.taken|),
      if MeetsWildcard(c, limit, |p.taken|) then Some(c.name) else p.wildcardOf)
  }

  function Limited(cs: seq<Currency>, limit: int): (r: Pass)
    ensures |r.currencies| == |cs|
    ensures |r.taken| <= if limit > 0 then limit else 0
  {
    if cs == [] then Pass([], [], false, None)
    else After(Limited(cs[..|cs| - 1], limit), cs[|cs| - 1], limit)
  }

  function MessageFor(p: Pass, limit: int): Option<Message> {
    if p.lost then Some(Message(p.wildcardOf, limit, p.taken)) else None
  }

  /** The pairs that will be traded. */
  function EnabledPairs(cs: seq<Currency>): seq<Symbol> {
    if cs == [] then []
    else EnabledPairs(cs[..|cs| - 1]) + if Enabled(cs[|cs| - 1]) then PairsOf(cs[|cs| - 1]) else []
  }

  /** Never more pairs than the limit, all of them real pairs. */
  lemma {:induction false} EnabledWithinLimit(cs: seq<Currency>, limit: int)
    ensures |EnabledPairs(Limited(cs, limit).currencies)| <= |Limited(cs, limit).taken| <= if limit > 0 then limit else 0
    ensures Wildcard !in EnabledPairs(Limited(cs, limit).currencies)
  {
    if cs != [] {
      var n := |cs| - 1;
      EnabledWithinLimit(cs[..n], limit);
    }
  }

  /** Currencies keep their place and name, pairs are only cut at the end, nothing gets enabled. */
  lemma {:induction false} OnlyCuts(cs: seq<Currency>, limit: int, i: nat)
    requires i < |cs|
    ensures var c := Limited(cs, limit).currencies[i];
      c.name == cs[i].name && PairsOf(c) <= PairsOf(cs[i]) && (Enabled(c) ==> Enabled(cs[i]))
  {
    if i < |cs| - 1 {
      OnlyCuts(cs[..|cs| - 1], limit, i);
    }
  }

  lemma {:induction false} BeforeWildcardLength(symbols: seq<Symbol>, room: nat)
    ensures var kept := Kept(symbols, room);
      && kept <= symbols && Wildcard !in kept && |kept| <= room
      && (|kept| == |symbols| || |kept| == room || symbols[|kept|] == Wildcard)
  {
    BeforeWildcardEnds(symbols);
  }

  lemma {:induction false} BeforeWildcardEnds(symbols: seq<Symbol>)
    ensures var front := BeforeWildcard(symbols); |front| == |symbols| || symbols[|front|] == Wildcard
  {
    if symbols != [] && !symbols[0].Wildcard? {
      BeforeWildcardEnds(symbols[1..]);
    }
  }

  lemma LimitedAt(cs: seq<Currency>, limit: int, i: nat)
    requires i < |cs|
    ensures Limited(cs, limit).currencies[i] == LimitedOne(cs[i], limit, |Limited(cs[..i], limit).taken|)
  {
    LimitedPrefix(cs, limit, i + 1);
    assert cs[..i + 1][..i] == cs[..i];
  }

  lemma {:induction false} LimitedPrefix(cs: seq<Currency>, limit: int, n: nat)
    requires n <= |cs|
    ensures Limited(cs[..n], limit).currencies == Limited(cs, limit).currencies[..n]
  {
    if n == |cs| {
      assert cs[..n] == cs;
    } else {
      LimitedPrefix(cs[..|cs| - 1], limit, n);
      assert cs[..|cs| - 1][..n] == cs[..n];
    }
  }

  /** What becomes of a currency, given how many pairs were enabled before it: a disabled one is left alone,
      one reached without quota is disabled, and another keeps its pairs up to the quota or a wildcard, which
      also disables it. */
  lemma EachCurrency(cs: seq<Currency>, limit: int, i: nat)
    requires i < |cs|
    ensures var c, d, room := cs[i], Limited(cs, limit).currencies[i], limit - |Limited(cs[..i], limit).taken|;
      var pairs := if c.pairs == None then [] else c.pairs.value;
      && (c.enabled == Some(false) ==> d == c)
      && (c.enabled != Some(false) && room <= 0 ==> d == c.(enabled := Some(false)))
      && (c.enabled != Some(false) && room > 0 ==>
        && d.name == c.name && d.enabled == (if Wildcard in pairs then Some(false) else c.enabled)
        && d.pairs.Some? && d.pairs.value <= pairs && Wildcard !in d.pairs.value && |d.pairs.value| <= room
        && (|d.pairs.value| == |pairs| || |d.pairs.value| == room || pairs[|d.pairs.value|] == Wildcard))
  {
    LimitedAt(cs, limit, i);
    var used := |Limited(cs[..i], limit).taken|;
    if used < limit {
      BeforeWildcardLength(PairsOf(cs[i]), limit - used);
    }
  }

  /** A second pass finds what the first one left within the limit: it changes and reports nothing. */
  lemma {:induction false} AppliedTwice(cs: seq<Currency>, limit: int)
    ensures var first := Limited(cs, limit);
      var second := Limited(first.currencies, limit);
      second.currencies == first.currencies && MessageFor(second, limit) == None &&
      second.wildcardOf == None && second.taken == EnabledPairs(first.currencies)
  {
    if cs != [] {
      var n := |cs| - 1;
      AppliedTwice(cs[..n], limit);
      EnabledWithinLimit(cs[..n], limit);
      var p := Limited(cs[..n], limit);
      var c := LimitedOne(cs[n], limit, |p.taken|);
      assert (p.currencies + [c])[..n] == p.currencies;
    }
  }

  /** The number of pairs enabled for currencies that are then disabled for their wildcard. */
  function TakenForWildcards(cs: seq<Currency>, limit: int): nat {
    if cs == [] then 0
    else
      var p := Limited(cs[..|cs| - 1], limit);
      var c := cs[|cs| - 1];
      TakenForWildcards(cs[..|cs| - 1], limit) +
      if MeetsWildcard(c, limit, |p.taken|) then |Taken(c, limit, |p.taken|)| else 0
  }

  lemma {:induction false} EnabledAndForWildcards(cs: seq<Currency>, limit: int)
    ensures var p := Limited(cs, limit);
      |p.taken| == |EnabledPairs(p.currencies)| + TakenForWildcards(cs, limit) &&
      (TakenForWildcards(cs, limit) == 0 ==> p.taken == EnabledPairs(p.currencies))
  {
    if cs != [] {
      var n := |cs| - 1;
      EnabledAndForWildcards(cs[..n], limit);
    }
  }

  /** An enabled currency, reached with quota left, that lists a pair in front of a wildcard. */
  predicate TakesPairFirst(c: Currency, limit: int, used: nat) {
    MeetsWildcard(c, limit, used) && PairsOf(c)[0] != Wildcard
  }

  predicate WildcardTakes(cs: seq<Currency>, limit: int, i: nat)
    requires i < |cs|
  {
    TakesPairFirst(cs[i], limit, |Limited(cs[..i], limit).taken|)
  }

  lemma WildcardTakesBefore(cs: seq<Currency>, limit: int, n: nat, i: nat)
    requires i < n <= |cs|
    ensures WildcardTakes(cs, limit, i) == WildcardTakes(cs[..n], limit, i)
  {
    assert cs[..n][..i] == cs[..i];
  }

  lemma WildcardTakesNow(c: Currency, limit: int, used: nat)
    requires MeetsWildcard(c, limit, used)
    ensures |Taken(c, limit, used)| > 0 <==> TakesPairFirst(c, limit, used)
  {
  }

  lemma {:induction false} SomeWildcardTook(cs: seq<Currency>, limit: int) returns (i: nat)
    requires TakenForWildcards(cs, limit) > 0
    ensures i < |cs| && WildcardTakes(cs, limit, i)
  {
    var n := |cs| - 1;
    if TakenForWildcards(cs[..n], limit) > 0 {
      i := SomeWildcardTook(cs[..n], limit);
      WildcardTakesBefore(cs, limit, n, i);
    } else {
      i := n;
      WildcardTakesNow(cs[n], limit, |Limited(cs[..n], limit).taken|);
    }
  }

  lemma LastTookForWildcard(cs: seq<Currency>, limit: int)
    requires cs != [] && WildcardTakes(cs, limit, |cs| - 1)
    ensures TakenForWildcards(cs, limit) > 0
  {
    WildcardTakesNow(cs[|cs| - 1], limit, |Limited(cs[..|cs| - 1], limit).taken|);
  }

  lemma TakenBefore(cs: seq<Currency>, limit: int)
    requires cs != []
    ensures TakenForWildcards(cs[..|cs| - 1], limit) <= TakenForWildcards(cs, limit)
  {
  }

  lemma {:induction false} TookForWildcard(cs: seq<Currency>, limit: int, i: nat)
    requires i < |cs| && WildcardTakes(cs, limit, i)
    ensures TakenForWildcards(cs, limit) > 0
  {
    if i == |cs| - 1 {
      LastTookForWildcard(cs, limit);
    } else {
      WildcardTakesBefore(cs, limit, |cs| - 1, i);
      TookForWildcard(cs[..|cs| - 1], limit, i);
      TakenBefore(cs, limit);
    }
  }

  /** The pairs a message announces are those that will be traded if and only if no wildcard currency took
      pairs first; it always names the limit. */
  lemma MessageListsTradedPairs(cs: seq<Currency>, limit: int)
    requires MessageFor(Limited(cs, limit), limit).Some?
    ensures var p := Limited(cs, limit); var message := MessageFor(p, limit).value;
      && message.limit == limit
      && (message.pairs == EnabledPairs(p.currencies) <==> !exists i | 0 <= i < |cs| :: WildcardTakes(cs, limit, i))
  {
    EnabledAndForWildcards(cs, limit);
    if TakenForWildcards(cs, limit) > 0 {
      var i := SomeWildcardTook(cs, limit);
    } else {
      forall i | 0 <= i < |cs|
        ensures !WildcardTakes(cs, limit, i)
      {
        if WildcardTakes(cs, limit, i) {
          TookForWildcard(cs, limit, i);
        }
      }
    }
  }

  /** Which currencies are enabled, reached with quota left, and list a wildcard. */
  function WildcardsMet(cs: seq<Currency>, limit: int): (met: seq<bool>)
    ensures |met| == |cs|
  {
    if cs == [] then []
    else
      var n := |cs| - 1;
      WildcardsMet(cs[..n], limit) +
      [Enabled(cs[n]) && Wildcard in PairsOf(cs[n]) && |Limited(cs[..n], limit).taken| < limit]
  }

  function LastName(cs: seq<Currency>, met: seq<bool>): Option<string>
    requires |met| == |cs|
  {
    if cs == [] then None
    else
      var n := |cs| - 1;
      if met[n] then Some(cs[n].name) else LastName(cs[..n], met[..n])
  }

  lemma {:induction false} LastNameAt(cs: seq<Currency>, met: seq<bool>) returns (i: nat)
    requires |met| == |cs|
    ensures if LastName(cs, met).None? then forall j | 0 <= j < |met| :: !met[j]
      else i < |cs| && met[i] && LastName(cs, met) == Some(cs[i].name) && forall j | i < j < |met| :: !met[j]
  {
    var n := |cs| - 1;
    i := 0;
    if n >= 0 && met[n] {
      i := n;
    } else if n >= 0 {
      i := LastNameAt(cs[..n], met[..n]);
      assert forall j | 0 <= j < n :: met[..n][j] == met[j];
    }
  }

  lemma {:induction false} LimitedNamesLast(cs: seq<Currency>, limit: int)
    ensures Limited(cs, limit).wildcardOf == LastName(cs, WildcardsMet(cs, limit))
  {
    if cs != [] {
      var n := |cs| - 1;
      LimitedNamesLast(cs[..n], limit);
      assert WildcardsMet(cs, limit)[..n] == WildcardsMet(cs[..n], limit);
    }
  }

  /** A message names the last currency to have met a wildcard with quota left, and none if there is none. */
  lemma MessageNamesWildcard(cs: seq<Currency>, limit: int) returns (i: nat)
    requires MessageFor(Limited(cs, limit), limit).Some?
    ensures var met, message := WildcardsMet(cs, limit), MessageFor(Limited(cs, limit), limit).value;
      if message.wildcardOf.None? then forall j | 0 <= j < |cs| :: !met[j]
      else i < |cs| && met[i] && message.wildcardOf == Some(cs[i].name) && forall j | i < j < |cs| :: !met[j]
  {
    LimitedNamesLast(cs, limit);
    i := LastNameAt(cs, WildcardsMet(cs, limit));
  }

  predicate SameTrading(before: Currency, after: Currency) {
    PairsOf(after) == PairsOf(before) && Enabled(after) == Enabled(before)
  }

  lemma LosesExactly(c: Currency, limit: int, used: nat)
    ensures LosesPairs(c, limit, used) <==> !SameTrading(c, LimitedOne(c, limit, used))
  {
  }

  predicate AllSame(cs: seq<Currency>, limited: seq<Currency>) {
    |limited| == |cs| && forall i :: 0 <= i < |cs| ==> SameTrading(cs[i], limited[i])
  }

  lemma AllSameOfOneMore(cs: seq<Currency>, limited: seq<Currency>, c: Currency)
    requires cs != [] && |limited| == |cs| - 1
    ensures AllSame(cs, limited + [c]) <==> AllSame(cs[..|cs| - 1], limited) && SameTrading(cs[|cs| - 1], c)
  {
    var n := |cs| - 1;
    assert forall i | 0 <= i < n :: (limited + [c])[i] == limited[i] && cs[..n][i] == cs[i];
    assert AllSame(cs, limited + [c]) ==> SameTrading(cs[n], (limited + [c])[n]);
  }

  lemma LastLost(cs: seq<Currency>, limit: int)
    requires cs != []
    ensures var n := |cs| - 1; var p := Limited(cs[..n], limit);
      Limited(cs, limit).lost == (p.lost || LosesPairs(cs[n], limit, |p.taken|)) &&
      Limited(cs, limit).currencies == p.currencies + [LimitedOne(cs[n], limit, |p.taken|)]
  {
  }

  /** A message is returned if and only if a currency was disabled or lost a pair. */
  lemma {:induction false} MessageOnlyForLosses(cs: seq<Currency>, limit: int)
    ensures var p := Limited(cs, limit); MessageFor(p, limit) == None <==> AllSame(cs, p.currencies)
  {
    if cs != [] {
      var n := |cs| - 1;
      var p := Limited(cs[..n], limit);
      MessageOnlyForLosses(cs[..n], limit);
      LastLost(cs, limit);
      LosesExactly(cs[n], limit, |p.taken|);
      AllSameOfOneMore(cs, p.currencies, LimitedOne(cs[n], limit, |p.taken|));
    }
  }

  /** No pair is given up early: when something was lost and no wildcard was met, the limit is reached. */
  lemma {:induction false} LimitIsUsedUp(cs: seq<Currency>, limit: int)
    requires Limited(cs, limit).lost && Limited(cs, limit).wildcardOf == None
    ensures |EnabledPairs(Limited(cs, limit).currencies)| == if limit > 0 then limit else 0
  {
    LimitIsReached(cs, limit);
    EnabledAndForWildcards(cs, limit);
  }

  lemma {:induction false} LimitIsReached(cs: seq<Currency>, limit: int)
    requires Limited(cs, limit).wildcardOf == None
    ensures TakenForWildcards(cs, limit) == 0
    ensures Limited(cs, limit).lost ==> |Limited(cs, limit).taken| >= limit
  {
    if cs != [] {
      LimitIsReached(cs[..|cs| - 1], limit);
    }
  }

  lemma {:induction false} BeforeWildcardAt(symbols: seq<Symbol>, i: nat)
    requires i <= |symbols| && Wildcard !in symbols[..i]
    requires i == |symbols| || symbols[i].Wildcard?
    ensures BeforeWildcard(symbols) == symbols[..i]
  {
    if i > 0 {
      assert symbols[..i] == [symbols[0]] + symbols[1..][..i - 1];
      BeforeWildcardAt(symbols[1..], i - 1);
    }
  }

  lemma OneCurrencyMore(cs: seq<Currency>, limit: int, i: nat)
    requires i < |cs|
    ensures Limited(cs[..i + 1], limit) == After(Limited(cs[..i], limit), cs[i], limit)
  {
    assert cs[..i + 1][..i] == cs[..i];
  }

  lemma Replaced(currencies: seq<Currency>, i: nat, c: Currency)
    requires i < |currencies|
    ensures currencies[i := c][..i + 1] == currencies[..i] + [c]
    ensures currencies[i := c][i + 1..] == currencies[i..][1..]
  {
  }

  class TradingConfig {
    var currencies: seq<Currency>

    constructor (currencies: seq<Currency>)
      ensures this.currencies == currencies
    {
      this.currencies := currencies;
    }

    /** The loop over the pairs of one currency. */
    static method LimitPairs(symbols: seq<Symbol>, limit: int, enabledSymbols: seq<Symbol>)
      returns (updated: seq<Symbol>, wildcard: bool, disabled: bool)
      requires |enabledSymbols| < limit
      ensures updated == Kept(symbols, limit - |enabledSymbols|)
      ensures wildcard == (Wildcard in symbols)
      ensures disabled == (wildcard || updated != symbols)
    {
      ghost var room := limit - |enabledSymbols|;
      updated, wildcard, disabled := [], false, false;
      var i := 0;
      while i < |symbols|
        invariant i <= |symbols| && !wildcard && Wildcard !in symbols[..i]
        invariant updated == symbols[..if i < room then i else room]
        invariant disabled == (i > room)
      {
        if symbols[i].Wildcard? {
          wildcard := true;
          disabled := true;
          break;
        } else if |enabledSymbols| + |updated| < limit {
          updated := updated + [symbols[i]];
        } else {
          disabled := true;
        }
        i := i + 1;
      }
      BeforeWildcardAt(symbols, i);
    }

    /** The body of the loop over the currencies. */
    static method LimitCurrency(c: Currency, limit: int, enabledSymbols: seq<Symbol>)
      returns (limited: Currency, taken: seq<Symbol>, wildcard: bool, disabled: bool)
      ensures limited == LimitedOne(c, limit, |enabledSymbols|)
      ensures taken == Taken(c, limit, |enabledSymbols|)
      ensures wildcard == MeetsWildcard(c, limit, |enabledSymbols|)
      ensures disabled == LosesPairs(c, limit, |enabledSymbols|)
    {
      limited, taken, wildcard, disabled := c, [], false, false;
      if Enabled(c) {
        if |enabledSymbols| >= limit {
          limited := Disabled(c);
          disabled := true;
        } else {
          taken, wildcard, disabled := LimitPairs(PairsOf(c), limit, enabledSymbols);
          if wildcard {
            limited := Disabled(limited);
          }
          limited := limited.(pairs := Some(taken));
        }
      }
    }

    /** What is kept of one currency in the local variables. */
    static method AddCurrency(c: Currency, limit: int, enabledSymbols: seq<Symbol>, hasDisabled: bool,
        wildcardOf: Option<string>, ghost p: Pass)
      returns (limited: Currency, enabled: seq<Symbol>, disabled: bool, wildcard: Option<string>)
      requires enabledSymbols == p.taken && hasDisabled == p.lost && wildcardOf == p.wildcardOf
      ensures After(p, c, limit) == Pass(p.currencies + [limited], enabled, disabled, wildcard)
    {
      var taken, meets, loses;
      limited, taken, meets, loses := LimitCurrency(c, limit, enabledSymbols);
      enabled, disabled := enabledSymbols + taken, hasDisabled || loses;
      wildcard := if meets then Some(limited.name) else wildcardOf;
    }

    /** `_apply_symbols_limits` */
    method ApplySymbolsLimits(limit: int) returns (message: Option<Message>)
      modifies this
      ensures currencies == Limited(old(currencies), limit).currencies
      ensures message == MessageFor(Limited(old(currencies), limit), limit)
    {
      var enabledSymbols: seq<Symbol> := [];
      var hasDisabled := false;
      var wildcardOf := None;
      ghost var cs := currencies;
      ghost var p := Limited(cs[..0], limit);
      var i := 0;
      while i < |currencies|
        invariant i <= |cs| && p == Limited(cs[..i], limit)
        invariant |currencies| == |cs| && currencies[..i] == p.currencies && currencies[i..] == cs[i..]
        invariant enabledSymbols == p.taken && hasDisabled == p.lost && wildcardOf == p.wildcardOf
      {
        assert currencies[i] == currencies[i..][0] == cs[i];
        OneCurrencyMore(cs, limit, i);
        var c;
        c, enabledSymbols, hasDisabled, wildcardOf :=
          AddCurrency(currencies[i], limit, enabledSymbols, hasDisabled, wildcardOf, p);
        Replaced(currencies, i, c);
        p := Pass(p.currencies + [c], enabledSymbols, hasDisabled, wildcardOf);
        currencies := currencies[i := c];
        i := i + 1;
      }
      assert cs[..i] == cs && currencies[..i] == currencies;
      message := if hasDisabled then Some(Message(wildcardOf, limit, enabledSymbols)) else None;
    }
  }
}
