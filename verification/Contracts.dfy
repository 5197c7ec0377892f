/** When a broker's instrument is the one a strategy trades. */
module Contracts {
  import opened Types

  function UpperChar(c: char): char {
    if 'a' <= c <= 'z' then (c as int - 32) as char else c
  }

  function Upper(s: string): string {
    if s == "" then "" else [UpperChar(s[0])] + Upper(s[1..])
  }

  /** Letter case is ignored by comparing upper-case forms. */
  predicate SameText(a: string, b: string) { Upper(a) == Upper(b) }

  /** The same letter, or the small and the capital form of one. */
  predicate SameLetter(c: char, d: char) {
    c == d || ('a' <= c <= 'z' && d as int == c as int - 32) || ('a' <= d <= 'z' && c as int == d as int - 32)
  }

  /** Texts are the same when they are letter by letter, whatever the case. */
  lemma {:induction false} SameTextIff(a: string, b: string)
    ensures SameText(a, b) <==> |a| == |b| && forall k :: 0 <= k < |a| ==> SameLetter(a[k], b[k])
  {
    if a != "" && b != "" {
      var x, y := a[1..], b[1..];
      SameTextIff(x, y);
      assert SameLetter(a[0], b[0]) <==> UpperChar(a[0]) == UpperChar(b[0]);
      hide UpperChar, SameLetter;
      assert Upper(a)[0] == UpperChar(a[0]) && Upper(b)[0] == UpperChar(b[0]);
      assert Upper(a)[1..] == Upper(x) && Upper(b)[1..] == Upper(y);
      assert SameText(a, b) <==> UpperChar(a[0]) == UpperChar(b[0]) && SameText(x, y);
      if |a| == |b| && forall k :: 0 <= k < |a| ==> SameLetter(a[k], b[k]) {
        forall k | 0 <= k < |x| ensures SameLetter(x[k], y[k]) { assert a[k + 1] == x[k] && b[k + 1] == y[k]; }
      }
      if |x| == |y| && SameLetter(a[0], b[0]) && forall k :: 0 <= k < |x| ==> SameLetter(x[k], y[k]) {
        forall k | 0 <= k < |a| ensures SameLetter(a[k], b[k]) { assert k > 0 ==> a[k] == x[k - 1] && b[k] == y[k - 1]; }
      }
    }
  }

  predicate SameUnderlying(a: Instrument, b: Instrument) {
    SameText(a.assetClass, b.assetClass) && SameText(a.symbol, b.symbol)
  }

  function Text(s: Option<string>): string { s.GetOr("") }

  /** Missing or smart-routed exchanges and missing currencies match anything. */
  predicate SimpleFieldsMatch(a: Instrument, b: Instrument) {
    && (Text(a.currency) != "" && Text(b.currency) != "" ==> SameText(a.currency.value, b.currency.value))
    && (Text(a.exchange) != "" && Text(b.exchange) != ""
        && !SameText(a.exchange.value, "SMART") && !SameText(b.exchange.value, "SMART")
        ==> SameText(a.exchange.value, b.exchange.value))
  }

  predicate BothText(a: Option<string>, b: Option<string>) {
    a.Some? && b.Some? && SameText(a.value, b.value)
  }

  predicate BothSame<T(==)>(a: Option<T>, b: Option<T>) { a.Some? && a == b }

  predicate IsFuture(i: Instrument) { SameText(i.assetClass, "future") }

  predicate IsOption(i: Instrument) { SameText(i.assetClass, "option") }

  predicate SameMonth(a: Option<Expiry>, b: Option<Expiry>) {
    a.Some? && b.Some? && a.value.year == b.value.year && a.value.month == b.value.month
  }

  /** Derivatives must agree on every contract field, and a missing one never agrees. */
  predicate InstrumentsMatch(position: Instrument, strategy: Instrument) {
    && SameUnderlying(position, strategy)
    && (if IsFuture(position) then
          && SimpleFieldsMatch(position, strategy)
          && BothText(position.currency, strategy.currency)
          && SameMonth(position.expiry, strategy.expiry)
          && position.multiplier == strategy.multiplier
        else if IsOption(position) then
          && BothText(position.exchange, strategy.exchange)
          && BothText(position.currency, strategy.currency)
          && BothSame(position.expiry, strategy.expiry)
          && BothSame(position.strike, strategy.strike)
          && BothText(position.right, strategy.right)
          && position.multiplier == strategy.multiplier
        else SimpleFieldsMatch(position, strategy))
  }

  /** Every field the contract type needs is given. */
  predicate FullySpecified(i: Instrument) {
    && (IsFuture(i) ==> i.currency.Some? && i.expiry.Some?)
    && (IsOption(i) && !IsFuture(i) ==>
          i.exchange.Some? && i.currency.Some? && i.expiry.Some? && i.strike.Some? && i.right.Some?)
  }

  /** An instrument matches itself exactly when no required field is missing. */
  lemma MatchesItself(i: Instrument)
    ensures InstrumentsMatch(i, i) <==> FullySpecified(i)
  {
  }

  lemma MatchIsSymmetric(a: Instrument, b: Instrument)
    ensures InstrumentsMatch(a, b) <==> InstrumentsMatch(b, a)
  {
    hide Upper;
  }

  function Equity(symbol: string, exchange: Option<string>): Instrument {
    Instrument("equity", symbol, exchange, None, None, None, None, 1.0)
  }

  /** Matching is not transitive: a smart-routed instrument matches two exchanges that do not match each other. */
  lemma MatchIsNotTransitive()
    ensures var a, smart, b := Equity("X", Some("A")), Equity("X", Some("SMART")), Equity("X", Some("B"));
            InstrumentsMatch(a, smart) && InstrumentsMatch(smart, b) && !InstrumentsMatch(a, b)
  {
    OtherClasses();
    var a, smart, b := Equity("X", Some("A")), Equity("X", Some("SMART")), Equity("X", Some("B"));
    assert SameUnderlying(a, smart) && SameUnderlying(smart, b) && SameUnderlying(a, b);
    assert !IsFuture(a) && !IsOption(a) && !IsFuture(smart) && !IsOption(smart);
    hide Upper;
  }

  lemma OtherClasses()
    ensures !SameText("equity", "future") && !SameText("equity", "option")
    ensures !SameText("A", "B") && !SameText("A", "SMART") && !SameText("B", "SMART")
  {
    FirstLetters("equity", "future");
    FirstLetters("equity", "option");
    FirstLetters("A", "B");
    FirstLetters("A", "SMART");
    FirstLetters("B", "SMART");
  }

  lemma FirstLetters(a: string, b: string)
    requires a != "" && b != "" && UpperChar(a[0]) != UpperChar(b[0])
    ensures !SameText(a, b)
  {
    assert Upper(a)[0] == UpperChar(a[0]) && Upper(b)[0] == UpperChar(b[0]);
  }

  // ---------------------------------------------------------------- matching as equality

  function UpperText(s: Option<string>): Option<string> {
    if s.None? then None else Some(Upper(s.value))
  }

  /**
   What is compared of an instrument: letter case never, the contract fields
   only of derivatives, and of a future's expiry not the day.
   */
  function Compared(i: Instrument): Instrument {
    Instrument(
      Upper(i.assetClass), Upper(i.symbol), UpperText(i.exchange), UpperText(i.currency),
      if i.expiry.None? || !(IsFuture(i) || IsOption(i)) then None
      else if IsFuture(i) then Some(i.expiry.value.(day := 0))
      else i.expiry,
      if IsOption(i) then i.strike else None,
      if IsOption(i) then UpperText(i.right) else None,
      if IsFuture(i) || IsOption(i) then i.multiplier else 1.0)
  }

  /**
   An instrument without what the other leaves open: an exchange either of them
   does not state, except of options, and a currency either of them does not
   name, except of derivatives.
   */
  function Stated(i: Instrument, other: Instrument): Instrument {
    if IsOption(i) then i
    else
      i.(exchange := if StatesExchange(i) && StatesExchange(other) then i.exchange else None,
         currency := if IsFuture(i) || (Text(i.currency) != "" && Text(other.currency) != "") then i.currency else None)
  }

  /**
   Two instruments match exactly when no field their type needs is missing and
   they are equal in everything that is compared and that both state.
   */
  lemma MatchIsEquality(a: Instrument, b: Instrument)
    ensures InstrumentsMatch(a, b)
       <==> FullySpecified(a) && FullySpecified(b) && Compared(Stated(a, b)) == Compared(Stated(b, a))
  {
    OptionIsNoFuture(a);
    OptionIsNoFuture(b);
    hide Upper;
  }

  // ---------------------------------------------------------------- exactly which instruments carry a match over

  ghost predicate CarriesOver(b: Instrument) {
    forall a, c :: InstrumentsMatch(a, b) && InstrumentsMatch(b, c) ==> InstrumentsMatch(a, c)
  }

  /** An exchange of its own, neither missing nor smart-routed. */
  predicate StatesExchange(i: Instrument) {
    Text(i.exchange) != "" && !SameText(i.exchange.value, "SMART")
  }

  /**
   Options match exactly; a future with a required field missing matches
   nothing; others must state what matches anything when it is missing.
   */
  predicate Pinned(b: Instrument) {
    || IsOption(b)
    || (IsFuture(b) && !FullySpecified(b))
    || (StatesExchange(b) && (IsFuture(b) || Text(b.currency) != ""))
  }

  lemma PinnedCarries(a: Instrument, b: Instrument, c: Instrument)
    requires Pinned(b) && InstrumentsMatch(a, b) && InstrumentsMatch(b, c)
    ensures InstrumentsMatch(a, c)
  {
    hide Upper;
    OptionIsNoFuture(b);
  }

  lemma OptionIsNoFuture(b: Instrument)
    ensures !(IsOption(b) && IsFuture(b))
  {
    FirstLetters("option", "future");
  }

  /** Different exchanges, or different currencies, on either side of an instrument that leaves them open. */
  lemma OpenDoesNotCarry(b: Instrument) returns (a: Instrument, c: Instrument)
    requires !Pinned(b)
    ensures InstrumentsMatch(a, b) && InstrumentsMatch(b, c) && !InstrumentsMatch(a, c)
  {
    OtherClasses();
    hide Upper;
    if StatesExchange(b) {
      a, c := b.(currency := Some("A")), b.(currency := Some("B"));
    } else {
      a, c := b.(exchange := Some("A")), b.(exchange := Some("B"));
    }
  }

  /** Matching carries over through an instrument exactly when it is pinned. */
  lemma CarriesOverIff(b: Instrument)
    ensures CarriesOver(b) <==> Pinned(b)
  {
    hide InstrumentsMatch, Pinned;
    if Pinned(b) {
      forall a, c | InstrumentsMatch(a, b) && InstrumentsMatch(b, c) ensures InstrumentsMatch(a, c) {
        PinnedCarries(a, b, c);
      }
    } else {
      var a, c := OpenDoesNotCarry(b);
    }
  }
}
