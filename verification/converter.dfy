/** `CurrencyConverter.Convert`: converts an amount of the pair's main
    currency into its money currency through the DKK rates of a rate
    provider. */
module Converter {
  import opened Wrappers
  import opened Failures
  import opened Currencies
  import opened ExchangeRates
  import opened Pairs

  /** A rate provider (`IExchangeRateProvider.GetExchangeRate`): the rate for
      a code, or null. */
  type Provider = string -> Option<ExchangeRate>

  /** The outcome of one `Convert` call together with the codes it asked
      the provider for, in the order it asked. */
  datatype Conversion = Conversion(outcome: Result<real, Failure>, lookups: seq<string>)

  /** `amount` of a currency worth `mainRate` DKK per 100, expressed in a
      currency worth `moneyRate` DKK per 100. */
  function CrossValue(amount: real, mainRate: PositiveReal, moneyRate: PositiveReal): real {
    amount * mainRate / moneyRate
  }

  const NegativeAmount: Failure := Argument("Amount cannot be negative", "amount")

  /** `Convert(pair, amount)`. The amount is checked first; equal codes
      short-circuit without a lookup; otherwise the main rate is looked up
      before the money rate, and the first missing one is reported. The
      result is the amount's DKK value divided by the money rate. */
  function Convert(pair: Pair, amount: real, provider: Provider): (c: Conversion)
    ensures amount < 0.0 ==> c == Conversion(Err(NegativeAmount), [])
    ensures amount >= 0.0 && pair.main.isoCode == pair.money.isoCode ==>
              c == Conversion(Ok(amount), [])
    ensures amount >= 0.0 && pair.main.isoCode != pair.money.isoCode ==>
              var main, money := pair.main.isoCode, pair.money.isoCode;
              match provider(main)
              case None => c == Conversion(Err(NotFound(main)), [main])
              case Some(mainRate) =>
                match provider(money)
                case None => c == Conversion(Err(NotFound(money)), [main, money])
                case Some(moneyRate) =>
                  c == Conversion(Ok(CrossValue(amount, mainRate.rateToDkk, moneyRate.rateToDkk)),
                                  [main, money])
  {
    if amount < 0.0 then Conversion(Err(NegativeAmount), [])
    else if pair.main.isoCode == pair.money.isoCode then Conversion(Ok(amount), [])
    else
      var main, money := pair.main.isoCode, pair.money.isoCode;
      match provider(main)
      case None => Conversion(Err(NotFound(main)), [main])
      case Some(mainRate) =>
        match provider(money)
        case None => Conversion(Err(NotFound(money)), [main, money])
        case Some(moneyRate) =>
          var dkkAmount := (amount / 100.0) * mainRate.rateToDkk;
          var result := dkkAmount / (moneyRate.rateToDkk / 100.0);
          HundredthsCancel(amount, mainRate.rateToDkk, moneyRate.rateToDkk);
          assert result == CrossValue(amount, mainRate.rateToDkk, moneyRate.rateToDkk);
          Conversion(Ok(result), [main, money])
  }

  /** Going through DKK hundredths is the plain cross rate. */
  lemma HundredthsCancel(amount: real, mainRate: real, moneyRate: real)
    requires moneyRate > 0.0
    ensures (amount / 100.0) * mainRate / (moneyRate / 100.0) == amount * mainRate / moneyRate
  {
    calc {
      (amount / 100.0) * mainRate / (moneyRate / 100.0);
      (amount * mainRate / 100.0) / (moneyRate / 100.0);
      (amount * mainRate / 100.0) * (100.0 / moneyRate);
      amount * mainRate / moneyRate;
    }
  }

  /** A negative amount fails before anything else, whatever the pair,
      even when both codes are equal. */
  lemma NegativeFailsFirst(pair: Pair, amount: real, provider: Provider)
    requires amount < 0.0
    ensures Convert(pair, amount, provider).outcome.Err?
    ensures Convert(pair, amount, provider).outcome.error == NegativeAmount
    ensures Convert(pair, amount, provider).lookups == []
  {
  }

  /** Equal codes give the amount back and never consult the provider:
      any two providers give the same conversion. */
  lemma SameCurrencyIsIdentity(pair: Pair, amount: real, p1: Provider, p2: Provider)
    requires amount >= 0.0 && pair.main.isoCode == pair.money.isoCode
    ensures Convert(pair, amount, p1).outcome == Ok(amount)
    ensures Convert(pair, amount, p1).lookups == []
    ensures Convert(pair, amount, p1) == Convert(pair, amount, p2)
  {
  }

  /** Not-found reporting follows lookup order: an unknown main code is
      reported even when the money code is unknown too. */
  lemma MainReportedFirst(pair: Pair, amount: real, provider: Provider)
    requires amount >= 0.0 && pair.main.isoCode != pair.money.isoCode
    requires provider(pair.main.isoCode).None?
    ensures Convert(pair, amount, provider).outcome == Err(NotFound(pair.main.isoCode))
    ensures Convert(pair, amount, provider).lookups == [pair.main.isoCode]
  {
  }

  /** A converted amount is never negative, zero converts to zero, and a
      conversion between different codes asked for both rates. */
  lemma {:induction false} ConvertedIsNonNegative(pair: Pair, amount: real, provider: Provider)
    requires Convert(pair, amount, provider).outcome.Ok?
    ensures Convert(pair, amount, provider).outcome.value >= 0.0
    ensures amount == 0.0 ==> Convert(pair, amount, provider).outcome.value == 0.0
    ensures pair.main.isoCode != pair.money.isoCode ==>
              Convert(pair, amount, provider).lookups == [pair.main.isoCode, pair.money.isoCode]
  {
    if pair.main.isoCode != pair.money.isoCode {
      var m := provider(pair.main.isoCode).value.rateToDkk;
      var y := provider(pair.money.isoCode).value.rateToDkk;
      assert amount * m >= 0.0;
    }
  }

  /** Converting into the pivot (a money rate of 100) gives the amount's
      DKK value. */
  lemma IntoPivot(pair: Pair, amount: real, provider: Provider)
    requires amount >= 0.0 && pair.main.isoCode != pair.money.isoCode
    requires provider(pair.main.isoCode).Some?
    requires provider(pair.money.isoCode).Some?
    requires provider(pair.money.isoCode).value.rateToDkk == 100.0
    ensures Convert(pair, amount, provider).outcome
            == Ok(amount * provider(pair.main.isoCode).value.rateToDkk / 100.0)
  {
    BothFound(pair, amount, provider);
  }

  /** The pair read the other way round. */
  function Swap(pair: Pair): Pair {
    Pair(pair.money, pair.main)
  }

  /** Both rates found: the plain cross rate. */
  lemma BothFound(pair: Pair, amount: real, provider: Provider)
    requires amount >= 0.0 && pair.main.isoCode != pair.money.isoCode
    requires provider(pair.main.isoCode).Some? && provider(pair.money.isoCode).Some?
    ensures Convert(pair, amount, provider).outcome
            == Ok(CrossValue(amount, provider(pair.main.isoCode).value.rateToDkk,
                                  provider(pair.money.isoCode).value.rateToDkk))
  {
  }

  /** Converting back undoes a conversion: exact arithmetic loses nothing. */
  lemma {:induction false} ConvertBack(pair: Pair, amount: real, provider: Provider)
    requires Convert(pair, amount, provider).outcome.Ok?
    ensures Convert(Swap(pair), Convert(pair, amount, provider).outcome.value, provider).outcome
            == Ok(amount)
  {
    if pair.main.isoCode != pair.money.isoCode {
      var m := provider(pair.main.isoCode).value.rateToDkk;
      var y := provider(pair.money.isoCode).value.rateToDkk;
      var v := Convert(pair, amount, provider).outcome.value;
      ConvertedIsNonNegative(pair, amount, provider);
      BothFound(pair, amount, provider);
      SwappedFound(pair, v, provider);
      RatesCancel(amount, m, y);
    }
  }

  /** `BothFound` for the swapped pair, in the original pair's terms. */
  lemma SwappedFound(pair: Pair, amount: real, provider: Provider)
    requires amount >= 0.0 && pair.main.isoCode != pair.money.isoCode
    requires provider(pair.main.isoCode).Some? && provider(pair.money.isoCode).Some?
    ensures Convert(Swap(pair), amount, provider).outcome
            == Ok(CrossValue(amount, provider(pair.money.isoCode).value.rateToDkk,
                                  provider(pair.main.isoCode).value.rateToDkk))
  {
    BothFound(Swap(pair), amount, provider);
  }

  lemma RatesCancel(amount: real, m: PositiveReal, y: PositiveReal)
    ensures CrossValue(CrossValue(amount, m, y), y, m) == amount
  {
    calc {
      (amount * m / y) * y / m;
      amount * m / m;
      amount;
    }
  }
}
