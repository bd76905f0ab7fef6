/** `ExchangeRate`: how many DKK buy 100 units of a currency. */
module ExchangeRates {
  import opened Wrappers
  import opened Failures
  import opened Currencies

  /** The invariant the constructor enforces, carried in the type. */
  type PositiveReal = r: real | r > 0.0 witness 1.0

  datatype ExchangeRate = ExchangeRate(currency: Currency, rateToDkk: PositiveReal)

  /** The constructor `ExchangeRate(currency, rateToDkk)`; `None` stands for
      null. The null check comes first. */
  function NewExchangeRate(currency: Option<Currency>, rateToDkk: real): (r: Result<ExchangeRate, Failure>)
    ensures currency.None? ==> r == Err(ArgumentNull("currency"))
    ensures currency.Some? && rateToDkk <= 0.0 ==>
              r == Err(Argument("Exchange rate must be positive", "rateToDkk"))
    ensures r.Ok? <==> currency.Some? && rateToDkk > 0.0
    ensures r.Ok? ==> r.value.currency == currency.value && r.value.rateToDkk == rateToDkk
  {
    if currency.None? then Err(ArgumentNull("currency"))
    else if rateToDkk <= 0.0 then Err(Argument("Exchange rate must be positive", "rateToDkk"))
    else Ok(ExchangeRate(currency.value, rateToDkk))
  }
}
