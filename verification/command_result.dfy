/** `ExchangeCommandResult`: the outcome of one command. The C# class keeps it
    as one object with three flags and five optional fields; here it is a
    four-variant datatype, and `ToFlags` derives the C# object from it. */
module CommandResults {
  import opened Wrappers

  datatype CommandResult =
    | Success(originalAmount: real, mainCurrencyCode: string,
              convertedAmount: real, moneyCurrencyCode: string)
    | InvalidFormat(errorMessage: string)
    | CurrencyNotFound(notFoundCurrencyCode: string)
    | Error(errorMessage: string)

  /** The C# result object: its nine properties, `None` for null. */
  datatype Flags = Flags(
    isSuccess: bool,
    errorMessage: Option<string>,
    originalAmount: Option<real>,
    mainCurrencyCode: Option<string>,
    convertedAmount: Option<real>,
    moneyCurrencyCode: Option<string>,
    isInvalidFormat: bool,
    isCurrencyNotFound: bool,
    notFoundCurrencyCode: Option<string>)

  /** `new ExchangeCommandResult()`: every property at its default. */
  const Blank: Flags := Flags(false, None, None, None, None, None, false, false, None)

  /** At most one of the three flags is set. */
  predicate AtMostOneFlag(f: Flags) {
    && !(f.isSuccess && f.isInvalidFormat)
    && !(f.isSuccess && f.isCurrencyNotFound)
    && !(f.isInvalidFormat && f.isCurrencyNotFound)
  }

  /** No amount and no pair code is present. */
  predicate NoConversionData(f: Flags) {
    && f.originalAmount.None? && f.convertedAmount.None?
    && f.mainCurrencyCode.None? && f.moneyCurrencyCode.None?
  }

  /** The factory `Success(originalAmount, mainCurrency, convertedAmount,
      moneyCurrency)`. */
  function SuccessFlags(originalAmount: real, mainCurrency: string,
                        convertedAmount: real, moneyCurrency: string): (f: Flags)
    ensures f.isSuccess && !f.isInvalidFormat && !f.isCurrencyNotFound
    ensures f.errorMessage.None? && f.notFoundCurrencyCode.None?
    ensures && f.originalAmount == Some(originalAmount) && f.mainCurrencyCode == Some(mainCurrency)
            && f.convertedAmount == Some(convertedAmount) && f.moneyCurrencyCode == Some(moneyCurrency)
  {
    Blank.(isSuccess := true,
           originalAmount := Some(originalAmount),
           mainCurrencyCode := Some(mainCurrency),
           convertedAmount := Some(convertedAmount),
           moneyCurrencyCode := Some(moneyCurrency))
  }

  /** The factory `InvalidFormat(errorMessage)`. */
  function InvalidFormatFlags(errorMessage: string): (f: Flags)
    ensures !f.isSuccess && f.isInvalidFormat && !f.isCurrencyNotFound
    ensures NoConversionData(f) && f.notFoundCurrencyCode.None?
    ensures f.errorMessage == Some(errorMessage)
  {
    Blank.(isSuccess := false, isInvalidFormat := true, errorMessage := Some(errorMessage))
  }

  /** The factory `CurrencyNotFound(currencyCode)`. */
  function CurrencyNotFoundFlags(currencyCode: string): (f: Flags)
    ensures !f.isSuccess && !f.isInvalidFormat && f.isCurrencyNotFound
    ensures NoConversionData(f) && f.errorMessage.None?
    ensures f.notFoundCurrencyCode == Some(currencyCode)
  {
    Blank.(isSuccess := false, isCurrencyNotFound := true, notFoundCurrencyCode := Some(currencyCode))
  }

  /** The factory `Error(errorMessage)`. */
  function ErrorFlags(errorMessage: string): (f: Flags)
    ensures !f.isSuccess && !f.isInvalidFormat && !f.isCurrencyNotFound
    ensures NoConversionData(f) && f.notFoundCurrencyCode.None?
    ensures f.errorMessage == Some(errorMessage)
  {
    Blank.(isSuccess := false, errorMessage := Some(errorMessage))
  }

  /** The flag view of a result, read off its variant field by field. */
  function ToFlags(r: CommandResult): (f: Flags)
    ensures AtMostOneFlag(f)
    ensures !r.Success? ==> NoConversionData(f)
    ensures f.isSuccess <==> r.Success?
  {
    Flags(
      isSuccess := r.Success?,
      errorMessage := if r.InvalidFormat? || r.Error? then Some(r.errorMessage) else None,
      originalAmount := if r.Success? then Some(r.originalAmount) else None,
      mainCurrencyCode := if r.Success? then Some(r.mainCurrencyCode) else None,
      convertedAmount := if r.Success? then Some(r.convertedAmount) else None,
      moneyCurrencyCode := if r.Success? then Some(r.moneyCurrencyCode) else None,
      isInvalidFormat := r.InvalidFormat?,
      isCurrencyNotFound := r.CurrencyNotFound?,
      notFoundCurrencyCode := if r.CurrencyNotFound? then Some(r.notFoundCurrencyCode) else None)
  }

  /** The flag view agrees with the factory that builds each variant. */
  lemma FlagsMatchFactories(r: CommandResult)
    ensures match r
            case Success(a, m, c, y) => ToFlags(r) == SuccessFlags(a, m, c, y)
            case InvalidFormat(msg) => ToFlags(r) == InvalidFormatFlags(msg)
            case CurrencyNotFound(code) => ToFlags(r) == CurrencyNotFoundFlags(code)
            case Error(msg) => ToFlags(r) == ErrorFlags(msg)
  {
  }

  /** Reads a result object the way its consumer does: success first, then
      not-found, then invalid format, and otherwise a general error. */
  function FromFlags(f: Flags): CommandResult {
    if f.isSuccess then
      Success(f.originalAmount.GetOr(0.0), f.mainCurrencyCode.GetOr([]),
              f.convertedAmount.GetOr(0.0), f.moneyCurrencyCode.GetOr([]))
    else if f.isCurrencyNotFound then CurrencyNotFound(f.notFoundCurrencyCode.GetOr([]))
    else if f.isInvalidFormat then InvalidFormat(f.errorMessage.GetOr([]))
    else Error(f.errorMessage.GetOr([]))
  }

  /** The flag view loses nothing: reading it back gives the same result. */
  lemma FlagsRoundTrip(r: CommandResult)
    ensures FromFlags(ToFlags(r)) == r
  {
  }
}
