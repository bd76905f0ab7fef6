/** `Currency`: an ISO code, stored upper-cased, and a display name. */
module Currencies {
  import opened Wrappers
  import opened Text
  import opened Failures

  datatype Currency = Currency(isoCode: string, name: string)

  /** What every constructed currency satisfies: neither field is blank and
      the code is already upper case. */
  predicate Valid(c: Currency) {
    && !AllWhiteSpace(c.isoCode)
    && IsUpper(c.isoCode)
    && !AllWhiteSpace(c.name)
  }

  /** The constructor `Currency(isoCode, name)`; `None` stands for null. */
  function NewCurrency(isoCode: Option<string>, name: Option<string>): (r: Result<Currency, Failure>)
    ensures NullOrWhiteSpace(isoCode) ==>
              r == Err(Argument("ISO code cannot be null or empty", "isoCode"))
    ensures !NullOrWhiteSpace(isoCode) && NullOrWhiteSpace(name) ==>
              r == Err(Argument("Name cannot be null or empty", "name"))
    ensures r.Ok? <==> !NullOrWhiteSpace(isoCode) && !NullOrWhiteSpace(name)
    ensures r.Ok? ==>
              && Valid(r.value)
              && EqualsIgnoreCase(r.value.isoCode, isoCode.value)
              && r.value.name == name.value
  {
    if NullOrWhiteSpace(isoCode) then
      Err(Argument("ISO code cannot be null or empty", "isoCode"))
    else if NullOrWhiteSpace(name) then
      Err(Argument("Name cannot be null or empty", "name"))
    else
      var code := Upper(isoCode.value);
      UpperIdempotent(isoCode.value);
      UpperKeepsWhiteSpace(isoCode.value);
      Ok(Currency(code, name.value))
  }

  /** `Equals`: identity is the ISO code alone. */
  predicate SameCurrency(a: Currency, b: Currency) {
    a.isoCode == b.isoCode
  }

  /** `ToString`. */
  function CurrencyText(c: Currency): string {
    c.isoCode
  }

  /** `GetHashCode`, for whatever string hash the runtime uses. */
  function HashCode(c: Currency, stringHash: string -> int): int {
    stringHash(c.isoCode)
  }

  /** Upper-casing the stored code again changes nothing. */
  lemma StoredCodeIsUpper(isoCode: string, name: string)
    requires NewCurrency(Some(isoCode), Some(name)).Ok?
    ensures var c := NewCurrency(Some(isoCode), Some(name)).value;
            Upper(c.isoCode) == c.isoCode && c.isoCode == Upper(isoCode)
  {
  }

  /** Equality is an equivalence relation. */
  lemma SameCurrencyIsEquivalence(a: Currency, b: Currency, c: Currency)
    ensures SameCurrency(a, a)
    ensures SameCurrency(a, b) ==> SameCurrency(b, a)
    ensures SameCurrency(a, b) && SameCurrency(b, c) ==> SameCurrency(a, c)
  {
  }

  /** Two constructed currencies are equal exactly when the codes they were
      given agree ignoring case, whatever their names. */
  lemma ConstructedEquality(code1: string, name1: string, code2: string, name2: string)
    requires NewCurrency(Some(code1), Some(name1)).Ok?
    requires NewCurrency(Some(code2), Some(name2)).Ok?
    ensures SameCurrency(NewCurrency(Some(code1), Some(name1)).value,
                         NewCurrency(Some(code2), Some(name2)).value)
            <==> EqualsIgnoreCase(code1, code2)
  {
  }

  /** Equal currencies render and hash alike. */
  lemma SameCurrencyAgrees(a: Currency, b: Currency, stringHash: string -> int)
    requires SameCurrency(a, b)
    ensures CurrencyText(a) == CurrencyText(b)
    ensures HashCode(a, stringHash) == HashCode(b, stringHash)
  {
  }

  /** `ToString` of a constructed currency is its upper-case code. */
  lemma CurrencyTextIsCode(c: Currency)
    requires Valid(c)
    ensures CurrencyText(c) == c.isoCode && IsUpper(CurrencyText(c))
  {
  }
}
