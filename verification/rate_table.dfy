/** `HardcodedExchangeRateProvider`: the fixed table of DKK rates, looked up
    ignoring case. A rate is the number of DKK that buy 100 units. */
module RateTable {
  import opened Wrappers
  import opened Text
  import opened Currencies
  import opened ExchangeRates

  /** The reference currency every rate is quoted against. */
  const Pivot: string := "DKK"

  const Rates: map<string, ExchangeRate> := map[
    "EUR" := ExchangeRate(Currency("EUR", "Euro"), 743.94),
    "USD" := ExchangeRate(Currency("USD", "Amerikanske dollar"), 663.11),
    "GBP" := ExchangeRate(Currency("GBP", "Britiske pund"), 852.85),
    "SEK" := ExchangeRate(Currency("SEK", "Svenske kroner"), 76.10),
    "NOK" := ExchangeRate(Currency("NOK", "Norske kroner"), 78.40),
    "CHF" := ExchangeRate(Currency("CHF", "Schweiziske franc"), 683.58),
    "JPY" := ExchangeRate(Currency("JPY", "Japanske yen"), 5.9740),
    "DKK" := ExchangeRate(Currency("DKK", "Danske kroner"), 100.00)
  ]

  /** Every key is an upper-case three-letter code. */
  lemma KeysAreUpper()
    ensures forall k :: k in Rates ==> |k| == 3 && IsUpper(k)
  {
    forall k | k in Rates
      ensures |k| == 3 && IsUpper(k)
    {
      assert forall i :: 0 <= i < |k| ==> 'A' <= k[i] <= 'Z';
      assert forall i :: 0 <= i < |k| ==> Upper(k)[i] == k[i];
    }
  }

  /** `GetExchangeRate(code)`: the entry whose key equals `code` ignoring
      case, or null; an unknown code is not an error. */
  function GetExchangeRate(code: string): (r: Option<ExchangeRate>)
    ensures r.Some? <==> exists k :: k in Rates && EqualsIgnoreCase(k, code)
    ensures r.Some? ==> exists k :: k in Rates && EqualsIgnoreCase(k, code) && r.value == Rates[k]
  {
    KeysAreUpper();
    var key := Upper(code);
    UpperIdempotent(code);
    if key in Rates then Some(Rates[key]) else None
  }

  /** The table holds exactly the eight listed codes. */
  lemma TableCodes()
    ensures Rates.Keys == {"EUR", "USD", "GBP", "SEK", "NOK", "CHF", "JPY", "DKK"}
  {
  }

  /** Each entry is what the `Currency` and `ExchangeRate` constructors build
      from it, and its key is its currency's ISO code. */
  lemma EntriesWellFormed()
    ensures forall k :: k in Rates ==>
              && Rates[k].currency.isoCode == k
              && NewCurrency(Some(k), Some(Rates[k].currency.name)) == Ok(Rates[k].currency)
              && NewExchangeRate(Some(Rates[k].currency), Rates[k].rateToDkk) == Ok(Rates[k])
  {
    forall k | k in Rates
      ensures Rates[k].currency.isoCode == k
      ensures NewCurrency(Some(k), Some(Rates[k].currency.name)) == Ok(Rates[k].currency)
      ensures NewExchangeRate(Some(Rates[k].currency), Rates[k].rateToDkk) == Ok(Rates[k])
    {
      KeyIsUpper(k);
      assert !IsWhiteSpace(k[0]);
      assert !IsWhiteSpace(Rates[k].currency.name[0]);
    }
  }

  lemma KeyIsUpper(k: string)
    requires k in Rates
    ensures IsUpper(k) && |k| == 3
  {
    KeysAreUpper();
  }

  /** A listed code finds its own entry. */
  lemma LookupKey(k: string)
    requires k in Rates
    ensures GetExchangeRate(k) == Some(Rates[k])
  {
    KeyIsUpper(k);
  }

  /** The pivot is in the table at rate 100: 100 DKK buy 100 DKK. */
  lemma PivotAtPar()
    ensures GetExchangeRate(Pivot).Some?
    ensures GetExchangeRate(Pivot).value.rateToDkk == 100.0
    ensures GetExchangeRate(Pivot).value.currency.isoCode == Pivot
  {
    KeysAreUpper();
  }

  /** Codes that agree ignoring case find the same entry. */
  lemma LookupIgnoresCase(a: string, b: string)
    requires EqualsIgnoreCase(a, b)
    ensures GetExchangeRate(a) == GetExchangeRate(b)
  {
  }

  /** The rate listed for each code. */
  lemma TableRates()
    ensures Rates["EUR"].rateToDkk == 743.94 && Rates["USD"].rateToDkk == 663.11
    ensures Rates["GBP"].rateToDkk == 852.85 && Rates["SEK"].rateToDkk == 76.10
    ensures Rates["NOK"].rateToDkk == 78.40 && Rates["CHF"].rateToDkk == 683.58
    ensures Rates["JPY"].rateToDkk == 5.9740 && Rates["DKK"].rateToDkk == 100.00
  {
  }

  /** Every listed code finds its own entry. */
  lemma LookupFindsEntry()
    ensures forall k :: k in Rates ==> GetExchangeRate(k) == Some(Rates[k])
  {
    forall k | k in Rates
      ensures GetExchangeRate(k) == Some(Rates[k])
    {
      LookupKey(k);
    }
  }

  lemma UpperEur()
    ensures Upper("eur") == "EUR" && Upper("Eur") == "EUR"
  {
    assert forall i :: 0 <= i < 3 ==> Upper("eur")[i] == "EUR"[i];
    assert forall i :: 0 <= i < 3 ==> Upper("Eur")[i] == "EUR"[i];
  }

  /** `eur`, `EUR` and `Eur` all find the euro entry. */
  lemma EuroInAnyCase()
    ensures GetExchangeRate("eur") == GetExchangeRate("EUR") == GetExchangeRate("Eur")
    ensures GetExchangeRate("eur") == Some(Rates["EUR"])
  {
    UpperEur();
    LookupKey("EUR");
    KeyIsUpper("EUR");
    LookupIgnoresCase("eur", "EUR");
    LookupIgnoresCase("Eur", "EUR");
  }

  /** An upper-case code outside the table gives null. */
  lemma UnknownCode(code: string)
    requires IsUpper(code) && code !in Rates
    ensures GetExchangeRate(code) == None
  {
  }

  /** `XYZ`, `ABC` and the empty code give null. */
  lemma UnknownCodes()
    ensures GetExchangeRate("") == None
    ensures GetExchangeRate("XYZ") == None
    ensures GetExchangeRate("ABC") == None
  {
    assert Upper("XYZ") == "XYZ" by {
      assert forall i :: 0 <= i < 3 ==> Upper("XYZ")[i] == "XYZ"[i];
    }
    assert Upper("ABC") == "ABC" by {
      assert forall i :: 0 <= i < 3 ==> Upper("ABC")[i] == "ABC"[i];
    }
    UnknownCode("");
    UnknownCode("XYZ");
    UnknownCode("ABC");
  }
}
