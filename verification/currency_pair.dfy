/** `CurrencyPair`: "convert an amount of `main` into `money`", its
    constructor, `Parse` of `XXX/YYY` text and `ToString`. */
module Pairs {
  import opened Wrappers
  import opened Text
  import opened Failures
  import opened Currencies

  datatype Pair = Pair(main: Currency, money: Currency)

  const EmptyPairMessage: string := "Currency pair cannot be null or empty"

  /** The start of both format-error messages for the pair text `text`. */
  function FormatMessage(text: string): string {
    "Invalid currency pair format: " + text
  }

  /** The constructor `CurrencyPair(main, money)`; `None` stands for null.
      The main currency is checked first. */
  function NewPair(main: Option<Currency>, money: Option<Currency>): (r: Result<Pair, Failure>)
    ensures main.None? ==> r == Err(ArgumentNull("mainCurrency"))
    ensures main.Some? && money.None? ==> r == Err(ArgumentNull("moneyCurrency"))
    ensures r.Ok? <==> main.Some? && money.Some?
    ensures r.Ok? ==> r.value.main == main.value && r.value.money == money.value
  {
    if main.None? then Err(ArgumentNull("mainCurrency"))
    else if money.None? then Err(ArgumentNull("moneyCurrency"))
    else Ok(Pair(main.value, money.value))
  }

  /** An ISO code as `Parse` leaves it: non-empty, trimmed, upper case and
      free of `/`. */
  predicate ParsedCode(code: string) {
    code != [] && IsTrimmed(code) && IsUpper(code) && '/' !in code
  }

  /** A pair as `Parse` produces it: each name equals its code. */
  predicate ParsedPair(p: Pair) {
    && ParsedCode(p.main.isoCode) && p.main.name == p.main.isoCode
    && ParsedCode(p.money.isoCode) && p.money.name == p.money.isoCode
  }

  /** `Parse(pair)`: split on `/`, trim and upper-case both sides. */
  function Parse(text: string): (r: Result<Pair, Failure>)
    ensures AllWhiteSpace(text) <==> r == Err(Argument(EmptyPairMessage, "pair"))
    ensures !AllWhiteSpace(text) && Count(text, '/') != 1 ==>
              r == Err(FormatError(FormatMessage(text) + ". Expected format: XXX/YYY"))
    ensures Count(text, '/') == 1 ==>
              var parts := Split(text, '/');
              AllWhiteSpace(parts[0]) || AllWhiteSpace(parts[1]) ==>
                r == Err(FormatError(FormatMessage(text)))
    ensures r.Ok? <==>
              && Count(text, '/') == 1
              && !AllWhiteSpace(Split(text, '/')[0])
              && !AllWhiteSpace(Split(text, '/')[1])
    ensures r.Ok? ==>
              && ParsedPair(r.value)
              && r.value.main.isoCode == Upper(Trim(Split(text, '/')[0]))
              && r.value.money.isoCode == Upper(Trim(Split(text, '/')[1]))
  {
    assert Count(text, '/') > 0 ==> !AllWhiteSpace(text) by {
      if Count(text, '/') > 0 {
        CountedNotBlank(text, '/');
      }
    }
    if AllWhiteSpace(text) then Err(Argument(EmptyPairMessage, "pair"))
    else
      var parts := Split(text, '/');
      if |parts| != 2 then
        Err(FormatError(FormatMessage(text) + ". Expected format: XXX/YYY"))
      else
        var mainIso := Upper(Trim(parts[0]));
        var moneyIso := Upper(Trim(parts[1]));
        UpperKeepsWhiteSpace(Trim(parts[0]));
        UpperKeepsWhiteSpace(Trim(parts[1]));
        if AllWhiteSpace(mainIso) || AllWhiteSpace(moneyIso) then
          Err(FormatError(FormatMessage(text)))
        else
          // Neither constructor call can fail on a non-blank code.
          ParsedCodeOfPart(parts[0]);
          ParsedCodeOfPart(parts[1]);
          var main := NewCurrency(Some(mainIso), Some(mainIso)).value;
          var money := NewCurrency(Some(moneyIso), Some(moneyIso)).value;
          NewPair(Some(main), Some(money))
  }

  /** A trimmed, upper-cased piece of `Split(_, '/')` is a parsed code,
      and constructing a currency from it keeps it unchanged. */
  lemma ParsedCodeOfPart(part: string)
    requires '/' !in part && !AllWhiteSpace(part)
    ensures ParsedCode(Upper(Trim(part)))
    ensures NewCurrency(Some(Upper(Trim(part))), Some(Upper(Trim(part))))
            == Ok(Currency(Upper(Trim(part)), Upper(Trim(part))))
  {
    var t := Trim(part);
    assert '/' !in t;
    UpperKeepsTrimmed(t);
    UpperIdempotent(t);
    UpperKeepsSeparator(t, '/');
  }

  /** `ToString`: `MAIN/MONEY`. */
  function PairText(p: Pair): string {
    p.main.isoCode + "/" + p.money.isoCode
  }

  /** Rendering a parsed pair and parsing the text gives the same pair back. */
  lemma PrintThenParse(p: Pair)
    requires ParsedPair(p)
    ensures Parse(PairText(p)) == Ok(p)
  {
    var m, y := p.main.isoCode, p.money.isoCode;
    var text := PairText(p);
    assert text == m + ['/'] + y;
    SplitAround(m, y, '/');
    SplitWithout(m, '/');
    SplitWithout(y, '/');
    assert Split(text, '/') == [m, y];
    assert text[|m|] == '/';
    assert !AllWhiteSpace(text);
    TrimTrimmed(m);
    TrimTrimmed(y);
  }

  /** The round trip of the pair text: for any text `Parse` accepts,
      parsing what `ToString` prints reproduces the same pair. */
  lemma ParseRoundTrip(text: string)
    requires Parse(text).Ok?
    ensures Parse(PairText(Parse(text).value)) == Parse(text)
  {
    PrintThenParse(Parse(text).value);
  }
}
