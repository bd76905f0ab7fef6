/** The whole pipeline wired as the application wires it: the processor
    over the converter over the hard-coded rate table, with the decimal
    grammar for amounts; and the end-to-end behaviour it promises. */
module Scenarios {
  import opened Wrappers
  import opened Text
  import opened Failures
  import opened Currencies
  import opened Pairs
  import opened RateTable
  import opened Converter
  import opened CommandResults
  import opened Processor
  import opened DecimalText
  import opened Commands

  /** `CurrencyConverter` over `HardcodedExchangeRateProvider`. */
  function TableConvert(pair: Pair, amount: real): Result<real, Failure> {
    Convert(pair, amount, GetExchangeRate).outcome
  }

  /** `ProcessCommand` of the assembled application. */
  function Run(input: string): Processed {
    ProcessCommand(input, ParseDecimal, TableConvert)
  }

  /** The pair a parsed `MAIN/MONEY` text gives. */
  function CodePair(main: string, money: string): Pair {
    Pair(Currency(main, main), Currency(money, money))
  }

  // ---------------------------------------------------------------- helpers

  /** Capital letters form a code as `Parse` leaves it. */
  lemma CapitalsAreParsedCode(code: string)
    requires Capitals(code)
    ensures ParsedCode(code)
  {
    assert forall i :: 0 <= i < |code| ==> Upper(code)[i] == code[i];
    assert forall i :: 0 <= i < |code| ==> code[i] != '/';
  }

  /** `MAIN/MONEY` in capitals parses to the pair of those codes. */
  lemma ParsesCodes(text: string, main: string, money: string)
    requires text == main + "/" + money
    requires Capitals(main) && Capitals(money)
    ensures Parse(text) == Ok(CodePair(main, money))
  {
    CapitalsAreParsedCode(main);
    CapitalsAreParsedCode(money);
    PrintThenParse(CodePair(main, money));
  }

  /** A non-blank input of three accepted tokens reaches the converter. */
  lemma AcceptedTokens(input: string, command: string, pairText: string, amountText: string,
                       pair: Pair, amount: real)
    requires !AllWhiteSpace(input) && Tokens(input) == [command, pairText, amountText]
    requires EqualsIgnoreCase(command, "Exchange")
    requires Parse(pairText) == Ok(pair) && ParseDecimal(amountText) == Some(amount)
    ensures Validate(input, ParseDecimal) == Ok(Request(pair, amount))
  {
  }

  /** A well-formed command with a number for an amount reaches the
      converter with the pair of its codes and that number. */
  lemma ValidCommand(input: string, command: string, pairText: string, main: string, money: string,
                     amountText: string, amount: real)
    requires WellFormed(input, command, pairText, main, money, amountText)
    requires ParseDecimal(amountText) == Some(amount)
    ensures Validate(input, ParseDecimal) == Ok(Request(CodePair(main, money), amount))
  {
    CodesSpaceFree(main, money);
    ParsesCodes(pairText, main, money);
    SplitCommand(input, command, pairText, amountText);
    AcceptedTokens(input, command, pairText, amountText, CodePair(main, money), amount);
  }

  /** A well-formed command whose amount token is not a number is refused
      with that token, before the converter. */
  lemma AmountRefused(input: string, command: string, pairText: string, main: string, money: string,
                      amountText: string)
    requires WellFormed(input, command, pairText, main, money, amountText)
    requires ParseDecimal(amountText) == None
    ensures Validate(input, ParseDecimal) == Err(InvalidFormat(InvalidAmountMessage(amountText)))
  {
    CodesSpaceFree(main, money);
    ParsesCodes(pairText, main, money);
    SplitCommand(input, command, pairText, amountText);
  }

  /** A valid command whose conversion succeeds reports the parsed amount,
      both codes and the converted amount. */
  lemma ConverterSuccess(input: string, request: Request)
    requires Validate(input, ParseDecimal) == Ok(request)
    requires TableConvert(request.pair, request.amount).Ok?
    ensures Run(input)
            == Processed(Success(request.amount, request.pair.main.isoCode,
                                 TableConvert(request.pair, request.amount).value,
                                 request.pair.money.isoCode), [request])
  {
  }

  /** A valid command whose conversion fails ends with the failure's
      result. */
  lemma ConverterFailure(input: string, request: Request)
    requires Validate(input, ParseDecimal) == Ok(request)
    requires TableConvert(request.pair, request.amount).Err?
    ensures Run(input) == Processed(FromFailure(TableConvert(request.pair, request.amount).error), [request])
  {
  }

  /** A command refused before the converter ends with the refusal. */
  lemma Refused(input: string)
    requires Validate(input, ParseDecimal).Err?
    ensures Run(input) == Processed(Validate(input, ParseDecimal).error, [])
  {
  }

  // ---------------------------------------------------------------- the shapes of the commands below

  lemma Hundred()
    ensures ParseDecimal("100") == Some(100.0)
  {
    assert NatText(1) == "1";
    assert NatText(10) == "10";
    assert NatText(100) == "100";
    ParsesNatText(100);
  }

  lemma MinusFive()
    ensures ParseDecimal("-5") == Some(-5.0)
  {
    assert NatText(5) == "5";
    ParsesNegated(5);
  }

  /** The amount of the tests' `Exchange GBP/DKK 50.25`. */
  lemma FiftyAndAQuarter()
    ensures ParseDecimal("50.25") == Some(50.25)
  {
    assert NatText(5) == "5";
    assert NatText(50) == "50";
    assert "50" + "." + "25" == "50.25";
    assert DigitsValue("25") == 25 by {
      assert "25"[..1] == "2";
      assert "2"[..0] == "";
    }
    assert Pow10(1) == 10 && Pow10(2) == 100;
    assert FractionValue("25") == 0.25;
    ParsesFraction(50, "25");
  }

  lemma LettersRejected()
    ensures ParseDecimal("abc") == None
  {
    RejectsNonDigit("abc", 0);
  }

  // ---------------------------------------------------------------- scenarios

  /** `Exchange EUR/USD 100` converts at 743.94 / 663.11 into about 112.19. */
  lemma EuroToDollar()
    ensures Run("Exchange EUR/USD 100")
            == Processed(Success(100.0, "EUR", 100.0 * 743.94 / 663.11, "USD"),
                         [Request(CodePair("EUR", "USD"), 100.0)])
    ensures 112.185 < 100.0 * 743.94 / 663.11 < 112.195
  {
    Hundred();
    EuroDollarShape();
    ValidCommand("Exchange EUR/USD 100", "Exchange", "EUR/USD", "EUR", "USD", "100", 100.0);
    EuroDollarRate();
    ConverterSuccess("Exchange EUR/USD 100", Request(CodePair("EUR", "USD"), 100.0));
  }

  /** Lower-case `exchange` is accepted too. */
  lemma LowerCaseCommand()
    ensures Run("exchange EUR/USD 100").result
            == Success(100.0, "EUR", 100.0 * 743.94 / 663.11, "USD")
  {
    Hundred();
    LowerEuroDollarShape();
    ValidCommand("exchange EUR/USD 100", "exchange", "EUR/USD", "EUR", "USD", "100", 100.0);
    EuroDollarRate();
    ConverterSuccess("exchange EUR/USD 100", Request(CodePair("EUR", "USD"), 100.0));
  }

  /** `Exchange EUR/EUR 100` gives 100 back. */
  lemma EuroToEuro()
    ensures Run("Exchange EUR/EUR 100").result == Success(100.0, "EUR", 100.0, "EUR")
  {
    Hundred();
    EuroEuroShape();
    ValidCommand("Exchange EUR/EUR 100", "Exchange", "EUR/EUR", "EUR", "EUR", "100", 100.0);
    ConverterSuccess("Exchange EUR/EUR 100", Request(CodePair("EUR", "EUR"), 100.0));
  }

  /** `Exchange XYZ/USD 100` reports XYZ as unsupported. */
  lemma UnknownMain()
    ensures Run("Exchange XYZ/USD 100").result == CurrencyNotFound("XYZ")
  {
    Hundred();
    UnknownMainShape();
    ValidCommand("Exchange XYZ/USD 100", "Exchange", "XYZ/USD", "XYZ", "USD", "100", 100.0);
    UnknownMainRate();
    ConverterFailure("Exchange XYZ/USD 100", Request(CodePair("XYZ", "USD"), 100.0));
  }

  /** `Exchange EUR/ABC 100` reports ABC as unsupported. */
  lemma UnknownMoney()
    ensures Run("Exchange EUR/ABC 100").result == CurrencyNotFound("ABC")
  {
    Hundred();
    UnknownMoneyShape();
    ValidCommand("Exchange EUR/ABC 100", "Exchange", "EUR/ABC", "EUR", "ABC", "100", 100.0);
    UnknownMoneyRate();
    ConverterFailure("Exchange EUR/ABC 100", Request(CodePair("EUR", "ABC"), 100.0));
  }

  /** `Exchange EUR/USD -5` passes parsing and fails in the converter. */
  lemma NegativeCommand()
    ensures Run("Exchange EUR/USD -5").result
            == Error("Amount cannot be negative (Parameter 'amount')")
  {
    MinusFive();
    NegativeShape();
    ValidCommand("Exchange EUR/USD -5", "Exchange", "EUR/USD", "EUR", "USD", "-5", -5.0);
    NegativeRejected();
    ConverterFailure("Exchange EUR/USD -5", Request(CodePair("EUR", "USD"), -5.0));
  }

  /** `Exchange EUR/USD abc` is an invalid amount. */
  lemma NotANumber()
    ensures Run("Exchange EUR/USD abc") == Processed(InvalidFormat(InvalidAmountMessage("abc")), [])
  {
    LettersRejected();
    NotANumberShape();
    AmountRefused("Exchange EUR/USD abc", "Exchange", "EUR/USD", "EUR", "USD", "abc");
    Refused("Exchange EUR/USD abc");
  }

  /** Empty input is rejected first. */
  lemma EmptyInput()
    ensures Run("") == Processed(InvalidFormat(EmptyInputMessage), [])
  {
  }

  /** A command word other than `Exchange` is rejected. */
  lemma OtherCommandWord()
    ensures Run("Convert EUR/USD 100") == Processed(InvalidFormat(CommandNameMessage), [])
  {
    OtherWordShape();
    WrongCommandWord("Convert EUR/USD 100", ParseDecimal, TableConvert);
  }

  // ---------------------------------------------------------------- converter over the table

  /** 100 EUR in USD: both rates are found and the cross rate applies. */
  lemma EuroDollarRate()
    ensures TableConvert(CodePair("EUR", "USD"), 100.0) == Ok(100.0 * 743.94 / 663.11)
  {
    LookupKey("EUR");
    LookupKey("USD");
    TableRates();
    BothFound(CodePair("EUR", "USD"), 100.0, GetExchangeRate);
  }

  /** An unknown main code is reported before the money code is looked up. */
  lemma UnknownMainRate()
    ensures Convert(CodePair("XYZ", "USD"), 100.0, GetExchangeRate)
            == Conversion(Err(NotFound("XYZ")), ["XYZ"])
  {
    UnknownCodes();
    MainReportedFirst(CodePair("XYZ", "USD"), 100.0, GetExchangeRate);
  }

  /** An unknown money code is reported after both lookups. */
  lemma UnknownMoneyRate()
    ensures Convert(CodePair("EUR", "ABC"), 100.0, GetExchangeRate)
            == Conversion(Err(NotFound("ABC")), ["EUR", "ABC"])
  {
    UnknownCodes();
    LookupKey("EUR");
  }

  /** A negative amount is refused without any lookup. */
  lemma NegativeRejected()
    ensures Convert(CodePair("EUR", "USD"), -5.0, GetExchangeRate) == Conversion(Err(NegativeAmount), [])
    ensures Message(NegativeAmount) == "Amount cannot be negative (Parameter 'amount')"
  {
  }

  /** Converting 743.94 DKK into EUR gives exactly 100. */
  lemma KronerToEuro()
    ensures TableConvert(CodePair("DKK", "EUR"), 743.94) == Ok(100.0)
  {
    LookupKey("DKK");
    LookupKey("EUR");
    TableRates();
    BothFound(CodePair("DKK", "EUR"), 743.94, GetExchangeRate);
  }

  /** 100 GBP are 852.85 DKK. */
  lemma PoundToKroner()
    ensures TableConvert(CodePair("GBP", "DKK"), 100.0) == Ok(852.85)
  {
    LookupKey("GBP");
    LookupKey("DKK");
    TableRates();
    BothFound(CodePair("GBP", "DKK"), 100.0, GetExchangeRate);
  }

  /** 100 SEK are about 97.07 NOK. */
  lemma CrownToCrown()
    ensures TableConvert(CodePair("SEK", "NOK"), 100.0).Ok?
    ensures 97.065 < TableConvert(CodePair("SEK", "NOK"), 100.0).value < 97.075
  {
    LookupKey("SEK");
    LookupKey("NOK");
    TableRates();
    BothFound(CodePair("SEK", "NOK"), 100.0, GetExchangeRate);
  }
}
