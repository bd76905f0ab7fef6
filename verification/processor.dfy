/** `ExchangeCommandProcessor.ProcessCommand`: reads `Exchange <PAIR>
    <AMOUNT>`, checks it in a fixed order, calls the converter and turns
    every outcome, failures included, into a `CommandResult`. */
module Processor {
  import opened Wrappers
  import opened Text
  import opened Failures
  import opened Pairs
  import opened CommandResults

  const EmptyInputMessage: string := "Input cannot be empty"
  const UsageMessage: string := "Invalid command format. Use: Exchange <currency_pair> <amount>"
  const CommandNameMessage: string := "Command must start with 'Exchange'"

  function InvalidAmountMessage(token: string): string {
    "Invalid amount '" + token + "'. Please provide a valid decimal number."
  }

  /** `decimal.TryParse`: the amount a token denotes, if any. */
  type AmountParser = string -> Option<real>

  /** `ICurrencyConverter.Convert`: the converted amount, or the failure it
      raised. */
  type ConvertFunction = (Pair, real) -> Result<real, Failure>

  /** The arguments of one converter call. */
  datatype Request = Request(pair: Pair, amount: real)

  /** The result of a command and the converter calls made for it. */
  datatype Processed = Processed(result: CommandResult, calls: seq<Request>)

  /** The three `catch` clauses: a format error is an invalid format, a
      missing currency keeps its code, anything else is a general error. */
  function FromFailure(f: Failure): (r: CommandResult)
    ensures !r.Success?
    ensures r.InvalidFormat? <==> f.FormatError?
    ensures r.CurrencyNotFound? <==> f.NotFound?
    ensures r.CurrencyNotFound? ==> r.notFoundCurrencyCode == f.code
    ensures !r.CurrencyNotFound? ==> r.errorMessage == Message(f)
  {
    match f
    case FormatError(text) => InvalidFormat(text)
    case NotFound(code) => CurrencyNotFound(code)
    case _ => Error(Message(f))
  }

  /** The checks before the converter, in the program's order: blank input,
      token count, command word, pair, amount. Gives the converter's
      arguments, or the result the command ends with. */
  function Validate(input: string, parseAmount: AmountParser): (v: Result<Request, CommandResult>)
    ensures v.Err? ==> v.error.InvalidFormat? || v.error.Error?
    ensures v.Ok? ==>
              var tokens := Tokens(input);
              && |tokens| == 3
              && EqualsIgnoreCase(tokens[0], "Exchange")
              && Parse(tokens[1]) == Ok(v.value.pair)
              && parseAmount(tokens[2]) == Some(v.value.amount)
              && ParsedPair(v.value.pair)
  {
    if AllWhiteSpace(input) then Err(InvalidFormat(EmptyInputMessage))
    else
      var tokens := Tokens(input);
      if |tokens| != 3 then Err(InvalidFormat(UsageMessage))
      else if !EqualsIgnoreCase(tokens[0], "Exchange") then Err(InvalidFormat(CommandNameMessage))
      else
        match Parse(tokens[1])
        case Err(f) => Err(FromFailure(f))
        case Ok(pair) =>
          match parseAmount(tokens[2])
          case None => Err(InvalidFormat(InvalidAmountMessage(tokens[2])))
          case Some(amount) => Ok(Request(pair, amount))
  }

  /** `ProcessCommand(input)`. Total: every input yields a result. The
      converter is called at most once, and only with a parsed pair and
      amount; a success reports exactly what it returned. */
  function ProcessCommand(input: string, parseAmount: AmountParser, convert: ConvertFunction): (p: Processed)
    ensures |p.calls| <= 1
    ensures p.result.Success? || p.result.CurrencyNotFound? ==> |p.calls| == 1
    ensures |p.calls| == 1 ==> Validate(input, parseAmount) == Ok(p.calls[0])
    ensures p.result.Success? ==>
              var call := p.calls[0];
              && p.result.originalAmount == call.amount
              && p.result.mainCurrencyCode == call.pair.main.isoCode
              && p.result.moneyCurrencyCode == call.pair.money.isoCode
              && convert(call.pair, call.amount) == Ok(p.result.convertedAmount)
    ensures p.result.CurrencyNotFound? ==>
              convert(p.calls[0].pair, p.calls[0].amount) == Err(NotFound(p.result.notFoundCurrencyCode))
  {
    match Validate(input, parseAmount)
    case Err(early) => Processed(early, [])
    case Ok(request) =>
      var result :=
        match convert(request.pair, request.amount)
        case Ok(converted) =>
          Success(request.amount, request.pair.main.isoCode, converted, request.pair.money.isoCode)
        case Err(f) => FromFailure(f);
      Processed(result, [request])
  }

  // ---------------------------------------------------------------- the checks, in order

  /** Blank input is rejected before anything else. */
  lemma BlankInput(input: string, parseAmount: AmountParser, convert: ConvertFunction)
    requires AllWhiteSpace(input)
    ensures ProcessCommand(input, parseAmount, convert) == Processed(InvalidFormat(EmptyInputMessage), [])
  {
  }

  /** Any number of space-separated tokens other than three is a usage error. */
  lemma WrongTokenCount(input: string, parseAmount: AmountParser, convert: ConvertFunction)
    requires !AllWhiteSpace(input) && |Tokens(input)| != 3
    ensures ProcessCommand(input, parseAmount, convert) == Processed(InvalidFormat(UsageMessage), [])
  {
  }

  /** The first token must be `Exchange` in any case. */
  lemma WrongCommandWord(input: string, parseAmount: AmountParser, convert: ConvertFunction)
    requires !AllWhiteSpace(input) && |Tokens(input)| == 3
    requires !EqualsIgnoreCase(Tokens(input)[0], "Exchange")
    ensures ProcessCommand(input, parseAmount, convert) == Processed(InvalidFormat(CommandNameMessage), [])
  {
  }

  /** The pair is parsed before the amount: a malformed pair is reported
      with the parser's message whatever the amount token holds. */
  lemma PairCheckedBeforeAmount(input: string, parseAmount: AmountParser, convert: ConvertFunction)
    requires !AllWhiteSpace(input) && |Tokens(input)| == 3
    requires EqualsIgnoreCase(Tokens(input)[0], "Exchange")
    requires Parse(Tokens(input)[1]).Err?
    ensures ProcessCommand(input, parseAmount, convert)
            == Processed(FromFailure(Parse(Tokens(input)[1]).error), [])
    ensures Parse(Tokens(input)[1]).error.FormatError? ==>
              ProcessCommand(input, parseAmount, convert).result
              == InvalidFormat(Parse(Tokens(input)[1]).error.text)
  {
  }

  /** A pair token that is white space other than a space (a tab, say)
      fails the pair parser's argument check and ends as a general error. */
  lemma BlankPairToken(input: string, parseAmount: AmountParser, convert: ConvertFunction)
    requires !AllWhiteSpace(input) && |Tokens(input)| == 3
    requires EqualsIgnoreCase(Tokens(input)[0], "Exchange")
    requires AllWhiteSpace(Tokens(input)[1])
    ensures ProcessCommand(input, parseAmount, convert)
            == Processed(Error("Currency pair cannot be null or empty (Parameter 'pair')"), [])
  {
    assert Parse(Tokens(input)[1]) == Err(Argument(EmptyPairMessage, "pair"));
    EmptyPairText();
    assert Validate(input, parseAmount) == Err(Error(Message(Argument(EmptyPairMessage, "pair"))));
  }

  lemma EmptyPairText()
    ensures Message(Argument(EmptyPairMessage, "pair"))
            == "Currency pair cannot be null or empty (Parameter 'pair')"
  {
  }

  /** An amount the parser rejects is reported with the token, and the
      converter is not called. */
  lemma BadAmount(input: string, parseAmount: AmountParser, convert: ConvertFunction)
    requires !AllWhiteSpace(input) && |Tokens(input)| == 3
    requires EqualsIgnoreCase(Tokens(input)[0], "Exchange")
    requires Parse(Tokens(input)[1]).Ok?
    requires parseAmount(Tokens(input)[2]).None?
    ensures ProcessCommand(input, parseAmount, convert)
            == Processed(InvalidFormat(InvalidAmountMessage(Tokens(input)[2])), [])
  {
  }

  /** Once the input is valid the converter is called exactly once, with the
      parsed pair and amount, and its outcome decides the result. */
  lemma ConverterOutcome(input: string, parseAmount: AmountParser, convert: ConvertFunction)
    requires Validate(input, parseAmount).Ok?
    ensures var request := Validate(input, parseAmount).value;
            var p := ProcessCommand(input, parseAmount, convert);
            && p.calls == [request]
            && match convert(request.pair, request.amount)
               case Ok(v) =>
                 p.result == Success(request.amount, request.pair.main.isoCode, v, request.pair.money.isoCode)
               case Err(NotFound(code)) => p.result == CurrencyNotFound(code)
               case Err(FormatError(text)) => p.result == InvalidFormat(text)
               case Err(f) => p.result == Error(Message(f))
  {
  }

  /** When a check fails the converter is never consulted: any two
      converters give the same outcome. */
  lemma ConverterUnusedOnRejection(input: string, parseAmount: AmountParser,
                                   c1: ConvertFunction, c2: ConvertFunction)
    requires Validate(input, parseAmount).Err?
    ensures ProcessCommand(input, parseAmount, c1) == ProcessCommand(input, parseAmount, c2)
    ensures ProcessCommand(input, parseAmount, c1).calls == []
  {
  }

  /** Spaces at either end, or a doubled space between tokens, do not
      change the outcome. */
  lemma ExtraSpacesIgnored(a: string, b: string, parseAmount: AmountParser, convert: ConvertFunction)
    ensures ProcessCommand(" " + a, parseAmount, convert) == ProcessCommand(a, parseAmount, convert)
    ensures ProcessCommand(a + " ", parseAmount, convert) == ProcessCommand(a, parseAmount, convert)
    ensures ProcessCommand(a + "  " + b, parseAmount, convert)
            == ProcessCommand(a + " " + b, parseAmount, convert)
  {
    BlankIgnoresExtraSpaces(a, b);
    TokensIgnoreExtraSpaces(a, b);
    SameShapeSameOutcome(" " + a, a, parseAmount, convert);
    SameShapeSameOutcome(a + " ", a, parseAmount, convert);
    SameShapeSameOutcome(a + "  " + b, a + " " + b, parseAmount, convert);
  }

  /** The outcome depends on the input only through whether it is blank
      and through its tokens. */
  lemma SameShapeSameOutcome(x: string, y: string, parseAmount: AmountParser, convert: ConvertFunction)
    requires AllWhiteSpace(x) <==> AllWhiteSpace(y)
    requires Tokens(x) == Tokens(y)
    ensures ProcessCommand(x, parseAmount, convert) == ProcessCommand(y, parseAmount, convert)
  {
    SameShapeSameChecks(x, y, parseAmount);
  }

  lemma SameShapeSameChecks(x: string, y: string, parseAmount: AmountParser)
    requires AllWhiteSpace(x) <==> AllWhiteSpace(y)
    requires Tokens(x) == Tokens(y)
    ensures Validate(x, parseAmount) == Validate(y, parseAmount)
  {
  }
}
