/** Proof support for `Scenarios` only; it models nothing of its own.
    It holds the words of a well-formed `Exchange` command and the spelling
    of each concrete command line the scenarios run. The facts about each
    literal are kept in small separate lemmas because the solver unfolds
    functions applied to literal strings eagerly. */
module Commands {
  import opened Text

  /** A currency code of capital letters. */
  predicate Capitals(code: string) {
    code != [] && forall i :: 0 <= i < |code| ==> IsAsciiUpper(code[i])
  }

  /** `input` is `command PAIR amount` with single spaces, the command word
      is `Exchange` in some case, and the pair is two capital codes. */
  predicate WellFormed(input: string, command: string, pairText: string, main: string, money: string,
                       amountText: string)
  {
    && pairText == main + "/" + money
    && input == command + " " + pairText + " " + amountText
    && command != [] && ' ' !in command && !IsWhiteSpace(command[0])
    && EqualsIgnoreCase(command, "Exchange")
    && Capitals(main) && Capitals(money)
    && amountText != [] && ' ' !in amountText
  }

  /** Upper-casing a text character by character. */
  lemma UpperByChars(s: string, t: string)
    requires |s| == |t| && forall i :: 0 <= i < |s| ==> ToUpperChar(s[i]) == t[i]
    ensures Upper(s) == t
  {
  }

  lemma CodesSpaceFree(main: string, money: string)
    requires Capitals(main) && Capitals(money)
    ensures ' ' !in main + "/" + money
  {
    var pairText := main + "/" + money;
    assert forall i :: 0 <= i < |pairText| ==> pairText[i] != ' ';
  }

  /** A three-word command splits into its three words. */
  lemma SplitCommand(input: string, command: string, pairText: string, amountText: string)
    requires input == command + " " + pairText + " " + amountText
    requires command != [] && ' ' !in command && !IsWhiteSpace(command[0])
    requires pairText != [] && ' ' !in pairText
    requires amountText != [] && ' ' !in amountText
    ensures Tokens(input) == [command, pairText, amountText] && !AllWhiteSpace(input)
  {
    var words := [command, pairText, amountText];
    assert words[1..] == [pairText, amountText];
    assert words[1..][1..] == [amountText];
    assert Join(words[1..][1..], ' ') == amountText;
    assert Join(words[1..], ' ') == pairText + [' '] + amountText;
    assert Join(words, ' ') == command + [' '] + (pairText + [' '] + amountText);
    assert Join(words, ' ') == input;
    TokensJoin(words);
  }

  /** `Exchange` is an accepted command word. */
  lemma ExchangeWord()
    ensures "Exchange" != [] && ' ' !in "Exchange" && !IsWhiteSpace("Exchange"[0])
    ensures EqualsIgnoreCase("Exchange", "Exchange")
  {
  }

  /** So is `exchange`: the word is compared ignoring case. */
  lemma LowerExchangeWord()
    ensures "exchange" != [] && ' ' !in "exchange" && !IsWhiteSpace("exchange"[0])
    ensures EqualsIgnoreCase("exchange", "Exchange")
  {
    UpperExchange();
  }

  lemma UpperExchange()
    ensures Upper("exchange") == "EXCHANGE" && Upper("Exchange") == "EXCHANGE"
  {
    UpperByChars("exchange", "EXCHANGE");
    UpperByChars("Exchange", "EXCHANGE");
  }

  // ---------------------------------------------------------------- concrete commands

  /** The codes the concrete commands use are capital letters. */
  lemma CodesAreCapitals()
    ensures Capitals("EUR") && Capitals("USD") && Capitals("XYZ") && Capitals("ABC")
  {
  }

  /** The amount words the concrete commands use are single words. */
  lemma AmountWords()
    ensures "100" != [] && ' ' !in "100"
    ensures "-5" != [] && ' ' !in "-5"
    ensures "abc" != [] && ' ' !in "abc"
  {
  }

  lemma EuroDollarSpelled()
    ensures "EUR/USD" == "EUR" + "/" + "USD"
    ensures "Exchange EUR/USD 100" == "Exchange" + " " + "EUR/USD" + " " + "100"
  {
  }

  lemma EuroDollarShape()
    ensures WellFormed("Exchange EUR/USD 100", "Exchange", "EUR/USD", "EUR", "USD", "100")
  {
    ExchangeWord();
    CodesAreCapitals();
    AmountWords();
    EuroDollarSpelled();
  }

  lemma LowerEuroDollarSpelled()
    ensures "EUR/USD" == "EUR" + "/" + "USD"
    ensures "exchange EUR/USD 100" == "exchange" + " " + "EUR/USD" + " " + "100"
  {
  }

  lemma LowerEuroDollarShape()
    ensures WellFormed("exchange EUR/USD 100", "exchange", "EUR/USD", "EUR", "USD", "100")
  {
    LowerExchangeWord();
    CodesAreCapitals();
    AmountWords();
    LowerEuroDollarSpelled();
  }

  lemma NegativeSpelled()
    ensures "EUR/USD" == "EUR" + "/" + "USD"
    ensures "Exchange EUR/USD -5" == "Exchange" + " " + "EUR/USD" + " " + "-5"
  {
  }

  lemma NegativeShape()
    ensures WellFormed("Exchange EUR/USD -5", "Exchange", "EUR/USD", "EUR", "USD", "-5")
  {
    ExchangeWord();
    CodesAreCapitals();
    AmountWords();
    NegativeSpelled();
  }

  lemma NotANumberSpelled()
    ensures "EUR/USD" == "EUR" + "/" + "USD"
    ensures "Exchange EUR/USD abc" == "Exchange" + " " + "EUR/USD" + " " + "abc"
  {
  }

  lemma NotANumberShape()
    ensures WellFormed("Exchange EUR/USD abc", "Exchange", "EUR/USD", "EUR", "USD", "abc")
  {
    ExchangeWord();
    CodesAreCapitals();
    AmountWords();
    NotANumberSpelled();
  }

  lemma EuroEuroSpelled()
    ensures "EUR/EUR" == "EUR" + "/" + "EUR"
    ensures "Exchange EUR/EUR 100" == "Exchange" + " " + "EUR/EUR" + " " + "100"
  {
  }

  lemma EuroEuroShape()
    ensures WellFormed("Exchange EUR/EUR 100", "Exchange", "EUR/EUR", "EUR", "EUR", "100")
  {
    ExchangeWord();
    CodesAreCapitals();
    AmountWords();
    EuroEuroSpelled();
  }

  lemma UnknownMainSpelled()
    ensures "XYZ/USD" == "XYZ" + "/" + "USD"
    ensures "Exchange XYZ/USD 100" == "Exchange" + " " + "XYZ/USD" + " " + "100"
  {
  }

  lemma UnknownMainShape()
    ensures WellFormed("Exchange XYZ/USD 100", "Exchange", "XYZ/USD", "XYZ", "USD", "100")
  {
    ExchangeWord();
    CodesAreCapitals();
    AmountWords();
    UnknownMainSpelled();
  }

  lemma UnknownMoneySpelled()
    ensures "EUR/ABC" == "EUR" + "/" + "ABC"
    ensures "Exchange EUR/ABC 100" == "Exchange" + " " + "EUR/ABC" + " " + "100"
  {
  }

  lemma UnknownMoneyShape()
    ensures WellFormed("Exchange EUR/ABC 100", "Exchange", "EUR/ABC", "EUR", "ABC", "100")
  {
    ExchangeWord();
    CodesAreCapitals();
    AmountWords();
    UnknownMoneySpelled();
  }

  lemma OtherWordShape()
    ensures Tokens("Convert EUR/USD 100") == ["Convert", "EUR/USD", "100"]
    ensures !AllWhiteSpace("Convert EUR/USD 100")
    ensures !EqualsIgnoreCase("Convert", "Exchange")
  {
    ConvertWord();
    AmountWords();
    ConvertSpelled();
    SplitCommand("Convert EUR/USD 100", "Convert", "EUR/USD", "100");
  }

  /** `Convert` is a single word, but not `Exchange` in any case. */
  lemma ConvertWord()
    ensures "Convert" != [] && ' ' !in "Convert" && !IsWhiteSpace("Convert"[0])
    ensures !EqualsIgnoreCase("Convert", "Exchange")
  {
    LengthsDiffer("Convert", "Exchange");
  }

  /** Texts of different lengths differ in every case. */
  lemma LengthsDiffer(a: string, b: string)
    requires |a| != |b|
    ensures !EqualsIgnoreCase(a, b)
  {
    assert |Upper(a)| != |Upper(b)|;
  }

  lemma ConvertSpelled()
    ensures "EUR/USD" != [] && ' ' !in "EUR/USD"
    ensures "Convert EUR/USD 100" == "Convert" + " " + "EUR/USD" + " " + "100"
  {
  }
}
