# FxExchange conversion pipeline in Dafny

This project models the conversion core of FxExchange. FxExchange is a small
command-line currency exchange. It reads a line such as
`Exchange EUR/USD 100` and converts the amount of the main currency into
the money currency. Every rate is quoted as the number of Danish kroner
(DKK) that buy 100 units of a currency.

The model follows the C# classes one module each:

- `Currencies` models `Currency`: its constructor checks, the upper-cased ISO code, and `Equals`, `GetHashCode` and `ToString`.
- `ExchangeRates` models `ExchangeRate`. The positive-rate invariant is carried in the type `PositiveReal`.
- `Pairs` models `CurrencyPair`: its constructor, `Parse` and `ToString`.
- `RateTable` models `HardcodedExchangeRateProvider`: the eight-entry table and its case-insensitive lookup.
- `Converter` models `CurrencyConverter.Convert`. The provider is a function parameter. The result records the codes the provider was asked for, in order.
- `Processor` models `ExchangeCommandProcessor.ProcessCommand`. The amount parser and the converter are function parameters. The result records the converter calls made.
- `CommandResults` models `ExchangeCommandResult` as a four-variant datatype, together with the flag record the C# class really is.
- `Failures` models the exceptions the pipeline raises, as values, and the .NET rendering of their messages.
- `Text` models the .NET string operations the code relies on: `IsNullOrWhiteSpace`, `ToUpperInvariant`, `OrdinalIgnoreCase`, `Trim`, `Split` and `Split(' ', RemoveEmptyEntries)`.
- `DecimalText` is a locale-free decimal grammar standing in for `decimal.TryParse`. Only the end-to-end scenarios use it.
- `Scenarios` wires the application the way the console program does: the processor over the converter over the hard-coded table. It proves the repository's test expectations about that assembly.
- `Commands` holds the spelling facts about the literal command lines that `Scenarios` uses.

Amounts are exact `real`s. Three behaviours of the code are worth noting:

- The command line is split on the space character only (FxExchange.Core/Services/ExchangeCommandProcessor.cs:17). A tab is not a separator and stays inside a token, so a pair token made only of tabs reaches `CurrencyPair.Parse`.
- `CurrencyPair.Parse` rejects blank text with an `ArgumentException`, not a `FormatException` (FxExchange.Core/Models/CurrencyPair.cs:10-11). Through the processor, that case therefore ends as a general `Error`, not as an invalid format.
- `Parse` sets each currency's name to its code (FxExchange.Core/Models/CurrencyPair.cs:23-26).

## Model

| member | source | states |
|---|---|---|
| Currencies.NewCurrency | FxExchange.Core/Models/Currency.cs:8-18 | A null or blank ISO code is rejected first, then a null or blank name, each with its own message and parameter name. Construction succeeds exactly when both are present and non-blank. The stored code is upper case, non-blank and equal to the input ignoring case. The name is stored unchanged. |
| Currencies.StoredCodeIsUpper | FxExchange.Core/Models/Currency.cs:16 | The stored code is the upper-cased input, so upper-casing it again changes nothing. |
| Currencies.ConstructedEquality | FxExchange.Core/Models/Currency.cs:16-23 | Two constructed currencies are equal exactly when their input codes agree ignoring case, whatever their names. |
| Currencies.SameCurrencyIsEquivalence | FxExchange.Core/Models/Currency.cs:20-23 | Code equality is reflexive, symmetric and transitive. |
| Currencies.SameCurrencyAgrees | FxExchange.Core/Models/Currency.cs:20-33 | Equal currencies print the same text and have the same hash code, for any string hash. |
| Currencies.CurrencyTextIsCode | FxExchange.Core/Models/Currency.cs:30-33 | `ToString` of a valid currency is its ISO code, which is upper case. |
| ExchangeRates.NewExchangeRate | FxExchange.Core/Models/ExchangeRate.cs:8-16 | A null currency is rejected before the rate is checked. A rate of zero or less is rejected. Construction succeeds exactly when the currency is present and the rate is positive, and then both are stored unchanged. |
| Pairs.NewPair | FxExchange.Core/Models/CurrencyPair.cs:3-6 | A missing main currency is reported before a missing money currency. The pair is built exactly when both are present, and it holds them unchanged. |
| Pairs.Parse | FxExchange.Core/Models/CurrencyPair.cs:8-27 | Blank text is exactly the case that gives the argument error. Text that is not blank and does not hold exactly one `/` gives the "Expected format" error. A side that is blank after trimming gives the short format error. Parsing succeeds exactly when there is one `/` and neither side is blank. The codes are then the trimmed, upper-cased sides, and each name equals its code. |
| Pairs.ParsedCodeOfPart | FxExchange.Core/Models/CurrencyPair.cs:17-26 | A trimmed, upper-cased non-blank side is a valid code, and the `Currency` constructor called on it cannot fail. |
| Pairs.PrintThenParse | FxExchange.Core/Models/CurrencyPair.cs:8-32 | Parsing what `ToString` prints for a parsed pair gives the same pair back. |
| Pairs.ParseRoundTrip | FxExchange.Core/Models/CurrencyPair.cs:8-32 | For any text `Parse` accepts, parsing the printed result reproduces the parse of the original text. |
| RateTable.GetExchangeRate | FxExchange.Core/Services/HardcodedExchangeRateProvider.cs:7-25 | The lookup finds an entry exactly when some key equals the code ignoring case, and the entry it returns is that key's. |
| RateTable.KeysAreUpper | FxExchange.Core/Services/HardcodedExchangeRateProvider.cs:9-16 | Every key is a three-letter upper-case code. |
| RateTable.TableCodes | FxExchange.Core/Services/HardcodedExchangeRateProvider.cs:9-16 | The table's keys are exactly EUR, USD, GBP, SEK, NOK, CHF, JPY and DKK. |
| RateTable.TableRates | FxExchange.Core/Services/HardcodedExchangeRateProvider.cs:9-16 | Each code maps to its listed rate. |
| RateTable.EntriesWellFormed | FxExchange.Core/Services/HardcodedExchangeRateProvider.cs:9-16 | Each key is the ISO code of its currency. Each entry is what the `Currency` and `ExchangeRate` constructors build from it, so every rate is positive. |
| RateTable.PivotAtPar | FxExchange.Core/Services/HardcodedExchangeRateProvider.cs:16-19 | DKK is found at rate 100 under its own code, which makes it the pivot. |
| RateTable.LookupKey | FxExchange.Core/Services/HardcodedExchangeRateProvider.cs:21-25 | A listed code finds its own entry. |
| RateTable.LookupFindsEntry | FxExchange.Core/Services/HardcodedExchangeRateProvider.cs:21-25 | Every listed code finds its own entry. |
| RateTable.LookupIgnoresCase | FxExchange.Core/Services/HardcodedExchangeRateProvider.cs:7-25 | Codes that agree ignoring case give the same lookup result. |
| RateTable.EuroInAnyCase | FxExchange.Tests/Services/HardcodedExchangeRateProviderTests.cs:29-41 | `eur`, `EUR` and `Eur` all find the euro entry. |
| RateTable.UnknownCode | FxExchange.Core/Services/HardcodedExchangeRateProvider.cs:21-25 | An upper-case code outside the table gives null, not an error. |
| RateTable.UnknownCodes | FxExchange.Tests/Services/HardcodedExchangeRateProviderTests.cs:43-54 | `XYZ`, `ABC` and the empty code give null. |
| Converter.Convert | FxExchange.Core/Services/CurrencyConverter.cs:10-34 | A negative amount fails with no lookup. Equal codes return the amount with no lookup. Otherwise the main code is looked up first and, if missing, is reported after that one lookup. Then the money code is looked up and, if missing, is reported after both lookups. With both rates found, the result is amount times main rate over money rate. |
| Converter.HundredthsCancel | FxExchange.Core/Services/CurrencyConverter.cs:30-31 | Going through DKK hundredths, as the code does, equals the plain cross rate. |
| Converter.NegativeFailsFirst | FxExchange.Core/Services/CurrencyConverter.cs:14-19 | A negative amount fails with the argument error for any pair, equal codes included, and asks for no rate. |
| Converter.SameCurrencyIsIdentity | FxExchange.Core/Services/CurrencyConverter.cs:18-19 | Equal codes give the amount back and never consult the provider: any two providers give the same conversion. |
| Converter.MainReportedFirst | FxExchange.Core/Services/CurrencyConverter.cs:22-24 | A missing main rate is reported with the main code after one lookup, even when the money code is unknown too. |
| Converter.BothFound | FxExchange.Core/Services/CurrencyConverter.cs:22-31 | With both rates found, the result is the cross rate of the two looked-up rates. |
| Converter.ConvertedIsNonNegative | FxExchange.Core/Services/CurrencyConverter.cs:30-31 | A successful conversion is never negative, and zero converts to zero. Between different codes, both rates are asked for, main first. |
| Converter.IntoPivot | FxExchange.Core/Services/CurrencyConverter.cs:30-31 | Converting into a currency at rate 100 gives amount times main rate over 100, which is the amount's DKK value. |
| Converter.ConvertBack | FxExchange.Core/Services/CurrencyConverter.cs:10-34 | Converting the result back through the swapped pair gives the original amount. |
| CommandResults.SuccessFlags | FxExchange.Core/Services/ExchangeCommandResult.cs:15-25 | `Success` sets the success flag and leaves both error flags false, with no message and no not-found code. It stores the original amount, both codes and the converted amount exactly as given. |
| CommandResults.InvalidFormatFlags | FxExchange.Core/Services/ExchangeCommandResult.cs:27-35 | `InvalidFormat` sets only the invalid-format flag and stores the given message, with no amounts, no pair codes and no not-found code. |
| CommandResults.CurrencyNotFoundFlags | FxExchange.Core/Services/ExchangeCommandResult.cs:37-45 | `CurrencyNotFound` sets only the not-found flag and stores the given code, with no message, no amounts and no pair codes. |
| CommandResults.ErrorFlags | FxExchange.Core/Services/ExchangeCommandResult.cs:47-54 | `Error` leaves all three flags false and stores the given message, with no amounts, no pair codes and no not-found code. |
| CommandResults.ToFlags | FxExchange.Core/Services/ExchangeCommandResult.cs:5-54 | In the flag view of any result at most one flag is set. Only a success carries amounts or codes, and the success flag is set exactly for a success. |
| CommandResults.FlagsMatchFactories | FxExchange.Core/Services/ExchangeCommandResult.cs:15-54 | The flag view of each variant is exactly what the matching factory method builds. |
| CommandResults.FlagsRoundTrip | FxExchange.Core/Services/ExchangeCommandResult.cs:5-54 | Reading the flag view back gives the original result, so the flags lose nothing. |
| Processor.FromFailure | FxExchange.Core/Services/ExchangeCommandProcessor.cs:50-61 | A format error becomes an invalid format carrying its text. A not-found failure becomes a not-found result with the same code. Every other failure becomes an error carrying its .NET message. None of them is a success. |
| Processor.Validate | FxExchange.Core/Services/ExchangeCommandProcessor.cs:12-39 | A rejection before the converter is always an invalid format or an error. An accepted input has exactly three tokens, starts with `Exchange` in any case, and yields the parsed pair and the parsed amount. |
| Processor.ProcessCommand | FxExchange.Core/Services/ExchangeCommandProcessor.cs:10-62 | Every input yields a result. The converter is called at most once, and only with the validated request. A success or a not-found result means it was called. A success reports the parsed amount, both codes and exactly the converter's value. A not-found result carries the code the converter reported. |
| Processor.BlankInput | FxExchange.Core/Services/ExchangeCommandProcessor.cs:12-15 | Blank input gives "Input cannot be empty" and no converter call. |
| Processor.WrongTokenCount | FxExchange.Core/Services/ExchangeCommandProcessor.cs:17-22 | Any token count other than three gives the usage message and no converter call. |
| Processor.WrongCommandWord | FxExchange.Core/Services/ExchangeCommandProcessor.cs:24-27 | A first token that is not `Exchange`, compared ignoring case, gives the command-name message and no converter call. |
| Processor.PairCheckedBeforeAmount | FxExchange.Core/Services/ExchangeCommandProcessor.cs:34-53 | A pair the parser rejects decides the result whatever the amount token holds. A format error there gives an invalid format carrying the parser's message. |
| Processor.BlankPairToken | FxExchange.Core/Services/ExchangeCommandProcessor.cs:32-61 | A pair token made only of non-space white space ends as a general error carrying the pair parser's argument message. |
| Processor.BadAmount | FxExchange.Core/Services/ExchangeCommandProcessor.cs:36-39 | An amount the parser rejects gives the invalid-amount message quoting the token, and no converter call. |
| Processor.ConverterOutcome | FxExchange.Core/Services/ExchangeCommandProcessor.cs:41-61 | A valid input calls the converter exactly once with the parsed pair and amount. A value becomes a success. A not-found failure keeps its code. A format failure keeps its text. Anything else becomes an error with its message. |
| Processor.ConverterUnusedOnRejection | FxExchange.Core/Services/ExchangeCommandProcessor.cs:12-39 | A rejected input makes no converter call, so any two converters give the same outcome. |
| Processor.SameShapeSameOutcome | FxExchange.Core/Services/ExchangeCommandProcessor.cs:12-22 | The outcome depends on the input only through whether it is blank and through its tokens. |
| Processor.ExtraSpacesIgnored | FxExchange.Core/Services/ExchangeCommandProcessor.cs:17-22 | A leading space, a trailing space or a doubled space between tokens leaves the outcome unchanged. |
| Text.UpperIdempotent | FxExchange.Core/Models/Currency.cs:16 | Upper-casing an upper-cased string changes nothing. |
| Text.Trim | FxExchange.Core/Models/CurrencyPair.cs:17-18 | `Trim` gives a middle slice of its input with only white space cut from either end. The slice starts and ends with non-white-space, and it is empty exactly when the input is blank. |
| Text.TrimTrimmed | FxExchange.Core/Models/CurrencyPair.cs:17-18 | Trimming a string with no white space at either end changes nothing. |
| Text.Split | FxExchange.Core/Models/CurrencyPair.cs:13 | `Split('/')` gives one more piece than there are separators. No piece holds the separator, and joining the pieces with it restores the input. |
| Text.SplitJoin | FxExchange.Core/Models/CurrencyPair.cs:13 | Splitting pieces that were joined with a separator they do not contain gives the pieces back. |
| Text.Tokens | FxExchange.Core/Services/ExchangeCommandProcessor.cs:17 | Splitting on spaces with empty entries removed gives non-empty tokens without spaces. |
| Text.TokensJoin | FxExchange.Core/Services/ExchangeCommandProcessor.cs:17 | Space-free words joined by single spaces tokenise back to the same words. |
| Text.TokensIgnoreExtraSpaces | FxExchange.Core/Services/ExchangeCommandProcessor.cs:17 | Spaces at either end, or a doubled space in the middle, leave the tokens unchanged. |
| DecimalText.ParseDecimal | FxExchange.Core/Services/ExchangeCommandProcessor.cs:36 | An accepted amount token is non-empty, and a negative amount comes only from a leading minus sign. |
| DecimalText.ParsesNatText | FxExchange.Core/Services/ExchangeCommandProcessor.cs:36 | The decimal digits of any natural number parse back to that number. |
| DecimalText.ParsesNegated | FxExchange.Core/Services/ExchangeCommandProcessor.cs:36 | A minus sign before digits gives the negated number. |
| DecimalText.ParsesFraction | FxExchange.Tests/Services/ExchangeCommandProcessorTests.cs:138-141 | Digits, a point and more digits parse to the whole part plus the value of the digits after the point, as the tests' fractional amounts need. |
| DecimalText.RejectsNonDigit | FxExchange.Tests/Services/ExchangeCommandProcessorTests.cs:89-103 | A token holding a letter or another character that is neither a digit nor a point, after an optional sign, is not an amount. |
| DecimalText.RejectsTwoPoints | FxExchange.Tests/Services/ExchangeCommandProcessorTests.cs:89-103 | A token with two decimal points, such as `12.34.56`, is not an amount, with or without a sign. |
| Scenarios.FiftyAndAQuarter | FxExchange.Tests/Services/ExchangeCommandProcessorTests.cs:140 | The amount token `50.25` parses to exactly 50.25. |
| Scenarios.EuroToDollar | FxExchange.Tests/Services/ExchangeCommandProcessorTests.cs:267-284 | `Exchange EUR/USD 100` through the real table succeeds with 100 × 743.94 / 663.11. That value rounds to 112.19. The converter is called once with the pair EUR/USD and the amount 100. |
| Scenarios.LowerCaseCommand | FxExchange.Tests/Services/ExchangeCommandProcessorTests.cs:72-87 | `exchange EUR/USD 100` succeeds the same way as the capitalised command. |
| Scenarios.EuroToEuro | FxExchange.Tests/Services/ExchangeCommandProcessorTests.cs:179-196 | `Exchange EUR/EUR 100` gives 100 back. |
| Scenarios.UnknownMain | FxExchange.Tests/Services/ExchangeCommandProcessorTests.cs:120-136 | `Exchange XYZ/USD 100` reports XYZ as not found. |
| Scenarios.UnknownMoney | FxExchange.Tests/Services/ExchangeCommandProcessorTests.cs:120-136 | `Exchange EUR/ABC 100` reports ABC as not found. |
| Scenarios.NegativeCommand | FxExchange.Core/Services/ExchangeCommandProcessor.cs:41-61 | `Exchange EUR/USD -5` passes the processor's checks, is refused by the converter (FxExchange.Core/Services/CurrencyConverter.cs:14-15), and the catch-all turns that into the error "Amount cannot be negative (Parameter 'amount')". |
| Scenarios.NotANumber | FxExchange.Tests/Services/ExchangeCommandProcessorTests.cs:89-103 | `Exchange EUR/USD abc` gives the invalid-amount message and no converter call. |
| Scenarios.EmptyInput | FxExchange.Tests/Services/ExchangeCommandProcessorTests.cs:26-39 | Empty input gives "Input cannot be empty" and no converter call. |
| Scenarios.OtherCommandWord | FxExchange.Tests/Services/ExchangeCommandProcessorTests.cs:57-70 | `Convert EUR/USD 100` gives the command-name message and no converter call. |
| Scenarios.EuroDollarRate | FxExchange.Tests/Services/CurrencyConverterTests.cs:61-78 | 100 EUR converts at the table's rates to 100 × 743.94 / 663.11 USD. |
| Scenarios.UnknownMainRate | FxExchange.Core/Services/CurrencyConverter.cs:22-24 | Over the table, XYZ/USD fails on XYZ after asking for XYZ only. |
| Scenarios.UnknownMoneyRate | FxExchange.Core/Services/CurrencyConverter.cs:26-28 | Over the table, EUR/ABC fails on ABC after asking for EUR and then ABC. |
| Scenarios.NegativeRejected | FxExchange.Core/Services/CurrencyConverter.cs:14-15 | Over the table, a negative amount is refused with no lookup, and its message names the `amount` parameter. |
| Scenarios.KronerToEuro | FxExchange.Tests/Services/CurrencyConverterTests.cs:114-129 | 743.94 DKK are exactly 100 EUR. |
| Scenarios.PoundToKroner | FxExchange.Tests/Services/CurrencyConverterTests.cs:97-112 | 100 GBP are exactly 852.85 DKK. |
| Scenarios.CrownToCrown | FxExchange.Tests/Services/CurrencyConverterTests.cs:131-146 | 100 SEK convert to a value that rounds to 97.07 NOK. |

## Left out

- FxExchange.Console (the read-print loop and the dependency-injection wiring) is left out: it is terminal I/O with no conversion logic.
- ConsoleOutputService is left out: it only presents results, and its decimal formatting depends on the culture. `CommandResults.FromFlags` reads the flags in the order that service checks them, and is used only for the round trip.
- Decimal precision is not modelled: amounts and rates are exact reals, so the 28-digit limit and the rounding of decimal division are abstracted away. The rounded figures in the scenarios are stated as open intervals around the rounding boundaries.
- Decimal overflow is not modelled either. In the program, `Exchange GBP/DKK 10000000000000000000000000000` overflows `decimal` in the conversion formula (FxExchange.Core/Services/CurrencyConverter.cs:30). The `OverflowException` is then caught as a general error (FxExchange.Core/Services/ExchangeCommandProcessor.cs:58-61). The model reports a success for it.
- `decimal.TryParse` depends on the culture and is a parameter of `Processor.ProcessCommand`. `DecimalText.ParseDecimal` (sign, digits, at most one point) stands in for it only in `Scenarios`. The differences are listed on the next line.
- DecimalText.ParseDecimal: accepts only a leading sign, digits and at most one point. `decimal.TryParse` with its default `NumberStyles.Number` also accepts a trailing sign (`5-` is −5, so `Exchange EUR/USD 5-` ends as the negative-amount `Error` in the program but as an invalid amount in the model), thousands separators (`1,000`) and surrounding white space (a tab left inside a token), and it fails beyond the `decimal` range; none of these is modelled. Like the grammar, it accepts no exponent.
- `ToUpperInvariant` and `OrdinalIgnoreCase` are modelled on ASCII letters only. Other characters are left as they are.
- Text.UpperIdempotent: states idempotence for the ASCII model of `ToUpperInvariant`, not for the full Unicode case mapping.
- Null arguments to `CurrencyPair.Parse`, `ProcessCommand` and `Convert`, and to the injected collaborators, are not modelled: those inputs are plain strings and datatypes. The nullable constructor arguments of `Currency`, `ExchangeRate` and `CurrencyPair` are modelled as `Option`.
- A rate provider that throws is not modelled: the provider is a total function returning an optional rate, as the hard-coded table is.
- `Currency.GetHashCode` depends on the runtime's string hash, which is a parameter of `Currencies.HashCode`. Only its agreement with equality is stated.
- The public setters of `ExchangeCommandResult` are not modelled: a result is immutable once built.
- `ICurrencyConverter`, `IExchangeRateProvider` and `CurrencyNotFoundException` are not modelled as types of their own. The interfaces are function parameters, and the exception is the `NotFound` failure, whose message is "Currency not found: " followed by the code, as FxExchange.Core/Exceptions/CurrencyNotFoundException.cs:3 builds it.
