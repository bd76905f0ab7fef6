/** The exceptions the conversion pipeline raises, as values. */
module Failures {

  /** One variant per exception kind the processor tells apart. */
  datatype Failure =
      /** `FormatException`: malformed currency-pair text. */
    | FormatError(text: string)
      /** `ArgumentException(message, paramName)`. */
    | Argument(text: string, param: string)
      /** `ArgumentNullException(paramName)`. */
    | ArgumentNull(param: string)
      /** `CurrencyNotFoundException`: a code without a rate. */
    | NotFound(code: string)
      /** Any other exception a converter may raise. */
    | Other(text: string)

  /** `Exception.Message` as .NET renders it: argument exceptions append
      the parameter name. */
  function Message(f: Failure): string {
    match f
    case FormatError(text) => text
    case Argument(text, param) => text + " (Parameter '" + param + "')"
    case ArgumentNull(param) => "Value cannot be null. (Parameter '" + param + "')"
    case NotFound(code) => "Currency not found: " + code
    case Other(text) => text
  }
}
