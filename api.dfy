/** What the two handlers share: the query as optional strings, the
    outcome of a request, and the settings passed to the QR encoder. */
module Api {
  import opened Text

  /** The query parameters a handler reads; `None` when absent. */
  datatype Query = Query(
    amount: Option<string>,
    name: Option<string>,
    currency: Option<string>,
    style: Option<string>,
    color1: Option<string>,
    color2: Option<string>)

  /** `request.args.get(key, default)`. */
  function Get(param: Option<string>, default: string): string {
    if param.Some? then param.value else default
  }

  predicate AsciiParam(param: Option<string>) {
    param.Some? ==> IsAscii(param.value)
  }

  /** The exception that ends a request in the handler's `except` clause. */
  datatype Fault =
    | FloatSyntax(amount: string)   // `float(amount)` raised ValueError
    | HexSyntax(literal: string)    // `int(literal, 16)` raised ValueError

  /** The outcome of a request: the image (described by what it is built
      from), the 400 answer, or the 500 answer. */
  datatype Response<+T> = Ok(value: T) | BadRequest(error: string) | InternalError(fault: Fault)
  {
    function StatusCode(): int {
      match this
      case Ok(_) => 200
      case BadRequest(_) => 400
      case InternalError(_) => 500
    }
  }

  /** The body of the 400 answer. */
  const InvalidAmountMessage: string := "Invalid amount provided"

  datatype ErrorCorrection = L | M | Q | H

  /** The arguments of `qrcode.QRCode(...)` and of `make(fit=...)`. */
  datatype EncoderSettings = EncoderSettings(version: nat, errorCorrection: ErrorCorrection, boxSize: nat, border: nat, fit: bool)
}
