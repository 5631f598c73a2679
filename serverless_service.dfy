/** `generate_qr` of qr.py: defaults, the amount check, the payment URI,
    and a black-on-white symbol. */
module ServerlessService {
  import opened Text
  import opened Api
  import opened Amount
  import opened PaymentUri

  /** What the image is built from: the encoded text, the encoder settings
      and the two colour names passed to `make_image`. */
  datatype PlainQr = PlainQr(uri: string, settings: EncoderSettings, fill: string, back: string)

  /** qr.py lines 32-37 and 39. */
  const Settings: EncoderSettings := EncoderSettings(1, L, 10, 4, true)

  /** The GET branch of `generate_qr`, for ASCII parameters. */
  function GenerateQr(q: Query): (r: Response<PlainQr>)
    requires AsciiParam(q.amount)
    ensures r.Ok? <==> Get(q.amount, DefaultAmount) == [] || IsDecimalNumeral(Get(q.amount, DefaultAmount))
    ensures r.BadRequest? <==> AmountMalformed(Get(q.amount, DefaultAmount))
    ensures r.BadRequest? ==> r.error == InvalidAmountMessage
    ensures r.InternalError? <==> AmountUnparsable(Get(q.amount, DefaultAmount))
  {
    var amount := Get(q.amount, DefaultAmount);
    var name := Get(q.name, DefaultName);
    var currency := Get(q.currency, DefaultCurrency);
    Verdicts(amount);
    match CheckAmount(amount)
    case Rejected => BadRequest(InvalidAmountMessage)
    case FloatError => InternalError(FloatSyntax(amount))
    case Accepted => Ok(PlainQr(BuildUri(name, currency, amount), Settings, "black", "white"))
  }

  // ---------------------------------------------------------------------
  // Properties

  /** Without parameters: no amount segment, the default name and
      currency. */
  lemma DefaultQuery()
    ensures var r := GenerateQr(Query(None, None, None, None, None, None));
            r == Ok(PlainQr(Prefix + "Satyam&cu=INR", Settings, "black", "white"))
  {
    var q := Query(None, None, None, None, None, None);
    assert CheckAmount([]) == Accepted;
    DefaultUri();
  }

  /** An accepted request encodes exactly the URI built from the
      parameters, or their defaults; for '&'-free parameters that URI reads
      back as those parameters, so the `&am=` segment is present exactly
      when an amount was given. */
  lemma AcceptedUri(q: Query)
    requires AsciiParam(q.amount) && GenerateQr(q).Ok?
    ensures var amount, name, currency := Get(q.amount, DefaultAmount), Get(q.name, DefaultName), Get(q.currency, DefaultCurrency);
            GenerateQr(q).value.uri == BuildUri(name, currency, amount) &&
            (Plain(name) && Plain(currency) ==> ParseUri(GenerateQr(q).value.uri) == Some(UriFields(name, currency, amount)))
  {
    var amount, name, currency := Get(q.amount, DefaultAmount), Get(q.name, DefaultName), Get(q.currency, DefaultCurrency);
    Verdicts(amount);
    assert Plain(amount) by {
      if amount != [] {
        assert DigitsAndDots(amount);
      }
    }
    if Plain(name) && Plain(currency) {
      ParseBuild(name, currency, amount);
    }
  }

  lemma AcceptedResponse(q: Query)
    requires AsciiParam(q.amount) && CheckAmount(Get(q.amount, DefaultAmount)) == Accepted
    ensures GenerateQr(q) ==
            Ok(PlainQr(BuildUri(Get(q.name, DefaultName), Get(q.currency, DefaultCurrency), Get(q.amount, DefaultAmount)),
                       Settings, "black", "white"))
  {
  }

  /** The URI for name Test, currency INR and amount 100. */
  lemma ExampleUri()
    ensures BuildUri("Test", "INR", "100") == Prefix + "Test&cu=INR&am=100"
  {
    BuildShape("Test", "INR", "100");
    assert Body("Test", "INR", "100") == "Test&cu=INR&am=100";
  }

  /** `amount=100&name=Test&currency=INR`. */
  lemma ExampleWithAmount()
    ensures var r := GenerateQr(Query(Some("100"), Some("Test"), Some("INR"), None, None, None));
            r.Ok? && r.value.uri == Prefix + "Test&cu=INR&am=100"
  {
    var q := Query(Some("100"), Some("Test"), Some("INR"), None, None, None);
    HundredAccepted();
    AcceptedResponse(q);
    ExampleUri();
  }

  /** `amount=abc` is answered with 400. */
  lemma ExampleLetters()
    ensures GenerateQr(Query(Some("abc"), None, None, None, None, None)) == BadRequest("Invalid amount provided")
  {
    Verdicts("abc");
    assert !IsDigit("abc"[0]);
  }

  /** `amount=1.2.3` passes the digit check and makes `float()` raise, so
      the answer is 500, not 400. */
  lemma ExampleTwoDots()
    ensures GenerateQr(Query(Some("1.2.3"), None, None, None, None, None)) == InternalError(FloatSyntax("1.2.3"))
  {
    TwoDotsRaise();
  }

  /** The amount check guards only the `amount` parameter: an amount it
      rejects (such as `-5`) still reaches the URI, verbatim and as its final
      segment, when it is written into the currency instead. */
  lemma AmountThroughCurrency(q: Query, currency: string, amount: string)
    requires q.amount == None && q.currency == Some(currency + "&am=" + amount) && amount != []
    ensures GenerateQr(q).Ok?
    ensures GenerateQr(q).value.uri == BuildUri(Get(q.name, DefaultName), currency, amount)
  {
    assert CheckAmount([]) == Accepted;
    AcceptedResponse(q);
    AmountInCurrency(Get(q.name, DefaultName), currency, amount);
  }
}
