/** `generate_qr` of app.py: defaults, the amount check, the two colours,
    the payment URI, and the style of the image and of its border. */
module StyledService {
  import opened Text
  import opened Api
  import opened Amount
  import opened PaymentUri
  import opened HexColor
  import opened Style
  import ServerlessService

  /** What the image is built from: the encoded text, the encoder settings,
      how `make_image` is called, which border is drawn, and the two
      colours. The image's pixel size comes from the QR encoder. */
  datatype StyledQr = StyledQr(
    uri: string,
    settings: EncoderSettings,
    image: ImageRecipe,
    border: BorderKind,
    front: Rgb,
    back: Rgb)

  /** app.py lines 78-85. */
  const Settings: EncoderSettings := EncoderSettings(1, H, 15, 2, true)

  /** Query defaults of app.py lines 57-59. */
  const DefaultStyle: string := "basic"
  const DefaultColor1: string := "000000"
  const DefaultColor2: string := "FFFFFF"

  predicate AsciiQuery(q: Query) {
    AsciiParam(q.amount) && AsciiParam(q.color1) && AsciiParam(q.color2)
  }

  /** `color1` and `color2` as read from the query, ASCII like the rest. */
  function Color1(q: Query): (c: string)
    requires AsciiParam(q.color1)
    ensures IsAscii(c)
  {
    Get(q.color1, DefaultColor1)
  }

  function Color2(q: Query): (c: string)
    requires AsciiParam(q.color2)
    ensures IsAscii(c)
  {
    Get(q.color2, DefaultColor2)
  }

  /** `generate_qr` up to the call into the QR encoder, for ASCII amount
      and colours. The amount is checked first, then `color1`, then
      `color2`; each failure ends the request. */
  function GenerateQr(q: Query): (r: Response<StyledQr>)
    requires AsciiQuery(q)
    ensures r.BadRequest? <==> AmountMalformed(Get(q.amount, DefaultAmount))
    ensures r.BadRequest? ==> r.error == InvalidAmountMessage
    ensures r.Ok? <==>
              (Get(q.amount, DefaultAmount) == [] || IsDecimalNumeral(Get(q.amount, DefaultAmount))) &&
              HexToRgb(Color1(q)).Converted? && HexToRgb(Color2(q)).Converted?
    ensures r.InternalError? && r.fault.FloatSyntax? <==> AmountUnparsable(Get(q.amount, DefaultAmount))
    ensures r.InternalError? && r.fault.HexSyntax? ==>
              !AmountMalformed(Get(q.amount, DefaultAmount)) && !AmountUnparsable(Get(q.amount, DefaultAmount)) &&
              (HexToRgb(Color1(q)).InvalidLiteral? || HexToRgb(Color2(q)).InvalidLiteral?)
  {
    var amount := Get(q.amount, DefaultAmount);
    var name := Get(q.name, DefaultName);
    var currency := Get(q.currency, DefaultCurrency);
    var style := Get(q.style, DefaultStyle);
    Verdicts(amount);
    match CheckAmount(amount)
    case Rejected => BadRequest(InvalidAmountMessage)
    case FloatError => InternalError(FloatSyntax(amount))
    case Accepted =>
      match HexToRgb(Color1(q))
      case InvalidLiteral(literal) => InternalError(HexSyntax(literal))
      case Converted(front) =>
        match HexToRgb(Color2(q))
        case InvalidLiteral(literal) => InternalError(HexSyntax(literal))
        case Converted(back) =>
          Ok(StyledQr(BuildUri(name, currency, amount), Settings,
                      ImageFor(style, front, back), BorderKindFor(style), front, back))
  }

  // ---------------------------------------------------------------------
  // Properties

  /** Six copies of one hex digit read as a grey whose three components
      are that digit's doubled value. */
  lemma UniformColour(s: string, c: char, v: int)
    requires IsHexDigit(c) && |s| == 6 && forall i :: 0 <= i < 6 ==> s[i] == c
    requires v == 17 * HexValue(c)
    ensures IsAscii(s) && HexToRgb(s) == Converted(Rgb(v, v, v))
  {
    UniformStripped(s, c);
    SixDigitsRead(s);
  }

  lemma UniformStripped(s: string, c: char)
    requires IsHexDigit(c) && |s| == 6 && forall i :: 0 <= i < 6 ==> s[i] == c
    ensures IsAscii(s) && LStripHash(s) == s && SixHexDigits(s)
  {
  }

  /** Without `color1` and `color2` the colours are black on white. */
  lemma DefaultColours(q: Query)
    requires q.color1 == None && q.color2 == None
    ensures HexToRgb(Color1(q)) == Converted(Rgb(0, 0, 0))
    ensures HexToRgb(Color2(q)) == Converted(Rgb(255, 255, 255))
  {
    UniformColour(Color1(q), '0', 0);
    UniformColour(Color2(q), 'F', 255);
  }

  /** The two handlers agree on the amount: the same requests get 400, and
      when the colours convert, the same requests succeed, with the same
      encoded URI. */
  lemma AgreesWithServerless(q: Query)
    requires AsciiQuery(q)
    ensures GenerateQr(q).BadRequest? <==> ServerlessService.GenerateQr(q).BadRequest?
    ensures HexToRgb(Color1(q)).Converted? && HexToRgb(Color2(q)).Converted? ==>
              GenerateQr(q).StatusCode() == ServerlessService.GenerateQr(q).StatusCode()
    ensures GenerateQr(q).Ok? ==>
              ServerlessService.GenerateQr(q).Ok? && GenerateQr(q).value.uri == ServerlessService.GenerateQr(q).value.uri
  {
    Verdicts(Get(q.amount, DefaultAmount));
  }

  /** A colour that does not convert ends an otherwise valid request with
      500, while a malformed amount is answered with 400 before the colours
      are read. */
  lemma ColourFailureIs500(q: Query)
    requires AsciiQuery(q) && HexToRgb(Color1(q)).InvalidLiteral?
    ensures AmountMalformed(Get(q.amount, DefaultAmount)) ==> GenerateQr(q) == BadRequest(InvalidAmountMessage)
    ensures CheckAmount(Get(q.amount, DefaultAmount)) == Accepted ==>
              GenerateQr(q) == InternalError(HexSyntax(HexToRgb(Color1(q)).literal))
  {
    Verdicts(Get(q.amount, DefaultAmount));
  }

  /** An accepted request uses the converted colours, the image and border
      its style selects, and the high error-correction settings. */
  lemma AcceptedRequest(q: Query)
    requires AsciiQuery(q) && GenerateQr(q).Ok?
    ensures var v := GenerateQr(q).value;
            var style := Get(q.style, DefaultStyle);
            HexToRgb(Color1(q)) == Converted(v.front) && HexToRgb(Color2(q)) == Converted(v.back) &&
            v.image == ImageFor(style, v.front, v.back) && v.border == BorderKindFor(style) &&
            v.settings.version == 1 && v.settings.errorCorrection == H && v.settings.fit &&
            v.uri == BuildUri(Get(q.name, DefaultName), Get(q.currency, DefaultCurrency), Get(q.amount, DefaultAmount))
  {
    Verdicts(Get(q.amount, DefaultAmount));
  }

  /** A request whose amount passes and whose colours convert is answered
      with the URI of its parameters and the image and border of its
      style, drawn in those colours. */
  lemma ConvertedRequest(q: Query, front: Rgb, back: Rgb)
    requires AsciiQuery(q) && CheckAmount(Get(q.amount, DefaultAmount)) == Accepted
    requires HexToRgb(Color1(q)) == Converted(front) && HexToRgb(Color2(q)) == Converted(back)
    ensures var style := Get(q.style, DefaultStyle);
            GenerateQr(q) ==
            Ok(StyledQr(BuildUri(Get(q.name, DefaultName), Get(q.currency, DefaultCurrency), Get(q.amount, DefaultAmount)),
                        Settings, ImageFor(style, front, back), BorderKindFor(style), front, back))
  {
  }

  /** The basic style selects the plain image and the solid border. */
  lemma BasicStyle(front: Rgb, back: Rgb)
    ensures ImageFor(DefaultStyle, front, back) == PlainImage(front, back)
    ensures BorderKindFor(DefaultStyle) == SolidBorder
  {
  }

  /** The default request: black on white, the basic image and the solid
      border, and the URI without an amount. */
  lemma DefaultRequest(q: Query)
    requires q.amount == q.name == q.currency == q.style == q.color1 == q.color2 == None
    ensures GenerateQr(q) ==
            Ok(StyledQr(Prefix + "Satyam&cu=INR", Settings,
                        PlainImage(Rgb(0, 0, 0), Rgb(255, 255, 255)), SolidBorder,
                        Rgb(0, 0, 0), Rgb(255, 255, 255)))
  {
    DefaultColours(q);
    assert CheckAmount([]) == Accepted;
    ConvertedRequest(q, Rgb(0, 0, 0), Rgb(255, 255, 255));
    BasicStyle(Rgb(0, 0, 0), Rgb(255, 255, 255));
    DefaultUri();
  }
}
