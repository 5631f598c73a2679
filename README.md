# UPI payment QR service — a Dafny model

The service answers `GET /api/qr` with a PNG QR code that encodes a UPI
payment URI for a fixed payee (`satyam84ya@fam`). Two handlers exist:
`qr.py`, a serverless handler that draws a plain black-on-white symbol, and
`app.py`, which also takes a `style` and two hex colours, draws the symbol
with a styled module drawer and colour mask, and frames it with a
decorative border.

This project models what the two handlers compute around the QR encoder:

- the query defaults (`amount` empty, `name` `Satyam`, `currency` `INR`,
  `style` `basic`, `color1` `000000`, `color2` `FFFFFF`);
- the amount check, with its three outcomes: accepted, 400
  `Invalid amount provided`, or `float()` raising and the handler's
  `except` answering 500 (module `Amount`);
- the payment URI, built by plain concatenation, and an inverse that reads
  it back (module `PaymentUri`);
- `hex_to_rgb`, including Python's `lstrip('#')`, the three-character
  shorthand, the clamping slices and `int(field, 16)` with its white-space
  and sign rules (module `HexColor`);
- the style dispatch: which module drawer and colour mask `make_image`
  receives, and which border kind is drawn (module `Style`);
- `add_decorative_border` as imperative code: a `Canvas` object records,
  in order, the rectangles drawn on it and the final paste, and the loops
  over `range(40)` and `range(0, 40, 3)` are `while` loops proved against
  functions that list the expected rectangles (module `Border`);
- both handlers end to end, from the query to a `Response` that is the
  description of the image (URI, encoder settings, colours, image recipe,
  border kind), a 400 or a 500 (modules `ServerlessService`, `StyledService`).

The amount check is stated in its own terms by `Amount.Verdicts`: an amount
is accepted exactly when it is empty or a decimal numeral (digits with at
most one dot and at least one digit); answered 400 exactly when it is
non-empty and holds a character other than a digit or a dot, or no digit;
and answered 500 exactly when it is digits with two or more dots. A `-`
anywhere is rejected by the digit test, so the `float(amount) < 0` clause
never decides anything. An amount with two or more dots, such as `1.2.3`,
passes the digit test; `float()` then raises and the handler's `except`
answers 500, not 400 (`ServerlessService.ExampleTwoDots`).

The URI inserts `name` and `currency` verbatim. `PaymentUri.ParseBuild` and
`PaymentUri.BuildParse` prove the URI reads back as its fields whenever
those hold no `&`; `PaymentUri.FieldsNotDetermined` and
`ServerlessService.AmountThroughCurrency` show what happens otherwise. For
example, a currency of `INR&am=-5` puts the amount `-5` into an accepted
URI even though the amount check would reject it.

The border loops draw their rectangles to `new_width - i`, while the basic
border draws to `new_width - 1`. So the outermost gradient and pattern
rectangles reach one pixel past the canvas edge (`Border.OuterEdges`).

## Model

| member | source | states |
|---|---|---|
| Text.Range | app.py:169 | Python's `range` with a positive step; its length and elements are stated by `Text.RangeAt` |
| Text.RangeAt | app.py:180 | `range(start, stop, step)` is empty exactly when start >= stop; its k-th element is start + k*step; its last element is the final one below stop |
| HexColor.HexToRgb | app.py:12-17 | `hex_to_rgb`: converts or raises on the literal of the first unreadable field (`ConvertOutcome`); its other properties are stated by `HashesStripped`, `ShorthandIsDoubled`, `SixDigitsRead`, `TrailingIgnored`, `FormatThenRead`, `ReadThenFormat` and the failure lemmas `ShortColourFails` and `StrayCharacterFails` |
| HexColor.Expand | app.py:15-16 | the three-character shorthand rule; stated by `DoubledThree` and `ShorthandIsDoubled` |
| HexColor.Slice | app.py:17 | Python's clamping slice `s[i:j]`: its length is the clamped length; used as stated by `Fields`, `SixDigitFields` and `FiveCharacters` |
| HexColor.ParseHexField | app.py:17 | `int(field, 16)` on a field of at most two characters; stated by `TwoDigits`, `DigitPair`, `StrayInField` and `ShortColourFails` |
| HexColor.Convert | app.py:17 | the tuple of three `int()` calls, failing at the first unreadable field; stated by `ConvertOutcome`, `FieldFails` and `SixDigitsRead` |
| HexColor.LStripHash | app.py:14 | `lstrip('#')`: the result is no longer than the input and does not start with `#` |
| HexColor.StripRemovesHashes | app.py:14 | every character `lstrip('#')` removes is a `#`, and what it keeps is a suffix of the input |
| HexColor.HashesStripped | app.py:14 | any number of leading `#` is removed, not just one |
| HexColor.LeadingHashesIgnored | app.py:14 | a colour with extra leading `#` converts exactly like the colour without them |
| HexColor.DoubledThree | app.py:16 | the doubling comprehension turns `abc` into `aabbcc` |
| HexColor.ShorthandIsDoubled | app.py:15-16 | a three-character colour converts exactly like its doubled six-character form |
| HexColor.Fields | app.py:14-17 | three fields are read, each at most two characters long |
| HexColor.TwoDigits | app.py:17 | `int(f, 16)` on two hex digits is 16 times the first digit's value plus the second's |
| HexColor.SixDigitFields | app.py:17 | for six hex digits after stripping, the fields are the pairs at offsets 0, 2 and 4 |
| HexColor.SixDigitsRead | app.py:17 | for six hex digits each component is the base-16 value of its pair, hence within 0..255 |
| HexColor.TrailingIgnored | app.py:17 | only characters 0-5 after stripping are read; a longer colour converts like its first six characters |
| HexColor.DigitPair | app.py:17 | a byte's two hex digits read back as that byte |
| HexColor.FormatThenRead | app.py:17 | any colour with components in 0..255, formatted as six hex digits, converts back to itself |
| HexColor.LowerOfPair | app.py:17 | formatting the value of a hex pair gives that pair in lower case |
| HexColor.LowerDigit | app.py:17 | a hex digit's value formatted as a lower-case digit is that digit in lower case |
| HexColor.FormatPairs | app.py:17 | six hex digits read as bytes and formatted back give the lower-cased digits |
| HexColor.ReadThenFormat | app.py:17 | six hex digits round-trip through conversion and formatting up to letter case |
| HexColor.ShortColourFails | app.py:17 | a colour of 0, 1, 2 or 4 characters after stripping makes `int()` raise |
| HexColor.FiveCharacters | app.py:17 | with five characters the third field is the single fifth character |
| HexColor.StrayInField | app.py:17 | a field holding a character that is no hex digit, space or sign cannot be read |
| HexColor.SameFields | app.py:17 | two colours with the same three fields convert alike |
| HexColor.ConvertOutcome | app.py:17 | the conversion succeeds exactly when all three fields are read, and otherwise fails carrying the literal of the first field `int()` rejects |
| HexColor.FieldFails | app.py:17 | when any field cannot be read the whole conversion fails |
| HexColor.StrayCharacterFails | app.py:17 | any character among the first six that is no hex digit, space or sign makes the conversion fail |
| Amount.RemoveDots | app.py:62 | `replace('.', '')` leaves no dot and keeps every other character as often as it occurs |
| Amount.RemoveDotsSingle | app.py:62 | on one character, `replace('.', '')` keeps it unless it is a dot |
| Amount.RemoveDotsAppend | app.py:62 | `replace('.', '')` of a concatenation is the concatenation of the results, so the kept characters stay in order |
| Amount.RemoveDotsDigits | app.py:62 | the dot-free amount is a non-empty digit string exactly when the amount is digits and dots with at least one digit |
| Amount.RemoveDotsMembers | app.py:62 | a character survives `replace('.', '')` exactly when it is in the amount and is not a dot |
| Amount.DigitCheckPassed | app.py:62 | an amount that passes the digit test is digits and dots with at least one digit |
| Amount.ParseFloat | app.py:62 | when `float()` succeeds its value is non-negative, and for plain digits it is their decimal value |
| Amount.DotSplit | app.py:62 | the dots of an amount are those before a given dot, that dot and those after it |
| Amount.DigitsBothSides | app.py:62 | with a single dot the characters on both sides are digits |
| Amount.OneDotNumeral | app.py:62 | digits with at least one digit hold at most one dot exactly when they form a decimal numeral |
| Amount.CheckAmount | app.py:62-63 | the amount check with its three outcomes; characterised by `Amount.Verdicts`, `MinusRejected` and `NegativeBranchDead` |
| Amount.Verdicts | app.py:62-63 | accepted iff empty or a decimal numeral; rejected iff non-empty with a non-digit-non-dot or no digit; `float()` raises iff digits with two or more dots |
| Amount.MinusRejected | app.py:62 | any amount containing `-` is rejected with 400 |
| Amount.NegativeBranchDead | app.py:62 | once the digit test passes, the verdict depends only on the number of dots; the negative-value clause never decides |
| Amount.DigitsAccepted | app.py:62 | a non-empty string of digits is accepted |
| Amount.HundredAccepted | qr.py:20 | `100` is accepted |
| Amount.DotsAt | app.py:62 | two dots at different positions make the dot count at least two |
| Amount.TwoDotsCounted | qr.py:20 | `1.2.3` holds at least two dots, only digits and dots, and a digit |
| Amount.TwoDotsRaise | qr.py:20 | `1.2.3` passes the digit test and then makes `float()` raise |
| PaymentUri.TailRead | qr.py:27-29 | a `&`-free currency followed by the segment of a `&`-free amount reads back as that currency and amount |
| PaymentUri.TailBuilt | qr.py:27-29 | whatever reads as currency and amount is rebuilt from them |
| PaymentUri.BodyRead | app.py:73-75 | after the prefix, `&`-free name, currency and amount read back as exactly those fields |
| PaymentUri.BodyBuilt | app.py:73-75 | whatever reads as fields after the prefix has `&`-free fields and is rebuilt from them |
| PaymentUri.ParseBuild | app.py:73-75 | for `&`-free name, currency and amount the URI reads back as exactly the three fields |
| PaymentUri.BuildParse | app.py:73-75 | every URI that reads back is the URI built from the fields it reads as |
| PaymentUri.BuildUri | app.py:73-75 | builds the payment URI by plain concatenation; its properties are stated by `ParseBuild` and `BuildParse` (round trip), `AmountIsLastSegment`, `PrefixText` and `FieldsNotDetermined` |
| PaymentUri.PrefixText | qr.py:24-27 | every URI, whatever its fields, starts with `upi://pay?pa=satyam84ya@fam&pn=` |
| PaymentUri.DefaultUri | qr.py:15-17 | the default parameters give the prefix followed by `Satyam&cu=INR` |
| PaymentUri.FieldsNotDetermined | qr.py:27 | without escaping, two different name/currency pairs build the same URI |
| PaymentUri.AmountInCurrency | qr.py:27-29 | a currency ending in `&am=` and an amount builds the URI that amount would build |
| PaymentUri.LastSegment | qr.py:28-29 | appending `&am=` and an amount leaves the head intact and makes them the final segment |
| PaymentUri.AmountIsLastSegment | qr.py:27-29 | without an amount the URI ends with the currency; with one, `&am=` and the amount verbatim form its final segment |
| Style.ImageFor | app.py:88-137 | the image chain; stated by `DistinctImages`, `OnlyTheStyleMatters` and `ColoursPassedThrough` |
| Style.BorderKindFor | app.py:167-188 | the border chain; stated by `BorderFollowsImage` and `OnlyTheStyleMatters` |
| Style.ClassifyTagName | app.py:88-137 | classifying a tag by the documented style whose name it is: each of the six names is read as its own style, and any other tag as basic |
| Style.OnlyTheStyleMatters | app.py:133-137 | an unknown or absent tag draws exactly the image and border of the style it is read as |
| Style.DistinctImages | app.py:88-132 | the six documented styles select six different image recipes, whatever the colours |
| Style.BorderFollowsImage | app.py:167-186 | gradient border iff gradient mask, pattern border iff solid-fill styled image, solid border iff plain image |
| Style.ColoursPassedThrough | app.py:89-137 | for every style the front colour is the fill, solid front or gradient centre, and the back colour the background |
| Border.Canvas.constructor | app.py:163 | a new canvas has the given size and background and nothing drawn on it |
| Border.Canvas.Rectangle | app.py:176 | drawing a rectangle appends exactly that outline to the canvas and changes nothing else |
| Border.Canvas.PasteImage | app.py:192 | pasting appends exactly that paste to the canvas |
| Border.GradientFrames | app.py:169-176 | one gradient rectangle per inset |
| Border.PatternFrames | app.py:180-182 | one pattern rectangle per inset |
| Border.GradientFramesAt | app.py:169-176 | the k-th gradient rectangle is the width-1 frame at the k-th inset, in that inset's blend colour |
| Border.PatternFramesAt | app.py:180-182 | the k-th pattern rectangle is the width-2 frame at the k-th inset, in the front colour iff the inset is divisible by 6 |
| Border.GradientStep | app.py:169-176 | one more turn of the gradient loop appends exactly the next inset's rectangle |
| Border.PatternStep | app.py:180-182 | one more turn of the pattern loop, in the colour it picks, appends exactly the next inset's rectangle |
| Border.DrawGradientFrames | app.py:169-176 | the loop over any insets appends their gradient rectangles, in order, to what was drawn before |
| Border.DrawGradientBorder | app.py:169-176 | the loop over `range(0, 40)` appends the forty gradient rectangles, in inset order, to what was drawn before |
| Border.DrawPatternFrames | app.py:180-182 | the loop over any insets appends their pattern rectangles, in order, to what was drawn before |
| Border.DrawPatternBorder | app.py:180-182 | the loop over `range(0, 40, 3)` appends the pattern rectangles, in inset order, to what was drawn before |
| Border.DrawSolidBorder | app.py:186-188 | appends the three rectangles of the basic border |
| Border.AddDecorativeBorder | app.py:155-194 | the canvas is 80 pixels wider and taller, has the back colour, holds the border of the style's kind and then the symbol pasted at (40, 40) |
| Border.GradientBorderShape | app.py:169-176 | forty width-1 rectangles at insets 0..39, the k-th at step k of 40 from front to back |
| Border.PatternBorderShape | app.py:180-182 | fourteen width-2 rectangles at insets 0, 3, ..., 39, in the front colour exactly at every other one (inset divisible by 6) |
| Border.OuterEdges | app.py:176-186 | the outermost gradient and pattern rectangles end at x = width and y = height, the basic one at width - 1 and height - 1 |
| Border.InsetsInBand | app.py:169 | every element of `range(start, stop, step)` lies in [start, stop) |
| Border.FramesAround | app.py:169-192 | frames at insets within the 40-pixel band start inside the band and end beyond the pasted symbol |
| Border.BorderAroundSymbol | app.py:157-192 | every border rectangle starts inside the 40-pixel band and ends beyond the pasted symbol |
| Api.Get | qr.py:15-17 | `request.args.get(key, default)`; its use for the defaults is stated by `ServerlessService.DefaultQuery` and `StyledService.DefaultRequest` |
| ServerlessService.GenerateQr | qr.py:13-54 | Ok iff the amount is empty or a decimal numeral; 400 with `Invalid amount provided` iff it is malformed; 500 iff `float()` raises |
| ServerlessService.DefaultQuery | qr.py:15-29 | without parameters the URI is the default one, with no amount |
| ServerlessService.AcceptedUri | qr.py:24-29 | an accepted request encodes the URI of its parameters, which reads back as them when they hold no `&` |
| ServerlessService.ExampleUri | qr.py:27-29 | `Test`, `INR`, `100` give the prefix followed by `Test&cu=INR&am=100` |
| ServerlessService.ExampleWithAmount | qr.py:15-29 | `amount=100&name=Test&currency=INR` is accepted with that URI |
| ServerlessService.ExampleLetters | qr.py:20-21 | `amount=abc` is answered 400 |
| ServerlessService.ExampleTwoDots | qr.py:20-54 | `amount=1.2.3` is answered 500, not 400 |
| ServerlessService.AmountThroughCurrency | qr.py:15-29 | with no amount, a currency carrying `&am=` and any amount is accepted and encodes that amount as the final segment |
| StyledService.Color1 | app.py:58 | `color1`, given or defaulted to `000000`, is ASCII when the query is |
| StyledService.Color2 | app.py:59 | `color2`, given or defaulted to `FFFFFF`, is ASCII when the query is |
| StyledService.GenerateQr | app.py:51-153 | 400 iff the amount is malformed; 500 from `float()` iff it is unparsable; Ok iff the amount passes and both colours convert; a colour 500 only after the amount passed |
| StyledService.UniformColour | app.py:14-17 | six copies of one hex digit read as a grey of that digit's doubled value |
| StyledService.UniformStripped | app.py:14 | six copies of one hex digit lose nothing to `lstrip('#')` |
| StyledService.DefaultColours | app.py:58-59 | the default colours convert to black and white |
| StyledService.AgreesWithServerless | app.py:54-75 | both handlers answer 400 to the same amounts, and when the colours convert they give the same status and the same URI |
| StyledService.ColourFailureIs500 | app.py:62-67 | a malformed amount is answered 400 before the colours are read; with an accepted amount a bad `color1` gives 500 carrying its literal |
| StyledService.AcceptedRequest | app.py:66-137 | an accepted request uses the converted colours, the style's image and border, version 1 with high error correction, and the URI of its parameters |
| StyledService.BasicStyle | app.py:133-137 | `basic` selects the plain image and the solid border |
| StyledService.DefaultRequest | app.py:54-140 | without parameters: the default URI, black on white, the plain image and the solid border |

## Left out

- The QR encoder (`qrcode.QRCode`, `add_data`, `make`, `make_image`) is a library whose source is not part of this model. Only the settings passed to it are recorded (`ServerlessService.Settings`, `StyledService.Settings`). The `gradient` and `gradient_vertical` styles pass `center_color` to `HorizontalGradiantColorMask` and `VerticalGradiantColorMask` (app.py lines 110-113 and 119-122). If the library's masks do not accept that keyword, constructing them raises `TypeError` and the handler answers 500. The model answers Ok for these two styles (`StyledService.GenerateQr`, `Style.ColoursPassedThrough`), which holds only for a library that accepts the keyword. Any exception it raises (a payload too long for the symbol, for example) is not modelled.
- Pixels, PIL's `Image`, `ImageDraw` and PNG output to a byte buffer are not modelled. The canvas records the rectangles and the paste in drawing order, and the symbol is described by its width and height.
- Border.DrawGradientBorder: each outline colour is recorded as step i of 40 of the blend from the front colour to the back colour. The truncated floating-point interpolation `int(c1*(1-ratio) + c2*ratio)` is not computed.
- Flask routing, the `/` and `/health` endpoints, the OPTIONS preflight, CORS headers, `jsonify`, `send_file` and `app.run` are HTTP plumbing. The query is a record of optional strings and the answer is a `Response`: Ok with the image description, 400 with the error text, or 500 with the exception that caused it. The exception's message text is not modelled.
- HexColor.HexToRgb: stated for ASCII colours only. Python's `int()` also accepts non-ASCII digits and white space.
- Amount.CheckAmount: stated for ASCII amounts only. `str.isdigit` and `float()` also accept other Unicode digits.
- Amount.ParseFloat: the value is the exact decimal; rounding to a double is not modelled and cannot change the sign, which is all the check uses.
