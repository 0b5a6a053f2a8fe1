/** The encoding options that every generate handler builds from the body's
    `size`, `darkColor` and `lightColor` (server.js lines 27-48, 77-98 and
    118-141), and the shape of the QR encoder that receives them. */
module EncodingOptions {
  import opened Wrappers
  import opened JsValues
  import opened NumberParsing

  datatype ErrorCorrectionLevel = L | M | Q | H

  /** Colours are whatever the body held: the server never checks them. */
  datatype Color = Color(dark: Json, light: Json)

  datatype Options = Options(width: Number, color: Color, errorCorrectionLevel: ErrorCorrectionLevel)

  /** `QRCode.toDataURL` or `QRCode.toBuffer`: given the text and the options,
      an image or the message of the error it throws. The library is not
      part of this model; every handler takes it as a parameter. */
  type Encoder<T> = (Json, Options) -> Result<T, string>

  const DefaultSize: Json := JNum(300)
  const DefaultDarkColor: Json := JStr("#000000")
  const DefaultLightColor: Json := JStr("#ffffff")

  /** The visual parameters after destructuring with defaults. */
  datatype Params = Params(size: Json, darkColor: Json, lightColor: Json)

  /** A destructuring default: it replaces `undefined` only, never `null`. */
  function WithDefault(v: Option<Json>, default: Json): Json
  {
    if v.Some? then v.value else default
  }

  /** `const { size = 300, darkColor = '#000000', lightColor = '#ffffff' } = req.body` */
  function ReadParams(body: map<string, Json>): (p: Params)
    ensures p.size == (if "size" in body then body["size"] else JNum(300))
    ensures p.darkColor == (if "darkColor" in body then body["darkColor"] else JStr("#000000"))
    ensures p.lightColor == (if "lightColor" in body then body["lightColor"] else JStr("#ffffff"))
  {
    Params(
      WithDefault(Lookup(body, "size"), DefaultSize),
      WithDefault(Lookup(body, "darkColor"), DefaultDarkColor),
      WithDefault(Lookup(body, "lightColor"), DefaultLightColor))
  }

  /** `parseInt(v)`: ToString, which may throw, then the parse. */
  function JsParseInt(v: Json): (r: Result<Number, string>)
    ensures r.Failure? <==> ThrowsOnToString(v)
    ensures r.Failure? ==> r.error == ToPrimitiveError
    ensures v.JStr? ==> r == Success(ParseInt(v.s))
  {
    match ToJsString(v)
    case Failure(e) => Failure(e)
    case Success(s) => Success(ParseInt(s))
  }

  /** The options object literal. Only `parseInt(size)` can throw, and it
      does so exactly when `size` holds an own `toString` key. */
  function BuildOptions(p: Params): (r: Result<Options, string>)
    ensures r.Failure? <==> ThrowsOnToString(p.size)
    ensures r.Failure? ==> r.error == ToPrimitiveError
    ensures r.Success? ==> r.value.errorCorrectionLevel == M && r.value.color == Color(p.darkColor, p.lightColor)
  {
    match JsParseInt(p.size)
    case Failure(e) => Failure(e)
    case Success(width) => Success(Options(width, Color(p.darkColor, p.lightColor), M))
  }

  /** Whatever the parameters, options that can be built carry the colours
      unchanged and error-correction level M; they fail to build exactly
      when converting `size` to a string throws. */
  lemma OptionsShape(p: Params)
    ensures BuildOptions(p).Failure? <==> ToJsString(p.size).Failure?
    ensures BuildOptions(p).Failure? ==> BuildOptions(p).error == ToJsString(p.size).error
    ensures BuildOptions(p).Success? ==>
      && BuildOptions(p).value.errorCorrectionLevel == M
      && BuildOptions(p).value.color.dark == p.darkColor
      && BuildOptions(p).value.color.light == p.lightColor
      && BuildOptions(p).value.width == ParseInt(ToJsString(p.size).value)
  {
  }

  /** An integral `size` becomes a width of the same number of pixels. */
  lemma WidthOfNumber(n: int, dark: Json, light: Json)
    ensures BuildOptions(Params(JNum(n), dark, light)) == Success(Options(Int(n), Color(dark, light), M))
  {
    ParseIntRoundTrip(n);
  }

  /** With no `size` in the body the width is 300. */
  lemma DefaultWidth(body: map<string, Json>)
    requires "size" !in body
    ensures BuildOptions(ReadParams(body)).Success?
    ensures BuildOptions(ReadParams(body)).value.width == Int(300)
  {
    var p := ReadParams(body);
    WidthOfNumber(300, p.darkColor, p.lightColor);
  }

  /** A string `size` that starts with a decimal integer gives that width,
      whatever follows: `"200px"` gives 200. */
  lemma WidthOfDecimalString(n: int, rest: string, dark: Json, light: Json)
    requires rest == [] || !IsDecimalDigit(rest[0])
    requires n == 0 && rest != [] ==> rest[0] != 'x' && rest[0] != 'X'
    ensures BuildOptions(Params(JStr(IntToDecimal(n) + rest), dark, light)).value.width == Int(n)
  {
    ParseIntDecimalPrefix(n, rest);
  }

  /** A one-element array is converted through its element: `[200]` gives 200. */
  lemma WidthOfSingletonArray(n: int, dark: Json, light: Json)
    ensures BuildOptions(Params(JArr([JNum(n)]), dark, light)) == Success(Options(Int(n), Color(dark, light), M))
  {
    assert JoinElems([JNum(n)]) == Success(IntToDecimal(n));
    ParseIntRoundTrip(n);
  }

  /** `null`, booleans and plain objects have no digits in their string form,
      so the width is NaN and the encoder still runs. */
  lemma NonNumericSizeIsNaN(size: Json, dark: Json, light: Json)
    requires size.JNull? || size.JBool? || (size.JObj? && "toString" !in size.props)
    ensures BuildOptions(Params(size, dark, light)) == Success(Options(NaN, Color(dark, light), M))
  {
    ParseIntWithoutDigits(ToJsString(size).value);
  }

  /** An object `size` with its own `toString` key makes `parseInt` throw. */
  lemma SizeWithOwnToStringThrows(props: map<string, Json>, dark: Json, light: Json)
    requires "toString" in props
    ensures BuildOptions(Params(JObj(props), dark, light)) == Failure(ToPrimitiveError)
  {
  }
}
