# QR code generator server: request handling model

This project models the request-handling core of the Murali Printers QR code
generator's HTTP server (`server.js`). It covers three POST handlers:

- `/api/generate` returns a data-URL image inside JSON.
- `/api/generate-png` returns raw PNG bytes.
- `/api/generate-batch` returns up to 50 data-URL images with success and failure counts.

Each handler is a pure Dafny function from the parsed JSON body, and from the
QR encoder it calls, to the response it sends. The model is split into modules:

- `JsValues` (`js_values.dfy`): the JSON values a body can hold. It defines JavaScript truthiness, `a || b`, property reads and `String(x)`.
- `NumberParsing` (`parse_int.dfy`): `parseInt(x)` without a radix, following section 19.2.5 of ECMA-262. It skips leading white space, reads a sign, handles a `0x` prefix, takes the longest digit prefix, and returns NaN when there is none.
- `EncodingOptions` (`options.dfy`): destructuring defaults (`size = 300`, `darkColor = '#000000'`, `lightColor = '#ffffff'`) and the options object `{width: parseInt(size), color: {dark, light}, errorCorrectionLevel: 'M'}`.
- `Validation` (`validation.dfy`): the `!text` guard and the two batch guards.
- `Batch` (`batch.dfy`): the per-item `try`/`catch` map, `Promise.all`, and the two `filter(...).length` counts.
- `Server` (`server.dfy`): the three handlers, the responses they build, and the properties proved about them.

The QR library (`QRCode.toDataURL`, `QRCode.toBuffer`) is a function-valued
parameter of type `(Json, Options) -> Result<T, string>`. A `Failure` carries
the thrown error's message. Each handler also has a `...Calls` function. It
lists the encoder inputs the handler depends on. The `...DependsOnlyOnCalls`
lemmas prove that the response is the same under any two encoders that agree
on those inputs. On a rejected request the list is empty, so the encoder is
never consulted.

The server does less checking than one might expect, and the model follows what it does:

- The server does not trim `text`. Text made only of spaces is accepted (`Validation.BlankTextAccepted`); only the browser trims.
- Colours are not checked. Any JSON value reaches the encoder unchanged.
- `size` is not range-checked. It is converted by `parseInt`, so a non-numeric size gives width NaN, and a string such as `"200px"` gives width 200.
- The error-correction level is always `M`; a caller cannot choose it.
- A destructuring default replaces only an absent field. An explicit `null` is kept.
- Some inputs make a handler answer 500 outside the encoder:
  - A `size` object with its own `toString` key makes `parseInt` throw, because the own `toString` is not callable and the inherited `valueOf` returns the object itself, which is not a primitive, so ToPrimitive throws.
  - A `null` batch item throws when its `text` is read, both inside the per-item `try` and again in its `catch`. The whole batch then fails with 500, although every other item was still handed to the encoder (`Server.NullItemFailsBatch`).
- Per-item isolation therefore holds only for encoder failures. `Batch.FailureIsolation` states exactly that.

## Model

| member | source | states |
|---|---|---|
| JsValues.Truthy | server.js:34 | ToBoolean: a value is truthy exactly when it is present and is none of `null`, `false`, `0` and `""`; every array and object is truthy. |
| JsValues.ToJsString | server.js:42 | `String(v)` throws exactly when `v` is an object with its own `toString` key or an array holding one at any depth, and then with the ToPrimitive TypeError; a string converts to itself. |
| JsValues.JoinElems | server.js:42 | Joining an array's elements throws exactly when one of them throws on conversion, with the ToPrimitive TypeError; a one-element array whose element is not `null` converts as its element does. |
| Validation.CheckText | server.js:34-39 | Accepts exactly the truthy `text` values and returns that value. Anything falsy (absent, `""`, `null`, `0`, `false`) gives the rejection "Text is required" with its message. |
| Validation.BlankTextAccepted | server.js:34 | A non-empty text made only of spaces passes the guard, because the server does not trim. |
| Validation.CheckItems | server.js:120-132 | Succeeds exactly when `items` is an array of 1 to 50 elements, and returns those elements. A missing, non-array or empty `items` gives "Items array is required". A longer array gives "Too many items". |
| EncodingOptions.ReadParams | server.js:27-32 | Each of `size`, `darkColor` and `lightColor` is the body's value when present, `null` included. When absent it is 300, `'#000000'` or `'#ffffff'`. |
| EncodingOptions.OptionsShape | server.js:41-48 | Built options always have level M and the effective colours unchanged, and their width is `parseInt(String(size))`. Building fails exactly when `String(size)` throws, and then carries its message. |
| EncodingOptions.WidthOfNumber | server.js:42 | An integral numeric `size` n gives width n with the colours passed through. |
| EncodingOptions.DefaultWidth | server.js:29 | A body without `size` yields options of width 300. |
| EncodingOptions.WidthOfDecimalString | server.js:42 | A string `size` that starts with the decimal form of n and is not continued by a digit gives width n. A lone `0` followed by `x` is excluded, because that starts a hexadecimal prefix. |
| EncodingOptions.WidthOfSingletonArray | server.js:42 | A `size` of `[n]` converts through its element and gives width n. |
| EncodingOptions.NonNumericSizeIsNaN | server.js:42 | A `size` of `null`, a boolean, or a plain object gives width NaN, and the options still build. |
| EncodingOptions.SizeWithOwnToStringThrows | server.js:42 | An object `size` with its own `toString` key makes option building throw the ToPrimitive TypeError. |
| EncodingOptions.JsParseInt | server.js:42 | `parseInt(v)` throws exactly when `String(v)` does, with its message; a string is parsed as it stands. |
| EncodingOptions.BuildOptions | server.js:41-48 | Building the options fails exactly when `size` is, or is an array holding at any depth, an object with its own `toString` key, and then with the TypeError; built options always carry level M and the effective colours unchanged. |
| NumberParsing.TrimStart | server.js:42 | The trimmed string is no longer than the input, does not start with white space, and is the input itself when that does not start with white space. |
| NumberParsing.ParseMagnitude | server.js:42 | An unsigned string gives NaN exactly when no digit of the base follows the optional `0x` prefix; otherwise a non-negative integer. |
| NumberParsing.ParseInt | server.js:42 | A blank string parses to NaN, and the result is negative only when the trimmed string starts with `-`, positive only when it does not. |
| NumberParsing.TrimStartSpec | server.js:42 | The white-space trim keeps a suffix of the input that does not start with white space, and everything it drops is white space. |
| NumberParsing.DigitPrefixLength | server.js:42 | Returns the length of the longest prefix of digits in the radix: every character before it is a digit and the character at it is not. |
| NumberParsing.ParseIntDecimalPrefix | server.js:42 | `parseInt` of the decimal form of any integer n, followed by text that does not continue it, is n. |
| NumberParsing.ParseIntRoundTrip | server.js:42 | `parseInt(String(n)) == n` for every integer n. |
| NumberParsing.ParseIntSkipsWhiteSpace | server.js:42 | Prepending white space never changes the result of `parseInt`. |
| NumberParsing.PlusSign | server.js:42 | A leading `+` is dropped: `parseInt` of `+` followed by s is the magnitude of s. |
| NumberParsing.ParseIntHex | server.js:42 | After a `0x` or `0X` prefix, a non-empty run of hexadecimal digits followed by a non-hexadecimal character, or by nothing, parses to that run's base-16 value. |
| NumberParsing.ParseIntWithoutDigits | server.js:42 | A string without any decimal digit parses to NaN. |
| Batch.EncodeItem | server.js:144-159 | A null item rejects with the TypeError message. Any other item gives an outcome with text `item.text`, or the item itself when that is falsy. The outcome succeeds exactly when the encoder does, and then carries `item.label`, or `null` when that is falsy, and the image; otherwise it carries the encoder's message. |
| Batch.SettleAll | server.js:143-161 | Fails exactly when some item is `null`. Otherwise it gives exactly one outcome per item, and outcome i is item i's own outcome, so input order is kept. |
| Batch.EncoderInputs | server.js:143-146 | Every non-null item's effective text is handed to the encoder with the one shared options object. No other input is handed over, and there are at most as many inputs as items. |
| Batch.EffectiveText | server.js:146 | The text of an item is an object's truthy `text`, and otherwise the item itself, so a string item is encoded as it stands. |
| Batch.EffectiveLabel | server.js:150 | The label of an item is an object's truthy `label`, and otherwise `null`; a falsy label such as `""` or `0` is never reported. |
| Batch.SuccessfulOnes | server.js:166 | The filtered list holds the successful outcomes of the results and no other, and is no longer than them. |
| Batch.FailedOnes | server.js:167 | The filtered list holds the failed outcomes of the results and no other, and is no longer than them. |
| Batch.SuccessfulMultiplicity | server.js:166 | The success filter keeps every successful outcome exactly as many times as it occurs in the results, and drops every failed one. |
| Batch.FailedMultiplicity | server.js:167 | The failure filter keeps every failed outcome exactly as many times as it occurs in the results, and drops every successful one. |
| Batch.SuccessfulCount | server.js:166 | `successful` equals the number of indices whose result has `success: true`. |
| Batch.FailedCount | server.js:167 | `failed` equals the number of indices whose result has `success: false`. |
| Batch.CountsPartition | server.js:165-167 | The two filtered lists together hold, as a multiset, exactly the results, so `successful + failed == total` for any list of outcomes. |
| Batch.SettleAllDependsOnInputs | server.js:143-161 | Two encoders that agree on the inputs in `EncoderInputs` give the same settled batch. |
| Batch.OutcomeIsLocal | server.js:145-159 | Outcome j is the same under any two encoders that agree on item j's text. |
| Batch.ResultsFollowItems | server.js:146-158 | Result i holds item i's effective text. It succeeds exactly when the encoder succeeds on that text, and then holds the effective label and the image; otherwise it holds the encoder's message. |
| Batch.FailureIsolation | server.js:145-159 | If the encoder fails on item i, result i is `{success:false, text, error}` with that message. Every result whose text differs from item i's is the same as under an encoder that differs only at item i's text. |
| Server.PrepareSingle | server.js:27-48 | Rejects exactly when `text` is falsy, with "Text is required". Throws exactly when `text` is truthy and `size` is, or is an array holding at any depth, an object with its own `toString` key. Otherwise it encodes the body's own `text`, with the destructured parameters and options of level M and the effective colours. |
| Server.SingleCalls | server.js:50 | A single-code handler hands at most one input to its encoder, and exactly one when it gets past the guard and the options. |
| Server.GenerateDataUrl | server.js:25-72 | `/api/generate` answers 400, 500 or the QR JSON. It answers 400 exactly when `text` is falsy, every 500 has the error "Failed to generate QR code", and the QR JSON's metadata has format `base64` and the body's own text. |
| Server.GeneratePng | server.js:75-113 | `/api/generate-png` answers 400, 500 or the PNG buffer. It answers 400 exactly when `text` is falsy, and every 500 has the error "Failed to generate PNG". |
| Server.PrepareBatch | server.js:118-141 | Rejects exactly when the item guards fail. Throws exactly when the guards pass and `size` is, or is an array holding at any depth, an object with its own `toString` key, and then with the ToPrimitive TypeError. Otherwise it encodes the body's own item array, of 1 to 50 items, with options of level M. |
| Server.BatchCalls | server.js:143-146 | The batch hands at most 50 inputs to the encoder, and none when it is rejected or its options throw. |
| Server.GenerateBatch | server.js:116-179 | `/api/generate-batch` answers 400, 500 or the batch JSON. It answers 400 exactly when the item guards fail, and every 500 has the error "Failed to generate batch QR codes". The batch JSON has 1 to 50 results, `total` is their number, and `successful + failed == total`. |
| Server.StatusCode | server.js:35-67 | A response has status 400 exactly when it is a guard's rejection, 500 exactly when it reports a caught error, and 200 otherwise. |
| Server.TextGuard | server.js:34-39 | Both single-code handlers answer status 400 exactly when `text` is falsy. The body is then "Text is required" with its message, and the handler has no encoder input. |
| Server.SingleDependsOnlyOnCalls | server.js:34-50 | A single-code response, data-URL or PNG, depends on the encoder only at the inputs in `SingleCalls`. |
| Server.EncoderInput | server.js:41-50 | There is at most one encoder input. It exists exactly when `text` is truthy and `String(size)` does not throw. It is the body's `text` with width `parseInt(size)`, the effective colours and level M. |
| Server.SuccessEchoesMetadata | server.js:52-63 | A successful `/api/generate` response carries the encoder's image. Its metadata echoes the body's text, the raw unparsed size, and the colours after defaults, with format `'base64'`. |
| Server.EncoderResultOnSinglePath | server.js:50-111 | An encoder error gives 500 carrying the encoder's message, with "Failed to generate QR code" or "Failed to generate PNG" as the error. An encoder success answers with the QR JSON carrying the encoder's image on the data-URL path, and sends the buffer itself on the PNG path. |
| Server.SingleSizeThrows | server.js:41-71 | With a truthy `text` and a `size` whose conversion throws, `/api/generate` answers 500 "Failed to generate QR code" and `/api/generate-png` answers 500 "Failed to generate PNG", both with the TypeError, and neither consults the encoder. |
| Server.HelloExample | server.js:27-50 | A body `{"text":"hello","size":200}` encodes at width 200 with colours `#000000` and `#ffffff`. |
| Server.HelloMetadata | server.js:50-63 | When the encoder accepts that input, the response is the QR JSON with the encoder's image, and its metadata echoes text `hello`, size 200, those colours and format `base64`. |
| Server.RawSizeEchoed | server.js:55-62 | A size such as `"200px"` is encoded at width 200 but echoed unparsed in the metadata. |
| Server.BatchGuards | server.js:120-132 | The batch answers status 400 exactly when the item guards fail: "Items array is required" exactly when `items` is missing, not an array, or empty. It answers 400 "Too many items" exactly when `items` is an array of more than 50. A rejected batch has no encoder input. |
| Server.BatchEncoderInputs | server.js:134-141 | Every batch encoder input carries width `parseInt(size)`, the effective colours and level M. There is at most one input per item. |
| Server.BatchDependsOnlyOnCalls | server.js:120-161 | The batch response depends on the encoder only at the inputs in `BatchCalls`. |
| Server.BatchResults | server.js:163-168 | A valid batch without null items answers with the settled results in item order. `total` equals both the number of results and the number of items. `successful` and `failed` are the numbers of results with `success` true and false, and they add up to `total`. |
| Server.BatchSizeThrows | server.js:134-177 | A batch that passes its guards but whose `size` throws on conversion answers 500 "Failed to generate batch QR codes" with the TypeError, and no item reaches the encoder. |
| Server.NullItemFailsBatch | server.js:143-177 | A valid batch with a `null` item answers 500 "Failed to generate batch QR codes" with the TypeError's message. Every non-null item was still handed to the encoder. |
| Server.BatchExample | server.js:143-167 | Items `["a", "", "b"]`, with an encoder that refuses only the empty text, give total 3, successful 2 and failed 1, and only the second result fails. |

## Left out

- The QR symbol encoding (the `qrcode` package) is a foreign library call. It is an encoder parameter, so the model says nothing about image content. That identical requests give identical images, and that the PNG and data-URL images match, is modelled only this far: both single-code handlers hand the same input to their encoder (`Server.EncoderInput`).
- Express plumbing is not modelled: middleware, CORS, static files, the root route, `app.listen` and the console output. The PNG response headers are constants and are not modelled either; `Server.PngImage` stands for the sent buffer.
- The health endpoint, the 404 handler and the generic error handler are not modelled. They return constant bodies plus a clock reading.
- `generatedAt` and every other `new Date()` timestamp are clock readings. They are dropped from the responses.
- `console.error` logging is I/O and is not modelled.
- `Promise.all` is modelled as a sequential map. Concurrency is not modelled: the handler only relies on every item settling, results keeping input order, and a rejection failing the whole batch.
- Only JSON-object bodies are modelled. A missing body or an array body is not.
- JSON numbers are integral, and Number::toString is modelled as decimal digits. Fractional numbers, exponent forms (magnitudes of 10^21 and above), precision loss above 2^53 and negative zero are not modelled. In particular `parseInt("-0")` gives `Int(0)`.
- JavaScript strings are UTF-16 code units, while the model uses Unicode scalar values.
- Errors thrown without a `message` (non-Error throws) are not modelled. The encoder's failure always carries a string message.
- Array-like `items` objects and arrays with extra own properties cannot come from JSON, so the batch guards do not consider them.
- public/script.js (the browser UI) is not part of this model. It is presentation and browser I/O.
