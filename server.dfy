/** The three generate handlers of server.js as functions from the parsed
    request body (and the QR encoder) to the response they send. */
module Server {
  import opened Wrappers
  import opened JsValues
  import opened NumberParsing
  import opened EncodingOptions
  import opened Validation
  import opened Batch

  /** The `metadata` object of `/api/generate`; `generatedAt` is a clock
      reading and is not modelled. */
  datatype Metadata = Metadata(text: Json, size: Json, darkColor: Json, lightColor: Json, format: string)

  /** What a handler sends back. */
  datatype Response =
    | BadRequest(error: string, message: string)
    | InternalError(error: string, message: string)
    | QrCodeJson(qrCode: string, metadata: Metadata)
    | PngImage(buffer: seq<bv8>)
    | BatchJson(total: nat, successful: nat, failed: nat, results: seq<Outcome>)

  function StatusCode(r: Response): (code: int)
    ensures code == 400 <==> r.BadRequest?
    ensures code == 500 <==> r.InternalError?
    ensures code == 200 || code == 400 || code == 500
  {
    match r
    case BadRequest(_, _) => 400
    case InternalError(_, _) => 500
    case _ => 200
  }

  const GenerateFailed: string := "Failed to generate QR code"
  const PngFailed: string := "Failed to generate PNG"
  const BatchFailed: string := "Failed to generate batch QR codes"

  /** Where a single-code handler stands just before its encoder call. */
  datatype SingleStep =
    | Reject(rejection: Rejection)
    | Thrown(message: string)
    | Encode(text: Json, params: Params, opts: Options)

  /** Lines 27-48 (and 77-98): destructure with defaults, guard the text,
      build the options. */
  function PrepareSingle(body: map<string, Json>): (step: SingleStep)
    ensures step.Reject? <==> !Truthy(Lookup(body, "text"))
    ensures step.Reject? ==> step.rejection == TextRequired
    ensures step.Thrown? <==> Truthy(Lookup(body, "text")) && ThrowsOnToString(ReadParams(body).size)
    ensures step.Thrown? ==> step.message == ToPrimitiveError
    ensures step.Encode? ==>
      && Lookup(body, "text") == Some(step.text)
      && step.params == ReadParams(body)
      && step.opts.errorCorrectionLevel == M
      && step.opts.color == Color(step.params.darkColor, step.params.lightColor)
  {
    var p := ReadParams(body);
    match CheckText(Lookup(body, "text"))
    case Failure(rejection) => Reject(rejection)
    case Success(text) =>
      match BuildOptions(p)
      case Failure(e) => Thrown(e)
      case Success(opts) => Encode(text, p, opts)
  }

  /** The encoder inputs a single-code handler uses: none on a rejected
      request, one otherwise. */
  function SingleCalls(body: map<string, Json>): (calls: seq<(Json, Options)>)
    ensures |calls| <= 1
    ensures |calls| == 1 <==> PrepareSingle(body).Encode?
  {
    match PrepareSingle(body)
    case Encode(text, _, opts) => [(text, opts)]
    case _ => []
  }

  /** POST /api/generate. */
  function GenerateDataUrl(body: map<string, Json>, toDataUrl: Encoder<string>): (r: Response)
    ensures r.BadRequest? || r.InternalError? || r.QrCodeJson?
    ensures r.BadRequest? <==> !Truthy(Lookup(body, "text"))
    ensures r.InternalError? ==> r.error == GenerateFailed
    ensures r.QrCodeJson? ==> r.metadata.format == "base64" && Lookup(body, "text") == Some(r.metadata.text)
  {
    match PrepareSingle(body)
    case Reject(rejection) => BadRequest(rejection.error, rejection.message)
    case Thrown(e) => InternalError(GenerateFailed, e)
    case Encode(text, p, opts) =>
      match toDataUrl(text, opts)
      case Failure(e) => InternalError(GenerateFailed, e)
      case Success(qr) => QrCodeJson(qr, Metadata(text, p.size, p.darkColor, p.lightColor, "base64"))
  }

  /** POST /api/generate-png; the headers it sets are constants. */
  function GeneratePng(body: map<string, Json>, toBuffer: Encoder<seq<bv8>>): (r: Response)
    ensures r.BadRequest? || r.InternalError? || r.PngImage?
    ensures r.BadRequest? <==> !Truthy(Lookup(body, "text"))
    ensures r.InternalError? ==> r.error == PngFailed
  {
    match PrepareSingle(body)
    case Reject(rejection) => BadRequest(rejection.error, rejection.message)
    case Thrown(e) => InternalError(PngFailed, e)
    case Encode(text, _, opts) =>
      match toBuffer(text, opts)
      case Failure(e) => InternalError(PngFailed, e)
      case Success(buffer) => PngImage(buffer)
  }

  /** Where the batch handler stands after its guards and its options. */
  datatype BatchStep =
    | RejectBatch(rejection: Rejection)
    | ThrownBatch(message: string)
    | EncodeBatch(items: seq<Json>, opts: Options)

  /** Lines 118-141. */
  function PrepareBatch(body: map<string, Json>): (step: BatchStep)
    ensures step.RejectBatch? <==> CheckItems(Lookup(body, "items")).Failure?
    ensures step.ThrownBatch? <==> CheckItems(Lookup(body, "items")).Success? && ThrowsOnToString(ReadParams(body).size)
    ensures step.ThrownBatch? ==> step.message == ToPrimitiveError
    ensures step.EncodeBatch? ==>
      && Lookup(body, "items") == Some(JArr(step.items))
      && 0 < |step.items| <= MaxBatchItems
      && step.opts.errorCorrectionLevel == M
  {
    match CheckItems(Lookup(body, "items"))
    case Failure(rejection) => RejectBatch(rejection)
    case Success(items) =>
      match BuildOptions(ReadParams(body))
      case Failure(e) => ThrownBatch(e)
      case Success(opts) => EncodeBatch(items, opts)
  }

  /** The encoder inputs the batch handler uses. */
  function BatchCalls(body: map<string, Json>): (calls: seq<(Json, Options)>)
    ensures |calls| <= MaxBatchItems
    ensures !PrepareBatch(body).EncodeBatch? ==> calls == []
  {
    match PrepareBatch(body)
    case EncodeBatch(items, opts) => EncoderInputs(items, opts)
    case _ => []
  }

  /** POST /api/generate-batch. */
  function GenerateBatch(body: map<string, Json>, toDataUrl: Encoder<string>): (r: Response)
    ensures r.BadRequest? || r.InternalError? || r.BatchJson?
    ensures r.BadRequest? <==> CheckItems(Lookup(body, "items")).Failure?
    ensures r.InternalError? ==> r.error == BatchFailed
    ensures r.BatchJson? ==> 0 < r.total <= MaxBatchItems && r.total == |r.results| && r.successful + r.failed == r.total
  {
    match PrepareBatch(body)
    case RejectBatch(rejection) => BadRequest(rejection.error, rejection.message)
    case ThrownBatch(e) => InternalError(BatchFailed, e)
    case EncodeBatch(items, opts) =>
      match SettleAll(items, opts, toDataUrl)
      case Failure(e) => InternalError(BatchFailed, e)
      case Success(results) =>
        CountsPartition(results);
        BatchJson(|results|, |SuccessfulOnes(results)|, |FailedOnes(results)|, results)
  }

  // ---------------------------------------------------------------------
  // Single-code handlers

  /** Both single-code handlers answer 400 "Text is required" exactly when
      `text` is falsy (absent, empty, `null`, `0`, `false`), and then the
      encoder has no input at all. */
  lemma TextGuard(body: map<string, Json>, toDataUrl: Encoder<string>, toBuffer: Encoder<seq<bv8>>)
    ensures StatusCode(GenerateDataUrl(body, toDataUrl)) == 400 <==> !Truthy(Lookup(body, "text"))
    ensures StatusCode(GeneratePng(body, toBuffer)) == 400 <==> !Truthy(Lookup(body, "text"))
    ensures !Truthy(Lookup(body, "text")) ==>
      && GenerateDataUrl(body, toDataUrl) == BadRequest("Text is required", "Please provide text or URL to generate QR code")
      && GeneratePng(body, toBuffer) == BadRequest("Text is required", "Please provide text or URL to generate QR code")
      && SingleCalls(body) == []
  {
  }

  /** A single-code response depends on the encoder only at the inputs in
      `SingleCalls`; in particular a rejected request never consults it. */
  lemma SingleDependsOnlyOnCalls(body: map<string, Json>, e1: Encoder<string>, e2: Encoder<string>,
                                 b1: Encoder<seq<bv8>>, b2: Encoder<seq<bv8>>)
    requires forall c | c in SingleCalls(body) :: e1(c.0, c.1) == e2(c.0, c.1) && b1(c.0, c.1) == b2(c.0, c.1)
    ensures GenerateDataUrl(body, e1) == GenerateDataUrl(body, e2)
    ensures GeneratePng(body, b1) == GeneratePng(body, b2)
  {
    if PrepareSingle(body).Encode? {
      var step := PrepareSingle(body);
      assert (step.text, step.opts) in SingleCalls(body);
    }
  }

  /** When the encoder runs, it gets the body's own `text` and options with
      width `parseInt(size)`, the effective colours unchanged and level M;
      the data-URL and the PNG handler hand over the same input. */
  lemma EncoderInput(body: map<string, Json>)
    ensures |SingleCalls(body)| <= 1
    ensures |SingleCalls(body)| == 1 <==> Truthy(Lookup(body, "text")) && ToJsString(ReadParams(body).size).Success?
    ensures forall c | c in SingleCalls(body) ::
      && Some(c.0) == Lookup(body, "text")
      && c.1.width == ParseInt(ToJsString(ReadParams(body).size).value)
      && c.1.color == Color(ReadParams(body).darkColor, ReadParams(body).lightColor)
      && c.1.errorCorrectionLevel == M
  {
    OptionsShape(ReadParams(body));
  }

  /** A successful `/api/generate` response carries the encoder's image for
      the single input, and metadata echoing the body's text, the raw
      (unparsed) size and the colours after defaults, with format base64. */
  lemma SuccessEchoesMetadata(body: map<string, Json>, toDataUrl: Encoder<string>)
    requires GenerateDataUrl(body, toDataUrl).QrCodeJson?
    ensures |SingleCalls(body)| == 1
    ensures GenerateDataUrl(body, toDataUrl).qrCode == toDataUrl(SingleCalls(body)[0].0, SingleCalls(body)[0].1).value
    ensures GenerateDataUrl(body, toDataUrl).metadata == Metadata(
      body["text"],
      if "size" in body then body["size"] else JNum(300),
      if "darkColor" in body then body["darkColor"] else JStr("#000000"),
      if "lightColor" in body then body["lightColor"] else JStr("#ffffff"),
      "base64")
  {
  }

  /** An encoder error becomes a 500 carrying the encoder's message; an
      encoder success answers 200 with the encoder's image: the QR JSON on
      the data-URL path, the buffer itself on the PNG path. */
  lemma EncoderResultOnSinglePath(body: map<string, Json>, toDataUrl: Encoder<string>, toBuffer: Encoder<seq<bv8>>)
    requires |SingleCalls(body)| == 1
    ensures var c := SingleCalls(body)[0];
      toDataUrl(c.0, c.1).Failure? ==>
        GenerateDataUrl(body, toDataUrl) == InternalError("Failed to generate QR code", toDataUrl(c.0, c.1).error)
    ensures var c := SingleCalls(body)[0];
      toDataUrl(c.0, c.1).Success? ==>
        GenerateDataUrl(body, toDataUrl).QrCodeJson? && GenerateDataUrl(body, toDataUrl).qrCode == toDataUrl(c.0, c.1).value
    ensures var c := SingleCalls(body)[0];
      toBuffer(c.0, c.1).Failure? ==>
        GeneratePng(body, toBuffer) == InternalError("Failed to generate PNG", toBuffer(c.0, c.1).error)
    ensures var c := SingleCalls(body)[0];
      toBuffer(c.0, c.1).Success? ==> GeneratePng(body, toBuffer) == PngImage(toBuffer(c.0, c.1).value)
  {
  }

  /** Once the text guard passes and the options build, the handler hands
      the body's text and those options to the encoder. */
  lemma SingleEncodes(body: map<string, Json>, text: Json, opts: Options)
    requires Lookup(body, "text") == Some(text) && Truthy(Some(text))
    requires BuildOptions(ReadParams(body)) == Success(opts)
    ensures PrepareSingle(body) == Encode(text, ReadParams(body), opts)
    ensures SingleCalls(body) == [(text, opts)]
  {
  }

  /** A truthy `text` with a `size` that throws on conversion answers 500
      with the TypeError on both single-code paths, and the encoder is never
      consulted. */
  lemma SingleSizeThrows(body: map<string, Json>, toDataUrl: Encoder<string>, toBuffer: Encoder<seq<bv8>>)
    requires Truthy(Lookup(body, "text")) && ThrowsOnToString(ReadParams(body).size)
    ensures GenerateDataUrl(body, toDataUrl) == InternalError("Failed to generate QR code", ToPrimitiveError)
    ensures GeneratePng(body, toBuffer) == InternalError("Failed to generate PNG", ToPrimitiveError)
    ensures SingleCalls(body) == []
  {
  }

  /** A body like `{"text": "hello", "size": 200}` without colours encodes
      at width 200 with the default colours. */
  lemma HelloExample(body: map<string, Json>)
    requires Lookup(body, "text") == Some(JStr("hello")) && Lookup(body, "size") == Some(JNum(200))
    requires "darkColor" !in body && "lightColor" !in body
    ensures SingleCalls(body) == [(JStr("hello"), Options(Int(200), Color(JStr("#000000"), JStr("#ffffff")), M))]
  {
    var opts := Options(Int(200), Color(JStr("#000000"), JStr("#ffffff")), M);
    assert ReadParams(body) == Params(JNum(200), JStr("#000000"), JStr("#ffffff"));
    WidthOfNumber(200, JStr("#000000"), JStr("#ffffff"));
    assert BuildOptions(ReadParams(body)) == Success(opts);
    SingleEncodes(body, JStr("hello"), opts);
  }

  /** When the encoder accepts that input, the response is the QR JSON with
      the encoder's image and metadata echoing `hello`, size 200 and the
      default colours. */
  lemma HelloMetadata(body: map<string, Json>, toDataUrl: Encoder<string>)
    requires Lookup(body, "text") == Some(JStr("hello")) && Lookup(body, "size") == Some(JNum(200))
    requires "darkColor" !in body && "lightColor" !in body
    requires toDataUrl(JStr("hello"), Options(Int(200), Color(JStr("#000000"), JStr("#ffffff")), M)).Success?
    ensures GenerateDataUrl(body, toDataUrl) == QrCodeJson(
      toDataUrl(JStr("hello"), Options(Int(200), Color(JStr("#000000"), JStr("#ffffff")), M)).value,
      Metadata(JStr("hello"), JNum(200), JStr("#000000"), JStr("#ffffff"), "base64"))
  {
    HelloExample(body);
    SuccessEchoesMetadata(body, toDataUrl);
  }

  /** The echoed size is the raw input, not the parsed width: a size such as
      `"200px"` is encoded at width 200 but echoed as `"200px"`. */
  lemma RawSizeEchoed(body: map<string, Json>, toDataUrl: Encoder<string>, n: int, rest: string)
    requires Truthy(Lookup(body, "text"))
    requires Lookup(body, "size") == Some(JStr(IntToDecimal(n) + rest))
    requires rest == [] || !IsDecimalDigit(rest[0])
    requires n == 0 && rest != [] ==> rest[0] != 'x' && rest[0] != 'X'
    ensures |SingleCalls(body)| == 1 && SingleCalls(body)[0].1.width == Int(n)
    ensures GenerateDataUrl(body, toDataUrl).QrCodeJson? ==>
      GenerateDataUrl(body, toDataUrl).metadata.size == JStr(IntToDecimal(n) + rest)
  {
    var p := ReadParams(body);
    WidthOfDecimalString(n, rest, p.darkColor, p.lightColor);
    SingleEncodes(body, body["text"], BuildOptions(p).value);
  }

  // ---------------------------------------------------------------------
  // Batch handler

  /** The batch guards, in order: a missing, non-array or empty `items` gives
      400 "Items array is required"; otherwise more than 50 items gives 400
      "Too many items". A rejected batch has no encoder input. */
  lemma BatchGuards(body: map<string, Json>, toDataUrl: Encoder<string>)
    ensures var items := Lookup(body, "items");
      GenerateBatch(body, toDataUrl) == BadRequest("Items array is required", "Please provide an array of items to generate QR codes")
      <==> items.None? || !items.value.JArr? || |items.value.elems| == 0
    ensures var items := Lookup(body, "items");
      GenerateBatch(body, toDataUrl) == BadRequest("Too many items", "Maximum 50 QR codes can be generated at once")
      <==> items.Some? && items.value.JArr? && |items.value.elems| > MaxBatchItems
    ensures StatusCode(GenerateBatch(body, toDataUrl)) == 400 <==> CheckItems(Lookup(body, "items")).Failure?
    ensures GenerateBatch(body, toDataUrl).BadRequest? ==> BatchCalls(body) == []
  {
  }

  /** A batch that passes its guards but whose `size` throws on conversion
      answers 500 with the TypeError, before any item is encoded. */
  lemma BatchSizeThrows(body: map<string, Json>, toDataUrl: Encoder<string>)
    requires CheckItems(Lookup(body, "items")).Success?
    requires ThrowsOnToString(ReadParams(body).size)
    ensures GenerateBatch(body, toDataUrl) == InternalError("Failed to generate batch QR codes", ToPrimitiveError)
    ensures BatchCalls(body) == []
  {
  }

  /** Once the guards pass and the options build, the handler settles the
      items and reports the counts. */
  lemma BatchUnfold(body: map<string, Json>, toDataUrl: Encoder<string>, items: seq<Json>, opts: Options)
    requires Lookup(body, "items") == Some(JArr(items))
    requires BuildOptions(ReadParams(body)) == Success(opts)
    ensures GenerateBatch(body, toDataUrl).BatchJson? ==> 0 < |items| <= MaxBatchItems && JNull !in items
    ensures 0 < |items| <= MaxBatchItems ==> PrepareBatch(body) == EncodeBatch(items, opts)
  {
  }

  /** The response of a batch whose guards pass and whose items are not `null`. */
  lemma BatchSettled(body: map<string, Json>, toDataUrl: Encoder<string>, items: seq<Json>, opts: Options)
    requires Lookup(body, "items") == Some(JArr(items))
    requires BuildOptions(ReadParams(body)) == Success(opts)
    requires 0 < |items| <= MaxBatchItems && JNull !in items
    ensures SettleAll(items, opts, toDataUrl).Success?
    ensures var rs := SettleAll(items, opts, toDataUrl).value;
      GenerateBatch(body, toDataUrl) == BatchJson(|rs|, |SuccessfulOnes(rs)|, |FailedOnes(rs)|, rs)
  {
    BatchUnfold(body, toDataUrl, items, opts);
  }

  /** Every batch encoder input uses the one options object: width
      `parseInt(size)`, the effective colours unchanged and level M; there
      is at most one input per item. */
  lemma BatchEncoderInputs(body: map<string, Json>)
    ensures PrepareBatch(body).EncodeBatch? ==> |BatchCalls(body)| <= |PrepareBatch(body).items|
    ensures forall c | c in BatchCalls(body) ::
      && c.1.width == ParseInt(ToJsString(ReadParams(body).size).value)
      && c.1.color == Color(ReadParams(body).darkColor, ReadParams(body).lightColor)
      && c.1.errorCorrectionLevel == M
  {
    OptionsShape(ReadParams(body));
  }

  /** The batch response depends on the encoder only at the inputs in
      `BatchCalls`. */
  lemma BatchDependsOnlyOnCalls(body: map<string, Json>, e1: Encoder<string>, e2: Encoder<string>)
    requires forall c | c in BatchCalls(body) :: e1(c.0, c.1) == e2(c.0, c.1)
    ensures GenerateBatch(body, e1) == GenerateBatch(body, e2)
  {
    if PrepareBatch(body).EncodeBatch? {
      var step := PrepareBatch(body);
      SettleAllDependsOnInputs(step.items, step.opts, e1, e2);
    }
  }

  /** A batch that passes its guards and has no `null` item answers with
      the settled results, one per item in item order (their content is
      `ResultsFollowItems` and `FailureIsolation`), and counts that add up:
      `total == successful + failed == |items|`. */
  lemma BatchResults(body: map<string, Json>, toDataUrl: Encoder<string>, items: seq<Json>, opts: Options)
    requires Lookup(body, "items") == Some(JArr(items))
    requires BuildOptions(ReadParams(body)) == Success(opts)
    requires 0 < |items| <= MaxBatchItems && JNull !in items
    ensures GenerateBatch(body, toDataUrl).BatchJson?
    ensures var r := GenerateBatch(body, toDataUrl);
      && r.results == SettleAll(items, opts, toDataUrl).value
      && r.total == |r.results| == |items|
      && r.successful + r.failed == r.total
      && r.successful == |SucceededIndices(r.results)|
      && r.failed == |FailedIndices(r.results)|
  {
    BatchSettled(body, toDataUrl, items, opts);
    var rs := SettleAll(items, opts, toDataUrl).value;
    SuccessfulCount(rs);
    FailedCount(rs);
  }

  /** A `null` item throws outside the per-item `catch`, so the whole batch
      answers 500 with the TypeError's message although every other item
      was handed to the encoder. */
  lemma NullItemFailsBatch(body: map<string, Json>, toDataUrl: Encoder<string>, items: seq<Json>, opts: Options)
    requires Lookup(body, "items") == Some(JArr(items))
    requires 0 < |items| <= MaxBatchItems
    requires BuildOptions(ReadParams(body)) == Success(opts)
    requires JNull in items
    ensures GenerateBatch(body, toDataUrl) == InternalError("Failed to generate batch QR codes", NullItemError)
    ensures forall i | 0 <= i < |items| && items[i] != JNull :: (EffectiveText(items[i]), opts) in BatchCalls(body)
  {
  }

  /** Three items of which the encoder refuses only the middle one. */
  lemma ThreeItemBatch(body: map<string, Json>, toDataUrl: Encoder<string>, items: seq<Json>, opts: Options)
    requires Lookup(body, "items") == Some(JArr(items))
    requires BuildOptions(ReadParams(body)) == Success(opts)
    requires |items| == 3 && JNull !in items
    requires toDataUrl(EffectiveText(items[0]), opts).Success?
    requires toDataUrl(EffectiveText(items[1]), opts).Failure?
    requires toDataUrl(EffectiveText(items[2]), opts).Success?
    ensures var r := GenerateBatch(body, toDataUrl);
      r.BatchJson? && r.total == 3 && r.successful == 2 && r.failed == 1 && |r.results| == 3
      && r.results[1].Failed? && r.results[0].Succeeded? && r.results[2].Succeeded?
  {
    BatchResults(body, toDataUrl, items, opts);
    ResultsFollowItems(items, opts, toDataUrl, 0);
    ResultsFollowItems(items, opts, toDataUrl, 1);
    ResultsFollowItems(items, opts, toDataUrl, 2);
    CountsOfThree(SettleAll(items, opts, toDataUrl).value);
  }

  /** `{"items": ["a", "", "b"]}` (with any `size` that converts) and an
      encoder that refuses only the empty text: three results, two
      successful, one failed, the failed one second. */
  lemma BatchExample(body: map<string, Json>, toDataUrl: Encoder<string>)
    requires Lookup(body, "items") == Some(JArr([JStr("a"), JStr(""), JStr("b")]))
    requires BuildOptions(ReadParams(body)).Success?
    requires forall o: Options :: toDataUrl(JStr(""), o).Failure?
    requires forall o: Options :: toDataUrl(JStr("a"), o).Success? && toDataUrl(JStr("b"), o).Success?
    ensures var r := GenerateBatch(body, toDataUrl);
      r.BatchJson? && r.total == 3 && r.successful == 2 && r.failed == 1 && |r.results| == 3
      && r.results[1].Failed? && r.results[0].Succeeded? && r.results[2].Succeeded?
  {
    var items := [JStr("a"), JStr(""), JStr("b")];
    var opts := BuildOptions(ReadParams(body)).value;
    assert EffectiveText(items[0]) == JStr("a");
    assert EffectiveText(items[1]) == JStr("");
    assert EffectiveText(items[2]) == JStr("b");
    ThreeItemBatch(body, toDataUrl, items, opts);
  }
}
