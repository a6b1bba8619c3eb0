/** The single page of the application (src/app/page.tsx): a state machine
    over `idle`, `loading`, `results` and `error`, holding the current image,
    the current result, the error message and the recent scans read from the
    store. Picking an image compresses it, posts it to the analysis endpoint,
    and on success saves the scan and refreshes the history. */
module Page {
  import opened Wrappers
  import opened Types
  import opened Seqs
  import opened Storage
  import ImageUtils
  import Json
  import Routes
  import AnalyzeRoute

  datatype AppState = Idle | Loading | Results | Error

  const ANALYZE_FALLBACK: string := "Failed to analyze image"
  const UNEXPECTED: string := "An unexpected error occurred"

  /** How the request to `/api/analyze` ended, as the page sees it. */
  datatype ApiResponse =
      /** `fetch` or `response.json()` threw: the message of an `Error`, or
          `None` when the thrown value is not an `Error`. */
    | Threw(message: Option<string>)
      /** A reply that is not OK; `errorField` is the body's `error` when it
          is a string. */
    | Rejected(errorField: Option<string>)
      /** An OK reply and its body. */
    | Delivered(result: ProvenanceResult)

  /** `errorData.error` when it is a string. */
  function ErrorField(body: Json.Json): Option<string>
  {
    if body.JObject? && "error" in body.fields && body.fields["error"].JString? then
      Some(body.fields["error"].s)
    else None
  }

  /** `ErrorField` reads what the property read `errorData.error` gives when
      that is a string, and it reads back the message of every error reply the
      handlers build. */
  lemma ErrorFieldIsErrorProperty(body: Json.Json, status: nat, message: string)
    ensures ErrorField(body).Some? <==> body != Json.JNull && Json.Prop(body, "error").Some? && Json.Prop(body, "error").value.JString?
    ensures ErrorField(body).Some? ==> Json.Prop(body, "error") == Some(Json.JString(ErrorField(body).value))
    ensures ErrorField(Routes.ErrorReply(status, message).body) == Some(message)
  {
  }

  /** What the `try` block of `handleImageSelect` ends with: the result, or
      the message of what it threw. A failed compression keeps its own
      message; a rejected reply shows its `error` unless that is missing or
      empty; a thrown non-`Error` has a fixed message. */
  function ScanOutcome(compressed: Result<string, ImageUtils.CompressError>, response: ApiResponse): (r: Result<ProvenanceResult, string>)
    ensures r.Success? <==> compressed.Success? && response.Delivered?
    ensures r.Success? ==> r.value == response.result
    ensures compressed.Failure? ==> r == Failure(ImageUtils.ErrorMessage(compressed.error))
    ensures compressed.Success? && response.Rejected? ==>
              r.Failure? && r.error != ""
              && (r.error == ANALYZE_FALLBACK <==>
                    response.errorField in {None, Some(""), Some(ANALYZE_FALLBACK)})
    ensures compressed.Success? && response.Rejected? && response.errorField.Some? && response.errorField.value != ""
            ==> r == Failure(response.errorField.value)
    ensures compressed.Success? && response.Rejected? && (response.errorField.None? || response.errorField.value == "")
            ==> r == Failure(ANALYZE_FALLBACK)
    ensures compressed.Success? && response.Threw? ==>
              r.Failure? && (response.message.None? ==> r.error == UNEXPECTED)
              && (response.message.Some? ==> r.error == response.message.value)
  {
    match compressed
    case Failure(e) => Failure(ImageUtils.ErrorMessage(e))
    case Success(_) =>
      match response
      case Threw(message) => Failure(message.GetOr(UNEXPECTED))
      case Rejected(field) =>
        if field.Some? && field.value != "" then Failure(field.value) else Failure(ANALYZE_FALLBACK)
      case Delivered(result) => Success(result)
  }

  /** Every reply of the analysis endpoint that is not OK carries one of the
      endpoint's own non-empty messages in `error`, so the page shows that
      message and not its fallback text; the fallback is reached only through
      the endpoint's own catch-all, which uses the same words. */
  lemma RejectionsShowRouteMessage(body: Option<Json.Json>, apiKeyConfigured: bool,
                                   gateway: Json.Json -> Routes.Completion, parse: string -> Option<Json.Json>)
    ensures var r := AnalyzeRoute.Analyze(body, apiKeyConfigured, gateway, parse);
            r.status != 200 ==>
              var field := ErrorField(r.body);
              field.Some?
              && field.value in {AnalyzeRoute.NO_IMAGE, AnalyzeRoute.ANALYZE_FAILED, Routes.NO_KEY,
                                 Routes.NO_RESPONSE, Routes.PARSE_FAILED, Routes.INVALID_STRUCTURE}
              && ScanOutcome(Success(""), Rejected(field)) == Failure(field.value)
  {
  }

  /** The page posts `{ image: compressedImage }`; a non-empty data URL always
      passes the endpoint's image check, so the page never meets "No image
      provided". */
  lemma PageRequestHasImage(image: string, apiKeyConfigured: bool,
                            gateway: Json.Json -> Routes.Completion, parse: string -> Option<Json.Json>)
    requires image != ""
    ensures AnalyzeRoute.Analyze(Some(Json.Single("image", image)), apiKeyConfigured, gateway, parse).status != 400
  {
  }

  /** What the page renders below the header. */
  datatype Body =
    | Picker(scans: seq<Scan>)
    | Progress(preview: Option<string>)
    | ResultsBody(result: ProvenanceResult, image: string)
    | ErrorBody(message: string)
    | Blank

  datatype Screen = Screen(header: bool, body: Body)

  /** `currentImage || undefined`: an empty string counts as no image. */
  function Preview(image: Option<string>): Option<string>
  {
    if image.Some? && image.value != "" then image else None
  }

  class Home {
    var appState: AppState
    var currentImage: Option<string>
    var currentResult: Option<ProvenanceResult>
    var error: Option<string>
    var recentScans: seq<Scan>
    /** The browser's local storage, as seen through storage.ts. */
    const store: ScanStore

    /** The results state always has something to show, and the error state a
        message. */
    predicate Valid()
      reads this
    {
      (appState == Results ==> currentResult.Some? && currentImage.Some?)
      && (appState == Error ==> error.Some?)
    }

    /** The rendered page. The results view needs a result and a non-empty
        image; without them the results state shows nothing. */
    function Render(): (s: Screen)
      reads this
      ensures s.header <==> appState != Results
      ensures s.body.ResultsBody? <==> appState == Results && currentResult.Some? && Preview(currentImage).Some?
      ensures s.body.Blank? <==> appState == Results && !s.body.ResultsBody?
      ensures appState == Idle ==> s.body == Picker(recentScans)
      ensures appState == Loading ==> s.body == Progress(Preview(currentImage))
      ensures appState == Error ==> s.body.ErrorBody?
      ensures Valid() && appState == Error ==> s.body == ErrorBody(error.value)
    {
      var body :=
        match appState
        case Idle => Picker(recentScans)
        case Loading => Progress(Preview(currentImage))
        case Results =>
          if currentResult.Some? && Preview(currentImage).Some? then
            ResultsBody(currentResult.value, currentImage.value)
          else Blank
        case Error => ErrorBody(error.GetOr(""));
      Screen(appState != Results, body)
    }

    /** Mounting the page: everything empty, then the history read once. */
    constructor(initial: Option<Stored>)
      ensures appState == Idle && currentImage == None && currentResult == None && error == None
      ensures fresh(store) && store.stored == AfterRead(initial)
      ensures recentScans == RecentScans(initial)
      ensures Valid()
    {
      appState := Idle;
      currentImage := None;
      currentResult := None;
      error := None;
      recentScans := [];
      store := new ScanStore(initial);
      new;
      recentScans := store.GetRecentScans();
    }

    /** `handleImageSelect` before its first `await`: loading, with the error
        cleared. The preview is still the previous image, if any. */
    method BeginScan()
      modifies this
      ensures appState == Loading && error == None
      ensures currentImage == old(currentImage) && currentResult == old(currentResult)
      ensures recentScans == old(recentScans)
      ensures Valid()
      ensures Render() == Screen(true, Progress(Preview(old(currentImage))))
    {
      appState := Loading;
      error := None;
    }

    /** `handleImageSelect` once `compressImage` has settled (lines 33-34,
        and the `catch` for its rejection). On success the image becomes
        current while the request is still out, so the loading screen now
        previews the new image; on failure the page shows the error. */
    method CompressionSettled(compressed: Result<string, ImageUtils.CompressError>)
      modifies this
      ensures compressed.Success? ==>
                && currentImage == Some(compressed.value)
                && appState == old(appState) && error == old(error)
                && (old(appState) == Loading ==> Render() == Screen(true, Progress(Preview(Some(compressed.value)))))
      ensures compressed.Failure? ==>
                && appState == Error
                && error == Some(ImageUtils.ErrorMessage(compressed.error))
                && currentImage == old(currentImage)
      ensures currentResult == old(currentResult) && recentScans == old(recentScans)
      ensures old(Valid()) || compressed.Failure? ==> Valid()
    {
      match compressed
      case Success(image) =>
        currentImage := Some(image);
      case Failure(e) =>
        error := Some(ImageUtils.ErrorMessage(e));
        appState := Error;
    }

    /** `handleImageSelect` from the request on (lines 37-67): `image` is the
        compressed image that was posted, `response` how the request ended,
        and `id` and `timestamp` stand for `generateId()` and `Date.now()`. */
    method ReplySettled(image: string, response: ApiResponse, id: string, timestamp: int)
      modifies this, store
      ensures currentImage == old(currentImage)
      ensures ScanOutcome(Success(image), response).Failure? ==>
                && appState == Error
                && error == Some(ScanOutcome(Success(image), response).error)
                && currentResult == old(currentResult)
                && recentScans == old(recentScans)
                && store.stored == old(store.stored)
      ensures ScanOutcome(Success(image), response).Success? ==>
                var scan := Scan(id, timestamp, image, response.result);
                && appState == Results
                && error == old(error)
                && currentResult == Some(response.result)
                && store.stored == AfterSave(old(store.stored), Encode(scan))
                && recentScans == Take([scan] + RecentScans(old(store.stored)), MAX_SCANS)
      ensures old(currentImage).Some? ==> Valid()
    {
      match ScanOutcome(Success(image), response)
      case Failure(message) =>
        error := Some(message);
        appState := Error;
      case Success(result) =>
        currentResult := Some(result);
        var scan := Scan(id, timestamp, image, result);
        store.SaveScan(Encode(scan));
        recentScans := store.GetRecentScans();
        SaveThenRead(old(store.stored), scan);
        appState := Results;
    }

    /** `handleImageSelect` after `BeginScan`, from the compression to the
        end: the two steps above in order, the request made only when the
        compression succeeded. */
    method CompleteScan(compressed: Result<string, ImageUtils.CompressError>, response: ApiResponse,
                        id: string, timestamp: int)
      modifies this, store
      ensures compressed.Success? ==> currentImage == Some(compressed.value)
      ensures compressed.Failure? ==> currentImage == old(currentImage)
      ensures ScanOutcome(compressed, response).Failure? ==>
                && appState == Error
                && error == Some(ScanOutcome(compressed, response).error)
                && currentResult == old(currentResult)
                && recentScans == old(recentScans)
                && store.stored == old(store.stored)
      ensures ScanOutcome(compressed, response).Success? ==>
                var scan := Scan(id, timestamp, compressed.value, response.result);
                && appState == Results
                && error == old(error)
                && currentResult == Some(response.result)
                && store.stored == AfterSave(old(store.stored), Encode(scan))
                && recentScans == Take([scan] + RecentScans(old(store.stored)), MAX_SCANS)
                && (compressed.value != "" ==> Render() == Screen(false, ResultsBody(response.result, compressed.value)))
      ensures Valid()
    {
      CompressionSettled(compressed);
      if compressed.Success? {
        ReplySettled(compressed.value, response, id, timestamp);
      }
    }

    /** `handleSelectScan`: show a scan from the history. */
    method SelectScan(scan: Scan)
      modifies this
      ensures appState == Results
      ensures currentImage == Some(scan.imageBase64) && currentResult == Some(scan.result)
      ensures error == old(error) && recentScans == old(recentScans)
      ensures Valid()
      ensures scan.imageBase64 != "" ==> Render() == Screen(false, ResultsBody(scan.result, scan.imageBase64))
      ensures scan.imageBase64 == "" ==> Render() == Screen(false, Blank)
    {
      currentImage := Some(scan.imageBase64);
      currentResult := Some(scan.result);
      appState := Results;
    }

    /** `handleScanAgain`: back to the picker with nothing current. */
    method ScanAgain()
      modifies this
      ensures appState == Idle && currentImage == None && currentResult == None && error == None
      ensures recentScans == old(recentScans)
      ensures Valid()
      ensures Render() == Screen(true, Picker(recentScans))
    {
      appState := Idle;
      currentImage := None;
      currentResult := None;
      error := None;
    }

    /** `handleClearHistory`: the store and the list are emptied; the rest of
        the page is left as it is. */
    method ClearHistory()
      modifies this, store
      ensures store.stored == None && RecentScans(store.stored) == [] && recentScans == []
      ensures appState == old(appState) && currentImage == old(currentImage)
      ensures currentResult == old(currentResult) && error == old(error)
      ensures old(Valid()) ==> Valid()
    {
      store.ClearScans();
      recentScans := [];
    }

    /** `handleRetry`: back to the picker, clearing only the error; the image
        and the result of the failed attempt stay. */
    method Retry()
      modifies this
      ensures appState == Idle && error == None
      ensures currentImage == old(currentImage) && currentResult == old(currentResult)
      ensures recentScans == old(recentScans)
      ensures Valid()
    {
      appState := Idle;
      error := None;
    }
  }
}
