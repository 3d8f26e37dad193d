/** The `/analyze` endpoint: the content-type check, the mapping of the analysis result to
    response records, and the mapping of failures to HTTP errors. */
module Api {
  import opened Wrappers
  import opened Strings
  import opened Geometry
  import opened Catalog
  import opened Attention
  import opened Pipeline

  /** The analysis dictionary as the endpoint reads it: any key may be missing. */
  datatype ResultDict = ResultDict(
    detections: Option<seq<Box>>,
    analysisText: Option<string>,
    overallConfidence: Option<real>,
    processingTime: Option<real>)

  /** The dictionary the detector returns: every key present. */
  function FromResult(a: Analysed): (d: ResultDict)
    ensures d.detections == Some(a.boxes) && d.analysisText == Some(a.analysisText)
    ensures d.overallConfidence == Some(a.overallConfidence) && d.processingTime == Some(a.processingTime)
  {
    ResultDict(Some(a.boxes), Some(a.analysisText), Some(a.overallConfidence), Some(a.processingTime))
  }

  /** A box as the client receives it. */
  datatype BoundingBox = BoundingBox(
    id: string,
    x: real,
    y: real,
    width: real,
    height: real,
    labelText: string,
    color: string,
    confidence: real)

  /** A word of the analysis text to highlight in a box's colour. */
  datatype HighlightedWord = HighlightedWord(word: string, id: string, color: string)

  /** The response body. */
  datatype AnalysisResponse = AnalysisResponse(
    success: bool,
    analysisText: string,
    boundingBoxes: seq<BoundingBox>,
    highlightedWords: seq<HighlightedWord>,
    confidenceScore: real,
    processingTime: real,
    errorMessage: Option<string>)

  /** The client box of a detection: coordinates from its percentage box, the rest copied. */
  function ToBoundingBox(b: Box): BoundingBox {
    BoundingBox(b.id, b.bbox.x, b.bbox.y, b.bbox.w, b.bbox.h, b.labelText, b.color, b.confidence)
  }

  /** The display form of a label: underscores become spaces, then title case. */
  function DisplayWord(labelText: string): string {
    Title(ReplaceChar(labelText, '_', ' '))
  }

  /** The highlighted word of a detection. */
  function ToHighlightedWord(b: Box): HighlightedWord {
    HighlightedWord(DisplayWord(b.labelText), b.id, b.color)
  }

  /** The response for an analysis: one box and one word per detection, in order, missing
      keys read as no detections, `''` and `0.0`. */
  function BuildResponse(res: ResultDict): (r: AnalysisResponse)
    ensures r.success && r.errorMessage.None?
    ensures |r.boundingBoxes| == |res.detections.GetOr([])| == |r.highlightedWords|
    ensures res.analysisText.None? ==> r.analysisText == ""
    ensures res.analysisText.Some? ==> r.analysisText == res.analysisText.value
    ensures res.overallConfidence.None? ==> r.confidenceScore == 0.0
    ensures res.overallConfidence.Some? ==> r.confidenceScore == res.overallConfidence.value
    ensures res.processingTime.None? ==> r.processingTime == 0.0
    ensures res.processingTime.Some? ==> r.processingTime == res.processingTime.value
  {
    var dets := res.detections.GetOr([]);
    AnalysisResponse(
      true,
      res.analysisText.GetOr(""),
      seq(|dets|, k requires 0 <= k < |dets| => ToBoundingBox(dets[k])),
      seq(|dets|, k requires 0 <= k < |dets| => ToHighlightedWord(dets[k])),
      res.overallConfidence.GetOr(0.0),
      res.processingTime.GetOr(0.0),
      None)
  }

  /** Box `k` and word `k` describe detection `k`: the box has its percentage coordinates
      and copies its id, label, colour and confidence; the word shares id and colour. */
  lemma ResponseFollowsDetections(res: ResultDict)
    ensures var r := BuildResponse(res);
      var dets := res.detections.GetOr([]);
      forall k :: 0 <= k < |dets| ==>
        && r.boundingBoxes[k].id == dets[k].id && r.boundingBoxes[k].labelText == dets[k].labelText
        && r.boundingBoxes[k].color == dets[k].color && r.boundingBoxes[k].confidence == dets[k].confidence
        && PctRect(r.boundingBoxes[k].x, r.boundingBoxes[k].y, r.boundingBoxes[k].width, r.boundingBoxes[k].height) == dets[k].bbox
        && r.highlightedWords[k].id == r.boundingBoxes[k].id
        && r.highlightedWords[k].color == r.boundingBoxes[k].color
  {
  }

  /** A detector label is already in display form. */
  lemma LabelIsDisplayWord(t: Technique)
    ensures DisplayWord(Label(t)) == Label(t)
  {
    var n := ReplaceChar(Name(t), '_', ' ');
    LabelIsTitleCase(t);
    TitleFromKeepsChar(n, false, '_');
    assert ReplaceChar(Label(t), '_', ' ') == Label(t);
    TitleIdempotent(n);
  }

  /** For a detector result, each highlighted word is its box's label unchanged (for any
      catalog and classifier, the fixed ones included). */
  lemma WordsAreLabels(concepts: seq<string>, classify: string -> Technique, caption: Option<string>,
                       probs: seq<real>, cam: CamOf, extract: Extractor,
                       pct: real -> string, elapsed: real)
    ensures var r := BuildResponse(FromResult(AnalyzeWith(concepts, classify, caption, probs, cam, extract, pct, elapsed)));
      forall k :: 0 <= k < |r.highlightedWords| ==> r.highlightedWords[k].word == r.boundingBoxes[k].labelText
  {
    var a := AnalyzeWith(concepts, classify, caption, probs, cam, extract, pct, elapsed);
    AnalysisBoxes(concepts, classify, caption, probs, cam, extract, pct, elapsed);
    LabelledWords(a.boxes, FromResult(a));
  }

  /** The same for the analysis as written: each highlighted word is its box's label. */
  lemma WordsAreLabelsAsWritten(concepts: seq<string>, classify: string -> Technique, caption: Option<string>,
                                probs: seq<real>, cam: CamOf, extract: Extractor,
                                pct: real -> string, elapsed: real)
    ensures var r := BuildResponse(FromResult(AnalyzeWithAsWritten(concepts, classify, caption, probs, cam, extract, pct, elapsed)));
      forall k :: 0 <= k < |r.highlightedWords| ==> r.highlightedWords[k].word == r.boundingBoxes[k].labelText
  {
    var a := AnalyzeWithAsWritten(concepts, classify, caption, probs, cam, extract, pct, elapsed);
    AnalysisBoxesAsWritten(concepts, classify, caption, probs, cam, extract, pct, elapsed);
    LabelledWords(a.boxes, FromResult(a));
  }

  /** Boxes labelled by their type give words equal to their labels. */
  lemma LabelledWords(boxes: seq<Box>, res: ResultDict)
    requires res.detections == Some(boxes)
    requires forall k :: 0 <= k < |boxes| ==> boxes[k].labelText == Label(boxes[k].technique)
    ensures var r := BuildResponse(res);
      forall k :: 0 <= k < |r.highlightedWords| ==> r.highlightedWords[k].word == r.boundingBoxes[k].labelText
  {
    var r := BuildResponse(res);
    forall k | 0 <= k < |r.highlightedWords|
      ensures r.highlightedWords[k].word == r.boundingBoxes[k].labelText
    {
      LabelIsDisplayWord(boxes[k].technique);
    }
  }

  // ---------------------------------------------------------------------------------------
  // The endpoint.

  /** An HTTP error response. */
  datatype HttpError = HttpError(status: nat, detail: string)

  /** What reading, decoding and analysing the upload can raise. */
  datatype Raised =
    | HttpRaised(error: HttpError)
    | OtherRaised(message: string)

  const NotAnImage: HttpError := HttpError(400, "File must be an image")

  const InternalPrefix: string := "Internal server error: "

  /** The message of calling `startswith` on a missing content type. */
  const NoContentTypeMessage: string := "'NoneType' object has no attribute 'startswith'"

  /** Any exception other than an HTTP error becomes a 500 with the prefixed message. */
  function Internal(message: string): (e: HttpError)
    ensures e.status == 500 && StartsWith(e.detail, InternalPrefix)
  {
    HttpError(500, InternalPrefix + message)
  }

  /** `analyze_image` of the API. `contentType` is the upload's declared type (`None` when
      absent); `outcome` is what reading the file and running the analysis gives, consulted
      only once the type is accepted. */
  function AnalyzeEndpoint(contentType: Option<string>, outcome: Result<ResultDict, Raised>): (r: Result<AnalysisResponse, HttpError>)
    ensures r.Success? <==> contentType.Some? && StartsWith(contentType.value, "image/") && outcome.Success?
    ensures contentType.None? ==> r == Failure(Internal(NoContentTypeMessage))
    ensures contentType.Some? && !StartsWith(contentType.value, "image/") ==> r == Failure(NotAnImage)
    ensures contentType.Some? && StartsWith(contentType.value, "image/") ==>
      match outcome
      case Success(res) => r == Success(BuildResponse(res))
      case Failure(HttpRaised(e)) => r == Failure(e)
      case Failure(OtherRaised(m)) => r == Failure(Internal(m))
  {
    if contentType.None? then Failure(Internal(NoContentTypeMessage))
    else if !StartsWith(contentType.value, "image/") then Failure(NotAnImage)
    else
      match outcome
      case Success(res) => Success(BuildResponse(res))
      case Failure(HttpRaised(e)) => Failure(e)
      case Failure(OtherRaised(m)) => Failure(Internal(m))
  }

  /** A type that is not an image is rejected before the upload is read or analysed: the
      outcome makes no difference. */
  lemma RejectedBeforeReading(contentType: string, o1: Result<ResultDict, Raised>, o2: Result<ResultDict, Raised>)
    requires !StartsWith(contentType, "image/")
    ensures AnalyzeEndpoint(Some(contentType), o1) == AnalyzeEndpoint(Some(contentType), o2)
    ensures AnalyzeEndpoint(Some(contentType), o1).Failure?
    ensures AnalyzeEndpoint(Some(contentType), o1).error.status == 400
  {
  }

  /** Every error the endpoint produces is a 400 or a 500, unless an HTTP error raised inside
      is passed on unchanged. */
  lemma ErrorStatuses(contentType: Option<string>, outcome: Result<ResultDict, Raised>)
    requires AnalyzeEndpoint(contentType, outcome).Failure?
    ensures var e := AnalyzeEndpoint(contentType, outcome).error;
      e.status == 400 || e.status == 500 || outcome == Failure(HttpRaised(e))
  {
  }
}
