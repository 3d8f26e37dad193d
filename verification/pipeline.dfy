/** `analyze_image` of the detector: caption, detections, attention maps, boxes, analysis text
    and overall confidence, with the model outputs given as inputs. `AnalyzeWithAsWritten`
    pairs maps and detections as the source does; `AnalyzeWith` keeps each map in line with
    its detection (see `Attention.MisalignedBox` and `Attention.AlignedBox`). */
module Pipeline {
  import opened Wrappers
  import opened Strings
  import opened Reals
  import opened Geometry
  import opened Catalog
  import opened Detector
  import opened Attention
  import opened Analysis

  /** The result dictionary of one analysis. */
  datatype Analysed = Analysed(
    boxes: seq<Box>,
    analysisText: string,
    overallConfidence: real,
    processingTime: real,
    caption: string)

  /** One analysis over a given catalog and classifier. `caption` is the captioner's output
      (`None` when it fails), `probs` the softmax row over the catalog, `cam` and `extract`
      the activation maps and contour search, `pct` the percent formatting and `elapsed` the
      measured time. */
  function AnalyzeWith(concepts: seq<string>, classify: string -> Technique, caption: Option<string>,
                       probs: seq<real>, cam: CamOf, extract: Extractor,
                       pct: real -> string, elapsed: real): (a: Analysed)
    ensures |a.boxes| <= |DetectElements(concepts, probs, classify)| <= MaxDetections
    ensures ExtractInside(extract) ==> forall k :: 0 <= k < |a.boxes| ==> PctInside(a.boxes[k].bbox)
    ensures a.caption == CaptionOrFallback(caption) && a.processingTime == elapsed
  {
    var dets := DetectElements(concepts, probs, classify);
    assert |dets| <= MaxDetections;
    var maps := AttentionMaps(dets, cam);
    var boxes := CreateBoundingBoxes(maps, dets, extract);
    assert |boxes| <= |dets|;
    var text := AnalysisText(CaptionOrFallback(caption), dets, pct);
    Analysed(boxes, text, OverallConfidence(dets), elapsed, CaptionOrFallback(caption))
  }

  /** One analysis as the source composes it: the maps of failed CAMs are dropped (what is
      left is the aligned slots without the empty ones) and the remaining maps are paired
      with the detections by position. */
  function AnalyzeWithAsWritten(concepts: seq<string>, classify: string -> Technique, caption: Option<string>,
                                probs: seq<real>, cam: CamOf, extract: Extractor,
                                pct: real -> string, elapsed: real): (a: Analysed)
    ensures |a.boxes| <= |DetectElements(concepts, probs, classify)| <= MaxDetections
    ensures ExtractInside(extract) ==> forall k :: 0 <= k < |a.boxes| ==> PctInside(a.boxes[k].bbox)
    ensures a.caption == CaptionOrFallback(caption) && a.processingTime == elapsed
    ensures var dets := DetectElements(concepts, probs, classify);
      PairsRaise(Filled(AttentionMaps(dets, cam)), dets, extract) ==> a.boxes == []
    ensures var dets := DetectElements(concepts, probs, classify);
      !PairsRaise(Filled(AttentionMaps(dets, cam)), dets, extract) ==>
        PairedByPosition(a.boxes, Filled(AttentionMaps(dets, cam)), dets, extract)
  {
    var dets := DetectElements(concepts, probs, classify);
    assert |dets| <= MaxDetections;
    var maps := AttentionMapsAsWritten(dets, cam);
    AsWrittenMapsAreFilledSlots(dets, cam);
    BoxesAsWrittenByPosition(maps, dets, extract);
    var boxes := CreateBoundingBoxesAsWritten(maps, dets, extract);
    var text := AnalysisText(CaptionOrFallback(caption), dets, pct);
    Analysed(boxes, text, OverallConfidence(dets), elapsed, CaptionOrFallback(caption))
  }

  /** The as-written boxes of built detections with distinct ids are each copied from one
      detection, carry the label and colour of their type and have pairwise distinct ids. */
  lemma BoxesAsWrittenFollowType(dets: seq<Detection>, cam: CamOf, extract: Extractor,
                                 concepts: seq<string>, probs: seq<real>, classify: string -> Technique)
    requires forall j :: 0 <= j < |dets| ==> Built(dets[j], concepts, probs, classify)
    requires DetectionIdsDistinct(dets)
    ensures var boxes := CreateBoundingBoxesAsWritten(AttentionMapsAsWritten(dets, cam), dets, extract);
      && (forall k :: 0 <= k < |boxes| ==> exists j :: 0 <= j < |dets| && CopiedFrom(boxes[k], dets[j]))
      && (forall k :: 0 <= k < |boxes| ==>
            boxes[k].labelText == Label(boxes[k].technique) && boxes[k].color == ColorOf(boxes[k].technique))
      && BoxIdsDistinct(boxes)
  {
    var maps := AttentionMapsAsWritten(dets, cam);
    var boxes := CreateBoundingBoxesAsWritten(maps, dets, extract);
    BoxesAsWrittenIdsDistinct(maps, dets, extract);
    forall k | 0 <= k < |boxes|
      ensures exists j :: 0 <= j < |dets| && CopiedFrom(boxes[k], dets[j])
      ensures boxes[k].labelText == Label(boxes[k].technique) && boxes[k].color == ColorOf(boxes[k].technique)
    {
      var j :| 0 <= j < |dets| && j < |maps| && CopiedFrom(boxes[k], dets[j]);
      assert Built(dets[j], concepts, probs, classify);
    }
  }

  /** The as-written analysis differs from the aligned one only in its boxes, which are
      computed from the same detection list. */
  lemma AsWrittenParts(concepts: seq<string>, classify: string -> Technique, caption: Option<string>,
                       probs: seq<real>, cam: CamOf, extract: Extractor,
                       pct: real -> string, elapsed: real)
    ensures var a := AnalyzeWithAsWritten(concepts, classify, caption, probs, cam, extract, pct, elapsed);
      var dets := DetectElements(concepts, probs, classify);
      a.boxes == CreateBoundingBoxesAsWritten(AttentionMapsAsWritten(dets, cam), dets, extract)
    ensures var a := AnalyzeWithAsWritten(concepts, classify, caption, probs, cam, extract, pct, elapsed);
      var b := AnalyzeWith(concepts, classify, caption, probs, cam, extract, pct, elapsed);
      a == b.(boxes := a.boxes)
  {
  }

  /** The boxes of the as-written analysis still carry the label and colour of their type
      and have pairwise distinct ids. */
  lemma AnalysisBoxesAsWritten(concepts: seq<string>, classify: string -> Technique, caption: Option<string>,
                               probs: seq<real>, cam: CamOf, extract: Extractor,
                               pct: real -> string, elapsed: real)
    ensures var a := AnalyzeWithAsWritten(concepts, classify, caption, probs, cam, extract, pct, elapsed);
      && (forall k :: 0 <= k < |a.boxes| ==>
            a.boxes[k].labelText == Label(a.boxes[k].technique) && a.boxes[k].color == ColorOf(a.boxes[k].technique))
      && BoxIdsDistinct(a.boxes)
  {
    var dets := DetectElements(concepts, probs, classify);
    AsWrittenParts(concepts, classify, caption, probs, cam, extract, pct, elapsed);
    DetectionIdsUnique(concepts, probs, classify);
    BoxesAsWrittenFollowType(dets, cam, extract, concepts, probs, classify);
  }

  /** When something is detected, the analysis text opens with the caption header: the
      generated caption, or the fixed fallback when captioning fails, which is also the
      caption reported. */
  lemma CaptionInText(concepts: seq<string>, classify: string -> Technique, caption: Option<string>,
                      probs: seq<real>, cam: CamOf, extract: Extractor,
                      pct: real -> string, elapsed: real)
    ensures var a := AnalyzeWith(concepts, classify, caption, probs, cam, extract, pct, elapsed);
      DetectElements(concepts, probs, classify) != [] && caption.Some? ==>
        StartsWith(a.analysisText, CaptionHeader(caption.value)) && a.caption == caption.value
    ensures var a := AnalyzeWith(concepts, classify, caption, probs, cam, extract, pct, elapsed);
      DetectElements(concepts, probs, classify) != [] && caption.None? ==>
        StartsWith(a.analysisText, CaptionHeader("Unable to generate caption")) && a.caption == "Unable to generate caption"
  {
    AnalyzeWithParts(concepts, classify, caption, probs, cam, extract, pct, elapsed);
  }

  /** `analyze_image`: the analysis as written over the fixed catalog with the keyword
      classifier. */
  function AnalyzeImage(caption: Option<string>, probs: seq<real>, cam: CamOf,
                        extract: Extractor, pct: real -> string, elapsed: real): Analysed
  {
    AnalyzeWithAsWritten(Concepts, Categorize, caption, probs, cam, extract, pct, elapsed)
  }

  /** The same analysis with each map kept in line with its detection. */
  function AnalyzeImageAligned(caption: Option<string>, probs: seq<real>, cam: CamOf,
                               extract: Extractor, pct: real -> string, elapsed: real): Analysed
  {
    AnalyzeWith(Concepts, Categorize, caption, probs, cam, extract, pct, elapsed)
  }

  /** The parts of one analysis, by what they are computed from. */
  lemma AnalyzeWithParts(concepts: seq<string>, classify: string -> Technique, caption: Option<string>,
                         probs: seq<real>, cam: CamOf, extract: Extractor,
                         pct: real -> string, elapsed: real)
    ensures var a := AnalyzeWith(concepts, classify, caption, probs, cam, extract, pct, elapsed);
      var dets := DetectElements(concepts, probs, classify);
      && a.boxes == CreateBoundingBoxes(AttentionMaps(dets, cam), dets, extract)
      && a.analysisText == AnalysisText(CaptionOrFallback(caption), dets, pct)
      && a.overallConfidence == OverallConfidence(dets)
  {
  }

  /** Nothing was detected exactly when the text is the fixed sentence, and exactly when the
      overall confidence is 0; then there are no boxes either. */
  lemma NothingDetectedIff(dets: seq<Detection>, caption: string, cam: CamOf,
                           extract: Extractor, pct: real -> string)
    requires forall j :: 0 <= j < |dets| ==> dets[j].confidence > Threshold
    ensures dets == [] <==> AnalysisText(caption, dets, pct) == NothingDetected
    ensures dets == [] <==> OverallConfidence(dets) == 0.0
    ensures dets == [] ==> CreateBoundingBoxes(AttentionMaps(dets, cam), dets, extract) == []
  {
    if dets != [] {
      assert OverallConfidence(dets) > Threshold;
    }
  }

  /** Boxes drawn for detections with distinct ids: each box is one detection's, and box ids
      are pairwise distinct. */
  lemma BoxesFromDetections(dets: seq<Detection>, cam: CamOf, extract: Extractor)
    requires DetectionIdsDistinct(dets)
    ensures var boxes := CreateBoundingBoxes(AttentionMaps(dets, cam), dets, extract);
      && (forall k :: 0 <= k < |boxes| ==> exists j :: 0 <= j < |dets| && CopiedFrom(boxes[k], dets[j]))
      && BoxIdsDistinct(boxes)
  {
    var maps := AttentionMaps(dets, cam);
    var boxes := CreateBoundingBoxes(maps, dets, extract);
    var idx := UsableIndices(maps, extract, |dets|);
    AlignedBoxesOwnClass(dets, cam, extract);
    forall k | 0 <= k < |boxes|
      ensures exists j :: 0 <= j < |dets| && CopiedFrom(boxes[k], dets[j])
    {
      assert CopiedFrom(boxes[k], dets[idx[k]]);
    }
    forall k, l | 0 <= k < l < |boxes|
      ensures boxes[k].id != boxes[l].id
    {
      assert boxes[k].id == dets[idx[k]].id && boxes[l].id == dets[idx[l]].id;
      assert idx[k] < idx[l];
    }
  }

  /** Boxes drawn for built detections carry the label and colour of their type. */
  lemma BoxesFollowType(dets: seq<Detection>, cam: CamOf, extract: Extractor,
                        concepts: seq<string>, probs: seq<real>, classify: string -> Technique)
    requires forall j :: 0 <= j < |dets| ==> Built(dets[j], concepts, probs, classify)
    requires DetectionIdsDistinct(dets)
    ensures var boxes := CreateBoundingBoxes(AttentionMaps(dets, cam), dets, extract);
      forall k :: 0 <= k < |boxes| ==>
        boxes[k].labelText == Label(boxes[k].technique) && boxes[k].color == ColorOf(boxes[k].technique)
  {
    var boxes := CreateBoundingBoxes(AttentionMaps(dets, cam), dets, extract);
    BoxesFromDetections(dets, cam, extract);
    forall k | 0 <= k < |boxes|
      ensures boxes[k].labelText == Label(boxes[k].technique) && boxes[k].color == ColorOf(boxes[k].technique)
    {
      var j :| 0 <= j < |dets| && CopiedFrom(boxes[k], dets[j]);
      assert Built(dets[j], concepts, probs, classify);
    }
  }

  /** The boxes of one analysis: each carries the label and colour of its type, and box ids
      are pairwise distinct. */
  lemma AnalysisBoxes(concepts: seq<string>, classify: string -> Technique, caption: Option<string>,
                      probs: seq<real>, cam: CamOf, extract: Extractor,
                      pct: real -> string, elapsed: real)
    ensures var a := AnalyzeWith(concepts, classify, caption, probs, cam, extract, pct, elapsed);
      && (forall k :: 0 <= k < |a.boxes| ==>
            a.boxes[k].labelText == Label(a.boxes[k].technique) && a.boxes[k].color == ColorOf(a.boxes[k].technique))
      && BoxIdsDistinct(a.boxes)
  {
    var dets := DetectElements(concepts, probs, classify);
    AnalyzeWithParts(concepts, classify, caption, probs, cam, extract, pct, elapsed);
    DetectionIdsUnique(concepts, probs, classify);
    BoxesFromDetections(dets, cam, extract);
    BoxesFollowType(dets, cam, extract, concepts, probs, classify);
  }

  /** With the detections of one analysis, nothing was detected exactly when the text is the
      fixed sentence and exactly when the overall confidence is 0. */
  lemma AnalysisNothingDetected(concepts: seq<string>, classify: string -> Technique, caption: Option<string>,
                                probs: seq<real>, cam: CamOf, extract: Extractor,
                                pct: real -> string, elapsed: real)
    ensures var a := AnalyzeWith(concepts, classify, caption, probs, cam, extract, pct, elapsed);
      var dets := DetectElements(concepts, probs, classify);
      && (dets == [] <==> a.analysisText == NothingDetected)
      && (dets == [] <==> a.overallConfidence == 0.0)
      && (dets == [] ==> a.boxes == [])
  {
    var dets := DetectElements(concepts, probs, classify);
    AnalyzeWithParts(concepts, classify, caption, probs, cam, extract, pct, elapsed);
    forall j | 0 <= j < |dets|
      ensures dets[j].confidence > Threshold
    {
      assert Built(dets[j], concepts, probs, classify);
    }
    NothingDetectedIff(dets, CaptionOrFallback(caption), cam, extract, pct);
  }
}
