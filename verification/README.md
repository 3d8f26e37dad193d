# Propaganda Spotter backend, modelled in Dafny

This project models the deterministic logic of the Propaganda Spotter backend. That is the
code around three black boxes: the neural models (CLIP, BLIP, Grad-CAM++), OpenCV, and the
FastAPI framework. Model and library outputs are taken as inputs:

- the softmax row of concept scores;
- the CAM outcome of each class: an activation grid, a failure the loop skips, or an
  exception;
- the outcome of the contour search in a grid: a rectangle, no contour, or an exception;
- the rectangles of the text and face detectors;
- the thumbnail size PIL picks.

What remains is modelled as pure functions over sequences, records, integers, reals and
strings.

- `Catalog` (catalog.dfy): the twelve concepts, the colour map, the label of each technique
  type, the keyword classifier (`_categorize_concept`) and the paragraph of each type.
  `CatalogTable` (catalog_table.dfy) classifies the twelve concepts one by one.
- `Detector` (detector.dfy): the scoring loop of `_detect_propaganda_elements`. Scores over
  0.10 become detections in catalog order, with ids `detection_k`. The list is then
  stable-sorted by confidence and cut to five. `OverallConfidence` is the mean used by
  `analyze_image`.
- `Attention` (attention.dfy):
  - the min-max normalisation of an attention grid;
  - map collection and box creation as written, where failed CAMs are dropped and `zip`
    pairs by position;
  - the aligned pairing, the corrected version of the code (see Findings).
- `Analysis` (analysis.dfy): `_generate_analysis_text`. It groups types in order of first
  detection, writes one paragraph and one confidence line per known type, picks one of three
  assessment tiers, and falls back to a fixed sentence when nothing was detected.
- `Pipeline` (pipeline.dfy): `analyze_image` of the detector, composed from the parts above.
  `AnalyzeWithAsWritten` composes it as written, and `AnalyzeWith` composes it with the
  aligned pairing.
- `ImageProcessor` (imageprocessor.dfy):
  - the resize decision of `preprocess_image`;
  - the filtering, truncation and ids of `detect_text_regions` and `detect_faces`;
  - `create_overlay_mask` with its hex colour parsing and its fallback mask.
- `Api` (api.dfy): the `/analyze` endpoint. It checks the content type, maps each
  detection to one `BoundingBox` and one `HighlightedWord`, and maps exceptions to HTTP
  errors.
- Support modules:
  - `Wrappers`: `Option` and `Result`.
  - `Strings`: `in`, `lower`, `title`, `replace`, `lstrip`, slicing, `join`, and integer
    formatting over ASCII.
  - `Reals`: sum, mean, min, max, and `int()` truncation.
  - `Geometry`: pixel and percentage rectangles.

Floats are exact reals, and Python's `int()` on a float is modelled as truncation toward
zero (`Reals.Trunc`). The `{:.1%}` formatting of a confidence is a parameter `pct`.

## Model

| member | source | states |
|---|---|---|
| Catalog.ColorOf | backend/models/propaganda_detector.py:54-58 | the colour is the default grey exactly for "general" (absent from the map) and "historical" (mapped to the same grey) |
| Catalog.ColorOfIsLookup | backend/models/propaganda_detector.py:122 | every type except "general" is a key of the colour map, and the colour is the map's entry or the default `#6b7280` |
| Catalog.Label | backend/models/propaganda_detector.py:121 | the label has the length of the type name |
| Catalog.LabelIsTitleCase | backend/models/propaganda_detector.py:121 | the label is the type name with '_' replaced by ' ' and title-cased |
| Catalog.CategorizeIsFirstMatch | backend/models/propaganda_detector.py:134-144 | the if-chain equals a first-match scan of the rule table over the lower-cased concept |
| Catalog.FirstMatchFromSpec | backend/models/propaganda_detector.py:134-144 | the scan gives "general" exactly when no rule matches; otherwise it gives the type of a matching rule with no earlier match |
| Catalog.CategorizeSpec | backend/models/propaganda_detector.py:134-144 | the classifier lower-cases, then returns the type of the first matching rule, and "general" iff none matches |
| Catalog.AuthorityWins | backend/models/propaganda_detector.py:136 | a concept containing "authority" or "uniform" is "authority", whatever else it contains |
| Catalog.Description | backend/models/propaganda_detector.py:237-249 | a paragraph exists exactly for the eight types other than "general" |
| CatalogTable.ClassifyAuthorityFigureInUniform | backend/models/propaganda_detector.py:134-144 | "authority figure in uniform" is classified "authority" |
| CatalogTable.ClassifyMilitaryPropagandaPoster | backend/models/propaganda_detector.py:134-144 | "military propaganda poster" matches no rule and is "general" |
| CatalogTable.ClassifyPoliticalRallyWithFlags | backend/models/propaganda_detector.py:134-144 | "political rally with flags" is "patriotic" (through "flag") |
| CatalogTable.ClassifyEmotionalManipulationImagery | backend/models/propaganda_detector.py:134-144 | "emotional manipulation imagery" is "emotional" |
| CatalogTable.ClassifyFearInducingPropaganda | backend/models/propaganda_detector.py:134-144 | "fear-inducing propaganda" is "fear" |
| CatalogTable.ClassifyPatrioticSymbolsAndColors | backend/models/propaganda_detector.py:134-144 | "patriotic symbols and colors" is "patriotic" |
| CatalogTable.ClassifyLeaderWorshipImagery | backend/models/propaganda_detector.py:134-144 | "leader worship imagery" is "leader" |
| CatalogTable.ClassifyUsVersusThemMessaging | backend/models/propaganda_detector.py:134-144 | "us versus them messaging" is "conflict" |
| CatalogTable.ClassifyCallToActionPropaganda | backend/models/propaganda_detector.py:134-144 | "call to action propaganda" is "action" |
| CatalogTable.ClassifyHistoricalPropagandaArt | backend/models/propaganda_detector.py:134-144 | "historical propaganda art" is "historical" |
| CatalogTable.ClassifyWarPropagandaPoster | backend/models/propaganda_detector.py:134-144 | "war propaganda poster" is "conflict" |
| CatalogTable.ClassifyPoliticalCampaignImagery | backend/models/propaganda_detector.py:134-144 | "political campaign imagery" matches no rule and is "general" |
| CatalogTable.CatalogCategories | backend/models/propaganda_detector.py:47-52 | the classification of all twelve catalog concepts, in catalog order |
| Detector.Candidates | backend/models/propaganda_detector.py:114-124 | the scoring loop over the first n concepts appends one detection per score strictly above 0.10 |
| Detector.Visit | backend/models/propaganda_detector.py:117-124 | one loop turn appends concept i at the end exactly when its score is over 0.10, and otherwise changes nothing |
| Detector.NewDetection | backend/models/propaganda_detector.py:119-123 | the appended dictionary: concept and score of its index, type from the classifier, label and colour of the type, id from the running count |
| Detector.CandidatesBuilt | backend/models/propaganda_detector.py:114-124 | every candidate is built from its own catalog index, with confidence over the threshold |
| Detector.CandidatesNumbered | backend/models/propaganda_detector.py:120 | the j-th candidate has id `detection_j` |
| Detector.CandidatesOrdered | backend/models/propaganda_detector.py:114 | candidates are in strictly increasing catalog order, each from one of the concepts visited |
| Detector.CandidatesComplete | backend/models/propaganda_detector.py:117 | every concept scoring over 0.10 has a candidate |
| Detector.SortByConfidence | backend/models/propaganda_detector.py:126 | the sort returns a permutation of its input |
| Detector.InsertRanked | backend/models/propaganda_detector.py:126 | inserting into a ranked list keeps it ranked (higher confidence first, ties in catalog order) |
| Detector.SortRanked | backend/models/propaganda_detector.py:126 | sorting a list in catalog order gives a ranked list, so ties keep catalog order as a stable sort does |
| Detector.Take | backend/models/propaganda_detector.py:129 | `s[:n]`: the first min(n, len) elements |
| Detector.RankedCandidates | backend/models/propaganda_detector.py:126 | the sorted candidates are ranked, a permutation of the candidates, and all built from the scores |
| Detector.DetectElements | backend/models/propaganda_detector.py:114-132 | no detections when the score row is short (the loop raises); otherwise min(5, number over threshold) built detections, ranked |
| Detector.DetectionIdsUnique | backend/models/propaganda_detector.py:120 | the returned ids are pairwise distinct |
| Detector.RankedCandidateOf | backend/models/propaganda_detector.py:117-126 | every concept over the threshold survives the sort |
| Detector.DetectElementsKeepsBest | backend/models/propaganda_detector.py:126-129 | a concept over the threshold left out of the result was crowded out: five were returned and each ranks ahead of it |
| Detector.OverallConfidence | backend/models/propaganda_detector.py:79 | 0.0 with no detections; otherwise the mean, above 0.10 and at most the highest confidence |
| Attention.Normalize | backend/models/propaganda_detector.py:170 | `None` exactly for a grid without cells (`np.min` raises); otherwise a grid of the same shape whose cells are `(v - min) / (max - min + 1e-8)` |
| Attention.RescaleBounds | backend/models/propaganda_detector.py:170 | a value between the minimum and the maximum rescales into [0, 1) |
| Attention.RescaleMonotone | backend/models/propaganda_detector.py:170 | rescaling keeps the order of two values, weakly and strictly |
| Attention.NormalizeBounds | backend/models/propaganda_detector.py:170 | every normalised cell lies in [0, 1), and the minimum cell becomes 0 |
| Attention.NormalizeKeepsOrder | backend/models/propaganda_detector.py:170 | normalisation keeps the order of any two cells |
| Attention.NormalizeShape | backend/models/propaganda_detector.py:170 | a rectangular grid stays rectangular with the same width |
| Attention.CollectMaps | backend/models/propaganda_detector.py:149-177 | the attention loop collects at most one map per detection, or nothing when it raises (which maps, in which order: `AsWrittenMapsAreFilledSlots`) |
| Attention.CollectMapsFails | backend/models/propaganda_detector.py:159-177 | the loop yields no maps exactly when the CAM of some detection's class raises or is an empty grid |
| Attention.AttentionMapsAsWritten | backend/models/propaganda_detector.py:146-177 | as written: at most one map per detection |
| Attention.AsWrittenMapsAreFilledSlots | backend/models/propaganda_detector.py:146-177 | the maps as written are the aligned per-detection slots with the empty ones dropped: failed CAMs leave no map, the others keep detection order, and a raise leaves no maps |
| Attention.MakeBox | backend/models/propaganda_detector.py:195-206 | a box copies id, label, colour, confidence and type, and a rectangle inside the map gives a percentage box inside the image |
| Attention.BoxLoopAsWritten | backend/models/propaganda_detector.py:183-209 | the `zip` loop: at most min(#maps, #detections) boxes; each box is that of some pair j, i.e. detection j with the rectangle found in the non-empty map j; inside the image when the contour rectangles are |
| Attention.BoxLoopPairs | backend/models/propaganda_detector.py:183-209 | the loop's boxes are exactly those of the pairs whose map gives a rectangle, by position, in increasing pair order |
| Attention.CreateBoundingBoxesAsWritten | backend/models/propaganda_detector.py:179-215 | as written: the same bounds; no boxes at all when the contour search raises on a pair, and otherwise the loop's boxes |
| Attention.BoxesAsWrittenByPosition | backend/models/propaganda_detector.py:179-215 | no boxes when the search raises on a pair; otherwise the boxes of the pairs `zip` forms, by position and in order, one for every pair whose map gives a rectangle |
| Attention.BoxLoopIdsDistinct | backend/models/propaganda_detector.py:183 | with distinct detection ids the loop's boxes have distinct ids, since `zip` uses each detection once |
| Attention.BoxesAsWrittenIdsDistinct | backend/models/propaganda_detector.py:179-215 | the as-written boxes have pairwise distinct ids when the detections do, also on the raise path |
| Attention.AttentionMaps | backend/models/propaganda_detector.py:146-177 | one slot per detection holding that detection's own normalised map, or none; all empty when the loop raises |
| Attention.CreateBoundingBoxes | backend/models/propaganda_detector.py:179-215 | at most one box per slot, each inside the image when the contour rectangles are; none when the search raises on a slot |
| Attention.BoxesInside | backend/models/propaganda_detector.py:197-199 | boxes from rectangles that lie inside their maps lie inside [0, 100] |
| Attention.BoxesFromOwnMaps | backend/models/propaganda_detector.py:183-206 | the boxes are exactly those of the usable slots, in order, each from its own detection and map |
| Attention.MisalignedBox | backend/models/propaganda_detector.py:162-164 | as written, when the first of two CAMs fails, the one box drawn from the second map carries the first detection's fields |
| Attention.AlignedBox | backend/models/propaganda_detector.py:162-164 | with aligned slots, the same situation draws the box for the second detection |
| Attention.AlignedBoxesOwnClass | backend/models/propaganda_detector.py:179-215 | no boxes when the search raises on a slot; otherwise the boxes are those of the usable slots in order, each copied from its own detection and drawn from that detection's class map |
| Geometry.ToPercent | backend/models/propaganda_detector.py:197-199 | a rectangle inside a positive-sized image gives percentages in [0, 100] with x + w and y + h at most 100 |
| Geometry.PercentBounds | backend/utils/image_processor.py:69-73 | two non-negative pixel lengths summing to at most the dimension give percentages summing to at most 100 |
| Geometry.PixelRoundTrip | backend/utils/image_processor.py:178-181 | pixel to percent and back by truncation gives the original integer, in exact arithmetic |
| Analysis.AssessmentOf | backend/models/propaganda_detector.py:258-263 | strong iff mean > 0.3, moderate iff 0.2 < mean <= 0.3, minimal iff mean <= 0.2 |
| Analysis.AssessmentMonotone | backend/models/propaganda_detector.py:258-263 | a higher mean never gives a lower tier |
| Analysis.DistinctTechniques | backend/models/propaganda_detector.py:229-234 | the group keys hold each detected type exactly once |
| Analysis.DistinctTechniquesOrder | backend/models/propaganda_detector.py:229-248 | the keys come in order of first detection (dict insertion order) |
| Analysis.OfType | backend/models/propaganda_detector.py:230-234 | a group holds exactly the detections of its type: each member is of the type and in the list, every detection of the type is in the group, and a detected type has a non-empty group |
| Analysis.OfTypeAppend | backend/models/propaganda_detector.py:230-234 | grouping distributes over concatenation, so a group keeps the relative detection order |
| Analysis.Known | backend/models/propaganda_detector.py:249 | the types kept are exactly the given types other than "general" |
| Analysis.KnownInFirstOrder | backend/models/propaganda_detector.py:229-249 | dropping "general" keeps the remaining types in order of first detection |
| Analysis.TypePartsSpec | backend/models/propaganda_detector.py:248-254 | two parts per known type, in order: its paragraph, then its confidence line |
| Analysis.AnalysisParts | backend/models/propaganda_detector.py:223-263 | caption header first, elements header second, the assessment of the mean confidence last |
| Analysis.AnalysisPartsTypes | backend/models/propaganda_detector.py:223-263 | between headers and assessment: paragraph and confidence line of each known type; the types listed are exactly the detected ones other than "general", in order of first detection |
| Analysis.AnalysisText | backend/models/propaganda_detector.py:220-265 | the fixed sentence exactly when nothing was detected; otherwise the text opens with the caption header |
| Pipeline.AnalyzeWith | backend/models/propaganda_detector.py:60-89 | with maps kept in line with their detections: at most as many boxes as detections and at most five; boxes inside the image; caption and time passed through |
| Pipeline.AnalyzeWithAsWritten | backend/models/propaganda_detector.py:60-89 | as written: the same bounds and pass-through; the boxes are none when the search raises, and otherwise those of the maps left after dropping the empty aligned slots, paired with the detections by position and in order |
| Pipeline.AsWrittenParts | backend/models/propaganda_detector.py:70-89 | the as-written analysis differs from the aligned one only in its boxes |
| Pipeline.BoxesAsWrittenFollowType | backend/models/propaganda_detector.py:183-206 | as written, each box is copied from some detection, carries its type's label and colour, and box ids are distinct |
| Pipeline.AnalysisBoxesAsWritten | backend/models/propaganda_detector.py:70-89 | the boxes of an as-written analysis carry their type's label and colour and have distinct ids |
| Pipeline.CaptionInText | backend/models/propaganda_detector.py:60-103 | the analysis text opens with the generated caption, or with "Unable to generate caption" when captioning fails, which is then also the caption reported |
| Pipeline.NothingDetectedIff | backend/models/propaganda_detector.py:76-79 | for detections over the threshold: none iff the fixed sentence, none iff confidence 0.0, and none gives no boxes |
| Pipeline.BoxesFromDetections | backend/models/propaganda_detector.py:183-206 | each box is copied from some detection, and box ids are pairwise distinct |
| Pipeline.BoxesFollowType | backend/models/propaganda_detector.py:119-122 | boxes of built detections carry the label and colour of their type |
| Pipeline.AnalysisBoxes | backend/models/propaganda_detector.py:70-89 | the boxes of an analysis carry their type's label and colour and have distinct ids |
| Pipeline.AnalysisNothingDetected | backend/models/propaganda_detector.py:76-79 | nothing detected iff the fixed sentence iff overall confidence 0.0; then no boxes |
| ImageProcessor.Preprocess | backend/utils/image_processor.py:23-28 | mode becomes RGB; the size is unchanged unless a side exceeds 1024, when the thumbnail size is taken and then fits |
| ImageProcessor.PreprocessIdempotent | backend/utils/image_processor.py:23-28 | preprocessing twice is preprocessing once |
| ImageProcessor.PreprocessedGrayable | backend/utils/image_processor.py:54-55 | a preprocessed image with a pixel converts to grey |
| ImageProcessor.KeptIndices | backend/utils/image_processor.py:62-67 | exactly the indices of rectangles wider than 20 and taller than 10, increasing |
| ImageProcessor.DetectTextRegions | backend/utils/image_processor.py:48-85 | none when grey conversion fails; otherwise the first min(10, kept) kept rectangles, each with id `text_i` for its detector index, kind "text" |
| ImageProcessor.TextRegionsDistinct | backend/utils/image_processor.py:75-79 | text ids are pairwise distinct, and a rectangle inside the image gives a percentage box inside it |
| ImageProcessor.FaceRegions | backend/utils/image_processor.py:87-121 | none when grey conversion fails; otherwise one entry per face with id `face_k`, kind "face" and the face's rectangle in percent of the image, inside the image when the face is |
| ImageProcessor.FaceIdsUnique | backend/utils/image_processor.py:111-115 | face ids are pairwise distinct |
| ImageProcessor.ParseHexPair | backend/utils/image_processor.py:185 | `int(pair, 16)`: two hex digits give their value, blank input raises, any result lies in -15..255 |
| ImageProcessor.ParseColor | backend/utils/image_processor.py:184-185 | components in -15..255; a colour with at most four characters after the '#'s does not parse |
| ImageProcessor.ParsePairOfDigits | backend/utils/image_processor.py:185 | two hex digits parse to 16 * first + second |
| ImageProcessor.ParseSixDigits | backend/utils/image_processor.py:184-185 | `#rrggbb` parses to its three pair values, each in 0..255 |
| ImageProcessor.AuthorityColorValue | backend/utils/image_processor.py:184-185 | `#ef4444` gives (239, 68, 68) |
| ImageProcessor.ShortColorFails | backend/utils/image_processor.py:184-185 | the shorthand `#fff` does not parse |
| ImageProcessor.OverlayMask | backend/utils/image_processor.py:168-194 | an h x w mask with one fill per box in the box's colour; the 100 x 100 fallback for a negative size or a colour that does not parse |
| ImageProcessor.FillInside | backend/utils/image_processor.py:176-188 | a box inside the image in percentages is drawn inside the mask |
| ImageProcessor.SpanInside | backend/utils/image_processor.py:178-181 | truncating a span of p and q percent, p + q <= 100, stays within the dimension |
| ImageProcessor.MaskRoundTrip | backend/utils/image_processor.py:176-188 | a rectangle turned into percentages and drawn, in a colour that parses, on a mask of the same size is filled at its original pixel corners |
| Api.BuildResponse | backend/main.py:89-122 | success, no error message, one box and one word per detection; confidence and processing time passed through when present; missing keys read as no detections, '' and 0.0 |
| Api.ResponseFollowsDetections | backend/main.py:94-113 | box k has the coordinates of detection k and copies its id, label, colour and confidence; word k shares id and colour with box k |
| Api.LabelIsDisplayWord | backend/main.py:108-112 | a detector label is unchanged by the word's replace-then-title step |
| Api.WordsAreLabels | backend/main.py:108-112 | in a response built from an aligned analysis, every highlighted word equals its box's label |
| Api.WordsAreLabelsAsWritten | backend/main.py:108-112 | in a response built from the analysis as written, every highlighted word equals its box's label |
| Strings.TitleIdempotent | backend/main.py:109 | `title()` is idempotent |
| Api.Internal | backend/main.py:129-132 | any other exception gives a 500 whose detail starts with "Internal server error: " |
| Api.AnalyzeEndpoint | backend/main.py:71-132 | success iff the type is given and starts with "image/" and the analysis succeeds; 400 for another type; HTTP errors passed on; other exceptions give a 500 |
| Api.RejectedBeforeReading | backend/main.py:78-79 | a type that is not an image gives 400 whatever the upload and analysis would have done |
| Api.ErrorStatuses | backend/main.py:127-132 | every error is a 400 or a 500, or an HTTP error raised inside and passed on unchanged |

## Left out

- Model loading and inference (CLIP, BLIP, softmax, Grad-CAM++) are foreign neural calls.
  The softmax row, each class's CAM outcome (the grid already resized, a skipped failure, or
  an exception) and the caption, or its failure, are inputs.
- OpenCV is a library that cannot be seen. `findContours`, `contourArea`, `boundingRect`,
  `np.quantile`, MSER and the Haar cascade are inputs. `extract` gives a grid's rectangle,
  no contour, or an exception, and the region detectors give lists of rectangles.
  `ExtractInside` states the one property relied on: a rectangle found lies inside its grid.
- `cv2.rectangle` rasterisation is left out: the mask records the filled rectangles, in
  order, rather than pixel values.
- PIL's `thumbnail` resampling is a parameter `thumbnail`. `ThumbnailFits` states that its
  result fits within 1024 x 1024.
- `enhance_contrast`, `analyze_color_composition` and `_is_monochromatic` are floating-point
  numerics over pixel arrays, and are not modelled.
- Floating-point rounding is left out: reals are exact. In particular the pixel round trip
  holds in exact arithmetic only.
- The `{:.1%}` percent formatting is a parameter `pct`.
- Timing (`time.time()`) is a parameter `elapsed`. Logging, async/await, FastAPI setup, CORS,
  the root and health routes, and file reading and decoding are left out. A failure of
  reading or decoding is an `OtherRaised` outcome of the endpoint.
- Case mapping and whitespace cover ASCII only. Non-ASCII `lower`, `title` and `strip` rules
  are not modelled.
- The `except` branch of `_generate_analysis_text` ("Error generating analysis text.") is
  not modelled. No step of the text composition raises in the model.
- `ImageProcessor.ParseHexPair` models `int(s, 16)` only for strings of at most two
  characters. These are the only strings the colour parser passes, since slices are at most
  two long. Longer literals, underscores and `0x` prefixes are not modelled. Nor are the
  non-ASCII Unicode decimal digits that `int` also accepts (`int('٣', 16) == 3`,
  `int('1٣', 16) == 19`). The model rejects them, where the program would parse them.
- `Analysis.AnalysisText` states only the nothing-detected case and the opening caption
  header. The full sequence of parts is stated on `AnalysisParts` and `AnalysisPartsTypes`.
  The `"\n\n".join` over them is defined but has no contract beyond its first part.
- `Detector.OverallConfidence` states bounds for the mean (above the threshold, at most the
  maximum), not the value of the float `np.mean`.
- `Pipeline.AnalyzeWith` describes the composition with the aligned pairing of maps and
  detections. The composition as written is `Pipeline.AnalyzeWithAsWritten`, which
  `AnalyzeImage` uses (see Findings).
- `Attention.RescaleBounds` and `Attention.NormalizeBounds` state that normalised values lie
  below 1 in exact arithmetic only. In float32 the `+ 1e-8` is lost to rounding once
  max - min is about 0.25 or more, so the maximum cell becomes exactly 1.0.
- Test scripts and the response schemas carry no logic. The schemas appear only as the
  shapes of `BoundingBox`, `HighlightedWord` and `AnalysisResponse`.

## Behaviour of the code worth knowing

- Overall confidence is the mean of the returned detections' confidences
  (propaganda_detector.py:79).
- Normalised attention values are `(v - min) / (max - min + 1e-8)` (propaganda_detector.py:170).
  In exact arithmetic they lie in [0, 1). On the float32 map the `1e-8` is rounded away when
  max - min is about 0.25 or more, so the maximum cell is then exactly 1.0.
- A failed caption becomes the text "Unable to generate caption", which then opens the
  analysis text and is returned as the caption (propaganda_detector.py:101-103).
- An exception inside the attention loop makes it return no maps at all, and an exception in
  the box loop makes it return no boxes at all, even for pairs already handled
  (propaganda_detector.py:173-175, 213-215).
- `int(pair, 16)` accepts a sign and surrounding whitespace. A colour such as `#-f0000`
  therefore parses, with a red component of -15, so components are only guaranteed to lie
  in -15..255. They lie in 0..255 for `#rrggbb` colours.
- A missing content type fails with an attribute error, which the generic handler turns into
  a 500, not a 400.

## Findings

| source | as written | input that shows it | evidently intended | confidence | as-written member | corrected member |
|---|---|---|---|---|---|---|
| backend/models/propaganda_detector.py:162-164 | a failed CAM is skipped with `continue`, so the map list is shorter than the detection list, and `zip` at line 183 pairs maps with detections by position | two detections where the first one's CAM fails and the second one's succeeds with a non-empty map in which a contour is found | each map is paired with the detection it was computed for, so the second detection gets the box | not executed | Attention.MisalignedBox | Attention.AlignedBox |

With the code as written (`AttentionMapsAsWritten`, `CreateBoundingBoxesAsWritten`), the
second detection's map is drawn under the first detection's id, label, colour and
confidence; `Pipeline.AnalyzeWithAsWritten` composes the analysis that way. The model
keeps one slot per detection (`AttentionMaps`) and pairs slot `j` with detection `j`
(`CreateBoundingBoxes`), which `Pipeline.AnalyzeWith` uses. `AlignedBoxesOwnClass` proves that every box
then comes from its own detection and that detection's class map.
