/** Attention maps and the boxes drawn from them: min-max normalisation of a class
    activation grid, one map per detection, and one percentage box per usable map. */
module Attention {
  import opened Wrappers
  import opened Reals
  import opened Geometry
  import opened Catalog
  import opened Detector

  /** A two-dimensional array of activations, row by row. */
  type Grid = seq<seq<real>>

  /** All rows have the length of the first, as in a numpy array. */
  predicate Rectangular(g: Grid) {
    forall i :: 0 <= i < |g| ==> |g[i]| == |g[0]|
  }

  function Width(g: Grid): nat {
    if g == [] then 0 else |g[0]|
  }

  /** `array.size`: the number of cells. */
  function Size(g: Grid): nat {
    |g| * Width(g)
  }

  /** The cells in row order, as `np.min` and `np.max` see them. */
  function Flatten(g: Grid): seq<real> {
    if g == [] then [] else g[0] + Flatten(g[1..])
  }

  /** Every cell is among the flattened values. */
  lemma {:induction false} FlattenHas(g: Grid, i: nat, j: nat)
    requires i < |g| && j < |g[i]|
    ensures g[i][j] in Flatten(g)
    decreases i
  {
    if i == 0 {
      assert Flatten(g)[j] == g[0][j];
    } else {
      FlattenHas(g[1..], i - 1, j);
      assert g[1..][i - 1] == g[i];
    }
  }

  /** A rectangular grid flattens to exactly `Size` values. */
  lemma {:induction false} FlattenSize(g: Grid)
    requires Rectangular(g)
    ensures |Flatten(g)| == Size(g)
    decreases |g|
  {
    if g != [] {
      assert Rectangular(g[1..]) by {
        forall i | 0 <= i < |g[1..]|
          ensures |g[1..][i]| == |g[1..][0]|
        {
          assert g[1..][i] == g[i + 1];
        }
      }
      FlattenSize(g[1..]);
      if |g| > 1 {
        assert Width(g[1..]) == Width(g);
      }
    }
  }

  /** The small constant that keeps the denominator positive for a constant grid. */
  const Eps: real := 0.00000001

  /** One cell of `(cam - min) / (max - min + 1e-8)`. */
  function Rescale(v: real, lo: real, hi: real): real
    requires lo <= hi
  {
    (v - lo) / (hi - lo + Eps)
  }

  /** A value between the minimum and the maximum rescales into `[0, 1)`. */
  lemma RescaleBounds(v: real, lo: real, hi: real)
    requires lo <= v <= hi
    ensures 0.0 <= Rescale(v, lo, hi) < 1.0
  {
    var d := hi - lo + Eps;
    assert v - lo < d;
    assert Rescale(v, lo, hi) * d == v - lo;
  }

  /** Rescaling keeps the order of values, strictly and weakly. */
  lemma RescaleMonotone(v: real, w: real, lo: real, hi: real)
    requires lo <= hi
    ensures v <= w <==> Rescale(v, lo, hi) <= Rescale(w, lo, hi)
    ensures v < w <==> Rescale(v, lo, hi) < Rescale(w, lo, hi)
  {
    var d := hi - lo + Eps;
    assert Rescale(w, lo, hi) - Rescale(v, lo, hi) == (w - v) / d;
  }

  /** One row of the normalised grid. */
  function RescaleRow(row: seq<real>, lo: real, hi: real): (r: seq<real>)
    requires lo <= hi
    ensures |r| == |row| && forall j :: 0 <= j < |row| ==> r[j] == Rescale(row[j], lo, hi)
  {
    seq(|row|, j requires 0 <= j < |row| => Rescale(row[j], lo, hi))
  }

  /** The min-max normalisation of a grid; `None` when the grid has no cell (`np.min` of an
      empty array raises). */
  function Normalize(g: Grid): (r: Option<Grid>)
    ensures r.None? <==> Flatten(g) == []
    ensures r.Some? ==> |r.value| == |g| && forall i :: 0 <= i < |g| ==> |r.value[i]| == |g[i]|
    ensures r.Some? ==> forall i, j :: 0 <= i < |g| && 0 <= j < |g[i]| ==>
              r.value[i][j] == Rescale(g[i][j], Min(Flatten(g)), Max(Flatten(g)))
  {
    var f := Flatten(g);
    if f == [] then None
    else
      var lo := Min(f);
      var hi := Max(f);
      Some(seq(|g|, i requires 0 <= i < |g| => RescaleRow(g[i], lo, hi)))
  }

  /** Every cell lies between the grid's minimum and maximum. */
  lemma CellBetween(g: Grid, i: nat, j: nat)
    requires Flatten(g) != []
    requires i < |g| && j < |g[i]|
    ensures Min(Flatten(g)) <= g[i][j] <= Max(Flatten(g))
  {
    var f := Flatten(g);
    FlattenHas(g, i, j);
    var k :| 0 <= k < |f| && f[k] == g[i][j];
  }

  /** The minimum rescales to 0. */
  lemma RescaleMin(lo: real, hi: real)
    requires lo <= hi
    ensures Rescale(lo, lo, hi) == 0.0
  {
  }

  /** Every normalised cell lies in `[0, 1)`, and a cell holding the grid's minimum
      becomes 0. */
  lemma NormalizeBounds(g: Grid, i: nat, j: nat)
    requires Normalize(g).Some?
    requires i < |g| && j < |g[i]|
    ensures 0.0 <= Normalize(g).value[i][j] < 1.0
    ensures g[i][j] == Min(Flatten(g)) ==> Normalize(g).value[i][j] == 0.0
  {
    var f := Flatten(g);
    CellBetween(g, i, j);
    RescaleBounds(g[i][j], Min(f), Max(f));
    RescaleMin(Min(f), Max(f));
  }

  /** Normalisation keeps the order of any two cells, strictly and weakly. */
  lemma NormalizeKeepsOrder(g: Grid, i: nat, j: nat, k: nat, l: nat)
    requires Normalize(g).Some?
    requires i < |g| && j < |g[i]| && k < |g| && l < |g[k]|
    ensures g[i][j] <= g[k][l] <==> Normalize(g).value[i][j] <= Normalize(g).value[k][l]
    ensures g[i][j] < g[k][l] <==> Normalize(g).value[i][j] < Normalize(g).value[k][l]
  {
    var f := Flatten(g);
    RescaleMonotone(g[i][j], g[k][l], Min(f), Max(f));
  }

  /** Normalising a rectangular grid keeps it rectangular with the same width. */
  lemma NormalizeShape(g: Grid)
    requires Rectangular(g) && Normalize(g).Some?
    ensures Rectangular(Normalize(g).value) && Width(Normalize(g).value) == Width(g)
  {
  }

  // ---------------------------------------------------------------------------------------
  // Maps and boxes as the source pairs them.

  /** What the CAM extractor gives for one class: no usable CAM (the loop moves on), an
      exception (in `cam_extractor`, `to_pil_image` or `cv2.resize`), or the resized
      activation grid. */
  datatype CamOutcome = CamFailed | CamRaised | CamGrid(grid: Grid)

  /** The CAM outcome of each class index. */
  type CamOf = nat -> CamOutcome

  /** A CAM outcome that makes the attention loop raise: the extractor raises, or the grid
      is empty and `np.min` raises. */
  predicate Raises(o: CamOutcome) {
    o.CamRaised? || (o.CamGrid? && Normalize(o.grid).None?)
  }

  /** The maps the attention loop collects, or `None` when something in the loop raises (the
      handler then returns no maps at all). A failed CAM is skipped. */
  function CollectMaps(dets: seq<Detection>, cam: CamOf): (r: Option<seq<Grid>>)
    ensures r.Some? ==> |r.value| <= |dets|
  {
    if dets == [] then Some([])
    else
      var rest := CollectMaps(dets[1..], cam);
      match cam(dets[0].classIndex)
      case CamFailed => rest
      case CamRaised => None
      case CamGrid(g) =>
        match Normalize(g)
        case None => None
        case Some(n) => if rest.None? then None else Some([n] + rest.value)
  }

  /** The loop yields no maps exactly when the outcome of some detection's class raises. */
  lemma {:induction false} CollectMapsFails(dets: seq<Detection>, cam: CamOf)
    ensures CollectMaps(dets, cam).None? <==> exists j :: 0 <= j < |dets| && Raises(cam(dets[j].classIndex))
    decreases |dets|
  {
    if dets != [] {
      var tail := dets[1..];
      CollectMapsFails(tail, cam);
      assert forall j :: 0 <= j < |tail| ==> tail[j] == dets[j + 1];
      if exists j :: 0 <= j < |dets| && Raises(cam(dets[j].classIndex)) {
        var j :| 0 <= j < |dets| && Raises(cam(dets[j].classIndex));
        if j > 0 {
          assert Raises(cam(tail[j - 1].classIndex));
        }
      }
    }
  }

  /** `_generate_attention_maps` as written: failed CAMs are dropped from the list, so the
      list no longer lines up with the detections. */
  function AttentionMapsAsWritten(dets: seq<Detection>, cam: CamOf): (r: seq<Grid>)
    ensures |r| <= |dets|
  {
    CollectMaps(dets, cam).GetOr([])
  }

  /** A box as built from a detection and the rectangle found in its map. */
  datatype Box = Box(
    id: string,
    bbox: PctRect,
    labelText: string,
    color: string,
    confidence: real,
    technique: Technique)

  /** The box for detection `d` from a rectangle found in `g`. */
  function MakeBox(d: Detection, rect: Rect, g: Grid): (b: Box)
    requires Size(g) > 0
    ensures b.id == d.id && b.labelText == d.labelText && b.color == d.color
    ensures b.confidence == d.confidence && b.technique == d.technique
    ensures Inside(rect, Width(g), |g|) ==> PctInside(b.bbox)
  {
    Box(d.id, ToPercent(rect, Width(g), |g|), d.labelText, d.color, d.confidence, d.technique)
  }

  /** The box carries the detection's fields unchanged. */
  predicate CopiedFrom(b: Box, d: Detection) {
    b.id == d.id && b.labelText == d.labelText && b.color == d.color
    && b.confidence == d.confidence && b.technique == d.technique
  }

  /** What the contour search gives for one map (the quantile threshold, `findContours` and
      the bounding rectangle of the largest contour): no contour, an exception, or the
      rectangle. */
  datatype ContourOutcome = NoContour | ContourRaised | Contour(rect: Rect)

  /** The contour search over any map. */
  type Extractor = Grid -> ContourOutcome

  /** What `extract` promises: a rectangle it finds lies inside the grid. */
  ghost predicate ExtractInside(extract: Extractor) {
    forall g :: extract(g).Contour? ==> Inside(extract(g).rect, Width(g), |g|)
  }

  /** A map the box loop searches (it is not empty) and on which the search raises. */
  predicate SearchRaises(g: Grid, extract: Extractor) {
    Size(g) > 0 && extract(g).ContourRaised?
  }

  /** Some pair `zip` forms has a map on which the search raises. */
  predicate PairsRaise(maps: seq<Grid>, dets: seq<Detection>, extract: Extractor) {
    exists k :: 0 <= k < |maps| && k < |dets| && SearchRaises(maps[k], extract)
  }

  /** A map on which the contour search is run and finds a rectangle. */
  predicate GivesBox(g: Grid, extract: Extractor) {
    Size(g) > 0 && extract(g).Contour?
  }

  /** `b` is the box of pair `j`: detection `j` with the rectangle found in map `j`. */
  predicate BoxOfPair(b: Box, maps: seq<Grid>, dets: seq<Detection>, extract: Extractor, j: int) {
    0 <= j < |maps| && j < |dets| && GivesBox(maps[j], extract)
    && b == MakeBox(dets[j], extract(maps[j]).rect, maps[j])
  }

  /** `b` is copied from one of the detections paired with a map. */
  ghost predicate CopiedFromPaired(b: Box, maps: seq<Grid>, dets: seq<Detection>) {
    exists j :: 0 <= j < |dets| && j < |maps| && CopiedFrom(b, dets[j])
  }

  /** `b` is the box of one of the pairs. */
  ghost predicate FromSomePair(b: Box, maps: seq<Grid>, dets: seq<Detection>, extract: Extractor) {
    exists j :: BoxOfPair(b, maps, dets, extract, j)
  }

  /** Box `k` is the box of pair `idx[k]`, the pairs are taken in increasing position, and
      every pair whose map gives a box is taken. */
  predicate BoxesOfPairs(boxes: seq<Box>, idx: seq<nat>, maps: seq<Grid>, dets: seq<Detection>, extract: Extractor) {
    && |idx| == |boxes|
    && (forall k :: 0 <= k < |idx| ==> BoxOfPair(boxes[k], maps, dets, extract, idx[k]))
    && (forall k, l :: 0 <= k < l < |idx| ==> idx[k] < idx[l])
    && (forall j :: 0 <= j < |maps| && j < |dets| && GivesBox(maps[j], extract) ==> j in idx)
  }

  /** The boxes are those of the pairs, by position, in order. */
  ghost predicate PairedByPosition(boxes: seq<Box>, maps: seq<Grid>, dets: seq<Detection>, extract: Extractor) {
    exists idx: seq<nat> :: BoxesOfPairs(boxes, idx, maps, dets, extract)
  }

  /** The box loop of `_create_bounding_boxes` as written, when nothing raises: maps and
      detections are paired by position (`zip` stops at the shorter list), and empty maps
      and maps without a contour give no box. */
  function BoxLoopAsWritten(maps: seq<Grid>, dets: seq<Detection>, extract: Extractor): (r: seq<Box>)
    ensures |r| <= |maps| && |r| <= |dets|
    ensures forall k :: 0 <= k < |r| ==> CopiedFromPaired(r[k], maps, dets)
    ensures forall k :: 0 <= k < |r| ==> FromSomePair(r[k], maps, dets, extract)
    ensures ExtractInside(extract) ==> forall k :: 0 <= k < |r| ==> PctInside(r[k].bbox)
    decreases |maps|
  {
    if maps == [] || dets == [] then []
    else
      var rest := BoxLoopAsWritten(maps[1..], dets[1..], extract);
      var r := if !GivesBox(maps[0], extract) then rest
               else [MakeBox(dets[0], extract(maps[0]).rect, maps[0])] + rest;
      ShiftAll(rest, maps, dets, extract);
      assert GivesBox(maps[0], extract) ==> BoxOfPair(r[0], maps, dets, extract, 0);
      ShiftCopied(rest, maps, dets);
      r
  }

  /** Boxes of pairs of the tails are boxes of pairs of the whole lists. */
  lemma ShiftAll(rest: seq<Box>, maps: seq<Grid>, dets: seq<Detection>, extract: Extractor)
    requires maps != [] && dets != []
    requires forall k :: 0 <= k < |rest| ==> FromSomePair(rest[k], maps[1..], dets[1..], extract)
    ensures forall k :: 0 <= k < |rest| ==> FromSomePair(rest[k], maps, dets, extract)
  {
    forall k | 0 <= k < |rest|
      ensures FromSomePair(rest[k], maps, dets, extract)
    {
      var j :| BoxOfPair(rest[k], maps[1..], dets[1..], extract, j);
      ShiftPair(rest[k], maps, dets, extract, j);
    }
  }

  /** Boxes copied from detections of the tails are copied from later detections. */
  lemma ShiftCopied(rest: seq<Box>, maps: seq<Grid>, dets: seq<Detection>)
    requires maps != [] && dets != []
    requires forall k :: 0 <= k < |rest| ==> CopiedFromPaired(rest[k], maps[1..], dets[1..])
    ensures forall k :: 0 <= k < |rest| ==> CopiedFromPaired(rest[k], maps, dets)
  {
    forall k | 0 <= k < |rest|
      ensures CopiedFromPaired(rest[k], maps, dets)
    {
      var j :| 0 <= j < |dets[1..]| && j < |maps[1..]| && CopiedFrom(rest[k], dets[1..][j]);
      assert dets[1..][j] == dets[j + 1];
    }
  }

  /** The box of pair `j` of the tails is the box of pair `j + 1` of the whole lists. */
  lemma ShiftPair(b: Box, maps: seq<Grid>, dets: seq<Detection>, extract: Extractor, j: nat)
    requires maps != [] && dets != [] && BoxOfPair(b, maps[1..], dets[1..], extract, j)
    ensures BoxOfPair(b, maps, dets, extract, j + 1)
  {
    assert maps[1..][j] == maps[j + 1] && dets[1..][j] == dets[j + 1];
  }

  /** `_create_bounding_boxes` as written: the box loop, or no boxes when the search raises
      on one of the pairs. */
  function CreateBoundingBoxesAsWritten(maps: seq<Grid>, dets: seq<Detection>, extract: Extractor): (r: seq<Box>)
    ensures |r| <= |maps| && |r| <= |dets|
    ensures forall k :: 0 <= k < |r| ==> CopiedFromPaired(r[k], maps, dets)
    ensures ExtractInside(extract) ==> forall k :: 0 <= k < |r| ==> PctInside(r[k].bbox)
    ensures PairsRaise(maps, dets, extract) ==> r == []
    ensures !PairsRaise(maps, dets, extract) ==> r == BoxLoopAsWritten(maps, dets, extract)
  {
    if PairsRaise(maps, dets, extract) then [] else BoxLoopAsWritten(maps, dets, extract)
  }

  /** The positions the loop takes, shifted by one for the tails. */
  function ShiftIndices(idx: seq<nat>): (r: seq<nat>)
    ensures |r| == |idx| && forall k :: 0 <= k < |r| ==> r[k] == idx[k] + 1
  {
    seq(|idx|, k requires 0 <= k < |idx| => idx[k] + 1)
  }

  /** The loop's boxes are those of the pairs, by position, in order, with every pair whose
      map gives a box taken. */
  lemma {:induction false} BoxLoopPairs(maps: seq<Grid>, dets: seq<Detection>, extract: Extractor)
    ensures PairedByPosition(BoxLoopAsWritten(maps, dets, extract), maps, dets, extract)
    decreases |maps|
  {
    var idx := LoopIndices(maps, dets, extract);
    assert BoxesOfPairs(BoxLoopAsWritten(maps, dets, extract), idx, maps, dets, extract);
  }

  /** The positions of the pairs the loop draws. */
  lemma {:induction false} LoopIndices(maps: seq<Grid>, dets: seq<Detection>, extract: Extractor) returns (idx: seq<nat>)
    ensures BoxesOfPairs(BoxLoopAsWritten(maps, dets, extract), idx, maps, dets, extract)
    decreases |maps|
  {
    if maps == [] || dets == [] {
      idx := [];
    } else {
      var tidx := LoopIndices(maps[1..], dets[1..], extract);
      var rest := BoxLoopAsWritten(maps[1..], dets[1..], extract);
      var shifted := ShiftIndices(tidx);
      ShiftPairs(rest, tidx, maps, dets, extract);
      if GivesBox(maps[0], extract) {
        var b := MakeBox(dets[0], extract(maps[0]).rect, maps[0]);
        assert BoxLoopAsWritten(maps, dets, extract) == [b] + rest;
        assert BoxOfPair(b, maps, dets, extract, 0);
        idx := [0] + shifted;
        ConsPair(b, rest, shifted, maps, dets, extract);
      } else {
        assert BoxLoopAsWritten(maps, dets, extract) == rest;
        idx := shifted;
        assert forall j :: 0 <= j < |maps| && j < |dets| && GivesBox(maps[j], extract) ==> j in idx by {
          forall j | 0 <= j < |maps| && j < |dets| && GivesBox(maps[j], extract)
            ensures j in idx
          {
            assert j > 0;
          }
        }
      }
    }
  }

  /** The tails' pairing, shifted by one, is a pairing of the whole lists in which every
      pair after the first whose map gives a box is taken. */
  lemma ShiftPairs(rest: seq<Box>, tidx: seq<nat>, maps: seq<Grid>, dets: seq<Detection>, extract: Extractor)
    requires maps != [] && dets != []
    requires BoxesOfPairs(rest, tidx, maps[1..], dets[1..], extract)
    ensures var shifted := ShiftIndices(tidx);
      && |shifted| == |rest|
      && (forall k :: 0 <= k < |shifted| ==> BoxOfPair(rest[k], maps, dets, extract, shifted[k]) && shifted[k] > 0)
      && (forall k, l :: 0 <= k < l < |shifted| ==> shifted[k] < shifted[l])
      && (forall j :: 0 < j < |maps| && j < |dets| && GivesBox(maps[j], extract) ==> j in shifted)
  {
    var shifted := ShiftIndices(tidx);
    forall k | 0 <= k < |shifted|
      ensures BoxOfPair(rest[k], maps, dets, extract, shifted[k])
    {
      ShiftPair(rest[k], maps, dets, extract, tidx[k]);
    }
    ShiftComplete(tidx, maps, dets, extract);
  }

  /** A pair after the first that gives a box, listed for the tails, is listed once shifted. */
  lemma ShiftComplete(tidx: seq<nat>, maps: seq<Grid>, dets: seq<Detection>, extract: Extractor)
    requires maps != [] && dets != []
    requires forall j :: 0 <= j < |maps[1..]| && j < |dets[1..]| && GivesBox(maps[1..][j], extract) ==> j in tidx
    ensures forall j :: 0 < j < |maps| && j < |dets| && GivesBox(maps[j], extract) ==> j in ShiftIndices(tidx)
  {
    var shifted := ShiftIndices(tidx);
    forall j | 0 < j < |maps| && j < |dets| && GivesBox(maps[j], extract)
      ensures j in shifted
    {
      assert maps[1..][j - 1] == maps[j];
      var k :| 0 <= k < |tidx| && tidx[k] == j - 1;
      assert shifted[k] == j;
    }
  }

  /** Putting the box of the first pair in front of a pairing of the later pairs gives a
      pairing of the whole lists. */
  lemma ConsPair(b: Box, rest: seq<Box>, shifted: seq<nat>, maps: seq<Grid>, dets: seq<Detection>, extract: Extractor)
    requires BoxOfPair(b, maps, dets, extract, 0)
    requires |shifted| == |rest|
    requires forall k :: 0 <= k < |shifted| ==> BoxOfPair(rest[k], maps, dets, extract, shifted[k]) && shifted[k] > 0
    requires forall k, l :: 0 <= k < l < |shifted| ==> shifted[k] < shifted[l]
    requires forall j :: 0 < j < |maps| && j < |dets| && GivesBox(maps[j], extract) ==> j in shifted
    ensures BoxesOfPairs([b] + rest, [0] + shifted, maps, dets, extract)
  {
    var r := [b] + rest;
    var idx := [0] + shifted;
    forall k | 0 <= k < |idx|
      ensures BoxOfPair(r[k], maps, dets, extract, idx[k])
    {
      if k > 0 {
        assert r[k] == rest[k - 1] && idx[k] == shifted[k - 1];
      }
    }
    ConsOrdered(shifted);
    ConsComplete(shifted, maps, dets, extract);
  }

  /** Positions after 0, increasing, stay increasing with 0 in front. */
  lemma ConsOrdered(shifted: seq<nat>)
    requires forall k :: 0 <= k < |shifted| ==> shifted[k] > 0
    requires forall k, l :: 0 <= k < l < |shifted| ==> shifted[k] < shifted[l]
    ensures var idx := [0] + shifted; forall k, l :: 0 <= k < l < |idx| ==> idx[k] < idx[l]
  {
    var idx := [0] + shifted;
    forall k, l | 0 <= k < l < |idx|
      ensures idx[k] < idx[l]
    {
      assert idx[l] == shifted[l - 1];
      if k > 0 {
        assert idx[k] == shifted[k - 1];
      }
    }
  }

  /** Every later pair that gives a box is listed, and so is the first. */
  lemma ConsComplete(shifted: seq<nat>, maps: seq<Grid>, dets: seq<Detection>, extract: Extractor)
    requires forall j :: 0 < j < |maps| && j < |dets| && GivesBox(maps[j], extract) ==> j in shifted
    ensures forall j :: 0 <= j < |maps| && j < |dets| && GivesBox(maps[j], extract) ==> j in [0] + shifted
  {
  }

  /** As written, there are no boxes when the contour search raises on a pair; otherwise the
      boxes are those of the pairs `zip` forms, by position and in order, one for every pair
      whose map gives a box. */
  lemma BoxesAsWrittenByPosition(maps: seq<Grid>, dets: seq<Detection>, extract: Extractor)
    ensures PairsRaise(maps, dets, extract) ==> CreateBoundingBoxesAsWritten(maps, dets, extract) == []
    ensures !PairsRaise(maps, dets, extract) ==>
      PairedByPosition(CreateBoundingBoxesAsWritten(maps, dets, extract), maps, dets, extract)
  {
    if !PairsRaise(maps, dets, extract) {
      BoxLoopPairs(maps, dets, extract);
    }
  }

  /** No two detections share an id. */
  predicate DetectionIdsDistinct(dets: seq<Detection>) {
    forall i, j :: 0 <= i < j < |dets| ==> dets[i].id != dets[j].id
  }

  /** No two boxes share an id. */
  predicate BoxIdsDistinct(boxes: seq<Box>) {
    forall k, l :: 0 <= k < l < |boxes| ==> boxes[k].id != boxes[l].id
  }

  /** With detection ids pairwise distinct, the boxes of the as-written loop have pairwise
      distinct ids: `zip` uses each detection at most once. */
  lemma {:induction false} BoxLoopIdsDistinct(maps: seq<Grid>, dets: seq<Detection>, extract: Extractor)
    requires DetectionIdsDistinct(dets)
    ensures BoxIdsDistinct(BoxLoopAsWritten(maps, dets, extract))
    decreases |maps|
  {
    if maps != [] && dets != [] {
      var tail := dets[1..];
      assert DetectionIdsDistinct(tail) by {
        assert forall j :: 0 <= j < |tail| ==> tail[j] == dets[j + 1];
      }
      BoxLoopIdsDistinct(maps[1..], tail, extract);
      var rest := BoxLoopAsWritten(maps[1..], tail, extract);
      LaterIdsDiffer(maps, dets, extract);
      if Size(maps[0]) > 0 && extract(maps[0]).Contour? {
        var b := MakeBox(dets[0], extract(maps[0]).rect, maps[0]);
        assert BoxLoopAsWritten(maps, dets, extract) == [b] + rest;
        ConsIdsDistinct(b, rest);
      } else {
        assert BoxLoopAsWritten(maps, dets, extract) == rest;
      }
    }
  }

  /** The boxes built from the later pairs carry ids other than the first detection's. */
  lemma LaterIdsDiffer(maps: seq<Grid>, dets: seq<Detection>, extract: Extractor)
    requires maps != [] && dets != [] && DetectionIdsDistinct(dets)
    ensures var rest := BoxLoopAsWritten(maps[1..], dets[1..], extract);
      forall k :: 0 <= k < |rest| ==> rest[k].id != dets[0].id
  {
    var tail := dets[1..];
    var rest := BoxLoopAsWritten(maps[1..], tail, extract);
    forall k | 0 <= k < |rest|
      ensures rest[k].id != dets[0].id
    {
      var j :| 0 <= j < |tail| && j < |maps[1..]| && CopiedFrom(rest[k], tail[j]);
      assert tail[j] == dets[j + 1];
    }
  }

  /** A box put in front of boxes with other ids keeps the ids distinct. */
  lemma ConsIdsDistinct(b: Box, rest: seq<Box>)
    requires BoxIdsDistinct(rest)
    requires forall k :: 0 <= k < |rest| ==> rest[k].id != b.id
    ensures BoxIdsDistinct([b] + rest)
  {
    var r := [b] + rest;
    forall k, l | 0 <= k < l < |r|
      ensures r[k].id != r[l].id
    {
      assert r[l] == rest[l - 1];
      if k > 0 {
        assert r[k] == rest[k - 1];
      }
    }
  }

  /** The as-written boxes have pairwise distinct ids when the detections do. */
  lemma BoxesAsWrittenIdsDistinct(maps: seq<Grid>, dets: seq<Detection>, extract: Extractor)
    requires DetectionIdsDistinct(dets)
    ensures BoxIdsDistinct(CreateBoundingBoxesAsWritten(maps, dets, extract))
  {
    if PairsRaise(maps, dets, extract) {
      assert CreateBoundingBoxesAsWritten(maps, dets, extract) == [];
    } else {
      assert CreateBoundingBoxesAsWritten(maps, dets, extract) == BoxLoopAsWritten(maps, dets, extract);
      BoxLoopIdsDistinct(maps, dets, extract);
    }
  }

  // ---------------------------------------------------------------------------------------
  // Maps kept in line with the detections.

  /** The normalised map of one detection, or `None` when its CAM failed. */
  function MapOf(d: Detection, cam: CamOf): Option<Grid> {
    match cam(d.classIndex)
    case CamGrid(g) => Normalize(g)
    case _ => None
  }

  /** One map slot per detection: the normalised map, or `None` where the CAM failed. When
      the loop raises, every slot is empty, as the source then returns no maps. */
  function AttentionMaps(dets: seq<Detection>, cam: CamOf): (r: seq<Option<Grid>>)
    ensures |r| == |dets|
    ensures CollectMaps(dets, cam).None? ==> forall j :: 0 <= j < |r| ==> r[j].None?
    ensures CollectMaps(dets, cam).Some? ==> forall j :: 0 <= j < |r| ==> r[j] == MapOf(dets[j], cam)
  {
    if CollectMaps(dets, cam).None? then seq(|dets|, j => None)
    else seq(|dets|, j requires 0 <= j < |dets| => MapOf(dets[j], cam))
  }

  /** The maps the slots hold, in slot order: what is left of the slots once the empty ones
      are dropped. */
  function Filled(slots: seq<Option<Grid>>): (r: seq<Grid>)
    ensures |r| <= |slots|
  {
    if slots == [] then []
    else (if slots[0].Some? then [slots[0].value] else []) + Filled(slots[1..])
  }

  /** Slots that are all empty hold no maps. */
  lemma {:induction false} FilledEmpty(slots: seq<Option<Grid>>)
    requires forall j :: 0 <= j < |slots| ==> slots[j].None?
    ensures Filled(slots) == []
  {
    if slots != [] {
      FilledEmpty(slots[1..]);
    }
  }

  /** The maps as written are the aligned slots with the empty ones dropped: failed CAMs leave
      no map, the others keep their order, and a raise leaves no maps at all. */
  lemma {:induction false} AsWrittenMapsAreFilledSlots(dets: seq<Detection>, cam: CamOf)
    ensures AttentionMapsAsWritten(dets, cam) == Filled(AttentionMaps(dets, cam))
    decreases |dets|
  {
    var slots := AttentionMaps(dets, cam);
    if CollectMaps(dets, cam).None? {
      FilledEmpty(slots);
    } else if dets != [] {
      var tail := dets[1..];
      assert CollectMaps(tail, cam).Some?;
      AsWrittenMapsAreFilledSlots(tail, cam);
      assert slots[1..] == AttentionMaps(tail, cam) by {
        assert forall j :: 0 <= j < |tail| ==> tail[j] == dets[j + 1];
      }
      assert slots[0] == MapOf(dets[0], cam);
    }
  }

  /** A slot gives a box: it holds a non-empty map in which a rectangle is found. */
  predicate Usable(slot: Option<Grid>, extract: Extractor) {
    slot.Some? && Size(slot.value) > 0 && extract(slot.value).Contour?
  }

  /** The box of detection `j` from its own slot. */
  function BoxAt(maps: seq<Option<Grid>>, dets: seq<Detection>, extract: Extractor, j: nat): Box
    requires j < |maps| && j < |dets| && Usable(maps[j], extract)
  {
    MakeBox(dets[j], extract(maps[j].value).rect, maps[j].value)
  }

  /** The boxes from the first `n` slots, in order: slot `j` only ever gives a box for
      detection `j`. */
  function BoxesUpTo(maps: seq<Option<Grid>>, dets: seq<Detection>, extract: Extractor, n: nat): (r: seq<Box>)
    requires n <= |maps| && n <= |dets|
    ensures |r| <= n
  {
    if n == 0 then [] else AddBox(BoxesUpTo(maps, dets, extract, n - 1), maps, dets, extract, n - 1)
  }

  /** One turn of the box loop: slot `j` adds its box when it is usable. */
  function AddBox(prev: seq<Box>, maps: seq<Option<Grid>>, dets: seq<Detection>, extract: Extractor, j: nat): (r: seq<Box>)
    requires j < |maps| && j < |dets|
    ensures |r| <= |prev| + 1
  {
    if Usable(maps[j], extract) then prev + [BoxAt(maps, dets, extract, j)] else prev
  }

  /** Some of the first `n` slots holds a map on which the search raises. */
  predicate SlotsRaise(maps: seq<Option<Grid>>, extract: Extractor, n: nat) {
    exists k :: 0 <= k < n && k < |maps| && maps[k].Some? && SearchRaises(maps[k].value, extract)
  }

  /** Box creation over slots kept in line with the detections: no boxes when the search
      raises on one of the slots. */
  function CreateBoundingBoxes(maps: seq<Option<Grid>>, dets: seq<Detection>, extract: Extractor): (r: seq<Box>)
    ensures |r| <= |maps| && |r| <= |dets|
    ensures ExtractInside(extract) ==> forall k :: 0 <= k < |r| ==> PctInside(r[k].bbox)
  {
    var n := if |maps| <= |dets| then |maps| else |dets|;
    if SlotsRaise(maps, extract, n) then []
    else
      BoxesInside(maps, dets, extract, n);
      BoxesUpTo(maps, dets, extract, n)
  }

  /** Boxes from rectangles found inside their maps lie inside the image. */
  lemma {:induction false} BoxesInside(maps: seq<Option<Grid>>, dets: seq<Detection>, extract: Extractor, n: nat)
    requires n <= |maps| && n <= |dets|
    ensures ExtractInside(extract) ==> forall k :: 0 <= k < |BoxesUpTo(maps, dets, extract, n)| ==>
      PctInside(BoxesUpTo(maps, dets, extract, n)[k].bbox)
  {
    if n > 0 && ExtractInside(extract) {
      BoxesInside(maps, dets, extract, n - 1);
      var prev := BoxesUpTo(maps, dets, extract, n - 1);
      if Usable(maps[n - 1], extract) {
        var b := BoxAt(maps, dets, extract, n - 1);
        var r := prev + [b];
        assert BoxesUpTo(maps, dets, extract, n) == r;
        assert PctInside(b.bbox);
        forall k | 0 <= k < |r|
          ensures PctInside(r[k].bbox)
        {
          if k < |prev| {
            assert r[k] == prev[k];
          }
        }
      }
    }
  }

  /** The indices of the usable slots among the first `n`, in increasing order. */
  function UsableIndices(maps: seq<Option<Grid>>, extract: Extractor, n: nat): (r: seq<nat>)
    requires n <= |maps|
    ensures forall k :: 0 <= k < |r| ==> r[k] < n && Usable(maps[r[k]], extract)
    ensures forall k, l :: 0 <= k < l < |r| ==> r[k] < r[l]
    ensures forall j :: 0 <= j < n && Usable(maps[j], extract) ==> j in r
  {
    if n == 0 then [] else AddIndex(UsableIndices(maps, extract, n - 1), maps, extract, n - 1)
  }

  /** One turn of the index loop: slot `j` is listed when it is usable. */
  function AddIndex(prev: seq<nat>, maps: seq<Option<Grid>>, extract: Extractor, j: nat): (r: seq<nat>)
    requires j < |maps|
    ensures Usable(maps[j], extract) ==> r == prev + [j]
    ensures !Usable(maps[j], extract) ==> r == prev
  {
    if Usable(maps[j], extract) then prev + [j] else prev
  }

  /** `r` holds the boxes of the slots listed in `idx`, in that order. */
  predicate BoxesAt(r: seq<Box>, idx: seq<nat>, maps: seq<Option<Grid>>, dets: seq<Detection>, extract: Extractor) {
    |r| == |idx| && forall k :: 0 <= k < |r| ==>
      idx[k] < |maps| && idx[k] < |dets| && Usable(maps[idx[k]], extract) && r[k] == BoxAt(maps, dets, extract, idx[k])
  }

  /** The boxes are exactly those of the usable slots, each built from its own detection and
      its own map, in detection order. */
  lemma {:induction false} BoxesFromOwnMaps(maps: seq<Option<Grid>>, dets: seq<Detection>, extract: Extractor, n: nat)
    requires n <= |maps| && n <= |dets|
    ensures BoxesAt(BoxesUpTo(maps, dets, extract, n), UsableIndices(maps, extract, n), maps, dets, extract)
  {
    if n > 0 {
      BoxesFromOwnMaps(maps, dets, extract, n - 1);
      var prev := BoxesUpTo(maps, dets, extract, n - 1);
      var pidx := UsableIndices(maps, extract, n - 1);
      BoxesAtStep(prev, pidx, maps, dets, extract, n - 1);
      assert BoxesUpTo(maps, dets, extract, n) == AddBox(prev, maps, dets, extract, n - 1);
      assert UsableIndices(maps, extract, n) == AddIndex(pidx, maps, extract, n - 1);
    }
  }

  /** One turn of both loops keeps boxes and indices in step. */
  lemma BoxesAtStep(prev: seq<Box>, pidx: seq<nat>, maps: seq<Option<Grid>>, dets: seq<Detection>,
                    extract: Extractor, j: nat)
    requires BoxesAt(prev, pidx, maps, dets, extract)
    requires j < |maps| && j < |dets|
    ensures BoxesAt(AddBox(prev, maps, dets, extract, j), AddIndex(pidx, maps, extract, j), maps, dets, extract)
  {
    if Usable(maps[j], extract) {
      var r := prev + [BoxAt(maps, dets, extract, j)];
      var idx := pidx + [j];
      forall k | 0 <= k < |r|
        ensures idx[k] < |maps| && idx[k] < |dets| && Usable(maps[idx[k]], extract)
        ensures r[k] == BoxAt(maps, dets, extract, idx[k])
      {
        if k < |prev| {
          assert r[k] == prev[k] && idx[k] == pidx[k];
        }
      }
    }
  }

  // ---------------------------------------------------------------------------------------
  // The two pairings side by side.

  /** When the CAM of the first of two detections fails, the as-written pairing hands the
      second detection's map to the first detection: the one box drawn carries the first
      detection's id, label and confidence. */
  lemma MisalignedBox(d0: Detection, d1: Detection, cam: CamOf, extract: Extractor, g: Grid)
    requires cam(d0.classIndex) == CamFailed && cam(d1.classIndex) == CamGrid(g)
    requires Flatten(g) != []
    requires Size(Normalize(g).value) > 0 && extract(Normalize(g).value).Contour?
    ensures var boxes := CreateBoundingBoxesAsWritten(AttentionMapsAsWritten([d0, d1], cam), [d0, d1], extract);
      |boxes| == 1 && CopiedFrom(boxes[0], d0)
  {
    var n := Normalize(g).value;
    assert [d0, d1][1..] == [d1];
    assert [d1][1..] == [];
    assert CollectMaps([], cam) == Some([]);
    assert Normalize(g) == Some(n);
    assert CollectMaps([d1], cam) == Some([n] + []);
    assert [n] + [] == [n];
    assert CollectMaps([d0, d1], cam) == Some([n]);
    assert AttentionMapsAsWritten([d0, d1], cam) == [n];
    assert !PairsRaise([n], [d0, d1], extract);
    assert BoxLoopAsWritten([n], [d0, d1], extract) == [MakeBox(d0, extract(n).rect, n)] + BoxLoopAsWritten([], [d1], extract);
  }

  /** In the same situation the aligned pairing draws the one box for the second detection,
      from its own map. */
  lemma AlignedBox(d0: Detection, d1: Detection, cam: CamOf, extract: Extractor, g: Grid)
    requires cam(d0.classIndex) == CamFailed && cam(d1.classIndex) == CamGrid(g)
    requires Flatten(g) != []
    requires Size(Normalize(g).value) > 0 && extract(Normalize(g).value).Contour?
    ensures var boxes := CreateBoundingBoxes(AttentionMaps([d0, d1], cam), [d0, d1], extract);
      |boxes| == 1 && CopiedFrom(boxes[0], d1)
  {
    var n := Normalize(g).value;
    MisalignedBox(d0, d1, cam, extract, g);
    assert CollectMaps([d0, d1], cam).Some?;
    var maps := AttentionMaps([d0, d1], cam);
    assert maps[0] == None && maps[1] == Some(n);
    assert !Usable(maps[0], extract) && Usable(maps[1], extract);
    assert !SlotsRaise(maps, extract, 2);
    assert BoxesUpTo(maps, [d0, d1], extract, 0) == [];
    assert BoxesUpTo(maps, [d0, d1], extract, 1) == [];
    assert CreateBoundingBoxes(maps, [d0, d1], extract) == [BoxAt(maps, [d0, d1], extract, 1)];
  }

  /** Every box of the aligned pairing is built from its own detection and a map of that
      detection's class; when the search raises on a slot there are no boxes. */
  lemma AlignedBoxesOwnClass(dets: seq<Detection>, cam: CamOf, extract: Extractor)
    ensures var maps := AttentionMaps(dets, cam);
      var boxes := CreateBoundingBoxes(maps, dets, extract);
      SlotsRaise(maps, extract, |dets|) ==> boxes == []
    ensures var maps := AttentionMaps(dets, cam);
      var boxes := CreateBoundingBoxes(maps, dets, extract);
      var idx := UsableIndices(maps, extract, |dets|);
      !SlotsRaise(maps, extract, |dets|) ==>
        && BoxesAt(boxes, idx, maps, dets, extract)
        && forall k :: 0 <= k < |idx| ==> CopiedFrom(boxes[k], dets[idx[k]]) && maps[idx[k]] == MapOf(dets[idx[k]], cam)
  {
    var maps := AttentionMaps(dets, cam);
    BoxesFromOwnMaps(maps, dets, extract, |dets|);
  }
}
