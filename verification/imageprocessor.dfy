/** The image utilities: the resize decision, the filtering and numbering of detected text
    and face rectangles, and the overlay mask with its hex colour parsing. The detectors
    themselves (MSER, Haar cascades) and the resampling are inputs. */
module ImageProcessor {
  import opened Wrappers
  import opened Strings
  import opened Reals
  import opened Geometry

  // ---------------------------------------------------------------------------------------
  // Images and the resize decision.

  /** What the utilities look at in a PIL image: its size and its mode. */
  datatype ImageInfo = ImageInfo(width: nat, height: nat, mode: string)

  /** The longest side allowed on either axis before a thumbnail is taken. */
  const MaxSide: nat := 1024

  /** The image exceeds the maximum size on some axis. */
  predicate TooLarge(width: nat, height: nat) {
    width > MaxSide || height > MaxSide
  }

  /** What PIL's `thumbnail` promises: the result fits in the maximum size. */
  ghost predicate ThumbnailFits(thumbnail: (nat, nat) -> (nat, nat)) {
    forall w: nat, h: nat :: thumbnail(w, h).0 <= MaxSide && thumbnail(w, h).1 <= MaxSide
  }

  /** `preprocess_image`: convert to RGB, and take a thumbnail only when a side exceeds the
      maximum. `thumbnail` is PIL's resampling, given as the new size for an old size. */
  function Preprocess(img: ImageInfo, thumbnail: (nat, nat) -> (nat, nat)): (r: ImageInfo)
    ensures r.mode == "RGB"
    ensures !TooLarge(img.width, img.height) ==> r.width == img.width && r.height == img.height
    ensures TooLarge(img.width, img.height) ==> (r.width, r.height) == thumbnail(img.width, img.height)
    ensures ThumbnailFits(thumbnail) ==> !TooLarge(r.width, r.height)
  {
    if TooLarge(img.width, img.height) then
      var size := thumbnail(img.width, img.height);
      ImageInfo(size.0, size.1, "RGB")
    else ImageInfo(img.width, img.height, "RGB")
  }

  /** Preprocessing a preprocessed image changes nothing. */
  lemma PreprocessIdempotent(img: ImageInfo, thumbnail: (nat, nat) -> (nat, nat))
    requires ThumbnailFits(thumbnail)
    ensures Preprocess(Preprocess(img, thumbnail), thumbnail) == Preprocess(img, thumbnail)
  {
    var once := Preprocess(img, thumbnail);
    assert !TooLarge(once.width, once.height);
  }

  /** The number of channels `np.array` gives an image of this mode. */
  function Channels(mode: string): nat {
    if mode in ["RGB", "YCbCr", "LAB", "HSV"] then 3
    else if mode in ["RGBA", "RGBa", "RGBX", "CMYK"] then 4
    else if mode in ["LA", "La", "PA"] then 2
    else 1
  }

  /** `cv2.cvtColor(..., COLOR_RGB2GRAY)` succeeds: the array is not empty and has three or
      four channels. Otherwise it raises and the detector returns no regions. */
  predicate Grayable(img: ImageInfo) {
    img.width > 0 && img.height > 0 && (Channels(img.mode) == 3 || Channels(img.mode) == 4)
  }

  /** Every preprocessed image with a pixel can be converted to grey. */
  lemma PreprocessedGrayable(img: ImageInfo, thumbnail: (nat, nat) -> (nat, nat))
    requires Preprocess(img, thumbnail).width > 0 && Preprocess(img, thumbnail).height > 0
    ensures Grayable(Preprocess(img, thumbnail))
  {
  }

  // ---------------------------------------------------------------------------------------
  // Text and face regions.

  /** A region entry: its id, its percentage box and its kind. */
  datatype Region = Region(id: string, bbox: PctRect, kind: string)

  /** The size filter for text regions: wider than 20 and taller than 10 pixels. */
  predicate KeptText(r: Rect) {
    r.w > 20 && r.h > 10
  }

  /** At most this many text regions are returned. */
  const MaxTextRegions: nat := 10

  /** The indices, below `n`, of the rectangles that pass the size filter, in order. */
  function KeptIndices(rects: seq<Rect>, n: nat): (r: seq<nat>)
    requires n <= |rects|
    ensures forall k :: 0 <= k < |r| ==> r[k] < n && KeptText(rects[r[k]])
    ensures forall k, l :: 0 <= k < l < |r| ==> r[k] < r[l]
    ensures forall i :: 0 <= i < n && KeptText(rects[i]) ==> i in r
  {
    if n == 0 then []
    else
      var prev := KeptIndices(rects, n - 1);
      if KeptText(rects[n - 1]) then prev + [n - 1] else prev
  }

  /** The text entry for rectangle number `i` of a `width` x `height` image. */
  function TextRegion(rect: Rect, i: nat, width: nat, height: nat): Region
    requires width > 0 && height > 0
  {
    Region("text_" + NatToString(i), ToPercent(rect, width, height), "text")
  }

  /** `r` holds the text entries of the rectangles listed in `idx`, in that order. */
  predicate TextRegionsAt(r: seq<Region>, idx: seq<nat>, rects: seq<Rect>, img: ImageInfo)
    requires img.width > 0 && img.height > 0
  {
    |r| == |idx| && forall k :: 0 <= k < |r| ==>
      idx[k] < |rects| && r[k] == TextRegion(rects[idx[k]], idx[k], img.width, img.height)
  }

  /** Appending the entry of rectangle `i` extends the listing by `i`. */
  lemma TextRegionsAtExtend(found: seq<Region>, idx: seq<nat>, rects: seq<Rect>, img: ImageInfo, i: nat)
    requires img.width > 0 && img.height > 0 && i < |rects|
    requires TextRegionsAt(found, idx, rects, img)
    ensures TextRegionsAt(found + [TextRegion(rects[i], i, img.width, img.height)], idx + [i], rects, img)
  {
    var r := found + [TextRegion(rects[i], i, img.width, img.height)];
    var j := idx + [i];
    forall k | 0 <= k < |r|
      ensures j[k] < |rects| && r[k] == TextRegion(rects[j[k]], j[k], img.width, img.height)
    {
      if k < |found| {
        assert r[k] == found[k] && j[k] == idx[k];
      }
    }
  }

  /** A prefix of a listing lists the same prefix of the indices. */
  lemma TextRegionsAtPrefix(found: seq<Region>, idx: seq<nat>, rects: seq<Rect>, img: ImageInfo, m: nat)
    requires img.width > 0 && img.height > 0 && m <= |found|
    requires TextRegionsAt(found, idx, rects, img)
    ensures TextRegionsAt(found[..m], idx[..m], rects, img)
  {
    forall k | 0 <= k < m
      ensures idx[..m][k] < |rects| && found[..m][k] == TextRegion(rects[idx[..m][k]], idx[..m][k], img.width, img.height)
    {
      assert found[..m][k] == found[k] && idx[..m][k] == idx[k];
    }
  }

  /** `detect_text_regions` after the detector: `rects` are the bounding rectangles of the
      MSER regions in detector order. Rectangles passing the size filter become entries named
      by their detector index, and the first ten entries are returned. */
  method DetectTextRegions(img: ImageInfo, rects: seq<Rect>) returns (r: seq<Region>)
    ensures !Grayable(img) ==> r == []
    ensures |r| <= MaxTextRegions
    ensures Grayable(img) ==>
      && |r| == (if |KeptIndices(rects, |rects|)| < MaxTextRegions then |KeptIndices(rects, |rects|)| else MaxTextRegions)
      && TextRegionsAt(r, KeptIndices(rects, |rects|)[..|r|], rects, img)
    ensures forall k :: 0 <= k < |r| ==> r[k].kind == "text"
  {
    if !Grayable(img) {
      return [];
    }
    var found: seq<Region> := [];
    var i := 0;
    while i < |rects|
      invariant 0 <= i <= |rects|
      invariant TextRegionsAt(found, KeptIndices(rects, i), rects, img)
    {
      if KeptText(rects[i]) {
        TextRegionsAtExtend(found, KeptIndices(rects, i), rects, img, i);
        found := found + [TextRegion(rects[i], i, img.width, img.height)];
      }
      i := i + 1;
    }
    var m := if |found| < MaxTextRegions then |found| else MaxTextRegions;
    TextRegionsAtPrefix(found, KeptIndices(rects, |rects|), rects, img, m);
    r := found[..m];
    forall k | 0 <= k < |r|
      ensures r[k].kind == "text"
    {
      assert r[k] == TextRegion(rects[KeptIndices(rects, |rects|)[..m][k]], KeptIndices(rects, |rects|)[..m][k], img.width, img.height);
    }
  }

  /** Text entries named after increasing detector indices have distinct ids, and an entry
      for a rectangle inside the image lies inside it in percentages. */
  lemma TextRegionsDistinct(r: seq<Region>, idx: seq<nat>, rects: seq<Rect>, img: ImageInfo)
    requires img.width > 0 && img.height > 0
    requires forall k, l :: 0 <= k < l < |idx| ==> idx[k] < idx[l]
    requires TextRegionsAt(r, idx, rects, img)
    ensures forall k, l :: 0 <= k < l < |r| ==> r[k].id != r[l].id
    ensures forall k :: 0 <= k < |r| && Inside(rects[idx[k]], img.width, img.height) ==> PctInside(r[k].bbox)
  {
    forall k, l | 0 <= k < l < |r|
      ensures r[k].id != r[l].id
    {
      TaggedIdInjective("text_", idx[k], idx[l]);
    }
  }

  /** `detect_faces` after the detector: one entry per face rectangle, numbered from 0. */
  function FaceRegions(img: ImageInfo, faces: seq<Rect>): (r: seq<Region>)
    ensures !Grayable(img) ==> r == []
    ensures Grayable(img) ==> |r| == |faces|
    ensures forall k :: 0 <= k < |r| ==> r[k].kind == "face" && r[k].id == "face_" + NatToString(k)
    ensures Grayable(img) ==> forall k :: 0 <= k < |r| ==> r[k].bbox == ToPercent(faces[k], img.width, img.height)
    ensures Grayable(img) ==> forall k :: 0 <= k < |r| && Inside(faces[k], img.width, img.height) ==> PctInside(r[k].bbox)
  {
    if !Grayable(img) then [] else seq(|faces|, k requires 0 <= k < |faces| => FaceRegion(faces[k], k, img))
  }

  /** The face entry for face number `k`. */
  function FaceRegion(face: Rect, k: nat, img: ImageInfo): Region
    requires Grayable(img)
  {
    Region("face_" + NatToString(k), ToPercent(face, img.width, img.height), "face")
  }

  /** Face ids are pairwise distinct. */
  lemma FaceIdsUnique(img: ImageInfo, faces: seq<Rect>)
    ensures var r := FaceRegions(img, faces);
      forall k, l :: 0 <= k < l < |r| ==> r[k].id != r[l].id
  {
    var r := FaceRegions(img, faces);
    forall k, l | 0 <= k < l < |r|
      ensures r[k].id != r[l].id
    {
      TaggedIdInjective("face_", k, l);
    }
  }

  // ---------------------------------------------------------------------------------------
  // Hex colours as `int(pair, 16)` reads them.

  predicate IsHexDigit(c: char) {
    '0' <= c <= '9' || 'a' <= c <= 'f' || 'A' <= c <= 'F'
  }

  function HexDigitValue(c: char): (v: nat)
    requires IsHexDigit(c)
    ensures v < 16
  {
    if '0' <= c <= '9' then c as nat - '0' as nat
    else if 'a' <= c <= 'f' then c as nat - 'a' as nat + 10
    else c as nat - 'A' as nat + 10
  }

  predicate AllHex(s: string) {
    forall i :: 0 <= i < |s| ==> IsHexDigit(s[i])
  }

  /** The value of a string of hex digits, most significant first. */
  function HexValue(s: string): (v: nat)
    requires AllHex(s)
    ensures v < Pow16(|s|)
  {
    if s == [] then 0 else 16 * HexValue(s[..|s| - 1]) + HexDigitValue(s[|s| - 1])
  }

  function Pow16(n: nat): nat {
    if n == 0 then 1 else 16 * Pow16(n - 1)
  }

  /** The ASCII characters `int()` treats as surrounding whitespace. */
  predicate IsSpace(c: char) {
    c == ' ' || 9 <= c as int <= 13 || 28 <= c as int <= 31
  }

  /** `s.strip()` for the whitespace above. */
  function Strip(s: string): (r: string)
    ensures |r| <= |s|
    ensures forall i :: 0 <= i < |r| ==> r[i] in s
    ensures r != [] ==> !IsSpace(r[0]) && !IsSpace(r[|r| - 1])
    ensures (forall i :: 0 <= i < |s| ==> !IsSpace(s[i])) ==> r == s
    decreases |s|
  {
    if s == [] then s
    else if IsSpace(s[0]) then Strip(s[1..])
    else if IsSpace(s[|s| - 1]) then Strip(s[..|s| - 1])
    else s
  }

  /** `int(pair, 16)` for a string of at most two characters (the only kind the colour parser
      passes): surrounding whitespace is ignored, one or two ASCII hex digits give their
      value, a sign followed by one digit gives a signed value, and any other string of ASCII
      characters (the empty string included) raises. Python also accepts non-ASCII decimal
      digits such as '٣' or '５'; the model gives `None` for them. */
  function ParseHexPair(s: string): (r: Option<int>)
    requires |s| <= 2
    ensures r.Some? ==> -15 <= r.value <= 255
    ensures |s| == 2 && IsHexDigit(s[0]) && IsHexDigit(s[1]) ==>
      r == Some(16 * HexDigitValue(s[0]) + HexDigitValue(s[1]))
    ensures (forall i :: 0 <= i < |s| ==> IsSpace(s[i])) ==> r.None?
  {
    var t := Strip(s);
    if t == [] then None
    else if AllHex(t) then
      assert Pow16(|t|) <= 256 by {
        assert Pow16(1) == 16;
      }
      if |t| == 2 then
        assert t[..1][..0] == [];
        assert HexValue(t[..1]) == HexDigitValue(t[0]);
        Some(HexValue(t))
      else Some(HexValue(t))
    else if |t| == 2 && (t[0] == '+' || t[0] == '-') && IsHexDigit(t[1]) then
      var v: int := HexDigitValue(t[1]);
      Some(if t[0] == '-' then -v else v)
    else None
  }

  /** A colour as three channel values. */
  datatype Rgb = Rgb(r: int, g: int, b: int)

  /** The colour tuple of `create_overlay_mask`: leading '#' characters are stripped and the
      pairs at offsets 0, 2 and 4 parsed; `None` where a pair does not parse. */
  function ParseColor(color: string): (r: Option<Rgb>)
    ensures r.Some? ==> -15 <= r.value.r <= 255 && -15 <= r.value.g <= 255 && -15 <= r.value.b <= 255
    ensures |LStrip(color, '#')| <= 4 ==> r.None?
  {
    var hex := LStrip(color, '#');
    var red := ParseHexPair(Slice(hex, 0, 2));
    var green := ParseHexPair(Slice(hex, 2, 4));
    var blue := ParseHexPair(Slice(hex, 4, 6));
    if red.Some? && green.Some? && blue.Some? then Some(Rgb(red.value, green.value, blue.value))
    else None
  }

  /** The two-digit value of a hex pair. */
  function PairValue(a: char, b: char): nat
    requires IsHexDigit(a) && IsHexDigit(b)
  {
    16 * HexDigitValue(a) + HexDigitValue(b)
  }

  /** A pair of hex digits parses to its two-digit value. */
  lemma ParsePairOfDigits(s: string, a: char, b: char)
    requires s == [a, b] && IsHexDigit(a) && IsHexDigit(b)
    ensures ParseHexPair(s) == Some(PairValue(a, b))
  {
  }

  /** A `#rrggbb` colour parses to its three channel values, each in 0..255. */
  lemma ParseSixDigits(color: string)
    requires |color| == 7 && color[0] == '#' && AllHex(color[1..])
    ensures ParseColor(color) == Some(Rgb(PairValue(color[1], color[2]), PairValue(color[3], color[4]), PairValue(color[5], color[6])))
    ensures 0 <= ParseColor(color).value.r <= 255 && 0 <= ParseColor(color).value.g <= 255
    ensures 0 <= ParseColor(color).value.b <= 255
  {
    var hex := color[1..];
    assert IsHexDigit(hex[0]) && IsHexDigit(hex[1]) && IsHexDigit(hex[2]);
    assert IsHexDigit(hex[3]) && IsHexDigit(hex[4]) && IsHexDigit(hex[5]);
    StripHash(color);
    HexPairAt(hex, 0);
    HexPairAt(hex, 2);
    HexPairAt(hex, 4);
  }

  /** One '#' before a hex digit is all `lstrip('#')` removes. */
  lemma StripHash(color: string)
    requires |color| >= 2 && color[0] == '#' && IsHexDigit(color[1])
    ensures LStrip(color, '#') == color[1..]
  {
    assert color[1..][0] != '#';
  }

  /** The pair of hex digits at offset `i` parses to its value. */
  lemma HexPairAt(hex: string, i: nat)
    requires i + 2 <= |hex| && IsHexDigit(hex[i]) && IsHexDigit(hex[i + 1])
    ensures ParseHexPair(Slice(hex, i, i + 2)) == Some(PairValue(hex[i], hex[i + 1]))
  {
    ParsePairOfDigits(Slice(hex, i, i + 2), hex[i], hex[i + 1]);
  }

  /** The authority colour reads as (239, 68, 68). */
  lemma AuthorityColorValue()
    ensures ParseColor("#ef4444") == Some(Rgb(239, 68, 68))
  {
    ParseSixDigits("#ef4444");
  }

  /** A three-digit shorthand colour does not parse. */
  lemma ShortColorFails()
    ensures ParseColor("#fff").None?
  {
    assert LStrip("#fff", '#') == "fff";
  }

  // ---------------------------------------------------------------------------------------
  // The overlay mask.

  /** A box handed to the mask: percentage coordinates and a colour string. */
  datatype MaskBox = MaskBox(bbox: PctRect, color: string)

  /** One filled rectangle drawn on the mask, from corner `(x1, y1)` to corner `(x2, y2)`. */
  datatype Fill = Fill(x1: int, y1: int, x2: int, y2: int, color: Rgb)

  /** The mask: a zero array of `height` x `width` x 3, and the rectangles filled on it in
      order (the rasterisation is `cv2.rectangle`'s). */
  datatype Mask = Mask(height: nat, width: nat, fills: seq<Fill>)

  /** The mask returned when anything goes wrong: 100 x 100 x 3 zeros. */
  const FallbackMask: Mask := Mask(100, 100, [])

  /** The rectangle drawn for one box: each percentage back to pixels by truncation. */
  function FillOf(b: MaskBox, width: int, height: int, color: Rgb): Fill {
    var x := ToPixel(b.bbox.x, width);
    var y := ToPixel(b.bbox.y, height);
    Fill(x, y, x + ToPixel(b.bbox.w, width), y + ToPixel(b.bbox.h, height), color)
  }

  /** Every box's colour parses. */
  predicate ColorsParse(boxes: seq<MaskBox>) {
    forall k :: 0 <= k < |boxes| ==> ParseColor(boxes[k].color).Some?
  }

  /** `create_overlay_mask` for `image_size = (width, height)`: a zero mask of that shape with
      one filled rectangle per box, in order; the fallback mask when the shape is negative
      (`np.zeros` raises) or some colour does not parse. */
  function OverlayMask(width: int, height: int, boxes: seq<MaskBox>): (m: Mask)
    ensures width >= 0 && height >= 0 && ColorsParse(boxes) ==>
      m.height == height && m.width == width && |m.fills| == |boxes|
    ensures width < 0 || height < 0 || !ColorsParse(boxes) ==> m == FallbackMask
    ensures m != FallbackMask ==> |m.fills| == |boxes| && forall k :: 0 <= k < |boxes| ==>
      m.fills[k].color == ParseColor(boxes[k].color).value
  {
    if width < 0 || height < 0 || !ColorsParse(boxes) then FallbackMask
    else Mask(height, width, seq(|boxes|, k requires 0 <= k < |boxes| => FillOf(boxes[k], width, height, ParseColor(boxes[k].color).value)))
  }

  /** Truncation of a sum of non-negative values is at least the sum of the truncations. */
  lemma TruncAdd(a: real, b: real)
    requires 0.0 <= a && 0.0 <= b
    ensures Trunc(a) + Trunc(b) <= Trunc(a + b)
  {
  }

  /** A fraction of a non-negative dimension, as `ToPixel` reads it. */
  lemma ScaledBounds(p: real, q: real, dim: int) returns (a: real, c: real)
    requires dim >= 0 && 0.0 <= p && 0.0 <= q && p + q <= 100.0
    ensures a == (p / 100.0) * dim as real && c == (q / 100.0) * dim as real
    ensures 0.0 <= a && 0.0 <= c && a + c <= dim as real
  {
    var d := dim as real;
    a, c := (p / 100.0) * d, (q / 100.0) * d;
    assert a + c == ((p + q) / 100.0) * d;
    assert (p + q) / 100.0 <= 1.0;
  }

  /** A box inside the image in percentages is drawn inside the mask. */
  lemma FillInside(b: MaskBox, width: int, height: int, color: Rgb)
    requires width >= 0 && height >= 0 && PctInside(b.bbox)
    ensures var f := FillOf(b, width, height, color);
      0 <= f.x1 <= f.x2 <= width && 0 <= f.y1 <= f.y2 <= height
  {
    SpanInside(b.bbox.x, b.bbox.w, width);
    SpanInside(b.bbox.y, b.bbox.h, height);
  }

  /** A span of `p` and `q` percent, `p + q <= 100`, truncates to pixels within the dimension. */
  lemma SpanInside(p: real, q: real, dim: int)
    requires dim >= 0 && 0.0 <= p && 0.0 <= q && p + q <= 100.0
    ensures 0 <= ToPixel(p, dim) <= ToPixel(p, dim) + ToPixel(q, dim) <= dim
  {
    var a, c := ScaledBounds(p, q, dim);
    TruncSpan(a, c, dim);
    assert ToPixel(p, dim) == Trunc(a) && ToPixel(q, dim) == Trunc(c);
  }

  /** Two non-negative lengths whose sum fits in `m` truncate to whole lengths that fit in `m`. */
  lemma TruncSpan(a: real, c: real, m: int)
    requires 0.0 <= a && 0.0 <= c && a + c <= m as real
    ensures 0 <= Trunc(a) <= Trunc(a) + Trunc(c) <= m
  {
    TruncAdd(a, c);
    TruncMonotone(a + c, m as real);
    TruncOfInt(m);
  }

  lemma TruncMonotone(a: real, b: real)
    requires 0.0 <= a <= b
    ensures Trunc(a) <= Trunc(b)
  {
  }

  /** A region turned into percentages of an image and drawn on a mask of the same size comes
      back as the original pixel rectangle. */
  lemma MaskRoundTrip(rect: Rect, width: int, height: int, color: string)
    requires width > 0 && height > 0
    ensures ParseColor(color).Some? ==>
      var m := OverlayMask(width, height, [MaskBox(ToPercent(rect, width, height), color)]);
      m.fills == [Fill(rect.x, rect.y, rect.x + rect.w, rect.y + rect.h, ParseColor(color).value)]
  {
    if ParseColor(color).Some? {
      var b := MaskBox(ToPercent(rect, width, height), color);
      OverlayOne(width, height, b);
      FillOfPercent(rect, width, height, color, ParseColor(color).value);
    }
  }

  /** One box with a parsing colour gives one fill. */
  lemma OverlayOne(width: int, height: int, b: MaskBox)
    requires width >= 0 && height >= 0 && ParseColor(b.color).Some?
    ensures OverlayMask(width, height, [b]).fills == [FillOf(b, width, height, ParseColor(b.color).value)]
  {
    assert ColorsParse([b]);
  }

  /** The rectangle drawn for the percentage box of `rect` is `rect` itself. */
  lemma FillOfPercent(rect: Rect, width: int, height: int, color: string, rgb: Rgb)
    requires width > 0 && height > 0
    ensures FillOf(MaskBox(ToPercent(rect, width, height), color), width, height, rgb)
      == Fill(rect.x, rect.y, rect.x + rect.w, rect.y + rect.h, rgb)
  {
    var p := ToPercent(rect, width, height);
    assert p == PctRect(Percent(rect.x, width), Percent(rect.y, height), Percent(rect.w, width), Percent(rect.h, height));
    PixelRoundTrip(rect.x, width);
    PixelRoundTrip(rect.y, height);
    PixelRoundTrip(rect.w, width);
    PixelRoundTrip(rect.h, height);
    FillOfPixels(MaskBox(p, color), width, height, rgb, rect);
  }

  lemma FillOfPixels(b: MaskBox, width: int, height: int, rgb: Rgb, rect: Rect)
    requires ToPixel(b.bbox.x, width) == rect.x && ToPixel(b.bbox.y, height) == rect.y
    requires ToPixel(b.bbox.w, width) == rect.w && ToPixel(b.bbox.h, height) == rect.h
    ensures FillOf(b, width, height, rgb) == Fill(rect.x, rect.y, rect.x + rect.w, rect.y + rect.h, rgb)
  {
  }
}
