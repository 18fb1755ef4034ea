/** The interactive-cut segmenter (src/core/smart_segment.py): the seed and
    hint-rectangle arithmetic around the foreground estimator, the collapse
    of its four-level label map to a binary mask, the contour-selection
    policy, the refinement pass and the transparent crop. The estimator,
    contour finder, point-in-polygon test, morphology and blur are foreign
    calls and enter as function parameters. */
module SmartSegment {
  import opened Wrappers
  import opened Grid
  import opened RoiModel

  /** An axis-aligned box (x, y, width, height) in pixels. */
  datatype Box = Box(x: int, y: int, w: int, h: int)

  // ------------------------------------------------------ seed and hint

  /** The hint rectangle handed to the estimator: `expansion` pixels each
      way around the seed, cut at the image's top-left corner and at its
      size. */
  function HintRect(x: int, y: int, w: int, h: int, expansion: int): (r: Box)
    ensures r.x >= 0 && r.y >= 0
    ensures r.x + r.w <= w && r.y + r.h <= h
    ensures r.w <= 2 * expansion && r.h <= 2 * expansion
    ensures 0 <= x < w && 0 <= y < h && expansion >= 1 ==>
      r.x <= x < r.x + r.w && r.y <= y < r.y + r.h
    ensures x - expansion >= 0 && x + expansion <= w ==> r.x == x - expansion && r.w == 2 * expansion
    ensures y - expansion >= 0 && y + expansion <= h ==> r.y == y - expansion && r.h == 2 * expansion
  {
    var rx := if x - expansion > 0 then x - expansion else 0;
    var ry := if y - expansion > 0 then y - expansion else 0;
    Box(rx, ry, if w - rx < expansion * 2 then w - rx else expansion * 2,
                if h - ry < expansion * 2 then h - ry else expansion * 2)
  }

  // ----------------------------------------------------------- the mask

  /** The estimator's labels: 0 sure background, 1 sure foreground,
      2 probable background, 3 probable foreground. Background (0, 2)
      becomes 0, everything else 1. */
  function Collapse(v: int): (b: int)
    ensures b == 0 || b == 1
    ensures 0 <= v <= 3 ==> b == v % 2
    ensures b == 0 <==> v == 0 || v == 2
  {
    if v == 2 || v == 0 then 0 else 1
  }

  /** The binary mask handed to the contour finder: the collapsed label
      map scaled by 255. */
  function ForegroundMask(m: seq<seq<int>>): (f: seq<seq<int>>)
    ensures |f| == |m|
    ensures forall i :: 0 <= i < |m| ==> |f[i]| == |m[i]|
    ensures forall i, j :: 0 <= i < |m| && 0 <= j < |m[i]| ==>
      (f[i][j] == 255 <==> m[i][j] == 1 || m[i][j] == 3 || !(0 <= m[i][j] <= 3))
      && (f[i][j] == 0 || f[i][j] == 255)
  {
    seq(|m|, i requires 0 <= i < |m| => seq(|m[i]|, j requires 0 <= j < |m[i]| => Collapse(m[i][j]) * 255))
  }

  // ------------------------------------------------------- the contours

  /** What the contour finder and the moments give for one contour: its
      area, its raw moments m00, m10, m01, its bounding rectangle and the
      mask with the contour filled with 255. */
  datatype Contour = Contour(area: real, m00: real, m10: real, m01: real, bbox: Box, filled: seq<seq<int>>)

  /** Python's `int()` on a real: truncation toward zero. */
  function Trunc(v: real): (n: int)
    ensures v >= 0.0 ==> n as real <= v < n as real + 1.0
    ensures v < 0.0 ==> n as real - 1.0 < v <= n as real
  {
    if v >= 0.0 then v.Floor else -((-v).Floor)
  }

  /** Large enough to be considered at all. */
  predicate LargeEnough(c: Contour) {
    c.area >= 100.0
  }

  /** A contour the first pass accepts: large enough and holding the seed
      (`inside` stands for the point-in-polygon test, boundary included). */
  predicate Holding(c: Contour, inside: Contour -> bool) {
    LargeEnough(c) && inside(c)
  }

  /** A contour the fallback pass accepts: large enough, with a centroid. */
  predicate HasCentroid(c: Contour) {
    LargeEnough(c) && c.m00 != 0.0
  }

  /** Squared distance from the seed to the truncated centroid. */
  function CentroidDist(c: Contour, x: int, y: int): int
    requires c.m00 != 0.0
  {
    var cx := Trunc(c.m10 / c.m00);
    var cy := Trunc(c.m01 / c.m00);
    (x - cx) * (x - cx) + (y - cy) * (y - cy)
  }

  /** The first pass: among the contours holding the seed, the first of
      strictly largest area. */
  function BestHolding(cs: seq<Contour>, inside: Contour -> bool): (b: Option<nat>)
    ensures b.None? <==> forall k :: 0 <= k < |cs| ==> !Holding(cs[k], inside)
    ensures b.Some? ==>
      b.value < |cs| && Holding(cs[b.value], inside)
      && (forall k :: 0 <= k < |cs| && Holding(cs[k], inside) ==> cs[k].area <= cs[b.value].area)
      && (forall k :: 0 <= k < b.value && Holding(cs[k], inside) ==> cs[k].area < cs[b.value].area)
    decreases |cs|
  {
    if |cs| == 0 then None
    else
      var b := BestHolding(cs[..|cs| - 1], inside);
      var c := cs[|cs| - 1];
      if Holding(c, inside) && (b.None? || c.area > cs[b.value].area) then Some(|cs| - 1) else b
  }

  /** The fallback pass: among the contours with a centroid, the first at
      the smallest distance from the seed. */
  function BestNearest(cs: seq<Contour>, x: int, y: int): (b: Option<nat>)
    ensures b.None? <==> forall k :: 0 <= k < |cs| ==> !HasCentroid(cs[k])
    ensures b.Some? ==>
      b.value < |cs| && HasCentroid(cs[b.value])
      && (forall k :: 0 <= k < |cs| && HasCentroid(cs[k]) ==> CentroidDist(cs[k], x, y) >= CentroidDist(cs[b.value], x, y))
      && (forall k :: 0 <= k < b.value && HasCentroid(cs[k]) ==> CentroidDist(cs[k], x, y) > CentroidDist(cs[b.value], x, y))
    decreases |cs|
  {
    if |cs| == 0 then None
    else
      var b := BestNearest(cs[..|cs| - 1], x, y);
      var c := cs[|cs| - 1];
      if HasCentroid(c) && (b.None? || CentroidDist(c, x, y) < CentroidDist(cs[b.value], x, y)) then Some(|cs| - 1)
      else b
  }

  /** The chosen contour: the first pass, else the fallback. */
  function Choose(cs: seq<Contour>, inside: Contour -> bool, x: int, y: int): (b: Option<nat>)
    ensures b.Some? ==> b.value < |cs| && LargeEnough(cs[b.value])
    ensures b.None? <==> forall k :: 0 <= k < |cs| ==> !Holding(cs[k], inside) && !HasCentroid(cs[k])
  {
    var h := BestHolding(cs, inside);
    if h.Some? then h else BestNearest(cs, x, y)
  }

  /** The first pass as the source runs it: one scan keeping the best area
      so far, starting from 0. */
  method PickHolding(cs: seq<Contour>, inside: Contour -> bool) returns (best: Option<nat>)
    ensures best == BestHolding(cs, inside)
  {
    best := None;
    var bestArea := 0.0;
    var i := 0;
    while i < |cs|
      invariant 0 <= i <= |cs|
      invariant best == BestHolding(cs[..i], inside)
      invariant best.Some? ==> best.value < i && bestArea == cs[best.value].area
      invariant best.None? ==> bestArea == 0.0
    {
      assert cs[..i + 1][..i] == cs[..i];
      var c := cs[i];
      if c.area >= 100.0 && inside(c) && c.area > bestArea {
        bestArea := c.area;
        best := Some(i);
      }
      i := i + 1;
    }
    assert cs[..|cs|] == cs;
  }

  /** The fallback pass as the source runs it: one scan keeping the
      smallest distance so far, starting from infinity (`None`). */
  method PickNearest(cs: seq<Contour>, x: int, y: int) returns (best: Option<nat>)
    ensures best == BestNearest(cs, x, y)
  {
    best := None;
    var minDist: Option<int> := None;
    var i := 0;
    while i < |cs|
      invariant 0 <= i <= |cs|
      invariant best == BestNearest(cs[..i], x, y)
      invariant best.Some? ==> best.value < i && HasCentroid(cs[best.value])
                               && minDist == Some(CentroidDist(cs[best.value], x, y))
      invariant best.None? ==> minDist.None?
    {
      assert cs[..i + 1][..i] == cs[..i];
      var c := cs[i];
      if c.area >= 100.0 && c.m00 != 0.0 {
        var d := CentroidDist(c, x, y);
        if minDist.None? || d < minDist.value {
          minDist := Some(d);
          best := Some(i);
        }
      }
      i := i + 1;
    }
    assert cs[..|cs|] == cs;
  }

  // ------------------------------------------------- segment_at_point

  /** A successful cut: the ROI of the chosen contour and its filled mask. */
  datatype Segmentation = Segmentation(roi: Roi, mask: seq<seq<int>>)

  /** The ROI made from the chosen contour's bounding rectangle. */
  function SegmentedRoi(b: Box, id: string): Roi {
    DefaultRoi(id).(x := b.x, y := b.y, width := b.w, height := b.h, name := "segmented")
  }

  /** What `segment_at_point` yields. `size` is None for a null image.
      `estimate` stands for the estimator run on the hint rectangle (None
      when it raises), `contours` for the contour finder and `inside` for
      the point-in-polygon test at the clamped seed. */
  function Segment(size: Option<(nat, nat)>, x: int, y: int, expansion: int,
                   estimate: Box -> Option<seq<seq<int>>>, contours: seq<seq<int>> -> seq<Contour>,
                   inside: (Contour, int, int) -> bool, id: string): Option<Segmentation>
  {
    if size.None? then None
    else
      var (w, h) := size.value;
      var sx := ClampInto(x, w);
      var sy := ClampInto(y, h);
      var labels := estimate(HintRect(sx, sy, w, h, expansion));
      if labels.None? then None
      else
        var cs := contours(ForegroundMask(labels.value));
        var b := Choose(cs, c => inside(c, sx, sy), sx, sy);
        if b.None? then None
        else Some(Segmentation(SegmentedRoi(cs[b.value].bbox, id), cs[b.value].filled))
  }

  /** The chosen contour is large enough, it holds the clamped seed or no
      large-enough contour does, and the ROI is its bounding rectangle; the
      result is None exactly when the image is null, the estimator raises,
      or no contour qualifies for either pass. */
  lemma SegmentChoice(size: Option<(nat, nat)>, x: int, y: int, expansion: int,
                      estimate: Box -> Option<seq<seq<int>>>, contours: seq<seq<int>> -> seq<Contour>,
                      inside: (Contour, int, int) -> bool, id: string)
    requires size.Some?
    ensures var (w, h) := size.value;
      var sx := ClampInto(x, w);
      var sy := ClampInto(y, h);
      var labels := estimate(HintRect(sx, sy, w, h, expansion));
      var r := Segment(size, x, y, expansion, estimate, contours, inside, id);
      (labels.None? ==> r.None?)
      && (labels.Some? ==>
           var cs := contours(ForegroundMask(labels.value));
           (r.None? <==> forall k :: 0 <= k < |cs| ==> !(LargeEnough(cs[k]) && (inside(cs[k], sx, sy) || cs[k].m00 != 0.0)))
           && (r.Some? ==>
                 (exists k :: 0 <= k < |cs| && LargeEnough(cs[k])
                   && ((exists j :: 0 <= j < |cs| && LargeEnough(cs[j]) && inside(cs[j], sx, sy)) ==> inside(cs[k], sx, sy))
                   && r.value.roi.x == cs[k].bbox.x && r.value.roi.y == cs[k].bbox.y
                   && r.value.roi.width == cs[k].bbox.w && r.value.roi.height == cs[k].bbox.h
                   && r.value.mask == cs[k].filled)))
  {
    var (w, h) := size.value;
    var sx := ClampInto(x, w);
    var sy := ClampInto(y, h);
    var labels := estimate(HintRect(sx, sy, w, h, expansion));
    if labels.Some? {
      var cs := contours(ForegroundMask(labels.value));
      var inside' := c => inside(c, sx, sy);
      var hb := BestHolding(cs, inside');
      if hb.None? {
        forall j | 0 <= j < |cs| && LargeEnough(cs[j]) ensures !inside(cs[j], sx, sy) {
          assert !Holding(cs[j], inside');
        }
      }
    }
  }

  /** `segment_at_point` as the source runs it: the two scans, the first
      taking precedence. */
  method SegmentAtPoint(size: Option<(nat, nat)>, x: int, y: int, expansion: int,
                        estimate: Box -> Option<seq<seq<int>>>, contours: seq<seq<int>> -> seq<Contour>,
                        inside: (Contour, int, int) -> bool, id: string)
    returns (r: Option<Segmentation>)
    ensures r == Segment(size, x, y, expansion, estimate, contours, inside, id)
  {
    if size.None? {
      return None;
    }
    var (w, h) := size.value;
    var sx := ClampInto(x, w);
    var sy := ClampInto(y, h);
    var labels := estimate(HintRect(sx, sy, w, h, expansion));
    if labels.None? {
      return None;
    }
    var cs := contours(ForegroundMask(labels.value));
    if |cs| == 0 {
      return None;
    }
    var inside' := c => inside(c, sx, sy);
    var best := PickHolding(cs, inside');
    if best.None? {
      best := PickNearest(cs, sx, sy);
    }
    if best.None? {
      return None;
    }
    r := Some(Segmentation(SegmentedRoi(cs[best.value].bbox, id), cs[best.value].filled));
  }

  // -------------------------------------------- segment_with_refinement

  /** Binary threshold at 127: above becomes 255, the rest 0. */
  function Threshold(m: seq<seq<int>>): (t: seq<seq<int>>)
    ensures |t| == |m|
    ensures forall i :: 0 <= i < |m| ==> |t[i]| == |m[i]|
    ensures forall i, j :: 0 <= i < |m| && 0 <= j < |m[i]| ==>
      (t[i][j] == 0 || t[i][j] == 255) && (t[i][j] == 255 <==> m[i][j] > 127)
  {
    seq(|m|, i requires 0 <= i < |m| => seq(|m[i]|, j requires 0 <= j < |m[i]| => if m[i][j] > 127 then 255 else 0))
  }

  /** `segment_with_refinement`: None exactly when the plain cut is None,
      otherwise the same ROI with the smoothed mask (`smooth` stands for
      the opening, closing and blur) re-thresholded to 0 and 255. */
  method SegmentWithRefinement(size: Option<(nat, nat)>, x: int, y: int, expansion: int,
                               estimate: Box -> Option<seq<seq<int>>>, contours: seq<seq<int>> -> seq<Contour>,
                               inside: (Contour, int, int) -> bool, id: string,
                               smooth: seq<seq<int>> -> seq<seq<int>>)
    returns (r: Option<Segmentation>)
    ensures var s := Segment(size, x, y, expansion, estimate, contours, inside, id);
      (r.None? <==> s.None?)
      && (r.Some? ==> r.value.roi == s.value.roi && r.value.mask == Threshold(smooth(s.value.mask)))
    ensures r.Some? ==> forall i, j :: 0 <= i < |r.value.mask| && 0 <= j < |r.value.mask[i]| ==>
      r.value.mask[i][j] == 0 || r.value.mask[i][j] == 255
  {
    var result := SegmentAtPoint(size, x, y, expansion, estimate, contours, inside, id);
    if result.None? {
      return None;
    }
    var mask := smooth(result.value.mask);
    r := Some(Segmentation(result.value.roi, Threshold(mask)));
  }

  // -------------------------------------------- create_transparent_crop

  /** A colour pixel (blue, green, red) and one with alpha. */
  datatype Bgr = Bgr(b: int, g: int, r: int)
  datatype Bgra = Bgra(b: int, g: int, r: int, a: int)

  /** A colour or a grey-level image, as rows of pixels. */
  datatype Image = Color(c: seq<seq<Bgr>>) | Gray(v: seq<seq<int>>)

  function Rows(img: Image): nat {
    if img.Color? then |img.c| else |img.v|
  }

  /** Every row has `w` pixels. */
  predicate ImageWidth(img: Image, w: nat) {
    if img.Color? then forall i :: 0 <= i < |img.c| ==> |img.c[i]| == w
    else forall i :: 0 <= i < |img.v| ==> |img.v[i]| == w
  }

  /** The colour channels of pixel (i, j); a grey level is copied to all three. */
  function PixelAt(img: Image, i: nat, j: nat, w: nat): Bgr
    requires ImageWidth(img, w) && i < Rows(img) && j < w
  {
    if img.Color? then img.c[i][j] else Bgr(img.v[i][j], img.v[i][j], img.v[i][j])
  }

  /** `create_transparent_crop(img, mask, roi)`: the slices
      `img[y:y+h, x:x+w]` and `mask[y:y+h, x:x+w]` (Python slice rules),
      turned into a four-channel image whose alpha is the mask. An empty
      slice makes the colour conversion fail; that failure is None. */
  method TransparentCrop(img: Image, mask: seq<seq<int>>, w: nat, roi: Roi) returns (crop: Option<array2<Bgra>>)
    requires ImageWidth(img, w) && |mask| == Rows(img) && IsGrid(mask, w)
    ensures var rows := SliceRange(roi.y, roi.y + roi.height, Rows(img));
      var cols := SliceRange(roi.x, roi.x + roi.width, w);
      crop.None? <==> rows.0 == rows.1 || cols.0 == cols.1
    ensures crop.Some? ==> fresh(crop.value)
    ensures crop.Some? ==>
      var out := crop.value;
      var rows := SliceRange(roi.y, roi.y + roi.height, Rows(img));
      var cols := SliceRange(roi.x, roi.x + roi.width, w);
      out.Length0 == rows.1 - rows.0 && out.Length1 == cols.1 - cols.0
      && forall i, j :: 0 <= i < out.Length0 && 0 <= j < out.Length1 ==>
           var p := PixelAt(img, rows.0 + i, cols.0 + j, w);
           out[i, j] == Bgra(p.b, p.g, p.r, mask[rows.0 + i][cols.0 + j])
  {
    var rows := SliceRange(roi.y, roi.y + roi.height, Rows(img));
    var cols := SliceRange(roi.x, roi.x + roi.width, w);
    if rows.0 == rows.1 || cols.0 == cols.1 {
      return None;
    }
    var out := new Bgra[rows.1 - rows.0, cols.1 - cols.0];
    var i := 0;
    while i < rows.1 - rows.0
      invariant 0 <= i <= rows.1 - rows.0
      invariant forall i', j :: 0 <= i' < i && 0 <= j < out.Length1 ==>
        var p := PixelAt(img, rows.0 + i', cols.0 + j, w);
        out[i', j] == Bgra(p.b, p.g, p.r, mask[rows.0 + i'][cols.0 + j])
    {
      var j := 0;
      while j < cols.1 - cols.0
        invariant 0 <= j <= cols.1 - cols.0
        invariant forall i', j' :: 0 <= i' < i && 0 <= j' < out.Length1 ==>
          var p := PixelAt(img, rows.0 + i', cols.0 + j', w);
          out[i', j'] == Bgra(p.b, p.g, p.r, mask[rows.0 + i'][cols.0 + j'])
        invariant forall j' :: 0 <= j' < j ==>
          var p := PixelAt(img, rows.0 + i, cols.0 + j', w);
          out[i, j'] == Bgra(p.b, p.g, p.r, mask[rows.0 + i][cols.0 + j'])
      {
        var p := PixelAt(img, rows.0 + i, cols.0 + j, w);
        out[i, j] := Bgra(p.b, p.g, p.r, mask[rows.0 + i][cols.0 + j]);
        j := j + 1;
      }
      i := i + 1;
    }
    crop := Some(out);
  }
}
