/** The superpixel engine's queries on its label raster and region list,
    the boundary raster, and the merge tool's selection state machine. The
    SLIC segmentation and the contour extraction are not modelled: the label
    raster and the regions are the segmenter's state, and the bounding box
    of the largest merged contour is a parameter. */
module Superpixel {
  import opened Wrappers
  import opened Text
  import opened Grid
  import opened RoiModel

  /** An (x, y, w, h) bounding box. */
  datatype Box = Box(x: int, y: int, w: int, h: int)

  /** One superpixel: its label, bounding box, pixel count, integer centre
      and mean colour (the pixel mask and contour are not modelled). */
  datatype SpRegion = SpRegion(labelId: int, bbox: Box, area: int, center: (int, int),
                               avgColor: (real, real, real))

  /** The regions whose label is in `labels`, in stored order. */
  function WithLabels(rs: seq<SpRegion>, labels: set<int>): (r: seq<SpRegion>)
    ensures |r| <= |rs|
    ensures forall x :: x in r <==> x in rs && x.labelId in labels
  {
    if |rs| == 0 then []
    else WithLabels(rs[..|rs| - 1], labels) + (if rs[|rs| - 1].labelId in labels then [rs[|rs| - 1]] else [])
  }

  /** The first stored region carrying `label`. */
  function FirstWithLabel(rs: seq<SpRegion>, labelId: int): (r: Option<SpRegion>)
    ensures r.Some? <==> exists k :: 0 <= k < |rs| && rs[k].labelId == labelId
    ensures r.Some? ==> exists k :: 0 <= k < |rs| && rs[k] == r.value && r.value.labelId == labelId
                         && forall j :: 0 <= j < k ==> rs[j].labelId != labelId
  {
    if |rs| == 0 then None
    else if rs[0].labelId == labelId then Some(rs[0])
    else
      var r := FirstWithLabel(rs[1..], labelId);
      assert forall k :: 1 <= k < |rs| ==> rs[k] == rs[1..][k - 1];
      r
  }

  /** The labels on the pixels of rows [r0, r1) and columns [c0, c1). */
  function LabelsIn(labels: seq<seq<int>>, cols: nat, r0: nat, r1: nat, c0: nat, c1: nat): (r: set<int>)
    requires IsGrid(labels, cols) && r1 <= |labels| && c1 <= cols
    ensures forall l :: l in r <==> exists row, c :: r0 <= row < r1 && c0 <= c < c1 && labels[row][c] == l
  {
    set row, c | r0 <= row < r1 && c0 <= c < c1 :: labels[row][c]
  }

  /** The row and column ranges `get_regions_in_rect` slices: corners
      sorted, x1/y1 raised to 0 and x2/y2 lowered to the raster size, then
      a numpy slice, in which a negative stop counts from the far edge. */
  function SliceAsWritten(lo: int, hi: int, n: nat): (r: (nat, nat))
    ensures r.0 <= r.1 <= n
  {
    var l := if lo <= hi then lo else hi;
    var h := if lo <= hi then hi else lo;
    SliceRange(if l > 0 then l else 0, if h < n then h else n, n)
  }

  /** The labels `get_regions_in_rect` collects, as written. */
  function RectLabelsAsWritten(labels: seq<seq<int>>, cols: nat, x1: int, y1: int, x2: int, y2: int): set<int>
    requires IsGrid(labels, cols)
  {
    var xr := SliceAsWritten(x1, x2, cols);
    var yr := SliceAsWritten(y1, y2, |labels|);
    LabelsIn(labels, cols, yr.0, yr.1, xr.0, xr.1)
  }

  /** v lies in [min(a, b), max(a, b)). */
  predicate InSpan(v: int, a: int, b: int) {
    a <= v < b || b <= v < a
  }

  /** The span [min(lo, hi), max(lo, hi)) cut to [0, n). */
  function SliceIntended(lo: int, hi: int, n: nat): (r: (nat, nat))
    ensures r.0 <= r.1 <= n
    ensures forall v :: r.0 <= v < r.1 <==> 0 <= v < n && InSpan(v, lo, hi)
  {
    var l := if lo <= hi then lo else hi;
    var h := if lo <= hi then hi else lo;
    var l' := if l < 0 then 0 else if l > n then n else l;
    var h' := if h < l' then l' else if h > n then n else h;
    (l', h')
  }

  /** The labels of the pixels that lie both in the image and in the
      rectangle spanned by the two corners (right and bottom exclusive). */
  function RectLabels(labels: seq<seq<int>>, cols: nat, x1: int, y1: int, x2: int, y2: int): (r: set<int>)
    requires IsGrid(labels, cols)
    ensures forall l :: l in r <==>
      (exists row, c :: 0 <= row < |labels| && 0 <= c < cols && InSpan(c, x1, x2) && InSpan(row, y1, y2)
                        && labels[row][c] == l)
  {
    var xr := SliceIntended(x1, x2, cols);
    var yr := SliceIntended(y1, y2, |labels|);
    var r := LabelsIn(labels, cols, yr.0, yr.1, xr.0, xr.1);
    assert forall l :: l in r <==>
      (exists row, c :: 0 <= row < |labels| && 0 <= c < cols && InSpan(c, x1, x2) && InSpan(row, y1, y2)
                        && labels[row][c] == l) by {
      forall l ensures l in r <==>
        (exists row, c :: 0 <= row < |labels| && 0 <= c < cols && InSpan(c, x1, x2) && InSpan(row, y1, y2)
                          && labels[row][c] == l) {
        if l in r {
          var row, c :| yr.0 <= row < yr.1 && xr.0 <= c < xr.1 && labels[row][c] == l;
          assert InSpan(c, x1, x2) && InSpan(row, y1, y2);
        }
      }
    }
    r
  }

  /** The two slicings agree unless the far corner is negative. */
  lemma SliceAgree(lo: int, hi: int, n: nat)
    requires (if lo <= hi then hi else lo) >= 0
    ensures SliceAsWritten(lo, hi, n) == SliceIntended(lo, hi, n)
  {
  }

  /** For a rectangle whose far corner is not left of or above the image
      the as-written and intended label sets agree. */
  lemma RectLabelsAgree(labels: seq<seq<int>>, cols: nat, x1: int, y1: int, x2: int, y2: int)
    requires IsGrid(labels, cols)
    requires (if x1 <= x2 then x2 else x1) >= 0 && (if y1 <= y2 then y2 else y1) >= 0
    ensures RectLabelsAsWritten(labels, cols, x1, y1, x2, y2) == RectLabels(labels, cols, x1, y1, x2, y2)
  {
    SliceAgree(x1, x2, cols);
    SliceAgree(y1, y2, |labels|);
  }

  /** A rectangle entirely above and left of the image still selects
      pixels as written: its negative far corner wraps around. */
  lemma RectLabelsWrapAround()
    ensures RectLabelsAsWritten([[7, 7], [7, 7]], 2, -5, -5, -1, -1) == {7}
    ensures RectLabels([[7, 7], [7, 7]], 2, -5, -5, -1, -1) == {}
  {
    var labels := [[7, 7], [7, 7]];
    assert SliceAsWritten(-5, -1, 2) == (0, 1);
    assert labels[0][0] == 7;
    assert 7 in RectLabelsAsWritten(labels, 2, -5, -5, -1, -1);
  }

  /** The segmenter's state after a segmentation: the label raster (None
      before any segmentation), its width, and the regions. */
  class Segmenter {
    var labels: Option<seq<seq<int>>>
    var cols: nat
    var regions: seq<SpRegion>

    predicate Valid()
      reads this
    {
      labels.Some? ==> IsGrid(labels.value, cols)
    }

    constructor (labels: Option<seq<seq<int>>>, cols: nat, regions: seq<SpRegion>)
      requires labels.Some? ==> IsGrid(labels.value, cols)
      ensures this.labels == labels && this.cols == cols && this.regions == regions && Valid()
    {
      this.labels := labels;
      this.cols := cols;
      this.regions := regions;
    }

    /** `get_region_at_point(x, y)`: the first region carrying the label
        under the pixel, or None off the raster or before segmentation. */
    function RegionAtPoint(x: int, y: int): (r: Option<SpRegion>)
      requires Valid()
      reads this
      ensures r.Some? ==>
        labels.Some? && 0 <= y < |labels.value| && 0 <= x < cols
        && r.value in regions && r.value.labelId == labels.value[y][x]
      ensures (labels.Some? && 0 <= y < |labels.value| && 0 <= x < cols
               && exists k :: 0 <= k < |regions| && regions[k].labelId == labels.value[y][x]) ==> r.Some?
    {
      if labels.None? then None
      else if x < 0 || x >= cols || y < 0 || y >= |labels.value| then None
      else FirstWithLabel(regions, labels.value[y][x])
    }

    /** The regions `get_regions_in_rect` selects (with the corrected
        bounds: only pixels inside the image count). */
    function RegionsIn(x1: int, y1: int, x2: int, y2: int): seq<SpRegion>
      requires Valid()
      reads this
    {
      if labels.None? then [] else WithLabels(regions, RectLabels(labels.value, cols, x1, y1, x2, y2))
    }

    /** `get_regions_in_rect(x1, y1, x2, y2)`: the stored regions, in order,
        whose label occurs on a pixel of the rectangle. */
    method GetRegionsInRect(x1: int, y1: int, x2: int, y2: int) returns (rs: seq<SpRegion>)
      requires Valid()
      ensures rs == RegionsIn(x1, y1, x2, y2)
      ensures forall r :: r in rs <==> r in regions && labels.Some? && r.labelId in RectLabels(labels.value, cols, x1, y1, x2, y2)
    {
      if labels.None? {
        return [];
      }
      var unique := RectLabels(labels.value, cols, x1, y1, x2, y2);
      rs := [];
      var i := 0;
      while i < |regions|
        invariant 0 <= i <= |regions|
        invariant rs == WithLabels(regions[..i], unique)
      {
        if regions[i].labelId in unique {
          rs := rs + [regions[i]];
        }
        assert regions[..i + 1][..i] == regions[..i];
        i := i + 1;
      }
      assert regions[..|regions|] == regions;
    }

    /** `filter_regions(min_area, max_area, min_wh)`: a falsy `max_area`
        (None or 0) sets no upper limit. */
    method FilterRegions(minArea: int, maxArea: Option<int>, minWh: int) returns (filtered: seq<SpRegion>)
      ensures filtered == Admissible(regions, minArea, maxArea, minWh)
    {
      filtered := [];
      var i := 0;
      while i < |regions|
        invariant 0 <= i <= |regions|
        invariant filtered == Admissible(regions[..i], minArea, maxArea, minWh)
      {
        var r := regions[i];
        assert regions[..i + 1][..i] == regions[..i];
        if r.area < minArea {
        } else if maxArea.Some? && maxArea.value != 0 && r.area > maxArea.value {
        } else if r.bbox.w < minWh || r.bbox.h < minWh {
        } else {
          filtered := filtered + [r];
        }
        i := i + 1;
      }
      assert regions[..|regions|] == regions;
    }

    /** `_get_boundary_mask()`: 255 on each interior pixel with a 4-neighbour
        of another label, 0 elsewhere; a 10 x 10 zero raster before any
        segmentation. */
    method BoundaryMask() returns (m: array2<int>)
      requires Valid()
      ensures fresh(m)
      ensures labels.None? ==>
        m.Length0 == 10 && m.Length1 == 10 && forall i, j :: 0 <= i < 10 && 0 <= j < 10 ==> m[i, j] == 0
      ensures labels.Some? ==>
        m.Length0 == |labels.value| && m.Length1 == cols && forall i, j :: 0 <= i < m.Length0 && 0 <= j < m.Length1 ==>
             m[i, j] == if OnBoundary(labels.value, cols, i, j) then 255 else 0
    {
      if labels.None? {
        m := new int[10, 10]((i, j) => 0);
        return;
      }
      var g := labels.value;
      var h := |g|;
      m := new int[h, cols]((i, j) => 0);
      var i := 1;
      while i < h - 1
        invariant 1 <= i && (h >= 2 ==> i <= h - 1)
        invariant forall r, c :: 0 <= r < h && 0 <= c < cols ==>
          m[r, c] == if r < i && OnBoundary(g, cols, r, c) then 255 else 0
      {
        var j := 1;
        while j < cols - 1
          invariant 1 <= j && (cols >= 2 ==> j <= cols - 1)
          invariant forall r, c :: 0 <= r < h && 0 <= c < cols ==>
            m[r, c] == if (r < i || (r == i && c < j)) && OnBoundary(g, cols, r, c) then 255 else 0
        {
          var labelId := g[i][j];
          if g[i - 1][j] != labelId || g[i + 1][j] != labelId || g[i][j - 1] != labelId || g[i][j + 1] != labelId {
            m[i, j] := 255;
          }
          j := j + 1;
        }
        i := i + 1;
      }
    }
  }

  /** `merge_regions(regions)`: None for no region, the region's own box
      for one, and for several the box of the largest contour of the
      merged mask (`contourBox`, None when the mask has no contour). */
  function MergeRegions(rs: seq<SpRegion>, contourBox: Option<Box>, id: string): (r: Option<Roi>)
    ensures |rs| == 0 ==> r.None?
    ensures |rs| == 1 ==>
      r.Some? && r.value.x == rs[0].bbox.x && r.value.y == rs[0].bbox.y
      && r.value.width == rs[0].bbox.w && r.value.height == rs[0].bbox.h
    ensures |rs| >= 2 ==> (r.Some? <==> contourBox.Some?)
    ensures |rs| >= 2 && r.Some? ==>
      r.value.name == "superpixel_merge_" + IntToString(|rs|)
      && r.value.x == contourBox.value.x && r.value.y == contourBox.value.y
      && r.value.width == contourBox.value.w && r.value.height == contourBox.value.h
    ensures r.Some? ==> r.value.(x := 0, y := 0, width := 0, height := 0, name := "") == DefaultRoi(id)
    ensures |rs| == 1 ==> r.value.name == ""
  {
    if |rs| == 0 then None
    else if |rs| == 1 then
      Some(DefaultRoi(id).(x := rs[0].bbox.x, y := rs[0].bbox.y, width := rs[0].bbox.w, height := rs[0].bbox.h))
    else if contourBox.None? then None
    else
      var b := contourBox.value;
      Some(DefaultRoi(id).(x := b.x, y := b.y, width := b.w, height := b.h,
                           name := "superpixel_merge_" + IntToString(|rs|)))
  }

  /** A region passes `filter_regions`. */
  predicate Passes(r: SpRegion, minArea: int, maxArea: Option<int>, minWh: int) {
    r.area >= minArea && !(maxArea.Some? && maxArea.value != 0 && r.area > maxArea.value)
    && r.bbox.w >= minWh && r.bbox.h >= minWh
  }

  /** The regions passing the filter, in stored order. */
  function Admissible(rs: seq<SpRegion>, minArea: int, maxArea: Option<int>, minWh: int): (r: seq<SpRegion>)
    ensures forall x :: x in r <==> x in rs && Passes(x, minArea, maxArea, minWh)
  {
    if |rs| == 0 then []
    else Admissible(rs[..|rs| - 1], minArea, maxArea, minWh)
         + (if Passes(rs[|rs| - 1], minArea, maxArea, minWh) then [rs[|rs| - 1]] else [])
  }

  /** Pixel (i, j) is an interior pixel with a 4-neighbour of another label. */
  predicate OnBoundary(g: seq<seq<int>>, cols: nat, i: int, j: int)
    requires IsGrid(g, cols)
  {
    1 <= i < |g| - 1 && 1 <= j < cols - 1
    && (g[i - 1][j] != g[i][j] || g[i + 1][j] != g[i][j] || g[i][j - 1] != g[i][j] || g[i][j + 1] != g[i][j])
  }

  /** The outermost rows and columns are never boundary pixels, and an
      interior pixel of a constant raster is not one either. */
  lemma BoundaryFrame(g: seq<seq<int>>, cols: nat, i: int, j: int)
    requires IsGrid(g, cols) && 0 <= i < |g| && 0 <= j < cols
    ensures (i == 0 || i == |g| - 1 || j == 0 || j == cols - 1) ==> !OnBoundary(g, cols, i, j)
    ensures (forall r, c :: 0 <= r < |g| && 0 <= c < cols ==> g[r][c] == g[0][0]) ==> !OnBoundary(g, cols, i, j)
  {
  }

  /** Membership of `label` flipped: what an additive click does. */
  function Toggle(s: set<int>, labelId: int): (t: set<int>)
    ensures labelId in t <==> labelId !in s
    ensures forall l :: l != labelId ==> (l in t <==> l in s)
  {
    if labelId in s then s - {labelId} else s + {labelId}
  }

  /** Two additive clicks on the same region cancel out. */
  lemma ToggleTwice(s: set<int>, labelId: int)
    ensures Toggle(Toggle(s, labelId), labelId) == s
  {
  }

  /** `sqrt(d) < t` for a non-negative `d`, without the square root. */
  predicate SqrtBelow(d: real, t: real) {
    t > 0.0 && d < t * t
  }

  function Max(a: int, b: int): int { if a >= b then a else b }

  /** The two tests of `auto_merge_all`: colour distance below the
      threshold, and centre distance below the sum of the larger bbox sides. */
  predicate Similar(r1: SpRegion, r2: SpRegion, colorThreshold: real) {
    var d0 := r1.avgColor.0 - r2.avgColor.0;
    var d1 := r1.avgColor.1 - r2.avgColor.1;
    var d2 := r1.avgColor.2 - r2.avgColor.2;
    var dx := r1.center.0 - r2.center.0;
    var dy := r1.center.1 - r2.center.1;
    SqrtBelow(d0 * d0 + d1 * d1 + d2 * d2, colorThreshold)
    && SqrtBelow((dx * dx + dy * dy) as real, (Max(r1.bbox.w, r1.bbox.h) + Max(r2.bbox.w, r2.bbox.h)) as real)
  }

  /** The indices k in [j, |rs|), in order, that are not yet merged and are
      similar to region i: the regions the group of i absorbs. */
  function Absorbed(rs: seq<SpRegion>, i: nat, j: nat, merged: set<int>, colorThreshold: real): (a: seq<nat>)
    requires i < |rs| && j <= |rs|
    ensures forall k :: 0 <= k < |a| ==> j <= a[k] < |rs| && a[k] !in merged && Similar(rs[i], rs[a[k]], colorThreshold)
    ensures forall k, l :: 0 <= k < l < |a| ==> a[k] < a[l]
    decreases |rs| - j
  {
    if j == |rs| then []
    else if j !in merged && Similar(rs[i], rs[j], colorThreshold) then [j] + Absorbed(rs, i, j + 1, merged, colorThreshold)
    else Absorbed(rs, i, j + 1, merged, colorThreshold)
  }

  /** The absorbed indices are exactly the later unmerged regions similar
      to region i. */
  lemma {:induction false} AbsorbedMembers(rs: seq<SpRegion>, i: nat, j: nat, merged: set<int>, colorThreshold: real)
    requires i < |rs| && j <= |rs|
    ensures forall k :: k in Absorbed(rs, i, j, merged, colorThreshold) <==>
      j <= k < |rs| && k !in merged && Similar(rs[i], rs[k], colorThreshold)
    decreases |rs| - j
  {
    if j < |rs| {
      AbsorbedMembers(rs, i, j + 1, merged, colorThreshold);
    }
  }

  /** One step of the inner pass: region j joins the group exactly when it
      is unmerged and similar, and the rest is absorbed from j + 1 on. */
  lemma AbsorbStep(rs: seq<SpRegion>, i: nat, j: nat, before: set<int>, colorThreshold: real,
                   tail: seq<nat>, absorbed: seq<nat>)
    requires i < |rs| && j < |rs|
    requires absorbed == tail + Absorbed(rs, i, j, before, colorThreshold)
    ensures j !in before && Similar(rs[i], rs[j], colorThreshold) ==>
              absorbed == (tail + [j]) + Absorbed(rs, i, j + 1, before, colorThreshold)
    ensures !(j !in before && Similar(rs[i], rs[j], colorThreshold)) ==>
              absorbed == tail + Absorbed(rs, i, j + 1, before, colorThreshold)
  {
    var rest := Absorbed(rs, i, j + 1, before, colorThreshold);
    if j !in before && Similar(rs[i], rs[j], colorThreshold) {
      assert tail + ([j] + rest) == (tail + [j]) + rest;
    }
  }

  /** Every index of every group is a position of `rs`. */
  predicate GroupsWellFormed(rs: seq<SpRegion>, gs: seq<seq<nat>>) {
    forall m, k :: 0 <= m < |gs| && 0 <= k < |gs[m]| ==> gs[m][k] < |rs|
  }

  /** The groups `auto_merge_all` forms from index i on, given the indices
      already merged: an unmerged region smaller than `minArea` starts a
      group and absorbs every later unmerged region similar to it. */
  function Grouping(rs: seq<SpRegion>, i: nat, merged: set<int>, minArea: int, colorThreshold: real): (gs: seq<seq<nat>>)
    requires i <= |rs|
    ensures GroupsWellFormed(rs, gs)
    decreases |rs| - i
  {
    if i == |rs| then []
    else if i in merged || rs[i].area >= minArea then Grouping(rs, i + 1, merged, minArea, colorThreshold)
    else
      var g := [i] + Absorbed(rs, i, i + 1, merged, colorThreshold);
      [g] + Grouping(rs, i + 1, merged + (set k | k in g), minArea, colorThreshold)
  }

  /** Group g starts with an unmerged region at or after i below
      `minArea`; its other members are later, unmerged and similar to that
      first region. */
  predicate GroupShaped(rs: seq<SpRegion>, g: seq<nat>, i: nat, merged: set<int>, minArea: int, colorThreshold: real) {
    |g| >= 1 && i <= g[0] < |rs| && g[0] !in merged && rs[g[0]].area < minArea
    && forall k :: 1 <= k < |g| ==> g[0] < g[k] < |rs| && g[k] !in merged && Similar(rs[g[0]], rs[g[k]], colorThreshold)
  }

  /** Every group of gs is shaped as `GroupShaped` says. */
  predicate AllShaped(rs: seq<SpRegion>, gs: seq<seq<nat>>, i: nat, merged: set<int>, minArea: int, colorThreshold: real) {
    forall n :: 0 <= n < |gs| ==> GroupShaped(rs, gs[n], i, merged, minArea, colorThreshold)
  }

  /** No index is in two different groups. */
  predicate Disjoint(gs: seq<seq<nat>>) {
    forall n, m, k, l :: 0 <= n < m < |gs| && 0 <= k < |gs[n]| && 0 <= l < |gs[m]| ==> gs[n][k] != gs[m][l]
  }

  /** A group shaped for a later start and a larger merged set is shaped
      for an earlier start and a smaller one. */
  lemma ShapedWeaken(rs: seq<SpRegion>, g: seq<nat>, i: nat, i': nat, merged: set<int>, merged': set<int>,
                     minArea: int, colorThreshold: real)
    requires i <= i' && merged <= merged'
    requires GroupShaped(rs, g, i', merged', minArea, colorThreshold)
    ensures GroupShaped(rs, g, i, merged, minArea, colorThreshold)
  {
  }

  /** The group a small unmerged region starts is shaped. */
  lemma FirstGroupShaped(rs: seq<SpRegion>, i: nat, merged: set<int>, minArea: int, colorThreshold: real)
    requires i < |rs| && i !in merged && rs[i].area < minArea
    ensures GroupShaped(rs, [i] + Absorbed(rs, i, i + 1, merged, colorThreshold), i, merged, minArea, colorThreshold)
  {
    var a := Absorbed(rs, i, i + 1, merged, colorThreshold);
    var g := [i] + a;
    forall k | 1 <= k < |g|
      ensures g[0] < g[k] < |rs| && g[k] !in merged && Similar(rs[g[0]], rs[g[k]], colorThreshold)
    {
      assert g[k] == a[k - 1];
    }
  }

  /** Every group has the shape `auto_merge_all` promises. */
  lemma {:induction false} GroupingShape(rs: seq<SpRegion>, i: nat, merged: set<int>, minArea: int, colorThreshold: real)
    requires i <= |rs|
    ensures AllShaped(rs, Grouping(rs, i, merged, minArea, colorThreshold), i, merged, minArea, colorThreshold)
    decreases |rs| - i
  {
    if i < |rs| {
      var gs := Grouping(rs, i, merged, minArea, colorThreshold);
      if i in merged || rs[i].area >= minArea {
        GroupingShape(rs, i + 1, merged, minArea, colorThreshold);
        assert gs == Grouping(rs, i + 1, merged, minArea, colorThreshold);
        forall n | 0 <= n < |gs| ensures GroupShaped(rs, gs[n], i, merged, minArea, colorThreshold) {
          ShapedWeaken(rs, gs[n], i, i + 1, merged, merged, minArea, colorThreshold);
        }
      } else {
        var g := [i] + Absorbed(rs, i, i + 1, merged, colorThreshold);
        var merged' := merged + (set k | k in g);
        GroupingShape(rs, i + 1, merged', minArea, colorThreshold);
        var rest := Grouping(rs, i + 1, merged', minArea, colorThreshold);
        assert gs == [g] + rest;
        FirstGroupShaped(rs, i, merged, minArea, colorThreshold);
        forall n | 0 <= n < |gs| ensures GroupShaped(rs, gs[n], i, merged, minArea, colorThreshold) {
          if n == 0 {
            assert gs[0] == g;
          } else {
            assert gs[n] == rest[n - 1];
            ShapedWeaken(rs, rest[n - 1], i, i + 1, merged, merged', minArea, colorThreshold);
          }
        }
      }
    }
  }

  /** The groups are disjoint: each region joins at most one group. */
  lemma {:induction false} GroupingDisjoint(rs: seq<SpRegion>, i: nat, merged: set<int>, minArea: int, colorThreshold: real)
    requires i <= |rs|
    ensures Disjoint(Grouping(rs, i, merged, minArea, colorThreshold))
    decreases |rs| - i
  {
    if i < |rs| {
      var gs := Grouping(rs, i, merged, minArea, colorThreshold);
      if i in merged || rs[i].area >= minArea {
        GroupingDisjoint(rs, i + 1, merged, minArea, colorThreshold);
        assert gs == Grouping(rs, i + 1, merged, minArea, colorThreshold);
      } else {
        var g := [i] + Absorbed(rs, i, i + 1, merged, colorThreshold);
        var merged' := merged + (set k | k in g);
        GroupingDisjoint(rs, i + 1, merged', minArea, colorThreshold);
        GroupingShape(rs, i + 1, merged', minArea, colorThreshold);
        var rest := Grouping(rs, i + 1, merged', minArea, colorThreshold);
        assert gs == [g] + rest;
        forall n, m, k, l | 0 <= n < m < |gs| && 0 <= k < |gs[n]| && 0 <= l < |gs[m]|
          ensures gs[n][k] != gs[m][l]
        {
          assert gs[m] == rest[m - 1];
          assert GroupShaped(rs, rest[m - 1], i + 1, merged', minArea, colorThreshold);
          if n == 0 {
            assert gs[n][k] in merged';
            assert gs[m][l] !in merged';
          } else {
            assert gs[n] == rest[n - 1];
          }
        }
      }
    }
  }

  /** The regions of a group of indices. */
  function RegionsOf(rs: seq<SpRegion>, g: seq<nat>): (r: seq<SpRegion>)
    requires forall k :: 0 <= k < |g| ==> g[k] < |rs|
    ensures |r| == |g|
  {
    seq(|g|, k requires 0 <= k < |g| => rs[g[k]])
  }

  /** Extending a group by one index extends its regions by that region. */
  lemma RegionsOfAppend(rs: seq<SpRegion>, g: seq<nat>, j: nat)
    requires forall k :: 0 <= k < |g| ==> g[k] < |rs|
    requires j < |rs|
    ensures forall k :: 0 <= k < |g + [j]| ==> (g + [j])[k] < |rs|
    ensures RegionsOf(rs, g + [j]) == RegionsOf(rs, g) + [rs[j]]
  {
  }

  /** Putting an index in front of a group puts its region in front. */
  lemma RegionsOfCons(rs: seq<SpRegion>, i: nat, g: seq<nat>)
    requires forall k :: 0 <= k < |g| ==> g[k] < |rs|
    requires i < |rs|
    ensures forall k :: 0 <= k < |[i] + g| ==> ([i] + g)[k] < |rs|
    ensures RegionsOf(rs, [i] + g) == [rs[i]] + RegionsOf(rs, g)
  {
  }

  /** The ROIs produced from the groups: one per group of two or more
      regions whose merge produced an ROI, in group order. */
  function GroupRois(rs: seq<SpRegion>, gs: seq<seq<nat>>, contourBox: seq<SpRegion> -> Option<Box>,
                     ids: nat -> string): seq<Roi>
    requires GroupsWellFormed(rs, gs)
    decreases |gs|
  {
    if |gs| == 0 then []
    else GroupRoi(rs, gs[0], contourBox, ids) + GroupRois(rs, gs[1..], contourBox, ids)
  }

  /** The ROI of one group: none for a single region or a failed merge;
      `ids(leader)` is the new ROI's id. */
  function GroupRoi(rs: seq<SpRegion>, g: seq<nat>, contourBox: seq<SpRegion> -> Option<Box>,
                    ids: nat -> string): seq<Roi>
    requires forall k :: 0 <= k < |g| ==> g[k] < |rs|
  {
    var regions := RegionsOf(rs, g);
    var roi := if |g| >= 2 then MergeRegions(regions, contourBox(regions), ids(g[0])) else None;
    if roi.Some? then [roi.value] else []
  }

  /** The ROIs `auto_merge_all` produces from index i on, given the
      indices already merged. */
  function RoisFrom(rs: seq<SpRegion>, i: nat, merged: set<int>, minArea: int, colorThreshold: real,
                    contourBox: seq<SpRegion> -> Option<Box>, ids: nat -> string): seq<Roi>
    requires i <= |rs|
  {
    GroupRois(rs, Grouping(rs, i, merged, minArea, colorThreshold), contourBox, ids)
  }

  /** A merged region, or one of at least `minArea`, starts no group. */
  lemma RoisFromSkip(rs: seq<SpRegion>, i: nat, merged: set<int>, minArea: int, colorThreshold: real,
                     contourBox: seq<SpRegion> -> Option<Box>, ids: nat -> string)
    requires i < |rs| && (i in merged || rs[i].area >= minArea)
    ensures RoisFrom(rs, i, merged, minArea, colorThreshold, contourBox, ids)
            == RoisFrom(rs, i + 1, merged, minArea, colorThreshold, contourBox, ids)
  {
  }

  /** An unmerged region below `minArea` contributes its group's ROI, then
      the later groups follow with that group's members marked. */
  lemma RoisFromStep(rs: seq<SpRegion>, i: nat, merged: set<int>, minArea: int, colorThreshold: real,
                     contourBox: seq<SpRegion> -> Option<Box>, ids: nat -> string)
    requires i < |rs| && i !in merged && rs[i].area < minArea
    ensures var g := [i] + Absorbed(rs, i, i + 1, merged, colorThreshold);
      RoisFrom(rs, i, merged, minArea, colorThreshold, contourBox, ids)
      == GroupRoi(rs, g, contourBox, ids) + RoisFrom(rs, i + 1, merged + (set k | k in g), minArea, colorThreshold, contourBox, ids)
  {
    var g := [i] + Absorbed(rs, i, i + 1, merged, colorThreshold);
    var rest := Grouping(rs, i + 1, merged + (set k | k in g), minArea, colorThreshold);
    assert Grouping(rs, i, merged, minArea, colorThreshold) == [g] + rest;
    assert ([g] + rest)[1..] == rest;
  }

  /** Concatenation regroups freely. */
  lemma ConcatAssoc<T>(a: seq<T>, b: seq<T>, c: seq<T>)
    ensures a + (b + c) == (a + b) + c
  {
  }

  /** The merge tool: the selected labels and the ROIs merged so far. */
  class MergeTool {
    const segmenter: Segmenter
    var selectedLabels: set<int>
    var mergedRois: seq<Roi>

    constructor (segmenter: Segmenter)
      ensures this.segmenter == segmenter && selectedLabels == {} && mergedRois == []
    {
      this.segmenter := segmenter;
      selectedLabels := {};
      mergedRois := [];
    }

    /** `click_select(x, y, additive)`: a miss clears a replacing selection
        and leaves an additive one; a hit makes the selection exactly that
        label, or toggles it when additive. */
    method ClickSelect(x: int, y: int, additive: bool) returns (region: Option<SpRegion>)
      requires segmenter.Valid()
      modifies this
      ensures region == segmenter.RegionAtPoint(x, y)
      ensures region.None? ==> selectedLabels == if additive then old(selectedLabels) else {}
      ensures region.Some? && !additive ==> selectedLabels == {region.value.labelId}
      ensures region.Some? && additive ==> selectedLabels == Toggle(old(selectedLabels), region.value.labelId)
      ensures mergedRois == old(mergedRois)
    {
      region := segmenter.RegionAtPoint(x, y);
      if region.None? {
        if !additive {
          selectedLabels := {};
        }
        return;
      }
      var labelId := region.value.labelId;
      if additive {
        if labelId in selectedLabels {
          selectedLabels := selectedLabels - {labelId};
        } else {
          selectedLabels := selectedLabels + {labelId};
        }
      } else {
        selectedLabels := {labelId};
      }
    }

    /** `rect_select(x1, y1, x2, y2)`: adds the label of every region in the
        rectangle and removes none. */
    method RectSelect(x1: int, y1: int, x2: int, y2: int) returns (regions: seq<SpRegion>)
      requires segmenter.Valid()
      modifies this
      ensures regions == segmenter.RegionsIn(x1, y1, x2, y2)
      ensures selectedLabels == old(selectedLabels) + set r | r in regions :: r.labelId
      ensures mergedRois == old(mergedRois)
    {
      regions := segmenter.GetRegionsInRect(x1, y1, x2, y2);
      var i := 0;
      while i < |regions|
        invariant 0 <= i <= |regions|
        invariant selectedLabels == old(selectedLabels) + set r | r in regions[..i] :: r.labelId
        invariant mergedRois == old(mergedRois)
      {
        assert regions[..i + 1] == regions[..i] + [regions[i]];
        selectedLabels := selectedLabels + {regions[i].labelId};
        i := i + 1;
      }
      assert regions[..|regions|] == regions;
    }

    /** `get_selected_regions()`: the stored regions with a selected label. */
    function GetSelectedRegions(): (rs: seq<SpRegion>)
      reads this, segmenter
      ensures forall r :: r in rs <==> r in segmenter.regions && r.labelId in selectedLabels
    {
      WithLabels(segmenter.regions, selectedLabels)
    }

    /** `merge_selected()`: fewer than two selected regions do nothing; a
        merge that yields an ROI records it and clears the selection. */
    method MergeSelected(contourBox: Option<Box>, id: string) returns (roi: Option<Roi>)
      modifies this
      ensures var rs := old(GetSelectedRegions());
        roi == (if |rs| < 2 then None else MergeRegions(rs, contourBox, id))
      ensures roi.None? ==> selectedLabels == old(selectedLabels) && mergedRois == old(mergedRois)
      ensures roi.Some? ==> selectedLabels == {} && mergedRois == old(mergedRois) + [roi.value]
    {
      var regions := GetSelectedRegions();
      if |regions| < 2 {
        return None;
      }
      roi := MergeRegions(regions, contourBox, id);
      if roi.Some? {
        mergedRois := mergedRois + [roi.value];
        selectedLabels := {};
      }
    }

    /** The inner pass of `auto_merge_all` for region i: marks i and every
        later unmarked region similar to it, and returns them in order. */
    static method AbsorbSimilar(regions: seq<SpRegion>, i: nat, merged: array<bool>, colorThreshold: real,
                                ghost before: set<int>)
      returns (toMerge: seq<SpRegion>, ghost indices: seq<nat>)
      requires i < |regions| == merged.Length && i !in before
      requires forall k :: 0 <= k < merged.Length ==> (merged[k] <==> k in before)
      modifies merged
      ensures indices == [i] + Absorbed(regions, i, i + 1, before, colorThreshold)
      ensures forall k :: 0 <= k < |indices| ==> indices[k] < |regions|
      ensures toMerge == RegionsOf(regions, indices)
      ensures forall k :: 0 <= k < merged.Length ==> (merged[k] <==> k in before || k in indices)
    {
      ghost var absorbed := Absorbed(regions, i, i + 1, before, colorThreshold);
      ghost var tail: seq<nat> := [];
      toMerge := [regions[i]];
      merged[i] := true;
      var j: nat := i + 1;
      while j < |regions|
        invariant i + 1 <= j <= |regions|
        invariant absorbed == tail + Absorbed(regions, i, j, before, colorThreshold)
        invariant forall k :: 0 <= k < |tail| ==> i < tail[k] < j
        invariant toMerge == [regions[i]] + RegionsOf(regions, tail)
        invariant forall k :: 0 <= k < merged.Length ==>
          (merged[k] <==> k in before || k == i || (i < k < j && Similar(regions[i], regions[k], colorThreshold)))
      {
        AbsorbStep(regions, i, j, before, colorThreshold, tail, absorbed);
        if !merged[j] && Similar(regions[i], regions[j], colorThreshold) {
          RegionsOfAppend(regions, tail, j);
          toMerge := toMerge + [regions[j]];
          tail := tail + [j];
          merged[j] := true;
        }
        j := j + 1;
      }
      assert tail == absorbed;
      RegionsOfCons(regions, i, tail);
      indices := [i] + tail;
      AbsorbedMembers(regions, i, i + 1, before, colorThreshold);
      forall k | 0 <= k < merged.Length ensures merged[k] <==> k in before || k in indices {
        assert k in indices <==> k == i || k in absorbed;
      }
    }

    /** The group of region i, marked in `merged`, and the ROI merged from
        it when it has two or more regions and the merge yields one. */
    static method MergeGroup(regions: seq<SpRegion>, i: nat, merged: array<bool>, colorThreshold: real,
                             contourBox: seq<SpRegion> -> Option<Box>, ids: nat -> string, ghost before: set<int>)
      returns (piece: seq<Roi>, ghost indices: seq<nat>)
      requires i < |regions| == merged.Length && i !in before
      requires forall k :: 0 <= k < merged.Length ==> (merged[k] <==> k in before)
      modifies merged
      ensures indices == [i] + Absorbed(regions, i, i + 1, before, colorThreshold)
      ensures forall k :: 0 <= k < |indices| ==> indices[k] < |regions|
      ensures piece == GroupRoi(regions, indices, contourBox, ids)
      ensures forall k :: 0 <= k < merged.Length ==> (merged[k] <==> k in before || k in indices)
    {
      var toMerge;
      toMerge, indices := AbsorbSimilar(regions, i, merged, colorThreshold, before);
      piece := [];
      if |toMerge| >= 2 {
        var roi := MergeRegions(toMerge, contourBox(toMerge), ids(i));
        if roi.Some? {
          piece := [roi.value];
        }
      }
    }

    /** `auto_merge_all(min_area, color_threshold)`: one pass forming the
        groups of `Grouping`, each group of two or more merged into an ROI.
        `contourBox` stands for the contour of a group's merged mask and
        `ids(i)` for the id of the ROI of the group led by region i. */
    method AutoMergeAll(minArea: int, colorThreshold: real, contourBox: seq<SpRegion> -> Option<Box>,
                        ids: nat -> string) returns (rois: seq<Roi>)
      ensures rois == RoisFrom(segmenter.regions, 0, {}, minArea, colorThreshold, contourBox, ids)
    {
      var regions := segmenter.regions;
      var merged := new bool[|regions|](k => false);
      ghost var mergedSet: set<int> := {};
      rois := [];
      var i := 0;
      while i < |regions|
        invariant 0 <= i <= |regions|
        invariant forall k :: 0 <= k < |regions| ==> (merged[k] <==> k in mergedSet)
        invariant rois + RoisFrom(regions, i, mergedSet, minArea, colorThreshold, contourBox, ids)
                  == RoisFrom(regions, 0, {}, minArea, colorThreshold, contourBox, ids)
      {
        if merged[i] || regions[i].area >= minArea {
          RoisFromSkip(regions, i, mergedSet, minArea, colorThreshold, contourBox, ids);
          i := i + 1;
          continue;
        }
        ghost var before := mergedSet;
        var piece;
        ghost var indices;
        piece, indices := MergeGroup(regions, i, merged, colorThreshold, contourBox, ids, before);
        mergedSet := before + (set k | k in indices);
        RoisFromStep(regions, i, before, minArea, colorThreshold, contourBox, ids);
        ghost var later := RoisFrom(regions, i + 1, mergedSet, minArea, colorThreshold, contourBox, ids);
        assert RoisFrom(regions, i, before, minArea, colorThreshold, contourBox, ids) == piece + later;
        ConcatAssoc(rois, piece, later);
        rois := rois + piece;
        i := i + 1;
      }
    }
  }
}
