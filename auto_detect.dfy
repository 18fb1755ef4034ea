/** Post-processing of the automatic detector: intersection over union,
    greedy de-duplication of overlapping detections, the choice of a colour
    component from a connected-component table, the red-dot box and the
    renaming of the merged detections. The image analysis itself (Hough
    circles, colour masks, morphology, contour extraction, connected
    components) is not modelled: its outputs are inputs here. */
module AutoDetect {
  import opened Wrappers
  import opened Text
  import opened Grid
  import opened RoiModel

  // ------------------------------------------------------------------ IoU

  /** `_calculate_iou`: intersection over union of the two boxes, where
      boxes that only share an edge do not intersect. */
  function Iou(a: Roi, b: Roi): real {
    var x1 := if a.x >= b.x then a.x else b.x;
    var y1 := if a.y >= b.y then a.y else b.y;
    var x2 := if Right(a) <= Right(b) then Right(a) else Right(b);
    var y2 := if Bottom(a) <= Bottom(b) then Bottom(a) else Bottom(b);
    if x2 <= x1 || y2 <= y1 then 0.0
    else
      var inter := (x2 - x1) * (y2 - y1);
      var union := Area(a) + Area(b) - inter;
      if union > 0 then inter as real / union as real else 0.0
  }

  lemma MulMono(a: int, b: int, c: int, d: int)
    requires 0 <= a <= c && 0 <= b <= d
    ensures a * b <= c * d
  {
    assert a * b <= c * b;
    assert c * b <= c * d;
  }

  lemma RatioAtMostOne(n: int, d: int)
    requires 0 <= n <= d && d > 0
    ensures 0.0 <= n as real / d as real <= 1.0
  {
    assert n as real <= d as real;
  }

  /** IoU is symmetric and lies in [0, 1]. */
  lemma IouBounds(a: Roi, b: Roi)
    ensures Iou(a, b) == Iou(b, a)
    ensures 0.0 <= Iou(a, b) <= 1.0
  {
    IouSymmetric(a, b);
    IouInUnit(a, b);
  }

  lemma IouSymmetric(a: Roi, b: Roi)
    ensures Iou(a, b) == Iou(b, a)
  {
    var x1 := if a.x >= b.x then a.x else b.x;
    var y1 := if a.y >= b.y then a.y else b.y;
    var x2 := if Right(a) <= Right(b) then Right(a) else Right(b);
    var y2 := if Bottom(a) <= Bottom(b) then Bottom(a) else Bottom(b);
    assert x1 == (if b.x >= a.x then b.x else a.x);
    assert y1 == (if b.y >= a.y then b.y else a.y);
    assert x2 == (if Right(b) <= Right(a) then Right(b) else Right(a));
    assert y2 == (if Bottom(b) <= Bottom(a) then Bottom(b) else Bottom(a));
  }

  lemma IouInUnit(a: Roi, b: Roi)
    ensures 0.0 <= Iou(a, b) <= 1.0
  {
    var x1 := if a.x >= b.x then a.x else b.x;
    var y1 := if a.y >= b.y then a.y else b.y;
    var x2 := if Right(a) <= Right(b) then Right(a) else Right(b);
    var y2 := if Bottom(a) <= Bottom(b) then Bottom(a) else Bottom(b);
    if !(x2 <= x1 || y2 <= y1) {
      var inter := (x2 - x1) * (y2 - y1);
      MulMono(x2 - x1, y2 - y1, a.width, a.height);
      MulMono(x2 - x1, y2 - y1, b.width, b.height);
      assert 0 < inter by { MulMono(1, 1, x2 - x1, y2 - y1); }
      RatioAtMostOne(inter, Area(a) + Area(b) - inter);
    }
  }

  /** A box with positive size overlaps itself completely. */
  lemma IouSelf(a: Roi)
    requires a.width > 0 && a.height > 0
    ensures Iou(a, a) == 1.0
  {
    var area := a.width * a.height;
    MulMono(1, 1, a.width, a.height);
    assert Area(a) + Area(a) - area == area;
    assert area as real / area as real == 1.0;
  }

  /** Boxes separated on either axis (touching edges included) have IoU 0. */
  lemma IouDisjoint(a: Roi, b: Roi)
    requires Right(a) <= b.x || Right(b) <= a.x || Bottom(a) <= b.y || Bottom(b) <= a.y
    ensures Iou(a, b) == 0.0
  {
  }

  // ------------------------------------------------- stable sort by area

  /** Areas never increase along the sequence. */
  predicate SortedByAreaDesc(s: seq<Roi>) {
    forall i, j :: 0 <= i < j < |s| ==> Area(s[i]) >= Area(s[j])
  }

  /** Inserts `x` after every element whose area is at least its own. */
  function InsertByArea(t: seq<Roi>, x: Roi): (r: seq<Roi>)
    ensures |r| == |t| + 1 && multiset(r) == multiset(t) + multiset{x}
  {
    if |t| == 0 then [x]
    else if Area(t[0]) < Area(x) then [x] + t
    else
      assert t == [t[0]] + t[1..];
      [t[0]] + InsertByArea(t[1..], x)
  }

  /** Insertion keeps a sorted sequence sorted. */
  lemma {:induction false} InsertSorted(t: seq<Roi>, x: Roi)
    requires SortedByAreaDesc(t)
    ensures SortedByAreaDesc(InsertByArea(t, x))
  {
    if |t| > 0 && Area(t[0]) >= Area(x) {
      var rest := InsertByArea(t[1..], x);
      InsertSorted(t[1..], x);
      forall k | 0 <= k < |rest| ensures Area(t[0]) >= Area(rest[k]) {
        assert rest[k] in multiset(rest);
        assert rest[k] in t[1..] || rest[k] == x;
      }
    }
  }

  /** `sorted(rois, key=area, reverse=True)`: Python's sort is stable, also
      when reversed. */
  function SortByArea(s: seq<Roi>): (r: seq<Roi>)
    ensures |r| == |s| && multiset(r) == multiset(s)
    ensures SortedByAreaDesc(r)
  {
    if |s| == 0 then []
    else
      assert s == s[..|s| - 1] + [s[|s| - 1]];
      InsertSorted(SortByArea(s[..|s| - 1]), s[|s| - 1]);
      InsertByArea(SortByArea(s[..|s| - 1]), s[|s| - 1])
  }

  /** `x` alone when its area is `a`, otherwise nothing. */
  function IfArea(x: Roi, a: int): seq<Roi> {
    if Area(x) == a then [x] else []
  }

  /** The elements of `s` whose area is `a`, in order. */
  function WithArea(s: seq<Roi>, a: int): seq<Roi> {
    if |s| == 0 then [] else IfArea(s[0], a) + WithArea(s[1..], a)
  }

  lemma {:induction false} WithAreaAppend(u: seq<Roi>, v: seq<Roi>, a: int)
    ensures WithArea(u + v, a) == WithArea(u, a) + WithArea(v, a)
  {
    if |u| == 0 {
      assert u + v == v;
    } else {
      assert (u + v)[0] == u[0];
      assert (u + v)[1..] == u[1..] + v;
      WithAreaAppend(u[1..], v, a);
    }
  }

  lemma {:induction false} WithAreaNone(t: seq<Roi>, a: int)
    requires forall k :: 0 <= k < |t| ==> Area(t[k]) < a
    ensures WithArea(t, a) == []
  {
    if |t| > 0 {
      WithAreaNone(t[1..], a);
    }
  }

  lemma SortedTail(t: seq<Roi>)
    requires |t| > 0 && SortedByAreaDesc(t)
    ensures SortedByAreaDesc(t[1..])
  {
    var tail := t[1..];
    forall i, j | 0 <= i < j < |tail| ensures Area(tail[i]) >= Area(tail[j]) {
      assert tail[i] == t[i + 1] && tail[j] == t[j + 1];
    }
  }

  /** An element larger than the head of a sorted sequence goes first,
      and nothing after it has its area. */
  lemma InsertFrontWithArea(t: seq<Roi>, x: Roi, a: int)
    requires SortedByAreaDesc(t) && |t| > 0 && Area(t[0]) < Area(x)
    ensures WithArea(InsertByArea(t, x), a) == WithArea(t, a) + IfArea(x, a)
  {
    var r := [x] + t;
    assert InsertByArea(t, x) == r;
    assert r[0] == x && r[1..] == t;
    assert WithArea(r, a) == IfArea(x, a) + WithArea(t, a);
    if Area(x) == a {
      forall k | 0 <= k < |t| ensures Area(t[k]) < a {
        if k > 0 {
          assert Area(t[0]) >= Area(t[k]);
        }
      }
      WithAreaNone(t, a);
    } else {
      assert IfArea(x, a) == [];
    }
  }

  lemma {:induction false} InsertWithArea(t: seq<Roi>, x: Roi, a: int)
    requires SortedByAreaDesc(t)
    ensures WithArea(InsertByArea(t, x), a) == WithArea(t, a) + IfArea(x, a)
  {
    if |t| == 0 {
      assert [x][1..] == [];
    } else if Area(t[0]) < Area(x) {
      InsertFrontWithArea(t, x, a);
    } else {
      var tail := t[1..];
      var rest := InsertByArea(tail, x);
      var head := IfArea(t[0], a);
      SortedTail(t);
      InsertWithArea(tail, x, a);
      var r := [t[0]] + rest;
      assert InsertByArea(t, x) == r;
      assert r[0] == t[0] && r[1..] == rest;
      assert WithArea(r, a) == head + WithArea(rest, a);
      assert head + (WithArea(tail, a) + IfArea(x, a)) == (head + WithArea(tail, a)) + IfArea(x, a);
    }
  }

  /** The sort is stable: the ROIs of any one area keep their input order. */
  lemma {:induction false} SortStable(s: seq<Roi>, a: int)
    ensures WithArea(SortByArea(s), a) == WithArea(s, a)
  {
    if |s| > 0 {
      var init := s[..|s| - 1];
      var x := s[|s| - 1];
      var xs := IfArea(x, a);
      calc {
        WithArea(SortByArea(s), a);
        { assert s[..|s| - 1] == init; }
        WithArea(InsertByArea(SortByArea(init), x), a);
        { InsertWithArea(SortByArea(init), x, a); }
        WithArea(SortByArea(init), a) + xs;
        { SortStable(init, a); }
        WithArea(init, a) + xs;
        { assert [x][1..] == []; assert WithArea([x], a) == xs; }
        WithArea(init, a) + WithArea([x], a);
        { WithAreaAppend(init, [x], a); assert init + [x] == s; }
        WithArea(s, a);
      }
    }
  }

  /** Inserting an element no larger than all the others appends it. */
  lemma {:induction false} InsertSmallest(t: seq<Roi>, x: Roi)
    requires forall k :: 0 <= k < |t| ==> Area(t[k]) >= Area(x)
    ensures InsertByArea(t, x) == t + [x]
  {
    if |t| > 0 {
      InsertSmallest(t[1..], x);
      assert t == [t[0]] + t[1..];
    }
  }

  /** Sorting a sequence that is already in order changes nothing. */
  lemma {:induction false} SortSorted(s: seq<Roi>)
    requires SortedByAreaDesc(s)
    ensures SortByArea(s) == s
  {
    if |s| > 0 {
      var init := s[..|s| - 1];
      SortSorted(init);
      InsertSmallest(init, s[|s| - 1]);
      assert init + [s[|s| - 1]] == s;
    }
  }

  // -------------------------------------------------- greedy de-duplication

  /** Some kept ROI overlaps `x` by more than the threshold. */
  predicate OverlapsKept(x: Roi, kept: seq<Roi>, threshold: real) {
    exists k :: 0 <= k < |kept| && Iou(x, kept[k]) > threshold
  }

  /** The keep/drop pass over an already sorted list: an ROI is kept unless
      it overlaps one kept before it by more than the threshold. */
  function Greedy(s: seq<Roi>, threshold: real): seq<Roi> {
    if |s| == 0 then []
    else
      var kept := Greedy(s[..|s| - 1], threshold);
      if OverlapsKept(s[|s| - 1], kept, threshold) then kept else kept + [s[|s| - 1]]
  }

  /** The inner scan of `_merge_overlapping_rois`: whether `roi` overlaps
      some already kept ROI by more than the threshold. */
  method ScanKept(roi: Roi, kept: seq<Roi>, threshold: real) returns (shouldMerge: bool)
    ensures shouldMerge == OverlapsKept(roi, kept, threshold)
  {
    shouldMerge := false;
    var j := 0;
    while j < |kept|
      invariant 0 <= j <= |kept|
      invariant forall k :: 0 <= k < j ==> Iou(roi, kept[k]) <= threshold
    {
      if Iou(roi, kept[j]) > threshold {
        return true;
      }
      j := j + 1;
    }
  }

  /** `_merge_overlapping_rois(rois, iou_threshold)`. */
  method MergeOverlapping(rois: seq<Roi>, threshold: real) returns (merged: seq<Roi>)
    ensures merged == Greedy(SortByArea(rois), threshold)
    ensures |rois| == 0 ==> merged == []
  {
    if |rois| == 0 {
      return [];
    }
    var sorted := SortByArea(rois);
    merged := [];
    var i := 0;
    while i < |sorted|
      invariant 0 <= i <= |sorted|
      invariant merged == Greedy(sorted[..i], threshold)
    {
      var roi := sorted[i];
      var shouldMerge := ScanKept(roi, merged, threshold);
      if !shouldMerge {
        merged := merged + [roi];
      }
      assert sorted[..i + 1][..i] == sorted[..i];
      i := i + 1;
    }
    assert sorted[..|sorted|] == sorted;
  }

  /** No two distinct positions of `m` overlap by more than the threshold. */
  predicate Separated(m: seq<Roi>, threshold: real) {
    forall i, j :: 0 <= i < |m| && 0 <= j < |m| && i != j ==> Iou(m[i], m[j]) <= threshold
  }

  /** No two kept ROIs overlap by more than the threshold. */
  lemma {:induction false} GreedyPairwise(s: seq<Roi>, threshold: real)
    ensures Separated(Greedy(s, threshold), threshold)
  {
    if |s| > 0 {
      GreedyPairwise(s[..|s| - 1], threshold);
      var kept := Greedy(s[..|s| - 1], threshold);
      var x := s[|s| - 1];
      if !OverlapsKept(x, kept, threshold) {
        var m := kept + [x];
        forall i, j | 0 <= i < |m| && 0 <= j < |m| && i != j
          ensures Iou(m[i], m[j]) <= threshold
        {
          if i == |kept| {
            assert m[i] == x && m[j] == kept[j];
            assert Iou(x, kept[j]) <= threshold;
          } else if j == |kept| {
            assert m[j] == x && m[i] == kept[i];
            assert Iou(x, kept[i]) <= threshold;
            IouBounds(kept[i], x);
          } else {
            assert m[i] == kept[i] && m[j] == kept[j];
            assert Iou(kept[i], kept[j]) <= threshold;
          }
        }
      }
    }
  }

  /** The pass over a prefix yields a prefix of the whole pass: decisions are
      never revisited. */
  lemma {:induction false} GreedyPrefix(s: seq<Roi>, n: nat, threshold: real)
    requires n <= |s|
    ensures Greedy(s[..n], threshold) <= Greedy(s, threshold)
    decreases |s| - n
  {
    if n < |s| {
      GreedyPrefix(s[..|s| - 1], n, threshold);
      assert s[..|s| - 1][..n] == s[..n];
    } else {
      assert s[..n] == s;
    }
  }

  /** Every dropped ROI overlaps, by more than the threshold, an ROI kept
      before it was considered. */
  lemma GreedyCovers(s: seq<Roi>, threshold: real, i: nat)
    requires i < |s|
    ensures Greedy(s[..i], threshold) <= Greedy(s, threshold)
    ensures var m := Greedy(s, threshold); var before := Greedy(s[..i], threshold);
      (exists k :: 0 <= k < |m| && m[k] == s[i])
      || (exists k :: 0 <= k < |before| && Iou(s[i], before[k]) > threshold)
  {
    GreedyPrefix(s, i + 1, threshold);
    GreedyPrefix(s, i, threshold);
    var before := Greedy(s[..i], threshold);
    assert s[..i + 1][..i] == s[..i];
    var m := Greedy(s, threshold);
    if !OverlapsKept(s[i], before, threshold) {
      assert m[|before|] == s[i];
    }
  }

  /** `a` is a subsequence of `b`. */
  predicate IsSubsequence(a: seq<Roi>, b: seq<Roi>)
    decreases |b|
  {
    if |a| == 0 then true
    else if |b| == 0 then false
    else if a[|a| - 1] == b[|b| - 1] then IsSubsequence(a[..|a| - 1], b[..|b| - 1])
    else IsSubsequence(a, b[..|b| - 1])
  }

  lemma {:induction false} SubsequenceDropLast(a: seq<Roi>, b: seq<Roi>)
    requires |a| > 0 && IsSubsequence(a, b)
    ensures IsSubsequence(a[..|a| - 1], b)
    decreases |b|
  {
    var a' := a[..|a| - 1];
    var b' := b[..|b| - 1];
    if |a'| > 0 {
      if a[|a| - 1] == b[|b| - 1] {
        if a'[|a'| - 1] == b[|b| - 1] {
          SubsequenceDropLast(a', b');
        }
      } else {
        SubsequenceDropLast(a, b');
        if a'[|a'| - 1] == b[|b| - 1] {
          SubsequenceDropLast(a', b');
        }
      }
    }
  }

  lemma SubsequenceExtend(a: seq<Roi>, b: seq<Roi>, x: Roi)
    requires IsSubsequence(a, b)
    ensures IsSubsequence(a, b + [x])
  {
    assert (b + [x])[..|b|] == b;
    if |a| > 0 && a[|a| - 1] == x {
      SubsequenceDropLast(a, b);
    }
  }

  /** The kept ROIs are a subsequence of the sorted list. */
  lemma {:induction false} GreedySubsequence(s: seq<Roi>, threshold: real)
    ensures IsSubsequence(Greedy(s, threshold), s)
  {
    if |s| > 0 {
      var init := s[..|s| - 1];
      var x := s[|s| - 1];
      GreedySubsequence(init, threshold);
      var kept := Greedy(init, threshold);
      if OverlapsKept(x, kept, threshold) {
        SubsequenceExtend(kept, init, x);
        assert init + [x] == s;
      } else {
        assert (kept + [x])[..|kept|] == kept;
      }
    }
  }

  /** Every kept ROI comes from the input. */
  lemma {:induction false} GreedyElements(s: seq<Roi>, threshold: real)
    ensures forall k :: 0 <= k < |Greedy(s, threshold)| ==> Greedy(s, threshold)[k] in s
  {
    if |s| > 0 {
      GreedyElements(s[..|s| - 1], threshold);
    }
  }

  /** The pass keeps the area order of a sorted input. */
  lemma {:induction false} GreedySorted(s: seq<Roi>, threshold: real)
    requires SortedByAreaDesc(s)
    ensures SortedByAreaDesc(Greedy(s, threshold))
  {
    if |s| > 0 {
      var init := s[..|s| - 1];
      GreedySorted(init, threshold);
      GreedyElements(init, threshold);
      var kept := Greedy(init, threshold);
      forall k | 0 <= k < |kept| ensures Area(kept[k]) >= Area(s[|s| - 1]) {
        var j :| 0 <= j < |init| && init[j] == kept[k];
      }
    }
  }

  /** A list with no overlapping pair passes through unchanged. */
  lemma {:induction false} GreedyKeepsSeparated(s: seq<Roi>, threshold: real)
    requires Separated(s, threshold)
    ensures Greedy(s, threshold) == s
  {
    if |s| > 0 {
      var init := s[..|s| - 1];
      assert Separated(init, threshold) by {
        forall i, j | 0 <= i < |init| && 0 <= j < |init| && i != j
          ensures Iou(init[i], init[j]) <= threshold
        {
          assert init[i] == s[i] && init[j] == s[j];
        }
      }
      GreedyKeepsSeparated(init, threshold);
      forall k | 0 <= k < |init| ensures Iou(s[|s| - 1], init[k]) <= threshold {
        assert init[k] == s[k];
      }
      assert !OverlapsKept(s[|s| - 1], init, threshold);
      assert s[..|s| - 1] + [s[|s| - 1]] == s;
    }
  }

  /** The merged list: the greedy pass over the stably sorted input. */
  function Merged(rois: seq<Roi>, threshold: real): seq<Roi> {
    Greedy(SortByArea(rois), threshold)
  }

  /** The merged list is a subsequence of the stably sorted input, and no
      two of its ROIs overlap by more than the threshold. */
  lemma MergeShape(rois: seq<Roi>, threshold: real)
    ensures IsSubsequence(Merged(rois, threshold), SortByArea(rois))
    ensures SortedByAreaDesc(Merged(rois, threshold))
    ensures Separated(Merged(rois, threshold), threshold)
  {
    GreedySubsequence(SortByArea(rois), threshold);
    GreedySorted(SortByArea(rois), threshold);
    GreedyPairwise(SortByArea(rois), threshold);
  }

  /** Merging an already merged list at the same threshold returns it
      unchanged. */
  lemma MergeIdempotent(rois: seq<Roi>, threshold: real)
    ensures Merged(Merged(rois, threshold), threshold) == Merged(rois, threshold)
  {
    var m := Merged(rois, threshold);
    MergeShape(rois, threshold);
    SortSorted(m);
    GreedyKeepsSeparated(m, threshold);
  }

  // ------------------------------------------------- detect_all renaming

  /** The name of the i-th merged detection: auto_01, auto_02, ... */
  function AutoDetectName(i: nat): string {
    "auto_" + ZeroPad(i + 1, 2)
  }

  /** Different positions get different names. */
  lemma AutoDetectNameInjective(i: nat, j: nat)
    requires AutoDetectName(i) == AutoDetectName(j)
    ensures i == j
  {
    PrefixedZeroPadInjective("auto_", i + 1, j + 1, 2);
  }

  /** Renames the merged detections in order. */
  function RenameAuto(merged: seq<Roi>): (r: seq<Roi>)
    ensures |r| == |merged|
    ensures forall i :: 0 <= i < |r| ==> r[i] == merged[i].(name := AutoDetectName(i))
  {
    seq(|merged|, i requires 0 <= i < |merged| => merged[i].(name := AutoDetectName(i)))
  }

  /** `detect_all`: the four detectors' outputs, concatenated, merged and
      renamed. */
  function DetectAll(circles: seq<Roi>, redDots: seq<Roi>, buttons: seq<Roi>, icons: seq<Roi>,
                     threshold: real): seq<Roi> {
    RenameAuto(Merged(circles + redDots + buttons + icons, threshold))
  }

  /** The detections of `detect_all` have pairwise distinct names, and
      there are at most as many detections as candidates. */
  lemma DetectAllNames(circles: seq<Roi>, redDots: seq<Roi>, buttons: seq<Roi>, icons: seq<Roi>,
                       threshold: real)
    ensures var r := DetectAll(circles, redDots, buttons, icons, threshold);
      |r| <= |circles| + |redDots| + |buttons| + |icons|
      && forall i, j :: 0 <= i < j < |r| ==> r[i].name != r[j].name
  {
    var all := circles + redDots + buttons + icons;
    var r := DetectAll(circles, redDots, buttons, icons, threshold);
    GreedySubsequence(SortByArea(all), threshold);
    SubsequenceLength(Merged(all, threshold), SortByArea(all));
    forall i, j | 0 <= i < j < |r| ensures r[i].name != r[j].name {
      assert r[i].name == AutoDetectName(i) && r[j].name == AutoDetectName(j);
      if AutoDetectName(i) == AutoDetectName(j) {
        AutoDetectNameInjective(i, j);
      }
    }
  }

  lemma {:induction false} SubsequenceLength(a: seq<Roi>, b: seq<Roi>)
    requires IsSubsequence(a, b)
    ensures |a| <= |b|
    decreases |b|
  {
    if |a| > 0 {
      if a[|a| - 1] == b[|b| - 1] {
        SubsequenceLength(a[..|a| - 1], b[..|b| - 1]);
      } else {
        SubsequenceLength(a, b[..|b| - 1]);
      }
    }
  }

  // ------------------------------------------------------ red-dot box

  /** The red-dot box around a circle of centre (cx, cy) and radius r with
      a 2-pixel margin, clamped to an image of size imgW x imgH. */
  function RedDotBox(cx: int, cy: int, radius: int, imgW: int, imgH: int, id: string, index: nat): (b: Roi)
    ensures b.x >= 0 && b.y >= 0 && b.x + b.width <= imgW && b.y + b.height <= imgH
    ensures b.width <= 2 * radius + 4 && b.height <= 2 * radius + 4
    ensures cx - radius - 2 >= 0 && cx + radius + 2 <= imgW ==> b.x == cx - radius - 2 && b.width == 2 * radius + 4
    ensures cy - radius - 2 >= 0 && cy + radius + 2 <= imgH ==> b.y == cy - radius - 2 && b.height == 2 * radius + 4
  {
    var x := if cx - radius - 2 > 0 then cx - radius - 2 else 0;
    var y := if cy - radius - 2 > 0 then cy - radius - 2 else 0;
    var w := if imgW - x < radius * 2 + 4 then imgW - x else radius * 2 + 4;
    var h := if imgH - y < radius * 2 + 4 then imgH - y else radius * 2 + 4;
    DefaultRoi(id).(x := x, y := y, width := w, height := h, name := "red_dot_" + ZeroPad(index + 1, 2))
  }

  // ------------------------------------------- component choice at a point

  /** One row of the connected-component statistics table. */
  datatype ComponentStat = ComponentStat(x: int, y: int, w: int, h: int, area: int)

  /** What the connected-component labelling promises: a label raster of the
      image's size whose labels index the statistics table. */
  predicate ComponentTable(labels: seq<seq<int>>, stats: seq<ComponentStat>, w: int, h: int) {
    w >= 1 && h >= 1 && |labels| == h && IsGrid(labels, w)
    && forall r, c :: 0 <= r < h && 0 <= c < w ==> 0 <= labels[r][c] < |stats|
  }

  /** Single-component mode of `detect_at_point`: the component under the
      (clamped) seed, unless it is the background or smaller than 20 pixels. */
  function PickComponent(labels: seq<seq<int>>, stats: seq<ComponentStat>, w: int, h: int,
                         x: int, y: int, id: string): (r: Option<Roi>)
    requires ComponentTable(labels, stats, w, h)
    ensures var sx := ClampInto(x, w); var sy := ClampInto(y, h);
      (r.None? <==> |stats| < 2 || labels[sy][sx] == 0 || stats[labels[sy][sx]].area < 20)
      && (r.Some? ==> var c := stats[labels[sy][sx]];
           r.value.x == c.x && r.value.y == c.y && r.value.width == c.w && r.value.height == c.h)
  {
    var sx := ClampInto(x, w);
    var sy := ClampInto(y, h);
    if |stats| < 2 then None
    else
      var clicked := labels[sy][sx];
      if clicked == 0 then None
      else
        var c := stats[clicked];
        if c.area < 20 then None
        else Some(DefaultRoi(id).(x := c.x, y := c.y, width := c.w, height := c.h, name := "color_blob"))
  }

  /** A component that the merge-all mode keeps. */
  predicate Kept(stats: seq<ComponentStat>, i: int) {
    1 <= i < |stats| && stats[i].area >= 20
  }

  /** Merge-all mode of `detect_at_point`: the bounding box of every
      non-background component of at least 20 pixels, accumulated from
      (w, h, 0, 0); None when there is none. */
  method UnionOfComponents(stats: seq<ComponentStat>, w: int, h: int, id: string)
    returns (r: Option<Roi>)
    ensures r.None? <==> forall i :: 0 <= i < |stats| ==> !Kept(stats, i)
    ensures r.Some? ==> forall i :: 0 <= i < |stats| && Kept(stats, i) ==>
      r.value.x <= stats[i].x && r.value.y <= stats[i].y
      && stats[i].x + stats[i].w <= Right(r.value) && stats[i].y + stats[i].h <= Bottom(r.value)
    ensures r.Some? ==> r.value.x == w || exists i :: 0 <= i < |stats| && Kept(stats, i) && r.value.x == stats[i].x
    ensures r.Some? ==> r.value.y == h || exists i :: 0 <= i < |stats| && Kept(stats, i) && r.value.y == stats[i].y
    ensures r.Some? ==> Right(r.value) == 0 || exists i :: 0 <= i < |stats| && Kept(stats, i) && Right(r.value) == stats[i].x + stats[i].w
    ensures r.Some? ==> Bottom(r.value) == 0 || exists i :: 0 <= i < |stats| && Kept(stats, i) && Bottom(r.value) == stats[i].y + stats[i].h
  {
    if |stats| < 2 {
      return None;
    }
    var allX1, allY1, allX2, allY2 := w, h, 0, 0;
    var totalArea := 0;
    var validCount := 0;
    var labelId := 1;
    while labelId < |stats|
      invariant 1 <= labelId <= |stats|
      invariant validCount >= 0
      invariant validCount == 0 <==> forall i :: 0 <= i < labelId ==> !Kept(stats, i)
      invariant forall i :: 0 <= i < labelId && Kept(stats, i) ==>
        allX1 <= stats[i].x && allY1 <= stats[i].y && stats[i].x + stats[i].w <= allX2 && stats[i].y + stats[i].h <= allY2
      invariant allX1 == w || exists i :: 0 <= i < labelId && Kept(stats, i) && allX1 == stats[i].x
      invariant allY1 == h || exists i :: 0 <= i < labelId && Kept(stats, i) && allY1 == stats[i].y
      invariant allX2 == 0 || exists i :: 0 <= i < labelId && Kept(stats, i) && allX2 == stats[i].x + stats[i].w
      invariant allY2 == 0 || exists i :: 0 <= i < labelId && Kept(stats, i) && allY2 == stats[i].y + stats[i].h
    {
      var c := stats[labelId];
      if c.area >= 20 {
        assert Kept(stats, labelId);
        allX1 := if c.x < allX1 then c.x else allX1;
        allY1 := if c.y < allY1 then c.y else allY1;
        allX2 := if c.x + c.w > allX2 then c.x + c.w else allX2;
        allY2 := if c.y + c.h > allY2 then c.y + c.h else allY2;
        totalArea := totalArea + c.area;
        validCount := validCount + 1;
      } else {
        assert !Kept(stats, labelId);
      }
      labelId := labelId + 1;
    }
    if validCount == 0 {
      return None;
    }
    r := Some(DefaultRoi(id).(x := allX1, y := allY1, width := allX2 - allX1, height := allY2 - allY1,
                              name := "color_merged"));
  }
}
