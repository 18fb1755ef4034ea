# Android script ROI tool — a verified model of its core

The tool loads a screenshot, lets the user mark regions of interest (ROIs),
and exports them:
- as transparent PNG crops;
- as a JSON record;
- as Auto.js or Python script snippets.

ROIs can be marked in three ways:
- by hand, drawing a rectangle on the canvas;
- by clicking on a colour blob;
- by merging superpixels.

Screenshots come from an Android emulator (LDPlayer) through `adb`.

This project models the logic around the image libraries, in Dafny:
- the ROI value and the ROI collection;
- IoU de-duplication of detections;
- component selection at a clicked point;
- the superpixel label lookups and the merge tool's selection state;
- the interactive-cut contour policy;
- the canvas geometry and its Ctrl-key state machine;
- the main window's naming, sanitising and pending-crop bookkeeping;
- the `adb devices` parser and the emulator port/device choice;
- the exporters' text.

Everything the image libraries compute enters as an input:
- component statistics tables;
- label rasters;
- contour records;
- estimator label maps.

Each source file has one module:

| module | file |
|---|---|
| `RoiModel` | src/models/roi.py |
| `AutoDetect` | src/core/auto_detect.py |
| `Superpixel` | src/core/superpixel_segment.py |
| `SmartSegment` | src/core/smart_segment.py |
| `ImageCanvas` | src/ui/image_canvas.py |
| `MainWindow` | src/ui/main_window.py |
| `Screenshot` | src/core/screenshot.py |
| `ExportManager` | src/core/export_manager.py |

Three helper modules support them:
- `Text` holds Python string behaviour: `strip`, `split`, `join`, `in`, `lower`, integer formatting and `os.path.basename`.
- `QtGeometry` holds `QRect`/`QPoint` semantics.
- `Grid` holds rasters and Python slice bounds.

Two kinds of state are modelled as classes:
- The collection, the canvas, the merge tool, the dialog, the window and the screenshot manager, whose source updates fields in place. Their methods carry `modifies` clauses.
- Loops that update variables, which are methods with loop invariants. Each is proved equal to a specification function, and the function's properties are proved as lemmas.

## Model

| member | source | states |
|---|---|---|
| QtGeometry.FromXYWH | src/models/roi.py:53-55 | `QRect(x, y, w, h)` has left x, top y, width w and height h |
| QtGeometry.FromCorners | src/ui/image_canvas.py:389 | `QRect(p, q)` has top-left p and inclusive bottom-right q |
| QtGeometry.Normalized | src/ui/image_canvas.py:389 | `normalized()` gives non-negative width and height, swapping a pair of edges or keeping it; a rectangle with non-negative size is returned unchanged |
| QtGeometry.NormalizedCornersWidth | src/ui/image_canvas.py:389-392 | the normalized rectangle between two drag corners is \|dx\|+1 wide (0 when the corners are one column apart in reverse order), and likewise in height |
| QtGeometry.ContainsNormalized | src/models/roi.py:86-88 | `QRect.contains` gives the same answer on a rectangle and its normalized form; for a proper rectangle it is the inclusive test left ≤ x ≤ right, top ≤ y ≤ bottom |
| QtGeometry.Translated | src/ui/image_canvas.py:351-352 | `translate(dx, dy)` keeps the size and shifts the corner by (dx, dy) |
| QtGeometry.MovedTo | src/ui/image_canvas.py:360 | `moveTo(x, y)` keeps the size and puts the corner at (x, y) |
| Grid.SliceBound | src/core/superpixel_segment.py:222 | a Python slice bound in 0..n: taken as is when in range, clipped to n above, counted from the end when in -n..-1, clipped to 0 below that |
| Grid.SliceRange | src/core/smart_segment.py:173-174 | the slice `[start:stop]` of a length-n axis selects 0 ≤ lo ≤ hi ≤ n |
| Grid.ClampInto | src/core/auto_detect.py:307-309 | `max(0, min(v, n-1))` lies in 0..n-1 for n ≥ 1, leaves an in-range v alone and gives n-1 above |
| RoiModel.SetRect | src/models/roi.py:57-64 | the `rect` setter changes only x, y, width and height |
| RoiModel.RectRoundTrip | src/models/roi.py:52-64 | setting a rect then reading `rect` returns it, and setting the rect read from an ROI changes nothing |
| RoiModel.Center | src/models/roi.py:66-69 | the centre is (x + width//2, y + height//2), stated as the floor-halving inequalities |
| RoiModel.DerivedGeometry | src/models/roi.py:71-88 | `right`/`bottom` are one past QRect's inclusive right()/bottom(); `area` is the QRect's width × height; `contains` is x ≤ px < right, y ≤ py < bottom; a non-empty ROI contains its centre |
| RoiModel.Translate | src/models/roi.py:90-94 | `translate` adds dx, dy to x, y and changes no other field |
| RoiModel.TranslateProperties | src/models/roi.py:90-94 | translating back undoes a translation; area is kept; containment moves with the ROI; it agrees with QRect's translate |
| RoiModel.Copy | src/models/roi.py:100-111 | `copy` keeps the geometry, colour and tags, names the copy name+"_copy", and resets every other field to its default with a new id |
| RoiModel.ToDictEntry | src/models/roi.py:113-147 | a key is in the dict exactly when `to_dict` emits it for this ROI, and then it holds that field's value (the centre as a two-element list) |
| RoiModel.ToDictFixedKeys | src/models/roi.py:116-126 | the dict always has id, name, node_name, roi_type, x, y, width, height and center, and never color, tags or image_path |
| RoiModel.ToDictTypeKeys | src/models/roi.py:129-135 | image_name and image_action are there exactly for the image type; action exactly for any other type |
| RoiModel.ToDictActionKeys | src/models/roi.py:133-145 | the click_* keys are there exactly for a non-image ROI whose action is "click"; the swipe_* keys exactly for one whose action is "swipe" |
| RoiModel.FromDictDefaults | src/models/roi.py:153-178 | an absent id, name, roi_type, action, image_action or color loads as a new id, "", "image", "", "detect" or "#00FF00" |
| RoiModel.FromDictSettingDefaults | src/models/roi.py:163-169 | an absent click_mode, click_count, click_interval, swipe_direction or swipe_speed loads as "single", 1, 500, "top_to_bottom" or 400 |
| RoiModel.FromDictEmpty | src/models/roi.py:149-183 | the empty dict loads as the default ROI with the new id |
| RoiModel.DictRoundTrip | src/models/roi.py:113-183 | `from_dict(to_dict(r))` is r with the fields to_dict omitted reset to their defaults |
| RoiModel.GeometryRoundTrip | src/models/roi.py:121-124 | the round trip reproduces x, y, width and height |
| RoiModel.IdentityRoundTrip | src/models/roi.py:117-120 | the round trip reproduces id, name, node_name and roi_type |
| RoiModel.ImageSettingsRoundTrip | src/models/roi.py:129-135 | the round trip keeps image_name and image_action of an image ROI and the action of any other, and resets the ones not saved |
| RoiModel.ClickSettingsRoundTrip | src/models/roi.py:138-141 | the round trip keeps the click settings of a click region and resets them to "single", 1, 500 otherwise |
| RoiModel.SwipeSettingsRoundTrip | src/models/roi.py:142-144 | the round trip keeps the swipe settings of a swipe region and resets them to "top_to_bottom", 400 otherwise |
| RoiModel.UnsavedFieldsRoundTrip | src/models/roi.py:178-182 | colour, tags and image_path are not saved, so they come back as their defaults |
| RoiModel.ToDictCanonical | src/models/roi.py:113-147 | resetting the fields `to_dict` does not emit leaves the dict unchanged |
| RoiModel.SaveLoadSave | src/models/roi.py:113-183 | saving a reloaded ROI gives exactly the dict saved first |
| RoiModel.AutoNameDigits | src/models/roi.py:199-201 | the automatic name is "ROI_" followed by decimal digits that read back as the counter |
| RoiModel.ZeroPadValue | src/models/roi.py:201 | the zero-padded counter reads back as the counter |
| RoiModel.PrefixedZeroPadInjective | src/models/roi.py:201 | one prefix followed by two zero-padded numbers of the same width is equal only when the numbers are |
| RoiModel.AutoNameInjective | src/models/roi.py:199-201 | different counters give different automatic names |
| RoiModel.FirstContaining | src/models/roi.py:239-246 | the lowest index whose ROI contains the point, or -1 when none does |
| RoiModel.LastContaining | src/ui/image_canvas.py:475-480 | the highest index whose ROI contains the point, or -1 when none does |
| RoiModel.RemoveAt | src/models/roi.py:208 | `del s[i]` shortens by one, keeps the prefix and shifts the suffix down |
| RoiModel.SelectionFollowsRoi | src/models/roi.py:205-214 | after a removal the selection stays in range, is -1 exactly when it was -1 or was the removed index, and otherwise still designates the same ROI |
| RoiModel.NextName | src/models/roi.py:199-201 | an unnamed ROI gets the next automatic name and bumps the counter; a named one and the counter are left alone |
| RoiModel.RoiCollection.constructor | src/models/roi.py:192-195 | a new collection is empty, with no selection and counter 0 |
| RoiModel.RoiCollection.Add | src/models/roi.py:197-203 | appends the (named) ROI at the end, returns the old length, and keeps the selection invariant |
| RoiModel.RoiCollection.Remove | src/models/roi.py:205-214 | an out-of-range index returns False and changes nothing; otherwise deletes exactly that ROI and adjusts the selection, keeping -1 ≤ selected < len |
| RoiModel.RoiCollection.RemoveSelected | src/models/roi.py:216-220 | removes the selected ROI and clears the selection, or returns False and changes nothing |
| RoiModel.RoiCollection.Get | src/models/roi.py:222-226 | the ROI at an in-range index, else None |
| RoiModel.RoiCollection.GetSelected | src/models/roi.py:228-230 | the selected ROI when the selection is in range, else None |
| RoiModel.RoiCollection.Select | src/models/roi.py:232-237 | selects an in-range index, else clears the selection; the list is unchanged |
| RoiModel.RoiCollection.SelectByPoint | src/models/roi.py:239-246 | selects and returns the first ROI containing the point, else -1 |
| RoiModel.RoiCollection.CopySelected | src/models/roi.py:248-258 | with a selection, appends its copy moved by (20, 20) and selects it; otherwise changes nothing |
| RoiModel.RoiCollection.Clear | src/models/roi.py:260-264 | empties the list, clears the selection and resets the counter |
| RoiModel.RoiCollection.MoveRoi | src/models/roi.py:326-330 | translates exactly the ROI at an in-range index; an out-of-range index changes nothing |
| RoiModel.RoiCollection.ToList | src/models/roi.py:332-334 | the i-th dict is `to_dict` of the i-th ROI |
| RoiModel.RoiCollection.FromList | src/models/roi.py:336-340 | clears, then stores `NameAll` of the loaded entries: each entry as `from_dict` loads it, the unnamed ones named ROI_001, ROI_002, … in order; the counter ends at the number of unnamed entries and nothing is selected |
| RoiModel.Loaded | src/models/roi.py:338-340 | entry i of the loaded list is `from_dict` of data entry i, and there are as many as there are data entries |
| RoiModel.NameAllAt | src/models/roi.py:197-203 | the i-th ROI of a run of adds is named as `add` names it with the counter advanced by the unnamed ROIs before it |
| RoiModel.NameAllNames | src/models/roi.py:197-203 | in a run of adds starting at counter c, an unnamed ROI with k unnamed ones before it is called `AutoName(c + k + 1)`, a named one keeps its name, and no other field changes |
| RoiModel.NamedFields | src/models/roi.py:197-203 | `add` changes only the name: an empty name becomes `AutoName(counter + 1)`, a non-empty one is kept |
| AutoDetect.IouBounds | src/core/auto_detect.py:411-424 | IoU is symmetric and lies in [0, 1] |
| AutoDetect.IouSelf | src/core/auto_detect.py:411-424 | a box with positive area has IoU 1 with itself |
| AutoDetect.IouDisjoint | src/core/auto_detect.py:418-419 | boxes apart on either axis (shared edges included) have IoU 0 |
| AutoDetect.InsertByArea | src/core/auto_detect.py:395 | inserting into the area ordering adds exactly one element |
| AutoDetect.InsertSorted | src/core/auto_detect.py:395 | insertion keeps the list sorted by area, descending |
| AutoDetect.SortByArea | src/core/auto_detect.py:395 | `sorted(..., key=area, reverse=True)` is a permutation sorted by area, descending |
| AutoDetect.SortStable | src/core/auto_detect.py:395 | the sort is stable: ROIs of equal area keep their input order |
| AutoDetect.SortSorted | src/core/auto_detect.py:395 | sorting an already sorted list changes nothing |
| AutoDetect.ScanKept | src/core/auto_detect.py:399-404 | the inner scan sets should_merge exactly when some kept ROI has IoU above the threshold with the current one |
| AutoDetect.MergeOverlapping | src/core/auto_detect.py:389-409 | the keep/drop loop computes the greedy pass over the area-sorted input; the empty input gives [] |
| AutoDetect.GreedyPairwise | src/core/auto_detect.py:398-407 | every pair of kept ROIs has IoU ≤ the threshold |
| AutoDetect.GreedyCovers | src/core/auto_detect.py:398-407 | every ROI is either kept or has IoU > threshold with an ROI kept before it |
| AutoDetect.GreedySubsequence | src/core/auto_detect.py:397-407 | the kept ROIs are a subsequence of the sorted input |
| AutoDetect.GreedyElements | src/core/auto_detect.py:397-407 | every kept ROI is one of the inputs |
| AutoDetect.GreedySorted | src/core/auto_detect.py:397-407 | the kept ROIs stay sorted by area |
| AutoDetect.GreedyKeepsSeparated | src/core/auto_detect.py:397-407 | a list already pairwise under the threshold is kept whole |
| AutoDetect.MergeShape | src/core/auto_detect.py:389-409 | the merge result is a subsequence of the stably sorted input, sorted, and pairwise under the threshold |
| AutoDetect.MergeIdempotent | src/core/auto_detect.py:389-409 | merging a merged list again at the same threshold returns it unchanged |
| AutoDetect.AutoDetectNameInjective | src/core/auto_detect.py:281-282 | the names auto_01, auto_02, … differ by position |
| AutoDetect.RenameAuto | src/core/auto_detect.py:280-282 | the i-th merged ROI is renamed auto_{i+1:02d} and nothing else changes |
| AutoDetect.DetectAllNames | src/core/auto_detect.py:252-284 | `detect_all` returns at most as many ROIs as the detectors found, with pairwise distinct names |
| AutoDetect.RedDotBox | src/core/auto_detect.py:134-142 | the red-dot box lies inside the image, is at most 2r+4 on a side, and is exactly the centre ± (r+2) when that fits |
| AutoDetect.PickComponent | src/core/auto_detect.py:305-378 | with the seed clamped into the image, the result is None iff only the background exists, the seed's label is 0 or its component is under 20 pixels; otherwise it is that component's box |
| AutoDetect.UnionOfComponents | src/core/auto_detect.py:329-354 | None iff no component of label ≥ 1 has area ≥ 20; otherwise the box contains every such component and each edge is attained by one of them (or is the initial accumulator) |
| Superpixel.WithLabels | src/core/superpixel_segment.py:226-229 | keeps exactly the regions whose label is in the set |
| Superpixel.FirstWithLabel | src/core/superpixel_segment.py:199-203 | the first stored region with the label, None iff there is none |
| Superpixel.LabelsIn | src/core/superpixel_segment.py:222-223 | `set(np.unique(labels[r0:r1, c0:c1]))` is exactly the labels occurring in the window |
| Superpixel.SliceAsWritten | src/core/superpixel_segment.py:211-222 | the bounds numpy takes from the ordered, one-sided clamp always form a valid range of the axis, so the lookup as written never fails |
| Superpixel.SliceIntended | src/core/superpixel_segment.py:211-219 | the in-image part of the span between the two coordinates |
| Superpixel.RectLabels | src/core/superpixel_segment.py:205-223 | the labels of exactly the pixels inside both the image and the rectangle, whatever the corner order |
| Superpixel.SliceAgree | src/core/superpixel_segment.py:211-222 | as written and intended agree when the larger coordinate is non-negative |
| Superpixel.RectLabelsAgree | src/core/superpixel_segment.py:205-223 | so the rectangle lookup as written is correct unless the rectangle lies wholly left of or above the image |
| Superpixel.RectLabelsWrapAround | src/core/superpixel_segment.py:216-222 | a rectangle wholly above-left of a 2×2 image selects labels as written (the slice wraps), while the intended lookup selects none |
| Superpixel.Segmenter.constructor | src/core/superpixel_segment.py:41-42 | the segmenter holds the label raster (or none) and the region list a segmentation left |
| Superpixel.Segmenter.RegionAtPoint | src/core/superpixel_segment.py:190-203 | a region is returned only for a point inside the raster, and it is a stored region carrying labels[y][x]; one is returned whenever such a region exists |
| Superpixel.Segmenter.GetRegionsInRect | src/core/superpixel_segment.py:205-231 | returns, in stored order, the regions whose label occurs in the clamped rectangle (the corrected `RectLabels`); none without a raster |
| Superpixel.Segmenter.FilterRegions | src/core/superpixel_segment.py:273-297 | returns, in stored order, exactly the regions with area ≥ min_area, area ≤ max_area when max_area is truthy, and bbox width and height ≥ min_wh |
| Superpixel.Segmenter.BoundaryMask | src/core/superpixel_segment.py:327-346 | a 10×10 zero mask without a raster; otherwise an h×w mask that is 255 exactly at interior pixels with a 4-neighbour of a different label |
| Superpixel.MergeRegions | src/core/superpixel_segment.py:233-271 | None for no regions; for one, an unnamed ROI on the region's own box; for several, an ROI on the merged contour's box (x, y, width, height) named superpixel_merge_n, or None when there is no contour; every other field is a new ROI's default |
| Superpixel.Admissible | src/core/superpixel_segment.py:288-297 | exactly the regions that pass the three filters, in order |
| Superpixel.BoundaryFrame | src/core/superpixel_segment.py:336-344 | the first and last rows and columns are never boundary, nor is any pixel of a one-label raster |
| Superpixel.Toggle | src/core/superpixel_segment.py:400-404 | the additive click flips the label's membership and nothing else |
| Superpixel.ToggleTwice | src/core/superpixel_segment.py:400-404 | two additive clicks on the same region restore the selection |
| Superpixel.Absorbed | src/core/superpixel_segment.py:459-475 | the regions a group absorbs are later, unmerged, similar in colour and close enough, in increasing order |
| Superpixel.Grouping | src/core/superpixel_segment.py:451-475 | the groups of `auto_merge_all` name only existing regions |
| Superpixel.GroupingShape | src/core/superpixel_segment.py:451-475 | each group starts with an unmerged region under min_area and continues with later unmerged regions passing the colour and distance tests |
| Superpixel.GroupingDisjoint | src/core/superpixel_segment.py:448-475 | no region joins two groups |
| Superpixel.RegionsOf | src/core/superpixel_segment.py:456-474 | the regions of a group, one per index |
| Superpixel.MergeTool.constructor | src/core/superpixel_segment.py:374-377 | a new merge tool has an empty selection and no merged ROIs |
| Superpixel.MergeTool.ClickSelect | src/core/superpixel_segment.py:383-409 | a miss clears the selection unless additive; a non-additive hit makes the selection exactly {label}; an additive hit toggles the label |
| Superpixel.MergeTool.RectSelect | src/core/superpixel_segment.py:411-416 | adds the labels of the regions in the rectangle and removes none |
| Superpixel.MergeTool.GetSelectedRegions | src/core/superpixel_segment.py:418-420 | exactly the stored regions whose label is selected |
| Superpixel.MergeTool.MergeSelected | src/core/superpixel_segment.py:422-432 | under two selected regions, None with nothing changed; a merged ROI is appended and the selection cleared; a failed merge changes nothing |
| Superpixel.MergeTool.AbsorbSimilar | src/core/superpixel_segment.py:456-475 | the inner loop collects exactly the group of region i and marks exactly its members as merged |
| Superpixel.MergeTool.MergeGroup | src/core/superpixel_segment.py:456-480 | one outer step emits the group's ROI only for a group of two or more that merges |
| Superpixel.MergeTool.AutoMergeAll | src/core/superpixel_segment.py:434-482 | the loop returns the ROIs of the specified greedy grouping, in order |
| SmartSegment.HintRect | src/core/smart_segment.py:50-54 | the hint rectangle lies in the image, is at most 2e on a side, contains an in-image seed, and is exactly seed ± e when that fits |
| SmartSegment.Collapse | src/core/smart_segment.py:66 | labels 0 and 2 become 0, labels 1 and 3 become 1 |
| SmartSegment.ForegroundMask | src/core/smart_segment.py:66-70 | the mask passed to the contour finder is 255 exactly where the label is 1 or 3 (or any other non-background value) and 0 elsewhere |
| SmartSegment.Trunc | src/core/smart_segment.py:100-101 | `int()` truncates toward zero |
| SmartSegment.BestHolding | src/core/smart_segment.py:79-88 | among contours of area ≥ 100 holding the seed, the first of strictly largest area; None iff there is none |
| SmartSegment.BestNearest | src/core/smart_segment.py:91-105 | among contours of area ≥ 100 with m00 ≠ 0, the first nearest by truncated centroid; None iff there is none |
| SmartSegment.Choose | src/core/smart_segment.py:76-108 | a chosen contour always has area ≥ 100; none is chosen iff no contour qualifies in either pass |
| SmartSegment.PickHolding | src/core/smart_segment.py:76-88 | the first loop computes BestHolding |
| SmartSegment.PickNearest | src/core/smart_segment.py:91-105 | the fallback loop computes BestNearest |
| SmartSegment.SegmentChoice | src/core/smart_segment.py:38-123 | without estimator labels the result is None; otherwise None iff no contour qualifies, and else the ROI is the box of a qualifying contour that holds the clamped seed whenever one does, with its filled mask |
| SmartSegment.SegmentAtPoint | src/core/smart_segment.py:21-127 | the method computes that specification, catching the estimator's failure as None |
| SmartSegment.Threshold | src/core/smart_segment.py:154 | the threshold at 127 gives 255 above it and 0 otherwise |
| SmartSegment.SegmentWithRefinement | src/core/smart_segment.py:129-156 | None exactly when segment_at_point is; otherwise the same ROI with a re-thresholded mask of only 0 and 255 |
| SmartSegment.TransparentCrop | src/core/smart_segment.py:158-185 | None (the colour conversion's failure) exactly when the row or column slice is empty; otherwise a fresh image of the sliced size whose colour channels are the image's pixels and whose alpha is the mask's, for colour and grey inputs |
| ImageCanvas.ConstrainRectAsWritten | src/ui/image_canvas.py:410-423 | the rectangle as written stays inside max(5, image size) on each axis |
| ImageCanvas.ConstrainAsWrittenShrinks | src/ui/image_canvas.py:418-423 | as written, a rectangle already well inside the image loses one column and one row |
| ImageCanvas.ConstrainAsWrittenExample | src/ui/image_canvas.py:418-423 | as written, QRect(10, 10, 20, 20) in a 100×100 image becomes QRect(10, 10, 19, 19) |
| ImageCanvas.ConstrainRect | src/ui/image_canvas.py:410-423 | the corrected clamp keeps x, y ≥ 0 and x+w, y+h inside max(5, image size), leaves a fitting rectangle unchanged, and keeps a 5×5 rectangle non-empty |
| ImageCanvas.ConstrainIdempotent | src/ui/image_canvas.py:410-423 | constraining twice is constraining once |
| ImageCanvas.ResizedRect | src/ui/image_canvas.py:430-452 | each of the eight handles moves exactly the edges it lies on by the drag delta; any other handle moves nothing |
| ImageCanvas.ClampTo | src/ui/image_canvas.py:358-359 | `max(0, min(v, hi))` is in 0..hi, is 0 for a negative bound, and keeps an in-range v |
| ImageCanvas.Canvas.constructor | src/ui/image_canvas.py:46-95 | a new canvas is in select/manual mode with an empty collection, nothing in progress and Ctrl released |
| ImageCanvas.Canvas.SetMode | src/ui/image_canvas.py:190-196 | sets the mode; entering draw mode clears the selection and signals it |
| ImageCanvas.Canvas.HandleManualCtrl | src/ui/image_canvas.py:132-146 | pressing Ctrl enters draw mode; releasing it returns to select mode only when nothing is being drawn |
| ImageCanvas.Canvas.HandleSuperpixelCtrl | src/ui/image_canvas.py:148-161 | records Ctrl; on release emits the pending labels only when there are some |
| ImageCanvas.Canvas.HandleAutoDetectCtrl | src/ui/image_canvas.py:163-177 | records Ctrl; on release emits the temporary ROI once and clears it |
| ImageCanvas.Canvas.OnCtrlChanged | src/ui/image_canvas.py:123-130 | under each crop mode, the full effect of that mode's handler: manual press enters draw mode (clearing the selection and emitting -1 when it was not already in draw mode), manual release returns to select mode unless a rectangle is being drawn; superpixel records Ctrl and emits pending labels on release; auto_detect records Ctrl and emits the pending detection once on release, dropping it; any other crop mode changes nothing; the ROIs and the name counter never change |
| ImageCanvas.Canvas.CheckCtrlState | src/ui/image_canvas.py:115-121 | the new Ctrl state is recorded; without a change nothing else changes; on a change, the full effect of the crop mode's handler as `OnCtrlChanged` states it (mode, selection, Ctrl flag, pending detection and signals); the ROIs and the name counter never change |
| ImageCanvas.Canvas.FinishDrawing | src/ui/image_canvas.py:386-408 | a normalized rectangle under 5×5 is dropped; otherwise exactly one ROI, constrained by the corrected `ConstrainRect`, is appended under the name `add` gives it and selected, the name counter advances as `add` advances it, and both signals are emitted; the mode returns to select only without Ctrl in manual crop mode and is otherwise unchanged; a dropped rectangle leaves the name counter unchanged |
| ImageCanvas.Canvas.DoDrag | src/ui/image_canvas.py:343-365 | moves only the selected ROI, keeping its size, clamping x to [0, w - width] and y to [0, h - height] (0 when the bound is negative); the selection and the name counter stay unchanged |
| ImageCanvas.Canvas.DoResize | src/ui/image_canvas.py:425-461 | the selected ROI takes the resized rectangle, constrained by the corrected `ConstrainRect`, only when that rectangle is at least 5×5; otherwise nothing changes; the selection and the name counter stay unchanged |
| ImageCanvas.Canvas.SelectRoiAt | src/ui/image_canvas.py:475-480 | returns the topmost (highest-index) ROI containing the point, else -1 |
| ImageCanvas.Canvas.DeleteSelectedRoi | src/ui/image_canvas.py:536-544 | with no selection returns False and changes nothing; otherwise removes the selected ROI and signals its index; the name counter stays unchanged |
| ImageCanvas.Canvas.UndoLastRoi | src/ui/image_canvas.py:560-568 | on an empty collection returns False and changes nothing; otherwise removes the last ROI and signals its index; the name counter stays unchanged |
| MainWindow.RoiDialog.constructor | src/ui/main_window.py:50-132 | the type box shows "image"; the action box starts at "click"; the image name is the node name + ".png" when there is a node name; every setting shows its default |
| MainWindow.RoiDialog.GetConfig | src/ui/main_window.py:267-304 | all ten keys, stripped names; for an image only the image fields leave their defaults; for a region the action and only the chosen action's fields do |
| MainWindow.RoiDialog.OnNodeNameChanged | src/ui/main_window.py:209-221 | for the image type only, an empty or ".png" image name becomes text + ".png" (or "" for empty text); nothing else changes |
| MainWindow.SyncedNameFollows | src/ui/main_window.py:215-221 | a name the sync wrote still ends in ".png", so later edits keep following the node name |
| MainWindow.SuffixedInjective | src/ui/main_window.py:838 | different suffixes give different names |
| MainWindow.UniqueName | src/ui/main_window.py:832-839 | base when unused, otherwise base_k for the least k ≥ 1 not yet used; never an existing name |
| MainWindow.ReplaceIllegal | src/ui/main_window.py:1324 | each of \ / : * ? " < > \| becomes "_" and every other character is kept |
| MainWindow.SafeName | src/ui/main_window.py:1321-1327 | the file name is never empty and has no illegal character; it is the stripped replacement when that is non-empty, else crop_&lt;timestamp&gt; |
| MainWindow.StripChars | src/ui/main_window.py:1324 | stripping only removes characters |
| MainWindow.CropRect | src/ui/main_window.py:1304-1308 | the clamped crop lies inside the image, never grows, and is unchanged when it already fits |
| MainWindow.WithoutRoi | src/ui/main_window.py:909 | keeps exactly the pending crops not tied to the ROI id, in order; crops without an id are kept |
| MainWindow.AfterDelete | src/ui/main_window.py:899-911 | the corrected deletion drops exactly the crops tied to the deleted ROI |
| MainWindow.AfterDeleteAsWrittenExample | src/ui/main_window.py:899-911 | deleting the first of two ROIs drops, as written, the second ROI's crop; the corrected deletion drops the first's |
| MainWindow.NearSymmetric | src/ui/main_window.py:703-709 | the near-duplicate test is symmetric and reflexive |
| MainWindow.Window.constructor | src/ui/main_window.py:337-382 | a new window has an empty canvas collection and no pending crops |
| MainWindow.Window.DeletePendingCrop | src/ui/main_window.py:1389-1394 | ignores an out-of-range index, else removes exactly that entry and keeps the rest in order |
| MainWindow.Window.OnRoiDeleted | src/ui/main_window.py:899-911 | drops the crops tied to the ROI now at the index; an out-of-range index changes nothing |
| MainWindow.Window.DeleteSelectedAsWritten | src/ui/image_canvas.py:536-544 | canvas deletion followed by the window's handler, in source order, as AfterDeleteAsWritten |
| MainWindow.Window.DeleteSelected | src/ui/main_window.py:899-911 | the corrected deletion removes the selected ROI and exactly its pending crops |
| MainWindow.Window.HasNearDuplicate | src/ui/main_window.py:703-709 | true iff some existing ROI is within 5 of the detection in each of x, y, width and height |
| MainWindow.Window.OnPointDetected | src/ui/main_window.py:699-737 | nothing for no detection; a near duplicate in continuous mode is skipped; otherwise the ROI is added, selected and appended to the pending crops under its final name. Outside continuous mode it is typed "image" and named by the dialog's non-empty answer or auto_&lt;pending+1&gt;; in continuous mode an unnamed ROI takes the collection's next automatic name and the name counter advances as `add` advances it; in every other case the name counter stays unchanged |
| Screenshot.Somes | src/core/screenshot.py:144-150 | collecting the present results yields at most one device per line |
| Screenshot.SomesMembers | src/core/screenshot.py:144-150 | a value is collected iff some line yields it |
| Screenshot.LineResults | src/core/screenshot.py:144-150 | one per-line result per output line |
| Screenshot.ParseDevicesMembers | src/core/screenshot.py:142-152 | a device is listed iff some line after the header is non-blank, has a tab, and has status "device" with that (stripped) id |
| Screenshot.SplitRows | src/core/screenshot.py:143 | splitting a listing on newlines gives the header and one row per device |
| Screenshot.RowDevice | src/core/screenshot.py:145-150 | an "id\tdevice" row yields its id |
| Screenshot.ParseRows | src/core/screenshot.py:144-150 | parsing the rows of a listing returns its ids, in order |
| Screenshot.ListingRoundTrip | src/core/screenshot.py:134-152 | parsing adb's listing of a list of devices returns exactly that list |
| Screenshot.ConnectSuccessIff | src/core/screenshot.py:171-172 | connecting succeeds iff the return code is 0 and the lower-cased output contains "connected" |
| Screenshot.ExtraPorts | src/core/screenshot.py:196-198 | the configured ports tried second are exactly those not among LD_PORTS |
| Screenshot.ScreenshotManager.constructor | src/core/screenshot.py:36-39 | adb is available exactly when an adb path was found |
| Screenshot.ScreenshotManager.RunAdb | src/core/screenshot.py:119-130 | without an adb path nothing runs and the reply is (-1, "", "ADB not found") |
| Screenshot.ScreenshotManager.GetDevices | src/core/screenshot.py:134-152 | nothing on a non-zero return code (or without adb); otherwise the parsed listing |
| Screenshot.ScreenshotManager.DevicesOfLines | src/core/screenshot.py:142-152 | the loop collects exactly the parsed devices, in order |
| Screenshot.ScreenshotManager.ConnectLdPlayer | src/core/screenshot.py:180-210 | tries LD_PORTS then the other configured ports in order, stops at the first success, and fails only after trying them all |
| Screenshot.ScreenshotManager.TryPorts | src/core/screenshot.py:191-200 | one early-exit port loop: every port before the last one tried failed, and success means the last one connected |
| Screenshot.ScreenshotManager.ConnectLdPlayerSucceeds | src/core/screenshot.py:180-210 | so connecting succeeds iff some candidate port connects |
| Screenshot.ScreenshotManager.CaptureLdPlayer | src/core/screenshot.py:366-406 | searches for adb again when unavailable; None without adb or devices; otherwise the preferred device |
| Screenshot.ScreenshotManager.GetLdPlayerDevices | src/core/screenshot.py:414-422 | the listed devices containing "emulator-" or "127.0.0.1", in order |
| Screenshot.PreferredDevice | src/core/screenshot.py:394-406 | None iff no devices; else the first LDPlayer-like device, or the first device when none is |
| Screenshot.ChooseLdDevice | src/core/screenshot.py:400-406 | the device loop computes PreferredDevice |
| Screenshot.PreferredFirst | src/core/screenshot.py:400-403 | the first LDPlayer-like device is the one chosen |
| Screenshot.PreferredNone | src/core/screenshot.py:405-406 | with no LDPlayer-like device the first device is chosen |
| Screenshot.LdDevices | src/core/screenshot.py:417-421 | exactly the LDPlayer-like devices |
| Screenshot.FilterLdDevices | src/core/screenshot.py:417-422 | the filter loop computes LdDevices, keeping order |
| Screenshot.PreferredIsFirstLd | src/core/screenshot.py:400-403 | the captured device is the first of get_ld_player_devices whenever that list is non-empty |
| ExportManager.GenerateCodeSnippet | src/core/export_manager.py:216-217 | any format other than autojs/python yields exactly "name: (x, y, w, h) -> center: (cx, cy)" |
| ExportManager.BasenameOneLine | src/core/export_manager.py:204 | the file name of a one-line path is one line |
| ExportManager.SnippetLinesOneLine | src/core/export_manager.py:197-217 | every snippet line of an ROI with a one-line name and path is one line |
| ExportManager.SnippetShape | src/core/export_manager.py:194-217 | the snippet splits back into its lines: 3 for autojs plus a findImage comment iff image_path is set, 3 for python, 1 otherwise |
| ExportManager.Regions | src/core/export_manager.py:62-65 | one REGIONS entry per ROI |
| ExportManager.WithImageMembers | src/core/export_manager.py:86-87 | the ROIs that get a find_ function are exactly those with an image path |
| ExportManager.ClicksShape | src/core/export_manager.py:73-79 | three click_ lines per ROI, in collection order |
| ExportManager.FindsShape | src/core/export_manager.py:86-93 | three find_ lines per ROI with an image path, in order |
| ExportManager.AutojsLength | src/core/export_manager.py:54-93 | the script has 10 fixed lines, 4 per ROI and 3 per ROI with an image, and ends with the find_ blocks |
| ExportManager.AutojsRegionsAt | src/core/export_manager.py:62-65 | line 5+i is the i-th ROI's REGIONS entry |
| ExportManager.AutojsClicksAt | src/core/export_manager.py:73-79 | the i-th click block sits at line 8+n+3i |
| ExportManager.ExportAutojs | src/core/export_manager.py:54-99 | the loops build exactly the specified lines and the text is their newline join |
| ExportManager.AppendRegions | src/core/export_manager.py:62-65 | the REGIONS loop appends exactly the entries |
| ExportManager.AppendClicks | src/core/export_manager.py:73-79 | the click loop appends exactly the click blocks |
| ExportManager.AppendFinds | src/core/export_manager.py:86-93 | the find loop appends exactly the find blocks |
| ExportManager.ExportJsonRecord | src/core/export_manager.py:28-37 | version 1.0.0, roi_count = number of ROIs, rois = to_list(), source_info present iff truthy |
| ExportManager.ExportJsonReload | src/core/export_manager.py:28-37 | reloading the record's ROIs gives back each ROI's id, name, node name, type and geometry |
| ExportManager.ExportAll | src/core/export_manager.py:226-243 | each format is attempted on its own; exactly the formats whose export succeeds appear, with their paths |
| Text.TrimLeft | src/core/screenshot.py:143 | `lstrip()` removes exactly the leading whitespace |
| Text.TrimRight | src/core/screenshot.py:143 | `rstrip()` removes exactly the trailing whitespace |
| Text.StripEmptyIffAllSpace | src/core/screenshot.py:145 | `line.strip()` is empty iff the line is all whitespace |
| Text.Split | src/core/screenshot.py:143 | `split(sep)` gives at least one part and no part contains sep |
| Text.SplitJoin | src/core/export_manager.py:206 | splitting a join of separator-free parts gives the parts back |
| Text.JoinSplit | src/core/screenshot.py:143-146 | joining a split gives the string back |
| Text.Lower | src/core/screenshot.py:172 | `lower()` maps each character, case-folding A to Z |
| Text.NatToStringRoundTrip | src/ui/main_window.py:838 | decimal formatting reads back as the number |
| Text.NatToStringInjective | src/ui/main_window.py:838 | different suffix numbers format differently |
| Text.IntToStringInjective | src/core/export_manager.py:217 | decimal formatting of integers is injective |
| Text.ZeroPad | src/models/roi.py:201 | `{n:0wd}` pads with zeros to width w and never truncates |
| Text.BasenameSuffix | src/core/export_manager.py:88 | `os.path.basename` is the suffix after the last separator and holds no separator |

## Left out

- The image libraries are not part of this model:
  - OpenCV and scikit-image (HoughCircles, inRange, morphology, Canny, findContours, contourArea, moments, connectedComponentsWithStats, grabCut, SLIC) and `_extract_regions`.
  - Their outputs are inputs here: component stats tables, label rasters, contour records, the estimator's label map and the point-in-contour test.
  - `detect_circles`, `detect_ui_buttons` and `detect_icons` are inputs of `DetectAll`. The uint16 wrap in `detect_circles` is therefore not modelled.
- Floating point:
  - Colour and centroid distances use `sqrt` in the source. They are compared squared over reals, which matches exact arithmetic but not float rounding.
  - AutoDetect.Iou: the intersection-over-union is an exact rational, whereas the source divides floats before comparing with the threshold.
  - The circularity test, the Gaussian blur and the morphology in `segment_with_refinement` are a `smooth` parameter.
- The canvas scale is taken to be 1 (1:1 mode). Screen and image coordinates coincide, and `_do_resize`'s `int(delta / scale)` is the delta.
- Qt and the user interface:
  - Widgets, painting, cursors and status-bar messages.
  - `_qpixmap_to_cv2`, `visualize`, `preview_detection`, context menus and key bindings.
  - src/ui/roi_list_panel.py.
  - Signals are recorded as a list of emitted values.
- Dialog answers are parameters. The Ctrl key, the naming dialog's answer, the adb search result and the adb replies (a function from path and arguments to a reply) all come in from outside, so two calls see the same adb world.
- Files, processes, time and randomness:
  - JSON/script/PNG writes, `export_python`'s text and file, and src/core/crop_engine.py.
  - config/settings.py, `_find_adb`'s search and `_get_ld_player_ports_from_config`'s file reading (the configured ports are a parameter).
  - `capture_adb`'s pixmap (CaptureLdPlayer returns the chosen device).
  - uuid ids (a fresh id is a parameter), `created_at`/`modified_at`, and `time.strftime` (a `now` string).
  - `start.py`, `main.py` and src/utils/helpers.py.
- ROI values are immutable values here. Aliasing is not modelled: the source shares one ROI object between the collection, the pending-crop list and the detector's result. Updates in place (`translate`, the `rect` setter) become replacement of the list element.
- Text.Basename: only `/` and `\` separate; the Windows `os.path.basename` also drops a drive prefix such as "C:" with no separator after it.
- Text.Lower: lower-cases only A to Z, whereas Python's `lower()` also folds non-ASCII letters. This only matters for the "connected" test on non-ASCII adb output.
- Screenshot.ScreenshotManager.CaptureLdPlayer: the exception handler is not modelled, because nothing in the modelled path raises.
- SmartSegment.SegmentAtPoint: a failure of the estimator is an absent label map (None), the way `except Exception` turns it into None. A failure inside the contour finder is not distinguished.
- Superpixel.MergeTool.AbsorbSimilar and Superpixel.MergeTool.MergeGroup: they carry the group indices as ghost outputs. Their real output (the merged regions, the ROI piece) is stated in full.
- `resize_roi`/`get_resize_handle` of the collection are not modelled. Only the canvas's own resize path (`_do_resize`) is.
- ImageCanvas.Canvas.FinishDrawing: it constrains the new rectangle with the corrected `ImageCanvas.ConstrainRect` of the second Findings row, not with the as-written `ImageCanvas.ConstrainRectAsWritten`. The source's one-pixel shrink of the right and bottom edges is therefore not reproduced.
- ImageCanvas.Canvas.DoResize: it constrains the resized rectangle with the corrected `ImageCanvas.ConstrainRect` of the second Findings row, not with the as-written `ImageCanvas.ConstrainRectAsWritten`, for the same reason.
- Superpixel.Segmenter.GetRegionsInRect: it selects labels with the corrected `Superpixel.RectLabels` of the first Findings row, not with the as-written `Superpixel.RectLabelsAsWritten`. A rectangle wholly left of or above the image therefore selects nothing, whereas the source's slice wraps around.
- MainWindow.RoiDialog.constructor: a `roi_type` of "region" is excluded by its requires. In the source, `setCurrentIndex(1)` (src/ui/main_window.py:74) runs `on_type_changed`, which reads `action_combo` (line 229) before line 77 creates it, so that construction raises AttributeError. No caller passes "region" (lines 796 and 1100).
- RoiModel.FromDict: a value of the wrong type loads as the field's default (`GetStr`, `GetInt`), whereas `data.get` returns whatever is stored under the key. The `Json` datatype has no null, float or boolean, so such stored values are not modelled at all.
- `copy_selected_roi` on the canvas is not modelled. It repeats RoiModel.RoiCollection.CopySelected plus two signals.

## Findings

| source | as written | input that shows it | evidently intended | confidence | as-written member | corrected member |
|---|---|---|---|---|---|---|
| src/core/superpixel_segment.py:211-222 | after ordering and clamping with `max(0, ·)`/`min(w, ·)` only on one side, a rectangle wholly left of or above the image keeps a negative upper bound, which numpy reads from the end | labels 2×2 all 7, rectangle (-5, -5)-(-1, -1): the slice `[0:-1, 0:-1]` selects label 7 | a rectangle outside the image selects no region | not executed | Superpixel.RectLabelsWrapAround | Superpixel.RectLabels |
| src/ui/image_canvas.py:418-423 | `_constrain_rect` takes QRect's inclusive `right()`/`bottom()` as exclusive edges when building `QRect(left, top, right - left, bottom - top)` | QRect(10, 10, 20, 20) in a 100×100 image becomes QRect(10, 10, 19, 19) | a rectangle already inside the image is left unchanged | not executed | ImageCanvas.ConstrainAsWrittenExample | ImageCanvas.ConstrainRect |
| src/ui/main_window.py:899-911 | `on_roi_deleted` looks the index up after `delete_selected_roi` (src/ui/image_canvas.py:536-544) has already removed the ROI, so it finds the ROI that moved into the index | ROIs [a, b] with crops [ca, cb], delete a: cb is dropped and ca kept | the deleted ROI's own crops are dropped | not executed | MainWindow.AfterDeleteAsWrittenExample | MainWindow.AfterDelete |
