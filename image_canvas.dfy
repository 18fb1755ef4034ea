/** The image canvas (src/ui/image_canvas.py): the rectangle arithmetic of
    drawing, dragging and resizing ROIs, the topmost-hit lookup, deletion
    and undo on the shared ROI collection, and the Ctrl edge detector with
    its per-mode handlers. The display scale is 1 (the 1:1 mode), so image
    and screen coordinates coincide; signals are recorded in `signals`. */
module ImageCanvas {
  import opened Wrappers
  import opened QtGeometry
  import opened RoiModel

  /** What the canvas emits. */
  datatype Signal =
    | RoiCreated(roi: Roi)
    | RoiSelected(index: int)
    | RoiModified(index: int)
    | RoiDeleted(index: int)
    | MergeFinished(labels: set<int>)
    | DetectFinished(roi: Roi)

  function Max(a: int, b: int): int { if a >= b then a else b }
  function Min(a: int, b: int): int { if a <= b then a else b }

  // ------------------------------------------------------ _constrain_rect

  /** `_constrain_rect` as written: the left/top edge is cut to
      [0, size - 5] and the inclusive right()/bottom() edge to [5, size],
      and the new rectangle is QRect(left, top, right - left, bottom - top),
      which reads the inclusive edge as an exclusive one. */
  function ConstrainRectAsWritten(image: Option<(int, int)>, rect: QRect): (r: QRect)
    ensures image.None? ==> r == rect
    ensures image.Some? ==>
      r.Left() >= 0 && r.Top() >= 0
      && r.Left() + r.Width() <= Max(5, image.value.0) && r.Top() + r.Height() <= Max(5, image.value.1)
  {
    if image.None? then rect
    else
      var (w, h) := image.value;
      var left := Max(0, Min(rect.Left(), w - 5));
      var top := Max(0, Min(rect.Top(), h - 5));
      var right := Max(5, Min(rect.Right(), w));
      var bottom := Max(5, Min(rect.Bottom(), h));
      FromXYWH(left, top, right - left, bottom - top)
  }

  /** A rectangle already inside the image loses one column and one row. */
  lemma ConstrainAsWrittenShrinks(w: int, h: int, rect: QRect)
    requires 0 <= rect.Left() <= w - 5 && 5 <= rect.Right() <= w
    requires 0 <= rect.Top() <= h - 5 && 5 <= rect.Bottom() <= h
    ensures var r := ConstrainRectAsWritten(Some((w, h)), rect);
      r.Left() == rect.Left() && r.Top() == rect.Top()
      && r.Width() == rect.Width() - 1 && r.Height() == rect.Height() - 1
  {
  }

  /** The concrete case: a 20 x 20 rectangle at (10, 10) in a 100 x 100
      image comes back 19 x 19. */
  lemma ConstrainAsWrittenExample()
    ensures ConstrainRectAsWritten(Some((100, 100)), FromXYWH(10, 10, 20, 20)) == FromXYWH(10, 10, 19, 19)
  {
    ConstrainAsWrittenShrinks(100, 100, FromXYWH(10, 10, 20, 20));
  }

  /** `_constrain_rect` as intended: the same cuts applied to the exclusive
      right and bottom edges (left + width, top + height). */
  function ConstrainRect(image: Option<(int, int)>, rect: QRect): (r: QRect)
    ensures image.None? ==> r == rect
    ensures image.Some? ==>
      r.Left() >= 0 && r.Top() >= 0
      && r.Left() + r.Width() <= Max(5, image.value.0) && r.Top() + r.Height() <= Max(5, image.value.1)
    ensures image.Some? && 0 <= rect.Left() <= image.value.0 - 5 && 5 <= rect.Left() + rect.Width() <= image.value.0
            && 0 <= rect.Top() <= image.value.1 - 5 && 5 <= rect.Top() + rect.Height() <= image.value.1
            ==> r == rect
    ensures image.Some? && image.value.0 >= 5 && image.value.1 >= 5 && rect.Width() >= 5 && rect.Height() >= 5 ==>
      r.Width() >= 1 && r.Height() >= 1
  {
    if image.None? then rect
    else
      var (w, h) := image.value;
      var left := Max(0, Min(rect.Left(), w - 5));
      var top := Max(0, Min(rect.Top(), h - 5));
      var right := Max(5, Min(rect.Left() + rect.Width(), w));
      var bottom := Max(5, Min(rect.Top() + rect.Height(), h));
      FromXYWH(left, top, right - left, bottom - top)
  }

  /** Constraining is idempotent. */
  lemma ConstrainIdempotent(image: Option<(int, int)>, rect: QRect)
    requires image.Some? ==> image.value.0 >= 5 && image.value.1 >= 5
    ensures ConstrainRect(image, ConstrainRect(image, rect)) == ConstrainRect(image, rect)
  {
  }

  // ------------------------------------------------------------ resizing

  /** The rectangle a resize handle produces from the rectangle at the
      start of the resize: handles 0 to 7 run clockwise-by-rows (top-left,
      top, top-right, left, right, bottom-left, bottom, bottom-right); each
      moves only the edges it lies on, and any other value moves nothing. */
  function ResizedRect(r: QRect, handle: int, dx: int, dy: int): (n: QRect)
    ensures n.x1 == r.x1 + (if handle == 0 || handle == 3 || handle == 5 then dx else 0)
    ensures n.x2 == r.x2 + (if handle == 2 || handle == 4 || handle == 7 then dx else 0)
    ensures n.y1 == r.y1 + (if handle == 0 || handle == 1 || handle == 2 then dy else 0)
    ensures n.y2 == r.y2 + (if handle == 5 || handle == 6 || handle == 7 then dy else 0)
  {
    match handle
    case 0 => r.(x1 := r.x1 + dx, y1 := r.y1 + dy)
    case 1 => r.(y1 := r.y1 + dy)
    case 2 => r.(x2 := r.x2 + dx, y1 := r.y1 + dy)
    case 3 => r.(x1 := r.x1 + dx)
    case 4 => r.(x2 := r.x2 + dx)
    case 5 => r.(x1 := r.x1 + dx, y2 := r.y2 + dy)
    case 6 => r.(y2 := r.y2 + dy)
    case 7 => r.(x2 := r.x2 + dx, y2 := r.y2 + dy)
    case _ => r
  }

  /** `max(0, min(v, hi))`: 0 when the upper bound is negative. */
  function ClampTo(v: int, hi: int): (r: int)
    ensures r >= 0
    ensures hi >= 0 ==> r <= hi
    ensures hi < 0 ==> r == 0
    ensures 0 <= v <= hi ==> r == v
  {
    Max(0, Min(v, hi))
  }

  /** The canvas's interaction state and the ROI collection it edits. */
  class Canvas {
    const collection: RoiCollection
    var image: Option<(int, int)>
    var mode: string
    var cropMode: string
    var isDrawing: bool
    var drawStart: Point
    var drawCurrent: Point
    var isDragging: bool
    var dragStartImg: Point
    var isResizing: bool
    var resizeStartPos: Point
    var resizeStartRect: QRect
    var resizeHandle: int
    var pendingMergeLabels: set<int>
    var tempRoi: Option<Roi>
    var ctrlActive: bool
    var lastCtrlState: bool
    var signals: seq<Signal>

    constructor ()
      ensures fresh(collection) && collection.rois == [] && collection.selectedIndex == -1 && collection.Valid()
      ensures image.None? && mode == "select" && cropMode == "manual"
      ensures !isDrawing && !isDragging && !isResizing && resizeHandle == -1
      ensures pendingMergeLabels == {} && tempRoi.None? && !ctrlActive && !lastCtrlState && signals == []
    {
      collection := new RoiCollection();
      image := None;
      mode := "select";
      cropMode := "manual";
      isDrawing := false;
      drawStart := Point(0, 0);
      drawCurrent := Point(0, 0);
      isDragging := false;
      dragStartImg := Point(0, 0);
      isResizing := false;
      resizeStartPos := Point(0, 0);
      resizeStartRect := QRect(0, 0, -1, -1);
      resizeHandle := -1;
      pendingMergeLabels := {};
      tempRoi := None;
      ctrlActive := false;
      lastCtrlState := false;
      signals := [];
    }

    /** `set_mode(mode)`: entering "draw" clears the selection. */
    method SetMode(m: string)
      modifies this, collection
      ensures mode == m
      ensures m == "draw" ==> collection.selectedIndex == -1 && signals == old(signals) + [RoiSelected(-1)]
      ensures m != "draw" ==> collection.selectedIndex == old(collection.selectedIndex) && signals == old(signals)
      ensures collection.rois == old(collection.rois) && collection.nameCounter == old(collection.nameCounter)
      ensures old(collection.Valid()) ==> collection.Valid()
      ensures isDrawing == old(isDrawing) && ctrlActive == old(ctrlActive) && tempRoi == old(tempRoi)
      ensures pendingMergeLabels == old(pendingMergeLabels)
      ensures cropMode == old(cropMode) && lastCtrlState == old(lastCtrlState)
    {
      mode := m;
      if m == "draw" {
        collection.selectedIndex := -1;
        signals := signals + [RoiSelected(-1)];
      }
    }

    // ------------------------------------------------ Ctrl edge detector

    /** `_handle_manual_ctrl`: pressing enters draw mode; releasing returns
        to select mode unless a rectangle is being drawn. */
    method HandleManualCtrl(pressed: bool)
      modifies this, collection
      ensures pressed ==> mode == "draw"
      ensures pressed && old(mode) != "draw" ==>
        collection.selectedIndex == -1 && signals == old(signals) + [RoiSelected(-1)]
      ensures !pressed && old(mode) == "draw" && !old(isDrawing) ==> mode == "select"
      ensures (pressed && old(mode) == "draw") || (!pressed && !(old(mode) == "draw" && !old(isDrawing))) ==>
        mode == old(mode) && collection.selectedIndex == old(collection.selectedIndex) && signals == old(signals)
      ensures !pressed ==> collection.selectedIndex == old(collection.selectedIndex) && signals == old(signals)
      ensures collection.rois == old(collection.rois) && collection.nameCounter == old(collection.nameCounter)
      ensures old(collection.Valid()) ==> collection.Valid()
      ensures ctrlActive == old(ctrlActive) && tempRoi == old(tempRoi) && isDrawing == old(isDrawing)
      ensures pendingMergeLabels == old(pendingMergeLabels)
      ensures cropMode == old(cropMode) && lastCtrlState == old(lastCtrlState)
    {
      if pressed {
        if mode != "draw" {
          SetMode("draw");
        }
      } else if mode == "draw" && !isDrawing {
        SetMode("select");
      }
    }

    /** `_handle_superpixel_ctrl`: records the Ctrl state; a release with
        pending labels emits them (they stay pending). */
    method HandleSuperpixelCtrl(pressed: bool)
      modifies this
      ensures ctrlActive == pressed
      ensures signals == old(signals) + (if !pressed && pendingMergeLabels != {} then [MergeFinished(pendingMergeLabels)] else [])
      ensures pendingMergeLabels == old(pendingMergeLabels) && tempRoi == old(tempRoi) && mode == old(mode)
      ensures cropMode == old(cropMode) && lastCtrlState == old(lastCtrlState) && isDrawing == old(isDrawing)
    {
      ctrlActive := pressed;
      if !pressed && pendingMergeLabels != {} {
        signals := signals + [MergeFinished(pendingMergeLabels)];
      }
    }

    /** `_handle_auto_detect_ctrl`: records the Ctrl state; a release with
        a pending detection emits it once and drops it. */
    method HandleAutoDetectCtrl(pressed: bool)
      modifies this
      ensures ctrlActive == pressed
      ensures !pressed && old(tempRoi).Some? ==>
        signals == old(signals) + [DetectFinished(old(tempRoi).value)] && tempRoi.None?
      ensures pressed || old(tempRoi).None? ==> signals == old(signals) && tempRoi == old(tempRoi)
      ensures pendingMergeLabels == old(pendingMergeLabels) && mode == old(mode)
      ensures cropMode == old(cropMode) && lastCtrlState == old(lastCtrlState) && isDrawing == old(isDrawing)
    {
      ctrlActive := pressed;
      if !pressed && tempRoi.Some? {
        signals := signals + [DetectFinished(tempRoi.value)];
        tempRoi := None;
      }
    }

    /** `_on_ctrl_changed`: the handler of the current crop mode, with its
        effects as that handler states them; any other crop mode does
        nothing. */
    method OnCtrlChanged(pressed: bool)
      modifies this, collection
      ensures cropMode == old(cropMode) && lastCtrlState == old(lastCtrlState)
      ensures collection.rois == old(collection.rois) && collection.nameCounter == old(collection.nameCounter)
      ensures old(collection.Valid()) ==> collection.Valid()
      // manual: `_handle_manual_ctrl`
      ensures cropMode == "manual" ==>
        (pressed ==> mode == "draw")
        && (pressed && old(mode) != "draw" ==>
              collection.selectedIndex == -1 && signals == old(signals) + [RoiSelected(-1)])
        && (!pressed && old(mode) == "draw" && !old(isDrawing) ==> mode == "select")
        && ((pressed && old(mode) == "draw") || (!pressed && !(old(mode) == "draw" && !old(isDrawing))) ==>
              mode == old(mode) && collection.selectedIndex == old(collection.selectedIndex) && signals == old(signals))
        && (!pressed ==> collection.selectedIndex == old(collection.selectedIndex) && signals == old(signals))
        && ctrlActive == old(ctrlActive) && tempRoi == old(tempRoi)
      // superpixel: `_handle_superpixel_ctrl`
      ensures cropMode == "superpixel" ==>
        ctrlActive == pressed && mode == old(mode) && tempRoi == old(tempRoi)
        && signals == old(signals) + (if !pressed && old(pendingMergeLabels) != {} then [MergeFinished(old(pendingMergeLabels))] else [])
        && collection.selectedIndex == old(collection.selectedIndex)
      // auto_detect: `_handle_auto_detect_ctrl`
      ensures cropMode == "auto_detect" ==>
        ctrlActive == pressed && mode == old(mode)
        && (!pressed && old(tempRoi).Some? ==>
              signals == old(signals) + [DetectFinished(old(tempRoi).value)] && tempRoi.None?)
        && (pressed || old(tempRoi).None? ==> signals == old(signals) && tempRoi == old(tempRoi))
        && collection.selectedIndex == old(collection.selectedIndex)
      ensures cropMode !in {"manual", "superpixel", "auto_detect"} ==>
        mode == old(mode) && ctrlActive == old(ctrlActive) && tempRoi == old(tempRoi) && signals == old(signals)
        && collection.selectedIndex == old(collection.selectedIndex)
      ensures pendingMergeLabels == old(pendingMergeLabels) && isDrawing == old(isDrawing)
    {
      if cropMode == "manual" {
        HandleManualCtrl(pressed);
      } else if cropMode == "superpixel" {
        HandleSuperpixelCtrl(pressed);
      } else if cropMode == "auto_detect" {
        HandleAutoDetectCtrl(pressed);
      }
    }

    /** `_check_ctrl_state` with the keyboard's Ctrl state as `current`:
        on a change the state is recorded and the crop mode's handler runs
        with the effects `OnCtrlChanged` states; otherwise nothing changes. */
    method CheckCtrlState(current: bool)
      modifies this, collection
      ensures lastCtrlState == current
      ensures cropMode == old(cropMode) && pendingMergeLabels == old(pendingMergeLabels) && isDrawing == old(isDrawing)
      ensures collection.rois == old(collection.rois) && collection.nameCounter == old(collection.nameCounter)
      ensures old(collection.Valid()) ==> collection.Valid()
      ensures current == old(lastCtrlState) ==>
        mode == old(mode) && ctrlActive == old(ctrlActive) && tempRoi == old(tempRoi) && signals == old(signals)
        && collection.selectedIndex == old(collection.selectedIndex)
      // a change in manual crop mode: `_handle_manual_ctrl`
      ensures current != old(lastCtrlState) && cropMode == "manual" ==>
        (current ==> mode == "draw")
        && (current && old(mode) != "draw" ==>
              collection.selectedIndex == -1 && signals == old(signals) + [RoiSelected(-1)])
        && (!current && old(mode) == "draw" && !old(isDrawing) ==> mode == "select")
        && ((current && old(mode) == "draw") || (!current && !(old(mode) == "draw" && !old(isDrawing))) ==>
              mode == old(mode) && collection.selectedIndex == old(collection.selectedIndex) && signals == old(signals))
        && (!current ==> collection.selectedIndex == old(collection.selectedIndex) && signals == old(signals))
        && ctrlActive == old(ctrlActive) && tempRoi == old(tempRoi)
      // a change in superpixel crop mode: `_handle_superpixel_ctrl`
      ensures current != old(lastCtrlState) && cropMode == "superpixel" ==>
        ctrlActive == current && mode == old(mode) && tempRoi == old(tempRoi)
        && signals == old(signals) + (if !current && old(pendingMergeLabels) != {} then [MergeFinished(old(pendingMergeLabels))] else [])
        && collection.selectedIndex == old(collection.selectedIndex)
      // a change in auto_detect crop mode: `_handle_auto_detect_ctrl`
      ensures current != old(lastCtrlState) && cropMode == "auto_detect" ==>
        ctrlActive == current && mode == old(mode)
        && (!current && old(tempRoi).Some? ==>
              signals == old(signals) + [DetectFinished(old(tempRoi).value)] && tempRoi.None?)
        && (current || old(tempRoi).None? ==> signals == old(signals) && tempRoi == old(tempRoi))
        && collection.selectedIndex == old(collection.selectedIndex)
      ensures current != old(lastCtrlState) && cropMode !in {"manual", "superpixel", "auto_detect"} ==>
        mode == old(mode) && ctrlActive == old(ctrlActive) && tempRoi == old(tempRoi) && signals == old(signals)
        && collection.selectedIndex == old(collection.selectedIndex)
    {
      if current != lastCtrlState {
        lastCtrlState := current;
        OnCtrlChanged(current);
      }
    }

    // ------------------------------------------------------------ drawing

    /** `_finish_drawing` with `ctrlPressed` the keyboard state and `freshId`
        the new ROI's id: a normalized rectangle under 5 x 5 is dropped;
        otherwise it is constrained to the image, appended as a new ROI and
        selected. */
    method FinishDrawing(ctrlPressed: bool, freshId: string)
      modifies this, collection
      ensures !isDrawing
      ensures var rect := Normalized(FromCorners(old(drawStart), old(drawCurrent)));
        !(rect.Width() >= 5 && rect.Height() >= 5) ==>
          collection.rois == old(collection.rois) && collection.selectedIndex == old(collection.selectedIndex)
          && collection.nameCounter == old(collection.nameCounter)
          && signals == old(signals) && mode == old(mode)
      ensures var rect := Normalized(FromCorners(old(drawStart), old(drawCurrent)));
        rect.Width() >= 5 && rect.Height() >= 5 ==>
          var named := Named(SetRect(DefaultRoi(freshId), ConstrainRect(old(image), rect)), old(collection.nameCounter));
          var added := named.0;
          collection.rois == old(collection.rois) + [added]
          && collection.nameCounter == named.1
          && collection.selectedIndex == |old(collection.rois)|
          && signals == old(signals) + [RoiCreated(added), RoiSelected(|old(collection.rois)|)]
          && (!ctrlPressed && cropMode == "manual" ==> mode == "select")
          && collection.Valid()
      ensures ctrlPressed || cropMode != "manual" ==> mode == old(mode)
      ensures old(collection.Valid()) ==> collection.Valid()
    {
      isDrawing := false;
      var rect := Normalized(FromCorners(drawStart, drawCurrent));
      if rect.Width() >= 5 && rect.Height() >= 5 {
        AppendDrawn(ConstrainRect(image, rect), freshId);
        if !ctrlPressed && cropMode == "manual" {
          SetMode("select");
        }
      }
    }

    /** The appending half of `_finish_drawing`: a new ROI over `rect` is
        added through the collection, selected and announced. */
    method AppendDrawn(rect: QRect, freshId: string)
      modifies collection, this`signals
      ensures var named := Named(SetRect(DefaultRoi(freshId), rect), old(collection.nameCounter));
        collection.rois == old(collection.rois) + [named.0] && collection.nameCounter == named.1
        && collection.selectedIndex == |old(collection.rois)| && collection.Valid()
      ensures signals == old(signals) + [RoiCreated(collection.rois[|old(collection.rois)|]), RoiSelected(|old(collection.rois)|)]
    {
      var idx := collection.Add(SetRect(DefaultRoi(freshId), rect));
      collection.selectedIndex := idx;
      signals := signals + [RoiCreated(collection.rois[idx]), RoiSelected(idx)];
    }

    // ----------------------------------------------------------- dragging

    /** `_do_drag(img_pos)`: the selected ROI moves by the mouse's offset,
        its size kept and its corner clamped so it stays in the image (to 0
        when it is larger than the image). */
    method DoDrag(imgPos: Point)
      requires collection.Valid()
      modifies this, collection
      ensures var sel := old(collection.selectedIndex);
        sel < 0 ==>
          collection.rois == old(collection.rois) && dragStartImg == old(dragStartImg) && signals == old(signals)
      ensures var sel := old(collection.selectedIndex);
        sel >= 0 ==>
          var roi := old(collection.rois[sel]);
          var nx := roi.x + imgPos.x - old(dragStartImg.x);
          var ny := roi.y + imgPos.y - old(dragStartImg.y);
          |collection.rois| == |old(collection.rois)|
          && collection.rois == old(collection.rois)[sel := collection.rois[sel]]
          && collection.rois[sel] == roi.(x := collection.rois[sel].x, y := collection.rois[sel].y)
          && (old(image).None? ==> collection.rois[sel].x == nx && collection.rois[sel].y == ny)
          && (old(image).Some? ==>
                collection.rois[sel].x == ClampTo(nx, old(image).value.0 - roi.width)
                && collection.rois[sel].y == ClampTo(ny, old(image).value.1 - roi.height))
          && dragStartImg == imgPos && signals == old(signals) + [RoiModified(sel)]
      ensures collection.selectedIndex == old(collection.selectedIndex) && collection.Valid()
      ensures collection.nameCounter == old(collection.nameCounter)
    {
      var dx := imgPos.x - dragStartImg.x;
      var dy := imgPos.y - dragStartImg.y;
      var sel := collection.selectedIndex;
      if sel >= 0 {
        var roi := collection.rois[sel];
        var newRect := Translated(RectOf(roi), dx, dy);
        if image.Some? {
          var (w, h) := image.value;
          var nx := ClampTo(newRect.Left(), w - roi.width);
          var ny := ClampTo(newRect.Top(), h - roi.height);
          newRect := MovedTo(newRect, nx, ny);
        }
        collection.rois := collection.rois[sel := SetRect(roi, newRect)];
        dragStartImg := imgPos;
        signals := signals + [RoiModified(sel)];
      }
    }

    // ----------------------------------------------------------- resizing

    /** `_do_resize(screen_pos)`: the handle's edges move by the mouse's
        offset from the resize start; the selected ROI takes the
        constrained result only when it is at least 5 x 5, and is otherwise
        untouched. */
    method DoResize(screenPos: Point)
      requires collection.Valid()
      modifies this, collection
      ensures var n := ResizedRect(old(resizeStartRect), old(resizeHandle),
                                   screenPos.x - old(resizeStartPos.x), screenPos.y - old(resizeStartPos.y));
        var sel := old(collection.selectedIndex);
        n.Width() >= 5 && n.Height() >= 5 && sel >= 0 ==>
          collection.rois == old(collection.rois)[sel := SetRect(old(collection.rois[sel]), ConstrainRect(old(image), n))]
          && signals == old(signals) + [RoiModified(sel)]
      ensures var n := ResizedRect(old(resizeStartRect), old(resizeHandle),
                                   screenPos.x - old(resizeStartPos.x), screenPos.y - old(resizeStartPos.y));
        !(n.Width() >= 5 && n.Height() >= 5 && old(collection.selectedIndex) >= 0) ==>
          collection.rois == old(collection.rois) && signals == old(signals)
      ensures collection.selectedIndex == old(collection.selectedIndex) && collection.Valid()
      ensures collection.nameCounter == old(collection.nameCounter)
    {
      var dx := screenPos.x - resizeStartPos.x;
      var dy := screenPos.y - resizeStartPos.y;
      var newRect := ResizedRect(resizeStartRect, resizeHandle, dx, dy);
      var sel := collection.selectedIndex;
      if newRect.Width() >= 5 && newRect.Height() >= 5 && sel >= 0 {
        var resized := SetRect(collection.rois[sel], ConstrainRect(image, newRect));
        collection.rois := collection.rois[sel := resized];
        signals := signals + [RoiModified(sel)];
      }
    }

    // ---------------------------------------------------------- selection

    /** `_select_roi_at(img_pos)`: scans from the last ROI down and returns
        the first that contains the point, i.e. the topmost one, else -1. */
    method SelectRoiAt(p: Point) returns (i: int)
      ensures i == LastContaining(collection.rois, p)
    {
      var rois := collection.rois;
      i := |rois| - 1;
      while i >= 0
        invariant -1 <= i < |rois|
        invariant LastContaining(rois, p) == LastContaining(rois[..i + 1], p)
      {
        if ContainsPoint(rois[i], p) {
          return;
        }
        assert rois[..i + 1][..i] == rois[..i];
        i := i - 1;
      }
    }

    // ---------------------------------------------------- delete and undo

    /** `delete_selected_roi()`: with a selection, removes it through the
        collection, emits the index and returns true; otherwise false and
        nothing changes. */
    method DeleteSelectedRoi() returns (deleted: bool)
      modifies this, collection
      ensures deleted == (old(collection.selectedIndex) >= 0)
      ensures !deleted ==>
        collection.rois == old(collection.rois) && collection.selectedIndex == old(collection.selectedIndex)
        && signals == old(signals)
      ensures deleted ==> signals == old(signals) + [RoiDeleted(old(collection.selectedIndex))]
      ensures deleted && old(collection.selectedIndex) < old(|collection.rois|) ==>
        collection.rois == RemoveAt(old(collection.rois), old(collection.selectedIndex))
        && collection.selectedIndex == -1
      ensures collection.nameCounter == old(collection.nameCounter)
      ensures old(collection.Valid()) ==> collection.Valid()
    {
      var sel := collection.selectedIndex;
      if sel >= 0 {
        var _ := collection.Remove(sel);
        signals := signals + [RoiDeleted(sel)];
        return true;
      }
      return false;
    }

    /** `undo_last_roi()`: removes the last ROI when there is one. */
    method UndoLastRoi() returns (undone: bool)
      modifies this, collection
      ensures undone == (old(|collection.rois|) > 0)
      ensures !undone ==>
        collection.rois == old(collection.rois) && collection.selectedIndex == old(collection.selectedIndex)
        && signals == old(signals)
      ensures undone ==>
        collection.rois == old(collection.rois)[..old(|collection.rois|) - 1]
        && collection.selectedIndex == SelectionAfterRemove(old(collection.selectedIndex), old(|collection.rois|) - 1)
        && signals == old(signals) + [RoiDeleted(old(|collection.rois|) - 1)]
      ensures collection.nameCounter == old(collection.nameCounter)
      ensures old(collection.Valid()) ==> collection.Valid()
    {
      if |collection.rois| > 0 {
        var last := |collection.rois| - 1;
        var _ := collection.Remove(last);
        signals := signals + [RoiDeleted(last)];
        return true;
      }
      return false;
    }
  }
}
