/** The main window's bookkeeping (src/ui/main_window.py): the ROI dialog's
    configuration record and image-name sync, the unique-name loop, the
    file-name sanitiser and crop clamp used when saving a crop, the list
    of crops pending export and how it follows deletions on the canvas,
    and the duplicate check of the continuous point-detection mode. Dialog
    answers, the keyboard and the clock enter as parameters. */
module MainWindow {
  import opened Wrappers
  import opened Text
  import opened RoiModel
  import opened ImageCanvas

  // --------------------------------------------------------- ROI dialog

  /** The configuration `get_config` returns; every one of its ten keys is
      a field. */
  datatype Config = Config(
    nodeName: string, roiType: string, action: string, imageName: string,
    imageAction: string, clickMode: string, clickCount: int, clickInterval: int,
    swipeDirection: string, swipeSpeed: int)

  /** The dialog's widgets, by the value each one currently shows. */
  class RoiDialog {
    var nodeNameInput: string
    var roiTypeChoice: string
    var actionChoice: string
    var imageNameInput: string
    var imageActionChoice: string
    var clickModeChoice: string
    var clickCountValue: int
    var clickIntervalValue: int
    var swipeDirectionChoice: string
    var swipeSpeedValue: int

    /** `ROIDialog(default_name, roi_type, action)`: the type box shows
        "image"; the action box starts at its first entry, "click",
        whatever `action` says; the image file name is seeded from the node
        name. Asking for "region" makes the type box's change handler run
        before the action box exists, so the source fails on that path and
        its callers never ask for it. */
    constructor (defaultName: string, roiType: string, action: string)
      requires roiType != "region"
      ensures nodeNameInput == defaultName
      ensures roiTypeChoice == "image"
      ensures actionChoice == "click"
      ensures imageNameInput == (if defaultName != "" then defaultName + ".png" else "")
      ensures imageActionChoice == "detect" && clickModeChoice == "single" && clickCountValue == 1
      ensures clickIntervalValue == 500 && swipeDirectionChoice == "top_to_bottom" && swipeSpeedValue == 400
    {
      nodeNameInput := defaultName;
      roiTypeChoice := "image";
      actionChoice := "click";
      imageNameInput := if defaultName != "" then defaultName + ".png" else "";
      imageActionChoice := "detect";
      clickModeChoice := "single";
      clickCountValue := 1;
      clickIntervalValue := 500;
      swipeDirectionChoice := "top_to_bottom";
      swipeSpeedValue := 400;
    }

    /** `get_config()`: the defaults, then for an image the image fields,
        and otherwise the action and only the chosen action's fields. */
    function GetConfig(): (c: Config)
      reads this
      ensures c.nodeName == Strip(nodeNameInput) && c.roiType == roiTypeChoice
      ensures roiTypeChoice == "image" ==>
        c.action == "" && c.imageAction == imageActionChoice && c.imageName == Strip(imageNameInput)
        && c.clickMode == "single" && c.clickCount == 1 && c.clickInterval == 500
        && c.swipeDirection == "top_to_bottom" && c.swipeSpeed == 400
      ensures roiTypeChoice != "image" ==>
        c.action == actionChoice && c.imageName == "" && c.imageAction == "detect"
        && (actionChoice == "click" ==>
              c.clickMode == clickModeChoice && c.clickCount == clickCountValue && c.clickInterval == clickIntervalValue)
        && (actionChoice != "click" ==> c.clickMode == "single" && c.clickCount == 1 && c.clickInterval == 500)
        && (actionChoice == "swipe" ==> c.swipeDirection == swipeDirectionChoice && c.swipeSpeed == swipeSpeedValue)
        && (actionChoice != "swipe" ==> c.swipeDirection == "top_to_bottom" && c.swipeSpeed == 400)
    {
      var base := Config(Strip(nodeNameInput), roiTypeChoice, "", "", "detect", "single", 1, 500, "top_to_bottom", 400);
      if roiTypeChoice == "image" then
        base.(imageAction := imageActionChoice, imageName := Strip(imageNameInput))
      else if actionChoice == "click" then
        base.(action := actionChoice, clickMode := clickModeChoice, clickCount := clickCountValue,
              clickInterval := clickIntervalValue)
      else if actionChoice == "swipe" then
        base.(action := actionChoice, swipeDirection := swipeDirectionChoice, swipeSpeed := swipeSpeedValue)
      else
        base.(action := actionChoice)
    }

    /** `on_node_name_changed(text)`: for the image type only, an image name
        that is empty or ends in ".png" follows the node name. */
    method OnNodeNameChanged(text: string)
      modifies this
      ensures var cur := Strip(old(imageNameInput));
        if roiTypeChoice == "image" && (cur == "" || EndsWithPng(cur)) then
          imageNameInput == (if text != "" then text + ".png" else "")
        else
          imageNameInput == old(imageNameInput)
      ensures nodeNameInput == old(nodeNameInput) && roiTypeChoice == old(roiTypeChoice)
      ensures actionChoice == old(actionChoice) && imageActionChoice == old(imageActionChoice)
      ensures clickModeChoice == old(clickModeChoice) && clickCountValue == old(clickCountValue)
      ensures clickIntervalValue == old(clickIntervalValue) && swipeDirectionChoice == old(swipeDirectionChoice)
      ensures swipeSpeedValue == old(swipeSpeedValue)
    {
      if roiTypeChoice != "image" {
        return;
      }
      var cur := Strip(imageNameInput);
      if cur == "" {
        imageNameInput := if text != "" then text + ".png" else "";
      } else if EndsWithPng(cur) {
        imageNameInput := if text != "" then text + ".png" else "";
      }
    }
  }

  /** `s.endswith('.png')`. */
  predicate EndsWithPng(s: string) {
    |s| >= 4 && s[|s| - 4..] == ".png"
  }

  /** A name the sync writes is followed again by the next sync. */
  lemma SyncedNameFollows(text: string)
    requires text != "" && !IsSpace(text[0])
    ensures EndsWithPng(Strip(text + ".png"))
  {
    var s := text + ".png";
    assert s[|s| - 1] == 'g';
    StripOfTrimmed(s);
  }

  // ------------------------------------------------------- unique names

  /** `f"{base}_{k}"`. */
  function Suffixed(base: string, k: nat): string {
    base + "_" + NatToString(k)
  }

  lemma SuffixedInjective(base: string, j: nat, k: nat)
    requires Suffixed(base, j) == Suffixed(base, k)
    ensures j == k
  {
    var sj := NatToString(j);
    var sk := NatToString(k);
    assert Suffixed(base, j)[|base| + 1..] == sj;
    assert Suffixed(base, k)[|base| + 1..] == sk;
    NatToStringInjective(j, k);
  }

  /** The unique-name loop: `base` when it is free, otherwise `base_k` for
      the least k >= 1 that is free; never an existing name. */
  method UniqueName(base: string, existing: set<string>) returns (name: string)
    ensures name !in existing
    ensures base !in existing ==> name == base
    ensures base in existing ==>
      exists k: nat :: k >= 1 && name == Suffixed(base, k) && forall j: nat :: 1 <= j < k ==> Suffixed(base, j) in existing
  {
    name := base;
    var suffix: nat := 1;
    ghost var tried: set<string> := {};
    while name in existing
      invariant suffix >= 1
      invariant name == (if suffix == 1 then base else Suffixed(base, suffix - 1))
      invariant tried <= existing
      invariant forall j: nat :: 1 <= j < suffix - 1 ==> Suffixed(base, j) in tried
      invariant suffix >= 2 ==> base in tried
      invariant forall t :: t in tried ==> t == base || exists j: nat :: 1 <= j < suffix - 1 && t == Suffixed(base, j)
      invariant name !in tried
      decreases |existing - tried|
    {
      ghost var old_tried := tried;
      ghost var old_name := name;
      ghost var n := suffix;
      tried := tried + {name};
      assert name !in old_tried;
      assert existing - tried < existing - old_tried;
      name := Suffixed(base, suffix);
      suffix := suffix + 1;
      forall j: nat | 1 <= j < suffix - 1 ensures Suffixed(base, j) in tried {
        if j < n - 1 {
          assert Suffixed(base, j) in old_tried;
        } else {
          assert old_name == Suffixed(base, j);
        }
      }
      forall t | t in tried ensures t != name {
        if t != base {
          var j: nat :| 1 <= j < suffix - 1 && t == Suffixed(base, j);
          if t == name {
            SuffixedInjective(base, j, suffix - 1);
          }
        } else {
          assert |name| > |base|;
        }
      }
    }
    if base in existing {
      assert suffix >= 2 && name == Suffixed(base, suffix - 1);
    }
  }

  // ----------------------------------------------------- saving a crop

  /** The characters `re.sub(r'[\\/:*?"<>|]', '_', name)` replaces. */
  predicate Illegal(c: char) {
    c == '\\' || c == '/' || c == ':' || c == '*' || c == '?' || c == '"' || c == '<' || c == '>' || c == '|'
  }

  function ReplaceIllegal(s: string): (r: string)
    ensures |r| == |s|
    ensures forall i :: 0 <= i < |s| ==> r[i] == (if Illegal(s[i]) then '_' else s[i])
    ensures forall c :: c in r ==> !Illegal(c)
  {
    seq(|s|, i requires 0 <= i < |s| => if Illegal(s[i]) then '_' else s[i])
  }

  /** The file-name sanitiser: illegal characters become '_', whitespace
      is stripped, and an empty result falls back to `crop_<timestamp>`. */
  function SafeName(name: string, timestamp: nat): (r: string)
    ensures r != ""
    ensures forall i :: 0 <= i < |r| ==> !Illegal(r[i])
    ensures Strip(ReplaceIllegal(name)) != "" ==> r == Strip(ReplaceIllegal(name))
  {
    var s := Strip(ReplaceIllegal(name));
    if s != "" then
      StripChars(ReplaceIllegal(name));
      s
    else
      var f := "crop_" + NatToString(timestamp);
      assert forall i :: 5 <= i < |f| ==> f[i] == NatToString(timestamp)[i - 5];
      f
  }

  /** Stripping keeps a contiguous piece of the string. */
  lemma StripChars(s: string)
    ensures forall i :: 0 <= i < |Strip(s)| ==> Strip(s)[i] in s
  {
    var t := TrimLeft(s);
    var u := TrimRight(t);
    assert u == Strip(s);
    var k := |s| - |t|;
    forall i | 0 <= i < |u| ensures u[i] in s {
      assert u[i] == t[i];
      assert t[i] == s[k + i];
    }
  }

  /** The crop clamp of `_save_superpixel_crop`: x, y raised to 0 and the
      size cut at the image's right and bottom edges. */
  function CropRect(x: int, y: int, rw: int, rh: int, w: int, h: int): (r: (int, int, int, int))
    ensures r.0 >= 0 && r.1 >= 0 && r.0 + r.2 <= w && r.1 + r.3 <= h
    ensures r.2 <= rw && r.3 <= rh
    ensures x >= 0 && x + rw <= w ==> r.0 == x && r.2 == rw
    ensures y >= 0 && y + rh <= h ==> r.1 == y && r.3 == rh
  {
    var x' := if x > 0 then x else 0;
    var y' := if y > 0 then y else 0;
    (x', y', if rw < w - x' then rw else w - x', if rh < h - y' then rh else h - y')
  }

  // ------------------------------------------------------ pending crops

  /** An entry of the export list; crops from point detection carry no
      ROI id. */
  datatype PendingCrop = PendingCrop(roiId: Option<string>, roi: Roi, name: string, kind: string)

  /** The entries whose ROI id differs from `id`, in order. */
  function WithoutRoi(crops: seq<PendingCrop>, id: string): (r: seq<PendingCrop>)
    ensures |r| <= |crops|
    ensures forall c :: c in r <==> c in crops && c.roiId != Some(id)
    ensures (forall c :: c in crops ==> c.roiId != Some(id)) ==> r == crops
  {
    if |crops| == 0 then []
    else
      var rest := WithoutRoi(crops[..|crops| - 1], id);
      var last := crops[|crops| - 1];
      assert crops == crops[..|crops| - 1] + [last];
      if last.roiId != Some(id) then rest + [last] else rest
  }

  /** What the pending list becomes when the canvas deletes ROI `sel` and
      the window then looks the index up again, as written: the lookup
      sees the ROI that moved into the slot (or none, for the last one). */
  function AfterDeleteAsWritten(rois: seq<Roi>, crops: seq<PendingCrop>, sel: nat): seq<PendingCrop>
    requires sel < |rois|
  {
    var rest := RemoveAt(rois, sel);
    if sel < |rest| then WithoutRoi(crops, rest[sel].roiId) else crops
  }

  /** As intended: the crops of the deleted ROI go, all others stay. */
  function AfterDelete(rois: seq<Roi>, crops: seq<PendingCrop>, sel: nat): (r: seq<PendingCrop>)
    requires sel < |rois|
    ensures forall c :: c in r ==> c.roiId != Some(rois[sel].roiId)
    ensures forall c :: c in crops && c.roiId != Some(rois[sel].roiId) ==> c in r
  {
    WithoutRoi(crops, rois[sel].roiId)
  }

  /** Deleting the first of two ROIs as written keeps its crop and drops
      the crop of the other one. */
  lemma AfterDeleteAsWrittenExample(a: Roi, b: Roi, ca: PendingCrop, cb: PendingCrop)
    requires a.roiId == "a" && b.roiId == "b"
    requires ca.roiId == Some("a") && cb.roiId == Some("b")
    ensures AfterDeleteAsWritten([a, b], [ca, cb], 0) == [ca]
    ensures AfterDelete([a, b], [ca, cb], 0) == [cb]
  {
    assert RemoveAt([a, b], 0) == [b];
    assert [ca, cb][..1] == [ca];
    assert [ca][..0] == [];
    assert WithoutRoi([], "a") == [];
    assert WithoutRoi([ca], "a") == [];
    assert WithoutRoi([ca, cb], "a") == [cb];
  }

  /** Two ROIs closer than 5 in each of x, y, width and height. */
  predicate Near(a: Roi, b: Roi) {
    -5 < a.x - b.x < 5 && -5 < a.y - b.y < 5 && -5 < a.width - b.width < 5 && -5 < a.height - b.height < 5
  }

  lemma NearSymmetric(a: Roi, b: Roi)
    ensures Near(a, b) <==> Near(b, a)
    ensures Near(a, a)
  {
  }

  /** The window's export list and the canvas it watches. */
  class Window {
    const canvas: Canvas
    var pendingCrops: seq<PendingCrop>

    constructor ()
      ensures fresh(canvas) && fresh(canvas.collection) && pendingCrops == []
      ensures canvas.collection.rois == [] && canvas.collection.Valid()
    {
      canvas := new Canvas();
      pendingCrops := [];
    }

    /** `delete_pending_crop(index)`: an out-of-range index is ignored. */
    method DeletePendingCrop(index: int)
      modifies this
      ensures 0 <= index < old(|pendingCrops|) ==> pendingCrops == RemoveAt(old(pendingCrops), index)
      ensures !(0 <= index < old(|pendingCrops|)) ==> pendingCrops == old(pendingCrops)
    {
      if 0 <= index < |pendingCrops| {
        pendingCrops := pendingCrops[..index] + pendingCrops[index + 1..];
      }
    }

    /** `on_roi_deleted(index)`, the slot of the canvas's deletion signal,
        as written: it looks the index up in the collection after the
        removal and drops the crops of the ROI found there. */
    method OnRoiDeleted(index: int)
      modifies this
      ensures 0 <= index < |canvas.collection.rois| ==>
        pendingCrops == WithoutRoi(old(pendingCrops), canvas.collection.rois[index].roiId)
      ensures !(0 <= index < |canvas.collection.rois|) ==> pendingCrops == old(pendingCrops)
    {
      if 0 <= index < |canvas.collection.rois| {
        var roi := canvas.collection.rois[index];
        pendingCrops := WithoutRoi(pendingCrops, roi.roiId);
      }
    }

    /** Deleting the selected ROI as the source wires it: the canvas
        removes it, then the slot runs with the old index. */
    method DeleteSelectedAsWritten() returns (deleted: bool)
      requires canvas.collection.Valid()
      modifies this, canvas, canvas.collection
      ensures var sel := old(canvas.collection.selectedIndex);
        deleted == (sel >= 0)
        && (deleted ==> pendingCrops == AfterDeleteAsWritten(old(canvas.collection.rois), old(pendingCrops), sel))
        && (!deleted ==> pendingCrops == old(pendingCrops))
    {
      var sel := canvas.collection.selectedIndex;
      deleted := canvas.DeleteSelectedRoi();
      if deleted {
        OnRoiDeleted(sel);
      }
    }

    /** Deleting the selected ROI with the id taken before the removal: the
        deleted ROI's crops go and every other crop stays. */
    method DeleteSelected() returns (deleted: bool)
      requires canvas.collection.Valid()
      modifies this, canvas, canvas.collection
      ensures var sel := old(canvas.collection.selectedIndex);
        deleted == (sel >= 0)
        && (deleted ==>
              canvas.collection.rois == RemoveAt(old(canvas.collection.rois), sel)
              && pendingCrops == AfterDelete(old(canvas.collection.rois), old(pendingCrops), sel))
        && (!deleted ==> pendingCrops == old(pendingCrops) && canvas.collection.rois == old(canvas.collection.rois))
      ensures canvas.collection.Valid()
    {
      var sel := canvas.collection.selectedIndex;
      if sel >= 0 {
        var id := canvas.collection.rois[sel].roiId;
        deleted := canvas.DeleteSelectedRoi();
        pendingCrops := WithoutRoi(pendingCrops, id);
      } else {
        deleted := canvas.DeleteSelectedRoi();
      }
    }

    /** The duplicate check of continuous mode: some ROI on the canvas is
        near the detection. */
    method HasNearDuplicate(roi: Roi) returns (dup: bool)
      ensures dup <==> exists k :: 0 <= k < |canvas.collection.rois| && Near(canvas.collection.rois[k], roi)
    {
      var rois := canvas.collection.rois;
      var i := 0;
      while i < |rois|
        invariant 0 <= i <= |rois|
        invariant forall k :: 0 <= k < i ==> !Near(rois[k], roi)
      {
        if Near(rois[i], roi) {
          return true;
        }
        i := i + 1;
      }
      return false;
    }

    /** `on_point_clicked` after detection: `detected` is the detector's
        result and `answer` the name typed in the naming dialog (None when
        cancelled or empty). In continuous mode a near duplicate is skipped
        and no dialog is shown; otherwise the ROI is named, typed "image",
        added, selected and appended to the export list. */
    method OnPointDetected(detected: Option<Roi>, continuous: bool, answer: Option<string>)
      requires canvas.collection.Valid()
      modifies this, canvas.collection
      ensures canvas.collection.Valid()
      ensures detected.None? ==>
        pendingCrops == old(pendingCrops) && canvas.collection.rois == old(canvas.collection.rois)
        && canvas.collection.nameCounter == old(canvas.collection.nameCounter)
      ensures detected.Some? && continuous
              && (exists k :: 0 <= k < old(|canvas.collection.rois|) && Near(old(canvas.collection.rois[k]), detected.value))
              ==> pendingCrops == old(pendingCrops) && canvas.collection.rois == old(canvas.collection.rois)
                  && canvas.collection.nameCounter == old(canvas.collection.nameCounter)
      ensures detected.Some? && continuous
              && (forall k :: 0 <= k < old(|canvas.collection.rois|) ==> !Near(old(canvas.collection.rois[k]), detected.value))
              ==>
        var named := Named(detected.value, old(canvas.collection.nameCounter));
        var roi := named.0;
        canvas.collection.rois == old(canvas.collection.rois) + [roi]
        && canvas.collection.nameCounter == named.1
        && canvas.collection.selectedIndex == old(|canvas.collection.rois|)
        && pendingCrops == old(pendingCrops) + [PendingCrop(None, roi, roi.name, "auto_detect")]
      ensures detected.Some? && !continuous ==>
        var dflt := "auto_" + NatToString(old(|pendingCrops|) + 1);
        var name := if answer.Some? && answer.value != "" then answer.value else dflt;
        var roi := detected.value.(name := name, roiType := "image", nodeName := name);
        canvas.collection.rois == old(canvas.collection.rois) + [roi]
        && canvas.collection.nameCounter == old(canvas.collection.nameCounter)
        && canvas.collection.selectedIndex == old(|canvas.collection.rois|)
        && pendingCrops == old(pendingCrops) + [PendingCrop(None, roi, name, "auto_detect")]
    {
      if detected.None? {
        return;
      }
      var roi := detected.value;
      if continuous {
        var dup := HasNearDuplicate(roi);
        if dup {
          return;
        }
      } else {
        var dflt := "auto_" + NatToString(|pendingCrops| + 1);
        var name := if answer.Some? && answer.value != "" then answer.value else dflt;
        roi := roi.(name := name, roiType := "image", nodeName := name);
      }
      var idx := canvas.collection.Add(roi);
      canvas.collection.selectedIndex := idx;
      var added := canvas.collection.rois[idx];
      pendingCrops := pendingCrops + [PendingCrop(None, added, added.name, "auto_detect")];
    }
  }
}
