/** The ROI record (a named rectangle of a screenshot plus the automation
    settings attached to it), its dictionary form, and the ordered ROI
    collection with its selection and automatic naming. */
module RoiModel {
  import opened Wrappers
  import opened Text
  import opened QtGeometry

  /** One ROI. The creation and modification timestamps are not modelled;
      `roiId` is the short random id, supplied by the caller. */
  datatype Roi = Roi(
    x: int, y: int, width: int, height: int,
    name: string, nodeName: string, imageName: string,
    roiType: string, action: string,
    clickMode: string, clickCount: int, clickInterval: int,
    swipeDirection: string, swipeSpeed: int,
    imageAction: string,
    roiId: string, color: string, tags: seq<string>, imagePath: string)

  /** A freshly constructed ROI with every field at its declared default. */
  function DefaultRoi(id: string): Roi {
    Roi(0, 0, 0, 0, "", "", "", "image", "", "single", 1, 500, "top_to_bottom", 400, "detect",
        id, "#00FF00", [], "")
  }

  // ---------------------------------------------------------------- geometry

  /** The `rect` property: QRect(x, y, width, height). */
  function RectOf(r: Roi): QRect {
    FromXYWH(r.x, r.y, r.width, r.height)
  }

  /** The `rect` setter: position and size taken from a QRect. */
  function SetRect(r: Roi, q: QRect): (s: Roi)
    ensures s == r.(x := s.x, y := s.y, width := s.width, height := s.height)
  {
    r.(x := q.Left(), y := q.Top(), width := q.Width(), height := q.Height())
  }

  /** Setting a rectangle and reading it back gives the same rectangle, and
      writing back the rectangle an ROI already has changes nothing. */
  lemma RectRoundTrip(r: Roi, q: QRect)
    ensures RectOf(SetRect(r, q)) == q
    ensures SetRect(r, RectOf(r)) == r
  {
  }

  /** The `center` property, with Python's floor division. */
  function Center(r: Roi): (c: (int, int))
    ensures 2 * (c.0 - r.x) <= r.width <= 2 * (c.0 - r.x) + 1
    ensures 2 * (c.1 - r.y) <= r.height <= 2 * (c.1 - r.y) + 1
  {
    (r.x + r.width / 2, r.y + r.height / 2)
  }

  function Area(r: Roi): int { r.width * r.height }

  /** The `right` property: one past the last column (unlike QRect::right()). */
  function Right(r: Roi): int { r.x + r.width }

  /** The `bottom` property: one past the last row (unlike QRect::bottom()). */
  function Bottom(r: Roi): int { r.y + r.height }

  /** `contains(point)`: delegated to QRect::contains. */
  predicate ContainsPoint(r: Roi, p: Point) {
    QtGeometry.Contains(RectOf(r), p)
  }

  /** For an ROI of non-negative size the derived edges are one past Qt's
      inclusive edges, the area is the QRect's, a point is inside exactly
      when it lies in [x, right) x [y, bottom), and a non-empty ROI contains
      its own center. */
  lemma DerivedGeometry(r: Roi, p: Point)
    requires r.width >= 0 && r.height >= 0
    ensures Right(r) == RectOf(r).Right() + 1 && Bottom(r) == RectOf(r).Bottom() + 1
    ensures Area(r) == RectOf(r).Width() * RectOf(r).Height()
    ensures ContainsPoint(r, p) <==> r.x <= p.x < Right(r) && r.y <= p.y < Bottom(r)
    ensures r.width >= 1 && r.height >= 1 ==> ContainsPoint(r, Point(Center(r).0, Center(r).1))
  {
    ContainsNormalized(RectOf(r), p);
    ContainsNormalized(RectOf(r), Point(Center(r).0, Center(r).1));
  }

  /** `translate(dx, dy)`: moves the ROI and changes nothing else. */
  function Translate(r: Roi, dx: int, dy: int): (t: Roi)
    ensures t.x == r.x + dx && t.y == r.y + dy
    ensures t == r.(x := t.x, y := t.y)
  {
    r.(x := r.x + dx, y := r.y + dy)
  }

  /** Translation is undone by the opposite translation, keeps the size, and
      moves the set of contained points along with it. */
  lemma TranslateProperties(r: Roi, dx: int, dy: int, p: Point)
    ensures Translate(Translate(r, dx, dy), -dx, -dy) == r
    ensures Area(Translate(r, dx, dy)) == Area(r)
    ensures ContainsPoint(Translate(r, dx, dy), Point(p.x + dx, p.y + dy)) == ContainsPoint(r, p)
    ensures RectOf(Translate(r, dx, dy)) == Translated(RectOf(r), dx, dy)
  {
  }

  /** `copy()`: a new ROI (with a new id) that keeps only the geometry, the
      colour and the tags, and whose name is the old name plus "_copy". */
  function Copy(r: Roi, freshId: string): (c: Roi)
    ensures c.x == r.x && c.y == r.y && c.width == r.width && c.height == r.height
    ensures c.color == r.color && c.tags == r.tags
    ensures c.name == r.name + "_copy" && c.name != ""
    ensures c == DefaultRoi(freshId).(x := c.x, y := c.y, width := c.width, height := c.height,
                                      name := c.name, color := c.color, tags := c.tags)
  {
    DefaultRoi(freshId).(x := r.x, y := r.y, width := r.width, height := r.height,
                         name := r.name + "_copy", color := r.color, tags := r.tags)
  }

  // ------------------------------------------------------------ dict form

  /** JSON values as they appear in the dictionary form of an ROI. */
  datatype Json = JStr(str: string) | JInt(num: int) | JList(items: seq<Json>) | JObject(fields: map<string, Json>)

  /** The keys the dictionary form uses; `KeyName` is the key's spelling
      in the saved JSON. Keys outside this vocabulary are ignored on load. */
  datatype Key =
    | KId | KName | KNodeName | KRoiType | KX | KY | KWidth | KHeight | KCenter
    | KImageName | KImageAction | KAction | KClickMode | KClickCount | KClickInterval
    | KSwipeDirection | KSwipeSpeed | KColor | KTags | KImagePath

  function KeyName(k: Key): string {
    match k
    case KId => "id"
    case KName => "name"
    case KNodeName => "node_name"
    case KRoiType => "roi_type"
    case KX => "x"
    case KY => "y"
    case KWidth => "width"
    case KHeight => "height"
    case KCenter => "center"
    case KImageName => "image_name"
    case KImageAction => "image_action"
    case KAction => "action"
    case KClickMode => "click_mode"
    case KClickCount => "click_count"
    case KClickInterval => "click_interval"
    case KSwipeDirection => "swipe_direction"
    case KSwipeSpeed => "swipe_speed"
    case KColor => "color"
    case KTags => "tags"
    case KImagePath => "image_path"
  }

  type Dict = map<Key, Json>

  /** The nine keys every ROI saves. */
  predicate IsBaseKey(k: Key) {
    k.KId? || k.KName? || k.KNodeName? || k.KRoiType? || k.KX? || k.KY? || k.KWidth? || k.KHeight? || k.KCenter?
  }

  /** An image ROI saves its image settings; any other ROI saves its action. */
  predicate IsImage(r: Roi) {
    r.roiType == "image"
  }

  /** A non-image ROI whose action is "click" saves the click settings. */
  predicate SavesClick(r: Roi) {
    !IsImage(r) && r.action == "click"
  }

  /** A non-image ROI whose action is "swipe" saves the swipe settings. */
  predicate SavesSwipe(r: Roi) {
    !IsImage(r) && r.action == "swipe"
  }

  /** Whether `to_dict` writes key `k` for `r`: the base keys always, the
      image keys for an image ROI, or else the action and the settings of
      that action; never the colour, the tags or the image path. */
  predicate Saved(r: Roi, k: Key) {
    match k
    case KImageName | KImageAction => IsImage(r)
    case KAction => !IsImage(r)
    case KClickMode | KClickCount | KClickInterval => SavesClick(r)
    case KSwipeDirection | KSwipeSpeed => SavesSwipe(r)
    case KColor | KTags | KImagePath => false
    case _ => true
  }

  /** The JSON value of the ROI's field behind key `k`; the centre is the
      `[cx, cy]` pair. */
  function FieldValue(r: Roi, k: Key): Json {
    match k
    case KId => JStr(r.roiId)
    case KName => JStr(r.name)
    case KNodeName => JStr(r.nodeName)
    case KRoiType => JStr(r.roiType)
    case KX => JInt(r.x)
    case KY => JInt(r.y)
    case KWidth => JInt(r.width)
    case KHeight => JInt(r.height)
    case KCenter => JList([JInt(Center(r).0), JInt(Center(r).1)])
    case KImageName => JStr(r.imageName)
    case KImageAction => JStr(r.imageAction)
    case KAction => JStr(r.action)
    case KClickMode => JStr(r.clickMode)
    case KClickCount => JInt(r.clickCount)
    case KClickInterval => JInt(r.clickInterval)
    case KSwipeDirection => JStr(r.swipeDirection)
    case KSwipeSpeed => JInt(r.swipeSpeed)
    case KColor => JStr(r.color)
    case KTags => JList(StrList(r.tags))
    case KImagePath => JStr(r.imagePath)
  }

  /** A list of strings as a JSON list. */
  function StrList(ss: seq<string>): seq<Json> {
    seq(|ss|, i requires 0 <= i < |ss| => JStr(ss[i]))
  }

  /** `to_dict()`: every saved key mapped to its field's value. */
  function ToDict(r: Roi): Dict {
    map k | Saved(r, k) :: FieldValue(r, k)
  }

  /** Key `k` is in the dictionary exactly when it is saved, and then it
      holds its field's value. */
  lemma ToDictEntry(r: Roi, k: Key)
    ensures (k in ToDict(r)) == Saved(r, k)
    ensures Saved(r, k) ==> ToDict(r)[k] == FieldValue(r, k)
  {
  }

  /** The dictionary always has the nine base keys and never the colour,
      the tags or the image path. */
  lemma ToDictFixedKeys(r: Roi)
    ensures forall k :: IsBaseKey(k) ==> k in ToDict(r)
    ensures KColor !in ToDict(r) && KTags !in ToDict(r) && KImagePath !in ToDict(r)
  {
  }

  /** The image keys are there exactly for an image ROI, the action
      exactly otherwise. */
  lemma ToDictTypeKeys(r: Roi)
    ensures (KImageName in ToDict(r)) == IsImage(r) && (KImageAction in ToDict(r)) == IsImage(r)
    ensures (KAction in ToDict(r)) == !IsImage(r)
  {
  }

  /** The click settings are there exactly for a click region, the swipe
      settings exactly for a swipe region. */
  lemma ToDictActionKeys(r: Roi)
    ensures (KClickMode in ToDict(r)) == SavesClick(r)
    ensures (KClickCount in ToDict(r)) == SavesClick(r) && (KClickInterval in ToDict(r)) == SavesClick(r)
    ensures (KSwipeDirection in ToDict(r)) == SavesSwipe(r) && (KSwipeSpeed in ToDict(r)) == SavesSwipe(r)
  {
  }

  /** `data.get(key, default)` for a string field. */
  function GetStr(d: Dict, k: Key, dflt: string): string {
    if k in d && d[k].JStr? then d[k].str else dflt
  }

  /** `data.get(key, default)` for an integer field. */
  function GetInt(d: Dict, k: Key, dflt: int): int {
    if k in d && d[k].JInt? then d[k].num else dflt
  }

  /** `data.get(key, [])` for a list of strings. */
  function GetStrList(d: Dict, k: Key): seq<string> {
    if k in d && d[k].JList? && forall i :: 0 <= i < |d[k].items| ==> d[k].items[i].JStr? then
      seq(|d[k].items|, i requires 0 <= i < |d[k].items| && d[k].items[i].JStr? => d[k].items[i].str)
    else []
  }

  /** `from_dict(data)`: every field read with its default (see
      `FromDictDefaults`); `freshId` is the random id used when the
      dictionary has none. */
  function FromDict(d: Dict, freshId: string): Roi
  {
    Roi(GetInt(d, KX, 0), GetInt(d, KY, 0), GetInt(d, KWidth, 0), GetInt(d, KHeight, 0),
        GetStr(d, KName, ""), GetStr(d, KNodeName, ""), GetStr(d, KImageName, ""),
        GetStr(d, KRoiType, "image"), GetStr(d, KAction, ""),
        GetStr(d, KClickMode, "single"), GetInt(d, KClickCount, 1), GetInt(d, KClickInterval, 500),
        GetStr(d, KSwipeDirection, "top_to_bottom"), GetInt(d, KSwipeSpeed, 400),
        GetStr(d, KImageAction, "detect"),
        GetStr(d, KId, freshId), GetStr(d, KColor, "#00FF00"), GetStrList(d, KTags),
        GetStr(d, KImagePath, ""))
  }

  /** Each absent key loads as its field's default. */
  lemma FromDictDefaults(d: Dict, freshId: string)
    ensures KId !in d ==> FromDict(d, freshId).roiId == freshId
    ensures KName !in d ==> FromDict(d, freshId).name == ""
    ensures KRoiType !in d ==> FromDict(d, freshId).roiType == "image"
    ensures KAction !in d ==> FromDict(d, freshId).action == ""
    ensures KImageAction !in d ==> FromDict(d, freshId).imageAction == "detect"
    ensures KColor !in d ==> FromDict(d, freshId).color == "#00FF00"
  {
  }

  /** Each absent setting loads as its default. */
  lemma FromDictSettingDefaults(d: Dict, freshId: string)
    ensures KClickMode !in d ==> FromDict(d, freshId).clickMode == "single"
    ensures KClickCount !in d ==> FromDict(d, freshId).clickCount == 1
    ensures KClickInterval !in d ==> FromDict(d, freshId).clickInterval == 500
    ensures KSwipeDirection !in d ==> FromDict(d, freshId).swipeDirection == "top_to_bottom"
    ensures KSwipeSpeed !in d ==> FromDict(d, freshId).swipeSpeed == 400
  {
  }

  /** The empty dictionary loads as the default ROI with the fresh id. */
  lemma FromDictEmpty(freshId: string)
    ensures FromDict(map[], freshId) == DefaultRoi(freshId)
  {
  }

  /** What of an ROI survives `to_dict` followed by `from_dict`: the id,
      names, type and geometry, and the settings `to_dict` emitted for the
      ROI's type and action; everything else is back at its default. */
  function Canonical(r: Roi): Roi {
    var isImage := IsImage(r);
    var isClick := SavesClick(r);
    var isSwipe := SavesSwipe(r);
    DefaultRoi(r.roiId).(
      x := r.x, y := r.y, width := r.width, height := r.height,
      name := r.name, nodeName := r.nodeName, roiType := r.roiType,
      imageName := if isImage then r.imageName else "",
      imageAction := if isImage then r.imageAction else "detect",
      action := if isImage then "" else r.action,
      clickMode := if isClick then r.clickMode else "single",
      clickCount := if isClick then r.clickCount else 1,
      clickInterval := if isClick then r.clickInterval else 500,
      swipeDirection := if isSwipe then r.swipeDirection else "top_to_bottom",
      swipeSpeed := if isSwipe then r.swipeSpeed else 400)
  }

  /** Loading a saved ROI gives back its canonical form; the fresh id is
      never used, since the dictionary always carries the id. */
  lemma DictRoundTrip(r: Roi, freshId: string)
    ensures FromDict(ToDict(r), freshId) == Canonical(r)
  {
    GeometryRoundTrip(r, freshId);
    IdentityRoundTrip(r, freshId);
    ImageSettingsRoundTrip(r, freshId);
    ClickSettingsRoundTrip(r, freshId);
    SwipeSettingsRoundTrip(r, freshId);
    UnsavedFieldsRoundTrip(r, freshId);
  }

  /** The geometry comes back unchanged. */
  lemma GeometryRoundTrip(r: Roi, freshId: string)
    ensures FromDict(ToDict(r), freshId).x == r.x && FromDict(ToDict(r), freshId).y == r.y
    ensures FromDict(ToDict(r), freshId).width == r.width && FromDict(ToDict(r), freshId).height == r.height
  {
    var d := ToDict(r);
    ToDictEntry(r, KX);
    ToDictEntry(r, KY);
    ToDictEntry(r, KWidth);
    ToDictEntry(r, KHeight);
    assert GetInt(d, KX, 0) == r.x && GetInt(d, KY, 0) == r.y;
    assert GetInt(d, KWidth, 0) == r.width && GetInt(d, KHeight, 0) == r.height;
  }

  /** The id, the names and the type come back unchanged. */
  lemma IdentityRoundTrip(r: Roi, freshId: string)
    ensures FromDict(ToDict(r), freshId).roiId == r.roiId && FromDict(ToDict(r), freshId).name == r.name
    ensures FromDict(ToDict(r), freshId).nodeName == r.nodeName
    ensures FromDict(ToDict(r), freshId).roiType == r.roiType
  {
    var d := ToDict(r);
    ToDictEntry(r, KId);
    ToDictEntry(r, KName);
    ToDictEntry(r, KNodeName);
    ToDictEntry(r, KRoiType);
    assert GetStr(d, KId, freshId) == r.roiId && GetStr(d, KName, "") == r.name;
    assert GetStr(d, KNodeName, "") == r.nodeName && GetStr(d, KRoiType, "image") == r.roiType;
  }

  /** The image settings come back for an image ROI and the action for any
      other; the ones not saved load as their defaults. */
  lemma ImageSettingsRoundTrip(r: Roi, freshId: string)
    ensures FromDict(ToDict(r), freshId).imageName == if IsImage(r) then r.imageName else ""
    ensures FromDict(ToDict(r), freshId).imageAction == if IsImage(r) then r.imageAction else "detect"
    ensures FromDict(ToDict(r), freshId).action == if IsImage(r) then "" else r.action
  {
    var d := ToDict(r);
    ToDictEntry(r, KImageName);
    ToDictEntry(r, KImageAction);
    ToDictEntry(r, KAction);
    assert GetStr(d, KImageName, "") == if IsImage(r) then r.imageName else "";
    assert GetStr(d, KImageAction, "detect") == if IsImage(r) then r.imageAction else "detect";
    assert GetStr(d, KAction, "") == if IsImage(r) then "" else r.action;
  }

  /** The click settings come back for a click region and load as their
      defaults otherwise. */
  lemma ClickSettingsRoundTrip(r: Roi, freshId: string)
    ensures FromDict(ToDict(r), freshId).clickMode == if SavesClick(r) then r.clickMode else "single"
    ensures FromDict(ToDict(r), freshId).clickCount == if SavesClick(r) then r.clickCount else 1
    ensures FromDict(ToDict(r), freshId).clickInterval == if SavesClick(r) then r.clickInterval else 500
  {
    var d := ToDict(r);
    ToDictEntry(r, KClickMode);
    ToDictEntry(r, KClickCount);
    ToDictEntry(r, KClickInterval);
    assert GetStr(d, KClickMode, "single") == if SavesClick(r) then r.clickMode else "single";
    assert GetInt(d, KClickCount, 1) == if SavesClick(r) then r.clickCount else 1;
    assert GetInt(d, KClickInterval, 500) == if SavesClick(r) then r.clickInterval else 500;
  }

  /** The swipe settings come back for a swipe region and load as their
      defaults otherwise. */
  lemma SwipeSettingsRoundTrip(r: Roi, freshId: string)
    ensures FromDict(ToDict(r), freshId).swipeDirection == if SavesSwipe(r) then r.swipeDirection else "top_to_bottom"
    ensures FromDict(ToDict(r), freshId).swipeSpeed == if SavesSwipe(r) then r.swipeSpeed else 400
  {
    var d := ToDict(r);
    ToDictEntry(r, KSwipeDirection);
    ToDictEntry(r, KSwipeSpeed);
    assert GetStr(d, KSwipeDirection, "top_to_bottom") == if SavesSwipe(r) then r.swipeDirection else "top_to_bottom";
    assert GetInt(d, KSwipeSpeed, 400) == if SavesSwipe(r) then r.swipeSpeed else 400;
  }

  /** The colour, tags and image path are never saved, so they load as
      their defaults. */
  lemma UnsavedFieldsRoundTrip(r: Roi, freshId: string)
    ensures FromDict(ToDict(r), freshId).color == "#00FF00"
    ensures FromDict(ToDict(r), freshId).tags == [] && FromDict(ToDict(r), freshId).imagePath == ""
  {
    var d := ToDict(r);
    ToDictEntry(r, KColor);
    ToDictEntry(r, KTags);
    ToDictEntry(r, KImagePath);
    assert GetStr(d, KColor, "#00FF00") == "#00FF00";
    assert GetStrList(d, KTags) == [] && GetStr(d, KImagePath, "") == "";
  }

  /** The canonical form saves to the same dictionary as the ROI itself. */
  lemma ToDictCanonical(r: Roi)
    ensures ToDict(Canonical(r)) == ToDict(r)
  {
    var c := Canonical(r);
    assert IsImage(c) == IsImage(r) && SavesClick(c) == SavesClick(r) && SavesSwipe(c) == SavesSwipe(r);
    assert Center(c) == Center(r);
    forall k
      ensures (k in ToDict(c)) == (k in ToDict(r))
      ensures k in ToDict(r) ==> ToDict(c)[k] == ToDict(r)[k]
    {
      ToDictEntry(c, k);
      ToDictEntry(r, k);
    }
  }

  /** Saving, loading and saving again writes what the first save wrote. */
  lemma SaveLoadSave(r: Roi, freshId: string)
    ensures ToDict(FromDict(ToDict(r), freshId)) == ToDict(r)
  {
    DictRoundTrip(r, freshId);
    ToDictCanonical(r);
  }

  // ----------------------------------------------------------- collection

  /** The prefix of automatic names. */
  const AutoPrefix: string := "ROI_"

  /** The automatic name "ROI_NNN" (counter zero-padded to three digits). */
  function AutoName(n: nat): (s: string)
    ensures |s| >= 7
  {
    AutoPrefix + ZeroPad(n, 3)
  }

  /** Leading zeros do not change the value of a digit string. */
  lemma {:induction false} DigitsValueLeadingZeros(z: string, d: string)
    requires IsDigits(d) && forall i :: 0 <= i < |z| ==> z[i] == '0'
    ensures IsDigits(z + d) && DigitsValue(z + d) == DigitsValue(d)
  {
    if |d| == 0 {
      assert z + d == z;
      AllZerosValue(z);
    } else {
      var d' := d[..|d| - 1];
      DigitsValueLeadingZeros(z, d');
      assert (z + d)[..|z + d| - 1] == z + d';
    }
  }

  lemma {:induction false} AllZerosValue(z: string)
    requires forall i :: 0 <= i < |z| ==> z[i] == '0'
    ensures IsDigits(z) && DigitsValue(z) == 0
  {
    if |z| > 0 {
      AllZerosValue(z[..|z| - 1]);
    }
  }

  /** Zero-padding keeps the value, so it is injective. */
  lemma ZeroPadValue(n: nat, w: nat)
    ensures IsDigits(ZeroPad(n, w)) && DigitsValue(ZeroPad(n, w)) == n
  {
    var s := ZeroPad(n, w);
    var k := |s| - |NatToString(n)|;
    assert s == s[..k] + NatToString(n);
    DigitsValueLeadingZeros(s[..k], NatToString(n));
    NatToStringRoundTrip(n);
  }

  /** A fixed prefix followed by a zero-padded number determines the number. */
  lemma PrefixedZeroPadInjective(p: string, m: nat, n: nat, w: nat)
    requires p + ZeroPad(m, w) == p + ZeroPad(n, w)
    ensures m == n
  {
    assert (p + ZeroPad(m, w))[|p|..] == ZeroPad(m, w);
    assert (p + ZeroPad(n, w))[|p|..] == ZeroPad(n, w);
    ZeroPadValue(m, w);
    ZeroPadValue(n, w);
  }

  /** The automatic name is "ROI_" followed by digits that read back as the
      counter, so the counter can be recovered from the name. */
  lemma AutoNameDigits(n: nat)
    ensures AutoName(n)[..4] == "ROI_"
    ensures IsDigits(AutoName(n)[4..]) && DigitsValue(AutoName(n)[4..]) == n
  {
    var s := AutoName(n);
    assert |AutoPrefix| == 4;
    assert s[..4] == AutoPrefix == "ROI_";
    assert s[4..] == ZeroPad(n, 3);
    ZeroPadValue(n, 3);
  }

  /** Different counter values give different automatic names. */
  lemma AutoNameInjective(m: nat, n: nat)
    requires AutoName(m) == AutoName(n)
    ensures m == n
  {
    AutoNameDigits(m);
    AutoNameDigits(n);
  }

  /** The index of the first ROI containing `p`, or -1. */
  function FirstContaining(rs: seq<Roi>, p: Point): (i: int)
    ensures -1 <= i < |rs|
    ensures i >= 0 ==> ContainsPoint(rs[i], p)
    ensures forall k :: 0 <= k < |rs| && (i == -1 || k < i) ==> !ContainsPoint(rs[k], p)
  {
    if |rs| == 0 then -1
    else if ContainsPoint(rs[0], p) then 0
    else
      var j := FirstContaining(rs[1..], p);
      if j == -1 then -1 else j + 1
  }

  /** The index of the last ROI containing `p` (the topmost one drawn), or -1. */
  function LastContaining(rs: seq<Roi>, p: Point): (i: int)
    ensures -1 <= i < |rs|
    ensures i >= 0 ==> ContainsPoint(rs[i], p)
    ensures forall k :: 0 <= k < |rs| && k > i ==> !ContainsPoint(rs[k], p)
  {
    if |rs| == 0 then -1
    else if ContainsPoint(rs[|rs| - 1], p) then |rs| - 1
    else LastContaining(rs[..|rs| - 1], p)
  }

  /** The sequence without its element at `i`. */
  function RemoveAt<T>(s: seq<T>, i: int): (t: seq<T>)
    requires 0 <= i < |s|
    ensures |t| == |s| - 1
    ensures forall k :: 0 <= k < i ==> t[k] == s[k]
    ensures forall k :: i <= k < |t| ==> t[k] == s[k + 1]
  {
    s[..i] + s[i + 1..]
  }

  /** The selected index after the element at `removed` is deleted. */
  function SelectionAfterRemove(sel: int, removed: int): int {
    if sel == removed then -1 else if sel > removed then sel - 1 else sel
  }

  /** After a removal the selection is still in range and still designates
      the same ROI, unless that ROI was the one removed (or none was
      selected), in which case nothing is selected. */
  lemma SelectionFollowsRoi(rs: seq<Roi>, sel: int, removed: int)
    requires -1 <= sel < |rs| && 0 <= removed < |rs|
    ensures var s := SelectionAfterRemove(sel, removed);
      -1 <= s < |rs| - 1
      && (s == -1 <==> sel == -1 || sel == removed)
      && (s >= 0 ==> RemoveAt(rs, removed)[s] == rs[sel])
  {
  }

  /** The name `add` gives a ROI named `name` and the counter after it:
      an empty name is replaced by the next automatic name. */
  function NextName(name: string, counter: nat): (r: (string, nat))
    ensures |r.0| > 0
    ensures |name| > 0 ==> r == (name, counter)
    ensures |name| == 0 ==> r.1 == counter + 1 && r.0 == AutoName(r.1)
  {
    if |name| == 0 then (AutoName(counter + 1), counter + 1) else (name, counter)
  }

  /** The ROI stored by `add` and the counter after it: only the name can
      change. */
  function Named(roi: Roi, counter: nat): (r: (Roi, nat))
    ensures r.0 == roi.(name := NextName(roi.name, counter).0)
    ensures r.1 == NextName(roi.name, counter).1
  {
    var (name, next) := NextName(roi.name, counter);
    (roi.(name := name), next)
  }

  /** The entries of `data` as `from_dict` reads them, `freshIds[i]`
      being the random id of entry i. */
  function Loaded(data: seq<Dict>, freshIds: seq<string>): (r: seq<Roi>)
    requires |freshIds| == |data|
    ensures |r| == |data|
    ensures forall i :: 0 <= i < |data| ==> r[i] == FromDict(data[i], freshIds[i])
  {
    if |data| == 0 then []
    else
      var n := |data| - 1;
      Loaded(data[..n], freshIds[..n]) + [FromDict(data[n], freshIds[n])]
  }

  /** How many of `rs` have no name. */
  function UnnamedCount(rs: seq<Roi>): nat {
    if |rs| == 0 then 0
    else UnnamedCount(rs[..|rs| - 1]) + (if rs[|rs| - 1].name == "" then 1 else 0)
  }

  /** The ROIs `add` stores for `rs`, one after another, with the name
      counter starting at `counter`: before each ROI the counter has moved
      on once for every unnamed ROI added so far. */
  function NameAll(rs: seq<Roi>, counter: nat): (r: seq<Roi>)
    ensures |r| == |rs|
  {
    if |rs| == 0 then []
    else
      var n := |rs| - 1;
      NameAll(rs[..n], counter) + [Named(rs[n], counter + UnnamedCount(rs[..n])).0]
  }

  /** The i-th ROI stored is the i-th of `rs` as `add` stores it when the
      counter has moved on once for each unnamed ROI before it. */
  lemma {:induction false} NameAllAt(rs: seq<Roi>, counter: nat, i: nat)
    requires i < |rs|
    ensures NameAll(rs, counter)[i] == Named(rs[i], counter + UnnamedCount(rs[..i])).0
  {
    if i < |rs| - 1 {
      NameAllAt(rs[..|rs| - 1], counter, i);
      NameAllPrefix(rs, counter, i);
    } else {
      NameAllLast(rs, counter);
    }
  }

  /** An entry before the last one is named as it was in the shorter list. */
  lemma NameAllPrefix(rs: seq<Roi>, counter: nat, i: nat)
    requires i < |rs| - 1
    ensures NameAll(rs, counter)[i] == NameAll(rs[..|rs| - 1], counter)[i]
    ensures rs[..|rs| - 1][i] == rs[i] && rs[..|rs| - 1][..i] == rs[..i]
  {
  }

  /** The last entry is named after the unnamed entries before it. */
  lemma NameAllLast(rs: seq<Roi>, counter: nat)
    requires |rs| > 0
    ensures NameAll(rs, counter)[|rs| - 1] == Named(rs[|rs| - 1], counter + UnnamedCount(rs[..|rs| - 1])).0
  {
  }

  /** Adding names the unnamed ROIs one after another: an ROI with k
      unnamed ones before it is called `AutoName(counter + k + 1)`, a named
      one keeps its name, and no other field changes. */
  lemma NameAllNames(rs: seq<Roi>, counter: nat, i: nat)
    requires i < |rs|
    ensures var stored := NameAll(rs, counter)[i];
      stored.name == (if rs[i].name == "" then AutoName(counter + UnnamedCount(rs[..i]) + 1) else rs[i].name)
      && stored.(name := rs[i].name) == rs[i]
  {
    NameAllAt(rs, counter, i);
    NamedFields(rs[i], counter + UnnamedCount(rs[..i]));
  }

  /** What `Named` changes: the name alone. */
  lemma NamedFields(roi: Roi, counter: nat)
    ensures var stored := Named(roi, counter).0;
      stored.name == (if roi.name == "" then AutoName(counter + 1) else roi.name)
      && stored.(name := roi.name) == roi
  {
  }

  /** The ROI list of the screenshot, the selected index (-1 for none) and
      the counter behind automatic names. */
  class RoiCollection {
    var rois: seq<Roi>
    var selectedIndex: int
    var nameCounter: nat

    /** The invariant the collection's own methods keep. */
    predicate Valid()
      reads this
    {
      -1 <= selectedIndex < |rois|
    }

    constructor ()
      ensures rois == [] && selectedIndex == -1 && nameCounter == 0 && Valid()
    {
      rois := [];
      selectedIndex := -1;
      nameCounter := 0;
    }

    /** `add(roi)`: appends the ROI, naming it first if it has no name, and
        returns its index. */
    method Add(roi: Roi) returns (index: int)
      modifies this
      ensures index == old(|rois|) && rois == old(rois) + [Named(roi, old(nameCounter)).0]
      ensures nameCounter == Named(roi, old(nameCounter)).1
      ensures selectedIndex == old(selectedIndex)
      ensures old(Valid()) ==> Valid()
    {
      var stored := roi;
      if roi.name == "" {
        nameCounter := nameCounter + 1;
        stored := roi.(name := AutoName(nameCounter));
      }
      rois := rois + [stored];
      index := |rois| - 1;
    }

    /** `remove(index)`: deletes exactly that ROI if the index is in range
        and keeps the selection on the same ROI. */
    method Remove(index: int) returns (removed: bool)
      modifies this
      ensures removed == (0 <= index < old(|rois|))
      ensures removed ==>
        rois == RemoveAt(old(rois), index) && selectedIndex == SelectionAfterRemove(old(selectedIndex), index)
      ensures !removed ==> rois == old(rois) && selectedIndex == old(selectedIndex)
      ensures nameCounter == old(nameCounter)
      ensures old(Valid()) ==> Valid()
    {
      if 0 <= index < |rois| {
        rois := rois[..index] + rois[index + 1..];
        if selectedIndex == index {
          selectedIndex := -1;
        } else if selectedIndex > index {
          selectedIndex := selectedIndex - 1;
        }
        removed := true;
      } else {
        removed := false;
      }
    }

    /** `remove_selected()`. */
    method RemoveSelected() returns (removed: bool)
      modifies this
      ensures removed == (0 <= old(selectedIndex) < old(|rois|))
      ensures removed ==> rois == RemoveAt(old(rois), old(selectedIndex)) && selectedIndex == -1
      ensures !removed ==> rois == old(rois) && selectedIndex == old(selectedIndex)
      ensures nameCounter == old(nameCounter)
    {
      if selectedIndex >= 0 {
        removed := Remove(selectedIndex);
      } else {
        removed := false;
      }
    }

    /** `get(index)`. */
    function Get(index: int): (r: Option<Roi>)
      reads this
      ensures r.Some? <==> 0 <= index < |rois|
      ensures r.Some? ==> r.value == rois[index]
    {
      if 0 <= index < |rois| then Some(rois[index]) else None
    }

    /** `get_selected()`. */
    function GetSelected(): (r: Option<Roi>)
      reads this
      ensures r.Some? <==> 0 <= selectedIndex < |rois|
      ensures r.Some? ==> r.value == rois[selectedIndex]
    {
      Get(selectedIndex)
    }

    /** `select(index)`: an out-of-range index clears the selection. */
    method Select(index: int)
      modifies this
      ensures selectedIndex == if 0 <= index < |rois| then index else -1
      ensures rois == old(rois) && nameCounter == old(nameCounter)
      ensures Valid()
    {
      if 0 <= index < |rois| {
        selectedIndex := index;
      } else {
        selectedIndex := -1;
      }
    }

    /** `select_by_point(point)`: selects and returns the first ROI that
        contains the point, or -1. */
    method SelectByPoint(p: Point) returns (i: int)
      modifies this
      ensures i == FirstContaining(rois, p) && selectedIndex == i
      ensures rois == old(rois) && nameCounter == old(nameCounter)
      ensures Valid()
    {
      var k := 0;
      while k < |rois|
        invariant 0 <= k <= |rois|
        invariant forall j :: 0 <= j < k ==> !ContainsPoint(rois[j], p)
      {
        if ContainsPoint(rois[k], p) {
          selectedIndex := k;
          return k;
        }
        k := k + 1;
      }
      selectedIndex := -1;
      i := -1;
    }

    /** `copy_selected()`: appends a copy of the selected ROI moved by
        (20, 20) and selects it. */
    method CopySelected(freshId: string) returns (copied: Option<Roi>)
      modifies this
      ensures copied.Some? <==> 0 <= old(selectedIndex) < old(|rois|)
      ensures copied.Some? ==>
        copied.value == Translate(Copy(old(rois[selectedIndex]), freshId), 20, 20)
        && rois == old(rois) + [copied.value] && selectedIndex == |rois| - 1
      ensures copied.None? ==> rois == old(rois) && selectedIndex == old(selectedIndex)
      ensures nameCounter == old(nameCounter)
      ensures old(Valid()) ==> Valid()
    {
      var selected := GetSelected();
      if selected.Some? {
        var newRoi := Translate(Copy(selected.value, freshId), 20, 20);
        var _ := Add(newRoi);
        selectedIndex := |rois| - 1;
        copied := Some(newRoi);
      } else {
        copied := None;
      }
    }

    /** `clear()`. */
    method Clear()
      modifies this
      ensures rois == [] && selectedIndex == -1 && nameCounter == 0
    {
      rois := [];
      selectedIndex := -1;
      nameCounter := 0;
    }

    /** `move_roi(index, delta)`: translates one ROI; out of range is ignored. */
    method MoveRoi(index: int, dx: int, dy: int)
      modifies this
      ensures 0 <= index < old(|rois|) ==> rois == old(rois)[index := Translate(old(rois[index]), dx, dy)]
      ensures !(0 <= index < old(|rois|)) ==> rois == old(rois)
      ensures selectedIndex == old(selectedIndex) && nameCounter == old(nameCounter)
    {
      if 0 <= index < |rois| {
        rois := rois[index := Translate(rois[index], dx, dy)];
      }
    }

    /** `to_list()`. */
    function ToList(): (l: seq<Dict>)
      reads this
      ensures |l| == |rois| && forall i :: 0 <= i < |rois| ==> l[i] == ToDict(rois[i])
    {
      seq(|rois|, i requires 0 <= i < |rois| reads this => ToDict(rois[i]))
    }

    /** `from_list(data)`: clears, then adds the ROI read from each
        dictionary in order; `freshIds[i]` is the random id for entry i. */
    method FromList(data: seq<Dict>, freshIds: seq<string>)
      requires |freshIds| == |data|
      modifies this
      ensures rois == NameAll(Loaded(data, freshIds), 0)
      ensures nameCounter == UnnamedCount(Loaded(data, freshIds))
      ensures selectedIndex == -1 && Valid()
    {
      Clear();
      ghost var loaded := Loaded(data, freshIds);
      var i := 0;
      while i < |data|
        invariant 0 <= i <= |data|
        invariant rois == NameAll(loaded[..i], 0) && nameCounter == UnnamedCount(loaded[..i])
        invariant selectedIndex == -1
      {
        var roi := FromDict(data[i], freshIds[i]);
        assert roi == loaded[i] && loaded[..i + 1][..i] == loaded[..i];
        var _ := Add(roi);
        i := i + 1;
      }
      assert loaded[..i] == loaded;
    }
  }
}
