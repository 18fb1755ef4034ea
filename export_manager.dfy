/** The exporters (src/core/export_manager.py): the code snippet for one
    ROI, the lines of the Auto.js script, the record saved as JSON, and
    `export_all`, which runs every exporter and keeps the ones that did not
    fail. Clock readings and the outcome of each file write are
    parameters. */
module ExportManager {
  import opened Wrappers
  import opened Text
  import opened RoiModel

  /** How an f-string prints an int. */
  function Num(i: int): string {
    IntToString(i)
  }

  /** The geometry as the snippets print it: "x, y, w, h". */
  function Box(roi: Roi): string {
    Cat([Num(roi.x), ", ", Num(roi.y), ", ", Num(roi.width), ", ", Num(roi.height)])
  }

  /** The centre as the snippets print it: "cx, cy". */
  function CenterText(roi: Roi): string {
    Cat([Num(Center(roi).0), ", ", Num(Center(roi).1)])
  }

  // -------------------------------------------------------- one snippet

  /** The Auto.js snippet: a comment, the box, the click at the centre,
      and a findImage comment for a ROI with an image. */
  function AutojsSnippet(roi: Roi): seq<string> {
    [Cat(["// ROI: ", roi.name]), Cat(["var roi_", roi.name, " = {", Box(roi), "};"]), Cat(["click(", CenterText(roi), ");"])]
    + (if roi.imagePath != "" then [Cat(["// findImage(\"./res/", Basename(roi.imagePath), "\");"])] else [])
  }

  /** The Python snippet: a comment, the bbox tuple and the click. */
  function PythonSnippet(roi: Roi): seq<string> {
    [Cat(["# ROI: ", roi.name]), Cat([roi.name, "_bbox = (", Box(roi), ")"]), Cat(["click(", CenterText(roi), ")"])]
  }

  /** The raw one-line form. */
  function RawSnippet(roi: Roi): string {
    Cat([roi.name, ": (", Box(roi), ") -> center: (", CenterText(roi), ")"])
  }

  /** The lines of `generate_code_snippet(roi, format)` before joining. */
  function SnippetLines(roi: Roi, format: string): seq<string> {
    if format == "autojs" then AutojsSnippet(roi)
    else if format == "python" then PythonSnippet(roi)
    else [RawSnippet(roi)]
  }

  /** `generate_code_snippet(roi, format)`: Auto.js, Python, or for any
      other format the one-line raw form. */
  function GenerateCodeSnippet(roi: Roi, format: string): (s: string)
    ensures format != "autojs" && format != "python" ==> s == RawSnippet(roi)
  {
    Join(SnippetLines(roi, format), '\n')
  }

  lemma NumOneLine(i: int)
    ensures '\n' !in Num(i)
  {
    var s := if i < 0 then NatToString(-i) else NatToString(i);
    assert IsDigits(s);
    assert '\n' !in s;
    assert Num(i) == if i < 0 then "-" + s else s;
  }

  lemma BasenameOneLine(p: string)
    requires '\n' !in p
    ensures '\n' !in Basename(p)
  {
    var r := Basename(p);
    BasenameSuffix(p);
    forall i | 0 <= i < |r| ensures r[i] != '\n' {
      assert r[i] == p[|p| - |r| + i];
    }
  }

  lemma BoxOneLine(roi: Roi)
    ensures '\n' !in Box(roi) && '\n' !in CenterText(roi)
  {
    NumOneLine(roi.x);
    NumOneLine(roi.y);
    NumOneLine(roi.width);
    NumOneLine(roi.height);
    CatAvoids([Num(roi.x), ", ", Num(roi.y), ", ", Num(roi.width), ", ", Num(roi.height)], '\n');
    NumOneLine(Center(roi).0);
    NumOneLine(Center(roi).1);
    CatAvoids([Num(Center(roi).0), ", ", Num(Center(roi).1)], '\n');
  }

  lemma AutojsSnippetOneLine(roi: Roi)
    requires '\n' !in roi.name && '\n' !in roi.imagePath
    ensures forall k :: 0 <= k < |AutojsSnippet(roi)| ==> '\n' !in AutojsSnippet(roi)[k]
  {
    BoxOneLine(roi);
    BasenameOneLine(roi.imagePath);
    CatAvoids(["// ROI: ", roi.name], '\n');
    CatAvoids(["var roi_", roi.name, " = {", Box(roi), "};"], '\n');
    CatAvoids(["click(", CenterText(roi), ");"], '\n');
    CatAvoids(["// findImage(\"./res/", Basename(roi.imagePath), "\");"], '\n');
  }

  lemma PythonSnippetOneLine(roi: Roi)
    requires '\n' !in roi.name
    ensures forall k :: 0 <= k < |PythonSnippet(roi)| ==> '\n' !in PythonSnippet(roi)[k]
  {
    BoxOneLine(roi);
    CatAvoids(["# ROI: ", roi.name], '\n');
    CatAvoids([roi.name, "_bbox = (", Box(roi), ")"], '\n');
    CatAvoids(["click(", CenterText(roi), ")"], '\n');
  }

  lemma RawSnippetOneLine(roi: Roi)
    requires '\n' !in roi.name
    ensures '\n' !in RawSnippet(roi)
  {
    BoxOneLine(roi);
    CatAvoids([roi.name, ": (", Box(roi), ") -> center: (", CenterText(roi), ")"], '\n');
  }

  /** With a name and image path free of newlines, no snippet line holds
      a newline. */
  lemma SnippetLinesOneLine(roi: Roi, format: string)
    requires '\n' !in roi.name && '\n' !in roi.imagePath
    ensures forall k :: 0 <= k < |SnippetLines(roi, format)| ==> '\n' !in SnippetLines(roi, format)[k]
  {
    if format == "autojs" {
      AutojsSnippetOneLine(roi);
    } else if format == "python" {
      PythonSnippetOneLine(roi);
    } else {
      RawSnippetOneLine(roi);
    }
  }

  /** Splitting a snippet at its newlines gives back its lines: three for
      Python, three plus a findImage comment exactly when the ROI has an
      image for Auto.js, and one for the raw form (names and paths without
      newlines). */
  lemma SnippetShape(roi: Roi, format: string)
    requires '\n' !in roi.name && '\n' !in roi.imagePath
    ensures Split(GenerateCodeSnippet(roi, format), '\n') == SnippetLines(roi, format)
    ensures format == "autojs" ==> |SnippetLines(roi, format)| == if roi.imagePath != "" then 4 else 3
    ensures format == "python" ==> |SnippetLines(roi, format)| == 3
    ensures format != "autojs" && format != "python" ==> |SnippetLines(roi, format)| == 1
  {
    SnippetLinesOneLine(roi, format);
    SplitJoin(SnippetLines(roi, format), '\n');
  }

  // ------------------------------------------------------ Auto.js script

  function AutojsHead(now: string): seq<string> {
    ["// Auto.js 脚本", Cat(["// 生成时间: ", now]), "", "// ROI区域定义", "const REGIONS = {"]
  }

  const AutojsMiddle: seq<string> := ["};", "", "// 点击函数"]
  const AutojsFindHeading: seq<string> := ["", "// 找图函数"]

  /** A ROI's entry in `REGIONS`. */
  function RegionLine(roi: Roi): string {
    Cat(["    \"", roi.name, "\": {", Cat(["x: ", Num(roi.x), ", y: ", Num(roi.y)]), ", ",
         Cat(["w: ", Num(roi.width), ", h: ", Num(roi.height)]), "},"])
  }

  /** A ROI's click function. */
  function ClickBlock(roi: Roi): seq<string> {
    [Cat(["function click_", roi.name, "() {"]), Cat(["    click(", CenterText(roi), ");"]), "}"]
  }

  /** A ROI's find function, which exists only for a ROI with an image. */
  function FindBlock(roi: Roi): seq<string> {
    [Cat(["function find_", roi.name, "() {"]),
     Cat(["    return images.findImage(captureScreen(), images.read(\"./res/", Basename(roi.imagePath), "\"));"]),
     "}"]
  }

  function Regions(rois: seq<Roi>): (r: seq<string>)
    ensures |r| == |rois|
  {
    seq(|rois|, i requires 0 <= i < |rois| => RegionLine(rois[i]))
  }

  /** The blocks of `xs`, one after another. */
  function Blocks<T>(xs: seq<T>, block: T -> seq<string>): seq<string> {
    if |xs| == 0 then [] else Blocks(xs[..|xs| - 1], block) + block(xs[|xs| - 1])
  }

  /** Blocks of three lines each sit at multiples of three. */
  lemma {:induction false} BlocksOfThree<T>(xs: seq<T>, block: T -> seq<string>)
    requires forall x :: |block(x)| == 3
    ensures |Blocks(xs, block)| == 3 * |xs|
    ensures forall i :: 0 <= i < |xs| ==> Blocks(xs, block)[3 * i..3 * i + 3] == block(xs[i])
  {
    if |xs| > 0 {
      var init := xs[..|xs| - 1];
      BlocksOfThree(init, block);
      forall i | 0 <= i < |xs|
        ensures Blocks(xs, block)[3 * i..3 * i + 3] == block(xs[i])
      {
        if i < |init| {
          assert Blocks(xs, block)[3 * i..3 * i + 3] == Blocks(init, block)[3 * i..3 * i + 3];
        }
      }
    }
  }

  function Clicks(rois: seq<Roi>): seq<string> {
    Blocks(rois, ClickBlock)
  }

  /** The find functions: one block per ROI that has an image. */
  function Finds(rois: seq<Roi>): seq<string> {
    Blocks(WithImage(rois), FindBlock)
  }

  /** The ROIs that have an image, in order. */
  function WithImage(rois: seq<Roi>): seq<Roi> {
    if |rois| == 0 then []
    else
      var init := rois[..|rois| - 1];
      var last := rois[|rois| - 1];
      if last.imagePath != "" then WithImage(init) + [last] else WithImage(init)
  }

  /** Exactly the ROIs with an image are kept. */
  lemma {:induction false} WithImageMembers(rois: seq<Roi>)
    ensures forall roi :: roi in WithImage(rois) <==> roi in rois && roi.imagePath != ""
  {
    if |rois| > 0 {
      var init := rois[..|rois| - 1];
      WithImageMembers(init);
      assert rois == init + [rois[|rois| - 1]];
    }
  }

  /** One more ROI adds its find function when it has an image. */
  lemma FindsStep(rois: seq<Roi>, i: nat)
    requires i < |rois|
    ensures Finds(rois[..i + 1]) == Finds(rois[..i]) + (if rois[i].imagePath != "" then FindBlock(rois[i]) else [])
  {
    var pre := rois[..i + 1];
    assert pre[..i] == rois[..i];
    if rois[i].imagePath != "" {
      assert WithImage(pre) == WithImage(rois[..i]) + [rois[i]];
    }
  }

  lemma IndexMiddle<T>(a: seq<T>, b: seq<T>, c: seq<T>, i: nat)
    requires i < |b|
    ensures (a + b + c)[|a| + i] == b[i]
  {
  }

  lemma SliceMiddle<T>(a: seq<T>, b: seq<T>, c: seq<T>, i: nat, j: nat)
    requires i <= j <= |b|
    ensures (a + b + c)[|a| + i..|a| + j] == b[i..j]
  {
  }

  /** The whole Auto.js script, line by line. */
  function AutojsLines(rois: seq<Roi>, now: string): seq<string> {
    AutojsHead(now) + Regions(rois) + AutojsMiddle + Clicks(rois) + AutojsFindHeading + Finds(rois)
  }

  /** One click function per ROI, in collection order. */
  lemma ClicksShape(rois: seq<Roi>)
    ensures |Clicks(rois)| == 3 * |rois|
    ensures forall i :: 0 <= i < |rois| ==> Clicks(rois)[3 * i..3 * i + 3] == ClickBlock(rois[i])
  {
    BlocksOfThree(rois, ClickBlock);
  }

  /** One find function per ROI that has an image, in collection order,
      and none for the others. */
  lemma FindsShape(rois: seq<Roi>)
    ensures |Finds(rois)| == 3 * |WithImage(rois)|
    ensures forall k :: 0 <= k < |WithImage(rois)| ==> Finds(rois)[3 * k..3 * k + 3] == FindBlock(WithImage(rois)[k])
  {
    BlocksOfThree(WithImage(rois), FindBlock);
  }

  /** The script's length: ten fixed lines, a `REGIONS` entry and a
      three-line click function per ROI, and a three-line find function
      per ROI with an image; it ends with the find functions. */
  lemma AutojsLength(rois: seq<Roi>, now: string)
    ensures |AutojsLines(rois, now)| == 10 + 4 * |rois| + 3 * |WithImage(rois)|
    ensures AutojsLines(rois, now)[10 + 4 * |rois|..] == Finds(rois)
  {
    ClicksShape(rois);
    FindsShape(rois);
    var front := AutojsHead(now) + Regions(rois) + AutojsMiddle + Clicks(rois) + AutojsFindHeading;
    assert |front| == 10 + 4 * |rois|;
    assert AutojsLines(rois, now) == front + Finds(rois);
  }

  /** The i-th `REGIONS` entry is the i-th ROI's. */
  lemma AutojsRegionsAt(rois: seq<Roi>, now: string, i: nat)
    requires i < |rois|
    ensures 5 + i < |AutojsLines(rois, now)| && AutojsLines(rois, now)[5 + i] == RegionLine(rois[i])
  {
    var rest := AutojsMiddle + Clicks(rois) + AutojsFindHeading + Finds(rois);
    assert AutojsLines(rois, now) == AutojsHead(now) + Regions(rois) + rest;
    IndexMiddle(AutojsHead(now), Regions(rois), rest, i);
  }

  /** The i-th click function is the i-th ROI's. */
  lemma AutojsClicksAt(rois: seq<Roi>, now: string, i: nat)
    requires i < |rois|
    ensures 8 + |rois| + 3 * i + 3 <= |AutojsLines(rois, now)|
    ensures AutojsLines(rois, now)[8 + |rois| + 3 * i..8 + |rois| + 3 * i + 3] == ClickBlock(rois[i])
  {
    ClicksShape(rois);
    var front := AutojsHead(now) + Regions(rois) + AutojsMiddle;
    assert |front| == 8 + |rois|;
    assert AutojsLines(rois, now) == front + Clicks(rois) + (AutojsFindHeading + Finds(rois));
    SliceMiddle(front, Clicks(rois), AutojsFindHeading + Finds(rois), 3 * i, 3 * i + 3);
  }

  /** `export_autojs`: the script's lines, built by the source's three
      loops over the collection, and the text written to the file. `now`
      is the timestamp printed in the header. */
  method ExportAutojs(c: RoiCollection, now: string) returns (script: string, lines: seq<string>)
    ensures lines == AutojsLines(c.rois, now)
    ensures script == Join(lines, '\n')
  {
    var rois := c.rois;
    lines := AppendRegions(AutojsHead(now), rois);
    lines := AppendClicks(lines + AutojsMiddle, rois);
    lines := AppendFinds(lines + AutojsFindHeading, rois);
    script := Join(lines, '\n');
  }

  /** The loop writing the `REGIONS` entries. */
  method AppendRegions(start: seq<string>, rois: seq<Roi>) returns (lines: seq<string>)
    ensures lines == start + Regions(rois)
  {
    lines := start;
    var i := 0;
    while i < |rois|
      invariant 0 <= i <= |rois|
      invariant lines == start + Regions(rois[..i])
    {
      lines := lines + [RegionLine(rois[i])];
      i := i + 1;
      assert Regions(rois[..i]) == Regions(rois[..i - 1]) + [RegionLine(rois[i - 1])];
    }
    assert rois[..i] == rois;
  }

  /** The loop writing the click functions. */
  method AppendClicks(start: seq<string>, rois: seq<Roi>) returns (lines: seq<string>)
    ensures lines == start + Clicks(rois)
  {
    lines := start;
    var i := 0;
    while i < |rois|
      invariant 0 <= i <= |rois|
      invariant lines == start + Clicks(rois[..i])
    {
      lines := lines + ClickBlock(rois[i]);
      i := i + 1;
      assert rois[..i][..i - 1] == rois[..i - 1];
    }
    assert rois[..i] == rois;
  }

  /** The loop writing a find function for each ROI with an image. */
  method AppendFinds(start: seq<string>, rois: seq<Roi>) returns (lines: seq<string>)
    ensures lines == start + Finds(rois)
  {
    lines := start;
    var i := 0;
    while i < |rois|
      invariant 0 <= i <= |rois|
      invariant lines == start + Finds(rois[..i])
    {
      FindsStep(rois, i);
      if rois[i].imagePath != "" {
        lines := lines + FindBlock(rois[i]);
      }
      i := i + 1;
    }
    assert rois[..i] == rois;
  }

  // -------------------------------------------------------- JSON record

  /** The data `export_json` dumps. */
  datatype ExportRecord = ExportRecord(
    version: string, exportTime: string, source: string, roiCount: int,
    rois: seq<Dict>, sourceInfo: Option<map<string, Json>>)

  /** Python's truth value of the optional `source_info` dictionary. */
  predicate Truthy(info: Option<map<string, Json>>) {
    info.Some? && info.value != map[]
  }

  /** `export_json`'s record: the count of ROIs, each ROI's dictionary form
      in collection order, and the source information only when it is a
      non-empty dictionary. */
  function ExportJsonRecord(c: RoiCollection, now: string, info: Option<map<string, Json>>): (r: ExportRecord)
    reads c
    ensures r.version == "1.0.0" && r.exportTime == now && r.source == "安卓脚本切图神器"
    ensures r.roiCount == |c.rois| == |r.rois|
    ensures forall i :: 0 <= i < |c.rois| ==> r.rois[i] == ToDict(c.rois[i])
    ensures r.sourceInfo.Some? <==> Truthy(info)
    ensures r.sourceInfo.Some? ==> r.sourceInfo == info
  {
    ExportRecord("1.0.0", now, "安卓脚本切图神器", |c.rois|, c.ToList(),
                 if Truthy(info) then info else None)
  }

  /** Loading the exported record gives back every ROI, in order, in the
      form its type and action keep; the i-th record's id is the i-th ROI's. */
  lemma ExportJsonReload(c: RoiCollection, now: string, info: Option<map<string, Json>>, freshIds: seq<string>)
    requires |freshIds| == |c.rois|
    ensures var rec := ExportJsonRecord(c, now, info);
      forall i :: 0 <= i < |c.rois| ==>
        FromDict(rec.rois[i], freshIds[i]) == Canonical(c.rois[i])
        && FromDict(rec.rois[i], freshIds[i]).roiId == c.rois[i].roiId
  {
    var rec := ExportJsonRecord(c, now, info);
    forall i | 0 <= i < |c.rois|
      ensures FromDict(rec.rois[i], freshIds[i]) == Canonical(c.rois[i])
      ensures FromDict(rec.rois[i], freshIds[i]).roiId == c.rois[i].roiId
    {
      DictRoundTrip(c.rois[i], freshIds[i]);
      IdentityRoundTrip(c.rois[i], freshIds[i]);
    }
  }

  // ------------------------------------------------------------ export all

  const Formats: seq<string> := ["json", "autojs", "python"]

  /** `export_all`: each exporter runs in turn; `outcome(f)` is the path the
      exporter of format f wrote, or None when it raised. The result maps
      exactly the formats that succeeded to their paths. */
  method ExportAll(outcome: string -> Option<string>) returns (results: map<string, string>)
    ensures forall f :: f in results <==> f in Formats && outcome(f).Some?
    ensures forall f :: f in results ==> results[f] == outcome(f).value
  {
    results := map[];
    if outcome("json").Some? {
      results := results["json" := outcome("json").value];
    }
    if outcome("autojs").Some? {
      results := results["autojs" := outcome("autojs").value];
    }
    if outcome("python").Some? {
      results := results["python" := outcome("python").value];
    }
  }
}
