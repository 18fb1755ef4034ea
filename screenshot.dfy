/** The ADB side of the screenshot manager (src/core/screenshot.py): running
    adb when no executable was found, parsing the `adb devices` listing,
    the success test of `adb connect`, the port order tried for an LDPlayer
    emulator, and which device an LDPlayer capture uses. The adb process
    itself is a parameter: a function from the argument list to the
    return code, standard output and standard error it would produce. */
module Screenshot {
  import opened Wrappers
  import opened Text

  /** The host the emulator ports are reached on. */
  const LocalHost: string := "127.0.0.1"

  /** `LD_PORTS`: the emulator's usual ADB ports, in the order tried. */
  const LdPorts: seq<int> := [5555, 5557, 5559, 5561, 5563, 5565]

  /** What one adb run returns: (returncode, stdout, stderr). */
  datatype AdbReply = AdbReply(code: int, out: string, err: string)

  /** The adb executable at `path` run with `args`. */
  type Adb = (string, seq<string>) -> AdbReply

  // ------------------------------------------------------ device listing

  /** The status adb prints for a device that is attached and ready. */
  const Attached: string := "device"

  /** One line of the listing after the header: a device id when the line
      is not blank, holds a tab, and its second tab field is "device". */
  function DeviceOf(line: string): Option<string> {
    if Strip(line) != "" && '\t' in line then
      var parts := Split(line, '\t');
      var status := if |parts| > 1 then Strip(parts[1]) else "";
      if status == Attached then Some(Strip(parts[0])) else None
    else None
  }

  /** The present values of `xs`, in order. */
  function Somes<T>(xs: seq<Option<T>>): (r: seq<T>)
    ensures |r| <= |xs|
  {
    if |xs| == 0 then []
    else
      var rest := Somes(xs[..|xs| - 1]);
      match xs[|xs| - 1]
      case Some(v) => rest + [v]
      case None => rest
  }

  /** A value is kept iff it is present somewhere. */
  lemma {:induction false} SomesMembers<T>(xs: seq<Option<T>>, v: T)
    ensures v in Somes(xs) <==> exists i :: 0 <= i < |xs| && xs[i] == Some(v)
  {
    if |xs| > 0 {
      var init := xs[..|xs| - 1];
      SomesMembers(init, v);
      if exists i :: 0 <= i < |xs| && xs[i] == Some(v) {
        var i :| 0 <= i < |xs| && xs[i] == Some(v);
        if i < |init| {
          assert init[i] == xs[i];
        }
      }
      assert forall i :: 0 <= i < |init| ==> init[i] == xs[i];
    }
  }

  /** Nothing is dropped when every value is present. */
  lemma {:induction false} SomesAll<T>(xs: seq<Option<T>>, vs: seq<T>)
    requires |xs| == |vs|
    requires forall k :: 0 <= k < |xs| ==> xs[k] == Some(vs[k])
    ensures Somes(xs) == vs
  {
    if |vs| > 0 {
      var init := vs[..|vs| - 1];
      SomesAll(xs[..|xs| - 1], init);
      assert init + [vs[|vs| - 1]] == vs;
    }
  }

  /** What each line contributes. */
  function LineResults(lines: seq<string>): (r: seq<Option<string>>)
    ensures |r| == |lines|
  {
    seq(|lines|, k requires 0 <= k < |lines| => DeviceOf(lines[k]))
  }

  /** The device ids of `lines`, in order. */
  function ParseDevices(lines: seq<string>): seq<string> {
    Somes(LineResults(lines))
  }

  /** An id is listed iff some line names it as an attached device. */
  lemma ParseDevicesMembers(lines: seq<string>, id: string)
    ensures id in ParseDevices(lines) <==> exists i :: 0 <= i < |lines| && DeviceOf(lines[i]) == Some(id)
  {
    SomesMembers(LineResults(lines), id);
    assert forall i :: 0 <= i < |lines| ==> LineResults(lines)[i] == DeviceOf(lines[i]);
  }

  /** The lines of the stripped output after the header line. */
  function ListingLines(out: string): seq<string> {
    Split(Strip(out), '\n')[1..]
  }

  // ------------------------------------------- the listing adb prints

  const Header: string := "List of devices attached"

  /** An id adb can print: non-empty, without tab or newline, and with no
      whitespace at either end. */
  predicate PrintableId(id: string) {
    id != [] && '\t' !in id && '\n' !in id && !IsSpace(id[0]) && !IsSpace(id[|id| - 1])
  }

  /** The row adb prints for an attached device. */
  function Row(id: string): string {
    id + ['\t'] + Attached
  }

  /** The rows, each preceded by a newline. */
  function RowsText(ids: seq<string>): string {
    if |ids| == 0 then "" else RowsText(ids[..|ids| - 1]) + "\n" + Row(ids[|ids| - 1])
  }

  /** The whole output of `adb devices` with `ids` attached. */
  function Listing(ids: seq<string>): string {
    Header + RowsText(ids) + "\n"
  }

  /** The rows adb prints for `ids`, one per device, in order. */
  function DeviceRows(ids: seq<string>): (r: seq<string>)
    ensures |r| == |ids|
    ensures forall k :: 0 <= k < |ids| ==> r[k] == Row(ids[k])
  {
    if |ids| == 0 then [] else DeviceRows(ids[..|ids| - 1]) + [Row(ids[|ids| - 1])]
  }

  lemma {:induction false} SplitRows(ids: seq<string>)
    requires forall k :: 0 <= k < |ids| ==> PrintableId(ids[k])
    ensures Split(Header + RowsText(ids), '\n') == [Header] + DeviceRows(ids)
  {
    if |ids| == 0 {
      assert Header + "" == Header;
      SplitNoSep(Header, '\n');
    } else {
      var init := ids[..|ids| - 1];
      var last := ids[|ids| - 1];
      var front := Header + RowsText(init);
      SplitRows(init);
      assert Header + RowsText(ids) == front + ['\n'] + Row(last);
      SplitAround(front, Row(last), '\n');
      assert '\n' !in Row(last);
      SplitNoSep(Row(last), '\n');
      assert DeviceRows(ids) == DeviceRows(init) + [Row(last)];
      assert ([Header] + DeviceRows(init)) + [Row(last)] == [Header] + (DeviceRows(init) + [Row(last)]);
    }
  }

  /** A row's tab fields are the id and the status. */
  lemma RowFields(id: string)
    requires '\t' !in id
    ensures Split(Row(id), '\t') == [id, Attached]
  {
    assert '\t' !in Attached;
    SplitAround(id, Attached, '\t');
    SplitNoSep(id, '\t');
    SplitNoSep(Attached, '\t');
  }

  lemma RowDevice(id: string)
    requires PrintableId(id)
    ensures DeviceOf(Row(id)) == Some(id)
  {
    var line := Row(id);
    RowFields(id);
    StripOfTrimmed(id);
    assert Attached[0] == 'd' && Attached[|Attached| - 1] == 'e';
    StripOfTrimmed(Attached);
    assert line[0] == id[0] && line[|line| - 1] == 'e';
    StripOfTrimmed(line);
    assert line[|id|] == '\t';
  }

  lemma ParseRows(ids: seq<string>)
    requires forall k :: 0 <= k < |ids| ==> PrintableId(ids[k])
    ensures ParseDevices(DeviceRows(ids)) == ids
  {
    var rows := DeviceRows(ids);
    var results := LineResults(rows);
    forall k | 0 <= k < |ids| ensures results[k] == Some(ids[k]) {
      RowDevice(ids[k]);
    }
    SomesAll(results, ids);
  }

  /** The listing before its final newline starts with the header's 'L'
      and ends with the last row's 'e' (or the header's 'd'). */
  lemma ListingEnds(ids: seq<string>)
    ensures var body := Header + RowsText(ids);
      body != [] && !IsSpace(body[0]) && !IsSpace(body[|body| - 1])
  {
    var body := Header + RowsText(ids);
    assert body[0] == Header[0] == 'L';
    if |ids| > 0 {
      var row := Row(ids[|ids| - 1]);
      assert row[|row| - 1] == Attached[|Attached| - 1] == 'e';
      assert body == (Header + RowsText(ids[..|ids| - 1]) + "\n") + row;
      assert body[|body| - 1] == row[|row| - 1];
    } else {
      assert body == Header;
      assert body[|body| - 1] == 'd';
    }
  }

  /** Parsing the listing adb prints gives back exactly the attached ids,
      in order. */
  lemma ListingRoundTrip(ids: seq<string>)
    requires forall k :: 0 <= k < |ids| ==> PrintableId(ids[k])
    ensures ParseDevices(ListingLines(Listing(ids))) == ids
  {
    var body := Header + RowsText(ids);
    ListingEnds(ids);
    StripTrailingNewline(body);
    assert Strip(Listing(ids)) == body;
    SplitRows(ids);
    ParseRows(ids);
  }

  // ------------------------------------------------- connecting devices

  /** `connect_device`'s test of the adb reply. */
  predicate ConnectSuccess(r: AdbReply) {
    r.code == 0 && (HasSubstring(Lower(r.out), "connected") || HasSubstring(Lower(r.out), "already connected"))
  }

  /** The "already connected" alternative adds nothing: success is a zero
      return code with "connected" anywhere in the lower-cased output. */
  lemma ConnectSuccessIff(r: AdbReply)
    ensures ConnectSuccess(r) <==> r.code == 0 && HasSubstring(Lower(r.out), "connected")
  {
    var s := Lower(r.out);
    if HasSubstring(s, "already connected") {
      var i :| 0 <= i <= |s| - 17 && OccursAt(s, "already connected", i);
      assert s[i + 8..i + 17] == s[i..i + 17][8..];
      assert OccursAt(s, "connected", i + 8);
    }
  }

  /** The config ports not already among `LD_PORTS`, in order. */
  function ExtraPorts(config: seq<int>): (r: seq<int>)
    ensures forall p :: p in r <==> p in config && p !in LdPorts
  {
    if |config| == 0 then []
    else
      var rest := ExtraPorts(config[..|config| - 1]);
      var p := config[|config| - 1];
      assert config == config[..|config| - 1] + [p];
      if p !in LdPorts then rest + [p] else rest
  }

  /** Every port `connect_ld_player` may try, in the order it tries them. */
  function CandidatePorts(config: seq<int>): seq<int> {
    LdPorts + ExtraPorts(config)
  }

  /** The manager's adb location, reassigned when a capture searches for
      adb again. */
  class ScreenshotManager {
    var adbPath: Option<string>
    var adbAvailable: bool

    /** `found` is the outcome of the search for an adb executable. */
    constructor (found: Option<string>)
      ensures adbPath == found && adbAvailable == found.Some?
    {
      adbPath := found;
      adbAvailable := found.Some?;
    }

    predicate Valid()
      reads this
    {
      adbAvailable == adbPath.Some?
    }

    /** `_run_adb`: without an adb path nothing runs and the reply is
        (-1, "", "ADB not found"). */
    function RunAdb(adb: Adb, args: seq<string>): (r: AdbReply)
      reads this
      ensures adbPath.None? ==> r == AdbReply(-1, "", "ADB not found")
      ensures adbPath.Some? ==> r == adb(adbPath.value, args)
    {
      match adbPath
      case None => AdbReply(-1, "", "ADB not found")
      case Some(path) => adb(path, args)
    }

    /** `get_devices`: nothing on a non-zero return code, otherwise every
        line after the header that names an attached device. */
    method GetDevices(adb: Adb) returns (devices: seq<string>)
      ensures RunAdb(adb, ["devices"]).code != 0 ==> devices == []
      ensures RunAdb(adb, ["devices"]).code == 0 ==> devices == ParseDevices(ListingLines(RunAdb(adb, ["devices"]).out))
      ensures adbPath.None? ==> devices == []
    {
      var reply := RunAdb(adb, ["devices"]);
      if reply.code != 0 {
        return [];
      }
      devices := DevicesOfLines(ListingLines(reply.out));
    }

    /** The loop of `get_devices` over the lines after the header. */
    static method DevicesOfLines(lines: seq<string>) returns (devices: seq<string>)
      ensures devices == ParseDevices(lines)
    {
      ghost var results := LineResults(lines);
      devices := [];
      var i := 0;
      while i < |lines|
        invariant 0 <= i <= |lines|
        invariant devices == Somes(results[..i])
      {
        assert results[..i + 1][..i] == results[..i];
        assert results[i] == DeviceOf(lines[i]);
        var found := DeviceOf(lines[i]);
        if found.Some? {
          devices := devices + [found.value];
        }
        i := i + 1;
      }
      assert results[..i] == results;
    }

    /** `connect_device(host, port)`. */
    predicate ConnectDevice(adb: Adb, host: string, port: int)
      reads this
    {
      ConnectSuccess(RunAdb(adb, ["connect", host + ":" + IntToString(port)]))
    }

    /** `connect_ld_player`: the `LD_PORTS` in order, then the configured
        ports not among them, stopping at the first that connects.
        `tried` lists the ports attempted. */
    method ConnectLdPlayer(adb: Adb, config: seq<int>) returns (ok: bool, tried: seq<int>)
      ensures tried <= CandidatePorts(config)
      ensures forall k :: 0 <= k < |tried| - 1 ==> !ConnectDevice(adb, LocalHost, tried[k])
      ensures ok <==> tried != [] && ConnectDevice(adb, LocalHost, tried[|tried| - 1])
      ensures !ok ==> tried == CandidatePorts(config)
    {
      var extra := ExtraPorts(config);
      assert CandidatePorts(config) == LdPorts + extra;
      ok, tried := TryPorts(adb, LdPorts, []);
      assert [] + LdPorts == LdPorts;
      if ok {
        assert LdPorts <= LdPorts + extra;
        return;
      }
      assert tried == LdPorts && tried != [];
      ok, tried := TryPorts(adb, extra, tried);
    }

    /** Tries `ports` in order after the failed attempts `before`, stopping
        at the first that connects. */
    method TryPorts(adb: Adb, ports: seq<int>, before: seq<int>) returns (ok: bool, tried: seq<int>)
      requires forall k :: 0 <= k < |before| ==> !ConnectDevice(adb, LocalHost, before[k])
      ensures before <= tried <= before + ports
      ensures forall k :: 0 <= k < |tried| - 1 ==> !ConnectDevice(adb, LocalHost, tried[k])
      ensures ok <==> tried != [] && ConnectDevice(adb, LocalHost, tried[|tried| - 1])
      ensures !ok ==> tried == before + ports
    {
      tried := before;
      var i := 0;
      while i < |ports|
        invariant 0 <= i <= |ports|
        invariant tried == before + ports[..i]
        invariant forall k :: 0 <= k < |tried| ==> !ConnectDevice(adb, LocalHost, tried[k])
      {
        var port := ports[i];
        tried := tried + [port];
        if ConnectDevice(adb, LocalHost, port) {
          assert before + ports[..i + 1] <= before + ports;
          return true, tried;
        }
        i := i + 1;
      }
      assert ports[..i] == ports;
      return false, tried;
    }

    /** Connecting succeeds iff some candidate port connects. */
    lemma ConnectLdPlayerSucceeds(adb: Adb, config: seq<int>, ok: bool, tried: seq<int>)
      requires tried <= CandidatePorts(config)
      requires ok <==> tried != [] && ConnectDevice(adb, LocalHost, tried[|tried| - 1])
      requires !ok ==> tried == CandidatePorts(config)
      requires forall k :: 0 <= k < |tried| - 1 ==> !ConnectDevice(adb, LocalHost, tried[k])
      ensures ok <==> exists p :: p in CandidatePorts(config) && ConnectDevice(adb, LocalHost, p)
    {
      var c := CandidatePorts(config);
      if ok {
        assert tried[|tried| - 1] == c[|tried| - 1];
      } else {
        forall p | p in c ensures !ConnectDevice(adb, LocalHost, p) {
          var k :| 0 <= k < |c| && c[k] == p;
          assert tried[k] == p;
        }
      }
    }

    /** `capture_ld_player` up to the capture itself: search for adb again
        when it is unavailable (`found` is that search's outcome), try to
        connect, list the devices and pick the one to capture; None when
        adb or any device is missing. */
    method CaptureLdPlayer(adb: Adb, found: Option<string>, config: seq<int>) returns (device: Option<string>)
      modifies this
      ensures old(adbAvailable) ==> adbPath == old(adbPath) && adbAvailable
      ensures !old(adbAvailable) ==> adbPath == found && adbAvailable == found.Some?
      ensures !adbAvailable ==> device == None
      ensures adbAvailable && Valid() ==>
        var devices := if RunAdb(adb, ["devices"]).code != 0 then [] else ParseDevices(ListingLines(RunAdb(adb, ["devices"]).out));
        device == PreferredDevice(devices)
    {
      if !adbAvailable {
        adbPath := found;
        adbAvailable := found.Some?;
      }
      if !adbAvailable {
        return None;
      }
      var connected, tried := ConnectLdPlayer(adb, config);
      var devices := GetDevices(adb);
      device := ChooseLdDevice(devices);
    }

    /** `get_ld_player_devices`: the listed devices that look like LDPlayer
        ones, in listing order. */
    method GetLdPlayerDevices(adb: Adb) returns (ld: seq<string>)
      ensures var devices := if RunAdb(adb, ["devices"]).code != 0 then []
                             else ParseDevices(ListingLines(RunAdb(adb, ["devices"]).out));
        ld == LdDevices(devices)
    {
      var devices := GetDevices(adb);
      ld := FilterLdDevices(devices);
    }
  }

  // ------------------------------------------------ choosing a device

  /** An id that looks like an LDPlayer device. */
  predicate LdLike(device: string) {
    HasSubstring(device, "emulator-") || HasSubstring(device, LocalHost)
  }

  /** The device `capture_ld_player` captures from: the first LDPlayer-like
      one, else the first; None when there are none. */
  function PreferredDevice(devices: seq<string>): (r: Option<string>)
    ensures r.None? <==> devices == []
    ensures r.Some? ==> r.value in devices
    ensures r.Some? && LdLike(r.value) ==>
      (exists i :: 0 <= i < |devices| && devices[i] == r.value && forall k :: 0 <= k < i ==> !LdLike(devices[k]))
    ensures r.Some? && !LdLike(r.value) ==> r.value == devices[0] && forall k :: 0 <= k < |devices| ==> !LdLike(devices[k])
  {
    if devices == [] then None
    else if LdLike(devices[0]) then Some(devices[0])
    else
      match PreferredDevice(devices[1..])
      case Some(d) =>
        if LdLike(d) then Some(d) else Some(devices[0])
      case None => Some(devices[0])
  }

  /** The loop of `capture_ld_player` over the device list. */
  method ChooseLdDevice(devices: seq<string>) returns (device: Option<string>)
    ensures device == PreferredDevice(devices)
  {
    if devices == [] {
      return None;
    }
    var i := 0;
    while i < |devices|
      invariant 0 <= i <= |devices|
      invariant forall k :: 0 <= k < i ==> !LdLike(devices[k])
    {
      if LdLike(devices[i]) {
        PreferredFirst(devices, i);
        return Some(devices[i]);
      }
      i := i + 1;
    }
    PreferredNone(devices);
    return Some(devices[0]);
  }

  lemma {:induction false} PreferredFirst(devices: seq<string>, i: nat)
    requires i < |devices| && LdLike(devices[i])
    requires forall k :: 0 <= k < i ==> !LdLike(devices[k])
    ensures PreferredDevice(devices) == Some(devices[i])
  {
    if i > 0 {
      PreferredFirst(devices[1..], i - 1);
    }
  }

  lemma {:induction false} PreferredNone(devices: seq<string>)
    requires devices != []
    requires forall k :: 0 <= k < |devices| ==> !LdLike(devices[k])
    ensures PreferredDevice(devices) == Some(devices[0])
  {
  }

  /** The LDPlayer-like devices, in order. */
  function LdDevices(devices: seq<string>): (r: seq<string>)
    ensures forall d :: d in r <==> d in devices && LdLike(d)
  {
    if |devices| == 0 then []
    else
      var rest := LdDevices(devices[..|devices| - 1]);
      var d := devices[|devices| - 1];
      assert devices == devices[..|devices| - 1] + [d];
      if LdLike(d) then rest + [d] else rest
  }

  /** The filter loop of `get_ld_player_devices`. */
  method FilterLdDevices(devices: seq<string>) returns (ld: seq<string>)
    ensures ld == LdDevices(devices)
  {
    ld := [];
    var i := 0;
    while i < |devices|
      invariant 0 <= i <= |devices|
      invariant ld == LdDevices(devices[..i])
    {
      assert devices[..i + 1][..i] == devices[..i];
      if LdLike(devices[i]) {
        ld := ld + [devices[i]];
      }
      i := i + 1;
    }
    assert devices[..i] == devices;
  }

  /** The filter seen from the front: the first device, when LDPlayer-like,
      followed by the filter of the rest. */
  lemma {:induction false} LdDevicesCons(devices: seq<string>)
    requires |devices| > 0
    ensures LdDevices(devices) == (if LdLike(devices[0]) then [devices[0]] else []) + LdDevices(devices[1..])
  {
    if |devices| > 1 {
      var init := devices[..|devices| - 1];
      var tail := devices[1..];
      LdDevicesCons(init);
      assert init[0] == devices[0];
      assert init[1..] == tail[..|tail| - 1];
      assert tail[|tail| - 1] == devices[|devices| - 1];
    } else {
      assert devices[..0] == [] && devices[1..] == [];
    }
  }

  /** The capture uses the first LDPlayer device when there is one. */
  lemma {:induction false} PreferredIsFirstLd(devices: seq<string>)
    requires LdDevices(devices) != []
    ensures PreferredDevice(devices) == Some(LdDevices(devices)[0])
  {
    LdDevicesCons(devices);
    if !LdLike(devices[0]) {
      var tail := devices[1..];
      PreferredIsFirstLd(tail);
      assert LdDevices(tail)[0] in LdDevices(tail);
    }
  }
}
