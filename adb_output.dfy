/**
  Parsing the text of the two `adb` listings that backend/adb_handler.py and backend/worker.py
  both read, line for line the same way: `adb devices -l` and `adb -s SERIAL shell pm list
  packages -3`. The two files differ only in how they report a failure, which is modelled in
  their own modules.
 */
module AdbOutput {
  import opened Wrappers
  import opened Strings
  import opened Patterns
  import opened Ordering

  /** One entry of the device list: the dictionary with keys "serial", "model" and "status". */
  datatype Device = Device(serial: string, model: string, status: string)

  /**
    How one `subprocess.run([adb, ...], capture_output=True, text=True)` call ended: exit status 0
    with its standard output; a non-zero exit status with its standard output and the text of the
    `CalledProcessError` that `check=True` raises for it; or an exception raised before the tool
    produced anything (for example the executable is gone), with its text.
   */
  datatype Invocation =
    | Exited(stdout: string)
    | NonZeroExit(stdout: string, error: string)
    | SpawnError(error: string)

  /**
    The `adb` executable as both backend classes see it: `path` is what `shutil.which("adb")`
    returned (`None` puts the class in mock mode), and `run` is how the tool answers each
    argument vector.
   */
  datatype AdbTool = AdbTool(path: Option<string>, run: seq<string> -> Invocation)

  /** The argument vector of `adb devices -l`. */
  function DevicesCommand(adb: string): seq<string> {
    [adb, "devices", "-l"]
  }

  /** The argument vector of `adb -s SERIAL shell pm list packages -3`. */
  function PackagesCommand(adb: string, serial: string): seq<string> {
    [adb, "-s", serial, "shell", "pm", "list", "packages", "-3"]
  }

  /** The argument vector of `adb -s SERIAL shell wm size`. */
  function SizeCommand(adb: string, serial: string): seq<string> {
    [adb, "-s", serial, "shell", "wm", "size"]
  }

  /** The argument vector of `adb -s SERIAL shell wm density`. */
  function DensityCommand(adb: string, serial: string): seq<string> {
    [adb, "-s", serial, "shell", "wm", "density"]
  }

  /** A serial that `startswith("MOCK")` counts as a mock device. */
  predicate IsMockSerial(serial: string) {
    StartsWith(serial, "MOCK")
  }

  /** The two devices reported when no `adb` executable is on the PATH. */
  const MockDevices: seq<Device> := [
    Device("MOCK_DEVICE_01", "Pixel_7_Pro", "device"),
    Device("192.168.1.105:5555", "Galaxy_Tab_S8", "device")
  ]

  /** The model column: the first `model:(\S+)` of the line with `_` read as a space, else "Unknown". */
  function ModelOf(line: string): string
  {
    match Groups(ModelField, line)
    case Some(g) => ReplaceChar(g[0], '_', ' ')
    case None => "Unknown"
  }

  /** One non-blank device line; `None` where `parts[1]` raises `IndexError` (fewer than two tokens). */
  function DeviceOfLine(line: string): Option<Device>
  {
    var parts := Tokens(line);
    if |parts| < 2 then None else Some(Device(parts[0], ModelOf(line), parts[1]))
  }

  /** The lines after the header: `stdout.strip().split('\n')[1:]`. */
  function DeviceLines(stdout: string): seq<string>
  {
    Split(Strip(stdout), "\n")[1..]
  }

  /** The device list for the given lines, or `None` when one of them raises. */
  function DevicesOfLines(lines: seq<string>): Option<seq<Device>>
  {
    if lines == [] then Some([])
    else if IsBlank(lines[0]) then DevicesOfLines(lines[1..])
    else
      match DeviceOfLine(lines[0])
      case None => None
      case Some(d) =>
        match DevicesOfLines(lines[1..])
        case None => None
        case Some(rest) => Some([d] + rest)
  }

  /** What the `try` block of `get_devices` / `fetch_devices` computes from the tool's output. */
  function DevicesOf(stdout: string): Option<seq<Device>>
  {
    DevicesOfLines(DeviceLines(stdout))
  }

  /** The non-blank lines, in order. */
  function NonBlank(lines: seq<string>): (r: seq<string>)
    ensures forall k :: 0 <= k < |r| ==> !IsBlank(r[k])
  {
    if lines == [] then []
    else (if IsBlank(lines[0]) then [] else [lines[0]]) + NonBlank(lines[1..])
  }

  /** `line` is a non-blank line that `parts[1]` fails on. */
  predicate BadDeviceLine(line: string) {
    !IsBlank(line) && |Tokens(line)| < 2
  }

  /**
    The device parse fails (and then with no partial list) exactly when some non-blank line has
    fewer than two tokens.
   */
  lemma {:induction false} DevicesFailIff(lines: seq<string>)
    ensures DevicesOfLines(lines).None? <==> exists k :: 0 <= k < |lines| && BadDeviceLine(lines[k])
  {
    if lines != [] {
      DevicesFailIff(lines[1..]);
      DevicesHead(lines);
      BadDeviceLineShift(lines);
    }
  }

  /** The outcome for a list of lines in terms of its first line and the outcome for the rest. */
  lemma DevicesHead(lines: seq<string>)
    requires lines != []
    ensures DevicesOfLines(lines)
            == if IsBlank(lines[0]) then DevicesOfLines(lines[1..])
               else match DeviceOfLine(lines[0])
                    case None => None
                    case Some(d) => After([d], DevicesOfLines(lines[1..]))
    ensures DeviceOfLine(lines[0]).None? <==> |Tokens(lines[0])| < 2
  {
  }

  lemma BadDeviceLineShift(lines: seq<string>)
    requires lines != []
    ensures (exists k :: 0 <= k < |lines| && BadDeviceLine(lines[k]))
            <==> BadDeviceLine(lines[0]) || exists k :: 0 <= k < |lines[1..]| && BadDeviceLine(lines[1..][k])
  {
    if exists k :: 0 <= k < |lines| && BadDeviceLine(lines[k]) {
      var k :| 0 <= k < |lines| && BadDeviceLine(lines[k]);
      if k > 0 {
        assert lines[1..][k - 1] == lines[k];
      }
    }
    if exists k :: 0 <= k < |lines[1..]| && BadDeviceLine(lines[1..][k]) {
      var k :| 0 <= k < |lines[1..]| && BadDeviceLine(lines[1..][k]);
      assert lines[k + 1] == lines[1..][k];
    }
  }

  /** A successful parse yields exactly one device per non-blank line, in input order. */
  lemma {:induction false} DevicesOnePerLine(lines: seq<string>)
    requires DevicesOfLines(lines).Some?
    ensures var ds := DevicesOfLines(lines).value;
            && |ds| == |NonBlank(lines)|
            && forall k :: 0 <= k < |ds| ==> DeviceOfLine(NonBlank(lines)[k]) == Some(ds[k])
  {
    if lines != [] {
      DevicesHead(lines);
      DevicesOnePerLine(lines[1..]);
      var rest := DevicesOfLines(lines[1..]).value;
      var nb := NonBlank(lines[1..]);
      if IsBlank(lines[0]) {
        assert NonBlank(lines) == nb;
      } else {
        var d := DeviceOfLine(lines[0]).value;
        ConsOnePerLine(lines[0], d, nb, rest);
        assert NonBlank(lines) == [lines[0]] + nb;
        assert DevicesOfLines(lines).value == [d] + rest;
      }
    }
  }

  lemma ConsOnePerLine(line: string, d: Device, nb: seq<string>, rest: seq<Device>)
    requires DeviceOfLine(line) == Some(d)
    requires |rest| == |nb| && forall k :: 0 <= k < |rest| ==> DeviceOfLine(nb[k]) == Some(rest[k])
    ensures var ds, ls := [d] + rest, [line] + nb;
            |ds| == |ls| && forall k :: 0 <= k < |ds| ==> DeviceOfLine(ls[k]) == Some(ds[k])
  {
    var ds, ls := [d] + rest, [line] + nb;
    forall k | 0 <= k < |ds| ensures DeviceOfLine(ls[k]) == Some(ds[k]) {
      if k > 0 {
        assert ls[k] == nb[k - 1] && ds[k] == rest[k - 1];
      }
    }
  }

  /** The `try` block of `get_devices` and `fetch_devices`: split the output, then the loop. */
  method ParseDevices(stdout: string) returns (r: Option<seq<Device>>)
    ensures r == DevicesOf(stdout)
  {
    r := ParseDeviceLines(DeviceLines(stdout));
  }

  /** `devices` followed by the outcome of the remaining lines. */
  function After(devices: seq<Device>, rest: Option<seq<Device>>): Option<seq<Device>>
  {
    match rest
    case None => None
    case Some(tail) => Some(devices + tail)
  }

  lemma {:induction false} AppendAssociative(a: seq<Device>, b: seq<Device>, c: seq<Device>)
    ensures a + (b + c) == (a + b) + c
  {
  }

  lemma {:induction false} DevicesStep(lines: seq<string>, i: nat)
    requires i < |lines|
    ensures DevicesOfLines(lines[i..])
            == if IsBlank(lines[i]) then DevicesOfLines(lines[i + 1..])
               else match DeviceOfLine(lines[i])
                    case None => None
                    case Some(d) => After([d], DevicesOfLines(lines[i + 1..]))
  {
    assert lines[i..][1..] == lines[i + 1..];
  }

  /** The loop over the device lines, stopping at the first line that raises. */
  method ParseDeviceLines(lines: seq<string>) returns (r: Option<seq<Device>>)
    ensures r == DevicesOfLines(lines)
  {
    var devices: seq<Device> := [];
    var i := 0;
    assert lines[0..] == lines;
    if DevicesOfLines(lines).Some? {
      assert [] + DevicesOfLines(lines).value == DevicesOfLines(lines).value;
    }
    while i < |lines|
      invariant 0 <= i <= |lines|
      invariant DevicesOfLines(lines) == After(devices, DevicesOfLines(lines[i..]))
    {
      var line := lines[i];
      DevicesStep(lines, i);
      if Strip(line) == [] {
        i := i + 1;
        continue;
      }
      var parts := Tokens(line);
      if |parts| < 2 {
        return None;
      }
      var model := "Unknown";
      var found := Groups(ModelField, line);
      if found.Some? {
        model := ReplaceChar(found.value[0], '_', ' ');
      }
      var device := Device(parts[0], model, parts[1]);
      assert DeviceOfLine(line) == Some(device);
      ghost var rest := DevicesOfLines(lines[i + 1..]);
      if rest.Some? {
        AppendAssociative(devices, [device], rest.value);
      }
      devices := devices + [device];
      i := i + 1;
    }
    assert lines[i..] == [];
    assert devices + [] == devices;
    return Some(devices);
  }

  /** The package id of a `package:` line: every `package:` removed, then stripped. */
  function PackageOfLine(line: string): string
  {
    Strip(Replace(line, "package:", ""))
  }

  /** The package ids of the lines that start with `package:`, in input order. */
  function CollectPackages(lines: seq<string>): seq<string>
  {
    if lines == [] then []
    else
      (if StartsWith(lines[0], "package:") then [PackageOfLine(lines[0])] else [])
      + CollectPackages(lines[1..])
  }

  lemma {:induction false} CollectStep(lines: seq<string>, i: nat)
    requires i < |lines|
    ensures CollectPackages(lines[i..])
            == (if StartsWith(lines[i], "package:") then [PackageOfLine(lines[i])] else [])
               + CollectPackages(lines[i + 1..])
  {
    assert lines[i..][1..] == lines[i + 1..];
  }

  /** The lines of the package listing: `stdout.strip().split('\n')`. */
  function PackageLines(stdout: string): seq<string>
  {
    Split(Strip(stdout), "\n")
  }

  /** What `get_installed_packages` / `fetch_packages` compute from the tool's output. */
  function PackagesOf(stdout: string): seq<string>
  {
    Sort(CollectPackages(PackageLines(stdout)))
  }

  /** `line` is a `package:` line whose id is `x`. */
  predicate YieldsPackage(line: string, x: string) {
    StartsWith(line, "package:") && x == PackageOfLine(line)
  }

  /** A collected id comes from a `package:` line, and every such line gives one. */
  lemma {:induction false} CollectedFromPackageLines(lines: seq<string>, x: string)
    ensures x in CollectPackages(lines) <==> exists k :: 0 <= k < |lines| && YieldsPackage(lines[k], x)
  {
    if lines != [] {
      CollectedFromPackageLines(lines[1..], x);
      var head := if StartsWith(lines[0], "package:") then [PackageOfLine(lines[0])] else [];
      assert CollectPackages(lines) == head + CollectPackages(lines[1..]);
      assert x in CollectPackages(lines) <==> x in head || x in CollectPackages(lines[1..]);
      YieldsPackageShift(lines, x);
    }
  }

  lemma YieldsPackageShift(lines: seq<string>, x: string)
    requires lines != []
    ensures (exists k :: 0 <= k < |lines| && YieldsPackage(lines[k], x))
            <==> YieldsPackage(lines[0], x) || exists k :: 0 <= k < |lines[1..]| && YieldsPackage(lines[1..][k], x)
  {
    if exists k :: 0 <= k < |lines| && YieldsPackage(lines[k], x) {
      var k :| 0 <= k < |lines| && YieldsPackage(lines[k], x);
      if k > 0 {
        assert lines[1..][k - 1] == lines[k];
      }
    }
    if exists k :: 0 <= k < |lines[1..]| && YieldsPackage(lines[1..][k], x) {
      var k :| 0 <= k < |lines[1..]| && YieldsPackage(lines[1..][k], x);
      assert lines[k + 1] == lines[1..][k];
    }
  }

  /**
    The package list is sorted ascending, and an id is in it exactly when it is what some
    `package:` line of the output yields.
   */
  lemma PackagesSortedFromLines(stdout: string, x: string)
    ensures Sorted(PackagesOf(stdout))
    ensures x in PackagesOf(stdout)
            <==> exists k :: 0 <= k < |PackageLines(stdout)| && YieldsPackage(PackageLines(stdout)[k], x)
  {
    var collected := CollectPackages(PackageLines(stdout));
    CollectedFromPackageLines(PackageLines(stdout), x);
    assert x in PackagesOf(stdout) <==> x in multiset(collected);
  }

  /** The `try` block of `get_installed_packages` and `fetch_packages`. */
  method ParsePackages(stdout: string) returns (packages: seq<string>)
    ensures packages == PackagesOf(stdout)
    ensures Sorted(packages)
    ensures multiset(packages) == multiset(CollectPackages(PackageLines(stdout)))
  {
    packages := ParsePackageLines(PackageLines(stdout));
  }

  /** The loop collecting the ids of the `package:` lines, then `sorted()`. */
  method ParsePackageLines(lines: seq<string>) returns (packages: seq<string>)
    ensures packages == Sort(CollectPackages(lines))
  {
    var collected: seq<string> := [];
    var i := 0;
    assert lines[0..] == lines;
    while i < |lines|
      invariant 0 <= i <= |lines|
      invariant CollectPackages(lines) == collected + CollectPackages(lines[i..])
    {
      CollectStep(lines, i);
      var line := lines[i];
      if StartsWith(line, "package:") {
        collected := collected + [PackageOfLine(line)];
      }
      i := i + 1;
    }
    assert lines[i..] == [];
    assert collected == CollectPackages(lines);
    packages := Sort(collected);
  }
}
