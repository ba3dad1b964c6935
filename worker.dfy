/**
  backend/worker.py: `ADBWorker`, the object that runs the blocking `adb` queries for the
  bridge and reports each result by emitting one signal. The signals emitted so far are kept
  in `emitted`, in order.
 */
module Worker {
  import opened Wrappers
  import opened Strings
  import opened Numbers
  import opened Patterns
  import opened Ordering
  import opened AdbOutput

  /** `devicesReady(list)`, `packagesReady(str, list)` and `errorOccurred(str)`. */
  datatype WorkerSignal =
    | DevicesReady(devices: seq<Device>)
    | PackagesReady(serial: string, packages: seq<string>)
    | ErrorOccurred(message: string)

  /** `str(e)` of the `IndexError` raised by `parts[1]` on a line with one token. */
  const IndexErrorText := "list index out of range"

  /** The four package ids of mock mode, in the order written. */
  const MockPackages: seq<string> := [
    "com.android.chrome", "com.google.android.youtube",
    "com.whatsapp", "com.instagram.android"
  ]

  /**
    The one signal `fetch_devices` emits. `devicesReady` carries the mock list or the parsed
    list. A non-zero exit gives "ADB Error: …". A failed start and a line with fewer than two
    tokens give "General Error: …".
   */
  function DevicesSignal(adb: AdbTool): (s: WorkerSignal)
    ensures s.DevicesReady? || s.ErrorOccurred?
    ensures adb.path.None? ==> s == DevicesReady(MockDevices)
    ensures adb.path.Some? ==>
              var inv := adb.run(DevicesCommand(adb.path.value));
              && (s.DevicesReady? <==> inv.Exited? && DevicesOf(inv.stdout).Some?)
              && (s.DevicesReady? ==> Some(s.devices) == DevicesOf(inv.stdout))
    ensures adb.path.Some? ==>
              match adb.run(DevicesCommand(adb.path.value))
              case Exited(stdout) => DevicesOf(stdout).None? ==> s == ErrorOccurred("General Error: " + IndexErrorText)
              case NonZeroExit(_, e) => s == ErrorOccurred("ADB Error: " + e)
              case SpawnError(e) => s == ErrorOccurred("General Error: " + e)
  {
    match adb.path
    case None => DevicesReady(MockDevices)
    case Some(exe) =>
      match adb.run(DevicesCommand(exe))
      case Exited(stdout) =>
        (match DevicesOf(stdout)
         case Some(devices) => DevicesReady(devices)
         case None => ErrorOccurred("General Error: " + IndexErrorText))
      case NonZeroExit(_, e) => ErrorOccurred("ADB Error: " + e)
      case SpawnError(e) => ErrorOccurred("General Error: " + e)
  }

  /**
    The one signal `fetch_packages(serial)` emits: the list tagged with the requested serial
    (the fixed four ids in mock mode or for a "MOCK" serial, else the sorted ids of a run that
    exited with status 0), or "Failed to fetch packages: …".
   */
  function PackagesSignal(adb: AdbTool, serial: string): (s: WorkerSignal)
    ensures s.PackagesReady? || s.ErrorOccurred?
    ensures s.PackagesReady? ==> s.serial == serial
    ensures adb.path.None? || IsMockSerial(serial) ==> s == PackagesReady(serial, MockPackages)
    ensures adb.path.Some? && !IsMockSerial(serial) ==>
              var inv := adb.run(PackagesCommand(adb.path.value, serial));
              && (s.PackagesReady? <==> inv.Exited?)
              && (s.PackagesReady? ==> s.packages == PackagesOf(inv.stdout) && Sorted(s.packages))
              && (s.ErrorOccurred? ==> StartsWith(s.message, "Failed to fetch packages: "))
  {
    if adb.path.None? || IsMockSerial(serial) then PackagesReady(serial, MockPackages)
    else
      match adb.run(PackagesCommand(adb.path.value, serial))
      case Exited(stdout) => PackagesReady(serial, PackagesOf(stdout))
      case NonZeroExit(_, e) => ErrorOccurred("Failed to fetch packages: " + e)
      case SpawnError(e) => ErrorOccurred("Failed to fetch packages: " + e)
  }

  const DefaultInfo: (int, int, int) := (1080, 2400, 400)

  /** The size in the stripped `wm size` output: an "Override size:" match, else a "Physical size:" one. */
  function SizeReading(output: string): Option<(nat, nat)>
  {
    match PairValues("Override size:", 'x', output)
    case Some(v) => Some(v)
    case None => PairValues("Physical size:", 'x', output)
  }

  /** The density in the stripped `wm density` output: an "Override density:" match, else a "Physical density:" one. */
  function DensityReading(output: string): Option<nat>
  {
    match NumberValue("Override density:", output)
    case Some(v) => Some(v)
    case None => NumberValue("Physical density:", output)
  }

  /**
    What `get_device_info(serial)` returns. In mock mode or for a "MOCK" serial it is the
    defaults. Otherwise both queries are run without `check=True`, so their output is read
    whatever the exit status. When the size query cannot start, every value keeps its default.
    When only the density query cannot start, the size already read is kept.
   */
  function DeviceInfo(adb: AdbTool, serial: string): (info: (int, int, int))
    ensures adb.path.None? || IsMockSerial(serial) ==> info == DefaultInfo
    ensures adb.path.Some? && !IsMockSerial(serial) ==>
              var size := adb.run(SizeCommand(adb.path.value, serial));
              var density := adb.run(DensityCommand(adb.path.value, serial));
              && (size.SpawnError? ==> info == DefaultInfo)
              && (!size.SpawnError? ==>
                    && (info.0, info.1) == SizeReading(Strip(size.stdout)).GetOr((1080, 2400))
                    && info.2 == if density.SpawnError? then 400 else DensityReading(Strip(density.stdout)).GetOr(400))
  {
    if adb.path.None? || IsMockSerial(serial) then DefaultInfo
    else
      var exe := adb.path.value;
      var size := adb.run(SizeCommand(exe, serial));
      if size.SpawnError? then DefaultInfo
      else
        var wh := SizeReading(Strip(size.stdout)).GetOr((1080, 2400));
        var density := adb.run(DensityCommand(exe, serial));
        if density.SpawnError? then (wh.0, wh.1, 400)
        else (wh.0, wh.1, DensityReading(Strip(density.stdout)).GetOr(400))
  }

  /** `ADBWorker`: the tool it found at construction and the signals it has emitted. */
  class AdbWorker {
    const adb: AdbTool
    var emitted: seq<WorkerSignal>

    constructor (adb: AdbTool)
      ensures this.adb == adb && emitted == []
    {
      this.adb := adb;
      emitted := [];
    }

    /** `fetch_devices()`: runs the query and emits exactly one signal. */
    method FetchDevices()
      modifies this
      ensures emitted == old(emitted) + [DevicesSignal(adb)]
    {
      if adb.path.None? {
        emitted := emitted + [DevicesReady(MockDevices)];
        return;
      }
      match adb.run(DevicesCommand(adb.path.value)) {
        case Exited(stdout) =>
          var parsed := ParseDevices(stdout);
          if parsed.Some? {
            emitted := emitted + [DevicesReady(parsed.value)];
          } else {
            emitted := emitted + [ErrorOccurred("General Error: " + IndexErrorText)];
          }
        case NonZeroExit(_, e) =>
          emitted := emitted + [ErrorOccurred("ADB Error: " + e)];
        case SpawnError(e) =>
          emitted := emitted + [ErrorOccurred("General Error: " + e)];
      }
    }

    /** `fetch_packages(serial)`: runs the query and emits exactly one signal. */
    method FetchPackages(serial: string)
      modifies this
      ensures emitted == old(emitted) + [PackagesSignal(adb, serial)]
    {
      if adb.path.None? || IsMockSerial(serial) {
        emitted := emitted + [PackagesReady(serial, MockPackages)];
        return;
      }
      match adb.run(PackagesCommand(adb.path.value, serial)) {
        case Exited(stdout) =>
          var packages := ParsePackages(stdout);
          emitted := emitted + [PackagesReady(serial, packages)];
        case NonZeroExit(_, e) =>
          emitted := emitted + [ErrorOccurred("Failed to fetch packages: " + e)];
        case SpawnError(e) =>
          emitted := emitted + [ErrorOccurred("Failed to fetch packages: " + e)];
      }
    }

    /**
      `get_device_info(serial)`: starts from the defaults and overwrites width and height, then
      density, as each query yields a match; it emits nothing.
     */
    method GetDeviceInfo(serial: string) returns (width: int, height: int, density: int)
      ensures (width, height, density) == DeviceInfo(adb, serial)
    {
      width, height := 1080, 2400;
      density := 400;
      if adb.path.None? || IsMockSerial(serial) {
        return;
      }
      var sizeRun := adb.run(SizeCommand(adb.path.value, serial));
      if sizeRun.SpawnError? {
        return;
      }
      var sizeOut := Strip(sizeRun.stdout);
      var sizeMatch := PairValues("Override size:", 'x', sizeOut);
      if sizeMatch.None? {
        sizeMatch := PairValues("Physical size:", 'x', sizeOut);
      }
      if sizeMatch.Some? {
        width, height := sizeMatch.value.0, sizeMatch.value.1;
      }
      var densityRun := adb.run(DensityCommand(adb.path.value, serial));
      if densityRun.SpawnError? {
        return;
      }
      var densityOut := Strip(densityRun.stdout);
      var densityMatch := NumberValue("Override density:", densityOut);
      if densityMatch.None? {
        densityMatch := NumberValue("Physical density:", densityOut);
      }
      if densityMatch.Some? {
        density := densityMatch.value;
      }
    }
  }

  /** A size line as `wm size` prints it: the key, a blank, then `WxH`. */
  function SizeLine(key: string, w: nat, h: nat): string {
    key + " " + NatToString(w) + "x" + NatToString(h)
  }

  /** A density line as `wm density` prints it: the key, a blank, then the value. */
  function DensityLine(key: string, v: nat): string {
    key + " " + NatToString(v)
  }

  lemma Regroup5Pieces(a: string, k: string, b: string, c: string, f: string)
    ensures a + (k + b + c) + f == a + k + b + c + f
  {
  }

  lemma EmptyLeft(x: string, y: string, z: string)
    ensures [] + x + (y + z) == x + y + z
    ensures [] + x + y == x + y
  {
  }

  lemma EmptyRight(x: string)
    ensures x + [] == x
  {
  }

  /**
    The first "Override size: WxH" line decides the size wherever a "Physical size:" line is,
    before it or after it.
   */
  lemma SizeOverrideWins(pre: string, w: nat, h: nat, post: string)
    requires !Contains(pre, "Override size:")
    requires post == [] || !IsDigit(post[0])
    ensures SizeReading(pre + SizeLine("Override size:", w, h) + post) == Some((w, h))
  {
    MarkerKeys();
    NumeralValueOfNatToString(w);
    NumeralValueOfNatToString(h);
    PairReadsAt(pre, "Override size:", NatToString(w), NatToString(h), w, h, post);
  }

  /** Without an override line, the first "Physical size: WxH" line decides the size. */
  lemma SizePhysicalWithoutOverride(pre: string, w: nat, h: nat, post: string)
    requires !Contains(pre + SizeLine("Physical size:", w, h) + post, "Override size:")
    requires !Contains(pre, "Physical size:")
    requires post == [] || !IsDigit(post[0])
    ensures SizeReading(pre + SizeLine("Physical size:", w, h) + post) == Some((w, h))
  {
    MarkerKeys();
    SearchWithoutKey(Pair("Override size:", 'x'), pre + SizeLine("Physical size:", w, h) + post);
    NumeralValueOfNatToString(w);
    NumeralValueOfNatToString(h);
    PairReadsAt(pre, "Physical size:", NatToString(w), NatToString(h), w, h, post);
  }

  /** A `KEY WxH` line after text without the key gives the two values to `map(int, m.groups())`. */
  lemma PairReadsAt(pre: string, key: string, sw: string, sh: string, w: nat, h: nat, post: string)
    requires key != [] && Lacks(key[1..], key[0]) && !Contains(pre, key)
    requires IsNumeral(sw) && IsNumeral(sh) && NumeralValue(sw) == w && NumeralValue(sh) == h
    requires post == [] || !IsDigit(post[0])
    ensures PairValues(key, 'x', pre + (key + " " + sw + "x" + sh) + post) == Some((w, h))
  {
    var s := pre + (key + " " + sw + "x" + sh) + post;
    LineAfter(pre, key + " " + sw + "x" + sh, post);
    Regroup7(pre, key, " ", sw, "x", sh, post);
    PairMatchesNumerals(pre, key, " ", sw, 'x', sh, post);
    AbsentBeforeOccurrence(s, |pre|, key);
    SearchFindsAt(Pair(key, 'x'), s, |pre|, [sw, sh]);
  }

  /** A `KEY N` line after text without the key gives the value to `int(m.group(1))`. */
  lemma NumberReadsAt(pre: string, key: string, sv: string, v: nat, post: string)
    requires key != [] && Lacks(key[1..], key[0]) && !Contains(pre, key)
    requires IsNumeral(sv) && NumeralValue(sv) == v
    requires post == [] || !IsDigit(post[0])
    ensures NumberValue(key, pre + (key + " " + sv) + post) == Some(v)
  {
    var s := pre + (key + " " + sv) + post;
    LineAfter(pre, key + " " + sv, post);
    Regroup5Pieces(pre, key, " ", sv, post);
    NumberMatchesNumeral(pre, key, " ", sv, post);
    AbsentBeforeOccurrence(s, |pre|, key);
    SearchFindsAt(Number(key), s, |pre|, [sv]);
  }

  /** What is written before a line is the prefix of the text. */
  lemma LineAfter(pre: string, line: string, post: string)
    ensures (pre + line + post)[..|pre|] == pre
  {
    assert (pre + line + post)[..|pre|] == (pre + line)[..|pre|];
  }

  /** The first character of each marker does not recur in it, so its occurrences cannot overlap. */
  lemma MarkerKeys()
    ensures Lacks("Override size:"[1..], 'O') && Lacks("Physical size:"[1..], 'P')
    ensures Lacks("Override density:"[1..], 'O') && Lacks("Physical density:"[1..], 'P')
  {
  }

  lemma PhysicalSizeLacksO()
    ensures Lacks("Physical size:", 'O') && Lacks(" ", 'O') && Lacks("x", 'O') && Lacks("\n", 'O')
    ensures Lacks("Physical density:", 'O')
  {
  }

  /** A rendered size line lacks every character that is not a digit and is absent from its fixed parts. */
  lemma RenderedSizeLacks(pre: string, key: string, w: nat, h: nat, post: string, c: char)
    requires !IsDigit(c) && Lacks(" ", c) && Lacks("x", c)
    requires Lacks(pre, c) && Lacks(key, c) && Lacks(post, c)
    ensures Lacks(pre + key + " " + NatToString(w) + "x" + NatToString(h) + post, c)
    ensures Lacks(pre + SizeLine(key, w, h) + post, c)
  {
    var sw, sh := NatToString(w), NatToString(h);
    Regroup7(pre, key, " ", sw, "x", sh, post);
    NatToStringLacks(w, c);
    NatToStringLacks(h, c);
    var t1 := pre + key;
    LacksConcat(pre, key, c);
    var t2 := t1 + " ";
    LacksConcat(t1, " ", c);
    var t3 := t2 + sw;
    LacksConcat(t2, sw, c);
    var t4 := t3 + "x";
    LacksConcat(t3, "x", c);
    var t5 := t4 + sh;
    LacksConcat(t4, sh, c);
    LacksConcat(t5, post, c);
  }

  lemma NatToStringLacks(n: nat, c: char)
    requires !IsDigit(c)
    ensures Lacks(NatToString(n), c)
  {
  }

  /** The override size is the answer whichever of the two lines comes first. */
  lemma SizeOverrideEitherOrder(pw: nat, ph: nat, w: nat, h: nat)
    ensures SizeReading(SizeLine("Physical size:", pw, ph) + "\n" + SizeLine("Override size:", w, h)) == Some((w, h))
    ensures SizeReading(SizeLine("Override size:", w, h) + "\n" + SizeLine("Physical size:", pw, ph)) == Some((w, h))
  {
    var phys := SizeLine("Physical size:", pw, ph);
    var over := SizeLine("Override size:", w, h);
    PhysicalSizeLacksO();
    RenderedSizeLacks([], "Physical size:", pw, ph, "\n", 'O');
    EmptyLeft(phys, "\n", []);
    FindLacking(phys + "\n", "Override size:");
    SizeOverrideWins(phys + "\n", w, h, []);
    EmptyRight(phys + "\n" + over);
    SizeOverrideWins([], w, h, "\n" + phys);
    EmptyLeft(over, "\n", phys);
  }

  lemma Digits()
    ensures NatToString(1080) == "1080" && NatToString(2400) == "2400" && NatToString(2340) == "2340"
  {
    assert NatToString(108) == "108" by {
      assert NatToString(10) == "10";
    }
    assert NatToString(240) == "240" by {
      assert NatToString(24) == "24";
    }
    assert NatToString(234) == "234" by {
      assert NatToString(23) == "23";
    }
  }

  lemma ExampleLines()
    ensures SizeLine("Physical size:", 1080, 2400) == "Physical size: 1080x2400"
    ensures SizeLine("Override size:", 1080, 2340) == "Override size: 1080x2340"
  {
    Digits();
  }

  /** The listing "Physical size: 1080x2400", then "Override size: 1080x2340", gives 1080x2340. */
  lemma SizeExample()
    ensures SizeReading("Physical size: 1080x2400" + "\n" + "Override size: 1080x2340") == Some((1080, 2340))
  {
    SizeOverrideEitherOrder(1080, 2400, 1080, 2340);
    ExampleLines();
  }

  /** The first "Override density: N" line decides the density wherever a "Physical density:" line is. */
  lemma DensityOverrideWins(pre: string, v: nat, post: string)
    requires !Contains(pre, "Override density:")
    requires post == [] || !IsDigit(post[0])
    ensures DensityReading(pre + DensityLine("Override density:", v) + post) == Some(v)
  {
    MarkerKeys();
    NumeralValueOfNatToString(v);
    NumberReadsAt(pre, "Override density:", NatToString(v), v, post);
  }

  /** A rendered density line lacks every character that is not a digit and is absent from its fixed parts. */
  lemma RenderedDensityLacks(pre: string, key: string, v: nat, post: string, c: char)
    requires !IsDigit(c) && Lacks(" ", c)
    requires Lacks(pre, c) && Lacks(key, c) && Lacks(post, c)
    ensures Lacks(pre + key + " " + NatToString(v) + post, c)
    ensures Lacks(pre + DensityLine(key, v) + post, c)
  {
    var sv := NatToString(v);
    Regroup5Pieces(pre, key, " ", sv, post);
    NatToStringLacks(v, c);
    var t1 := pre + key;
    LacksConcat(pre, key, c);
    var t2 := t1 + " ";
    LacksConcat(t1, " ", c);
    var t3 := t2 + sv;
    LacksConcat(t2, sv, c);
    LacksConcat(t3, post, c);
  }

  /** Without an override line, the first "Physical density: N" line decides the density. */
  lemma DensityPhysicalWithoutOverride(pre: string, v: nat, post: string)
    requires !Contains(pre + DensityLine("Physical density:", v) + post, "Override density:")
    requires !Contains(pre, "Physical density:")
    requires post == [] || !IsDigit(post[0])
    ensures DensityReading(pre + DensityLine("Physical density:", v) + post) == Some(v)
  {
    MarkerKeys();
    SearchWithoutKey(Number("Override density:"), pre + DensityLine("Physical density:", v) + post);
    NumeralValueOfNatToString(v);
    NumberReadsAt(pre, "Physical density:", NatToString(v), v, post);
  }

  /** The override density is the answer whichever of the two lines comes first. */
  lemma DensityOverrideEitherOrder(p: nat, v: nat)
    ensures DensityReading(DensityLine("Physical density:", p) + "\n" + DensityLine("Override density:", v)) == Some(v)
    ensures DensityReading(DensityLine("Override density:", v) + "\n" + DensityLine("Physical density:", p)) == Some(v)
  {
    var phys := DensityLine("Physical density:", p);
    var over := DensityLine("Override density:", v);
    PhysicalSizeLacksO();
    RenderedDensityLacks([], "Physical density:", p, "\n", 'O');
    EmptyLeft(phys, "\n", []);
    FindLacking(phys + "\n", "Override density:");
    DensityOverrideWins(phys + "\n", v, []);
    EmptyRight(phys + "\n" + over);
    DensityOverrideWins([], v, "\n" + phys);
    EmptyLeft(over, "\n", phys);
  }

  /** Output without any of the four markers gives no reading, so the defaults stay. */
  lemma NoMarkerNoReading(output: string)
    requires !Contains(output, "Override size:") && !Contains(output, "Physical size:")
    requires !Contains(output, "Override density:") && !Contains(output, "Physical density:")
    ensures SizeReading(output).None? && DensityReading(output).None?
  {
    SearchWithoutKey(Pair("Override size:", 'x'), output);
    SearchWithoutKey(Pair("Physical size:", 'x'), output);
    SearchWithoutKey(Number("Override density:"), output);
    SearchWithoutKey(Number("Physical density:"), output);
  }
}
