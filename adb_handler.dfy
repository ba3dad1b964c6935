/**
  backend/adb_handler.py: `ADBHandler`, the synchronous front end to `adb`. Every query has a
  fixed answer in mock mode (no `adb` on the PATH), and every query except `connect` and
  `disconnect` falls back to `[]` or to a default value when the tool fails.
 */
module AdbHandler {
  import opened Wrappers
  import opened Strings
  import opened Numbers
  import opened Ordering
  import opened AdbOutput

  /** How a call ended: with a value, or with an exception that escapes to the caller. */
  datatype Outcome<T> = Returns(value: T) | Raises(error: string)

  /** The `check=True` run of `adb VERB address` that `connect` and `disconnect` make. */
  function CheckedCall(adb: AdbTool, verb: string, address: string): Outcome<bool>
    requires adb.path.Some?
  {
    match adb.run([adb.path.value, verb, address])
    case Exited(_) => Returns(true)
    case NonZeroExit(_, _) => Returns(false)
    case SpawnError(e) => Raises(e)
  }

  /**
    `connect(address)`: true in mock mode. Otherwise it is true on exit status 0 and false on a
    non-zero exit (the `CalledProcessError` that is caught). An exception from starting the tool
    is not caught and escapes.
   */
  function Connect(adb: AdbTool, address: string): (r: Outcome<bool>)
    ensures adb.path.None? ==> r == Returns(true)
    ensures adb.path.Some? ==>
              var inv := adb.run([adb.path.value, "connect", address]);
              && (r == Returns(true) <==> inv.Exited?)
              && (r == Returns(false) <==> inv.NonZeroExit?)
              && (r.Raises? <==> inv.SpawnError?)
  {
    if adb.path.None? then Returns(true) else CheckedCall(adb, "connect", address)
  }

  /** `disconnect(address)`: like `connect`, with the `adb disconnect` command. */
  function Disconnect(adb: AdbTool, address: string): (r: Outcome<bool>)
    ensures adb.path.None? ==> r == Returns(true)
    ensures adb.path.Some? ==>
              var inv := adb.run([adb.path.value, "disconnect", address]);
              && (r == Returns(true) <==> inv.Exited?)
              && (r == Returns(false) <==> inv.NonZeroExit?)
              && (r.Raises? <==> inv.SpawnError?)
  {
    if adb.path.None? then Returns(true) else CheckedCall(adb, "disconnect", address)
  }

  /**
    `get_devices()`: the two mock devices in mock mode. Otherwise it is the parsed list when the
    tool exits with status 0 and every non-blank line after the header has two tokens. Every
    other case gives `[]`, never a partial list.
   */
  method GetDevices(adb: AdbTool) returns (devices: seq<Device>)
    ensures adb.path.None? ==> devices == MockDevices
    ensures adb.path.Some? ==>
              var inv := adb.run(DevicesCommand(adb.path.value));
              devices == if inv.Exited? && DevicesOf(inv.stdout).Some? then DevicesOf(inv.stdout).value else []
  {
    if adb.path.None? {
      return MockDevices;
    }
    match adb.run(DevicesCommand(adb.path.value)) {
      case Exited(stdout) =>
        var parsed := ParseDevices(stdout);
        devices := if parsed.Some? then parsed.value else [];
      case NonZeroExit(_, _) =>
        devices := [];
      case SpawnError(_) =>
        devices := [];
    }
  }

  /** The eleven package ids of mock mode, in the order written (they are not sorted). */
  const MockPackages: seq<string> := [
    "com.android.chrome", "com.google.android.youtube",
    "com.whatsapp", "com.instagram.android", "com.twitter.android",
    "com.spotify.music", "com.netflix.mediaclient", "com.discord",
    "com.microsoft.teams", "com.slack", "org.telegram.messenger"
  ]

  /**
    `get_installed_packages(serial)`: the fixed list in mock mode or for a "MOCK" serial. Otherwise
    it is the sorted ids from the `package:` lines when the tool exits with status 0, and `[]` on
    any failure.
   */
  method GetInstalledPackages(adb: AdbTool, serial: string) returns (packages: seq<string>)
    ensures adb.path.None? || IsMockSerial(serial) ==> packages == MockPackages
    ensures adb.path.Some? && !IsMockSerial(serial) ==>
              var inv := adb.run(PackagesCommand(adb.path.value, serial));
              && packages == (if inv.Exited? then PackagesOf(inv.stdout) else [])
              && Sorted(packages)
  {
    if adb.path.None? || IsMockSerial(serial) {
      return MockPackages;
    }
    match adb.run(PackagesCommand(adb.path.value, serial)) {
      case Exited(stdout) =>
        packages := ParsePackages(stdout);
      case NonZeroExit(_, _) =>
        packages := [];
      case SpawnError(_) =>
        packages := [];
    }
  }

  /** The mock package list is returned as written: it is not in ascending order. */
  lemma MockPackagesUnsorted()
    ensures !Sorted(MockPackages)
  {
    var a, b := MockPackages[4], MockPackages[5];
    assert a == "com." + "twitter.android" && b == "com." + "spotify.music";
    LexLeAfterCommonPrefix("com.", "twitter.android", "spotify.music");
  }

  const DefaultResolution: (int, int) := (1080, 2400)

  /**
    The `try` block of `get_device_resolution` on the stripped output: the text after the first
    "Physical size:", stripped, read by `SizeText`.
   */
  function ResolutionOf(output: string): Option<(int, int)>
  {
    if !Contains(output, "Physical size:") then None
    else
      SplitManyIffContains(output, "Physical size:");
      SizeText(Strip(Split(output, "Physical size:")[1]))
  }

  /**
    `get_device_resolution(serial)`: (1080, 2400) in mock mode, for a "MOCK" serial, when the
    tool fails and when the output does not parse; otherwise the parsed size.
   */
  function GetDeviceResolution(adb: AdbTool, serial: string): (r: (int, int))
    ensures adb.path.None? || IsMockSerial(serial) ==> r == DefaultResolution
    ensures adb.path.Some? && !IsMockSerial(serial) ==>
              var inv := adb.run(SizeCommand(adb.path.value, serial));
              r == if inv.Exited? && ResolutionOf(Strip(inv.stdout)).Some?
                   then ResolutionOf(Strip(inv.stdout)).value else DefaultResolution
  {
    if adb.path.None? || IsMockSerial(serial) then DefaultResolution
    else
      match adb.run(SizeCommand(adb.path.value, serial))
      case Exited(stdout) => ResolutionOf(Strip(stdout)).GetOr(DefaultResolution)
      case _ => DefaultResolution
  }

  /** When "Physical size:" occurs once, what follows it is the text that is read. */
  lemma {:induction false} ResolutionAfterMarker(pre: string, rest: string)
    requires !Contains(pre, "Physical size:") && !Contains(rest, "Physical size:")
    ensures ResolutionOf(pre + "Physical size:" + rest) == SizeText(Strip(rest))
  {
    var out := pre + "Physical size:" + rest;
    assert out[|pre|..|pre| + |"Physical size:"|] == "Physical size:";
    assert OccursAt(out, |pre|, "Physical size:");
    assert Lacks("Physical size:"[1..], 'P');
    SplitAfterAbsent(pre, "Physical size:", rest);
    assert Split(rest, "Physical size:") == [rest];
    assert Split(out, "Physical size:")[1] == rest;
  }

  /** `f"{w}x{h}"` after a blank: it has no "P" in it, and `strip()` removes the blank. */
  lemma {:induction false} RenderedSizeFacts(w: int, h: int)
    ensures var sw, sh := IntToString(w), IntToString(h);
            && Lacks(" " + sw + "x" + sh, 'P')
            && Strip(" " + sw + "x" + sh) == sw + "x" + sh
  {
    var sw, sh := IntToString(w), IntToString(h);
    IntToStringLacks(w, 'P');
    IntToStringLacks(h, 'P');
    LacksConcat(" ", sw, 'P');
    LacksConcat(" " + sw, "x", 'P');
    LacksConcat(" " + sw + "x", sh, 'P');
    assert " " + (sw + "x" + sh) == " " + sw + "x" + sh;
    IntToStringEdges(w);
    IntToStringEdges(h);
    StripAfterBlanks(" ", sw + "x" + sh);
  }

  /** Output that starts with "Physical size:" is read from what follows the marker. */
  lemma ResolutionAtStart(rest: string)
    requires Lacks(rest, 'P')
    ensures ResolutionOf("Physical size:" + rest) == SizeText(Strip(rest))
  {
    assert "" + "Physical size:" + rest == "Physical size:" + rest;
    FindLacking(rest, "Physical size:");
    ResolutionAfterMarker("", rest);
  }

  /** `wm size` output of the form "Physical size: WxH" reads back as (W, H). */
  lemma ResolutionOfPhysicalSize(w: int, h: int)
    ensures ResolutionOf("Physical size: " + IntToString(w) + "x" + IntToString(h)) == Some((w, h))
  {
    var sw, sh := IntToString(w), IntToString(h);
    assert "Physical size: " == "Physical size:" + " ";
    Regroup5("Physical size:", " ", sw, "x", sh);
    RenderedSizeFacts(w, h);
    ResolutionAtStart(" " + sw + "x" + sh);
    SizeTextOf(w, h);
  }

  /** The fixed text of an override line has no "P" and no "x" in it. */
  lemma OverrideSizeText()
    ensures Lacks("Override size: ", 'P') && Lacks("\nOverride size: ", 'P') && Lacks("\n", 'P')
    ensures Lacks("\nOverride size: ", 'x')
  {
  }

  /**
    With the override line first, the text after "Physical size:" is the physical size alone,
    so the physical value is read and the override value is not.
   */
  lemma ResolutionOverrideFirst(a: int, b: int, c: int, d: int)
    ensures var over := "Override size: " + IntToString(c) + "x" + IntToString(d) + "\n";
            ResolutionOf(over + "Physical size:" + (" " + IntToString(a) + "x" + IntToString(b))) == Some((a, b))
  {
    var sa, sb, sc, sd := IntToString(a), IntToString(b), IntToString(c), IntToString(d);
    var over := "Override size: " + sc + "x" + sd + "\n";
    OverrideSizeText();
    IntToStringLacks(c, 'P');
    IntToStringLacks(d, 'P');
    LacksConcat("Override size: ", sc, 'P');
    LacksConcat("Override size: " + sc, "x", 'P');
    LacksConcat("Override size: " + sc + "x", sd, 'P');
    LacksConcat("Override size: " + sc + "x" + sd, "\n", 'P');
    RenderedSizeFacts(a, b);
    FindLacking(over, "Physical size:");
    FindLacking(" " + sa + "x" + sb, "Physical size:");
    ResolutionAfterMarker(over, " " + sa + "x" + sb);
    SizeTextOf(a, b);
  }

  /**
    With the override line after the physical one, the text after "Physical size:" holds two
    "x", `map(int, ...)` cannot unpack it into two values, and the default is returned: the
    override is never read.
   */
  lemma ResolutionOverrideAfter(a: int, b: int, c: int, d: int)
    ensures var sa, sb, sc, sd := IntToString(a), IntToString(b), IntToString(c), IntToString(d);
            ResolutionOf("Physical size:" + (" " + (sa + "x" + (sb + "\nOverride size: " + sc) + "x" + sd))).None?
  {
    var sa, sb, sc, sd := IntToString(a), IntToString(b), IntToString(c), IntToString(d);
    var q := sb + "\nOverride size: " + sc;
    var t := sa + "x" + q + "x" + sd;
    OverrideSizeText();
    IntToStringLacks(a, 'P');
    IntToStringLacks(b, 'P');
    IntToStringLacks(c, 'P');
    IntToStringLacks(d, 'P');
    IntToStringLacks(b, 'x');
    IntToStringLacks(c, 'x');
    IntToStringLacks(a, 'x');
    IntToStringLacks(d, 'x');
    LacksConcat(sb, "\nOverride size: ", 'P');
    LacksConcat(sb + "\nOverride size: ", sc, 'P');
    LacksConcat(sb, "\nOverride size: ", 'x');
    LacksConcat(sb + "\nOverride size: ", sc, 'x');
    LacksConcat(sa, "x", 'P');
    LacksConcat(sa + "x", q, 'P');
    LacksConcat(sa + "x" + q, "x", 'P');
    LacksConcat(sa + "x" + q + "x", sd, 'P');
    LacksConcat(" ", t, 'P');
    IntToStringEdges(a);
    IntToStringEdges(d);
    assert t[0] == sa[0] && t[|t| - 1] == sd[|sd| - 1];
    StripAfterBlanks(" ", t);
    ResolutionAtStart(" " + t);
    SizeTextTwoSeparators(sa, q, sd);
  }

  /** Which of the two `wm density` lines a reading is taken from. */
  datatype DensityKind = Override | Physical

  /** `int(line.split(":")[1].strip())` for a line holding a marker that ends in ':'. */
  function ValueAfterColon(line: string, marker: string): Option<int>
    requires marker != [] && marker[|marker| - 1] == ':' && Contains(line, marker)
  {
    ContainsPart(line, marker, |marker| - 1);
    SplitManyIffContains(line, ":");
    ParseInt(Strip(Split(line, ":")[1]))
  }

  /**
    The value one line of `wm density` output contributes to the kind's variable: a stripped
    line holding "Override density:" feeds `override_val`, otherwise one holding
    "Physical density:" feeds `physical_val`; a value that does not parse feeds nothing.
   */
  function ReadingOf(line: string, kind: DensityKind): Option<int>
  {
    var t := Strip(line);
    if Contains(t, "Override density:") then
      if kind == Override then ValueAfterColon(t, "Override density:") else None
    else if Contains(t, "Physical density:") then
      if kind == Physical then ValueAfterColon(t, "Physical density:") else None
    else None
  }

  /** What a line contributes to `override_val`. */
  function OverrideReading(line: string): Option<int> {
    ReadingOf(line, Override)
  }

  /** What a line contributes to `physical_val`. */
  function PhysicalReading(line: string): Option<int> {
    ReadingOf(line, Physical)
  }

  /** A variable after the loop: the reading of the last line that gives one. */
  function LastReading(lines: seq<string>, read: string -> Option<int>): Option<int>
    decreases |lines|
  {
    if lines == [] then None
    else
      match read(Last(lines))
      case Some(v) => Some(v)
      case None => LastReading(lines[..|lines| - 1], read)
  }

  lemma LastReadingStep(lines: seq<string>, i: nat, read: string -> Option<int>)
    requires i < |lines|
    ensures LastReading(lines[..i + 1], read)
            == if read(lines[i]).Some? then read(lines[i]) else LastReading(lines[..i], read)
  {
    assert lines[..i + 1][..i] == lines[..i];
    assert Last(lines[..i + 1]) == lines[i];
  }

  /**
    The loop ends with the value of the last line that gives a reading, and with nothing
    exactly when no line gives one.
   */
  lemma {:induction false} LastReadingIs(lines: seq<string>, read: string -> Option<int>)
    ensures LastReading(lines, read).None? <==> forall k :: 0 <= k < |lines| ==> read(lines[k]).None?
    ensures LastReading(lines, read).Some? ==>
              exists k :: && 0 <= k < |lines|
                          && read(lines[k]) == LastReading(lines, read)
                          && forall j :: k < j < |lines| ==> read(lines[j]).None?
    decreases |lines|
  {
    if lines != [] {
      var n := |lines| - 1;
      var init := lines[..n];
      LastReadingIs(init, read);
      assert forall k :: 0 <= k < n ==> init[k] == lines[k];
      if read(lines[n]).None? && LastReading(lines, read).Some? {
        var k :| 0 <= k < n && read(init[k]) == LastReading(init, read)
                 && forall j :: k < j < n ==> read(init[j]).None?;
        assert read(lines[k]) == LastReading(lines, read);
      }
    }
  }

  /** The density `get_device_density` settles on for the lines of the output. */
  function DensityOfLines(lines: seq<string>): int
  {
    match LastReading(lines, OverrideReading)
    case Some(v) => v
    case None => LastReading(lines, PhysicalReading).GetOr(400)
  }

  /** The lines `get_device_density` loops over: `output.strip().split('\n')`. */
  function DensityLines(stdout: string): seq<string>
  {
    Split(Strip(stdout), "\n")
  }

  /**
    One pass of the loop body: a stripped line holding "Override density:" may set
    `override_val`, otherwise one holding "Physical density:" may set `physical_val`; a value
    that does not parse (the `ValueError` that is passed over) leaves both as they were.
   */
  method ReadLine(raw: string, overrideVal: Option<int>, physicalVal: Option<int>)
    returns (overrideNext: Option<int>, physicalNext: Option<int>)
    ensures overrideNext == if OverrideReading(raw).Some? then OverrideReading(raw) else overrideVal
    ensures physicalNext == if PhysicalReading(raw).Some? then PhysicalReading(raw) else physicalVal
  {
    overrideNext, physicalNext := overrideVal, physicalVal;
    var line := Strip(raw);
    if Contains(line, "Override density:") {
      var v := ValueAfterColon(line, "Override density:");
      if v.Some? {
        overrideNext := v;
      }
    } else if Contains(line, "Physical density:") {
      var v := ValueAfterColon(line, "Physical density:");
      if v.Some? {
        physicalNext := v;
      }
    }
  }

  /** The readings of override and physical density, accumulated line by line. */
  method ScanDensity(lines: seq<string>) returns (overrideVal: Option<int>, physicalVal: Option<int>)
    ensures overrideVal == LastReading(lines, OverrideReading)
    ensures physicalVal == LastReading(lines, PhysicalReading)
  {
    overrideVal, physicalVal := None, None;
    var i := 0;
    assert lines[..0] == [];
    while i < |lines|
      invariant 0 <= i <= |lines|
      invariant overrideVal == LastReading(lines[..i], OverrideReading)
      invariant physicalVal == LastReading(lines[..i], PhysicalReading)
    {
      LastReadingStep(lines, i, OverrideReading);
      LastReadingStep(lines, i, PhysicalReading);
      overrideVal, physicalVal := ReadLine(lines[i], overrideVal, physicalVal);
      i := i + 1;
    }
    assert lines[..i] == lines;
  }

  /**
    `get_device_density(serial)`: 400 in mock mode, for a "MOCK" serial and when the tool fails;
    otherwise the last valid override reading, else the last valid physical reading, else 400.
   */
  method GetDeviceDensity(adb: AdbTool, serial: string) returns (density: int)
    ensures adb.path.None? || IsMockSerial(serial) ==> density == 400
    ensures adb.path.Some? && !IsMockSerial(serial) ==>
              var inv := adb.run(DensityCommand(adb.path.value, serial));
              density == if inv.Exited? then DensityOfLines(DensityLines(inv.stdout)) else 400
  {
    density := 400;
    if adb.path.None? || IsMockSerial(serial) {
      return;
    }
    match adb.run(DensityCommand(adb.path.value, serial)) {
      case Exited(stdout) =>
        var overrideVal, physicalVal := ScanDensity(DensityLines(stdout));
        if overrideVal.Some? {
          density := overrideVal.value;
        } else if physicalVal.Some? {
          density := physicalVal.value;
        }
      case NonZeroExit(_, _) =>
      case SpawnError(_) =>
    }
  }

  /**
    A valid override reading decides the density, wherever the physical lines are: the value
    is that of the last line that gives an override reading.
   */
  lemma DensityPrefersOverride(lines: seq<string>, k: nat, v: int)
    requires k < |lines| && OverrideReading(lines[k]) == Some(v)
    requires forall j :: k < j < |lines| ==> OverrideReading(lines[j]).None?
    ensures DensityOfLines(lines) == v
  {
    LastReadingIs(lines, OverrideReading);
    var o := LastReading(lines, OverrideReading).value;
    var k' :| 0 <= k' < |lines| && OverrideReading(lines[k']) == Some(o)
              && forall j :: k' < j < |lines| ==> OverrideReading(lines[j]).None?;
    assert k' == k;
  }

  /** Without a valid override reading the last valid physical reading decides, else 400. */
  lemma DensityWithoutOverride(lines: seq<string>)
    requires forall k :: 0 <= k < |lines| ==> OverrideReading(lines[k]).None?
    ensures (forall k :: 0 <= k < |lines| ==> PhysicalReading(lines[k]).None?) ==> DensityOfLines(lines) == 400
    ensures forall k, v :: 0 <= k < |lines| && PhysicalReading(lines[k]) == Some(v)
                          && (forall j :: k < j < |lines| ==> PhysicalReading(lines[j]).None?)
                          ==> DensityOfLines(lines) == v
  {
    LastReadingIs(lines, OverrideReading);
    LastReadingIs(lines, PhysicalReading);
    forall k, v | 0 <= k < |lines| && PhysicalReading(lines[k]) == Some(v)
                 && (forall j :: k < j < |lines| ==> PhysicalReading(lines[j]).None?)
      ensures DensityOfLines(lines) == v
    {
      var p := LastReading(lines, PhysicalReading).value;
      var k' :| 0 <= k' < |lines| && PhysicalReading(lines[k']) == Some(p)
                && forall j :: k' < j < |lines| ==> PhysicalReading(lines[j]).None?;
      assert k' == k;
    }
  }

  /** A line `head: N` holds the marker `head:` and the value N after its colon. */
  lemma {:induction false} LineValue(head: string, v: int)
    requires head != [] && !IsSpace(head[0]) && Lacks(head, ':')
    ensures var line := (head + ":") + (" " + IntToString(v));
            && Strip(line) == line
            && Contains(line, head + ":")
            && ValueAfterColon(line, head + ":") == Some(v)
  {
    IntToStringEdges(v);
    IntToStringLacks(v, ':');
    ParseIntOfIntToString(v);
    LineValueOf(head, IntToString(v), v);
  }

  /** A rendering of an `int`, as the facts about it that the line readers need. */
  predicate Rendered(sv: string, v: int) {
    && sv != [] && !IsSpace(sv[0]) && !IsSpace(sv[|sv| - 1])
    && Lacks(sv, ':') && ParseInt(sv) == Some(v)
  }

  lemma LineValueOf(head: string, sv: string, v: int)
    requires head != [] && !IsSpace(head[0]) && Lacks(head, ':')
    requires Rendered(sv, v)
    ensures var line := (head + ":") + (" " + sv);
            && Strip(line) == line
            && Contains(line, head + ":")
            && ValueAfterColon(line, head + ":") == Some(v)
  {
    var line := (head + ":") + (" " + sv);
    LineEdges(head, sv);
    StripNoEdgeSpace(line);
    LineSplits(head, sv);
    StripAfterBlanks(" ", sv);
  }

  lemma LineEdges(head: string, sv: string)
    requires head != [] && sv != []
    ensures var line := (head + ":") + (" " + sv);
            && line != [] && line[0] == head[0] && line[|line| - 1] == sv[|sv| - 1]
            && OccursAt(line, 0, head + ":")
  {
    var line := (head + ":") + (" " + sv);
    assert line[..|head + ":"|] == head + ":";
  }

  lemma LineSplits(head: string, sv: string)
    requires Lacks(head, ':') && Lacks(sv, ':')
    ensures Split((head + ":") + (" " + sv), ":") == [head, " " + sv]
  {
    LacksConcat(" ", sv, ':');
    SplitAfterLacking(head, ":", " " + sv);
    SplitLacking(" " + sv, ":");
  }

  lemma OverrideText(sv: string)
    ensures "Override density: " + sv == ("Override density" + ":") + (" " + sv)
    ensures "Override density" + ":" == "Override density:"
    ensures Lacks("Override density: ", '\n')
  {
    assert "Override density: " == "Override density" + ":" + " ";
  }

  lemma PhysicalText(sv: string)
    ensures "Physical density: " + sv == ("Physical density" + ":") + (" " + sv)
    ensures "Physical density" + ":" == "Physical density:"
    ensures Lacks("Physical density: ", 'O') && Lacks("Physical density: ", '\n')
  {
    assert "Physical density: " == "Physical density" + ":" + " ";
  }

  /** The line "Override density: N" gives the override reading N and no physical reading. */
  lemma OverrideLineReads(v: int)
    ensures var line := "Override density: " + IntToString(v);
            OverrideReading(line) == Some(v) && PhysicalReading(line).None?
  {
    OverrideText(IntToString(v));
    LineValue("Override density", v);
  }

  /** The line "Physical density: N" gives the physical reading N and no override reading. */
  lemma PhysicalLineReads(v: int)
    ensures var line := "Physical density: " + IntToString(v);
            PhysicalReading(line) == Some(v) && OverrideReading(line).None?
  {
    var sv := IntToString(v);
    IntToStringLacks(v, 'O');
    LineValue("Physical density", v);
    PhysicalLineReadsOf(sv, v);
  }

  lemma PhysicalLineReadsOf(sv: string, v: int)
    requires Lacks(sv, 'O')
    requires var line := ("Physical density" + ":") + (" " + sv);
             && Strip(line) == line
             && Contains(line, "Physical density" + ":")
             && ValueAfterColon(line, "Physical density" + ":") == Some(v)
    ensures var line := "Physical density: " + sv;
            PhysicalReading(line) == Some(v) && OverrideReading(line).None?
  {
    PhysicalText(sv);
    LacksConcat("Physical density: ", sv, 'O');
    FindLacking("Physical density: " + sv, "Override density:");
  }

  /** The two lines of `wm density` output split apart, in the order written. */
  lemma TwoDensityLines(first: string, second: string)
    requires first != [] && !IsSpace(first[0]) && Lacks(first, '\n')
    requires second != [] && !IsSpace(second[|second| - 1]) && Lacks(second, '\n')
    ensures DensityLines(first + "\n" + second) == [first, second]
  {
    var out := first + "\n" + second;
    assert out[0] == first[0] && out[|out| - 1] == second[|second| - 1];
    StripNoEdgeSpace(out);
    SplitAfterLacking(first, "\n", second);
    SplitLacking(second, "\n");
  }

  /** The two density lines, as `wm density` prints them, are well-formed lines. */
  lemma DensityLinesFacts(p: int, o: int)
    ensures var phys := "Physical density: " + IntToString(p);
            var over := "Override density: " + IntToString(o);
            && phys != [] && !IsSpace(phys[0]) && !IsSpace(phys[|phys| - 1]) && Lacks(phys, '\n')
            && over != [] && !IsSpace(over[0]) && !IsSpace(over[|over| - 1]) && Lacks(over, '\n')
  {
    var sp, so := IntToString(p), IntToString(o);
    PhysicalText(sp);
    OverrideText(so);
    IntToStringEdges(p);
    IntToStringEdges(o);
    IntToStringLacks(p, '\n');
    IntToStringLacks(o, '\n');
    LacksConcat("Physical density: ", sp, '\n');
    LacksConcat("Override density: ", so, '\n');
    var phys := "Physical density: " + sp;
    var over := "Override density: " + so;
    assert phys[|phys| - 1] == sp[|sp| - 1] && over[|over| - 1] == so[|so| - 1];
  }

  /** The override density is the answer whichever of the two lines comes first. */
  lemma DensityOverrideEitherOrder(p: int, o: int)
    ensures var phys := "Physical density: " + IntToString(p);
            var over := "Override density: " + IntToString(o);
            && DensityOfLines(DensityLines(phys + "\n" + over)) == o
            && DensityOfLines(DensityLines(over + "\n" + phys)) == o
  {
    var phys := "Physical density: " + IntToString(p);
    var over := "Override density: " + IntToString(o);
    DensityLinesFacts(p, o);
    TwoDensityLines(phys, over);
    TwoDensityLines(over, phys);
    OverrideLineReads(o);
    PhysicalLineReads(p);
    DensityPrefersOverride([phys, over], 1, o);
    DensityPrefersOverride([over, phys], 0, o);
  }
}
