/**
  backend/scrcpy_handler.py: `ScrcpyHandler`, which starts `scrcpy` on a new virtual display
  of the device with one app in it. The spawn is a parameter: `spawn` says how starting the
  process with a given argument vector ends.
 */
module ScrcpyHandler {
  import opened Wrappers
  import opened Strings
  import opened Numbers

  /** How `subprocess.Popen(cmd, ...)` ends: started, `FileNotFoundError`, or another exception. */
  datatype SpawnOutcome = Spawned | NotFound | Failed(error: string)

  /** The handler: the executable it starts. */
  datatype ScrcpyHandler = ScrcpyHandler(path: string)

  /**
    `shutil.which("scrcpy") or "scrcpy"`: what `which` found, unless it found nothing or the
    empty string, which Python's `or` also passes over.
   */
  function ScrcpyPath(found: Option<string>): (path: string)
    ensures path != []
    ensures found.Some? && found.value != [] ==> path == found.value
    ensures found.None? || found.value == [] ==> path == "scrcpy"
  {
    if found.Some? && found.value != [] then found.value else "scrcpy"
  }

  /** `ScrcpyHandler()`, given what `shutil.which("scrcpy")` returns. */
  function NewScrcpyHandler(found: Option<string>): ScrcpyHandler
  {
    ScrcpyHandler(ScrcpyPath(found))
  }

  /** The defaults of `launch_app`'s `width`, `height` and `dpi`. */
  const DefaultWidth := 1280
  const DefaultHeight := 720
  const DefaultDpi := 0

  /** The `--new-display` value: `f"{width}x{height}"`, followed by `f"/{dpi}"` when `dpi > 0`. */
  function Resolution(width: int, height: int, dpi: int): string
  {
    var size := IntToString(width) + "x" + IntToString(height);
    if dpi > 0 then size + "/" + IntToString(dpi) else size
  }

  /** The argument vector `launch_app` starts. */
  function LaunchCommand(path: string, serial: string, packageName: string, width: int, height: int, dpi: int): (cmd: seq<string>)
  {
    [ path,
      "--serial", serial,
      "--new-display=" + Resolution(width, height, dpi),
      "--start-app=" + packageName,
      "--no-audio-playback",
      "--window-title", packageName,
      "--force-adb-forward",
      "--no-cleanup" ]
  }

  /**
    `launch_app(serial, package_name, width, height, dpi)`: true exactly when the process
    starts; a missing executable and every other spawn error give false. The process is not
    waited on.
   */
  function LaunchApp(handler: ScrcpyHandler, spawn: seq<string> -> SpawnOutcome,
                     serial: string, packageName: string, width: int, height: int, dpi: int): (ok: bool)
    ensures ok <==> spawn(LaunchCommand(handler.path, serial, packageName, width, height, dpi)).Spawned?
  {
    match spawn(LaunchCommand(handler.path, serial, packageName, width, height, dpi))
    case Spawned => true
    case NotFound => false
    case Failed(_) => false
  }

  /** `launch_app(serial, package_name)` with the default size and no density. */
  function LaunchAppDefault(handler: ScrcpyHandler, spawn: seq<string> -> SpawnOutcome,
                            serial: string, packageName: string): (ok: bool)
    ensures ok <==> spawn(LaunchCommand(handler.path, serial, packageName, 1280, 720, 0)).Spawned?
  {
    LaunchApp(handler, spawn, serial, packageName, DefaultWidth, DefaultHeight, DefaultDpi)
  }

  /**
    How a reader of the display value takes it apart: "WxH", then optionally "/" and the
    density; `None` for any other shape. A missing density reads as 0.
   */
  function ReadResolution(s: string): Option<(int, int, int)>
  {
    var halves := Split(s, "/");
    if |halves| > 2 then None
    else
      match SizeText(halves[0])
      case None => None
      case Some(wh) =>
        if |halves| == 1 then Some((wh.0, wh.1, 0))
        else
          match ParseInt(halves[1])
          case None => None
          case Some(d) => Some((wh.0, wh.1, d))
  }

  /** The "WxH" part has no "/" in it. */
  lemma SizePartLacksSlash(width: int, height: int)
    ensures Lacks(IntToString(width) + "x" + IntToString(height), '/')
  {
    IntToStringLacks(width, '/');
    IntToStringLacks(height, '/');
    LacksConcat(IntToString(width), "x", '/');
    LacksConcat(IntToString(width) + "x", IntToString(height), '/');
  }

  /** Without a positive density the display value is "WxH" alone. */
  lemma ResolutionWithoutDpi(width: int, height: int, dpi: int)
    requires dpi <= 0
    ensures Split(Resolution(width, height, dpi), "/") == [IntToString(width) + "x" + IntToString(height)]
  {
    SizePartLacksSlash(width, height);
    SplitLacking(IntToString(width) + "x" + IntToString(height), "/");
  }

  /** With a positive density the display value is "WxH", "/" and the density. */
  lemma ResolutionWithDpi(width: int, height: int, dpi: int)
    requires dpi > 0
    ensures Split(Resolution(width, height, dpi), "/") == [IntToString(width) + "x" + IntToString(height), IntToString(dpi)]
  {
    var size := IntToString(width) + "x" + IntToString(height);
    SizePartLacksSlash(width, height);
    IntToStringLacks(dpi, '/');
    SplitAfterLacking(size, "/", IntToString(dpi));
    SplitLacking(IntToString(dpi), "/");
  }

  /** How `ReadResolution` takes apart text whose "/"-pieces are known. */
  lemma ReadResolutionPieces(s: string, size: string, wh: (int, int), dpiText: Option<string>, d: int)
    requires SizeText(size) == Some(wh)
    requires dpiText.None? ==> Split(s, "/") == [size] && d == 0
    requires dpiText.Some? ==> Split(s, "/") == [size, dpiText.value] && ParseInt(dpiText.value) == Some(d)
    ensures ReadResolution(s) == Some((wh.0, wh.1, d))
  {
  }

  /**
    The display value reads back as the width, the height and the density; a density that is
    not positive is left out of the text and reads back as 0.
   */
  lemma ResolutionRoundTrip(width: int, height: int, dpi: int)
    ensures ReadResolution(Resolution(width, height, dpi)) == Some((width, height, if dpi > 0 then dpi else 0))
  {
    var size := IntToString(width) + "x" + IntToString(height);
    SizeTextOf(width, height);
    if dpi > 0 {
      ResolutionWithDpi(width, height, dpi);
      ParseIntOfIntToString(dpi);
      ReadResolutionPieces(Resolution(width, height, dpi), size, (width, height), Some(IntToString(dpi)), dpi);
    } else {
      ResolutionWithoutDpi(width, height, dpi);
      ReadResolutionPieces(Resolution(width, height, dpi), size, (width, height), None, 0);
    }
  }

  /** A density is in the text exactly when it is positive. */
  lemma ResolutionDpiIffPositive(width: int, height: int, dpi: int)
    ensures Contains(Resolution(width, height, dpi), "/") <==> dpi > 0
  {
    SplitManyIffContains(Resolution(width, height, dpi), "/");
    if dpi > 0 {
      ResolutionWithDpi(width, height, dpi);
    } else {
      ResolutionWithoutDpi(width, height, dpi);
    }
  }

  /** The element after the first occurrence of `flag` in `argv`, as an option parser reads it. */
  function OptionValue(argv: seq<string>, flag: string): Option<string>
  {
    if |argv| < 2 then None
    else if argv[0] == flag then Some(argv[1])
    else OptionValue(argv[1..], flag)
  }

  /** The text after `name=` of the first element that starts with it. */
  function EqualsValue(argv: seq<string>, name: string): Option<string>
  {
    if argv == [] then None
    else if StartsWith(argv[0], name + "=") then Some(argv[0][|name| + 1..])
    else EqualsValue(argv[1..], name)
  }

  /** The option parser reads the element after the first `flag`. */
  lemma {:induction false} OptionValueAt(argv: seq<string>, flag: string, k: nat)
    requires k + 1 < |argv| && argv[k] == flag
    requires forall j :: 0 <= j < k ==> argv[j] != flag
    ensures OptionValue(argv, flag) == Some(argv[k + 1])
  {
    if k > 0 {
      assert forall j :: 0 <= j < k - 1 ==> argv[1..][j] == argv[j + 1];
      OptionValueAt(argv[1..], flag, k - 1);
    }
  }

  /** The `name=` reader takes the first element that starts with `name=`. */
  lemma {:induction false} EqualsValueAt(argv: seq<string>, name: string, k: nat)
    requires k < |argv| && StartsWith(argv[k], name + "=")
    requires forall j :: 0 <= j < k ==> !StartsWith(argv[j], name + "=")
    ensures EqualsValue(argv, name) == Some(argv[k][|name| + 1..])
  {
    if k > 0 {
      assert forall j :: 0 <= j < k - 1 ==> argv[1..][j] == argv[j + 1];
      EqualsValueAt(argv[1..], name, k - 1);
    }
  }

  /** A string that does not start with "--" is no long option and starts with none. */
  lemma NotLongOption(s: string, p: string)
    requires !StartsWith(s, "--") && StartsWith(p, "--")
    ensures s != p && !StartsWith(s, p)
  {
    assert p[..2] == "--";
    if |p| <= |s| {
      assert s[..|p|][..2] == s[..2];
    }
  }

  /** Text written as `p` followed by `v` starts with `p`, and what follows `p` is `v`. */
  lemma AfterPrefix(p: string, v: string)
    ensures StartsWith(p + v, p) && (p + v)[|p|..] == v
  {
    assert (p + v)[..|p|] == p;
  }

  /** Two strings that differ at their third character: neither starts with the other. */
  lemma DifferAtThird(a: string, b: string)
    requires |a| > 2 && |b| > 2 && a[2] != b[2]
    ensures a != b && !StartsWith(a, b) && !StartsWith(b, a)
  {
    if |b| <= |a| { assert a[..|b|][2] == a[2]; }
    if |a| <= |b| { assert b[..|a|][2] == b[2]; }
  }

  lemma FixedWords()
    ensures StartsWith("--serial", "--") && StartsWith("--window-title", "--")
    ensures StartsWith("--new-display=", "--") && StartsWith("--start-app=", "--")
    ensures "--new-display" + "=" == "--new-display=" && "--start-app" + "=" == "--start-app="
    ensures "--serial" != "--window-title" && "--no-audio-playback" != "--window-title"
    ensures !StartsWith("--serial", "--new-display=") && !StartsWith("--serial", "--start-app=")
  {
  }

  /** The executable and the serial, which do not start with "--", are not taken for options. */
  lemma ArgsNotOptions(path: string, serial: string)
    requires !StartsWith(path, "--") && !StartsWith(serial, "--")
    ensures && path != "--serial" && path != "--window-title" && serial != "--window-title"
            && !StartsWith(path, "--new-display=") && !StartsWith(serial, "--new-display=")
            && !StartsWith(path, "--start-app=") && !StartsWith(serial, "--start-app=")
  {
    FixedWords();
    NotLongOption(path, "--serial");
    NotLongOption(path, "--window-title");
    NotLongOption(path, "--new-display=");
    NotLongOption(path, "--start-app=");
    NotLongOption(serial, "--window-title");
    NotLongOption(serial, "--new-display=");
    NotLongOption(serial, "--start-app=");
  }

  /** The two `name=value` words carry their values and are told apart from the other options. */
  lemma ValueWords(display: string, packageName: string)
    ensures var res := "--new-display=" + display;
            var app := "--start-app=" + packageName;
            && res != "--window-title" && app != "--window-title" && !StartsWith(res, "--start-app=")
            && StartsWith(res, "--new-display=") && res[|"--new-display"| + 1..] == display
            && StartsWith(app, "--start-app=") && app[|"--start-app"| + 1..] == packageName
  {
    var res := "--new-display=" + display;
    var app := "--start-app=" + packageName;
    FixedWords();
    AfterPrefix("--new-display=", display);
    AfterPrefix("--start-app=", packageName);
    DifferAtThird(res, "--window-title");
    DifferAtThird(app, "--window-title");
    DifferAtThird(res, "--start-app=");
  }

  /**
    An option parser finds in the command exactly what `launch_app` was given: the serial, the
    display value, the app to start and the window title, which is the package name. The
    executable and the serial must not themselves look like long options.
   */
  lemma LaunchCommandReadsBack(path: string, serial: string, packageName: string, width: int, height: int, dpi: int)
    requires !StartsWith(path, "--") && !StartsWith(serial, "--")
    ensures var cmd := LaunchCommand(path, serial, packageName, width, height, dpi);
            && |cmd| == 10 && cmd[0] == path
            && OptionValue(cmd, "--serial") == Some(serial)
            && OptionValue(cmd, "--window-title") == Some(packageName)
            && EqualsValue(cmd, "--new-display") == Some(Resolution(width, height, dpi))
            && EqualsValue(cmd, "--start-app") == Some(packageName)
  {
    CommandReadsBack(path, serial, packageName, Resolution(width, height, dpi));
  }

  /** `LaunchCommandReadsBack` for any display value. */
  lemma CommandReadsBack(path: string, serial: string, packageName: string, display: string)
    requires !StartsWith(path, "--") && !StartsWith(serial, "--")
    ensures var cmd := [ path, "--serial", serial, "--new-display=" + display, "--start-app=" + packageName,
                         "--no-audio-playback", "--window-title", packageName, "--force-adb-forward", "--no-cleanup" ];
            && OptionValue(cmd, "--serial") == Some(serial)
            && OptionValue(cmd, "--window-title") == Some(packageName)
            && EqualsValue(cmd, "--new-display") == Some(display)
            && EqualsValue(cmd, "--start-app") == Some(packageName)
  {
    var cmd := [ path, "--serial", serial, "--new-display=" + display, "--start-app=" + packageName,
                 "--no-audio-playback", "--window-title", packageName, "--force-adb-forward", "--no-cleanup" ];
    ArgsNotOptions(path, serial);
    ValueWords(display, packageName);
    OptionValueAt(cmd, "--serial", 1);
    OptionValueAt(cmd, "--window-title", 6);
    EqualsValueAt(cmd, "--new-display", 3);
    EqualsValueAt(cmd, "--start-app", 4);
  }
}
