# UMC backend, modelled in Dafny

UMC is a desktop front end for Android devices. It lists the devices `adb` sees and the
third-party apps of the selected one. It starts an app with `scrcpy` on a virtual display of
the device, and it keeps saved launch sessions. This project models the Python backend behind
that interface and proves properties of the model:

- `adb_output.dfy`: the parsing of `adb devices -l` and `adb shell pm list packages -3`, which
  `ADBHandler` and `ADBWorker` share line for line. Each parser is a loop method proved equal
  to a specification function.
- `adb_handler.dfy`: `ADBHandler`. It covers `connect` and `disconnect`, the device and package
  queries with their `[]` fallbacks, and the `wm size` and `wm density` readers. The density
  reader is the line loop updating `override_val` and `physical_val`.
- `worker.dfy`: `ADBWorker`, a class whose `emitted` field records the signals it emits. It
  covers `fetch_devices`, `fetch_packages`, and `get_device_info`, which prefers the override
  values.
- `bridge.dfy`: `BackendBridge`, a class with the four fields the interface reads and an event
  log of every signal it emits.
  - Each handler is proved to do what a pure `Step` says.
  - Lemmas over `Run`, a fold of `Step` over any sequence of inputs, state what holds after any
    interleaving of worker results and user actions.
- `session_manager.dfy`: `SessionManager`, a class over the session list with a ghost snapshot
  of what was last saved, plus the `xdotool` geometry capture.
- `profiles.dfy`: `ScrcpyProfile.to_flags`, the `PROFILES` registry and its lookups.
- `scrcpy_handler.dfy`: the `scrcpy` argument vector and the launch result.
- `strings.dfy`, `numbers.dfy`, `patterns.dfy`, `ordering.dfy`, `wrappers.dfy`: the Python
  built-ins the code relies on. These are `strip`, `split`, `replace`, `str(int)` and `int(str)`,
  `re.search` (the match at the first position where the pattern matches), and `sorted` on
  strings.

Everything outside the process is a parameter of the model:

- the answer of each `adb` invocation: the `AdbTool.run` function, giving exit 0 with output, a
  non-zero exit, or a failure to start;
- whether `shutil.which` found a tool: `AdbTool.path`, the `scrcpyFound` option, or the
  `xdotool` option;
- how `subprocess.Popen` of `scrcpy` ends: `spawn`;
- what the session file holds: `Storage`;
- the fresh session id that `uuid.uuid4()` would give: `id`.

Where the specification and the code disagree, the model follows the code:

- `ADBHandler.get_device_resolution` reads only the text after "Physical size:" (see
  `AdbHandler.ResolutionOverrideFirst` and `AdbHandler.ResolutionOverrideAfter`).
  - With an "Override size:" line before it, the physical size is returned.
  - With an override line after it, `map(int, ...)` receives three "x"-separated parts, and
    the default (1080, 2400) is returned.
  - The override always wins only in `ADBWorker.get_device_info`.
- Both density readers default to 400.
- `_on_packages_ready` compares serials. A late result for an earlier selection of the same
  serial is therefore accepted. `Bridge.RunFields` states exactly which report is shown.

## Model

| member | source | states |
|---|---|---|
| Strings.Strip | backend/adb_handler.py:50 | the result has no whitespace at either end, and is empty exactly when the input is blank |
| Strings.StripIsInfix | backend/adb_handler.py:50 | the result is the part of the text between its leading and its trailing whitespace |
| Strings.StripUnique | backend/adb_handler.py:50 | any part of the text with only whitespace around it and none at its ends is the result, so `strip()` has one possible answer |
| Strings.TokensEmptyIffBlank | backend/adb_handler.py:50-53 | `line.split()` has no tokens exactly when `line.strip()` is empty |
| Strings.JoinSplit | backend/adb_handler.py:49 | joining the pieces of `split(sep)` with `sep` gives back the text |
| Strings.SplitJoin | backend/session_manager.py:87 | splitting a join of pieces that lack the separator gives back the pieces |
| Strings.SplitManyIffContains | backend/adb_handler.py:109-110 | `split(sep)` has a second piece exactly when `sep` occurs |
| Numbers.ParseIntOfIntToString | backend/adb_handler.py:111 | `int(str(n)) == n` for every integer |
| Numbers.ParseIntOfNumeral | backend/worker.py:113 | `int()` of a `\d+` capture is its decimal value, so the parse cannot fail on it (no digit-count limit is modelled) |
| Numbers.SizeTextOf | backend/adb_handler.py:111 | `map(int, f"{w}x{h}".split("x"))` unpacks to (w, h) |
| Numbers.SizeTextTwoSeparators | backend/adb_handler.py:111 | text with two "x" cannot be unpacked into two values |
| Patterns.Search | backend/worker.py:108 | `re.search` gives the match at the first index where the pattern matches, and nothing exactly when it matches nowhere |
| Patterns.SearchFrom | backend/worker.py:108 | the first matching index at or after `i`, and none exactly when no later index matches |
| Patterns.PairMatchesRendered | backend/worker.py:108 | `KEY\s*(\d+)x(\d+)` matches "KEY W x H" text at the key and captures the two numerals |
| Patterns.NumberMatchesRendered | backend/worker.py:119 | `KEY\s*(\d+)` matches "KEY N" text at the key and captures the numeral |
| Patterns.SearchFindsAt | backend/worker.py:108 | a match at `i`, where the key does not occur before `i`, is what `re.search` returns |
| Patterns.SearchWithoutKey | backend/worker.py:109 | a pattern whose key does not occur in the text finds nothing |
| Ordering.Sort | backend/adb_handler.py:93 | `sorted()` gives an ascending permutation of its input |
| Ordering.SortedUnique | backend/adb_handler.py:93 | two ascending lists with the same elements are equal, so the sort result is the only one |
| Ordering.LexLeTransitive | backend/adb_handler.py:93 | Python's string order is transitive |
| AdbOutput.DevicesFailIff | backend/adb_handler.py:49-55 | the device parse fails, with no partial list, exactly when a non-blank line after the header has fewer than two tokens |
| AdbOutput.DevicesOnePerLine | backend/adb_handler.py:49-67 | a successful parse has one device per non-blank line after the header, in order, built from that line |
| AdbOutput.ParseDeviceLines | backend/adb_handler.py:49-68 | the line loop that skips blank lines and stops at a short line computes `DevicesOfLines` |
| AdbOutput.ParseDevices | backend/worker.py:35-56 | the `try` block computes `DevicesOf` of the tool output |
| AdbOutput.CollectedFromPackageLines | backend/adb_handler.py:90-92 | an id is collected exactly when some `package:` line yields it |
| AdbOutput.PackagesSortedFromLines | backend/adb_handler.py:89-93 | the package list is ascending, and an id is in it exactly when a `package:` line of the output yields it |
| AdbOutput.ParsePackageLines | backend/adb_handler.py:89-93 | the collecting loop followed by `sorted` computes the sorted collected ids |
| AdbOutput.ParsePackages | backend/worker.py:78-83 | the package list is `PackagesOf` of the output: ascending, and a permutation of the collected ids |
| AdbHandler.Connect | backend/adb_handler.py:11-21 | true in mock mode; otherwise true on exit 0, false on a non-zero exit, and an escaping exception when the tool cannot start |
| AdbHandler.Disconnect | backend/adb_handler.py:23-33 | the same three outcomes for `adb disconnect` |
| AdbHandler.GetDevices | backend/adb_handler.py:35-74 | the mock devices in mock mode; otherwise the parsed list on exit 0 when every line parses, and `[]` in every other case |
| AdbHandler.GetInstalledPackages | backend/adb_handler.py:76-96 | the fixed eleven ids in mock mode or for a "MOCK" serial; otherwise the sorted ids on exit 0 and `[]` on failure |
| AdbHandler.MockPackagesUnsorted | backend/adb_handler.py:77-83 | the mock list is returned as written, which is not ascending |
| AdbHandler.GetDeviceResolution | backend/adb_handler.py:98-116 | (1080, 2400) in mock mode, for a "MOCK" serial, on failure and on unparseable output; otherwise the size after "Physical size:" |
| AdbHandler.ResolutionAfterMarker | backend/adb_handler.py:109-111 | when "Physical size:" occurs once, neither before nor after the marker, the stripped text after it is what is read |
| AdbHandler.ResolutionOfPhysicalSize | backend/adb_handler.py:108-112 | "Physical size: WxH" reads back as (W, H) |
| AdbHandler.ResolutionOverrideFirst | backend/adb_handler.py:108-112 | with an override line first, the physical size is returned and the override is not |
| AdbHandler.ResolutionOverrideAfter | backend/adb_handler.py:108-116 | with the override line after the physical one, nothing parses and the default is returned |
| AdbHandler.ReadLine | backend/adb_handler.py:136-147 | one pass of the loop sets `override_val` or `physical_val` exactly when the line gives that reading, and leaves the other unchanged |
| AdbHandler.ScanDensity | backend/adb_handler.py:133-147 | the loop ends with the last override reading and the last physical reading of the lines |
| AdbHandler.LastReadingIs | backend/adb_handler.py:136-147 | a variable ends with the reading of the last line that gives one, and with none exactly when no line gives one |
| AdbHandler.GetDeviceDensity | backend/adb_handler.py:118-158 | 400 in mock mode, for a "MOCK" serial and on failure; otherwise the override reading, else the physical reading, else 400 |
| AdbHandler.DensityPrefersOverride | backend/adb_handler.py:149-151 | the last valid override reading is the density, wherever the physical lines are |
| AdbHandler.DensityWithoutOverride | backend/adb_handler.py:152-158 | without an override reading, the last valid physical reading is the density, else 400 |
| AdbHandler.OverrideLineReads | backend/adb_handler.py:138-140 | "Override density: N" gives the override reading N and no physical reading |
| AdbHandler.PhysicalLineReads | backend/adb_handler.py:143-145 | "Physical density: N" gives the physical reading N and no override reading |
| AdbHandler.DensityOverrideEitherOrder | backend/adb_handler.py:129-151 | the override density wins whichever of the two lines comes first |
| Worker.DevicesSignal | backend/worker.py:21-63 | the mock list in mock mode; `devicesReady` exactly when the tool exits 0 and every line parses, carrying the parsed list; otherwise "ADB Error: …" or "General Error: …" |
| Worker.PackagesSignal | backend/worker.py:65-86 | `packagesReady` is tagged with the requested serial; the fixed four ids in mock mode or for a "MOCK" serial; otherwise the sorted ids exactly when the tool exits 0, else "Failed to fetch packages: …" |
| Worker.DeviceInfo | backend/worker.py:88-129 | the defaults in mock mode, for a "MOCK" serial and when the size query cannot start; otherwise the override-else-physical readings with per-value defaults, keeping the size when only the density query fails |
| Worker.AdbWorker.constructor | backend/worker.py:15-18 | a worker over the given tool that has emitted nothing |
| Worker.AdbWorker.FetchDevices | backend/worker.py:20-63 | exactly one signal is appended to what was emitted: `DevicesSignal` |
| Worker.AdbWorker.FetchPackages | backend/worker.py:65-86 | exactly one signal is appended to what was emitted: `PackagesSignal` |
| Worker.AdbWorker.GetDeviceInfo | backend/worker.py:88-129 | the step-by-step reassignment of width, height and density returns `DeviceInfo` |
| Worker.SizeOverrideWins | backend/worker.py:108-113 | the first "Override size: WxH" line gives (W, H), whatever else the output holds |
| Worker.SizePhysicalWithoutOverride | backend/worker.py:109-113 | without "Override size:" in the output, the first "Physical size: WxH" line gives (W, H) |
| Worker.SizeOverrideEitherOrder | backend/worker.py:106-113 | with both size lines, the override wins in either order |
| Worker.SizeExample | backend/worker.py:106-113 | "Physical size: 1080x2400" then "Override size: 1080x2340" gives (1080, 2340) |
| Worker.DensityOverrideWins | backend/worker.py:119-124 | the first "Override density: N" line gives N, whatever else the output holds |
| Worker.DensityPhysicalWithoutOverride | backend/worker.py:120-124 | without "Override density:" in the output, the first "Physical density: N" line gives N |
| Worker.DensityOverrideEitherOrder | backend/worker.py:118-124 | with both density lines, the override wins in either order |
| Worker.NoMarkerNoReading | backend/worker.py:96-124 | output that contains none of the four markers gives no reading, so the defaults stay |
| Bridge.BackendBridge.constructor | backend/bridge.py:16-45 | serial "", no devices, no packages, mode "Tablet", a fresh worker that has emitted nothing, and one device request in the log |
| Bridge.BackendBridge.SetLaunchMode | backend/bridge.py:59-62 | the state after `set_launch_mode` is `Step` of the state before it |
| Bridge.BackendBridge.RefreshDevices | backend/bridge.py:69-72 | the state after `refresh_devices` is `Step` of the state before it |
| Bridge.BackendBridge.OnDevicesReady | backend/bridge.py:74-78 | the state after `_on_devices_ready` is `Step` of the state before it |
| Bridge.BackendBridge.OnPackagesReady | backend/bridge.py:80-84 | the state after `_on_packages_ready` is `Step` of the state before it |
| Bridge.BackendBridge.OnWorkerError | backend/bridge.py:86-88 | the state after `_on_worker_error` is `Step` of the state before it |
| Bridge.BackendBridge.SelectDevice | backend/bridge.py:90-97 | the state after `select_device` is `Step` of the state before it |
| Bridge.BackendBridge.LaunchApp | backend/bridge.py:99-134 | the state after `launch_app`, including the worker query in "Phone" mode, is `Step` of the state before it |
| Bridge.BackendBridge.Receive | backend/bridge.py:33-35 | each worker signal reaches the slot it is connected to |
| Bridge.RunFields | backend/bridge.py:75-97 | after any inputs: the serial is the last selected; the devices are the last reported; the mode is the last set; the packages are the latest report for that serial since its selection |
| Bridge.StaleReportIgnored | backend/bridge.py:81-84 | a package report for a serial other than the selected one changes nothing, not even the log |
| Bridge.RepeatsAreIdempotent | backend/bridge.py:59-78 | setting the same mode twice, or reporting the same devices twice, has the effect of doing it once |
| Bridge.LogOnlyGrows | backend/bridge.py:59-134 | the log after a prefix of the inputs is a prefix of the log after all of them |
| Bridge.RunKeepsViewsInSync | backend/bridge.py:59-97 | the last devices, packages and mode announced are the bridge's own, and devices and modes are announced only when they change |
| Bridge.RunKeepsRequestsFollowSelection | backend/bridge.py:91-97 | every package request comes directly after "Selected: S" and the cleared list, in that order |
| Bridge.LaunchOutcome | backend/bridge.py:99-134 | a launch changes no field. Without a device it only reports that. With one it starts `scrcpy` for the selected serial and package, at 1280x800/160 unless in "Phone" mode, then says "Launched" exactly when the process started |
| SessionManager.LoadedSessions | backend/session_manager.py:15-24 | the stored list, or `[]` when the file is missing or unreadable |
| SessionManager.ParseGeometry | backend/session_manager.py:99-110 | a geometry exactly when the size match has both sides positive; the size from that match and the position from the first position match, (0, 0) without one |
| SessionManager.CaptureGeometry | backend/session_manager.py:70-115 | `None` without `xdotool`, when the search fails, exits non-zero or prints only whitespace, and when the geometry query fails; otherwise the geometry of the last window found |
| SessionManager.FirstWithId | backend/session_manager.py:64-68 | the first session with the id, and none exactly when no session has it |
| SessionManager.WithoutIdMembers | backend/session_manager.py:58 | a session remains after deletion exactly when it was there and has another id |
| SessionManager.WithoutIdConcat | backend/session_manager.py:58 | the filter keeps the original order |
| SessionManager.WithoutIdUnknown | backend/session_manager.py:57-59 | deleting an unknown id leaves the list unchanged |
| SessionManager.SessionManager.constructor | backend/session_manager.py:10-24 | the sessions are what `load_sessions` yields, and nothing has been saved yet |
| SessionManager.SessionManager.SaveSessions | backend/session_manager.py:26-31 | the saved snapshot is the current list, which is unchanged |
| SessionManager.SessionManager.CreateSession | backend/session_manager.py:33-55 | exactly one record with the given fields and the captured geometry is appended; the list is saved; the id is returned |
| SessionManager.SessionManager.CreateSessionDefault | backend/session_manager.py:33-35 | the optional parameters default to no package, mode "Tablet", profile "Default", screen on and no audio |
| SessionManager.SessionManager.DeleteSession | backend/session_manager.py:57-59 | the list loses every record with the id, and is saved |
| SessionManager.SessionManager.GetSessions | backend/session_manager.py:61-62 | the current list |
| SessionManager.SessionManager.GetSession | backend/session_manager.py:64-68 | the search loop returns the first session with the id |
| SessionManager.DeleteThenGet | backend/session_manager.py:57-68 | after deleting an id, looking it up finds nothing |
| SessionManager.DeleteKeepsOthers | backend/session_manager.py:57-68 | deleting one id does not change what another id finds |
| SessionManager.CreateThenGet | backend/session_manager.py:53-68 | right after a session with a fresh id is appended, its id finds it |
| SessionManager.CreateKeepsFound | backend/session_manager.py:53-68 | appending does not change what an id already found finds |
| SessionManager.GeometryOfOutput | backend/session_manager.py:99-110 | the first "Position: X,Y" line, then the first "Geometry: WxH" line with positive sides, give (X, Y, W, H) |
| SessionManager.GeometryWithoutPosition | backend/session_manager.py:99-110 | without "Position:" in the output the geometry sits at (0, 0) |
| SessionManager.GeometryNeedsSize | backend/session_manager.py:107-110 | a zero width or height on the first "Geometry:" line gives no geometry, whatever the position |
| SessionManager.WindowIdIsLast | backend/session_manager.py:87 | the window id is the last line of the search output |
| Profiles.ToFlags | backend/profiles.py:8-36 | the conditional appends build `FlagsOf` of the arguments |
| Profiles.FlagsReadBack | backend/profiles.py:10-34 | reading the flags back gives each number exactly when it is positive, the buffer and the codec as given |
| Profiles.ReadBuffer | backend/profiles.py:19-31 | the video buffer flag carries the buffer, and there is none without one |
| Profiles.ReadCodec | backend/profiles.py:33-34 | a codec flag is present exactly when a codec is set, and carries it |
| Profiles.AudioBufferOnlyForZero | backend/profiles.py:26-31 | `--audio-buffer=0` is given exactly when the buffer is 0 |
| Profiles.FlagsInOrder | backend/profiles.py:8-36 | the flags come as max size, bit rate, frame rate, buffers, codec, and no key twice |
| Profiles.GetProfileNames | backend/profiles.py:71-72 | the five registry keys in definition order, all distinct |
| Profiles.FindProfile | backend/profiles.py:75 | the profile under the key, and none exactly when no entry has it |
| Profiles.GetProfile | backend/profiles.py:74-75 | the registered profile for a known name, "Default" for an unknown one |
| Profiles.GetProfileFlags | backend/profiles.py:74-76 | the flags of the profile `GetProfile` picks |
| Profiles.UnknownProfileFlags | backend/profiles.py:74-76 | an unknown name gives exactly `["--video-bit-rate=8000000"]` |
| Profiles.LowLatencyFlags | backend/profiles.py:42-48 | "Low Latency" gives exactly its six flags, both buffers at 0 |
| ScrcpyHandler.ScrcpyPath | backend/scrcpy_handler.py:6 | what `which` found, else the literal "scrcpy"; never empty |
| ScrcpyHandler.LaunchApp | backend/scrcpy_handler.py:8-42 | true exactly when the process starts; a missing executable or any other spawn error gives false |
| ScrcpyHandler.LaunchAppDefault | backend/scrcpy_handler.py:8 | the defaults 1280x720 with no density |
| ScrcpyHandler.ResolutionWithoutDpi | backend/scrcpy_handler.py:12-14 | without a positive density the display value is "WxH" alone |
| ScrcpyHandler.ResolutionWithDpi | backend/scrcpy_handler.py:12-14 | with a positive density the display value is "WxH/dpi" |
| ScrcpyHandler.ResolutionRoundTrip | backend/scrcpy_handler.py:12-14 | the display value reads back as width, height and the density, or 0 when it is not positive |
| ScrcpyHandler.ResolutionDpiIffPositive | backend/scrcpy_handler.py:13-14 | a "/" is in the display value exactly when the density is positive |
| ScrcpyHandler.LaunchCommandReadsBack | backend/scrcpy_handler.py:20-29 | the command has ten words and starts with the executable; a reader finds the serial, the display value, the app to start, and the window title equal to the package name |

## Left out

- Threads, `QThread`, `moveToThread`, the 3-second `QTimer` and queued signal delivery: the
  bridge handles one input at a time. A timer tick has the same effect as `Refresh`.
- The Qt properties and the getters `get_devices` and similar: they read the fields that
  `BackendBridge.State()` exposes.
- The worker's requests are not connected to its answers. `requestDevices` and
  `requestPackages` are events in the log, and any worker signal can arrive as an input.
- `print` logging in every file, and the "Executing: …" line of `launch_app`.
- `subprocess`, `shutil.which`, JSON file reading and writing, and `uuid.uuid4()`: they become
  parameters, as listed above.
- A failure while saving sessions: it is caught and printed in the source, so the model
  records a save as always taking the current list.
- The content of a readable session file is taken to be a list of session records; other JSON
  values are not modelled.
- The launched `scrcpy` process after it starts: the source neither waits on it nor watches it.
- Non-ASCII decimal digits: `\d` and `int()` are modelled on the ASCII digits only.
  Whitespace (`\s`, `strip()`, `split()`) is the set of characters `str.isspace()` accepts.
- Numbers.ParseIntOfNumeral: Python 3.11 and later raise `ValueError` in `int()` of more than
  4300 digits, a limit set by `sys.set_int_max_str_digits`. The model has no such limit, so
  numerals that long parse here. The same holds for `str()` of such an integer in
  `Numbers.IntToString`.
- Profile arguments of other types than those of `PROFILES`: numbers are integers, the codec
  is text, and a `codec` key holding `None` is not modelled.
- backend/device.py and main.py are not part of this model.
- AdbHandler.DensityOverrideEitherOrder: proved for the two-line output of `wm density`.
  `AdbHandler.DensityPrefersOverride` states the general case.
- Bridge.LaunchOutcome: its facts about the command words require that neither the
  executable nor the serial starts with "--".
- ScrcpyHandler.LaunchCommandReadsBack: requires that neither the executable nor the serial
  starts with "--".
