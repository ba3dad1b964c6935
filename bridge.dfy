/**
  backend/bridge.py: `BackendBridge`, the object the user interface talks to. It keeps the
  selected serial, the device list, the package list and the launch mode; it reacts to what the
  worker reports and to what the user asks, and everything it tells the outside (the signals to
  the interface and the requests to the worker) is appended to one event log, in order.

  Only the order of events is modelled: each worker result and each user action is one input,
  handled to completion before the next. `Step` is the effect of one input on the state, `Run`
  the effect of a sequence of inputs from the state after construction, and each method of the
  class is proved to do what `Step` says.
 */
module Bridge {
  import opened Wrappers
  import opened Strings
  import opened AdbOutput
  import opened Worker
  import opened ScrcpyHandler
  import Scrcpy = ScrcpyHandler

  /** The signals the bridge emits: to the interface, and the two requests to the worker. */
  datatype Event =
    | DevicesChanged(devices: seq<Device>)
    | PackagesChanged(packages: seq<string>)
    | StatusMessage(message: string)
    | LaunchModeChanged(mode: string)
    | RequestDevices
    | RequestPackages(serial: string)

  /** One thing that happens to the bridge: a worker signal arrives, or the user acts. */
  datatype Input =
    | Deliver(signal: WorkerSignal)
    | Select(serial: string)
    | SetMode(mode: string)
    | Launch(packageName: string)
    | Refresh

  /** The four fields of the bridge, and the events emitted so far. */
  datatype BridgeState = BridgeState(
    serial: string,
    devices: seq<Device>,
    packages: seq<string>,
    mode: string,
    log: seq<Event>)

  /** What the bridge's collaborators answer: the `adb` tool of its worker, and how `scrcpy` starts. */
  datatype Env = Env(adb: AdbTool, scrcpy: ScrcpyHandler, spawn: seq<string> -> SpawnOutcome)

  /** The launch mode set at construction. */
  const DefaultMode := "Tablet"

  /** The geometry `launch_app` uses unless the mode is "Phone". */
  const TabletGeometry: (int, int, int) := (1280, 800, 160)

  /** The state after `__init__`: nothing selected, no lists, "Tablet", and one device request issued. */
  function Init(): BridgeState {
    BridgeState("", [], [], DefaultMode, [RequestDevices])
  }

  /** The width, height and density `launch_app` passes to `scrcpy`. */
  function LaunchGeometry(env: Env, st: BridgeState): (int, int, int) {
    if st.mode == "Phone" then DeviceInfo(env.adb, st.serial) else TabletGeometry
  }

  /** Whether the `scrcpy` process for the package starts. */
  function Launched(env: Env, st: BridgeState, packageName: string): bool {
    var g := LaunchGeometry(env, st);
    Scrcpy.LaunchApp(env.scrcpy, env.spawn, st.serial, packageName, g.0, g.1, g.2)
  }

  /** The events one input makes the bridge emit, in order. */
  function Emits(env: Env, st: BridgeState, input: Input): seq<Event> {
    match input
    case Deliver(DevicesReady(ds)) => if ds != st.devices then [DevicesChanged(ds)] else []
    case Deliver(PackagesReady(s, ps)) => if s == st.serial then [PackagesChanged(ps)] else []
    case Deliver(ErrorOccurred(m)) => [StatusMessage("Error: " + m)]
    case Select(s) => [StatusMessage("Selected: " + s), PackagesChanged([]), RequestPackages(s)]
    case SetMode(m) => if st.mode != m then [LaunchModeChanged(m)] else []
    case Launch(p) =>
      if st.serial == "" then [StatusMessage("No device selected")]
      else [StatusMessage("Launching " + p + "..."),
            StatusMessage(if Launched(env, st, p) then "Launched " + p else "Failed to launch scrcpy")]
    case Refresh => [RequestDevices]
  }

  /** The effect of one input: the handler's field updates, and its events appended to the log. */
  function Step(env: Env, st: BridgeState, input: Input): BridgeState {
    var log := st.log + Emits(env, st, input);
    match input
    case Deliver(DevicesReady(ds)) => st.(devices := ds, log := log)
    case Deliver(PackagesReady(s, ps)) => if s == st.serial then st.(packages := ps, log := log) else st.(log := log)
    case Select(s) => st.(serial := s, packages := [], log := log)
    case SetMode(m) => st.(mode := m, log := log)
    case _ => st.(log := log)
  }

  /** Launching only appends to the log: one message without a device, two with one. */
  lemma LaunchStep(env: Env, st: BridgeState, p: string)
    ensures st.serial == "" ==> Step(env, st, Launch(p)) == st.(log := st.log + [StatusMessage("No device selected")])
    ensures st.serial != "" ==>
              Step(env, st, Launch(p))
              == st.(log := st.log + [StatusMessage("Launching " + p + "...")]
                                   + [StatusMessage(if Launched(env, st, p) then "Launched " + p else "Failed to launch scrcpy")])
  {
  }

  /** The state after the inputs, handled in order from the state after construction. */
  function Run(env: Env, inputs: seq<Input>): BridgeState
    decreases |inputs|
  {
    if inputs == [] then Init() else Step(env, Run(env, inputs[..|inputs| - 1]), inputs[|inputs| - 1])
  }

  class BackendBridge {
    var currentSerial: string
    var devices: seq<Device>
    var packages: seq<string>
    var launchMode: string
    /** Every signal emitted so far, in order. */
    var log: seq<Event>
    const worker: AdbWorker
    const scrcpy: ScrcpyHandler
    const spawn: seq<string> -> SpawnOutcome

    function State(): BridgeState
      reads this
    {
      BridgeState(currentSerial, devices, packages, launchMode, log)
    }

    function Environment(): Env {
      Env(worker.adb, scrcpy, spawn)
    }

    /**
      `BackendBridge()`: a fresh worker over the given `adb` tool and a `scrcpy` handler over what
      `shutil.which("scrcpy")` found; the state is `Init()`, whose log holds the first device request.
     */
    constructor (adb: AdbTool, scrcpyFound: Option<string>, spawn: seq<string> -> SpawnOutcome)
      ensures State() == Init()
      ensures Environment() == Env(adb, NewScrcpyHandler(scrcpyFound), spawn)
      ensures fresh(worker) && worker.emitted == []
    {
      scrcpy := NewScrcpyHandler(scrcpyFound);
      worker := new AdbWorker(adb);
      this.spawn := spawn;
      currentSerial := "";
      devices := [];
      packages := [];
      launchMode := DefaultMode;
      log := [RequestDevices];
    }

    /** `set_launch_mode(mode)`: stores and announces a mode that differs from the current one. */
    method SetLaunchMode(mode: string)
      modifies this
      ensures State() == Step(Environment(), old(State()), SetMode(mode))
    {
      if launchMode != mode {
        launchMode := mode;
        log := log + [LaunchModeChanged(mode)];
      }
    }

    /** `refresh_devices()`, and each tick of the refresh timer: asks the worker for the devices. */
    method RefreshDevices()
      modifies this
      ensures State() == Step(Environment(), old(State()), Refresh)
    {
      log := log + [RequestDevices];
    }

    /** `_on_devices_ready(devices)`: takes and announces a list that differs by value. */
    method OnDevicesReady(newDevices: seq<Device>)
      modifies this
      ensures State() == Step(Environment(), old(State()), Deliver(DevicesReady(newDevices)))
    {
      if newDevices != devices {
        devices := newDevices;
        log := log + [DevicesChanged(devices)];
      }
    }

    /** `_on_packages_ready(serial, packages)`: takes a list only for the selected serial. */
    method OnPackagesReady(serial: string, newPackages: seq<string>)
      modifies this
      ensures State() == Step(Environment(), old(State()), Deliver(PackagesReady(serial, newPackages)))
    {
      if serial == currentSerial {
        packages := newPackages;
        log := log + [PackagesChanged(newPackages)];
      }
    }

    /** `_on_worker_error(message)`: reports the message. */
    method OnWorkerError(message: string)
      modifies this
      ensures State() == Step(Environment(), old(State()), Deliver(ErrorOccurred(message)))
    {
      log := log + [StatusMessage("Error: " + message)];
    }

    /** `select_device(serial)`: selects, clears the packages and announces that, then asks for the new ones. */
    method SelectDevice(serial: string)
      modifies this
      ensures State() == Step(Environment(), old(State()), Select(serial))
    {
      currentSerial := serial;
      log := log + [StatusMessage("Selected: " + serial)];
      packages := [];
      log := log + [PackagesChanged([])];
      log := log + [RequestPackages(serial)];
    }

    /**
      `launch_app(package_name)`: refuses without a selected device; otherwise starts `scrcpy`
      with the tablet geometry, or in "Phone" mode with the device's own, and reports the outcome.
     */
    method LaunchApp(packageName: string)
      modifies this
      ensures State() == Step(Environment(), old(State()), Launch(packageName))
    {
      ghost var st := State();
      LaunchStep(Environment(), st, packageName);
      if currentSerial == "" {
        log := log + [StatusMessage("No device selected")];
        return;
      }
      log := log + [StatusMessage("Launching " + packageName + "...")];
      var width, height, density := 1280, 800, 160;
      if launchMode == "Phone" {
        width, height, density := worker.GetDeviceInfo(currentSerial);
      }
      assert (width, height, density) == LaunchGeometry(Environment(), st);
      var success := Scrcpy.LaunchApp(scrcpy, spawn, currentSerial, packageName, width, height, density);
      assert success == Launched(Environment(), st, packageName);
      if success {
        log := log + [StatusMessage("Launched " + packageName)];
      } else {
        log := log + [StatusMessage("Failed to launch scrcpy")];
      }
    }

    /** Delivers a worker signal to the slot it is connected to. */
    method Receive(signal: WorkerSignal)
      modifies this
      ensures State() == Step(Environment(), old(State()), Deliver(signal))
    {
      match signal {
        case DevicesReady(ds) => OnDevicesReady(ds);
        case PackagesReady(s, ps) => OnPackagesReady(s, ps);
        case ErrorOccurred(m) => OnWorkerError(m);
      }
    }
  }

  // Reference definitions: what each field should hold after a sequence of inputs.

  /** The serial of the last selection, "" before any. */
  function CurrentSerial(inputs: seq<Input>): string
    decreases |inputs|
  {
    if inputs == [] then ""
    else if inputs[|inputs| - 1].Select? then inputs[|inputs| - 1].serial
    else CurrentSerial(inputs[..|inputs| - 1])
  }

  /** The list of the last device report, [] before any. */
  function LastDevices(inputs: seq<Input>): seq<Device>
    decreases |inputs|
  {
    if inputs == [] then []
    else match inputs[|inputs| - 1]
      case Deliver(DevicesReady(ds)) => ds
      case _ => LastDevices(inputs[..|inputs| - 1])
  }

  /** The last mode set, "Tablet" before any. */
  function LastMode(inputs: seq<Input>): string
    decreases |inputs|
  {
    if inputs == [] then DefaultMode
    else if inputs[|inputs| - 1].SetMode? then inputs[|inputs| - 1].mode
    else LastMode(inputs[..|inputs| - 1])
  }

  /**
    The package list shown for `serial`: that of the latest package report for `serial` since
    the last selection, [] if there is none (a selection clears the list).
   */
  function LastPackages(inputs: seq<Input>, serial: string): seq<string>
    decreases |inputs|
  {
    if inputs == [] then []
    else match inputs[|inputs| - 1]
      case Select(_) => []
      case Deliver(PackagesReady(s, ps)) => if s == serial then ps else LastPackages(inputs[..|inputs| - 1], serial)
      case _ => LastPackages(inputs[..|inputs| - 1], serial)
  }

  /**
    After any sequence of inputs the selected serial is the last one selected, the devices are
    the last reported list, the mode is the last one set, and the packages are the latest report
    for the selected serial since it was selected: a late report for a serial selected before
    never shows.
   */
  lemma {:induction false} RunFields(env: Env, inputs: seq<Input>)
    ensures var st := Run(env, inputs);
            && st.serial == CurrentSerial(inputs)
            && st.devices == LastDevices(inputs)
            && st.mode == LastMode(inputs)
            && st.packages == LastPackages(inputs, CurrentSerial(inputs))
    decreases |inputs|
  {
    if inputs != [] {
      RunFields(env, inputs[..|inputs| - 1]);
    }
  }

  /** A package report for another serial than the selected one changes nothing, not even the log. */
  lemma StaleReportIgnored(env: Env, st: BridgeState, serial: string, packages: seq<string>)
    requires serial != st.serial
    ensures Step(env, st, Deliver(PackagesReady(serial, packages))) == st
  {
  }

  /** Setting the same mode twice is setting it once; so is reporting the same devices twice. */
  lemma RepeatsAreIdempotent(env: Env, st: BridgeState, mode: string, devices: seq<Device>)
    ensures var a := Step(env, st, SetMode(mode)); Step(env, a, SetMode(mode)) == a
    ensures var b := Step(env, st, Deliver(DevicesReady(devices)));
            Step(env, b, Deliver(DevicesReady(devices))) == b
  {
  }

  /** The log only grows: the log after a prefix of the inputs is a prefix of the log after all of them. */
  lemma {:induction false} LogOnlyGrows(env: Env, inputs: seq<Input>, k: nat)
    requires k <= |inputs|
    ensures Run(env, inputs[..k]).log <= Run(env, inputs).log
    decreases |inputs| - k
  {
    if k < |inputs| {
      var n := |inputs| - 1;
      var before := Run(env, inputs[..n]);
      assert Run(env, inputs) == Step(env, before, inputs[n]);
      LogOnlyGrows(env, inputs[..n], k);
      assert inputs[..n][..k] == inputs[..k];
      StepLogGrows(env, before, inputs[n]);
    } else {
      assert inputs[..k] == inputs;
    }
  }

  /** One input only appends to the log. */
  lemma StepLogGrows(env: Env, st: BridgeState, input: Input)
    ensures st.log <= Step(env, st, input).log
  {
    StepEffect(env, st, input);
  }

  /** A property of states that the initial state has and every input keeps holds after any inputs. */
  lemma {:induction false} RunPreserves(env: Env, inputs: seq<Input>, inv: BridgeState -> bool)
    requires inv(Init())
    requires forall st, input :: inv(st) ==> inv(Step(env, st, input))
    ensures inv(Run(env, inputs))
    decreases |inputs|
  {
    if inputs != [] {
      RunPreserves(env, inputs[..|inputs| - 1], inv);
    }
  }

  // The interface's view of each list: the payloads of its change signals, in order.

  /** The device lists announced in the log, in order. */
  function DeviceUpdates(log: seq<Event>): seq<seq<Device>>
  {
    if log == [] then []
    else (if log[0].DevicesChanged? then [log[0].devices] else []) + DeviceUpdates(log[1..])
  }

  /** The package lists announced in the log, in order. */
  function PackageUpdates(log: seq<Event>): seq<seq<string>>
  {
    if log == [] then []
    else (if log[0].PackagesChanged? then [log[0].packages] else []) + PackageUpdates(log[1..])
  }

  /** The modes announced in the log, in order. */
  function ModeUpdates(log: seq<Event>): seq<string>
  {
    if log == [] then []
    else (if log[0].LaunchModeChanged? then [log[0].mode] else []) + ModeUpdates(log[1..])
  }

  lemma UpdatesConcat(a: seq<Event>, b: seq<Event>)
    ensures DeviceUpdates(a + b) == DeviceUpdates(a) + DeviceUpdates(b)
    ensures PackageUpdates(a + b) == PackageUpdates(a) + PackageUpdates(b)
    ensures ModeUpdates(a + b) == ModeUpdates(a) + ModeUpdates(b)
  {
    DeviceUpdatesConcat(a, b);
    PackageUpdatesConcat(a, b);
    ModeUpdatesConcat(a, b);
  }

  lemma {:induction false} DeviceUpdatesConcat(a: seq<Event>, b: seq<Event>)
    ensures DeviceUpdates(a + b) == DeviceUpdates(a) + DeviceUpdates(b)
  {
    if a == [] {
      assert a + b == b;
    } else {
      assert (a + b)[1..] == a[1..] + b;
      DeviceUpdatesConcat(a[1..], b);
    }
  }

  lemma {:induction false} PackageUpdatesConcat(a: seq<Event>, b: seq<Event>)
    ensures PackageUpdates(a + b) == PackageUpdates(a) + PackageUpdates(b)
  {
    if a == [] {
      assert a + b == b;
    } else {
      assert (a + b)[1..] == a[1..] + b;
      PackageUpdatesConcat(a[1..], b);
    }
  }

  lemma {:induction false} ModeUpdatesConcat(a: seq<Event>, b: seq<Event>)
    ensures ModeUpdates(a + b) == ModeUpdates(a) + ModeUpdates(b)
  {
    if a == [] {
      assert a + b == b;
    } else {
      assert (a + b)[1..] == a[1..] + b;
      ModeUpdatesConcat(a[1..], b);
    }
  }

  /** The last announced value is `current`, or nothing was announced and it is still `initial`. */
  predicate Mirrors<T(==)>(initial: T, current: T, updates: seq<T>) {
    if updates == [] then current == initial else updates[|updates| - 1] == current
  }

  /** Every announcement changed the value: none repeats its predecessor or the initial value. */
  predicate OnlyChanges<T(==)>(initial: T, updates: seq<T>) {
    && (updates != [] ==> updates[0] != initial)
    && forall i :: 0 <= i < |updates| - 1 ==> updates[i] != updates[i + 1]
  }

  /** Announcing a value that differs from the mirrored one, or keeping the value silently, keeps both properties. */
  lemma AnnounceChange<T>(initial: T, current: T, updates: seq<T>, next: T, added: seq<T>)
    requires Mirrors(initial, current, updates) && OnlyChanges(initial, updates)
    requires (added == [] && next == current) || (added == [next] && next != current)
    ensures Mirrors(initial, next, updates + added) && OnlyChanges(initial, updates + added)
  {
    if added == [] {
      assert updates + added == updates;
    }
  }

  /** Announcing the new value, or keeping the value silently, keeps the view mirrored. */
  lemma AnnounceValue<T>(initial: T, current: T, updates: seq<T>, next: T, added: seq<T>)
    requires Mirrors(initial, current, updates)
    requires (added == [] && next == current) || added == [next]
    ensures Mirrors(initial, next, updates + added)
  {
    if added == [] {
      assert updates + added == updates;
    }
  }

  /** The interface's views agree with the bridge, and devices and modes are announced only on change. */
  predicate ViewsInSync(st: BridgeState) {
    && Mirrors([], st.devices, DeviceUpdates(st.log)) && OnlyChanges([], DeviceUpdates(st.log))
    && Mirrors(DefaultMode, st.mode, ModeUpdates(st.log)) && OnlyChanges(DefaultMode, ModeUpdates(st.log))
    && Mirrors([], st.packages, PackageUpdates(st.log))
  }

  /** What the announcements of one input add to each view. */
  lemma EmitsUpdates(env: Env, st: BridgeState, input: Input)
    ensures var e := Emits(env, st, input);
            && DeviceUpdates(e) == (if input.Deliver? && input.signal.DevicesReady? && input.signal.devices != st.devices
                                    then [input.signal.devices] else [])
            && ModeUpdates(e) == (if input.SetMode? && input.mode != st.mode then [input.mode] else [])
            && PackageUpdates(e) == (if input.Select? then [[]]
                                     else if input.Deliver? && input.signal.PackagesReady? && input.signal.serial == st.serial
                                     then [input.signal.packages] else [])
  {
    match input
    case Select(s) =>
      SelectionUpdates(s);
    case Launch(p) =>
      if st.serial != "" {
        StatusUpdates("Launching " + p + "...", if Launched(env, st, p) then "Launched " + p else "Failed to launch scrcpy");
      }
    case _ =>
  }

  /** The announcements of a selection add the cleared list to the package view only. */
  lemma SelectionUpdates(serial: string)
    ensures var e := [StatusMessage("Selected: " + serial), PackagesChanged([]), RequestPackages(serial)];
            DeviceUpdates(e) == [] && ModeUpdates(e) == [] && PackageUpdates(e) == [[]]
  {
    var a, b, c := StatusMessage("Selected: " + serial), PackagesChanged([]), RequestPackages(serial);
    assert [a, b, c] == [a] + ([b] + [c]);
    UpdatesConcat([a], [b] + [c]);
    UpdatesConcat([b], [c]);
    assert [a][1..] == [b][1..] == [c][1..] == [];
  }

  /** Two status messages add nothing to any view. */
  lemma StatusUpdates(m1: string, m2: string)
    ensures var e := [StatusMessage(m1), StatusMessage(m2)];
            DeviceUpdates(e) == [] && ModeUpdates(e) == [] && PackageUpdates(e) == []
  {
    var a, b := StatusMessage(m1), StatusMessage(m2);
    assert [a, b] == [a] + [b];
    UpdatesConcat([a], [b]);
    assert [a][1..] == [b][1..] == [];
  }

  /** The fields and the log after one input, field by field. */
  lemma StepEffect(env: Env, st: BridgeState, input: Input)
    ensures var after := Step(env, st, input);
            && after.log == st.log + Emits(env, st, input)
            && after.serial == (if input.Select? then input.serial else st.serial)
            && after.devices == (if input.Deliver? && input.signal.DevicesReady? then input.signal.devices else st.devices)
            && after.mode == (if input.SetMode? then input.mode else st.mode)
            && after.packages == (if input.Select? then []
                                  else if input.Deliver? && input.signal.PackagesReady? && input.signal.serial == st.serial
                                  then input.signal.packages else st.packages)
  {
  }

  lemma StepKeepsViewsInSync(env: Env, st: BridgeState, input: Input)
    requires ViewsInSync(st)
    ensures ViewsInSync(Step(env, st, input))
  {
    var e := Emits(env, st, input);
    var after := Step(env, st, input);
    StepEffect(env, st, input);
    UpdatesConcat(st.log, e);
    EmitsUpdates(env, st, input);
    AnnounceChange([], st.devices, DeviceUpdates(st.log), after.devices, DeviceUpdates(e));
    AnnounceChange(DefaultMode, st.mode, ModeUpdates(st.log), after.mode, ModeUpdates(e));
    AnnounceValue([], st.packages, PackageUpdates(st.log), after.packages, PackageUpdates(e));
  }

  /**
    Whatever happens, the last device list, package list and mode the interface was told of
    are the bridge's own (or the initial ones when none was announced), and a device list or a
    mode is announced only when it differs from the one before.
   */
  lemma RunKeepsViewsInSync(env: Env, inputs: seq<Input>)
    ensures ViewsInSync(Run(env, inputs))
  {
    assert Init().log == [RequestDevices] + [];
    forall st: BridgeState, input: Input | ViewsInSync(st) ensures ViewsInSync(Step(env, st, input)) {
      StepKeepsViewsInSync(env, st, input);
    }
    RunPreserves(env, inputs, ViewsInSync);
  }

  /**
    Every request for packages follows the announcement of the selection and of the cleared
    package list, in that order, directly before it.
   */
  predicate RequestsFollowSelection(log: seq<Event>) {
    forall i :: 0 <= i < |log| && log[i].RequestPackages? ==>
      && 2 <= i
      && log[i - 1] == PackagesChanged([])
      && log[i - 2] == StatusMessage("Selected: " + log[i].serial)
  }

  lemma AppendKeepsRequestsFollowSelection(log: seq<Event>, e: seq<Event>)
    requires RequestsFollowSelection(log)
    requires forall j :: 0 <= j < |e| ==> !e[j].RequestPackages?
    ensures RequestsFollowSelection(log + e)
  {
    forall i | 0 <= i < |log + e| && (log + e)[i].RequestPackages?
      ensures 2 <= i && (log + e)[i - 1] == PackagesChanged([]) && (log + e)[i - 2] == StatusMessage("Selected: " + (log + e)[i].serial)
    {
    }
  }

  lemma AppendSelectionKeepsRequestsFollowSelection(log: seq<Event>, serial: string)
    requires RequestsFollowSelection(log)
    ensures RequestsFollowSelection(log + [StatusMessage("Selected: " + serial), PackagesChanged([]), RequestPackages(serial)])
  {
    var e := [StatusMessage("Selected: " + serial), PackagesChanged([]), RequestPackages(serial)];
    forall i | 0 <= i < |log + e| && (log + e)[i].RequestPackages?
      ensures 2 <= i && (log + e)[i - 1] == PackagesChanged([]) && (log + e)[i - 2] == StatusMessage("Selected: " + (log + e)[i].serial)
    {
      if i >= |log| {
        assert (log + e)[i] == e[i - |log|];
        assert i == |log| + 2;
      }
    }
  }

  lemma StepKeepsRequestsFollowSelection(env: Env, st: BridgeState, input: Input)
    requires RequestsFollowSelection(st.log)
    ensures RequestsFollowSelection(Step(env, st, input).log)
  {
    if input.Select? {
      AppendSelectionKeepsRequestsFollowSelection(st.log, input.serial);
    } else {
      AppendKeepsRequestsFollowSelection(st.log, Emits(env, st, input));
    }
  }

  lemma RunKeepsRequestsFollowSelection(env: Env, inputs: seq<Input>)
    ensures RequestsFollowSelection(Run(env, inputs).log)
  {
    forall st: BridgeState, input: Input | RequestsFollowSelection(st.log) ensures RequestsFollowSelection(Step(env, st, input).log) {
      StepKeepsRequestsFollowSelection(env, st, input);
    }
    RunPreserves(env, inputs, (st: BridgeState) => RequestsFollowSelection(st.log));
  }

  /**
    A launch changes no field. Without a selected device it only says so; with one, it runs
    `scrcpy` on the selected serial and the package, in the tablet geometry unless the mode is
    "Phone" (then the worker's reading of the device, which is the default 1080x2400 at 400 dpi
    for a mock), and its last message says "Launched" exactly when the process started.
   */
  lemma LaunchOutcome(env: Env, st: BridgeState, packageName: string)
    requires !StartsWith(env.scrcpy.path, "--") && !StartsWith(st.serial, "--")
    ensures var after := Step(env, st, Launch(packageName));
            && after == st.(log := after.log)
            && (st.serial == "" ==> after.log == st.log + [StatusMessage("No device selected")])
            && (st.serial != "" ==>
                  var g := LaunchGeometry(env, st);
                  var cmd := LaunchCommand(env.scrcpy.path, st.serial, packageName, g.0, g.1, g.2);
                  && OptionValue(cmd, "--serial") == Some(st.serial)
                  && EqualsValue(cmd, "--start-app") == Some(packageName)
                  && (st.mode != "Phone" ==> EqualsValue(cmd, "--new-display").Some? && ReadResolution(EqualsValue(cmd, "--new-display").value) == Some(TabletGeometry))
                  && (st.mode == "Phone" && (env.adb.path.None? || IsMockSerial(st.serial)) ==>
                        EqualsValue(cmd, "--new-display").Some? && ReadResolution(EqualsValue(cmd, "--new-display").value) == Some(DefaultInfo))
                  && |after.log| == |st.log| + 2
                  && after.log[|st.log|] == StatusMessage("Launching " + packageName + "...")
                  && (after.log[|st.log| + 1] == StatusMessage("Launched " + packageName) <==> env.spawn(cmd).Spawned?))
  {
    if st.serial != "" {
      var g := LaunchGeometry(env, st);
      LaunchCommandReadsBack(env.scrcpy.path, st.serial, packageName, g.0, g.1, g.2);
      ResolutionRoundTrip(g.0, g.1, g.2);
      assert ("Launched " + packageName)[0] != "Failed to launch scrcpy"[0];
    }
  }
}
