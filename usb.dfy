/**
 * The event monitor (src/usb.rs): the startup probe, the per-wake batch that
 * folds matched events into the presence state, and the dispatch that
 * follows each batch. The udev monitor socket, its readiness wait and the
 * enumerator are replaced by sequences: one sequence of events per wake,
 * one sequence of devices for the startup scan.
 */
module Usb {
  import opened Wrappers
  import opened Udev
  import opened Configuration
  import opened Presence
  import opened UdevUtils
  import opened MonitorHandling

  /** The loop's running state: `current_state` and `keyboard_devpath`. */
  datatype Tracker = Tracker(current: Option<DeviceState>, devpath: Option<string>)

  /** One call of `handle_if_changed`, with the `gdctl` arguments it chose. */
  datatype Dispatch = Dispatch(current: Option<DeviceState>, before: Option<DeviceState>, command: Option<seq<string>>)

  /**
   * The state the loop keeps consistent: a state is known, and a device path
   * is remembered exactly while the keyboard is attached.
   */
  ghost predicate Consistent(t: Tracker) {
    t.current.Some? && (t.devpath.Some? <==> t.current == Some(Added))
  }

  /** The presence an event type reports: only Add and Remove are acted on. */
  function Observed(kind: EventType): Option<DeviceState> {
    match kind
    case Add => Some(Added)
    case Remove => Some(Removed)
    case _ => None
  }

  /** The presence a matched event reports, given the running state; `None` if it reports none. */
  ghost function Observation(t: Tracker, e: Event, c: DeviceConfig): Option<DeviceState> {
    if MatchEvent(e, t.devpath, c).Some? then Observed(e.kind) else None
  }

  /**
   * One turn of the loop over a batch (src/usb.rs:47-63): an event that is
   * not the keyboard's, or that is neither Add nor Remove, changes nothing;
   * otherwise the state becomes the one observed, a matched Add remembers
   * the path the matcher returned and a matched Remove forgets it.
   */
  ghost function StepEvent(t: Tracker, e: Event, c: DeviceConfig): (r: Tracker)
    ensures Observation(t, e, c).None? ==> r == t
    ensures Observation(t, e, c).Some? ==> r.current == Observation(t, e, c)
    ensures Observation(t, e, c) == Some(Added) ==> r.devpath == MatchEvent(e, t.devpath, c)
    ensures Observation(t, e, c) == Some(Removed) ==> r.devpath == None
    ensures Consistent(t) ==> Consistent(r)
  {
    match MatchEvent(e, t.devpath, c)
    case None => t
    case Some(path) =>
      match e.kind
      case Add => Tracker(UpdateIfNotYet(t.current, Added), Some(path))
      case Remove => Tracker(UpdateIfNotYet(t.current, Removed), None)
      case _ => t
  }

  /** The running state after a batch, events taken in delivery order. */
  ghost function RunBatch(t: Tracker, events: seq<Event>, c: DeviceConfig): Tracker
    decreases |events|
  {
    if events == [] then t
    else StepEvent(RunBatch(t, events[..|events| - 1], c), events[|events| - 1], c)
  }

  /** What the event at position `k` of a batch reports, in the state the batch has reached by then. */
  ghost function ObservationAt(t: Tracker, events: seq<Event>, k: nat, c: DeviceConfig): Option<DeviceState>
    requires k < |events|
  {
    Observation(RunBatch(t, events[..k], c), events[k], c)
  }

  /** Every batch keeps the running state consistent. */
  lemma {:induction false} BatchKeepsConsistent(t: Tracker, events: seq<Event>, c: DeviceConfig)
    requires Consistent(t)
    ensures Consistent(RunBatch(t, events, c))
    decreases |events|
  {
    if events != [] {
      BatchKeepsConsistent(t, events[..|events| - 1], c);
    }
  }

  /**
   * Coalescing: a batch ends in the state its last observation reported,
   * whatever came before it; a batch with no observation (no event of the
   * keyboard's, or none that is Add or Remove) leaves the state and the
   * remembered path as they were.
   */
  lemma {:induction false} BatchEndsAtLastObservation(t: Tracker, events: seq<Event>, c: DeviceConfig)
    ensures (forall k | 0 <= k < |events| :: ObservationAt(t, events, k, c).None?) ==> RunBatch(t, events, c) == t
    ensures forall k | 0 <= k < |events| && ObservationAt(t, events, k, c).Some?
                        && (forall j | k < j < |events| :: ObservationAt(t, events, j, c).None?) ::
              RunBatch(t, events, c).current == ObservationAt(t, events, k, c)
    decreases |events|
  {
    if events != [] {
      var n := |events|;
      var init := events[..n - 1];
      BatchEndsAtLastObservation(t, init, c);
      forall k | 0 <= k < n - 1 ensures ObservationAt(t, events, k, c) == ObservationAt(t, init, k, c) {
        assert events[..k] == init[..k];
      }
      assert events[..n - 1] == init;
      var mid := RunBatch(t, init, c);
      assert ObservationAt(t, events, n - 1, c) == Observation(mid, events[n - 1], c);
      assert RunBatch(t, events, c) == StepEvent(mid, events[n - 1], c);
      if forall k | 0 <= k < n :: ObservationAt(t, events, k, c).None? {
        assert forall k | 0 <= k < n - 1 :: ObservationAt(t, init, k, c).None?;
      }
    }
  }

  /** A batch whose last event is an Add of the keyboard ends with the keyboard attached. */
  lemma MatchedAddEndsAttached(t: Tracker, events: seq<Event>, c: DeviceConfig)
    requires events != [] && events[|events| - 1].kind == Add
    requires PropertiesMatch(events[|events| - 1].properties, c)
    ensures RunBatch(t, events, c).current == Some(Added)
  {
    var mid := RunBatch(t, events[..|events| - 1], c);
    assert Observation(mid, events[|events| - 1], c) == Some(Added);
  }

  /** `Added` for the first matching device and its path, as the startup scan reports it. */
  ghost predicate IsFirstMatch(devices: seq<Device>, c: DeviceConfig, k: int) {
    0 <= k < |devices| && PropertiesMatch(devices[k].properties, c)
    && forall j | 0 <= j < k :: !PropertiesMatch(devices[j].properties, c)
  }

  /**
   * `check_initial_state`: the first device in enumeration order that is the
   * keyboard gives `Added` and its path; when none is, `Removed` and no path.
   * The state is never `None`.
   */
  method CheckInitialState(devices: seq<Device>, c: DeviceConfig) returns (state: Option<DeviceState>, devpath: Option<string>)
    ensures devpath.Some? ==>
      state == Some(Added) && exists k :: IsFirstMatch(devices, c, k) && devpath.value == devices[k].devpath
    ensures devpath.None? ==>
      state == Some(Removed) && forall k | 0 <= k < |devices| :: !PropertiesMatch(devices[k].properties, c)
  {
    for k := 0 to |devices|
      invariant forall j | 0 <= j < k :: !PropertiesMatch(devices[j].properties, c)
    {
      var found := IsDeviceDuoKeyboard(devices[k], c);
      if found {
        assert IsFirstMatch(devices, c, k);
        return Some(Added), Some(devices[k].devpath);
      }
    }
    return Some(Removed), None;
  }

  /** A dispatch the loop made: a genuine change, and the command `handle_if_changed` picked for it. */
  ghost predicate IsGenuine(d: Dispatch, scale: string) {
    d.current.Some? && d.current != d.before && d.command == HandleIfChanged(d.current, d.before, scale)
  }

  /** The `gdctl` argument lists of a dispatch log, in order. */
  function IssuedCommands(log: seq<Dispatch>): (r: seq<seq<string>>)
    ensures |r| <= |log|
    decreases |log|
  {
    if log == [] then []
    else IssuedCommands(log[..|log| - 1]) + (match log[|log| - 1].command case Some(args) => [args] case None => [])
  }

  /** Appending a dispatch appends its command, if it issued one. */
  lemma IssuedCommandsSnoc(log: seq<Dispatch>, d: Dispatch)
    ensures IssuedCommands(log + [d]) == IssuedCommands(log) + (if d.command.Some? then [d.command.value] else [])
  {
    assert (log + [d])[..|log|] == log;
  }

  /** The commands of a startup dispatch and one later dispatch, both of which issued one. */
  lemma IssuedCommandsOfTwo(first: Dispatch, second: Dispatch)
    requires first.command.Some? && second.command.Some?
    ensures IssuedCommands([first, second]) == [first.command.value, second.command.value]
  {
    IssuedCommandsSnoc([], first);
    assert [] + [first] == [first];
    IssuedCommandsSnoc([first], second);
    assert [first] + [second] == [first, second];
  }

  /**
   * The state of `monitor_usb_events` between two wakes. `dispatches` records,
   * in order, every call of `handle_if_changed` and the command it issued.
   */
  class UsbMonitor {
    const config: Config
    var currentState: Option<DeviceState>
    var keyboardDevpath: Option<string>
    var lastProcessed: Option<DeviceState>
    var dispatches: seq<Dispatch>

    function Tracked(): Tracker
      reads this
    {
      Tracker(currentState, keyboardDevpath)
    }

    /**
     * Between wakes: the state is consistent and has been dispatched; the
     * first dispatch had no state before it, each later one started from the
     * state the previous one dispatched, and each was a genuine change.
     */
    ghost predicate Valid()
      reads this
    {
      && Consistent(Tracked())
      && lastProcessed == currentState
      && |dispatches| >= 1
      && dispatches[0].before == None
      && dispatches[|dispatches| - 1].current == lastProcessed
      && (forall i | 0 < i < |dispatches| :: dispatches[i].before == dispatches[i - 1].current)
      && (forall i | 0 <= i < |dispatches| :: IsGenuine(dispatches[i], config.scale))
    }

    /**
     * Startup (src/usb.rs:14-20): the scan seeds the state and the path, and
     * `handle_if_changed` runs once with no state before it.
     */
    constructor (config: Config, devices: seq<Device>)
      ensures Valid() && this.config == config
      ensures keyboardDevpath.Some? ==>
        currentState == Some(Added)
        && exists k :: IsFirstMatch(devices, config.device, k) && keyboardDevpath.value == devices[k].devpath
      ensures keyboardDevpath.None? ==>
        currentState == Some(Removed)
        && forall k | 0 <= k < |devices| :: !PropertiesMatch(devices[k].properties, config.device)
      ensures dispatches == [Dispatch(currentState, None, HandleIfChanged(currentState, None, config.scale))]
    {
      this.config := config;
      var state, devpath := CheckInitialState(devices, config.device);
      currentState, keyboardDevpath := state, devpath;
      var before: Option<DeviceState> := None;
      dispatches := [Dispatch(state, before, HandleIfChanged(state, before, config.scale))];
      lastProcessed := state;
    }

    /**
     * One wake of the loop (src/usb.rs:47-68): drain the batch through the
     * matcher into the running state, then dispatch at most once, and only
     * if the state differs from the one dispatched last.
     */
    method ProcessBatch(events: seq<Event>)
      requires Valid()
      modifies this
      ensures Valid()
      ensures Tracked() == RunBatch(old(Tracked()), events, config.device)
      ensures lastProcessed == currentState
      ensures currentState != old(lastProcessed) ==>
        dispatches == old(dispatches) + [Dispatch(currentState, old(lastProcessed), HandleIfChanged(currentState, old(lastProcessed), config.scale))]
      ensures currentState == old(lastProcessed) ==> dispatches == old(dispatches)
    {
      for i := 0 to |events|
        invariant Tracked() == RunBatch(old(Tracked()), events[..i], config.device)
        invariant lastProcessed == old(lastProcessed) && dispatches == old(dispatches)
      {
        var e := events[i];
        var matched := IsItDuoKeyboard(e, keyboardDevpath, config.device);
        if matched.Some? {
          if e.kind == Add {
            keyboardDevpath := matched;
          } else if e.kind == Remove {
            keyboardDevpath := None;
          }
          match e.kind {
            case Add => currentState := UpdateIfNotYet(currentState, Added);
            case Remove => currentState := UpdateIfNotYet(currentState, Removed);
            case _ =>
          }
        }
        assert events[..i + 1][..i] == events[..i];
      }
      assert events[..|events|] == events;
      BatchKeepsConsistent(old(Tracked()), events, config.device);
      if currentState != lastProcessed {
        dispatches := dispatches + [Dispatch(currentState, lastProcessed, HandleIfChanged(currentState, lastProcessed, config.scale))];
        lastProcessed := currentState;
      }
    }
  }

  /**
   * Dispatches follow the genuine transitions: every one issues a command,
   * attaching gives the single layout and detaching the dual layout, and
   * two dispatches in a row never repeat a state.
   */
  lemma DispatchLogAlternates(m: UsbMonitor)
    requires m.Valid()
    ensures forall i | 0 <= i < |m.dispatches| ::
      m.dispatches[i].command == Some(if m.dispatches[i].current == Some(Added)
                                      then SingleLayoutArgs(m.config.scale) else DualLayoutArgs(m.config.scale))
    ensures forall i | 0 < i < |m.dispatches| :: m.dispatches[i].current != m.dispatches[i - 1].current
  {
  }

  /**
   * Startup with the keyboard absent: the dual layout is applied once, before
   * any event is awaited.
   */
  method StartupWithKeyboardAbsent(config: Config, devices: seq<Device>) returns (commands: seq<seq<string>>)
    requires forall k | 0 <= k < |devices| :: !PropertiesMatch(devices[k].properties, config.device)
    ensures commands == [DualLayoutArgs(config.scale)]
  {
    var monitor := new UsbMonitor(config, devices);
    commands := IssuedCommands(monitor.dispatches);
  }

  /**
   * A wake after a startup that found no keyboard, whose batch ends with an
   * Add of the keyboard: however many notifications came before it in the
   * same wake (say Add, Add, Remove, Add), exactly one command follows, the
   * single layout.
   */
  method AttachAfterAbsentStartup(config: Config, devices: seq<Device>, batch: seq<Event>)
    returns (commands: seq<seq<string>>)
    requires forall k | 0 <= k < |devices| :: !PropertiesMatch(devices[k].properties, config.device)
    requires batch != [] && batch[|batch| - 1].kind == Add
    requires PropertiesMatch(batch[|batch| - 1].properties, config.device)
    ensures commands == [DualLayoutArgs(config.scale), SingleLayoutArgs(config.scale)]
  {
    var monitor := new UsbMonitor(config, devices);
    ghost var dual, single := DualLayoutArgs(config.scale), SingleLayoutArgs(config.scale);
    ghost var start, log := monitor.Tracked(), monitor.dispatches;
    assert start.current == Some(Removed);
    assert log == [Dispatch(Some(Removed), None, Some(dual))];
    MatchedAddEndsAttached(start, batch, config.device);
    monitor.ProcessBatch(batch);
    assert monitor.currentState == Some(Added);
    ghost var d := monitor.dispatches[1];
    assert monitor.dispatches == log + [d];
    assert d.command == Some(single);
    assert monitor.dispatches == [log[0], d];
    IssuedCommandsOfTwo(log[0], d);
    commands := IssuedCommands(monitor.dispatches);
  }

  /**
   * Startup with the keyboard attached at path P applies the single layout;
   * a later removal reported for a path below P (an interface of the
   * device) applies the dual layout.
   */
  method PresentAtStartupThenUnplugged(config: Config, devices: seq<Device>, k: nat, child: string)
    returns (commands: seq<seq<string>>)
    requires IsFirstMatch(devices, config.device, k)
    requires devices[k].devpath != [] && '/' !in child
    ensures commands == [SingleLayoutArgs(config.scale), DualLayoutArgs(config.scale)]
  {
    var monitor := new UsbMonitor(config, devices);
    ghost var dual, single := DualLayoutArgs(config.scale), SingleLayoutArgs(config.scale);
    var p := devices[k].devpath;
    ghost var start, log := monitor.Tracked(), monitor.dispatches;
    assert start == Tracker(Some(Added), Some(p));
    assert log == [Dispatch(Some(Added), None, Some(single))];
    ChildRemovalIsCorrelated(p, child, config.device);
    var removal := Event(Remove, p + "/" + child, []);
    assert RunBatch(start, [removal], config.device).current == Some(Removed) by {
      assert [removal][..0] == [];
    }
    monitor.ProcessBatch([removal]);
    ghost var d := monitor.dispatches[1];
    assert monitor.dispatches == log + [d];
    assert d.command == Some(dual);
    assert monitor.dispatches == [log[0], d];
    IssuedCommandsOfTwo(log[0], d);
    commands := IssuedCommands(monitor.dispatches);
  }
}
