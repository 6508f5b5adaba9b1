# Zenbook Duo keyboard monitor, in Dafny

This project models the core of a small Linux daemon for the ASUS Zenbook Duo.
The daemon watches udev for the detachable keyboard arriving and leaving, and
switches the GNOME display layout to match, using `gdctl`:

- keyboard attached: the single layout, eDP-1 alone and primary;
- keyboard detached: the dual layout, eDP-2 below eDP-1.

The model has three parts, one per core source file.

- **Presence tracking** (`src/usb.rs`): `presence.dfy` and `usb.dfy`.
  - The coalescing merge `update_if_not_yet`.
  - The startup scan `check_initial_state`.
  - The event loop, as the class `Usb.UsbMonitor`. Its fields are the loop's
    locals `current_state`, `keyboard_devpath` and `last_processed_state`.
    Its constructor is the startup seeding.
  - `ProcessBatch` is one wake of the loop: drain a batch of events into the
    state, then dispatch at most once.
  - Each batch is specified by the ghost fold `RunBatch` over `StepEvent`.
  - Every dispatch is recorded in the field `dispatches`, together with the
    argument list it chose.
- **Device matching** (`src/udev_utils.rs`): `udev_utils.dfy`.
  - The property predicate `check_property` raises a vendor flag and a
    product flag.
  - The property loops of `is_device_duo_keyboard` and `is_it_duo_keyboard`.
  - The removal correlation of `is_it_duo_keyboard`, which compares device
    paths component by component.
  - It relies on three supporting modules:
    - `text.dfy`: Rust's `str::trim` (Unicode White_Space), `eq_ignore_ascii_case` and `split`;
    - `paths.dfy`: `std::path` components and `starts_with` on Unix;
    - `udev.dfy`: the udev data the matcher reads.
- **Dispatch** (`src/monitor_handling.rs`): `monitor_handling.dfy`.
  - `handle_if_changed` becomes a pure choice of argument list.
  - It returns `None` when no command is run.

The device identity is a parameter (`Configuration.DeviceConfig`), not a
constant. The shipped default vendor id is `"b05"` (src/config.rs:23), while
the installer writes `"0b05"` (src/install.rs:54). The example lemmas in
`udev_utils.dfy` use the installer's value.

## Model

| member | source | states |
|---|---|---|
| `Presence.UpdateIfNotYet` | src/usb.rs:76-86 | The state after merging an observation is always that observation: a `None` state adopts it, the opposite state is replaced by it, and the same state is kept unchanged. |
| `Usb.StepEvent` | src/usb.rs:47-63 | An event the matcher rejects, or a matched event that is neither Add nor Remove, leaves state and path unchanged. Otherwise the state becomes the observed one. A matched Add remembers the path the matcher returned, and a matched Remove forgets it. The invariant "path known exactly while attached" is preserved. |
| `Usb.BatchKeepsConsistent` | src/usb.rs:47-63 | Every batch keeps the state defined, with a remembered path exactly while the keyboard is attached. |
| `Usb.BatchEndsAtLastObservation` | src/usb.rs:47-63 | Coalescing: a batch ends in the state its last matched Add or Remove reported, whatever came earlier in the batch. A batch with no such event leaves state and path exactly as they were. |
| `Usb.MatchedAddEndsAttached` | src/usb.rs:47-63 | A batch whose last event is an Add of the keyboard ends attached, e.g. Add, Add, Remove, Add. |
| `Usb.CheckInitialState` | src/usb.rs:88-110 | The result is either `Added` with the path of the first matching device in enumeration order, or `Removed` with no path when no device matches. The state is never `None`. |
| `Usb.UsbMonitor.constructor` | src/usb.rs:14-20 | Seeds state and path from the startup scan. Dispatches once with no earlier state, so the startup layout is always applied. |
| `Usb.UsbMonitor.ProcessBatch` | src/usb.rs:47-68 | The new state and path are the batch fold of the old ones. Exactly one dispatch is appended when the state differs from the last dispatched one, and none otherwise. Afterwards the dispatched state equals the current one and the monitor invariant holds. |
| `Usb.DispatchLogAlternates` | src/usb.rs:65-68 | Every recorded dispatch issued a command: the single layout when attaching and the dual layout when detaching. No two consecutive dispatches carry the same state. |
| `Usb.StartupWithKeyboardAbsent` | src/usb.rs:94-109 | When no enumerated device is the keyboard, startup runs exactly one command, the dual layout. |
| `Usb.AttachAfterAbsentStartup` | src/usb.rs:65-68 | After an absent startup, a wake whose batch ends with the keyboard's Add runs exactly one more command, the single layout, however many events preceded it. |
| `Usb.PresentAtStartupThenUnplugged` | src/usb.rs:48-53 | With the keyboard found at startup, a property-less Remove of a path below its remembered path runs the dual layout after the startup single layout. |
| `UdevUtils.CheckProperty` | src/udev_utils.rs:48-72 | A flag is raised, and never cleared, exactly when: `ID_VENDOR_ID`/`ID_VENDOR` (or `ID_MODEL_ID`/`ID_MODEL`) has a trimmed value equal to the configured id ignoring ASCII case; or `PRODUCT` has a trimmed value with at least two '/'-fields whose field 0 (vendor) or field 1 (product) matches. Other names change nothing. |
| `UdevUtils.ScanFlagsFindsHits` | src/udev_utils.rs:10-14 | Folding the flags over a property list raises each flag exactly when some readable property raises it on its own. |
| `UdevUtils.ScanProperties` | src/udev_utils.rs:35-39 | After the property loop, each flag is set exactly when some property with a UTF-8 name and value sets it. Unreadable properties are skipped. |
| `UdevUtils.IsDeviceDuoKeyboard` | src/udev_utils.rs:6-16 | A device is the keyboard exactly when its properties set both the vendor flag and the product flag. |
| `UdevUtils.IsItDuoKeyboard` | src/udev_utils.rs:18-46 | A Remove whose path is correlated with the remembered one returns the remembered path without looking at properties. Otherwise it returns the event's own path exactly when the properties set both flags. Any path returned is the remembered one or the event's own. |
| `UdevUtils.CorrelatedIsPrefixEitherWay` | src/udev_utils.rs:26 | The equality case of the correlation test is covered by its two prefix cases. |
| `UdevUtils.ProductWithoutSlashSetsNothing` | src/udev_utils.rs:61-62 | A `PRODUCT` value with no '/' after trimming raises neither flag. |
| `UdevUtils.PropertyOrderIrrelevant` | src/udev_utils.rs:10-15 | Flags are only raised, so any rearrangement of a property list gives the same match result. |
| `UdevUtils.MatchesOnIdProperties` | src/udev_utils.rs:50-59 | Upper-case `ID_VENDOR_ID`/`ID_MODEL_ID` values match lower-case configured ids. |
| `UdevUtils.MatchesOnProductProperty` | src/udev_utils.rs:60-70 | `PRODUCT=0b05/1bf2/100` alone identifies the keyboard. |
| `UdevUtils.VendorAloneDoesNotMatch` | src/udev_utils.rs:15 | A vendor match without any product match is not the keyboard. |
| `UdevUtils.ChildRemovalIsCorrelated` | src/udev_utils.rs:20-28 | With a path remembered, a property-less Remove for any path one level below it returns the remembered path. |
| `UdevUtils.SiblingRemovalIsNotCorrelated` | src/udev_utils.rs:22-26 | A Remove for a sibling path is not correlated even when its text extends the remembered path, as "/devices/usb1/1-10" extends "/devices/usb1/1-1". Without the required properties it is rejected. |
| `MonitorHandling.HandleIfChanged` | src/monitor_handling.rs:27-95 | A command is chosen exactly when there is a current state that differs from the one before. Attaching (from `None` or `Removed`) gives the single-layout list; detaching (from `None` or `Added`) gives the dual-layout list. |
| `MonitorHandling.SingleLayoutIsPrefixOfDual` | src/monitor_handling.rs:61-70 | The single-layout list is a proper prefix of the dual-layout list, which is exactly seven arguments longer. |
| `MonitorHandling.ScaleFillsEveryScaleSlot` | src/monitor_handling.rs:11-22 | In any chosen list, every `--scale` is followed by the one configured scale string. |
| `MonitorHandling.NoCommandWithoutChange` | src/monitor_handling.rs:93-94 | Equal states, or no current state, choose no command. |
| `Text.TrimStartRemovesWhitespacePrefix` | src/udev_utils.rs:51 | `trim_start` drops exactly a leading run of whitespace and stops at a non-whitespace character. |
| `Text.TrimEndRemovesWhitespaceSuffix` | src/udev_utils.rs:56 | `trim_end` drops exactly a trailing run of whitespace and stops at a non-whitespace character. |
| `Text.TrimEnds` | src/udev_utils.rs:61 | A trimmed value is no longer than the original and neither starts nor ends with whitespace. |
| `Text.TrimIdempotent` | src/udev_utils.rs:61 | Trimming twice is the same as trimming once. |
| `Text.EqIgnoreAsciiCaseIsLowercaseEquality` | src/udev_utils.rs:63-66 | Comparing ignoring ASCII case is the same as comparing ASCII-lowercased strings. |
| `Text.Split` | src/udev_utils.rs:61 | `split` yields at least one field, no field contains the separator, and joining the fields with the separator gives back the input. |
| `Text.SplitJoin` | src/udev_utils.rs:61 | Splitting inverts joining fields that contain no separator. |
| `Text.SplitHasTwoFieldsIff` | src/udev_utils.rs:62 | `split` yields at least two fields exactly when the separator occurs. |
| `Paths.ChildStartsWithParent` | src/udev_utils.rs:26 | A path one level below `p` starts with `p`. `p` starts with that path only when the added name is empty or ".". |
| `Paths.AbsoluteStartsWithIff` | src/udev_utils.rs:26 | For absolute paths of plain names, `starts_with` holds exactly when one name list is a prefix of the other, compared by whole components. |

## Left out

- The udev `MonitorBuilder`, the `Enumerator`, the `AsyncFd` readiness wait and `clear_ready` (src/usb.rs:22-45, 72, 89-94) are OS handles. The model replaces them with a sequence of events per wake and a sequence of devices for the startup scan. Their `expect` panics are not modelled.
- The tokio wiring in src/main.rs is concurrency scaffolding with no decisions in it.
- The 500 ms sleep and the `gdctl` process spawn (src/monitor_handling.rs:33-52, 72-90) are side effects. The model keeps only the argument list chosen. A failed spawn or a non-zero exit is only logged by the source and changes no state, so nothing is lost.
- `config.scale.to_string()` formats an `f64`. The scale is an opaque string parameter.
- `load_config`, `get_config_path` (src/config.rs) and all of src/install.rs are file, environment and process I/O. The configuration is a parameter.
- The `println!`/`eprintln!` diagnostics.
- MonitorHandling.ScaleFillsEveryScaleSlot: assumes the scale text is not itself `--scale`, which no rendered float is.
- Device paths are strings, so an `OsString` device path that is not UTF-8 is not representable. Property names and values that are not UTF-8 are modelled: they are `None` and skipped.
- Event types other than Add, Remove, Change, Bind and Unbind (udev's "move", "online", "offline") are the single case `Unknown`. The loop treats all non-Add/Remove types alike, so this loses nothing.
