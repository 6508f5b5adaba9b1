/**
 * The reconfiguration dispatcher (src/monitor_handling.rs): which `gdctl`
 * argument list, if any, a presence transition calls for. The settle delay
 * and the process spawn themselves are not part of this model.
 */
module MonitorHandling {
  import opened Wrappers
  import opened Presence

  /** `base_args`: one logical monitor, primary, at the configured scale, on eDP-1. */
  function SingleLayoutArgs(scale: string): seq<string> {
    ["set", "--logical-monitor", "--primary", "--scale", scale, "--monitor", "eDP-1"]
  }

  /** `dual_args`: the base list plus a second logical monitor on eDP-2 below eDP-1. */
  function DualLayoutArgs(scale: string): seq<string> {
    SingleLayoutArgs(scale) + ["--logical-monitor", "--scale", scale, "--monitor", "eDP-2", "--below", "eDP-1"]
  }

  /**
   * `handle_if_changed`, as the argument list it runs `gdctl` with (`None`:
   * no command). A command is issued exactly when there is a current state and
   * it differs from the one before: attaching the keyboard selects the single
   * layout, detaching it the dual layout.
   */
  function HandleIfChanged(current: Option<DeviceState>, before: Option<DeviceState>, scale: string)
    : (r: Option<seq<string>>)
    ensures r.Some? <==> current.Some? && current != before
    ensures current == Some(Added) && r.Some? ==> r.value == SingleLayoutArgs(scale)
    ensures current == Some(Removed) && r.Some? ==> r.value == DualLayoutArgs(scale)
  {
    match (current, before)
    case (Some(Added), None) => Some(SingleLayoutArgs(scale))
    case (Some(Added), Some(Removed)) => Some(SingleLayoutArgs(scale))
    case (Some(Removed), None) => Some(DualLayoutArgs(scale))
    case (Some(Removed), Some(Added)) => Some(DualLayoutArgs(scale))
    case _ => None
  }

  /** The single-layout list is a proper prefix of the dual one, seven arguments shorter. */
  lemma SingleLayoutIsPrefixOfDual(scale: string)
    ensures SingleLayoutArgs(scale) < DualLayoutArgs(scale)
    ensures |DualLayoutArgs(scale)| == |SingleLayoutArgs(scale)| + 7
  {
  }

  /**
   * Every "--scale" in an issued command is followed by the one configured
   * scale (unless the scale text is itself "--scale", which no float renders to).
   */
  lemma ScaleFillsEveryScaleSlot(current: Option<DeviceState>, before: Option<DeviceState>, scale: string)
    requires scale != "--scale"
    ensures var r := HandleIfChanged(current, before, scale);
      r.Some? ==> forall i | 0 <= i < |r.value| && r.value[i] == "--scale" :: i + 1 < |r.value| && r.value[i + 1] == scale
  {
    var single, dual := SingleLayoutArgs(scale), DualLayoutArgs(scale);
    assert forall i | 0 <= i < |single| && single[i] == "--scale" :: i == 3;
    forall i | 0 <= i < |dual| && dual[i] == "--scale" ensures i == 3 || i == 8 {
      if i >= 7 {
        assert dual[i] == ["--logical-monitor", "--scale", scale, "--monitor", "eDP-2", "--below", "eDP-1"][i - 7];
      }
    }
  }

  /** Equal states, and a missing current state, never issue a command. */
  lemma NoCommandWithoutChange(current: Option<DeviceState>, before: Option<DeviceState>, scale: string)
    requires current == before || current == None
    ensures HandleIfChanged(current, before, scale) == None
  {
  }
}
