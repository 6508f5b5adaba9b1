/** The presence state of the keyboard and its coalescing merge (src/usb.rs). */
module Presence {
  import opened Wrappers

  datatype DeviceState = Added | Removed

  /**
   * `update_if_not_yet`: merges one observation into the running state.
   * Whatever the state was, it ends as the observation: from `None` it is
   * adopted, the opposite state is replaced, and the same state is kept as it
   * is (a duplicate notification changes nothing).
   */
  function UpdateIfNotYet(lastState: Option<DeviceState>, newState: DeviceState): (r: Option<DeviceState>)
    ensures r == Some(newState)
    ensures lastState == Some(newState) ==> r == lastState
  {
    match lastState
    case None => Some(newState)
    case Some(lastValue) =>
      match (lastValue, newState)
      case (Added, Removed) => Some(newState)
      case (Removed, Added) => Some(newState)
      case _ => lastState
  }
}
