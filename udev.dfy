/**
 * The shapes the udev library hands to the core: events from the monitor
 * socket and devices from the enumerator, both with a device path and a list
 * of string-keyed properties.
 */
module Udev {
  import opened Wrappers

  /** The udev library's event types; a kernel "move" arrives as `Unknown`. */
  datatype EventType = Add | Change | Remove | Bind | Unbind | Unknown

  /**
   * One property as the OS reports it. A name or value that is not valid
   * UTF-8 (so that `OsStr::to_str` fails on it) is `None` here.
   */
  datatype Property = Property(name: Option<string>, value: Option<string>)

  /** A device snapshot from enumeration. */
  datatype Device = Device(devpath: string, properties: seq<Property>)

  /** A live event from the monitor socket. */
  datatype Event = Event(kind: EventType, devpath: string, properties: seq<Property>)
}
