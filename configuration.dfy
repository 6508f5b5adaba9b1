/**
 * The configuration the core reads (src/config.rs). Loading it from disk is
 * not part of this model: the core receives it as a value. The scale is the
 * text `f64::to_string` renders for the configured factor, kept opaque.
 */
module Configuration {

  /** Which USB device is the keyboard: its vendor and product ids as text. */
  datatype DeviceConfig = DeviceConfig(vendorId: string, productId: string)

  datatype Config = Config(scale: string, device: DeviceConfig)
}
