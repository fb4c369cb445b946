/** The newer power capability (src/capability/light.rs). Its
    `LightOption` has the same two variants as the middle layer's and is
    the same type here, so one GenericRGB encoder serves both layers. */
module LightCapability {
  import opened Base
  import opened Errors
  import opened Devices
  import opened Capability

  /** `Light::set`: pushes `protocol.light(option)` once; the protocol and
      the option are borrowed and only the device's link log may change. */
  method Set(device: Device, light: LightOption -> seq<Byte>, option: LightOption, link: Link)
    returns (r: Result<(), BluetoothError>)
    modifies device`events
    ensures device.Pushed(light(option), link, r)
  {
    r := device.Push(light(option), link);
  }
}
