/** The middle capability layer (src/capability.rs): the power option,
    `Light::set` over any device, and the stub free function `light`. The
    protocol of this layer declares only `light`, so a protocol is given
    here as that one encoder. */
module Capability {
  import opened Base
  import opened Errors
  import opened Devices

  datatype LightOption = On | Off

  /** `Light::set`: pushes `protocol.light(option)` once; its result is
      the push's result. */
  method SetLight(device: Device, light: LightOption -> seq<Byte>, option: LightOption, link: Link)
    returns (r: Result<(), BluetoothError>)
    modifies device`events
    ensures device.Pushed(light(option), link, r)
  {
    r := device.Push(light(option), link);
  }

  /** The free function `light(device, protocol)`: succeeds and does nothing. */
  function LightStub<D, P>(device: D, protocol: P): (r: Result<(), CapabilityError>)
    ensures r.Ok?
  {
    Ok(())
  }
}
