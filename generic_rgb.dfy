/** The middle GenericRGB protocol (src/communication_protocol/generic_rgb.rs):
    the power frames. `GenericRGB` has no fields, so its encoder is a
    function of the option alone. */
module GenericRgb {
  import opened Base
  import opened Errors
  import opened Devices
  import opened Capability

  /** `GenericRGB::light`. */
  function Light(option: LightOption): (frame: seq<Byte>)
    ensures |frame| == 3 && frame[0] == 0xCC && frame[2] == 0x33
  {
    match option
    case On => [0xCC, 0x23, 0x33]
    case Off => [0xCC, 0x24, 0x33]
  }

  /** Which power option, if any, a buffer is the frame of. */
  function ParseLight(frame: seq<Byte>): Option<LightOption>
  {
    if frame == [0xCC, 0x23, 0x33] then Some(On)
    else if frame == [0xCC, 0x24, 0x33] then Some(Off)
    else None
  }

  /** The exact wire frames. */
  lemma LightFrames()
    ensures Light(On) == [0xCC, 0x23, 0x33]
    ensures Light(Off) == [0xCC, 0x24, 0x33]
  {
  }

  /** The two frames agree everywhere but at the command byte. */
  lemma LightFramesDifferOnlyAtCommand(k: nat)
    requires k < 3
    ensures Light(On)[k] == Light(Off)[k] <==> k != 1
  {
  }

  lemma LightRoundTrip(option: LightOption)
    ensures ParseLight(Light(option)) == Some(option)
  {
  }

  lemma ParseLightSound(frame: seq<Byte>)
    requires ParseLight(frame).Some?
    ensures Light(ParseLight(frame).value) == frame
  {
  }

  lemma LightInjective(a: LightOption, b: LightOption)
    ensures Light(a) == Light(b) <==> a == b
  {
    LightRoundTrip(a);
    LightRoundTrip(b);
  }

  /** `Light::set` (src/capability.rs) with the GenericRGB protocol: the
      write goes through exactly when the device has a peripheral and a
      write characteristic and the stack accepts it, and then the power
      frame itself is what is logged. */
  method Switch(device: Device, option: LightOption, link: Link) returns (r: Result<(), BluetoothError>)
    modifies device`events
    ensures device.Pushed(Light(option), link, r)
    ensures r.Ok? <==> old(device.peripheral).Some? && old(device.writeChar).Some? && link.Accepted?
    ensures r.Ok? ==>
              device.events == old(device.events) +
                [Written(old(device.writeChar).value,
                         if option == On then [0xCC, 0x23, 0x33] else [0xCC, 0x24, 0x33],
                         WithoutResponse)]
    ensures r.Err? ==> device.events == old(device.events)
  {
    r := SetLight(device, Light, option, link);
  }
}
