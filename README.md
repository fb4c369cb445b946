# ble-ledly, modelled in Dafny

ble-ledly is a Rust library for controlling Bluetooth Low Energy LED lights.
This project models its core and proves properties of the model. The
repository holds three versions of the same layer side by side. Each is
modelled as written, and the versions are not reconciled:

- **Older version.** `src/animation.rs` and `src/communication_protocol/generic_rgb_light.rs`.
  - The `GenericRGBLight` command frames (colour, power on/off,
    hardware pulsating) and their speed and colour tables.
  - A software breathing driver that calls `set_brightness` on a light
    (`LegacyLight`, the `Light` trait of `src/device/traits.rs`).
- **Middle version.** `src/capability.rs` and `src/communication_protocol/generic_rgb.rs`.
  - The power option `LightOption`.
  - `Light::set` over any device.
  - The stub function `light`.
  - The `GenericRGB` power frames.
- **Newer version.** `src/capability/*.rs`, `src/device/mod.rs` and `src/controller.rs`.
  - The per-capability `set` dispatchers.
  - The software breathing driver over a protocol.
  - The device with its guarded `push` and `leave`.
  - The controller: construction, the discovery filter, and the choice of
    write characteristic in `connect`.
- **Device record.** `src/device/led_device.rs` is modelled as a value.

Module layout, one module per source file:

- `Base`, `Errors` and `Ble` hold the shared types.
- `Breath` holds the breathing trace that both breathing drivers share.
- Every other module is named after its source file.

The BLE stack (btleplug) is represented by snapshots of what it reports
and what it answers:

- `Ble.Peripheral`, `Ble.Scan` and `Ble.Host` carry the answers the
  controller reads.
- A `Errors.Link` value passed to `push` and `leave` is the stack's answer
  to the write or the disconnect.
- A device records the effects the stack accepted as a log of link events,
  `Devices.Device.events`.

Timing is recorded in a trace:

- A breathing driver returns the steps it performs: `Breath.Step`, either
  a request at a level or a sleep of some milliseconds.
- The proofs are about that trace.

Modelling decisions, each following the code:

- **Newer breathing.** The newer breathing driver
  (src/capability/sw_animate.rs:85-94) calls `protocol.brightness(...)` and
  discards the result. It never pushes, so `SwAnimate.BreathingPass`
  computes each request through the encoder and takes no device at all.
- **Brightness level type.** `BrightnessOption` carries a `u8` level
  (src/capability/brightness.rs:13-16), but the newer driver builds it from
  `i as f32 / 100`. The model uses the integer percent `i`.
- **`LightOption`.** `src/capability.rs` and `src/capability/light.rs`
  declare identical enums. The model keeps one type (`Capability.LightOption`),
  so that the `GenericRGB` encoder serves both.
- **The older light.** `Animation.LegacyLight` is a call recorder that
  stands for any implementor of the `Light` and `RGB` traits of
  `src/device/traits.rs`: it keeps the list of `set_brightness` calls made on it.

## Model

| member | source | states |
|---|---|---|
| GenericRgbLight.Rank | src/communication_protocol/generic_rgb_light.rs:4-14 | the nine speed settings are numbered 1..9 in declaration order |
| GenericRgbLight.AnimationSpeed | src/communication_protocol/generic_rgb_light.rs:22-34 | every speed byte lies in 0x01..0x1F |
| GenericRgbLight.SpeedSettingOf | src/communication_protocol/generic_rgb_light.rs:22-34 | a byte decoded as a setting is that setting's speed byte |
| GenericRgbLight.AnimationSpeedStrictlyDecreasing | src/communication_protocol/generic_rgb_light.rs:22-34 | a later setting gives a strictly smaller speed byte, in both directions (so the table is injective) |
| GenericRgbLight.SpeedSettingRoundTrip | src/communication_protocol/generic_rgb_light.rs:22-34 | decoding the speed byte of a setting gives back that setting |
| GenericRgbLight.PulsatingColorCode | src/communication_protocol/generic_rgb_light.rs:36-42 | every colour byte lies in 0x26..0x28 |
| GenericRgbLight.PulsatingColorOf | src/communication_protocol/generic_rgb_light.rs:36-42 | a byte decoded as a colour is that colour's byte |
| GenericRgbLight.PulsatingColorRoundTrip | src/communication_protocol/generic_rgb_light.rs:36-42 | decoding the byte of a colour gives back that colour (so the table is injective) |
| GenericRgbLight.EncodeColor | src/communication_protocol/generic_rgb_light.rs:68-70 | the colour frame has seven bytes |
| GenericRgbLight.ColorRoundTrip | src/communication_protocol/generic_rgb_light.rs:68-70 | the colour frame of (r, g, b) decodes to (r, g, b) |
| GenericRgbLight.DecodeColorSound | src/communication_protocol/generic_rgb_light.rs:68-70 | every buffer that decodes as a colour frame is exactly the frame of the colour it decodes to |
| GenericRgbLight.EncodeColorInjective | src/communication_protocol/generic_rgb_light.rs:68-70 | distinct colours give distinct frames |
| GenericRgbLight.TurnOff | src/communication_protocol/generic_rgb_light.rs:45-51 | `turn_off` is a seven-byte frame that decodes as the colour (0, 0, 0) |
| GenericRgbLight.TurnOn | src/communication_protocol/generic_rgb_light.rs:53-55 | `turn_on` is a three-byte frame that does not decode as a colour frame |
| GenericRgbLight.TurnOffFrame | src/communication_protocol/generic_rgb_light.rs:45-51 | `turn_off` is the black colour frame 56 00 00 00 00 F0 AA, which decodes to (0, 0, 0), and is not the commented-out CC 24 33 frame |
| GenericRgbLight.TurnOnDiffersFromTurnOff | src/communication_protocol/generic_rgb_light.rs:53-55 | `turn_on` is CC 23 33; it differs from `turn_off` in length and does not decode as a colour frame |
| GenericRgbLight.Pulsating | src/communication_protocol/generic_rgb_light.rs:57-64 | the pulsating frame has four bytes |
| GenericRgbLight.PulsatingRoundTrip | src/communication_protocol/generic_rgb_light.rs:57-64 | the frame of (colour, speed) decodes to (colour, speed) |
| GenericRgbLight.DecodePulsatingSound | src/communication_protocol/generic_rgb_light.rs:57-64 | every buffer that decodes as a pulsating frame is BB, the colour byte, the speed byte, 44 of what it decodes to |
| GenericRgbLight.PulsatingInjective | src/communication_protocol/generic_rgb_light.rs:36-64 | distinct (colour, speed) pairs give distinct pulsating frames |
| GenericRgb.Light | src/communication_protocol/generic_rgb.rs:12-15 | both power frames have three bytes, start with CC and end with 33 |
| GenericRgb.LightFrames | src/communication_protocol/generic_rgb.rs:13-14 | `light(On)` is CC 23 33 and `light(Off)` is CC 24 33 |
| GenericRgb.LightFramesDifferOnlyAtCommand | src/communication_protocol/generic_rgb.rs:13-14 | the two frames agree at a position exactly when it is not position 1 |
| GenericRgb.LightRoundTrip | src/communication_protocol/generic_rgb.rs:12-15 | parsing the frame of an option gives back the option |
| GenericRgb.ParseLightSound | src/communication_protocol/generic_rgb.rs:12-15 | a buffer that parses as a power frame is the frame of the option it parses to |
| GenericRgb.LightInjective | src/communication_protocol/generic_rgb.rs:4-15 | two options give the same frame exactly when they are the same option; the output depends on the option alone |
| GenericRgb.Switch | src/capability.rs:36-37 | `Light::set` with `GenericRGB`: the write goes through exactly when the device has a peripheral and a write characteristic and the stack accepts it; it then logs CC 23 33 for On and CC 24 33 for Off; on failure nothing is logged |
| Capability.SetLight | src/capability.rs:31-38 | pushes `protocol.light(option)` once, with the push's guards and error unchanged; only an accepted write is logged |
| Capability.LightStub | src/capability.rs:41-43 | the free function `light` always returns `Ok(())` |
| LightCapability.Set | src/capability/light.rs:31-38 | pushes `protocol.light(option)` once; the push's error is returned unchanged and `Ok` only when the write succeeded; only the device's link log may change |
| ColorCapability.Set | src/capability/color.rs:30-37 | pushes `protocol.color(option)` once, with the push's guards and result |
| BrightnessCapability.Set | src/capability/brightness.rs:32-39 | pushes `protocol.brightness(option)` once, with the push's guards and result |
| HwAnimateCapability.Set | src/capability/hw_animate.rs:51-58 | pushes `protocol.hw_animate(option)` once, with the push's guards and result |
| AnimateCapability.Set | src/capability/animate.rs:51-58 | pushes `protocol.animate(option)` once, with the push's guards and result |
| SwAnimate.Set | src/capability/sw_animate.rs:65-72 | pushes `protocol.sw_animate(option)` once, with the push's guards and result |
| Devices.Device.constructor | src/device/mod.rs:17-24 | `Device::new` stores every field as given; the link log starts empty |
| Devices.Device.Push | src/device/mod.rs:78-93 | no peripheral: `InvalidPeripheralReference`; a peripheral but no write characteristic: `InvalidCharacteristic` (so the peripheral check is first); otherwise the stack's answer. Only an accepted write appends exactly the given bytes to the log, once, on the write characteristic, without response. No other field changes |
| Devices.Device.Leave | src/device/mod.rs:66-75 | no peripheral: `InvalidPeripheralReference`; otherwise the disconnect's answer; only an accepted disconnect is logged |
| Devices.Device.SetAlias | src/device/mod.rs:45 | sets the alias and nothing else |
| Devices.Device.SetName | src/device/mod.rs:46 | sets the name and nothing else |
| Devices.Device.SetPeripheral | src/device/mod.rs:47 | stores the peripheral and nothing else |
| Devices.Device.SetWriteChar | src/device/mod.rs:48 | stores the write characteristic and nothing else |
| Devices.Device.SetWriteCharUuid | src/device/mod.rs:49 | stores the write characteristic UUID and nothing else |
| LedDevices.New | src/device/led_device.rs:20-34 | `LedDevice::new` keeps each of its five arguments in its own field |
| LedDevices.Alias | src/device/led_device.rs:38-40 | `alias` returns the alias the record was built with: rebuilding the record from it gives back the same record |
| LedDevices.Name | src/device/led_device.rs:41-43 | `name` returns the name the record was built with |
| LedDevices.PeripheralOf | src/device/led_device.rs:44-46 | `peripheral` returns the peripheral the record was built with |
| LedDevices.WriteChar | src/device/led_device.rs:47-49 | `write_char` returns the write characteristic the record was built with |
| LedDevices.ReadChar | src/device/led_device.rs:50-52 | `read_char` returns the read characteristic the record was built with |
| LedDevices.GettersReturnConstructed | src/device/led_device.rs:20-52 | every getter returns exactly what `new` was given: name, alias, peripheral, write and read characteristic |
| LedDevices.NewInjective | src/device/led_device.rs:19-53 | `new` keeps all its arguments, so two records are equal exactly when they were built from the same arguments |
| Breath.Passes | src/capability/sw_animate.rs:104-110 | `FiniteCount(count)` runs `count` passes when count > 0 and none otherwise |
| Breath.LevelShape | src/capability/sw_animate.rs:85-94 | the level sequence starts and ends at 0, is a palindrome, reaches 100 twice in a row, and moves by one between neighbours |
| Breath.RequestsAppend | src/capability/sw_animate.rs:85-94 | the requests of two traces in sequence are the requests of the first followed by those of the second |
| Breath.TotalSleepAppend | src/capability/sw_animate.rs:85-94 | the sleep of two traces in sequence is the sum of their sleeps |
| Breath.StepAppended | src/capability/sw_animate.rs:86-88 | one request followed by its sleep adds exactly that request and one interval |
| Breath.PrefixLength | src/capability/sw_animate.rs:85-94 | k loop iterations give 2k steps |
| Breath.PrefixAt | src/capability/sw_animate.rs:85-94 | in the steps of k iterations, even positions are requests at the level of their iteration and odd positions are sleeps of the interval |
| Breath.PrefixRequests | src/capability/sw_animate.rs:85-94 | k iterations issue exactly k requests, the i-th at level `LevelAt(i)` |
| Breath.PrefixSleep | src/capability/sw_animate.rs:88-93 | k iterations sleep k intervals |
| Breath.PassShape | src/capability/sw_animate.rs:79-95 | one pass: 404 steps alternating request and sleep, 202 requests at levels 0..100 then 100..0, 202 intervals of sleep |
| Breath.RepeatedCounts | src/capability/sw_animate.rs:104-110 | n repetitions of a trace have n times its steps, requests and sleep |
| Breath.NextPass | src/capability/sw_animate.rs:106-109 | one more iteration of the repeat loop extends the trace and the request log by one pass |
| Breath.RepeatedAt | src/capability/sw_animate.rs:104-110 | every pass of a repetition is the same pass, position by position |
| Breath.RepeatedLength | src/capability/sw_animate.rs:104-110 | n repetitions have n times the length |
| Breath.RepeatedPasses | src/capability/sw_animate.rs:97-110 | n passes: 404n steps, 202n requests, 202n intervals of sleep |
| SwAnimate.Rank | src/capability/sw_animate.rs:26-34 | the seven speeds are numbered 0..6 from Slowest to Fastest |
| SwAnimate.SwAnimationSpeed | src/capability/sw_animate.rs:38-48 | every interval lies in 5..600 ms |
| SwAnimate.SpeedOfInterval | src/capability/sw_animate.rs:38-48 | an interval decoded as a speed is that speed's interval |
| SwAnimate.SwAnimationSpeedMonotonic | src/capability/sw_animate.rs:38-48 | a faster speed has a strictly shorter interval, in both directions |
| SwAnimate.SwAnimationSpeedRoundTrip | src/capability/sw_animate.rs:38-48 | decoding the interval of a speed gives back the speed (so the table is injective) |
| SwAnimate.BreathingPass | src/capability/sw_animate.rs:79-95 | `_breathing`: the steps performed are one pass, each request `LevelWithColor(i, color)` computed through the brightness encoder, each followed by one sleep; nothing is pushed |
| SwAnimate.BreathingFinite | src/capability/sw_animate.rs:97-110 | `breathing` with `FiniteCount(count)`: max(count, 0) passes at the interval of the speed, nothing pushed |
| SwAnimate.PassRequestsSameColor | src/capability/sw_animate.rs:85-94 | every one of the 202 requests of a pass carries the pass's colour, at level 0..100 then 100..0 |
| SwAnimate.BreathingCounts | src/capability/sw_animate.rs:97-110 | `FiniteCount(n)` issues 202 max(n, 0) requests and sleeps 202 max(n, 0) intervals |
| SwAnimate.TwoFastestBreaths | src/capability/sw_animate.rs:38-48 | `FiniteCount(2)` at `Fastest`: 404 requests and 2020 ms of sleep |
| Animation.Rank | src/animation.rs:11-19 | the seven speeds are numbered 0..6 from Slowest to Fastest |
| Animation.AnimationSpeedMs | src/animation.rs:21-31 | every interval lies in 5..600 ms |
| Animation.AnimationSpeedMonotonic | src/animation.rs:21-31 | a faster speed has a strictly shorter interval, in both directions |
| Animation.LegacyLight.SetBrightness | src/device/traits.rs:34 | `set_brightness` records exactly one call with its arguments |
| Animation.BreathingPass | src/animation.rs:33-53 | `_breathing`: the steps performed are one pass of `set_brightness(red, green, blue, i)` calls, each awaited and then followed by one sleep; the light receives exactly the trace's calls, in order |
| Animation.BreathingFinite | src/animation.rs:55-70 | `breathing` with `FiniteCount(count)`: max(count, 0) passes at the interval of the speed; the light receives exactly their calls |
| Animation.PassCallsSameColor | src/animation.rs:41-52 | every one of the 202 calls of a pass passes red, green and blue unchanged, at levels 0..100 then 100..0 |
| Animation.BreathingCalls | src/animation.rs:55-70 | `FiniteCount(n)` makes 202 max(n, 0) calls |
| Controllers.HostError | src/controller.rs:25-31 | construction fails exactly when the manager query, the adapter query or the adapter list fails or is empty, and a failed manager query is reported first |
| Controllers.Contains | src/controller.rs:82 | `str::contains`: a name contains a pattern only if the pattern is no longer than the name |
| Controllers.Pattern | src/controller.rs:82 | the filter pattern is the prefix when one is set; with none, every name contains it |
| Controllers.NameOf | src/controller.rs:75-80 | the listed name is the local name when there is one, and "Unknown" otherwise |
| Controllers.Filter | src/controller.rs:74-85 | the discovery loop: on success it keeps no more entries than there are peripherals, and each entry is a listed, readable peripheral under its listed name, which contains the pattern |
| Controllers.Discovery | src/controller.rs:68-87 | a failed scan start is reported first, then a failed listing; on success every entry is a scanned peripheral whose name contains the prefix |
| Controllers.Target | src/controller.rs:129-130 | the UUID looked for is the requested one, or the device's default when none was requested |
| Controllers.Attach | src/controller.rs:106-132 | one device: no peripheral gives `InvalidPeripheralReference`; a success means connect and service discovery succeeded and the chosen characteristic is one of the peripheral's, with the target UUID |
| Controllers.ContainsEmpty | src/controller.rs:82 | every name contains the empty pattern, which is what a missing prefix filters with |
| Controllers.KeptSnoc | src/controller.rs:74-85 | filtering one more readable peripheral keeps it after the others exactly when its name contains the pattern |
| Controllers.FilterStep | src/controller.rs:74-85 | one iteration of the discovery loop: an earlier error stays; an unreadable peripheral aborts; a readable one is kept when its name contains the pattern |
| Controllers.FilterOk | src/controller.rs:74-86 | the discovery loop succeeds exactly when every listed peripheral is readable, and then keeps exactly `Kept`: the peripherals whose name (or "Unknown") contains the pattern, in listing order |
| Controllers.FilterErrPersists | src/controller.rs:74-78 | an error on a prefix of the listing is the error of the whole loop |
| Controllers.FilterFirstError | src/controller.rs:75-78 | the error reported is the first unreadable peripheral's: the stack's error, or `InvalidPeriperipheralProperty` when there are no properties |
| Controllers.KeptMembers | src/controller.rs:79-84 | a found entry is kept exactly when it is a listed peripheral, under its local name or "Unknown", and that name contains the pattern |
| Controllers.KeptEverything | src/controller.rs:82 | with no prefix every peripheral is kept, in order |
| Controllers.DiscoveryKeeps | src/controller.rs:68-87 | discovery succeeds exactly when the scan, the listing and every peripheral's properties succeed, and then yields the peripherals whose names contain the prefix |
| Controllers.FirstMatch | src/controller.rs:121-132 | the position found has the target UUID and no earlier characteristic does; the end of the list means none does |
| Controllers.AttachPicksFirst | src/controller.rs:121-132 | for a connectable peripheral, the choice succeeds exactly when some characteristic has the target UUID, and then it is the first such; otherwise the error is `NotFoundTargetCharacteristic` |
| Controllers.DiscoveredSnoc | src/controller.rs:82-84 | a device newly built from a kept peripheral extends the discovered list and keeps its devices distinct |
| Controllers.Controller.Init | src/controller.rs:33-38 | the controller state: the given prefix, no devices |
| Controllers.Controller.New | src/controller.rs:24-39 | a failed manager or adapter query gives the stack's error, no adapter gives `InvalidBluetoothAdapter`; otherwise a new controller with no prefix and no devices |
| Controllers.Controller.NewWithPrefix | src/controller.rs:40-55 | the same errors; otherwise a new controller with prefix `Some(p)` and no devices |
| Controllers.Controller.DeviceDiscovery | src/controller.rs:68-87 | fails exactly when `Discovery` fails, with its error; otherwise one new, distinct device per kept peripheral, in order, with name = alias = the found name, the peripheral, and no characteristics |
| Controllers.Controller.AttachAll | src/controller.rs:104-138 | every device before the stopping point gets the first characteristic with the requested UUID, or with its default UUID when none was requested; the result is the error of the device at the stopping point, or `Ok` at the end; later devices keep their write characteristic |
| Controllers.Controller.Connect | src/controller.rs:91-139 | the given list, or else the discovered devices, become the controller's devices; a failed discovery returns its error and changes nothing; then each device is attached as in `AttachAll` |

## Left out

- The BLE stack (btleplug) is not modelled. `Manager::new`, `adapters`,
  `start_scan`, `peripherals`, `properties`, `connect`, `discover_services`,
  `write` and `disconnect` are foreign asynchronous I/O. Their answers are
  inputs: the `Ble` snapshots, plus a `Link` value for each write or disconnect.
- Concurrency and `async`/`await` are not modelled. Every call is treated as
  completed in program order.
- Time is not modelled. The sleeps of the breathing drivers are trace entries
  with their milliseconds. The 2-second scan wait in `device_discovery` is
  left out entirely.
- Brightness levels are the integer percent `i`, not the floating-point
  `i as f32 / 100` that src/animation.rs:43 and
  src/capability/sw_animate.rs:87 compute.
- `InfiniteCount` is left out. Its `loop` never terminates
  (src/animation.rs:71-73, src/capability/sw_animate.rs:111-113), and a
  non-terminating method cannot be given a contract here.
- The newer protocol encoders are not modelled. `color`, `brightness`,
  `hw_animate`, `animate` and `sw_animate` have no code in the repository
  (src/communication_protocol/mod.rs declares only `light`). Each `Set`
  takes the encoder it uses as a function parameter, and the properties hold
  for every encoder.
- The source has no brightness-scaling encoder and no "unsupported level"
  error, so the model invents neither.
- Some device operations are declared without an implementation:
  `UuidKind`/`CharKind` filtering, `characteristics_by_type`, `set_char`
  and `set_all_char`. They appear only as a bodiless declaration
  (src/device/mod.rs:37-40) and in the example programs.
- The `Device` trait of src/device/mod.rs:16-50 is declared without an
  implementation: `new`, every getter, every setter and
  `default_write_characteristic_uuid` have no body. The model gives it the
  obvious field-storing implementation (`Devices.Device`, its constructor
  and its `Set` methods), reads its fields directly instead of through
  getters, and turns `default_write_characteristic_uuid` into the
  per-device constant `defaultWriteUuid`. The `address` and
  `characteristics` getters are not modelled.
- Writes and disconnects are logged only when the stack accepts them. A
  rejected one leaves no entry in the log, because the model has no
  observable effect to record for it.
- Some files hold declarations or data only and are represented only by
  their types: `src/device/traits.rs` (as `Animation.LegacyLight`),
  `src/communication_protocol/mod.rs` and `src/error.rs` (as `Errors`).
- `src/errors.rs` is not modelled. Its `IOError` variant
  (src/errors.rs:12) and its `LightControlError` type (src/errors.rs:27-34)
  have no counterpart in `Errors`, which follows `src/error.rs`.
- `src/ledmodule.rs`, `src/lib.rs` and the example programs are not part
  of this model.
- Errors of the BLE stack are opaque codes (`InternalError(code)`). The
  `thiserror` messages are not modelled.
- In `connect`, the peripheral is checked three times per device
  (src/controller.rs:106-124). The model checks it once, because the device
  is not changed between the three checks, so the outcome is the same.
- `Controller::ble_manager` and `Controller::list` (src/controller.rs:59-64)
  are plain accessors of fields that the model keeps public.
