/** Snapshots of the BLE stack (btleplug). The stack itself is not
    modelled: a peripheral is the information the stack reports about it,
    together with the answers the stack gives to the calls the controller
    makes on it. */
module Ble {
  import opened Base
  import opened Errors

  /** A GATT characteristic: its own UUID and that of its service. */
  datatype Characteristic = Characteristic(uuid: Uuid, service: Uuid)

  /** The advertised properties of a peripheral that the core reads. */
  datatype Properties = Properties(localName: Option<string>)

  /** One peripheral as `adapter.peripherals()` lists it.
      `propertiesAnswer`/`properties`: what `properties().await` gives;
      `connectAnswer`, `discoverAnswer`: what `connect()` and
      `discover_services()` answer; `characteristics`: what
      `characteristics()` lists afterwards, in order. */
  datatype Peripheral = Peripheral(
    address: nat,
    propertiesAnswer: Link,
    properties: Option<Properties>,
    connectAnswer: Link,
    discoverAnswer: Link,
    characteristics: seq<Characteristic>)

  /** One scan: what `start_scan` and `peripherals()` answer, and the listing. */
  datatype Scan = Scan(startScan: Link, listing: Link, peripherals: seq<Peripheral>)

  /** What `Manager::new()` and `adapters()` answer, and how many adapters there are. */
  datatype Host = Host(manager: Link, adapters: Link, adapterCount: nat)
}
