/** The newer device layer (src/device/mod.rs): a device record with
    setters, and the blanket `Write::push` and `Disconnect::leave`.
    What the device's peripheral has been asked to do, and accepted, is
    kept as a log of link events. */
module Devices {
  import opened Base
  import opened Errors
  import opened Ble

  datatype WriteType = WithResponse | WithoutResponse

  /** An effect on the peripheral that the stack accepted. */
  datatype LinkEvent =
    | Written(characteristic: Characteristic, bytes: seq<Byte>, kind: WriteType)
    | Disconnected

  class Device {
    var name: string
    var alias: string
    var peripheral: Option<Peripheral>
    var writeChar: Option<Characteristic>
    var readChar: Option<Characteristic>
    var writeCharUuid: Option<Uuid>
    /** `default_write_characteristic_uuid()`: fixed by the device type. */
    const defaultWriteUuid: Uuid
    /** Writes and disconnects the peripheral accepted, oldest first. */
    var events: seq<LinkEvent>

    /** `Device::new`: every field as given, no link events yet. */
    constructor (name: string, alias: string, peripheral: Option<Peripheral>,
                 writeChar: Option<Characteristic>, readChar: Option<Characteristic>,
                 writeCharUuid: Option<Uuid>, defaultWriteUuid: Uuid)
      ensures this.name == name && this.alias == alias && this.peripheral == peripheral
      ensures this.writeChar == writeChar && this.readChar == readChar
      ensures this.writeCharUuid == writeCharUuid && this.defaultWriteUuid == defaultWriteUuid
      ensures events == []
    {
      this.name := name;
      this.alias := alias;
      this.peripheral := peripheral;
      this.writeChar := writeChar;
      this.readChar := readChar;
      this.writeCharUuid := writeCharUuid;
      this.defaultWriteUuid := defaultWriteUuid;
      events := [];
    }

    /** The contract of `push(bytes)` when the stack answers the write with
        `link`: the peripheral is checked first, then the write
        characteristic; then the write's own answer decides. Only an
        accepted write is logged, with the bytes unchanged, on the write
        characteristic, without response. */
    twostate predicate Pushed(bytes: seq<Byte>, link: Link, new r: Result<(), BluetoothError>)
      reads this
    {
      && (old(peripheral).None? ==> r == Err(InvalidPeripheralReference))
      && (old(peripheral).Some? && old(writeChar).None? ==> r == Err(InvalidCharacteristic))
      && (old(peripheral).Some? && old(writeChar).Some? ==>
            r == if link.Accepted? then Ok(()) else Err(FromLink(link)))
      && events == old(events) + (if r.Ok? then [Written(old(writeChar).value, bytes, WithoutResponse)] else [])
    }

    /** `Write::push`. It takes `&self`: only the link log may change. */
    method Push(bytes: seq<Byte>, link: Link) returns (r: Result<(), BluetoothError>)
      modifies this`events
      ensures Pushed(bytes, link, r)
    {
      if peripheral.None? {
        return Err(InvalidPeripheralReference);
      }
      if writeChar.None? {
        return Err(InvalidCharacteristic);
      }
      if link.Rejected? {
        return Err(FromLink(link));
      }
      events := events + [Written(writeChar.value, bytes, WithoutResponse)];
      r := Ok(());
    }

    /** `Disconnect::leave`, with the stack answering the disconnect with `link`. */
    method Leave(link: Link) returns (r: Result<(), BluetoothError>)
      modifies this`events
      ensures old(peripheral).None? ==> r == Err(InvalidPeripheralReference)
      ensures old(peripheral).Some? ==> r == if link.Accepted? then Ok(()) else Err(FromLink(link))
      ensures events == old(events) + (if r.Ok? then [Disconnected] else [])
    {
      if peripheral.None? {
        return Err(InvalidPeripheralReference);
      }
      if link.Rejected? {
        return Err(FromLink(link));
      }
      events := events + [Disconnected];
      r := Ok(());
    }

    method SetAlias(alias: string)
      modifies this`alias
      ensures this.alias == alias
    {
      this.alias := alias;
    }

    method SetName(name: string)
      modifies this`name
      ensures this.name == name
    {
      this.name := name;
    }

    method SetPeripheral(peripheral: Peripheral)
      modifies this`peripheral
      ensures this.peripheral == Some(peripheral)
    {
      this.peripheral := Some(peripheral);
    }

    method SetWriteChar(characteristic: Characteristic)
      modifies this`writeChar
      ensures writeChar == Some(characteristic)
    {
      writeChar := Some(characteristic);
    }

    method SetWriteCharUuid(uuid: Uuid)
      modifies this`writeCharUuid
      ensures writeCharUuid == Some(uuid)
    {
      writeCharUuid := Some(uuid);
    }
  }
}
