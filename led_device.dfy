/** The device record of src/device/led_device.rs: built once by `new`
    and only read afterwards (the file has no mutating method), so it is
    a value. */
module LedDevices {
  import opened Base
  import opened Ble

  datatype LedDevice = LedDevice(
    name: string,
    alias: string,
    peripheral: Option<Peripheral>,
    writeChar: Option<Characteristic>,
    readChar: Option<Characteristic>)

  /** `LedDevice::new`. */
  function New(name: string, alias: string, peripheral: Option<Peripheral>,
               writeChar: Option<Characteristic>, readChar: Option<Characteristic>): (d: LedDevice)
    ensures d.name == name && d.alias == alias && d.peripheral == peripheral
    ensures d.writeChar == writeChar && d.readChar == readChar
  {
    LedDevice(name, alias, peripheral, writeChar, readChar)
  }

  /* The getters. Each returns the argument the record was built with:
     rebuilding the record from the result gives back the same record. */

  function Alias(d: LedDevice): (alias: string)
    ensures New(d.name, alias, d.peripheral, d.writeChar, d.readChar) == d
  {
    d.alias
  }

  function Name(d: LedDevice): (name: string)
    ensures New(name, d.alias, d.peripheral, d.writeChar, d.readChar) == d
  {
    d.name
  }

  function PeripheralOf(d: LedDevice): (peripheral: Option<Peripheral>)
    ensures New(d.name, d.alias, peripheral, d.writeChar, d.readChar) == d
  {
    d.peripheral
  }

  function WriteChar(d: LedDevice): (writeChar: Option<Characteristic>)
    ensures New(d.name, d.alias, d.peripheral, writeChar, d.readChar) == d
  {
    d.writeChar
  }

  function ReadChar(d: LedDevice): (readChar: Option<Characteristic>)
    ensures New(d.name, d.alias, d.peripheral, d.writeChar, readChar) == d
  {
    d.readChar
  }

  /** Each getter gives back exactly what `new` was given. */
  lemma GettersReturnConstructed(name: string, alias: string, peripheral: Option<Peripheral>,
                                 writeChar: Option<Characteristic>, readChar: Option<Characteristic>)
    ensures var d := New(name, alias, peripheral, writeChar, readChar);
      && Name(d) == name && Alias(d) == alias && PeripheralOf(d) == peripheral
      && WriteChar(d) == writeChar && ReadChar(d) == readChar
  {
  }

  /** `new` keeps all its arguments: distinct arguments give distinct records. */
  lemma NewInjective(d1: LedDevice, d2: LedDevice)
    ensures (New(d1.name, d1.alias, d1.peripheral, d1.writeChar, d1.readChar)
               == New(d2.name, d2.alias, d2.peripheral, d2.writeChar, d2.readChar)) <==> d1 == d2
  {
  }
}
