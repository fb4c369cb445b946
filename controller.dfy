/** The controller (src/controller.rs): its construction, the prefix
    filter of `device_discovery`, and the per-device choice of write
    characteristic in `connect`. The BLE stack is given as snapshots. */
module Controllers {
  import opened Base
  import opened Errors
  import opened Ble
  import opened Devices

  //-----------------------//
  // Discovery, as values  //
  //-----------------------//

  /** `str::contains`: `pattern` occurs in `s` at some position. */
  predicate Contains(s: string, pattern: string)
    ensures Contains(s, pattern) ==> |pattern| <= |s|
  {
    exists i :: 0 <= i <= |s| && OccursAt(s, pattern, i)
  }

  /** `pattern` occurs in `s` starting at position `i`. */
  predicate OccursAt(s: string, pattern: string, i: nat)
  {
    i + |pattern| <= |s| && s[i..i + |pattern|] == pattern
  }

  /** Every name contains the empty pattern, so with no prefix every
      peripheral passes the filter. */
  lemma ContainsEmpty(s: string)
    ensures Contains(s, "")
  {
    assert OccursAt(s, "", 0);
  }

  /** The pattern `device_discovery` filters with: the prefix, or "". */
  function Pattern(prefix: Option<string>): (pattern: string)
    ensures prefix.Some? ==> pattern == prefix.value
    ensures prefix.None? ==> forall s :: Contains(s, pattern)
  {
    match prefix
    case Some(p) => p
    case None =>
      assert forall s :: Contains(s, "") by {
        forall s ensures Contains(s, "") { ContainsEmpty(s); }
      }
      ""
  }

  /** The name a peripheral is listed under: its local name, or "Unknown". */
  function NameOf(props: Properties): (name: string)
    ensures props.localName.Some? ==> name == props.localName.value
    ensures props.localName.None? ==> name == "Unknown"
  {
    match props.localName
    case Some(n) => n
    case None => "Unknown"
  }

  /** A peripheral whose properties could be read. */
  predicate Readable(p: Peripheral)
  {
    p.propertiesAnswer.Accepted? && p.properties.Some?
  }

  /** The error reading an unreadable peripheral's properties aborts with. */
  function PropertiesError(p: Peripheral): BluetoothError
    requires !Readable(p)
  {
    if p.propertiesAnswer.Rejected? then FromLink(p.propertiesAnswer) else InvalidPeriperipheralProperty
  }

  /** A peripheral that passed the filter, with the name it was found under. */
  datatype Found = Found(name: string, peripheral: Peripheral)

  /** The loop of `device_discovery` over a listing, one peripheral at a
      time in order: the first unreadable peripheral aborts it; a readable
      one is kept when its name contains the pattern. */
  function Filter(ps: seq<Peripheral>, pattern: string): (r: Result<seq<Found>, BluetoothError>)
    ensures r.Ok? ==> |r.value| <= |ps|
    ensures r.Ok? ==> forall k :: 0 <= k < |r.value| ==>
              r.value[k].peripheral in ps && Readable(r.value[k].peripheral)
              && r.value[k].name == NameOf(r.value[k].peripheral.properties.value)
              && Contains(r.value[k].name, pattern)
  {
    if ps == [] then Ok([])
    else
      var p := ps[|ps| - 1];
      match Filter(ps[..|ps| - 1], pattern)
      case Err(e) => Err(e)
      case Ok(found) =>
        if !Readable(p) then Err(PropertiesError(p))
        else if Contains(NameOf(p.properties.value), pattern) then Ok(found + [Found(NameOf(p.properties.value), p)])
        else Ok(found)
  }

  /** An independent statement of what a fully readable listing keeps:
      the peripherals whose names contain the pattern, in listing order. */
  function Kept(ps: seq<Peripheral>, pattern: string): seq<Found>
    requires forall k :: 0 <= k < |ps| ==> Readable(ps[k])
  {
    if ps == [] then []
    else
      assert Readable(ps[0]);
      (if Contains(NameOf(ps[0].properties.value), pattern)
       then [Found(NameOf(ps[0].properties.value), ps[0])] else [])
      + Kept(ps[1..], pattern)
  }

  /** `device_discovery`: the scan, then the listing, then the filter. */
  function Discovery(scan: Scan, prefix: Option<string>): (r: Result<seq<Found>, BluetoothError>)
    ensures scan.startScan.Rejected? ==> r == Err(FromLink(scan.startScan))
    ensures scan.startScan.Accepted? && scan.listing.Rejected? ==> r == Err(FromLink(scan.listing))
    ensures r.Ok? ==> forall k :: 0 <= k < |r.value| ==>
              r.value[k].peripheral in scan.peripherals && Contains(r.value[k].name, Pattern(prefix))
  {
    if scan.startScan.Rejected? then Err(FromLink(scan.startScan))
    else if scan.listing.Rejected? then Err(FromLink(scan.listing))
    else Filter(scan.peripherals, Pattern(prefix))
  }

  lemma {:induction false} KeptSnoc(ps: seq<Peripheral>, p: Peripheral, pattern: string)
    requires forall k :: 0 <= k < |ps| ==> Readable(ps[k])
    requires Readable(p)
    ensures forall k :: 0 <= k < |ps + [p]| ==> Readable((ps + [p])[k])
    ensures Kept(ps + [p], pattern) ==
              Kept(ps, pattern) +
              (if Contains(NameOf(p.properties.value), pattern) then [Found(NameOf(p.properties.value), p)] else [])
  {
    if ps != [] {
      assert (ps + [p])[1..] == ps[1..] + [p];
      KeptSnoc(ps[1..], p, pattern);
    } else {
      assert [p][1..] == [];
    }
  }

  /** The filter succeeds exactly when every peripheral is readable, and
      then keeps exactly `Kept`. */
  lemma {:induction false} FilterOk(ps: seq<Peripheral>, pattern: string)
    ensures Filter(ps, pattern).Ok? <==> forall k :: 0 <= k < |ps| ==> Readable(ps[k])
    ensures Filter(ps, pattern).Ok? ==> Filter(ps, pattern).value == Kept(ps, pattern)
  {
    if ps != [] {
      var init := ps[..|ps| - 1];
      FilterOk(init, pattern);
      assert ps == init + [ps[|ps| - 1]];
      if forall k :: 0 <= k < |ps| ==> Readable(ps[k]) {
        KeptSnoc(init, ps[|ps| - 1], pattern);
      }
    }
  }

  /** An aborted prefix of the listing aborts the whole loop the same way. */
  lemma {:induction false} FilterErrPersists(ps: seq<Peripheral>, pattern: string, n: nat)
    requires n <= |ps| && Filter(ps[..n], pattern).Err?
    ensures Filter(ps, pattern) == Filter(ps[..n], pattern)
    decreases |ps| - n
  {
    if n < |ps| {
      var next := ps[..n + 1];
      assert next[..|next| - 1] == ps[..n];
      FilterErrPersists(ps, pattern, n + 1);
    } else {
      assert ps[..n] == ps;
    }
  }

  /** One step of the filter loop, at position `i` of the listing. */
  lemma FilterStep(ps: seq<Peripheral>, pattern: string, i: nat)
    requires i < |ps|
    ensures Filter(ps[..i + 1], pattern) ==
              match Filter(ps[..i], pattern)
              case Err(e) => Err(e)
              case Ok(found) =>
                if !Readable(ps[i]) then Err(PropertiesError(ps[i]))
                else if Contains(NameOf(ps[i].properties.value), pattern)
                then Ok(found + [Found(NameOf(ps[i].properties.value), ps[i])])
                else Ok(found)
  {
    assert ps[..i + 1][..i] == ps[..i];
  }

  /** The error of the first unreadable peripheral is the one reported. */
  lemma FilterFirstError(ps: seq<Peripheral>, pattern: string, k: nat)
    requires k < |ps| && !Readable(ps[k])
    requires forall j :: 0 <= j < k ==> Readable(ps[j])
    ensures Filter(ps, pattern) == Err(PropertiesError(ps[k]))
  {
    var upto := ps[..k + 1];
    assert upto[..|upto| - 1] == ps[..k];
    FilterOk(ps[..k], pattern);
    FilterErrPersists(ps, pattern, k + 1);
  }

  /** What `Kept` holds: a peripheral of the listing, under its name, when
      that name contains the pattern. */
  lemma {:induction false} KeptMembers(ps: seq<Peripheral>, pattern: string, f: Found)
    requires forall k :: 0 <= k < |ps| ==> Readable(ps[k])
    ensures f in Kept(ps, pattern) <==>
              f.peripheral in ps && f.name == NameOf(f.peripheral.properties.value) && Contains(f.name, pattern)
  {
    if ps != [] {
      KeptMembers(ps[1..], pattern, f);
      assert ps == [ps[0]] + ps[1..];
    }
  }

  /** With no prefix, discovery keeps every peripheral, in order. */
  lemma {:induction false} KeptEverything(ps: seq<Peripheral>)
    requires forall k :: 0 <= k < |ps| ==> Readable(ps[k])
    ensures |Kept(ps, Pattern(None))| == |ps|
    ensures forall k :: 0 <= k < |ps| ==>
              Kept(ps, Pattern(None))[k] == Found(NameOf(ps[k].properties.value), ps[k])
  {
    if ps != [] {
      ContainsEmpty(NameOf(ps[0].properties.value));
      KeptEverything(ps[1..]);
    }
  }

  /** Discovery succeeds exactly when the scan and the listing succeed
      and every listed peripheral is readable; it then yields the
      peripherals whose names contain the prefix. */
  lemma DiscoveryKeeps(scan: Scan, prefix: Option<string>)
    ensures Discovery(scan, prefix).Ok? <==>
              scan.startScan.Accepted? && scan.listing.Accepted?
              && forall k :: 0 <= k < |scan.peripherals| ==> Readable(scan.peripherals[k])
    ensures Discovery(scan, prefix).Ok? ==>
              Discovery(scan, prefix).value == Kept(scan.peripherals, Pattern(prefix))
  {
    FilterOk(scan.peripherals, Pattern(prefix));
  }

  //-----------------------------------//
  // Choosing the write characteristic //
  //-----------------------------------//

  /** The UUID `connect` looks for: the requested one, or the device's default. */
  function Target(requested: Option<Uuid>, default: Uuid): (target: Uuid)
    ensures requested.Some? ==> target == requested.value
    ensures requested.None? ==> target == default
  {
    match requested
    case Some(u) => u
    case None => default
  }

  /** The position of the first characteristic with UUID `target`, or
      |chars| when there is none (`find`). */
  function FirstMatch(chars: seq<Characteristic>, target: Uuid): (k: nat)
    ensures k <= |chars|
    ensures k < |chars| ==> chars[k].uuid == target
    ensures forall j :: 0 <= j < k ==> chars[j].uuid != target
  {
    if chars == [] then 0
    else if chars[0].uuid == target then 0
    else 1 + FirstMatch(chars[1..], target)
  }

  /** What `connect` does for one device: the peripheral must be there,
      connect and service discovery must succeed, and then the first
      characteristic with the target UUID is the write characteristic. */
  function Attach(p: Option<Peripheral>, target: Uuid): (r: Result<Characteristic, BluetoothError>)
    ensures p.None? ==> r == Err(InvalidPeripheralReference)
    ensures r.Ok? ==> p.Some? && p.value.connectAnswer.Accepted? && p.value.discoverAnswer.Accepted?
    ensures r.Ok? ==> r.value in p.value.characteristics && r.value.uuid == target
  {
    if p.None? then Err(InvalidPeripheralReference)
    else if p.value.connectAnswer.Rejected? then Err(FromLink(p.value.connectAnswer))
    else if p.value.discoverAnswer.Rejected? then Err(FromLink(p.value.discoverAnswer))
    else
      var k := FirstMatch(p.value.characteristics, target);
      if k < |p.value.characteristics| then Ok(p.value.characteristics[k])
      else Err(NotFoundTargetCharacteristic)
  }

  /** `Attach` succeeds exactly when some characteristic has the target
      UUID (given a connectable peripheral), and then picks the first. */
  lemma AttachPicksFirst(p: Peripheral, target: Uuid)
    requires p.connectAnswer.Accepted? && p.discoverAnswer.Accepted?
    ensures Attach(Some(p), target).Ok? <==> exists c :: c in p.characteristics && c.uuid == target
    ensures Attach(Some(p), target).Ok? ==>
              exists k :: 0 <= k < |p.characteristics| && Attach(Some(p), target).value == p.characteristics[k]
                && p.characteristics[k].uuid == target
                && forall j :: 0 <= j < k ==> p.characteristics[j].uuid != target
    ensures Attach(Some(p), target).Err? ==> Attach(Some(p), target).error == NotFoundTargetCharacteristic
  {
    var k := FirstMatch(p.characteristics, target);
    if k < |p.characteristics| {
      assert p.characteristics[k] in p.characteristics;
    }
  }

  /** `Attach` for one device of the list. */
  function Choice(d: Device, requested: Option<Uuid>): Result<Characteristic, BluetoothError>
    reads d
  {
    Attach(d.peripheral, Target(requested, d.defaultWriteUuid))
  }

  /** After the `connect` loop stopped at position `stop`: every earlier
      device has its chosen write characteristic; the loop's result is the
      error of the device at `stop`, or success when it ran to the end. */
  predicate Settled(devs: seq<Device>, requested: Option<Uuid>, stop: nat, r: Result<(), BluetoothError>)
    reads devs
  {
    && stop <= |devs|
    && (forall k :: 0 <= k < stop ==>
          Choice(devs[k], requested).Ok? && devs[k].writeChar == Some(Choice(devs[k], requested).value))
    && (stop < |devs| ==> Choice(devs[stop], requested).Err? && r == Err(Choice(devs[stop], requested).error))
    && (stop == |devs| ==> r == Ok(()))
  }

  predicate Distinct(devs: seq<Device>)
  {
    forall i, j :: 0 <= i < j < |devs| ==> devs[i] != devs[j]
  }

  /** The device discovery builds from what it found: name and alias are
      the found name, the peripheral is the found one, no read
      characteristic or UUID, and no link events yet. */
  predicate BuiltFrom(d: Device, f: Found, defaultWriteUuid: Uuid)
    reads d`name, d`alias, d`peripheral, d`readChar, d`writeCharUuid, d`events
  {
    && d.name == f.name && d.alias == f.name
    && d.peripheral == Some(f.peripheral)
    && d.readChar.None? && d.writeCharUuid.None?
    && d.defaultWriteUuid == defaultWriteUuid && d.events == []
  }

  /** The devices discovery builds, one per peripheral found, in order. */
  predicate Discovered(devs: seq<Device>, found: seq<Found>, defaultWriteUuid: Uuid)
    reads devs`name, devs`alias, devs`peripheral, devs`readChar, devs`writeCharUuid, devs`events
  {
    |devs| == |found| && forall k :: 0 <= k < |devs| ==> BuiltFrom(devs[k], found[k], defaultWriteUuid)
  }

  /** Discovery's loop step: one more device built from one more peripheral,
      distinct from all earlier devices. */
  lemma DiscoveredSnoc(devs: seq<Device>, found: seq<Found>, d: Device, f: Found, defaultWriteUuid: Uuid)
    requires Discovered(devs, found, defaultWriteUuid) && Distinct(devs)
    requires BuiltFrom(d, f, defaultWriteUuid) && d !in devs
    ensures Discovered(devs + [d], found + [f], defaultWriteUuid) && Distinct(devs + [d])
  {
  }

  /** Why `Manager::new()` / `adapters()` / taking the first adapter fails, if it does. */
  function HostError(host: Host): (e: Option<BluetoothError>)
    ensures e.None? <==> host.manager.Accepted? && host.adapters.Accepted? && host.adapterCount > 0
    ensures host.manager.Rejected? ==> e == Some(FromLink(host.manager))
  {
    if host.manager.Rejected? then Some(FromLink(host.manager))
    else if host.adapters.Rejected? then Some(FromLink(host.adapters))
    else if host.adapterCount == 0 then Some(InvalidBluetoothAdapter)
    else None
  }

  class Controller {
    var prefix: Option<string>
    var ledDevices: seq<Device>
    /** `D::default_write_characteristic_uuid()` of the device type. */
    const defaultWriteUuid: Uuid

    constructor Init(prefix: Option<string>, defaultWriteUuid: Uuid)
      ensures this.prefix == prefix && ledDevices == [] && this.defaultWriteUuid == defaultWriteUuid
    {
      this.prefix := prefix;
      ledDevices := [];
      this.defaultWriteUuid := defaultWriteUuid;
    }

    /** `Controller::new`: no prefix, no devices. */
    static method New(host: Host, defaultWriteUuid: Uuid) returns (r: Result<Controller, BluetoothError>)
      ensures HostError(host).Some? ==> r == Err(HostError(host).value)
      ensures HostError(host).None? ==>
                r.Ok? && fresh(r.value) && r.value.prefix.None? && r.value.ledDevices == []
                && r.value.defaultWriteUuid == defaultWriteUuid
    {
      if HostError(host).Some? {
        return Err(HostError(host).value);
      }
      var c := new Controller.Init(None, defaultWriteUuid);
      r := Ok(c);
    }

    /** `Controller::new_with_prefix(p)`: prefix `Some(p)`, no devices. */
    static method NewWithPrefix(host: Host, prefix: string, defaultWriteUuid: Uuid)
      returns (r: Result<Controller, BluetoothError>)
      ensures HostError(host).Some? ==> r == Err(HostError(host).value)
      ensures HostError(host).None? ==>
                r.Ok? && fresh(r.value) && r.value.prefix == Some(prefix) && r.value.ledDevices == []
                && r.value.defaultWriteUuid == defaultWriteUuid
    {
      if HostError(host).Some? {
        return Err(HostError(host).value);
      }
      var c := new Controller.Init(Some(prefix), defaultWriteUuid);
      r := Ok(c);
    }

    /** `device_discovery`: one new device per peripheral the filter keeps,
      in listing order, or the first error. It takes `&self`. */
    method DeviceDiscovery(scan: Scan) returns (r: Result<seq<Device>, BluetoothError>)
      ensures r.Err? <==> Discovery(scan, prefix).Err?
      ensures r.Err? ==> r.error == Discovery(scan, prefix).error
      ensures r.Ok? ==> Discovered(r.value, Discovery(scan, prefix).value, defaultWriteUuid)
      ensures r.Ok? ==> Distinct(r.value) && forall k :: 0 <= k < |r.value| ==> fresh(r.value[k]) && r.value[k].writeChar.None?
    {
      if scan.startScan.Rejected? {
        return Err(FromLink(scan.startScan));
      }
      if scan.listing.Rejected? {
        return Err(FromLink(scan.listing));
      }
      var ps := scan.peripherals;
      var pattern := Pattern(prefix);
      var devs: seq<Device> := [];
      ghost var found: seq<Found> := [];
      for i := 0 to |ps|
        invariant Filter(ps[..i], pattern) == Ok(found)
        invariant Discovered(devs, found, defaultWriteUuid) && Distinct(devs)
        invariant forall k :: 0 <= k < |devs| ==> fresh(devs[k]) && devs[k].writeChar.None?
      {
        var p := ps[i];
        FilterStep(ps, pattern, i);
        if !Readable(p) {
          FilterErrPersists(ps, pattern, i + 1);
          return Err(PropertiesError(p));
        }
        var name := NameOf(p.properties.value);
        if Contains(name, pattern) {
          var d := new Device(name, name, Some(p), None, None, None, defaultWriteUuid);
          DiscoveredSnoc(devs, found, d, Found(name, p), defaultWriteUuid);
          devs := devs + [d];
          found := found + [Found(name, p)];
        }
      }
      assert ps[..|ps|] == ps;
      r := Ok(devs);
    }

    /** The loop of `connect`: each device in turn gets the write
      characteristic `Attach` chooses, until one fails. */
    method AttachAll(requested: Option<Uuid>) returns (r: Result<(), BluetoothError>, ghost stop: nat)
      requires Distinct(ledDevices)
      modifies ledDevices`writeChar
      ensures Settled(ledDevices, requested, stop, r)
      ensures forall k :: stop <= k < |ledDevices| ==> ledDevices[k].writeChar == old(ledDevices[k].writeChar)
    {
      var devs := ledDevices;
      for i := 0 to |devs|
        invariant forall k :: 0 <= k < i ==>
                    Choice(devs[k], requested).Ok? && devs[k].writeChar == Some(Choice(devs[k], requested).value)
        invariant forall k :: i <= k < |devs| ==> devs[k].writeChar == old(devs[k].writeChar)
      {
        var d := devs[i];
        var choice := Attach(d.peripheral, Target(requested, d.defaultWriteUuid));
        if choice.Err? {
          return Err(choice.error), i;
        }
        d.SetWriteChar(choice.value);
      }
      return Ok(()), |devs|;
    }

    /** `connect`: the given list, or else the discovered devices, become
      the controller's devices (a failed discovery returns its error and
      changes nothing); then each device gets its write characteristic. */
    method Connect(devices: Option<seq<Device>>, requested: Option<Uuid>, scan: Scan)
      returns (r: Result<(), BluetoothError>, ghost stop: nat)
      requires devices.Some? ==> Distinct(devices.value)
      modifies this`ledDevices, (if devices.Some? then devices.value else [])`writeChar
      ensures devices.Some? ==> ledDevices == devices.value
      ensures devices.None? && Discovery(scan, prefix).Err? ==>
                r == Err(Discovery(scan, prefix).error) && ledDevices == old(ledDevices)
      ensures devices.None? && Discovery(scan, prefix).Ok? ==>
                Discovered(ledDevices, Discovery(scan, prefix).value, defaultWriteUuid)
                && forall k :: 0 <= k < |ledDevices| ==> fresh(ledDevices[k])
      ensures (devices.Some? || Discovery(scan, prefix).Ok?) ==> Settled(ledDevices, requested, stop, r)
      ensures devices.Some? ==>
                forall k :: stop <= k < |ledDevices| ==> ledDevices[k].writeChar == old(devices.value[k].writeChar)
      ensures devices.None? && Discovery(scan, prefix).Ok? ==>
                forall k :: stop <= k < |ledDevices| ==> ledDevices[k].writeChar.None?
    {
      if devices.Some? {
        ledDevices := devices.value;
      } else {
        var found := DeviceDiscovery(scan);
        if found.Err? {
          return Err(found.error), 0;
        }
        ledDevices := found.value;
      }
      r, stop := AttachAll(requested);
    }
  }
}
