/**
 * The device bus behind the `Device` trait of src/lib.rs. A device is seen only through its
 * inclusive address range; what it returns on a load is supplied from outside (a
 * `DeviceReader`), and what it is sent on a store is recorded in a push log.
 */
module Bus {
  import opened Results
  import opened Words

  /** `get_address_space()`: the inclusive range `[min, max]` the device answers to. */
  datatype Device = Device(min: Word, max: Word) {
    /** `(min..=max).contains(&addr)` */
    predicate Contains(addr: int) {
      min <= addr <= max
    }
  }

  /** One call `device.push(address, value)` on the device at index `device` of the list. */
  datatype Push = Push(device: nat, address: Word, value: Word)

  /** What `devices[i].load(address)` returns, for device index `i`. */
  type DeviceReader = (nat, Word) -> Word

  /** The index of the last device in list order whose range contains `addr`. */
  function LastMatch(devices: seq<Device>, addr: Word): (r: Option<nat>)
    ensures r.Some? ==> r.value < |devices| && devices[r.value].Contains(addr)
    ensures r.Some? ==> forall k :: r.value < k < |devices| ==> !devices[k].Contains(addr)
    ensures r.None? <==> forall k :: 0 <= k < |devices| ==> !devices[k].Contains(addr)
  {
    if devices == [] then None
    else
      var last := |devices| - 1;
      if devices[last].Contains(addr) then Some(last) else LastMatch(devices[..last], addr)
  }

  /** The value a device-region load yields: that of the last containing device, if any. */
  function DeviceLoad(devices: seq<Device>, reader: DeviceReader, addr: Word): (v: Option<Word>)
    ensures v.None? <==> forall k :: 0 <= k < |devices| ==> !devices[k].Contains(addr)
    ensures v.Some? ==>
      (exists k :: 0 <= k < |devices| && devices[k].Contains(addr) && v.value == reader(k, addr) &&
         (forall j :: k < j < |devices| ==> !devices[j].Contains(addr)))
  {
    match LastMatch(devices, addr)
    case None => None
    case Some(i) => Some(reader(i, addr))
  }

  /** The pushes a device-region store performs: one per containing device, in list order. */
  function DevicePushes(devices: seq<Device>, addr: Word, val: Word): (ps: seq<Push>)
    ensures forall i :: 0 <= i < |ps| ==>
      ps[i].device < |devices| && devices[ps[i].device].Contains(addr) && ps[i].address == addr && ps[i].value == val
    ensures forall i, j :: 0 <= i < j < |ps| ==> ps[i].device < ps[j].device
    ensures forall k :: 0 <= k < |devices| && devices[k].Contains(addr) ==>
      exists i :: 0 <= i < |ps| && ps[i].device == k
  {
    if devices == [] then []
    else
      var last := |devices| - 1;
      var earlier := DevicePushes(devices[..last], addr, val);
      assert forall k :: 0 <= k < last ==> devices[..last][k] == devices[k];
      if devices[last].Contains(addr) then
        var ps := earlier + [Push(last, addr, val)];
        assert ps[|ps| - 1].device == last;
        assert forall i :: 0 <= i < |earlier| ==> ps[i] == earlier[i];
        ps
      else earlier
  }

  /** A store reaches some device exactly when a load at the same address is answered. */
  lemma DevicePushesEmpty(devices: seq<Device>, addr: Word, val: Word)
    ensures DevicePushes(devices, addr, val) == [] <==> LastMatch(devices, addr).None?
  {
    var ps := DevicePushes(devices, addr, val);
    if ps != [] {
      assert devices[ps[0].device].Contains(addr);
    }
    match LastMatch(devices, addr)
    case None =>
    case Some(k) =>
      var i :| 0 <= i < |ps| && ps[i].device == k;
  }

  /** When exactly one device `k` contains `addr`, a store reaches it alone and a load answers `reader(k, addr)`. */
  lemma {:induction false} SingleOwner(devices: seq<Device>, reader: DeviceReader, addr: Word, val: Word, k: nat)
    requires k < |devices| && devices[k].Contains(addr)
    requires forall j :: 0 <= j < |devices| && j != k ==> !devices[j].Contains(addr)
    ensures DevicePushes(devices, addr, val) == [Push(k, addr, val)]
    ensures DeviceLoad(devices, reader, addr) == Some(reader(k, addr))
  {
    var last := |devices| - 1;
    var earlier := devices[..last];
    assert forall j :: 0 <= j < last ==> earlier[j] == devices[j];
    if last == k {
      DevicePushesEmpty(earlier, addr, val);
    } else {
      assert !devices[last].Contains(addr);
      SingleOwner(earlier, reader, addr, val, k);
    }
  }
}
