/** packet_handler of src/kernel/bluetooth.c during a one-shot scan, filling its slots in place. */
module Bt {
  import opened Bytes
  import opened BtScan
  import BtFields

  /**
   set_name on a name that is still empty, byte by byte.  seen collects what a reader without
   a lock can find there: an empty name, or the whole new one.
   */
  method SetNameBytes(name: array<Byte>, src: seq<Byte>) returns (ghost seen: seq<seq<Byte>>)
    requires name.Length == NAME_LEN && name[0] == 0
    modifies name
    ensures name[..] == SetName(old(name[..]), src)
    ensures forall s :: s in seen ==> |s| == NAME_LEN && (s[0] == 0 || s == name[..])
    ensures src != [] ==> seen != [] && seen[|seen| - 1] == name[..]
  {
    seen := [];
    ghost var before := name[..];
    var len := |src|;
    if len > NAME_LEN - 1 {
      len := NAME_LEN - 1;
    }
    if len == 0 {
      return;
    }
    var k := 1;
    while k < len
      invariant 1 <= k <= len
      invariant name[0] == 0
      invariant forall j :: 1 <= j < NAME_LEN ==> name[j] == if j < k then src[j] else before[j]
      invariant forall s :: s in seen ==> |s| == NAME_LEN && s[0] == 0
    {
      name[k] := src[k];
      seen := seen + [name[..]];
      k := k + 1;
    }
    name[len] := 0;
    seen := seen + [name[..]];
    name[0] := src[0];
    assert name[..] == SetName(before, src);
    seen := seen + [name[..]];
  }

  /** What a reader without a lock copies out of a data field: the ID, the length and the bytes. */
  datatype Snapshot = Snapshot(id: nat, len: nat, bytes: seq<Byte>)

  /** Service or manufacturer data and the UUID or company ID that says it is there. */
  class DataField {
    const bytes: array<Byte>
    var len: nat
    var id: nat

    constructor (max: nat, none: nat)
      ensures Shows(none, []) && fresh(bytes) && bytes.Length == max
    {
      bytes := new Byte[max](_ => 0);
      len := 0;
      id := none;
    }

    ghost predicate Shows(id: nat, data: seq<Byte>)
      reads this, bytes
    {
      this.id == id && len == |data| && len <= bytes.Length && bytes[..len] == data
    }

    ghost function Now(): Snapshot
      reads this, bytes
    {
      Snapshot(id, len, bytes[..])
    }

    /** set_bytes: the bytes one by one, then the length. */
    method SetBytes(src: seq<Byte>) returns (ghost seen: seq<Snapshot>)
      modifies this`len, bytes
      ensures Shows(old(id), Clip(src, bytes.Length))
      ensures forall v :: v in seen ==> v.id == id
    {
      seen := [];
      var n := |src|;
      if n > bytes.Length {
        n := bytes.Length;
      }
      var k := 0;
      while k < n
        invariant 0 <= k <= n
        invariant forall j :: 0 <= j < k ==> bytes[j] == src[j]
        invariant forall v :: v in seen ==> v.id == id
      {
        bytes[k] := src[k];
        seen := seen + [Now()];
        k := k + 1;
      }
      len := n;
      seen := seen + [Now()];
    }

    /** set_bytes, and after the barrier the ID. */
    method Announce(id': nat, src: seq<Byte>) returns (ghost seen: seq<Snapshot>)
      modifies this, bytes
      ensures Shows(id', Clip(src, bytes.Length))
      ensures forall v :: v in seen ==> v.id == old(id) || v == Now()
      ensures seen != [] && seen[|seen| - 1] == Now()
    {
      seen := SetBytes(src);
      id := id';
      seen := seen + [Now()];
    }
  }

  /** A reader that finds an ID finds the data it announces, whole. */
  ghost predicate WholeIfThere(seen: seq<Snapshot>, none: nat, data: seq<Byte>) {
    forall v :: v in seen && v.id != none ==> v.len == |data| && v.len <= |v.bytes| && v.bytes[..v.len] == data
  }

  /**
   Service data (type 0x16), store by store.  On a slot that is being watched nothing is overwritten,
   and no reader ever takes half-written data for data.
   */
  method StoreServiceData(f: DataField, ghost d: Device, b: seq<Byte>, ghost rsp: bool, fillOnly: bool)
    returns (ghost seen: seq<Snapshot>)
    requires f.bytes.Length == SVC_DATA_LEN && f.Shows(d.svcUuid, d.svcData)
    modifies f, f.bytes
    ensures var r := ExtractAd(d, Ad(0x16, b), rsp, fillOnly); f.Shows(r.svcUuid, r.svcData)
    ensures fillOnly && d.svcUuid != SERVICE_NONE ==> seen == []
    ensures d.svcUuid == SERVICE_NONE ==>
              WholeIfThere(seen, SERVICE_NONE, ExtractAd(d, Ad(0x16, b), rsp, fillOnly).svcData)
  {
    seen := [];
    if |b| >= 2 {
      var uuid := Value(b[..2]);
      if f.id == SERVICE_NONE || (!fillOnly && uuid == f.id) {
        seen := f.Announce(uuid, b[2..]);
      }
    }
  }

  /** Manufacturer data (type 0xFF), in the same way. */
  method StoreManufacturerData(f: DataField, ghost d: Device, b: seq<Byte>, rsp: bool, fillOnly: bool)
    returns (ghost seen: seq<Snapshot>)
    requires f.bytes.Length == MFR_DATA_LEN && f.Shows(d.companyId, d.mfrData)
    modifies f, f.bytes
    ensures var r := ExtractAd(d, Ad(0xFF, b), rsp, fillOnly); f.Shows(r.companyId, r.mfrData)
    ensures fillOnly && d.companyId != COMPANY_NONE ==> seen == []
    ensures d.companyId == COMPANY_NONE ==>
              WholeIfThere(seen, COMPANY_NONE, ExtractAd(d, Ad(0xFF, b), rsp, fillOnly).mfrData)
  {
    seen := [];
    if |b| >= 2 && (f.id == COMPANY_NONE || (!rsp && !fillOnly)) {
      seen := f.Announce(Value(b[..2]), b[2..]);
    }
  }

  /** extract_ble_adv_data */
  method ExtractBleAdvData(d: Device, ads: seq<Ad>, rsp: bool, fillOnly: bool) returns (r: Device)
    ensures r == Extract(d, ads, rsp, fillOnly)
    ensures if fillOnly then BtFields.FillsUnknown(d, ads, r) else BtFields.Collects(d, ads, rsp, r)
  {
    BtFields.FillsAll(d, ads, rsp);
    BtFields.CollectsAll(d, ads, rsp);
    r := d;
    var i := 0;
    while i < |ads|
      invariant 0 <= i <= |ads|
      invariant Extract(d, ads, rsp, fillOnly) == Extract(r, ads[i..], rsp, fillOnly)
    {
      assert ads[i..][0] == ads[i] && ads[i..][1..] == ads[i + 1..];
      r := ExtractAd(r, ads[i], rsp, fillOnly);
      i := i + 1;
    }
  }

  /** g_scan and g_scan_count. */
  class ScanResults {
    const slots: array<Device>
    var count: nat

    ghost predicate Sized()
      reads this
    {
      slots.Length == MAX_RESULTS && count <= MAX_RESULTS
    }

    ghost predicate Valid()
      reads this, slots
    {
      Sized() && OneSlotEach(Items()) && forall i :: 0 <= i < |Items()| ==> EntryOk(Items()[i])
    }

    /** What a reader sees: the first count slots. */
    ghost function Items(): seq<Device>
      requires Sized()
      reads this, slots
    {
      slots[..count]
    }

    /** bt_scan resets the list. */
    constructor ()
      ensures Valid() && Items() == [] && fresh(slots)
    {
      slots := new Device[MAX_RESULTS](_ => SlotInit(0, Ble, 0));
      count := 0;
    }

    /** find_slot_by_addr */
    method FindSlotByAddr(addr: nat) returns (i: int)
      requires Sized()
      ensures FindSlot(Items(), addr) == if i < 0 then count else i
      ensures -1 <= i < count
    {
      i := 0;
      while i < count
        invariant 0 <= i <= count
        invariant forall k :: 0 <= k < i ==> Items()[k].addr != addr
      {
        if slots[i].addr == addr {
          return;
        }
        i := i + 1;
      }
      i := -1;
    }

    /** next_slot and publish_slot around a slot that has been filled completely first. */
    method Publish(d: Device)
      requires Sized()
      modifies this, slots
      ensures Sized() && Items() == Appended(old(Items()), d)
    {
      if count < MAX_RESULTS {
        slots[count] := d;
        count := count + 1;
      }
    }

    method Update(i: nat, d: Device)
      requires Sized() && i < count
      modifies slots
      ensures Items() == old(Items())[i := d]
    {
      slots[i] := d;
    }

    /** packet_handler for the three events that touch the list. */
    method PacketHandler(e: Event)
      requires Valid()
      modifies this, slots
      ensures Valid() && Items() == Handle(old(Items()), e)
      ensures BtFields.Shows(old(Items()), e, Items())
      ensures Continues(old(Items()), Items())
    {
      BtFields.HandleShows(Items(), e);
      EventContinues(Items(), e);
      EventKeepsOk(Items(), e);
      Dispatch(e);
    }

    method Dispatch(e: Event)
      requires Sized()
      modifies this, slots
      ensures Sized() && Items() == Handle(old(Items()), e)
    {
      var dup := FindSlotByAddr(e.addr);
      match e
      case Inquiry(_, rssi, cod, deviceId, name) =>
        var strength := if rssi.Some? then rssi.value else -127;
        if dup >= 0 {
          var d := slots[dup];
          if strength != -127 {
            d := d.(rssi := strength);
          }
          Update(dup, CountReport(d));
        } else {
          var d := SlotInit(e.addr, Classic, strength).(classOfDevice := cod, devClass := ClassOf(cod));
          if deviceId.Some? {
            d := d.(deviceId := deviceId.value);
          }
          if name.Some? {
            d := d.(name := SetName(d.name, name.value));
          }
          Publish(d);
        }
      case RemoteName(_, name) =>
        if dup >= 0 {
          var d := slots[dup];
          if name.Some? && d.name[0] == 0 {
            d := d.(name := SetName(d.name, CName(name.value, 31)));
          }
          Update(dup, d);
        }
      case Advertisement(_, _, _, _, _) =>
        if dup >= 0 {
          var d := Merge(slots[dup], e);
          Update(dup, d);
        } else {
          var d := Fill(e);
          Publish(d);
        }
    }

    /** A repeated advertisement. */
    method Merge(was: Device, e: Event) returns (d: Device)
      requires e.Advertisement?
      ensures d == Merged(was, e)
    {
      var rsp := e.eventType == 4;
      d := was;
      if e.strength != 127 && e.strength != -127 {
        d := d.(rssi := e.strength);
      }
      d := CountReport(d);
      if !rsp && d.advType == ADV_TYPE_NONE {
        d := d.(advType := e.eventType);
      }
      if was.name[0] == 0 {
        d := ExtractBleAdvData(d, e.ads, rsp, true);
      }
    }

    /** The first advertisement of a device, into a slot nobody sees yet. */
    method Fill(e: Event) returns (d: Device)
      requires e.Advertisement?
      ensures d == NewBle(e)
    {
      var rsp := e.eventType == 4;
      d := SlotInit(e.addr, Ble, if e.strength == 127 then -127 else e.strength).(addrType := e.addrType % 2);
      if !rsp {
        d := d.(advType := e.eventType);
      }
      d := ExtractBleAdvData(d, e.ads, rsp, false);
    }
  }
}
