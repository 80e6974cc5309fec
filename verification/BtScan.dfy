/**
 The one-shot scan list of src/kernel/bluetooth.c, filled by packet_handler while readers
 watch it, and the rule src/apps/scantest.c holds it to.
 */
module BtScan {
  import opened Bytes

  const MAX_RESULTS: nat := 20
  const NAME_LEN: nat := 32
  const SVC_DATA_LEN: nat := 16
  const MFR_DATA_LEN: nat := 24

  const RSSI_UNKNOWN: int := -127
  const TX_POWER_UNKNOWN: int := 127
  const FLAGS_NONE: nat := 0xFF
  const COMPANY_NONE: nat := 0xFFFF
  const SERVICE_NONE: nat := 0
  const UUID32_NONE: nat := 0
  const APPEARANCE_NONE: nat := 0
  const ADDR_TYPE_NONE: nat := 0xFF
  const ADV_TYPE_NONE: nat := 0xFF

  type Name = s: seq<Byte> | |s| == NAME_LEN witness seq(NAME_LEN, _ => 0)

  datatype DevType = Classic | Ble

  /** bt_scan_result_t */
  datatype Device = Device(
    addr: nat,
    name: Name,
    rssi: int,
    devType: DevType,
    devClass: nat,
    classOfDevice: nat,
    txPower: int,
    flags: nat,
    companyId: nat,
    serviceUuid: nat,
    addrType: nat,
    advType: nat,
    appearance: nat,
    uuid32: nat,
    pktCount: nat,
    svcUuid: nat,
    svcData: seq<Byte>,
    mfrData: seq<Byte>,
    deviceId: DeviceId)

  datatype DeviceId = DeviceId(source: nat, vendor: nat, product: nat, version: nat)

  /** One structure of advertising data: its type and its bytes (Core Specification Vol 3 Part C section 11). */
  datatype Ad = Ad(kind: nat, data: seq<Byte>)

  datatype Option<T> = None | Some(value: T)

  /** The events that touch the list. */
  datatype Event =
    | Inquiry(addr: nat, rssi: Option<int>, cod: nat, deviceId: Option<DeviceId>, name: Option<seq<Byte>>)
    | RemoteName(addr: nat, name: Option<seq<Byte>>)
    | Advertisement(addr: nat, strength: int, eventType: nat, addrType: nat, ads: seq<Ad>)

  // ---- filling a slot ---------------------------------------------------------------------

  /** set_name */
  function SetName(name: Name, src: seq<Byte>): Name {
    var len := if |src| > NAME_LEN - 1 then NAME_LEN - 1 else |src|;
    if len == 0 then name else src[..len] + [0] + name[len + 1..]
  }

  /** slot_init */
  function SlotInit(addr: nat, devType: DevType, rssi: int): Device {
    Device(addr, seq(NAME_LEN, _ => 0), rssi, devType, 0, 0, TX_POWER_UNKNOWN, FLAGS_NONE, COMPANY_NONE, SERVICE_NONE,
           ADDR_TYPE_NONE, ADV_TYPE_NONE, APPEARANCE_NONE, UUID32_NONE, 1, SERVICE_NONE, [], [], DeviceId(0, 0, 0, 0))
  }

  /** count_report */
  function CountReport(d: Device): Device {
    if d.pktCount != 65535 then d.(pktCount := d.pktCount + 1) else d
  }

  /** cod_to_devclass */
  function ClassOf(cod: nat): (c: nat)
    ensures 1 <= c <= 10
  {
    var major := cod / 256 % 32;
    if 1 <= major <= 9 then major else 10
  }

  function Signed(b: Byte): int {
    if b < 128 then b else b - 256
  }

  /** The first max bytes. */
  function Clip(b: seq<Byte>, max: nat): seq<Byte> {
    if |b| > max then b[..max] else b
  }

  /** extract_ble_adv_data for one structure. */
  function ExtractAd(d: Device, ad: Ad, rsp: bool, fillOnly: bool): Device {
    var b := ad.data;
    if b == [] then d
    else match ad.kind
      case 0x02 => FillService(d, b)
      case 0x03 => FillService(d, b)
      case 0x04 => FillUuid32(d, b, 0)
      case 0x05 => FillUuid32(d, b, 0)
      case 0x06 => FillUuid32(d, b, 12)
      case 0x07 => FillUuid32(d, b, 12)
      case 0x16 =>
        if |b| >= 2 && (d.svcUuid == SERVICE_NONE || (!fillOnly && Value(b[..2]) == d.svcUuid)) then
          d.(svcData := Clip(b[2..], SVC_DATA_LEN), svcUuid := Value(b[..2]))
        else d
      case 0x19 =>
        if |b| >= 2 && (!fillOnly || d.appearance == APPEARANCE_NONE) then d.(appearance := Value(b[..2])) else d
      case 0x08 => FillName(d, b)
      case 0x09 => FillName(d, b)
      case 0x01 => if !fillOnly || d.flags == FLAGS_NONE then d.(flags := b[0]) else d
      case 0x0A => if !fillOnly || d.txPower == TX_POWER_UNKNOWN then d.(txPower := Signed(b[0])) else d
      case 0xFF =>
        if |b| >= 2 && (d.companyId == COMPANY_NONE || (!rsp && !fillOnly)) then
          d.(mfrData := Clip(b[2..], MFR_DATA_LEN), companyId := Value(b[..2]))
        else d
      case _ => d
  }

  function FillService(d: Device, b: seq<Byte>): Device {
    if |b| >= 2 && d.serviceUuid == SERVICE_NONE then d.(serviceUuid := Value(b[..2])) else d
  }

  function FillUuid32(d: Device, b: seq<Byte>, at: nat): Device {
    if |b| >= at + 4 && d.uuid32 == UUID32_NONE then d.(uuid32 := Value(b[at..at + 4])) else d
  }

  function FillName(d: Device, b: seq<Byte>): Device {
    if d.name[0] == 0 then d.(name := SetName(d.name, b)) else d
  }

  /** extract_ble_adv_data */
  function Extract(d: Device, ads: seq<Ad>, rsp: bool, fillOnly: bool): Device
    decreases |ads|
  {
    if ads == [] then d else Extract(ExtractAd(d, ads[0], rsp, fillOnly), ads[1..], rsp, fillOnly)
  }

  // ---- packet_handler, one-shot ----------------------------------------------------------------

  /** find_slot_by_addr, with the number of slots for "not found". */
  function FindSlot(items: seq<Device>, addr: nat): (i: nat)
    ensures i <= |items|
    ensures i < |items| ==> items[i].addr == addr
    ensures forall k :: 0 <= k < i ==> items[k].addr != addr
  {
    if items == [] || items[0].addr == addr then 0 else 1 + FindSlot(items[1..], addr)
  }

  function RssiOr(rssi: int, before: int): int {
    if rssi != RSSI_UNKNOWN then rssi else before
  }

  /** A repeated report: newer signal strength, one more report. */
  function Refreshed(d: Device, rssi: int): Device {
    CountReport(d.(rssi := RssiOr(rssi, d.rssi)))
  }

  /** HCI reports 127 when it has no reading. */
  function AdvRssi(rssi: int): int {
    if rssi == 127 then RSSI_UNKNOWN else rssi
  }

  function InquiryRssi(rssi: Option<int>): int {
    if rssi.Some? then rssi.value else RSSI_UNKNOWN
  }

  /** A new Classic slot, before it is published. */
  function NewClassic(e: Event): Device
    requires e.Inquiry?
  {
    var d := SlotInit(e.addr, Classic, InquiryRssi(e.rssi)).(classOfDevice := e.cod, devClass := ClassOf(e.cod));
    var d1 := if e.deviceId.Some? then d.(deviceId := e.deviceId.value) else d;
    if e.name.Some? then d1.(name := SetName(d1.name, e.name.value)) else d1
  }

  /** A new BLE slot, before it is published. */
  function NewBle(e: Event): Device
    requires e.Advertisement?
  {
    var rsp := e.eventType == 4;
    var d := SlotInit(e.addr, Ble, AdvRssi(e.strength)).(addrType := e.addrType % 2);
    Extract(if rsp then d else d.(advType := e.eventType), e.ads, rsp, false)
  }

  /** A repeated advertisement merges into a published slot, filling only what is unknown. */
  function Merged(d: Device, e: Event): Device
    requires e.Advertisement?
  {
    var rsp := e.eventType == 4;
    var d1 := Refreshed(d, AdvRssi(e.strength));
    var d2 := if !rsp && d1.advType == ADV_TYPE_NONE then d1.(advType := e.eventType) else d1;
    if d.name[0] == 0 then Extract(d2, e.ads, rsp, true) else d2
  }

  /** The name a remote name reply sets: up to its NUL or 31 bytes. */
  function CName(b: seq<Byte>, max: nat): (r: seq<Byte>)
    ensures |r| <= max
    decreases max
  {
    if b == [] || b[0] == 0 || max == 0 then [] else [b[0]] + CName(b[1..], max - 1)
  }

  function Named(d: Device, name: Option<seq<Byte>>): Device {
    if name.Some? && d.name[0] == 0 then d.(name := SetName(d.name, CName(name.value, NAME_LEN - 1))) else d
  }

  function Appended(items: seq<Device>, d: Device): seq<Device> {
    if |items| < MAX_RESULTS then items + [d] else items
  }

  /** The list after one event. */
  function Handle(items: seq<Device>, e: Event): seq<Device> {
    var i := FindSlot(items, e.addr);
    match e
    case Inquiry(_, rssi, _, _, _) =>
      if i < |items| then items[i := Refreshed(items[i], InquiryRssi(rssi))] else Appended(items, NewClassic(e))
    case RemoteName(_, name) =>
      if i < |items| then items[i := Named(items[i], name)] else items
    case Advertisement(_, _, _, _, _) =>
      if i < |items| then items[i := Merged(items[i], e)] else Appended(items, NewBle(e))
  }

  function HandleAll(items: seq<Device>, es: seq<Event>): seq<Device>
    decreases |es|
  {
    if es == [] then items else HandleAll(Handle(items, es[0]), es[1..])
  }

  // ---- the rule ------------------------------------------------------------------------------------

  /** An optional field: unchanged, or filled for the first time. */
  predicate FilledOnce<T(==)>(was: T, now: T, none: T) {
    was == now || was == none
  }

  /**
   What scantest asks of two snapshots of a slot, and a little more: once a service UUID or a
   company ID is there, the data it announces does not change either.
   */
  predicate SameDevice(a: Device, b: Device) {
    && a.addr == b.addr && a.devType == b.devType && a.devClass == b.devClass && a.classOfDevice == b.classOfDevice
    && a.addrType == b.addrType && a.deviceId == b.deviceId
    && FilledOnce(a.txPower, b.txPower, TX_POWER_UNKNOWN)
    && FilledOnce(a.flags, b.flags, FLAGS_NONE)
    && FilledOnce(a.companyId, b.companyId, COMPANY_NONE)
    && FilledOnce(a.serviceUuid, b.serviceUuid, SERVICE_NONE)
    && FilledOnce(a.uuid32, b.uuid32, UUID32_NONE)
    && FilledOnce(a.svcUuid, b.svcUuid, SERVICE_NONE)
    && FilledOnce(a.appearance, b.appearance, APPEARANCE_NONE)
    && FilledOnce(a.advType, b.advType, ADV_TYPE_NONE)
    && (a.name[0] != 0 ==> a.name == b.name)
    && (a.svcUuid != SERVICE_NONE ==> a.svcData == b.svcData)
    && (a.companyId != COMPANY_NONE ==> a.mfrData == b.mfrData)
  }

  /** So each field changes at most once: the value it gets is the value it keeps. */
  lemma ChangesAtMostOnce<T>(first: T, second: T, third: T, none: T)
    requires FilledOnce(first, second, none) && FilledOnce(second, third, none)
    ensures first != second ==> second == third
    ensures FilledOnce(first, third, none)
  {
  }

  lemma SameIsTransitive(a: Device, b: Device, c: Device)
    requires SameDevice(a, b) && SameDevice(b, c)
    ensures SameDevice(a, c)
  {
  }

  /** One structure of arbitrary advertising data keeps the rule on a published slot. */
  lemma ExtractAdFillsOnce(d: Device, ad: Ad, rsp: bool)
    ensures SameDevice(d, ExtractAd(d, ad, rsp, true))
  {
  }

  lemma {:induction false} ExtractFillsOnce(d: Device, ads: seq<Ad>, rsp: bool)
    ensures SameDevice(d, Extract(d, ads, rsp, true))
    decreases |ads|
  {
    if ads != [] {
      var next := ExtractAd(d, ads[0], rsp, true);
      ExtractAdFillsOnce(d, ads[0], rsp);
      ExtractFillsOnce(next, ads[1..], rsp);
      SameIsTransitive(d, next, Extract(next, ads[1..], rsp, true));
    }
  }

  lemma MergedFillsOnce(d: Device, e: Event)
    requires e.Advertisement?
    ensures SameDevice(d, Merged(d, e))
  {
    var rsp := e.eventType == 4;
    var d1 := Refreshed(d, AdvRssi(e.strength));
    var d2 := if !rsp && d1.advType == ADV_TYPE_NONE then d1.(advType := e.eventType) else d1;
    ExtractFillsOnce(d2, e.ads, rsp);
    assert SameDevice(d, d2);
    if d.name[0] == 0 {
      SameIsTransitive(d, d2, Extract(d2, e.ads, rsp, true));
    }
  }

  /** later continues earlier: slots are only added, and kept slots keep the rule. */
  ghost predicate Continues(earlier: seq<Device>, later: seq<Device>) {
    |earlier| <= |later| && forall i :: 0 <= i < |earlier| ==> SameDevice(earlier[i], later[i])
  }

  ghost predicate OneSlotEach(items: seq<Device>) {
    |items| <= MAX_RESULTS && forall i, j :: 0 <= i < j < |items| ==> items[i].addr != items[j].addr
  }

  lemma {:induction false} ExtractKeepsAddr(d: Device, ads: seq<Ad>, rsp: bool, fillOnly: bool)
    ensures Extract(d, ads, rsp, fillOnly).addr == d.addr
    decreases |ads|
  {
    if ads != [] {
      ExtractKeepsAddr(ExtractAd(d, ads[0], rsp, fillOnly), ads[1..], rsp, fillOnly);
    }
  }

  lemma NewAddr(e: Event)
    ensures e.Inquiry? ==> NewClassic(e).addr == e.addr
    ensures e.Advertisement? ==> NewBle(e).addr == e.addr
  {
    if e.Advertisement? {
      var d := SlotInit(e.addr, Ble, AdvRssi(e.strength)).(addrType := e.addrType % 2);
      ExtractKeepsAddr(if e.eventType == 4 then d else d.(advType := e.eventType), e.ads, e.eventType == 4, false);
    }
  }

  lemma EventContinues(items: seq<Device>, e: Event)
    requires OneSlotEach(items)
    ensures Continues(items, Handle(items, e)) && OneSlotEach(Handle(items, e))
  {
    var i := FindSlot(items, e.addr);
    NewAddr(e);
    if e.Advertisement? && i < |items| {
      MergedFillsOnce(items[i], e);
    }
  }

  lemma ContinuesIsTransitive(a: seq<Device>, b: seq<Device>, c: seq<Device>)
    requires Continues(a, b) && Continues(b, c)
    ensures Continues(a, c)
  {
    forall i | 0 <= i < |a|
      ensures SameDevice(a[i], c[i])
    {
      SameIsTransitive(a[i], b[i], c[i]);
    }
  }

  /**
   Over every sequence of events with arbitrary advertising data: the list only grows, has one
   slot per address, and every field of every slot is filled at most once.
   */
  lemma {:induction false} ScanFillsOnce(items: seq<Device>, es: seq<Event>)
    requires OneSlotEach(items)
    ensures Continues(items, HandleAll(items, es)) && OneSlotEach(HandleAll(items, es))
    decreases |es|
  {
    if es != [] {
      var next := Handle(items, es[0]);
      EventContinues(items, es[0]);
      ScanFillsOnce(next, es[1..]);
      ContinuesIsTransitive(items, next, HandleAll(next, es[1..]));
    }
  }

  // ---- well-formed entries --------------------------------------------------------------------------

  /** bt_entry_ok, apart from the address the radio reports. */
  predicate EntryOk(d: Device) {
    d.name[NAME_LEN - 1] == 0 && d.devClass <= 10 && |d.svcData| <= SVC_DATA_LEN && |d.mfrData| <= MFR_DATA_LEN
  }

  lemma {:induction false} ExtractKeepsOk(d: Device, ads: seq<Ad>, rsp: bool, fillOnly: bool)
    requires EntryOk(d)
    ensures EntryOk(Extract(d, ads, rsp, fillOnly))
    decreases |ads|
  {
    if ads != [] {
      ExtractKeepsOk(ExtractAd(d, ads[0], rsp, fillOnly), ads[1..], rsp, fillOnly);
    }
  }

  /** Every entry a reader can see is well formed: a terminated name, a valid class. */
  lemma EventKeepsOk(items: seq<Device>, e: Event)
    requires forall i :: 0 <= i < |items| ==> EntryOk(items[i])
    ensures forall i :: 0 <= i < |Handle(items, e)| ==> EntryOk(Handle(items, e)[i])
  {
    var i := FindSlot(items, e.addr);
    if e.Advertisement? {
      var rsp := e.eventType == 4;
      if i < |items| {
        var d1 := Refreshed(items[i], AdvRssi(e.strength));
        var d2 := if !rsp && d1.advType == ADV_TYPE_NONE then d1.(advType := e.eventType) else d1;
        ExtractKeepsOk(d2, e.ads, rsp, true);
      } else {
        var d := SlotInit(e.addr, Ble, AdvRssi(e.strength)).(addrType := e.addrType % 2);
        ExtractKeepsOk(if rsp then d else d.(advType := e.eventType), e.ads, rsp, false);
      }
    }
  }

  /** The event takes a new slot. */
  predicate TakesSlot(items: seq<Device>, e: Event) {
    !e.RemoteName? && FindSlot(items, e.addr) == |items| && |items| < MAX_RESULTS
  }

  /** bt_entry_ok holds of every visible entry. */
  ghost predicate AllPass(items: seq<Device>) {
    forall i :: 0 <= i < |items| ==> EntryOk(items[i]) && items[i].addr != 0
  }

  /** An event keeps bt_entry_ok true of every entry exactly when it opens no slot for address 0. */
  lemma EventPassesIff(items: seq<Device>, e: Event)
    requires OneSlotEach(items) && AllPass(items)
    ensures AllPass(Handle(items, e)) <==> (TakesSlot(items, e) ==> e.addr != 0)
  {
    var after := Handle(items, e);
    EventKeepsOk(items, e);
    EventContinues(items, e);
    NewAddr(e);
    forall i | 0 <= i < |items|
      ensures after[i].addr == items[i].addr
    {
      assert SameDevice(items[i], after[i]);
    }
    if TakesSlot(items, e) {
      assert after[|items|].addr == e.addr;
    }
  }
}
