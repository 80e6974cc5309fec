/**
 What one report leaves in the scan list, field by field: which advertising structure, by its
 position in the report, each field of a slot comes from (src/kernel/bluetooth.c).
 */
module BtFields {
  import opened Bytes
  import opened BtScan

  // ---- what one structure says ---------------------------------------------------------------

  /** 16 bits, low byte first. */
  function Le16(b: seq<Byte>): nat
    requires |b| >= 2
  {
    b[0] as nat + 256 * b[1] as nat
  }

  function ServiceOf(ad: Ad): Option<nat> {
    if ad.kind in {0x02, 0x03} && |ad.data| >= 2 then Some(Le16(ad.data)) else None
  }

  /** A 32-bit UUID, or the top 32 bits of a 128-bit one. */
  function Uuid32Of(ad: Ad): Option<nat> {
    var b := ad.data;
    if ad.kind in {0x04, 0x05} && |b| >= 4 then Some(Le16(b) + 65536 * Le16(b[2..]))
    else if ad.kind in {0x06, 0x07} && |b| >= 16 then Some(Le16(b[12..]) + 65536 * Le16(b[14..]))
    else None
  }

  function AppearanceOf(ad: Ad): Option<nat> {
    if ad.kind == 0x19 && |ad.data| >= 2 then Some(Le16(ad.data)) else None
  }

  function FlagsOf(ad: Ad): Option<nat> {
    if ad.kind == 0x01 && ad.data != [] then Some(ad.data[0]) else None
  }

  function TxPowerOf(ad: Ad): Option<int> {
    if ad.kind == 0x0A && ad.data != [] then Some((ad.data[0] as nat + 128) % 256 - 128) else None
  }

  /** A UUID or company ID and as many of the bytes behind it as a slot holds. */
  function DataOf(ad: Ad, kind: nat, max: nat): Option<(nat, seq<Byte>)> {
    if ad.kind == kind && |ad.data| >= 2 then
      Some((Le16(ad.data), ad.data[2..if |ad.data| > 2 + max then 2 + max else |ad.data|]))
    else None
  }

  function ServiceDataOf(ad: Ad): Option<(nat, seq<Byte>)> {
    DataOf(ad, 0x16, 16)
  }

  function CompanyOf(ad: Ad): Option<(nat, seq<Byte>)> {
    DataOf(ad, 0xFF, 24)
  }

  /** The data announced for one service UUID. */
  function DataFor(ad: Ad, uuid: nat): Option<seq<Byte>> {
    if ServiceDataOf(ad).Some? && ServiceDataOf(ad).value.0 == uuid then Some(ServiceDataOf(ad).value.1) else None
  }

  /** A shortened or complete local name that is not empty. */
  predicate IsName(ad: Ad) {
    ad.kind in {0x08, 0x09} && ad.data != [] && ad.data[0] != 0
  }

  function ServiceIdOf(ad: Ad): Option<nat> {
    if ServiceDataOf(ad).Some? then Some(ServiceDataOf(ad).value.0) else None
  }

  // ---- known and unknown ----------------------------------------------------------------------

  predicate NotZero(v: nat) {
    v != 0
  }

  predicate HasFlags(v: nat) {
    v != 0xFF
  }

  predicate HasPower(v: int) {
    v != 127
  }

  predicate HasUuid(u: (nat, seq<Byte>)) {
    u.0 != 0
  }

  predicate HasCompany(c: (nat, seq<Byte>)) {
    c.0 != 0xFFFF
  }

  // ---- by position ------------------------------------------------------------------------------

  /** The last structure that gives a value sets it. */
  ghost predicate LastOf<T(!new)>(read: Ad -> Option<T>, ads: seq<Ad>, was: T, now: T) {
    || (now == was && forall k :: 0 <= k < |ads| ==> read(ads[k]).None?)
    || exists k :: 0 <= k < |ads| && read(ads[k]) == Some(now) && forall j :: k < j < |ads| ==> read(ads[j]).None?
  }

  /** None of the first n structures gives a value that counts. */
  ghost predicate NoneGives<T(!new)>(read: Ad -> Option<T>, known: T -> bool, ads: seq<Ad>, n: nat)
    requires n <= |ads|
  {
    forall k :: 0 <= k < n && read(ads[k]).Some? ==> !known(read(ads[k]).value)
  }

  /** A value that is known stays; else the first structure that makes it known sets it for good. */
  ghost predicate FirstOf<T(!new)>(read: Ad -> Option<T>, known: T -> bool, ads: seq<Ad>, was: T, now: T) {
    if known(was) then now == was
    else if NoneGives(read, known, ads, |ads|) then LastOf(read, ads, was, now)
    else known(now) && exists k :: 0 <= k < |ads| && read(ads[k]) == Some(now) && NoneGives(read, known, ads, k)
  }

  /** The name stands at the front, cut at 31 bytes and terminated. */
  predicate Spells(name: Name, b: seq<Byte>) {
    var len := if |b| > 31 then 31 else |b|;
    name[..len] == b[..len] && name[len] == 0
  }

  ghost predicate FirstName(ads: seq<Ad>, was: Name, now: Name) {
    if was[0] != 0 then now == was
    else if forall k :: 0 <= k < |ads| ==> !IsName(ads[k]) then now[0] == 0
    else exists k :: 0 <= k < |ads| && IsName(ads[k]) && Spells(now, ads[k].data)
                     && forall j :: 0 <= j < k ==> !IsName(ads[j])
  }

  /** The fields that a set value always protects: identity and name. */
  ghost predicate FirstFields(d: Device, ads: seq<Ad>, r: Device) {
    && FirstOf(ServiceOf, NotZero, ads, d.serviceUuid, r.serviceUuid)
    && FirstOf(Uuid32Of, NotZero, ads, d.uuid32, r.uuid32)
    && FirstName(ads, d.name, r.name)
  }

  /** A slot nobody sees yet: flags, power and appearance come from the last structure of their type. */
  ghost predicate Collects(d: Device, ads: seq<Ad>, rsp: bool, r: Device) {
    && FirstFields(d, ads, r)
    && LastOf(FlagsOf, ads, d.flags, r.flags)
    && LastOf(TxPowerOf, ads, d.txPower, r.txPower)
    && LastOf(AppearanceOf, ads, d.appearance, r.appearance)
    && FirstOf(ServiceIdOf, NotZero, ads, d.svcUuid, r.svcUuid)
    && LastOf(ad => DataFor(ad, r.svcUuid), ads, d.svcData, r.svcData)
    && (if rsp then FirstOf(CompanyOf, HasCompany, ads, (d.companyId, d.mfrData), (r.companyId, r.mfrData))
        else LastOf(CompanyOf, ads, (d.companyId, d.mfrData), (r.companyId, r.mfrData)))
  }

  /** A slot readers already see: every field comes from the first structure that fills it. */
  ghost predicate FillsUnknown(d: Device, ads: seq<Ad>, r: Device) {
    && FirstFields(d, ads, r)
    && FirstOf(FlagsOf, HasFlags, ads, d.flags, r.flags)
    && FirstOf(TxPowerOf, HasPower, ads, d.txPower, r.txPower)
    && FirstOf(AppearanceOf, NotZero, ads, d.appearance, r.appearance)
    && FirstOf(ServiceDataOf, HasUuid, ads, (d.svcUuid, d.svcData), (r.svcUuid, r.svcData))
    && FirstOf(CompanyOf, HasCompany, ads, (d.companyId, d.mfrData), (r.companyId, r.mfrData))
  }

  /** What one structure does to a field that is only filled, and to one that is overwritten. */
  function Fill<T>(given: Option<T>, known: T -> bool, was: T): T {
    if !known(was) && given.Some? then given.value else was
  }

  function Overwrite<T>(given: Option<T>, was: T): T {
    if given.Some? then given.value else was
  }

  // ---- one structure more in front -----------------------------------------------------------------

  lemma LastOfCons<T(!new)>(read: Ad -> Option<T>, ads: seq<Ad>, was: T, next: T, now: T)
    requires ads != [] && next == Overwrite(read(ads[0]), was)
    requires LastOf(read, ads[1..], next, now)
    ensures LastOf(read, ads, was, now)
  {
  }

  lemma FirstOfCons<T(!new)>(read: Ad -> Option<T>, known: T -> bool, ads: seq<Ad>, was: T, next: T, now: T)
    requires ads != [] && next == Fill(read(ads[0]), known, was)
    requires FirstOf(read, known, ads[1..], next, now)
    ensures FirstOf(read, known, ads, was, now)
  {
  }

  lemma FirstNameCons(ads: seq<Ad>, was: Name, next: Name, now: Name)
    requires ads != []
    requires if was[0] == 0 && IsName(ads[0]) then next[0] != 0 && Spells(next, ads[0].data)
             else (was[0] == 0 <==> next[0] == 0) && (was[0] != 0 ==> next == was)
    requires FirstName(ads[1..], next, now)
    ensures FirstName(ads, was, now)
  {
  }

  // ---- one field of all structures ---------------------------------------------------------------

  /** A field each structure overwrites is the last one's. */
  lemma {:induction false} LastByPosition<T(!new)>(get: Device -> T, read: Ad -> Option<T>,
                                                   d: Device, ads: seq<Ad>, rsp: bool, fillOnly: bool)
    requires forall x, ad :: get(ExtractAd(x, ad, rsp, fillOnly)) == Overwrite(read(ad), get(x))
    ensures LastOf(read, ads, get(d), get(Extract(d, ads, rsp, fillOnly)))
    decreases |ads|
  {
    if ads != [] {
      var next := ExtractAd(d, ads[0], rsp, fillOnly);
      LastByPosition(get, read, next, ads[1..], rsp, fillOnly);
      LastOfCons(read, ads, get(d), get(next), get(Extract(d, ads, rsp, fillOnly)));
    }
  }

  /** A field that is only filled is the first one's. */
  lemma {:induction false} FirstByPosition<T(!new)>(get: Device -> T, read: Ad -> Option<T>, known: T -> bool,
                                                    d: Device, ads: seq<Ad>, rsp: bool, fillOnly: bool)
    requires forall x, ad :: get(ExtractAd(x, ad, rsp, fillOnly)) == Fill(read(ad), known, get(x))
    ensures FirstOf(read, known, ads, get(d), get(Extract(d, ads, rsp, fillOnly)))
    decreases |ads|
  {
    if ads != [] {
      var next := ExtractAd(d, ads[0], rsp, fillOnly);
      FirstByPosition(get, read, known, next, ads[1..], rsp, fillOnly);
      FirstOfCons(read, known, ads, get(d), get(next), get(Extract(d, ads, rsp, fillOnly)));
    }
  }

  lemma ValueOfTwo(b: seq<Byte>)
    requires |b| >= 2
    ensures Value(b[..2]) == Le16(b)
  {
    assert b[..2][1..] == [b[1]];
    assert Value([b[1]]) == b[1] as nat + 256 * Value([]);
  }

  lemma ValueOfFour(b: seq<Byte>, at: nat)
    requires |b| >= at + 4
    ensures Value(b[at..at + 4]) == Le16(b[at..]) + 65536 * Le16(b[at + 2..])
  {
    WordValue(b[at..at + 4]);
  }

  lemma ServiceStep(x: Device, ad: Ad, rsp: bool, fillOnly: bool)
    ensures ExtractAd(x, ad, rsp, fillOnly).serviceUuid == Fill(ServiceOf(ad), NotZero, x.serviceUuid)
  {
    if |ad.data| >= 2 {
      ValueOfTwo(ad.data);
    }
  }

  lemma Uuid32Step(x: Device, ad: Ad, rsp: bool, fillOnly: bool)
    ensures ExtractAd(x, ad, rsp, fillOnly).uuid32 == Fill(Uuid32Of(ad), NotZero, x.uuid32)
  {
    var b := ad.data;
    if |b| >= 4 {
      ValueOfFour(b, 0);
      assert b[0..] == b;
    }
    if |b| >= 16 {
      ValueOfFour(b, 12);
    }
  }

  lemma NumbersStep(x: Device, ad: Ad, rsp: bool)
    ensures var r := ExtractAd(x, ad, rsp, true);
            && r.flags == Fill(FlagsOf(ad), HasFlags, x.flags)
            && r.txPower == Fill(TxPowerOf(ad), HasPower, x.txPower)
            && r.appearance == Fill(AppearanceOf(ad), NotZero, x.appearance)
    ensures var r := ExtractAd(x, ad, rsp, false);
            && r.flags == Overwrite(FlagsOf(ad), x.flags)
            && r.txPower == Overwrite(TxPowerOf(ad), x.txPower)
            && r.appearance == Overwrite(AppearanceOf(ad), x.appearance)
  {
    if |ad.data| >= 2 {
      ValueOfTwo(ad.data);
    }
  }

  lemma ClipIs(b: seq<Byte>, max: nat)
    requires |b| >= 2
    ensures Clip(b[2..], max) == b[2..if |b| > 2 + max then 2 + max else |b|]
  {
  }

  lemma CompanyStep(x: Device, ad: Ad, rsp: bool, fillOnly: bool)
    ensures var r := ExtractAd(x, ad, rsp, fillOnly);
            (r.companyId, r.mfrData)
            == if rsp || fillOnly then Fill(CompanyOf(ad), HasCompany, (x.companyId, x.mfrData))
               else Overwrite(CompanyOf(ad), (x.companyId, x.mfrData))
  {
    if |ad.data| >= 2 {
      ValueOfTwo(ad.data);
      ClipIs(ad.data, 24);
    }
  }

  lemma ServiceDataStep(x: Device, ad: Ad, rsp: bool)
    ensures var r := ExtractAd(x, ad, rsp, true);
            (r.svcUuid, r.svcData) == Fill(ServiceDataOf(ad), HasUuid, (x.svcUuid, x.svcData))
    ensures var r := ExtractAd(x, ad, rsp, false);
            && r.svcUuid == Fill(ServiceIdOf(ad), NotZero, x.svcUuid)
            && r.svcData == Overwrite(DataFor(ad, r.svcUuid), x.svcData)
  {
    if |ad.data| >= 2 {
      ValueOfTwo(ad.data);
      ClipIs(ad.data, 16);
    }
  }

  lemma NameStep(x: Device, ad: Ad, rsp: bool, fillOnly: bool)
    ensures var now := ExtractAd(x, ad, rsp, fillOnly).name;
            if x.name[0] == 0 && IsName(ad) then now[0] != 0 && Spells(now, ad.data)
            else (x.name[0] == 0 <==> now[0] == 0) && (x.name[0] != 0 ==> now == x.name)
  {
  }

  // ---- all structures ------------------------------------------------------------------------------

  lemma ServiceFirst(d: Device, ads: seq<Ad>, rsp: bool, fillOnly: bool)
    ensures FirstOf(ServiceOf, NotZero, ads, d.serviceUuid, Extract(d, ads, rsp, fillOnly).serviceUuid)
  {
    var get := (x: Device) => x.serviceUuid;
    forall x, ad
      ensures get(ExtractAd(x, ad, rsp, fillOnly)) == Fill(ServiceOf(ad), NotZero, get(x))
    {
      ServiceStep(x, ad, rsp, fillOnly);
    }
    FirstByPosition(get, ServiceOf, NotZero, d, ads, rsp, fillOnly);
  }

  lemma Uuid32First(d: Device, ads: seq<Ad>, rsp: bool, fillOnly: bool)
    ensures FirstOf(Uuid32Of, NotZero, ads, d.uuid32, Extract(d, ads, rsp, fillOnly).uuid32)
  {
    var get := (x: Device) => x.uuid32;
    forall x, ad
      ensures get(ExtractAd(x, ad, rsp, fillOnly)) == Fill(Uuid32Of(ad), NotZero, get(x))
    {
      Uuid32Step(x, ad, rsp, fillOnly);
    }
    FirstByPosition(get, Uuid32Of, NotZero, d, ads, rsp, fillOnly);
  }

  lemma {:induction false} NameFirst(d: Device, ads: seq<Ad>, rsp: bool, fillOnly: bool)
    ensures FirstName(ads, d.name, Extract(d, ads, rsp, fillOnly).name)
    decreases |ads|
  {
    if ads != [] {
      var next := ExtractAd(d, ads[0], rsp, fillOnly);
      NameStep(d, ads[0], rsp, fillOnly);
      NameFirst(next, ads[1..], rsp, fillOnly);
      FirstNameCons(ads, d.name, next.name, Extract(next, ads[1..], rsp, fillOnly).name);
    }
  }

  lemma NumbersFirst(d: Device, ads: seq<Ad>, rsp: bool, r: Device)
    requires r == Extract(d, ads, rsp, true)
    ensures FirstOf(FlagsOf, HasFlags, ads, d.flags, r.flags)
    ensures FirstOf(TxPowerOf, HasPower, ads, d.txPower, r.txPower)
    ensures FirstOf(AppearanceOf, NotZero, ads, d.appearance, r.appearance)
  {
    var flags, power, looks := (x: Device) => x.flags, (x: Device) => x.txPower, (x: Device) => x.appearance;
    forall x, ad
      ensures flags(ExtractAd(x, ad, rsp, true)) == Fill(FlagsOf(ad), HasFlags, flags(x))
      ensures power(ExtractAd(x, ad, rsp, true)) == Fill(TxPowerOf(ad), HasPower, power(x))
      ensures looks(ExtractAd(x, ad, rsp, true)) == Fill(AppearanceOf(ad), NotZero, looks(x))
    {
      NumbersStep(x, ad, rsp);
    }
    FirstByPosition(flags, FlagsOf, HasFlags, d, ads, rsp, true);
    FirstByPosition(power, TxPowerOf, HasPower, d, ads, rsp, true);
    FirstByPosition(looks, AppearanceOf, NotZero, d, ads, rsp, true);
  }

  lemma NumbersLast(d: Device, ads: seq<Ad>, rsp: bool, r: Device)
    requires r == Extract(d, ads, rsp, false)
    ensures LastOf(FlagsOf, ads, d.flags, r.flags)
    ensures LastOf(TxPowerOf, ads, d.txPower, r.txPower)
    ensures LastOf(AppearanceOf, ads, d.appearance, r.appearance)
  {
    var flags, power, looks := (x: Device) => x.flags, (x: Device) => x.txPower, (x: Device) => x.appearance;
    forall x, ad
      ensures flags(ExtractAd(x, ad, rsp, false)) == Overwrite(FlagsOf(ad), flags(x))
      ensures power(ExtractAd(x, ad, rsp, false)) == Overwrite(TxPowerOf(ad), power(x))
      ensures looks(ExtractAd(x, ad, rsp, false)) == Overwrite(AppearanceOf(ad), looks(x))
    {
      NumbersStep(x, ad, rsp);
    }
    LastByPosition(flags, FlagsOf, d, ads, rsp, false);
    LastByPosition(power, TxPowerOf, d, ads, rsp, false);
    LastByPosition(looks, AppearanceOf, d, ads, rsp, false);
  }

  lemma CompanyByPosition(d: Device, ads: seq<Ad>, rsp: bool, fillOnly: bool, r: Device)
    requires r == Extract(d, ads, rsp, fillOnly)
    ensures if rsp || fillOnly
            then FirstOf(CompanyOf, HasCompany, ads, (d.companyId, d.mfrData), (r.companyId, r.mfrData))
            else LastOf(CompanyOf, ads, (d.companyId, d.mfrData), (r.companyId, r.mfrData))
  {
    var get := (x: Device) => (x.companyId, x.mfrData);
    forall x, ad
      ensures get(ExtractAd(x, ad, rsp, fillOnly))
           == if rsp || fillOnly then Fill(CompanyOf(ad), HasCompany, get(x)) else Overwrite(CompanyOf(ad), get(x))
    {
      CompanyStep(x, ad, rsp, fillOnly);
    }
    if rsp || fillOnly {
      FirstByPosition(get, CompanyOf, HasCompany, d, ads, rsp, fillOnly);
    } else {
      LastByPosition(get, CompanyOf, d, ads, rsp, fillOnly);
    }
  }

  lemma ServiceDataFirst(d: Device, ads: seq<Ad>, rsp: bool, r: Device)
    requires r == Extract(d, ads, rsp, true)
    ensures FirstOf(ServiceDataOf, HasUuid, ads, (d.svcUuid, d.svcData), (r.svcUuid, r.svcData))
  {
    var get := (x: Device) => (x.svcUuid, x.svcData);
    forall x, ad
      ensures get(ExtractAd(x, ad, rsp, true)) == Fill(ServiceDataOf(ad), HasUuid, get(x))
    {
      ServiceDataStep(x, ad, rsp);
    }
    FirstByPosition(get, ServiceDataOf, HasUuid, d, ads, rsp, true);
  }

  lemma ServiceIdFirst(d: Device, ads: seq<Ad>, rsp: bool)
    ensures FirstOf(ServiceIdOf, NotZero, ads, d.svcUuid, Extract(d, ads, rsp, false).svcUuid)
  {
    var get := (x: Device) => x.svcUuid;
    forall x, ad
      ensures get(ExtractAd(x, ad, rsp, false)) == Fill(ServiceIdOf(ad), NotZero, get(x))
    {
      ServiceDataStep(x, ad, rsp);
    }
    FirstByPosition(get, ServiceIdOf, NotZero, d, ads, rsp, false);
  }

  /** The data of a slot nobody sees yet: the last that came with the UUID the slot ends up with. */
  lemma {:induction false} ServiceDataLast(d: Device, ads: seq<Ad>, rsp: bool, uuid: nat)
    requires uuid == Extract(d, ads, rsp, false).svcUuid
    ensures LastOf(ad => DataFor(ad, uuid), ads, d.svcData, Extract(d, ads, rsp, false).svcData)
    ensures d.svcUuid != 0 ==> uuid == d.svcUuid
    decreases |ads|
  {
    if ads != [] {
      var next := ExtractAd(d, ads[0], rsp, false);
      var now := Extract(d, ads, rsp, false).svcData;
      ServiceDataStep(d, ads[0], rsp);
      ServiceDataLast(next, ads[1..], rsp, uuid);
      var read := (ad: Ad) => DataFor(ad, uuid);
      assert LastOf(read, ads[1..], next.svcData, now);
      if next.svcUuid == uuid {
        LastOfCons(read, ads, d.svcData, next.svcData, now);
      } else {
        ServiceIdFirst(next, ads[1..], rsp);
        var k :| 0 <= k < |ads| - 1 && ServiceIdOf(ads[1..][k]) == Some(uuid);
        assert read(ads[1..][k]).Some?;
        var last := Overwrite(read(ads[0]), d.svcData);
        assert LastOf(read, ads[1..], last, now);
        LastOfCons(read, ads, d.svcData, last, now);
      }
    }
  }

  lemma CollectsAll(d: Device, ads: seq<Ad>, rsp: bool)
    ensures Collects(d, ads, rsp, Extract(d, ads, rsp, false))
  {
    var r := Extract(d, ads, rsp, false);
    ServiceFirst(d, ads, rsp, false);
    Uuid32First(d, ads, rsp, false);
    NameFirst(d, ads, rsp, false);
    NumbersLast(d, ads, rsp, r);
    CompanyByPosition(d, ads, rsp, false, r);
    ServiceIdFirst(d, ads, rsp);
    ServiceDataLast(d, ads, rsp, r.svcUuid);
  }

  lemma FillsAll(d: Device, ads: seq<Ad>, rsp: bool)
    ensures FillsUnknown(d, ads, Extract(d, ads, rsp, true))
  {
    var r := Extract(d, ads, rsp, true);
    ServiceFirst(d, ads, rsp, true);
    Uuid32First(d, ads, rsp, true);
    NameFirst(d, ads, rsp, true);
    NumbersFirst(d, ads, rsp, r);
    CompanyByPosition(d, ads, rsp, true, r);
    ServiceDataFirst(d, ads, rsp, r);
  }

  // ---- one report ----------------------------------------------------------------------------------

  /** The report tells its strength, unless the radio has no reading (-127, or 127 from HCI). */
  function Strength(e: Event): Option<int> {
    match e
    case Inquiry(_, rssi, _, _, _) => if rssi == Some(-127) then None else rssi
    case RemoteName(_, _) => None
    case Advertisement(_, strength, _, _, _) => if strength in {127, -127} then None else Some(strength)
  }

  /** One report more, and its strength if it has one. */
  predicate CountsReport(d: Device, e: Event, r: Device) {
    && r.rssi == (if Strength(e).Some? then Strength(e).value else d.rssi)
    && r.pktCount == (if d.pktCount == 65535 then 65535 else d.pktCount + 1)
  }

  /** What a report never changes in a slot. */
  predicate SameIdentity(d: Device, r: Device) {
    && r.addr == d.addr && r.devType == d.devType && r.devClass == d.devClass
    && r.classOfDevice == d.classOfDevice && r.addrType == d.addrType && r.deviceId == d.deviceId
  }

  predicate SameData(d: Device, r: Device) {
    && r.serviceUuid == d.serviceUuid && r.uuid32 == d.uuid32 && r.appearance == d.appearance
    && r.flags == d.flags && r.txPower == d.txPower && r.svcUuid == d.svcUuid && r.svcData == d.svcData
    && r.companyId == d.companyId && r.mfrData == d.mfrData
  }

  /** The name the first len bytes spell: up to a NUL, the end or 31 bytes. */
  predicate TextLength(b: seq<Byte>, len: nat) {
    len <= 31 && len <= |b| && (len == 31 || len == |b| || b[len] == 0) && forall j :: 0 <= j < len ==> b[j] != 0
  }

  /** A remote name reply names a device that has no name. */
  ghost predicate NameReply(was: Name, name: Option<seq<Byte>>, now: Name) {
    if name.None? || was[0] != 0 then now == was
    else forall len: nat :: TextLength(name.value, len) ==>
           if len == 0 then now == was else Spells(now, name.value[..len])
  }

  /** The slot d of the device a report comes from has become r. */
  ghost predicate Updated(d: Device, e: Event, r: Device) {
    && SameIdentity(d, r)
    && (e.RemoteName? ==>
          && NameReply(d.name, e.name, r.name) && SameData(d, r)
          && r.rssi == d.rssi && r.pktCount == d.pktCount && r.advType == d.advType)
    && (e.Inquiry? ==> CountsReport(d, e, r) && SameData(d, r) && r.name == d.name && r.advType == d.advType)
    && (e.Advertisement? ==>
          && CountsReport(d, e, r)
          && r.advType == (if e.eventType != 4 && d.advType == 0xFF then e.eventType else d.advType)
          && (d.name[0] == 0 ==> FillsUnknown(d, e.ads, r))
          && (d.name[0] != 0 ==> SameData(d, r) && r.name == d.name))
  }

  /** A slot of which nothing is known. */
  function Blank(): Device {
    Device(0, seq(32, _ => 0), 0, Ble, 0, 0, 127, 0xFF, 0xFFFF, 0, 0xFF, 0xFF, 0, 0, 1, 0, [], [],
           DeviceId(0, 0, 0, 0))
  }

  /** The major device class a class of device stands for, 10 for none of those the shell knows. */
  predicate HasClass(r: Device, cod: nat) {
    var major := cod / 256 % 32;
    r.devClass == if 1 <= major <= 9 then major else 10
  }

  /** r is the new slot of the device a report comes from. */
  ghost predicate Opened(e: Event, r: Device)
    requires !e.RemoteName?
  {
    && r.addr == e.addr && r.pktCount == 1
    && r.rssi == (if Strength(e).Some? then Strength(e).value else -127)
    && (e.Inquiry? ==> OpenedClassic(e.cod, e.deviceId, e.name, r))
    && (e.Advertisement? ==> OpenedBle(e.eventType, e.addrType, e.ads, r))
  }

  ghost predicate OpenedClassic(cod: nat, deviceId: Option<DeviceId>, name: Option<seq<Byte>>, r: Device) {
    && r.devType == Classic && r.classOfDevice == cod && HasClass(r, cod)
    && r.deviceId == (if deviceId.Some? then deviceId.value else DeviceId(0, 0, 0, 0))
    && (if name.Some? && name.value != [] then Spells(r.name, name.value) else r.name[0] == 0)
    && r.txPower == 127 && r.flags == 0xFF && r.companyId == 0xFFFF && r.serviceUuid == 0 && r.uuid32 == 0
    && r.svcUuid == 0 && r.appearance == 0 && r.addrType == 0xFF && r.advType == 0xFF
    && r.svcData == [] && r.mfrData == []
  }

  ghost predicate OpenedBle(eventType: nat, addrType: nat, ads: seq<Ad>, r: Device) {
    && r.devType == Ble && r.classOfDevice == 0 && r.devClass == 0 && r.deviceId == DeviceId(0, 0, 0, 0)
    && r.addrType == addrType % 2 && r.advType == (if eventType == 4 then 0xFF else eventType)
    && Collects(Blank(), ads, eventType == 4, r)
  }

  /** What one report makes of the list. */
  ghost predicate Shows(items: seq<Device>, e: Event, after: seq<Device>) {
    if exists i :: 0 <= i < |items| && items[i].addr == e.addr then
      && |after| == |items|
      && forall i :: 0 <= i < |items| ==>
           if items[i].addr == e.addr then Updated(items[i], e, after[i]) else after[i] == items[i]
    else if e.RemoteName? || |items| >= 20 then after == items
    else |after| == |items| + 1 && after[..|items|] == items && Opened(e, after[|items|])
  }

  /** Only these fields of a slot come from advertising data. */
  lemma {:induction false} ExtractKeepsRest(d: Device, ads: seq<Ad>, rsp: bool, fillOnly: bool)
    ensures var r := Extract(d, ads, rsp, fillOnly);
            SameIdentity(d, r) && r.rssi == d.rssi && r.pktCount == d.pktCount && r.advType == d.advType
    decreases |ads|
  {
    if ads != [] {
      ExtractKeepsRest(ExtractAd(d, ads[0], rsp, fillOnly), ads[1..], rsp, fillOnly);
    }
  }

  lemma NewBleOpens(e: Event)
    requires e.Advertisement?
    ensures Opened(e, NewBle(e))
  {
    var rsp := e.eventType == 4;
    var d := SlotInit(e.addr, Ble, AdvRssi(e.strength)).(addrType := e.addrType % 2);
    var d1 := if rsp then d else d.(advType := e.eventType);
    CollectsAll(d1, e.ads, rsp);
    ExtractKeepsRest(d1, e.ads, rsp, false);
  }

  lemma NewClassicOpens(e: Event)
    requires e.Inquiry?
    ensures Opened(e, NewClassic(e))
  {
  }

  lemma MergedUpdates(d: Device, e: Event)
    requires e.Advertisement?
    ensures Updated(d, e, Merged(d, e))
  {
    var rsp := e.eventType == 4;
    var d1 := Refreshed(d, AdvRssi(e.strength));
    var d2 := if !rsp && d1.advType == ADV_TYPE_NONE then d1.(advType := e.eventType) else d1;
    if d.name[0] == 0 {
      FillsAll(d2, e.ads, rsp);
      ExtractKeepsRest(d2, e.ads, rsp, true);
    }
  }

  /** strnlen and strncpy agree on where a name ends. */
  lemma {:induction false} CNameIs(b: seq<Byte>, max: nat, len: nat)
    requires len <= max && len <= |b| && (len == max || len == |b| || b[len] == 0)
    requires forall j :: 0 <= j < len ==> b[j] != 0
    ensures CName(b, max) == b[..len]
    decreases max
  {
    if len > 0 {
      CNameIs(b[1..], max - 1, len - 1);
    }
  }

  lemma NamedUpdates(d: Device, e: Event)
    requires e.RemoteName?
    ensures Updated(d, e, Named(d, e.name))
  {
    if e.name.Some? && d.name[0] == 0 {
      forall len: nat | TextLength(e.name.value, len)
        ensures var r := Named(d, e.name);
                if len == 0 then r.name == d.name else Spells(r.name, e.name.value[..len])
      {
        CNameIs(e.name.value, 31, len);
      }
    }
  }

  /**
   Every report, with arbitrary advertising data, in every list: which slot it updates or opens, and
   where each field then comes from.
   */
  lemma HandleShows(items: seq<Device>, e: Event)
    requires OneSlotEach(items)
    ensures Shows(items, e, Handle(items, e))
  {
    var i := FindSlot(items, e.addr);
    if i < |items| {
      match e
      case Inquiry(_, _, _, _, _) =>
      case RemoteName(_, _) => NamedUpdates(items[i], e);
      case Advertisement(_, _, _, _, _) => MergedUpdates(items[i], e);
    } else {
      match e
      case Inquiry(_, _, _, _, _) => NewClassicOpens(e);
      case RemoteName(_, _) =>
      case Advertisement(_, _, _, _, _) => NewBleOpens(e);
    }
  }
}
