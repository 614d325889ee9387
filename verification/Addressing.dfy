/** Network slots: their choice, the addresses and devices made from them, and their
    distinctness over runs of creations and deletions. */
module Addressing {
  import opened Fleet
  import opened Decimal

  const LAST_SLOT := 65534

  // Splitting an address at its dots.

  /** `splitn(n, '.')`: at most n pieces, the last one unsplit. */
  function SplitN(s: string, n: nat): (parts: seq<string>)
    requires n > 0
    ensures 0 < |parts| <= n
    decreases |s|
  {
    var cut := DotAt(s);
    if n == 1 || cut == |s| then [s] else [s[..cut]] + SplitN(s[cut + 1..], n - 1)
  }

  function DotAt(s: string): (i: nat)
    ensures i <= |s|
    ensures i < |s| ==> s[i] == '.'
    ensures forall j :: 0 <= j < i ==> s[j] != '.'
  {
    if s == [] || s[0] == '.' then 0 else 1 + DotAt(s[1..])
  }

  lemma SplitAtDot(piece: string, rest: string, n: nat)
    requires n > 1 && Dotless(piece)
    ensures SplitN(piece + "." + rest, n) == [piece] + SplitN(rest, n - 1)
  {
    var s := piece + "." + rest;
    assert DotAt(s) == |piece| by {
      assert s[|piece|] == '.';
      assert forall i :: 0 <= i < |piece| ==> s[i] == piece[i];
    }
    assert s[..|piece|] == piece && s[|piece| + 1..] == rest;
  }

  /** The address `create_vm` writes for a slot. */
  function GuestIpText(slot: nat): string {
    "172.16." + Print(slot) + ".2"
  }

  /** What the slot chooser reads from a used address: its third field, if it is a number. */
  function UsedSlot(ip: string): Option<nat> {
    var parts := SplitN(ip, 4);
    if |parts| > 2 then ParseU32(parts[2]) else None
  }

  predicate Dotless(s: string) {
    forall i :: 0 <= i < |s| ==> s[i] != '.'
  }

  lemma SplitTwo(c: string, d: string)
    requires Dotless(c)
    ensures SplitN(c + "." + d, 2) == [c, d]
  {
    SplitAtDot(c, d, 2);
  }

  lemma SplitThree(b: string, c: string, d: string)
    requires Dotless(b) && Dotless(c)
    ensures SplitN(b + "." + (c + "." + d), 3) == [b, c, d]
  {
    SplitAtDot(b, c + "." + d, 3);
    SplitTwo(c, d);
  }

  lemma SplitFour(a: string, b: string, c: string, d: string)
    requires Dotless(a) && Dotless(b) && Dotless(c)
    ensures SplitN(a + "." + (b + "." + (c + "." + d)), 4) == [a, b, c, d]
  {
    SplitAtDot(a, b + "." + (c + "." + d), 4);
    SplitThree(b, c, d);
  }

  lemma PrintHasNoDot(n: nat)
    ensures Dotless(Print(n))
  {
    forall i | 0 <= i < |Print(n)| ensures Print(n)[i] != '.' {
      assert IsDigit(Print(n)[i]);
    }
  }

  lemma GuestIpTextPieces(middle: string)
    ensures "172.16." + middle + ".2" == "172" + "." + ("16" + "." + (middle + "." + "2"))
  {
  }

  /** The chooser reads back the slot of every address made from a 32-bit slot. */
  lemma UsedSlotOfGuestIp(slot: nat)
    requires slot < U32_LIMIT
    ensures UsedSlot(GuestIpText(slot)) == Some(slot)
  {
    PrintHasNoDot(slot);
    SplitFour("172", "16", Print(slot), "2");
    GuestIpTextPieces(Print(slot));
    ParsePrint(slot);
  }

  lemma GuestIpTextInjective(m: nat, n: nat)
    requires GuestIpText(m) == GuestIpText(n)
    ensures m == n
  {
    var a, b := GuestIpText(m), GuestIpText(n);
    assert a[7..|a| - 2] == Print(m) && b[7..|b| - 2] == Print(n);
    PrintInjective(m, n);
  }

  // The choice of a slot.

  function SlotsOf(ips: seq<string>): set<nat> {
    set ip | ip in ips && UsedSlot(ip).Some? :: UsedSlot(ip).value
  }

  /** The least unused slot; none (the code panics) exactly when all are used. The counting
      argument bounds it by the number of used addresses. */
  method NextFreeSlot(usedIps: seq<string>) returns (r: Option<nat>)
    ensures r.Some? ==> 1 <= r.value <= 65534 && r.value !in SlotsOf(usedIps)
    ensures r.Some? ==> forall n :: 1 <= n < r.value ==> n in SlotsOf(usedIps)
    ensures r.Some? ==> r.value <= |usedIps| + 1
    ensures r.None? <==> forall n :: 1 <= n <= 65534 ==> n in SlotsOf(usedIps)
  {
    var used: set<nat> := {};
    for i := 0 to |usedIps|
      invariant used == SlotsOf(usedIps[..i])
    {
      assert forall ip :: ip in usedIps[..i + 1] <==> ip in usedIps[..i] || ip == usedIps[i];
      var slot := UsedSlot(usedIps[i]);
      if slot.Some? {
        used := used + {slot.value};
      }
    }
    assert usedIps[..|usedIps|] == usedIps;
    for n := 1 to LAST_SLOT + 1
      invariant forall m :: 1 <= m < n ==> m in used
    {
      if n !in used {
        SlotWithinCount(usedIps, n);
        return Some(n);
      }
    }
    r := None;
  }

  lemma {:induction false} SlotsAreFew(ips: seq<string>)
    ensures |SlotsOf(ips)| <= |ips|
  {
    if ips == [] {
      assert SlotsOf(ips) == {};
    } else {
      var short := ips[..|ips| - 1];
      var last := UsedSlot(ips[|ips| - 1]);
      SlotsAreFew(short);
      assert forall ip :: ip in ips <==> ip in short || ip == ips[|ips| - 1];
      assert SlotsOf(ips) == SlotsOf(short) + if last.Some? then {last.value} else {};
    }
  }

  lemma {:induction false} IntervalFits(used: set<nat>, n: nat)
    requires n >= 1 && forall m :: 1 <= m < n ==> m in used
    ensures n - 1 <= |used|
  {
    if n > 1 {
      var rest := used - {n - 1};
      forall m | 1 <= m < n - 1 ensures m in rest {}
      IntervalFits(rest, n - 1);
    }
  }

  /** Pigeonhole: if all smaller slots are used there are at least that many addresses. */
  lemma SlotWithinCount(ips: seq<string>, n: nat)
    requires n >= 1 && forall m :: 1 <= m < n ==> m in SlotsOf(ips)
    ensures n <= |ips| + 1
  {
    IntervalFits(SlotsOf(ips), n);
    SlotsAreFew(ips);
  }

  // Addresses and subnets.

  /** The four octets of an IPv4 address. */
  datatype Ipv4 = Ipv4(a: int, b: int, c: int, d: int) {
    function Text(): string
      requires a >= 0 && b >= 0 && c >= 0 && d >= 0
    {
      Print(a) + "." + Print(b) + "." + Print(c) + "." + Print(d)
    }

    function Number(): int {
      ((a * 256 + b) * 256 + c) * 256 + d
    }
  }

  /** `slot as u8` keeps the low byte. */
  function HostIp(slot: nat): Ipv4 {
    Ipv4(172, 16, slot % 256, 1)
  }

  function GuestIp(slot: nat): Ipv4 {
    Ipv4(172, 16, slot % 256, 2)
  }

  /** The addresses of the /30 network that contains the slot's host address. */
  predicate InSubnet(slot: nat, address: int) {
    address / 4 == HostIp(slot).Number() / 4
  }

  lemma PrintedOctets()
    ensures Print(172) == "172" && Print(16) == "16" && Print(2) == "2"
  {
    assert DigitChar(1) == '1' && DigitChar(2) == '2' && DigitChar(6) == '6' && DigitChar(7) == '7';
    assert Print(1) == "1";
    assert Print(17) == "17";
  }

  /** The guest address the agent configures is the one the control plane wrote, exactly for
      slots that fit a byte. */
  lemma GuestIpIsWrittenIff(slot: nat)
    ensures GuestIp(slot).Text() == GuestIpText(slot) <==> slot < 256
  {
    PrintedOctets();
    assert GuestIp(slot).Text() == GuestIpText(slot % 256);
    if GuestIp(slot).Text() == GuestIpText(slot) {
      GuestIpTextInjective(slot, slot % 256);
    }
  }

  /** Two slots share addresses exactly when they agree modulo 256. */
  lemma SubnetsDisjointIff(m: nat, n: nat)
    ensures (forall address :: !(InSubnet(m, address) && InSubnet(n, address))) <==> m % 256 != n % 256
  {
    if m % 256 == n % 256 {
      assert InSubnet(m, HostIp(m).Number()) && InSubnet(n, HostIp(m).Number());
    } else {
      forall address ensures !(InSubnet(m, address) && InSubnet(n, address)) {
        var base := (172 * 256 + 16) * 256;
        assert HostIp(m).Number() / 4 == (base + m % 256) * 64;
        assert HostIp(n).Number() / 4 == (base + n % 256) * 64;
      }
    }
  }

  // Runs of creations and deletions.

  datatype Step = Create(id: VmId, host: HostId, row: VmRow) | Delete(id: VmId)

  ghost predicate LeastFree(vms: VmTable, host: HostId, slot: nat) {
    && 1 <= slot <= LAST_SLOT && !SlotUsed(vms, host, slot)
    && forall n :: 1 <= n < slot ==> SlotUsed(vms, host, n)
  }

  predicate SlotUsed(vms: VmTable, host: HostId, slot: nat) {
    exists id :: id in vms && vms[id].host == Some(host) && UsedSlot(vms[id].ip) == Some(slot)
  }

  function Placed(row: VmRow, host: HostId, slot: nat): VmRow {
    row.(ip := GuestIpText(slot), host := Some(host))
  }

  /** Creation takes a slot that is least free on the chosen host and records the host. */
  ghost predicate Next(vms: VmTable, s: Step, vms': VmTable) {
    match s
    case Create(id, host, row) =>
      id !in vms && exists slot: nat :: LeastFree(vms, host, slot) && vms' == vms[id := Placed(row, host, slot)]
    case Delete(id) => vms' == vms - {id}
  }

  ghost predicate IsRun(tables: seq<VmTable>, steps: seq<Step>) {
    |tables| == |steps| + 1 && forall k :: 0 <= k < |steps| ==> Next(tables[k], steps[k], tables[k + 1])
  }

  ghost predicate HasSlot(row: VmRow, slot: nat) {
    1 <= slot <= LAST_SLOT && row.ip == GuestIpText(slot)
  }

  /** Every VM on a host has a slot of its own there. */
  ghost predicate SlotsDistinct(vms: VmTable) {
    && (forall id :: id in vms && vms[id].host.Some? ==> exists slot: nat :: HasSlot(vms[id], slot))
    && (forall i, j :: i in vms && j in vms && i != j && vms[i].host.Some? && vms[i].host == vms[j].host ==>
          vms[i].ip != vms[j].ip)
  }

  lemma NextKeepsSlotsDistinct(vms: VmTable, s: Step, vms': VmTable)
    requires SlotsDistinct(vms) && Next(vms, s, vms')
    ensures SlotsDistinct(vms')
  {
    if s.Create? {
      var slot: nat :| LeastFree(vms, s.host, slot) && vms' == vms[s.id := Placed(s.row, s.host, slot)];
      assert HasSlot(vms'[s.id], slot);
      UsedSlotOfGuestIp(slot);
      forall j | j in vms && vms[j].host == Some(s.host) ensures vms[j].ip != GuestIpText(slot) {
        assert UsedSlot(vms[j].ip) != Some(slot);
      }
    }
  }

  /** Over every run the VMs of a host keep distinct addresses. */
  lemma {:induction false} SlotsDistinctInEveryRun(tables: seq<VmTable>, steps: seq<Step>, k: nat)
    requires IsRun(tables, steps) && SlotsDistinct(tables[0]) && k < |tables|
    ensures SlotsDistinct(tables[k])
  {
    if k > 0 {
      SlotsDistinctInEveryRun(tables, steps, k - 1);
      NextKeepsSlotsDistinct(tables[k - 1], steps[k - 1], tables[k]);
    }
  }

  predicate SlotAmong(vms: VmTable, ids: set<VmId>, slot: nat) {
    exists id :: id in ids && id in vms && UsedSlot(vms[id].ip) == Some(slot)
  }

  lemma {:induction false} UsedSlotsBound(vms: VmTable, ids: set<VmId>, n: nat)
    requires n >= 1 && forall m :: 1 <= m < n ==> SlotAmong(vms, ids, m)
    ensures n - 1 <= |ids|
    decreases n
  {
    if n > 1 {
      assert SlotAmong(vms, ids, n - 1);
      var id :| id in ids && id in vms && UsedSlot(vms[id].ip) == Some(n - 1);
      forall m | 1 <= m < n - 1 ensures SlotAmong(vms, ids - {id}, m) {
        assert SlotAmong(vms, ids, m);
        var x :| x in ids && x in vms && UsedSlot(vms[x].ip) == Some(m);
        assert x in ids - {id};
      }
      UsedSlotsBound(vms, ids - {id}, n - 1);
    }
  }

  /** With fewer than 255 VMs on a host, the slot a creation takes there fits a byte. */
  lemma LeastFreeFitsByte(vms: VmTable, host: HostId, slot: nat)
    requires LeastFree(vms, host, slot) && |IdsOnHost(vms, host)| <= 254
    ensures slot <= 255
  {
    forall m | 1 <= m < slot ensures SlotAmong(vms, IdsOnHost(vms, host), m) {
      assert SlotUsed(vms, host, m);
      var id :| id in vms && vms[id].host == Some(host) && UsedSlot(vms[id].ip) == Some(m);
      assert id in IdsOnHost(vms, host);
    }
    UsedSlotsBound(vms, IdsOnHost(vms, host), slot);
  }

  ghost predicate ByteSlots(vms: VmTable) {
    forall id :: id in vms && vms[id].host.Some? ==> exists slot: nat :: HasSlot(vms[id], slot) && slot <= 255
  }

  ghost predicate RoomAtCreations(tables: seq<VmTable>, steps: seq<Step>)
    requires IsRun(tables, steps)
  {
    forall k :: 0 <= k < |steps| && steps[k].Create? ==> |IdsOnHost(tables[k], steps[k].host)| <= 254
  }

  lemma {:induction false} ByteSlotsInEveryRun(tables: seq<VmTable>, steps: seq<Step>, k: nat)
    requires IsRun(tables, steps) && RoomAtCreations(tables, steps) && ByteSlots(tables[0]) && k < |tables|
    ensures ByteSlots(tables[k])
  {
    if k > 0 {
      ByteSlotsInEveryRun(tables, steps, k - 1);
      var vms, s, vms' := tables[k - 1], steps[k - 1], tables[k];
      if s.Create? {
        assert Next(vms, s, vms');
        var slot: nat :| LeastFree(vms, s.host, slot) && vms' == vms[s.id := Placed(s.row, s.host, slot)];
        LeastFreeFitsByte(vms, s.host, slot);
        assert HasSlot(vms'[s.id], slot);
      }
    }
  }

  /** Over every run that never creates on a host already holding 255 VMs, the agent derives
      from each address the slot whose guest address it is, and VMs of a host have disjoint
      subnets. */
  lemma SubnetsDisjointInEveryRun(tables: seq<VmTable>, steps: seq<Step>, k: nat, i: VmId, j: VmId)
    requires IsRun(tables, steps) && RoomAtCreations(tables, steps) && k < |tables|
    requires SlotsDistinct(tables[0]) && ByteSlots(tables[0])
    requires i in tables[k] && j in tables[k] && i != j
    requires tables[k][i].host.Some? && tables[k][i].host == tables[k][j].host
    ensures exists m: nat, n: nat ::
      && UsedSlot(tables[k][i].ip) == Some(m) && GuestIp(m).Text() == tables[k][i].ip
      && UsedSlot(tables[k][j].ip) == Some(n) && GuestIp(n).Text() == tables[k][j].ip
      && forall address :: !(InSubnet(m, address) && InSubnet(n, address))
  {
    SlotsDistinctInEveryRun(tables, steps, k);
    ByteSlotsInEveryRun(tables, steps, k);
    var m: nat :| HasSlot(tables[k][i], m) && m <= 255;
    var n: nat :| HasSlot(tables[k][j], n) && n <= 255;
    UsedSlotOfGuestIp(m);
    UsedSlotOfGuestIp(n);
    GuestIpIsWrittenIff(m);
    GuestIpIsWrittenIff(n);
    SubnetsDisjointIff(m, n);
  }
}
