/** TAP devices: their names, and the sweep that removes the ones no VM records. */
module Taps {
  import opened Fleet
  import opened Decimal
  import Addressing

  const PREFIX := "fc-tap-"

  function TapName(slot: nat): string {
    PREFIX + Print(slot)
  }

  predicate HasPrefix(name: string) {
    |name| >= |PREFIX| && name[..|PREFIX|] == PREFIX
  }

  /** `strip_prefix` and then `parse::<u32>`. */
  function SlotOf(name: string): Option<nat> {
    if HasPrefix(name) then ParseU32(name[|PREFIX|..]) else None
  }

  /** Reading a printed name back gives the slot, for every 32-bit slot. */
  lemma SlotOfTapName(slot: nat)
    ensures SlotOf(TapName(slot)) == if slot < U32_LIMIT then Some(slot) else None
  {
    assert TapName(slot)[..|PREFIX|] == PREFIX && TapName(slot)[|PREFIX|..] == Print(slot);
    ParsePrint(slot);
  }

  /** The name is the one its own slot is printed as. */
  predicate Canonical(name: string) {
    SlotOf(name).Some? && TapName(SlotOf(name).value) == name
  }

  /** Reading and printing undo each other exactly on canonical names. */
  lemma CanonicalIff(name: string)
    ensures Canonical(name) <==> exists slot: nat :: slot < U32_LIMIT && name == TapName(slot)
  {
    if Canonical(name) {
      assert SlotOf(name).value < U32_LIMIT;
    }
    if slot: nat :| slot < U32_LIMIT && name == TapName(slot) {
      SlotOfTapName(slot);
    }
  }

  /** "fc-tap-07" and "fc-tap-+7" are read as slot 7. */
  lemma NotAllNamesAreCanonical()
    ensures SlotOf("fc-tap-07") == Some(7) && SlotOf("fc-tap-+7") == Some(7)
    ensures !Canonical("fc-tap-07") && !Canonical("fc-tap-+7")
  {
    assert "fc-tap-07"[..7] == PREFIX && "fc-tap-07"[7..] == "07";
    assert "fc-tap-+7"[..7] == PREFIX && "fc-tap-+7"[7..] == "+7" && "+7"[1..] == "7";
    assert "07"[..1] == "0" && "0"[..0] == "" && "7"[..0] == "";
    assert Value("0") == 0 && Value("07") == 7 && Value("7") == 7;
    assert Print(7) == "7" by { assert DigitChar(7) == '7'; }
    assert |TapName(7)| == 8;
  }

  /** What the sweep releases: the device of the slot read from each untracked name. */
  function Released(names: set<string>, tracked: set<string>): set<string> {
    set name | name in names && name !in tracked && SlotOf(name).Some? :: TapName(SlotOf(name).value)
  }

  /** Only names with the prefix are listed, so other devices are never looked at. */
  function Listed(devices: set<string>): set<string> {
    set name | name in devices && HasPrefix(name)
  }

  function Swept(devices: set<string>, tracked: set<string>): set<string> {
    devices - Released(Listed(devices), tracked)
  }

  /** The sweep leaves exactly the tracked devices, of those with the prefix, when and only when
      every untracked one has a canonical name. */
  lemma SweepExactIff(devices: set<string>, tracked: set<string>)
    ensures Listed(Swept(devices, tracked)) == Listed(devices) * tracked <==>
      forall name :: name in Listed(devices) && name !in tracked ==> Canonical(name)
  {
    var released := Released(Listed(devices), tracked);
    if forall name :: name in Listed(devices) && name !in tracked ==> Canonical(name) {
      forall name | name in Listed(devices) ensures name in released <==> name !in tracked {
        if name !in tracked {
          assert Canonical(name);
        }
      }
    } else {
      var name :| name in Listed(devices) && name !in tracked && !Canonical(name);
      forall other | other in Listed(devices) && other !in tracked && SlotOf(other).Some?
        ensures TapName(SlotOf(other).value) != name
      {
        SlotOfTapName(SlotOf(other).value);
      }
      assert name in Listed(Swept(devices, tracked));
    }
  }

  /** The name is the prefix and the slot's number, perhaps signed or behind zeros. */
  ghost predicate Spells(name: string, slot: nat) {
    HasPrefix(name) && Writes(name[|PREFIX|..], slot)
  }

  lemma SlotOfIff(name: string, slot: nat)
    ensures SlotOf(name) == Some(slot) <==> slot < U32_LIMIT && Spells(name, slot)
  {
    if HasPrefix(name) {
      ParsedIff(name[|PREFIX|..], slot);
    }
  }

  /** A tracked device is lost exactly when it is the device of a slot and some untracked device
      spells the same slot differently, with a sign or with zeros in front. */
  lemma TrackedDeviceLostIff(devices: set<string>, tracked: set<string>, name: string)
    requires name in devices && name in tracked
    ensures name !in Swept(devices, tracked) <==>
      exists slot: nat, other :: slot < U32_LIMIT && name == TapName(slot) && other in devices && other !in tracked && Spells(other, slot)
  {
    if name !in Swept(devices, tracked) {
      var other :| other in Listed(devices) && other !in tracked && SlotOf(other).Some? && TapName(SlotOf(other).value) == name;
      SlotOfIff(other, SlotOf(other).value);
    }
    if slot: nat, other :| slot < U32_LIMIT && name == TapName(slot) && other in devices && other !in tracked && Spells(other, slot) {
      SlotOfIff(other, slot);
      assert other in Listed(devices);
    }
  }

  /** When all prefixed devices were made by `allocate_tap`, the sweep is exact and no device
      outside the prefix is touched. */
  lemma SweepOfOwnDevices(devices: set<string>, tracked: set<string>)
    requires forall name :: name in Listed(devices) ==> exists slot: nat :: slot < U32_LIMIT && name == TapName(slot)
    ensures Swept(devices, tracked) == (devices - Listed(devices)) + Listed(devices) * tracked
  {
    forall name | name in Listed(devices) ensures Canonical(name) {
      CanonicalIff(name);
    }
    SweepExactIff(devices, tracked);
    forall name | name in Released(Listed(devices), tracked) ensures HasPrefix(name) {
      assert exists slot: nat :: name == TapName(slot);
    }
    forall name ensures name in Swept(devices, tracked) <==> name in (devices - Listed(devices)) + Listed(devices) * tracked {
      assert name in Listed(Swept(devices, tracked)) <==> name in Listed(devices) * tracked;
    }
  }

  /** A device with the addresses of its two ends. */
  datatype TapDevice = TapDevice(name: string, hostIp: Addressing.Ipv4, guestIp: Addressing.Ipv4, slot: nat)

  /** The devices of a host, which the agent changes in place. */
  class NetworkManager {
    var devices: set<string>

    constructor ()
      ensures devices == {}
    {
      devices := {};
    }

    /** A stale device of the slot is removed first, so the slot has exactly one device, with both
        addresses in the slot's subnet. */
    method AllocateTap(slot: nat) returns (tap: TapDevice)
      modifies this
      ensures tap.name == TapName(slot) && tap.slot == slot && devices == old(devices) + {tap.name}
      ensures tap.name == "fc-tap-" + Print(slot)
      ensures tap.hostIp == Addressing.Ipv4(172, 16, slot % 256, 1) && tap.guestIp == Addressing.Ipv4(172, 16, slot % 256, 2)
      ensures Addressing.InSubnet(slot, tap.hostIp.Number()) && Addressing.InSubnet(slot, tap.guestIp.Number())
    {
      var name := TapName(slot);
      if name in devices {
        devices := devices - {name};
      }
      devices := devices + {name};
      tap := TapDevice(name, Addressing.HostIp(slot), Addressing.GuestIp(slot), slot);
    }

    method ReleaseTap(slot: nat)
      modifies this
      ensures devices == old(devices) - {TapName(slot)}
      ensures devices == old(devices) - {"fc-tap-" + Print(slot)}
    {
      devices := devices - {TapName(slot)};
    }

    /** The loop over the listed names, in whatever order they are listed. */
    method Sweep(tracked: set<string>)
      modifies this
      ensures devices == Swept(old(devices), tracked)
    {
      var names := Select(Listed(devices));
      for i := 0 to |names|
        invariant forall name :: name in devices <==>
          name in old(devices) && forall k :: 0 <= k < i && names[k] !in tracked && SlotOf(names[k]).Some? ==>
            TapName(SlotOf(names[k]).value) != name
      {
        if names[i] !in tracked {
          var slot := SlotOf(names[i]);
          if slot.Some? {
            ReleaseTap(slot.value);
          }
        }
      }
      forall name ensures name in devices <==> name in Swept(old(devices), tracked) {
        if name in Released(Listed(old(devices)), tracked) {
          var other :| other in Listed(old(devices)) && other !in tracked && SlotOf(other).Some? && TapName(SlotOf(other).value) == name;
          assert other in names;
        } else if name in old(devices) {
          forall k | 0 <= k < |names| && names[k] !in tracked && SlotOf(names[k]).Some?
            ensures TapName(SlotOf(names[k]).value) != name
          {
            assert names[k] in names;
          }
        }
      }
    }
  }
}
