/** Account quotas: the three-limit check, its machine arithmetic, and the aggregate it reads. */
module Quota {
  import opened Fleet

  const I32_MAX := 0x7FFF_FFFF
  const I64_MAX := 0x7FFF_FFFF_FFFF_FFFF

  /** Two's complement wrap-around of an `i32` sum. */
  function Wrap32(x: int): int {
    (x + 0x8000_0000) % 0x1_0000_0000 - 0x8000_0000
  }

  /** Two's complement wrap-around of an `i64` sum. */
  function Wrap64(x: int): int {
    (x + 0x8000_0000_0000_0000) % 0x1_0000_0000_0000_0000 - 0x8000_0000_0000_0000
  }

  datatype Dimension = Vms | Vcpus | Memory

  predicate Active(status: Status) {
    status.Running? || status.Starting?
  }

  function Amount(row: VmRow, d: Dimension): int {
    match d
    case Vms => 1
    case Vcpus => row.vcpus
    case Memory => row.memoryMb
  }

  function Limit(account: AccountRow, d: Dimension): int {
    match d
    case Vms => account.vmLimit
    case Vcpus => account.vcpuLimit
    case Memory => account.memLimitMb
  }

  /** What one row adds to an account's usage. */
  function Weight(row: VmRow, account: AccountId, d: Dimension): int {
    if row.account == account && Active(row.status) then Amount(row, d) else 0
  }

  /** SUM or COUNT over the account's running and starting rows. */
  ghost function Used(vms: VmTable, account: AccountId, d: Dimension): int
    decreases |vms|
  {
    if vms == map[] then 0
    else
      var id :| id in vms;
      Weight(vms[id], account, d) + Used(vms - {id}, account, d)
  }

  /** Any row can be split off the sum, not only the one the definition happens to pick. */
  lemma {:induction false} UsedSplit(vms: VmTable, id: VmId, account: AccountId, d: Dimension)
    requires id in vms
    ensures Used(vms, account, d) == Weight(vms[id], account, d) + Used(vms - {id}, account, d)
    decreases |vms|
  {
    var first: VmId :| first in vms && Used(vms, account, d) == Weight(vms[first], account, d) + Used(vms - {first}, account, d);
    if first != id {
      UsedSplit(vms - {first}, id, account, d);
      UsedSplit(vms - {id}, first, account, d);
      assert vms - {first} - {id} == vms - {id} - {first};
    }
  }

  /** Writing one row moves the sum by the difference of the two weights. */
  lemma UsedAfterWrite(vms: VmTable, id: VmId, row: VmRow, account: AccountId, d: Dimension)
    ensures Used(vms[id := row], account, d)
         == Used(vms, account, d) + Weight(row, account, d) - (if id in vms then Weight(vms[id], account, d) else 0)
  {
    UsedSplit(vms[id := row], id, account, d);
    if id in vms {
      UsedSplit(vms, id, account, d);
      assert vms[id := row] - {id} == vms - {id};
    } else {
      assert vms[id := row] - {id} == vms;
    }
  }

  /** What the sums are: nothing for no rows, and each further row adds one VM, its vCPUs and its
      memory if it is the account's and running or starting, and nothing otherwise. */
  lemma UsedMeans(vms: VmTable, id: VmId, row: VmRow, account: AccountId)
    requires id !in vms
    ensures Used(map[], account, Vms) == 0 && Used(map[], account, Vcpus) == 0 && Used(map[], account, Memory) == 0
    ensures var counts := row.account == account && (row.status == Running || row.status == Starting);
      && Used(vms[id := row], account, Vms) == Used(vms, account, Vms) + (if counts then 1 else 0)
      && Used(vms[id := row], account, Vcpus) == Used(vms, account, Vcpus) + (if counts then row.vcpus else 0)
      && Used(vms[id := row], account, Memory) == Used(vms, account, Memory) + (if counts then row.memoryMb else 0)
  {
    UsedAfterWrite(vms, id, row, account, Vms);
    UsedAfterWrite(vms, id, row, account, Vcpus);
    UsedAfterWrite(vms, id, row, account, Memory);
  }

  ghost predicate NonNegative(vms: VmTable) {
    forall id :: id in vms ==> vms[id].vcpus >= 0 && vms[id].memoryMb >= 0
  }

  lemma {:induction false} UsedNonNegative(vms: VmTable, account: AccountId, d: Dimension)
    requires NonNegative(vms)
    ensures Used(vms, account, d) >= 0
    decreases |vms|
  {
    if vms != map[] {
      var id :| id in vms;
      UsedSplit(vms, id, account, d);
      UsedNonNegative(vms - {id}, account, d);
    }
  }

  datatype Verdict = Admit | Exceeded | CastFailed

  /** The comparisons of the quota check in the order the code makes them. The database
      refuses to cast a sum that does not fit its column type; the Rust additions wrap. */
  function Check(limits: AccountRow, usedVms: int, usedVcpus: int, usedMem: int, vcpus: int, mem: int): Verdict {
    if usedVcpus > I64_MAX || usedMem > I32_MAX then CastFailed
    else if usedVms >= limits.vmLimit then Exceeded
    else if Wrap64(usedVcpus + vcpus) > limits.vcpuLimit then Exceeded
    else if Wrap32(usedMem + mem) > limits.memLimitMb then Exceeded
    else Admit
  }

  /** From a usage within limits, the check admits exactly the requests that fit, plus those
      whose true sum no longer fits the integer type it is computed in. */
  lemma CheckExact(limits: AccountRow, usedVms: int, usedVcpus: int, usedMem: int, vcpus: int, mem: int)
    requires 0 <= usedVcpus <= limits.vcpuLimit <= I64_MAX && 0 <= vcpus <= I64_MAX
    requires 0 <= usedMem <= limits.memLimitMb <= I32_MAX && 0 <= mem <= I32_MAX
    ensures Check(limits, usedVms, usedVcpus, usedMem, vcpus, mem) == Admit <==>
      && usedVms < limits.vmLimit
      && (usedVcpus + vcpus <= limits.vcpuLimit || usedVcpus + vcpus > I64_MAX)
      && (usedMem + mem <= limits.memLimitMb || usedMem + mem > I32_MAX)
  {
    WrapIsExactInRange(usedVcpus + vcpus, usedMem + mem);
  }

  lemma WrapIsExactInRange(x: int, y: int)
    requires 0 <= x <= 2 * I64_MAX && 0 <= y <= 2 * I32_MAX
    ensures Wrap64(x) == if x <= I64_MAX then x else x - 0x1_0000_0000_0000_0000
    ensures Wrap32(y) == if y <= I32_MAX then y else y - 0x1_0000_0000
  {
  }

  /** The addition wraps for these limits, so two large VMs are admitted past a memory limit
      either of them nearly fills. */
  lemma WrapAdmitsTooMuch()
    ensures var limits := AccountRow("u", 8000, 2_000_000_000, 5);
      && Check(limits, 1, 1000, 2_000_000_000, 1000, 2_000_000_000) == Admit
      && 2_000_000_000 + 2_000_000_000 > limits.memLimitMb
  {
  }

  ghost predicate AccountWithin(vms: VmTable, account: AccountId, limits: AccountRow) {
    forall d: Dimension :: Used(vms, account, d) <= Limit(limits, d)
  }

  /** The invariant a user is promised: no account uses more than any of its limits. */
  ghost predicate WithinQuota(vms: VmTable, accounts: map<AccountId, AccountRow>) {
    forall a :: a in accounts ==> AccountWithin(vms, a, accounts[a])
  }

  /** Each sum is held against the limit of its own kind. */
  lemma WithinQuotaMeans(vms: VmTable, accounts: map<AccountId, AccountRow>)
    ensures WithinQuota(vms, accounts) <==> forall a :: a in accounts ==>
      && Used(vms, a, Vms) <= accounts[a].vmLimit
      && Used(vms, a, Vcpus) <= accounts[a].vcpuLimit
      && Used(vms, a, Memory) <= accounts[a].memLimitMb
  {
    forall a | a in accounts
      ensures AccountWithin(vms, a, accounts[a]) <==>
        && Used(vms, a, Vms) <= accounts[a].vmLimit
        && Used(vms, a, Vcpus) <= accounts[a].vcpuLimit
        && Used(vms, a, Memory) <= accounts[a].memLimitMb
    {
      if AccountWithin(vms, a, accounts[a]) {
        assert Used(vms, a, Vms) <= Limit(accounts[a], Vms) && Used(vms, a, Vcpus) <= Limit(accounts[a], Vcpus)
          && Used(vms, a, Memory) <= Limit(accounts[a], Memory);
      } else {
        var d: Dimension :| Used(vms, a, d) > Limit(accounts[a], d);
        match d case Vms => case Vcpus => case Memory =>
      }
    }
  }

  /** `set_vm_running` writes 'running' without looking at the quota. From a state within
      quota it stays within quota exactly when the row was already reserved or still fits. */
  lemma RunningWriteKeepsQuotaIff(vms: VmTable, accounts: map<AccountId, AccountRow>, id: VmId)
    requires WithinQuota(vms, accounts) && id in vms && vms[id].account in accounts
    ensures WithinQuota(SetStatus(vms, id, Running), accounts) <==>
      || Active(vms[id].status)
      || forall d: Dimension :: Used(vms, vms[id].account, d) + Amount(vms[id], d) <= Limit(accounts[vms[id].account], d)
  {
    var row := vms[id].(status := Running);
    var home := vms[id].account;
    var after := SetStatus(vms, id, Running);
    forall a, d: Dimension
      ensures Used(after, a, d) == Used(vms, a, d) +
        (if a == home && !Active(vms[id].status) then Amount(vms[id], d) else 0)
    {
      UsedAfterWrite(vms, id, row, a, d);
    }
    if WithinQuota(after, accounts) {
      assert AccountWithin(after, home, accounts[home]);
    } else {
      var a :| a in accounts && !AccountWithin(after, a, accounts[a]);
      assert AccountWithin(vms, a, accounts[a]);
    }
  }
}
