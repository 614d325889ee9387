/** The shared table of virtual machines, hosts and accounts, and the one-row updates
    that are the atomic steps of every other component. */
module Fleet {

  datatype Option<+T> = None | Some(value: T)
  datatype Result<+T> = Ok(value: T) | Err(error: string)

  type VmId = string
  type HostId = string
  type AccountId = string

  /** The status column of a VM row. */
  datatype Status = Stopped | Starting | Running | Stopping | Error | Snapshotting

  /** The status column of a host row. */
  datatype HostStatus = HostActive | HostDraining | HostOffline

  /** The JSON values that host labels and label requirements are made of. */
  datatype Json =
    | Null
    | Bool(b: bool)
    | Num(n: int)
    | Str(s: string)
    | Arr(items: seq<Json>)
    | Obj(fields: map<string, Json>)

  datatype VmRow = VmRow(
    account: AccountId,
    status: Status,
    subdomain: string,
    vcpus: int,
    memoryMb: int,
    ip: string,
    port: int,
    tap: Option<string>,
    pid: Option<int>,
    host: Option<HostId>,
    overlay: Option<string>,
    region: Option<string>,
    isPublic: bool)

  datatype HostRow = HostRow(
    id: HostId,
    vcpuTotal: int,
    vcpuUsed: int,
    memTotalMb: int,
    memUsedMb: int,
    lastSeenAt: int,
    status: HostStatus,
    labels: Json)

  datatype AccountRow = AccountRow(username: string, vcpuLimit: int, memLimitMb: int, vmLimit: int)

  type VmTable = map<VmId, VmRow>

  /** The value of a host's `region` label, when labels are an object and it is a string. */
  function RegionLabel(labels: Json): Option<string> {
    if labels.Obj? && "region" in labels.fields && labels.fields["region"].Str?
    then Some(labels.fields["region"].s) else None
  }

  // An UPDATE whose WHERE clause matches no row changes nothing.

  function SetStatus(vms: VmTable, id: VmId, status: Status): VmTable {
    if id in vms then vms[id := vms[id].(status := status)] else vms
  }

  function SetPid(vms: VmTable, id: VmId, pid: int): VmTable {
    if id in vms then vms[id := vms[id].(pid := Some(pid))] else vms
  }

  function SetHost(vms: VmTable, id: VmId, host: HostId): VmTable {
    if id in vms then vms[id := vms[id].(host := Some(host))] else vms
  }

  function SetRegion(vms: VmTable, id: VmId, region: string): VmTable {
    if id in vms then vms[id := vms[id].(region := Some(region))] else vms
  }

  function SetSubdomain(vms: VmTable, id: VmId, subdomain: string): VmTable {
    if id in vms then vms[id := vms[id].(subdomain := subdomain)] else vms
  }

  function SetPort(vms: VmTable, id: VmId, port: int): VmTable {
    if id in vms then vms[id := vms[id].(port := port)] else vms
  }

  function SetPublic(vms: VmTable, id: VmId, isPublic: bool): VmTable {
    if id in vms then vms[id := vms[id].(isPublic := isPublic)] else vms
  }

  /** A new row: the columns that the INSERT leaves out are NULL or their default. */
  function Inserted(row: VmRow): VmRow {
    row.(status := Stopped, host := None, tap := None, pid := None, isPublic := false)
  }

  /** The UNIQUE constraint on the subdomain column. */
  ghost predicate UniqueSubdomains(vms: VmTable) {
    forall i, j :: i in vms && j in vms && vms[i].subdomain == vms[j].subdomain ==> i == j
  }

  predicate SubdomainTaken(vms: VmTable, subdomain: string) {
    exists id :: id in vms && vms[id].subdomain == subdomain
  }

  function IdsOnHost(vms: VmTable, host: HostId): set<VmId> {
    set id | id in vms && vms[id].host == Some(host)
  }

  function IdsWithoutHost(vms: VmTable): set<VmId> {
    set id | id in vms && vms[id].host == None
  }

  function IdsOfAccount(vms: VmTable, account: AccountId): set<VmId> {
    set id | id in vms && vms[id].account == account
  }

  ghost predicate NoDuplicates<T>(s: seq<T>) {
    forall i, j :: 0 <= i < j < |s| ==> s[i] != s[j]
  }

  /** A SELECT without ORDER BY: every key once, in an order the caller cannot predict. */
  method Select(keys: set<string>) returns (ids: seq<string>)
    ensures NoDuplicates(ids)
    ensures forall k :: k in ids <==> k in keys
  {
    ids := [];
    var rest := keys;
    while rest != {}
      invariant NoDuplicates(ids)
      invariant rest <= keys
      invariant forall k :: k in ids <==> k in keys - rest
      decreases rest
    {
      var k :| k in rest;
      assert k !in ids;
      ids := ids + [k];
      rest := rest - {k};
    }
  }

  /** The database that the control plane and the agents share. Each method is one
      statement, hence one atomic step. */
  class Database {
    var vms: VmTable
    var hosts: map<HostId, HostRow>
    var accounts: map<AccountId, AccountRow>

    constructor ()
      ensures vms == map[] && hosts == map[] && accounts == map[]
    {
      vms := map[];
      hosts := map[];
      accounts := map[];
    }

    ghost predicate Valid() reads this {
      && UniqueSubdomains(vms)
      && (forall h :: h in hosts ==> hosts[h].id == h)
    }

    /** The row is inserted 'stopped', without host, device and process; the two unique columns
        are checked. */
    method InsertVm(id: VmId, row: VmRow) returns (ok: bool)
      modifies this`vms
      ensures ok <==> id !in old(vms) && !SubdomainTaken(old(vms), row.subdomain)
      ensures ok <==> id !in old(vms) && forall j :: j in old(vms) ==> old(vms)[j].subdomain != row.subdomain
      ensures vms == if ok then old(vms)[id := Inserted(row)] else old(vms)
      ensures ok ==> vms.Keys == old(vms).Keys + {id} && forall j :: j in old(vms) ==> vms[j] == old(vms)[j]
      ensures ok ==> vms[id] == VmRow(row.account, Stopped, row.subdomain, row.vcpus, row.memoryMb, row.ip, row.port,
                                      None, None, None, row.overlay, row.region, false)
    {
      ok := id !in vms && !SubdomainTaken(vms, row.subdomain);
      if ok {
        vms := vms[id := row.(status := Stopped, host := None, tap := None, pid := None, isPublic := false)];
      }
    }

    method SetVmStatus(id: VmId, status: Status)
      modifies this`vms
      ensures vms == SetStatus(old(vms), id, status)
      ensures vms == if id in old(vms) then old(vms)[id := old(vms)[id].(status := status)] else old(vms)
    {
      if id in vms {
        vms := vms[id := vms[id].(status := status)];
      }
    }

    method SetVmPid(id: VmId, pid: int)
      modifies this`vms
      ensures vms == SetPid(old(vms), id, pid)
      ensures vms == if id in old(vms) then old(vms)[id := old(vms)[id].(pid := Some(pid))] else old(vms)
    {
      if id in vms {
        vms := vms[id := vms[id].(pid := Some(pid))];
      }
    }

    method SetVmHost(id: VmId, host: HostId)
      modifies this`vms
      ensures vms == SetHost(old(vms), id, host)
      ensures vms == if id in old(vms) then old(vms)[id := old(vms)[id].(host := Some(host))] else old(vms)
    {
      if id in vms {
        vms := vms[id := vms[id].(host := Some(host))];
      }
    }

    method SetVmRegion(id: VmId, region: string)
      modifies this`vms
      ensures vms == SetRegion(old(vms), id, region)
      ensures vms == if id in old(vms) then old(vms)[id := old(vms)[id].(region := Some(region))] else old(vms)
    {
      if id in vms {
        vms := vms[id := vms[id].(region := Some(region))];
      }
    }

    /** One UPDATE of the subdomain column, refused when another row holds the name. */
    method RenameVm(id: VmId, subdomain: string) returns (ok: bool)
      modifies this`vms
      ensures ok <==> forall j :: j in old(vms) && j != id && id in old(vms) ==> old(vms)[j].subdomain != subdomain
      ensures vms == if ok then SetSubdomain(old(vms), id, subdomain) else old(vms)
      ensures vms == if ok && id in old(vms) then old(vms)[id := old(vms)[id].(subdomain := subdomain)] else old(vms)
    {
      ok := forall j | j in vms :: j != id && id in vms ==> vms[j].subdomain != subdomain;
      if ok && id in vms {
        vms := vms[id := vms[id].(subdomain := subdomain)];
      }
    }

    method UpdateVmPort(id: VmId, port: int)
      modifies this`vms
      ensures vms == SetPort(old(vms), id, port)
      ensures vms == if id in old(vms) then old(vms)[id := old(vms)[id].(port := port)] else old(vms)
    {
      if id in vms {
        vms := vms[id := vms[id].(port := port)];
      }
    }

    method SetVmPublic(id: VmId, isPublic: bool)
      modifies this`vms
      ensures vms == SetPublic(old(vms), id, isPublic)
      ensures vms == if id in old(vms) then old(vms)[id := old(vms)[id].(isPublic := isPublic)] else old(vms)
    {
      if id in vms {
        vms := vms[id := vms[id].(isPublic := isPublic)];
      }
    }

    method DeleteVm(id: VmId)
      modifies this`vms
      ensures vms == old(vms) - {id}
    {
      vms := vms - {id};
    }

    /** A heartbeat leaves a draining host draining and makes every other host active. */
    method UpdateHostHeartbeat(host: HostId, vcpuUsed: int, memUsedMb: int, now: int)
      modifies this`hosts
      ensures hosts.Keys == old(hosts).Keys
      ensures forall h :: h in hosts && h != host ==> hosts[h] == old(hosts)[h]
      ensures host in hosts ==>
        var h := old(hosts)[host];
        hosts[host] == HostRow(h.id, h.vcpuTotal, vcpuUsed, h.memTotalMb, memUsedMb, now,
                               if h.status == HostDraining then HostDraining else HostActive, h.labels)
      ensures forall h :: h in hosts ==> (hosts[h].status == HostDraining <==> old(hosts)[h].status == HostDraining)
    {
      if host in hosts {
        var row := hosts[host];
        var status := if row.status == HostDraining then HostDraining else HostActive;
        hosts := hosts[host := row.(vcpuUsed := vcpuUsed, memUsedMb := memUsedMb, lastSeenAt := now, status := status)];
      }
    }

    method SetHostStatus(host: HostId, status: HostStatus)
      modifies this`hosts
      ensures hosts.Keys == old(hosts).Keys
      ensures forall h :: h in hosts && h != host ==> hosts[h] == old(hosts)[h]
      ensures host in hosts ==> hosts[host] == old(hosts)[host].(status := status)
    {
      if host in hosts {
        hosts := hosts[host := hosts[host].(status := status)];
      }
    }

    /** The rows of the active hosts. */
    method ListActiveHosts() returns (rows: seq<HostRow>)
      requires Valid()
      ensures forall r :: r in rows ==> r.id in hosts && hosts[r.id] == r && r.status == HostActive
      ensures forall h :: h in hosts && hosts[h].status == HostActive ==> hosts[h] in rows
    {
      var ids := Select(set h | h in hosts && hosts[h].status == HostActive);
      rows := [];
      for i := 0 to |ids|
        invariant |rows| == i
        invariant forall k :: 0 <= k < i ==> ids[k] in hosts && rows[k] == hosts[ids[k]]
      {
        assert ids[i] in ids;
        rows := rows + [hosts[ids[i]]];
      }
      forall k | 0 <= k < |rows|
        ensures rows[k].id in hosts && hosts[rows[k].id] == rows[k] && rows[k].status == HostActive
      {
        assert ids[k] in ids;
      }
      forall h | h in hosts && hosts[h].status == HostActive
        ensures hosts[h] in rows
      {
        assert h in ids;
        var k :| 0 <= k < |ids| && ids[k] == h;
        assert rows[k] == hosts[h];
      }
    }
  }
}
