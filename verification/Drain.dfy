/** Emptying the hosts that are being drained: the choice of targets, and when a host goes
    offline. */
module Drain {
  import opened Fleet
  import opened Scheduler
  import opened RouterSync
  import opened Regions
  import opened Agreement
  import Operations

  /** What became of one VM: the clock readings of its two choices, and the target, if any. */
  datatype Attempt = Attempt(vm: VmId, source: HostId, nearAt: int, farAt: int, target: Option<HostId>)

  function Anywhere(vm: VmRow): Request {
    Request(vm.vcpus, vm.memoryMb, true, None)
  }

  /** A placement labelled with the VM's region is tried first. */
  function InItsRegion(vm: VmRow, region: string): Request {
    Request(vm.vcpus, vm.memoryMb, true, Some(Obj(map["region" := Str(region)])))
  }

  /** Active, seen within the last minute, and with the vCPUs and the memory left for the VM. */
  predicate CanTake(hosts: map<HostId, HostRow>, h: HostId, vm: VmRow, now: int) {
    && h in hosts && hosts[h].status == HostActive && now - hosts[h].lastSeenAt <= 60
    && hosts[h].vcpuTotal - hosts[h].vcpuUsed >= vm.vcpus && hosts[h].memTotalMb - hosts[h].memUsedMb >= vm.memoryMb
  }

  lemma AnywhereMeans(hosts: map<HostId, HostRow>, vm: VmRow, now: int)
    ensures forall h :: Eligible(hosts, h, Anywhere(vm), now) <==> CanTake(hosts, h, vm, now)
  {
  }

  lemma RegionRequestIff(hosts: map<HostId, HostRow>, h: HostId, vm: VmRow, region: string, now: int)
    requires h in hosts
    ensures Eligible(hosts, h, InItsRegion(vm, region), now) <==>
      CanTake(hosts, h, vm, now) && RegionLabel(hosts[h].labels) == Some(region)
  {
    AnywhereMeans(hosts, vm, now);
    var wanted := map["region" := Str(region)];
    assert InItsRegion(vm, region).labels.value.fields == wanted;
    assert "region" in wanted;
  }

  ghost predicate AnyTarget(hosts: map<HostId, HostRow>, vm: VmRow, now: int) {
    exists h :: CanTake(hosts, h, vm, now)
  }

  ghost predicate RegionHasTarget(hosts: map<HostId, HostRow>, vm: VmRow, now: int) {
    exists h :: CanTake(hosts, h, vm, now) && RegionLabel(hosts[h].labels) == vm.region
  }

  /** The host can take the VM and no host that could has more free memory. */
  ghost predicate RoomiestAnywhere(hosts: map<HostId, HostRow>, vm: VmRow, target: HostId, now: int) {
    CanTake(hosts, target, vm, now) && forall g :: CanTake(hosts, g, vm, now) ==> FreeMem(hosts[g]) <= FreeMem(hosts[target])
  }

  /** The same among the hosts of the VM's region. */
  ghost predicate RoomiestInRegion(hosts: map<HostId, HostRow>, vm: VmRow, target: HostId, now: int) {
    && CanTake(hosts, target, vm, now) && RegionLabel(hosts[target].labels) == vm.region
    && forall g :: CanTake(hosts, g, vm, now) && RegionLabel(hosts[g].labels) == vm.region ==>
      FreeMem(hosts[g]) <= FreeMem(hosts[target])
  }

  /** In the VM's region whenever some host there can take it; else anywhere; none only when no
      host at all can take it. Each of the two choices has its own clock reading. */
  ghost predicate GoodChoice(hosts: map<HostId, HostRow>, vm: VmRow, nearAt: int, farAt: int, target: Option<HostId>) {
    if vm.region.Some? && RegionHasTarget(hosts, vm, nearAt)
    then target.Some? && RoomiestInRegion(hosts, vm, target.value, nearAt)
    else if AnyTarget(hosts, vm, farAt)
    then target.Some? && RoomiestAnywhere(hosts, vm, target.value, farAt)
    else target.None?
  }

  method ReadClock() returns (now: int) {
    now := *;
  }

  method ChooseNear(db: Database, vm: VmRow, region: string, now: int) returns (r: Option<HostId>)
    requires db.Valid() && vm.region == Some(region)
    ensures r.Some? <==> RegionHasTarget(db.hosts, vm, now)
    ensures r.Some? ==> RoomiestInRegion(db.hosts, vm, r.value, now)
  {
    forall h | h in db.hosts
      ensures Eligible(db.hosts, h, InItsRegion(vm, region), now) <==>
        CanTake(db.hosts, h, vm, now) && RegionLabel(db.hosts[h].labels) == Some(region)
    {
      RegionRequestIff(db.hosts, h, vm, region, now);
    }
    var near := PickHost(db, InItsRegion(vm, region), now);
    if near.Err? {
      return None;
    }
    assert CanTake(db.hosts, near.value.id, vm, now);
    r := Some(near.value.id);
  }

  method ChooseFar(db: Database, vm: VmRow, now: int) returns (r: Option<HostId>)
    requires db.Valid()
    ensures r.Some? <==> AnyTarget(db.hosts, vm, now)
    ensures r.Some? ==> RoomiestAnywhere(db.hosts, vm, r.value, now)
  {
    AnywhereMeans(db.hosts, vm, now);
    var far := PickHost(db, Anywhere(vm), now);
    if far.Err? {
      return None;
    }
    assert CanTake(db.hosts, far.value.id, vm, now);
    r := Some(far.value.id);
  }

  /** The clock is read at each choice. */
  method ChooseTarget(db: Database, vm: VmRow) returns (nearAt: int, farAt: int, target: Option<HostId>)
    requires db.Valid()
    ensures GoodChoice(db.hosts, vm, nearAt, farAt, target)
  {
    nearAt := ReadClock();
    farAt := nearAt;
    if vm.region.Some? {
      target := ChooseNear(db, vm, vm.region.value, nearAt);
      if target.Some? {
        return;
      }
      farAt := ReadClock();
    }
    target := ChooseFar(db, vm, farAt);
  }

  /** What a good choice means: the target is an active host, fresh at one of the readings and
      large enough, and in the VM's region if any such host there can take it; there is none only
      if no host can take the VM. */
  lemma GoodChoiceMeans(hosts: map<HostId, HostRow>, vm: VmRow, nearAt: int, farAt: int, target: Option<HostId>)
    requires GoodChoice(hosts, vm, nearAt, farAt, target)
    ensures target.Some? ==> CanTake(hosts, target.value, vm, nearAt) || CanTake(hosts, target.value, vm, farAt)
    ensures target.Some? ==> target.value in hosts && hosts[target.value].status == HostActive
    ensures vm.region.Some? && RegionHasTarget(hosts, vm, nearAt) ==>
      target.Some? && RegionLabel(hosts[target.value].labels) == vm.region
    ensures target.None? ==> !AnyTarget(hosts, vm, farAt)
  {
  }

  // What one tick attempts.

  /** The attempt is about a VM of a draining host that is not stopped, and its target, another
      host, is chosen well. */
  ghost predicate GoodAttempt(vms: VmTable, hosts: map<HostId, HostRow>, m: Attempt) {
    && m.vm in vms && vms[m.vm].host == Some(m.source) && !vms[m.vm].status.Stopped?
    && m.source in hosts && hosts[m.source].status == HostDraining
    && GoodChoice(hosts, vms[m.vm], m.nearAt, m.farAt, m.target) && m.target != Some(m.source)
  }

  ghost predicate Mentions(log: seq<Attempt>, vm: VmId) {
    exists k :: 0 <= k < |log| && log[k].vm == vm
  }

  /** The log has one good attempt for each of the VMs, and no other. */
  ghost predicate Logged(vms: VmTable, hosts: map<HostId, HostRow>, todo: set<VmId>, log: seq<Attempt>) {
    && (forall m :: m in log ==> m.vm in todo && GoodAttempt(vms, hosts, m))
    && (forall i, j :: 0 <= i < j < |log| ==> log[i].vm != log[j].vm)
    && (forall id :: id in todo ==> Mentions(log, id))
  }

  lemma LoggedTogether(vms: VmTable, hosts: map<HostId, HostRow>, some: set<VmId>, log: seq<Attempt>,
                       more: set<VmId>, tail: seq<Attempt>)
    requires Logged(vms, hosts, some, log) && Logged(vms, hosts, more, tail) && some !! more
    ensures Logged(vms, hosts, some + more, log + tail)
  {
    forall id | id in some + more ensures Mentions(log + tail, id) {
      if id in some {
        var k :| 0 <= k < |log| && log[k].vm == id;
        assert (log + tail)[k].vm == id;
      } else {
        var k :| 0 <= k < |tail| && tail[k].vm == id;
        assert (log + tail)[|log| + k].vm == id;
      }
    }
    var both := log + tail;
    forall i, j | 0 <= i < j < |both| ensures both[i].vm != both[j].vm {
      if i < |log| <= j {
        assert both[i] in log && both[j] in tail;
      }
    }
  }

  lemma LoggedOne(vms: VmTable, hosts: map<HostId, HostRow>, m: Attempt)
    requires GoodAttempt(vms, hosts, m)
    ensures Logged(vms, hosts, {m.vm}, [m])
  {
    assert [m][0].vm == m.vm;
  }

  /** A completed migration records the target and, if it is labelled, its region. */
  predicate Completed(row: VmRow, row': VmRow, hosts: map<HostId, HostRow>, target: HostId) {
    && target in hosts && row'.host == Some(target)
    && row'.region == if RegionLabel(hosts[target].labels).Some? then RegionLabel(hosts[target].labels) else row.region
  }

  /** What a migration, completed or not, leaves alone. Stopping, snapshot and restore write status,
      process and device on the way. */
  predicate Transferred(row: VmRow, row': VmRow) {
    row' == row.(host := row'.host, region := row'.region, status := row'.status, pid := row'.pid, tap := row'.tap)
  }

  predicate Migrated(row: VmRow, row': VmRow, hosts: map<HostId, HostRow>, target: HostId) {
    && Transferred(row, row')
    && ((row'.host == row.host && row'.region == row.region) || Completed(row, row', hosts, target))
  }

  /** Rows only ever change by migrations to active hosts; rows of the hosts outside `sources`
      stay. */
  ghost predicate MovedOff(vms: VmTable, vms': VmTable, hosts: map<HostId, HostRow>, sources: set<HostId>) {
    && vms'.Keys == vms.Keys
    && forall id :: id in vms ==> vms'[id] == vms[id] || Moved(vms[id], vms'[id], hosts, sources)
  }

  predicate Moved(row: VmRow, row': VmRow, hosts: map<HostId, HostRow>, sources: set<HostId>) {
    && row.host.Some? && row.host.value in sources && row'.host.Some? && row'.host.value in hosts
    && Transferred(row, row')
    && ((row'.host == row.host && row'.region == row.region) ||
        (Completed(row, row', hosts, row'.host.value) && hosts[row'.host.value].status == HostActive))
  }

  lemma MovedOffKeepsUnique(vms: VmTable, vms': VmTable, hosts: map<HostId, HostRow>, sources: set<HostId>)
    requires MovedOff(vms, vms', hosts, sources) && UniqueSubdomains(vms)
    ensures UniqueSubdomains(vms')
  {
    forall i, j | i in vms' && j in vms' && vms'[i].subdomain == vms'[j].subdomain ensures i == j {
      assert vms[i].subdomain == vms'[i].subdomain && vms[j].subdomain == vms'[j].subdomain;
    }
  }

  /** A row changed only where an attempt with a target was made for the VM, and its host only to
      that target. */
  ghost predicate Followed(vms: VmTable, vms': VmTable, log: seq<Attempt>) {
    forall id :: id in vms ==> id in vms' && (vms'[id] == vms[id] || MovedBy(log, id, vms[id], vms'[id]))
  }

  predicate MovedBy(log: seq<Attempt>, id: VmId, row: VmRow, row': VmRow) {
    exists m :: m in log && m.vm == id && m.target.Some? && (row'.host == row.host || row'.host == m.target)
  }

  lemma FollowedTogether(vms: VmTable, mid: VmTable, vms': VmTable, log: seq<Attempt>, more: seq<Attempt>)
    requires Followed(vms, mid, log) && Followed(mid, vms', more)
    ensures Followed(vms, vms', log + more)
  {
    forall id | id in vms ensures vms'[id] == vms[id] || MovedBy(log + more, id, vms[id], vms'[id]) {
      if vms'[id] != mid[id] {
        var m :| m in more && m.vm == id && m.target.Some? && (vms'[id].host == mid[id].host || vms'[id].host == m.target);
        assert m in log + more;
      }
      if mid[id] != vms[id] {
        var m :| m in log && m.vm == id && m.target.Some? && (mid[id].host == vms[id].host || mid[id].host == m.target);
        assert m in log + more;
      }
    }
  }

  predicate AllStopped(vms: VmTable, host: HostId) {
    forall id :: id in vms && vms[id].host == Some(host) ==> vms[id].status.Stopped?
  }

  /** The VMs of these hosts that are not stopped. */
  function LiveOn(vms: VmTable, sources: set<HostId>): set<VmId> {
    set id | id in vms && vms[id].host.Some? && vms[id].host.value in sources && !vms[id].status.Stopped?
  }

  /** The emptied hosts among `done` are offline; no other host changed. */
  ghost predicate Flipped(vms: VmTable, hosts: map<HostId, HostRow>, hosts': map<HostId, HostRow>, done: set<HostId>) {
    && hosts'.Keys == hosts.Keys
    && forall h :: h in hosts ==>
      hosts'[h] == if h in done && AllStopped(vms, h) then hosts[h].(status := HostOffline) else hosts[h]
  }

  /** Hosts that go offline were draining, so no VM's possible targets change. */
  lemma FlippedKeepsChoices(vms: VmTable, hosts: map<HostId, HostRow>, hosts': map<HostId, HostRow>, done: set<HostId>,
                            vm: VmRow, nearAt: int, farAt: int, target: Option<HostId>)
    requires Flipped(vms, hosts, hosts', done) && done <= Draining(hosts)
    ensures GoodChoice(hosts', vm, nearAt, farAt, target) <==> GoodChoice(hosts, vm, nearAt, farAt, target)
  {
    forall h, now ensures CanTake(hosts', h, vm, now) <==> CanTake(hosts, h, vm, now) {
      assert h in hosts ==> hosts'[h].labels == hosts[h].labels;
    }
    assert forall h :: h in hosts ==> hosts'[h].labels == hosts[h].labels && FreeMem(hosts'[h]) == FreeMem(hosts[h]);
    assert forall now :: RegionHasTarget(hosts', vm, now) <==> RegionHasTarget(hosts, vm, now);
    assert forall now :: AnyTarget(hosts', vm, now) <==> AnyTarget(hosts, vm, now);
  }

  function Draining(hosts: map<HostId, HostRow>): set<HostId> {
    set h | h in hosts && hosts[h].status == HostDraining
  }

  class DrainWatcher {
    const db: Database
    var log: seq<Attempt>

    constructor (db: Database)
      ensures this.db == db && log == []
    {
      this.db := db;
      log := [];
    }

    /** The migration is started and may fail; if it succeeds the VM's row is on the target. */
    method MigrateVm(m: Attempt)
      requires m.target.Some? && m.target.value in db.hosts && m.vm in db.vms
      modifies this`log, db`vms
      ensures log == old(log) + [m]
      ensures m.vm in db.vms && db.vms == old(db.vms)[m.vm := db.vms[m.vm]]
      ensures Migrated(old(db.vms)[m.vm], db.vms[m.vm], db.hosts, m.target.value)
    {
      log := log + [m];
      var row := db.vms[m.vm];
      var status: Status, pid: Option<int>, tap: Option<string> := *, *, *;
      db.vms := db.vms[m.vm := row.(status := status, pid := pid, tap := tap)];
      if * {
        db.SetVmHost(m.vm, m.target.value);
        var region := RegionLabel(db.hosts[m.target.value].labels);
        if region.Some? {
          db.SetVmRegion(m.vm, region.value);
        }
      }
    }

    /** One VM of a draining host: migrated exactly when the choice finds a target. */
    method DrainVm(id: VmId, vm: VmRow, host: HostId)
      requires db.Valid() && id in db.vms && db.vms[id] == vm && vm.host == Some(host) && !vm.status.Stopped?
      requires host in db.hosts && db.hosts[host].status == HostDraining
      modifies this`log, db`vms
      ensures MovedOff(old(db.vms), db.vms, db.hosts, {host})
      ensures forall j :: j in old(db.vms) && j != id ==> db.vms[j] == old(db.vms)[j]
      ensures old(log) <= log && Logged(old(db.vms), db.hosts, {id}, log[|old(log)|..])
      ensures Followed(old(db.vms), db.vms, log[|old(log)|..])
    {
      var nearAt, farAt, target := ChooseTarget(db, vm);
      GoodChoiceMeans(db.hosts, vm, nearAt, farAt, target);
      var m := Attempt(id, host, nearAt, farAt, target);
      LoggedOne(db.vms, db.hosts, m);
      if target.Some? && target.value != host {
        MigrateVm(m);
      } else {
        log := log + [m];
      }
      assert log[|old(log)|..] == [m];
      assert [m][0] == m && m in [m];
    }

    /** The k-th VM of a host whose rows were `vms` when its turn began. */
    method DrainNextVm(vms: VmTable, ids: seq<VmId>, k: nat, host: HostId, ghost added: seq<Attempt>)
      requires UniqueSubdomains(vms) && (forall h :: h in db.hosts ==> db.hosts[h].id == h)
      requires host in db.hosts && db.hosts[host].status == HostDraining
      requires NoDuplicates(ids) && k < |ids|
      requires forall id :: id in ids ==> id in vms && vms[id].host == Some(host) && !vms[id].status.Stopped?
      requires DrainedUpTo(vms, db.vms, db.hosts, host, ids, k, added)
      modifies this`log, db`vms
      ensures old(log) <= log
      ensures DrainedUpTo(vms, db.vms, db.hosts, host, ids, k + 1, added + log[|old(log)|..])
    {
      var id := ids[k];
      assert id in ids;
      MovedOffKeepsUnique(vms, db.vms, db.hosts, {host});
      ghost var mid := db.vms;
      DrainVm(id, vms[id], host);
      DrainedStep(vms, mid, db.vms, db.hosts, host, ids, k, added, log[|old(log)|..]);
    }

    /** The VMs of one draining host, over the rows fetched at its turn. */
    method DrainVms(host: HostId, vms: VmTable, ids: seq<VmId>)
      requires db.Valid() && db.vms == vms && host in db.hosts && db.hosts[host].status == HostDraining
      requires NoDuplicates(ids)
      requires forall id :: id in ids ==> id in vms && vms[id].host == Some(host) && !vms[id].status.Stopped?
      modifies this`log, db`vms
      ensures MovedOff(vms, db.vms, db.hosts, {host})
      ensures old(log) <= log && Logged(vms, db.hosts, Elements(ids), log[|old(log)|..])
      ensures Followed(vms, db.vms, log[|old(log)|..])
    {
      ghost var before := log;
      ghost var added: seq<Attempt> := [];
      for k := 0 to |ids|
        invariant log == before + added && DrainedUpTo(vms, db.vms, db.hosts, host, ids, k, added)
      {
        ghost var mid := log;
        DrainNextVm(vms, ids, k, host, added);
        added := added + log[|mid|..];
      }
      assert ids[..|ids|] == ids;
      assert log[|before|..] == added;
    }

    /** One draining host: offline if all its VMs are stopped, otherwise its VMs are drained. */
    method DrainHost(host: HostId)
      requires db.Valid() && host in db.hosts && db.hosts[host].status == HostDraining
      modifies this`log, db`vms, db`hosts
      ensures db.Valid()
      ensures MovedOff(old(db.vms), db.vms, old(db.hosts), {host})
      ensures Flipped(old(db.vms), old(db.hosts), db.hosts, {host})
      ensures old(log) <= log && Logged(old(db.vms), old(db.hosts), LiveOn(old(db.vms), {host}), log[|old(log)|..])
      ensures Followed(old(db.vms), db.vms, log[|old(log)|..])
    {
      var vms := db.vms;
      var ids := Select(LiveOn(vms, {host}));
      if |ids| == 0 {
        assert LiveOn(vms, {host}) == {};
        assert AllStopped(vms, host) by {
          forall id | id in vms && vms[id].host == Some(host) ensures vms[id].status.Stopped? {
            assert id !in LiveOn(vms, {host});
          }
        }
        db.SetHostStatus(host, HostOffline);
        return;
      }
      assert ids[0] in LiveOn(vms, {host}) && !AllStopped(vms, host);
      DrainVms(host, vms, ids);
      assert Elements(ids) == LiveOn(vms, {host});
      MovedOffKeepsUnique(vms, db.vms, db.hosts, {host});
    }

    /** The next draining host of a tick that began with the tables `vms` and `hosts`. */
    method DrainNext(host: HostId, ghost vms: VmTable, ghost hosts: map<HostId, HostRow>,
                     ghost done: set<HostId>, ghost added: seq<Attempt>)
      requires db.Valid() && done <= Draining(hosts) && host in Draining(hosts) && host !in done
      requires TickUpTo(vms, hosts, db.vms, db.hosts, done, added)
      modifies this`log, db`vms, db`hosts
      ensures db.Valid() && old(log) <= log
      ensures TickUpTo(vms, hosts, db.vms, db.hosts, done + {host}, added + log[|old(log)|..])
    {
      ghost var midVms, midHosts := db.vms, db.hosts;
      assert midHosts[host] == hosts[host];
      DrainHost(host);
      TickStep(vms, hosts, midVms, midHosts, db.vms, db.hosts, done, host, added, log[|old(log)|..]);
    }

    /** The turns of the draining hosts. */
    method TakeTurns()
      requires db.Valid()
      modifies this`log, db`vms, db`hosts
      ensures db.Valid() && old(log) <= log
      ensures TickUpTo(old(db.vms), old(db.hosts), db.vms, db.hosts, Draining(old(db.hosts)), log[|old(log)|..])
    {
      ghost var vms, hosts, before := db.vms, db.hosts, log;
      var draining := Select(Draining(db.hosts));
      NoTurnsYet(vms, hosts);
      ghost var done, added: seq<Attempt> := {}, [];
      for k := 0 to |draining|
        invariant db.Valid() && log == before + added && done == Elements(draining[..k])
        invariant TickUpTo(vms, hosts, db.vms, db.hosts, done, added)
      {
        var host := draining[k];
        ghost var mid := log;
        NextTurn(draining, k);
        DrainNext(host, vms, hosts, done, added);
        added := added + log[|mid|..];
        done := done + {host};
      }
      assert draining[..|draining|] == draining;
      assert done == Draining(hosts);
      assert log[|before|..] == added;
    }

    /** One tick. A draining host goes offline exactly when all its VMs are stopped, and no other host
        changes. Every VM of a draining host that is not stopped is attempted once: it is aimed at the
        roomiest host of its region that can take it, else the roomiest of all, never its own, and
        its row stays or is on that very host. No other row changes. */
    method DrainTick()
      requires db.Valid()
      modifies this`log, db`vms, db`hosts
      ensures db.Valid() && old(log) <= log
      ensures TickUpTo(old(db.vms), old(db.hosts), db.vms, db.hosts, Draining(old(db.hosts)), log[|old(log)|..])
      // The hosts.
      ensures db.hosts.Keys == old(db.hosts).Keys && db.vms.Keys == old(db.vms).Keys
      ensures forall h :: h in db.hosts ==>
        var row := old(db.hosts)[h];
        var empty := forall id :: id in old(db.vms) && old(db.vms)[id].host == Some(h) ==> old(db.vms)[id].status == Stopped;
        db.hosts[h] == if row.status == HostDraining && empty then row.(status := HostOffline) else row
      // The attempts.
      ensures var added := log[|old(log)|..];
        && (forall i, j :: 0 <= i < j < |added| ==> added[i].vm != added[j].vm)
        && (forall id :: MustMove(old(db.vms), old(db.hosts), id) <==> Mentions(added, id))
        && (forall m :: m in added ==>
              && m.vm in old(db.vms) && old(db.vms)[m.vm].host == Some(m.source) != m.target
              && WellAimed(old(db.hosts), old(db.vms)[m.vm], m.nearAt, m.farAt, m.target))
      // The rows.
      ensures forall id :: id in db.vms && !MustMove(old(db.vms), old(db.hosts), id) ==> db.vms[id] == old(db.vms)[id]
      ensures forall m :: m in log[|old(log)|..] ==>
        && m.vm in old(db.vms)
        && if m.target.Some? then
             db.vms[m.vm] == old(db.vms)[m.vm] || MovedTo(old(db.vms)[m.vm], db.vms[m.vm], old(db.hosts), m.target.value)
           else db.vms[m.vm] == old(db.vms)[m.vm]
    {
      ghost var vms, hosts, before := db.vms, db.hosts, log;
      TakeTurns();
      TickMeans(vms, hosts, db.vms, db.hosts, log[|before|..]);
    }
  }

  // What a tick does, said of the columns.

  /** The host's labels carry the VM's region. */
  predicate InRegionOf(h: HostRow, vm: VmRow) {
    vm.region.Some? && h.labels.Obj? && "region" in h.labels.fields && h.labels.fields["region"] == Str(vm.region.value)
  }

  /** The target has the most free memory of the hosts of the VM's region that can take it, else of
      all that can; there is none if no host can. */
  ghost predicate WellAimed(hosts: map<HostId, HostRow>, vm: VmRow, nearAt: int, farAt: int, target: Option<HostId>) {
    if exists h :: CanTake(hosts, h, vm, nearAt) && InRegionOf(hosts[h], vm) then
      && target.Some? && CanTake(hosts, target.value, vm, nearAt) && InRegionOf(hosts[target.value], vm)
      && forall g :: CanTake(hosts, g, vm, nearAt) && InRegionOf(hosts[g], vm) ==>
        hosts[g].memTotalMb - hosts[g].memUsedMb <= hosts[target.value].memTotalMb - hosts[target.value].memUsedMb
    else if exists h :: CanTake(hosts, h, vm, farAt) then
      && target.Some? && CanTake(hosts, target.value, vm, farAt)
      && forall g :: CanTake(hosts, g, vm, farAt) ==>
        hosts[g].memTotalMb - hosts[g].memUsedMb <= hosts[target.value].memTotalMb - hosts[target.value].memUsedMb
    else target.None?
  }

  lemma ChoiceMeans(hosts: map<HostId, HostRow>, vm: VmRow, nearAt: int, farAt: int, target: Option<HostId>)
    ensures GoodChoice(hosts, vm, nearAt, farAt, target) <==> WellAimed(hosts, vm, nearAt, farAt, target)
  {
    assert vm.region.Some? ==> forall h :: h in hosts ==> (RegionLabel(hosts[h].labels) == vm.region <==> InRegionOf(hosts[h], vm));
    assert vm.region.Some? && RegionHasTarget(hosts, vm, nearAt) <==> exists h :: CanTake(hosts, h, vm, nearAt) && InRegionOf(hosts[h], vm);
  }

  /** The row is on a draining host and not stopped. */
  predicate MustMove(vms: VmTable, hosts: map<HostId, HostRow>, id: VmId) {
    && id in vms && vms[id].host.Some? && vms[id].host.value in hosts
    && hosts[vms[id].host.value].status == HostDraining && vms[id].status != Stopped
  }

  /** The row after an attempt with this target: in its place, or on the target, whose region it
      then has, if that is labelled. */
  predicate MovedTo(row: VmRow, row': VmRow, hosts: map<HostId, HostRow>, target: HostId) {
    && target in hosts
    && row' == row.(host := row'.host, region := row'.region, status := row'.status, pid := row'.pid, tap := row'.tap)
    && ((row'.host == row.host && row'.region == row.region) ||
        (row'.host == Some(target) &&
         if HasRegion(hosts[target]) then InRegionOf(hosts[target], row') else row'.region == row.region))
  }

  predicate HasRegion(h: HostRow) {
    h.labels.Obj? && "region" in h.labels.fields && h.labels.fields["region"].Str?
  }

  /** What became of a VM that was attempted. */
  lemma AttemptMeans(vms: VmTable, hosts: map<HostId, HostRow>, vms': VmTable, added: seq<Attempt>, m: Attempt)
    requires MovedOff(vms, vms', hosts, Draining(hosts)) && Followed(vms, vms', added)
    requires Logged(vms, hosts, LiveOn(vms, Draining(hosts)), added) && m in added
    ensures MustMove(vms, hosts, m.vm) && vms[m.vm].host == Some(m.source) != m.target && m.vm in vms'
    ensures WellAimed(hosts, vms[m.vm], m.nearAt, m.farAt, m.target)
    ensures if m.target.Some? then vms'[m.vm] == vms[m.vm] || MovedTo(vms[m.vm], vms'[m.vm], hosts, m.target.value)
            else vms'[m.vm] == vms[m.vm]
  {
    assert GoodAttempt(vms, hosts, m);
    ChoiceMeans(hosts, vms[m.vm], m.nearAt, m.farAt, m.target);
    if vms'[m.vm] != vms[m.vm] {
      assert MovedBy(added, m.vm, vms[m.vm], vms'[m.vm]);
      var n :| n in added && n.vm == m.vm && n.target.Some? && (vms'[m.vm].host == vms[m.vm].host || vms'[m.vm].host == n.target);
      OnceInTheLog(added, m, n);
      assert Moved(vms[m.vm], vms'[m.vm], hosts, Draining(hosts));
    }
  }

  lemma OnceInTheLog(log: seq<Attempt>, m: Attempt, n: Attempt)
    requires forall i, j :: 0 <= i < j < |log| ==> log[i].vm != log[j].vm
    requires m in log && n in log && m.vm == n.vm
    ensures m == n
  {
    var i :| 0 <= i < |log| && log[i] == m;
    var j :| 0 <= j < |log| && log[j] == n;
    assert i == j;
  }

  lemma TickMeans(vms: VmTable, hosts: map<HostId, HostRow>, vms': VmTable, hosts': map<HostId, HostRow>, added: seq<Attempt>)
    requires TickUpTo(vms, hosts, vms', hosts', Draining(hosts), added)
    ensures hosts'.Keys == hosts.Keys && vms'.Keys == vms.Keys
    ensures forall h :: h in hosts ==>
      hosts'[h] == if hosts[h].status == HostDraining && forall id :: id in vms && vms[id].host == Some(h) ==> vms[id].status == Stopped
                   then hosts[h].(status := HostOffline) else hosts[h]
    ensures forall i, j :: 0 <= i < j < |added| ==> added[i].vm != added[j].vm
    ensures forall id :: MustMove(vms, hosts, id) <==> Mentions(added, id)
    ensures forall m :: m in added ==>
      && MustMove(vms, hosts, m.vm) && vms[m.vm].host == Some(m.source) != m.target
      && WellAimed(hosts, vms[m.vm], m.nearAt, m.farAt, m.target)
      && if m.target.Some? then vms'[m.vm] == vms[m.vm] || MovedTo(vms[m.vm], vms'[m.vm], hosts, m.target.value)
         else vms'[m.vm] == vms[m.vm]
    ensures forall id :: id in vms && !Mentions(added, id) ==> vms'[id] == vms[id]
  {
    forall id ensures MustMove(vms, hosts, id) <==> Mentions(added, id) {
      assert MustMove(vms, hosts, id) <==> id in LiveOn(vms, Draining(hosts));
      if Mentions(added, id) {
        var k :| 0 <= k < |added| && added[k].vm == id;
        assert added[k] in added;
      }
    }
    forall m | m in added
      ensures MustMove(vms, hosts, m.vm) && vms[m.vm].host == Some(m.source) != m.target
      ensures WellAimed(hosts, vms[m.vm], m.nearAt, m.farAt, m.target)
      ensures if m.target.Some? then vms'[m.vm] == vms[m.vm] || MovedTo(vms[m.vm], vms'[m.vm], hosts, m.target.value)
              else vms'[m.vm] == vms[m.vm]
    {
      AttemptMeans(vms, hosts, vms', added, m);
    }
    forall id | id in vms && !Mentions(added, id) ensures vms'[id] == vms[id] {
      if vms'[id] != vms[id] {
        NotMovedUnnamed(added, id, vms[id], vms'[id]);
      }
    }
  }

  lemma NotMovedUnnamed(log: seq<Attempt>, id: VmId, row: VmRow, row': VmRow)
    requires !Mentions(log, id)
    ensures !MovedBy(log, id, row, row')
  {
    forall m | m in log ensures m.vm != id {
      var k :| 0 <= k < |log| && log[k] == m;
    }
  }

  lemma NoTurnsYet(vms: VmTable, hosts: map<HostId, HostRow>)
    ensures TickUpTo(vms, hosts, vms, hosts, {}, [])
  {
    assert LiveOn(vms, {}) == {};
  }

  lemma NextTurn(ids: seq<string>, k: nat)
    requires k < |ids| && NoDuplicates(ids)
    ensures ids[k] in ids && ids[k] !in Elements(ids[..k])
    ensures Elements(ids[..k + 1]) == Elements(ids[..k]) + {ids[k]}
    ensures Elements(ids[..k]) <= Elements(ids)
  {
  }

  /** The state of a host's loop before its k-th VM. */
  ghost predicate DrainedUpTo(vms: VmTable, vms': VmTable, hosts: map<HostId, HostRow>, host: HostId,
                              ids: seq<VmId>, k: nat, added: seq<Attempt>)
    requires k <= |ids|
  {
    && MovedOff(vms, vms', hosts, {host})
    && (forall j :: k <= j < |ids| ==> ids[j] in vms && ids[j] in vms' && vms'[ids[j]] == vms[ids[j]])
    && Logged(vms, hosts, Elements(ids[..k]), added) && Followed(vms, vms', added)
  }

  lemma DrainedStep(vms: VmTable, mid: VmTable, vms': VmTable, hosts: map<HostId, HostRow>, host: HostId,
                    ids: seq<VmId>, k: nat, added: seq<Attempt>, more: seq<Attempt>)
    requires k < |ids| && NoDuplicates(ids) && DrainedUpTo(vms, mid, hosts, host, ids, k, added)
    requires MovedOff(mid, vms', hosts, {host})
    requires forall j :: j in mid && j != ids[k] ==> vms'[j] == mid[j]
    requires Logged(mid, hosts, {ids[k]}, more) && Followed(mid, vms', more)
    ensures DrainedUpTo(vms, vms', hosts, host, ids, k + 1, added + more)
  {
    LoggedOnThatRow(mid, vms, hosts, ids[k], more);
    assert ids[k] !in Elements(ids[..k]);
    LoggedTogether(vms, hosts, Elements(ids[..k]), added, {ids[k]}, more);
    assert Elements(ids[..k + 1]) == Elements(ids[..k]) + {ids[k]};
    MovedOffOnce(vms, mid, vms', hosts, host, ids[k]);
    FollowedTogether(vms, mid, vms', added, more);
  }

  function Elements(ids: seq<string>): set<string> {
    set id | id in ids
  }

  /** The tick so far: the emptied hosts among `done` are offline and no other host changed,
      rows moved off `done` only, and each live VM there was attempted once, with a good choice. */
  ghost predicate TickUpTo(vms: VmTable, hosts: map<HostId, HostRow>, vms': VmTable, hosts': map<HostId, HostRow>,
                           done: set<HostId>, added: seq<Attempt>)
  {
    && Flipped(vms, hosts, hosts', done) && MovedOff(vms, vms', hosts, done)
    && Logged(vms, hosts, LiveOn(vms, done), added) && Followed(vms, vms', added)
  }

  lemma TickStep(vms: VmTable, hosts: map<HostId, HostRow>, mid: VmTable, midHosts: map<HostId, HostRow>,
                 vms': VmTable, hosts': map<HostId, HostRow>, done: set<HostId>, host: HostId,
                 added: seq<Attempt>, more: seq<Attempt>)
    requires done <= Draining(hosts) && host in Draining(hosts) && host !in done
    requires TickUpTo(vms, hosts, mid, midHosts, done, added)
    requires TickUpTo(mid, midHosts, vms', hosts', {host}, more)
    ensures TickUpTo(vms, hosts, vms', hosts', done + {host}, added + more)
  {
    HostLogged(vms, hosts, mid, midHosts, done, host, more);
    FlippedStep(vms, hosts, mid, midHosts, hosts', done, host);
    MovedOffStep(vms, mid, vms', hosts, midHosts, done, host);
    LoggedTogether(vms, hosts, LiveOn(vms, done), added, LiveOn(vms, {host}), more);
    FollowedTogether(vms, mid, vms', added, more);
    assert LiveOn(vms, done) + LiveOn(vms, {host}) == LiveOn(vms, done + {host});
  }

  lemma LoggedOnThatRow(mid: VmTable, vms: VmTable, hosts: map<HostId, HostRow>, id: VmId, log: seq<Attempt>)
    requires id in mid && id in vms && mid[id] == vms[id] && Logged(mid, hosts, {id}, log)
    ensures Logged(vms, hosts, {id}, log)
  {
  }

  lemma MovedOffOnce(vms: VmTable, mid: VmTable, vms': VmTable, hosts: map<HostId, HostRow>, host: HostId, id: VmId)
    requires MovedOff(vms, mid, hosts, {host}) && MovedOff(mid, vms', hosts, {host})
    requires id in vms && mid[id] == vms[id] && forall j :: j in mid && j != id ==> vms'[j] == mid[j]
    ensures MovedOff(vms, vms', hosts, {host})
  {
  }

  /** Rows of a host that has not had its turn are as they were at the start of the tick. */
  lemma UntouchedYet(vms: VmTable, mid: VmTable, hosts: map<HostId, HostRow>, done: set<HostId>, host: HostId)
    requires MovedOff(vms, mid, hosts, done) && host !in done && host in hosts && hosts[host].status == HostDraining
    ensures forall id :: id in vms && vms[id].host == Some(host) ==> mid[id] == vms[id]
    ensures forall id :: id in vms && mid[id].host == Some(host) ==> mid[id] == vms[id]
    ensures LiveOn(mid, {host}) == LiveOn(vms, {host})
    ensures AllStopped(mid, host) <==> AllStopped(vms, host)
  {
    forall id | id in vms ensures mid[id].host == Some(host) || vms[id].host == Some(host) ==> mid[id] == vms[id] {
    }
  }

  lemma HostLogged(vms: VmTable, hosts: map<HostId, HostRow>, mid: VmTable, midHosts: map<HostId, HostRow>,
                   done: set<HostId>, host: HostId, log: seq<Attempt>)
    requires done <= Draining(hosts) && host in Draining(hosts) && host !in done
    requires MovedOff(vms, mid, hosts, done) && Flipped(vms, hosts, midHosts, done)
    requires Logged(mid, midHosts, LiveOn(mid, {host}), log)
    ensures Logged(vms, hosts, LiveOn(vms, {host}), log)
  {
    UntouchedYet(vms, mid, hosts, done, host);
    forall m | m in log ensures m.vm in LiveOn(vms, {host}) && GoodAttempt(vms, hosts, m) {
      FlippedKeepsChoices(vms, hosts, midHosts, done, vms[m.vm], m.nearAt, m.farAt, m.target);
    }
  }

  lemma FlippedStep(vms: VmTable, hosts: map<HostId, HostRow>, mid: VmTable, midHosts: map<HostId, HostRow>,
                    hosts': map<HostId, HostRow>, done: set<HostId>, host: HostId)
    requires done <= Draining(hosts) && host in Draining(hosts) && host !in done
    requires MovedOff(vms, mid, hosts, done)
    requires Flipped(vms, hosts, midHosts, done) && Flipped(mid, midHosts, hosts', {host})
    ensures Flipped(vms, hosts, hosts', done + {host})
  {
    UntouchedYet(vms, mid, hosts, done, host);
  }

  lemma MovedOffStep(vms: VmTable, mid: VmTable, vms': VmTable, hosts: map<HostId, HostRow>, midHosts: map<HostId, HostRow>,
                     done: set<HostId>, host: HostId)
    requires done <= Draining(hosts) && host in Draining(hosts) && host !in done
    requires MovedOff(vms, mid, hosts, done) && MovedOff(mid, vms', midHosts, {host})
    requires Flipped(vms, hosts, midHosts, done)
    ensures MovedOff(vms, vms', hosts, done + {host})
  {
    UntouchedYet(vms, mid, hosts, done, host);
    forall id | id in vms ensures vms'[id] == vms[id] || Moved(vms[id], vms'[id], hosts, done + {host}) {
      if vms'[id] != mid[id] {
        assert Moved(mid[id], vms'[id], midHosts, {host});
        assert mid[id] == vms[id];
      }
    }
  }

  // Where draining leaves the routes.

  lemma CorrectMigrationStays(site: Site, w: World, w': World, id: VmId)
    requires Agrees(site, w) && Wired(site, w') && w'.routes == w.routes && w'.hosts == w.hosts && id in w.vms && id in w'.vms
    requires w'.vms[id].subdomain == w.vms[id].subdomain && Correct(site, w', id)
    ensures HomeOf(site, w', id) == HomeOf(site, w, id) && TargetOf(w'.vms[id]) == TargetOf(w.vms[id])
  {
    Operations.RouteNamesHome(site, w, id, HomeOf(site, w', id));
    assert Correct(site, w, id);
  }

  /** A completed migration rewrites no route: it keeps an agreement exactly when the target is
      served by the instance the VM had before and the VM is routed as before. */
  lemma MigrationKeepsAgreementIff(site: Site, w: World, id: VmId, row: VmRow, target: HostId)
    requires Agrees(site, w) && id in w.vms && Transferred(w.vms[id], row) && Completed(w.vms[id], row, w.hosts, target)
    ensures Agrees(site, w.(vms := w.vms[id := row])) <==>
      site.router.ForHost(w.hosts[target]) == HomeOf(site, w, id) && TargetOf(row) == TargetOf(w.vms[id])
  {
    var w' := w.(vms := w.vms[id := row]);
    assert HomeOf(site, w', id) == site.router.ForHost(w.hosts[target]);
    if Agrees(site, w') {
      CorrectMigrationStays(site, w, w', id);
    } else if TargetOf(row) == TargetOf(w.vms[id]) {
      Operations.MoveKeepsAgreementIff(site, w, w');
    }
  }

  function DrainedHost(): HostRow {
    HostRow("h1", 4, 1, 4, 1, 0, HostDraining, Obj(map["region" := Str("q")]))
  }

  function OtherHost(): HostRow {
    HostRow("h2", 4, 1, 4, 1, 0, HostActive, Obj(map["region" := Str("r")]))
  }

  function FailedVm(): VmRow {
    VmRow("acct", Error, "s", 1, 1, "i", 80, None, None, Some("h1"), None, Some("q"), false)
  }

  function DrainingWorld(): World {
    World(map["v" := FailedVm()], map["h1" := DrainedHost(), "h2" := OtherHost()],
          map["c1" := map[Fqdn("s", "d") := ToStoppedPage], "c2" := map[]])
  }

  function TwoRegions(): Site {
    Site(CaddyRouter(map["q" := "c1", "r" := "c2"], "c1"), "d")
  }

  lemma DrainingWorldAgrees()
    ensures Agrees(TwoRegions(), DrainingWorld()) && HomeOf(TwoRegions(), DrainingWorld(), "v") == "c1"
  {
    var site, w := TwoRegions(), DrainingWorld();
    assert RegionLabel(w.hosts["h1"].labels) == Some("q");
    assert HomeOf(site, w, "v") == "c1";
    assert w.routes.Keys == {"c1", "c2"} == site.router.Bases() by {
      var clients := site.router.regionClients;
      assert clients["q"] == "c1" && clients["r"] == "c2";
      assert "c1" in clients.Values && "c2" in clients.Values;
    }
    forall base, fqdn | base in w.routes ensures fqdn in w.routes[base] <==> Owned(site, w, base, fqdn) {
      if base == "c1" && fqdn == Fqdn("s", "d") {
        assert HomeOf(site, w, "v") == base && NameOf(site, w.vms["v"].subdomain) == fqdn;
      }
    }
    assert Correct(site, w, "v");
  }

  lemma FallsBackOutsideRegion()
    ensures var w := DrainingWorld();
      GoodAttempt(w.vms, w.hosts, Attempt("v", "h1", 0, 0, Some("h2"))) && !RegionHasTarget(w.hosts, FailedVm(), 0)
  {
    var hosts, vm := DrainingWorld().hosts, FailedVm();
    assert RegionLabel(hosts["h2"].labels) == Some("r");
    assert CanTake(hosts, "h2", vm, 0) && !CanTake(hosts, "h1", vm, 0);
    assert !RegionHasTarget(hosts, vm, 0);
  }

  /** The row on its new host. */
  function MovedVm(): VmRow {
    FailedVm().(host := Some("h2"), region := Some("r"))
  }

  lemma MovedVmIsMisrouted()
    ensures Transferred(FailedVm(), MovedVm()) && Completed(FailedVm(), MovedVm(), DrainingWorld().hosts, "h2")
    ensures var w := DrainingWorld(); !Agrees(TwoRegions(), w.(vms := w.vms["v" := MovedVm()]))
  {
    var site, w := TwoRegions(), DrainingWorld();
    DrainingWorldAgrees();
    assert RegionLabel(w.hosts["h2"].labels) == Some("r");
    assert site.router.ForHost(w.hosts["h2"]) == "c2";
    MigrationKeepsAgreementIff(site, w, "v", MovedVm(), "h2");
  }

  ghost predicate DrainMisroutes(site: Site, w: World, m: Attempt, row: VmRow) {
    && Agrees(site, w) && GoodAttempt(w.vms, w.hosts, m) && m.target.Some?
    && !RegionHasTarget(w.hosts, w.vms[m.vm], m.nearAt)
    && Transferred(w.vms[m.vm], row) && Completed(w.vms[m.vm], row, w.hosts, m.target.value)
    && !Agrees(site, w.(vms := w.vms[m.vm := row]))
  }

  /** When no host of the VM's region can take it, the fallback can move it to one of another
      instance, and the agreement that held is broken. */
  lemma DrainBreaksAgreement()
    ensures exists site, w, m, row :: DrainMisroutes(site, w, m, row)
  {
    DrainingWorldAgrees();
    FallsBackOutsideRegion();
    MovedVmIsMisrouted();
    assert DrainMisroutes(TwoRegions(), DrainingWorld(), Attempt("v", "h1", 0, 0, Some("h2")), MovedVm());
  }
}
