/** The repair a heartbeat makes, its fixed points, and the per-host cache in front of it. */
module Heartbeats {
  import opened Fleet
  import opened RouterSync
  import opened Regions
  import opened Agreement
  import opened Operations

  /** The heartbeat with this running set has nothing to change about this VM. */
  predicate Quiet(site: Site, w: World, running: set<VmId>, id: VmId)
    requires Wired(site, w) && id in w.vms
  {
    Touches(w.vms[id], id in running) ==>
      BeatRow(w.vms[id], id in running) == w.vms[id] && Correct(site, w, id)
  }

  ghost predicate HostQuiet(site: Site, w: World, host: HostId, running: set<VmId>)
    requires Wired(site, w)
  {
    forall id :: id in w.vms && id in IdsOnHost(w.vms, host) ==> Quiet(site, w, running, id)
  }

  /** Quiet VMs are exactly those that a beat leaves as they are, row and route. */
  lemma QuietIff(site: Site, w: World, running: set<VmId>, id: VmId)
    requires Wired(site, w) && id in w.vms
    ensures Quiet(site, w, running, id) <==> Beat(site, w, running, id) == w
  {
    if Touches(w.vms[id], id in running) {
      var row := BeatRow(w.vms[id], id in running);
      var w' := Written(site, w, id, row, TargetOf(row));
      var home := HomeOf(site, w, id);
      var name := NameOf(site, row.subdomain);
      assert w'.routes == SetRoute(w.routes, home, name, TargetOf(row));
      if Quiet(site, w, running, id) {
        assert w.routes[home][name := TargetOf(row)] == w.routes[home];
      }
      if w' == w {
        assert w'.vms[id] == row && w'.routes[home][name] == TargetOf(row);
      }
    }
  }

  lemma BeatMakesQuiet(site: Site, w: World, running: set<VmId>, id: VmId)
    requires Wired(site, w) && id in w.vms
    ensures Quiet(site, Beat(site, w, running, id), running, id)
  {
    if Touches(w.vms[id], id in running) {
      WrittenIsCorrect(site, w, id, BeatRow(w.vms[id], id in running));
    }
  }

  /** A beat for one VM leaves every other VM's row, and its being quiet, alone. */
  lemma BeatKeepsOthersQuiet(site: Site, w: World, running: set<VmId>, id: VmId, other: set<VmId>, j: VmId)
    requires Wired(site, w) && UniqueSubdomains(w.vms) && id in w.vms && j in w.vms && j != id
    requires Quiet(site, w, other, j)
    ensures Quiet(site, Beat(site, w, running, id), other, j)
  {
    if Touches(w.vms[id], id in running) && Touches(w.vms[j], j in other) {
      var row := BeatRow(w.vms[id], id in running);
      WrittenOthersStay(site, w, id, row, TargetOf(row), j);
    }
  }

  lemma BeatLeavesQuiet(site: Site, w: World, running: set<VmId>, last: VmId, id: VmId)
    requires Wired(site, w) && UniqueSubdomains(w.vms) && last in w.vms && id in w.vms
    requires id == last || Quiet(site, w, running, id)
    ensures id in Beat(site, w, running, last).vms && Quiet(site, Beat(site, w, running, last), running, id)
  {
    if id == last {
      BeatMakesQuiet(site, w, running, id);
    } else {
      BeatKeepsOthersQuiet(site, w, running, last, running, id);
    }
  }

  lemma BeatKeepsNames(site: Site, w: World, running: set<VmId>, id: VmId)
    requires Wired(site, w)
    ensures var w' := Beat(site, w, running, id);
      && w'.vms.Keys == w.vms.Keys
      && (forall j :: j in w.vms ==> w'.vms[j].subdomain == w.vms[j].subdomain && w'.vms[j].host == w.vms[j].host)
      && (UniqueSubdomains(w.vms) ==> UniqueSubdomains(w'.vms))
  {
  }

  lemma {:induction false} BeatAllKeepsNames(site: Site, w: World, running: set<VmId>, ids: seq<VmId>)
    requires Wired(site, w) && UniqueSubdomains(w.vms)
    ensures var w' := BeatAll(site, w, running, ids);
      && w'.vms.Keys == w.vms.Keys && UniqueSubdomains(w'.vms)
      && (forall j :: j in w.vms ==> w'.vms[j].subdomain == w.vms[j].subdomain && w'.vms[j].host == w.vms[j].host)
  {
    if ids != [] {
      BeatAllKeepsNames(site, w, running, ids[..|ids| - 1]);
      BeatKeepsNames(site, BeatAll(site, w, running, ids[..|ids| - 1]), running, ids[|ids| - 1]);
    }
  }

  lemma {:induction false} BeatAllMakesQuiet(site: Site, w: World, running: set<VmId>, ids: seq<VmId>, id: VmId)
    requires Wired(site, w) && UniqueSubdomains(w.vms) && NoDuplicates(ids)
    requires id in ids && forall j :: j in ids ==> j in w.vms
    ensures id in BeatAll(site, w, running, ids).vms && Quiet(site, BeatAll(site, w, running, ids), running, id)
  {
    var short := ids[..|ids| - 1];
    var last := ids[|ids| - 1];
    BeatAllKeepsNames(site, w, running, short);
    var mid := BeatAll(site, w, running, short);
    assert forall j :: j in short ==> j in ids;
    assert last in ids;
    if id != last {
      BeatAllMakesQuiet(site, w, running, short, id);
    }
    BeatLeavesQuiet(site, mid, running, last, id);
  }

  lemma {:induction false} BeatAllKeepsOthersQuiet(site: Site, w: World, running: set<VmId>, ids: seq<VmId>,
                                                   other: set<VmId>, j: VmId)
    requires Wired(site, w) && UniqueSubdomains(w.vms) && forall id :: id in ids ==> id in w.vms
    requires j in w.vms && j !in ids && Quiet(site, w, other, j)
    ensures j in BeatAll(site, w, running, ids).vms && Quiet(site, BeatAll(site, w, running, ids), other, j)
  {
    if ids != [] {
      var short := ids[..|ids| - 1];
      var last := ids[|ids| - 1];
      assert forall id :: id in short ==> id in ids;
      assert last in ids;
      BeatAllKeepsNames(site, w, running, short);
      BeatAllKeepsOthersQuiet(site, w, running, short, other, j);
      BeatKeepsOthersQuiet(site, BeatAll(site, w, running, short), running, last, other, j);
    }
  }

  lemma {:induction false} QuietHostIsFixed(site: Site, w: World, running: set<VmId>, ids: seq<VmId>)
    requires Wired(site, w) && forall id :: id in ids ==> id in w.vms && Quiet(site, w, running, id)
    ensures BeatAll(site, w, running, ids) == w
  {
    if ids != [] {
      assert forall id :: id in ids[..|ids| - 1] ==> id in ids;
      QuietHostIsFixed(site, w, running, ids[..|ids| - 1]);
      assert ids[|ids| - 1] in ids;
      QuietIff(site, w, running, ids[|ids| - 1]);
    }
  }

  /** One heartbeat: the host, the set it reports, and the order its rows were fetched in. */
  datatype Report = Report(host: HostId, running: set<VmId>, order: seq<VmId>)

  ghost predicate Fetches(vms: VmTable, r: Report) {
    NoDuplicates(r.order) && forall id :: id in r.order <==> id in IdsOnHost(vms, r.host)
  }

  function Reconcile(site: Site, w: World, r: Report): (w': World)
    requires Wired(site, w)
    ensures Wired(site, w')
  {
    BeatAll(site, w, r.running, r.order)
  }

  /** The repair of one row: running exactly when reported, if it was running, stopped or in
      error on that host; unchanged otherwise. */
  predicate Repaired(row: VmRow, after: VmRow, host: HostId, up: bool) {
    if row.host == Some(host) && (row.status.Running? || row.status.Stopped? || row.status.Error?)
    then (after.status.Running? <==> up) && after == row.(status := after.status)
    else after == row
  }

  lemma ReconcileRows(site: Site, w: World, r: Report)
    requires Wired(site, w) && Fetches(w.vms, r)
    ensures var w' := Reconcile(site, w, r);
      w'.vms.Keys == w.vms.Keys && forall id :: id in w.vms ==> Repaired(w.vms[id], w'.vms[id], r.host, id in r.running)
  {
    BeatAllRows(site, w, r.running, r.order);
    assert forall id :: id in r.order <==> id in IdsOnHost(w.vms, r.host);
  }

  lemma ReconcileMakesQuiet(site: Site, w: World, r: Report)
    requires Wired(site, w) && UniqueSubdomains(w.vms) && Fetches(w.vms, r)
    ensures HostQuiet(site, Reconcile(site, w, r), r.host, r.running)
    ensures IdsOnHost(Reconcile(site, w, r).vms, r.host) == IdsOnHost(w.vms, r.host)
  {
    var w' := Reconcile(site, w, r);
    BeatAllKeepsNames(site, w, r.running, r.order);
    forall id | id in w'.vms && id in IdsOnHost(w'.vms, r.host) ensures Quiet(site, w', r.running, id) {
      assert id in IdsOnHost(w.vms, r.host);
      BeatAllMakesQuiet(site, w, r.running, r.order, id);
    }
  }

  /** After a reconciliation each VM of the host that was running, stopped or in error is
      running exactly when the host reports it; rows in other statuses and rows of other hosts
      are unchanged; and doing it again, in any order, changes no row and no route. */
  lemma ReconcileRepairs(site: Site, w: World, r: Report, again: seq<VmId>)
    requires Wired(site, w) && UniqueSubdomains(w.vms) && Fetches(w.vms, r) && Fetches(w.vms, r.(order := again))
    ensures var w' := Reconcile(site, w, r);
      && w'.vms.Keys == w.vms.Keys
      && (forall id :: id in w.vms ==> Repaired(w.vms[id], w'.vms[id], r.host, id in r.running))
      && BeatAll(site, w', r.running, again) == w'
  {
    var w' := Reconcile(site, w, r);
    ReconcileRows(site, w, r);
    ReconcileMakesQuiet(site, w, r);
    forall id | id in again ensures id in w'.vms && Quiet(site, w', r.running, id) {
      assert id in IdsOnHost(w'.vms, r.host);
    }
    QuietHostIsFixed(site, w', r.running, again);
  }

  // The cache.

  type Cache = map<HostId, set<VmId>>

  /** `entry(host).or_default()`: an absent entry reads as the empty set. */
  function Cached(cache: Cache, host: HostId): set<VmId> {
    if host in cache then cache[host] else {}
  }

  function BeatCached(site: Site, w: World, cache: Cache, r: Report): (result: (World, Cache))
    requires Wired(site, w)
    ensures Wired(site, result.0)
  {
    if Cached(cache, r.host) != r.running then (Reconcile(site, w, r), cache[r.host := r.running])
    else (w, cache[r.host := r.running])
  }

  function RunCached(site: Site, w: World, cache: Cache, reports: seq<Report>): (result: (World, Cache))
    requires Wired(site, w)
    ensures Wired(site, result.0)
  {
    if reports == [] then (w, cache)
    else var mid := RunCached(site, w, cache, reports[..|reports| - 1]);
      BeatCached(site, mid.0, mid.1, reports[|reports| - 1])
  }

  function RunAlways(site: Site, w: World, reports: seq<Report>): (w': World)
    requires Wired(site, w)
    ensures Wired(site, w')
  {
    if reports == [] then w
    else Reconcile(site, RunAlways(site, w, reports[..|reports| - 1]), reports[|reports| - 1])
  }

  /** Every host the cache knows is quiet for the set it holds. A cache that knows no host, as
      after a restart of the control plane, is sound for any table. */
  ghost predicate CacheSound(site: Site, w: World, cache: Cache)
    requires Wired(site, w)
  {
    forall host :: host in cache ==> HostQuiet(site, w, host, cache[host])
  }

  lemma ReconcileKeepsOthersQuiet(site: Site, w: World, r: Report, host: HostId, other: set<VmId>)
    requires Wired(site, w) && UniqueSubdomains(w.vms) && Fetches(w.vms, r)
    requires host != r.host && HostQuiet(site, w, host, other)
    ensures HostQuiet(site, Reconcile(site, w, r), host, other)
  {
    var w' := Reconcile(site, w, r);
    BeatAllKeepsNames(site, w, r.running, r.order);
    forall id | id in w'.vms && id in IdsOnHost(w'.vms, host) ensures Quiet(site, w', other, id) {
      assert id in IdsOnHost(w.vms, host) && id !in r.order;
      BeatAllKeepsOthersQuiet(site, w, r.running, r.order, other, id);
    }
  }

  lemma BeatKeepsCacheSound(site: Site, w: World, cache: Cache, r: Report)
    requires Wired(site, w) && UniqueSubdomains(w.vms) && Fetches(w.vms, r) && CacheSound(site, w, cache)
    ensures CacheSound(site, Reconcile(site, w, r), cache[r.host := r.running])
  {
    var cache' := cache[r.host := r.running];
    ReconcileMakesQuiet(site, w, r);
    forall host | host in cache' ensures HostQuiet(site, Reconcile(site, w, r), host, cache'[host]) {
      if host != r.host {
        ReconcileKeepsOthersQuiet(site, w, r, host, cache[host]);
      }
    }
  }

  predicate ReportedBefore(reports: seq<Report>, k: nat, host: HostId)
    requires k <= |reports|
  {
    exists j :: 0 <= j < k && reports[j].host == host
  }

  /** The first heartbeat of a host that the cache does not know reports some VM. */
  predicate FirstReportsTell(cache: Cache, reports: seq<Report>) {
    forall k :: 0 <= k < |reports| ==>
      reports[k].host in cache || reports[k].running != {} || ReportedBefore(reports, k, reports[k].host)
  }

  lemma ReportedGrows(reports: seq<Report>, host: HostId)
    requires reports != []
    ensures var short := reports[..|reports| - 1];
      ReportedBefore(reports, |reports|, host) <==> ReportedBefore(short, |short|, host) || reports[|reports| - 1].host == host
  {
    var short := reports[..|reports| - 1];
    if ReportedBefore(short, |short|, host) {
      var j :| 0 <= j < |short| && short[j].host == host;
      assert reports[j].host == host;
    }
    if ReportedBefore(reports, |reports|, host) && reports[|reports| - 1].host != host {
      var j :| 0 <= j < |reports| && reports[j].host == host;
      assert short[j].host == host;
    }
  }

  lemma BeatIsCached(site: Site, w: World, cache: Cache, r: Report)
    requires Wired(site, w)
    ensures BeatCached(site, w, cache, r).1 == cache[r.host := r.running]
  {
  }

  lemma {:induction false} ReportedIsCached(site: Site, w: World, cache: Cache, reports: seq<Report>, host: HostId)
    requires Wired(site, w)
    ensures host in RunCached(site, w, cache, reports).1 <==> host in cache || ReportedBefore(reports, |reports|, host)
  {
    if reports != [] {
      var short := reports[..|reports| - 1];
      ReportedIsCached(site, w, cache, short, host);
      ReportedGrows(reports, host);
      var mid := RunCached(site, w, cache, short);
      BeatIsCached(site, mid.0, mid.1, reports[|reports| - 1]);
    }
  }

  lemma ShorterTells(cache: Cache, reports: seq<Report>)
    requires reports != [] && FirstReportsTell(cache, reports)
    ensures FirstReportsTell(cache, reports[..|reports| - 1])
    ensures var short := reports[..|reports| - 1];
      var r := reports[|reports| - 1];
      r.host in cache || r.running != {} || ReportedBefore(short, |short|, r.host)
  {
    var short := reports[..|reports| - 1];
    forall k | 0 <= k < |reports| && ReportedBefore(reports, k, reports[k].host)
      ensures ReportedBefore(short, k, reports[k].host)
    {
      var j :| 0 <= j < k && reports[j].host == reports[k].host;
      assert short[j].host == reports[k].host;
    }
  }

  /** Skipping one heartbeat whose set is the cached one changes nothing. */
  lemma SkippingIsSound(site: Site, w: World, cache: Cache, r: Report)
    requires Wired(site, w) && Fetches(w.vms, r) && CacheSound(site, w, cache)
    requires r.host in cache || r.running != {}
    ensures BeatCached(site, w, cache, r).0 == Reconcile(site, w, r)
  {
    if Cached(cache, r.host) == r.running {
      assert HostQuiet(site, w, r.host, r.running);
      QuietHostIsFixed(site, w, r.running, r.order);
    }
  }

  /** Same VMs with the same hosts, and names still unique. */
  ghost predicate SameNames(w: World, w': World) {
    && UniqueSubdomains(w'.vms) && w'.vms.Keys == w.vms.Keys
    && forall id :: id in w.vms ==> w'.vms[id].host == w.vms[id].host
  }

  lemma TransparentStep(site: Site, w: World, mid: World, seen: Cache, r: Report)
    requires Wired(site, mid) && SameNames(w, mid) && CacheSound(site, mid, seen) && Fetches(w.vms, r)
    requires r.host in seen || r.running != {}
    ensures BeatCached(site, mid, seen, r) == (Reconcile(site, mid, r), seen[r.host := r.running])
    ensures CacheSound(site, Reconcile(site, mid, r), seen[r.host := r.running])
    ensures SameNames(w, Reconcile(site, mid, r))
  {
    assert IdsOnHost(mid.vms, r.host) == IdsOnHost(w.vms, r.host);
    BeatKeepsCacheSound(site, mid, seen, r);
    BeatAllKeepsNames(site, mid, r.running, r.order);
    SkippingIsSound(site, mid, seen, r);
    BeatIsCached(site, mid, seen, r);
  }

  /** While nothing else writes, skipping the heartbeats whose set equals the cached one gives
      the same rows and routes as reconciling every time, from any sound cache, the empty one
      included, if the first heartbeat of each unknown host reports some VM. */
  lemma {:induction false} CacheIsTransparent(site: Site, w: World, cache: Cache, reports: seq<Report>)
    requires Wired(site, w) && UniqueSubdomains(w.vms) && CacheSound(site, w, cache)
    requires forall k :: 0 <= k < |reports| ==> Fetches(w.vms, reports[k])
    requires FirstReportsTell(cache, reports)
    ensures RunCached(site, w, cache, reports).0 == RunAlways(site, w, reports)
    ensures CacheSound(site, RunAlways(site, w, reports), RunCached(site, w, cache, reports).1)
    ensures SameNames(w, RunAlways(site, w, reports))
  {
    if reports != [] {
      var short := reports[..|reports| - 1];
      ShorterTells(cache, reports);
      CacheIsTransparent(site, w, cache, short);
      ReportedIsCached(site, w, cache, short, reports[|reports| - 1].host);
      TransparentStep(site, w, RunAlways(site, w, short), RunCached(site, w, cache, short).1, reports[|reports| - 1]);
    }
  }

  /** The first heartbeat of a host the cache does not know: it is handled like a reconciliation
      exactly when it reports something, or there was nothing to repair. */
  lemma FirstHeartbeatIff(site: Site, w: World, cache: Cache, r: Report)
    requires Wired(site, w) && UniqueSubdomains(w.vms) && Fetches(w.vms, r) && r.host !in cache
    ensures BeatCached(site, w, cache, r).0 == Reconcile(site, w, r) <==>
      (r.running != {} || HostQuiet(site, w, r.host, {}))
  {
    ReconcileMakesQuiet(site, w, r);
    if r.running == {} && HostQuiet(site, w, r.host, {}) {
      QuietHostIsFixed(site, w, r.running, r.order);
    }
  }

  /** The empty first heartbeat of an unknown host leaves its running VMs 'running', where a
      reconciliation would mark them. */
  lemma EmptyFirstHeartbeatSkips(site: Site, w: World, cache: Cache, r: Report, id: VmId)
    requires Wired(site, w) && Fetches(w.vms, r) && r.host !in cache && r.running == {}
    requires id in w.vms && w.vms[id].host == Some(r.host) && w.vms[id].status.Running?
    ensures BeatCached(site, w, cache, r).0 == w
    ensures id in Reconcile(site, w, r).vms && Reconcile(site, w, r).vms[id].status.Error?
  {
    BeatAllRows(site, w, r.running, r.order);
    assert id in r.order;
  }

  function OneRunningVm(): World {
    var row := VmRow("acct", Running, "s", 1, 1, "i", 80, None, None, Some("h"), None, None, false);
    World(map["v" := row], map["h" := HostRow("h", 4, 1, 4, 1, 0, HostActive, Null)],
          map["c" := map[Fqdn("s", "d") := ToVm("i", 80)]])
  }

  lemma OneRunningVmAgrees()
    ensures Agrees(Site(CaddyRouter(map[], "c"), "d"), OneRunningVm())
  {
    var site, w := Site(CaddyRouter(map[], "c"), "d"), OneRunningVm();
    assert w.routes.Keys == {"c"} == site.router.Bases();
    assert HomeOf(site, w, "v") == "c";
    forall base, fqdn | base in w.routes ensures fqdn in w.routes[base] <==> Owned(site, w, base, fqdn) {
      if fqdn == NameOf(site, "s") {
        assert HomeOf(site, w, "v") == base && NameOf(site, w.vms["v"].subdomain) == fqdn;
      }
    }
    assert Correct(site, w, "v");
  }

  /** So a host that restarts empty under a fresh control plane is not repaired: from an agreeing
      state its VM stays 'running' in the table. */
  lemma EmptyFirstHeartbeatIsLost()
    ensures exists site: Site, w: World, r: Report, id ::
      && Agrees(site, w) && Fetches(w.vms, r) && r.host in w.hosts && r.running == {}
      && id in w.vms && w.vms[id].host == Some(r.host) && w.vms[id].status.Running?
      && BeatCached(site, w, map[], r).0 == w
      && id in Reconcile(site, w, r).vms && Reconcile(site, w, r).vms[id].status.Error?
  {
    var site, w, r := Site(CaddyRouter(map[], "c"), "d"), OneRunningVm(), Report("h", {}, ["v"]);
    OneRunningVmAgrees();
    assert IdsOnHost(w.vms, "h") == {"v"};
    EmptyFirstHeartbeatSkips(site, w, map[], r, "v");
  }

  // What no heartbeat repairs.

  /** The VM is stopped or failed, and its route does not say so. */
  predicate Stale(site: Site, w: World, id: VmId)
    requires Wired(site, w)
  {
    id in w.vms && (w.vms[id].status.Stopped? || w.vms[id].status.Error?) && !Correct(site, w, id)
  }

  /** An agent that marks a running VM as failed without announcing it, as its reconciliation
      does, leaves the route pointing at the VM. */
  lemma ErrorMarkIsStale(site: Site, w: World, id: VmId)
    requires Agrees(site, w) && id in w.vms && w.vms[id].status.Running?
    ensures Stale(site, Apply(site, w, AgentWrite(id, Error)), id)
  {
    assert Correct(site, w, id);
  }

  lemma BeatKeepsStale(site: Site, w: World, running: set<VmId>, j: VmId, id: VmId)
    requires Wired(site, w) && UniqueSubdomains(w.vms) && Stale(site, w, id) && id !in running
    ensures Stale(site, Beat(site, w, running, j), id)
  {
    if j != id && j in w.vms {
      assert NameOf(site, w.vms[j].subdomain) != NameOf(site, w.vms[id].subdomain);
    }
  }

  lemma {:induction false} BeatAllKeepsStale(site: Site, w: World, running: set<VmId>, ids: seq<VmId>, id: VmId)
    requires Wired(site, w) && UniqueSubdomains(w.vms) && Stale(site, w, id) && id !in running
    ensures Stale(site, BeatAll(site, w, running, ids), id)
  {
    if ids != [] {
      BeatAllKeepsStale(site, w, running, ids[..|ids| - 1], id);
      BeatAllKeepsNames(site, w, running, ids[..|ids| - 1]);
      BeatKeepsStale(site, BeatAll(site, w, running, ids[..|ids| - 1]), running, ids[|ids| - 1], id);
    }
  }

  lemma BeatRepairsIff(site: Site, w: World, running: set<VmId>, j: VmId, id: VmId)
    requires Wired(site, w) && UniqueSubdomains(w.vms) && id in w.vms
    ensures id in Beat(site, w, running, j).vms
    ensures Correct(site, Beat(site, w, running, j), id) <==>
      (j == id && Touches(w.vms[id], id in running)) || Correct(site, w, id)
  {
    if j == id {
      if Touches(w.vms[id], id in running) {
        WrittenIsCorrect(site, w, id, BeatRow(w.vms[id], id in running));
      }
    } else if j in w.vms {
      assert NameOf(site, w.vms[j].subdomain) != NameOf(site, w.vms[id].subdomain);
    }
  }

  lemma {:induction false} BeatAllRepairsIff(site: Site, w: World, running: set<VmId>, ids: seq<VmId>, id: VmId)
    requires Wired(site, w) && UniqueSubdomains(w.vms) && NoDuplicates(ids) && id in w.vms
    ensures id in BeatAll(site, w, running, ids).vms
    ensures Correct(site, BeatAll(site, w, running, ids), id) <==>
      (id in ids && Touches(w.vms[id], id in running)) || Correct(site, w, id)
  {
    if ids != [] {
      var short := ids[..|ids| - 1];
      var last := ids[|ids| - 1];
      BeatAllRepairsIff(site, w, running, short, id);
      BeatAllKeepsNames(site, w, running, short);
      BeatAllRows(site, w, running, short);
      assert last !in short && (id in ids <==> id in short || id == last);
      BeatRepairsIff(site, BeatAll(site, w, running, short), running, last, id);
    }
  }

  /** A reconciliation leaves a VM with the right route if and only if the route was right before,
      or the VM is on the host and was running, or was stopped or failed and is reported. */
  lemma ReconcileRepairsRouteIff(site: Site, w: World, r: Report, id: VmId)
    requires Wired(site, w) && UniqueSubdomains(w.vms) && Fetches(w.vms, r) && id in w.vms
    ensures id in Reconcile(site, w, r).vms
    ensures Correct(site, Reconcile(site, w, r), id) <==>
      || Correct(site, w, id)
      || (w.vms[id].host == Some(r.host) &&
          (w.vms[id].status.Running? || ((w.vms[id].status.Stopped? || w.vms[id].status.Error?) && id in r.running)))
  {
    BeatAllRepairsIff(site, w, r.running, r.order, id);
    assert id in r.order <==> id in IdsOnHost(w.vms, r.host);
  }

  /** A stale route survives every run of heartbeats that do not report the VM, reconciled or
      not: the repair looks only at running rows and at reported VMs. */
  lemma {:induction false} StaleRouteSurvives(site: Site, w: World, cache: Cache, reports: seq<Report>, id: VmId)
    requires Wired(site, w) && UniqueSubdomains(w.vms) && Stale(site, w, id)
    requires forall k :: 0 <= k < |reports| ==> id !in reports[k].running
    ensures var after := RunCached(site, w, cache, reports).0; Stale(site, after, id) && UniqueSubdomains(after.vms)
  {
    if reports != [] {
      var short := reports[..|reports| - 1];
      var r := reports[|reports| - 1];
      StaleRouteSurvives(site, w, cache, short, id);
      var mid := RunCached(site, w, cache, short).0;
      BeatAllKeepsStale(site, mid, r.running, r.order, id);
      BeatAllKeepsNames(site, mid, r.running, r.order);
    }
  }
}
