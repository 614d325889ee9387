/** The rebuild at start-up: every instance gets the routes of its own VMs, whatever its table
    held before. */
module Rebuild {
  import opened Fleet
  import opened RouterSync
  import opened Regions
  import opened Agreement

  function EntryOf(site: Site, row: VmRow): RouteEntry {
    RouteEntry(NameOf(site, row.subdomain), TargetOf(row))
  }

  /** The VMs of one instance, in the order of the list. */
  function VmsAt(site: Site, w: World, ids: seq<VmId>, base: string): (here: seq<VmId>)
    requires forall id :: id in ids ==> id in w.vms
    ensures forall id :: id in here ==> id in ids
  {
    if ids == [] then []
    else
      var last := ids[|ids| - 1];
      VmsAt(site, w, ids[..|ids| - 1], base) + if HomeOf(site, w, last) == base then [last] else []
  }

  function EntriesOf(site: Site, w: World, ids: seq<VmId>): (entries: seq<RouteEntry>)
    requires forall id :: id in ids ==> id in w.vms
    ensures |entries| == |ids|
    ensures forall i :: 0 <= i < |ids| ==> entries[i] == EntryOf(site, w.vms[ids[i]])
  {
    seq(|ids|, i requires 0 <= i < |ids| => EntryOf(site, w.vms[ids[i]]))
  }

  predicate InOrder(ids: seq<VmId>, a: VmId, b: VmId) {
    exists k, l :: 0 <= k < l < |ids| && ids[k] == a && ids[l] == b
  }

  lemma InOrderLonger(ids: seq<VmId>, a: VmId, b: VmId)
    requires ids != [] && InOrder(ids[..|ids| - 1], a, b)
    ensures InOrder(ids, a, b)
  {
    var k, l :| 0 <= k < l < |ids| - 1 && ids[..|ids| - 1][k] == a && ids[..|ids| - 1][l] == b;
    assert ids[k] == a && ids[l] == b;
  }

  lemma InOrderLast(ids: seq<VmId>, a: VmId)
    requires ids != [] && a in ids[..|ids| - 1]
    ensures InOrder(ids, a, ids[|ids| - 1])
  {
    var k :| 0 <= k < |ids| - 1 && ids[k] == a;
  }

  ghost predicate SameOrder(ids: seq<VmId>, part: seq<VmId>) {
    forall i, j :: 0 <= i < j < |part| ==> InOrder(ids, part[i], part[j])
  }

  /** The lists are a partition: a VM is once in the list of its own instance, in no other
      list, and each list keeps the order of the table. */
  lemma {:induction false} ListsArePartition(site: Site, w: World, ids: seq<VmId>, base: string)
    requires NoDuplicates(ids) && forall id :: id in ids ==> id in w.vms
    ensures NoDuplicates(VmsAt(site, w, ids, base))
    ensures forall id :: id in VmsAt(site, w, ids, base) <==> id in ids && HomeOf(site, w, id) == base
    ensures SameOrder(ids, VmsAt(site, w, ids, base))
  {
    if ids != [] {
      var short := ids[..|ids| - 1];
      var last := ids[|ids| - 1];
      ListsArePartition(site, w, short, base);
      assert last !in short;
      assert forall id :: id in ids <==> id in short || id == last;
      var before := VmsAt(site, w, short, base);
      var here := VmsAt(site, w, ids, base);
      forall i, j | 0 <= i < j < |here| ensures InOrder(ids, here[i], here[j]) {
        if j < |before| {
          assert InOrder(short, before[i], before[j]);
          InOrderLonger(ids, here[i], here[j]);
        } else {
          InOrderLast(ids, here[i]);
        }
      }
    }
  }

  /** Appending one VM to the listed ones appends its entry to the list of its instance. */
  lemma ListStep(site: Site, w: World, ids: seq<VmId>, n: nat, base: string)
    requires n < |ids| && forall id :: id in ids ==> id in w.vms
    ensures forall id :: id in ids[..n + 1] ==> id in w.vms
    ensures EntriesOf(site, w, VmsAt(site, w, ids[..n + 1], base)) ==
      EntriesOf(site, w, VmsAt(site, w, ids[..n], base)) +
      if HomeOf(site, w, ids[n]) == base then [EntryOf(site, w.vms[ids[n]])] else []
  {
    assert ids[..n + 1][..n] == ids[..n];
  }

  /** A map of lists in which an absent list stands for an empty one. */
  function ListAt(lists: map<string, seq<RouteEntry>>, base: string): seq<RouteEntry> {
    if base in lists then lists[base] else []
  }

  ghost predicate Lists(site: Site, w: World, ids: seq<VmId>, lists: map<string, seq<RouteEntry>>)
    requires forall id :: id in ids ==> id in w.vms
  {
    && lists.Keys <= site.router.Bases()
    && forall base :: ListAt(lists, base) == EntriesOf(site, w, VmsAt(site, w, ids, base))
  }

  lemma ListsStep(site: Site, w: World, ids: seq<VmId>, n: nat, lists: map<string, seq<RouteEntry>>)
    requires n < |ids| && forall id :: id in ids ==> id in w.vms
    requires Lists(site, w, ids[..n], lists)
    ensures forall id :: id in ids[..n + 1] ==> id in w.vms
    ensures var base := HomeOf(site, w, ids[n]);
      Lists(site, w, ids[..n + 1], lists[base := ListAt(lists, base) + [EntryOf(site, w.vms[ids[n]])]])
  {
    var home := HomeOf(site, w, ids[n]);
    var lists' := lists[home := ListAt(lists, home) + [EntryOf(site, w.vms[ids[n]])]];
    forall base ensures ListAt(lists', base) == EntriesOf(site, w, VmsAt(site, w, ids[..n + 1], base)) {
      ListStep(site, w, ids, n, base);
    }
  }

  /** Groups the VMs by the base URL of their instance; then every configured instance without
      VMs gets an empty list, so that stale routes are cleared there too. */
  method GroupByClient(site: Site, vms: VmTable, hosts: map<HostId, HostRow>, ids: seq<VmId>)
    returns (lists: map<string, seq<RouteEntry>>)
    requires forall id :: id in ids ==> id in vms
    ensures lists.Keys == site.router.Bases()
    ensures forall base :: base in lists ==>
      var w := World(vms, hosts, map[]);
      lists[base] == EntriesOf(site, w, VmsAt(site, w, ids, base))
  {
    ghost var w := World(vms, hosts, map[]);
    lists := map[];
    for n := 0 to |ids|
      invariant Lists(site, w, ids[..n], lists)
    {
      ListsStep(site, w, ids, n, lists);
      var row := vms[ids[n]];
      var base := if row.host.Some? && row.host.value in hosts
                  then site.router.ForHost(hosts[row.host.value]) else site.router.ForRegion(None);
      lists := lists[base := ListAt(lists, base) + [RouteEntry(NameOf(site, row.subdomain), TargetOf(row))]];
    }
    assert ids[..|ids|] == ids;
    lists := lists[site.router.fallback := ListAt(lists, site.router.fallback)];
    var rest := site.router.regionClients.Keys;
    while rest != {}
      invariant rest <= site.router.regionClients.Keys
      invariant Lists(site, w, ids, lists) && site.router.fallback in lists
      invariant forall region :: region in site.router.regionClients.Keys - rest ==> site.router.regionClients[region] in lists
      decreases rest
    {
      var region :| region in rest;
      var base := site.router.regionClients[region];
      lists := lists[base := ListAt(lists, base)];
      rest := rest - {region};
    }
    assert lists.Keys == site.router.Bases();
  }

  lemma EntriesAreDistinct(site: Site, w: World, ids: seq<VmId>)
    requires UniqueSubdomains(w.vms) && NoDuplicates(ids) && forall id :: id in ids ==> id in w.vms
    ensures DistinctHosts(EntriesOf(site, w, ids))
  {
    forall i, j | 0 <= i < j < |ids| ensures NameOf(site, w.vms[ids[i]].subdomain) != NameOf(site, w.vms[ids[j]].subdomain) {
      assert ids[i] in ids && ids[j] in ids;
    }
  }

  lemma EntriesMapKeys(entries: seq<RouteEntry>, fqdn: Fqdn)
    ensures fqdn in EntriesMap(entries) <==> exists i :: 0 <= i < |entries| && entries[i].fqdn == fqdn
  {
    RebuildIsReplacement(entries);
    AsMapKeys(AsRoutes(entries), fqdn);
    if Matches(AsRoutes(entries), fqdn) {
      var i :| 0 <= i < |entries| && AsRoutes(entries)[i].matchHost == fqdn;
      assert entries[i].fqdn == fqdn;
    }
    if i :| 0 <= i < |entries| && entries[i].fqdn == fqdn {
      assert AsRoutes(entries)[i].matchHost == fqdn;
    }
  }

  lemma EntriesMapAt(entries: seq<RouteEntry>, i: nat)
    requires DistinctHosts(entries) && i < |entries|
    ensures entries[i].fqdn in EntriesMap(entries) && EntriesMap(entries)[entries[i].fqdn] == entries[i].target
  {
    RebuildIsReplacement(entries);
    AsMapAt(AsRoutes(entries), i);
  }

  /** Every instance's table is the map of its own VMs' entries. */
  ghost predicate Rebuilt(site: Site, w: World, ids: seq<VmId>)
    requires forall id :: id in ids ==> id in w.vms
  {
    Wired(site, w) && forall base :: base in w.routes ==> w.routes[base] == EntriesMap(EntriesOf(site, w, VmsAt(site, w, ids, base)))
  }

  /** A name is routed by a list of entries exactly when one of the listed VMs bears it. */
  lemma RoutedNames(site: Site, w: World, here: seq<VmId>, fqdn: Fqdn)
    requires forall id :: id in here ==> id in w.vms
    ensures fqdn in EntriesMap(EntriesOf(site, w, here)) <==> exists id :: id in here && NameOf(site, w.vms[id].subdomain) == fqdn
  {
    var entries := EntriesOf(site, w, here);
    EntriesMapKeys(entries, fqdn);
    if fqdn in EntriesMap(entries) {
      var i :| 0 <= i < |entries| && entries[i].fqdn == fqdn;
      assert here[i] in here;
    }
    if id :| id in here && NameOf(site, w.vms[id].subdomain) == fqdn {
      var i :| 0 <= i < |here| && here[i] == id;
      assert entries[i].fqdn == fqdn;
    }
  }

  lemma RebuiltOwned(site: Site, w: World, ids: seq<VmId>, base: string, fqdn: Fqdn)
    requires NoDuplicates(ids) && forall id :: id in ids <==> id in w.vms
    requires Rebuilt(site, w, ids) && base in w.routes
    ensures fqdn in w.routes[base] <==> Owned(site, w, base, fqdn)
  {
    var here := VmsAt(site, w, ids, base);
    ListsArePartition(site, w, ids, base);
    assert forall id :: id in here <==> id in w.vms && HomeOf(site, w, id) == base;
    RoutedNames(site, w, here, fqdn);
  }

  lemma RebuiltCorrect(site: Site, w: World, ids: seq<VmId>, id: VmId)
    requires UniqueSubdomains(w.vms) && NoDuplicates(ids) && forall id :: id in ids <==> id in w.vms
    requires Rebuilt(site, w, ids) && id in w.vms
    ensures Correct(site, w, id)
  {
    var base := HomeOf(site, w, id);
    var here := VmsAt(site, w, ids, base);
    ListsArePartition(site, w, ids, base);
    EntriesAreDistinct(site, w, here);
    assert id in here;
    var i :| 0 <= i < |here| && here[i] == id;
    EntriesMapAt(EntriesOf(site, w, here), i);
  }

  /** From any starting routes, the rebuilt tables agree with the VM table. */
  lemma RebuiltAgrees(site: Site, w: World, ids: seq<VmId>)
    requires UniqueSubdomains(w.vms) && NoDuplicates(ids) && forall id :: id in ids <==> id in w.vms
    requires Rebuilt(site, w, ids)
    ensures Agrees(site, w)
  {
    forall base, fqdn | base in w.routes ensures fqdn in w.routes[base] <==> Owned(site, w, base, fqdn) {
      RebuiltOwned(site, w, ids, base, fqdn);
    }
    forall id | id in w.vms ensures Correct(site, w, id) {
      RebuiltCorrect(site, w, ids, id);
    }
  }

  /** Sends every list to its instance, in whatever order the map yields them. */
  method SendLists(caddy: CaddyApi, lists: map<string, seq<RouteEntry>>)
    requires caddy.Valid() && lists.Keys == caddy.tables.Keys
    requires forall base :: base in lists ==> DistinctHosts(lists[base])
    modifies caddy
    ensures caddy.Valid() && caddy.Contents().Keys == lists.Keys
    ensures forall base :: base in lists ==> caddy.Contents()[base] == EntriesMap(lists[base])
  {
    var rest := lists.Keys;
    while rest != {}
      invariant rest <= lists.Keys && caddy.Valid() && caddy.Contents().Keys == lists.Keys
      invariant forall base :: base in lists.Keys - rest ==> caddy.Contents()[base] == EntriesMap(lists[base])
      decreases rest
    {
      var base :| base in rest;
      caddy.RebuildAllRoutes(base, lists[base]);
      rest := rest - {base};
    }
  }

  /** Establishes the agreement that every operation then keeps. */
  method RebuildCaddyRoutes(db: Database, caddy: CaddyApi, site: Site)
    requires UniqueSubdomains(db.vms) && caddy.Valid() && caddy.tables.Keys == site.router.Bases()
    modifies caddy
    ensures caddy.Valid()
    ensures Agrees(site, World(db.vms, db.hosts, caddy.Contents()))
    ensures forall id :: id in db.vms ==>
      var row := db.vms[id];
      RoutedTo(caddy.Contents(), Home(site, db.hosts, row.host), Fqdn(row.subdomain, site.baseDomain),
               if row.status == Running then ToVm(row.ip, row.port % 65536) else ToStoppedPage)
    ensures forall base, fqdn :: base in caddy.Contents() && fqdn in caddy.Contents()[base] ==>
      exists id :: id in db.vms && Home(site, db.hosts, db.vms[id].host) == base && Fqdn(db.vms[id].subdomain, site.baseDomain) == fqdn
  {
    var ids := Select(db.vms.Keys);
    var lists := GroupByClient(site, db.vms, db.hosts, ids);
    ghost var w := World(db.vms, db.hosts, map[]);
    forall base | base in lists ensures DistinctHosts(lists[base]) {
      ListsArePartition(site, w, ids, base);
      EntriesAreDistinct(site, w, VmsAt(site, w, ids, base));
    }
    SendLists(caddy, lists);
    ghost var after := World(db.vms, db.hosts, caddy.Contents());
    forall base | base in after.routes
      ensures after.routes[base] == EntriesMap(EntriesOf(site, after, VmsAt(site, after, ids, base)))
    {
      RoutesDoNotMatter(site, w, after, ids, base);
    }
    RebuiltAgrees(site, after, ids);
    AgreementMeans(site, after);
  }

  lemma {:induction false} RoutesDoNotMatter(site: Site, w: World, after: World, ids: seq<VmId>, base: string)
    requires after == w.(routes := after.routes) && forall id :: id in ids ==> id in w.vms
    ensures VmsAt(site, w, ids, base) == VmsAt(site, after, ids, base)
    ensures EntriesOf(site, w, VmsAt(site, w, ids, base)) == EntriesOf(site, after, VmsAt(site, after, ids, base))
  {
    if ids != [] {
      RoutesDoNotMatter(site, w, after, ids[..|ids| - 1], base);
    }
  }
}
