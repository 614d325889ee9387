/** The agreement between the VM table and the route tables, as an invariant of every run of
    control-plane operations. */
module Agreement {
  import opened Fleet
  import opened RouterSync
  import opened Regions

  /** What the operations read and write. */
  datatype World = World(vms: VmTable, hosts: map<HostId, HostRow>, routes: Routes)

  /** Every configured instance has a route table, and only those. */
  predicate Wired(site: Site, w: World) {
    w.routes.Keys == site.router.Bases()
  }

  function HomeOf(site: Site, w: World, id: VmId): (base: string)
    requires id in w.vms
    ensures base in site.router.Bases()
  {
    Home(site, w.hosts, w.vms[id].host)
  }

  ghost predicate Owned(site: Site, w: World, base: string, fqdn: Fqdn) {
    exists id :: id in w.vms && HomeOf(site, w, id) == base && NameOf(site, w.vms[id].subdomain) == fqdn
  }

  /** The VM has a route at its own instance and it points where its status says. */
  predicate Correct(site: Site, w: World, id: VmId)
    requires id in w.vms && Wired(site, w)
  {
    var table := w.routes[HomeOf(site, w, id)];
    var fqdn := NameOf(site, w.vms[id].subdomain);
    fqdn in table && table[fqdn] == TargetOf(w.vms[id])
  }

  predicate RoutedTo(routes: Routes, base: string, fqdn: Fqdn, target: Target) {
    base in routes && fqdn in routes[base] && routes[base][fqdn] == target
  }

  /** A correct route, said of the columns: a running VM is reached at its address and the low
      sixteen bits of its port, any other VM shows the stopped page. */
  lemma CorrectMeans(site: Site, w: World, id: VmId)
    requires id in w.vms && Wired(site, w)
    ensures var row := w.vms[id];
      Correct(site, w, id) <==>
      RoutedTo(w.routes, Home(site, w.hosts, row.host), Fqdn(row.subdomain, site.baseDomain),
               if row.status == Running then ToVm(row.ip, row.port % 65536) else ToStoppedPage)
  {
  }

  /** Routes are exactly one per VM, at the VM's instance; each VM outside `pending` has the
      right target. `pending` holds VMs whose status an agent wrote without a handled event. */
  ghost predicate AgreesExcept(site: Site, w: World, pending: set<VmId>) {
    && Wired(site, w)
    && UniqueSubdomains(w.vms)
    && (forall base, fqdn :: base in w.routes ==> (fqdn in w.routes[base] <==> Owned(site, w, base, fqdn)))
    && (forall id :: id in w.vms && id !in pending ==> Correct(site, w, id))
  }

  ghost predicate Agrees(site: Site, w: World) {
    AgreesExcept(site, w, {})
  }

  /** What agreement is, said of the columns: every VM has a route at its instance, to its address
      and the low sixteen bits of its port if it is running, to the stopped page if not; and every
      route there is belongs to a VM of that instance. */
  lemma AgreementMeans(site: Site, w: World)
    requires Agrees(site, w)
    ensures w.routes.Keys == {site.router.fallback} + site.router.regionClients.Values
    ensures forall id :: id in w.vms ==>
      var row := w.vms[id];
      RoutedTo(w.routes, Home(site, w.hosts, row.host), Fqdn(row.subdomain, site.baseDomain),
               if row.status == Running then ToVm(row.ip, row.port % 65536) else ToStoppedPage)
    ensures forall base, fqdn :: base in w.routes && fqdn in w.routes[base] ==>
      exists id :: id in w.vms && Home(site, w.hosts, w.vms[id].host) == base && Fqdn(w.vms[id].subdomain, site.baseDomain) == fqdn
  {
    forall id | id in w.vms ensures var row := w.vms[id];
      RoutedTo(w.routes, Home(site, w.hosts, row.host), Fqdn(row.subdomain, site.baseDomain),
               if row.status == Running then ToVm(row.ip, row.port % 65536) else ToStoppedPage)
    {
      CorrectMeans(site, w, id);
    }
    forall base, fqdn | base in w.routes && fqdn in w.routes[base]
      ensures exists id :: id in w.vms && Home(site, w.hosts, w.vms[id].host) == base && Fqdn(w.vms[id].subdomain, site.baseDomain) == fqdn
    {
      assert Owned(site, w, base, fqdn);
    }
  }

  /** One VM's row is inserted or rewritten on its host, the route of its new name is set, and
      the route of its old name, if it had another, is deleted. */
  function Written(site: Site, w: World, id: VmId, row: VmRow, target: Target): World
    requires Wired(site, w)
  {
    var base := Home(site, w.hosts, row.host);
    var set1 := SetRoute(w.routes, base, NameOf(site, row.subdomain), target);
    var set2 := if id in w.vms && w.vms[id].subdomain != row.subdomain
                then DropRoute(set1, base, NameOf(site, w.vms[id].subdomain)) else set1;
    w.(vms := w.vms[id := row], routes := set2)
  }

  ghost predicate MayWrite(w: World, id: VmId, row: VmRow) {
    && (id in w.vms ==> row.host == w.vms[id].host)
    && (forall j :: j in w.vms && j != id ==> w.vms[j].subdomain != row.subdomain)
  }

  lemma WrittenOwned(site: Site, w: World, id: VmId, row: VmRow, target: Target, base: string, fqdn: Fqdn)
    requires Wired(site, w) && UniqueSubdomains(w.vms) && MayWrite(w, id, row) && base in w.routes
    requires fqdn in w.routes[base] <==> Owned(site, w, base, fqdn)
    ensures var w' := Written(site, w, id, row, target);
      fqdn in w'.routes[base] <==> Owned(site, w', base, fqdn)
  {
    var w' := Written(site, w, id, row, target);
    var home := Home(site, w.hosts, row.host);
    assert HomeOf(site, w', id) == home;
    if fqdn == NameOf(site, row.subdomain) {
      if base == home {
        assert Owned(site, w', base, fqdn);
      }
    } else if id in w.vms && base == home && fqdn == NameOf(site, w.vms[id].subdomain) {
      assert fqdn !in w'.routes[base];
      assert !Owned(site, w', base, fqdn);
    } else {
      assert fqdn in w'.routes[base] <==> fqdn in w.routes[base];
      if Owned(site, w, base, fqdn) {
        var j :| j in w.vms && HomeOf(site, w, j) == base && NameOf(site, w.vms[j].subdomain) == fqdn;
        assert j != id && w'.vms[j] == w.vms[j] && HomeOf(site, w', j) == base;
      }
      if Owned(site, w', base, fqdn) {
        var j :| j in w'.vms && HomeOf(site, w', j) == base && NameOf(site, w'.vms[j].subdomain) == fqdn;
        assert j != id && w'.vms[j] == w.vms[j] && HomeOf(site, w, j) == base;
      }
    }
  }

  /** Writes to one VM leave the routes of the others alone. */
  lemma WrittenOthersStay(site: Site, w: World, id: VmId, row: VmRow, target: Target, j: VmId)
    requires Wired(site, w) && UniqueSubdomains(w.vms) && MayWrite(w, id, row)
    requires j in w.vms && j != id && Correct(site, w, j)
    ensures Correct(site, Written(site, w, id, row, target), j)
  {
    assert NameOf(site, w.vms[j].subdomain) != NameOf(site, row.subdomain);
  }

  lemma WrittenIsCorrect(site: Site, w: World, id: VmId, row: VmRow)
    requires Wired(site, w)
    ensures Correct(site, Written(site, w, id, row, TargetOf(row)), id)
  {
    assert id in w.vms && w.vms[id].subdomain != row.subdomain ==>
      NameOf(site, w.vms[id].subdomain) != NameOf(site, row.subdomain);
  }

  lemma WrittenKeepsUnique(site: Site, w: World, id: VmId, row: VmRow, target: Target)
    requires Wired(site, w) && UniqueSubdomains(w.vms) && MayWrite(w, id, row)
    ensures var w' := Written(site, w, id, row, target); Wired(site, w') && UniqueSubdomains(w'.vms)
  {
  }

  /** The single step every operation is made of. */
  lemma WrittenKeepsAgreement(site: Site, w: World, pending: set<VmId>, id: VmId, row: VmRow, target: Target)
    requires AgreesExcept(site, w, pending) && MayWrite(w, id, row)
    ensures AgreesExcept(site, Written(site, w, id, row, target),
                         if target == TargetOf(row) then pending - {id} else pending + {id})
  {
    var w' := Written(site, w, id, row, target);
    WrittenKeepsUnique(site, w, id, row, target);
    forall base, fqdn | base in w'.routes
      ensures fqdn in w'.routes[base] <==> Owned(site, w', base, fqdn)
    {
      WrittenOwned(site, w, id, row, target, base, fqdn);
    }
    forall j | j in w'.vms && j != id && j !in pending ensures Correct(site, w', j) {
      WrittenOthersStay(site, w, id, row, target, j);
    }
    if target == TargetOf(row) {
      WrittenIsCorrect(site, w, id, row);
    }
  }

  function Erased(site: Site, w: World, id: VmId): World
    requires Wired(site, w) && id in w.vms
  {
    w.(vms := w.vms - {id},
       routes := DropRoute(w.routes, HomeOf(site, w, id), NameOf(site, w.vms[id].subdomain)))
  }

  lemma ErasedOwned(site: Site, w: World, id: VmId, base: string, fqdn: Fqdn)
    requires Wired(site, w) && UniqueSubdomains(w.vms) && id in w.vms && base in w.routes
    requires fqdn in w.routes[base] <==> Owned(site, w, base, fqdn)
    ensures var w' := Erased(site, w, id);
      fqdn in w'.routes[base] <==> Owned(site, w', base, fqdn)
  {
    var w' := Erased(site, w, id);
    if Owned(site, w', base, fqdn) {
      var j :| j in w'.vms && HomeOf(site, w', j) == base && NameOf(site, w'.vms[j].subdomain) == fqdn;
      assert HomeOf(site, w, j) == base;
      assert Owned(site, w, base, fqdn);
    }
    if fqdn in w'.routes[base] {
      var j :| j in w.vms && HomeOf(site, w, j) == base && NameOf(site, w.vms[j].subdomain) == fqdn;
      assert j != id;
      assert HomeOf(site, w', j) == base;
    }
  }

  lemma ErasedOthersStay(site: Site, w: World, id: VmId, j: VmId)
    requires Wired(site, w) && UniqueSubdomains(w.vms) && id in w.vms
    requires j in w.vms && j != id && Correct(site, w, j)
    ensures Correct(site, Erased(site, w, id), j)
  {
    assert NameOf(site, w.vms[j].subdomain) != NameOf(site, w.vms[id].subdomain);
  }

  lemma ErasedKeepsAgreement(site: Site, w: World, pending: set<VmId>, id: VmId)
    requires AgreesExcept(site, w, pending) && id in w.vms
    ensures AgreesExcept(site, Erased(site, w, id), pending - {id})
  {
    var w' := Erased(site, w, id);
    forall base, fqdn | base in w'.routes
      ensures fqdn in w'.routes[base] <==> Owned(site, w', base, fqdn)
    {
      ErasedOwned(site, w, id, base, fqdn);
    }
    forall j | j in w'.vms && j !in pending ensures Correct(site, w', j) {
      ErasedOthersStay(site, w, id, j);
    }
  }

  /** Rewriting rows without touching names, hosts or routes. */
  lemma RowsOnlyKeepsAgreement(site: Site, w: World, pending: set<VmId>, vms: VmTable, more: set<VmId>)
    requires AgreesExcept(site, w, pending)
    requires vms.Keys == w.vms.Keys
    requires forall id :: id in vms ==> vms[id].subdomain == w.vms[id].subdomain && vms[id].host == w.vms[id].host
    requires forall id :: id in vms && id !in more ==> TargetOf(vms[id]) == TargetOf(w.vms[id])
    ensures AgreesExcept(site, w.(vms := vms), pending + more)
  {
    var w' := w.(vms := vms);
    forall base, fqdn | base in w'.routes
      ensures fqdn in w'.routes[base] <==> Owned(site, w', base, fqdn)
    {
      if Owned(site, w, base, fqdn) {
        var id :| id in w.vms && HomeOf(site, w, id) == base && NameOf(site, w.vms[id].subdomain) == fqdn;
        assert HomeOf(site, w', id) == base && NameOf(site, w'.vms[id].subdomain) == fqdn;
      }
      if Owned(site, w', base, fqdn) {
        var id :| id in w'.vms && HomeOf(site, w', id) == base && NameOf(site, w'.vms[id].subdomain) == fqdn;
        assert HomeOf(site, w, id) == base && NameOf(site, w.vms[id].subdomain) == fqdn;
      }
    }
    forall id | id in vms && id !in pending + more ensures Correct(site, w', id) {
      assert Correct(site, w, id);
    }
  }
}
