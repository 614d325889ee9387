/** The control plane's operations on the shared table and the route tables, each proved to be
    one step of the abstract runs. */
module ControlPlane {
  import opened Fleet
  import opened RouterSync
  import opened Regions
  import opened Usernames
  import opened Agreement
  import opened Operations
  import Names
  import Scheduler
  import Addressing
  import Decimal

  const MIN_VCPUS := 250

  /** A creation request, with the choices the environment makes: the fresh id, the random
      suffixes, the clock, and whether the image is ready and the agent agrees. */
  datatype CreateRequest = CreateRequest(
    id: VmId,
    name: string,
    row: VmRow,
    region: Option<string>,
    required: Option<Json>,
    spread: bool,
    suffixes: seq<string>,
    now: int,
    imageReady: bool,
    agentOk: bool)

  function Placement(q: CreateRequest): Scheduler.Request {
    Scheduler.Request(q.row.vcpus, q.row.memoryMb, q.spread, Scheduler.EffectiveLabels(q.region, q.required))
  }

  predicate Suffixes(suffixes: seq<string>) {
    |suffixes| == Names.ATTEMPTS && forall k :: 0 <= k < |suffixes| ==> Names.IsSuffix(suffixes[k])
  }

  /** The created row: placed on the host the strategy prefers, with the least free slot there, the host's
      own region, and a free name. */
  ghost predicate WellCreated(w: World, q: CreateRequest, row: VmRow) {
    && row.host.Some? && row.host.value in w.hosts
    && Scheduler.Preferred(w.hosts, row.host.value, Placement(q), q.now)
    && (exists slot: nat :: Addressing.LeastFree(w.vms, row.host.value, slot) && row.ip == Addressing.GuestIpText(slot))
    && row.region == RegionLabel(w.hosts[row.host.value].labels)
    && !SubdomainTaken(w.vms, row.subdomain) && NoDots(row.subdomain)
    && row == Inserted(q.row).(host := row.host, ip := row.ip, region := row.region, subdomain := row.subdomain)
  }

  /** Neither the slug nor any of its suffixed forms is free. */
  predicate NoNameFree(vms: VmTable, lower: char -> string, name: string, suffixes: seq<string>) {
    var slug := Names.Slugify(lower, name);
    SubdomainTaken(vms, slug) && Names.NoneFree(vms, slug, suffixes)
  }

  predicate NoSlotFree(vms: VmTable, host: HostId) {
    forall n :: 1 <= n <= 65534 ==> Addressing.SlotUsed(vms, host, n)
  }

  /** The request itself, the image or the agent rules the creation out. */
  predicate Inadmissible(q: CreateRequest) {
    q.row.vcpus < MIN_VCPUS || !q.imageReady || !q.agentOk
  }

  /** The only reasons to refuse a creation. */
  ghost predicate RefusalFounded(w: World, q: CreateRequest, lower: char -> string) {
    || Inadmissible(q) || q.id in w.vms
    || NoNameFree(w.vms, lower, q.name, q.suffixes)
    || (forall h :: h in w.hosts ==> !Scheduler.Eligible(w.hosts, h, Placement(q), q.now))
    || (exists h :: h in w.hosts && Scheduler.Eligible(w.hosts, h, Placement(q), q.now) && NoSlotFree(w.vms, h))
  }

  /** The labels that the request asks of a host: each required one, the region excepted if it is
      asked for by itself, and the region, unless the requirements are not an object. */
  predicate HasLabels(labels: Json, q: CreateRequest) {
    && (q.required.Some? && q.required.value.Obj? ==>
          labels.Obj? && forall k :: k in q.required.value.fields && (k != "region" || q.region.None?) ==>
            k in labels.fields && labels.fields[k] == q.required.value.fields[k])
    && (q.region.Some? && (q.required.None? || q.required.value.Obj?) ==>
          labels.Obj? && "region" in labels.fields && labels.fields["region"] == Str(q.region.value))
  }

  /** The host is active, was seen within the last minute, has the vCPUs and the memory left, and
      the labels. */
  predicate CanHost(h: HostRow, q: CreateRequest) {
    && h.status == HostActive && q.now - h.lastSeenAt <= 60
    && h.vcpuTotal - h.vcpuUsed >= q.row.vcpus && h.memTotalMb - h.memUsedMb >= q.row.memoryMb
    && HasLabels(h.labels, q)
  }

  lemma LabelsMean(labels: Json, q: CreateRequest)
    ensures Scheduler.LabelsMatch(labels, Scheduler.EffectiveLabels(q.region, q.required)) <==> HasLabels(labels, q)
  {
    var required := Scheduler.EffectiveLabels(q.region, q.required);
    if q.region.Some? && (q.required.None? || q.required.value.Obj?) {
      assert required.value.Obj? && "region" in required.value.fields;
      if q.required.Some? {
        assert forall k :: k in required.value.fields <==> k in q.required.value.fields || k == "region";
      }
    }
  }

  lemma EligibleMeans(hosts: map<HostId, HostRow>, h: HostId, q: CreateRequest)
    requires h in hosts
    ensures Scheduler.Eligible(hosts, h, Placement(q), q.now) <==> CanHost(hosts[h], q)
  {
    Scheduler.FeasibleMeans(hosts[h], Placement(q), q.now);
    LabelsMean(hosts[h].labels, q);
  }

  /** What a well-created row is, column by column, and why its host. */
  lemma WellCreatedMeans(w: World, q: CreateRequest, row: VmRow)
    requires WellCreated(w, q, row)
    ensures row.host.Some? && row.host.value in w.hosts
    ensures var h := w.hosts[row.host.value];
      && h.status == HostActive && q.now - h.lastSeenAt <= 60
      && h.vcpuTotal - h.vcpuUsed >= q.row.vcpus && h.memTotalMb - h.memUsedMb >= q.row.memoryMb
      && HasLabels(h.labels, q)
      && forall g :: g in w.hosts && CanHost(w.hosts[g], q) ==>
        if q.spread then w.hosts[g].memTotalMb - w.hosts[g].memUsedMb <= h.memTotalMb - h.memUsedMb
        else h.memTotalMb - h.memUsedMb <= w.hosts[g].memTotalMb - w.hosts[g].memUsedMb
    ensures row == VmRow(q.row.account, Stopped, row.subdomain, q.row.vcpus, q.row.memoryMb, row.ip, q.row.port,
                         None, None, row.host, q.row.overlay, RegionLabel(w.hosts[row.host.value].labels), false)
    ensures exists slot: nat :: 1 <= slot <= 65534 && row.ip == "172.16." + Decimal.Print(slot) + ".2"
    ensures forall id :: id in w.vms && w.vms[id].host == row.host ==> w.vms[id].ip != row.ip
    ensures forall id :: id in w.vms ==> w.vms[id].subdomain != row.subdomain
  {
    EligibleMeans(w.hosts, row.host.value, q);
    forall g | g in w.hosts ensures Scheduler.Eligible(w.hosts, g, Placement(q), q.now) <==> CanHost(w.hosts[g], q) {
      EligibleMeans(w.hosts, g, q);
    }
    var slot: nat :| Addressing.LeastFree(w.vms, row.host.value, slot) && row.ip == Addressing.GuestIpText(slot);
    Addressing.UsedSlotOfGuestIp(slot);
  }

  lemma RefusalMeans(w: World, q: CreateRequest, lower: char -> string)
    requires RefusalFounded(w, q, lower)
    ensures
      || q.row.vcpus < 250 || !q.imageReady || !q.agentOk || q.id in w.vms
      || NoNameFree(w.vms, lower, q.name, q.suffixes)
      || (forall h :: h in w.hosts ==> !CanHost(w.hosts[h], q))
      || (exists h :: h in w.hosts && CanHost(w.hosts[h], q) && NoSlotFree(w.vms, h))
  {
    forall h | h in w.hosts ensures Scheduler.Eligible(w.hosts, h, Placement(q), q.now) <==> CanHost(w.hosts[h], q) {
      EligibleMeans(w.hosts, h, q);
    }
  }

  /** The name was made from the one asked for: its slug, or the slug and a hyphen and one of the
      suffixes, all suffixed forms before it being taken as the slug is. */
  predicate NamedFor(vms: VmTable, lower: char -> string, name: string, suffixes: seq<string>, subdomain: string) {
    subdomain == Names.Slugify(lower, name) || Names.FirstFree(vms, Names.Slugify(lower, name), suffixes, subdomain)
  }

  /** The created row on its host, with the host's region. */
  function Landed(row: VmRow, host: HostRow): VmRow {
    Inserted(row).(host := Some(host.id), region := RegionLabel(host.labels))
  }

  /** A VM created for a region records that region, when the label requirements given beside
      it are absent or an object. */
  lemma CreatedInItsRegion(w: World, q: CreateRequest, row: VmRow)
    requires WellCreated(w, q, row) && q.region.Some? && (q.required == None || q.required.value.Obj?)
    ensures row.region == q.region && RegionLabel(w.hosts[row.host.value].labels) == q.region
  {
    Scheduler.RegionIsEnforcedIff(q.region.value, q.required);
    assert Scheduler.LabelsMatch(w.hosts[row.host.value].labels, Placement(q).labels);
  }

  /** A creation is a step of the addressing runs. */
  lemma CreationIsAddressingStep(w: World, q: CreateRequest, row: VmRow)
    requires q.id !in w.vms && WellCreated(w, q, row)
    ensures Addressing.Next(w.vms, Addressing.Create(q.id, row.host.value, row), w.vms[q.id := row])
  {
    var slot: nat :| Addressing.LeastFree(w.vms, row.host.value, slot) && row.ip == Addressing.GuestIpText(slot);
    assert Addressing.Placed(row, row.host.value, slot) == row;
  }

  /** The addresses of a host's VMs. */
  method UsedIps(vms: VmTable, host: HostId) returns (ips: seq<string>)
    ensures forall slot: nat :: slot in Addressing.SlotsOf(ips) <==> Addressing.SlotUsed(vms, host, slot)
  {
    var ids := Select(IdsOnHost(vms, host));
    ips := [];
    for k := 0 to |ids|
      invariant |ips| == k
      invariant forall i :: 0 <= i < k ==> ids[i] in vms && ips[i] == vms[ids[i]].ip
    {
      assert ids[k] in ids;
      ips := ips + [vms[ids[k]].ip];
    }
    forall slot: nat ensures slot in Addressing.SlotsOf(ips) <==> Addressing.SlotUsed(vms, host, slot) {
      if slot in Addressing.SlotsOf(ips) {
        var i :| 0 <= i < |ips| && Addressing.UsedSlot(ips[i]) == Some(slot);
        assert ids[i] in ids;
      }
      if Addressing.SlotUsed(vms, host, slot) {
        var id :| id in vms && vms[id].host == Some(host) && Addressing.UsedSlot(vms[id].ip) == Some(slot);
        assert id in ids;
        var i :| 0 <= i < |ids| && ids[i] == id;
        assert ips[i] in ips;
      }
    }
  }

  method FreeAddress(vms: VmTable, host: HostId) returns (r: Option<string>)
    ensures r.Some? ==> exists slot: nat :: Addressing.LeastFree(vms, host, slot) && r.value == Addressing.GuestIpText(slot)
    ensures r.None? <==> NoSlotFree(vms, host)
  {
    var ips := UsedIps(vms, host);
    var slot := Addressing.NextFreeSlot(ips);
    if slot.None? {
      return None;
    }
    assert Addressing.LeastFree(vms, host, slot.value);
    r := Some(Addressing.GuestIpText(slot.value));
  }

  /** The loop's next turn is one more step of the specification. */
  lemma ResyncGrows(site: Site, w: World, renamed: seq<RenamedSubdomain>, k: nat)
    requires Wired(site, w) && k < |renamed|
    ensures Resync(site, w, renamed[..k + 1]) == ResyncStep(site, w, Resync(site, w, renamed[..k]), renamed[k])
  {
    assert renamed[..k + 1][..k] == renamed[..k];
  }

  /** Re-routing one VM reads the rows and the hosts of the state, not its routes. */
  lemma ResyncStepReads(site: Site, w: World, w': World, routes: Routes, e: RenamedSubdomain)
    requires routes.Keys == site.router.Bases() && w'.vms == w.vms && w'.hosts == w.hosts
    ensures ResyncStep(site, w', routes, e) == ResyncStep(site, w, routes, e)
  {
  }

  lemma DeleteIsErased(site: Site, w: World, id: VmId)
    requires Wired(site, w) && id in w.vms && w.vms[id].status.Stopped?
    ensures Apply(site, w, Delete(id)) == Erased(site, w, id)
  {
  }

  /** The account exists, the username is valid, and the change keeps names apart. */
  predicate WellPosed(accounts: map<AccountId, AccountRow>, account: AccountId, name: string) {
    account in accounts && ValidUsername(name) && Separate(accounts[account].username, name)
  }

  /** The username is the account's own, or is free and clashes with no name that stays. */
  ghost predicate RenameAllowed(vms: VmTable, accounts: map<AccountId, AccountRow>, account: AccountId, name: string)
    requires account in accounts
  {
    || accounts[account].username == name
    || (!Clash(vms, account, Renaming(accounts[account].username, name)) && !UsernameTaken(accounts, account, name))
  }

  lemma PatchIs(site: Site, w: World, id: VmId, subdomain: Option<string>, port: Option<int>, isPublic: Option<bool>)
    requires Wired(site, w)
    ensures Apply(site, w, Patch(id, subdomain, port, isPublic)) ==
      var w1 := NameAndPort(site, w, id, subdomain, port);
      if isPublic.Some? then w1.(vms := SetPublic(w1.vms, id, isPublic.value)) else w1
  {
  }

  /** What a patch leaves in the row, column by column, and in the routes of its instance. */
  lemma PatchMeans(site: Site, w: World, id: VmId, subdomain: Option<string>, port: Option<int>, isPublic: Option<bool>)
    requires Wired(site, w) && id in w.vms && (subdomain.Some? ==> !SubdomainTaken(w.vms, subdomain.value))
    ensures var w' := Apply(site, w, Patch(id, subdomain, port, isPublic));
      var row := w.vms[id];
      var row' := row.(subdomain := if subdomain.Some? then subdomain.value else row.subdomain,
                       port := if port.Some? then port.value else row.port,
                       isPublic := if isPublic.Some? then isPublic.value else row.isPublic);
      var base := Home(site, w.hosts, row.host);
      && w'.vms == w.vms[id := row'] && w'.hosts == w.hosts
      && (subdomain.Some? || (port.Some? && row.status == Running) ==>
            RoutedTo(w'.routes, base, Fqdn(row'.subdomain, site.baseDomain),
                     if row.status == Running then ToVm(row.ip, row'.port % 65536) else ToStoppedPage))
      && (subdomain.Some? && subdomain.value != row.subdomain ==>
            base in w'.routes && Fqdn(row.subdomain, site.baseDomain) !in w'.routes[base])
  {
    var w1 := NameAndPort(site, w, id, subdomain, port);
    NameAndPortMeans(site, w, id, subdomain, port);
    PublicMeans(w1.vms, id, isPublic);
    PatchIs(site, w, id, subdomain, port, isPublic);
  }

  lemma PublicMeans(vms: VmTable, id: VmId, isPublic: Option<bool>)
    requires id in vms
    ensures (if isPublic.Some? then SetPublic(vms, id, isPublic.value) else vms)
         == vms[id := vms[id].(isPublic := if isPublic.Some? then isPublic.value else vms[id].isPublic)]
  {
    assert vms[id] == vms[id].(isPublic := vms[id].isPublic);
  }

  lemma NameAndPortMeans(site: Site, w: World, id: VmId, subdomain: Option<string>, port: Option<int>)
    requires Wired(site, w) && id in w.vms && (subdomain.Some? ==> !SubdomainTaken(w.vms, subdomain.value))
    ensures var w' := NameAndPort(site, w, id, subdomain, port);
      var row := w.vms[id];
      var row' := row.(subdomain := if subdomain.Some? then subdomain.value else row.subdomain,
                       port := if port.Some? then port.value else row.port);
      var base := Home(site, w.hosts, row.host);
      && w'.vms == w.vms[id := row'] && w'.hosts == w.hosts
      && (subdomain.Some? || (port.Some? && row.status == Running) ==>
            RoutedTo(w'.routes, base, Fqdn(row'.subdomain, site.baseDomain),
                     if row.status == Running then ToVm(row.ip, row'.port % 65536) else ToStoppedPage))
      && (subdomain.Some? && subdomain.value != row.subdomain ==>
            base in w'.routes && Fqdn(row.subdomain, site.baseDomain) !in w'.routes[base])
  {
    var w1 := if subdomain.Some? then Rename(site, w, id, subdomain.value) else w;
    RenameMeans(site, w, id, subdomain);
    if port.Some? {
      PortMeans(site, w1, id, port.value);
    }
  }

  lemma RenameMeans(site: Site, w: World, id: VmId, subdomain: Option<string>)
    requires Wired(site, w) && id in w.vms && (subdomain.Some? ==> !SubdomainTaken(w.vms, subdomain.value))
    ensures var w' := if subdomain.Some? then Rename(site, w, id, subdomain.value) else w;
      var row := w.vms[id];
      var name := if subdomain.Some? then subdomain.value else row.subdomain;
      var base := Home(site, w.hosts, row.host);
      && w'.vms == w.vms[id := row.(subdomain := name)] && w'.hosts == w.hosts
      && (subdomain.Some? ==>
            RoutedTo(w'.routes, base, Fqdn(name, site.baseDomain),
                     if row.status == Running then ToVm(row.ip, row.port % 65536) else ToStoppedPage))
      && (name != row.subdomain ==> base in w'.routes && Fqdn(row.subdomain, site.baseDomain) !in w'.routes[base])
  {
    if subdomain.None? {
      assert w.vms[id] == w.vms[id].(subdomain := w.vms[id].subdomain);
    }
  }

  /** The port is written whether or not the VM runs; the route only if it does. */
  lemma PortMeans(site: Site, w: World, id: VmId, port: int)
    requires Wired(site, w) && id in w.vms
    ensures var w' := ChangePort(site, w, id, port);
      var row := w.vms[id];
      var base := Home(site, w.hosts, row.host);
      && w'.vms == w.vms[id := row.(port := port)] && w'.hosts == w.hosts
      && (row.status == Running ==>
            RoutedTo(w'.routes, base, Fqdn(row.subdomain, site.baseDomain), ToVm(row.ip, port % 65536)))
      && (row.status != Running ==> w'.routes == w.routes)
      && forall fqdn :: fqdn != Fqdn(row.subdomain, site.baseDomain) && base in w.routes && fqdn !in w.routes[base] ==>
        base in w'.routes && fqdn !in w'.routes[base]
  {
  }

  lemma SetPublicKeepsUnique(vms: VmTable, id: VmId, isPublic: bool)
    requires UniqueSubdomains(vms)
    ensures UniqueSubdomains(SetPublic(vms, id, isPublic))
  {
  }

  /** The VM exists, is stopped, and its agent can be addressed. */
  predicate Deletable(vms: VmTable, hosts: map<HostId, HostRow>, id: VmId) {
    id in vms && vms[id].status.Stopped? && vms[id].host.Some? && vms[id].host.value in hosts
  }

  class ControlPlaneOps {
    const db: Database
    const caddy: CaddyApi
    const site: Site
    const lower: char -> string

    constructor (db: Database, caddy: CaddyApi, site: Site, lower: char -> string)
      requires Names.Lowercasing(lower)
      ensures this.db == db && this.caddy == caddy && this.site == site && this.lower == lower
    {
      this.db, this.caddy, this.site, this.lower := db, caddy, site, lower;
    }

    ghost predicate Valid() reads db, caddy
    {
      && db.Valid() && caddy.Valid()
      && caddy.tables.Keys == site.router.Bases()
      && Names.Lowercasing(lower)
    }

    ghost function State(): (w: World) reads db, caddy
      ensures Valid() ==> Wired(site, w)
    {
      World(db.vms, db.hosts, caddy.Contents())
    }

    /** The instance of a VM, by its host's region label. */
    method CaddyForVm(row: VmRow) returns (base: string)
      ensures base == Home(site, db.hosts, row.host)
      ensures base in site.router.Bases()
    {
      if row.host.Some? && row.host.value in db.hosts {
        return site.router.ForHost(db.hosts[row.host.value]);
      }
      base := site.router.ForRegion(None);
    }

    /** A running VM's name is routed to it, any other VM's name to the stopped page. */
    method RouteRow(base: string, subdomain: string, row: VmRow)
      requires Valid() && base in site.router.Bases()
      modifies caddy
      ensures Valid()
      ensures caddy.Contents() == SetRoute(old(caddy.Contents()), base, NameOf(site, subdomain), TargetOf(row))
    {
      if row.status.Running? {
        caddy.SetVmRoute(base, NameOf(site, subdomain), row.ip, Port16(row.port));
      } else {
        caddy.SetStoppedRoute(base, NameOf(site, subdomain));
      }
    }

    // Creation and deletion.

    /** The agent inserts the row and records itself as the host. */
    method AgentCreate(id: VmId, row: VmRow, host: HostId) returns (ok: bool)
      requires Valid()
      modifies db`vms
      ensures ok <==> id !in old(db.vms) && !SubdomainTaken(old(db.vms), row.subdomain)
      ensures Valid()
      ensures db.vms == if ok then old(db.vms)[id := Inserted(row).(host := Some(host))] else old(db.vms)
    {
      ok := db.InsertVm(id, row);
      if ok {
        db.SetVmHost(id, host);
      }
    }

    /** The row as the agent created it, with the region of the host it landed on. */
    method CreateRow(id: VmId, row: VmRow, host: HostRow) returns (ok: bool)
      requires Valid() && row.region == None
      modifies db`vms
      ensures ok <==> id !in old(db.vms) && !SubdomainTaken(old(db.vms), row.subdomain)
      ensures Valid()
      ensures db.vms == if ok then old(db.vms)[id := Landed(row, host)] else old(db.vms)
    {
      ok := AgentCreate(id, row, host.id);
      var region := RegionLabel(host.labels);
      if ok && region.Some? {
        db.SetVmRegion(id, region.value);
      }
    }

    /** What happens once the host, the address and the name are chosen. */
    method Place(q: CreateRequest, host: HostRow, row: VmRow) returns (r: Result<VmRow>)
      requires Valid() && host.id in db.hosts && db.hosts[host.id] == host
      requires row.region == None
      modifies db`vms, caddy
      ensures Valid()
      ensures r.Err? ==> State() == old(State())
      ensures r.Ok? <==> q.id !in old(db.vms) && !SubdomainTaken(old(db.vms), row.subdomain)
      ensures r.Ok? ==> r.value == Landed(row, host) && db.vms == old(db.vms)[q.id := r.value]
      ensures r.Ok? ==> State() == Written(site, old(State()), q.id, r.value, ToStoppedPage)
    {
      var ok := CreateRow(q.id, row, host);
      if !ok {
        return Err("agent failed to create vm");
      }
      var vm := db.vms[q.id];
      RouteNew(host, vm);
      r := Ok(vm);
    }

    method RouteNew(host: HostRow, vm: VmRow)
      requires Valid() && host.id in db.hosts && db.hosts[host.id] == host && vm.host == Some(host.id)
      modifies caddy
      ensures Valid()
      ensures caddy.Contents() ==
        SetRoute(old(caddy.Contents()), Home(site, db.hosts, vm.host), NameOf(site, vm.subdomain), ToStoppedPage)
    {
      caddy.SetStoppedRoute(site.router.ForHost(host), NameOf(site, vm.subdomain));
    }

    /** The name made from the one asked for. */
    method NameFor(name: string, suffixes: seq<string>) returns (r: Option<string>)
      requires Valid() && Suffixes(suffixes)
      ensures r.None? <==> NoNameFree(db.vms, lower, name, suffixes)
      ensures r.Some? ==> NoDots(r.value) && !SubdomainTaken(db.vms, r.value)
      ensures r.Some? ==> NamedFor(db.vms, lower, name, suffixes, r.value)
    {
      var generated := Names.Generate(db.vms, lower, name, suffixes);
      r := if generated.Ok? then Some(generated.value) else None;
    }

    /** The choices of a creation, before anything is written: host, address and name. */
    method Choose(q: CreateRequest) returns (r: Result<(HostRow, VmRow)>)
      requires Valid() && Suffixes(q.suffixes)
      ensures r.Err? ==> RefusalFounded(State(), q, lower)
      ensures r.Ok? ==> var (host, row) := r.value;
        && host.id in db.hosts && db.hosts[host.id] == host && row.region == None && WellCreated(State(), q, Landed(row, host))
        && NamedFor(db.vms, lower, q.name, q.suffixes, row.subdomain)
    {
      var picked := Scheduler.PickHost(db, Placement(q), q.now);
      if picked.Err? {
        return Err(picked.error);
      }
      var host := picked.value;
      var ip := FreeAddress(db.vms, host.id);
      if ip.None? {
        return Err("IP pool exhausted");
      }
      var name := NameFor(q.name, q.suffixes);
      if name.None? {
        return Err("could not generate unique subdomain");
      }
      r := Ok((host, q.row.(ip := ip.value, subdomain := name.value, region := None)));
    }

    /** Creation changes nothing, or is one Create step with a well-placed row. */
    method CreateStep(q: CreateRequest) returns (r: Result<VmRow>)
      requires Valid() && Suffixes(q.suffixes)
      modifies db`vms, caddy
      ensures Valid()
      ensures r.Err? ==> State() == old(State()) && RefusalFounded(old(State()), q, lower)
      ensures r.Ok? ==> !Inadmissible(q) && q.id !in old(db.vms) && WellCreated(old(State()), q, r.value)
      ensures r.Ok? ==> NamedFor(old(db.vms), lower, q.name, q.suffixes, r.value.subdomain)
      ensures r.Ok? ==> State() == Apply(site, old(State()), Create(q.id, r.value)) && db.vms == old(db.vms)[q.id := r.value]
    {
      if q.row.vcpus < MIN_VCPUS || !q.imageReady {
        return Err("vcpus below the minimum, or image missing or not ready");
      }
      var choice := Choose(q);
      if choice.Err? {
        return Err(choice.error);
      }
      if !q.agentOk {
        return Err("agent failed to create vm");
      }
      var (host, row) := choice.value;
      r := Place(q, host, row);
    }

    /** Creation, said of the columns: where the VM lands and why there, what its row holds, and the
        only reasons to refuse it. */
    method CreateVm(q: CreateRequest) returns (r: Result<VmRow>)
      requires Valid() && Suffixes(q.suffixes)
      modifies db`vms, caddy
      ensures Valid()
      ensures r.Ok? ==> State() == Apply(site, old(State()), Create(q.id, r.value))
      ensures r.Ok? ==> WellCreated(old(State()), q, r.value)
      ensures r.Err? ==> State() == old(State())
      ensures r.Ok? ==> q.id !in old(db.vms) && db.vms == old(db.vms)[q.id := r.value]
      ensures r.Ok? ==> q.row.vcpus >= 250 && q.imageReady && q.agentOk
      // The host: active, fresh, with room and the labels, and the fullest such one or, to spread,
      // the emptiest.
      ensures r.Ok? ==> r.value.host.Some? && r.value.host.value in db.hosts
      ensures r.Ok? ==>
        var h := db.hosts[r.value.host.value];
        && h.status == HostActive && q.now - h.lastSeenAt <= 60
        && h.vcpuTotal - h.vcpuUsed >= q.row.vcpus && h.memTotalMb - h.memUsedMb >= q.row.memoryMb
        && (q.required.Some? && q.required.value.Obj? ==>
              h.labels.Obj? && forall k :: k in q.required.value.fields && k != "region" ==>
                k in h.labels.fields && h.labels.fields[k] == q.required.value.fields[k])
        && (q.region.Some? && (q.required.None? || q.required.value.Obj?) ==>
              r.value.region == q.region && h.labels.Obj? && "region" in h.labels.fields && h.labels.fields["region"] == Str(q.region.value))
      ensures r.Ok? ==>
        var h := db.hosts[r.value.host.value];
        forall g :: g in db.hosts && CanHost(db.hosts[g], q) ==>
          if q.spread then db.hosts[g].memTotalMb - db.hosts[g].memUsedMb <= h.memTotalMb - h.memUsedMb
          else h.memTotalMb - h.memUsedMb <= db.hosts[g].memTotalMb - db.hosts[g].memUsedMb
      // The row.
      ensures r.Ok? ==>
        r.value == VmRow(q.row.account, Stopped, r.value.subdomain, q.row.vcpus, q.row.memoryMb, r.value.ip, q.row.port,
                         None, None, r.value.host, q.row.overlay, RegionLabel(db.hosts[r.value.host.value].labels), false)
      ensures r.Ok? ==> exists slot: nat :: 1 <= slot <= 65534 && r.value.ip == "172.16." + Decimal.Print(slot) + ".2"
      ensures r.Ok? ==> forall id :: id in old(db.vms) && old(db.vms)[id].host == r.value.host ==> old(db.vms)[id].ip != r.value.ip
      ensures r.Ok? ==> NamedFor(old(db.vms), lower, q.name, q.suffixes, r.value.subdomain)
      ensures r.Ok? ==> forall id :: id in old(db.vms) ==> old(db.vms)[id].subdomain != r.value.subdomain
      // The refusals.
      ensures r.Err? ==>
        || q.row.vcpus < 250 || !q.imageReady || !q.agentOk || q.id in old(db.vms)
        || NoNameFree(old(db.vms), lower, q.name, q.suffixes)
        || (forall h :: h in db.hosts ==> !CanHost(db.hosts[h], q))
        || (exists h :: h in db.hosts && CanHost(db.hosts[h], q) && NoSlotFree(old(db.vms), h))
    {
      ghost var w := State();
      r := CreateStep(q);
      if r.Ok? {
        WellCreatedMeans(w, q, r.value);
        if q.region.Some? && (q.required.None? || q.required.value.Obj?) {
          CreatedInItsRegion(w, q, r.value);
        }
      } else {
        RefusalMeans(w, q, lower);
      }
    }

    /** Only a stopped VM is deleted: the agent removes its row, then its route goes. */
    method DeleteVm(id: VmId, agentOk: bool) returns (ok: bool)
      requires Valid()
      modifies db`vms, caddy
      ensures Valid()
      ensures ok <==> agentOk && Deletable(old(db.vms), db.hosts, id)
      ensures State() == if ok then Apply(site, old(State()), Delete(id)) else old(State())
      ensures ok ==> old(db.vms)[id].status == Stopped && db.vms == old(db.vms) - {id}
      ensures ok <==>
        (agentOk && id in old(db.vms) && old(db.vms)[id].status == Stopped &&
         old(db.vms)[id].host.Some? && old(db.vms)[id].host.value in db.hosts)
    {
      if !Deletable(db.vms, db.hosts, id) || !agentOk {
        return false;
      }
      var vm := db.vms[id];
      DeleteIsErased(site, State(), id);
      db.DeleteVm(id);
      var base := CaddyForVm(vm);
      caddy.DeleteRoute(base, NameOf(site, vm.subdomain));
      ok := true;
    }

    // Updates.

    /** The rename: column, new route, then the old route is deleted. */
    method RenameVm(id: VmId, subdomain: string) returns (ok: bool)
      requires Valid() && !SubdomainTaken(db.vms, subdomain)
      modifies db`vms, caddy
      ensures Valid() && (ok <==> id in old(db.vms))
      ensures State() == Rename(site, old(State()), id, subdomain)
    {
      if id !in db.vms {
        return false;
      }
      var current := db.vms[id];
      ok := db.RenameVm(id, subdomain);
      var base := CaddyForVm(current);
      RouteRow(base, subdomain, current);
      caddy.DeleteRoute(base, NameOf(site, current.subdomain));
    }

    method ChangeVmPort(id: VmId, port: int) returns (ok: bool)
      requires Valid()
      modifies db`vms, caddy
      ensures Valid() && (ok <==> id in old(db.vms))
      ensures State() == ChangePort(site, old(State()), id, port)
    {
      if id !in db.vms {
        return false;
      }
      var current := db.vms[id];
      db.UpdateVmPort(id, port);
      if current.status.Running? {
        var base := CaddyForVm(current);
        caddy.SetVmRoute(base, NameOf(site, current.subdomain), current.ip, Port16(port));
      }
      ok := true;
    }

    /** The rename to a generated name. */
    method PatchName(id: VmId, name: string, suffixes: seq<string>) returns (subdomain: Option<string>)
      requires Valid() && Suffixes(suffixes)
      modifies db`vms, caddy
      ensures Valid() && db.vms.Keys == old(db.vms).Keys
      ensures subdomain.Some? <==> id in old(db.vms) && !NoNameFree(old(db.vms), lower, name, suffixes)
      ensures subdomain.Some? ==> NoDots(subdomain.value) && !SubdomainTaken(old(db.vms), subdomain.value)
      ensures subdomain.Some? ==> NamedFor(old(db.vms), lower, name, suffixes, subdomain.value)
      ensures State() == if subdomain.Some? then Rename(site, old(State()), id, subdomain.value) else old(State())
    {
      subdomain := NameFor(name, suffixes);
      if subdomain.Some? {
        var ok := RenameVm(id, subdomain.value);
        subdomain := if ok then subdomain else None;
      }
    }

    /** The name and port of a patch. */
    method PatchNameAndPort(id: VmId, name: Option<string>, port: Option<int>, suffixes: seq<string>)
      returns (ok: bool, subdomain: Option<string>)
      requires Valid() && Suffixes(suffixes)
      modifies db`vms, caddy
      ensures Valid() && (ok ==> subdomain.Some? == name.Some?)
      ensures ok <==> id in old(db.vms) && !(name.Some? && NoNameFree(old(db.vms), lower, name.value, suffixes))
      ensures subdomain.Some? ==> NoDots(subdomain.value) && !SubdomainTaken(old(db.vms), subdomain.value)
      ensures subdomain.Some? ==> name.Some? && NamedFor(old(db.vms), lower, name.value, suffixes, subdomain.value)
      ensures State() == if ok then NameAndPort(site, old(State()), id, subdomain, port) else old(State())
    {
      ok, subdomain := id in db.vms, None;
      if name.Some? {
        subdomain := PatchName(id, name.value, suffixes);
        ok := subdomain.Some?;
      }
      if ok && port.Some? {
        ok := ChangeVmPort(id, port.value);
      }
    }

    method ChangeVmPublic(id: VmId, isPublic: bool)
      requires Valid()
      modifies db`vms
      ensures Valid()
      ensures State() == var w := old(State()); w.(vms := SetPublic(w.vms, id, isPublic))
    {
      SetPublicKeepsUnique(db.vms, id, isPublic);
      db.SetVmPublic(id, isPublic);
    }

    /** A patch of name, port and visibility, or any of them, is one Patch step, whose new name was
        generated and free. It fails, and changes nothing, exactly when there is no such VM or no
        name can be generated. */
    method PatchStep(id: VmId, name: Option<string>, port: Option<int>, isPublic: Option<bool>, suffixes: seq<string>)
      returns (ok: bool, subdomain: Option<string>)
      requires Valid() && Suffixes(suffixes)
      modifies db`vms, caddy
      ensures Valid() && (ok ==> subdomain.Some? == name.Some?)
      ensures ok <==> id in old(db.vms) && !(name.Some? && NoNameFree(old(db.vms), lower, name.value, suffixes))
      ensures subdomain.Some? ==> NoDots(subdomain.value) && !SubdomainTaken(old(db.vms), subdomain.value)
      ensures subdomain.Some? ==> name.Some? && NamedFor(old(db.vms), lower, name.value, suffixes, subdomain.value)
      ensures State() == if ok then Apply(site, old(State()), Patch(id, subdomain, port, isPublic)) else old(State())
    {
      ok, subdomain := PatchNameAndPort(id, name, port, suffixes);
      PatchIs(site, old(State()), id, subdomain, port, isPublic);
      if ok && isPublic.Some? {
        ChangeVmPublic(id, isPublic.value);
      }
    }

    /** The patch, said of the columns and the routes: the given columns are written and no others,
        no other row changes, and a new name, or a new port of a running VM, is routed at once. */
    method UpdateVm(id: VmId, name: Option<string>, port: Option<int>, isPublic: Option<bool>, suffixes: seq<string>)
      returns (ok: bool, subdomain: Option<string>)
      requires Valid() && Suffixes(suffixes)
      modifies db`vms, caddy
      ensures Valid() && (ok ==> subdomain.Some? == name.Some?)
      ensures ok <==> id in old(db.vms) && !(name.Some? && NoNameFree(old(db.vms), lower, name.value, suffixes))
      ensures subdomain.Some? ==> NoDots(subdomain.value) && !SubdomainTaken(old(db.vms), subdomain.value)
      ensures subdomain.Some? ==> name.Some? && NamedFor(old(db.vms), lower, name.value, suffixes, subdomain.value)
      ensures State() == if ok then Apply(site, old(State()), Patch(id, subdomain, port, isPublic)) else old(State())
      ensures ok ==>
        var row := old(db.vms)[id];
        db.vms == old(db.vms)[id := row.(subdomain := if name.Some? then subdomain.value else row.subdomain,
                                         port := if port.Some? then port.value else row.port,
                                         isPublic := if isPublic.Some? then isPublic.value else row.isPublic)]
      ensures ok && (name.Some? || (port.Some? && db.vms[id].status == Running)) ==>
        var row := db.vms[id];
        RoutedTo(caddy.Contents(), Home(site, db.hosts, row.host), Fqdn(row.subdomain, site.baseDomain),
                 if row.status == Running then ToVm(row.ip, row.port % 65536) else ToStoppedPage)
      ensures ok && name.Some? && subdomain.value != old(db.vms)[id].subdomain ==>
        Fqdn(old(db.vms)[id].subdomain, site.baseDomain) !in caddy.Contents()[Home(site, db.hosts, db.vms[id].host)]
    {
      ghost var w := State();
      ok, subdomain := PatchStep(id, name, port, isPublic, suffixes);
      if ok {
        PatchMeans(site, w, id, subdomain, port, isPublic);
      }
    }

    // Username changes.

    /** Re-routes one renamed VM. */
    method ResyncOne(entry: RenamedSubdomain)
      requires Valid()
      modifies caddy
      ensures Valid()
      ensures caddy.Contents() == ResyncStep(site, State(), old(caddy.Contents()), entry)
    {
      if entry.vmId !in db.vms {
        return;
      }
      var vm := db.vms[entry.vmId];
      var base := CaddyForVm(vm);
      RouteRow(base, entry.newSubdomain, vm);
      caddy.DeleteRoute(base, NameOf(site, entry.oldSubdomain));
    }

    method ResyncAll(renamed: seq<RenamedSubdomain>)
      requires Valid()
      modifies caddy
      ensures Valid()
      ensures caddy.Contents() == Resync(site, old(State()), renamed)
    {
      ghost var w := State();
      for k := 0 to |renamed|
        invariant Valid() && caddy.Contents() == Resync(site, w, renamed[..k])
      {
        ResyncGrows(site, w, renamed, k);
        ResyncOne(renamed[k]);
        ResyncStepReads(site, w, State(), Resync(site, w, renamed[..k]), renamed[k]);
      }
      assert renamed[..|renamed|] == renamed;
    }

    /** A change of username either changes nothing or renames exactly the account's names that
        end in the old username, and their routes with them. When the old username is not the
        new one behind a dot, it is one step of the abstract runs. */
    method RenameUser(account: AccountId, requested: string) returns (ok: bool, ghost renamed: seq<RenamedSubdomain>)
      requires Valid()
      modifies db`vms, db`accounts, caddy
      ensures Valid()
      ensures ok ==> account in old(db.accounts) && ValidUsername(Names.LowerAll(lower, requested))
      ensures WellPosed(old(db.accounts), account, Names.LowerAll(lower, requested)) ==>
        (ok <==> RenameAllowed(old(db.vms), old(db.accounts), account, Names.LowerAll(lower, requested)))
      ensures ok ==> db.accounts == SetUsername(old(db.accounts), account, Names.LowerAll(lower, requested))
      ensures ok ==>
        var f := Renaming(old(db.accounts)[account].username, Names.LowerAll(lower, requested));
        db.vms == Renamed(old(db.vms), account, f) && ListsRenamed(old(db.vms), old(db.vms).Keys, account, f, renamed)
      ensures ok ==> caddy.Contents() == Resync(site, old(State()).(vms := db.vms), renamed)
      ensures ok && Separate(old(db.accounts)[account].username, Names.LowerAll(lower, requested)) ==>
        State() == Apply(site, old(State()),
                         Operations.ChangeUsername(account, old(db.accounts)[account].username, Names.LowerAll(lower, requested), renamed))
      ensures !ok ==> State() == old(State()) && db.accounts == old(db.accounts)
    {
      ok, renamed := false, [];
      ghost var w := State();
      var name := Names.LowerAll(lower, requested);
      if !ValidUsername(name) || account !in db.accounts {
        return;
      }
      var current := db.accounts[account].username;
      if current == name {
        NothingToRename(db.vms, account, name);
        SetSameUsername(db.accounts, account);
        ChangeIsStep(site, w, State(), account, name, name, []);
        return true, [];
      }
      var entries;
      ok, entries := UpdateUsername(db, account, current, name);
      if ok {
        ResyncAll(entries);
        renamed := entries;
        ChangeIsStep(site, w, State(), account, current, name, entries);
      }
    }

    /** The change, said of the names themselves. The requested username is lowercased; the
        account's subdomains that are a front before its old username get the front before the new
        one, and no other row changes. */
    method ChangeUsername(account: AccountId, requested: string) returns (ok: bool, ghost renamed: seq<RenamedSubdomain>)
      requires Valid()
      modifies db`vms, db`accounts, caddy
      ensures Valid()
      ensures ok ==> account in old(db.accounts)
      ensures ok ==>
        var f := Renaming(old(db.accounts)[account].username, Names.LowerAll(lower, requested));
        db.vms == Renamed(old(db.vms), account, f) && ListsRenamed(old(db.vms), old(db.vms).Keys, account, f, renamed)
      ensures ok ==> caddy.Contents() == Resync(site, old(State()).(vms := db.vms), renamed)
      ensures ok && account in old(db.accounts) && Separate(old(db.accounts)[account].username, Names.LowerAll(lower, requested)) ==>
        State() == Apply(site, old(State()),
                         Operations.ChangeUsername(account, old(db.accounts)[account].username, Names.LowerAll(lower, requested), renamed))
      ensures !ok ==> State() == old(State()) && db.accounts == old(db.accounts)
      // The rows and the account.
      ensures db.vms.Keys == old(db.vms).Keys
      ensures ok ==>
        var (old_, new_) := (old(db.accounts)[account].username, Names.LowerAll(lower, requested));
        && (forall id, front ::
              id in db.vms && old(db.vms)[id].account == account && old(db.vms)[id].subdomain == front + "." + old_ ==>
                db.vms[id] == old(db.vms)[id].(subdomain := front + "." + new_))
        && (forall id ::
              id in db.vms && (old(db.vms)[id].account != account || forall front :: old(db.vms)[id].subdomain != front + "." + old_) ==>
                db.vms[id] == old(db.vms)[id])
        && 3 <= |new_| <= 32
        && (forall c :: c in new_ ==> 'a' <= c <= 'z' || 'A' <= c <= 'Z' || '0' <= c <= '9' || c == '-')
        && db.accounts == old(db.accounts)[account := old(db.accounts)[account].(username := new_)]
      // The refusals.
      ensures var new_ := Names.LowerAll(lower, requested);
        && account in old(db.accounts) && Separate(old(db.accounts)[account].username, new_)
        && 3 <= |new_| <= 32
        && (forall c :: c in new_ ==> 'a' <= c <= 'z' || 'A' <= c <= 'Z' || '0' <= c <= '9' || c == '-') ==>
          (ok <==>
           || old(db.accounts)[account].username == new_
           || (NewNamesFree(old(db.vms), account, old(db.accounts)[account].username, new_) &&
               forall a :: a in old(db.accounts) && a != account ==> old(db.accounts)[a].username != new_))
    {
      ghost var w, accounts := State(), db.accounts;
      ghost var new_ := Names.LowerAll(lower, requested);
      ok, renamed := RenameUser(account, requested);
      ValidUsernameMeans(new_);
      if account in accounts {
        RenamedMeans(w.vms, account, accounts[account].username, new_);
        if accounts[account].username != new_ && Separate(accounts[account].username, new_) {
          ClashMeans(w.vms, account, accounts[account].username, new_);
        }
      }
    }
  }

  /** A committed change with its re-routing is the ChangeUsername step, if neither username is
      the other one behind a dot. */
  lemma ChangeIsStep(site: Site, w: World, w': World, account: AccountId, old_: string, new_: string,
                     entries: seq<RenamedSubdomain>)
    requires Wired(site, w) && UniqueSubdomains(w.vms) && UniqueSubdomains(w'.vms)
    requires w' == w.(vms := Renamed(w.vms, account, Renaming(old_, new_)),
                      routes := Resync(site, w.(vms := Renamed(w.vms, account, Renaming(old_, new_))), entries))
    requires ListsRenamed(w.vms, w.vms.Keys, account, Renaming(old_, new_), entries)
    ensures Separate(old_, new_) ==> w' == Apply(site, w, Operations.ChangeUsername(account, old_, new_, entries))
  {
    if Separate(old_, new_) {
      ApartIffSeparate(old_, new_);
      RenamedUniqueIff(w.vms, account, Renaming(old_, new_));
    }
  }

  lemma SetSameUsername(accounts: map<AccountId, AccountRow>, account: AccountId)
    requires account in accounts
    ensures SetUsername(accounts, account, accounts[account].username) == accounts
  {
  }

  /** A change to the same username renames nothing. */
  lemma NothingToRename(vms: VmTable, account: AccountId, name: string)
    ensures Renamed(vms, account, Renaming(name, name)) == vms
    ensures ListsRenamed(vms, vms.Keys, account, Renaming(name, name), [])
  {
    forall s ensures NewName(s, name, name) == s {
      SameUsernameChangesNothing(s, name);
    }
  }
}
