/** Which Caddy instance serves a host, and what the route of a VM should be. */
module Regions {
  import opened Fleet
  import opened RouterSync

  /** The configured clients, identified by base URL. Two regions may share one. */
  datatype CaddyRouter = CaddyRouter(regionClients: map<string, string>, fallback: string) {

    function Bases(): set<string> {
      {fallback} + regionClients.Values
    }

    /** The region's client; the default for no region or an unknown one. */
    function ForRegion(region: Option<string>): (base: string)
      ensures base in Bases()
    {
      if region.Some? && region.value in regionClients then regionClients[region.value] else fallback
    }

    function ForHost(host: HostRow): (base: string)
      ensures base in Bases()
    {
      ForRegion(RegionLabel(host.labels))
    }
  }

  datatype Site = Site(router: CaddyRouter, baseDomain: string)

  function NameOf(site: Site, subdomain: string): Fqdn {
    Fqdn(subdomain, site.baseDomain)
  }

  /** The instance of a VM: its host's, or the default when the host is unset or unknown. */
  function Home(site: Site, hosts: map<HostId, HostRow>, host: Option<HostId>): (base: string)
    ensures base in site.router.Bases()
  {
    if host.Some? && host.value in hosts then site.router.ForHost(hosts[host.value]) else site.router.ForRegion(None)
  }

  /** `exposed_port as u16` keeps the low sixteen bits. */
  function Port16(port: int): int {
    port % 0x1_0000
  }

  /** Where the route of a row should point: the VM exactly when it is 'running'. */
  function TargetOf(row: VmRow): Target {
    if row.status.Running? then ToVm(row.ip, Port16(row.port)) else ToStoppedPage
  }

  /** The host is known and carries the region as a string label. */
  predicate HostIn(hosts: map<HostId, HostRow>, host: Option<HostId>, region: string) {
    host.Some? && host.value in hosts && RegionLabel(hosts[host.value].labels) == Some(region)
  }

  /** Which instance a VM belongs to: the one configured for the region its host is in; the
      default when the host is unset, unknown or in no configured region. */
  lemma InstanceOfVm(site: Site, hosts: map<HostId, HostRow>, host: Option<HostId>)
    ensures forall region :: HostIn(hosts, host, region) && region in site.router.regionClients ==>
      Home(site, hosts, host) == site.router.regionClients[region]
    ensures (forall region :: HostIn(hosts, host, region) ==> region !in site.router.regionClients) ==>
      Home(site, hosts, host) == site.router.fallback
  {
    if host.Some? && host.value in hosts && RegionLabel(hosts[host.value].labels).Some? {
      assert HostIn(hosts, host, RegionLabel(hosts[host.value].labels).value);
    }
  }
}
