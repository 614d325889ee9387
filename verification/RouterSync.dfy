/** The route arrays of the Caddy instances. Routes carry an id; the client only ever speaks
    of fqdns, and the array must behave as a map from fqdn to target. */
module RouterSync {
  import opened Fleet

  datatype Target = ToVm(ip: string, port: int) | ToStoppedPage

  /** A full name: `{subdomain}.{base_domain}`. */
  datatype Fqdn = Fqdn(subdomain: string, domain: string) {
    function Text(): string {
      subdomain + "." + domain
    }
  }

  /** A route object as the client builds it: the host it matches and its handler. Its id is
      always `route-` followed by that host. */
  datatype Route = Route(matchHost: Fqdn, target: Target)

  datatype RouteEntry = RouteEntry(fqdn: Fqdn, target: Target)

  function RouteId(fqdn: Fqdn): string {
    "route-" + fqdn.Text()
  }

  /** The server compares ids, the model compares names: under the one base domain that every
      name ends in, it is the same comparison. */
  lemma IdsCompareAsNames(f: Fqdn, g: Fqdn)
    requires f.domain == g.domain
    ensures RouteId(f) == RouteId(g) <==> f == g
  {
    if RouteId(f) == RouteId(g) {
      assert f.Text() == RouteId(f)[6..] == RouteId(g)[6..] == g.Text();
      assert f.subdomain == f.Text()[..|f.subdomain|];
      assert g.subdomain == g.Text()[..|g.subdomain|];
    }
  }

  ghost predicate UniqueIds(routes: seq<Route>) {
    forall i, j :: 0 <= i < j < |routes| ==> routes[i].matchHost != routes[j].matchHost
  }

  ghost predicate Matches(routes: seq<Route>, fqdn: Fqdn) {
    exists i :: 0 <= i < |routes| && routes[i].matchHost == fqdn
  }

  /** What the array means: the target each fqdn is sent to. */
  function AsMap(routes: seq<Route>): map<Fqdn, Target> {
    if routes == [] then map[]
    else AsMap(routes[..|routes| - 1])[routes[|routes| - 1].matchHost := routes[|routes| - 1].target]
  }

  lemma {:induction false} AsMapKeys(routes: seq<Route>, fqdn: Fqdn)
    ensures fqdn in AsMap(routes) <==> Matches(routes, fqdn)
  {
    if routes != [] {
      var short := routes[..|routes| - 1];
      AsMapKeys(short, fqdn);
      if Matches(routes, fqdn) && routes[|routes| - 1].matchHost != fqdn {
        var i :| 0 <= i < |routes| && routes[i].matchHost == fqdn;
        assert short[i].matchHost == fqdn;
      }
      if Matches(short, fqdn) {
        var i :| 0 <= i < |short| && short[i].matchHost == fqdn;
        assert routes[i].matchHost == fqdn;
      }
    }
  }

  lemma {:induction false} AsMapAt(routes: seq<Route>, i: nat)
    requires UniqueIds(routes) && i < |routes|
    ensures routes[i].matchHost in AsMap(routes) && AsMap(routes)[routes[i].matchHost] == routes[i].target
  {
    if i < |routes| - 1 {
      AsMapAt(routes[..|routes| - 1], i);
    }
  }

  /** A map is the meaning of an array when it has the array's fqdns and their targets. */
  lemma AsMapIs(routes: seq<Route>, m: map<Fqdn, Target>)
    requires UniqueIds(routes)
    requires forall i :: 0 <= i < |routes| ==> routes[i].matchHost in m && m[routes[i].matchHost] == routes[i].target
    requires forall f :: f in m ==> Matches(routes, f)
    ensures AsMap(routes) == m
  {
    forall f ensures f in m <==> f in AsMap(routes) {
      AsMapKeys(routes, f);
    }
    forall f | f in m ensures AsMap(routes)[f] == m[f] {
      var i :| 0 <= i < |routes| && routes[i].matchHost == f;
      AsMapAt(routes, i);
    }
  }

  function Find(routes: seq<Route>, fqdn: Fqdn): (i: nat)
    ensures i <= |routes|
    ensures i < |routes| ==> routes[i].matchHost == fqdn
    ensures forall j :: 0 <= j < i ==> routes[j].matchHost != fqdn
  {
    if routes == [] then 0
    else if routes[0].matchHost == fqdn then 0
    else 1 + Find(routes[1..], fqdn)
  }

  function Removed(routes: seq<Route>, i: nat): seq<Route>
    requires i < |routes|
  {
    routes[..i] + routes[i + 1..]
  }

  // The three ways the array can change, and what each does to the map.

  lemma ReplaceIsUpdate(routes: seq<Route>, i: nat, route: Route)
    requires UniqueIds(routes) && i < |routes|
    requires routes[i].matchHost == route.matchHost
    ensures UniqueIds(routes[i := route])
    ensures AsMap(routes[i := route]) == AsMap(routes)[route.matchHost := route.target]
  {
    forall j | 0 <= j < |routes| && j != i
      ensures routes[j].matchHost in AsMap(routes) && AsMap(routes)[routes[j].matchHost] == routes[j].target
      ensures routes[j].matchHost != route.matchHost
    {
      AsMapAt(routes, j);
    }
    var m := AsMap(routes)[route.matchHost := route.target];
    var updated := routes[i := route];
    forall f | f in m ensures Matches(updated, f) {
      if f == route.matchHost {
        assert updated[i].matchHost == f;
      } else {
        AsMapKeys(routes, f);
        var j :| 0 <= j < |routes| && routes[j].matchHost == f;
        assert updated[j].matchHost == f;
      }
    }
    AsMapIs(updated, m);
  }

  lemma RemovedIsUnique(routes: seq<Route>, i: nat)
    requires UniqueIds(routes) && i < |routes|
    ensures UniqueIds(Removed(routes, i))
    ensures forall j :: 0 <= j < |Removed(routes, i)| ==> Removed(routes, i)[j].matchHost != routes[i].matchHost
  {
    var rest := Removed(routes, i);
    forall j | 0 <= j < |rest| ensures rest[j] == routes[if j < i then j else j + 1] {}
  }

  lemma RemoveThenSet(m: map<Fqdn, Target>, gone: Fqdn, kept: Fqdn, target: Target)
    ensures gone != kept ==> (m - {gone})[kept := target] == m[kept := target] - {gone}
    ensures kept !in m ==> m[kept := target] - {kept} == m
  {
  }

  lemma {:induction false} RemoveIsRemoval(routes: seq<Route>, i: nat)
    requires UniqueIds(routes) && i < |routes|
    ensures AsMap(Removed(routes, i)) == AsMap(routes) - {routes[i].matchHost}
  {
    var short := routes[..|routes| - 1];
    var last := routes[|routes| - 1];
    assert routes == short + [last];
    LastOfMap(short, last);
    RemoveThenSet(AsMap(short), routes[i].matchHost, last.matchHost, last.target);
    if i == |routes| - 1 {
      assert Removed(routes, i) == short;
      AbsentIdAbsentKey(short, last.matchHost);
    } else {
      RemoveIsRemoval(short, i);
      var rest := Removed(short, i);
      assert Removed(routes, i) == rest + [last];
      LastOfMap(rest, last);
      assert routes[i].matchHost != last.matchHost;
    }
  }

  lemma LastOfMap(routes: seq<Route>, last: Route)
    ensures AsMap(routes + [last]) == AsMap(routes)[last.matchHost := last.target]
  {
    assert (routes + [last])[..|routes|] == routes;
  }

  lemma AppendIsUpdate(routes: seq<Route>, route: Route)
    requires UniqueIds(routes)
    requires forall j :: 0 <= j < |routes| ==> routes[j].matchHost != route.matchHost
    ensures UniqueIds(routes + [route])
    ensures AsMap(routes + [route]) == AsMap(routes)[route.matchHost := route.target]
  {
    LastOfMap(routes, route);
  }

  lemma AbsentIdAbsentKey(routes: seq<Route>, fqdn: Fqdn)
    requires forall j :: 0 <= j < |routes| ==> routes[j].matchHost != fqdn
    ensures fqdn !in AsMap(routes)
  {
    AsMapKeys(routes, fqdn);
  }

  /** All routes: for each instance, by base URL, the map from fqdn to target. */
  type Routes = map<string, map<Fqdn, Target>>

  function SetRoute(routes: Routes, base: string, fqdn: Fqdn, target: Target): Routes
    requires base in routes
  {
    routes[base := routes[base][fqdn := target]]
  }

  function DropRoute(routes: Routes, base: string, fqdn: Fqdn): Routes
    requires base in routes
  {
    routes[base := routes[base] - {fqdn}]
  }

  ghost function Meaning(tables: map<string, seq<Route>>): (m: Routes)
    ensures m.Keys == tables.Keys
  {
    map base | base in tables :: AsMap(tables[base])
  }

  lemma MeaningAfter(tables: map<string, seq<Route>>, base: string, routes: seq<Route>)
    ensures Meaning(tables[base := routes]) == Meaning(tables)[base := AsMap(routes)]
  {
  }

  /** The remote side: the route array of every configured Caddy instance. */
  class CaddyApi {
    var tables: map<string, seq<Route>>

    constructor (bases: set<string>)
      ensures Valid() && tables.Keys == bases
      ensures forall base :: base in bases ==> Contents()[base] == map[]
    {
      tables := map base | base in bases :: [];
    }

    ghost predicate Valid() reads this {
      forall base :: base in tables ==> UniqueIds(tables[base])
    }

    /** The abstract value: what each instance's array means. */
    ghost function Contents(): (m: Routes) reads this
      ensures m.Keys == tables.Keys
    {
      Meaning(tables)
    }

    /** PUT on an id: 404 when no route has it; otherwise the route is replaced (200) or the
        server answers that the id is a duplicate and changes nothing (400). */
    method Put(base: string, route: Route) returns (status: int)
      requires base in tables
      modifies this
      ensures status == 200 || status == 400 || status == 404
      ensures status == 404 <==> Find(old(tables[base]), route.matchHost) == |old(tables[base])|
      ensures status != 200 ==> tables == old(tables)
      ensures status == 200 ==>
        tables == old(tables)[base := old(tables[base])[Find(old(tables[base]), route.matchHost) := route]]
    {
      var i := Find(tables[base], route.matchHost);
      if i == |tables[base]| {
        status := 404;
      } else if * {
        status := 400;
      } else {
        status := 200;
        tables := tables[base := tables[base][i := route]];
      }
    }

    method Post(base: string, route: Route)
      requires base in tables
      modifies this
      ensures tables == old(tables)[base := old(tables[base]) + [route]]
    {
      tables := tables[base := tables[base] + [route]];
    }

    method DeleteById(base: string, fqdn: Fqdn)
      requires base in tables
      modifies this
      ensures tables == old(tables)[base := OnArray(old(tables[base]), Remove(fqdn))]
    {
      var i := Find(tables[base], fqdn);
      if i < |tables[base]| {
        tables := tables[base := Removed(tables[base], i)];
      }
    }

    /** PUT first. On 404 the route is appended; on 400 it is deleted and appended. */
    method PutOrPost(base: string, route: Route) returns (status: int)
      requires base in tables
      modifies this
      ensures tables == old(tables)[base :=
        OnArray(old(tables[base]), Upsert(route.matchHost, route.target, status == 400))]
    {
      status := Put(base, route);
      if status == 404 {
        Post(base, route);
      } else if status == 400 {
        DeleteById(base, route.matchHost);
        Post(base, route);
      }
    }

    /** An absent id (404) is ignored. The map loses exactly this fqdn. */
    method DeleteRoute(base: string, fqdn: Fqdn)
      requires Valid() && base in tables
      modifies this
      ensures Valid()
      ensures Contents() == DropRoute(old(Contents()), base, fqdn)
      ensures Contents() == old(Contents())[base := old(Contents())[base] - {fqdn}]
    {
      RemoveRefines(tables[base], fqdn);
      DeleteById(base, fqdn);
      MeaningAfter(old(tables), base, tables[base]);
    }

    /** Whatever the server answers to the PUT, the map is updated at exactly this fqdn. */
    method UpsertRoute(base: string, fqdn: Fqdn, target: Target)
      requires Valid() && base in tables
      modifies this
      ensures Valid()
      ensures Contents() == SetRoute(old(Contents()), base, fqdn, target)
      ensures Contents() == old(Contents())[base := old(Contents())[base][fqdn := target]]
    {
      var status := PutOrPost(base, Route(fqdn, target));
      UpsertRefines(old(tables[base]), fqdn, target, status == 400);
      MeaningAfter(old(tables), base, tables[base]);
    }

    method SetVmRoute(base: string, fqdn: Fqdn, ip: string, port: int)
      requires Valid() && base in tables
      modifies this
      ensures Valid()
      ensures Contents() == SetRoute(old(Contents()), base, fqdn, ToVm(ip, port))
    {
      UpsertRoute(base, fqdn, ToVm(ip, port));
    }

    method SetStoppedRoute(base: string, fqdn: Fqdn)
      requires Valid() && base in tables
      modifies this
      ensures Valid()
      ensures Contents() == SetRoute(old(Contents()), base, fqdn, ToStoppedPage)
    {
      UpsertRoute(base, fqdn, ToStoppedPage);
    }

    /** Replaces the whole array of one instance; the arrays of the others stay. */
    method RebuildAllRoutes(base: string, entries: seq<RouteEntry>)
      requires Valid() && base in tables && DistinctHosts(entries)
      modifies this
      ensures Valid()
      ensures Contents() == old(Contents())[base := EntriesMap(entries)]
    {
      RebuildIsReplacement(entries);
      tables := tables[base := AsRoutes(entries)];
    }
  }

  ghost predicate DistinctHosts(entries: seq<RouteEntry>) {
    forall i, j :: 0 <= i < j < |entries| ==> entries[i].fqdn != entries[j].fqdn
  }

  function AsRoutes(entries: seq<RouteEntry>): seq<Route> {
    seq(|entries|, i requires 0 <= i < |entries| => Route(entries[i].fqdn, entries[i].target))
  }

  // The array as a plain value, for statements about whole runs of calls.

  /** One call, with the server's choice between replacing and answering 400. */
  datatype Call =
    | Upsert(fqdn: Fqdn, target: Target, duplicate: bool)
    | Remove(fqdn: Fqdn)
    | Rebuild(entries: seq<RouteEntry>)

  function OnArray(routes: seq<Route>, call: Call): seq<Route> {
    match call
    case Upsert(fqdn, target, duplicate) =>
      var i := Find(routes, fqdn);
      if i == |routes| then routes + [Route(fqdn, target)]
      else if duplicate then Removed(routes, i) + [Route(fqdn, target)]
      else routes[i := Route(fqdn, target)]
    case Remove(fqdn) =>
      var i := Find(routes, fqdn);
      if i == |routes| then routes else Removed(routes, i)
    case Rebuild(entries) => AsRoutes(entries)
  }

  function EntriesMap(entries: seq<RouteEntry>): map<Fqdn, Target> {
    if entries == [] then map[]
    else EntriesMap(entries[..|entries| - 1])[entries[|entries| - 1].fqdn := entries[|entries| - 1].target]
  }

  function OnMap(m: map<Fqdn, Target>, call: Call): map<Fqdn, Target> {
    match call
    case Upsert(fqdn, target, _) => m[fqdn := target]
    case Remove(fqdn) => m - {fqdn}
    case Rebuild(entries) => EntriesMap(entries)
  }

  ghost predicate Legal(call: Call) {
    call.Rebuild? ==> DistinctHosts(call.entries)
  }

  function ArrayRun(routes: seq<Route>, calls: seq<Call>): seq<Route> {
    if calls == [] then routes else OnArray(ArrayRun(routes, calls[..|calls| - 1]), calls[|calls| - 1])
  }

  function MapRun(m: map<Fqdn, Target>, calls: seq<Call>): map<Fqdn, Target> {
    if calls == [] then m else OnMap(MapRun(m, calls[..|calls| - 1]), calls[|calls| - 1])
  }

  lemma {:induction false} RebuildIsReplacement(entries: seq<RouteEntry>)
    ensures AsMap(AsRoutes(entries)) == EntriesMap(entries)
  {
    if entries != [] {
      var short := entries[..|entries| - 1];
      RebuildIsReplacement(short);
      assert AsRoutes(entries)[..|entries| - 1] == AsRoutes(short);
    }
  }

  lemma UpsertRefines(routes: seq<Route>, fqdn: Fqdn, target: Target, duplicate: bool)
    requires UniqueIds(routes)
    ensures var after := OnArray(routes, Upsert(fqdn, target, duplicate));
      UniqueIds(after) && AsMap(after) == AsMap(routes)[fqdn := target]
  {
    var i := Find(routes, fqdn);
    var route := Route(fqdn, target);
    if i == |routes| {
      AppendIsUpdate(routes, route);
    } else if duplicate {
      RemoveIsRemoval(routes, i);
      RemovedIsUnique(routes, i);
      AppendIsUpdate(Removed(routes, i), route);
      assert (AsMap(routes) - {fqdn})[fqdn := target] == AsMap(routes)[fqdn := target];
    } else {
      ReplaceIsUpdate(routes, i, route);
    }
  }

  lemma RemoveRefines(routes: seq<Route>, fqdn: Fqdn)
    requires UniqueIds(routes)
    ensures var after := OnArray(routes, Remove(fqdn));
      UniqueIds(after) && AsMap(after) == AsMap(routes) - {fqdn}
  {
    var i := Find(routes, fqdn);
    if i == |routes| {
      AbsentIdAbsentKey(routes, fqdn);
      assert AsMap(routes) - {fqdn} == AsMap(routes);
    } else {
      RemoveIsRemoval(routes, i);
      RemovedIsUnique(routes, i);
    }
  }

  lemma CallRefines(routes: seq<Route>, call: Call)
    requires UniqueIds(routes) && Legal(call)
    ensures UniqueIds(OnArray(routes, call))
    ensures AsMap(OnArray(routes, call)) == OnMap(AsMap(routes), call)
  {
    match call
    case Upsert(fqdn, target, duplicate) => UpsertRefines(routes, fqdn, target, duplicate);
    case Remove(fqdn) => RemoveRefines(routes, fqdn);
    case Rebuild(entries) => RebuildIsReplacement(entries);
  }

  /** Over every run of calls the array refines the map, whatever the server answered, and
      ids stay unique. */
  lemma {:induction false} ArrayRefinesMapInEveryRun(routes: seq<Route>, calls: seq<Call>)
    requires UniqueIds(routes)
    requires forall k :: 0 <= k < |calls| ==> Legal(calls[k])
    ensures UniqueIds(ArrayRun(routes, calls))
    ensures AsMap(ArrayRun(routes, calls)) == MapRun(AsMap(routes), calls)
  {
    if calls != [] {
      ArrayRefinesMapInEveryRun(routes, calls[..|calls| - 1]);
      CallRefines(ArrayRun(routes, calls[..|calls| - 1]), calls[|calls| - 1]);
    }
  }
}
