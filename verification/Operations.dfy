/** The control plane's operations as steps on the shared state, and their runs. */
module Operations {
  import opened Fleet
  import opened RouterSync
  import opened Regions
  import opened Usernames
  import opened Agreement

  /** What an agent's event stream reports about a VM. */
  datatype EventKind = Started | Stopped_ | Crashed | OtherEvent

  function StatusAfter(kind: EventKind): Option<Status> {
    match kind
    case Started => Some(Running)
    case Stopped_ => Some(Stopped)
    case Crashed => Some(Error)
    case OtherEvent => None
  }

  /** Handling one streamed event: the status, then the route. */
  function Observe(site: Site, w: World, kind: EventKind, id: VmId): World
    requires Wired(site, w)
  {
    if id in w.vms && StatusAfter(kind).Some?
    then var row := w.vms[id].(status := StatusAfter(kind).value); Written(site, w, id, row, TargetOf(row))
    else w
  }

  /** What one heartbeat does to one row, given whether the host reports the VM as running. */
  function BeatRow(row: VmRow, up: bool): VmRow {
    if row.status.Running? && !up then row.(status := Error)
    else if (row.status.Stopped? || row.status.Error?) && up then row.(status := Running)
    else row
  }

  /** The rows whose route the heartbeat writes. */
  predicate Touches(row: VmRow, up: bool) {
    row.status.Running? || ((row.status.Stopped? || row.status.Error?) && up)
  }

  function Beat(site: Site, w: World, running: set<VmId>, id: VmId): (w': World)
    requires Wired(site, w)
    ensures Wired(site, w') && w'.hosts == w.hosts
  {
    if id in w.vms && Touches(w.vms[id], id in running)
    then var row := BeatRow(w.vms[id], id in running); Written(site, w, id, row, TargetOf(row))
    else w
  }

  /** The loop over the host's rows. */
  function BeatAll(site: Site, w: World, running: set<VmId>, ids: seq<VmId>): (w': World)
    requires Wired(site, w)
    ensures Wired(site, w') && w'.hosts == w.hosts
  {
    if ids == [] then w else Beat(site, BeatAll(site, w, running, ids[..|ids| - 1]), running, ids[|ids| - 1])
  }

  /** Each listed row is repaired from its own report, the others are untouched. */
  lemma {:induction false} BeatAllRows(site: Site, w: World, running: set<VmId>, ids: seq<VmId>)
    requires Wired(site, w) && NoDuplicates(ids)
    ensures BeatAll(site, w, running, ids).vms ==
      map id | id in w.vms :: if id in ids then BeatRow(w.vms[id], id in running) else w.vms[id]
  {
    if ids != [] {
      BeatAllRows(site, w, running, ids[..|ids| - 1]);
      assert ids[|ids| - 1] !in ids[..|ids| - 1];
      assert forall id :: id in ids <==> id in ids[..|ids| - 1] || id == ids[|ids| - 1];
    }
  }

  function TouchedIds(vms: VmTable, running: set<VmId>, ids: seq<VmId>): set<VmId> {
    set id | id in vms && id in ids && Touches(vms[id], id in running)
  }

  lemma BeatKeepsAgreement(site: Site, w: World, pending: set<VmId>, running: set<VmId>, id: VmId)
    requires AgreesExcept(site, w, pending)
    ensures AgreesExcept(site, Beat(site, w, running, id),
                         if id in w.vms && Touches(w.vms[id], id in running) then pending - {id} else pending)
  {
    if id in w.vms && Touches(w.vms[id], id in running) {
      var row := BeatRow(w.vms[id], id in running);
      WrittenKeepsAgreement(site, w, pending, id, row, TargetOf(row));
    }
  }

  lemma TouchedIdsStep(w: World, running: set<VmId>, ids: seq<VmId>, pending: set<VmId>)
    requires ids != []
    ensures var id := ids[|ids| - 1];
      var left := pending - TouchedIds(w.vms, running, ids[..|ids| - 1]);
      pending - TouchedIds(w.vms, running, ids) == if id in w.vms && Touches(w.vms[id], id in running) then left - {id} else left
  {
    assert forall id :: id in ids <==> id in ids[..|ids| - 1] || id == ids[|ids| - 1];
  }

  lemma {:induction false} BeatAllKeepsAgreement(site: Site, w: World, pending: set<VmId>, running: set<VmId>, ids: seq<VmId>)
    requires AgreesExcept(site, w, pending) && NoDuplicates(ids)
    ensures AgreesExcept(site, BeatAll(site, w, running, ids), pending - TouchedIds(w.vms, running, ids))
  {
    if ids == [] {
      assert pending - TouchedIds(w.vms, running, ids) == pending;
    } else {
      var short := ids[..|ids| - 1];
      var id := ids[|ids| - 1];
      BeatAllKeepsAgreement(site, w, pending, running, short);
      BeatKeepsAgreement(site, BeatAll(site, w, running, short), pending - TouchedIds(w.vms, running, short), running, id);
      TouchedIdsStep(w, running, ids, pending);
      assert id !in short;
      BeatAllRows(site, w, running, short);
    }
  }

  /** Re-routing one renamed VM: the new route first, then the old one is deleted. */
  function ResyncStep(site: Site, w: World, routes: Routes, e: RenamedSubdomain): (routes': Routes)
    requires routes.Keys == site.router.Bases()
    ensures routes'.Keys == routes.Keys
  {
    if e.vmId in w.vms then
      var base := HomeOf(site, w, e.vmId);
      DropRoute(SetRoute(routes, base, NameOf(site, e.newSubdomain), TargetOf(w.vms[e.vmId])),
                base, NameOf(site, e.oldSubdomain))
    else routes
  }

  /** Re-routing the renamed VMs one by one. */
  function Resync(site: Site, w: World, entries: seq<RenamedSubdomain>): (routes: Routes)
    requires Wired(site, w)
    ensures routes.Keys == w.routes.Keys
  {
    if entries == [] then w.routes
    else ResyncStep(site, w, Resync(site, w, entries[..|entries| - 1]), entries[|entries| - 1])
  }

  function IdsOf(entries: seq<RenamedSubdomain>): seq<VmId> {
    seq(|entries|, i requires 0 <= i < |entries| => entries[i].vmId)
  }

  function Ids(entries: seq<RenamedSubdomain>): set<VmId> {
    set id | id in IdsOf(entries)
  }

  lemma IdsGrow(entries: seq<RenamedSubdomain>, pending: set<VmId>)
    requires entries != []
    ensures pending - Ids(entries[..|entries| - 1]) - {entries[|entries| - 1].vmId} == pending - Ids(entries)
  {
    assert IdsOf(entries) == IdsOf(entries[..|entries| - 1]) + [entries[|entries| - 1].vmId];
  }

  lemma IdsOfNone(pending: set<VmId>)
    ensures pending - Ids([]) == pending
  {
  }

  lemma ListedAreMoved(vms: VmTable, account: AccountId, f: string -> string, entries: seq<RenamedSubdomain>)
    requires ListsRenamed(vms, vms.Keys, account, f, entries)
    ensures Ids(entries) == MovedIds(vms, account, f)
  {
    forall id ensures id in Ids(entries) <==> id in MovedIds(vms, account, f) {
      if id in Ids(entries) {
        var k :| 0 <= k < |entries| && IdsOf(entries)[k] == id;
        assert entries[k] in entries;
      }
      if id in MovedIds(vms, account, f) {
        assert Mentions(entries, id);
        var k :| 0 <= k < |entries| && entries[k].vmId == id;
        assert IdsOf(entries)[k] == id;
      }
    }
  }

  /** The VMs that a change of username renames. */
  function MovedIds(vms: VmTable, account: AccountId, f: string -> string): set<VmId> {
    set id | id in vms && Selected(vms[id], account, f)
  }

  /** The table in which just the listed VMs carry their new names, with the routes as they
      are after just those VMs were re-routed. */
  function Midway(site: Site, w: World, account: AccountId, f: string -> string, entries: seq<RenamedSubdomain>): (mid: World)
    requires Wired(site, w)
    ensures Wired(site, mid)
  {
    w.(vms := Partial(w.vms, account, f, IdsOf(entries)),
       routes := Resync(site, w.(vms := Renamed(w.vms, account, f)), entries))
  }

  /** A new name is free in every table on the way. */
  lemma MayMove(w: World, account: AccountId, f: string -> string, done: seq<VmId>, id: VmId)
    requires UniqueSubdomains(w.vms) && Apart(f) && !Clash(w.vms, account, f)
    requires id in w.vms && Selected(w.vms[id], account, f)
    ensures MayWrite(w.(vms := Partial(w.vms, account, f, done)), id, Moved(w.vms[id], account, f))
  {
    forall j | j in w.vms && j != id
      ensures Partial(w.vms, account, f, done)[j].subdomain != f(w.vms[id].subdomain)
    {
      if Selected(w.vms[j], account, f) {
        assert w.vms[j].subdomain != w.vms[id].subdomain;
      }
    }
  }

  /** One turn of the loop is one write on the way. */
  lemma MidwayStep(site: Site, w: World, account: AccountId, f: string -> string, entries: seq<RenamedSubdomain>)
    requires Wired(site, w) && entries != []
    requires ListsRenamed(w.vms, {}, account, f, entries)
    ensures var e := entries[|entries| - 1];
      var row := Moved(w.vms[e.vmId], account, f);
      Midway(site, w, account, f, entries)
        == Written(site, Midway(site, w, account, f, entries[..|entries| - 1]), e.vmId, row, TargetOf(row))
  {
    var short := entries[..|entries| - 1];
    var e := entries[|entries| - 1];
    assert e in entries;
    assert IdsOf(entries) == IdsOf(short) + [e.vmId];
    assert e.vmId !in IdsOf(short);
    var row := Moved(w.vms[e.vmId], account, f);
    assert Partial(w.vms, account, f, IdsOf(entries)) == Partial(w.vms, account, f, IdsOf(short))[e.vmId := row];
  }

  /** The routes half-way through are the right ones for the table with just the VMs handled
      so far renamed; so whatever the order of the list, they end up right for all. */
  lemma {:induction false} ResyncKeepsAgreement(site: Site, w: World, pending: set<VmId>, account: AccountId,
                                                f: string -> string, entries: seq<RenamedSubdomain>)
    requires AgreesExcept(site, w, pending) && Apart(f) && !Clash(w.vms, account, f)
    requires ListsRenamed(w.vms, {}, account, f, entries)
    ensures AgreesExcept(site, Midway(site, w, account, f, entries), pending - Ids(entries))
  {
    if entries == [] {
      IdsOfNone(pending);
      assert Partial(w.vms, account, f, IdsOf(entries)) == w.vms;
      assert Midway(site, w, account, f, entries) == w;
    } else {
      var short := entries[..|entries| - 1];
      var e := entries[|entries| - 1];
      assert e in entries && forall x :: x in short ==> x in entries;
      ResyncKeepsAgreement(site, w, pending, account, f, short);
      MayMove(w, account, f, IdsOf(short), e.vmId);
      MidwayStep(site, w, account, f, entries);
      WriteTruth(site, Midway(site, w, account, f, short), pending - Ids(short), e.vmId, Moved(w.vms[e.vmId], account, f));
      IdsGrow(entries, pending);
    }
  }

  lemma WriteTruth(site: Site, w: World, pending: set<VmId>, id: VmId, row: VmRow)
    requires AgreesExcept(site, w, pending) && MayWrite(w, id, row)
    ensures AgreesExcept(site, Written(site, w, id, row, TargetOf(row)), pending - {id})
  {
    WrittenKeepsAgreement(site, w, pending, id, row, TargetOf(row));
  }

  lemma AllRenamedAtTheEnd(site: Site, w: World, account: AccountId, f: string -> string, entries: seq<RenamedSubdomain>)
    requires Wired(site, w) && ListsRenamed(w.vms, w.vms.Keys, account, f, entries)
    ensures var after := w.(vms := Renamed(w.vms, account, f));
      Midway(site, w, account, f, entries) == after.(routes := Resync(site, after, entries))
  {
    forall id | id in w.vms && Selected(w.vms[id], account, f) ensures id in IdsOf(entries) {
      assert Mentions(entries, id);
      var k :| 0 <= k < |entries| && entries[k].vmId == id;
      assert IdsOf(entries)[k] == id;
    }
    assert Partial(w.vms, account, f, IdsOf(entries)) == Renamed(w.vms, account, f);
  }

  /** The whole username change, over the list in any order. */
  lemma UsernameChangeKeepsAgreement(site: Site, w: World, pending: set<VmId>, account: AccountId,
                                     f: string -> string, entries: seq<RenamedSubdomain>)
    requires AgreesExcept(site, w, pending) && Apart(f) && !Clash(w.vms, account, f)
    requires ListsRenamed(w.vms, w.vms.Keys, account, f, entries)
    ensures var after := w.(vms := Renamed(w.vms, account, f));
      AgreesExcept(site, after.(routes := Resync(site, after, entries)), pending - MovedIds(w.vms, account, f))
  {
    ResyncKeepsAgreement(site, w, pending, account, f, entries);
    AllRenamedAtTheEnd(site, w, account, f, entries);
    ListedAreMoved(w.vms, account, f, entries);
  }

  // Runs.

  datatype Step =
    | Create(id: VmId, row: VmRow)
    | Patch(id: VmId, subdomain: Option<string>, port: Option<int>, isPublic: Option<bool>)
    | ChangeUsername(account: AccountId, old_: string, new_: string, entries: seq<RenamedSubdomain>)
    | Delete(id: VmId)
    | Event(kind: EventKind, id: VmId)
    | Heartbeat(host: HostId, running: set<VmId>, order: seq<VmId>)
    | AgentWrite(id: VmId, status: Status)

  function Rename(site: Site, w: World, id: VmId, subdomain: string): (w': World)
    requires Wired(site, w)
    ensures Wired(site, w') && w'.hosts == w.hosts
  {
    if id in w.vms && !SubdomainTaken(w.vms, subdomain)
    then Written(site, w, id, w.vms[id].(subdomain := subdomain), TargetOf(w.vms[id])) else w
  }

  /** The route is rewritten only for a running VM; otherwise only the column changes. */
  function ChangePort(site: Site, w: World, id: VmId, port: int): (w': World)
    requires Wired(site, w)
    ensures Wired(site, w') && w'.hosts == w.hosts
  {
    if id in w.vms && w.vms[id].status.Running?
    then Written(site, w, id, w.vms[id].(port := port), TargetOf(w.vms[id].(port := port)))
    else w.(vms := SetPort(w.vms, id, port))
  }

  /** The parts of a patch that have to do with routes. */
  function NameAndPort(site: Site, w: World, id: VmId, subdomain: Option<string>, port: Option<int>): (w': World)
    requires Wired(site, w)
    ensures Wired(site, w') && w'.hosts == w.hosts
  {
    var w1 := if subdomain.Some? then Rename(site, w, id, subdomain.value) else w;
    if port.Some? then ChangePort(site, w1, id, port.value) else w1
  }

  ghost predicate UsernameChangeAllowed(w: World, s: Step)
    requires s.ChangeUsername?
  {
    && Separate(s.old_, s.new_)
    && !Clash(w.vms, s.account, Renaming(s.old_, s.new_))
    && ListsRenamed(w.vms, w.vms.Keys, s.account, Renaming(s.old_, s.new_), s.entries)
  }

  /** One operation; when its guard fails it returns an error and changes nothing. */
  ghost function Apply(site: Site, w: World, s: Step): (w': World)
    requires Wired(site, w)
    ensures Wired(site, w')
  {
    match s
    case Create(id, row) =>
      if id !in w.vms && !SubdomainTaken(w.vms, row.subdomain)
      then Written(site, w, id, row.(status := Stopped), ToStoppedPage) else w
    case Patch(id, subdomain, port, isPublic) =>
      var w1 := NameAndPort(site, w, id, subdomain, port);
      if isPublic.Some? then w1.(vms := SetPublic(w1.vms, id, isPublic.value)) else w1
    case ChangeUsername(account, old_, new_, entries) =>
      if UsernameChangeAllowed(w, s)
      then var after := w.(vms := Renamed(w.vms, account, Renaming(old_, new_)));
        after.(routes := Resync(site, after, entries))
      else w
    case Delete(id) =>
      if id in w.vms && w.vms[id].status.Stopped? then Erased(site, w, id) else w
    case Event(kind, id) => Observe(site, w, kind, id)
    case Heartbeat(host, running, order) =>
      if NoDuplicates(order) && (forall id :: id in order <==> id in IdsOnHost(w.vms, host))
      then BeatAll(site, w, running, order) else w
    case AgentWrite(id, status) => w.(vms := SetStatus(w.vms, id, status))
  }

  /** Only a status that an agent writes itself can put a VM's route out of date. */
  function Pending(w: World, pending: set<VmId>, s: Step): set<VmId> {
    if s.AgentWrite? && s.id in w.vms && w.vms[s.id].status.Running? != s.status.Running?
    then pending + {s.id} else pending
  }

  /** The VM whose route a rename writes, if any. */
  function RenameSettles(w: World, id: VmId, subdomain: string): set<VmId> {
    if id in w.vms && !SubdomainTaken(w.vms, subdomain) then {id} else {}
  }

  /** The VM whose route a port change writes: only a running one. */
  function PortSettles(w: World, id: VmId): set<VmId> {
    if id in w.vms && w.vms[id].status.Running? then {id} else {}
  }

  function NameAndPortSettle(w: World, id: VmId, subdomain: Option<string>, port: Option<int>): set<VmId> {
    (if subdomain.Some? then RenameSettles(w, id, subdomain.value) else {}) + (if port.Some? then PortSettles(w, id) else {})
  }

  lemma RenameKeepsAgreement(site: Site, w: World, pending: set<VmId>, id: VmId, subdomain: string)
    requires AgreesExcept(site, w, pending)
    ensures AgreesExcept(site, Rename(site, w, id, subdomain), pending - RenameSettles(w, id, subdomain))
  {
    if id in w.vms && !SubdomainTaken(w.vms, subdomain) {
      WriteTruth(site, w, pending, id, w.vms[id].(subdomain := subdomain));
    } else {
      assert pending - {} == pending;
    }
  }

  lemma ChangePortKeepsAgreement(site: Site, w: World, pending: set<VmId>, id: VmId, port: int)
    requires AgreesExcept(site, w, pending)
    ensures AgreesExcept(site, ChangePort(site, w, id, port), pending - PortSettles(w, id))
  {
    if id in w.vms && w.vms[id].status.Running? {
      WriteTruth(site, w, pending, id, w.vms[id].(port := port));
    } else {
      RowsOnlyKeepsAgreement(site, w, pending, SetPort(w.vms, id, port), {});
      assert pending + {} == pending - {};
    }
  }

  lemma CreateKeepsAgreement(site: Site, w: World, pending: set<VmId>, id: VmId, row: VmRow)
    requires AgreesExcept(site, w, pending)
    ensures AgreesExcept(site, Apply(site, w, Create(id, row)), pending - Settles(w, Create(id, row)))
  {
    if id !in w.vms && !SubdomainTaken(w.vms, row.subdomain) {
      WriteTruth(site, w, pending, id, row.(status := Stopped));
    } else {
      assert pending - {} == pending;
    }
  }

  lemma EventKeepsAgreement(site: Site, w: World, pending: set<VmId>, kind: EventKind, id: VmId)
    requires AgreesExcept(site, w, pending)
    ensures AgreesExcept(site, Observe(site, w, kind, id), if StatusAfter(kind).Some? then pending - {id} else pending)
  {
    if StatusAfter(kind).Some? {
      if id in w.vms {
        var row := w.vms[id].(status := StatusAfter(kind).value);
        WrittenKeepsAgreement(site, w, pending, id, row, TargetOf(row));
      } else {
        ForgetAbsent(site, w, pending, id);
      }
    }
  }

  lemma ForgetAbsent(site: Site, w: World, pending: set<VmId>, id: VmId)
    requires AgreesExcept(site, w, pending) && id !in w.vms
    ensures AgreesExcept(site, w, pending - {id})
  {
  }

  lemma AgentWriteKeepsAgreement(site: Site, w: World, pending: set<VmId>, id: VmId, status: Status)
    requires AgreesExcept(site, w, pending)
    ensures AgreesExcept(site, w.(vms := SetStatus(w.vms, id, status)), Pending(w, pending, AgentWrite(id, status)))
  {
    var more := Pending(w, {}, AgentWrite(id, status));
    RowsOnlyKeepsAgreement(site, w, pending, SetStatus(w.vms, id, status), more);
    assert pending + more == Pending(w, pending, AgentWrite(id, status));
  }

  ghost function Run(site: Site, w: World, steps: seq<Step>): (w': World)
    requires Wired(site, w)
    ensures Wired(site, w')
  {
    if steps == [] then w else Apply(site, Run(site, w, steps[..|steps| - 1]), steps[|steps| - 1])
  }

  /** The VMs whose route may lag behind after a run: those whose status an agent moved to or
      from 'running' and whose route no later step wrote from their row. */
  ghost function Lagging(site: Site, w: World, steps: seq<Step>): set<VmId>
    requires Wired(site, w)
  {
    if steps == [] then {}
    else
      var short := steps[..|steps| - 1];
      var last := steps[|steps| - 1];
      Pending(Run(site, w, short), Lagging(site, w, short), last) - Settles(Run(site, w, short), last)
  }

  /** The VMs whose route the step writes from their row. */
  ghost function Settles(w: World, s: Step): set<VmId> {
    match s
    case Event(kind, id) => if StatusAfter(kind).Some? then {id} else {}
    case Heartbeat(host, running, order) =>
      if NoDuplicates(order) && (forall id :: id in order <==> id in IdsOnHost(w.vms, host))
      then TouchedIds(w.vms, running, order) else {}
    case Create(id, row) => if id !in w.vms && !SubdomainTaken(w.vms, row.subdomain) then {id} else {}
    case Patch(id, subdomain, port, _) =>
      NameAndPortSettle(w, id, subdomain, port)
    case ChangeUsername(account, old_, new_, entries) =>
      if UsernameChangeAllowed(w, s) then MovedIds(w.vms, account, Renaming(old_, new_)) else {}
    case Delete(id) => if id in w.vms && w.vms[id].status.Stopped? then {id} else {}
    case _ => {}
  }

  lemma NameAndPortKeepAgreement(site: Site, w: World, pending: set<VmId>, id: VmId, subdomain: Option<string>, port: Option<int>)
    requires AgreesExcept(site, w, pending)
    ensures AgreesExcept(site, NameAndPort(site, w, id, subdomain, port), pending - NameAndPortSettle(w, id, subdomain, port))
  {
    var renamed := if subdomain.Some? then RenameSettles(w, id, subdomain.value) else {};
    var w1 := if subdomain.Some? then Rename(site, w, id, subdomain.value) else w;
    if subdomain.Some? {
      RenameKeepsAgreement(site, w, pending, id, subdomain.value);
    }
    assert pending - {} == pending;
    if port.Some? {
      ChangePortKeepsAgreement(site, w1, pending - renamed, id, port.value);
      assert PortSettles(w1, id) == PortSettles(w, id);
      assert pending - renamed - PortSettles(w, id) == pending - (renamed + PortSettles(w, id));
    }
    assert renamed + {} == renamed;
  }

  /** Visibility has no bearing on routes. */
  lemma PublicKeepsAgreement(site: Site, w: World, pending: set<VmId>, id: VmId, isPublic: bool)
    requires AgreesExcept(site, w, pending)
    ensures AgreesExcept(site, w.(vms := SetPublic(w.vms, id, isPublic)), pending)
  {
    RowsOnlyKeepsAgreement(site, w, pending, SetPublic(w.vms, id, isPublic), {});
    assert pending + {} == pending;
  }

  lemma PatchKeepsAgreement(site: Site, w: World, pending: set<VmId>, s: Step)
    requires AgreesExcept(site, w, pending) && s.Patch?
    ensures AgreesExcept(site, Apply(site, w, s), pending - Settles(w, s))
  {
    var w1 := NameAndPort(site, w, s.id, s.subdomain, s.port);
    NameAndPortKeepAgreement(site, w, pending, s.id, s.subdomain, s.port);
    if s.isPublic.Some? {
      PublicKeepsAgreement(site, w1, pending - Settles(w, s), s.id, s.isPublic.value);
    }
  }

  lemma ChangeUsernameKeepsAgreement(site: Site, w: World, pending: set<VmId>, s: Step)
    requires AgreesExcept(site, w, pending) && s.ChangeUsername?
    ensures AgreesExcept(site, Apply(site, w, s), pending - Settles(w, s))
  {
    if UsernameChangeAllowed(w, s) {
      ApartIffSeparate(s.old_, s.new_);
      UsernameChangeKeepsAgreement(site, w, pending, s.account, Renaming(s.old_, s.new_), s.entries);
    } else {
      assert pending - {} == pending;
    }
  }

  lemma DeleteKeepsAgreement(site: Site, w: World, pending: set<VmId>, id: VmId)
    requires AgreesExcept(site, w, pending)
    ensures AgreesExcept(site, Apply(site, w, Delete(id)), pending - Settles(w, Delete(id)))
  {
    if id in w.vms && w.vms[id].status.Stopped? {
      ErasedKeepsAgreement(site, w, pending, id);
    } else {
      assert pending - {} == pending;
    }
  }

  lemma HeartbeatStepKeepsAgreement(site: Site, w: World, pending: set<VmId>, s: Step)
    requires AgreesExcept(site, w, pending) && s.Heartbeat?
    ensures AgreesExcept(site, Apply(site, w, s), pending - Settles(w, s))
  {
    if NoDuplicates(s.order) && (forall id :: id in s.order <==> id in IdsOnHost(w.vms, s.host)) {
      BeatAllKeepsAgreement(site, w, pending, s.running, s.order);
    } else {
      assert pending - {} == pending;
    }
  }

  /** One step keeps agreement up to the lagging VMs, and catches up with those it settles. */
  lemma StepKeepsAgreement(site: Site, w: World, pending: set<VmId>, s: Step)
    requires AgreesExcept(site, w, pending)
    ensures AgreesExcept(site, Apply(site, w, s), Pending(w, pending, s) - Settles(w, s))
  {
    assert pending - {} == pending && Pending(w, pending, s) - {} == Pending(w, pending, s);
    match s
    case Create(id, row) => CreateKeepsAgreement(site, w, pending, id, row);
    case Patch(_, _, _, _) => PatchKeepsAgreement(site, w, pending, s);
    case ChangeUsername(_, _, _, _) => ChangeUsernameKeepsAgreement(site, w, pending, s);
    case Delete(id) => DeleteKeepsAgreement(site, w, pending, id);
    case Event(kind, id) => EventKeepsAgreement(site, w, pending, kind, id);
    case Heartbeat(_, _, _) => HeartbeatStepKeepsAgreement(site, w, pending, s);
    case AgentWrite(id, status) => AgentWriteKeepsAgreement(site, w, pending, id, status);
  }

  /** Over every run, agents' own writes included: each VM has exactly one route, at its own
      instance, no other route exists, and the target is right for every VM that is not lagging. */
  lemma {:induction false} AgreementHoldsInEveryRun(site: Site, w: World, steps: seq<Step>)
    requires Agrees(site, w)
    ensures AgreesExcept(site, Run(site, w, steps), Lagging(site, w, steps))
  {
    if steps != [] {
      var short := steps[..|steps| - 1];
      AgreementHoldsInEveryRun(site, w, short);
      StepKeepsAgreement(site, Run(site, w, short), Lagging(site, w, short), steps[|steps| - 1]);
    }
  }

  /** At each point of the run, an agent's own write leaves unchanged whether the VM is running. */
  ghost predicate WritesKeepRunning(site: Site, w: World, steps: seq<Step>)
    requires Wired(site, w)
  {
    forall k :: 0 <= k < |steps| && steps[k].AgentWrite? ==>
      var vms := Run(site, w, steps[..k]).vms;
      steps[k].id in vms ==> (vms[steps[k].id].status.Running? <==> steps[k].status.Running?)
  }

  lemma ShorterWrites(site: Site, w: World, steps: seq<Step>)
    requires Wired(site, w) && steps != [] && WritesKeepRunning(site, w, steps)
    ensures WritesKeepRunning(site, w, steps[..|steps| - 1])
    ensures Pending(Run(site, w, steps[..|steps| - 1]), {}, steps[|steps| - 1]) == {}
  {
    var short := steps[..|steps| - 1];
    forall k | 0 <= k < |short| && short[k].AgentWrite?
      ensures var vms := Run(site, w, short[..k]).vms;
        short[k].id in vms ==> (vms[short[k].id].status.Running? <==> short[k].status.Running?)
    {
      assert short[..k] == steps[..k];
    }
  }

  /** While agents' own writes do not change which VMs are running, as those of 'starting' and
      'stopped' around a start, nothing ever lags: full agreement after every step. */
  lemma {:induction false} ControlPlaneRunsAgree(site: Site, w: World, steps: seq<Step>)
    requires Agrees(site, w)
    requires WritesKeepRunning(site, w, steps)
    ensures Agrees(site, Run(site, w, steps))
  {
    if steps != [] {
      var short := steps[..|steps| - 1];
      ShorterWrites(site, w, steps);
      ControlPlaneRunsAgree(site, w, short);
      StepKeepsAgreement(site, Run(site, w, short), {}, steps[|steps| - 1]);
      assert {} - Settles(Run(site, w, short), steps[|steps| - 1]) == {};
    }
  }

  lemma RouteNamesHome(site: Site, w: World, id: VmId, base: string)
    requires Agrees(site, w) && id in w.vms && base in w.routes
    ensures NameOf(site, w.vms[id].subdomain) in w.routes[base] <==> base == HomeOf(site, w, id)
  {
    if base == HomeOf(site, w, id) {
      assert Owned(site, w, base, NameOf(site, w.vms[id].subdomain));
    }
  }

  predicate HomesStay(site: Site, w: World, w': World)
    requires w'.vms.Keys == w.vms.Keys
  {
    forall id :: id in w.vms ==> HomeOf(site, w', id) == HomeOf(site, w, id)
  }

  /** Hosts, their labels and the VMs' places may change, and columns that no route depends on;
      names, targets and routes are as before. */
  predicate OnlyMoves(w: World, w': World) {
    && w'.routes == w.routes && w'.vms.Keys == w.vms.Keys
    && forall id :: id in w.vms ==>
      w'.vms[id].subdomain == w.vms[id].subdomain && TargetOf(w'.vms[id]) == TargetOf(w.vms[id])
  }

  lemma AgreementFixesHomes(site: Site, w: World, w': World)
    requires Agrees(site, w) && Agrees(site, w') && OnlyMoves(w, w')
    ensures HomesStay(site, w, w')
  {
    forall id | id in w.vms ensures HomeOf(site, w', id) == HomeOf(site, w, id) {
      RouteNamesHome(site, w', id, HomeOf(site, w', id));
      RouteNamesHome(site, w, id, HomeOf(site, w', id));
    }
  }

  lemma OwnedStays(site: Site, w: World, w': World, base: string, fqdn: Fqdn)
    requires OnlyMoves(w, w') && HomesStay(site, w, w')
    ensures Owned(site, w, base, fqdn) <==> Owned(site, w', base, fqdn)
  {
    if Owned(site, w, base, fqdn) {
      var id :| id in w.vms && HomeOf(site, w, id) == base && NameOf(site, w.vms[id].subdomain) == fqdn;
      assert HomeOf(site, w', id) == base && NameOf(site, w'.vms[id].subdomain) == fqdn;
    }
    if Owned(site, w', base, fqdn) {
      var id :| id in w'.vms && HomeOf(site, w', id) == base && NameOf(site, w'.vms[id].subdomain) == fqdn;
      assert HomeOf(site, w, id) == base && NameOf(site, w.vms[id].subdomain) == fqdn;
    }
  }

  lemma CorrectStays(site: Site, w: World, w': World, id: VmId)
    requires Wired(site, w) && OnlyMoves(w, w') && id in w.vms && HomeOf(site, w', id) == HomeOf(site, w, id)
    requires Correct(site, w, id)
    ensures Correct(site, w', id)
  {
  }

  lemma NamesStayUnique(w: World, w': World)
    requires OnlyMoves(w, w') && UniqueSubdomains(w.vms)
    ensures UniqueSubdomains(w'.vms)
  {
    forall i, j | i in w'.vms && j in w'.vms && w'.vms[i].subdomain == w'.vms[j].subdomain ensures i == j {
      assert w.vms[i].subdomain == w'.vms[i].subdomain && w.vms[j].subdomain == w'.vms[j].subdomain;
    }
  }

  lemma StayingKeepsAgreement(site: Site, w: World, w': World)
    requires Agrees(site, w) && OnlyMoves(w, w') && HomesStay(site, w, w')
    ensures Agrees(site, w')
  {
    NamesStayUnique(w, w');
    forall base, fqdn | base in w'.routes ensures fqdn in w'.routes[base] <==> Owned(site, w', base, fqdn) {
      OwnedStays(site, w, w', base, fqdn);
    }
    forall id | id in w'.vms ensures Correct(site, w', id) {
      CorrectStays(site, w, w', id);
    }
  }

  /** Moving a VM to another host, or relabelling hosts, rewrites no route. From an agreeing
      state it keeps agreement exactly when every VM's instance stays the same. */
  lemma MoveKeepsAgreementIff(site: Site, w: World, w': World)
    requires Agrees(site, w) && OnlyMoves(w, w')
    ensures Agrees(site, w') <==> HomesStay(site, w, w')
  {
    if Agrees(site, w') {
      AgreementFixesHomes(site, w, w');
    }
    if HomesStay(site, w, w') {
      StayingKeepsAgreement(site, w, w');
    }
  }

  /** Two instances, a VM on the first one's host, and the host it moves to on the second's. */
  function TwoInstances(): Site {
    Site(CaddyRouter(map["r" := "c2"], "c1"), "d")
  }

  function VmOn(host: HostId): VmRow {
    VmRow("acct", Stopped, "s", 1, 1, "i", 80, None, None, Some(host), None, None, false)
  }

  function OneVmOn(host: HostId): World {
    World(map["v" := VmOn(host)],
          map["h1" := HostRow("h1", 4, 1, 4, 1, 0, HostActive, Null),
              "h2" := HostRow("h2", 4, 1, 4, 1, 0, HostActive, Obj(map["region" := Str("r")]))],
          map["c1" := map[Fqdn("s", "d") := ToStoppedPage], "c2" := map[]])
  }

  lemma BeforeTheMove()
    ensures Agrees(TwoInstances(), OneVmOn("h1"))
    ensures HomeOf(TwoInstances(), OneVmOn("h1"), "v") == "c1"
  {
    var site, w := TwoInstances(), OneVmOn("h1");
    assert RegionLabel(w.hosts["h1"].labels) == None;
    assert HomeOf(site, w, "v") == "c1";
    assert w.routes.Keys == {"c1", "c2"} == site.router.Bases() by {
      assert "r" in site.router.regionClients && "c2" in site.router.regionClients.Values;
    }
    forall base, fqdn | base in w.routes ensures fqdn in w.routes[base] <==> Owned(site, w, base, fqdn) {
      if base == "c1" && fqdn == Fqdn("s", "d") {
        assert HomeOf(site, w, "v") == base && NameOf(site, w.vms["v"].subdomain) == fqdn;
      }
    }
    assert Correct(site, w, "v");
  }

  /** A move to a host of another instance breaks an agreement that held. */
  lemma MoveBreaksAgreement()
    ensures exists site: Site, w: World, w': World :: Agrees(site, w) && OnlyMoves(w, w') && !Agrees(site, w')
  {
    var site, w, w' := TwoInstances(), OneVmOn("h1"), OneVmOn("h2");
    BeforeTheMove();
    assert RegionLabel(w'.hosts["h2"].labels) == Some("r");
    assert HomeOf(site, w', "v") == "c2";
    MoveKeepsAgreementIff(site, w, w');
    assert OnlyMoves(w, w') && !HomesStay(site, w, w');
  }
}
