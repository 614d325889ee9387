/** What the agents tell the control plane: streamed events and heartbeats. */
module Service {
  import opened Fleet
  import opened RouterSync
  import opened Regions
  import opened Agreement
  import opened Operations
  import opened Heartbeats
  import opened ControlPlane
  import AgentReconcile

  /** Heartbeats rewrite a host's load, time and status, never its labels. */
  ghost predicate SameLabels(hosts: map<HostId, HostRow>, hosts': map<HostId, HostRow>) {
    hosts'.Keys == hosts.Keys && forall h :: h in hosts ==> hosts'[h].labels == hosts[h].labels
  }

  lemma SameLabelsSameHome(site: Site, hosts: map<HostId, HostRow>, hosts': map<HostId, HostRow>, host: Option<HostId>)
    requires SameLabels(hosts, hosts')
    ensures Home(site, hosts', host) == Home(site, hosts, host)
  {
  }

  lemma SameLabelsKeepAgreement(site: Site, w: World, pending: set<VmId>, hosts: map<HostId, HostRow>)
    requires AgreesExcept(site, w, pending) && SameLabels(w.hosts, hosts)
    ensures AgreesExcept(site, w.(hosts := hosts), pending)
  {
    var w' := w.(hosts := hosts);
    forall host ensures Home(site, hosts, host) == Home(site, w.hosts, host) {
      SameLabelsSameHome(site, w.hosts, hosts, host);
    }
    forall base, fqdn | base in w'.routes ensures fqdn in w'.routes[base] <==> Owned(site, w', base, fqdn) {
      assert Owned(site, w, base, fqdn) <==> Owned(site, w', base, fqdn);
    }
    forall id | id in w'.vms && id !in pending ensures Correct(site, w', id) {
      assert Correct(site, w, id);
    }
  }

  /** A heartbeat, whether reconciled or skipped, keeps the agreement; a reconciled one also
      catches up with the VMs it looks at. */
  lemma HeartbeatKeepsAgreement(site: Site, w: World, hosts: map<HostId, HostRow>, cache: Cache, r: Report, pending: set<VmId>)
    requires AgreesExcept(site, w, pending) && SameLabels(w.hosts, hosts) && Fetches(w.vms, r)
    ensures AgreesExcept(site, BeatCached(site, w.(hosts := hosts), cache, r).0,
                         if Cached(cache, r.host) != r.running then pending - TouchedIds(w.vms, r.running, r.order) else pending)
  {
    SameLabelsKeepAgreement(site, w, pending, hosts);
    BeatAllKeepsAgreement(site, w.(hosts := hosts), pending, r.running, r.order);
  }

  /** What one reconciliation leaves, said of the columns: the host's rows are 'error' if they were
      running and are not reported, 'running' if they were stopped or in error and are, and the
      routes of both kinds, and of those that stay 'running', follow. */
  lemma ReconcileMeans(site: Site, w: World, r: Report)
    requires Wired(site, w) && UniqueSubdomains(w.vms) && Fetches(w.vms, r)
    ensures var w' := Reconcile(site, w, r);
      && w'.vms.Keys == w.vms.Keys && w'.hosts == w.hosts
      && forall id :: id in w.vms ==> RowRepaired(w.vms[id], w'.vms[id], r.host, id in r.running)
                                      && (Reported(w.vms[id], r.host, id in r.running) ==> RoutedByRow(site, w', w'.vms[id]))
  {
    var w' := Reconcile(site, w, r);
    BeatAllRows(site, w, r.running, r.order);
    forall id | id in w.vms && Reported(w.vms[id], r.host, id in r.running)
      ensures RoutedByRow(site, w', w'.vms[id])
    {
      ReconcileRepairsRouteIff(site, w, r, id);
      CorrectMeans(site, w', id);
    }
  }

  /** What a reconciliation of a host makes of one row. */
  predicate RowRepaired(row: VmRow, after: VmRow, host: HostId, up: bool) {
    && (row.host == Some(host) && row.status == Running && !up ==> after == row.(status := Error))
    && (row.host == Some(host) && row.status in {Stopped, Error} && up ==> after == row.(status := Running))
    && (row.host != Some(host) || row.status in {Starting, Stopping, Snapshotting} || (up <==> row.status == Running) ==>
          after == row)
  }

  /** The rows whose route a reconciliation of the host writes. */
  predicate Reported(row: VmRow, host: HostId, up: bool) {
    row.host == Some(host) && (row.status == Running || (up && row.status in {Stopped, Error}))
  }

  /** The row's name is routed at its instance, to its address if it is running. */
  predicate RoutedByRow(site: Site, w: World, row: VmRow) {
    RoutedTo(w.routes, Home(site, w.hosts, row.host), Fqdn(row.subdomain, site.baseDomain),
             if row.status == Running then ToVm(row.ip, row.port % 65536) else ToStoppedPage)
  }

  /** What subscribers of the dashboard are told. */
  datatype VmStatusEvent = VmStatusEvent(vmId: VmId, status: Status)

  datatype StreamItem = StreamItem(kind: EventKind, vmId: VmId)

  function ObserveAll(site: Site, w: World, items: seq<StreamItem>): (w': World)
    requires Wired(site, w)
    ensures Wired(site, w')
  {
    if items == [] then w
    else Observe(site, ObserveAll(site, w, items[..|items| - 1]), items[|items| - 1].kind, items[|items| - 1].vmId)
  }

  /** The last item about the VM that carries a status is the k-th. */
  predicate LastWord(items: seq<StreamItem>, k: nat, id: VmId) {
    && k < |items| && items[k].vmId == id && items[k].kind != OtherEvent
    && forall l :: k < l < |items| && items[l].vmId == id ==> items[l].kind == OtherEvent
  }

  /** No item about the VM carries a status. */
  predicate NoWord(items: seq<StreamItem>, id: VmId) {
    forall k :: 0 <= k < |items| && items[k].vmId == id ==> items[k].kind == OtherEvent
  }

  /** 'running' for a start, 'stopped' for a stop, 'error' for a crash. */
  predicate Tells(kind: EventKind, status: Status) {
    && (kind == Started ==> status == Running) && (kind == Stopped_ ==> status == Stopped)
    && (kind == Crashed ==> status == Error) && kind != OtherEvent
  }

  /** What one event leaves, said of the columns. */
  lemma ObserveMeans(site: Site, w: World, item: StreamItem)
    requires Wired(site, w)
    ensures var (w', id) := (Observe(site, w, item.kind, item.vmId), item.vmId);
      && w'.hosts == w.hosts
      && (item.kind == OtherEvent || id !in w.vms ==> w' == w)
      && (item.kind == Started && id in w.vms ==> w'.vms == w.vms[id := w.vms[id].(status := Running)])
      && (item.kind == Stopped_ && id in w.vms ==> w'.vms == w.vms[id := w.vms[id].(status := Stopped)])
      && (item.kind == Crashed && id in w.vms ==> w'.vms == w.vms[id := w.vms[id].(status := Error)])
      && (item.kind != OtherEvent && id in w.vms ==> RoutedByRow(site, w', w'.vms[id]))
  {
    var w', id := Observe(site, w, item.kind, item.vmId), item.vmId;
    if id in w.vms && item.kind != OtherEvent {
      CorrectMeans(site, w', id);
      WrittenIsCorrect(site, w, id, w'.vms[id]);
    }
  }

  /** One more item at the end of a stream. */
  lemma WordsGrow(items: seq<StreamItem>, id: VmId)
    requires items != []
    ensures var (short, last) := (items[..|items| - 1], items[|items| - 1]);
      var says := last.vmId == id && last.kind != OtherEvent;
      && (NoWord(items, id) <==> NoWord(short, id) && !says)
      && (forall k: nat :: LastWord(items, k, id) <==> if says then k == |short| else LastWord(short, k, id))
  {
    var short, last := items[..|items| - 1], items[|items| - 1];
    assert items == short + [last];
    forall k: nat ensures LastWord(items, k, id) <==>
      if last.vmId == id && last.kind != OtherEvent then k == |short| else LastWord(short, k, id)
    {
      assert k < |short| ==> short[k] == items[k];
    }
  }

  /** The row has the status that the last item about it told, if any. */
  ghost predicate RowAfter(items: seq<StreamItem>, id: VmId, row: VmRow, after: VmRow) {
    && after == row.(status := after.status)
    && (NoWord(items, id) ==> after == row)
    && (forall k: nat :: LastWord(items, k, id) ==> Tells(items[k].kind, after.status))
  }

  lemma RowAfterNext(items: seq<StreamItem>, id: VmId, row: VmRow, mid: VmRow, after: VmRow)
    requires items != [] && RowAfter(items[..|items| - 1], id, row, mid)
    requires var last := items[|items| - 1];
      if last.vmId == id && last.kind != OtherEvent
      then after == mid.(status := after.status) && Tells(last.kind, after.status) else after == mid
    ensures RowAfter(items, id, row, after)
  {
    WordsGrow(items, id);
  }

  lemma {:induction false} ObserveAllMeans(site: Site, w: World, items: seq<StreamItem>, id: VmId)
    requires Wired(site, w) && id in w.vms
    ensures var w' := ObserveAll(site, w, items);
      w'.hosts == w.hosts && w'.vms.Keys == w.vms.Keys && RowAfter(items, id, w.vms[id], w'.vms[id])
  {
    if items != [] {
      var short := items[..|items| - 1];
      ObserveAllMeans(site, w, short, id);
      var mid := ObserveAll(site, w, short);
      ObserveMeans(site, mid, items[|items| - 1]);
      RowAfterNext(items, id, w.vms[id], mid.vms[id], ObserveAll(site, w, items).vms[id]);
    }
  }

  function EventSteps(items: seq<StreamItem>): seq<Step> {
    if items == [] then []
    else EventSteps(items[..|items| - 1]) + [Event(items[|items| - 1].kind, items[|items| - 1].vmId)]
  }

  lemma RunLastEvent(site: Site, w: World, steps: seq<Step>, item: StreamItem)
    requires Wired(site, w)
    ensures Run(site, w, steps + [Event(item.kind, item.vmId)]) == Observe(site, Run(site, w, steps), item.kind, item.vmId)
  {
    assert (steps + [Event(item.kind, item.vmId)])[..|steps|] == steps;
  }

  lemma {:induction false} StreamIsRun(site: Site, w: World, items: seq<StreamItem>)
    requires Wired(site, w)
    ensures ObserveAll(site, w, items) == Run(site, w, EventSteps(items))
  {
    if items != [] {
      var short := items[..|items| - 1];
      StreamIsRun(site, w, short);
      RunLastEvent(site, w, EventSteps(short), items[|items| - 1]);
    }
  }

  function StartedItems(ids: seq<VmId>): seq<StreamItem> {
    seq(|ids|, i requires 0 <= i < |ids| => StreamItem(Started, ids[i]))
  }

  lemma ObserveStarted(site: Site, w: World, id: VmId)
    requires Wired(site, w)
    ensures Observe(site, w, Started, id).vms == SetStatus(w.vms, id, Running)
  {
  }

  lemma HandledStep(vms: VmTable, ids: seq<VmId>)
    requires ids != []
    ensures AgentReconcile.Handled(vms, Ids(ids))
         == SetStatus(AgentReconcile.Handled(vms, Ids(ids[..|ids| - 1])), ids[|ids| - 1], Running)
  {
    assert forall id :: id in ids <==> id in ids[..|ids| - 1] || id == ids[|ids| - 1];
  }

  function Ids(ids: seq<VmId>): set<VmId> {
    set id | id in ids
  }

  /** Handling the Started events of an agent's round, in whatever order they arrive, does to
      the rows what the agent's reconciliation counts on. */
  lemma {:induction false} StartedEventsAreHandled(site: Site, w: World, ids: seq<VmId>)
    requires Wired(site, w)
    ensures ObserveAll(site, w, StartedItems(ids)).vms == AgentReconcile.Handled(w.vms, Ids(ids))
  {
    if ids == [] {
      assert AgentReconcile.Handled(w.vms, {}) == w.vms;
    } else {
      var short := ids[..|ids| - 1];
      StartedEventsAreHandled(site, w, short);
      assert StartedItems(ids)[..|ids| - 1] == StartedItems(short);
      ObserveStarted(site, ObserveAll(site, w, StartedItems(short)), ids[|ids| - 1]);
      HandledStep(w.vms, ids);
    }
  }

  /** A status per item that carries one, known VM or not; the n-th is told by item `at[n]`. */
  ghost predicate SentInOrder(items: seq<StreamItem>, sent: seq<VmStatusEvent>, at: seq<nat>) {
    && |at| == |sent|
    && (forall i, j :: 0 <= i < j < |at| ==> at[i] < at[j])
    && (forall k: nat :: k in at <==> k < |items| && items[k].kind != OtherEvent)
    && (forall i :: 0 <= i < |sent| ==>
          at[i] < |items| && sent[i].vmId == items[at[i]].vmId && Tells(items[at[i]].kind, sent[i].status))
  }

  lemma SentNext(items: seq<StreamItem>, n: nat, sent: seq<VmStatusEvent>, at: seq<nat>, one: Option<VmStatusEvent>)
    requires n < |items| && SentInOrder(items[..n], sent, at)
    requires one.Some? <==> items[n].kind != OtherEvent
    requires one.Some? ==> one.value.vmId == items[n].vmId && Tells(items[n].kind, one.value.status)
    ensures if one.Some? then SentInOrder(items[..n + 1], sent + [one.value], at + [n]) else SentInOrder(items[..n + 1], sent, at)
  {
    forall i | 0 <= i < |at| ensures at[i] < n {
      assert at[i] in at;
    }
    if one.Some? {
      forall k: nat ensures k in at + [n] <==> k < n + 1 && items[..n + 1][k].kind != OtherEvent {
        assert k < n ==> items[..n][k] == items[k];
        assert k in at + [n] <==> k in at || k == n;
      }
    }
  }

  lemma ObserveAllGrows(site: Site, w: World, items: seq<StreamItem>, k: nat)
    requires Wired(site, w) && k < |items|
    ensures ObserveAll(site, w, items[..k + 1]) == Observe(site, ObserveAll(site, w, items[..k]), items[k].kind, items[k].vmId)
  {
    assert items[..k + 1][..k] == items[..k];
  }

  lemma {:induction false} ObserveAllKeys(site: Site, w: World, items: seq<StreamItem>)
    requires Wired(site, w)
    ensures ObserveAll(site, w, items).vms.Keys == w.vms.Keys && ObserveAll(site, w, items).hosts == w.hosts
  {
    if items != [] {
      ObserveAllKeys(site, w, items[..|items| - 1]);
      ObserveMeans(site, ObserveAll(site, w, items[..|items| - 1]), items[|items| - 1]);
    }
  }

  /** The rows the reconciliation fetched, seen from a later state in which some of the
      others have already been repaired. */
  lemma FetchedRowIsCurrent(site: Site, w: World, running: set<VmId>, ids: seq<VmId>, k: nat)
    requires Wired(site, w) && NoDuplicates(ids) && k < |ids| && ids[k] in w.vms
    ensures ids[k] in BeatAll(site, w, running, ids[..k]).vms
    ensures BeatAll(site, w, running, ids[..k]).vms[ids[k]] == w.vms[ids[k]]
    ensures BeatAll(site, w, running, ids[..k + 1]) == Beat(site, BeatAll(site, w, running, ids[..k]), running, ids[k])
  {
    BeatAllRows(site, w, running, ids[..k]);
    assert ids[k] !in ids[..k];
    assert ids[..k + 1][..k] == ids[..k];
  }

  /** The arms of the repair: which status is written, if any, and when only the route is. */
  lemma BeatIs(site: Site, w: World, running: set<VmId>, id: VmId)
    requires Wired(site, w) && id in w.vms
    ensures var row := w.vms[id];
      var next := if row.status.Running? then row.(status := if id in running then Running else Error)
                  else if (row.status.Stopped? || row.status.Error?) && id in running then row.(status := Running) else row;
      Beat(site, w, running, id) == if row.status.Running? || next != row then Written(site, w, id, next, TargetOf(next)) else w
  {
  }

  /** Writing a row as it is only sets its route. */
  lemma SameRowWritten(site: Site, w: World, id: VmId, target: Target)
    requires Wired(site, w) && id in w.vms
    ensures Written(site, w, id, w.vms[id], target)
         == w.(routes := SetRoute(w.routes, HomeOf(site, w, id), NameOf(site, w.vms[id].subdomain), target))
  {
    assert w.vms[id := w.vms[id]] == w.vms;
  }

  class ControlPlaneService {
    const ops: ControlPlaneOps
    var runningCache: Cache

    constructor (ops: ControlPlaneOps)
      ensures this.ops == ops && runningCache == map[]
    {
      this.ops := ops;
      runningCache := map[];
    }

    // Streamed events.

    /** The status is written, then the VM's name is routed by it. */
    method WriteStatus(id: VmId, vm: VmRow, base: string, status: Status)
      requires ops.Valid() && id in ops.db.vms && ops.db.vms[id] == vm
      requires base == Home(ops.site, ops.db.hosts, vm.host)
      modifies ops.db`vms, ops.caddy
      ensures ops.Valid()
      ensures ops.State() == var row := vm.(status := status); Written(ops.site, old(ops.State()), id, row, TargetOf(row))
    {
      ops.db.SetVmStatus(id, status);
      ops.RouteRow(base, vm.subdomain, vm.(status := status));
    }

    /** What an event that carries a status does to its VM, if there is one. */
    method Record(id: VmId, status: Status)
      requires ops.Valid()
      modifies ops.db`vms, ops.caddy
      ensures ops.Valid()
      ensures id !in old(ops.db.vms) ==> ops.State() == old(ops.State())
      ensures id in old(ops.db.vms) ==>
        ops.State() == var row := old(ops.db.vms)[id].(status := status); Written(ops.site, old(ops.State()), id, row, TargetOf(row))
    {
      if id in ops.db.vms {
        var vm := ops.db.vms[id];
        var base := ops.CaddyForVm(vm);
        WriteStatus(id, vm, base, status);
      }
    }

    /** Handling one event is one step of the abstract runs. A start writes and sends 'running', a
        stop 'stopped', a crash 'error'; any other event writes and sends nothing. */
    method HandleEvent(item: StreamItem) returns (sent: Option<VmStatusEvent>)
      requires ops.Valid()
      modifies ops.db`vms, ops.caddy
      ensures ops.Valid()
      ensures ops.State() == Observe(ops.site, old(ops.State()), item.kind, item.vmId)
      ensures var (id, vms) := (item.vmId, old(ops.db.vms));
        && (item.kind == OtherEvent || id !in vms ==> ops.State() == old(ops.State()))
        && (item.kind == Started && id in vms ==> ops.db.vms == vms[id := vms[id].(status := Running)])
        && (item.kind == Stopped_ && id in vms ==> ops.db.vms == vms[id := vms[id].(status := Stopped)])
        && (item.kind == Crashed && id in vms ==> ops.db.vms == vms[id := vms[id].(status := Error)])
        && (item.kind != OtherEvent && id in vms ==> RoutedByRow(ops.site, ops.State(), ops.db.vms[id]))
      ensures sent ==
        match item.kind
        case Started => Some(VmStatusEvent(item.vmId, Running))
        case Stopped_ => Some(VmStatusEvent(item.vmId, Stopped))
        case Crashed => Some(VmStatusEvent(item.vmId, Error))
        case OtherEvent => None
    {
      ObserveMeans(ops.site, ops.State(), item);
      match item.kind
      case Started =>
        Record(item.vmId, Running);
        sent := Some(VmStatusEvent(item.vmId, Running));
      case Stopped_ =>
        Record(item.vmId, Stopped);
        sent := Some(VmStatusEvent(item.vmId, Stopped));
      case Crashed =>
        Record(item.vmId, Error);
        sent := Some(VmStatusEvent(item.vmId, Error));
      case OtherEvent =>
        sent := None;
    }

    /** One turn of the loop over a stream. */
    method HandleNext(ghost w: World, items: seq<StreamItem>, k: nat, before: seq<VmStatusEvent>, ghost atBefore: seq<nat>)
      returns (sent: seq<VmStatusEvent>, ghost at: seq<nat>)
      requires ops.Valid() && k < |items| && Wired(ops.site, w)
      requires ops.State() == ObserveAll(ops.site, w, items[..k]) && SentInOrder(items[..k], before, atBefore)
      modifies ops.db`vms, ops.caddy
      ensures ops.Valid()
      ensures ops.State() == ObserveAll(ops.site, w, items[..k + 1]) && SentInOrder(items[..k + 1], sent, at)
    {
      ObserveAllGrows(ops.site, w, items, k);
      var one := HandleEvent(items[k]);
      SentNext(items, k, before, atBefore, one);
      sent, at := before, atBefore;
      if one.Some? {
        sent, at := sent + [one.value], at + [k];
      }
    }

    /** The loop over a stream. */
    method HandleAll(items: seq<StreamItem>) returns (sent: seq<VmStatusEvent>, ghost at: seq<nat>)
      requires ops.Valid()
      modifies ops.db`vms, ops.caddy
      ensures ops.Valid()
      ensures ops.State() == ObserveAll(ops.site, old(ops.State()), items)
      ensures SentInOrder(items, sent, at)
    {
      ghost var w := ops.State();
      sent, at := [], [];
      for k := 0 to |items|
        invariant ops.Valid()
        invariant ops.State() == ObserveAll(ops.site, w, items[..k])
        invariant SentInOrder(items[..k], sent, at)
      {
        sent, at := HandleNext(w, items, k, sent, at);
      }
      assert items[..|items|] == items;
    }

    /** A whole stream is the run of its events. A VM's last item that carries a status decides its
        status, a VM without one stays as it is; what is sent is one status for each item that
        carries one, in the order of the stream, for known VMs and unknown ones. */
    method Stream(items: seq<StreamItem>) returns (sent: seq<VmStatusEvent>, ghost at: seq<nat>)
      requires ops.Valid()
      modifies ops.db`vms, ops.caddy
      ensures ops.Valid()
      ensures ops.State() == ObserveAll(ops.site, old(ops.State()), items)
      ensures ops.db.vms.Keys == old(ops.db.vms).Keys
      ensures forall id :: id in ops.db.vms ==>
        && ops.db.vms[id] == old(ops.db.vms)[id].(status := ops.db.vms[id].status)
        && (NoWord(items, id) ==> ops.db.vms[id].status == old(ops.db.vms)[id].status)
        && forall k: nat :: LastWord(items, k, id) ==>
          && (items[k].kind == Started ==> ops.db.vms[id].status == Running)
          && (items[k].kind == Stopped_ ==> ops.db.vms[id].status == Stopped)
          && (items[k].kind == Crashed ==> ops.db.vms[id].status == Error)
      ensures |at| == |sent| && forall i, j :: 0 <= i < j < |at| ==> at[i] < at[j]
      ensures forall k: nat :: k in at <==> k < |items| && items[k].kind != OtherEvent
      ensures forall i :: 0 <= i < |sent| ==>
        && at[i] < |items| && sent[i].vmId == items[at[i]].vmId
        && (items[at[i]].kind == Started ==> sent[i].status == Running)
        && (items[at[i]].kind == Stopped_ ==> sent[i].status == Stopped)
        && (items[at[i]].kind == Crashed ==> sent[i].status == Error)
    {
      ghost var w := ops.State();
      sent, at := HandleAll(items);
      forall id | id in w.vms
        ensures id in ops.db.vms && RowAfter(items, id, w.vms[id], ops.db.vms[id])
      {
        ObserveAllMeans(ops.site, w, items, id);
      }
      ObserveAllKeys(ops.site, w, items);
    }

    // Heartbeats.

    /** A correct row is left; its route is written all the same. */
    method SyncRoute(id: VmId, vm: VmRow, base: string)
      requires ops.Valid() && id in ops.db.vms && ops.db.vms[id] == vm
      requires base == Home(ops.site, ops.db.hosts, vm.host)
      modifies ops.caddy
      ensures ops.Valid()
      ensures ops.State() == Written(ops.site, old(ops.State()), id, vm, TargetOf(vm))
    {
      SameRowWritten(ops.site, ops.State(), id, TargetOf(vm));
      ops.RouteRow(base, vm.subdomain, vm);
    }

    /** The repair of one fetched row. */
    method RepairOne(id: VmId, vm: VmRow, base: string, running: set<VmId>)
      requires ops.Valid() && id in ops.db.vms && ops.db.vms[id] == vm
      requires base == Home(ops.site, ops.db.hosts, vm.host)
      modifies ops.db`vms, ops.caddy
      ensures ops.Valid()
      ensures ops.State() == Beat(ops.site, old(ops.State()), running, id)
    {
      ghost var w := ops.State();
      BeatIs(ops.site, w, running, id);
      if vm.status.Running? && id !in running {
        WriteStatus(id, vm, base, Error);
      } else if vm.status.Running? && id in running {
        SyncRoute(id, vm, base);
      } else if (vm.status.Stopped? || vm.status.Error?) && id in running {
        WriteStatus(id, vm, base, Running);
      }
    }

    /** The loop over the host's rows, fetched once, in the order they came. */
    method RepairAll(host: HostId, running: set<VmId>) returns (ghost order: seq<VmId>)
      requires ops.Valid()
      modifies ops.db`vms, ops.caddy
      ensures ops.Valid()
      ensures Fetches(old(ops.db.vms), Report(host, running, order))
      ensures ops.State() == Reconcile(ops.site, old(ops.State()), Report(host, running, order))
    {
      ghost var w := ops.State();
      var vms := ops.db.vms;
      var ids := Select(IdsOnHost(vms, host));
      var base := if host in ops.db.hosts then ops.site.router.ForHost(ops.db.hosts[host]) else ops.site.router.ForRegion(None);
      for k := 0 to |ids|
        invariant ops.Valid() && ops.State() == BeatAll(ops.site, w, running, ids[..k])
      {
        assert ids[k] in ids;
        FetchedRowIsCurrent(ops.site, w, running, ids, k);
        RepairOne(ids[k], vms[ids[k]], base, running);
      }
      assert ids[..|ids|] == ids;
      order := ids;
    }

    /** A reconciliation, said of the columns: only the host's rows change, and only their status.
        One that was running and is not reported is in error; one that was stopped or in error and
        is reported is running. The routes of both, and of those that stay running, follow. */
    method ReconcileFromHeartbeat(host: HostId, running: set<VmId>) returns (ghost order: seq<VmId>)
      requires ops.Valid()
      modifies ops.db`vms, ops.caddy
      ensures ops.Valid()
      ensures Fetches(old(ops.db.vms), Report(host, running, order))
      ensures ops.State() == Reconcile(ops.site, old(ops.State()), Report(host, running, order))
      ensures ops.db.vms.Keys == old(ops.db.vms).Keys
      ensures forall id :: id in ops.db.vms ==> RowRepaired(old(ops.db.vms)[id], ops.db.vms[id], host, id in running)
      ensures forall id :: id in ops.db.vms && Reported(old(ops.db.vms)[id], host, id in running) ==>
        RoutedByRow(ops.site, ops.State(), ops.db.vms[id])
    {
      ghost var w := ops.State();
      order := RepairAll(host, running);
      ReconcileMeans(ops.site, w, Report(host, running, order));
    }

    /** The cached set is replaced; the answer is whether it was different. */
    method Remember(host: HostId, running: set<VmId>) returns (changed: bool)
      modifies this`runningCache
      ensures changed <==> Cached(old(runningCache), host) != running
      ensures runningCache == old(runningCache)[host := running]
    {
      var prev := if host in runningCache then runningCache[host] else {};
      changed := prev != running;
      runningCache := runningCache[host := running];
    }

    /** The host's load and liveness are recorded, a draining host stays draining and any other
        becomes active; no other host changes. The rows are reconciled unless the reported set
        equals the cached one. */
    method Heartbeat(host: HostId, vcpuUsed: int, memUsedMb: int, now: int, running: set<VmId>)
      returns (ghost order: seq<VmId>)
      requires ops.Valid()
      modifies this`runningCache, ops.db`vms, ops.db`hosts, ops.caddy
      ensures ops.Valid() && SameLabels(old(ops.db.hosts), ops.db.hosts)
      ensures Fetches(old(ops.db.vms), Report(host, running, order))
      ensures (ops.State(), runningCache) ==
        BeatCached(ops.site, old(ops.State()).(hosts := ops.db.hosts), old(runningCache), Report(host, running, order))
      // The hosts.
      ensures ops.db.hosts.Keys == old(ops.db.hosts).Keys
      ensures forall h :: h in ops.db.hosts && h != host ==> ops.db.hosts[h] == old(ops.db.hosts)[h]
      ensures host in ops.db.hosts ==>
        var (h, h') := (old(ops.db.hosts)[host], ops.db.hosts[host]);
        h' == HostRow(h.id, h.vcpuTotal, vcpuUsed, h.memTotalMb, memUsedMb, now,
                      if h.status == HostDraining then HostDraining else HostActive, h.labels)
      ensures forall h :: h in ops.db.hosts ==> (ops.db.hosts[h].status == HostDraining <==> old(ops.db.hosts)[h].status == HostDraining)
      // The rows.
      ensures runningCache == old(runningCache)[host := running]
      ensures ops.db.vms.Keys == old(ops.db.vms).Keys
      ensures running == (if host in old(runningCache) then old(runningCache)[host] else {}) ==>
        ops.db.vms == old(ops.db.vms) && ops.caddy.Contents() == old(ops.caddy.Contents())
      ensures running != (if host in old(runningCache) then old(runningCache)[host] else {}) ==>
        forall id :: id in ops.db.vms ==>
          && RowRepaired(old(ops.db.vms)[id], ops.db.vms[id], host, id in running)
          && (Reported(old(ops.db.vms)[id], host, id in running) ==> RoutedByRow(ops.site, ops.State(), ops.db.vms[id]))
    {
      ops.db.UpdateHostHeartbeat(host, vcpuUsed, memUsedMb, now);
      var changed := Remember(host, running);
      if changed {
        order := ReconcileFromHeartbeat(host, running);
      } else {
        order := SomeOrder(IdsOnHost(ops.db.vms, host));
      }
    }
  }

  ghost method SomeOrder(keys: set<VmId>) returns (order: seq<VmId>)
    ensures NoDuplicates(order) && forall id :: id in order <==> id in keys
  {
    order := [];
    var rest := keys;
    while rest != {}
      invariant NoDuplicates(order) && rest <= keys && forall id :: id in order <==> id in keys - rest
      decreases rest
    {
      var id :| id in rest;
      assert id !in order;
      order := order + [id];
      rest := rest - {id};
    }
  }
}
