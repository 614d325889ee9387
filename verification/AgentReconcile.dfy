/** The agent's reconciliation: several repair passes over one snapshot of the host's rows. */
module AgentReconcile {
  import opened Fleet
  import opened Decimal
  import opened Taps

  /** What the passes look at besides the table: live processes, the first process of each VM's
      cgroup, and the overlay files of this host. */
  datatype Env = Env(procs: set<int>, cgroup: map<VmId, int>, overlays: set<string>)

  /** `pid as u32` keeps the low 32 bits. */
  predicate Alive(env: Env, pid: int) {
    pid % U32_LIMIT in env.procs
  }

  predicate CgroupAlive(env: Env, id: VmId) {
    id in env.cgroup && Alive(env, env.cgroup[id])
  }

  predicate PidAlive(env: Env, row: VmRow) {
    row.pid.Some? && Alive(env, row.pid.value)
  }

  /** A stopped or failed row with a live process: its pid is recorded and Started is emitted. */
  predicate Recovers(env: Env, id: VmId, row: VmRow) {
    (row.status.Stopped? || row.status.Error?) && CgroupAlive(env, id)
  }

  /** What one round of passes makes of one row of the host. */
  function RoundRow(env: Env, id: VmId, row: VmRow): VmRow {
    match row.status
    case Starting | Stopping => row.(status := if PidAlive(env, row) then Running else Error)
    case Running =>
      if row.pid.Some? then (if PidAlive(env, row) then row else row.(status := Error))
      else if id in env.cgroup then row.(pid := Some(env.cgroup[id]))
      else row.(status := Error)
    case Stopped | Error => if CgroupAlive(env, id) then row.(pid := Some(env.cgroup[id])) else row
    case Snapshotting => row
  }

  predicate Claimable(env: Env, row: VmRow) {
    row.host == None && row.overlay.Some? && row.overlay.value in env.overlays
  }

  /** One round on the table: the host's rows are repaired, then unassigned VMs whose overlay
      lies here are claimed. */
  function Round(env: Env, host: HostId, vms: VmTable): VmTable {
    map id | id in vms ::
      if vms[id].host == Some(host) then RoundRow(env, id, vms[id])
      else if Claimable(env, vms[id]) then vms[id].(host := Some(host))
      else vms[id]
  }

  function Emitted(env: Env, host: HostId, vms: VmTable): set<VmId> {
    set id | id in vms && vms[id].host == Some(host) && Recovers(env, id, vms[id])
  }

  /** The control plane handles a Started event by setting 'running'. */
  function Handled(vms: VmTable, started: set<VmId>): VmTable {
    map id | id in vms :: if id in started then vms[id].(status := Running) else vms[id]
  }

  function FullRound(env: Env, host: HostId, vms: VmTable): VmTable {
    Handled(Round(env, host, vms), Emitted(env, host, vms))
  }

  function Monitored(env: Env, host: HostId, vms: VmTable): set<VmId> {
    set id | id in vms && vms[id].host == Some(host) && vms[id].status.Running? && PidAlive(env, vms[id])
  }

  function RunningOn(host: HostId, vms: VmTable): set<VmId> {
    set id | id in vms && vms[id].host == Some(host) && vms[id].status.Running?
  }

  // Fixed points.

  /** Not in transition; if running, with a live recorded process; if not, without a live one. */
  predicate SettledRow(env: Env, id: VmId, row: VmRow) {
    && !row.status.Starting? && !row.status.Stopping?
    && (row.status.Running? ==> PidAlive(env, row))
    && (row.status.Stopped? || row.status.Error? ==> !CgroupAlive(env, id))
  }

  predicate Settled(env: Env, host: HostId, vms: VmTable) {
    forall id :: id in vms && vms[id].host == Some(host) ==> SettledRow(env, id, vms[id])
  }

  predicate NothingToClaim(env: Env, vms: VmTable) {
    forall id :: id in vms ==> !Claimable(env, vms[id])
  }

  function FullRow(env: Env, id: VmId, row: VmRow): VmRow {
    var r := RoundRow(env, id, row);
    if Recovers(env, id, row) then r.(status := Running) else r
  }

  lemma FullRoundRows(env: Env, host: HostId, vms: VmTable)
    ensures FullRound(env, host, vms) == map id | id in vms ::
      if vms[id].host == Some(host) then FullRow(env, id, vms[id])
      else if Claimable(env, vms[id]) then vms[id].(host := Some(host))
      else vms[id]
  {
  }

  lemma TwoRoundsSettleRow(env: Env, id: VmId, row: VmRow)
    ensures SettledRow(env, id, FullRow(env, id, FullRow(env, id, row)))
    ensures FullRow(env, id, row).host == row.host
  {
  }

  lemma SettledRowIff(env: Env, id: VmId, row: VmRow)
    ensures SettledRow(env, id, row) <==> FullRow(env, id, row) == row
  {
  }

  lemma FixedIsSettled(env: Env, host: HostId, vms: VmTable)
    requires FullRound(env, host, vms) == vms
    ensures Settled(env, host, vms) && NothingToClaim(env, vms)
  {
    FullRoundRows(env, host, vms);
    forall id | id in vms ensures !Claimable(env, vms[id]) {
      assert FullRound(env, host, vms)[id] == vms[id];
    }
    forall id | id in vms && vms[id].host == Some(host) ensures SettledRow(env, id, vms[id]) {
      assert FullRound(env, host, vms)[id] == vms[id];
      SettledRowIff(env, id, vms[id]);
    }
  }

  lemma SettledIsQuiet(env: Env, host: HostId, vms: VmTable)
    requires Settled(env, host, vms) && NothingToClaim(env, vms)
    ensures FullRound(env, host, vms) == vms && Emitted(env, host, vms) == {}
    ensures Monitored(env, host, vms) == RunningOn(host, vms)
  {
    FullRoundRows(env, host, vms);
    forall id | id in vms && vms[id].host == Some(host)
      ensures FullRow(env, id, vms[id]) == vms[id] && !Recovers(env, id, vms[id])
      ensures vms[id].status.Running? ==> PidAlive(env, vms[id])
    {
      assert SettledRow(env, id, vms[id]);
      SettledRowIff(env, id, vms[id]);
    }
  }

  /** The fixed points of a round are exactly the settled tables with nothing left to claim;
      at one, nothing is emitted and the monitored set is the running set. */
  lemma FixedPointsAreSettled(env: Env, host: HostId, vms: VmTable)
    ensures FullRound(env, host, vms) == vms <==> Settled(env, host, vms) && NothingToClaim(env, vms)
    ensures FullRound(env, host, vms) == vms ==>
      Emitted(env, host, vms) == {} && Monitored(env, host, vms) == RunningOn(host, vms)
  {
    if FullRound(env, host, vms) == vms {
      FixedIsSettled(env, host, vms);
    }
    if Settled(env, host, vms) && NothingToClaim(env, vms) {
      SettledIsQuiet(env, host, vms);
    }
  }

  lemma RoundClaimsAll(env: Env, host: HostId, vms: VmTable)
    ensures NothingToClaim(env, FullRound(env, host, vms))
  {
    FullRoundRows(env, host, vms);
    forall id | id in vms ensures !Claimable(env, FullRound(env, host, vms)[id]) {
      TwoRoundsSettleRow(env, id, vms[id]);
    }
  }

  /** When one round is enough for a row: a row in transition, or running with a dead process,
      has no live cgroup process; a running row without pid whose cgroup names one has a live one. */
  predicate OneRoundEnough(env: Env, id: VmId, row: VmRow) {
    match row.status
    case Starting | Stopping => PidAlive(env, row) || !CgroupAlive(env, id)
    case Running => if row.pid.Some? then PidAlive(env, row) || !CgroupAlive(env, id) else id in env.cgroup ==> CgroupAlive(env, id)
    case Stopped | Error | Snapshotting => true
  }

  lemma OneRoundRowIff(env: Env, id: VmId, row: VmRow)
    ensures SettledRow(env, id, FullRow(env, id, row)) <==> OneRoundEnough(env, id, row)
  {
  }

  /** One round settles the host exactly when one round is enough for each of its rows and every
      row that it claims is settled already. */
  lemma OneRoundSettlesIff(env: Env, host: HostId, vms: VmTable)
    ensures Settled(env, host, FullRound(env, host, vms)) <==>
      forall id :: id in vms ==>
        && (vms[id].host == Some(host) ==> OneRoundEnough(env, id, vms[id]))
        && (Claimable(env, vms[id]) ==> SettledRow(env, id, vms[id]))
  {
    var once := FullRound(env, host, vms);
    FullRoundRows(env, host, vms);
    forall id | id in vms
      ensures (once[id].host == Some(host) ==> SettledRow(env, id, once[id])) <==>
        && (vms[id].host == Some(host) ==> OneRoundEnough(env, id, vms[id]))
        && (Claimable(env, vms[id]) ==> SettledRow(env, id, vms[id]))
    {
      OneRoundRowIff(env, id, vms[id]);
      TwoRoundsSettleRow(env, id, vms[id]);
    }
  }

  lemma TwoRoundsOfRow(env: Env, host: HostId, vms: VmTable, id: VmId)
    requires id in vms
    ensures var twice := FullRound(env, host, FullRound(env, host, vms));
      (twice[id].host == Some(host) ==> SettledRow(env, id, twice[id])) <==>
        (Claimable(env, vms[id]) ==> OneRoundEnough(env, id, vms[id]))
  {
    FullRoundRows(env, host, vms);
    FullRoundRows(env, host, FullRound(env, host, vms));
    OneRoundRowIff(env, id, vms[id].(host := Some(host)));
    TwoRoundsSettleRow(env, id, vms[id]);
  }

  /** Two rounds, each followed by handling its Started events, reach a fixed point exactly when
      one round is enough for every row that the first of them claims. At it nothing is announced
      and the monitored set is the running set. */
  lemma TwoRoundsSettleIff(env: Env, host: HostId, vms: VmTable)
    ensures var end := FullRound(env, host, FullRound(env, host, vms));
      && (Settled(env, host, end) <==> forall id :: id in vms && Claimable(env, vms[id]) ==> OneRoundEnough(env, id, vms[id]))
      && (FullRound(env, host, end) == end <==> Settled(env, host, end))
      && (Settled(env, host, end) ==> Emitted(env, host, end) == {} && Monitored(env, host, end) == RunningOn(host, end))
  {
    var once := FullRound(env, host, vms);
    var end := FullRound(env, host, once);
    forall id | id in vms
      ensures id in end && ((end[id].host == Some(host) ==> SettledRow(env, id, end[id])) <==>
        (Claimable(env, vms[id]) ==> OneRoundEnough(env, id, vms[id])))
    {
      TwoRoundsOfRow(env, host, vms, id);
    }
    RoundClaimsAll(env, host, once);
    FixedPointsAreSettled(env, host, end);
  }

  /** With processes and cgroups frozen and no unassigned VM waiting to be claimed, two rounds
      settle every VM of the host and reach a fixed point, whose monitored set is the running set. */
  lemma TwoRoundsSettle(env: Env, host: HostId, vms: VmTable)
    requires NothingToClaim(env, vms)
    ensures var end := FullRound(env, host, FullRound(env, host, vms));
      && Settled(env, host, end)
      && FullRound(env, host, end) == end
      && Emitted(env, host, end) == {}
      && Monitored(env, host, end) == RunningOn(host, end)
  {
    TwoRoundsSettleIff(env, host, vms);
  }

  /** Three rounds settle every VM from any table: a VM claimed at the end of the first has had
      two rounds of its own by then. The result is a fixed point. */
  lemma ThreeRoundsReachFixedPoint(env: Env, host: HostId, vms: VmTable)
    ensures var end := FullRound(env, host, FullRound(env, host, FullRound(env, host, vms)));
      && Settled(env, host, end)
      && FullRound(env, host, end) == end
      && Emitted(env, host, end) == {}
      && Monitored(env, host, end) == RunningOn(host, end)
  {
    var once := FullRound(env, host, vms);
    RoundClaimsAll(env, host, vms);
    TwoRoundsSettle(env, host, once);
  }

  /** One round is not enough: a failed start leaves its process behind, and only the next
      round finds it. */
  lemma OneRoundIsNotEnough()
    ensures exists env: Env, host, vms: VmTable :: NothingToClaim(env, vms) && !Settled(env, host, FullRound(env, host, vms))
  {
    var env := Env({7}, map["v" := 7], {});
    var row := VmRow("acct", Starting, "s", 1, 1, "i", 80, None, None, Some("h"), None, None, false);
    var vms: VmTable := map["v" := row];
    FullRoundRows(env, "h", vms);
    assert NothingToClaim(env, vms) && !SettledRow(env, "v", FullRound(env, "h", vms)["v"]);
  }

  /** Two rounds are not enough for a VM claimed at the end of the first. */
  lemma TwoRoundsAreNotEnoughAfterClaim()
    ensures exists env: Env, host, vms: VmTable ::
      !Settled(env, host, FullRound(env, host, FullRound(env, host, vms)))
  {
    var env := Env({7}, map["v" := 7], {"/o"});
    var row := VmRow("acct", Starting, "s", 1, 1, "i", 80, None, None, None, Some("/o"), None, false);
    var vms: VmTable := map["v" := row];
    FullRoundRows(env, "h", vms);
    FullRoundRows(env, "h", FullRound(env, "h", vms));
    assert !SettledRow(env, "v", FullRound(env, "h", FullRound(env, "h", vms))["v"]);
  }

  // The imperative passes.

  /** The snapshot's rows of the VMs in `done` replaced by their repaired form. */
  function Applied(env: Env, snap: VmTable, done: set<VmId>): VmTable {
    map id | id in snap :: if id in done then RoundRow(env, id, snap[id]) else snap[id]
  }

  predicate InTransition(row: VmRow) {
    row.status.Starting? || row.status.Stopping?
  }

  predicate AtRest(row: VmRow) {
    row.status.Stopped? || row.status.Error?
  }

  lemma AppliedStep(env: Env, snap: VmTable, done: set<VmId>, id: VmId)
    requires id in snap && id !in done
    ensures Applied(env, snap, done + {id}) == Applied(env, snap, done)[id := RoundRow(env, id, snap[id])]
    ensures Applied(env, snap, done)[id] == snap[id]
  {
  }

  function StuckOf(snap: VmTable, ids: seq<VmId>): set<VmId> {
    set id | id in ids && id in snap && InTransition(snap[id])
  }

  function RunningOf(snap: VmTable, ids: seq<VmId>): set<VmId> {
    set id | id in ids && id in snap && snap[id].status.Running?
  }

  function RestOf(snap: VmTable, ids: seq<VmId>): set<VmId> {
    set id | id in ids && id in snap && AtRest(snap[id])
  }

  function Claimed(env: Env, host: HostId, vms: VmTable, done: seq<VmId>): VmTable {
    map id | id in vms :: if id in done && Claimable(env, vms[id]) then vms[id].(host := Some(host)) else vms[id]
  }

  lemma ClaimedStep(env: Env, host: HostId, vms: VmTable, done: seq<VmId>, id: VmId)
    requires id in vms && id !in done
    ensures Claimed(env, host, vms, done)[id] == vms[id]
    ensures Claimed(env, host, vms, done + [id]) == Claimed(env, host, vms, done)[id :=
      if Claimable(env, vms[id]) then vms[id].(host := Some(host)) else vms[id]]
  {
  }

  lemma Growing(ids: seq<VmId>, k: nat)
    requires k < |ids| && NoDuplicates(ids)
    ensures ids[..k + 1] == ids[..k] + [ids[k]] && ids[k] in ids && ids[k] !in ids[..k]
  {
  }

  /** The passes together make the round: a snapshotting row is in none of them and stays. */
  lemma PassesMakeRound(env: Env, host: HostId, snap: VmTable, ids: seq<VmId>, free: seq<VmId>)
    requires forall id :: id in ids <==> id in IdsOnHost(snap, host)
    requires forall id :: id in free <==> id in IdsWithoutHost(snap)
    ensures Claimed(env, host, Applied(env, snap, StuckOf(snap, ids) + RunningOf(snap, ids) + RestOf(snap, ids)), free)
         == Round(env, host, snap)
  {
    var mid := Applied(env, snap, StuckOf(snap, ids) + RunningOf(snap, ids) + RestOf(snap, ids));
    forall id | id in snap
      ensures Claimed(env, host, mid, free)[id] == Round(env, host, snap)[id]
    {
      assert id in ids <==> snap[id].host == Some(host);
      assert id in free <==> snap[id].host == None;
    }
  }

  class VmManager {
    const db: Database
    const networking: NetworkManager
    const hostId: HostId
    var monitored: set<VmId>
    var events: seq<VmId>

    constructor (db: Database, networking: NetworkManager, hostId: HostId)
      ensures this.db == db && this.networking == networking && this.hostId == hostId
      ensures monitored == {} && events == []
    {
      this.db, this.networking, this.hostId := db, networking, hostId;
      monitored, events := {}, [];
    }

    /** Rows stuck in transition are reset from the liveness of their recorded process. */
    method ResetStuck(env: Env, snap: VmTable, ids: seq<VmId>)
      requires NoDuplicates(ids) && forall id :: id in ids ==> id in snap
      requires db.vms == snap
      modifies db`vms
      ensures db.vms == Applied(env, snap, StuckOf(snap, ids))
    {
      assert Applied(env, snap, StuckOf(snap, ids[..0])) == snap;
      for k := 0 to |ids|
        invariant db.vms == Applied(env, snap, StuckOf(snap, ids[..k]))
      {
        var id := ids[k];
        Growing(ids, k);
        if InTransition(snap[id]) {
          AppliedStep(env, snap, StuckOf(snap, ids[..k]), id);
          db.SetVmStatus(id, if PidAlive(env, snap[id]) then Running else Error);
          assert StuckOf(snap, ids[..k + 1]) == StuckOf(snap, ids[..k]) + {id};
        } else {
          assert StuckOf(snap, ids[..k + 1]) == StuckOf(snap, ids[..k]);
        }
      }
      assert ids[..|ids|] == ids;
    }

    /** Running rows without a live process are marked; missing pids are read from the cgroup. */
    method CheckRunning(env: Env, snap: VmTable, ids: seq<VmId>)
      requires NoDuplicates(ids) && forall id :: id in ids ==> id in snap
      requires db.vms == Applied(env, snap, StuckOf(snap, ids))
      modifies db`vms
      ensures db.vms == Applied(env, snap, StuckOf(snap, ids) + RunningOf(snap, ids))
    {
      ghost var before := StuckOf(snap, ids);
      assert before + RunningOf(snap, ids[..0]) == before;
      for k := 0 to |ids|
        invariant db.vms == Applied(env, snap, before + RunningOf(snap, ids[..k]))
      {
        var id := ids[k];
        Growing(ids, k);
        if snap[id].status.Running? {
          AppliedStep(env, snap, before + RunningOf(snap, ids[..k]), id);
          if snap[id].pid.Some? {
            if !PidAlive(env, snap[id]) {
              db.SetVmStatus(id, Error);
            }
          } else if id in env.cgroup {
            db.SetVmPid(id, env.cgroup[id]);
          } else {
            db.SetVmStatus(id, Error);
          }
          assert before + RunningOf(snap, ids[..k + 1]) == before + RunningOf(snap, ids[..k]) + {id};
        } else {
          assert RunningOf(snap, ids[..k + 1]) == RunningOf(snap, ids[..k]);
        }
      }
      assert ids[..|ids|] == ids;
    }

    method RecoverOne(env: Env, id: VmId, row: VmRow) returns (found: bool)
      requires id in db.vms && db.vms[id] == row && AtRest(row)
      modifies db`vms
      ensures found <==> Recovers(env, id, row)
      ensures db.vms == old(db.vms)[id := RoundRow(env, id, row)]
    {
      found := id in env.cgroup && Alive(env, env.cgroup[id]);
      if found {
        db.SetVmPid(id, env.cgroup[id]);
      }
    }

    /** Rows at rest with a live process get its pid and a Started event. */
    method RecoverLive(env: Env, snap: VmTable, ids: seq<VmId>) returns (sent: seq<VmId>)
      requires NoDuplicates(ids) && forall id :: id in ids ==> id in snap
      requires db.vms == Applied(env, snap, StuckOf(snap, ids) + RunningOf(snap, ids))
      modifies db`vms
      ensures db.vms == Applied(env, snap, StuckOf(snap, ids) + RunningOf(snap, ids) + RestOf(snap, ids))
      ensures forall id :: id in sent <==> id in ids && Recovers(env, id, snap[id])
    {
      ghost var before := StuckOf(snap, ids) + RunningOf(snap, ids);
      sent := [];
      assert before + RestOf(snap, ids[..0]) == before;
      for k := 0 to |ids|
        invariant db.vms == Applied(env, snap, before + RestOf(snap, ids[..k]))
        invariant forall id :: id in sent <==> id in ids[..k] && id in snap && Recovers(env, id, snap[id])
      {
        var id := ids[k];
        Growing(ids, k);
        if AtRest(snap[id]) {
          AppliedStep(env, snap, before + RestOf(snap, ids[..k]), id);
          var found := RecoverOne(env, id, snap[id]);
          if found {
            sent := sent + [id];
          }
          assert before + RestOf(snap, ids[..k + 1]) == before + RestOf(snap, ids[..k]) + {id};
        } else {
          assert RestOf(snap, ids[..k + 1]) == RestOf(snap, ids[..k]);
        }
      }
      assert ids[..|ids|] == ids;
    }

    /** Unassigned VMs with an overlay on this host become this host's. */
    method Claim(env: Env) returns (ghost free: seq<VmId>)
      modifies db`vms
      ensures forall id :: id in free <==> id in IdsWithoutHost(old(db.vms))
      ensures db.vms == Claimed(env, hostId, old(db.vms), free)
    {
      ghost var before := db.vms;
      var ids := Select(IdsWithoutHost(db.vms));
      assert Claimed(env, hostId, before, ids[..0]) == before;
      for k := 0 to |ids|
        invariant db.vms == Claimed(env, hostId, before, ids[..k])
      {
        var id := ids[k];
        Growing(ids, k);
        ClaimedStep(env, hostId, before, ids[..k], id);
        var row := db.vms[id];
        if row.overlay.Some? && row.overlay.value in env.overlays {
          db.SetVmHost(id, hostId);
        }
      }
      assert ids[..|ids|] == ids;
      free := ids;
    }

    /** The monitored set is rebuilt from the snapshot. */
    method RebuildMonitored(env: Env, snap: VmTable, ids: seq<VmId>)
      requires forall id :: id in ids <==> id in IdsOnHost(snap, hostId)
      modifies this`monitored
      ensures monitored == Monitored(env, hostId, snap)
    {
      monitored := set id | id in ids && id in snap && snap[id].status.Running? && PidAlive(env, snap[id]);
    }

    /** The passes over the host's own rows, in their order. */
    method RepairRows(env: Env, snap: VmTable, ids: seq<VmId>)
      requires NoDuplicates(ids) && forall id :: id in ids <==> id in IdsOnHost(snap, hostId)
      requires db.vms == snap
      modifies this, db`vms
      ensures db.vms == Applied(env, snap, StuckOf(snap, ids) + RunningOf(snap, ids) + RestOf(snap, ids))
      ensures monitored == Monitored(env, hostId, snap)
      ensures Announces(old(events), events, Emitted(env, hostId, snap))
    {
      ResetStuck(env, snap, ids);
      CheckRunning(env, snap, ids);
      RebuildMonitored(env, snap, ids);
      var sent := RecoverLive(env, snap, ids);
      AnnouncesAppended(events, sent, Emitted(env, hostId, snap));
      events := events + sent;
    }

    /** All passes: the table becomes one round of it, the monitored set and the sweep are taken
        from the snapshot, and the recovered VMs are announced. */
    method RunPasses(env: Env)
      modifies this, db`vms, networking
      ensures db.vms == Round(env, hostId, old(db.vms))
      ensures monitored == Monitored(env, hostId, old(db.vms))
      ensures Announces(old(events), events, Emitted(env, hostId, old(db.vms)))
      ensures networking.devices == Swept(old(networking.devices), TrackedTaps(hostId, old(db.vms)))
    {
      var snap := db.vms;
      var ids := Select(IdsOnHost(snap, hostId));
      RepairRows(env, snap, ids);
      networking.Sweep(TrackedTaps(hostId, snap));
      ghost var free := Claim(env);
      AppliedKeepsFree(env, snap, StuckOf(snap, ids) + RunningOf(snap, ids) + RestOf(snap, ids));
      PassesMakeRound(env, hostId, snap, ids, free);
    }

    /** One round, said of the rows, the announcements and the devices themselves. */
    method ReconcileOnce(env: Env)
      modifies this, db`vms, networking
      ensures db.vms == Round(env, hostId, old(db.vms))
      ensures monitored == Monitored(env, hostId, old(db.vms))
      ensures Announces(old(events), events, Emitted(env, hostId, old(db.vms)))
      // A row of the host in transition runs or has failed, as its recorded process lives or not.
      ensures db.vms.Keys == old(db.vms).Keys
      ensures forall id :: id in old(db.vms) && old(db.vms)[id].host == Some(hostId) ==>
        var row := old(db.vms)[id];
        (row.status == Starting || row.status == Stopping ==>
          db.vms[id] == row.(status := if row.pid.Some? && row.pid.value % 0x1_0000_0000 in env.procs then Running else Error))
      // A running one with a recorded process has failed if that is dead; one without gets the
      // process its cgroup names, or has failed.
      ensures forall id :: id in old(db.vms) && old(db.vms)[id].host == Some(hostId) ==>
        var row := old(db.vms)[id];
        && (row.status == Running && row.pid.Some? ==>
              db.vms[id] == if row.pid.value % 0x1_0000_0000 in env.procs then row else row.(status := Error))
        && (row.status == Running && row.pid.None? ==>
              db.vms[id] == if id in env.cgroup then row.(pid := Some(env.cgroup[id])) else row.(status := Error))
      // One at rest with a live process gets its pid and is announced; the others stay.
      ensures forall id :: id in old(db.vms) && old(db.vms)[id].host == Some(hostId) ==>
        var row := old(db.vms)[id];
        && (row.status == Stopped || row.status == Error ==>
              db.vms[id] == if id in env.cgroup && env.cgroup[id] % 0x1_0000_0000 in env.procs
                            then row.(pid := Some(env.cgroup[id])) else row)
        && (row.status == Snapshotting ==> db.vms[id] == row)
      // Of other rows just the unassigned ones with an overlay here become this host's.
      ensures forall id :: id in old(db.vms) && old(db.vms)[id].host != Some(hostId) ==>
        var row := old(db.vms)[id];
        db.vms[id] == if row.host.None? && row.overlay.Some? && row.overlay.value in env.overlays
                      then row.(host := Some(hostId)) else row
      ensures forall id :: id in monitored <==>
        (id in old(db.vms) && old(db.vms)[id].host == Some(hostId) && old(db.vms)[id].status == Running &&
         old(db.vms)[id].pid.Some? && old(db.vms)[id].pid.value % 0x1_0000_0000 in env.procs)
      ensures old(events) <= events
      ensures forall id :: id in events[|old(events)|..] <==>
        (id in old(db.vms) && old(db.vms)[id].host == Some(hostId) &&
         (old(db.vms)[id].status == Stopped || old(db.vms)[id].status == Error) &&
         id in env.cgroup && env.cgroup[id] % 0x1_0000_0000 in env.procs)
      // Devices without the prefix stay. If those with it are named after 32-bit slots, exactly the
      // ones that some row of the host records, whatever its status, are left.
      ensures forall name :: !(|name| >= 7 && name[..7] == "fc-tap-") ==>
        (name in networking.devices <==> name in old(networking.devices))
      ensures (forall name :: name in old(networking.devices) && |name| >= 7 && name[..7] == "fc-tap-" ==> NamedAfterSlot(name)) ==>
        forall name :: |name| >= 7 && name[..7] == "fc-tap-" ==>
          (name in networking.devices <==>
            (name in old(networking.devices) &&
             exists id :: id in old(db.vms) && old(db.vms)[id].host == Some(hostId) && old(db.vms)[id].tap == Some(name)))
    {
      ghost var vms, devices, log := db.vms, networking.devices, events;
      RunPasses(env);
      RoundMeans(env, hostId, vms);
      SweepMeans(devices, hostId, vms);
      assert forall id :: id in events[|log|..] <==> id in Emitted(env, hostId, vms);
    }
  }

  ghost predicate NamedAfterSlot(name: string) {
    exists slot: nat :: slot < 0x1_0000_0000 && name == "fc-tap-" + Print(slot)
  }

  lemma RoundMeans(env: Env, host: HostId, vms: VmTable)
    ensures Round(env, host, vms).Keys == vms.Keys
    ensures forall id :: id in vms && vms[id].host == Some(host) ==>
      var row := vms[id];
      var after := Round(env, host, vms)[id];
      && (row.status == Starting || row.status == Stopping ==>
            after == row.(status := if row.pid.Some? && row.pid.value % 0x1_0000_0000 in env.procs then Running else Error))
      && (row.status == Running && row.pid.Some? ==>
            after == if row.pid.value % 0x1_0000_0000 in env.procs then row else row.(status := Error))
      && (row.status == Running && row.pid.None? ==>
            after == if id in env.cgroup then row.(pid := Some(env.cgroup[id])) else row.(status := Error))
      && (row.status == Stopped || row.status == Error ==>
            after == if id in env.cgroup && env.cgroup[id] % 0x1_0000_0000 in env.procs
                     then row.(pid := Some(env.cgroup[id])) else row)
      && (row.status == Snapshotting ==> after == row)
    ensures forall id :: id in vms && vms[id].host != Some(host) ==>
      var row := vms[id];
      Round(env, host, vms)[id] == if row.host.None? && row.overlay.Some? && row.overlay.value in env.overlays
                                   then row.(host := Some(host)) else row
  {
  }

  lemma PrefixMeans(name: string)
    ensures HasPrefix(name) <==> |name| >= 7 && name[..7] == "fc-tap-"
    ensures forall slot: nat :: TapName(slot) == "fc-tap-" + Print(slot) && HasPrefix(TapName(slot))
  {
    forall slot: nat ensures HasPrefix(TapName(slot)) {
      assert TapName(slot)[..7] == "fc-tap-";
    }
  }

  lemma SweepKeepsOthers(devices: set<string>, tracked: set<string>, name: string)
    requires !HasPrefix(name)
    ensures name in Swept(devices, tracked) <==> name in devices
  {
    PrefixMeans(name);
  }

  lemma TrackedMeans(host: HostId, vms: VmTable, name: string)
    ensures name in TrackedTaps(host, vms) <==> exists id :: id in vms && vms[id].host == Some(host) && vms[id].tap == Some(name)
  {
  }

  lemma SweepMeans(devices: set<string>, host: HostId, vms: VmTable)
    ensures var swept := Swept(devices, TrackedTaps(host, vms));
      && (forall name :: !(|name| >= 7 && name[..7] == "fc-tap-") ==> (name in swept <==> name in devices))
      && ((forall name :: name in devices && |name| >= 7 && name[..7] == "fc-tap-" ==> NamedAfterSlot(name)) ==>
           forall name :: |name| >= 7 && name[..7] == "fc-tap-" ==>
             (name in swept <==> name in devices && exists id :: id in vms && vms[id].host == Some(host) && vms[id].tap == Some(name)))
  {
    var tracked := TrackedTaps(host, vms);
    forall name | !(|name| >= 7 && name[..7] == "fc-tap-") ensures name in Swept(devices, tracked) <==> name in devices {
      PrefixMeans(name);
      SweepKeepsOthers(devices, tracked, name);
    }
    if forall name :: name in devices && |name| >= 7 && name[..7] == "fc-tap-" ==> NamedAfterSlot(name) {
      OwnDevicesOnly(devices);
      SweepOfOwnDevices(devices, tracked);
      forall name | |name| >= 7 && name[..7] == "fc-tap-"
        ensures name in Swept(devices, tracked) <==>
          name in devices && exists id :: id in vms && vms[id].host == Some(host) && vms[id].tap == Some(name)
      {
        PrefixMeans(name);
        TrackedMeans(host, vms, name);
      }
    }
  }

  lemma OwnDevicesOnly(devices: set<string>)
    requires forall name :: name in devices && |name| >= 7 && name[..7] == "fc-tap-" ==> NamedAfterSlot(name)
    ensures forall name :: name in Listed(devices) ==> exists slot: nat :: slot < U32_LIMIT && name == TapName(slot)
  {
    forall name | name in Listed(devices) ensures exists slot: nat :: slot < U32_LIMIT && name == TapName(slot) {
      PrefixMeans(name);
      var slot: nat :| slot < 0x1_0000_0000 && name == "fc-tap-" + Print(slot);
      assert name == TapName(slot);
    }
  }

  /** The event log grew by announcements of just these VMs. */
  predicate Announces(before: seq<VmId>, after: seq<VmId>, ids: set<VmId>) {
    before <= after && (set id | id in after[|before|..]) == ids
  }

  lemma AnnouncesAppended(before: seq<VmId>, sent: seq<VmId>, ids: set<VmId>)
    requires forall id :: id in sent <==> id in ids
    ensures Announces(before, before + sent, ids)
  {
    assert (before + sent)[|before|..] == sent;
  }

  lemma AppliedKeepsFree(env: Env, snap: VmTable, done: set<VmId>)
    ensures IdsWithoutHost(Applied(env, snap, done)) == IdsWithoutHost(snap)
  {
  }

  function TrackedTaps(host: HostId, vms: VmTable): set<string> {
    set id | id in vms && vms[id].host == Some(host) && vms[id].tap.Some? :: vms[id].tap.value
  }
}
