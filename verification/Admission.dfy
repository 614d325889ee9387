/** The concurrent admission protocol of `start_vm`: any number of starts, each a sequence of
    transactions over its own snapshot, interleaved with stops, crashes, creations, deletions
    and agent answers. */
module Admission {
  import opened Fleet
  import opened Quota

  /** Where one call of `start_vm` is. `InTx` holds the transaction's snapshot and how many
      reservations its account had committed when the snapshot was taken. */
  datatype Phase = Requested | InTx(snap: VmTable, seen: nat) | Reserved | Finished

  /** One call of `start_vm`, with the resources it read before its first transaction. */
  datatype Start = Start(vm: VmId, account: AccountId, vcpus: int, mem: int, attempts: nat, phase: Phase)

  datatype State = State(
    vms: VmTable,
    accounts: map<AccountId, AccountRow>,
    commits: map<AccountId, nat>,
    starts: map<nat, Start>)

  datatype Event =
    | CallStart(op: nat, vm: VmId)
    | Begin(op: nat)
    | Commit(op: nat)
    | Refuse(op: nat)
    | AbortAtCommit(op: nat)
    | AbortAtStatement(op: nat)
    | AgentRefused(op: nat)
    | AgentUnreachable(op: nat)
    | AgentDone(op: nat)
    | RunningWrite(vm: VmId)
    | Deactivate(vm: VmId, status: Status)
    | Insert(vm: VmId, row: VmRow)
    | Delete(vm: VmId)
    | Resize(vm: VmId, vcpus: int, mem: int)

  function Count(s: State, account: AccountId): nat {
    if account in s.commits then s.commits[account] else 0
  }

  ghost function Judge(s: State, t: Start): Verdict
    requires t.phase.InTx? && t.account in s.accounts
  {
    Check(s.accounts[t.account], Used(t.phase.snap, t.account, Vms), Used(t.phase.snap, t.account, Vcpus),
          Used(t.phase.snap, t.account, Memory), t.vcpus, t.mem)
  }

  predicate InFlight(s: State, vm: VmId) {
    exists op :: op in s.starts && s.starts[op].vm == vm && (s.starts[op].phase.Requested? || s.starts[op].phase.InTx?)
  }

  /** The request can be added to the full limit without leaving the integer types. */
  predicate Fits(limits: AccountRow, vcpus: int, mem: int) {
    && 0 <= vcpus && limits.vcpuLimit + vcpus <= I64_MAX
    && 0 <= mem && limits.memLimitMb + mem <= I32_MAX
  }

  function Put(s: State, op: nat, t: Start, phase: Phase): State {
    s.(starts := s.starts[op := t.(phase := phase)])
  }

  /** One atomic step. An event whose guard does not hold changes nothing. Serializability is
      the guard of Commit: two reservations of one account that overlap cannot both commit. */
  ghost function Apply(s: State, e: Event): State {
    match e
    case CallStart(op, vm) =>
      if op !in s.starts && vm in s.vms && s.vms[vm].account in s.accounts
      then s.(starts := s.starts[op := Start(vm, s.vms[vm].account, s.vms[vm].vcpus, s.vms[vm].memoryMb, 0, Requested)])
      else s
    case Begin(op) =>
      if op in s.starts && s.starts[op].phase.Requested?
      then var t := s.starts[op];
        Put(s, op, t.(attempts := t.attempts + 1), InTx(s.vms, Count(s, t.account)))
      else s
    case Commit(op) =>
      if Admissible(s, op) && s.starts[op].phase.seen == Count(s, s.starts[op].account)
      then var t := s.starts[op];
        Put(s, op, t, Reserved).(vms := SetStatus(s.vms, t.vm, Starting),
                                 commits := s.commits[t.account := Count(s, t.account) + 1])
      else s
    case Refuse(op) =>
      if InTransaction(s, op) && Judge(s, s.starts[op]) != Admit then Put(s, op, s.starts[op], Finished) else s
    case AbortAtCommit(op) =>
      if Admissible(s, op)
      then Put(s, op, s.starts[op], if s.starts[op].attempts < 2 then Requested else Finished) else s
    case AbortAtStatement(op) =>
      if InTransaction(s, op) then Put(s, op, s.starts[op], Finished) else s
    case AgentRefused(op) =>
      if op in s.starts && s.starts[op].phase.Reserved?
      then Put(s, op, s.starts[op], Finished).(vms := SetStatus(s.vms, s.starts[op].vm, Stopped)) else s
    case AgentUnreachable(op) =>
      if op in s.starts && s.starts[op].phase.Reserved? then Put(s, op, s.starts[op], Finished) else s
    case AgentDone(op) =>
      if op in s.starts && s.starts[op].phase.Reserved? then Put(s, op, s.starts[op], Finished) else s
    case RunningWrite(vm) =>
      if vm in s.vms && Active(s.vms[vm].status) then s.(vms := SetStatus(s.vms, vm, Running)) else s
    case Deactivate(vm, status) =>
      if !Active(status) then s.(vms := SetStatus(s.vms, vm, status)) else s
    case Insert(vm, row) =>
      if vm !in s.vms && !InFlight(s, vm) && row.account in s.accounts
        && Fits(s.accounts[row.account], row.vcpus, row.memoryMb)
      then s.(vms := s.vms[vm := row.(status := Stopped)]) else s
    case Delete(vm) => s.(vms := s.vms - {vm})
    case Resize(vm, vcpus, mem) =>
      if vm in s.vms && !Active(s.vms[vm].status) && !InFlight(s, vm) && s.vms[vm].account in s.accounts
        && Fits(s.accounts[s.vms[vm].account], vcpus, mem)
      then s.(vms := s.vms[vm := s.vms[vm].(vcpus := vcpus, memoryMb := mem)]) else s
  }

  predicate InTransaction(s: State, op: nat) {
    op in s.starts && s.starts[op].phase.InTx? && s.starts[op].account in s.accounts
  }

  ghost predicate Admissible(s: State, op: nat) {
    InTransaction(s, op) && Judge(s, s.starts[op]) == Admit
  }

  ghost function Run(s: State, events: seq<Event>): State {
    if events == [] then s else Apply(Run(s, events[..|events| - 1]), events[|events| - 1])
  }

  // The invariant.

  ghost predicate TableOk(s: State) {
    && NonNegative(s.vms)
    && WithinQuota(s.vms, s.accounts)
    && forall id :: id in s.vms && s.vms[id].account in s.accounts ==>
        Fits(s.accounts[s.vms[id].account], s.vms[id].vcpus, s.vms[id].memoryMb)
  }

  /** A start waiting to reserve still describes its row; an open snapshot saw at least the
      usage of now, unless another reservation of the account has committed since. */
  ghost predicate StartOk(s: State, t: Start) {
    && t.attempts <= 2
    && (t.phase.Requested? ==> t.attempts < 2)
    && (t.phase.Requested? || t.phase.InTx? ==>
      && t.account in s.accounts
      && Fits(s.accounts[t.account], t.vcpus, t.mem)
      && (t.vm in s.vms ==>
        s.vms[t.vm].account == t.account && s.vms[t.vm].vcpus == t.vcpus && s.vms[t.vm].memoryMb == t.mem))
    && (t.phase.InTx? ==> SnapshotOk(s, t.account, t.phase.snap, t.phase.seen))
  }

  ghost predicate SnapshotOk(s: State, account: AccountId, snap: VmTable, seen: nat)
    requires account in s.accounts
  {
    && NonNegative(snap)
    && AccountWithin(snap, account, s.accounts[account])
    && seen <= Count(s, account)
    && (seen == Count(s, account) ==> forall d: Dimension :: Used(s.vms, account, d) <= Used(snap, account, d))
  }

  ghost predicate Inv(s: State) {
    TableOk(s) && forall op :: op in s.starts ==> StartOk(s, s.starts[op])
  }

  /** A table write that raises no account's usage keeps the invariant. */
  lemma ReleaseKeepsInv(s: State, vms: VmTable)
    requires Inv(s)
    requires forall a, d: Dimension :: Used(vms, a, d) <= Used(s.vms, a, d)
    requires TableOk(s.(vms := vms)) || (NonNegative(vms) && forall id :: id in vms ==> id in s.vms && SameClaim(vms[id], s.vms[id]))
    requires forall id :: id in vms && InFlight(s, id) ==> id in s.vms && SameClaim(vms[id], s.vms[id])
    ensures Inv(s.(vms := vms))
  {
    var s' := s.(vms := vms);
    assert WithinQuota(vms, s.accounts) by {
      forall a | a in s.accounts ensures AccountWithin(vms, a, s.accounts[a]) {
        assert AccountWithin(s.vms, a, s.accounts[a]);
      }
    }
    forall op | op in s.starts ensures StartOk(s', s.starts[op]) {
      var t := s.starts[op];
      assert StartOk(s, t);
      if t.phase.Requested? || t.phase.InTx? {
        assert InFlight(s, t.vm);
      }
      if t.phase.InTx? {
        forall d: Dimension ensures Used(vms, t.account, d) <= Used(s.vms, t.account, d) {}
      }
    }
  }

  predicate SameClaim(r: VmRow, q: VmRow) {
    r.account == q.account && r.vcpus == q.vcpus && r.memoryMb == q.memoryMb
  }

  /** Writing one row whose weight does not grow keeps the invariant. */
  lemma RowWriteKeepsInv(s: State, id: VmId, row: VmRow)
    requires Inv(s)
    requires forall a, d: Dimension :: Weight(row, a, d) <= if id in s.vms then Weight(s.vms[id], a, d) else 0
    requires row.vcpus >= 0 && row.memoryMb >= 0
    requires (id in s.vms && SameClaim(row, s.vms[id]))
      || (!InFlight(s, id) && row.account in s.accounts && Fits(s.accounts[row.account], row.vcpus, row.memoryMb))
    ensures Inv(s.(vms := s.vms[id := row]))
  {
    var vms := s.vms[id := row];
    forall a, d: Dimension ensures Used(vms, a, d) <= Used(s.vms, a, d) {
      UsedAfterWrite(s.vms, id, row, a, d);
    }
    forall a | a in s.accounts ensures AccountWithin(vms, a, s.accounts[a]) {
      assert AccountWithin(s.vms, a, s.accounts[a]);
    }
    ReleaseKeepsInv(s, vms);
  }

  lemma StatusWriteKeepsInv(s: State, id: VmId, status: Status)
    requires Inv(s)
    requires Active(status) ==> id in s.vms && Active(s.vms[id].status)
    ensures Inv(s.(vms := SetStatus(s.vms, id, status)))
  {
    if id in s.vms {
      RowWriteKeepsInv(s, id, s.vms[id].(status := status));
    } else {
      assert s.(vms := s.vms) == s;
    }
  }

  lemma DeleteKeepsInv(s: State, id: VmId)
    requires Inv(s)
    ensures Inv(s.(vms := s.vms - {id}))
  {
    if id in s.vms {
      forall a, d: Dimension ensures Used(s.vms - {id}, a, d) <= Used(s.vms, a, d) {
        UsedSplit(s.vms, id, a, d);
      }
      ReleaseKeepsInv(s, s.vms - {id});
    } else {
      assert s.vms - {id} == s.vms;
      assert s.(vms := s.vms) == s;
    }
  }

  lemma PutKeepsInv(s: State, op: nat, t: Start, phase: Phase)
    requires Inv(s) && StartOk(s, t.(phase := phase))
    ensures Inv(Put(s, op, t, phase))
  {
    var s' := Put(s, op, t, phase);
    forall o | o in s'.starts ensures StartOk(s', s'.starts[o]) {
      assert o != op ==> StartOk(s, s.starts[o]);
    }
  }

  /** The heart of the protocol: what was checked on the snapshot still holds of the table,
      because only a reservation of the same account could have raised its usage. */
  lemma CommitKeepsInv(s: State, op: nat)
    requires Inv(s) && Admissible(s, op)
    requires s.starts[op].phase.seen == Count(s, s.starts[op].account)
    ensures Inv(Apply(s, Commit(op)))
  {
    var t := s.starts[op];
    var a := t.account;
    var limits := s.accounts[a];
    var s' := Apply(s, Commit(op));
    assert StartOk(s, t);
    assert AccountWithin(t.phase.snap, a, limits);
    UsedNonNegative(t.phase.snap, a, Vcpus);
    UsedNonNegative(t.phase.snap, a, Memory);
    var snap := t.phase.snap;
    assert Limit(limits, Vcpus) >= Used(snap, a, Vcpus) && Limit(limits, Memory) >= Used(snap, a, Memory);
    CheckExact(limits, Used(snap, a, Vms), Used(snap, a, Vcpus), Used(snap, a, Memory), t.vcpus, t.mem);
    var row := if t.vm in s.vms then s.vms[t.vm].(status := Starting) else VmRow(a, Stopped, "", 0, 0, "", 0, None, None, None, None, None, false);
    if t.vm in s.vms {
      forall b, d: Dimension
        ensures Used(s'.vms, b, d) <= Used(s.vms, b, d) + (if b == a then Amount(row, d) else 0)
      {
        UsedAfterWrite(s.vms, t.vm, row, b, d);
      }
    }
    forall b | b in s.accounts ensures AccountWithin(s'.vms, b, s.accounts[b]) {
      assert AccountWithin(s.vms, b, s.accounts[b]);
      forall d: Dimension ensures Used(s'.vms, b, d) <= Limit(s.accounts[b], d) {
        if b == a && t.vm in s.vms {
          assert Used(s.vms, a, d) <= Used(snap, a, d);
          assert Used(snap, a, d) + Amount(row, d) <= Limit(limits, d) by {
            match d case Vms => case Vcpus => case Memory =>
          }
        }
      }
    }
    forall o | o in s'.starts ensures StartOk(s', s'.starts[o]) {
      var u := s'.starts[o];
      if o != op {
        assert StartOk(s, u);
        if u.phase.InTx? && u.account != a {
          forall d: Dimension ensures Used(s'.vms, u.account, d) <= Used(u.phase.snap, u.account, d) || u.phase.seen != Count(s', u.account) {
            if t.vm in s.vms {
              assert Used(s'.vms, u.account, d) <= Used(s.vms, u.account, d);
            }
          }
        }
      }
    }
  }

  /** Events that write the table outside any start. */
  predicate OnTable(e: Event) {
    e.RunningWrite? || e.Deactivate? || e.Insert? || e.Delete? || e.Resize?
  }

  lemma TableEventKeepsInv(s: State, e: Event)
    requires Inv(s) && OnTable(e) && Apply(s, e) != s
    ensures Inv(Apply(s, e))
  {
    match e
    case RunningWrite(vm) => StatusWriteKeepsInv(s, vm, Running);
    case Deactivate(vm, status) => StatusWriteKeepsInv(s, vm, status);
    case Insert(vm, row) => RowWriteKeepsInv(s, vm, row.(status := Stopped));
    case Delete(vm) => DeleteKeepsInv(s, vm);
    case Resize(vm, vcpus, mem) => RowWriteKeepsInv(s, vm, s.vms[vm].(vcpus := vcpus, memoryMb := mem));
  }

  /** Ending a start, or sending it back to try again, keeps the invariant. */
  lemma PhaseKeepsInv(s: State, op: nat, phase: Phase)
    requires Inv(s) && op in s.starts
    requires phase.Finished? || (phase.Requested? && s.starts[op].phase.InTx? && s.starts[op].attempts < 2)
    ensures Inv(Put(s, op, s.starts[op], phase))
  {
    assert StartOk(s, s.starts[op]);
    PutKeepsInv(s, op, s.starts[op], phase);
  }

  lemma StartEventKeepsInv(s: State, e: Event)
    requires Inv(s) && !OnTable(e) && Apply(s, e) != s
    ensures Inv(Apply(s, e))
  {
    var s' := Apply(s, e);
    match e
    case CallStart(op, vm) => PutKeepsInv(s, op, s'.starts[op], Requested);
    case Begin(op) =>
      var t := s.starts[op];
      assert StartOk(s, t);
      assert AccountWithin(s.vms, t.account, s.accounts[t.account]);
      PutKeepsInv(s, op, t.(attempts := t.attempts + 1), InTx(s.vms, Count(s, t.account)));
    case Commit(op) => CommitKeepsInv(s, op);
    case Refuse(op) => PhaseKeepsInv(s, op, Finished);
    case AbortAtCommit(op) => PhaseKeepsInv(s, op, s'.starts[op].phase);
    case AbortAtStatement(op) => PhaseKeepsInv(s, op, Finished);
    case AgentRefused(op) =>
      PhaseKeepsInv(s, op, Finished);
      StatusWriteKeepsInv(Put(s, op, s.starts[op], Finished), s.starts[op].vm, Stopped);
    case AgentUnreachable(op) => PhaseKeepsInv(s, op, Finished);
    case AgentDone(op) => PhaseKeepsInv(s, op, Finished);
  }

  lemma ApplyKeepsInv(s: State, e: Event)
    requires Inv(s)
    ensures Inv(Apply(s, e))
  {
    if Apply(s, e) != s {
      if OnTable(e) {
        TableEventKeepsInv(s, e);
      } else {
        StartEventKeepsInv(s, e);
      }
    }
  }

  lemma {:induction false} RunKeepsInv(s: State, events: seq<Event>)
    requires Inv(s)
    ensures Inv(Run(s, events))
  {
    if events != [] {
      RunKeepsInv(s, events[..|events| - 1]);
      ApplyKeepsInv(Run(s, events[..|events| - 1]), events[|events| - 1]);
    }
  }

  lemma ApplyKeepsLimits(s: State, e: Event)
    ensures Apply(s, e).accounts == s.accounts
  {
  }

  lemma {:induction false} RunKeepsLimits(s: State, events: seq<Event>)
    ensures Run(s, events).accounts == s.accounts
  {
    if events != [] {
      RunKeepsLimits(s, events[..|events| - 1]);
      ApplyKeepsLimits(Run(s, events[..|events| - 1]), events[|events| - 1]);
    }
  }

  /** Safety over every interleaving from a table within quota: no account ever exceeds a
      limit, and no start uses more than two transactions. */
  lemma QuotaHoldsInEveryRun(s: State, events: seq<Event>)
    requires TableOk(s) && s.starts == map[]
    ensures WithinQuota(Run(s, events).vms, s.accounts)
    ensures forall op :: op in Run(s, events).starts ==> Run(s, events).starts[op].attempts <= 2
  {
    RunKeepsInv(s, events);
    RunKeepsLimits(s, events);
    forall op | op in Run(s, events).starts ensures Run(s, events).starts[op].attempts <= 2 {
      assert StartOk(Run(s, events), Run(s, events).starts[op]);
    }
  }

  /** A start the agent refuses gives back exactly what its row was holding, and nothing else
      of anyone's usage moves. */
  lemma RefusedStartGivesBack(s: State, op: nat, a: AccountId, d: Dimension)
    requires op in s.starts && s.starts[op].phase.Reserved?
    ensures var vm := s.starts[op].vm;
      Used(Apply(s, AgentRefused(op)).vms, a, d)
        == Used(s.vms, a, d) - (if vm in s.vms then Weight(s.vms[vm], a, d) else 0)
  {
    var vm := s.starts[op].vm;
    if vm in s.vms {
      UsedAfterWrite(s.vms, vm, s.vms[vm].(status := Stopped), a, d);
    }
  }

  /** Reserving an inactive row and having it refused leaves every account's usage where it
      was, whatever the row's former inactive status. */
  lemma ReserveThenRefuseIsNeutral(s: State, op: nat, a: AccountId, d: Dimension)
    requires Admissible(s, op) && s.starts[op].phase.seen == Count(s, s.starts[op].account)
    requires s.starts[op].vm in s.vms ==> !Active(s.vms[s.starts[op].vm].status)
    ensures Used(Apply(Apply(s, Commit(op)), AgentRefused(op)).vms, a, d) == Used(s.vms, a, d)
  {
    var vm := s.starts[op].vm;
    var mid := Apply(s, Commit(op));
    RefusedStartGivesBack(mid, op, a, d);
    if vm in s.vms {
      UsedAfterWrite(s.vms, vm, s.vms[vm].(status := Starting), a, d);
    }
  }

  /** Serializable isolation is needed: from one snapshot two starts of different VMs both
      pass the check, and writing both breaks the limit. */
  lemma SnapshotChecksAloneAreNotEnough()
    ensures exists vms: VmTable, limits: AccountRow, i, j ::
      && i in vms && j in vms && AccountWithin(vms, "acct", limits)
      && (forall k :: k in {i, j} ==>
        Check(limits, Used(vms, "acct", Vms), Used(vms, "acct", Vcpus), Used(vms, "acct", Memory),
              vms[k].vcpus, vms[k].memoryMb) == Admit)
      && !AccountWithin(SetStatus(SetStatus(vms, i, Starting), j, Starting), "acct", limits)
  {
    var row := VmRow("acct", Stopped, "a", 1, 1, "", 0, None, None, None, None, None, false);
    var vms: VmTable := map["a" := row, "b" := row.(subdomain := "b")];
    var limits := AccountRow("u", 10, 10, 1);
    forall d: Dimension ensures Used(vms, "acct", d) == 0 {
      UsedSplit(vms, "b", "acct", d);
      UsedSplit(vms - {"b"}, "a", "acct", d);
      assert vms - {"b"} - {"a"} == map[];
    }
    var one := SetStatus(vms, "a", Starting);
    var two := SetStatus(one, "b", Starting);
    UsedAfterWrite(vms, "a", row.(status := Starting), "acct", Vms);
    UsedAfterWrite(one, "b", row.(subdomain := "b", status := Starting), "acct", Vms);
    assert Used(two, "acct", Vms) == 2 > Limit(limits, Vms);
    assert Check(limits, 0, 0, 0, 1, 1) == Admit;
    assert "a" in vms && "b" in vms && AccountWithin(vms, "acct", limits) && !AccountWithin(two, "acct", limits);
  }

  lemma RunLast(s: State, events: seq<Event>, last: Event)
    ensures Run(s, events + [last]) == Apply(Run(s, events), last)
  {
    assert (events + [last])[..|events|] == events;
  }

  lemma {:induction false} RunAppend(s: State, first: seq<Event>, second: seq<Event>)
    ensures Run(s, first + second) == Run(Run(s, first), second)
  {
    if second == [] {
      assert first + second == first;
    } else {
      var short, last := second[..|second| - 1], second[|second| - 1];
      assert second == short + [last] && first + second == first + short + [last];
      RunAppend(s, first, short);
      RunLast(s, first + short, last);
      RunLast(Run(s, first), short, last);
    }
  }

  lemma RunOne(s: State, e: Event)
    ensures Run(s, [e]) == Apply(s, e)
  {
    assert [e][..0] == [];
  }

  /** The request would be admitted on the table as it is. */
  ghost predicate FitsNow(vms: VmTable, accounts: map<AccountId, AccountRow>, vm: VmId) {
    vm in vms && vms[vm].account in accounts &&
    var a := vms[vm].account;
    Check(accounts[a], Used(vms, a, Vms), Used(vms, a, Vcpus), Used(vms, a, Memory), vms[vm].vcpus, vms[vm].memoryMb) == Admit
  }

  // The two ways a conflict is reported.

  ghost predicate HasReserved(s: State, op: nat) {
    op in s.starts && s.starts[op].phase.Reserved?
  }

  /** Some run from here lets the start reserve. */
  ghost predicate CanReserve(s: State, op: nat) {
    exists events :: HasReserved(Run(s, events), op)
  }

  lemma FinishedStays(s: State, op: nat, e: Event)
    requires op in s.starts && s.starts[op].phase.Finished?
    ensures op in Apply(s, e).starts && Apply(s, e).starts[op].phase.Finished?
  {
  }

  lemma {:induction false} FinishedForGood(s: State, op: nat, events: seq<Event>)
    requires op in s.starts && s.starts[op].phase.Finished?
    ensures op in Run(s, events).starts && Run(s, events).starts[op].phase.Finished?
  {
    if events != [] {
      FinishedForGood(s, op, events[..|events| - 1]);
      FinishedStays(Run(s, events[..|events| - 1]), op, events[|events| - 1]);
    }
  }

  predicate ClaimsRow(t: Start, row: VmRow) {
    t.account == row.account && t.vcpus == row.vcpus && t.mem == row.memoryMb
  }

  lemma RequestedCanReserve(s: State, op: nat)
    requires op in s.starts && s.starts[op].phase.Requested?
    requires FitsNow(s.vms, s.accounts, s.starts[op].vm) && ClaimsRow(s.starts[op], s.vms[s.starts[op].vm])
    ensures CanReserve(s, op)
  {
    var events := [Begin(op), Commit(op)];
    var s1 := Apply(s, Begin(op));
    assert events[..1] == [Begin(op)];
    RunOne(s, Begin(op));
    assert s1.starts[op].phase.InTx? && s1.starts[op].phase.snap == s.vms;
    assert Run(s, events) == Apply(s1, Commit(op));
    assert HasReserved(Run(s, events), op);
  }

  /** The first transaction of an admitted start conflicts, and the VM still fits: the start can
      reserve in some later run if and only if the conflict was reported by the commit. One that a
      statement reports ends the start for good. */
  lemma RetriedIff(s: State, op: nat, conflict: Event)
    requires Inv(s) && Admissible(s, op) && s.starts[op].attempts == 1 && FitsNow(s.vms, s.accounts, s.starts[op].vm)
    requires conflict == AbortAtCommit(op) || conflict == AbortAtStatement(op)
    ensures CanReserve(Apply(s, conflict), op) <==> conflict == AbortAtCommit(op)
  {
    var s1 := Apply(s, conflict);
    assert StartOk(s, s.starts[op]);
    if conflict == AbortAtCommit(op) {
      RequestedCanReserve(s1, op);
    } else {
      forall events ensures !HasReserved(Run(s1, events), op) {
        FinishedForGood(s1, op, events);
      }
    }
  }
}
