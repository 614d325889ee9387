/** The agent's write of 'running', which looks at no quota, when it comes late: from which states
    the limits still hold in every run, and how they are exceeded from the others. */
module LateWrites {
  import opened Fleet
  import opened Quota
  import opened Admission

  // Safe states.

  /** The limits hold now and after whatever the protocol does from here. */
  ghost predicate Safe(s: State) {
    forall events :: WithinQuota(Run(s, events).vms, s.accounts)
  }

  /** The bookkeeping of a state, with no word on quota: sizes are sensible, and a start that has
      not reserved yet describes its row and has not seen reservations that were never made. */
  ghost predicate Coherent(s: State) {
    && NonNegative(s.vms)
    && (forall id :: id in s.vms && s.vms[id].account in s.accounts ==>
          Fits(s.accounts[s.vms[id].account], s.vms[id].vcpus, s.vms[id].memoryMb))
    && (forall op :: op in s.starts ==> Describes(s, s.starts[op]))
  }

  ghost predicate Describes(s: State, t: Start) {
    && (t.phase.Requested? || t.phase.InTx? ==>
      && t.account in s.accounts
      && Fits(s.accounts[t.account], t.vcpus, t.mem)
      && (t.vm in s.vms ==>
        s.vms[t.vm].account == t.account && s.vms[t.vm].vcpus == t.vcpus && s.vms[t.vm].memoryMb == t.mem))
    && (t.phase.InTx? ==> t.phase.seen <= Count(s, t.account))
  }

  /** The transaction's check admits it and nothing stops its commit. */
  ghost predicate CanCommit(s: State, op: nat) {
    Admissible(s, op) && s.starts[op].phase.seen == Count(s, s.starts[op].account)
  }

  /** The VM of the start fits beside everything else the account uses now. */
  ghost predicate FitsBeside(s: State, t: Start)
    requires t.vm in s.vms && t.account in s.accounts
  {
    forall d: Dimension ::
      Used(s.vms - {t.vm}, t.account, d) + Amount(s.vms[t.vm], d) <= Limit(s.accounts[t.account], d)
  }

  ghost predicate OpenFit(s: State) {
    forall op :: op in s.starts && CanCommit(s, op) && s.starts[op].vm in s.vms ==> FitsBeside(s, s.starts[op])
  }

  /** What the safe states keep. */
  ghost predicate Steady(s: State) {
    Coherent(s) && WithinQuota(s.vms, s.accounts) && OpenFit(s)
  }

  lemma InvIsCoherent(s: State)
    requires Inv(s)
    ensures Coherent(s)
  {
    forall op | op in s.starts ensures Describes(s, s.starts[op]) {
      assert StartOk(s, s.starts[op]);
    }
  }

  // Table writes.

  lemma BesideAfterWrite(vms: VmTable, id: VmId, row: VmRow, beside: VmId, a: AccountId, d: Dimension)
    requires id != beside
    requires Weight(row, a, d) <= if id in vms then Weight(vms[id], a, d) else 0
    ensures Used(vms[id := row] - {beside}, a, d) <= Used(vms - {beside}, a, d)
  {
    UsedAfterWrite(vms - {beside}, id, row, a, d);
    assert vms[id := row] - {beside} == (vms - {beside})[id := row];
  }

  lemma BesideAfterDelete(vms: VmTable, id: VmId, beside: VmId, a: AccountId, d: Dimension)
    requires NonNegative(vms) && id in vms && id != beside
    ensures Used(vms - {id} - {beside}, a, d) <= Used(vms - {beside}, a, d)
  {
    UsedSplit(vms - {beside}, id, a, d);
    assert vms - {beside} - {id} == vms - {id} - {beside};
  }

  /** A row write that raises no usage and changes no claim of a start under way. */
  ghost predicate Lighter(s: State, id: VmId, row: VmRow) {
    && (forall a, d: Dimension :: Weight(row, a, d) <= if id in s.vms then Weight(s.vms[id], a, d) else 0)
    && row.vcpus >= 0 && row.memoryMb >= 0
    && ((id in s.vms && SameClaim(row, s.vms[id]))
        || (!InFlight(s, id) && row.account in s.accounts && Fits(s.accounts[row.account], row.vcpus, row.memoryMb)))
  }

  lemma WriteKeepsCoherent(s: State, id: VmId, row: VmRow)
    requires Coherent(s) && row.vcpus >= 0 && row.memoryMb >= 0
    requires (id in s.vms && SameClaim(row, s.vms[id]))
      || (!InFlight(s, id) && row.account in s.accounts && Fits(s.accounts[row.account], row.vcpus, row.memoryMb))
    ensures Coherent(s.(vms := s.vms[id := row]))
  {
    var s' := s.(vms := s.vms[id := row]);
    forall op | op in s'.starts ensures Describes(s', s'.starts[op]) {
      assert Describes(s, s.starts[op]);
      if s.starts[op].phase.Requested? || s.starts[op].phase.InTx? {
        assert InFlight(s, s.starts[op].vm);
      }
    }
  }

  lemma WriteKeepsSteady(s: State, id: VmId, row: VmRow)
    requires Steady(s) && Lighter(s, id, row)
    ensures Steady(s.(vms := s.vms[id := row]))
  {
    var s' := s.(vms := s.vms[id := row]);
    WriteKeepsCoherent(s, id, row);
    forall a | a in s.accounts ensures AccountWithin(s'.vms, a, s.accounts[a]) {
      assert AccountWithin(s.vms, a, s.accounts[a]);
      forall d: Dimension ensures Used(s'.vms, a, d) <= Limit(s.accounts[a], d) {
        UsedAfterWrite(s.vms, id, row, a, d);
      }
    }
    forall op | op in s'.starts && CanCommit(s', op) && s'.starts[op].vm in s'.vms ensures FitsBeside(s', s'.starts[op]) {
      WriteKeepsFit(s, id, row, op);
    }
  }

  lemma WriteKeepsFit(s: State, id: VmId, row: VmRow, op: nat)
    requires Steady(s) && Lighter(s, id, row)
    requires var s' := s.(vms := s.vms[id := row]); op in s'.starts && CanCommit(s', op) && s'.starts[op].vm in s'.vms
    ensures FitsBeside(s.(vms := s.vms[id := row]), s.starts[op])
  {
    var t := s.starts[op];
    assert InFlight(s, t.vm) && CanCommit(s, op);
    assert t.vm in s.vms && FitsBeside(s, t);
    forall d: Dimension
      ensures Used(s.vms[id := row] - {t.vm}, t.account, d) + Amount(s.vms[id := row][t.vm], d) <= Limit(s.accounts[t.account], d)
    {
      if t.vm == id {
        assert s.vms[id := row] - {id} == s.vms - {id};
        assert Amount(row, d) == Amount(s.vms[id], d);
      } else {
        BesideAfterWrite(s.vms, id, row, t.vm, t.account, d);
      }
    }
  }

  lemma DeleteKeepsCoherent(s: State, id: VmId)
    requires Coherent(s)
    ensures Coherent(s.(vms := s.vms - {id}))
  {
    var s' := s.(vms := s.vms - {id});
    forall op | op in s'.starts ensures Describes(s', s'.starts[op]) {
      assert Describes(s, s.starts[op]);
    }
  }

  lemma DeleteKeepsSteady(s: State, id: VmId)
    requires Steady(s)
    ensures Steady(s.(vms := s.vms - {id}))
  {
    var s' := s.(vms := s.vms - {id});
    if id !in s.vms {
      assert s.vms - {id} == s.vms;
      assert s' == s;
      return;
    }
    DeleteKeepsCoherent(s, id);
    forall a | a in s.accounts ensures AccountWithin(s'.vms, a, s.accounts[a]) {
      assert AccountWithin(s.vms, a, s.accounts[a]);
      forall d: Dimension ensures Used(s'.vms, a, d) <= Limit(s.accounts[a], d) {
        UsedSplit(s.vms, id, a, d);
      }
    }
    forall op | op in s'.starts && CanCommit(s', op) && s'.starts[op].vm in s'.vms ensures FitsBeside(s', s'.starts[op]) {
      var t := s.starts[op];
      assert CanCommit(s, op) && FitsBeside(s, t);
      forall d: Dimension
        ensures Used(s'.vms - {t.vm}, t.account, d) + Amount(s'.vms[t.vm], d) <= Limit(s.accounts[t.account], d)
      {
        BesideAfterDelete(s.vms, id, t.vm, t.account, d);
      }
    }
  }

  lemma StatusKeepsSteady(s: State, id: VmId, status: Status)
    requires Steady(s)
    requires Active(status) ==> id in s.vms && Active(s.vms[id].status)
    ensures Steady(s.(vms := SetStatus(s.vms, id, status)))
  {
    if id in s.vms {
      WriteKeepsSteady(s, id, s.vms[id].(status := status));
    } else {
      assert s.(vms := s.vms) == s;
    }
  }

  // The phases of a start.

  lemma PutKeepsCoherent(s: State, op: nat, t: Start, phase: Phase)
    requires Coherent(s) && Describes(s, t.(phase := phase))
    ensures Coherent(Put(s, op, t, phase))
  {
    var s' := Put(s, op, t, phase);
    forall o | o in s'.starts ensures Describes(s', s'.starts[o]) {
      assert o != op ==> Describes(s, s.starts[o]);
    }
  }

  /** A start that enters a phase in which it cannot commit. */
  lemma PutKeepsSteady(s: State, op: nat, t: Start, phase: Phase)
    requires Steady(s) && !phase.InTx? && Describes(s, t.(phase := phase))
    ensures Steady(Put(s, op, t, phase))
  {
    var s' := Put(s, op, t, phase);
    PutKeepsCoherent(s, op, t, phase);
    forall o | o in s'.starts && CanCommit(s', o) && s'.starts[o].vm in s'.vms ensures FitsBeside(s', s'.starts[o]) {
      assert o != op && CanCommit(s, o) && FitsBeside(s, s.starts[o]);
    }
  }

  /** What a check on the current table admits fits beside the rest of it. */
  lemma AdmittedFitsBeside(s: State, t: Start)
    requires Coherent(s) && WithinQuota(s.vms, s.accounts) && Describes(s, t)
    requires t.phase.InTx? && t.phase.snap == s.vms && t.vm in s.vms && Judge(s, t) == Admit
    ensures FitsBeside(s, t)
  {
    var a, limits := t.account, s.accounts[t.account];
    assert AccountWithin(s.vms, a, limits);
    UsedNonNegative(s.vms, a, Vcpus);
    UsedNonNegative(s.vms, a, Memory);
    assert Used(s.vms, a, Vcpus) <= Limit(limits, Vcpus) && Used(s.vms, a, Memory) <= Limit(limits, Memory);
    CheckExact(limits, Used(s.vms, a, Vms), Used(s.vms, a, Vcpus), Used(s.vms, a, Memory), t.vcpus, t.mem);
    forall d: Dimension ensures Used(s.vms - {t.vm}, a, d) + Amount(s.vms[t.vm], d) <= Limit(limits, d) {
      UsedSplit(s.vms, t.vm, a, d);
      assert Used(s.vms, a, d) + Amount(s.vms[t.vm], d) <= Limit(limits, d) by {
        match d case Vms => case Vcpus => case Memory =>
      }
    }
  }

  lemma BeginKeepsSteady(s: State, op: nat)
    requires Steady(s) && op in s.starts && s.starts[op].phase.Requested?
    ensures Steady(Apply(s, Begin(op)))
  {
    var s' := Apply(s, Begin(op));
    assert Describes(s, s.starts[op]);
    forall o | o in s'.starts ensures Describes(s', s'.starts[o]) {
      assert o != op ==> Describes(s, s.starts[o]);
    }
    forall o | o in s'.starts && CanCommit(s', o) && s'.starts[o].vm in s'.vms ensures FitsBeside(s', s'.starts[o]) {
      if o == op {
        AdmittedFitsBeside(s', s'.starts[op]);
      } else {
        assert CanCommit(s, o) && FitsBeside(s, s.starts[o]);
      }
    }
  }

  lemma CommitWrites(s: State, op: nat, a: AccountId, d: Dimension)
    requires CanCommit(s, op) && s.starts[op].vm in s.vms && Describes(s, s.starts[op])
    ensures var t := s.starts[op];
      Used(Apply(s, Commit(op)).vms, a, d) == Used(s.vms - {t.vm}, a, d) + if a == t.account then Amount(s.vms[t.vm], d) else 0
  {
    var t := s.starts[op];
    var vms := Apply(s, Commit(op)).vms;
    UsedSplit(vms, t.vm, a, d);
    assert vms - {t.vm} == s.vms - {t.vm};
  }

  lemma CommitKeepsQuota(s: State, op: nat)
    requires Steady(s) && CanCommit(s, op)
    ensures WithinQuota(Apply(s, Commit(op)).vms, s.accounts)
  {
    var t, s' := s.starts[op], Apply(s, Commit(op));
    assert Describes(s, t);
    forall a | a in s.accounts ensures AccountWithin(s'.vms, a, s.accounts[a]) {
      assert AccountWithin(s.vms, a, s.accounts[a]);
      if t.vm in s.vms {
        assert FitsBeside(s, t);
        forall d: Dimension ensures Used(s'.vms, a, d) <= Limit(s.accounts[a], d) {
          CommitWrites(s, op, a, d);
          UsedSplit(s.vms, t.vm, a, d);
        }
      }
    }
  }

  /** Another account's open transactions still fit: nothing of theirs was written. The account's
      own can no longer commit. */
  lemma CommitKeepsFit(s: State, op: nat, o: nat)
    requires Steady(s) && CanCommit(s, op)
    requires var s' := Apply(s, Commit(op)); o in s'.starts && CanCommit(s', o) && s'.starts[o].vm in s'.vms
    ensures FitsBeside(Apply(s, Commit(op)), Apply(s, Commit(op)).starts[o])
  {
    var t, s' := s.starts[op], Apply(s, Commit(op));
    var u := s'.starts[o];
    assert o != op && u == s.starts[o];
    assert Describes(s, t) && Describes(s, u);
    assert u.account != t.account && CanCommit(s, o) && FitsBeside(s, u);
    if t.vm in s.vms {
      assert t.vm != u.vm;
      forall d: Dimension
        ensures Used(s'.vms - {u.vm}, u.account, d) + Amount(s'.vms[u.vm], d) <= Limit(s.accounts[u.account], d)
      {
        BesideAfterWrite(s.vms, t.vm, s'.vms[t.vm], u.vm, u.account, d);
      }
    }
  }

  lemma CommitKeepsSteady(s: State, op: nat)
    requires Steady(s) && CanCommit(s, op)
    ensures Steady(Apply(s, Commit(op)))
  {
    var s' := Apply(s, Commit(op));
    CommitKeepsQuota(s, op);
    forall o | o in s'.starts ensures Describes(s', s'.starts[o]) {
      assert Describes(s, s.starts[o]);
    }
    forall o | o in s'.starts && CanCommit(s', o) && s'.starts[o].vm in s'.vms ensures FitsBeside(s', s'.starts[o]) {
      CommitKeepsFit(s, op, o);
    }
  }

  // Runs.

  lemma TableEventKeepsSteady(s: State, e: Event)
    requires Steady(s) && OnTable(e) && Apply(s, e) != s
    ensures Steady(Apply(s, e))
  {
    match e
    case RunningWrite(vm) => StatusKeepsSteady(s, vm, Running);
    case Deactivate(vm, status) => StatusKeepsSteady(s, vm, status);
    case Insert(vm, row) => WriteKeepsSteady(s, vm, row.(status := Stopped));
    case Delete(vm) => DeleteKeepsSteady(s, vm);
    case Resize(vm, vcpus, mem) => WriteKeepsSteady(s, vm, s.vms[vm].(vcpus := vcpus, memoryMb := mem));
  }

  lemma StartEventKeepsSteady(s: State, e: Event)
    requires Steady(s) && !OnTable(e) && Apply(s, e) != s
    ensures Steady(Apply(s, e))
  {
    match e
    case CallStart(op, vm) => PutKeepsSteady(s, op, Apply(s, e).starts[op], Requested);
    case Begin(op) => BeginKeepsSteady(s, op);
    case Commit(op) => CommitKeepsSteady(s, op);
    case Refuse(op) => PutKeepsSteady(s, op, s.starts[op], Finished);
    case AbortAtCommit(op) =>
      assert Describes(s, s.starts[op]);
      PutKeepsSteady(s, op, s.starts[op], Apply(s, e).starts[op].phase);
    case AbortAtStatement(op) => PutKeepsSteady(s, op, s.starts[op], Finished);
    case AgentRefused(op) =>
      PutKeepsSteady(s, op, s.starts[op], Finished);
      StatusKeepsSteady(Put(s, op, s.starts[op], Finished), s.starts[op].vm, Stopped);
    case AgentUnreachable(op) => PutKeepsSteady(s, op, s.starts[op], Finished);
    case AgentDone(op) => PutKeepsSteady(s, op, s.starts[op], Finished);
  }

  lemma {:induction false} RunKeepsSteady(s: State, events: seq<Event>)
    requires Steady(s)
    ensures Steady(Run(s, events))
  {
    if events != [] {
      var mid := Run(s, events[..|events| - 1]);
      var last := events[|events| - 1];
      RunKeepsSteady(s, events[..|events| - 1]);
      if Apply(mid, last) != mid {
        if OnTable(last) {
          TableEventKeepsSteady(mid, last);
        } else {
          StartEventKeepsSteady(mid, last);
        }
      }
    }
  }

  /** The commit of a transaction whose VM does not fit beside the rest exceeds a limit. */
  lemma SafeCommitFits(s: State, op: nat)
    requires Coherent(s) && Safe(s) && CanCommit(s, op) && s.starts[op].vm in s.vms
    ensures FitsBeside(s, s.starts[op])
  {
    var t := s.starts[op];
    assert Describes(s, t);
    RunOne(s, Commit(op));
    var vms := Apply(s, Commit(op)).vms;
    assert WithinQuota(Run(s, [Commit(op)]).vms, s.accounts);
    assert AccountWithin(vms, t.account, s.accounts[t.account]);
    forall d: Dimension
      ensures Used(s.vms - {t.vm}, t.account, d) + Amount(s.vms[t.vm], d) <= Limit(s.accounts[t.account], d)
    {
      CommitWrites(s, op, t.account, d);
    }
  }

  /** From any state with sound bookkeeping the limits hold in every run if and only if they hold
      now and every open transaction that can commit has a VM that fits beside the rest. */
  lemma SafeIff(s: State)
    requires Coherent(s)
    ensures Safe(s) <==> WithinQuota(s.vms, s.accounts) && OpenFit(s)
  {
    if Safe(s) {
      assert Run(s, []) == s;
      forall op | op in s.starts && CanCommit(s, op) && s.starts[op].vm in s.vms ensures FitsBeside(s, s.starts[op]) {
        SafeCommitFits(s, op);
      }
    }
    if Steady(s) {
      forall events ensures WithinQuota(Run(s, events).vms, s.accounts) {
        RunKeepsSteady(s, events);
        RunKeepsLimits(s, events);
      }
    }
  }

  /** The state after the agent's report that a VM runs, whatever the row's status was. */
  function LateWrite(s: State, vm: VmId): State {
    s.(vms := SetStatus(s.vms, vm, Running))
  }

  /** In any state with sound bookkeeping, which every run and every such write keeps, a write of
      'running' to any VM leaves the limits safe in every run that follows if and only if they
      hold right after it and every transaction that is open then and can commit still fits. */
  lemma LateWriteIsSafeIff(s: State, vm: VmId)
    requires Coherent(s) && vm in s.vms
    ensures Coherent(LateWrite(s, vm))
    ensures Safe(LateWrite(s, vm)) <==> WithinQuota(LateWrite(s, vm).vms, s.accounts) && OpenFit(LateWrite(s, vm))
  {
    WriteKeepsCoherent(s, vm, s.vms[vm].(status := Running));
    SafeIff(LateWrite(s, vm));
  }

  /** Runs of the protocol with late writes among their events. */
  datatype Mixed = Protocol(event: Event) | Late(vm: VmId)

  ghost function ApplyMixed(s: State, m: Mixed): State {
    match m
    case Protocol(e) => Apply(s, e)
    case Late(vm) => LateWrite(s, vm)
  }

  ghost function MixedRun(s: State, steps: seq<Mixed>): State {
    if steps == [] then s else ApplyMixed(MixedRun(s, steps[..|steps| - 1]), steps[|steps| - 1])
  }

  lemma StatusKeepsCoherent(s: State, id: VmId, status: Status)
    requires Coherent(s)
    ensures Coherent(s.(vms := SetStatus(s.vms, id, status)))
  {
    if id in s.vms {
      WriteKeepsCoherent(s, id, s.vms[id].(status := status));
    } else {
      assert s.(vms := s.vms) == s;
    }
  }

  lemma CommitKeepsCoherent(s: State, op: nat)
    requires Coherent(s) && CanCommit(s, op)
    ensures Coherent(Apply(s, Commit(op)))
  {
    var s' := Apply(s, Commit(op));
    StatusKeepsCoherent(s, s.starts[op].vm, Starting);
    forall o | o in s'.starts ensures Describes(s', s'.starts[o]) {
      assert Describes(s.(vms := s'.vms), s.starts[o]);
    }
  }

  lemma TableEventKeepsCoherent(s: State, e: Event)
    requires Coherent(s) && OnTable(e) && Apply(s, e) != s
    ensures Coherent(Apply(s, e))
  {
    match e
    case RunningWrite(vm) => StatusKeepsCoherent(s, vm, Running);
    case Deactivate(vm, status) => StatusKeepsCoherent(s, vm, status);
    case Insert(vm, row) => WriteKeepsCoherent(s, vm, row.(status := Stopped));
    case Delete(vm) => DeleteKeepsCoherent(s, vm);
    case Resize(vm, vcpus, mem) => WriteKeepsCoherent(s, vm, s.vms[vm].(vcpus := vcpus, memoryMb := mem));
  }

  lemma StartEventKeepsCoherent(s: State, e: Event)
    requires Coherent(s) && !OnTable(e) && Apply(s, e) != s
    ensures Coherent(Apply(s, e))
  {
    match e
    case CallStart(op, vm) => PutKeepsCoherent(s, op, Apply(s, e).starts[op], Requested);
    case Begin(op) =>
      var t := s.starts[op];
      assert Describes(s, t);
      PutKeepsCoherent(s, op, t.(attempts := t.attempts + 1), InTx(s.vms, Count(s, t.account)));
    case Commit(op) => CommitKeepsCoherent(s, op);
    case Refuse(op) => PutKeepsCoherent(s, op, s.starts[op], Finished);
    case AbortAtCommit(op) =>
      assert Describes(s, s.starts[op]);
      PutKeepsCoherent(s, op, s.starts[op], Apply(s, e).starts[op].phase);
    case AbortAtStatement(op) => PutKeepsCoherent(s, op, s.starts[op], Finished);
    case AgentRefused(op) =>
      PutKeepsCoherent(s, op, s.starts[op], Finished);
      StatusKeepsCoherent(Put(s, op, s.starts[op], Finished), s.starts[op].vm, Stopped);
    case AgentUnreachable(op) => PutKeepsCoherent(s, op, s.starts[op], Finished);
    case AgentDone(op) => PutKeepsCoherent(s, op, s.starts[op], Finished);
  }

  lemma MixedStepKeepsCoherent(s: State, m: Mixed)
    requires Coherent(s)
    ensures Coherent(ApplyMixed(s, m))
  {
    match m
    case Protocol(e) =>
      if Apply(s, e) != s {
        if OnTable(e) {
          TableEventKeepsCoherent(s, e);
        } else {
          StartEventKeepsCoherent(s, e);
        }
      }
    case Late(vm) => StatusKeepsCoherent(s, vm, Running);
  }

  /** Bookkeeping stays sound in every run, whatever late writes are among its events; so the
      condition on a late write applies wherever it comes. */
  lemma {:induction false} MixedRunKeepsCoherent(s: State, steps: seq<Mixed>)
    requires Coherent(s)
    ensures Coherent(MixedRun(s, steps))
  {
    if steps != [] {
      MixedRunKeepsCoherent(s, steps[..|steps| - 1]);
      MixedStepKeepsCoherent(MixedRun(s, steps[..|steps| - 1]), steps[|steps| - 1]);
    }
  }

  /** At each late write of the run the limits hold right after it, and so do the checks of the
      transactions then open. */
  ghost predicate LateWritesFit(s: State, steps: seq<Mixed>) {
    forall k :: 0 <= k < |steps| && steps[k].Late? ==>
      var after := LateWrite(MixedRun(s, steps[..k]), steps[k].vm);
      WithinQuota(after.vms, after.accounts) && OpenFit(after)
  }

  lemma ShorterLateWritesFit(s: State, steps: seq<Mixed>)
    requires steps != [] && LateWritesFit(s, steps)
    ensures LateWritesFit(s, steps[..|steps| - 1])
  {
    var short := steps[..|steps| - 1];
    forall k | 0 <= k < |short| && short[k].Late?
      ensures var after := LateWrite(MixedRun(s, short[..k]), short[k].vm);
        WithinQuota(after.vms, after.accounts) && OpenFit(after)
    {
      assert short[..k] == steps[..k];
    }
  }

  lemma MixedStepKeepsSteady(s: State, m: Mixed)
    requires Steady(s)
    requires m.Late? ==> var after := LateWrite(s, m.vm); WithinQuota(after.vms, after.accounts) && OpenFit(after)
    ensures Steady(ApplyMixed(s, m))
  {
    match m
    case Protocol(e) =>
      if Apply(s, e) != s {
        if OnTable(e) {
          TableEventKeepsSteady(s, e);
        } else {
          StartEventKeepsSteady(s, e);
        }
      }
    case Late(vm) => StatusKeepsCoherent(s, vm, Running);
  }

  /** Over every run with any number of late writes, the limits hold as long as each of them fits
      in this sense when it is made. */
  lemma {:induction false} FittingLateWritesKeepQuota(s: State, steps: seq<Mixed>)
    requires Steady(s) && LateWritesFit(s, steps)
    ensures Steady(MixedRun(s, steps))
  {
    if steps != [] {
      ShorterLateWritesFit(s, steps);
      FittingLateWritesKeepQuota(s, steps[..|steps| - 1]);
      MixedStepKeepsSteady(MixedRun(s, steps[..|steps| - 1]), steps[|steps| - 1]);
    }
  }

  /** A table within quota before any start is a fitting place to begin. */
  lemma QuietTableIsSteady(s: State)
    requires TableOk(s) && s.starts == map[]
    ensures Steady(s)
  {
  }

  // How the limits are exceeded.

  function StartEvents(op: nat, vm: VmId): seq<Event> {
    [CallStart(op, vm), Begin(op), Commit(op)]
  }

  /** A start that nothing comes between reserves a VM that fits. */
  lemma UncontendedStartReserves(s: State, op: nat, vm: VmId)
    requires op !in s.starts && FitsNow(s.vms, s.accounts, vm)
    ensures var s' := Run(s, StartEvents(op, vm));
      s'.vms == SetStatus(s.vms, vm, Starting) && s'.accounts == s.accounts && s'.starts.Keys == s.starts.Keys + {op}
  {
    var s1 := Apply(s, CallStart(op, vm));
    var s2 := Apply(s1, Begin(op));
    var s3 := Apply(s2, Commit(op));
    var events := StartEvents(op, vm);
    assert events[..2] == [CallStart(op, vm), Begin(op)] && events[..2][..1] == [CallStart(op, vm)];
    assert Run(s, events[..2][..1]) == s1 by { assert events[..2][..1][..0] == []; }
    assert Run(s, events) == s3;
  }

  /** Stopping a VM that was stopped when its start reserved it restores the table. */
  lemma StopUndoesStart(s: State, before: VmTable, vm: VmId)
    requires vm in before && before[vm].status.Stopped? && s.vms == SetStatus(before, vm, Starting)
    ensures Apply(s, Deactivate(vm, Stopped)) == s.(vms := before)
  {
    assert SetStatus(s.vms, vm, Stopped) == before;
  }

  /** Start b, stop b, start a. */
  function StopBetweenStarts(b: VmId, a: VmId): seq<Event> {
    StartEvents(0, b) + [Deactivate(b, Stopped)] + StartEvents(1, a)
  }

  /** With a stop between them, two starts of stopped VMs that each fit alone both reserve, one
      after the other, and the first is stopped in the end. */
  lemma StopBetweenStartsEnds(s: State, b: VmId, a: VmId)
    requires s.starts == map[] && FitsNow(s.vms, s.accounts, b) && FitsNow(s.vms, s.accounts, a)
    requires s.vms[b].status.Stopped?
    ensures Run(s, StopBetweenStarts(b, a)).vms == SetStatus(s.vms, a, Starting)
  {
    UncontendedStartReserves(s, 0, b);
    var s1 := Run(s, StartEvents(0, b));
    var s2 := Apply(s1, Deactivate(b, Stopped));
    StopUndoesStart(s1, s.vms, b);
    RunOne(s1, Deactivate(b, Stopped));
    RunAppend(s, StartEvents(0, b), [Deactivate(b, Stopped)]);
    UncontendedStartReserves(s2, 1, a);
    RunAppend(s, StartEvents(0, b) + [Deactivate(b, Stopped)], StartEvents(1, a));
  }

  /** The agent's late report on the stopped start then activates b beside a: the account exceeds
      a limit exactly if the two do not fit together. */
  lemma LateRunningWriteBreaksQuotaIff(s: State, b: VmId, a: VmId, d: Dimension)
    requires TableOk(s) && s.starts == map[] && a != b
    requires FitsNow(s.vms, s.accounts, b) && FitsNow(s.vms, s.accounts, a) && s.vms[a].account == s.vms[b].account
    requires s.vms[b].status.Stopped? && s.vms[a].status.Stopped?
    ensures var vms := Run(s, StopBetweenStarts(b, a)).vms;
      var account := s.vms[a].account;
      && WithinQuota(vms, s.accounts)
      && (Used(SetStatus(vms, b, Running), account, d) > Limit(s.accounts[account], d) <==>
          Used(s.vms, account, d) + Amount(s.vms[a], d) + Amount(s.vms[b], d) > Limit(s.accounts[account], d))
  {
    QuotaHoldsInEveryRun(s, StopBetweenStarts(b, a));
    StopBetweenStartsEnds(s, b, a);
    var one := SetStatus(s.vms, a, Starting);
    UsedAfterWrite(s.vms, a, one[a], s.vms[a].account, d);
    UsedAfterWrite(one, b, one[b].(status := Running), s.vms[a].account, d);
  }

  /** Concretely: a limit of one VM, and two running at the end. */
  lemma LateRunningWriteBreaksQuota()
    ensures exists s: State, b, a ::
      && TableOk(s) && s.starts == map[] && b in s.vms && a in s.vms
      && WithinQuota(Run(s, StopBetweenStarts(b, a)).vms, s.accounts)
      && !WithinQuota(SetStatus(Run(s, StopBetweenStarts(b, a)).vms, b, Running), s.accounts)
  {
    var s := TwoStoppedVms();
    NothingUsed();
    LateRunningWriteBreaksQuotaIff(s, "b", "a", Vms);
    var late := SetStatus(Run(s, StopBetweenStarts("b", "a")).vms, "b", Running);
    assert !AccountWithin(late, "acct", s.accounts["acct"]);
  }

  function TwoStoppedVms(): State {
    var row := VmRow("acct", Stopped, "a", 1, 1, "", 0, None, None, None, None, None, false);
    State(map["a" := row, "b" := row.(subdomain := "b")], map["acct" := AccountRow("u", 10, 10, 1)], map[], map[])
  }

  // A late write that fits, beside a transaction that is still open.

  lemma OpenTransaction(s: State, op: nat, vm: VmId)
    requires op !in s.starts && FitsNow(s.vms, s.accounts, vm)
    ensures var mid := Run(s, [CallStart(op, vm), Begin(op)]);
      && mid.vms == s.vms && mid.accounts == s.accounts && op in mid.starts
      && mid.starts[op].vm == vm && mid.starts[op].account == s.vms[vm].account && CanCommit(mid, op)
  {
    var events := [CallStart(op, vm), Begin(op)];
    assert events[..1] == [CallStart(op, vm)];
    RunOne(s, CallStart(op, vm));
  }

  /** Start b, stop b, and begin the transaction of a start of a. */
  function OpenAfterStop(b: VmId, a: VmId): seq<Event> {
    StartEvents(0, b) + [Deactivate(b, Stopped)] + [CallStart(1, a), Begin(1)]
  }

  lemma OpenAfterStopEnds(s: State, b: VmId, a: VmId)
    requires s.starts == map[] && FitsNow(s.vms, s.accounts, b) && FitsNow(s.vms, s.accounts, a)
    requires s.vms[b].status.Stopped?
    ensures var mid := Run(s, OpenAfterStop(b, a));
      && mid.vms == s.vms && mid.accounts == s.accounts && 1 in mid.starts
      && mid.starts[1].vm == a && mid.starts[1].account == s.vms[a].account && CanCommit(mid, 1)
  {
    UncontendedStartReserves(s, 0, b);
    var s1 := Run(s, StartEvents(0, b));
    StopUndoesStart(s1, s.vms, b);
    RunOne(s1, Deactivate(b, Stopped));
    RunAppend(s, StartEvents(0, b), [Deactivate(b, Stopped)]);
    OpenTransaction(Apply(s1, Deactivate(b, Stopped)), 1, a);
    RunAppend(s, StartEvents(0, b) + [Deactivate(b, Stopped)], [CallStart(1, a), Begin(1)]);
  }

  lemma FittingWriteIsWithin(s: State, b: VmId)
    requires TableOk(s) && s.starts == map[] && FitsNow(s.vms, s.accounts, b)
    ensures WithinQuota(SetStatus(s.vms, b, Running), s.accounts)
  {
    QuotaHoldsInEveryRun(s, StartEvents(0, b));
    UncontendedStartReserves(s, 0, b);
    var started := SetStatus(s.vms, b, Starting);
    RunningWriteKeepsQuotaIff(started, s.accounts, b);
    assert SetStatus(started, b, Running) == SetStatus(s.vms, b, Running);
  }

  /** The late report on b fits the table it is written to, and the transaction of a, whose
      snapshot is older, commits all the same: the account exceeds a limit then, exactly if the
      two do not fit together. */
  lemma OpenTransactionBreaksQuotaIff(s: State, b: VmId, a: VmId, d: Dimension)
    requires TableOk(s) && s.starts == map[] && a != b
    requires FitsNow(s.vms, s.accounts, b) && FitsNow(s.vms, s.accounts, a) && s.vms[a].account == s.vms[b].account
    requires s.vms[b].status.Stopped? && s.vms[a].status.Stopped?
    ensures var late := LateWrite(Run(s, OpenAfterStop(b, a)), b);
      var account := s.vms[a].account;
      && WithinQuota(late.vms, s.accounts)
      && (Used(Run(late, [Commit(1)]).vms, account, d) > Limit(s.accounts[account], d) <==>
          Used(s.vms, account, d) + Amount(s.vms[a], d) + Amount(s.vms[b], d) > Limit(s.accounts[account], d))
  {
    OpenAfterStopEnds(s, b, a);
    FittingWriteIsWithin(s, b);
    var late := LateWrite(Run(s, OpenAfterStop(b, a)), b);
    assert CanCommit(late, 1);
    RunOne(late, Commit(1));
    assert Run(late, [Commit(1)]).vms == SetStatus(late.vms, a, Starting);
    UsedAfterWrite(s.vms, b, s.vms[b].(status := Running), s.vms[a].account, d);
    UsedAfterWrite(late.vms, a, s.vms[a].(status := Starting), s.vms[a].account, d);
  }

  /** Concretely: a limit of one VM, a late write that stays within it, and two active VMs after
      the commit. */
  lemma OpenTransactionBreaksQuota()
    ensures exists s: State, b, a ::
      && TableOk(s) && s.starts == map[] && b in s.vms && a in s.vms
      && WithinQuota(LateWrite(Run(s, OpenAfterStop(b, a)), b).vms, s.accounts)
      && !WithinQuota(Run(LateWrite(Run(s, OpenAfterStop(b, a)), b), [Commit(1)]).vms, s.accounts)
  {
    var s := TwoStoppedVms();
    NothingUsed();
    OpenTransactionBreaksQuotaIff(s, "b", "a", Vms);
    var end := Run(LateWrite(Run(s, OpenAfterStop("b", "a")), "b"), [Commit(1)]).vms;
    assert !AccountWithin(end, "acct", s.accounts["acct"]);
  }

  lemma NothingUsed()
    ensures forall d: Dimension :: Used(TwoStoppedVms().vms, "acct", d) == 0
  {
    var vms := TwoStoppedVms().vms;
    forall d: Dimension ensures Used(vms, "acct", d) == 0 {
      UsedSplit(vms, "b", "acct", d);
      UsedSplit(vms - {"b"}, "a", "acct", d);
      assert vms - {"b"} - {"a"} == map[];
    }
  }
}
