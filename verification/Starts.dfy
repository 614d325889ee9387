/** Starting a VM: the reservation transaction with its aggregate query, the single retry, and
    what each answer of the agent leaves in the table. */
module Starts {
  import opened Fleet
  import opened Quota
  import Admission

  datatype QuotaError = QuotaExceeded | DbError | Serialization

  datatype Reservation = ReservedOk | Failed(error: QuotaError)

  /** How the database treats a transaction: it lets it commit, or reports a conflict with another
      one, at one of its three statements or at the commit. */
  datatype TxOutcome = Commits | ConflictAtLimits | ConflictAtUsage | ConflictAtUpdate | ConflictAtCommit

  predicate AtStatement(outcome: TxOutcome) {
    outcome.ConflictAtLimits? || outcome.ConflictAtUsage? || outcome.ConflictAtUpdate?
  }

  /** One of two transactions goes through, the second being tried only after a conflict that the
      first one's commit reported. */
  predicate GoesThrough(first: TxOutcome, second: TxOutcome) {
    first == Commits || (first == ConflictAtCommit && second == Commits)
  }

  /** What becomes of the call to the agent. */
  datatype AgentAnswer = NoClient | TransportError | Declined | Accepted

  ghost function UsedTriple(vms: VmTable, account: AccountId): (int, int, int) {
    (Used(vms, account, Vms), Used(vms, account, Vcpus), Used(vms, account, Memory))
  }

  lemma UsedEmpty(account: AccountId)
    ensures UsedTriple(map[], account) == (0, 0, 0)
  {
  }

  lemma Peel(vms: VmTable, done: set<VmId>, id: VmId, account: AccountId, d: Dimension)
    requires id in vms && id !in done
    ensures Used(vms - done, account, d) == Weight(vms[id], account, d) + Used(vms - (done + {id}), account, d)
  {
    UsedSplit(vms - done, id, account, d);
    assert vms - done - {id} == vms - (done + {id});
  }

  /** The aggregate query: sums and count over the account's running and starting rows. */
  method Usage(vms: VmTable, account: AccountId) returns (usedVms: int, usedVcpus: int, usedMem: int)
    ensures (usedVms, usedVcpus, usedMem) == UsedTriple(vms, account)
  {
    usedVms, usedVcpus, usedMem := 0, 0, 0;
    var rest := vms.Keys;
    assert vms - (vms.Keys - rest) == vms;
    while rest != {}
      invariant rest <= vms.Keys
      invariant usedVms + Used(vms - (vms.Keys - rest), account, Vms) == Used(vms, account, Vms)
      invariant usedVcpus + Used(vms - (vms.Keys - rest), account, Vcpus) == Used(vms, account, Vcpus)
      invariant usedMem + Used(vms - (vms.Keys - rest), account, Memory) == Used(vms, account, Memory)
      decreases rest
    {
      var id :| id in rest;
      forall d: Dimension
        ensures Used(vms - (vms.Keys - rest), account, d)
             == Weight(vms[id], account, d) + Used(vms - (vms.Keys - (rest - {id})), account, d)
      {
        Peel(vms, vms.Keys - rest, id, account, d);
        assert vms.Keys - rest + {id} == vms.Keys - (rest - {id});
      }
      var row := vms[id];
      if row.account == account && Active(row.status) {
        usedVms, usedVcpus, usedMem := usedVms + 1, usedVcpus + row.vcpus, usedMem + row.memoryMb;
      }
      rest := rest - {id};
    }
    assert vms - vms.Keys == map[];
    UsedEmpty(account);
  }

  /** What the check says of a request on the table as it is. */
  ghost function Judgement(vms: VmTable, limits: AccountRow, account: AccountId, vcpus: int, mem: int): Verdict {
    Check(limits, Used(vms, account, Vms), Used(vms, account, Vcpus), Used(vms, account, Memory), vcpus, mem)
  }

  ghost predicate Admits(db: Database, account: AccountId, vcpus: int, mem: int)
    reads db
  {
    account in db.accounts && Judgement(db.vms, db.accounts[account], account, vcpus, mem) == Admit
  }

  /** One transaction. It writes 'starting' exactly when the check admits the request and no
      conflict is reported. A conflict is told apart from other database errors exactly when the
      commit reports it. */
  method CheckQuotaAndReserve(db: Database, account: AccountId, id: VmId, vcpus: int, mem: int, outcome: TxOutcome)
    returns (r: Reservation)
    modifies db`vms
    ensures r == ReservedOk <==> old(Admits(db, account, vcpus, mem)) && outcome == Commits
    ensures r == Failed(Serialization) <==> old(Admits(db, account, vcpus, mem)) && outcome == ConflictAtCommit
    ensures old(Admits(db, account, vcpus, mem)) && AtStatement(outcome) ==> r == Failed(DbError)
    ensures db.vms == if r == ReservedOk then SetStatus(old(db.vms), id, Starting) else old(db.vms)
    ensures r == ReservedOk && id in old(db.vms) ==> db.vms == old(db.vms)[id := old(db.vms)[id].(status := Starting)]
    ensures r != ReservedOk || id !in old(db.vms) ==> db.vms == old(db.vms)
  {
    if outcome == ConflictAtLimits {
      return Failed(DbError);
    }
    if account !in db.accounts {
      return Failed(QuotaExceeded);
    }
    var limits := db.accounts[account];
    if outcome == ConflictAtUsage {
      return Failed(DbError);
    }
    var usedVms, usedVcpus, usedMem := Usage(db.vms, account);
    if usedVcpus > I64_MAX || usedMem > I32_MAX {
      return Failed(DbError);
    }
    if usedVms >= limits.vmLimit {
      return Failed(QuotaExceeded);
    }
    if Wrap64(usedVcpus + vcpus) > limits.vcpuLimit {
      return Failed(QuotaExceeded);
    }
    if Wrap32(usedMem + mem) > limits.memLimitMb {
      return Failed(QuotaExceeded);
    }
    if outcome == ConflictAtUpdate {
      return Failed(DbError);
    }
    if outcome == ConflictAtCommit {
      return Failed(Serialization);
    }
    db.SetVmStatus(id, Starting);
    r := ReservedOk;
  }

  /** The reservation with its one retry. When the first transaction of an admitted start conflicts
      and a second one would commit, the start reserves exactly if the commit reported the
      conflict. */
  method Reserve(db: Database, account: AccountId, id: VmId, vcpus: int, mem: int, first: TxOutcome, second: TxOutcome)
    returns (ok: bool)
    modifies db`vms
    ensures ok <==> old(Admits(db, account, vcpus, mem)) && GoesThrough(first, second)
    ensures old(Admits(db, account, vcpus, mem)) && first != Commits && second == Commits ==>
      (ok <==> first == ConflictAtCommit)
    ensures db.vms == if ok then SetStatus(old(db.vms), id, Starting) else old(db.vms)
  {
    var r := CheckQuotaAndReserve(db, account, id, vcpus, mem, first);
    if r == Failed(Serialization) {
      r := CheckQuotaAndReserve(db, account, id, vcpus, mem, second);
    }
    ok := r == ReservedOk;
  }

  /** The table after a start that reserved and got this answer. */
  function AfterStart(vms: VmTable, id: VmId, answer: AgentAnswer): VmTable {
    SetStatus(vms, id, if answer == NoClient || answer == Declined then Stopped else Starting)
  }

  /** A failed start of an idle VM gives its reservation back, that is, leaves every account's
      usage in every dimension as it was before, if and only if the call to the agent did not fail
      on the way. Already the account's number of VMs tells the difference. */
  lemma FailedStartGivesBackIff(vms: VmTable, id: VmId, answer: AgentAnswer)
    requires id in vms && !Active(vms[id].status) && answer != Accepted
    ensures (forall a, d: Dimension :: Used(AfterStart(vms, id, answer), a, d) == Used(vms, a, d)) <==> answer != TransportError
    ensures Used(AfterStart(vms, id, answer), vms[id].account, Vms) == Used(vms, vms[id].account, Vms) <==>
      answer != TransportError
  {
    var row := AfterStart(vms, id, answer)[id];
    forall a, d: Dimension
      ensures Used(AfterStart(vms, id, answer), a, d) ==
        Used(vms, a, d) + (if answer == TransportError && a == row.account then Amount(row, d) else 0)
    {
      UsedAfterWrite(vms, id, row, a, d);
    }
    if answer == TransportError {
      assert Used(AfterStart(vms, id, answer), row.account, Vms) == Used(vms, row.account, Vms) + 1;
    }
  }

  /** A start of a known VM reserves exactly when it fits and one of its transactions goes through.
      A failed one gives the reservation back unless the call itself failed. */
  method StartVm(db: Database, id: VmId, first: TxOutcome, second: TxOutcome, answer: AgentAnswer)
    returns (ok: bool, ghost reserved: bool)
    modifies db`vms
    ensures id !in old(db.vms) ==> !reserved
    ensures id in old(db.vms) ==>
      var vm := old(db.vms)[id];
      reserved == (old(Admits(db, vm.account, vm.vcpus, vm.memoryMb)) && GoesThrough(first, second))
    ensures ok <==> reserved && answer == Accepted
    ensures db.vms == if reserved then AfterStart(old(db.vms), id, answer) else old(db.vms)
    ensures !reserved ==> db.vms == old(db.vms)
    ensures reserved && (answer == NoClient || answer == Declined) ==>
      db.vms == old(db.vms)[id := old(db.vms)[id].(status := Stopped)]
    ensures reserved && (answer == TransportError || answer == Accepted) ==>
      db.vms == old(db.vms)[id := old(db.vms)[id].(status := Starting)]
    ensures reserved && !ok && !Active(old(db.vms)[id].status) ==>
      var account := old(db.vms)[id].account;
      (Used(db.vms, account, Vms) == Used(old(db.vms), account, Vms) <==> answer != TransportError)
  {
    ok, reserved := false, false;
    if id !in db.vms {
      return;
    }
    var vm := db.vms[id];
    var held := Reserve(db, vm.account, id, vm.vcpus, vm.memoryMb, first, second);
    reserved := held;
    if !held {
      return;
    }
    match answer {
      case NoClient => db.SetVmStatus(id, Stopped);
      case TransportError =>
      case Declined => db.SetVmStatus(id, Stopped);
      case Accepted => ok := true;
    }
    if !ok && !Active(vm.status) {
      FailedStartGivesBackIff(old(db.vms), id, answer);
    }
  }

  /** Run alone, the transaction is the Begin and Commit of the interleaved protocol. */
  lemma AloneIsBeginAndCommit(s: Admission.State, op: nat)
    requires op in s.starts && s.starts[op].phase.Requested? && s.starts[op].account in s.accounts
    ensures var t := s.starts[op];
      Admission.Apply(Admission.Apply(s, Admission.Begin(op)), Admission.Commit(op)).vms ==
        if Judgement(s.vms, s.accounts[t.account], t.account, t.vcpus, t.mem) == Admit then SetStatus(s.vms, t.vm, Starting)
        else s.vms
  {
    var s1 := Admission.Apply(s, Admission.Begin(op));
    assert s1.starts[op].phase.InTx? && s1.starts[op].phase.snap == s.vms;
  }

  /** An admitted start on its own, and what the agent's answer leaves in its row: 'stopped' when
      the agent refuses, 'starting' when the call fails or the agent goes on. Of the table no other
      row changes. This is what the start leaves in the table too. */
  lemma AnswersLeave(s: Admission.State, op: nat)
    requires op in s.starts && s.starts[op].phase.Requested? && s.starts[op].account in s.accounts && s.starts[op].vm in s.vms
    requires var t := s.starts[op]; Judgement(s.vms, s.accounts[t.account], t.account, t.vcpus, t.mem) == Admit
    ensures var vm := s.starts[op].vm;
      var reserved := Admission.Apply(Admission.Apply(s, Admission.Begin(op)), Admission.Commit(op));
      && Admission.Apply(reserved, Admission.AgentRefused(op)).vms == s.vms[vm := s.vms[vm].(status := Stopped)]
      && Admission.Apply(reserved, Admission.AgentUnreachable(op)).vms == s.vms[vm := s.vms[vm].(status := Starting)]
      && Admission.Apply(reserved, Admission.AgentDone(op)).vms == s.vms[vm := s.vms[vm].(status := Starting)]
  {
    AloneIsBeginAndCommit(s, op);
    var s1 := Admission.Apply(s, Admission.Begin(op));
    assert s1.starts[op].phase.InTx? && s1.starts[op].phase.snap == s.vms;
  }
}
