/** The watch loops of the event stream: one per host, with a growing pause between attempts. */
module Watcher {
  import opened Fleet

  const MAX_BACKOFF := 30

  // The pauses of one loop.

  function Pow2(k: nat): (p: nat)
    ensures p >= 1
  {
    if k == 0 then 1 else 2 * Pow2(k - 1)
  }

  function NextBackoff(backoff: nat): nat {
    if backoff * 2 < MAX_BACKOFF then backoff * 2 else MAX_BACKOFF
  }

  /** The k-th pause, counted from zero. */
  function Pause(k: nat): nat {
    if Pow2(k) < MAX_BACKOFF then Pow2(k) else MAX_BACKOFF
  }

  /** Only the first pause of a loop is one second: a stream that lasted does not start the pauses
      over. */
  lemma PauseIsOneIff(k: nat)
    ensures Pause(k) == 1 <==> k == 0
  {
    if k > 0 {
      assert Pow2(k) == 2 * Pow2(k - 1);
    }
  }

  lemma PauseStep(k: nat)
    ensures NextBackoff(Pause(k)) == Pause(k + 1)
  {
  }

  /** From the sixth attempt on every pause is thirty seconds. */
  lemma {:induction false} PausesSettle(k: nat)
    requires k >= 5
    ensures Pause(k) == MAX_BACKOFF && Pow2(k) >= 32
  {
    if k > 5 {
      PausesSettle(k - 1);
    } else {
      assert Pow2(5) == 2 * Pow2(4) && Pow2(4) == 2 * Pow2(3) && Pow2(3) == 2 * Pow2(2) && Pow2(2) == 2 * Pow2(1) && Pow2(1) == 2;
    }
  }

  /** One watch loop: `known[k]` says whether the host is still in the table after the k-th
      pause. However long a stream lasted before it ended, the pause is never reset. */
  method WatchLoop(known: seq<bool>) returns (pauses: seq<nat>, ended: bool)
    ensures |pauses| <= |known| && forall k :: 0 <= k < |pauses| ==> pauses[k] == Pause(k)
    ensures pauses != [] ==> pauses[0] == 1
    ensures forall k :: 1 <= k < |pauses| ==> pauses[k] == if 2 * pauses[k - 1] < 30 then 2 * pauses[k - 1] else 30
    ensures ended ==> pauses != [] && !known[|pauses| - 1] && forall k :: 0 <= k < |pauses| - 1 ==> known[k]
    ensures !ended ==> |pauses| == |known| && forall k :: 0 <= k < |known| ==> known[k]
  {
    pauses, ended := [], false;
    var backoff := 1;
    for n := 0 to |known|
      invariant |pauses| == n && backoff == Pause(n)
      invariant forall k :: 0 <= k < n ==> pauses[k] == Pause(k) && known[k]
    {
      pauses := pauses + [backoff];
      PauseStep(n);
      backoff := NextBackoff(backoff);
      if !known[n] {
        return pauses, true;
      }
    }
  }

  // Any number of calls and loops, interleaved.

  /** Where a loop is: requested but not yet spawned, connected, asleep, asking the table, about
      to give up its place, or gone. */
  datatype Phase = Requested | Connected | Asleep | Asking | Leaving | Gone

  /** A loop keeps the address it was spawned with. */
  datatype Loop = Loop(host: HostId, address: string, phase: Phase, pauses: seq<nat>, backoff: nat)

  datatype State = State(watched: set<HostId>, loops: map<nat, Loop>)

  datatype Step =
    | WatchHost(host: HostId, address: string, id: nat)
    | Spawn(id: nat)
    | StreamEnds(id: nat)
    | Wake(id: nat)
    | Ask(id: nat, known: bool)
    | Leave(id: nat)

  predicate In(s: State, id: nat, phase: Phase) {
    id in s.loops && s.loops[id].phase == phase
  }

  function Move(s: State, id: nat, phase: Phase): State
    requires id in s.loops
  {
    s.(loops := s.loops[id := s.loops[id].(phase := phase)])
  }

  /** One atomic step; a step whose guard fails changes nothing. The set is tested and extended
      under its lock, the loop is spawned after the lock is released, and its place is given up
      some time after the table was asked. */
  function Apply(s: State, step: Step): State {
    match step
    case WatchHost(host, address, id) =>
      if host !in s.watched && id !in s.loops
      then State(s.watched + {host}, s.loops[id := Loop(host, address, Requested, [], 1)]) else s
    case Spawn(id) => if In(s, id, Requested) then Move(s, id, Connected) else s
    case StreamEnds(id) => if In(s, id, Connected) then Move(s, id, Asleep) else s
    case Wake(id) =>
      if In(s, id, Asleep)
      then var l := s.loops[id];
        s.(loops := s.loops[id := l.(phase := Asking, pauses := l.pauses + [l.backoff], backoff := NextBackoff(l.backoff))]) else s
    case Ask(id, known) => if In(s, id, Asking) then Move(s, id, if known then Connected else Leaving) else s
    case Leave(id) =>
      if In(s, id, Leaving) then Move(s, id, Gone).(watched := s.watched - {s.loops[id].host}) else s
  }

  function Run(s: State, steps: seq<Step>): State {
    if steps == [] then s else Apply(Run(s, steps[..|steps| - 1]), steps[|steps| - 1])
  }

  predicate Live(s: State, id: nat) {
    id in s.loops && s.loops[id].phase != Gone
  }

  predicate Serves(s: State, id: nat, host: HostId) {
    Live(s, id) && s.loops[id].host == host
  }

  /** A host has a live loop exactly while it is in the set, and never two. */
  ghost predicate OneLoopEach(s: State) {
    && (forall i, j, host :: Serves(s, i, host) && Serves(s, j, host) ==> i == j)
    && (forall host :: host in s.watched <==> exists id :: Serves(s, id, host))
  }

  ghost predicate PausesRight(s: State) {
    forall id :: id in s.loops ==>
      && s.loops[id].backoff == Pause(|s.loops[id].pauses|)
      && forall k :: 0 <= k < |s.loops[id].pauses| ==> s.loops[id].pauses[k] == Pause(k)
  }

  /** A step that keeps who serves whom keeps the correspondence. */
  lemma SameServiceKeeps(s: State, s': State)
    requires OneLoopEach(s) && s'.watched == s.watched
    requires forall id, host :: Serves(s', id, host) <==> Serves(s, id, host)
    ensures OneLoopEach(s')
  {
    forall host ensures host in s'.watched <==> exists id :: Serves(s', id, host) {
      if id :| Serves(s, id, host) {
        assert Serves(s', id, host);
      }
    }
  }

  lemma WatchKeepsOneLoopEach(s: State, host: HostId, address: string, id: nat)
    requires OneLoopEach(s)
    ensures OneLoopEach(Apply(s, WatchHost(host, address, id)))
  {
    var s' := Apply(s, WatchHost(host, address, id));
    if s' != s {
      assert Serves(s', id, host) && !exists i :: Serves(s, i, host);
      forall i, h | i != id ensures Serves(s', i, h) <==> Serves(s, i, h) {}
      forall h ensures h in s'.watched <==> exists i :: Serves(s', i, h) {
        if i :| Serves(s, i, h) {
          assert Serves(s', i, h);
        }
      }
    }
  }

  lemma LeaveKeepsOneLoopEach(s: State, id: nat)
    requires OneLoopEach(s) && In(s, id, Leaving)
    ensures OneLoopEach(Apply(s, Leave(id)))
  {
    var s' := Apply(s, Leave(id));
    var host := s.loops[id].host;
    assert Serves(s, id, host);
    forall i, h ensures Serves(s', i, h) <==> Serves(s, i, h) && i != id {}
    forall h ensures h in s'.watched <==> exists i :: Serves(s', i, h) {
      if i :| Serves(s, i, h) && h != host {
        assert Serves(s', i, h);
      }
    }
  }

  lemma StepKeepsOneLoopEach(s: State, step: Step)
    requires OneLoopEach(s)
    ensures OneLoopEach(Apply(s, step))
  {
    match step
    case WatchHost(host, address, id) => WatchKeepsOneLoopEach(s, host, address, id);
    case Leave(id) => if In(s, id, Leaving) { LeaveKeepsOneLoopEach(s, id); }
    case _ => SameServiceKeeps(s, Apply(s, step));
  }

  lemma StepKeepsPauses(s: State, step: Step)
    requires PausesRight(s)
    ensures PausesRight(Apply(s, step))
  {
    if step.Wake? && In(s, step.id, Asleep) {
      PauseStep(|s.loops[step.id].pauses|);
    }
  }

  /** In every interleaving of calls and loops: at most one live loop per host, live exactly
      while the host is in the set, and the k-th pause of every loop is min(2^k, 30). */
  lemma {:induction false} OneLoopEachInEveryRun(steps: seq<Step>)
    ensures var s := Run(State({}, map[]), steps); OneLoopEach(s) && PausesRight(s)
  {
    if steps != [] {
      OneLoopEachInEveryRun(steps[..|steps| - 1]);
      var s := Run(State({}, map[]), steps[..|steps| - 1]);
      StepKeepsOneLoopEach(s, steps[|steps| - 1]);
      StepKeepsPauses(s, steps[|steps| - 1]);
    }
  }

  /** A host that registers again after its loop found it gone, but before the loop gives up its
      place, is not watched: the call returns at once, and then the loop ends. */
  lemma RegistrationDuringLeavingIsLost(s: State, id: nat, address: string, again: nat)
    requires OneLoopEach(s) && In(s, id, Leaving)
    ensures var host := s.loops[id].host;
      var after := Apply(Apply(s, WatchHost(host, address, again)), Leave(id));
      host !in after.watched && forall i :: !Serves(after, i, host)
  {
    var host := s.loops[id].host;
    assert Serves(s, id, host);
    LeaveKeepsOneLoopEach(s, id);
    forall i ensures !Serves(Apply(s, Leave(id)), i, host) {
      assert host !in Apply(s, Leave(id)).watched;
    }
  }

  // When a registration takes effect.

  ghost predicate HasLeaving(s: State, host: HostId) {
    exists id :: In(s, id, Leaving) && s.loops[id].host == host
  }

  /** In the run no loop of the host finds it gone from the table. */
  ghost predicate NeverFoundGone(s: State, steps: seq<Step>, host: HostId) {
    forall k :: 0 <= k < |steps| && steps[k].Ask? && !steps[k].known ==> !Serves(Run(s, steps[..k]), steps[k].id, host)
  }

  ghost predicate Settled(s: State, host: HostId) {
    host in s.watched && !HasLeaving(s, host)
  }

  lemma StepKeepsSettled(s: State, step: Step, host: HostId)
    requires Settled(s, host)
    requires step.Ask? && !step.known ==> !Serves(s, step.id, host)
    ensures Settled(Apply(s, step), host)
  {
    var s' := Apply(s, step);
    if id :| In(s', id, Leaving) && s'.loops[id].host == host {
      assert (step.Ask? && step.id == id) || In(s, id, Leaving);
    }
  }

  lemma {:induction false} RunKeepsSettled(s: State, steps: seq<Step>, host: HostId)
    requires Settled(s, host) && NeverFoundGone(s, steps, host)
    ensures Settled(Run(s, steps), host)
  {
    if steps != [] {
      var short := steps[..|steps| - 1];
      forall k | 0 <= k < |short| && short[k].Ask? && !short[k].known
        ensures !Serves(Run(s, short[..k]), short[k].id, host)
      {
        assert short[..k] == steps[..k];
      }
      RunKeepsSettled(s, short, host);
      StepKeepsSettled(Run(s, short), steps[|steps| - 1], host);
    }
  }

  /** After a call for the host, it stays watched in every run in which it is not found gone from
      the table, if and only if at the time of the call no loop of the host was leaving. */
  lemma RegistrationHoldsIff(s: State, host: HostId, address: string, again: nat)
    requires again !in s.loops
    ensures var s1 := Apply(s, WatchHost(host, address, again));
      (forall steps :: NeverFoundGone(s1, steps, host) ==> host in Run(s1, steps).watched) <==> !HasLeaving(s, host)
  {
    var s1 := Apply(s, WatchHost(host, address, again));
    if id :| In(s, id, Leaving) && s.loops[id].host == host {
      assert In(s1, id, Leaving) && s1.loops[id].host == host;
      var steps := [Leave(id)];
      assert steps[..0] == [] && Run(s1, steps) == Apply(s1, Leave(id));
      assert NeverFoundGone(s1, steps, host) && host !in Run(s1, steps).watched;
    } else {
      assert Settled(s1, host) by {
        if id :| In(s1, id, Leaving) && s1.loops[id].host == host {
          assert In(s, id, Leaving);
        }
      }
      forall steps | NeverFoundGone(s1, steps, host) ensures host in Run(s1, steps).watched {
        RunKeepsSettled(s1, steps, host);
      }
    }
  }

  // Which address a registration is watched at.

  lemma StepKeepsLoop(s: State, step: Step, id: nat)
    requires id in s.loops
    ensures id in Apply(s, step).loops && Apply(s, step).loops[id].address == s.loops[id].address
  {
  }

  lemma {:induction false} RunKeepsLoop(s: State, steps: seq<Step>, id: nat)
    requires id in s.loops
    ensures id in Run(s, steps).loops && Run(s, steps).loops[id].address == s.loops[id].address
  {
    if steps != [] {
      RunKeepsLoop(s, steps[..|steps| - 1], id);
      StepKeepsLoop(Run(s, steps[..|steps| - 1]), steps[|steps| - 1], id);
    }
  }

  /** The loop connects to this address in every run from here. */
  ghost predicate ConnectsTo(s: State, id: nat, address: string) {
    forall steps :: id in Run(s, steps).loops && Run(s, steps).loops[id].address == address
  }

  ghost predicate ServedAt(s: State, host: HostId, address: string) {
    exists id :: Serves(s, id, host) && ConnectsTo(s, id, address)
  }

  lemma ConnectsToItsOwn(s: State, id: nat)
    requires id in s.loops
    ensures ConnectsTo(s, id, s.loops[id].address)
  {
    forall steps ensures id in Run(s, steps).loops && Run(s, steps).loops[id].address == s.loops[id].address {
      RunKeepsLoop(s, steps, id);
    }
  }

  /** After a call the host is served by a loop that connects to the address of the call if and only
      if the host was not watched before, or was served at this address already. A watched host that
      registers under a new address stays watched at the old one. */
  lemma RegisteredAddressIff(s: State, host: HostId, address: string, again: nat)
    requires again !in s.loops
    ensures ServedAt(Apply(s, WatchHost(host, address, again)), host, address) <==>
      host !in s.watched || ServedAt(s, host, address)
  {
    var s1 := Apply(s, WatchHost(host, address, again));
    if host !in s.watched {
      ConnectsToItsOwn(s1, again);
      assert Serves(s1, again, host);
    } else {
      assert s1 == s;
    }
  }

  /** With one loop a host, which every run keeps, a watched host is served at one address only. */
  lemma ServedAtOneAddress(s: State, host: HostId, address: string, other: string)
    requires OneLoopEach(s) && ServedAt(s, host, address) && ServedAt(s, host, other)
    ensures address == other
  {
    var i :| Serves(s, i, host) && ConnectsTo(s, i, address);
    var j :| Serves(s, j, host) && ConnectsTo(s, j, other);
    assert Run(s, []) == s && i == j;
  }
}
