/** The rings of recent samples, on the agent and in the control plane. */
module Metrics {
  import opened Fleet

  /** The agent keeps 300 samples a VM, the control plane 360. */
  const AGENT_RING := 300
  const CACHE_RING := 360

  datatype Sample = Sample(vm: VmId, timestamp: int)

  type Rings = map<VmId, seq<Sample>>

  function LastN(s: seq<Sample>, n: nat): seq<Sample> {
    if |s| <= n then s else s[|s| - n..]
  }

  function RingOf(rings: Rings, vm: VmId): seq<Sample> {
    if vm in rings then rings[vm] else []
  }

  class MetricsStore {
    const capacity: nat
    var rings: Rings

    constructor OfAgent()
      ensures capacity == 300 && rings == map[]
    {
      capacity := AGENT_RING;
      rings := map[];
    }

    constructor OfControlPlane()
      ensures capacity == 360 && rings == map[]
    {
      capacity := CACHE_RING;
      rings := map[];
    }

    /** The oldest sample makes room once the ring is full. */
    method Push(sample: Sample)
      modifies this
      ensures rings == Pushed(old(rings), capacity, sample)
    {
      var ring := if sample.vm in rings then rings[sample.vm] else [];
      if |ring| >= capacity && |ring| > 0 {
        ring := ring[1..];
      }
      rings := rings[sample.vm := ring + [sample]];
    }

    /** The last `limit` samples of the VM, all of them for 0. */
    method GetSamples(vm: VmId, limit: nat) returns (samples: seq<Sample>)
      ensures samples == if limit == 0 then RingOf(rings, vm) else LastN(RingOf(rings, vm), limit)
    {
      if vm !in rings {
        return [];
      }
      var all := rings[vm];
      if limit == 0 || limit >= |all| {
        samples := all;
      } else {
        samples := all[|all| - limit..];
      }
    }

    /** Only the rings of active VMs are retained. */
    method Evict(active: set<VmId>)
      modifies this
      ensures rings == Retained(old(rings), active)
    {
      rings := map vm | vm in rings && vm in active :: rings[vm];
    }
  }

  /** One sample more, and one less if the ring was full. */
  function Pushed(rings: Rings, capacity: nat, sample: Sample): Rings {
    var ring := RingOf(rings, sample.vm);
    rings[sample.vm := (if |ring| >= capacity && |ring| > 0 then ring[1..] else ring) + [sample]]
  }

  function Retained(rings: Rings, active: set<VmId>): Rings {
    map vm | vm in rings && vm in active :: rings[vm]
  }

  // Runs.

  datatype Event = Pushing(sample: Sample) | Evicting(active: set<VmId>)

  function Apply(rings: Rings, capacity: nat, e: Event): Rings {
    match e
    case Pushing(sample) => Pushed(rings, capacity, sample)
    case Evicting(active) => Retained(rings, active)
  }

  function Run(capacity: nat, events: seq<Event>): Rings {
    if events == [] then map[] else Apply(Run(capacity, events[..|events| - 1]), capacity, events[|events| - 1])
  }

  /** Every sample of the VM since it was last found inactive. */
  function History(events: seq<Event>, vm: VmId): seq<Sample> {
    if events == [] then []
    else
      var before := History(events[..|events| - 1], vm);
      match events[|events| - 1]
      case Pushing(sample) => if sample.vm == vm then before + [sample] else before
      case Evicting(active) => if vm in active then before else []
  }

  lemma LastOfLonger(s: seq<Sample>, x: Sample, capacity: nat)
    requires capacity > 0
    ensures var ring := LastN(s, capacity);
      (if |ring| >= capacity && |ring| > 0 then ring[1..] else ring) + [x] == LastN(s + [x], capacity)
  {
  }

  /** After any pushes and evictions each ring holds exactly the last samples of its VM's
      history, as many as fit, in order; eviction restarts only inactive VMs. */
  lemma {:induction false} RingsHoldTheLastSamples(capacity: nat, events: seq<Event>, vm: VmId)
    requires capacity > 0
    ensures RingOf(Run(capacity, events), vm) == LastN(History(events, vm), capacity)
  {
    if events != [] {
      RingsHoldTheLastSamples(capacity, events[..|events| - 1], vm);
      var last := events[|events| - 1];
      if last.Pushing? && last.sample.vm == vm {
        LastOfLonger(History(events[..|events| - 1], vm), last.sample, capacity);
      }
    }
  }

  /** A reader asking for `limit` samples gets the last of the history, up to the capacity. */
  lemma ReaderSeesTheLastSamples(capacity: nat, events: seq<Event>, vm: VmId, limit: nat)
    requires 0 < limit && 0 < capacity
    ensures LastN(RingOf(Run(capacity, events), vm), limit)
         == LastN(History(events, vm), if limit < capacity then limit else capacity)
  {
    RingsHoldTheLastSamples(capacity, events, vm);
  }
}
