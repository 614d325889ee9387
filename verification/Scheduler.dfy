/** Placement: which host a VM lands on. */
module Scheduler {
  import opened Fleet

  const HEARTBEAT_TIMEOUT_SECS := 60

  /** What the scheduler is asked for. */
  datatype Request = Request(vcpus: int, memMb: int, spread: bool, labels: Option<Json>)

  /** Every required key has the required value; requirements that are not an object require
      nothing, and host labels that are not an object satisfy no object requirement. */
  predicate LabelsMatch(labels: Json, required: Option<Json>) {
    required.Some? && required.value.Obj? ==>
      labels.Obj? && forall k :: k in required.value.fields ==>
        k in labels.fields && labels.fields[k] == required.value.fields[k]
  }

  function FreeMem(h: HostRow): int {
    h.memTotalMb - h.memUsedMb
  }

  /** Fresh, large enough, and matching the labels. */
  predicate Feasible(h: HostRow, request: Request, now: int) {
    && now - h.lastSeenAt <= HEARTBEAT_TIMEOUT_SECS
    && h.vcpuTotal - h.vcpuUsed >= request.vcpus
    && FreeMem(h) >= request.memMb
    && LabelsMatch(h.labels, request.labels)
  }

  /** What makes a host feasible, column by column: seen within the last minute, enough vCPUs and
      memory left, and every required label there with its value. */
  lemma FeasibleMeans(h: HostRow, request: Request, now: int)
    ensures Feasible(h, request, now) <==>
      && now - h.lastSeenAt <= 60
      && h.vcpuTotal - h.vcpuUsed >= request.vcpus
      && h.memTotalMb - h.memUsedMb >= request.memMb
      && (request.labels.Some? && request.labels.value.Obj? ==>
            h.labels.Obj? && forall k :: k in request.labels.value.fields ==>
              k in h.labels.fields && h.labels.fields[k] == request.labels.value.fields[k])
  {
  }

  // Stable sorting, as a property of the result.

  function WithKey(hosts: seq<HostRow>, key: int): seq<HostRow> {
    if hosts == [] then []
    else (if FreeMem(hosts[0]) == key then [hosts[0]] else []) + WithKey(hosts[1..], key)
  }

  ghost predicate SortedByFree(hosts: seq<HostRow>) {
    forall i, j :: 0 <= i < j < |hosts| ==> FreeMem(hosts[i]) <= FreeMem(hosts[j])
  }

  /** Sorted, and the hosts of each key are the same hosts in the same order. */
  ghost predicate IsStableSort(hosts: seq<HostRow>, sorted: seq<HostRow>) {
    SortedByFree(sorted) && forall key :: WithKey(sorted, key) == WithKey(hosts, key)
  }

  lemma Regroup<T>(a: seq<T>, b: seq<T>, c: seq<T>)
    ensures a + (b + c) == a + b + c
  {
  }

  lemma {:induction false} WithKeyAppend(a: seq<HostRow>, b: seq<HostRow>, key: int)
    ensures WithKey(a + b, key) == WithKey(a, key) + WithKey(b, key)
  {
    if a == [] {
      assert a + b == b;
    } else {
      var head := if FreeMem(a[0]) == key then [a[0]] else [];
      WithKeyAppend(a[1..], b, key);
      assert (a + b)[1..] == a[1..] + b;
      Regroup(head, WithKey(a[1..], key), WithKey(b, key));
    }
  }

  lemma {:induction false} WithKeyEmpty(hosts: seq<HostRow>, key: int)
    requires forall i :: 0 <= i < |hosts| ==> FreeMem(hosts[i]) != key
    ensures WithKey(hosts, key) == []
  {
    if hosts != [] {
      WithKeyEmpty(hosts[1..], key);
    }
  }

  lemma {:induction false} WithKeyMembers(hosts: seq<HostRow>, key: int)
    ensures forall h :: h in WithKey(hosts, key) <==> h in hosts && FreeMem(h) == key
  {
    if hosts != [] {
      WithKeyMembers(hosts[1..], key);
    }
  }

  lemma WithKeyOne(h: HostRow, key: int)
    ensures WithKey([h], key) == if FreeMem(h) == key then [h] else []
  {
    assert [h][1..] == [];
  }

  lemma SwapWithEmpty<T>(front: seq<T>, one: seq<T>, back: seq<T>)
    requires one == [] || back == []
    ensures front + one + back == front + back + one
  {
  }

  /** Inserting a host behind every host with no more free memory keeps each key's order. */
  lemma InsertKeepsKeys(done: seq<HostRow>, front: seq<HostRow>, back: seq<HostRow>, h: HostRow, key: int)
    requires WithKey(front + back, key) == WithKey(done, key)
    requires forall i :: 0 <= i < |back| ==> FreeMem(back[i]) > FreeMem(h)
    ensures WithKey(front + [h] + back, key) == WithKey(done + [h], key)
  {
    WithKeyAppend(done, [h], key);
    WithKeyAppend(front, back, key);
    WithKeyAppend(front + [h], back, key);
    WithKeyAppend(front, [h], key);
    WithKeyOne(h, key);
    if FreeMem(h) == key {
      WithKeyEmpty(back, key);
    }
    SwapWithEmpty(WithKey(front, key), WithKey([h], key), WithKey(back, key));
  }

  /** Where a host goes: behind every host with no more free memory. */
  method InsertionPoint(sorted: seq<HostRow>, h: HostRow) returns (front: seq<HostRow>, back: seq<HostRow>)
    ensures sorted == front + back
    ensures front != [] ==> FreeMem(front[|front| - 1]) <= FreeMem(h)
    ensures forall i :: 0 <= i < |back| ==> FreeMem(back[i]) > FreeMem(h)
  {
    var p := |sorted|;
    while p > 0 && FreeMem(sorted[p - 1]) > FreeMem(h)
      invariant 0 <= p <= |sorted|
      invariant forall i :: p <= i < |sorted| ==> FreeMem(sorted[i]) > FreeMem(h)
    {
      p := p - 1;
    }
    front, back := sorted[..p], sorted[p..];
  }

  lemma InsertIsStable(done: seq<HostRow>, front: seq<HostRow>, back: seq<HostRow>, h: HostRow)
    requires IsStableSort(done, front + back)
    requires front != [] ==> FreeMem(front[|front| - 1]) <= FreeMem(h)
    requires forall i :: 0 <= i < |back| ==> FreeMem(back[i]) > FreeMem(h)
    ensures IsStableSort(done + [h], front + [h] + back)
  {
    InsertStaysSorted(front, back, h);
    forall key ensures WithKey(front + [h] + back, key) == WithKey(done + [h], key) {
      InsertKeepsKeys(done, front, back, h, key);
    }
  }

  lemma InsertStaysSorted(front: seq<HostRow>, back: seq<HostRow>, h: HostRow)
    requires SortedByFree(front + back)
    requires front != [] ==> FreeMem(front[|front| - 1]) <= FreeMem(h)
    requires forall i :: 0 <= i < |back| ==> FreeMem(back[i]) > FreeMem(h)
    ensures SortedByFree(front + [h] + back)
  {
    var both := front + back;
    var r := front + [h] + back;
    forall i | 0 <= i < |front| ensures FreeMem(front[i]) <= FreeMem(h) {
      assert front[i] == both[i] && front[|front| - 1] == both[|front| - 1];
    }
    forall i, j | 0 <= i < j < |r| ensures FreeMem(r[i]) <= FreeMem(r[j]) {
      assert i < |front| ==> r[i] == both[i];
      assert i > |front| ==> r[i] == both[i - 1];
      assert j < |front| ==> r[j] == both[j];
      assert j > |front| ==> r[j] == both[j - 1];
    }
  }

  /** `sort_by_key` on free memory, which is stable. */
  method SortByFree(hosts: seq<HostRow>) returns (sorted: seq<HostRow>)
    ensures IsStableSort(hosts, sorted)
  {
    sorted := [];
    for n := 0 to |hosts|
      invariant IsStableSort(hosts[..n], sorted)
    {
      var front, back := InsertionPoint(sorted, hosts[n]);
      InsertIsStable(hosts[..n], front, back, hosts[n]);
      sorted := front + [hosts[n]] + back;
      assert hosts[..n + 1] == hosts[..n] + [hosts[n]];
    }
    assert hosts[..|hosts|] == hosts;
  }

  // What the first and the last of a stable sort are.

  /** The first host with the least free memory. */
  ghost predicate IsFirstLeast(hosts: seq<HostRow>, i: int) {
    && 0 <= i < |hosts|
    && (forall j :: 0 <= j < |hosts| ==> FreeMem(hosts[i]) <= FreeMem(hosts[j]))
    && (forall j :: 0 <= j < i ==> FreeMem(hosts[i]) < FreeMem(hosts[j]))
  }

  /** The last host with the most free memory. */
  ghost predicate IsLastMost(hosts: seq<HostRow>, i: int) {
    && 0 <= i < |hosts|
    && (forall j :: 0 <= j < |hosts| ==> FreeMem(hosts[j]) <= FreeMem(hosts[i]))
    && (forall j :: i < j < |hosts| ==> FreeMem(hosts[j]) < FreeMem(hosts[i]))
  }

  lemma {:induction false} FirstWithKey(hosts: seq<HostRow>, key: int)
    requires WithKey(hosts, key) != []
    ensures exists i :: 0 <= i < |hosts| && hosts[i] == WithKey(hosts, key)[0] && FreeMem(hosts[i]) == key
              && forall j :: 0 <= j < i ==> FreeMem(hosts[j]) != key
  {
    if FreeMem(hosts[0]) == key {
      assert hosts[0] == WithKey(hosts, key)[0];
    } else {
      FirstWithKey(hosts[1..], key);
      var i :| 0 <= i < |hosts[1..]| && hosts[1..][i] == WithKey(hosts[1..], key)[0] && FreeMem(hosts[1..][i]) == key
        && forall j :: 0 <= j < i ==> FreeMem(hosts[1..][j]) != key;
      forall j | 0 <= j < i + 1 ensures FreeMem(hosts[j]) != key {
        if j > 0 { assert hosts[j] == hosts[1..][j - 1]; }
      }
      assert hosts[i + 1] == WithKey(hosts, key)[0];
    }
  }

  lemma {:induction false} LastWithKey(hosts: seq<HostRow>, key: int)
    requires WithKey(hosts, key) != []
    ensures var matching := WithKey(hosts, key);
      exists i :: 0 <= i < |hosts| && hosts[i] == matching[|matching| - 1] && FreeMem(hosts[i]) == key
        && forall j :: i < j < |hosts| ==> FreeMem(hosts[j]) != key
  {
    var short := hosts[..|hosts| - 1];
    var last := hosts[|hosts| - 1];
    assert hosts == short + [last];
    WithKeyAppend(short, [last], key);
    if FreeMem(last) == key {
      assert hosts[|hosts| - 1] == WithKey(hosts, key)[|WithKey(hosts, key)| - 1];
    } else {
      LastWithKey(short, key);
      var i :| 0 <= i < |short| && short[i] == WithKey(short, key)[|WithKey(short, key)| - 1] && FreeMem(short[i]) == key
        && forall j :: i < j < |short| ==> FreeMem(short[j]) != key;
      assert hosts[i] == short[i];
      assert forall j :: i < j < |hosts| - 1 ==> FreeMem(hosts[j]) == FreeMem(short[j]);
    }
  }

  lemma SortedHeadIsFirstLeast(hosts: seq<HostRow>, sorted: seq<HostRow>)
    requires IsStableSort(hosts, sorted) && sorted != []
    ensures exists i :: IsFirstLeast(hosts, i) && hosts[i] == sorted[0]
  {
    var key := FreeMem(sorted[0]);
    assert WithKey(sorted, key)[0] == sorted[0];
    FirstWithKey(hosts, key);
    var i :| 0 <= i < |hosts| && hosts[i] == WithKey(hosts, key)[0] && FreeMem(hosts[i]) == key
      && forall j :: 0 <= j < i ==> FreeMem(hosts[j]) != key;
    forall j | 0 <= j < |hosts| ensures key <= FreeMem(hosts[j]) {
      WithKeyMembers(hosts, FreeMem(hosts[j]));
      WithKeyMembers(sorted, FreeMem(hosts[j]));
      assert hosts[j] in sorted;
    }
    assert IsFirstLeast(hosts, i);
  }

  lemma SortedEndIsLastMost(hosts: seq<HostRow>, sorted: seq<HostRow>)
    requires IsStableSort(hosts, sorted) && sorted != []
    ensures exists i :: IsLastMost(hosts, i) && hosts[i] == sorted[|sorted| - 1]
  {
    var last := sorted[|sorted| - 1];
    var key := FreeMem(last);
    assert sorted == sorted[..|sorted| - 1] + [last];
    WithKeyAppend(sorted[..|sorted| - 1], [last], key);
    assert WithKey(sorted, key)[|WithKey(sorted, key)| - 1] == last;
    LastWithKey(hosts, key);
    var i :| 0 <= i < |hosts| && hosts[i] == WithKey(hosts, key)[|WithKey(hosts, key)| - 1] && FreeMem(hosts[i]) == key
      && forall j :: i < j < |hosts| ==> FreeMem(hosts[j]) != key;
    forall j | 0 <= j < |hosts| ensures FreeMem(hosts[j]) <= key {
      WithKeyMembers(hosts, FreeMem(hosts[j]));
      WithKeyMembers(sorted, FreeMem(hosts[j]));
      assert hosts[j] in sorted;
    }
    assert IsLastMost(hosts, i);
  }

  // The selection.

  function Candidates(hosts: seq<HostRow>, request: Request, now: int): (kept: seq<HostRow>)
    ensures forall h :: h in kept <==> h in hosts && Feasible(h, request, now)
  {
    if hosts == [] then []
    else
      Candidates(hosts[..|hosts| - 1], request, now) +
      if Feasible(hosts[|hosts| - 1], request, now) then [hosts[|hosts| - 1]] else []
  }

  function Reversed(s: seq<HostRow>): (r: seq<HostRow>)
    ensures |r| == |s| && (s != [] ==> r[0] == s[|s| - 1])
  {
    if s == [] then [] else [s[|s| - 1]] + Reversed(s[..|s| - 1])
  }

  /** best_fit picks the first candidate in input order with the least free memory, spread the
      last with the most; there is an error exactly when no host is feasible. */
  method SelectFromHosts(hosts: seq<HostRow>, request: Request, now: int) returns (r: Result<HostRow>)
    ensures r.Err? <==> forall h :: h in hosts ==> !Feasible(h, request, now)
    ensures r.Ok? ==> r.value in hosts && Feasible(r.value, request, now)
    ensures r.Ok? && !request.spread ==>
      exists i :: IsFirstLeast(Candidates(hosts, request, now), i) && Candidates(hosts, request, now)[i] == r.value
    ensures r.Ok? && request.spread ==>
      exists i :: IsLastMost(Candidates(hosts, request, now), i) && Candidates(hosts, request, now)[i] == r.value
    ensures r.Ok? ==>
      && now - r.value.lastSeenAt <= 60
      && r.value.vcpuTotal - r.value.vcpuUsed >= request.vcpus && r.value.memTotalMb - r.value.memUsedMb >= request.memMb
  {
    var candidates := [];
    for n := 0 to |hosts|
      invariant candidates == Candidates(hosts[..n], request, now)
    {
      assert hosts[..n + 1][..n] == hosts[..n];
      if Feasible(hosts[n], request, now) {
        candidates := candidates + [hosts[n]];
      }
    }
    assert hosts[..|hosts|] == hosts;
    if candidates == [] {
      return Err("no healthy host with sufficient capacity");
    }
    ghost var all := candidates;
    WithKeyMembers(all, FreeMem(all[0]));
    candidates := SortByFree(candidates);
    WithKeyMembers(candidates, FreeMem(all[0]));
    assert all[0] in candidates;
    SortedHeadIsFirstLeast(all, candidates);
    SortedEndIsLastMost(all, candidates);
    if request.spread {
      candidates := Reversed(candidates);
    }
    r := Ok(candidates[0]);
    assert r.value in all;
  }

  /** The table's hosts that may take the request. */
  predicate Eligible(hosts: map<HostId, HostRow>, h: HostId, request: Request, now: int) {
    h in hosts && hosts[h].status == HostActive && Feasible(hosts[h], request, now)
  }

  /** An eligible host that the strategy prefers to no other eligible one: with spread it has
      the most free memory, otherwise the least. */
  ghost predicate Preferred(hosts: map<HostId, HostRow>, h: HostId, request: Request, now: int) {
    && Eligible(hosts, h, request, now)
    && forall g :: Eligible(hosts, g, request, now) ==>
      if request.spread then FreeMem(hosts[g]) <= FreeMem(hosts[h]) else FreeMem(hosts[h]) <= FreeMem(hosts[g])
  }

  /** What the selection chose, as a bound on the free memory of every candidate. */
  lemma SelectedIsExtreme(hosts: seq<HostRow>, request: Request, now: int, chosen: HostRow, h: HostRow)
    requires h in Candidates(hosts, request, now)
    requires !request.spread ==>
      exists i :: IsFirstLeast(Candidates(hosts, request, now), i) && Candidates(hosts, request, now)[i] == chosen
    requires request.spread ==>
      exists i :: IsLastMost(Candidates(hosts, request, now), i) && Candidates(hosts, request, now)[i] == chosen
    ensures if request.spread then FreeMem(h) <= FreeMem(chosen) else FreeMem(chosen) <= FreeMem(h)
  {
    var j :| 0 <= j < |Candidates(hosts, request, now)| && Candidates(hosts, request, now)[j] == h;
  }

  /** The selection over the active hosts of the table, in the order they come. */
  method PickHost(db: Database, request: Request, now: int) returns (r: Result<HostRow>)
    requires db.Valid()
    ensures r.Ok? ==> Preferred(db.hosts, r.value.id, request, now) && db.hosts[r.value.id] == r.value
    ensures r.Err? <==> forall h :: h in db.hosts ==> !Eligible(db.hosts, h, request, now)
    ensures r.Ok? ==>
      && r.value.status == HostActive && now - r.value.lastSeenAt <= 60
      && r.value.vcpuTotal - r.value.vcpuUsed >= request.vcpus && r.value.memTotalMb - r.value.memUsedMb >= request.memMb
  {
    var rows := db.ListActiveHosts();
    r := SelectFromHosts(rows, request, now);
    forall h | Eligible(db.hosts, h, request, now)
      ensures r.Ok? && if request.spread then FreeMem(db.hosts[h]) <= FreeMem(r.value) else FreeMem(r.value) <= FreeMem(db.hosts[h])
    {
      assert db.hosts[h] in rows;
      SelectedIsExtreme(rows, request, now, r.value, db.hosts[h]);
    }
  }

  // Regions.

  /** An explicit region is merged into the required labels when these are absent or an object. */
  function EffectiveLabels(region: Option<string>, required: Option<Json>): Option<Json> {
    if region == None then required
    else if required == None then Some(Obj(map["region" := Str(region.value)]))
    else if required.value.Obj? then Some(Obj(required.value.fields["region" := Str(region.value)]))
    else required
  }

  /** The effective labels force every matching host into the asked region exactly when the
      given labels are absent or an object. Otherwise the region is silently dropped. */
  lemma RegionIsEnforcedIff(region: string, required: Option<Json>)
    ensures (forall labels: Json :: LabelsMatch(labels, EffectiveLabels(Some(region), required)) ==> RegionLabel(labels) == Some(region))
      <==> (required == None || required.value.Obj?)
  {
    if required.Some? && !required.value.Obj? {
      assert LabelsMatch(Null, EffectiveLabels(Some(region), required)) && RegionLabel(Null) == None;
    } else {
      forall labels: Json | LabelsMatch(labels, EffectiveLabels(Some(region), required))
        ensures RegionLabel(labels) == Some(region)
      {
        assert "region" in EffectiveLabels(Some(region), required).value.fields;
      }
    }
  }
}
