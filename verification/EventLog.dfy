/** The event log of the VMs and its cursor paging. */
module EventLog {
  import opened Fleet

  datatype EventRow = EventRow(id: int, vm: VmId, event: string)

  /** Ids grow in the order of insertion. */
  ghost predicate Ordered(rows: seq<EventRow>) {
    forall i, j :: 0 <= i < j < |rows| ==> rows[i].id < rows[j].id
  }

  predicate Wanted(row: EventRow, vm: VmId, before: Option<int>) {
    row.vm == vm && (before.Some? ==> row.id < before.value)
  }

  /** `WHERE vm_id = $1 AND id < $2 ORDER BY id DESC`. */
  function Newest(rows: seq<EventRow>, vm: VmId, before: Option<int>): (found: seq<EventRow>) {
    if rows == [] then []
    else
      var last := rows[|rows| - 1];
      (if Wanted(last, vm, before) then [last] else []) + Newest(rows[..|rows| - 1], vm, before)
  }

  ghost predicate NewestFirst(found: seq<EventRow>) {
    forall i, j :: 0 <= i < j < |found| ==> found[i].id > found[j].id
  }

  /** The selected rows are exactly the VM's rows before the cursor, newest first. */
  lemma {:induction false} NewestIsExact(rows: seq<EventRow>, vm: VmId, before: Option<int>)
    requires Ordered(rows)
    ensures forall e :: e in Newest(rows, vm, before) <==> e in rows && Wanted(e, vm, before)
    ensures NewestFirst(Newest(rows, vm, before))
  {
    if rows != [] {
      var short := rows[..|rows| - 1];
      var last := rows[|rows| - 1];
      NewestIsExact(short, vm, before);
      assert forall e :: e in rows <==> e in short || e == last;
      var rest := Newest(short, vm, before);
      forall i | 0 <= i < |rest| ensures rest[i].id < last.id {
        assert rest[i] in rest;
        EarlierIsLess(rows, rest[i]);
      }
    }
  }

  lemma EarlierIsLess(rows: seq<EventRow>, e: EventRow)
    requires Ordered(rows) && rows != [] && e in rows[..|rows| - 1]
    ensures e.id < rows[|rows| - 1].id
  {
    var i :| 0 <= i < |rows| - 1 && rows[..|rows| - 1][i] == e;
    assert rows[i] == e;
  }

  /** The API clamps the page size. */
  function Clamp(limit: int): (n: nat)
    ensures 1 <= n <= 100
  {
    if limit < 1 then 1 else if limit > 100 then 100 else limit
  }

  /** One page: the newest rows before the cursor, at most `limit` of them. */
  function Page(rows: seq<EventRow>, vm: VmId, limit: nat, before: Option<int>): seq<EventRow> {
    var found := Newest(rows, vm, before);
    if |found| <= limit then found else found[..limit]
  }

  /** What a page leaves out is older than all it shows. */
  lemma PageIsNewest(rows: seq<EventRow>, vm: VmId, limit: nat, before: Option<int>)
    requires Ordered(rows)
    ensures forall e :: e in Page(rows, vm, limit, before) ==> e in rows && Wanted(e, vm, before)
    ensures NewestFirst(Page(rows, vm, limit, before))
    ensures var page := Page(rows, vm, limit, before);
      forall e :: e in rows && Wanted(e, vm, before) && e !in page ==> |page| == limit && forall f :: f in page ==> f.id > e.id
  {
    NewestIsExact(rows, vm, before);
    var found, page := Newest(rows, vm, before), Page(rows, vm, limit, before);
    assert forall k :: 0 <= k < |page| ==> page[k] == found[k] && found[k] in page && found[k] in found;
    forall e, f | e in found && e !in page && f in page ensures f.id > e.id {
      var i :| 0 <= i < |found| && found[i] == e;
      var j :| 0 <= j < |page| && page[j] == f;
      assert found[j] == f && |page| <= i;
    }
  }

  /** The table, which grows at its end. */
  class VmEvents {
    var rows: seq<EventRow>
    var nextId: int

    constructor ()
      ensures Valid() && rows == []
    {
      rows, nextId := [], 1;
    }

    ghost predicate Valid() reads this {
      Ordered(rows) && forall e :: e in rows ==> e.id < nextId
    }

    method LogEvent(vm: VmId, event: string)
      requires Valid()
      modifies this
      ensures Valid() && rows == old(rows) + [EventRow(old(nextId), vm, event)]
      ensures Grown(old(rows), rows)
    {
      rows := rows + [EventRow(nextId, vm, event)];
      nextId := nextId + 1;
    }

    method ListVmEvents(vm: VmId, limit: int, before: Option<int>) returns (page: seq<EventRow>)
      requires Valid()
      ensures page == Page(rows, vm, Clamp(limit), before)
      ensures forall e :: e in page ==> e in rows && e.vm == vm && (before.Some? ==> e.id < before.value)
      ensures forall i, j :: 0 <= i < j < |page| ==> page[i].id > page[j].id
      ensures var most := if limit < 1 then 1 else if limit > 100 then 100 else limit;
        && |page| <= most
        && forall e :: e in rows && e.vm == vm && (before.Some? ==> e.id < before.value) && e !in page ==>
          |page| == most && forall f :: f in page ==> f.id > e.id
    {
      NewestIsExact(rows, vm, before);
      page := Page(rows, vm, Clamp(limit), before);
      PageIsNewest(rows, vm, Clamp(limit), before);
    }
  }

  /** A cursor below every row that was added later hides all of them. */
  lemma {:induction false} LaterRowsAreHidden(rows: seq<EventRow>, more: seq<EventRow>, vm: VmId, cursor: int)
    requires forall e :: e in more ==> e.id >= cursor
    ensures Newest(rows + more, vm, Some(cursor)) == Newest(rows, vm, Some(cursor))
  {
    if more == [] {
      assert rows + more == rows;
    } else {
      var all := rows + more;
      assert all[..|all| - 1] == rows + more[..|more| - 1];
      assert all[|all| - 1] == more[|more| - 1] && more[|more| - 1] in more;
      LaterRowsAreHidden(rows, more[..|more| - 1], vm, cursor);
    }
  }

  lemma {:induction false} CursorAboveAll(rows: seq<EventRow>, vm: VmId, before: Option<int>, cursor: int)
    requires forall e :: e in rows ==> e.id < cursor
    requires before.Some? ==> cursor <= before.value
    ensures Newest(rows, vm, Some(cursor)) == Newest(rows, vm, before)
  {
    if rows != [] {
      assert rows[|rows| - 1] in rows;
      CursorAboveAll(rows[..|rows| - 1], vm, before, cursor);
    }
  }

  lemma CursorAtLast(rows: seq<EventRow>, vm: VmId, before: Option<int>)
    requires Ordered(rows) && rows != [] && Wanted(rows[|rows| - 1], vm, before)
    ensures Newest(rows, vm, Some(rows[|rows| - 1].id)) == Newest(rows[..|rows| - 1], vm, before)
  {
    var short := rows[..|rows| - 1];
    var last := rows[|rows| - 1];
    forall e | e in short ensures e.id < last.id {
      EarlierIsLess(rows, e);
    }
    CursorAboveAll(short, vm, before, last.id);
  }

  lemma CursorSkipsLast(rows: seq<EventRow>, vm: VmId, before: Option<int>, e: EventRow)
    requires Ordered(rows) && rows != [] && e in Newest(rows[..|rows| - 1], vm, before)
    ensures Newest(rows, vm, Some(e.id)) == Newest(rows[..|rows| - 1], vm, Some(e.id))
  {
    NewestIsExact(rows[..|rows| - 1], vm, before);
    EarlierIsLess(rows, e);
  }

  /** Paging on from the n-th row found gives the rest. */
  lemma {:induction false} RestAfterCursor(rows: seq<EventRow>, vm: VmId, before: Option<int>, n: nat)
    requires Ordered(rows) && 0 < n <= |Newest(rows, vm, before)|
    ensures Newest(rows, vm, Some(Newest(rows, vm, before)[n - 1].id)) == Newest(rows, vm, before)[n..]
  {
    var short := rows[..|rows| - 1];
    var rest := Newest(short, vm, before);
    if Wanted(rows[|rows| - 1], vm, before) {
      assert Newest(rows, vm, before) == [rows[|rows| - 1]] + rest;
      if n == 1 {
        CursorAtLast(rows, vm, before);
      } else {
        RestAfterCursor(short, vm, before, n - 1);
        CursorSkipsLast(rows, vm, before, rest[n - 2]);
      }
    } else {
      RestAfterCursor(short, vm, before, n);
      CursorSkipsLast(rows, vm, before, rest[n - 1]);
    }
  }

  /** A cursor that some row has. */
  ghost predicate Cursor(rows: seq<EventRow>, before: Option<int>) {
    before.Some? && exists e :: e in rows && e.id == before.value
  }

  /** The page and what lies behind its last row make up everything found. */
  ghost predicate Continues(rows: seq<EventRow>, vm: VmId, before: Option<int>, page: seq<EventRow>)
    requires page != []
  {
    var next := Some(page[|page| - 1].id);
    Cursor(rows, next) && Newest(rows, vm, before) == page + Newest(rows, vm, next)
  }

  lemma PageThenRest(rows: seq<EventRow>, vm: VmId, limit: nat, before: Option<int>)
    requires Ordered(rows) && Page(rows, vm, limit, before) != []
    ensures Continues(rows, vm, before, Page(rows, vm, limit, before))
  {
    var page := Page(rows, vm, limit, before);
    var found := Newest(rows, vm, before);
    RestAfterCursor(rows, vm, before, |page|);
    assert found == found[..|page|] + found[|page|..];
    NewestIsExact(rows, vm, before);
    assert page[|page| - 1] in found;
  }

  // Walking page by page while the log grows.

  ghost predicate Grown(first: seq<EventRow>, later: seq<EventRow>) {
    Ordered(later) && first <= later
  }

  /** Growing twice is growing. */
  lemma GrownAgain(first: seq<EventRow>, mid: seq<EventRow>, later: seq<EventRow>)
    requires Grown(first, mid) && Grown(mid, later)
    ensures Grown(first, later)
  {
  }

  ghost predicate GrowsAt(logs: nat -> seq<EventRow>, k: nat) {
    Grown(logs(k), logs(k + 1))
  }

  /** The log at each read: from one to the next it only grows at its end. */
  ghost predicate Growing(logs: nat -> seq<EventRow>) {
    Ordered(logs(0)) && forall k: nat :: GrowsAt(logs, k)
  }

  /** So at every read the log has grown from what it was at the first. */
  lemma {:induction false} GrownFromFirst(logs: nat -> seq<EventRow>, k: nat)
    requires Growing(logs)
    ensures Grown(logs(0), logs(k))
  {
    if k > 0 {
      GrownFromFirst(logs, k - 1);
      assert GrowsAt(logs, k - 1);
      GrownAgain(logs(0), logs(k - 1), logs(k));
    }
  }

  /** The pages read from the k-th read on, until one is empty. */
  ghost function Walk(logs: nat -> seq<EventRow>, k: nat, vm: VmId, limit: nat, before: Option<int>): seq<EventRow>
    requires Growing(logs) && limit > 0
    requires k > 0 ==> Cursor(logs(0), before)
    decreases |Newest(logs(0), vm, before)|
  {
    var page := Page(logs(k), vm, limit, before);
    if page == [] then []
    else
      NextRead(logs, k, vm, limit, before);
      page + Walk(logs, k + 1, vm, limit, Some(page[|page| - 1].id))
  }

  /** Below a cursor of the first read nothing is ever added. */
  lemma SeenFromStart(rows: seq<EventRow>, all: seq<EventRow>, vm: VmId, before: Option<int>)
    requires Grown(rows, all) && Cursor(rows, before)
    ensures Newest(all, vm, before) == Newest(rows, vm, before)
  {
    var e :| e in rows && e.id == before.value;
    var i :| 0 <= i < |rows| && rows[i] == e;
    var more := all[|rows|..];
    assert all == rows + more;
    forall f | f in more ensures f.id >= e.id {
      var j :| 0 <= j < |more| && more[j] == f;
      assert all[|rows| + j] == f && all[i] == e;
    }
    LaterRowsAreHidden(rows, more, vm, e.id);
  }

  /** So every page is the page of the first read. */
  lemma PageOfFirst(logs: nat -> seq<EventRow>, k: nat, vm: VmId, limit: nat, before: Option<int>)
    requires Growing(logs) && (k > 0 ==> Cursor(logs(0), before))
    ensures Page(logs(k), vm, limit, before) == Page(logs(0), vm, limit, before)
  {
    if k > 0 {
      GrownFromFirst(logs, k);
      SeenFromStart(logs(0), logs(k), vm, before);
    }
  }

  /** The next page starts right behind this one. */
  lemma NextRead(logs: nat -> seq<EventRow>, k: nat, vm: VmId, limit: nat, before: Option<int>)
    requires Growing(logs) && (k > 0 ==> Cursor(logs(0), before))
    requires Page(logs(k), vm, limit, before) != []
    ensures Continues(logs(0), vm, before, Page(logs(k), vm, limit, before))
  {
    PageOfFirst(logs, k, vm, limit, before);
    PageThenRest(logs(0), vm, limit, before);
  }

  lemma {:induction false} WalkFrom(logs: nat -> seq<EventRow>, k: nat, vm: VmId, limit: nat, before: Option<int>)
    requires Growing(logs) && limit > 0 && (k > 0 ==> Cursor(logs(0), before))
    ensures Walk(logs, k, vm, limit, before) == Newest(logs(0), vm, before)
    decreases |Newest(logs(0), vm, before)|
  {
    var page := Page(logs(k), vm, limit, before);
    if page == [] {
      PageOfFirst(logs, k, vm, limit, before);
    } else {
      NextRead(logs, k, vm, limit, before);
      WalkFrom(logs, k + 1, vm, limit, Some(page[|page| - 1].id));
    }
  }

  /** Whatever page size is asked for and whatever is appended between the pages, the walk ends
      and yields each of the VM's events present at the first read exactly once, newest first. */
  lemma WalkYieldsEverythingOnce(logs: nat -> seq<EventRow>, vm: VmId, limit: int)
    requires Growing(logs)
    ensures var seen := Walk(logs, 0, vm, Clamp(limit), None);
      && (forall e :: e in seen <==> e in logs(0) && e.vm == vm)
      && NewestFirst(seen)
  {
    WalkFrom(logs, 0, vm, Clamp(limit), None);
    NewestIsExact(logs(0), vm, None);
  }
}
