/** Renaming the subdomains that end in an account's old username. */
module Usernames {
  import opened Fleet

  predicate UsernameChar(c: char) {
    'a' <= c <= 'z' || 'A' <= c <= 'Z' || '0' <= c <= '9' || c == '-'
  }

  predicate ValidUsername(name: string) {
    3 <= |name| <= 32 && forall i :: 0 <= i < |name| ==> UsernameChar(name[i])
  }

  predicate NoDots(s: string) {
    forall i :: 0 <= i < |s| ==> s[i] != '.'
  }

  lemma ValidUsernameMeans(name: string)
    ensures ValidUsername(name) <==>
      (3 <= |name| <= 32 && forall c :: c in name ==> 'a' <= c <= 'z' || 'A' <= c <= 'Z' || '0' <= c <= '9' || c == '-')
  {
    forall i | 0 <= i < |name| ensures name[i] in name {
    }
    assert ValidUsername(name) ==> forall c :: c in name ==> UsernameChar(c);
  }

  lemma ValidUsernameHasNoDots(name: string)
    requires ValidUsername(name)
    ensures NoDots(name)
  {
    forall i | 0 <= i < |name| ensures name[i] != '.' {
      assert UsernameChar(name[i]);
    }
  }

  /** `strip_suffix(".{owner}")` succeeds. */
  predicate OwnedBy(subdomain: string, owner: string) {
    |subdomain| > |owner| && subdomain[|subdomain| - |owner| - 1..] == "." + owner
  }

  /** The subdomain after the change: the part before the old username, then the new one. */
  function NewName(subdomain: string, old_: string, new_: string): string {
    if OwnedBy(subdomain, old_) then subdomain[..|subdomain| - |old_| - 1] + "." + new_ else subdomain
  }

  lemma NewNameInjective(s: string, t: string, old_: string, new_: string)
    requires OwnedBy(s, old_) && OwnedBy(t, old_) && NewName(s, old_, new_) == NewName(t, old_, new_)
    ensures s == t
  {
    var cut := |s| - |old_| - 1;
    assert |NewName(s, old_, new_)| == cut + 1 + |new_| && |s| == |t|;
    assert s[..cut] == NewName(s, old_, new_)[..cut] == t[..cut];
    assert s == s[..cut] + s[cut..];
    assert t == t[..cut] + t[cut..];
  }

  lemma NewNameIsOwned(s: string, old_: string, new_: string)
    requires OwnedBy(s, old_)
    ensures OwnedBy(NewName(s, old_, new_), new_)
  {
    var cut := |s| - |old_| - 1;
    assert NewName(s, old_, new_)[cut..] == "." + new_;
  }

  lemma OwnedHasDot(s: string, a: string)
    requires OwnedBy(s, a)
    ensures s[|s| - |a| - 1] == '.' && !NoDots(s)
  {
    assert s[|s| - |a| - 1..][0] == ("." + a)[0];
  }

  /** Neither username is the other one behind a dot. */
  predicate Separate(a: string, b: string) {
    a == b || (!OwnedBy(a, b) && !OwnedBy(b, a))
  }

  lemma ShorterOwner(s: string, a: string, b: string)
    requires OwnedBy(s, a) && OwnedBy(s, b) && |b| <= |a|
    ensures a == b || OwnedBy(a, b)
  {
    var tail := s[|s| - |a|..];
    assert tail == s[|s| - |a| - 1..][1..] == ("." + a)[1..] == a;
    if |b| == |a| {
      assert b == ("." + b)[1..] == s[|s| - |b| - 1..][1..];
    } else {
      assert tail[|a| - |b| - 1..] == s[|s| - |b| - 1..];
    }
  }

  /** Two owners of one name are the same, or one is the other behind a dot. */
  lemma OwnersAreNested(s: string, a: string, b: string)
    requires OwnedBy(s, a) && OwnedBy(s, b)
    ensures a == b || !Separate(a, b)
  {
    if |b| <= |a| {
      ShorterOwner(s, a, b);
    } else {
      ShorterOwner(s, b, a);
    }
  }

  /** No new name is one of the old names being replaced. */
  lemma NewNameAvoidsOld(s: string, t: string, old_: string, new_: string)
    requires OwnedBy(s, old_) && OwnedBy(t, old_) && Separate(old_, new_) && old_ != new_
    ensures NewName(s, old_, new_) != t
  {
    NewNameIsOwned(s, old_, new_);
    if NewName(s, old_, new_) == t {
      OwnersAreNested(t, old_, new_);
    }
  }

  /** Without the restriction on dots a new name can be an old one: the change from "x.y" to
      "y" sends "m.x.x.y" to "m.x.y", which the same change sends elsewhere. */
  lemma DottedUsernamesCollide()
    ensures exists s, t, old_, new_ ::
      OwnedBy(s, old_) && OwnedBy(t, old_) && old_ != new_ && s != t && NewName(s, old_, new_) == t
  {
    var s, t := "m.x.x.y", "m.x.y";
    assert s[|s| - 4..] == "." + "x.y" && t[|t| - 4..] == "." + "x.y";
    assert OwnedBy(s, "x.y") && OwnedBy(t, "x.y");
    assert s[..|s| - 4] == "m.x";
    assert NewName(s, "x.y", "y") == t;
  }

  // From here on the renaming is any function on subdomains; what matters of it is `Apart`.

  /** Distinct moved names stay distinct, and no moved name lands on a name that moves. */
  ghost predicate Apart(f: string -> string) {
    && (forall s, t :: f(s) != s && f(t) != t && f(s) == f(t) ==> s == t)
    && (forall s, t :: f(s) != s && f(t) != t ==> f(s) != t)
  }

  function Renaming(old_: string, new_: string): string -> string {
    s => NewName(s, old_, new_)
  }

  lemma SameUsernameChangesNothing(s: string, name: string)
    ensures NewName(s, name, name) == s
  {
    if OwnedBy(s, name) {
      var cut := |s| - |name| - 1;
      assert s == s[..cut] + s[cut..];
      assert NewName(s, name, name) == s[..cut] + ("." + name);
    }
  }

  lemma DotFreeAreSeparate(a: string, b: string)
    requires NoDots(a) && NoDots(b)
    ensures Separate(a, b)
  {
    if OwnedBy(a, b) {
      OwnedHasDot(a, b);
    }
    if OwnedBy(b, a) {
      OwnedHasDot(b, a);
    }
  }

  lemma SeparateRenamingIsApart(old_: string, new_: string)
    requires Separate(old_, new_)
    ensures Apart(Renaming(old_, new_))
  {
    var f := Renaming(old_, new_);
    forall s, t | f(s) != s && f(t) != t ensures (f(s) == f(t) ==> s == t) && f(s) != t {
      SameUsernameChangesNothing(s, old_);
      if f(s) == f(t) {
        NewNameInjective(s, t, old_, new_);
      }
      NewNameAvoidsOld(s, t, old_, new_);
    }
  }

  /** Putting a prefix before a name keeps its owner, and the change keeps the prefix. */
  lemma NewNameBehind(front: string, old_: string, new_: string)
    ensures OwnedBy(front + "." + old_, old_)
    ensures NewName(front + "." + old_, old_, new_) == front + "." + new_
  {
    var s := front + "." + old_;
    assert s[|s| - |old_| - 1..] == "." + old_ && s[..|s| - |old_| - 1] == front;
  }

  lemma OwnedBehind(front: string, name: string, owner: string)
    requires OwnedBy(name, owner)
    ensures OwnedBy(front + "." + name, owner)
  {
    var s := front + "." + name;
    assert s[|s| - |owner| - 1..] == name[|name| - |owner| - 1..];
  }

  /** From nested usernames a name is renamed to another one that is renamed. */
  lemma NestedCollide(old_: string, new_: string) returns (s: string, t: string)
    requires !Separate(old_, new_)
    ensures NewName(s, old_, new_) == t && t != s && NewName(t, old_, new_) != t
  {
    if OwnedBy(old_, new_) {
      var front := "." + old_[..|old_| - |new_| - 1];
      s, t := front + "." + old_, "." + old_;
      NewNameBehind(front, old_, new_);
      NewNameBehind("", old_, new_);
      assert "" + "." + old_ == t && |"" + "." + new_| < |t|;
      assert t == front + "." + new_ by {
        assert old_ == old_[..|old_| - |new_| - 1] + ("." + new_);
      }
    } else {
      s, t := "" + "." + old_, "" + "." + new_;
      NewNameBehind("", old_, new_);
      OwnedBehind("", new_, old_);
      assert |NewName(t, old_, new_)| == |t| - |old_| + |new_|;
    }
  }

  /** The change keeps distinct names distinct and apart from the names it replaces exactly when
      neither username is the other one behind a dot; dot-free ones never are. */
  lemma ApartIffSeparate(old_: string, new_: string)
    ensures Apart(Renaming(old_, new_)) <==> Separate(old_, new_)
    ensures NoDots(old_) && NoDots(new_) ==> Separate(old_, new_)
  {
    if Separate(old_, new_) {
      SeparateRenamingIsApart(old_, new_);
    } else {
      var s, t := NestedCollide(old_, new_);
      var f := Renaming(old_, new_);
      assert f(s) == t && f(s) != s && f(t) != t;
    }
    if NoDots(old_) && NoDots(new_) {
      DotFreeAreSeparate(old_, new_);
    }
  }

  predicate Selected(row: VmRow, account: AccountId, f: string -> string) {
    row.account == account && f(row.subdomain) != row.subdomain
  }

  /** The row after the change. */
  function Moved(row: VmRow, account: AccountId, f: string -> string): VmRow {
    if Selected(row, account, f) then row.(subdomain := f(row.subdomain)) else row
  }

  /** The table after the change. */
  function Renamed(vms: VmTable, account: AccountId, f: string -> string): VmTable {
    map id | id in vms :: Moved(vms[id], account, f)
  }

  /** A new name is already held by a VM that keeps its name. */
  ghost predicate Clash(vms: VmTable, account: AccountId, f: string -> string) {
    exists i, j :: i in vms && j in vms && Selected(vms[i], account, f) && !Selected(vms[j], account, f)
      && f(vms[i].subdomain) == vms[j].subdomain
  }

  /** What the change tells the caller about each VM it renamed. */
  datatype RenamedSubdomain = RenamedSubdomain(vmId: VmId, oldSubdomain: string, newSubdomain: string)

  predicate Describes(entry: RenamedSubdomain, row: VmRow, account: AccountId, f: string -> string) {
    Selected(row, account, f) && entry.oldSubdomain == row.subdomain && entry.newSubdomain == f(row.subdomain)
  }

  predicate Mentions(renamed: seq<RenamedSubdomain>, id: VmId) {
    exists k :: 0 <= k < |renamed| && renamed[k].vmId == id
  }

  /** The list has one entry for each renamed VM among `ids` and no other. */
  ghost predicate ListsRenamed(vms: VmTable, ids: set<VmId>, account: AccountId, f: string -> string,
                               renamed: seq<RenamedSubdomain>)
  {
    && (forall k, l :: 0 <= k < l < |renamed| ==> renamed[k].vmId != renamed[l].vmId)
    && (forall e :: e in renamed ==> e.vmId in vms && Describes(e, vms[e.vmId], account, f))
    && (forall id :: id in ids && id in vms && Selected(vms[id], account, f) ==> Mentions(renamed, id))
  }

  /** The change keeps names unique exactly when no new name clashes with a kept one. */
  lemma RenamedUniqueIff(vms: VmTable, account: AccountId, f: string -> string)
    requires UniqueSubdomains(vms) && Apart(f)
    ensures UniqueSubdomains(Renamed(vms, account, f)) <==> !Clash(vms, account, f)
  {
    var after := Renamed(vms, account, f);
    if Clash(vms, account, f) {
      var i, j :| i in vms && j in vms && Selected(vms[i], account, f) && !Selected(vms[j], account, f)
        && f(vms[i].subdomain) == vms[j].subdomain;
      assert after[i].subdomain == after[j].subdomain && i != j;
    }
  }

  /** The table after the loop has dealt with the rows in `done`. */
  function Partial(vms: VmTable, account: AccountId, f: string -> string, done: seq<VmId>): VmTable {
    map id | id in vms :: if id in done then Moved(vms[id], account, f) else vms[id]
  }

  /** The list after the loop has dealt with the rows in `done`. */
  function Entries(vms: VmTable, account: AccountId, f: string -> string, done: seq<VmId>): (renamed: seq<RenamedSubdomain>)
    requires forall id :: id in done ==> id in vms
    ensures forall k :: 0 <= k < |renamed| ==> renamed[k].vmId in done
  {
    if done == [] then []
    else
      var id := done[|done| - 1];
      Entries(vms, account, f, done[..|done| - 1]) +
      if Selected(vms[id], account, f) then [RenamedSubdomain(id, vms[id].subdomain, f(vms[id].subdomain))] else []
  }

  lemma MentionsAppend(a: seq<RenamedSubdomain>, b: seq<RenamedSubdomain>, id: VmId)
    ensures Mentions(a + b, id) <==> Mentions(a, id) || Mentions(b, id)
  {
    if Mentions(a, id) {
      var k :| 0 <= k < |a| && a[k].vmId == id;
      assert (a + b)[k].vmId == id;
    }
    if Mentions(b, id) {
      var k :| 0 <= k < |b| && b[k].vmId == id;
      assert (a + b)[|a| + k].vmId == id;
    }
  }

  lemma {:induction false} EntriesMention(vms: VmTable, account: AccountId, f: string -> string, done: seq<VmId>, id: VmId)
    requires forall x :: x in done ==> x in vms
    requires id in done && Selected(vms[id], account, f)
    ensures Mentions(Entries(vms, account, f, done), id)
  {
    var short := done[..|done| - 1];
    var last := done[|done| - 1];
    var tail := if Selected(vms[last], account, f)
                then [RenamedSubdomain(last, vms[last].subdomain, f(vms[last].subdomain))] else [];
    MentionsAppend(Entries(vms, account, f, short), tail, id);
    if id == last {
      assert tail[0].vmId == id;
    } else {
      EntriesMention(vms, account, f, short, id);
    }
  }

  lemma {:induction false} EntriesDescribe(vms: VmTable, account: AccountId, f: string -> string, done: seq<VmId>)
    requires NoDuplicates(done) && forall id :: id in done ==> id in vms
    ensures var renamed := Entries(vms, account, f, done);
      && (forall k, l :: 0 <= k < l < |renamed| ==> renamed[k].vmId != renamed[l].vmId)
      && (forall e :: e in renamed ==> e.vmId in vms && Describes(e, vms[e.vmId], account, f))
  {
    if done != [] {
      EntriesDescribe(vms, account, f, done[..|done| - 1]);
      assert done[|done| - 1] !in done[..|done| - 1];
    }
  }

  lemma EntriesListRenamed(vms: VmTable, account: AccountId, f: string -> string, done: seq<VmId>)
    requires NoDuplicates(done) && forall id :: id in done ==> id in vms
    ensures ListsRenamed(vms, (set id | id in done), account, f, Entries(vms, account, f, done))
  {
    EntriesDescribe(vms, account, f, done);
    forall id | id in done && Selected(vms[id], account, f) ensures Mentions(Entries(vms, account, f, done), id) {
      EntriesMention(vms, account, f, done, id);
    }
  }

  /** What the table and the list become when the loop deals with its n-th row. */
  lemma LoopStep(vms: VmTable, account: AccountId, f: string -> string, ids: seq<VmId>, n: nat)
    requires n < |ids| && NoDuplicates(ids) && forall id :: id in ids ==> id in vms
    ensures Partial(vms, account, f, ids[..n])[ids[n]] == vms[ids[n]]
    ensures Partial(vms, account, f, ids[..n + 1])
         == Partial(vms, account, f, ids[..n])[ids[n] := Moved(vms[ids[n]], account, f)]
    ensures forall id :: id in ids[..n] ==> id in vms
    ensures Entries(vms, account, f, ids[..n + 1]) == Entries(vms, account, f, ids[..n]) +
      if Selected(vms[ids[n]], account, f)
      then [RenamedSubdomain(ids[n], vms[ids[n]].subdomain, f(vms[ids[n]].subdomain))] else []
  {
    assert ids[..n + 1][..n] == ids[..n] && ids[..n + 1] == ids[..n] + [ids[n]];
    assert ids[n] !in ids[..n];
  }

  /** Writing one row whose name no other row holds keeps the names unique. */
  lemma FreeNameKeepsUnique(vms: VmTable, id: VmId, row: VmRow)
    requires UniqueSubdomains(vms) && forall j :: j in vms && j != id ==> vms[j].subdomain != row.subdomain
    ensures UniqueSubdomains(vms[id := row])
  {
  }

  /** A refused UPDATE half-way through the loop betrays a clash of the original table. */
  lemma ClashFound(vms: VmTable, account: AccountId, f: string -> string, done: seq<VmId>, id: VmId)
    requires id in vms && Selected(vms[id], account, f)
    requires exists j :: j in vms && j != id && Partial(vms, account, f, done)[j].subdomain == f(vms[id].subdomain)
    ensures UniqueSubdomains(vms) && Apart(f) ==> Clash(vms, account, f)
  {
    var j :| j in vms && j != id && Partial(vms, account, f, done)[j].subdomain == f(vms[id].subdomain);
    assert UniqueSubdomains(vms) && Apart(f) ==> !Selected(vms[j], account, f);
  }

  /** One UPDATE of the subdomain column inside the transaction. */
  method RenameRow(vms: VmTable, id: VmId, subdomain: string) returns (ok: bool, tx: VmTable)
    requires id in vms
    ensures ok <==> forall j :: j in vms && j != id ==> vms[j].subdomain != subdomain
    ensures ok ==> tx == vms[id := vms[id].(subdomain := subdomain)]
    ensures ok && UniqueSubdomains(vms) ==> UniqueSubdomains(tx)
  {
    ok := forall j | j in vms :: j != id ==> vms[j].subdomain != subdomain;
    tx := vms[id := vms[id].(subdomain := subdomain)];
    if ok && UniqueSubdomains(vms) {
      FreeNameKeepsUnique(vms, id, vms[id].(subdomain := subdomain));
    }
  }

  /** The loop of the transaction: one UPDATE per subdomain that changes, in the order the
      rows were fetched; the first violated UNIQUE constraint ends it. */
  method RenameRows(vms: VmTable, ids: seq<VmId>, account: AccountId, f: string -> string)
    returns (ok: bool, tx: VmTable, renamed: seq<RenamedSubdomain>)
    requires NoDuplicates(ids) && forall id :: id in ids ==> id in vms && vms[id].account == account
    ensures ok ==> tx == Partial(vms, account, f, ids) && renamed == Entries(vms, account, f, ids)
    ensures ok && UniqueSubdomains(vms) ==> UniqueSubdomains(tx)
    ensures !ok && Apart(f) && UniqueSubdomains(vms) ==> Clash(vms, account, f)
  {
    ok, tx, renamed := true, vms, [];
    for n := 0 to |ids|
      invariant ok && tx == Partial(vms, account, f, ids[..n])
      invariant renamed == Entries(vms, account, f, ids[..n])
      invariant UniqueSubdomains(vms) ==> UniqueSubdomains(tx)
    {
      var id := ids[n];
      LoopStep(vms, account, f, ids, n);
      var oldSub := tx[id].subdomain;
      if f(oldSub) != oldSub {
        ghost var before := tx;
        ok, tx := RenameRow(tx, id, f(oldSub));
        if !ok {
          ClashFound(vms, account, f, ids[..n], id);
          return;
        }
        renamed := renamed + [RenamedSubdomain(id, oldSub, f(oldSub))];
      }
    }
    assert ids[..|ids|] == ids;
  }

  predicate UsernameTaken(accounts: map<AccountId, AccountRow>, account: AccountId, name: string) {
    account in accounts && exists a :: a in accounts && a != account && accounts[a].username == name
  }

  function SetUsername(accounts: map<AccountId, AccountRow>, account: AccountId, name: string): map<AccountId, AccountRow> {
    if account in accounts then accounts[account := accounts[account].(username := name)] else accounts
  }

  // What a change of username means for names written out.

  /** A front, a dot and the owner: exactly the names that the owner owns. */
  lemma OwnedIsBehind(s: string, owner: string)
    requires OwnedBy(s, owner)
    ensures s == s[..|s| - |owner| - 1] + "." + owner
  {
    var cut := |s| - |owner| - 1;
    assert s == s[..cut] + s[cut..];
    assert s[..cut] + ("." + owner) == s[..cut] + "." + owner;
  }

  lemma RenamedMeans(vms: VmTable, account: AccountId, old_: string, new_: string)
    ensures var after := Renamed(vms, account, Renaming(old_, new_));
      && after.Keys == vms.Keys
      && (forall id, front :: id in vms && vms[id].account == account && vms[id].subdomain == front + "." + old_ ==>
            after[id] == vms[id].(subdomain := front + "." + new_))
      && (forall id :: id in vms && (vms[id].account != account || forall front :: vms[id].subdomain != front + "." + old_) ==>
            after[id] == vms[id])
  {
    var after := Renamed(vms, account, Renaming(old_, new_));
    forall id, front | id in vms && vms[id].account == account && vms[id].subdomain == front + "." + old_
      ensures after[id] == vms[id].(subdomain := front + "." + new_)
    {
      NewNameBehind(front, old_, new_);
    }
    forall id | id in vms && (vms[id].account != account || forall front :: vms[id].subdomain != front + "." + old_)
      ensures after[id] == vms[id]
    {
      if OwnedBy(vms[id].subdomain, old_) {
        OwnedIsBehind(vms[id].subdomain, old_);
      }
    }
  }

  /** No VM holds the new name of one of the account's. */
  ghost predicate NewNamesFree(vms: VmTable, account: AccountId, old_: string, new_: string) {
    forall front, i, j :: i in vms && j in vms && vms[i].account == account && vms[i].subdomain == front + "." + old_ ==>
      vms[j].subdomain != front + "." + new_
  }

  lemma ClashMeans(vms: VmTable, account: AccountId, old_: string, new_: string)
    requires Separate(old_, new_) && old_ != new_
    ensures Clash(vms, account, Renaming(old_, new_)) <==> !NewNamesFree(vms, account, old_, new_)
  {
    var f := Renaming(old_, new_);
    if Clash(vms, account, f) {
      var i, j :| i in vms && j in vms && Selected(vms[i], account, f) && !Selected(vms[j], account, f)
        && f(vms[i].subdomain) == vms[j].subdomain;
      var s := vms[i].subdomain;
      OwnedIsBehind(s, old_);
      NewNameBehind(s[..|s| - |old_| - 1], old_, new_);
    }
    if !NewNamesFree(vms, account, old_, new_) {
      var front, i, j :| i in vms && j in vms && vms[i].account == account && vms[i].subdomain == front + "." + old_
        && vms[j].subdomain == front + "." + new_;
      NewNameBehind(front, old_, new_);
      ChangedIsOther(front, old_, new_);
      if OwnedBy(vms[j].subdomain, old_) {
        NewNameAvoidsOld(vms[i].subdomain, vms[j].subdomain, old_, new_);
      }
      assert Selected(vms[i], account, f) && !Selected(vms[j], account, f);
    }
  }

  lemma ChangedIsOther(front: string, old_: string, new_: string)
    requires old_ != new_
    ensures front + "." + old_ != front + "." + new_
  {
    assert old_ == (front + "." + old_)[|front| + 1..];
    assert new_ == (front + "." + new_)[|front| + 1..];
  }

  /** The list names each VM whose subdomain changed once, with both subdomains. */
  ghost predicate ListsChanges(vms: VmTable, after: VmTable, renamed: seq<RenamedSubdomain>)
    requires after.Keys == vms.Keys
  {
    && (forall k, l :: 0 <= k < l < |renamed| ==> renamed[k].vmId != renamed[l].vmId)
    && (forall e :: e in renamed ==>
          e.vmId in vms && e.oldSubdomain == vms[e.vmId].subdomain && e.newSubdomain == after[e.vmId].subdomain != e.oldSubdomain)
    && (forall id :: id in vms && after[id].subdomain != vms[id].subdomain ==> Mentions(renamed, id))
  }

  /** The transaction: the username, then the subdomains. A violated UNIQUE constraint rolls
      everything back, which with separate usernames happens exactly when the username is
      taken or a new subdomain clashes with one that stays. */
  method RenameAll(db: Database, account: AccountId, old_: string, new_: string)
    returns (ok: bool, renamed: seq<RenamedSubdomain>)
    modifies db`vms, db`accounts
    ensures !ok ==> db.vms == old(db.vms) && db.accounts == old(db.accounts) && renamed == []
    ensures ok ==> db.vms == Renamed(old(db.vms), account, Renaming(old_, new_))
    ensures ok ==> ListsRenamed(old(db.vms), old(db.vms).Keys, account, Renaming(old_, new_), renamed)
    ensures ok ==> db.accounts == SetUsername(old(db.accounts), account, new_)
    ensures ok && UniqueSubdomains(old(db.vms)) ==> UniqueSubdomains(db.vms)
    ensures Separate(old_, new_) && UniqueSubdomains(old(db.vms)) ==>
      (ok <==> !Clash(old(db.vms), account, Renaming(old_, new_)) && !UsernameTaken(old(db.accounts), account, new_))
  {
    ok, renamed := !UsernameTaken(db.accounts, account, new_), [];
    if !ok {
      return;
    }
    ghost var before := db.vms;
    var f := Renaming(old_, new_);
    var ids := Select(IdsOfAccount(db.vms, account));
    var tx, entries;
    ok, tx, entries := RenameRows(db.vms, ids, account, f);
    if Separate(old_, new_) && UniqueSubdomains(before) {
      ApartIffSeparate(old_, new_);
      RenamedUniqueIff(before, account, f);
    }
    if !ok {
      return;
    }
    EntriesListRenamed(before, account, f, ids);
    assert tx == Renamed(before, account, f);
    renamed := entries;
    db.vms := tx;
    db.accounts := SetUsername(db.accounts, account, new_);
  }

  /** The transaction, said of the names themselves: the account's subdomains that are a front
      before ".old" get the front before ".new", and no other row changes. */
  method UpdateUsername(db: Database, account: AccountId, old_: string, new_: string)
    returns (ok: bool, renamed: seq<RenamedSubdomain>)
    modifies db`vms, db`accounts
    ensures !ok ==> db.vms == old(db.vms) && db.accounts == old(db.accounts) && renamed == []
    ensures ok ==> db.vms == Renamed(old(db.vms), account, Renaming(old_, new_))
    ensures ok ==> ListsRenamed(old(db.vms), old(db.vms).Keys, account, Renaming(old_, new_), renamed)
    ensures ok ==> db.accounts == SetUsername(old(db.accounts), account, new_)
    ensures ok && UniqueSubdomains(old(db.vms)) ==> UniqueSubdomains(db.vms)
    ensures Separate(old_, new_) && UniqueSubdomains(old(db.vms)) ==>
      (ok <==> !Clash(old(db.vms), account, Renaming(old_, new_)) && !UsernameTaken(old(db.accounts), account, new_))
    // The rows.
    ensures db.vms.Keys == old(db.vms).Keys
    ensures ok ==> forall id, front ::
      id in db.vms && old(db.vms)[id].account == account && old(db.vms)[id].subdomain == front + "." + old_ ==>
        db.vms[id] == old(db.vms)[id].(subdomain := front + "." + new_)
    ensures ok ==> forall id ::
      id in db.vms && (old(db.vms)[id].account != account || forall front :: old(db.vms)[id].subdomain != front + "." + old_) ==>
        db.vms[id] == old(db.vms)[id]
    ensures ok ==> ListsChanges(old(db.vms), db.vms, renamed)
    ensures ok && account in old(db.accounts) ==>
      db.accounts == old(db.accounts)[account := old(db.accounts)[account].(username := new_)]
    ensures account !in old(db.accounts) ==> db.accounts == old(db.accounts)
    // The refusals.
    ensures Separate(old_, new_) && UniqueSubdomains(old(db.vms)) ==>
      (ok <==>
       && (old_ == new_ || NewNamesFree(old(db.vms), account, old_, new_))
       && (account in old(db.accounts) ==>
             forall a :: a in old(db.accounts) && a != account ==> old(db.accounts)[a].username != new_))
  {
    ghost var vms := db.vms;
    ok, renamed := RenameAll(db, account, old_, new_);
    RenamedMeans(vms, account, old_, new_);
    if old_ == new_ {
      forall s ensures NewName(s, old_, new_) == s {
        SameUsernameChangesNothing(s, old_);
      }
    } else if Separate(old_, new_) {
      ClashMeans(vms, account, old_, new_);
    }
  }
}
