/** The device-id pool of internal/config/device_pool.go: ids, the accounts bound to them, and the rebinding of
    the accounts whose id is removed. */
module DevicePool {

  // eligible is DeviceBindingEligible of the account at the moment of the call.
  datatype Account = Account(identifier: string, deviceID: string, deviceIDType: string, eligible: bool)

  datatype Item = Item(id: string, bound: int)

  datatype Config = Config(items: seq<Item>, accounts: seq<Account>)

  type Trim = string -> string

  const MANUAL := "manual"

  /** Pool ids as NormalizeDeviceIDPool leaves them: distinct, trimmed and not empty. */
  ghost predicate PoolSound(trim: Trim, items: seq<Item>) {
    && (forall i | 0 <= i < |items| :: items[i].id != "" && trim(items[i].id) == items[i].id)
    && (forall i, j | 0 <= i < j < |items| :: items[i].id != items[j].id)
  }

  predicate InPool(items: seq<Item>, id: string) {
    exists i | 0 <= i < |items| :: items[i].id == id
  }

  predicate Holds(trim: Trim, a: Account, id: string) {
    a.eligible && trim(a.deviceID) == id
  }

  /** How many eligible accounts, among the first n, hold the id. */
  function Holders(trim: Trim, accounts: seq<Account>, id: string, n: nat): nat
    requires n <= |accounts|
  {
    if n == 0 then 0 else Holders(trim, accounts, id, n - 1) + (if Holds(trim, accounts[n - 1], id) then 1 else 0)
  }

  function AllHolders(trim: Trim, accounts: seq<Account>, id: string): nat {
    Holders(trim, accounts, id, |accounts|)
  }

  lemma {:induction false} HoldersAfter(trim: Trim, accounts: seq<Account>, i: nat, a: Account, id: string, n: nat)
    requires i < |accounts| && n <= |accounts|
    ensures var before, after := Holders(trim, accounts, id, n), Holders(trim, accounts[i := a], id, n);
      after == if i < n then before - (if Holds(trim, accounts[i], id) then 1 else 0) +
        (if Holds(trim, a, id) then 1 else 0) else before
  {
    if n > 0 {
      HoldersAfter(trim, accounts, i, a, id, n - 1);
    }
  }

  // ---------------------------------------------------------------- counting and choosing

  /** The counts are right for every id of the pool, and only for those. */
  ghost predicate Counted(trim: Trim, items: seq<Item>, accounts: seq<Account>, counts: map<string, nat>, n: nat)
    requires n <= |accounts|
  {
    forall id :: (id in counts <==> InPool(items, id)) &&
      (id in counts ==> counts[id] == Holders(trim, accounts, id, n))
  }

  method ZeroCounts(items: seq<Item>) returns (counts: map<string, nat>)
    ensures forall id :: (id in counts <==> InPool(items, id)) && (id in counts ==> counts[id] == 0)
  {
    counts := map[];
    for i := 0 to |items|
      invariant forall id :: (id in counts <==> InPool(items[..i], id)) && (id in counts ==> counts[id] == 0)
    {
      assert items[..i + 1] == items[..i] + [items[i]];
      OneMoreId(items[..i], items[i]);
      counts := counts[items[i].id := 0];
    }
    assert items[..|items|] == items;
  }

  lemma OneMoreId(items: seq<Item>, item: Item)
    ensures forall id :: InPool(items + [item], id) <==> InPool(items, id) || id == item.id
  {
    forall id ensures InPool(items + [item], id) <==> InPool(items, id) || id == item.id {
      if InPool(items, id) {
        var i :| 0 <= i < |items| && items[i].id == id;
        assert (items + [item])[i].id == id;
      }
      assert (items + [item])[|items|].id == item.id;
    }
  }

  method BindingCounts(trim: Trim, items: seq<Item>, accounts: seq<Account>) returns (counts: map<string, nat>)
    ensures Counted(trim, items, accounts, counts, |accounts|)
  {
    counts := ZeroCounts(items);
    for i := 0 to |accounts|
      invariant Counted(trim, items, accounts, counts, i)
    {
      var id := trim(accounts[i].deviceID);
      if accounts[i].eligible && id in counts {
        counts := counts[id := counts[id] + 1];
      }
    }
  }

  /** The place of the least bound of the first n ids, the earliest on a tie. */
  function Least(items: seq<Item>, counts: map<string, nat>, n: nat): (k: nat)
    requires 0 < n <= |items| && forall i | 0 <= i < |items| :: items[i].id in counts
    ensures k < n && forall i | 0 <= i < n :: counts[items[k].id] <= counts[items[i].id]
    ensures forall i | 0 <= i < k :: counts[items[k].id] < counts[items[i].id]
  {
    if n == 1 then 0
    else
      var k := Least(items, counts, n - 1);
      if counts[items[n - 1].id] < counts[items[k].id] then n - 1 else k
  }

  method LeastBoundFrom(counts: map<string, nat>, items: seq<Item>) returns (best: string, ok: bool)
    requires forall i | 0 <= i < |items| :: items[i].id in counts
    ensures ok <==> items != []
    ensures ok ==> best == items[Least(items, counts, |items|)].id
  {
    if |items| == 0 {
      return "", false;
    }
    best := items[0].id;
    var bestCount := counts[best];
    for i := 1 to |items|
      invariant best == items[Least(items, counts, i)].id && bestCount == counts[best]
    {
      if counts[items[i].id] < bestCount {
        best := items[i].id;
        bestCount := counts[best];
      }
    }
    return best, true;
  }

  // ---------------------------------------------------------------- removing an id

  function ItemFrom(items: seq<Item>, id: string, i: nat): (k: nat)
    requires i <= |items|
    ensures i <= k <= |items| && (k < |items| ==> items[k].id == id) && forall j | i <= j < k :: items[j].id != id
    decreases |items| - i
  {
    if i == |items| || items[i].id == id then i else ItemFrom(items, id, i + 1)
  }

  function Removed(trim: Trim, items: seq<Item>, deviceID: string): seq<Item> {
    var id := trim(deviceID);
    var k := ItemFrom(items, id, 0);
    if id == "" || k == |items| then items else items[..k] + items[k + 1..]
  }

  predicate StandsFirst(items: seq<Item>, id: string, k: nat) {
    k < |items| && items[k].id == id && forall j | 0 <= j < k :: items[j].id != id
  }

  /** The first item of the trimmed id is gone and no other moves; without one, or for a blank id, nothing changes. */
  lemma RemovedIs(trim: Trim, items: seq<Item>, deviceID: string)
    ensures var r, id := Removed(trim, items, deviceID), trim(deviceID);
      && (id == "" || (forall item | item in items :: item.id != id) ==> r == items)
      && (id != "" ==> forall k: nat | StandsFirst(items, id, k) :: r == items[..k] + items[k + 1..])
  {
  }

  /** The accounts that hold the id, in order. */
  function Orphans(trim: Trim, accounts: seq<Account>, deviceID: string, n: nat): (os: seq<nat>)
    requires n <= |accounts|
    ensures forall i | 0 <= i < |os| :: os[i] < n && trim(accounts[os[i]].deviceID) == deviceID
    ensures forall i, j | 0 <= i < j < |os| :: os[i] < os[j]
  {
    if n == 0 then []
    else
      var os := Orphans(trim, accounts, deviceID, n - 1);
      if trim(accounts[n - 1].deviceID) == deviceID then os + [n - 1] else os
  }

  function Orphaned(trim: Trim, a: Account, deviceID: string): Account {
    if trim(a.deviceID) == deviceID then a.(deviceID := "") else a
  }

  function AllOrphaned(trim: Trim, accounts: seq<Account>, deviceID: string): (r: seq<Account>)
    ensures |r| == |accounts| && forall i | 0 <= i < |r| :: r[i] == Orphaned(trim, accounts[i], deviceID)
  {
    seq(|accounts|, i requires 0 <= i < |accounts| => Orphaned(trim, accounts[i], deviceID))
  }

  predicate CountsAll(items: seq<Item>, counts: map<string, nat>) {
    forall i | 0 <= i < |items| :: items[i].id in counts
  }

  /** The accounts, the counts and the ids given out so far. */
  datatype Progress = Progress(accounts: seq<Account>, counts: map<string, nat>, given: set<string>)

  /** One orphan gets the least bound id, if it may hold one and there is one. */
  function Give(items: seq<Item>, p: Progress, i: nat): (q: Progress)
    requires i < |p.accounts| && CountsAll(items, p.counts)
    ensures |q.accounts| == |p.accounts| && q.counts.Keys == p.counts.Keys
  {
    if !p.accounts[i].eligible || items == [] then p
    else
      var id := items[Least(items, p.counts, |items|)].id;
      Progress(p.accounts[i := p.accounts[i].(deviceID := id, deviceIDType := MANUAL)],
               p.counts[id := p.counts[id] + 1], p.given + {id})
  }

  /** The first n orphans in turn. */
  function Rebound(items: seq<Item>, orphans: seq<nat>, p: Progress, n: nat): (r: Progress)
    requires n <= |orphans| && (forall i | 0 <= i < |orphans| :: orphans[i] < |p.accounts|) &&
      CountsAll(items, p.counts)
    ensures |r.accounts| == |p.accounts| && r.counts.Keys == p.counts.Keys
  {
    if n == 0 then p else Give(items, Rebound(items, orphans, p, n - 1), orphans[n - 1])
  }

  function WithBounds(items: seq<Item>, counts: map<string, nat>): (r: seq<Item>)
    requires CountsAll(items, counts)
    ensures |r| == |items| && forall i | 0 <= i < |items| :: r[i] == Item(items[i].id, counts[items[i].id])
  {
    seq(|items|, i requires 0 <= i < |items| => Item(items[i].id, counts[items[i].id]))
  }

  /** An account after reconciliation: without an id unless it is eligible and its id is in the pool. */
  function Reconciled(trim: Trim, items: seq<Item>, a: Account): Account {
    if a.eligible && InPool(items, trim(a.deviceID)) then a.(deviceIDType := MANUAL) else a.(deviceID := "")
  }

  /** After reconciliation an account holds an id of the pool exactly when it is eligible and held it before; it holds
      no other id, keeps the text of the one it holds, and a second reconciliation changes nothing. */
  lemma ReconciledIs(trim: Trim, items: seq<Item>, a: Account)
    requires PoolSound(trim, items) && trim("") == ""
    ensures var b := Reconciled(trim, items, a);
      && b.(deviceID := a.deviceID, deviceIDType := a.deviceIDType) == a
      && (forall id | InPool(items, id) :: trim(b.deviceID) == id <==> a.eligible && trim(a.deviceID) == id)
      && (b.deviceID != "" ==> InPool(items, trim(b.deviceID)) && b.deviceID == a.deviceID)
      && (b.deviceID != "" ==> b.deviceIDType == "manual")
      && (b.deviceID == "" ==> b.deviceIDType == a.deviceIDType)
      && Reconciled(trim, items, b) == b
  {
    assert !InPool(items, "");
  }

  class DeviceConfig {
    const trim: Trim
    var items: seq<Item>
    var accounts: seq<Account>

    constructor (trim: Trim, c: Config)
      ensures this.trim == trim && items == c.items && accounts == c.accounts
    {
      this.trim, items, accounts := trim, c.items, c.accounts;
    }

    method RemoveDeviceID(deviceID: string)
      modifies this`items
      ensures items == Removed(trim, old(items), deviceID)
    {
      var id := trim(deviceID);
      if id == "" {
        return;
      }
      for i := 0 to |items|
        invariant items == old(items) && ItemFrom(items, id, 0) == ItemFrom(items, id, i)
      {
        if items[i].id == id {
          items := items[..i] + items[i + 1..];
          return;
        }
      }
    }

    method DetachHolders(deviceID: string) returns (orphans: seq<nat>)
      modifies this`accounts
      ensures accounts == AllOrphaned(trim, old(accounts), deviceID)
      ensures orphans == Orphans(trim, old(accounts), deviceID, |old(accounts)|)
    {
      orphans := [];
      for i := 0 to |accounts|
        invariant |accounts| == |old(accounts)| && orphans == Orphans(trim, old(accounts), deviceID, i)
        invariant forall j | 0 <= j < |accounts| ::
          accounts[j] == if j < i then Orphaned(trim, old(accounts)[j], deviceID) else old(accounts)[j]
      {
        if trim(accounts[i].deviceID) == deviceID {
          accounts := accounts[i := accounts[i].(deviceID := "")];
          orphans := orphans + [i];
        }
      }
    }

    method ApplyCounts(counts: map<string, nat>)
      requires CountsAll(items, counts)
      modifies this`items
      ensures items == WithBounds(old(items), counts)
    {
      for i := 0 to |items|
        invariant |items| == |old(items)|
        invariant forall j | 0 <= j < |items| ::
          items[j] == if j < i then Item(old(items)[j].id, counts[old(items)[j].id]) else old(items)[j]
      {
        items := items[i := items[i].(bound := counts[items[i].id])];
      }
    }

    method RebindOrphans(orphans: seq<nat>, start: map<string, nat>)
      returns (counts: map<string, nat>, ghost given: set<string>)
      requires (forall i | 0 <= i < |orphans| :: orphans[i] < |accounts|) && CountsAll(items, start)
      modifies this`accounts
      ensures Progress(accounts, counts, given) ==
        Rebound(items, orphans, Progress(old(accounts), start, {}), |orphans|)
    {
      counts, given := start, {};
      for n := 0 to |orphans|
        invariant |accounts| == |old(accounts)| && CountsAll(items, counts)
        invariant Progress(accounts, counts, given) == Rebound(items, orphans, Progress(old(accounts), start, {}), n)
      {
        counts, given := RebindOne(orphans[n], counts, given);
      }
    }

    method RebindOne(i: nat, counts: map<string, nat>, ghost given: set<string>)
      returns (counts': map<string, nat>, ghost given': set<string>)
      requires i < |accounts| && CountsAll(items, counts)
      modifies this`accounts
      ensures Progress(accounts, counts', given') == Give(items, Progress(old(accounts), counts, given), i)
    {
      counts', given' := counts, given;
      if !accounts[i].eligible {
        return;
      }
      var next, ok := LeastBoundFrom(counts, items);
      if !ok {
        return;
      }
      accounts := accounts[i := accounts[i].(deviceID := next, deviceIDType := MANUAL)];
      counts' := counts[next := counts[next] + 1];
      given' := given + {next};
    }

    /** ReconcileDeviceIDBindings: unbinds and counts, in manual mode only. */
    method Reconcile(manualMode: bool)
      requires PoolSound(trim, items) && trim("") == ""
      modifies this
      ensures !manualMode ==> accounts == old(accounts) && items == old(items)
      ensures manualMode ==> |accounts| == |old(accounts)| && |items| == |old(items)|
      ensures manualMode ==>
        forall i | 0 <= i < |accounts| :: accounts[i] == Reconciled(trim, old(items), old(accounts)[i])
      ensures manualMode ==>
        forall i | 0 <= i < |items| :: items[i] == Item(old(items)[i].id, AllHolders(trim, accounts, old(items)[i].id))
    {
      if !manualMode {
        return;
      }
      var counts := ZeroCounts(items);
      for i := 0 to |accounts|
        invariant |accounts| == |old(accounts)| && items == old(items)
        invariant forall j | 0 <= j < |accounts| ::
          accounts[j] == if j < i then Reconciled(trim, items, old(accounts)[j]) else old(accounts)[j]
        invariant Counted(trim, items, accounts, counts, i)
      {
        counts := ReconcileOne(i, counts);
      }
      CountedCountsAll(trim, items, accounts, counts);
      ApplyCounts(counts);
    }

    method ReconcileOne(i: nat, counts: map<string, nat>) returns (counts': map<string, nat>)
      requires i < |accounts| && PoolSound(trim, items) && trim("") == "" && Counted(trim, items, accounts, counts, i)
      modifies this`accounts
      ensures accounts == old(accounts)[i := Reconciled(trim, items, old(accounts)[i])]
      ensures Counted(trim, items, accounts, counts', i + 1)
    {
      var a := accounts[i];
      var id := trim(a.deviceID);
      counts' := counts;
      if a.eligible && id in counts {
        counts' := counts[id := counts[id] + 1];
      }
      accounts := accounts[i := if !a.eligible || id !in counts then a.(deviceID := "")
        else a.(deviceIDType := MANUAL)];
      forall other ensures Holders(trim, accounts, other, i) == Holders(trim, old(accounts), other, i) {
        HoldersAfter(trim, old(accounts), i, accounts[i], other, i);
      }
      forall other | InPool(items, other) ensures other != "" {
      }
    }

    /** RemoveDeviceIDAndRebind, for an id as the pool stores it. */
    method RemoveAndRebind(deviceID: string) returns (left: nat)
      modifies this
      ensures left == |items|
      ensures deviceID == "" ==> items == Removed(trim, old(items), deviceID) && accounts == old(accounts)
      ensures deviceID != "" && PoolSound(trim, old(items)) && trim("") == "" && trim(deviceID) == deviceID ==>
        Moved(trim, Config(old(items), old(accounts)), deviceID, Config(items, accounts))
    {
      RemoveDeviceID(deviceID);
      if deviceID == "" {
        return |items|;
      }
      var orphans := DetachHolders(deviceID);
      var start := BindingCounts(trim, items, accounts);
      CountedCountsAll(trim, items, accounts, start);
      var counts, _ := RebindOrphans(orphans, start);
      ApplyCounts(counts);
      if PoolSound(trim, old(items)) && trim("") == "" && trim(deviceID) == deviceID {
        RebindingIsRight(trim, Config(old(items), old(accounts)), deviceID, start);
      }
      return |items|;
    }
  }

  lemma CountedCountsAll(trim: Trim, items: seq<Item>, accounts: seq<Account>, counts: map<string, nat>)
    requires Counted(trim, items, accounts, counts, |accounts|)
    ensures CountsAll(items, counts)
  {
    forall i | 0 <= i < |items| ensures items[i].id in counts {
      assert InPool(items, items[i].id);
    }
  }

  // ---------------------------------------------------------------- what rebinding achieves

  predicate MovedAccount(trim: Trim, a: Account, deviceID: string, d: Config, i: nat)
    requires i < |d.accounts|
  {
    var b := d.accounts[i];
    if trim(a.deviceID) != deviceID then b == a
    else if a.eligible && d.items != []
      then b == a.(deviceID := b.deviceID, deviceIDType := MANUAL) && InPool(d.items, b.deviceID)
    else b == a.(deviceID := "")
  }

  /** From c, removing the id and rebinding leads to d. */
  ghost predicate Moved(trim: Trim, c: Config, deviceID: string, d: Config) {
    && |d.accounts| == |c.accounts| && |d.items| == |Removed(trim, c.items, deviceID)|
    // the pool is the old one without the id, each id with the exact number of eligible accounts that hold it
    && (forall i | 0 <= i < |d.items| ::
          d.items[i].id == Removed(trim, c.items, deviceID)[i].id && d.items[i].id != deviceID &&
          d.items[i].bound == AllHolders(trim, d.accounts, d.items[i].id))
    // every other account is untouched, every eligible orphan has an id unless none is left, the rest have none
    && (forall i | 0 <= i < |c.accounts| :: MovedAccount(trim, c.accounts[i], deviceID, d, i))
    // an id that received an orphan ends at most one above every other id
    && (forall i, j, k | 0 <= i < |c.accounts| && 0 <= j < |d.items| && 0 <= k < |d.items| ::
          trim(c.accounts[i].deviceID) == deviceID && c.accounts[i].eligible &&
            d.accounts[i].deviceID == d.items[j].id ==>
          d.items[j].bound <= d.items[k].bound + 1)
  }

  lemma RemovedIsSound(trim: Trim, items: seq<Item>, deviceID: string)
    requires PoolSound(trim, items) && deviceID != "" && trim(deviceID) == deviceID
    ensures var r := Removed(trim, items, deviceID); PoolSound(trim, r) && !InPool(r, deviceID)
  {
  }

  /** The counts stay exact, and an id given out is never more than one above any other. */
  ghost predicate Balanced(trim: Trim, items: seq<Item>, p: Progress) {
    && Counted(trim, items, p.accounts, p.counts, |p.accounts|)
    && (forall id, i | id in p.given && id in p.counts && 0 <= i < |items| && items[i].id in p.counts ::
          p.counts[id] <= p.counts[items[i].id] + 1)
  }

  ghost predicate Increasing(orphans: seq<nat>) {
    forall i, j | 0 <= i < j < |orphans| :: orphans[i] < orphans[j]
  }

  /** What the first n steps do to one account. */
  lemma {:induction false} ReboundAt(items: seq<Item>, orphans: seq<nat>, p: Progress, n: nat, j: nat)
    requires n <= |orphans| && (forall i | 0 <= i < |orphans| :: orphans[i] < |p.accounts|) &&
      CountsAll(items, p.counts)
    requires Increasing(orphans) && j < |p.accounts|
    ensures var r, a := Rebound(items, orphans, p, n), p.accounts[j];
      if j in orphans[..n] && a.eligible && items != []
      then r.accounts[j] == a.(deviceID := r.accounts[j].deviceID, deviceIDType := MANUAL) &&
           r.accounts[j].deviceID in r.given && InPool(items, r.accounts[j].deviceID)
      else r.accounts[j] == a
  {
    if n > 0 {
      ReboundAt(items, orphans, p, n - 1, j);
      assert orphans[..n] == orphans[..n - 1] + [orphans[n - 1]];
    }
  }

  lemma NotYetGiven(items: seq<Item>, orphans: seq<nat>, p: Progress, n: nat)
    requires 0 < n <= |orphans| && (forall i | 0 <= i < |orphans| :: orphans[i] < |p.accounts|) &&
      CountsAll(items, p.counts)
    requires Increasing(orphans)
    ensures Rebound(items, orphans, p, n - 1).accounts[orphans[n - 1]] == p.accounts[orphans[n - 1]]
  {
    ReboundAt(items, orphans, p, n - 1, orphans[n - 1]);
    assert orphans[n - 1] !in orphans[..n - 1];
  }

  lemma {:induction false} ReboundIsBalanced(trim: Trim, items: seq<Item>, orphans: seq<nat>, p: Progress, n: nat)
    requires n <= |orphans| && (forall i | 0 <= i < |orphans| :: orphans[i] < |p.accounts|) &&
      CountsAll(items, p.counts)
    requires Increasing(orphans) && PoolSound(trim, items) && trim("") == ""
    requires forall i | 0 <= i < |orphans| :: p.accounts[orphans[i]].deviceID == ""
    requires Balanced(trim, items, p)
    ensures Balanced(trim, items, Rebound(items, orphans, p, n))
  {
    if n > 0 {
      var i := orphans[n - 1];
      ReboundIsBalanced(trim, items, orphans, p, n - 1);
      NotYetGiven(items, orphans, p, n);
      GiveKeepsBalanced(trim, items, Rebound(items, orphans, p, n - 1), i);
    }
  }

  lemma GiveKeepsBalanced(trim: Trim, items: seq<Item>, p: Progress, i: nat)
    requires Balanced(trim, items, p) && CountsAll(items, p.counts) && PoolSound(trim, items) && trim("") == ""
    requires i < |p.accounts| && p.accounts[i].deviceID == ""
    ensures Balanced(trim, items, Give(items, p, i))
  {
    var q := Give(items, p, i);
    if p.accounts[i].eligible && items != [] {
      var id := items[Least(items, p.counts, |items|)].id;
      assert InPool(items, id);
      forall other ensures Holders(trim, q.accounts, other, |q.accounts|) ==
        Holders(trim, p.accounts, other, |p.accounts|) -
          (if Holds(trim, p.accounts[i], other) then 1 else 0) + (if Holds(trim, q.accounts[i], other) then 1 else 0) {
        HoldersAfter(trim, p.accounts, i, q.accounts[i], other, |p.accounts|);
      }
      forall other | InPool(items, other) ensures other != "" {
      }
    }
  }

  lemma {:induction false} OrphansAreHolders(trim: Trim, accounts: seq<Account>, deviceID: string, n: nat, i: nat)
    requires n <= |accounts| && i < |accounts|
    ensures i in Orphans(trim, accounts, deviceID, n) <==> i < n && trim(accounts[i].deviceID) == deviceID
  {
    if n > 0 {
      OrphansAreHolders(trim, accounts, deviceID, n - 1, i);
    }
  }

  ghost predicate StartsRight(trim: Trim, c: Config, deviceID: string, start: map<string, nat>) {
    var pool, detached := Removed(trim, c.items, deviceID), AllOrphaned(trim, c.accounts, deviceID);
    Counted(trim, pool, detached, start, |detached|) && CountsAll(pool, start)
  }

  /** What the method ends with. */
  ghost function Outcome(trim: Trim, c: Config, deviceID: string, start: map<string, nat>): (r: Progress)
    requires StartsRight(trim, c, deviceID, start)
    ensures |r.accounts| == |c.accounts| && CountsAll(Removed(trim, c.items, deviceID), r.counts)
  {
    var orphans := Orphans(trim, c.accounts, deviceID, |c.accounts|);
    Rebound(Removed(trim, c.items, deviceID), orphans, Progress(AllOrphaned(trim, c.accounts, deviceID), start, {}),
      |orphans|)
  }

  lemma RebindingIsRight(trim: Trim, c: Config, deviceID: string, start: map<string, nat>)
    requires PoolSound(trim, c.items) && deviceID != "" && trim("") == "" && trim(deviceID) == deviceID
    requires StartsRight(trim, c, deviceID, start)
    ensures var r := Outcome(trim, c, deviceID, start);
      Moved(trim, c, deviceID, Config(WithBounds(Removed(trim, c.items, deviceID), r.counts), r.accounts))
  {
    var pool, r := Removed(trim, c.items, deviceID), Outcome(trim, c, deviceID, start);
    var d := Config(WithBounds(pool, r.counts), r.accounts);
    OutcomeIsBalanced(trim, c, deviceID, start);
    RemovedIsSound(trim, c.items, deviceID);
    BoundsAreExact(trim, pool, r, deviceID);
    forall i | 0 <= i < |c.accounts|
      ensures MovedAccount(trim, c.accounts[i], deviceID, d, i)
      ensures trim(c.accounts[i].deviceID) == deviceID && c.accounts[i].eligible && d.items != [] ==>
        d.accounts[i].deviceID in r.given
    {
      AccountIsMoved(trim, c, deviceID, start, i);
      SameIds(pool, r.counts);
    }
    forall i, j, k | 0 <= i < |c.accounts| && 0 <= j < |d.items| && 0 <= k < |d.items| &&
        trim(c.accounts[i].deviceID) == deviceID && c.accounts[i].eligible && d.accounts[i].deviceID == d.items[j].id
      ensures d.items[j].bound <= d.items[k].bound + 1
    {
      assert pool[j].id in r.given;
    }
  }

  lemma OutcomeIsBalanced(trim: Trim, c: Config, deviceID: string, start: map<string, nat>)
    requires PoolSound(trim, c.items) && deviceID != "" && trim("") == "" && trim(deviceID) == deviceID
    requires StartsRight(trim, c, deviceID, start)
    ensures Balanced(trim, Removed(trim, c.items, deviceID), Outcome(trim, c, deviceID, start))
  {
    var orphans := Orphans(trim, c.accounts, deviceID, |c.accounts|);
    RemovedIsSound(trim, c.items, deviceID);
    ReboundIsBalanced(trim, Removed(trim, c.items, deviceID), orphans,
      Progress(AllOrphaned(trim, c.accounts, deviceID), start, {}), |orphans|);
  }

  lemma AccountIsMoved(trim: Trim, c: Config, deviceID: string, start: map<string, nat>, i: nat)
    requires StartsRight(trim, c, deviceID, start) && i < |c.accounts|
    ensures var pool, a, r := Removed(trim, c.items, deviceID), c.accounts[i], Outcome(trim, c, deviceID, start);
      var b := r.accounts[i];
      if trim(a.deviceID) != deviceID then b == a
      else if a.eligible && pool != [] then
        b == a.(deviceID := b.deviceID, deviceIDType := MANUAL) && b.deviceID in r.given && InPool(pool, b.deviceID)
      else b == a.(deviceID := "")
  {
    var orphans := Orphans(trim, c.accounts, deviceID, |c.accounts|);
    OrphansAreHolders(trim, c.accounts, deviceID, |c.accounts|, i);
    ReboundAt(Removed(trim, c.items, deviceID), orphans, Progress(AllOrphaned(trim, c.accounts, deviceID), start, {}),
      |orphans|, i);
    assert orphans[..|orphans|] == orphans;
  }

  lemma SameIds(items: seq<Item>, counts: map<string, nat>)
    requires CountsAll(items, counts)
    ensures forall id :: InPool(WithBounds(items, counts), id) <==> InPool(items, id)
  {
    var r := WithBounds(items, counts);
    forall id ensures InPool(r, id) <==> InPool(items, id) {
      if InPool(items, id) {
        var i :| 0 <= i < |items| && items[i].id == id;
        assert r[i].id == id;
      }
    }
  }

  lemma BoundsAreExact(trim: Trim, items: seq<Item>, p: Progress, deviceID: string)
    requires Balanced(trim, items, p) && CountsAll(items, p.counts) && !InPool(items, deviceID)
    ensures var r := WithBounds(items, p.counts);
      forall i | 0 <= i < |r| ::
        r[i].id == items[i].id && r[i].id != deviceID && r[i].bound == AllHolders(trim, p.accounts, r[i].id)
  {
  }

  /** Given with surrounding space, an id leaves the pool but its holders keep it: they hold an id no pool has. */
  lemma PaddedIdLeavesHolders(trim: Trim, c: Config, deviceID: string, i: nat)
    requires PoolSound(trim, c.items) && (forall s :: trim(trim(s)) == trim(s)) && trim(deviceID) != deviceID
    requires i < |c.accounts| && trim(c.accounts[i].deviceID) == trim(deviceID) && trim(deviceID) != ""
    ensures AllOrphaned(trim, c.accounts, deviceID)[i] == c.accounts[i]
    ensures !InPool(Removed(trim, c.items, deviceID), trim(c.accounts[i].deviceID))
    ensures Orphans(trim, c.accounts, deviceID, |c.accounts|) == []
  {
    RemovedIsSound(trim, c.items, trim(deviceID));
    forall j | 0 <= j < |c.accounts| ensures trim(c.accounts[j].deviceID) != deviceID {
      assert trim(trim(c.accounts[j].deviceID)) == trim(c.accounts[j].deviceID);
    }
    NoOrphans(trim, c.accounts, deviceID, |c.accounts|);
  }

  lemma {:induction false} NoOrphans(trim: Trim, accounts: seq<Account>, deviceID: string, n: nat)
    requires n <= |accounts| && forall j | 0 <= j < n :: trim(accounts[j].deviceID) != deviceID
    ensures Orphans(trim, accounts, deviceID, n) == []
  {
    if n > 0 {
      NoOrphans(trim, accounts, deviceID, n - 1);
    }
  }
}
