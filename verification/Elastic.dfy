/** The elastic account pool of internal/account/elastic.go: which accounts of a pool type are awake. */
module Elastic {

  // poolType is normalised, hard stands for muted, banned or authentication failed.
  datatype Account = Account(identifier: string, poolType: string, priority: int, hard: bool, disabled: bool)

  /** The order of preference: by priority, then by place in the configuration. */
  predicate Precedes(accounts: seq<Account>, i: nat, j: nat)
    requires i < |accounts| && j < |accounts|
  {
    accounts[i].priority > accounts[j].priority || (accounts[i].priority == accounts[j].priority && i < j)
  }

  predicate InRange(accounts: seq<Account>, order: seq<nat>) {
    forall k | 0 <= k < |order| :: order[k] < |accounts|
  }

  ghost predicate Ordered(accounts: seq<Account>, order: seq<nat>) {
    InRange(accounts, order) && forall a, b | 0 <= a < b < |order| :: Precedes(accounts, order[a], order[b])
  }

  /** The accounts of one type, in order of preference. */
  ghost predicate IsOrder(accounts: seq<Account>, poolType: string, order: seq<nat>) {
    Ordered(accounts, order) && forall i | 0 <= i < |accounts| :: i in order <==> accounts[i].poolType == poolType
  }

  // ---------------------------------------------------------------- the stable sort

  function Insert(accounts: seq<Account>, order: seq<nat>, i: nat): seq<nat>
    requires InRange(accounts, order) && i < |accounts|
  {
    if order == [] then [i]
    else if accounts[i].priority > accounts[order[0]].priority then [i] + order
    else [order[0]] + Insert(accounts, order[1..], i)
  }

  lemma {:induction false} InsertKeepsOrder(accounts: seq<Account>, order: seq<nat>, i: nat)
    requires Ordered(accounts, order) && i < |accounts| && forall k | 0 <= k < |order| :: order[k] < i
    ensures var r := Insert(accounts, order, i);
      Ordered(accounts, r) && (forall j :: j in r <==> j in order || j == i)
  {
    if order != [] && accounts[i].priority <= accounts[order[0]].priority {
      InsertKeepsOrder(accounts, order[1..], i);
      var rest := Insert(accounts, order[1..], i);
      assert order == [order[0]] + order[1..];
      forall b | 0 <= b < |rest| ensures Precedes(accounts, order[0], rest[b]) {
        assert rest[b] in rest;
        if rest[b] != i {
          var k :| 0 <= k < |order[1..]| && order[1..][k] == rest[b];
          assert Precedes(accounts, order[0], order[k + 1]);
        }
      }
    }
  }

  method SortedGroup(accounts: array<Account>, poolType: string) returns (order: seq<nat>)
    ensures IsOrder(accounts[..], poolType, order)
  {
    order := [];
    for i := 0 to accounts.Length
      invariant Ordered(accounts[..], order) && (forall k | 0 <= k < |order| :: order[k] < i)
      invariant forall j | 0 <= j < i :: j in order <==> accounts[j].poolType == poolType
    {
      if accounts[i].poolType == poolType {
        InsertKeepsOrder(accounts[..], order, i);
        ghost var before := order;
        order := Insert(accounts[..], order, i);
        assert forall k | 0 <= k < |order| :: order[k] in order;
      }
    }
  }

  // ---------------------------------------------------------------- who is awake

  predicate Busy(busy: set<string>, a: Account) {
    a.identifier in busy
  }

  /** How many of the first n accounts of the order end up awake. */
  function Awake(accounts: seq<Account>, order: seq<nat>, count: nat, busy: set<string>, n: nat): nat
    requires InRange(accounts, order) && n <= |order|
    decreases n, 0
  {
    if n == 0 then 0
    else Awake(accounts, order, count, busy, n - 1) + (if Wakes(accounts, order, count, busy, n - 1) then 1 else 0)
  }

  /** Whether the n-th account of the order ends up awake. It reads no disabled flag. */
  predicate Wakes(accounts: seq<Account>, order: seq<nat>, count: nat, busy: set<string>, n: nat)
    requires InRange(accounts, order) && n < |order|
    decreases n, 1
  {
    var a := accounts[order[n]];
    !a.hard && (Busy(busy, a) || Awake(accounts, order, count, busy, n) < count)
  }

  method ApplyElasticState(accounts: array<Account>, i: nat, enabled: nat, count: nat, busy: set<string>)
    returns (now: nat)
    requires i < accounts.Length
    modifies accounts
    ensures var a := old(accounts[i]);
      var wakes := !a.hard && (Busy(busy, a) || enabled < count);
      accounts[..] == old(accounts[..])[i := a.(disabled := !wakes)] && now == enabled + (if wakes then 1 else 0)
  {
    var a := accounts[i];
    if a.hard {
      accounts[i] := a.(disabled := true);
      return enabled;
    }
    if a.identifier in busy {
      accounts[i] := a.(disabled := false);
      return enabled + 1;
    }
    if enabled < count {
      accounts[i] := a.(disabled := false);
      return enabled + 1;
    }
    accounts[i] := a.(disabled := true);
    return enabled;
  }

  /** Nothing but the disabled flags of the first n accounts of the order has changed, and those are decided. */
  ghost predicate Decided(before: seq<Account>, after: seq<Account>, order: seq<nat>, count: nat, busy: set<string>,
                          n: nat)
    requires InRange(before, order) && n <= |order|
  {
    && |after| == |before|
    && (forall i | 0 <= i < |before| && i !in order[..n] :: after[i] == before[i])
    && (forall k | 0 <= k < n ::
      after[order[k]] == before[order[k]].(disabled := !Wakes(before, order, count, busy, k)))
  }

  method ReconcileGroup(accounts: array<Account>, poolType: string, count: nat, busy: set<string>)
    returns (order: seq<nat>)
    modifies accounts
    ensures IsOrder(old(accounts[..]), poolType, order)
    ensures Decided(old(accounts[..]), accounts[..], order, count, busy, |order|)
  {
    order := SortedGroup(accounts, poolType);
    ghost var before := accounts[..];
    var enabled := 0;
    for n := 0 to |order|
      invariant Decided(before, accounts[..], order, count, busy, n)
      invariant enabled == Awake(before, order, count, busy, n)
    {
      DecideOneMore(before, accounts[..], order, count, busy, n);
      enabled := ApplyElasticState(accounts, order[n], enabled, count, busy);
    }
  }

  lemma DecideOneMore(before: seq<Account>, after: seq<Account>, order: seq<nat>, count: nat, busy: set<string>, n: nat)
    requires Ordered(before, order) && n < |order| && Decided(before, after, order, count, busy, n)
    ensures after[order[n]] == before[order[n]]
    ensures Decided(before, after[order[n] := before[order[n]].(disabled := !Wakes(before, order, count, busy, n))],
      order, count, busy, n + 1)
  {
    EachOnce(before, order, n);
    assert order[..n + 1] == order[..n] + [order[n]];
  }

  lemma EachOnce(accounts: seq<Account>, order: seq<nat>, n: nat)
    requires Ordered(accounts, order) && n < |order|
    ensures order[n] !in order[..n] && forall k | 0 <= k < n :: order[k] != order[n]
  {
    forall k | 0 <= k < n ensures order[k] != order[n] {
      assert Precedes(accounts, order[k], order[n]);
    }
  }

  // ---------------------------------------------------------------- what the decisions amount to

  predicate Eligible(accounts: seq<Account>, busy: set<string>, i: nat)
    requires i < |accounts|
  {
    !accounts[i].hard && !Busy(busy, accounts[i])
  }

  lemma {:induction false} AwakeGrows(accounts: seq<Account>, order: seq<nat>, count: nat, busy: set<string>, m: nat,
                                      n: nat)
    requires InRange(accounts, order) && m <= n <= |order|
    ensures Awake(accounts, order, count, busy, m) <= Awake(accounts, order, count, busy, n)
  {
    if m < n {
      AwakeGrows(accounts, order, count, busy, m, n - 1);
    }
  }

  /** Hard accounts sleep, busy ones stay awake, and the others that are awake are a prefix of the order. */
  lemma AwakeArePrefix(accounts: seq<Account>, order: seq<nat>, count: nat, busy: set<string>, m: nat, n: nat)
    requires InRange(accounts, order) && m <= n < |order|
    ensures accounts[order[n]].hard ==> !Wakes(accounts, order, count, busy, n)
    ensures !accounts[order[n]].hard && Busy(busy, accounts[order[n]]) ==> Wakes(accounts, order, count, busy, n)
    ensures Eligible(accounts, busy, order[m]) && Eligible(accounts, busy, order[n]) ==>
      (Wakes(accounts, order, count, busy, n) ==> Wakes(accounts, order, count, busy, m))
  {
    AwakeGrows(accounts, order, count, busy, m, n);
  }

  /** How many of the first n may be awake at all. */
  function Fit(accounts: seq<Account>, order: seq<nat>, n: nat): nat
    requires InRange(accounts, order) && n <= |order|
  {
    if n == 0 then 0 else Fit(accounts, order, n - 1) + (if accounts[order[n - 1]].hard then 0 else 1)
  }

  function BusyFit(accounts: seq<Account>, order: seq<nat>, busy: set<string>, n: nat): nat
    requires InRange(accounts, order) && n <= |order|
  {
    if n == 0 then 0
    else BusyFit(accounts, order, busy, n - 1) +
         (if !accounts[order[n - 1]].hard && Busy(busy, accounts[order[n - 1]]) then 1 else 0)
  }

  /** The number awake: at least the quota or all that fit, at most the quota and the busy ones; so exactly
      the quota, or all that fit, when nothing is busy. */
  lemma {:induction false} AwakeCount(accounts: seq<Account>, order: seq<nat>, count: nat, busy: set<string>, n: nat)
    requires InRange(accounts, order) && n <= |order|
    ensures var awake, fit, b := Awake(accounts, order, count, busy, n), Fit(accounts, order, n),
      BusyFit(accounts, order, busy, n);
      && b <= awake <= fit && (if count < fit then count else fit) <= awake && awake <= count + b
      && (b == 0 ==> awake == if count < fit then count else fit)
  {
    if n > 0 {
      AwakeCount(accounts, order, count, busy, n - 1);
    }
  }

  ghost predicate SameButFlags(a: seq<Account>, b: seq<Account>) {
    |a| == |b| && forall i | 0 <= i < |a| :: b[i] == a[i].(disabled := b[i].disabled)
  }

  lemma {:induction false} FlagsDoNotMatter(a: seq<Account>, b: seq<Account>, order: seq<nat>, count: nat,
                                            busy: set<string>, n: nat)
    requires SameButFlags(a, b) && InRange(a, order) && InRange(b, order) && n <= |order|
    ensures Awake(a, order, count, busy, n) == Awake(b, order, count, busy, n)
    ensures n < |order| ==> (Wakes(a, order, count, busy, n) <==> Wakes(b, order, count, busy, n))
  {
    if n > 0 {
      FlagsDoNotMatter(a, b, order, count, busy, n - 1);
    }
  }

  /** The order of preference is determined by the accounts, and not by their flags. */
  lemma {:induction false} OrderIsUnique(a: seq<Account>, b: seq<Account>, p: seq<nat>, q: seq<nat>)
    requires SameButFlags(a, b) && Ordered(a, p) && Ordered(b, q) && forall i :: i in p <==> i in q
    ensures p == q
    decreases |p|
  {
    assert (p != [] ==> p[0] in p) && (q != [] ==> q[0] in q);
    if p != [] {
      FirstIsFirst(a, b, p, q);
      TailMembers(a, p);
      TailMembers(b, q);
      OrderIsUnique(a, b, p[1..], q[1..]);
      assert p == [p[0]] + p[1..] && q == [q[0]] + q[1..];
    }
  }

  lemma TailMembers(a: seq<Account>, p: seq<nat>)
    requires Ordered(a, p) && p != []
    ensures forall i :: i in p[1..] <==> i in p && i != p[0]
  {
    forall k | 0 <= k < |p[1..]| ensures p[1..][k] != p[0] {
      assert Precedes(a, p[0], p[k + 1]);
    }
    assert p == [p[0]] + p[1..];
  }

  lemma HeadPrecedes(a: seq<Account>, p: seq<nat>, x: nat)
    requires Ordered(a, p) && p != [] && x in p
    ensures x < |a| && (x == p[0] || Precedes(a, p[0], x))
  {
    var k :| 0 <= k < |p| && p[k] == x;
  }

  lemma FirstIsFirst(a: seq<Account>, b: seq<Account>, p: seq<nat>, q: seq<nat>)
    requires SameButFlags(a, b) && Ordered(a, p) && Ordered(b, q) && p != [] && q != [] &&
      forall i :: i in p <==> i in q
    ensures p[0] == q[0]
  {
    assert p[0] in q && q[0] in p;
    HeadPrecedes(a, p, q[0]);
    HeadPrecedes(b, q, p[0]);
    assert b[q[0]] == a[q[0]].(disabled := b[q[0]].disabled) && b[p[0]] == a[p[0]].(disabled := b[p[0]].disabled);
  }

  // ---------------------------------------------------------------- the three groups

  /** Every account of the type is awake or asleep as its place in the order of preference decides. */
  ghost predicate Settled(before: seq<Account>, after: seq<Account>, poolType: string, count: nat, busy: set<string>) {
    |after| == |before| && exists order ::
      IsOrder(before, poolType, order) && SettledBy(before, after, order, count, busy)
  }

  ghost predicate SettledBy(before: seq<Account>, after: seq<Account>, order: seq<nat>, count: nat, busy: set<string>)
    requires InRange(before, order) && |after| == |before|
  {
    forall k | 0 <= k < |order| ::
      after[order[k]] == before[order[k]].(disabled := !Wakes(before, order, count, busy, k))
  }

  /** Nothing changes but the flags of one type, which are settled. */
  ghost predicate GroupDone(before: seq<Account>, after: seq<Account>, poolType: string, count: nat,
                            busy: set<string>) {
    && SameButFlags(before, after) && Settled(before, after, poolType, count, busy)
    && (forall i | 0 <= i < |before| && before[i].poolType != poolType :: after[i] == before[i])
  }

  lemma GroupOutcome(before: seq<Account>, after: seq<Account>, poolType: string, order: seq<nat>, count: nat,
                     busy: set<string>)
    requires IsOrder(before, poolType, order) && Decided(before, after, order, count, busy, |order|)
    ensures GroupDone(before, after, poolType, count, busy)
  {
    assert order[..|order|] == order;
    assert SettledBy(before, after, order, count, busy);
    forall i | 0 <= i < |before|
      ensures after[i] == before[i].(disabled := after[i].disabled)
      ensures before[i].poolType != poolType ==> after[i] == before[i]
    {
      if before[i].poolType == poolType {
        assert i in order;
        var k :| 0 <= k < |order| && order[k] == i;
        assert after[order[k]] == before[order[k]].(disabled := !Wakes(before, order, count, busy, k));
      }
    }
  }

  /** What settles one type is not disturbed by the flags of the others, before or after. */
  lemma SettledStays(start: seq<Account>, before: seq<Account>, after: seq<Account>, end: seq<Account>,
                     poolType: string,
                     count: nat, busy: set<string>)
    requires SameButFlags(start, before) && SameButFlags(start, end) && Settled(before, after, poolType, count, busy)
    requires |end| == |after| && forall i | 0 <= i < |after| && after[i].poolType == poolType :: end[i] == after[i]
    requires SameButFlags(before, after)
    ensures Settled(start, end, poolType, count, busy)
  {
    var order :| IsOrder(before, poolType, order) && SettledBy(before, after, order, count, busy);
    forall i | 0 <= i < |start| ensures start[i] == before[i].(disabled := start[i].disabled) {
      assert before[i] == start[i].(disabled := before[i].disabled);
    }
    assert forall i, j | 0 <= i < |start| && 0 <= j < |start| && Precedes(before, i, j) :: Precedes(start, i, j);
    assert IsOrder(start, poolType, order);
    forall k | 0 <= k < |order|
      ensures end[order[k]] == start[order[k]].(disabled := !Wakes(start, order, count, busy, k))
    {
      var i := order[k];
      assert i in order;
      FlagsDoNotMatter(before, start, order, count, busy, k);
      assert after[i] == before[i].(disabled := !Wakes(before, order, count, busy, k));
    }
    assert SettledBy(start, end, order, count, busy);
  }

  function Quota(n: int): nat {
    if n < 0 then 0 else n
  }

  /** ReconcileElasticPoolWithBusy: the three types one after the other, each with its own quota or all with one. */
  method ReconcileElasticPool(accounts: array<Account>, enabled: bool, perPool: bool, globalCount: int,
                              defaultCount: int, noToolsCount: int, toolsOnlyCount: int, busy: set<string>)
    modifies accounts
    ensures !enabled ==> accounts[..] == old(accounts[..])
    ensures SameButFlags(old(accounts[..]), accounts[..])
    ensures enabled ==> Settled(old(accounts[..]), accounts[..], "default",
      Quota(if perPool then defaultCount else globalCount), busy)
    ensures enabled ==> Settled(old(accounts[..]), accounts[..], "no_tools",
      Quota(if perPool then noToolsCount else globalCount), busy)
    ensures enabled ==> Settled(old(accounts[..]), accounts[..], "tools_only",
      Quota(if perPool then toolsOnlyCount else globalCount), busy)
  {
    if !enabled {
      return;
    }
    var d, n, t := globalCount, globalCount, globalCount;
    if perPool {
      d, n, t := defaultCount, noToolsCount, toolsOnlyCount;
    }
    ghost var start := accounts[..];
    ReconcileType(accounts, "default", Quota(d), busy);
    ghost var first := accounts[..];
    ReconcileType(accounts, "no_tools", Quota(n), busy);
    ghost var second := accounts[..];
    ReconcileType(accounts, "tools_only", Quota(t), busy);
    ghost var end := accounts[..];
    FlagsCompose(start, first, second);
    FlagsCompose(start, second, end);
    SettledStays(start, start, first, end, "default", Quota(d), busy);
    SettledStays(start, first, second, end, "no_tools", Quota(n), busy);
    SettledStays(start, second, end, end, "tools_only", Quota(t), busy);
  }

  method ReconcileType(accounts: array<Account>, poolType: string, count: nat, busy: set<string>)
    modifies accounts
    ensures GroupDone(old(accounts[..]), accounts[..], poolType, count, busy)
  {
    var order := ReconcileGroup(accounts, poolType, count, busy);
    GroupOutcome(old(accounts[..]), accounts[..], poolType, order, count, busy);
  }

  lemma FlagsCompose(a: seq<Account>, b: seq<Account>, c: seq<Account>)
    requires SameButFlags(a, b) && SameButFlags(b, c)
    ensures SameButFlags(a, c)
  {
    forall i | 0 <= i < |a| ensures c[i] == a[i].(disabled := c[i].disabled) {
      assert b[i] == a[i].(disabled := b[i].disabled) && c[i] == b[i].(disabled := c[i].disabled);
    }
  }

  /** A settled type in the terms of its documentation: hard accounts sleep, busy ones stay awake, and of the
      others no account is awake while one that precedes it sleeps. */
  lemma SettledMeans(before: seq<Account>, after: seq<Account>, poolType: string, count: nat, busy: set<string>,
                     i: nat, j: nat)
    requires Settled(before, after, poolType, count, busy)
    requires i < |before| && j < |before| && before[i].poolType == poolType && before[j].poolType == poolType
    ensures before[i].hard ==> after[i].disabled
    ensures !before[i].hard && Busy(busy, before[i]) ==> !after[i].disabled
    ensures Eligible(before, busy, i) && Eligible(before, busy, j) && Precedes(before, i, j) && !after[j].disabled ==>
      !after[i].disabled
  {
    var order :| IsOrder(before, poolType, order) && SettledBy(before, after, order, count, busy);
    assert i in order && j in order;
    var m :| 0 <= m < |order| && order[m] == i;
    var n :| 0 <= n < |order| && order[n] == j;
    assert after[order[m]] == before[order[m]].(disabled := !Wakes(before, order, count, busy, m));
    assert after[order[n]] == before[order[n]].(disabled := !Wakes(before, order, count, busy, n));
    AwakeArePrefix(before, order, count, busy, m, m);
    if n < m {
      assert Precedes(before, order[n], order[m]);
    } else {
      AwakeArePrefix(before, order, count, busy, m, n);
    }
  }

  /** How many of the first n accounts of the order are awake. */
  function AwakeOf(after: seq<Account>, order: seq<nat>, n: nat): nat
    requires InRange(after, order) && n <= |order|
  {
    if n == 0 then 0 else AwakeOf(after, order, n - 1) + (if after[order[n - 1]].disabled then 0 else 1)
  }

  /** With nothing busy the quota is awake, or all that fit. */
  lemma {:induction false} SettledCount(before: seq<Account>, after: seq<Account>, order: seq<nat>, count: nat,
                                        busy: set<string>, n: nat)
    requires InRange(before, order) && |after| == |before| && SettledBy(before, after, order, count, busy) &&
      n <= |order|
    ensures AwakeOf(after, order, n) == Awake(before, order, count, busy, n)
    ensures BusyFit(before, order, busy, n) == 0 ==>
      AwakeOf(after, order, n) == if count < Fit(before, order, n) then count else Fit(before, order, n)
  {
    AwakeCount(before, order, count, busy, n);
    if n > 0 {
      SettledCount(before, after, order, count, busy, n - 1);
    }
  }

  /** The accounts of a type that are awake after, and those that may be. */
  ghost function AwakeSet(before: seq<Account>, after: seq<Account>, poolType: string): set<nat>
    requires |after| == |before|
  {
    set i: nat | i < |before| && before[i].poolType == poolType && !after[i].disabled
  }

  ghost function FitSet(before: seq<Account>, poolType: string): set<nat> {
    set i: nat | i < |before| && before[i].poolType == poolType && !before[i].hard
  }

  /** When no account of the type is busy, exactly min(count, eligible) of its accounts are awake. */
  lemma SettledQuota(before: seq<Account>, after: seq<Account>, poolType: string, count: nat, busy: set<string>)
    requires Settled(before, after, poolType, count, busy)
    requires forall i | 0 <= i < |before| && before[i].poolType == poolType && !before[i].hard :: !Busy(busy, before[i])
    ensures var fit := |FitSet(before, poolType)|;
      |AwakeSet(before, after, poolType)| == if count < fit then count else fit
  {
    var order :| IsOrder(before, poolType, order) && SettledBy(before, after, order, count, busy);
    forall k | 0 <= k < |order| ensures before[order[k]].hard || !Busy(busy, before[order[k]]) {
      assert order[k] in order;
    }
    NoneBusy(before, order, busy, |order|);
    SettledCount(before, after, order, count, busy, |order|);
    AwakeSetIsCounted(before, after, poolType, order);
    FitSetIsCounted(before, poolType, order);
  }

  lemma AwakeSetIsCounted(before: seq<Account>, after: seq<Account>, poolType: string, order: seq<nat>)
    requires IsOrder(before, poolType, order) && |after| == |before|
    ensures |AwakeSet(before, after, poolType)| == AwakeOf(after, order, |order|)
  {
    var awake := (i: nat) => i < |after| && !after[i].disabled;
    AwakeIsCounted(after, order, |order|);
    PickedCounts(before, order, awake, |order|);
    AllPicked(before, poolType, order, awake, AwakeSet(before, after, poolType));
  }

  lemma FitSetIsCounted(before: seq<Account>, poolType: string, order: seq<nat>)
    requires IsOrder(before, poolType, order)
    ensures |FitSet(before, poolType)| == Fit(before, order, |order|)
  {
    var fit := (i: nat) => i < |before| && !before[i].hard;
    FitIsCounted(before, order, |order|);
    PickedCounts(before, order, fit, |order|);
    AllPicked(before, poolType, order, fit, FitSet(before, poolType));
  }

  lemma AllPicked(accounts: seq<Account>, poolType: string, order: seq<nat>, keep: nat -> bool, picked: set<nat>)
    requires IsOrder(accounts, poolType, order)
    requires forall i: nat :: i in picked <==> i < |accounts| && accounts[i].poolType == poolType && keep(i)
    ensures picked == Picked(order, keep, |order|)
  {
    forall i ensures i in picked <==> i in Picked(order, keep, |order|) {
      PickedMember(order, keep, |order|, i);
      if i in order {
        var k :| 0 <= k < |order| && order[k] == i;
      }
    }
  }

  lemma {:induction false} NoneBusy(accounts: seq<Account>, order: seq<nat>, busy: set<string>, n: nat)
    requires InRange(accounts, order) && n <= |order|
    requires forall k | 0 <= k < |order| :: accounts[order[k]].hard || !Busy(busy, accounts[order[k]])
    ensures BusyFit(accounts, order, busy, n) == 0
  {
    if n > 0 {
      NoneBusy(accounts, order, busy, n - 1);
    }
  }

  /** The places of the first n accounts of the order that are kept. */
  function Picked(order: seq<nat>, keep: nat -> bool, n: nat): set<nat>
    requires n <= |order|
  {
    if n == 0 then {} else Picked(order, keep, n - 1) + (if keep(order[n - 1]) then {order[n - 1]} else {})
  }

  lemma {:induction false} PickedMember(order: seq<nat>, keep: nat -> bool, n: nat, i: nat)
    requires n <= |order|
    ensures i in Picked(order, keep, n) <==> keep(i) && exists k | 0 <= k < n :: order[k] == i
  {
    if n > 0 {
      PickedMember(order, keep, n - 1, i);
    }
  }

  /** The order names no account twice. */
  lemma {:induction false} NotPicked(accounts: seq<Account>, order: seq<nat>, keep: nat -> bool, n: nat, m: nat)
    requires Ordered(accounts, order) && n <= m < |order|
    ensures order[m] !in Picked(order, keep, n)
  {
    if n > 0 {
      NotPicked(accounts, order, keep, n - 1, m);
      assert Precedes(accounts, order[n - 1], order[m]);
    }
  }

  function Counted(order: seq<nat>, keep: nat -> bool, n: nat): nat
    requires n <= |order|
  {
    if n == 0 then 0 else Counted(order, keep, n - 1) + (if keep(order[n - 1]) then 1 else 0)
  }

  lemma {:induction false} PickedCounts(accounts: seq<Account>, order: seq<nat>, keep: nat -> bool, n: nat)
    requires Ordered(accounts, order) && n <= |order|
    ensures |Picked(order, keep, n)| == Counted(order, keep, n)
  {
    if n > 0 {
      PickedCounts(accounts, order, keep, n - 1);
      NotPicked(accounts, order, keep, n - 1, n - 1);
      assert keep(order[n - 1]) ==> Picked(order, keep, n) == Picked(order, keep, n - 1) + {order[n - 1]};
    }
  }

  lemma {:induction false} AwakeIsCounted(after: seq<Account>, order: seq<nat>, n: nat)
    requires InRange(after, order) && n <= |order|
    ensures Counted(order, (i: nat) => i < |after| && !after[i].disabled, n) == AwakeOf(after, order, n)
  {
    if n > 0 {
      AwakeIsCounted(after, order, n - 1);
    }
  }

  lemma {:induction false} FitIsCounted(before: seq<Account>, order: seq<nat>, n: nat)
    requires InRange(before, order) && n <= |order|
    ensures Counted(order, (i: nat) => i < |before| && !before[i].hard, n) == Fit(before, order, n)
  {
    if n > 0 {
      FitIsCounted(before, order, n - 1);
    }
  }

  /** Reconciling does not depend on which accounts were awake before. */
  lemma ReconcileForgets(a: seq<Account>, b: seq<Account>, a': seq<Account>, b': seq<Account>, poolType: string,
                         count: nat, busy: set<string>, i: nat)
    requires SameButFlags(a, b) && Settled(a, a', poolType, count, busy) && Settled(b, b', poolType, count, busy)
    requires i < |a| && a[i].poolType == poolType
    ensures a'[i] == b'[i]
  {
    var p :| IsOrder(a, poolType, p) && SettledBy(a, a', p, count, busy);
    var q :| IsOrder(b, poolType, q) && SettledBy(b, b', q, count, busy);
    forall k ensures k in p <==> k in q {
      if k in p || k in q {
        assert k < |a| && b[k] == a[k].(disabled := b[k].disabled);
      }
    }
    OrderIsUnique(a, b, p, q);
    assert i in p;
    var k :| 0 <= k < |p| && p[k] == i;
    FlagsDoNotMatter(a, b, p, count, busy, k);
    assert a'[p[k]] == a[p[k]].(disabled := !Wakes(a, p, count, busy, k));
    assert b[i] == a[i].(disabled := b[i].disabled);
  }
}
