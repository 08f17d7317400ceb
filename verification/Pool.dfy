/** The account pool of internal/account: the round-robin queue, the in-use counts, the admission limits
    and the list of waiters. Every method body runs under the pool's mutex. */
module Pool {

  import opened Basics

  // What the locked section reads besides the pool's own fields: the account store, the caller's filter
  // and the two rate limiters.
  datatype Env = Env(
    rateLimited: string -> bool,
    dailyLimited: string -> bool,
    fits: string -> bool)          // found, schedulable and accepted by the filter

  function Count(inUse: map<string, nat>, id: string): nat {
    if id in inUse then inUse[id] else 0
  }

  ghost function Total(inUse: map<string, nat>): nat
    decreases inUse.Keys
  {
    if inUse == map[] then 0
    else
      var id :| id in inUse;
      inUse[id] + Total(inUse - {id})
  }

  /** The sum does not depend on the order in which the map is walked. */
  lemma {:induction false} TotalPick(inUse: map<string, nat>, id: string)
    requires id in inUse
    ensures Total(inUse) == inUse[id] + Total(inUse - {id})
    decreases inUse.Keys
  {
    var k :| k in inUse && Total(inUse) == inUse[k] + Total(inUse - {k});
    if k != id {
      TotalPick(inUse - {k}, id);
      TotalPick(inUse - {id}, k);
      assert inUse - {k} - {id} == inUse - {id} - {k};
    }
  }

  lemma TotalUpdate(inUse: map<string, nat>, id: string, n: nat)
    ensures Total(inUse[id := n]) == Total(inUse) - Count(inUse, id) + n
  {
    var next := inUse[id := n];
    TotalPick(next, id);
    assert next - {id} == inUse - {id};
    if id in inUse {
      TotalPick(inUse, id);
    } else {
      assert inUse - {id} == inUse;
    }
  }

  datatype State = State(
    queue: seq<string>, inUse: map<string, nat>, waiters: seq<nat>, closed: set<nat>, made: nat,
    maxInflight: int, globalMax: int, recommended: int, maxQueue: int)

  // ---------------------------------------------------------------- taking and returning a slot

  ghost predicate CanAcquire(p: State, env: Env, id: string) {
    id != "" && !env.rateLimited(id) && !env.dailyLimited(id) && Count(p.inUse, id) < p.maxInflight &&
    !(p.globalMax > 0 && Total(p.inUse) >= p.globalMax)
  }

  ghost predicate Eligible(p: State, env: Env, exclude: set<string>, id: string) {
    id !in exclude && CanAcquire(p, env, id) && env.fits(id)
  }

  /** The first position from i on whose account is eligible, or the length of the queue. */
  ghost function FirstEligible(p: State, env: Env, exclude: set<string>, i: nat): (k: nat)
    requires i <= |p.queue|
    ensures i <= k <= |p.queue| && forall j | i <= j < k :: !Eligible(p, env, exclude, p.queue[j])
    ensures k < |p.queue| ==> Eligible(p, env, exclude, p.queue[k])
    decreases |p.queue| - i
  {
    if i == |p.queue| || Eligible(p, env, exclude, p.queue[i]) then i else FirstEligible(p, env, exclude, i + 1)
  }

  /** The account a request gets, if any. */
  ghost function Granted(p: State, env: Env, target: string, exclude: set<string>): Option<string> {
    if target != "" then (if Eligible(p, env, exclude, target) then Some(target) else None)
    else
      var k := FirstEligible(p, env, exclude, 0);
      if k < |p.queue| then Some(p.queue[k]) else None
  }

  /** The account moved to the back of the queue. */
  function Bumped(queue: seq<string>, id: string): seq<string> {
    var k := IndexFrom(queue, id, 0);
    if k < |queue| then queue[..k] + queue[k + 1..] + [id] else queue
  }

  function Taken(p: State, id: string): State {
    p.(inUse := p.inUse[id := Count(p.inUse, id) + 1], queue := Bumped(p.queue, id))
  }

  function Notified(p: State): State {
    if p.waiters == [] then p else p.(waiters := p.waiters[1..], closed := p.closed + {p.waiters[0]})
  }

  function Released(p: State, id: string): State {
    if id == "" || Count(p.inUse, id) == 0 then p
    else if Count(p.inUse, id) == 1 then Notified(p.(inUse := p.inUse - {id}))
    else Notified(p.(inUse := p.inUse[id := Count(p.inUse, id) - 1]))
  }

  // ---------------------------------------------------------------- reset and limits

  datatype Account = Account(id: string, hasToken: bool, offDuty: bool)  // off duty: disabled, banned or auth-failed

  /** The identifiers that enter the queue, of the accounts with (or without) a token. */
  function Schedulable(accounts: seq<Account>, hasToken: bool): seq<string> {
    if accounts == [] then []
    else
      var a := accounts[0];
      (if a.hasToken == hasToken && !a.offDuty && a.id != "" then [a.id] else []) + Schedulable(accounts[1..], hasToken)
  }

  // The settings the store derives from the recommended concurrency.
  datatype Settings = Settings(maxInflight: int, maxQueue: int -> int, globalMax: int -> int)

  function Recommended(accounts: nat, maxInflight: int): int {
    if accounts == 0 then 0 else accounts * (if maxInflight <= 0 then 2 else maxInflight)
  }

  function Kept(inUse: map<string, nat>, ids: seq<string>): map<string, nat> {
    map id | id in inUse && id in ids :: inUse[id]
  }

  function Reset(p: State, accounts: seq<Account>, settings: Settings): State {
    var ids := Schedulable(accounts, true) + Schedulable(accounts, false);
    var recommended := Recommended(|ids|, settings.maxInflight);
    State(ids, Kept(p.inUse, ids), [], p.closed + (set w | w in p.waiters), p.made,
          settings.maxInflight, settings.globalMax(recommended), recommended, settings.maxQueue(recommended))
  }

  function Limited(p: State, maxInflight: int, maxQueue: int, globalMax: int): State {
    var m := if maxInflight <= 0 then 1 else maxInflight;
    var g := if globalMax > 0 then globalMax else if m * |p.queue| <= 0 then m else m * |p.queue|;
    Notified(p.(maxInflight := m, maxQueue := if maxQueue < 0 then 0 else maxQueue, globalMax := g,
                recommended := Recommended(|p.queue|, m)))
  }

  // ---------------------------------------------------------------- waiting

  predicate CanQueue(p: State, env: Env, target: string, exclude: set<string>) {
    p.maxQueue > 0 && |p.waiters| < p.maxQueue &&
    if target != "" then target !in exclude && !env.dailyLimited(target) && env.fits(target)
    else exists i | 0 <= i < |p.queue| ::
      p.queue[i] !in exclude && !env.dailyLimited(p.queue[i]) && env.fits(p.queue[i])
  }

  /** A new waiter channel at the end of the list; its name is the number of channels made before. */
  function Queued(p: State): State {
    p.(waiters := p.waiters + [p.made], made := p.made + 1)
  }

  function Removed(waiters: seq<nat>, w: nat): seq<nat> {
    var k := IndexFrom(waiters, w, 0);
    if k < |waiters| then waiters[..k] + waiters[k + 1..] else waiters
  }

  function Cancelled(p: State, w: nat): State {
    p.(waiters := Removed(p.waiters, w))
  }

  /** The waiter list is in order: every listed channel is open, distinct from the others and was made here. */
  ghost predicate WaitersSound(p: State) {
    && (forall i, j | 0 <= i < j < |p.waiters| :: p.waiters[i] != p.waiters[j])
    && (forall w | w in p.waiters :: w !in p.closed && w < p.made)
    && (forall w | w in p.closed :: w < p.made)
  }

  // ---------------------------------------------------------------- the pool itself

  class AccountPool {
    var queue: seq<string>
    var inUse: map<string, nat>
    var waiters: seq<nat>
    var closed: set<nat>
    var made: nat
    var maxInflightPerAccount: int
    var globalMaxInflight: int
    var recommendedConcurrency: int
    var maxQueueSize: int

    ghost function Now(): State
      reads this
    {
      State(queue, inUse, waiters, closed, made, maxInflightPerAccount, globalMaxInflight, recommendedConcurrency,
        maxQueueSize)
    }

    ghost predicate Valid()
      reads this
    {
      WaitersSound(Now())
    }

    /** close of a channel; closing it twice would panic. */
    method Close(waiter: nat)
      requires waiter !in closed
      modifies this`closed
      ensures closed == old(closed) + {waiter}
    {
      closed := closed + {waiter};
    }

    method CurrentInUse() returns (total: nat)
      ensures total == Total(inUse)
    {
      total := 0;
      var rest := inUse;
      while rest != map[]
        invariant total + Total(rest) == Total(inUse)
        decreases |rest|
      {
        var id :| id in rest;
        TotalPick(rest, id);
        total := total + rest[id];
        rest := rest - {id};
      }
    }

    method CanAcquireID(env: Env, id: string) returns (ok: bool)
      ensures ok <==> CanAcquire(Now(), env, id)
    {
      if id == "" || env.rateLimited(id) || env.dailyLimited(id) || Count(inUse, id) >= maxInflightPerAccount {
        return false;
      }
      var total := CurrentInUse();
      return !(globalMaxInflight > 0 && total >= globalMaxInflight);
    }

    method BumpQueue(id: string)
      modifies this`queue
      ensures queue == Bumped(old(queue), id)
    {
      for i := 0 to |queue|
        invariant queue == old(queue) && IndexFrom(queue, id, 0) == IndexFrom(queue, id, i)
      {
        if queue[i] == id {
          queue := queue[..i] + queue[i + 1..];
          queue := queue + [id];
          return;
        }
      }
    }

    method Take(id: string)
      modifies this`inUse, this`queue
      ensures Now() == Taken(old(Now()), id)
    {
      inUse := inUse[id := Count(inUse, id) + 1];
      BumpQueue(id);
    }

    method TryAcquire(env: Env, exclude: set<string>) returns (acc: Option<string>)
      modifies this`inUse, this`queue
      ensures acc == Granted(old(Now()), env, "", exclude)
      ensures Now() == if acc.Some? then Taken(old(Now()), acc.value) else old(Now())
    {
      for i := 0 to |queue|
        invariant Now() == old(Now())
        invariant FirstEligible(Now(), env, exclude, 0) == FirstEligible(Now(), env, exclude, i)
      {
        var id := queue[i];
        if id in exclude {
          continue;
        }
        var ok := CanAcquireID(env, id);
        if !ok || !env.fits(id) {
          continue;
        }
        Take(id);
        return Some(id);
      }
      return None;
    }

    method Acquire(env: Env, target: string, exclude: set<string>) returns (acc: Option<string>)
      modifies this`inUse, this`queue
      ensures acc == Granted(old(Now()), env, target, exclude)
      ensures Now() == if acc.Some? then Taken(old(Now()), acc.value) else old(Now())
    {
      if target != "" {
        if target in exclude {
          return None;
        }
        var ok := CanAcquireID(env, target);
        if !ok || !env.fits(target) {
          return None;
        }
        Take(target);
        return Some(target);
      }
      acc := TryAcquire(env, exclude);
    }

    method NotifyWaiter()
      requires Valid()
      modifies this`waiters, this`closed
      ensures Valid() && Now() == Notified(old(Now()))
    {
      if |waiters| == 0 {
        return;
      }
      var waiter := waiters[0];
      waiters := waiters[1..];
      Close(waiter);
    }

    method Release(id: string)
      requires Valid()
      modifies this
      ensures Valid() && Now() == Released(old(Now()), id)
    {
      if id == "" {
        return;
      }
      var count := Count(inUse, id);
      if count <= 0 {
        return;
      }
      if count == 1 {
        inUse := inUse - {id};
        NotifyWaiter();
        return;
      }
      inUse := inUse[id := count - 1];
      NotifyWaiter();
    }

    method DrainWaiters()
      requires Valid()
      modifies this`waiters, this`closed
      ensures waiters == [] && closed == old(closed) + (set w | w in old(waiters))
    {
      for i := 0 to |waiters|
        invariant waiters == old(waiters)
        invariant closed == old(closed) + (set w | w in waiters[..i])
      {
        assert waiters[..i + 1] == waiters[..i] + [waiters[i]];
        Close(waiters[i]);
      }
      assert waiters[..|waiters|] == waiters;
      waiters := [];
    }

    method ResetTo(accounts: seq<Account>, settings: Settings)
      requires Valid()
      modifies this
      ensures Valid() && Now() == Reset(old(Now()), accounts, settings)
    {
      var ids := Schedulable(accounts, true) + Schedulable(accounts, false);
      maxInflightPerAccount := settings.maxInflight;
      var recommended := Recommended(|ids|, maxInflightPerAccount);
      DrainWaiters();
      queue := ids;
      inUse := map id | id in inUse && id in ids :: inUse[id];
      recommendedConcurrency := recommended;
      maxQueueSize := settings.maxQueue(recommended);
      globalMaxInflight := settings.globalMax(recommended);
    }

    method ApplyRuntimeLimits(maxInflight: int, maxQueue: int, globalMax: int)
      requires Valid()
      modifies this
      ensures Valid() && Now() == Limited(old(Now()), maxInflight, maxQueue, globalMax)
    {
      var m := if maxInflight <= 0 then 1 else maxInflight;
      var g := globalMax;
      if g <= 0 {
        g := m * |queue|;
        if g <= 0 {
          g := m;
        }
      }
      maxInflightPerAccount := m;
      maxQueueSize := if maxQueue < 0 then 0 else maxQueue;
      globalMaxInflight := g;
      recommendedConcurrency := Recommended(|queue|, m);
      NotifyWaiter();
    }

    method CanQueueNow(env: Env, target: string, exclude: set<string>) returns (ok: bool)
      ensures ok <==> CanQueue(Now(), env, target, exclude)
    {
      if maxQueueSize <= 0 || |waiters| >= maxQueueSize {
        return false;
      }
      if target != "" {
        return target !in exclude && !env.dailyLimited(target) && env.fits(target);
      }
      for i := 0 to |queue|
        invariant forall j | 0 <= j < i :: !(queue[j] !in exclude && !env.dailyLimited(queue[j]) && env.fits(queue[j]))
      {
        if queue[i] in exclude || env.dailyLimited(queue[i]) || !env.fits(queue[i]) {
          continue;
        }
        return true;
      }
      return false;
    }

    method Enqueue() returns (waiter: nat)
      requires Valid()
      modifies this`waiters, this`made
      ensures Valid() && Now() == Queued(old(Now())) && waiter == old(made)
    {
      waiter := made;
      made := made + 1;
      waiters := waiters + [waiter];
      QueuedIsSound(old(Now()));
    }

    method RemoveWaiter(waiter: nat) returns (found: bool)
      requires Valid()
      modifies this`waiters
      ensures Valid() && Now() == Cancelled(old(Now()), waiter)
      ensures found <==> waiter in old(waiters)
    {
      CancelledIsSound(old(Now()), waiter);
      for i := 0 to |waiters|
        invariant waiters == old(waiters) && IndexFrom(waiters, waiter, 0) == IndexFrom(waiters, waiter, i)
      {
        if waiters[i] == waiter {
          waiters := waiters[..i] + waiters[i + 1..];
          return true;
        }
      }
      return false;
    }
  }

  lemma QueuedIsSound(p: State)
    requires WaitersSound(p)
    ensures WaitersSound(Queued(p))
  {
    var q := Queued(p);
    forall i, j | 0 <= i < j < |q.waiters| ensures q.waiters[i] != q.waiters[j] {
      assert q.waiters[i] == p.waiters[i] && p.waiters[i] in p.waiters;
    }
    forall w | w in q.waiters ensures w !in q.closed && w < q.made {
      assert w in p.waiters || w == p.made;
    }
  }

  lemma CancelledIsSound(p: State, w: nat)
    requires WaitersSound(p)
    ensures WaitersSound(Cancelled(p, w))
    ensures forall v :: v in Removed(p.waiters, w) <==> v in p.waiters && v != w
  {
    var k := IndexFrom(p.waiters, w, 0);
    var r := Removed(p.waiters, w);
    forall v ensures v in r <==> v in p.waiters && v != w {
      if v in p.waiters && v != w {
        var i :| 0 <= i < |p.waiters| && p.waiters[i] == v;
        assert r[if i < k then i else i - 1] == v;
      }
    }
  }

  // ---------------------------------------------------------------- what the operations mean

  /** Moving an account to the back keeps the accounts and the order of all the others. */
  lemma BumpIsRotation(queue: seq<string>, id: string)
    requires id in queue
    ensures var b := Bumped(queue, id);
      && multiset(b) == multiset(queue) && b[|b| - 1] == id
      && exists k | 0 <= k < |queue| :: queue[k] == id && b[..|b| - 1] == queue[..k] + queue[k + 1..]
  {
    var k := IndexFrom(queue, id, 0);
    assert queue == queue[..k] + [id] + queue[k + 1..];
    var b := Bumped(queue, id);
    assert b[..|b| - 1] == queue[..k] + queue[k + 1..];
  }

  /** No limit is exceeded. */
  ghost predicate WithinLimits(p: State) {
    (forall id | id in p.inUse :: p.inUse[id] <= p.maxInflight) &&
    (p.globalMax > 0 ==> Total(p.inUse) <= p.globalMax)
  }

  /** A grant is made only below the limits, and stays within them. */
  lemma GrantStaysWithinLimits(p: State, env: Env, target: string, exclude: set<string>)
    requires WithinLimits(p) && Granted(p, env, target, exclude).Some?
    ensures var id := Granted(p, env, target, exclude).value;
      && id !in exclude && env.fits(id) && Count(p.inUse, id) < p.maxInflight
      && WithinLimits(Taken(p, id))
  {
    var id := Granted(p, env, target, exclude).value;
    TotalUpdate(p.inUse, id, Count(p.inUse, id) + 1);
  }

  lemma ReleaseStaysWithinLimits(p: State, id: string)
    requires WithinLimits(p)
    ensures WithinLimits(Released(p, id))
  {
    if id in p.inUse {
      TotalPick(p.inUse, id);
      TotalUpdate(p.inUse, id, if Count(p.inUse, id) == 0 then 0 else Count(p.inUse, id) - 1);
    }
  }

  /** An untargeted request fails only when every queued account is excluded, unfit or at a limit. */
  lemma RefusalIsJustified(p: State, env: Env, exclude: set<string>)
    ensures Granted(p, env, "", exclude) == None <==> forall id | id in p.queue :: !Eligible(p, env, exclude, id)
  {
  }
}
