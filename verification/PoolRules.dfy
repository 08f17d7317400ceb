/** What the account pool of internal/account promises its callers: who is served, in which order, and who may wait. */
module PoolRules {

  import opened Basics
  import opened Pool

  // ---------------------------------------------------------------- who may be served

  /** The slots taken of an account, and of all accounts, may grow by one. */
  ghost predicate HasRoom(p: State, id: string) {
    (if id in p.inUse then p.inUse[id] else 0) + 1 <= p.maxInflight &&
    (p.globalMax > 0 ==> Total(p.inUse) + 1 <= p.globalMax)
  }

  /** Nothing stands against the account: neither the caller, nor the limiters, nor the limits. */
  ghost predicate IsFree(p: State, env: Env, exclude: set<string>, id: string) {
    id != "" && id !in exclude && env.fits(id) && !env.rateLimited(id) && !env.dailyLimited(id) && HasRoom(p, id)
  }

  /** A request for an account gets it exactly when it is free, another one gets the first free account of the queue. */
  lemma GrantIsFirstFree(p: State, env: Env, exclude: set<string>)
    ensures forall target | target != "" ::
      Granted(p, env, target, exclude) == if IsFree(p, env, exclude, target) then Some(target) else None
    ensures forall id :: Granted(p, env, "", exclude) == Some(id) <==>
      exists k | 0 <= k < |p.queue| :: p.queue[k] == id && IsFree(p, env, exclude, id) &&
        forall j | 0 <= j < k :: !IsFree(p, env, exclude, p.queue[j])
    ensures Granted(p, env, "", exclude) == None <==> forall id | id in p.queue :: !IsFree(p, env, exclude, id)
  {
    forall id ensures IsFree(p, env, exclude, id) <==> Eligible(p, env, exclude, id) {
    }
  }

  // ---------------------------------------------------------------- what a grant and a release change

  /** One more slot of the account is taken, no other count moves, and the account goes to the back of the queue. */
  lemma GrantTakesOne(p: State, id: string)
    requires id in p.queue
    ensures var q := Taken(p, id);
      && Count(q.inUse, id) == Count(p.inUse, id) + 1 && Total(q.inUse) == Total(p.inUse) + 1
      && (forall other | other != id :: Count(q.inUse, other) == Count(p.inUse, other))
      && multiset(q.queue) == multiset(p.queue) && q.queue[|q.queue| - 1] == id
      && (exists k | 0 <= k < |p.queue| ::
        p.queue[k] == id && q.queue[..|q.queue| - 1] == p.queue[..k] + p.queue[k + 1..])
      && q.waiters == p.waiters && q.closed == p.closed
  {
    BumpIsRotation(p.queue, id);
    TotalUpdate(p.inUse, id, Count(p.inUse, id) + 1);
  }

  /** One slot of the account is free again, no other count moves, the queue stays and the first waiter is woken. */
  lemma ReleaseReturnsOne(p: State, id: string)
    requires Count(p.inUse, id) > 0 && id != ""
    ensures var q := Released(p, id);
      && Count(q.inUse, id) == Count(p.inUse, id) - 1 && Total(q.inUse) == Total(p.inUse) - 1
      && (forall other | other != id :: Count(q.inUse, other) == Count(p.inUse, other))
      && q.queue == p.queue
      && (p.waiters != [] ==> q.waiters == p.waiters[1..] && q.closed == p.closed + {p.waiters[0]})
      && (p.waiters == [] ==> q.waiters == [] && q.closed == p.closed)
  {
    TotalPick(p.inUse, id);
    TotalUpdate(p.inUse, id, Count(p.inUse, id) - 1);
  }

  /** A release of what nobody holds changes nothing. */
  lemma EmptyReleaseKeeps(p: State, id: string)
    requires id == "" || Count(p.inUse, id) == 0
    ensures Released(p, id) == p
  {
  }

  // ---------------------------------------------------------------- taking turns

  ghost predicate Distinct(queue: seq<string>) {
    forall i, j | 0 <= i < j < |queue| :: queue[i] != queue[j]
  }

  /** x stands before y. */
  ghost predicate Ahead(queue: seq<string>, x: string, y: string) {
    exists i, j | 0 <= i < j < |queue| :: queue[i] == x && queue[j] == y
  }

  /** Where an account stands after another one, or itself, went to the back, */
  function Place(queue: seq<string>, id: string, i: nat): (p: nat)
    requires i < |queue|
    ensures p < |queue|
  {
    var k := IndexFrom(queue, id, 0);
    if i < k || k == |queue| then i else if i == k then |queue| - 1 else i - 1
  }

  /** and where it stood before. */
  function Origin(queue: seq<string>, id: string, p: nat): (i: nat)
    requires p < |queue|
    ensures i < |queue| && Place(queue, id, i) == p
  {
    var k := IndexFrom(queue, id, 0);
    if p < k || k == |queue| then p else if p == |queue| - 1 then k else p + 1
  }

  lemma PlaceAfter(queue: seq<string>, id: string, i: nat)
    requires i < |queue|
    ensures |Bumped(queue, id)| == |queue| && Bumped(queue, id)[Place(queue, id, i)] == queue[i]
  {
  }

  lemma BumpedKeepsDistinct(queue: seq<string>, id: string)
    requires Distinct(queue)
    ensures Distinct(Bumped(queue, id)) && forall x :: x in Bumped(queue, id) <==> x in queue
  {
    var b := Bumped(queue, id);
    assert queue != [] || b == [];
    if queue != [] {
      PlaceAfter(queue, id, 0);
    }
    forall p: nat | p < |b| ensures b[p] == queue[Origin(queue, id, p)] {
      PlaceAfter(queue, id, Origin(queue, id, p));
    }
    forall i: nat | i < |queue| ensures queue[i] == b[Place(queue, id, i)] {
      PlaceAfter(queue, id, i);
    }
    forall p, r | 0 <= p < r < |b| ensures b[p] != b[r] {
      assert Origin(queue, id, p) != Origin(queue, id, r);
    }
  }

  /** Whoever is served stands behind all the others, */
  lemma ServedIsLast(queue: seq<string>, x: string, y: string)
    requires Distinct(queue) && x in queue && y in queue && x != y
    ensures Ahead(Bumped(queue, y), x, y)
  {
    var b, k := Bumped(queue, y), IndexFrom(queue, y, 0);
    var i :| 0 <= i < |queue| && queue[i] == x;
    assert b[if i < k then i else i - 1] == x && b[|b| - 1] == y;
  }

  /** and keeps standing behind those who have not been served since. */
  lemma AheadStays(queue: seq<string>, x: string, y: string, id: string)
    requires Distinct(queue) && Ahead(queue, x, y) && id != x
    ensures Ahead(Bumped(queue, id), x, y)
  {
    var i, j :| 0 <= i < j < |queue| && queue[i] == x && queue[j] == y;
    PlaceAfter(queue, id, i);
    PlaceAfter(queue, id, j);
  }

  /** What happens to the pool between two looks at it: somebody is served from the queue, or the queue stays. */
  datatype Turn = Served(env: Env, exclude: set<string>, id: string) | Other

  ghost predicate Turns(p: State, t: Turn, q: State) {
    match t
    case Served(env, exclude, id) => Granted(p, env, "", exclude) == Some(id) && q == Taken(p, id)
    case Other => q.queue == p.queue
  }

  ghost predicate IsRun(states: seq<State>, turns: seq<Turn>) {
    |states| == |turns| + 1 && forall k | 0 <= k < |turns| :: Turns(states[k], turns[k], states[k + 1])
  }

  lemma {:induction false} StaysAhead(states: seq<State>, turns: seq<Turn>, n: nat, x: string, y: string)
    requires IsRun(states, turns) && 0 < n <= |turns| && Distinct(states[0].queue)
    requires turns[0].Served? && turns[0].id == y && x in states[0].queue && x != y
    requires forall k | 0 < k < n :: !(turns[k].Served? && turns[k].id == x)
    ensures Distinct(states[n].queue) && Ahead(states[n].queue, x, y)
    decreases n
  {
    var p, t := states[n - 1], turns[n - 1];
    assert Turns(p, t, states[n]);
    if n == 1 {
      var k := FirstEligible(p, t.env, t.exclude, 0);
      assert p.queue[k] == y;
      ServedIsLast(p.queue, x, y);
      BumpedKeepsDistinct(p.queue, y);
    } else {
      StaysAhead(states, turns, n - 1, x, y);
      if t.Served? {
        AheadStays(p.queue, x, y, t.id);
        BumpedKeepsDistinct(p.queue, t.id);
      }
    }
  }

  /** Between two times an account is served from the queue, every other queued account that is free the second time has
      been served as well: no account is served twice while another one waits its turn. */
  lemma EveryoneGetsATurn(states: seq<State>, turns: seq<Turn>, n: nat, x: string, y: string)
    requires IsRun(states, turns) && 0 < n < |turns| && Distinct(states[0].queue)
    requires turns[0].Served? && turns[0].id == y && turns[n].Served? && turns[n].id == y
    requires x in states[0].queue && x != y && IsFree(states[n], turns[n].env, turns[n].exclude, x)
    ensures exists k | 0 < k < n :: turns[k].Served? && turns[k].id == x
  {
    assert Turns(states[n], turns[n], states[n + 1]);
    if forall k | 0 < k < n :: !(turns[k].Served? && turns[k].id == x) {
      StaysAhead(states, turns, n, x, y);
      NotServedBehind(states[n], turns[n].env, turns[n].exclude, x, y);
    }
  }

  lemma NotServedBehind(p: State, env: Env, exclude: set<string>, x: string, y: string)
    requires Distinct(p.queue) && Ahead(p.queue, x, y) && IsFree(p, env, exclude, x)
    ensures Granted(p, env, "", exclude) != Some(y)
  {
    var i, j :| 0 <= i < j < |p.queue| && p.queue[i] == x && p.queue[j] == y;
    assert Eligible(p, env, exclude, p.queue[i]) && FirstEligible(p, env, exclude, 0) <= i;
  }

  // ---------------------------------------------------------------- reset

  /** Which accounts enter the queue: all that have an identifier and are on duty. */
  lemma {:induction false} SchedulableIs(accounts: seq<Account>, hasToken: bool)
    ensures forall id :: id in Schedulable(accounts, hasToken) <==>
      exists i | 0 <= i < |accounts| :: accounts[i] == Account(id, hasToken, false) && id != ""
  {
    if accounts != [] {
      var a, rest := accounts[0], accounts[1..];
      SchedulableIs(rest, hasToken);
      forall id ensures id in Schedulable(accounts, hasToken) <==>
        exists i | 0 <= i < |accounts| :: accounts[i] == Account(id, hasToken, false) && id != ""
      {
        if i :| 0 <= i < |rest| && rest[i] == Account(id, hasToken, false) && id != "" {
          assert accounts[i + 1] == rest[i];
        }
        if i :| 0 <= i < |accounts| && accounts[i] == Account(id, hasToken, false) && id != "" {
          assert i > 0 ==> rest[i - 1] == accounts[i];
        }
      }
    }
  }

  /** And in which order: that of the accounts. */
  lemma {:induction false} SchedulableKeepsOrder(first: seq<Account>, second: seq<Account>, hasToken: bool)
    ensures Schedulable(first + second, hasToken) == Schedulable(first, hasToken) + Schedulable(second, hasToken)
  {
    if first == [] {
      assert first + second == second;
    } else {
      assert (first + second)[1..] == first[1..] + second;
      SchedulableKeepsOrder(first[1..], second, hasToken);
    }
  }

  /** A reset rebuilds the queue, those with a token first, keeps the counts of queued accounts and no others, and wakes
      every waiter. */
  lemma ResetRebuilds(p: State, accounts: seq<Account>, settings: Settings)
    ensures var q := Reset(p, accounts, settings);
      && q.queue == Schedulable(accounts, true) + Schedulable(accounts, false)
      && (forall id :: id in q.queue <==> exists i | 0 <= i < |accounts| ::
        accounts[i].id == id && !accounts[i].offDuty && id != "")
      && (forall id :: Count(q.inUse, id) == if id in q.queue then Count(p.inUse, id) else 0)
      && q.waiters == [] && (forall w :: w in q.closed <==> w in p.closed || w in p.waiters)
      && q.maxInflight == settings.maxInflight
      && q.recommended == |q.queue| * (if settings.maxInflight >= 1 then settings.maxInflight else 2)
      && q.globalMax == settings.globalMax(q.recommended) && q.maxQueue == settings.maxQueue(q.recommended)
  {
    SchedulableIs(accounts, true);
    SchedulableIs(accounts, false);
    var q := Reset(p, accounts, settings);
    forall id ensures id in q.queue <==> exists i | 0 <= i < |accounts| ::
      accounts[i].id == id && !accounts[i].offDuty && id != ""
    {
      if i :| 0 <= i < |accounts| && accounts[i].id == id && !accounts[i].offDuty && id != "" {
        assert accounts[i] == Account(id, accounts[i].hasToken, false);
      }
    }
  }

  // ---------------------------------------------------------------- limits

  /** New limits: at least one slot an account, no negative list of waiters, and a global limit that is the sum of those
      of the accounts unless one is given. Nothing else changes but the first waiter, who is woken. */
  lemma LimitsAre(p: State, maxInflight: int, maxQueue: int, globalMax: int)
    ensures var q := Limited(p, maxInflight, maxQueue, globalMax);
      && q.maxInflight >= 1 && (maxInflight >= 1 ==> q.maxInflight == maxInflight)
      && (maxInflight < 1 ==> q.maxInflight == 1)
      && q.maxQueue >= 0 && (maxQueue >= 0 ==> q.maxQueue == maxQueue) && (maxQueue < 0 ==> q.maxQueue == 0)
      && q.globalMax >= 1 && (globalMax >= 1 ==> q.globalMax == globalMax)
      && (globalMax < 1 && p.queue != [] ==> q.globalMax == |p.queue| * q.maxInflight)
      && (globalMax < 1 && p.queue == [] ==> q.globalMax == q.maxInflight)
      && q.recommended == |p.queue| * q.maxInflight && q.queue == p.queue && q.inUse == p.inUse
      && (p.waiters != [] ==> q.waiters == p.waiters[1..] && q.closed == p.closed + {p.waiters[0]})
      && (p.waiters == [] ==> q.waiters == [] && q.closed == p.closed)
  {
    var m := if maxInflight <= 0 then 1 else maxInflight;
    if p.queue != [] {
      assert m * |p.queue| >= 1 by { TimesPositive(m, |p.queue|); }
    }
  }

  lemma TimesPositive(m: int, n: int)
    requires m >= 1 && n >= 1
    ensures m * n >= 1
  {
  }

  lemma {:induction false} TotalAtMost(inUse: map<string, nat>, m: int)
    requires forall id | id in inUse :: inUse[id] <= m
    ensures Total(inUse) <= m * |inUse|
    decreases |inUse|
  {
    if inUse != map[] {
      var id :| id in inUse;
      TotalPick(inUse, id);
      TotalAtMost(inUse - {id}, m);
      SizeWithout(inUse, id);
      TimesStep(m, |inUse|);
    }
  }

  lemma SizeWithout(inUse: map<string, nat>, id: string)
    requires id in inUse
    ensures |inUse - {id}| == |inUse| - 1
  {
    assert (inUse - {id}).Keys == inUse.Keys - {id};
    assert |(inUse - {id}).Keys| == |inUse - {id}| && |inUse.Keys| == |inUse|;
  }

  /** The global limit derived from the queue stands against nobody before its own limit does: while only queued
      accounts are in use and none above its limit, an account of the queue has room exactly while it is below its
      own. */
  lemma DerivedLimitNeverBinds(p: State, maxInflight: int, maxQueue: int, id: string)
    requires var q := Limited(p, maxInflight, maxQueue, 0);
      (forall x | x in p.inUse :: x in p.queue && p.inUse[x] <= q.maxInflight) && id in p.queue
    ensures var q := Limited(p, maxInflight, maxQueue, 0); HasRoom(q, id) <==> Count(q.inUse, id) < q.maxInflight
  {
    var q, others := Limited(p, maxInflight, maxQueue, 0), p.inUse - {id};
    var m := q.maxInflight;
    LimitsAre(p, maxInflight, maxQueue, 0);
    if Count(q.inUse, id) < m {
      var members := set x | x in p.queue;
      MembersAtMost(p.queue);
      assert others.Keys <= members - {id};
      SubsetSize(others.Keys, members - {id});
      TotalAtMost(others, m);
      if id in p.inUse {
        TotalPick(p.inUse, id);
      } else {
        assert others == p.inUse;
      }
      TimesAtMost(m, |others|, |p.queue| - 1);
      TimesStep(m, |p.queue|);
    }
  }

  lemma TimesStep(m: int, n: int)
    ensures m * n == m * (n - 1) + m
  {
  }

  lemma TimesAtMost(m: int, a: int, b: int)
    requires m >= 1 && a <= b
    ensures m * a <= m * b
  {
  }

  lemma SubsetSize(a: set<string>, b: set<string>)
    requires a <= b
    ensures |a| <= |b|
  {
    assert b == a + (b - a);
  }

  lemma {:induction false} MembersAtMost(queue: seq<string>)
    ensures |set x | x in queue| <= |queue|
    decreases |queue|
  {
    if queue != [] {
      MembersAtMost(queue[1..]);
      assert (set x | x in queue) == {queue[0]} + (set x | x in queue[1..]);
    }
  }

  // ---------------------------------------------------------------- waiting

  /** The list of waiters never grows over its size. */
  lemma QueueStaysBounded(p: State, env: Env, target: string, exclude: set<string>)
    requires CanQueue(p, env, target, exclude)
    ensures |Queued(p).waiters| <= p.maxQueue && Queued(p).waiters[|p.waiters|] == p.made
  {
  }

  /** A request may wait exactly while there is room in the list and some account it may have, once a slot of it is
      free, is neither excluded nor at the end of its day. */
  lemma MayWaitIff(p: State, env: Env, target: string, exclude: set<string>)
    ensures CanQueue(p, env, target, exclude) <==>
      |p.waiters| + 1 <= p.maxQueue &&
      exists id :: (if target != "" then id == target else id in p.queue) &&
        id !in exclude && !env.dailyLimited(id) && env.fits(id)
  {
    if target == "" {
      if i :| 0 <= i < |p.queue| && p.queue[i] !in exclude && !env.dailyLimited(p.queue[i]) && env.fits(p.queue[i]) {
        assert p.queue[i] in p.queue;
      }
    }
  }
}
