/** What one request of internal/auth/request.go goes through, over every run of interleaved requests: which accounts it
    is given, when it is served, and when it is turned away. */
module SlotRuns {

  import opened Basics
  import opened Pool
  import opened PoolRules
  import opened Slots

  // ---------------------------------------------------------------- single steps

  /** A request for any account that asks the pool is served while an account is free; else it waits while the list has
      room and some account may become free for it; else it is turned away. */
  lemma AskingIs(p: State, q: Request, env: Env)
    requires q.phase == Acquiring && q.target == ""
    ensures var (p', q') := OnTry(p, q, env);
      && (q'.phase == Ensuring <==> exists id | id in p.queue :: IsFree(p, env, q.tried, id))
      && (q'.phase == Ended <==>
        (forall id | id in p.queue :: !IsFree(p, env, q.tried, id)) &&
        (|p.waiters| + 1 <= p.maxQueue ==>
          forall id | id in p.queue :: id in q.tried || env.dailyLimited(id) || !env.fits(id)))
      && (q'.phase != Ensuring && q'.phase != Ended ==> q'.phase == Waiting(p.made))
  {
    GrantIsFirstFree(p, env, q.tried);
    MayWaitIff(p, env, "", q.tried);
  }

  /** The outcome of a login. A failed first login returns the slot, and the request asks again unless it named the
      account or the failure is not the account's; a failed replacement returns the slot and the search goes on. */
  lemma LoginIs(p: State, q: Request, fatal: bool)
    requires Tidy(q) && (q.phase == Ensuring || q.phase == SwitchEnsuring)
    ensures OnToken(p, q, true, fatal) == (p, q.(phase := Active))
    ensures var (p', q') := OnToken(p, q, false, fatal);
      && p' == Released(p, q.account) && q'.held == multiset{} && q'.tried == q.tried + {q.account}
      && (q.phase == SwitchEnsuring ==> q'.phase == Searching)
      && (q.phase == Ensuring ==> q'.account == "" && (q'.phase == Ended <==> fatal || q.target != ""))
      && (q.phase == Ensuring && q'.phase != Ended ==> q'.phase == Acquiring)
  {
  }

  /** A switch gives the account back and looks for one never tried; a request that named its account keeps it. */
  lemma SwitchIs(p: State, q: Request)
    requires Tidy(q) && q.phase == Active
    ensures var (p', q') := OnSwitch(p, q);
      && (q.target != "" ==> p' == p && q' == q)
      && (q.target == "" ==> q'.phase == Searching && q'.held == multiset{} && q'.tried == q.tried + {q.account})
      && (q.target == "" ==> p' == if q.account in q.released then p else Released(p, q.account))
  {
  }

  // ---------------------------------------------------------------- which accounts a request is given

  /** The account whose slot a request gained between two states. */
  function Gain(s: System, t: System, r: nat): seq<string> {
    if r in t.requests && t.requests[r].held != multiset{} && !(r in s.requests && s.requests[r].held != multiset{})
    then [t.requests[r].account] else []
  }

  /** The accounts a request gained in a run, in order. */
  ghost function Given(s: System, actions: seq<Action>, r: nat): seq<string>
    decreases |actions|
  {
    if actions == [] then [] else Gain(s, Step(s, actions[0]), r) + Given(Step(s, actions[0]), actions[1..], r)
  }

  predicate Remembers(q: Request, past: set<string>) {
    && past <= q.tried + {q.account}
    && (q.phase == Acquiring || q.phase.Waiting? || q.phase == Searching ==> past <= q.tried)
    && (q.target != "" ==> past <= {q.target} && q.phase != Searching && q.phase != SwitchEnsuring)
  }

  predicate RemembersIn(s: System, r: nat, past: set<string>) {
    if r in s.requests then Remembers(s.requests[r], past) else past == {}
  }

  ghost predicate Gains(q: Request, q': Request) {
    q.held == multiset{} && q'.held != multiset{}
  }

  lemma ActRemembers(p: State, q: Request, a: Action, past: set<string>)
    requires Tidy(q) && Remembers(q, past)
    ensures var q' := Act(p, q, a).1;
      && q'.target == q.target
      && (Gains(q, q') ==> q'.account !in past && Remembers(q', past + {q'.account}))
      && (!Gains(q, q') ==> Remembers(q', past))
  {
    match a
    case Try(_, env) => TryRemembers(p, q, env, past);
    case _ =>
  }

  lemma TryRemembers(p: State, q: Request, env: Env, past: set<string>)
    requires Tidy(q) && Remembers(q, past)
    ensures var q' := OnTry(p, q, env).1;
      && q'.target == q.target
      && (Gains(q, q') ==> q'.account !in past && Remembers(q', past + {q'.account}))
      && (!Gains(q, q') ==> Remembers(q', past))
  {
    GrantedIsNew(p, env, if q.phase == Acquiring then q.target else "", q.tried);
  }

  predicate Concerns(a: Action, r: nat) {
    !a.ResetPool? && !a.LimitPool? && a.r == r
  }

  /** Only its own actions move a request. */
  lemma OnlyItsOwn(s: System, a: Action, r: nat)
    ensures !Concerns(a, r) ==>
      var t := Step(s, a);
      (r in t.requests <==> r in s.requests) && (r in s.requests ==> t.requests[r] == s.requests[r])
    ensures r in s.requests && Concerns(a, r) && !a.Arrive? ==>
      r in Step(s, a).requests && Step(s, a).requests[r] == Act(s.pool, s.requests[r], a).1
    ensures r in s.requests && a.Arrive? ==> r in Step(s, a).requests && Step(s, a).requests[r] == s.requests[r]
    ensures r !in s.requests && r in Step(s, a).requests ==>
      Step(s, a).requests[r] == Request(Acquiring, Step(s, a).requests[r].target, "", {}, {}, multiset{})
  {
  }

  lemma StepRemembers(s: System, a: Action, r: nat, past: set<string>)
    requires Sound(s) && RemembersIn(s, r, past)
    ensures MovesOn(s, Step(s, a), r, past)
  {
    OnlyItsOwn(s, a, r);
    if r in s.requests && Concerns(a, r) && !a.Arrive? {
      ActRemembers(s.pool, s.requests[r], a, past);
      OwnMove(s, Step(s, a), r, past);
    } else {
      OtherMove(s, Step(s, a), r, past);
    }
  }

  /** What a step gives a request is new to it. */
  predicate MovesOn(s: System, t: System, r: nat, past: set<string>) {
    var g := Gain(s, t, r);
    && (g == [] || (|g| == 1 && g[0] !in past))
    && RemembersIn(t, r, past + Members(g))
    && (r in s.requests ==> r in t.requests && t.requests[r].target == s.requests[r].target)
  }

  lemma OwnMove(s: System, t: System, r: nat, past: set<string>)
    requires r in s.requests && r in t.requests && t.requests[r].target == s.requests[r].target
    requires var q, q' := s.requests[r], t.requests[r];
      && (Gains(q, q') ==> q'.account !in past && Remembers(q', past + {q'.account}))
      && (!Gains(q, q') ==> Remembers(q', past))
    ensures MovesOn(s, t, r, past)
  {
    var q, q' := s.requests[r], t.requests[r];
    if Gains(q, q') {
      assert Gain(s, t, r) == [q'.account] && Members([q'.account]) == {q'.account};
    } else {
      assert Gain(s, t, r) == [] && past + Members([]) == past;
    }
  }

  lemma OtherMove(s: System, t: System, r: nat, past: set<string>)
    requires RemembersIn(s, r, past)
    requires r in s.requests ==> r in t.requests && t.requests[r] == s.requests[r]
    requires r !in s.requests && r in t.requests ==>
      t.requests[r] == Request(Acquiring, t.requests[r].target, "", {}, {}, multiset{})
    ensures MovesOn(s, t, r, past)
  {
    assert Gain(s, t, r) == [] && past + Members([]) == past;
  }

  function Members(g: seq<string>): set<string> {
    set x | x in g
  }

  lemma {:induction false} GivenAreNew(s: System, actions: seq<Action>, r: nat, past: set<string>)
    requires Sound(s) && RemembersIn(s, r, past)
    ensures var g, e := Given(s, actions, r), Run(s, actions);
      && (forall x | x in g :: x !in past) && Distinct(g)
      && RemembersIn(e, r, past + Members(g))
      && (r in s.requests ==> r in e.requests && e.requests[r].target == s.requests[r].target)
    decreases |actions|
  {
    if actions == [] {
      assert past + Members([]) == past;
    } else {
      var first, next := Gain(s, Step(s, actions[0]), r), Step(s, actions[0]);
      StepRemembers(s, actions[0], r, past);
      StepKeepsSound(s, actions[0]);
      GivenAreNew(next, actions[1..], r, past + Members(first));
      NewAppend(past, first, Given(next, actions[1..], r));
    }
  }

  lemma NewAppend(past: set<string>, first: seq<string>, rest: seq<string>)
    requires first == [] || (|first| == 1 && first[0] !in past)
    requires (forall x | x in rest :: x !in past + Members(first)) && Distinct(rest)
    ensures (forall x | x in first + rest :: x !in past) && Distinct(first + rest)
    ensures past + Members(first) + Members(rest) == past + Members(first + rest)
  {
    var all := first + rest;
    assert first != [] ==> first[0] in Members(first);
    forall i, j | 0 <= i < j < |all| ensures all[i] != all[j] {
      if i < |first| {
        assert all[i] == first[0] && all[j] == rest[j - |first|] && all[j] in rest;
      }
    }
  }

  /** In every run no request is given an account twice, and one that names its account is given no other. */
  lemma NoAccountTwice(s: System, actions: seq<Action>, r: nat)
    requires Initial(s)
    ensures var g, e := Given(s, actions, r), Run(s, actions);
      && Distinct(g)
      && (g != [] ==> r in e.requests)
      && (r in e.requests && e.requests[r].target != "" ==> g == [] || g == [e.requests[r].target])
  {
    InitialIsSound(s);
    GivenAreNew(s, actions, r, {});
    var g, e := Given(s, actions, r), Run(s, actions);
    if g != [] {
      assert g[0] in {} + Members(g);
    }
    if r in e.requests && e.requests[r].target != "" {
      var target := e.requests[r].target;
      DistinctSize(g);
      assert {} + Members(g) == Members(g) && Members(g) <= {target};
      SubsetSize(Members(g), {target});
      assert g != [] ==> g[0] in Members(g);
    }
  }

  // ---------------------------------------------------------------- when a request is served

  /** The account that logs in for a request in a step. */
  ghost function Login(s: System, a: Action, r: nat): set<string> {
    if a.Token? && a.r == r && a.ok && r in s.requests then {s.requests[r].account} else {}
  }

  ghost function LoggedIn(s: System, actions: seq<Action>, r: nat): set<string>
    decreases |actions|
  {
    if actions == [] then {} else Login(s, actions[0], r) + LoggedIn(Step(s, actions[0]), actions[1..], r)
  }

  predicate IsServed(q: Request) {
    q.phase == Active && q.account !in q.released
  }

  predicate ServedIn(s: System, r: nat, past: set<string>) {
    r in s.requests && IsServed(s.requests[r]) ==> s.requests[r].account in past
  }

  lemma ActServes(p: State, q: Request, a: Action)
    requires Tidy(q)
    ensures var q' := Act(p, q, a).1;
      IsServed(q') ==> q'.account == q.account && (IsServed(q) || (a.Token? && a.ok))
  {
  }

  lemma StepServes(s: System, a: Action, r: nat, past: set<string>)
    requires Sound(s) && ServedIn(s, r, past)
    ensures ServedIn(Step(s, a), r, past + Login(s, a, r))
  {
    OnlyItsOwn(s, a, r);
    if r in s.requests && Concerns(a, r) && !a.Arrive? {
      ActServes(s.pool, s.requests[r], a);
    }
  }

  lemma {:induction false} ServedSince(s: System, actions: seq<Action>, r: nat, past: set<string>)
    requires Sound(s) && ServedIn(s, r, past)
    ensures ServedIn(Run(s, actions), r, past + LoggedIn(s, actions, r))
    decreases |actions|
  {
    if actions == [] {
      assert past + {} == past;
    } else {
      var a, next := actions[0], Step(s, actions[0]);
      StepServes(s, a, r, past);
      StepKeepsSound(s, a);
      ServedSince(next, actions[1..], r, past + Login(s, a, r));
      assert past + Login(s, a, r) + LoggedIn(next, actions[1..], r) == past + LoggedIn(s, actions, r);
    }
  }

  /** In every run a request that is served has a slot of its account, and that account has logged in for it. */
  lemma ServedHasLoggedIn(s: System, actions: seq<Action>, r: nat)
    requires Initial(s)
    ensures var e := Run(s, actions);
      r in e.requests && IsServed(e.requests[r]) ==>
        e.requests[r].account in LoggedIn(s, actions, r) && e.requests[r].held == multiset{e.requests[r].account}
  {
    InitialIsSound(s);
    ServedSince(s, actions, r, {});
    RunKeepsSound(s, actions);
    assert {} + LoggedIn(s, actions, r) == LoggedIn(s, actions, r);
  }

  // ---------------------------------------------------------------- when a request is turned away

  /** A request for any account has tried accounts of the queue only. */
  predicate TriesFrom(queue: seq<string>, q: Request) {
    q.target == "" ==> (q.account == "" || q.account in queue) && forall id | id in q.tried :: id in queue
  }

  ghost predicate TriesQueued(s: System) {
    Distinct(s.pool.queue) && forall r | r in s.requests :: TriesFrom(s.pool.queue, s.requests[r])
  }

  ghost predicate SameMembers(p: State, p': State) {
    Distinct(p'.queue) && forall id :: id in p'.queue <==> id in p.queue
  }

  lemma ActTriesQueued(p: State, q: Request, a: Action)
    requires Tidy(q) && Distinct(p.queue) && TriesFrom(p.queue, q)
    ensures var (p', q') := Act(p, q, a); SameMembers(p, p') && TriesFrom(p'.queue, q')
  {
    match a
    case Try(_, env) => TryTriesQueued(p, q, env);
    case _ => assert Released(p, q.account).queue == p.queue;
  }

  lemma TryTriesQueued(p: State, q: Request, env: Env)
    requires Tidy(q) && Distinct(p.queue) && TriesFrom(p.queue, q)
    ensures var (p', q') := OnTry(p, q, env); SameMembers(p, p') && TriesFrom(p'.queue, q')
  {
    var target := if q.phase == Acquiring then q.target else "";
    var g := Granted(p, env, target, q.tried);
    GrantIsFirstFree(p, env, q.tried);
    if g.Some? {
      BumpedKeepsDistinct(p.queue, g.value);
      assert target == "" ==> g.value in p.queue;
    }
  }

  lemma StaysTriedFrom(p: State, p': State, q: Request)
    requires SameMembers(p, p') && TriesFrom(p.queue, q)
    ensures TriesFrom(p'.queue, q)
  {
  }

  lemma MoveTriesQueued(s: System, p: State, q: Request, r: nat)
    requires TriesQueued(s) && SameMembers(s.pool, p) && TriesFrom(p.queue, q)
    ensures TriesQueued(System(p, s.requests[r := q]))
  {
    forall k | k in s.requests ensures TriesFrom(p.queue, s.requests[k]) {
      StaysTriedFrom(s.pool, p, s.requests[k]);
    }
  }

  lemma StepTriesQueued(s: System, a: Action)
    requires Sound(s) && TriesQueued(s) && !a.ResetPool?
    ensures TriesQueued(Step(s, a))
  {
    match a
    case ResetPool(_, _) =>
    case LimitPool(maxInflight, maxQueue, globalMax) =>
      LimitsAre(s.pool, maxInflight, maxQueue, globalMax);
    case Arrive(r, target) =>
      MoveTriesQueued(s, s.pool, Request(Acquiring, target, "", {}, {}, multiset{}), r);
    case _ =>
      if a.r in s.requests {
        var (p, q) := Act(s.pool, s.requests[a.r], a);
        ActTriesQueued(s.pool, s.requests[a.r], a);
        MoveTriesQueued(s, p, q, a.r);
      }
  }

  lemma {:induction false} RunTriesQueued(s: System, actions: seq<Action>)
    requires Sound(s) && TriesQueued(s) && forall a | a in actions :: !a.ResetPool?
    ensures TriesQueued(Run(s, actions))
    decreases |actions|
  {
    if actions != [] {
      assert actions[0] in actions;
      StepTriesQueued(s, actions[0]);
      StepKeepsSound(s, actions[0]);
      RunTriesQueued(Step(s, actions[0]), actions[1..]);
    }
  }

  lemma {:induction false} DistinctSize(queue: seq<string>)
    requires Distinct(queue)
    ensures |Members(queue)| == |queue|
    decreases |queue|
  {
    if queue != [] {
      DistinctSize(queue[1..]);
      assert Members(queue) == {queue[0]} + Members(queue[1..]);
    }
  }

  lemma Exhausts(tried: set<string>, queue: seq<string>)
    requires Distinct(queue) && tried <= Members(queue)
    ensures |tried| >= |queue| <==> forall id | id in queue :: id in tried
  {
    DistinctSize(queue);
    var rest := Members(queue) - tried;
    assert |rest| == |queue| - |tried|;
    if |tried| >= |queue| {
      forall id | id in queue ensures id in tried {
        assert rest == {};
        assert id in tried || id in rest;
      }
    }
    if forall id | id in queue :: id in tried {
      assert rest == {};
    }
  }

  /** In every run without resets the count of tried accounts ends a request exactly when it asks for any account and
      has tried every account of the queue. */
  lemma RefusedIffAllTried(s: System, actions: seq<Action>, r: nat)
    requires Initial(s) && Distinct(s.pool.queue) && forall a | a in actions :: !a.ResetPool?
    requires r in Run(s, actions).requests
    ensures var e := Run(s, actions);
      var q, q' := e.requests[r], Step(e, Refuse(r)).requests[r];
      if q.phase == Acquiring && q.target == "" && forall id | id in e.pool.queue :: id in q.tried
      then q'.phase == Ended else q' == q
  {
    InitialIsSound(s);
    RunTriesQueued(s, actions);
    var e := Run(s, actions);
    if e.requests[r].target == "" {
      assert TriesFrom(e.pool.queue, e.requests[r]);
      Exhausts(e.requests[r].tried, e.pool.queue);
    }
  }

  /** Runs may begin with any queue and any limits. */
  lemma FreshIsInitial(queue: seq<string>, maxInflight: int, globalMax: int, recommended: int, maxQueue: int)
    ensures Initial(System(State(queue, map[], [], {}, 0, maxInflight, globalMax, recommended, maxQueue), map[]))
  {
  }
}
