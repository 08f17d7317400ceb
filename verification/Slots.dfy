/** The slot ledger of internal/auth/request.go: concurrent requests that take a pool account, switch it,
    fail to switch it, and return it at the end. One action is one section between two lock operations. */
module Slots {

  import opened Basics
  import opened Pool

  datatype Phase =
    | Acquiring               // in the loop of acquireManagedRequestAuth
    | Waiting(waiter: nat)    // blocked in AcquireWait
    | Ensuring                // in ensureManagedToken for a first account
    | Active                  // the caller holds the RequestAuth
    | Searching               // in the loop of SwitchAccount
    | SwitchEnsuring          // in ensureManagedToken for a replacement
    | Ended

  // account, tried and released are AccountID, TriedAccounts and releasedAccounts. held is the ledger the
  // theorems are about: one entry for each slot granted to this request, removed when it calls Pool.Release.
  datatype Request = Request(
    phase: Phase, target: string, account: string, tried: set<string>, released: set<string>, held: multiset<string>)

  datatype System = System(pool: State, requests: map<nat, Request>)

  datatype Action =
    | Arrive(r: nat, target: string)
    | Try(r: nat, env: Env)                        // AcquireWait or SwitchAccount asks the pool
    | Refuse(r: nat)                               // every schedulable account was tried
    | Abort(r: nat)                                // the context ended before asking
    | Wake(r: nat)
    | Cancel(r: nat)                               // the context ended while waiting
    | Token(r: nat, ok: bool, fatal: bool)         // ensureManagedToken returns
    | Switch(r: nat)
    | Finish(r: nat)
    | ResetPool(accounts: seq<Account>, settings: Settings)
    | LimitPool(maxInflight: int, maxQueue: int, globalMax: int)

  /** releaseAccountSlot. */
  function GiveBack(p: State, q: Request): (State, Request) {
    if q.account in q.released then (p, q)
    else (Released(p, q.account), q.(released := q.released + {q.account}, held := q.held - multiset{q.account}))
  }

  function Tried(q: Request): Request {
    q.(tried := q.tried + {q.account})
  }

  ghost function OnTry(p: State, q: Request, env: Env): (State, Request) {
    match q.phase
    case Acquiring =>
      var g := Granted(p, env, q.target, q.tried);
      if g.Some? then (Taken(p, g.value),
        q.(phase := Ensuring, account := g.value, released := {}, held := q.held + multiset{g.value}))
      else if CanQueue(p, env, q.target, q.tried) then (Queued(p), q.(phase := Waiting(p.made)))
      else (p, q.(phase := Ended))
    case Searching =>
      var g := Granted(p, env, "", q.tried);
      if g.Some? then (Taken(p, g.value),
        q.(phase := SwitchEnsuring, account := g.value, held := q.held + multiset{g.value}))
      else (p, q.(phase := Active))
    case _ => (p, q)
  }

  function OnToken(p: State, q: Request, ok: bool, fatal: bool): (State, Request) {
    match q.phase
    case Ensuring =>
      if ok then (p, q.(phase := Active))
      else
        (Released(p, q.account),
         Tried(q).(held := q.held - multiset{q.account}, account := "",
                   phase := if q.target != "" || fatal then Ended else Acquiring))
    case SwitchEnsuring =>
      if ok then (p, q.(phase := Active))
      else var (p', q') := GiveBack(p, Tried(q)); (p', q'.(phase := Searching))
    case _ => (p, q)
  }

  function OnSwitch(p: State, q: Request): (State, Request) {
    if q.phase != Active || q.target != "" then (p, q)
    else var (p', q') := GiveBack(p, Tried(q)); (p', q'.(phase := Searching))
  }

  function OnFinish(p: State, q: Request): (State, Request) {
    if q.phase != Active then (p, q)
    else var (p', q') := GiveBack(p, q); (p', q'.(phase := Ended))
  }

  function OnWait(p: State, q: Request, a: Action): (State, Request) {
    match a
    case Refuse(_) => (p, if q.phase == Acquiring && q.target == "" && |q.tried| >= |p.queue| then q.(phase := Ended)
      else q)
    case Abort(_) => (p, if q.phase == Acquiring then q.(phase := Ended) else q)
    case Wake(_) => (p, if q.phase.Waiting? && q.phase.waiter in p.closed then q.(phase := Acquiring) else q)
    case Cancel(_) => if q.phase.Waiting? then (Cancelled(p, q.phase.waiter), q.(phase := Ended)) else (p, q)
    case _ => (p, q)
  }

  /** What an action of one request does to the pool and to that request. */
  ghost function Act(p: State, q: Request, a: Action): (State, Request) {
    match a
    case Try(_, env) => OnTry(p, q, env)
    case Token(_, ok, fatal) => OnToken(p, q, ok, fatal)
    case Switch(_) => OnSwitch(p, q)
    case Finish(_) => OnFinish(p, q)
    case _ => OnWait(p, q, a)
  }

  ghost function Step(s: System, a: Action): System {
    match a
    case ResetPool(accounts, settings) => s.(pool := Reset(s.pool, accounts, settings))
    case LimitPool(maxInflight, maxQueue, globalMax) => s.(pool := Limited(s.pool, maxInflight, maxQueue, globalMax))
    case Arrive(r, target) =>
      if r in s.requests then s
      else s.(requests := s.requests[r := Request(Acquiring, target, "", {}, {}, multiset{})])
    case _ =>
      if a.r !in s.requests then s
      else var (p, q) := Act(s.pool, s.requests[a.r], a); System(p, s.requests[a.r := q])
  }

  ghost function Run(s: System, actions: seq<Action>): System
    decreases |actions|
  {
    if actions == [] then s else Run(Step(s, actions[0]), actions[1..])
  }

  // ---------------------------------------------------------------- one request

  /** The slots a request holds: the one on its account, unless that account was given back. */
  predicate HoldsExactly(q: Request) {
    q.held == if q.account == "" || q.account in q.released then multiset{} else multiset{q.account}
  }

  predicate Tidy(q: Request) {
    && HoldsExactly(q) && (q.phase != Ended ==> q.released <= q.tried) && "" !in q.released
    && (q.phase == Acquiring || q.phase.Waiting? ==> q.account == "")
    && (q.phase == Ensuring || q.phase == SwitchEnsuring ==> q.account != "" && q.account !in q.released)
    && (q.phase == Active ==> q.account != "")
    && (q.phase == Searching ==> q.account != "" && q.account in q.released)
    && (q.phase == Ended ==> q.held == multiset{})
  }

  /** An action keeps a request tidy, and takes or returns at most one slot, in step with the pool. */
  ghost predicate InStep(p: State, q: Request, p': State, q': Request) {
    Tidy(q') && (Unmoved(p, q, p', q') || Takes(p, q, p', q') || Returns(p, q, p', q'))
  }

  ghost predicate Unmoved(p: State, q: Request, p': State, q': Request) {
    p'.inUse == p.inUse && q'.held == q.held
  }

  ghost predicate Takes(p: State, q: Request, p': State, q': Request) {
    var id := q'.account;
    p'.inUse == p.inUse[id := Count(p.inUse, id) + 1] && q.held == multiset{} && q'.held == multiset{id}
  }

  ghost predicate Returns(p: State, q: Request, p': State, q': Request) {
    var id := q.account;
    p'.inUse == Released(p, id).inUse && id != "" && q.held == multiset{id} && q'.held == multiset{}
  }

  lemma GiveBackInStep(p: State, q: Request)
    requires HoldsExactly(q) && q.account != "" && "" !in q.released
    ensures var (p', q') := GiveBack(p, q);
      && q'.held == multiset{} && HoldsExactly(q') && q'.account == q.account && q'.tried == q.tried
      && q'.released == q.released + {q.account}
      && (Unmoved(p, q, p', q') || Returns(p, q, p', q'))
  {
    if q.account in q.released {
      assert q.released + {q.account} == q.released;
    }
  }

  lemma TryInStep(p: State, q: Request, env: Env)
    requires Tidy(q)
    ensures var (p', q') := OnTry(p, q, env); InStep(p, q, p', q')
  {
    var g := Granted(p, env, if q.phase == Acquiring then q.target else "", q.tried);
    if g.Some? {
      GrantedIsNew(p, env, if q.phase == Acquiring then q.target else "", q.tried);
      if q.phase == Acquiring || q.phase == Searching {
        TakeInStep(p, q, g.value);
      }
    }
  }

  lemma GrantedIsNew(p: State, env: Env, target: string, exclude: set<string>)
    ensures var g := Granted(p, env, target, exclude); g.Some? ==> g.value != "" && g.value !in exclude
  {
  }

  lemma TakeInStep(p: State, q: Request, id: string)
    requires Tidy(q) && (q.phase == Acquiring || q.phase == Searching) && id != "" && id !in q.tried
    ensures q.phase == Acquiring ==>
      InStep(p, q, Taken(p, id), q.(phase := Ensuring, account := id, released := {}, held := q.held + multiset{id}))
    ensures q.phase == Searching ==>
      InStep(p, q, Taken(p, id), q.(phase := SwitchEnsuring, account := id, held := q.held + multiset{id}))
  {
  }

  lemma TokenInStep(p: State, q: Request, ok: bool, fatal: bool)
    requires Tidy(q)
    ensures var (p', q') := OnToken(p, q, ok, fatal); InStep(p, q, p', q')
  {
    if q.phase == SwitchEnsuring && !ok {
      GiveBackInStep(p, Tried(q));
    }
  }

  lemma SwitchInStep(p: State, q: Request)
    requires Tidy(q)
    ensures var (p', q') := OnSwitch(p, q); InStep(p, q, p', q')
  {
    if q.phase == Active && q.target == "" {
      GiveBackInStep(p, Tried(q));
    }
  }

  lemma FinishInStep(p: State, q: Request)
    requires Tidy(q)
    ensures var (p', q') := OnFinish(p, q); InStep(p, q, p', q')
  {
    if q.phase == Active {
      GiveBackInStep(p, q);
    }
  }

  lemma ActInStep(p: State, q: Request, a: Action)
    requires Tidy(q)
    ensures var (p', q') := Act(p, q, a); InStep(p, q, p', q')
  {
    match a
    case Try(_, env) => TryInStep(p, q, env);
    case Token(_, ok, fatal) => TokenInStep(p, q, ok, fatal);
    case Switch(_) => SwitchInStep(p, q);
    case Finish(_) => FinishInStep(p, q);
    case _ => WaitInStep(p, q, a);
  }

  lemma WaitInStep(p: State, q: Request, a: Action)
    requires Tidy(q)
    ensures var (p', q') := OnWait(p, q, a); InStep(p, q, p', q')
  {
  }

  // ---------------------------------------------------------------- all requests

  ghost predicate AllTidy(s: System) {
    forall r | r in s.requests :: Tidy(s.requests[r])
  }

  lemma UpdateKeepsTidy(s: System, p: State, r: nat, q: Request)
    requires AllTidy(s) && Tidy(q)
    ensures AllTidy(System(p, s.requests[r := q]))
  {
  }

  /** The requests that hold a slot of the account. */
  ghost function Holders(requests: map<nat, Request>, id: string): set<nat> {
    set r | r in requests && id in requests[r].held
  }

  ghost predicate CountsAtMostHolders(s: System) {
    (forall id :: Count(s.pool.inUse, id) <= |Holders(s.requests, id)|) &&
      forall id | id in s.pool.inUse :: s.pool.inUse[id] > 0
  }

  ghost predicate CountsHolders(s: System) {
    forall id :: Count(s.pool.inUse, id) == |Holders(s.requests, id)|
  }

  lemma SwapMember(before: set<nat>, after: set<nat>, r: nat, b: bool)
    requires after == before - {r} + (if b then {r} else {})
    ensures |after| == |before| - (if r in before then 1 else 0) + (if b then 1 else 0)
  {
    assert |before - {r}| == |before| - if r in before then 1 else 0;
  }

  lemma HoldersAfter(requests: map<nat, Request>, r: nat, q: Request, id: string)
    requires r in requests
    ensures var held, holds := id in requests[r].held, id in q.held;
      |Holders(requests[r := q], id)| == |Holders(requests, id)| - (if held then 1 else 0) + (if holds then 1 else 0)
  {
    var before, after := Holders(requests, id), Holders(requests[r := q], id);
    forall k ensures k in after <==> k in before - {r} + (if id in q.held then {r} else {}) {
    }
    SwapMember(before, after, r, id in q.held);
  }

  lemma CountAfterRelease(p: State, id: string, other: string)
    requires id != ""
    ensures Count(Released(p, id).inUse, other) ==
            if other == id && Count(p.inUse, id) > 0 then Count(p.inUse, id) - 1 else Count(p.inUse, other)
  {
  }

  /** How one action moves the count and the number of holders of one account. */
  lemma CountsMoveTogether(s: System, r: nat, p: State, q: Request, id: string)
    requires r in s.requests && InStep(s.pool, s.requests[r], p, q)
    ensures var before, after := |Holders(s.requests, id)|, |Holders(s.requests[r := q], id)|;
      var count := Count(s.pool.inUse, id);
      || (Count(p.inUse, id) == count && after == before)
      || (Count(p.inUse, id) == count + 1 && after == before + 1)
      || (Count(p.inUse, id) == (if count > 0 then count - 1 else 0) && after == before - 1)
  {
    HoldersAfter(s.requests, r, q, id);
    if Returns(s.pool, s.requests[r], p, q) {
      CountAfterRelease(s.pool, s.requests[r].account, id);
    }
  }

  lemma ActCounts(s: System, r: nat, p: State, q: Request)
    requires r in s.requests && InStep(s.pool, s.requests[r], p, q)
    ensures var next := System(p, s.requests[r := q]);
      (CountsAtMostHolders(s) ==> CountsAtMostHolders(next)) && (CountsHolders(s) ==> CountsHolders(next))
  {
    forall id: string
      ensures CountsAtMostHolders(s) ==> Count(p.inUse, id) <= |Holders(s.requests[r := q], id)|
      ensures CountsHolders(s) ==> Count(p.inUse, id) == |Holders(s.requests[r := q], id)|
    {
      CountsMoveTogether(s, r, p, q, id);
      assert CountsAtMostHolders(s) ==> Count(s.pool.inUse, id) <= |Holders(s.requests, id)|;
    }
    if CountsAtMostHolders(s) {
      PositiveAfter(s.pool, s.requests[r], p, q);
    }
  }

  lemma PositiveAfter(p: State, q: Request, p': State, q': Request)
    requires InStep(p, q, p', q') && forall id | id in p.inUse :: p.inUse[id] > 0
    ensures forall id | id in p'.inUse :: p'.inUse[id] > 0
  {
  }

  /** The condition on a reset: every account somebody holds is still queued afterwards. */
  ghost predicate KeepsHeld(s: System, a: Action) {
    a.ResetPool? ==> forall id | Holders(s.requests, id) != {} :: id in Reset(s.pool, a.accounts, a.settings).queue
  }

  /** A reset leaves the counts exact if and only if it keeps every held account queued. */
  lemma ResetIsExactIff(s: System, a: Action)
    requires CountsHolders(s) && a.ResetPool?
    ensures CountsHolders(Step(s, a)) <==> KeepsHeld(s, a)
  {
    var next := Step(s, a);
    forall id ensures Count(next.pool.inUse, id) == (if id in next.pool.queue then Count(s.pool.inUse, id) else 0) {
    }
    if CountsHolders(next) {
      forall id | Holders(s.requests, id) != {} ensures id in next.pool.queue {
        assert Count(next.pool.inUse, id) == |Holders(s.requests, id)|;
      }
    } else {
      var id :| Count(next.pool.inUse, id) != |Holders(s.requests, id)|;
      assert Count(s.pool.inUse, id) == |Holders(s.requests, id)|;
    }
  }

  ghost predicate Sound(s: System) {
    AllTidy(s) && CountsAtMostHolders(s)
  }

  lemma ResetKeepsSound(s: System, a: Action)
    requires Sound(s) && a.ResetPool?
    ensures Sound(Step(s, a))
    ensures CountsHolders(s) && KeepsHeld(s, a) ==> CountsHolders(Step(s, a))
  {
    var next := Step(s, a);
    forall id: string ensures Count(next.pool.inUse, id) <= |Holders(next.requests, id)| {
      assert Count(s.pool.inUse, id) <= |Holders(s.requests, id)|;
    }
    if CountsHolders(s) {
      ResetIsExactIff(s, a);
    }
  }

  /** Same counts and same ledgers. */
  lemma SameCounts(s: System, next: System)
    requires next.pool.inUse == s.pool.inUse
    requires forall id :: Holders(next.requests, id) == Holders(s.requests, id)
    ensures (CountsAtMostHolders(s) ==> CountsAtMostHolders(next)) && (CountsHolders(s) ==> CountsHolders(next))
  {
    forall id: string
      ensures CountsAtMostHolders(s) ==> Count(next.pool.inUse, id) <= |Holders(next.requests, id)|
      ensures CountsHolders(s) ==> Count(next.pool.inUse, id) == |Holders(next.requests, id)|
    {
      assert CountsAtMostHolders(s) ==> Count(s.pool.inUse, id) <= |Holders(s.requests, id)|;
      assert CountsHolders(s) ==> Count(s.pool.inUse, id) == |Holders(s.requests, id)|;
    }
  }

  lemma ArriveKeepsSound(s: System, r: nat, target: string)
    requires Sound(s)
    ensures var next := Step(s, Arrive(r, target)); Sound(next) && (CountsHolders(s) ==> CountsHolders(next))
  {
    if r !in s.requests {
      var q := Request(Acquiring, target, "", {}, {}, multiset{});
      var next := System(s.pool, s.requests[r := q]);
      UpdateKeepsTidy(s, s.pool, r, q);
      forall id: string ensures Holders(next.requests, id) == Holders(s.requests, id) {
      }
      SameCounts(s, next);
    }
  }

  lemma ActKeepsSound(s: System, r: nat, a: Action)
    requires Sound(s) && r in s.requests
    ensures var (p, q) := Act(s.pool, s.requests[r], a);
      var next := System(p, s.requests[r := q]);
      Sound(next) && (CountsHolders(s) ==> CountsHolders(next))
  {
    ActInStep(s.pool, s.requests[r], a);
    var (p, q) := Act(s.pool, s.requests[r], a);
    ActCounts(s, r, p, q);
    UpdateKeepsTidy(s, p, r, q);
  }

  lemma StepKeepsSound(s: System, a: Action)
    requires Sound(s)
    ensures Sound(Step(s, a))
    ensures CountsHolders(s) && KeepsHeld(s, a) ==> CountsHolders(Step(s, a))
  {
    match a
    case ResetPool(_, _) => ResetKeepsSound(s, a);
    case LimitPool(_, _, _) => SameCounts(s, Step(s, a));
    case Arrive(r, target) => ArriveKeepsSound(s, r, target);
    case _ =>
      if a.r in s.requests {
        ActKeepsSound(s, a.r, a);
      }
  }

  // ---------------------------------------------------------------- whole runs

  /** A pool in which nothing is in use, with no requests yet. */
  ghost predicate Initial(s: System) {
    s.pool.inUse == map[] && s.pool.waiters == [] && s.pool.closed == {} && s.requests == map[]
  }

  ghost predicate ResetsKeepHeld(s: System, actions: seq<Action>)
    decreases |actions|
  {
    actions == [] || (KeepsHeld(s, actions[0]) && ResetsKeepHeld(Step(s, actions[0]), actions[1..]))
  }

  lemma {:induction false} RunKeepsSound(s: System, actions: seq<Action>)
    requires Sound(s)
    ensures Sound(Run(s, actions))
    ensures CountsHolders(s) && ResetsKeepHeld(s, actions) ==> CountsHolders(Run(s, actions))
    decreases |actions|
  {
    if actions != [] {
      StepKeepsSound(s, actions[0]);
      RunKeepsSound(Step(s, actions[0]), actions[1..]);
    }
  }

  lemma InitialIsSound(s: System)
    requires Initial(s)
    ensures Sound(s) && CountsHolders(s)
  {
    forall id: string ensures Holders(s.requests, id) == {} {
    }
  }

  /** In every run of interleaved requests, resets and limit changes, each request holds exactly one slot,
      on its account, unless that account is among those it gave back; and holds none once it has ended. */
  lemma LedgerIsExact(s: System, actions: seq<Action>, r: nat)
    requires Initial(s) && r in Run(s, actions).requests
    ensures var q := Run(s, actions).requests[r];
      HoldsExactly(q) && (q.phase == Ended ==> q.held == multiset{})
  {
    InitialIsSound(s);
    RunKeepsSound(s, actions);
  }

  /** The pool never counts more holders than an account has; and counts them exactly when no reset drops
      an account that is held. */
  lemma CountsAreHolders(s: System, actions: seq<Action>, id: string)
    requires Initial(s)
    ensures var e := Run(s, actions); Count(e.pool.inUse, id) <= |Holders(e.requests, id)|
    ensures var e := Run(s, actions); ResetsKeepHeld(s, actions) ==>
      Count(e.pool.inUse, id) == |Holders(e.requests, id)|
  {
    InitialIsSound(s);
    RunKeepsSound(s, actions);
  }

  /** Whatever the resets did, when every request has ended no slot is left in use. */
  lemma NothingLeaks(s: System, actions: seq<Action>)
    requires Initial(s) && forall r | r in Run(s, actions).requests :: Run(s, actions).requests[r].phase == Ended
    ensures Run(s, actions).pool.inUse == map[]
  {
    InitialIsSound(s);
    RunKeepsSound(s, actions);
    var e := Run(s, actions);
    forall id ensures id !in e.pool.inUse {
      assert Holders(e.requests, id) == {};
      assert Count(e.pool.inUse, id) <= |Holders(e.requests, id)|;
    }
  }

  /** With such resets an account is granted only while fewer requests hold it than it may serve. */
  lemma AdmissionIsBounded(s: System, actions: seq<Action>, env: Env, target: string, exclude: set<string>)
    requires Initial(s) && ResetsKeepHeld(s, actions)
    requires Granted(Run(s, actions).pool, env, target, exclude).Some?
    ensures var e := Run(s, actions);
      |Holders(e.requests, Granted(e.pool, env, target, exclude).value)| < e.pool.maxInflight
  {
    InitialIsSound(s);
    RunKeepsSound(s, actions);
    var e := Run(s, actions);
    var id := Granted(e.pool, env, target, exclude).value;
    assert Count(e.pool.inUse, id) == |Holders(e.requests, id)|;
  }

  // ---------------------------------------------------------------- the limits over whole runs

  /** The condition on resets and limit changes: what is in use must fit the new limits. */
  ghost predicate KeepsLimits(s: System, a: Action) {
    a.ResetPool? || a.LimitPool? ==> WithinLimits(Step(s, a).pool)
  }

  ghost predicate LimitsKept(s: System, actions: seq<Action>)
    decreases |actions|
  {
    actions == [] || (KeepsLimits(s, actions[0]) && LimitsKept(Step(s, actions[0]), actions[1..]))
  }

  lemma ActKeepsLimits(p: State, q: Request, a: Action)
    requires WithinLimits(p)
    ensures WithinLimits(Act(p, q, a).0)
  {
    match a
    case Try(_, env) => TryKeepsLimits(p, q, env);
    case Token(_, _, _) => ReleaseStaysWithinLimits(p, q.account);
    case Switch(_) => ReleaseStaysWithinLimits(p, q.account);
    case Finish(_) => ReleaseStaysWithinLimits(p, q.account);
    case _ =>
  }

  lemma TryKeepsLimits(p: State, q: Request, env: Env)
    requires WithinLimits(p)
    ensures WithinLimits(OnTry(p, q, env).0)
  {
    var target := if q.phase == Acquiring then q.target else "";
    if Granted(p, env, target, q.tried).Some? {
      GrantStaysWithinLimits(p, env, target, q.tried);
    }
  }

  lemma {:induction false} RunKeepsLimits(s: System, actions: seq<Action>)
    requires WithinLimits(s.pool) && LimitsKept(s, actions)
    ensures WithinLimits(Run(s, actions).pool)
    decreases |actions|
  {
    if actions != [] {
      var a := actions[0];
      if !a.ResetPool? && !a.LimitPool? && a.r in s.requests && !a.Arrive? {
        ActKeepsLimits(s.pool, s.requests[a.r], a);
      }
      RunKeepsLimits(Step(s, a), actions[1..]);
    }
  }

  /** The requests that hold a slot of any account. */
  ghost function SlotHolders(requests: map<nat, Request>): set<nat> {
    set r | r in requests && requests[r].held != multiset{}
  }

  /** All counts together are the requests that hold a slot. */
  ghost predicate TotalIsActive(s: System) {
    Total(s.pool.inUse) == |SlotHolders(s.requests)|
  }

  lemma ActiveAfter(requests: map<nat, Request>, r: nat, q: Request)
    requires r in requests
    ensures var had, has := requests[r].held != multiset{}, q.held != multiset{};
      |SlotHolders(requests[r := q])| == |SlotHolders(requests)| - (if had then 1 else 0) + (if has then 1 else 0)
  {
    var before, after := SlotHolders(requests), SlotHolders(requests[r := q]);
    forall k ensures k in after <==> k in before - {r} + (if q.held != multiset{} then {r} else {}) {
    }
    SwapMember(before, after, r, q.held != multiset{});
  }

  lemma TotalAfterRelease(p: State, id: string)
    requires id != "" && Count(p.inUse, id) > 0
    ensures Total(Released(p, id).inUse) == Total(p.inUse) - 1
  {
    TotalPick(p.inUse, id);
    TotalUpdate(p.inUse, id, Count(p.inUse, id) - 1);
  }

  lemma ActKeepsTotal(s: System, r: nat, p: State, q: Request)
    requires r in s.requests && InStep(s.pool, s.requests[r], p, q) && TotalIsActive(s) && CountsHolders(s)
    ensures TotalIsActive(System(p, s.requests[r := q]))
  {
    ActiveAfter(s.requests, r, q);
    if Takes(s.pool, s.requests[r], p, q) {
      TotalUpdate(s.pool.inUse, q.account, Count(s.pool.inUse, q.account) + 1);
    } else if Returns(s.pool, s.requests[r], p, q) {
      var id := s.requests[r].account;
      assert r in Holders(s.requests, id) && Count(s.pool.inUse, id) == |Holders(s.requests, id)|;
      TotalAfterRelease(s.pool, id);
    }
  }

  /** A reset that keeps every held account queued keeps every count. */
  lemma ResetKeepsInUse(s: System, a: Action)
    requires Sound(s) && CountsHolders(s) && a.ResetPool? && KeepsHeld(s, a)
    ensures Step(s, a).pool.inUse == s.pool.inUse
  {
    var ids := Reset(s.pool, a.accounts, a.settings).queue;
    forall id | id in s.pool.inUse ensures id in ids {
      CountedIsHeld(s, id);
    }
    AllKept(s.pool.inUse, ids);
  }

  lemma CountedIsHeld(s: System, id: string)
    requires CountsAtMostHolders(s) && id in s.pool.inUse
    ensures Holders(s.requests, id) != {}
  {
    assert 0 < Count(s.pool.inUse, id) <= |Holders(s.requests, id)|;
  }

  lemma AllKept(inUse: map<string, nat>, ids: seq<string>)
    requires forall id | id in inUse :: id in ids
    ensures Kept(inUse, ids) == inUse
  {
  }

  lemma StepKeepsTotal(s: System, a: Action)
    requires Sound(s) && CountsHolders(s) && TotalIsActive(s) && KeepsHeld(s, a)
    ensures TotalIsActive(Step(s, a))
  {
    match a
    case ResetPool(_, _) => ResetKeepsInUse(s, a);
    case LimitPool(_, _, _) =>
    case Arrive(r, target) =>
      assert SlotHolders(Step(s, a).requests) == SlotHolders(s.requests);
    case _ =>
      if a.r in s.requests {
        ActInStep(s.pool, s.requests[a.r], a);
        var (p, q) := Act(s.pool, s.requests[a.r], a);
        ActKeepsTotal(s, a.r, p, q);
      }
  }

  lemma {:induction false} RunKeepsTotal(s: System, actions: seq<Action>)
    requires Sound(s) && CountsHolders(s) && TotalIsActive(s) && ResetsKeepHeld(s, actions)
    ensures TotalIsActive(Run(s, actions))
    decreases |actions|
  {
    if actions != [] {
      StepKeepsTotal(s, actions[0]);
      StepKeepsSound(s, actions[0]);
      RunKeepsTotal(Step(s, actions[0]), actions[1..]);
    }
  }

  /** In every run whose resets keep held accounts queued and whose limit changes fit what is in use, no account
      is held by more requests than its limit, and no more requests hold a slot than the global limit. */
  lemma HoldersStayWithinLimits(s: System, actions: seq<Action>, id: string)
    requires Initial(s) && ResetsKeepHeld(s, actions) && LimitsKept(s, actions)
    ensures var e := Run(s, actions);
      && (Holders(e.requests, id) != {} ==> |Holders(e.requests, id)| <= e.pool.maxInflight)
      && (e.pool.globalMax > 0 ==> |SlotHolders(e.requests)| <= e.pool.globalMax)
  {
    InitialIsSound(s);
    assert SlotHolders(s.requests) == {} && Total(s.pool.inUse) == 0;
    RunKeepsSound(s, actions);
    RunKeepsTotal(s, actions);
    RunKeepsLimits(s, actions);
    var e := Run(s, actions);
    assert Count(e.pool.inUse, id) == |Holders(e.requests, id)|;
  }

  // ---------------------------------------------------------------- waiters

  /** Every waiting request has its own channel, and that channel is listed or already closed. */
  ghost predicate WaitsSound(s: System) {
    && WaitersSound(s.pool)
    && (forall r | r in s.requests && s.requests[r].phase.Waiting? :: Reachable(s.pool, s.requests[r].phase.waiter))
    && (forall r, t | r in s.requests && t in s.requests && r != t && s.requests[r].phase.Waiting? &&
      s.requests[t].phase.Waiting? ::
          s.requests[r].phase.waiter != s.requests[t].phase.waiter)
  }

  predicate Reachable(p: State, w: nat) {
    w < p.made && (w in p.waiters || w in p.closed)
  }

  /** How the pool may change its waiters: those listed stay listed or are closed, except the one given up. */
  ghost predicate WaitersMove(p: State, p': State, gone: set<nat>) {
    && WaitersSound(p') && p.made <= p'.made
    && forall w | Reachable(p, w) && w !in gone :: Reachable(p', w)
  }

  lemma NotifiedMoves(p: State)
    requires WaitersSound(p)
    ensures WaitersMove(p, Notified(p), {})
  {
    if p.waiters != [] {
      var head, p' := p.waiters[0], Notified(p);
      assert p.waiters == [head] + p'.waiters;
      forall i, j | 0 <= i < j < |p'.waiters| ensures p'.waiters[i] != p'.waiters[j] {
        assert p.waiters[i + 1] != p.waiters[j + 1];
      }
      forall w | w in p'.waiters ensures w !in p'.closed && w < p'.made {
        var i :| 0 <= i < |p'.waiters| && p'.waiters[i] == w;
        assert p.waiters[0] != p.waiters[i + 1] && p.waiters[i + 1] in p.waiters;
      }
      forall w | w in p'.closed ensures w < p'.made {
        assert head in p.waiters;
      }
      forall w | w in p.waiters ensures w == head || w in p'.waiters {
      }
    }
  }

  lemma ReleasedMoves(p: State, id: string)
    requires WaitersSound(p)
    ensures WaitersMove(p, Released(p, id), {})
  {
    var p' := if Count(p.inUse, id) == 1 then p.(inUse := p.inUse - {id})
      else if Count(p.inUse, id) > 0 then p.(inUse := p.inUse[id := Count(p.inUse, id) - 1]) else p;
    NotifiedMoves(p');
  }

  lemma QueuedMoves(p: State)
    requires WaitersSound(p)
    ensures WaitersMove(p, Queued(p), {}) && Reachable(Queued(p), p.made)
  {
    QueuedIsSound(p);
    assert Queued(p).waiters[|p.waiters|] == p.made;
    forall w | w in p.waiters ensures w in Queued(p).waiters {
    }
  }

  /** What an action of a request may do to the waiters. */
  ghost predicate MovesWaiters(p: State, q: Request, p': State, q': Request) {
    && WaitersMove(p, p', if q.phase.Waiting? && !q'.phase.Waiting? then {q.phase.waiter} else {})
    && (q'.phase.Waiting? ==> Reachable(p', q'.phase.waiter) && (q' == q || q'.phase.waiter == p.made))
  }

  lemma WaitMovesWaiters(p: State, q: Request, a: Action)
    requires WaitersSound(p) && (q.phase.Waiting? ==> Reachable(p, q.phase.waiter))
    ensures var (p', q') := OnWait(p, q, a); MovesWaiters(p, q, p', q')
  {
    if a.Cancel? && q.phase.Waiting? {
      CancelledIsSound(p, q.phase.waiter);
    }
  }

  lemma TryMovesWaiters(p: State, q: Request, env: Env)
    requires WaitersSound(p) && (q.phase.Waiting? ==> Reachable(p, q.phase.waiter))
    ensures var (p', q') := OnTry(p, q, env); MovesWaiters(p, q, p', q')
  {
    QueuedMoves(p);
  }

  lemma ActMovesWaiters(p: State, q: Request, a: Action)
    requires WaitersSound(p) && (q.phase.Waiting? ==> Reachable(p, q.phase.waiter))
    ensures var (p', q') := Act(p, q, a); MovesWaiters(p, q, p', q')
  {
    match a
    case Try(_, env) => TryMovesWaiters(p, q, env);
    case Token(_, _, _) => ReleasedMoves(p, q.account);
    case Switch(_) => ReleasedMoves(p, q.account);
    case Finish(_) => ReleasedMoves(p, q.account);
    case _ => WaitMovesWaiters(p, q, a);
  }

  lemma ActKeepsWaits(s: System, r: nat, a: Action)
    requires WaitsSound(s) && r in s.requests
    ensures var (p, q) := Act(s.pool, s.requests[r], a); WaitsSound(System(p, s.requests[r := q]))
  {
    ActMovesWaiters(s.pool, s.requests[r], a);
    var (p, q) := Act(s.pool, s.requests[r], a);
    WaitersMovedAreSound(s, r, p, q);
  }

  lemma WaitersMovedAreSound(s: System, r: nat, p: State, q: Request)
    requires WaitsSound(s) && r in s.requests
    requires MovesWaiters(s.pool, s.requests[r], p, q)
    ensures WaitsSound(System(p, s.requests[r := q]))
  {
  }

  lemma StepKeepsWaits(s: System, a: Action)
    requires WaitsSound(s)
    ensures WaitsSound(Step(s, a))
  {
    match a
    case ResetPool(_, _) =>
    case LimitPool(_, _, _) => NotifiedMoves(s.pool);
    case Arrive(_, _) =>
    case _ =>
      if a.r in s.requests {
        ActKeepsWaits(s, a.r, a);
      }
  }

  /** In every run no channel is closed twice, and no waiting request is forgotten. */
  lemma {:induction false} RunKeepsWaits(s: System, actions: seq<Action>)
    requires WaitsSound(s)
    ensures WaitsSound(Run(s, actions))
    decreases |actions|
  {
    if actions != [] {
      StepKeepsWaits(s, actions[0]);
      RunKeepsWaits(Step(s, actions[0]), actions[1..]);
    }
  }

  // ---------------------------------------------------------------- why the condition is needed

  /** A request arriving for an idle account of this pool gets it. */
  lemma ArrivalIsServed(s: System, env: Env, r: nat)
    requires r !in s.requests && "a" !in s.pool.inUse && s.pool.maxInflight == 1 &&
      (s.pool.globalMax > 0 ==> s.pool.inUse == map[])
    requires !env.rateLimited("a") && !env.dailyLimited("a") && env.fits("a")
    ensures var e := Step(Step(s, Arrive(r, "a")), Try(r, env));
      && e.pool.maxInflight == s.pool.maxInflight && e.pool.globalMax == s.pool.globalMax
      && r in e.requests && e.requests[r].held == multiset{"a"}
      && e.requests == s.requests[r := e.requests[r]]
  {
    assert Granted(s.pool, env, "a", {}) == Some("a");
  }

  lemma DroppedAndQueuedAgain(s: System, one: Settings)
    ensures var back := Step(Step(s, ResetPool([], one)), ResetPool([Account("a", true, false)], one));
      back.pool.inUse == map[] && back.requests == s.requests && back.pool.maxInflight == one.maxInflight
  {
    assert Step(s, ResetPool([], one)).pool.inUse == map[];
  }

  /** A reset that drops a held account and one that queues it again admit a second holder of an account
      that serves one request at a time. */
  lemma DroppedAccountIsOversold(s: System, env: Env, one: Settings)
    requires Initial(s) && one.maxInflight == 1 && s.pool.maxInflight == 1
    requires !env.rateLimited("a") && !env.dailyLimited("a") && env.fits("a")
    ensures var e := Run(s,
      [Arrive(0, "a"), Try(0, env), ResetPool([], one), ResetPool([Account("a", true, false)], one),
                             Arrive(1, "a"), Try(1, env)]);
      |Holders(e.requests, "a")| == 2 && e.pool.maxInflight == 1
  {
    var first, drop, again := [Arrive(0, "a"), Try(0, env)], ResetPool([], one),
      ResetPool([Account("a", true, false)], one);
    var held := Step(Step(s, Arrive(0, "a")), Try(0, env));
    var back := Step(Step(held, drop), again);
    var e := Step(Step(back, Arrive(1, "a")), Try(1, env));
    ArrivalIsServed(s, env, 0);
    DroppedAndQueuedAgain(held, one);
    ArrivalIsServed(back, env, 1);
    assert Holders(e.requests, "a") == {0, 1};
    RunOfSix(s, Arrive(0, "a"), Try(0, env), drop, again, Arrive(1, "a"), Try(1, env));
  }

  lemma RunOne(s: System, a: Action, rest: seq<Action>)
    ensures Run(s, [a] + rest) == Run(Step(s, a), rest)
  {
    assert ([a] + rest)[1..] == rest;
  }

  lemma RunOfSix(s: System, a: Action, b: Action, c: Action, d: Action, e: Action, f: Action)
    ensures Run(s, [a, b, c, d, e, f]) == Step(Step(Step(Step(Step(Step(s, a), b), c), d), e), f)
  {
    var s3 := Step(Step(Step(s, a), b), c);
    assert [a, b, c, d, e, f] == [a] + [b, c, d, e, f] && [b, c, d, e, f] == [b] + [c, d, e, f];
    RunOne(s, a, [b, c, d, e, f]);
    RunOne(Step(s, a), b, [c, d, e, f]);
    assert [c, d, e, f] == [c] + [d, e, f] && [d, e, f] == [d] + [e, f] && [e, f] == [e] + [f] && [f] == [f] + [];
    RunOne(Step(Step(s, a), b), c, [d, e, f]);
    RunOne(s3, d, [e, f]);
    RunOne(Step(s3, d), e, [f]);
    RunOne(Step(Step(s3, d), e), f, []);
  }
}
