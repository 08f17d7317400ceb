/** The serialisation of Manager.Apply in internal/mihomo/manager.go: a mutex, a busy flag and one channel per
    application, closed to wake every call that waited for it. Each step is one statement of one call. */
module ApplyLock {

  import opened Basics

  /** Where a call of Apply stands. From Testing to Unlocking it holds the mutex, but for Blocked, Applying
      and Finishing. */
  datatype PC =
    | Locking                   // waiting for applyMu
    | Testing                   // at the loop condition
    | Picked(done: nat)         // has read applyDone, still locked
    | Blocked(done: nat)        // in the select
    | Claiming                  // about to set applyBusy
    | Making                    // about to make the channel
    | Leaving                   // about to unlock and apply
    | Applying                  // inside doApply
    | Finishing                 // waiting for applyMu again
    | Clearing                  // about to reset applyBusy
    | Taking                    // about to read applyDone
    | Dropping(done: nat)       // about to set applyDone to nil
    | Unlocking(done: nat)
    | Closing(done: nat)        // about to close the channel
    | Returned

  // Owner of applyMu, applyBusy, applyDone and the closed channels. A channel is named after the call that
  // makes it, for a call makes only one. claimant, for the proofs, is the call that set applyBusy.
  datatype State = State(
    mutex: Option<nat>, busy: bool, done: Option<nat>, closed: set<nat>, claimant: Option<nat>, calls: map<nat, PC>)

  datatype Action = Call(p: nat) | Run(p: nat) | Cancel(p: nat)

  predicate Holding(pc: PC) {
    pc.Testing? || pc.Picked? || pc.Claiming? || pc.Making? || pc.Leaving? || pc.Clearing? || pc.Taking? ||
      pc.Dropping? || pc.Unlocking?
  }

  /** Has set applyBusy and not reset it. */
  predicate Owning(pc: PC) {
    pc.Making? || pc.Leaving? || pc.Applying? || pc.Finishing? || pc.Clearing?
  }

  /** Whether the call can take a step now. */
  predicate Enabled(s: State, p: nat) {
    p in s.calls &&
    match s.calls[p]
    case Locking => s.mutex == None
    case Finishing => s.mutex == None
    case Blocked(c) => c in s.closed
    case Returned => false
    case _ => true
  }

  function Goto(s: State, p: nat, pc: PC): State {
    s.(calls := s.calls[p := pc])
  }

  function RunOne(s: State, p: nat): State
    requires Enabled(s, p)
  {
    match s.calls[p]
    case Locking => Goto(s.(mutex := Some(p)), p, Testing)
    case Testing =>
      if !s.busy then Goto(s, p, Claiming)
      else if s.done.Some? then Goto(s, p, Picked(s.done.value))
      else s   // a nil channel would block for ever; NoWakeupIsLost shows it cannot happen
    case Picked(c) => Goto(s.(mutex := None), p, Blocked(c))
    case Blocked(_) => Goto(s, p, Locking)
    case Claiming => Goto(s.(busy := true, claimant := Some(p)), p, Making)
    case Making => Goto(s.(done := Some(p)), p, Leaving)
    case Leaving => Goto(s.(mutex := None), p, Applying)
    case Applying => Goto(s, p, Finishing)
    case Finishing => Goto(s.(mutex := Some(p)), p, Clearing)
    case Clearing => Goto(s.(busy := false, claimant := None), p, Taking)
    case Taking => if s.done.Some? then Goto(s, p, Dropping(s.done.value)) else s
    case Dropping(c) => Goto(s.(done := None), p, Unlocking(c))
    case Unlocking(c) => Goto(s.(mutex := None), p, Closing(c))
    case Closing(c) => Goto(s.(closed := s.closed + {c}), p, Returned)
    case Returned => s
  }

  function Step(s: State, a: Action): State {
    match a
    case Call(p) => if p in s.calls then s else Goto(s, p, Locking)
    case Cancel(p) => if p in s.calls && s.calls[p].Blocked? then Goto(s, p, Returned) else s
    case Run(p) => if Enabled(s, p) then RunOne(s, p) else s
  }

  function Execute(s: State, actions: seq<Action>): State
    decreases |actions|
  {
    if actions == [] then s else Execute(Step(s, actions[0]), actions[1..])
  }

  const IDLE := State(None, false, None, {}, None, map[])

  // ---------------------------------------------------------------- the invariant

  /** Its channel is the one in applyDone. */
  predicate Showing(pc: PC) {
    pc.Leaving? || pc.Applying? || pc.Finishing? || pc.Clearing? || pc.Taking? || pc.Dropping?
  }

  /** Its channel is made and will be closed. */
  predicate WillClose(pc: PC) {
    Showing(pc) || pc.Unlocking? || pc.Closing?
  }

  /** What is true of one call at its place in the code. */
  predicate CallSound(s: State, p: nat) {
    p in s.calls &&
    var pc := s.calls[p];
    && (Holding(pc) <==> s.mutex == Some(p))
    && (Owning(pc) <==> s.claimant == Some(p))
    && (Showing(pc) <==> s.done == Some(p))
    && (p in s.closed ==> pc.Returned?)
    && (pc.Claiming? ==> !s.busy) && (pc.Claiming? || pc.Making? ==> s.done == None)
    && (pc.Dropping? || pc.Unlocking? || pc.Closing? ==> pc.done == p)
    && (pc.Picked? || pc.Blocked? ==> Sure(s, pc.done))
  }

  /** The channel is closed, or its maker is on its way to close it. */
  predicate Sure(s: State, c: nat) {
    c in s.calls && (c in s.closed || WillClose(s.calls[c]))
  }

  ghost predicate Inv(s: State) {
    && (forall p | p in s.calls :: CallSound(s, p))
    && (s.busy <==> s.claimant.Some?)
    && (s.claimant.Some? ==> s.claimant.value in s.calls) && (s.done.Some? ==> s.done.value in s.calls)
    && (s.mutex.Some? ==> s.mutex.value in s.calls) && (forall c | c in s.closed :: c in s.calls)
  }

  lemma StepKeepsInv(s: State, a: Action)
    requires Inv(s)
    ensures Inv(Step(s, a))
  {
    var next := Step(s, a);
    forall q | q in next.calls
      ensures CallSound(next, q)
    {
      StepKeepsCall(s, a, q);
    }
  }

  lemma StepKeepsCall(s: State, a: Action, q: nat)
    requires Inv(s) && q in Step(s, a).calls
    ensures CallSound(Step(s, a), q)
  {
    if q in s.calls {
      assert CallSound(s, q);
      if q != a.p {
        StepKeepsOther(s, a, q);
      } else {
        StepKeepsMover(s, a);
      }
    } else {
      assert a == Call(q);
    }
  }

  lemma StepKeepsMover(s: State, a: Action)
    requires Inv(s) && a.p in Step(s, a).calls
    ensures CallSound(Step(s, a), a.p)
  {
    if a.p in s.calls {
      assert CallSound(s, a.p);
    }
  }

  /** The calls that do not move keep what they rely on. */
  lemma StepKeepsOther(s: State, a: Action, q: nat)
    requires Inv(s) && q in s.calls && q != a.p
    ensures CallSound(Step(s, a), q)
  {
    assert CallSound(s, q) && (a.p in s.calls ==> CallSound(s, a.p));
    var pc := s.calls[q];
    if pc.Picked? || pc.Blocked? {
      StaysSure(s, a, pc.done);
    }
  }

  lemma StaysSure(s: State, a: Action, c: nat)
    requires Inv(s) && Sure(s, c)
    ensures Sure(Step(s, a), c)
  {
    assert a.p in s.calls ==> CallSound(s, a.p);
  }

  lemma {:induction false} ExecuteKeepsInv(s: State, actions: seq<Action>)
    requires Inv(s)
    ensures Inv(Execute(s, actions))
    decreases |actions|
  {
    if actions != [] {
      StepKeepsInv(s, actions[0]);
      ExecuteKeepsInv(Step(s, actions[0]), actions[1..]);
    }
  }

  lemma ReachableInv(actions: seq<Action>)
    ensures Inv(Execute(IDLE, actions))
  {
    ExecuteKeepsInv(IDLE, actions);
  }

  // ---------------------------------------------------------------- safety

  /** In every interleaving at most one call is inside doApply. */
  lemma OneApplies(actions: seq<Action>, p: nat, q: nat)
    requires var s := Execute(IDLE, actions);
      p in s.calls && q in s.calls && s.calls[p].Applying? && s.calls[q].Applying?
    ensures p == q
  {
    ReachableInv(actions);
    var s := Execute(IDLE, actions);
    assert CallSound(s, p) && CallSound(s, q);
  }

  /** A channel about to be closed is not closed yet, and nobody else is about to close it. */
  lemma ClosedAtMostOnce(actions: seq<Action>, p: nat, q: nat)
    requires var s := Execute(IDLE, actions); p in s.calls && s.calls[p].Closing?
    ensures var s := Execute(IDLE, actions);
      && s.calls[p].done !in s.closed
      && (q in s.calls && s.calls[q].Closing? && s.calls[q].done == s.calls[p].done ==> p == q)
  {
    ReachableInv(actions);
    var s := Execute(IDLE, actions);
    assert CallSound(s, p) && (q in s.calls ==> CallSound(s, q));
  }

  /** No wake-up is lost: the channel a call waits for is closed, is the current owner's, or is held by a call
      on its way to close it; and it is never the nil channel. */
  lemma NoWakeupIsLost(actions: seq<Action>, p: nat)
    requires p in Execute(IDLE, actions).calls
    ensures var s := Execute(IDLE, actions);
      && (s.calls[p].Blocked? ==>
            var c := s.calls[p].done;
            c in s.closed || (c in s.calls &&
              (s.done == Some(c) || s.calls[c] == Unlocking(c) || s.calls[c] == Closing(c))))
      && (s.calls[p].Testing? && s.busy ==> s.done.Some?)
      && (s.calls[p].Taking? ==> s.done.Some?)
  {
    ReachableInv(actions);
    var s := Execute(IDLE, actions);
    assert CallSound(s, p);
    if s.calls[p].Blocked? {
      assert CallSound(s, s.calls[p].done);
    }
    if s.claimant.Some? {
      assert CallSound(s, s.claimant.value);
    }
  }

  // ---------------------------------------------------------------- every call returns

  /** While some call has not returned, some call can move. */
  lemma SomeCallMoves(s: State, p: nat) returns (q: nat)
    requires Inv(s) && p in s.calls && !s.calls[p].Returned?
    ensures Enabled(s, q)
  {
    assert CallSound(s, p);
    if s.mutex.Some? {
      q := s.mutex.value;
      assert CallSound(s, q);
    } else if s.calls[p].Blocked? && s.calls[p].done !in s.closed {
      q := s.calls[p].done;
      assert CallSound(s, q);
    } else {
      q := p;
    }
  }

  /** How far a call is from returning, or from waiting for a channel that is still open. */
  function Distance(s: State, p: nat): nat
    requires p in s.calls
  {
    match s.calls[p]
    case Picked(c) => if c in s.closed then 18 else 2
    case Blocked(c) => if c in s.closed then 17 else 1
    case Locking => 16
    case Testing => 15
    case Claiming => 14
    case Making => 13
    case Leaving => 12
    case Applying => 11
    case Finishing => 10
    case Clearing => 9
    case Taking => 8
    case Dropping(_) => 7
    case Unlocking(_) => 6
    case Closing(_) => 5
    case Returned => 0
  }

  ghost function Work(s: State, calls: set<nat>): nat
    requires calls <= s.calls.Keys
    decreases calls
  {
    if calls == {} then 0
    else
      var p :| p in calls;
      Distance(s, p) + Work(s, calls - {p})
  }

  lemma {:induction false} WorkPick(s: State, calls: set<nat>, p: nat)
    requires calls <= s.calls.Keys && p in calls
    ensures Work(s, calls) == Distance(s, p) + Work(s, calls - {p})
    decreases calls
  {
    var q :| q in calls && Work(s, calls) == Distance(s, q) + Work(s, calls - {q});
    if q != p {
      WorkPick(s, calls - {q}, p);
      WorkPick(s, calls - {p}, q);
      assert calls - {q} - {p} == calls - {p} - {q};
    }
  }

  lemma {:induction false} SameWork(s: State, t: State, calls: set<nat>)
    requires calls <= s.calls.Keys && calls <= t.calls.Keys && t.closed == s.closed
    requires forall p | p in calls :: t.calls[p] == s.calls[p]
    ensures Work(t, calls) == Work(s, calls)
    decreases calls
  {
    if calls != {} {
      var p :| p in calls;
      WorkPick(s, calls, p);
      WorkPick(t, calls, p);
      SameWork(s, t, calls - {p});
    }
  }

  ghost function Open(s: State): set<nat> {
    s.calls.Keys - s.closed
  }

  lemma NearerIsLessWork(s: State, t: State, p: nat)
    requires p in s.calls && p in t.calls && t.closed == s.closed && t.calls == s.calls[p := t.calls[p]]
    requires Distance(t, p) < Distance(s, p)
    ensures t.calls.Keys == s.calls.Keys && Work(t, t.calls.Keys) < Work(s, s.calls.Keys)
  {
    var all := s.calls.Keys;
    assert t.calls.Keys == all;
    SameWork(s, t, all - {p});
    WorkPick(s, all, p);
    WorkPick(t, all, p);
  }

  lemma CloseShrinksOpen(s: State, p: nat)
    requires Inv(s) && p in s.calls && s.calls[p].Closing?
    ensures var t := Step(s, Run(p)); t.calls.Keys == s.calls.Keys && |Open(t)| < |Open(s)|
  {
    assert CallSound(s, p);
    ClosedShrinks(s.calls.Keys, s.closed, p);
    assert s.calls[p := Returned].Keys == s.calls.Keys;
  }

  lemma ClosedShrinks(all: set<nat>, closed: set<nat>, p: nat)
    requires p in all && p !in closed
    ensures |all - (closed + {p})| < |all - closed|
  {
    assert all - closed == all - (closed + {p}) + {p};
  }

  /** A step closes a channel, or brings its call nearer to the end while the others stay where they are. */
  lemma StepMakesProgress(s: State, p: nat)
    requires Inv(s) && Enabled(s, p)
    ensures var t := Step(s, Run(p));
      && t.calls.Keys == s.calls.Keys
      && (|Open(t)| < |Open(s)| || (|Open(t)| == |Open(s)| && Work(t, t.calls.Keys) < Work(s, s.calls.Keys)))
  {
    var t := Step(s, Run(p));
    if s.calls[p].Closing? {
      CloseShrinksOpen(s, p);
    } else {
      MovesNearer(s, p);
      NearerIsLessWork(s, t, p);
    }
  }

  lemma MovesNearer(s: State, p: nat)
    requires Inv(s) && Enabled(s, p) && !s.calls[p].Closing?
    ensures var t := Step(s, Run(p));
      t.closed == s.closed && t.calls == s.calls[p := t.calls[p]] && Distance(t, p) < Distance(s, p)
  {
    assert CallSound(s, p);
    if s.claimant.Some? {
      assert CallSound(s, s.claimant.value);
    }
    if s.done.Some? {
      assert CallSound(s, s.done.value);
    }
  }

  /** The call that moves next: the scheduler's choice, or any other when that one cannot. */
  ghost function Chosen(s: State, scheduler: State -> nat): (p: nat)
    requires exists p :: Enabled(s, p)
    ensures Enabled(s, p)
  {
    if Enabled(s, scheduler(s)) then scheduler(s) else var q :| Enabled(s, q); q
  }

  /** The calls run under a scheduler until none can move. */
  ghost function Drive(s: State, scheduler: State -> nat): (end: State)
    requires Inv(s)
    decreases |Open(s)|, Work(s, s.calls.Keys)
  {
    if exists p :: Enabled(s, p) then
      var p := Chosen(s, scheduler);
      StepKeepsInv(s, Run(p));
      StepMakesProgress(s, p);
      Drive(Step(s, Run(p)), scheduler)
    else s
  }

  /** Whatever calls were made and cancelled so far and whoever is scheduled next, every call returns. */
  lemma {:induction false} EveryCallReturns(s: State, scheduler: State -> nat)
    requires Inv(s)
    ensures var end := Drive(s, scheduler);
      end.calls.Keys == s.calls.Keys && forall p | p in end.calls :: end.calls[p].Returned?
    decreases |Open(s)|, Work(s, s.calls.Keys)
  {
    if exists p :: Enabled(s, p) {
      var p := Chosen(s, scheduler);
      StepKeepsInv(s, Run(p));
      StepMakesProgress(s, p);
      EveryCallReturns(Step(s, Run(p)), scheduler);
    } else {
      forall p | p in s.calls ensures s.calls[p].Returned? {
        if !s.calls[p].Returned? {
          var q := SomeCallMoves(s, p);
        }
      }
    }
  }

  lemma EveryApplyReturns(actions: seq<Action>, scheduler: State -> nat)
    ensures Inv(Execute(IDLE, actions))
    ensures var end := Drive(Execute(IDLE, actions), scheduler); forall p | p in end.calls :: end.calls[p].Returned?
  {
    ReachableInv(actions);
    EveryCallReturns(Execute(IDLE, actions), scheduler);
  }
}
