/** The retry machinery of internal/auth (refresh, then switch) and internal/completionruntime (the loops that
    drive it): every retry consumes something finite. Upstream answers, logins and the pool are a parameter. */
module Retry {

  import opened Basics

  // assistantturn.OutputError, as far as the classifiers of the loops distinguish it.
  datatype OutputError = OutputError(muted: bool, unavailable: bool, transient: bool, unauthorized: bool, status: int)

  const TOO_MANY_REQUESTS := 429

  const UNAUTHORIZED := OutputError(false, false, false, true, 401)

  // What the world answers at one moment; every question reads the part that concerns it.
  datatype Answer = Answer(
    free: bool,                      // the pool offers an account that was not tried
    login: bool,                     // the login of an account succeeds
    recovers: bool, switches: bool,  // a client call recovers on its own, by a switch
    error: Option<OutputError>,      // the error of an attempt, if it has one
    collected: bool,                 // the answer of an attempt was read
    empty: bool,                     // and has nothing to show: ShouldRetryEmptyOutput, attempts aside
    terminal: bool, retryable: bool, resume: bool,
    failed: bool, callError: OutputError)           // the repeated call fails, and its error

  // The answer at every moment, and the error of each start of a completion, in their order, and whether a start
  // without one has a response.
  datatype World = World(answer: nat -> Answer, start: nat -> Option<OutputError>, responds: nat -> bool)

  /** Accounts are free and log in, calls succeed, and what is read is empty. */
  const WILLING := Answer(true, true, false, false, None, true, true, false, true, false, false, UNAUTHORIZED)

  /** Such a world, whose upstream rejects the token of the first starts. */
  ghost predicate Hard(world: World, rejected: int) {
    (forall t: nat :: world.answer(t) == WILLING) &&
    forall k: nat :: world.start(k) == if k < rejected then Some(UNAUTHORIZED) else None
  }

  function HardWorld(rejected: int): (world: World)
    ensures Hard(world, rejected)
  {
    World((_: nat) => WILLING, (k: nat) => if k < rejected then Some(UNAUTHORIZED) else None, (_: nat) => true)
  }

  // How serving a request ends; attempted is the flag of a 429 at that time.
  datatype Ending =
    | Delivered
    | Refused(error: OutputError, attempted: bool)     // the error is passed on
    | StartFailed(error: OutputError)                  // the start on another account failed
    | NoResponse(error: OutputError)                   // or had nothing to read
    | Interrupted                                      // a stream that cannot be resumed

  /** The error of the last of n starts, if it has one, and whether there was something to read. */
  function LastError(world: World, n: nat): Option<OutputError> {
    if n == 0 then None else world.start(n - 1)
  }

  /** The last of n answers. */
  function LastAnswer(world: World, n: nat): Answer {
    if n == 0 then WILLING else world.answer(n - 1)
  }

  /** No answer after the first n recovers a client call; all of them do it by a switch. */
  ghost predicate Quiet(world: World, n: nat) {
    forall k: nat | k > n :: !LastAnswer(world, k).recovers
  }

  ghost predicate Switching(world: World) {
    forall k: nat | k > 0 :: LastAnswer(world, k).switches
  }

  predicate LastResponds(world: World, n: nat) {
    n > 0 && world.responds(n - 1)
  }

  datatype Recovery = RecoveredNone | Refreshed | Switched

  class RequestAuth {
    const identifiers: set<string>           // every account identifier the configuration can offer
    const useConfigToken: bool
    const targetAccount: string
    const world: World
    var moment: nat                          // the questions put to the world so far
    var starts: nat                          // the starts of a completion so far
    var repeats: nat                         // the repeated calls of the loops so far
    var limited: nat                         // the switches granted after a 429 so far
    var accountID: string
    var triedAccounts: set<string>
    var authRefreshState: map<string, bool>  // true: the refresh of this request succeeded

    ghost predicate Valid()
      reads this
    {
      "" !in identifiers && (useConfigToken ==> accountID in identifiers)
    }

    /** What the request may still consume: untried accounts and unused refreshes. */
    ghost function Budget(): nat
      reads this
    {
      if useConfigToken
        then Unused(identifiers, triedAccounts + {accountID}) + Unused(identifiers, authRefreshState.Keys) else 0
    }

    /** The passes of the request: its starts and its repeated calls. */
    function Passes(): nat
      reads this
    {
      starts + repeats
    }

    ghost predicate Willing() {
      forall t: nat :: world.answer(t) == WILLING
    }

    /** Accounts are free and log in; anything may fail otherwise. */
    ghost predicate Generous() {
      forall t: nat :: world.answer(t).free && world.answer(t).login
    }

    /** A managed request that may use any account, and one that it has not used yet. */
    ghost predicate CanSwitch()
      reads this
    {
      useConfigToken && targetAccount == "" && HasOther(identifiers, triedAccounts, accountID)
    }

    ghost predicate Thrifty()
      reads this
    {
      useConfigToken ==>
        targetAccount == "" && GivesUpRefreshed(identifiers, triedAccounts, authRefreshState, accountID)
    }

    constructor (identifiers: set<string>, useConfigToken: bool, targetAccount: string, accountID: string,
      tried: set<string>, world: World)
      requires "" !in identifiers && (useConfigToken ==> accountID in identifiers)
      ensures Valid() && this.identifiers == identifiers && this.useConfigToken == useConfigToken
      ensures this.world == world && starts == 0 && repeats == 0 && limited == 0 && (!useConfigToken ==> Budget() == 0)
      ensures useConfigToken ==> Budget() <= 2 * |identifiers| - 1
      ensures tried == {} && targetAccount == "" ==>
        Thrifty() && (useConfigToken ==> Budget() == 2 * |identifiers| - 1)
    {
      this.identifiers, this.useConfigToken, this.targetAccount := identifiers, useConfigToken, targetAccount;
      this.accountID, triedAccounts, authRefreshState := accountID, tried, map[];
      this.world, moment, starts, repeats, limited := world, 0, 0, 0, 0;
      new;
      if useConfigToken {
        NothingUsed(identifiers, tried, accountID);
        assert authRefreshState.Keys == {};
      }
    }

    method Ask() returns (answer: Answer)
      modifies this`moment
      ensures Valid() == old(Valid()) && Budget() == old(Budget())
      ensures answer == world.answer(old(moment)) == LastAnswer(world, moment) && moment == old(moment) + 1
    {
      answer := world.answer(moment);
      moment := moment + 1;
    }

    /** Pool.Acquire: any account of the configuration that was not tried, or none. */
    method PoolAcquire() returns (acc: Option<string>)
      modifies this`moment
      ensures moment > old(moment) && (acc.Some? ==> acc.value in identifiers && acc.value !in triedAccounts)
      ensures Generous() && acc == None ==> identifiers <= triedAccounts
    {
      var candidates := identifiers - triedAccounts;
      var answer := Ask();
      assert forall id | id in identifiers :: id in triedAccounts || id in candidates;
      if !answer.free || candidates == {} {
        return None;
      }
      var id :| id in candidates;
      return Some(id);
    }

    /** The new account was never used by this request before; without one the budget has not grown. */
    method SwitchAccount() returns (ok: bool)
      requires Valid()
      modifies this`accountID, this`triedAccounts, this`moment
      ensures Valid() && old(triedAccounts) <= triedAccounts && moment >= old(moment)
      ensures ok ==> useConfigToken && targetAccount == "" && Budget() < old(Budget())
      ensures ok ==> old(accountID) in triedAccounts && accountID !in triedAccounts
      ensures !ok ==> Budget() <= old(Budget())
      ensures Willing() && useConfigToken && old(Thrifty() && accountID in authRefreshState && Budget() > 0) ==>
        ok && Thrifty() && Budget() == old(Budget()) - 1
      ensures Generous() ==> (ok <==> old(CanSwitch())) && (!ok ==> !CanSwitch() && accountID == old(accountID))
      ensures Generous() ==> Budget() == old(Budget()) - if ok then 1 else 0
    {
      if !useConfigToken || targetAccount != "" {
        return false;
      }
      ok := GiveUpAccount();
    }

    /** The current account joins the tried ones and another one is looked for. */
    method GiveUpAccount() returns (ok: bool)
      requires Valid() && useConfigToken
      modifies this`accountID, this`triedAccounts, this`moment
      ensures Valid() && old(triedAccounts) + {old(accountID)} <= triedAccounts && (ok ==> accountID !in triedAccounts)
      ensures moment >= old(moment)
      ensures if ok then Budget() < old(Budget()) else Budget() <= old(Budget())
      ensures Generous() ==> triedAccounts == old(triedAccounts) + {old(accountID)}
      ensures Generous() ==> (ok <==> !(identifiers <= triedAccounts)) && (!ok ==> accountID == old(accountID))
      ensures Generous() ==> Budget() == old(Budget()) - if ok then 1 else 0
    {
      triedAccounts := triedAccounts + {accountID};
      ok := FindReplacement();
    }

    /** The loop of SwitchAccount, once the current account is among the tried ones. */
    method FindReplacement() returns (ok: bool)
      requires Valid() && accountID in triedAccounts
      modifies this`accountID, this`triedAccounts, this`moment
      ensures Valid() && old(triedAccounts) <= triedAccounts && (ok ==> accountID !in triedAccounts)
      ensures moment >= old(moment)
      ensures Unused(identifiers, triedAccounts + {accountID}) + (if ok then 1 else 0) <=
        Unused(identifiers, old(triedAccounts))
      ensures Generous() ==> triedAccounts == old(triedAccounts) && (ok <==> !(identifiers <= triedAccounts))
      ensures Generous() && !ok ==> accountID == old(accountID)
      ensures Generous() && ok ==>
        Unused(identifiers, triedAccounts + {accountID}) == Unused(identifiers, old(triedAccounts)) - 1
    {
      while true
        invariant Valid() && old(triedAccounts) <= triedAccounts && accountID in triedAccounts && moment >= old(moment)
        invariant Generous() ==> triedAccounts == old(triedAccounts) && accountID == old(accountID)
        decreases Unused(identifiers, triedAccounts)
      {
        var acc := PoolAcquire();
        if acc == None {
          Used(identifiers, old(triedAccounts), triedAccounts, accountID);
          return false;
        }
        accountID := acc.value;
        var answer := Ask();
        if answer.login {
          Used(identifiers, old(triedAccounts), triedAccounts, accountID);
          return true;
        }
        Used(identifiers, triedAccounts, triedAccounts, accountID);
        triedAccounts := triedAccounts + {accountID};
      }
    }

    /** At most one forced login for an account per request. */
    method RefreshTokenOnce() returns (ok: bool)
      requires Valid()
      modifies this`authRefreshState, this`moment
      ensures Valid() && moment >= old(moment)
      ensures old(accountID in authRefreshState) || !useConfigToken ==> !ok && authRefreshState == old(authRefreshState)
      ensures useConfigToken && old(accountID !in authRefreshState) ==>
        authRefreshState == old(authRefreshState)[accountID := ok] && Budget() == old(Budget()) - 1 &&
        (Generous() ==> ok) && (ok && old(Thrifty()) ==> Thrifty())
    {
      if !useConfigToken || accountID in authRefreshState {
        return false;
      }
      var answer := Ask();
      ok := answer.login;
      OneRefreshed(identifiers, authRefreshState, accountID, ok);
      authRefreshState := authRefreshState[accountID := ok];
    }

    /** Refresh first, then switch: every recovery lowers the budget. */
    method RecoverAuthFailure() returns (r: Recovery)
      requires Valid()
      modifies this
      ensures starts == old(starts) && repeats == old(repeats) && limited == old(limited)
      ensures Valid() && moment >= old(moment)
      ensures r == RecoveredNone ==> Budget() <= old(Budget())
      ensures r != RecoveredNone ==> useConfigToken && Budget() < old(Budget())
      ensures r == Refreshed ==> accountID == old(accountID) && old(accountID !in authRefreshState)
      ensures r == Switched ==> accountID != old(accountID) && targetAccount == ""
      ensures Generous() && useConfigToken && r == RecoveredNone ==> accountID in authRefreshState && !CanSwitch()
      ensures Generous() ==> Budget() == old(Budget()) - (if r == RecoveredNone then 0 else 1)
      ensures forall k | k in old(authRefreshState) :: k in authRefreshState
      ensures useConfigToken ==> old(accountID) in authRefreshState
      ensures Generous() && useConfigToken ==>
        r == if old(accountID !in authRefreshState) then Refreshed
             else if old(CanSwitch()) then Switched else RecoveredNone
      ensures Willing() && old(Thrifty()) && useConfigToken && old(Budget()) > 0 ==>
        r != RecoveredNone && Thrifty() && Budget() == old(Budget()) - 1
    {
      if !useConfigToken {
        return RecoveredNone;
      }
      var alreadySucceeded := accountID in authRefreshState && authRefreshState[accountID];
      if !alreadySucceeded {
        var once := RefreshTokenOnce();
        if once {
          return Refreshed;
        }
      }
      assert Willing() && old(Thrifty()) && useConfigToken ==> authRefreshState == old(authRefreshState) && Thrifty();
      var switched := SwitchAccount();
      return if switched then Switched else RecoveredNone;
    }

    /** What becomes of a failed attempt when logins succeed: a muted, unavailable or transient error and the first 429
        are retried on another account while there is one, a rejected token also on the same account, once. */
    ghost predicate IsRetried(e: OutputError, attempted: bool)
      reads this
    {
      if e.muted || e.unavailable || e.transient then CanSwitch()
      else if e.unauthorized then accountID !in authRefreshState || CanSwitch()
      else e.status == 429 && !attempted && CanSwitch()
    }

    /** A 429 that says nothing else. */
    predicate IsLimit(err: Option<OutputError>) {
      err.Some? && !err.value.muted && !err.value.unavailable && !err.value.transient && !err.value.unauthorized &&
      err.value.status == 429
    }

    /** The flag is raised by a 429, which it then keeps from being retried. */
    predicate FlagFollows(attempted: bool, err: Option<OutputError>, attempted': bool) {
      (attempted' <==> attempted || IsLimit(err)) && !(attempted && IsLimit(err))
    }

    /** Whether a failed attempt is tried again; the flag lets a 429 switch only once. */
    method CanRetryOnAlternateAccount(err: Option<OutputError>, retryEnabled: bool, attempted: bool)
      returns (ok: bool, attempted': bool)
      requires Valid()
      modifies this
      ensures Valid() && starts == old(starts) && repeats == old(repeats)
      ensures ok ==> FlagFollows(attempted, err, attempted')
      ensures limited == old(limited) + if ok && IsLimit(err) then 1 else 0
      ensures ok ==> err.Some? && retryEnabled && useConfigToken && Budget() < old(Budget())
      ensures !ok ==> Budget() <= old(Budget())
      ensures ok && !err.value.muted && !err.value.unavailable && !err.value.transient && !err.value.unauthorized ==>
        err.value.status == 429
      ensures Willing() && old(Thrifty()) && retryEnabled && err == Some(UNAUTHORIZED) ==>
        (useConfigToken && old(Budget()) > 0 ==> ok && Thrifty() && Budget() == old(Budget()) - 1)
      ensures err == None ==> Budget() == old(Budget())
      ensures Generous() && err.Some? && retryEnabled && useConfigToken ==>
        (ok <==> old(IsRetried(err.value, attempted))) && (!ok ==> !IsRetried(err.value, attempted))
    {
      if err == None || !retryEnabled || !useConfigToken {
        return false, attempted;
      }
      ok, attempted' := RetryAfter(err.value, attempted);
    }

    /** The classification of an error of a managed account. */
    method RetryAfter(e: OutputError, attempted: bool) returns (ok: bool, attempted': bool)
      requires Valid() && useConfigToken
      modifies this
      ensures Valid() && starts == old(starts) && repeats == old(repeats)
      ensures ok ==> FlagFollows(attempted, Some(e), attempted')
      ensures limited == old(limited) + if ok && IsLimit(Some(e)) then 1 else 0
      ensures if ok then Budget() < old(Budget()) else Budget() <= old(Budget())
      ensures ok ==> e.muted || e.unavailable || e.transient || e.unauthorized || e.status == 429
      ensures e == UNAUTHORIZED && Willing() && old(Thrifty()) && old(Budget()) > 0 ==>
        ok && Thrifty() && Budget() == old(Budget()) - 1
      ensures Generous() ==> (ok <==> old(IsRetried(e, attempted))) && (!ok ==> !IsRetried(e, attempted))
    {
      attempted' := attempted;
      if e.muted || e.unavailable || e.transient {
        ok := SwitchAccount();
      } else if e.unauthorized {
        var r := RecoverAuthFailure();
        ok := r != RecoveredNone;
      } else if e.status == TOO_MANY_REQUESTS && !attempted {
        attempted' := true;
        ok := SwitchAccount();
        limited := if ok then limited + 1 else limited;
      } else {
        ok := false;
      }
    }

    /** Any call into the upstream client, which recovers and switches on its own as often as it can. */
    method CallUpstream()
      requires Valid()
      modifies this
      ensures starts == old(starts) && repeats == old(repeats) && limited == old(limited)
      ensures Valid() && Budget() <= old(Budget()) && moment > old(moment)
      ensures Willing() ==> Budget() == old(Budget()) && (old(Thrifty()) ==> Thrifty())
      ensures Generous() && useConfigToken && CanSwitch() ==> !LastAnswer(world, moment).recovers
      ensures Generous() && Quiet(world, old(moment) + 1) ==> Budget() + 1 >= old(Budget())
      ensures Switching(world) ==> authRefreshState == old(authRefreshState)
      ensures var first := LastAnswer(world, old(moment) + 1);
        && (!first.recovers ==> accountID == old(accountID) && triedAccounts == old(triedAccounts))
        && (!first.recovers ==> authRefreshState == old(authRefreshState))
        && (useConfigToken && first.recovers && !first.switches ==> old(accountID) in authRefreshState)
    {
      ghost var turns := 0;
      var answer := Ask();
      ghost var first := answer;
      while answer.recovers
        invariant Valid() && Budget() <= old(Budget()) && answer == LastAnswer(world, moment)
        invariant Generous() ==> Budget() == old(Budget()) - turns
        invariant turns > 0 ==> moment > old(moment) + 1
        invariant turns == 0 ==> moment == old(moment) + 1 && accountID == old(accountID)
        invariant turns == 0 ==> triedAccounts == old(triedAccounts) && authRefreshState == old(authRefreshState)
        invariant (turns > 0 ==> first.recovers) && (turns > 1 ==> !Quiet(world, old(moment) + 1))
        invariant starts == old(starts) && repeats == old(repeats) && limited == old(limited)
        invariant Switching(world) ==> authRefreshState == old(authRefreshState)
        invariant turns > 0 && useConfigToken && !first.switches ==> old(accountID) in authRefreshState
        decreases Budget()
      {
        assert turns > 0 ==> !Quiet(world, old(moment) + 1);
        var moved := RecoverIn(answer);
        if !moved {
          break;
        }
        turns := turns + 1;
        answer := Ask();
      }
    }

    /** One recovery of a client call, by a switch or the way every other caller recovers. */
    method RecoverIn(answer: Answer) returns (moved: bool)
      requires Valid() && answer.recovers
      modifies this
      ensures starts == old(starts) && repeats == old(repeats) && limited == old(limited)
      ensures Valid() && moment >= old(moment) && if moved then Budget() < old(Budget()) else Budget() <= old(Budget())
      ensures Generous() ==> Budget() == old(Budget()) - if moved then 1 else 0
      ensures Generous() && !moved && useConfigToken ==> !CanSwitch()
      ensures answer.switches ==> authRefreshState == old(authRefreshState)
      ensures forall k | k in old(authRefreshState) :: k in authRefreshState
      ensures !answer.switches && useConfigToken ==> old(accountID) in authRefreshState
    {
      if answer.switches {
        moved := SwitchAccount();
      } else {
        var r := RecoverAuthFailure();
        moved := r != RecoveredNone;
      }
    }

    /** One start: session, proof of work and completion call. */
    method Start() returns (err: Option<OutputError>)
      requires Valid()
      modifies this
      ensures Valid() && Budget() <= old(Budget()) && starts == old(starts) + 1 && moment > old(moment)
      ensures repeats == old(repeats) && limited == old(limited)
      ensures Willing() ==> Budget() == old(Budget()) && (old(Thrifty()) ==> Thrifty())
      ensures err == world.start(old(starts)) == LastError(world, starts)
    {
      CallUpstream();
      err := world.start(starts);
      starts := starts + 1;
    }

    /** One more call of a loop, for an empty answer or to go on with a stream. */
    method Repeat()
      requires Valid()
      modifies this
      ensures Valid() && Budget() <= old(Budget()) && repeats == old(repeats) + 1 && moment > old(moment)
      ensures starts == old(starts) && limited == old(limited)
      ensures Willing() ==> Budget() == old(Budget()) && (old(Thrifty()) ==> Thrifty())
    {
      repeats := repeats + 1;
      CallUpstream();
    }

    /** Against a world that rejects one start for each part of the budget, the whole budget is used up. */
    method StartCompletion() returns (err: Option<OutputError>, attempted: bool)
      requires Valid()
      modifies this
      ensures Valid() && starts > old(starts) && repeats == old(repeats) && err == LastError(world, starts)
      ensures Passes() + Budget() <= 1 + old(Passes() + Budget())
      ensures limited <= old(limited) + 1 && (attempted <==> limited > old(limited))
      ensures Hard(world, old(starts + Budget())) && old(Thrifty()) ==>
        err == None && Passes() == 1 + old(Passes() + Budget())
      ensures err.Some? && Generous() && useConfigToken ==> !IsRetried(err.value, attempted)
    {
      ghost var hard := Hard(world, starts + Budget()) && Thrifty();
      err := Start();
      attempted := false;
      while err.Some?
        invariant Valid() && starts > old(starts) && starts + Budget() <= 1 + old(starts + Budget())
        invariant repeats == old(repeats) && err == LastError(world, starts)
        invariant limited == old(limited) + if attempted then 1 else 0
        invariant hard ==> Thrifty() && starts + Budget() == 1 + old(starts + Budget())
        invariant hard ==> err == if Budget() > 0 then Some(UNAUTHORIZED) else None
        decreases Budget()
      {
        var again, flag := CanRetryOnAlternateAccount(err, true, attempted);
        if !again {
          return;
        }
        attempted := flag;
        err := Start();
      }
    }

    /** A retry on an alternate account, if it may be tried: a start, which replaces the current response if it
        has one itself. */
    method RetryOnAlternate(err: Option<OutputError>, retryEnabled: bool, attempted: bool)
      returns (replaced: bool, attempted': bool, ending: Ending)
      requires Valid()
      modifies this
      ensures Valid() && Passes() + Budget() <= old(Passes() + Budget()) && repeats == old(repeats)
      ensures old(starts) <= starts <= old(starts) + 1 && (replaced ==> starts > old(starts))
      ensures replaced ==> LastError(world, starts) == None && LastResponds(world, starts) && err.Some?
      ensures starts > old(starts) ==> FlagFollows(attempted, err, attempted')
      ensures limited == old(limited) + if starts > old(starts) && IsLimit(err) then 1 else 0
      ensures err == None ==> !replaced && starts == old(starts) && ending == Delivered
      ensures !replaced ==> IsJustified(ending, retryEnabled)
      ensures ending != Interrupted && (err.Some? ==> ending != Delivered)
      ensures ending.Refused? && !replaced ==> err == Some(ending.error)
      ensures ending.Refused? && !replaced ==> ending.attempted == attempted && starts == old(starts)
    {
      var again;
      again, attempted' := CanRetryOnAlternateAccount(err, retryEnabled, attempted);
      if !again {
        return false, attempted', if err == None then Delivered else Refused(err.value, attempted);
      }
      var startError := Start();
      if startError.Some? {
        return false, attempted', StartFailed(startError.value);
      }
      return LastResponds(world, starts), attempted', NoResponse(err.value);
    }

    /** An error is passed on only when it is not one to retry: no account is left, or it is of another kind; a failed
        start is the last one, and one with nothing to read had nothing. */
    ghost predicate IsJustified(ending: Ending, retryEnabled: bool)
      reads this
    {
      match ending
      case Refused(error, attempted) =>
        Generous() && retryEnabled && useConfigToken ==> !IsRetried(error, attempted)
      case StartFailed(error) => LastError(world, starts) == Some(error)
      case NoResponse(_) => starts > 0 && LastError(world, starts) == None && !LastResponds(world, starts)
      case _ => true
    }

    /** The loop after a successful start. It ends with an answer that has no error, an empty one only after all
        empty-output retries, or for a reason. */
    method ExecuteNonStreamStarted(retryEnabled: bool, retryMaxAttempts: int)
      returns (ending: Ending, ghost last: Answer, ghost tries: nat)
      requires Valid()
      modifies this
      ensures Valid() && Passes() + Budget() <= old(Passes() + Budget()) + RetryMax(retryMaxAttempts)
      ensures old(starts) <= starts && old(repeats) <= repeats <= old(repeats) + RetryMax(retryMaxAttempts)
      ensures limited <= old(limited) + 1 && (ending.Refused? ==> (ending.attempted <==> limited > old(limited)))
      ensures Willing() && retryEnabled ==> Passes() == old(Passes()) + RetryMax(retryMaxAttempts)
      ensures IsJustified(ending, retryEnabled) && ending != Interrupted
      ensures ending == Delivered ==>
        last.error == None && (retryEnabled && last.collected && last.empty ==> tries == RetryMax(retryMaxAttempts))
      ensures ending.Refused? ==> ending.error == if last.error.Some? then last.error.value else last.callError
    {
      var retryMax := RetryMax(retryMaxAttempts);
      var attempts, attempted := 0, false;
      var replaced;
      ghost var willing := Willing() && retryEnabled;
      while true
        invariant Valid() && attempts <= retryMax && starts + Budget() <= old(starts + Budget())
        invariant repeats == old(repeats) + attempts && starts >= old(starts)
        invariant limited == old(limited) + if attempted then 1 else 0
        invariant willing ==> starts == old(starts)
        decreases Budget() + (retryMax - attempts)
      {
        var turn := Ask();                          // collectAttempt, and the turn's own error
        last, tries := turn, attempts;
        assert willing ==> turn == WILLING;
        var failure := turn.error;
        if turn.collected && retryEnabled && attempts < retryMax && turn.empty {
          attempts := attempts + 1;
          Repeat();
          if !turn.failed {
            continue;
          }
          last, failure := turn.(error := None), Some(turn.callError);
        }
        replaced, attempted, ending := RetryOnAlternate(failure, retryEnabled, attempted);
        if !replaced {
          return;
        }
      }
    }

    /** The streaming loop: empty-output retries, continue-resumes and account switches. It ends once the stream has
        ended or cannot be retried, all retries are used up, or for a reason. */
    method ExecuteStream(retryEnabled: bool, retryMaxAttempts: int)
      returns (ending: Ending, ghost last: Answer, ghost tries: nat)
      requires Valid()
      modifies this
      ensures Valid() && Passes() + Budget() <= old(Passes() + Budget()) + RetryMax(retryMaxAttempts)
      ensures old(starts) <= starts && old(repeats) <= repeats <= old(repeats) + RetryMax(retryMaxAttempts)
      ensures limited <= old(limited) + 1 && (ending.Refused? ==> (ending.attempted <==> limited > old(limited)))
      ensures Willing() && retryEnabled ==> Passes() == old(Passes()) + RetryMax(retryMaxAttempts)
      ensures IsJustified(ending, retryEnabled)
      ensures ending == Delivered ==>
        (last.terminal || !last.retryable || !retryEnabled ||
         (tries == RetryMax(retryMaxAttempts) && last.error == None))
      ensures ending == Interrupted ==> last.resume && (tries == RetryMax(retryMaxAttempts) || last.failed)
      ensures ending.Refused? ==>
        ((tries == RetryMax(retryMaxAttempts) && last.error == Some(ending.error)) ||
         (last.failed && last.callError == ending.error))
    {
      var retryMax := RetryMax(retryMaxAttempts);
      var attempts, attempted := 0, false;
      var replaced;
      ghost var willing := Willing() && retryEnabled;
      while true
        invariant Valid() && attempts <= retryMax && starts + Budget() <= old(starts + Budget())
        invariant repeats == old(repeats) + attempts && starts >= old(starts)
        invariant limited == old(limited) + if attempted then 1 else 0
        invariant willing ==> starts == old(starts)
        decreases Budget() + (retryMax - attempts)
      {
        var result := Ask();
        last, tries := result, attempts;
        assert willing ==> result == WILLING;
        if result.terminal || !result.retryable || !retryEnabled {
          ending := Delivered;
          return;
        }
        var failure := result.error;
        if attempts < retryMax {
          attempts := attempts + 1;
          Repeat();
          if !result.failed {
            continue;
          }
          // A failed call, a captcha page or a transient status: the last account-switch chance of this attempt.
          failure := Some(result.callError);
        }
        if result.resume {
          ending := Interrupted;
          return;
        }
        replaced, attempted, ending := RetryOnAlternate(failure, retryEnabled, attempted);
        if !replaced {
          return;
        }
      }
    }

    /** A start and, if it succeeds, one of the two loops. */
    method Serve(stream: bool, retryEnabled: bool, retryMaxAttempts: int) returns (ending: Ending)
      requires Valid()
      modifies this
      ensures IsJustified(ending, retryEnabled) && (ending == Interrupted ==> stream)
      ensures starts > old(starts) && repeats >= old(repeats)
      ensures Passes() <= 1 + old(Passes() + Budget()) + RetryMax(retryMaxAttempts)
      ensures Hard(world, old(starts + Budget())) && old(Thrifty()) && retryEnabled ==>
        Passes() == 1 + old(Passes() + Budget()) + RetryMax(retryMaxAttempts)
    {
      var err, attempted := StartCompletion();
      if err.Some? {
        return Refused(err.value, attempted);
      }
      ghost var last, tries;
      if stream {
        ending, last, tries := ExecuteStream(retryEnabled, retryMaxAttempts);
      } else {
        ending, last, tries := ExecuteNonStreamStarted(retryEnabled, retryMaxAttempts);
      }
    }
  }

  /** The configured number of empty-output retries, or the default of one. */
  function RetryMax(configured: int): nat {
    if configured <= 0 then 1 else configured
  }

  /** How many accounts are not among those used. */
  ghost function Unused(all: set<string>, used: set<string>): nat {
    |all - used|
  }

  /** Some account was neither tried nor is it this one. */
  ghost predicate HasOther(all: set<string>, tried: set<string>, id: string) {
    exists other :: other in all && other !in tried && other != id
  }

  lemma OneRefreshed(all: set<string>, refreshed: map<string, bool>, id: string, ok: bool)
    requires id in all && id !in refreshed
    ensures Unused(all, refreshed[id := ok].Keys) == Unused(all, refreshed.Keys) - 1
  {
    assert all - refreshed[id := ok].Keys == all - refreshed.Keys - {id};
  }

  /** Only accounts refreshed with success were given up, so that each one left can still be used twice. */
  ghost predicate GivesUpRefreshed(all: set<string>, tried: set<string>, refreshed: map<string, bool>, id: string) {
    && refreshed.Keys <= tried + {id} && tried * all <= refreshed.Keys
    && forall k | k in refreshed :: refreshed[k]
  }

  lemma NothingUsed(all: set<string>, tried: set<string>, id: string)
    requires id in all
    ensures Unused(all, tried + {id}) <= |all| - 1 && Unused(all, {}) == |all|
    ensures tried == {} ==> Unused(all, tried + {id}) == |all| - 1
  {
    Fewer(all - (tried + {id}), all - {id});
    assert |all - {id}| == |all| - 1 && all - {} == all;
    assert tried == {} ==> all - (tried + {id}) == all - {id};
  }

  lemma Used(all: set<string>, first: set<string>, tried: set<string>, id: string)
    requires first <= tried
    ensures Unused(all, tried + {id}) <= Unused(all, first)
    ensures id in all && id !in tried ==> Unused(all, tried + {id}) < Unused(all, first)
    ensures id in all && id !in tried && first == tried ==> Unused(all, tried + {id}) == Unused(all, first) - 1
  {
    Fewer(all - (tried + {id}), all - first);
    assert id in all && id !in tried ==> id in all - first;
    assert all - (tried + {id}) == all - tried - {id};
  }

  /** A request over N account identifiers makes at most 2N + retryMax passes; a request with its caller's own token
      at most 1 + retryMax. Some worlds make it use them all, one that rejects the first 2N - 1 starts and one
      that rejects none. */
  method ServeRequest(identifiers: set<string>, useConfigToken: bool, targetAccount: string, accountID: string,
                      tried: set<string>, stream: bool, retryEnabled: bool, retryMaxAttempts: int, world: World)
    returns (passes: nat)
    requires "" !in identifiers && (useConfigToken ==> accountID in identifiers)
    ensures 1 <= passes <= MaxPasses(identifiers, useConfigToken, retryMaxAttempts)
    ensures Hard(world, if useConfigToken then 2 * |identifiers| - 1 else 0) ==>
      (retryEnabled && tried == {} && targetAccount == "" ==>
        passes == MaxPasses(identifiers, useConfigToken, retryMaxAttempts))
  {
    var a := new RequestAuth(identifiers, useConfigToken, targetAccount, accountID, tried, world);
    var _ := a.Serve(stream, retryEnabled, retryMaxAttempts);
    passes := a.Passes();
  }

  /** The bound is attained, over any accounts and with either loop. */
  method ServeHardRequest(identifiers: set<string>, accountID: string, stream: bool, retryMaxAttempts: int)
    returns (passes: nat)
    requires "" !in identifiers && accountID in identifiers
    ensures passes == 2 * |identifiers| + RetryMax(retryMaxAttempts)
  {
    var world := HardWorld(2 * |identifiers| - 1);
    passes := ServeRequest(identifiers, true, "", accountID, {}, stream, true, retryMaxAttempts, world);
  }

  function MaxPasses(identifiers: set<string>, useConfigToken: bool, retryMaxAttempts: int): int {
    (if useConfigToken then 2 * |identifiers| else 1) + RetryMax(retryMaxAttempts)
  }
}
