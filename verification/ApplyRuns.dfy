/** What a call of Manager.Apply in internal/mihomo/manager.go has done when it returns. */
module ApplyRuns {

  import opened Basics
  import opened ApplyLock

  lemma {:induction false} ExecuteOneMore(s: State, actions: seq<Action>)
    requires actions != []
    ensures var n := |actions| - 1; Execute(s, actions) == Step(Execute(s, actions[..n]), actions[n])
    decreases |actions|
  {
    if |actions| > 1 {
      var n := |actions| - 1;
      ExecuteOneMore(Step(s, actions[0]), actions[1..]);
      assert actions[1..][..n - 1] == actions[..n][1..];
    }
  }

  /** Where the call stands once k actions are done. */
  function At(actions: seq<Action>, k: nat, p: nat): Option<PC>
    requires k <= |actions|
  {
    var s := Execute(IDLE, actions[..k]);
    if p in s.calls then Some(s.calls[p]) else None
  }

  predicate IsPast(pc: PC) {
    pc.Finishing? || pc.Clearing? || pc.Taking? || pc.Dropping? || pc.Unlocking? || pc.Closing? || pc.Returned?
  }

  /** The only steps with which a call is done with waiting. */
  lemma StepPastWaiting(s: State, a: Action, p: nat)
    requires p in Step(s, a).calls && IsPast(Step(s, a).calls[p]) && !(p in s.calls && IsPast(s.calls[p]))
    ensures p in s.calls && ((s.calls[p] == Applying && a == Run(p)) || (s.calls[p].Blocked? && a == Cancel(p)))
  {
  }

  /** In every interleaving, a call that is done with waiting has applied the configuration itself, after it was made,
      unless its context was cancelled while it waited: no call returns on the strength of another one's application. */
  lemma {:induction false} ReturnedHasApplied(actions: seq<Action>, p: nat)
    requires At(actions, |actions|, p).Some? && IsPast(At(actions, |actions|, p).value)
    ensures exists k | 0 <= k < |actions| ::
      (At(actions, k, p) == Some(Applying) && actions[k] == Run(p)) ||
      (At(actions, k, p).Some? && At(actions, k, p).value.Blocked? && actions[k] == Cancel(p))
    decreases |actions|
  {
    assert actions[..|actions|] == actions;
    if actions != [] {
      var n := |actions| - 1;
      var before := actions[..n];
      ExecuteOneMore(IDLE, actions);
      assert before[..n] == before;
      if At(before, n, p).Some? && IsPast(At(before, n, p).value) {
        ReturnedHasApplied(before, p);
        var k :| 0 <= k < n && ((At(before, k, p) == Some(Applying) && before[k] == Run(p)) ||
          (At(before, k, p).Some? && At(before, k, p).value.Blocked? && before[k] == Cancel(p)));
        assert before[..k] == actions[..k];
        assert At(actions, k, p) == At(before, k, p);
      } else {
        StepPastWaiting(Execute(IDLE, before), actions[n], p);
      }
    }
  }
}
