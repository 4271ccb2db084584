/** What the run guard achieves: as long as no input takes a guard that is taken, at most one drain,
    chain or turn is under way, whatever else fails, and at most two items of the queue are claimed. */
module RunGuard {
  import opened JsText
  import opened RequestQueue
  import opened SessionRow
  import opened TurnScheduler
  import opened TurnExclusion
  import opened ClaimLedger

  /** A thread that has taken the guard and has yet to release it. */
  predicate Holder(pc: Pc) {
    || IsTurn(pc) || pc.ChainRead? || pc.ChainSeen? || pc.ChainCompleted?
    || pc.DrainRead? || pc.DrainSeen? || pc.DrainClaimed? || pc.Closing?
  }

  predicate AnyHolder(s: State) {
    exists t :: 0 <= t < |s.threads| && Holder(s.threads[t])
  }

  /** At most one thread holds the guard, and it is taken exactly while one does. */
  predicate OneHolder(s: State) {
    && (forall t, u | 0 <= t < |s.threads| && 0 <= u < |s.threads| ::
          Holder(s.threads[t]) && Holder(s.threads[u]) ==> t == u)
    && (s.guard <==> AnyHolder(s))
  }

  /** An input that found the guard free takes it after its attachments are written, taken or not. */
  predicate TakesTwice(s: State, step: Step) {
    step.Act? && step.t < |s.threads| && s.threads[step.t].InputAttaching? && !step.choice.Fail? && s.guard
  }

  // ----- one thread moves ----------------------------------------------------------------

  /** The thread keeps what it holds, takes a free guard, or drops the guard it holds. */
  lemma MoveKeepsOneHolder(s: State, s': State, t: nat)
    requires OneHolder(s) && OnlyMoves(s, s', t)
    requires
      if Holder(s.threads[t]) then s'.guard == Holder(s'.threads[t])
      else if Holder(s'.threads[t]) then !s.guard && s'.guard
      else s'.guard == s.guard
    ensures OneHolder(s')
  {
    if Holder(s.threads[t]) {
      assert forall u | 0 <= u < |s.threads| && u != t :: !Holder(s'.threads[u]);
    } else if Holder(s'.threads[t]) {
      assert forall u | 0 <= u < |s.threads| && u != t :: !Holder(s'.threads[u]);
    } else if s.guard {
      var u :| 0 <= u < |s.threads| && Holder(s.threads[u]);
      assert Holder(s'.threads[u]);
    } else {
      assert forall u | 0 <= u < |s.threads| && u != t :: !Holder(s'.threads[u]);
    }
  }

  lemma SecondHolder(s: State, s': State, t: nat)
    requires OneHolder(s) && OnlyMoves(s, s', t) && s.guard && !Holder(s.threads[t]) && Holder(s'.threads[t])
    ensures !OneHolder(s')
  {
    var u :| 0 <= u < |s.threads| && Holder(s.threads[u]);
    assert Holder(s'.threads[u]) && u != t;
  }

  lemma ActInputHolder(s: State, t: nat, choice: Choice)
    requires OneHolder(s) && t < |s.threads| && Open(s, s.threads[t], choice)
    requires var pc := s.threads[t]; pc.InputRead? || pc.InputSeen? || pc.InputAttaching?
    ensures OneHolder(ActInput(s, t, choice)) <==> !TakesTwice(s, Act(t, choice))
  {
    if TakesTwice(s, Act(t, choice)) {
      SecondHolder(s, ActInput(s, t, choice), t);
    } else {
      MoveKeepsOneHolder(s, ActInput(s, t, choice), t);
    }
  }

  lemma ActDrainHolder(s: State, t: nat, choice: Choice)
    requires OneHolder(s) && t < |s.threads| && Open(s, s.threads[t], choice)
    requires var pc := s.threads[t]; pc.DrainRead? || pc.DrainSeen? || pc.DrainClaimed? || pc.Closing?
    ensures OneHolder(ActDrain(s, t, choice))
  {
    assert Holder(s.threads[t]) && s.guard;
    MoveKeepsOneHolder(s, ActDrain(s, t, choice), t);
  }

  lemma ActChainHolder(s: State, t: nat, choice: Choice)
    requires OneHolder(s) && t < |s.threads| && Open(s, s.threads[t], choice)
    requires var pc := s.threads[t]; pc.ChainRead? || pc.ChainSeen? || pc.ChainCompleted?
    ensures OneHolder(ActChain(s, t, choice))
  {
    assert Holder(s.threads[t]) && s.guard;
    MoveKeepsOneHolder(s, ActChain(s, t, choice), t);
  }

  lemma ActTurnHolder(s: State, t: nat, choice: Choice)
    requires OneHolder(s) && t < |s.threads| && Open(s, s.threads[t], choice) && IsTurn(s.threads[t])
    ensures OneHolder(ActTurn(s, t, choice))
  {
    assert Holder(s.threads[t]) && s.guard;
    MoveKeepsOneHolder(s, ActTurn(s, t, choice), t);
  }

  lemma ActBranchHolder(s: State, t: nat, choice: Choice)
    requires OneHolder(s) && t < |s.threads| && Open(s, s.threads[t], choice) && IsBranch(s.threads[t])
    ensures OneHolder(ActBranch(s, t, choice))
  {
    MoveKeepsOneHolder(s, ActBranch(s, t, choice), t);
  }

  lemma ActOtherHolder(s: State, t: nat, choice: Choice)
    requires OneHolder(s) && t < |s.threads| && Open(s, s.threads[t], choice)
    requires !Holder(s.threads[t]) && !IsBranch(s.threads[t])
    ensures OneHolder(ActOther(s, t, choice))
  {
    MoveKeepsOneHolder(s, ActOther(s, t, choice), t);
  }

  lemma OtherStepHolder(s: State, step: Step)
    requires OneHolder(s) && Enabled(s, step) && !step.Act?
    ensures OneHolder(Next(s, step))
  {
    var s' := Next(s, step);
    if step.Spawn? {
      assert forall t | 0 <= t < |s'.threads| && Holder(s'.threads[t]) ::
          t < |s.threads| && s'.threads[t] == s.threads[t];
      if AnyHolder(s) {
        var t :| 0 <= t < |s.threads| && Holder(s.threads[t]);
        assert Holder(s'.threads[t]);
      }
    } else {
      assert s'.threads == s.threads && s'.guard == s.guard;
      assert AnyHolder(s') == AnyHolder(s);
    }
  }

  /** A step brings a second holder, or parts the guard from its holder, exactly when an input takes
      a taken guard. */
  lemma StepKeepsOneHolder(s: State, step: Step)
    requires OneHolder(s) && Enabled(s, step)
    ensures OneHolder(Next(s, step)) <==> !TakesTwice(s, step)
  {
    if step.Act? {
      var t, choice := step.t, step.choice;
      var pc := s.threads[t];
      if pc.InputRead? || pc.InputSeen? || pc.InputAttaching? {
        ActInputHolder(s, t, choice);
      } else if pc.DrainRead? || pc.DrainSeen? || pc.DrainClaimed? || pc.Closing? {
        ActDrainHolder(s, t, choice);
      } else if pc.ChainRead? || pc.ChainSeen? || pc.ChainCompleted? {
        ActChainHolder(s, t, choice);
      } else if IsTurn(pc) {
        ActTurnHolder(s, t, choice);
      } else if IsBranch(pc) {
        ActBranchHolder(s, t, choice);
      } else {
        ActOtherHolder(s, t, choice);
      }
    } else {
      OtherStepHolder(s, step);
    }
  }

  // ----- runs ----------------------------------------------------------------------------

  predicate NeverTakenTwice(s: State, steps: seq<Step>)
    requires Runs(s, steps)
    decreases |steps|
  {
    steps == [] || (!TakesTwice(s, steps[0]) && NeverTakenTwice(Next(s, steps[0]), steps[1..]))
  }

  predicate OneHolderThroughout(s: State, steps: seq<Step>)
    requires Runs(s, steps)
    decreases |steps|
  {
    OneHolder(s) && (steps == [] || OneHolderThroughout(Next(s, steps[0]), steps[1..]))
  }

  /** A run keeps the guard with one holder throughout exactly when no input of it takes a taken guard. */
  lemma {:induction false} RunKeepsOneHolder(s: State, steps: seq<Step>)
    requires OneHolder(s) && Runs(s, steps)
    ensures OneHolderThroughout(s, steps) <==> NeverTakenTwice(s, steps)
    ensures NeverTakenTwice(s, steps) ==> OneHolder(Outcome(s, steps))
    decreases |steps|
  {
    if steps != [] {
      StepKeepsOneHolder(s, steps[0]);
      if OneHolder(Next(s, steps[0])) {
        RunKeepsOneHolder(Next(s, steps[0]), steps[1..]);
      }
    }
  }

  // ----- claims --------------------------------------------------------------------------

  lemma AtMostTwo(a: Option<string>, b: Option<string>, ids: set<string>)
    requires ids <= One(a) + One(b)
    ensures |ids| <= 2
  {
    var both := One(a) + One(b);
    assert |both| <= 2 by {
      if a.Some? && b.Some? {
        assert both == {a.value, b.value};
      } else if a.Some? {
        assert both == {a.value};
      } else if b.Some? {
        assert both == {b.value};
      }
    }
    SmallerSet(ids, both);
  }

  lemma {:induction false} SmallerSet(a: set<string>, b: set<string>)
    requires a <= b
    ensures |a| <= |b|
  {
    if a != {} {
      var x :| x in a;
      SmallerSet(a - {x}, b - {x});
    }
  }

  /** With one holder, every claim is its own: one item it runs, and one it goes on with. */
  lemma OneHolderClaims(s: State)
    requires Ledger(s) && OneHolder(s)
    ensures |ClaimedIds(s.queue)| <= 2
    ensures !s.guard ==> ClaimedIds(s.queue) == {}
  {
    if s.guard {
      var t :| 0 <= t < |s.threads| && Holder(s.threads[t]);
      forall id | id in ClaimedIds(s.queue) ensures id in Owned(s.threads[t]) {
        assert HasOwner(s, id);
      }
      AtMostTwo(RunningClaim(s.threads[t]), SuccessorClaim(s.threads[t]), ClaimedIds(s.queue));
    } else {
      assert forall t | 0 <= t < |s.threads| :: Owned(s.threads[t]) == {};
      assert forall id :: !HasOwner(s, id);
    }
  }

  /** In every run that loses no claim and in which no input takes a taken guard, at most two items
      are claimed, and none while the guard is free. */
  lemma AtMostTwoClaims(s: State, steps: seq<Step>)
    requires Initial(s) && Runs(s, steps) && NothingLost(s, steps) && NeverTakenTwice(s, steps)
    ensures
      var end := Outcome(s, steps);
      |ClaimedIds(end.queue)| <= 2 && (!end.guard ==> ClaimedIds(end.queue) == {})
  {
    assert Ledger(s) && OneHolder(s);
    RunKeepsLedger(s, steps);
    RunKeepsOneHolder(s, steps);
    OneHolderClaims(Outcome(s, steps));
  }

  /** Whatever clears the row's flag, the guard alone keeps two threads from running turns, as long as
      no input takes it twice. */
  lemma GuardExcludesTurns(s: State, steps: seq<Step>, t: nat, u: nat)
    requires Initial(s) && Runs(s, steps) && NeverTakenTwice(s, steps)
    requires t < |Outcome(s, steps).threads| && u < |Outcome(s, steps).threads|
    requires IsTurn(Outcome(s, steps).threads[t]) && IsTurn(Outcome(s, steps).threads[u])
    ensures t == u
  {
    RunKeepsOneHolder(s, steps);
  }
}
