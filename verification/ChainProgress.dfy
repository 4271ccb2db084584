/** A chain has a bounded number of turns, and a launched run hands over before it ends. */
module ChainProgress {
  import opened JsText
  import opened RequestQueue
  import opened SessionRow
  import opened TurnScheduler
  import opened ClaimLedger

  // ----- length of a chain ---------------------------------------------------------------

  /** The number of the turn a chain is at. */
  function TurnNumber(pc: Pc): Option<nat> {
    match pc
    case ChainRead(_, number) => Some(number)
    case ChainSeen(_, number, _, _) => Some(number)
    case ChainCompleted(number, _, _) => Some(number)
    case TurnStart(origin) => OriginNumber(origin)
    case TurnOpen(origin) => OriginNumber(origin)
    case TurnLive(origin) => OriginNumber(origin)
    case TurnFailed(origin) => OriginNumber(origin)
    case TurnEnded(origin, _) => OriginNumber(origin)
    case TurnDone(origin, _) => OriginNumber(origin)
    case _ => None
  }

  function OriginNumber(origin: Origin): Option<nat> {
    if origin.FromChain? then Some(origin.number) else None
  }

  predicate Numbered(pc: Pc) {
    TurnNumber(pc).Some? ==> 1 <= TurnNumber(pc).value <= 100
  }

  ghost predicate AllNumbered(s: State) {
    forall t | 0 <= t < |s.threads| :: Numbered(s.threads[t])
  }

  /** A thread's chain goes on with the same turn, begins at one, or comes to the next turn. */
  lemma TurnNumberMoves(s: State, t: nat, choice: Choice)
    requires t < |s.threads| && Open(s, s.threads[t], choice) && Numbered(s.threads[t])
    ensures
      var before, after := TurnNumber(s.threads[t]), TurnNumber(ActStep(s, t, choice).threads[t]);
      && Numbered(ActStep(s, t, choice).threads[t])
      && (after.Some? ==>
            || before == after
            || (before.None? && after.value == 1)
            || (before.Some? && Completes(s.threads[t]) && after.value == before.value + 1))
  {
    var pc := s.threads[t];
    if pc.ChainRead? || pc.ChainSeen? || pc.ChainCompleted? {
      ChainNumberMoves(s, t, choice);
    } else if pc.TurnDone? {
      DoneNumberMoves(s, t, choice);
    } else if IsTurn(pc) {
      ActTurnNumber(s, t, choice);
    } else if pc.DrainRead? || pc.DrainSeen? || pc.DrainClaimed? || pc.Closing? {
      DrainNumber(s, t, choice);
    } else {
      RestNumber(s, t, choice);
    }
  }

  lemma DrainNumber(s: State, t: nat, choice: Choice)
    requires t < |s.threads| && Open(s, s.threads[t], choice)
    requires var pc := s.threads[t]; pc.DrainRead? || pc.DrainSeen? || pc.DrainClaimed? || pc.Closing?
    ensures var after := TurnNumber(ActDrain(s, t, choice).threads[t]); after.Some? ==> after.value == 1
  {
  }

  lemma RestNumber(s: State, t: nat, choice: Choice)
    requires t < |s.threads| && Open(s, s.threads[t], choice)
    requires
      var pc := s.threads[t];
      && !IsTurn(pc) && !pc.ChainRead? && !pc.ChainSeen? && !pc.ChainCompleted?
      && !pc.DrainRead? && !pc.DrainSeen? && !pc.DrainClaimed? && !pc.Closing?
    ensures TurnNumber(ActStep(s, t, choice).threads[t]).None?
  {
    var pc := s.threads[t];
    if pc.InputRead? || pc.InputSeen? || pc.InputAttaching? {
      assert TurnNumber(ActInput(s, t, choice).threads[t]).None?;
    } else if IsBranch(pc) {
      assert TurnNumber(ActBranch(s, t, choice).threads[t]).None?;
    } else {
      assert TurnNumber(ActOther(s, t, choice).threads[t]).None?;
    }
  }

  predicate Completes(pc: Pc) {
    pc.ChainCompleted? || pc.TurnDone?
  }

  lemma ChainNumberMoves(s: State, t: nat, choice: Choice)
    requires t < |s.threads| && Open(s, s.threads[t], choice) && Numbered(s.threads[t])
    requires var pc := s.threads[t]; pc.ChainRead? || pc.ChainSeen? || pc.ChainCompleted?
    ensures
      var before, after := TurnNumber(s.threads[t]), TurnNumber(ActChain(s, t, choice).threads[t]);
      && Numbered(ActChain(s, t, choice).threads[t])
      && (after.Some? ==> before == after || (s.threads[t].ChainCompleted? && after.value == before.value + 1))
  {
  }

  lemma DoneNumberMoves(s: State, t: nat, choice: Choice)
    requires t < |s.threads| && Open(s, s.threads[t], choice) && Numbered(s.threads[t]) && s.threads[t].TurnDone?
    ensures
      var before, after := TurnNumber(s.threads[t]), TurnNumber(ActTurn(s, t, choice).threads[t]);
      && Numbered(ActTurn(s, t, choice).threads[t])
      && (after.Some? ==>
            || before == after
            || (before.None? && after.value == 1)
            || (before.Some? && after.value == before.value + 1))
  {
  }

  lemma ActTurnNumber(s: State, t: nat, choice: Choice)
    requires t < |s.threads| && Open(s, s.threads[t], choice) && Numbered(s.threads[t])
    requires IsTurn(s.threads[t]) && !s.threads[t].TurnDone?
    ensures
      var before, after := TurnNumber(s.threads[t]), TurnNumber(ActTurn(s, t, choice).threads[t]);
      Numbered(ActTurn(s, t, choice).threads[t]) && (after.Some? ==> before == after)
  {
  }

  lemma StepKeepsNumbers(s: State, step: Step)
    requires AllNumbered(s) && Enabled(s, step)
    ensures AllNumbered(Next(s, step))
  {
    if step.Act? {
      TurnNumberMoves(s, step.t, step.choice);
      assert OnlyMoves(s, Next(s, step), step.t);
    }
  }

  /** In every run, a chain never comes to more than the allowed number of turns. */
  lemma {:induction false} ChainsAreBounded(s: State, steps: seq<Step>)
    requires AllNumbered(s) && Runs(s, steps)
    ensures AllNumbered(Outcome(s, steps))
    decreases |steps|
  {
    if steps != [] {
      StepKeepsNumbers(s, steps[0]);
      ChainsAreBounded(Next(s, steps[0]), steps[1..]);
    }
  }

  // ----- hand-over -----------------------------------------------------------------------

  /** A thread that will look at the queue when it ends: a turn or a chain, up to its last broadcast. */
  predicate Owes(pc: Pc) {
    IsTurn(pc) || pc.ChainRead? || pc.ChainSeen? || pc.ChainCompleted? || pc == Closing(true)
  }

  /** The thread has handed over: nothing was queued, or it goes on as a drain that holds the guard. */
  predicate HandedOver(s: State, t: nat)
    requires t < |s.threads|
  {
    (s.threads[t] == Done && s.queue == []) || (s.threads[t] == DrainRead && s.guard)
  }

  lemma OthersStay(s: State, step: Step, t: nat)
    requires Enabled(s, step) && t < |s.threads| && !(step.Act? && step.t == t)
    ensures Next(s, step).threads[t] == s.threads[t]
  {
  }

  lemma ChainHandsOver(s: State, t: nat, choice: Choice)
    requires t < |s.threads| && Open(s, s.threads[t], choice)
    requires var pc := s.threads[t]; pc.ChainRead? || pc.ChainSeen? || pc.ChainCompleted?
    ensures Owes(ActChain(s, t, choice).threads[t]) || HandedOver(ActChain(s, t, choice), t)
  {
  }

  lemma StepHandsOver(s: State, step: Step, t: nat)
    requires Enabled(s, step) && t < |s.threads| && Owes(s.threads[t])
    ensures Owes(Next(s, step).threads[t]) || HandedOver(Next(s, step), t)
  {
    if step.Act? && step.t == t {
      var pc := s.threads[t];
      if IsTurn(pc) {
        TurnHandsOver(s, t, step.choice);
      } else if pc.Closing? {
        assert Next(s, step) == Finish(s, t, true);
      } else {
        ChainHandsOver(s, t, step.choice);
      }
    } else {
      OthersStay(s, step, t);
    }
  }

  lemma TurnHandsOver(s: State, t: nat, choice: Choice)
    requires t < |s.threads| && Open(s, s.threads[t], choice) && IsTurn(s.threads[t])
    ensures Owes(ActTurn(s, t, choice).threads[t]) || HandedOver(ActTurn(s, t, choice), t)
  {
  }

  ghost predicate HandsOverDuring(s: State, steps: seq<Step>, t: nat)
    requires Runs(s, steps)
    decreases |steps|
  {
    t < |s.threads| && (HandedOver(s, t) || (steps != [] && HandsOverDuring(Next(s, steps[0]), steps[1..], t)))
  }

  /** No launched run ends without handing over: after any run it is still under way, or at some
      point of the run it found the queue empty or went on as a drain. */
  lemma {:induction false} LaunchedRunHandsOver(s: State, steps: seq<Step>, t: nat)
    requires Runs(s, steps) && t < |s.threads| && Owes(s.threads[t])
    ensures t < |Outcome(s, steps).threads|
    ensures Owes(Outcome(s, steps).threads[t]) || HandsOverDuring(s, steps, t)
    decreases |steps|
  {
    if steps != [] {
      var s' := Next(s, steps[0]);
      StepHandsOver(s, steps[0], t);
      if Owes(s'.threads[t]) {
        LaunchedRunHandsOver(s', steps[1..], t);
      } else {
        assert HandsOverDuring(s', steps[1..], t);
        ThreadsStay(s', steps[1..], t);
      }
    }
  }

  lemma {:induction false} ThreadsStay(s: State, steps: seq<Step>, t: nat)
    requires Runs(s, steps) && t < |s.threads|
    ensures t < |Outcome(s, steps).threads|
    decreases |steps|
  {
    if steps != [] {
      ThreadsStay(Next(s, steps[0]), steps[1..], t);
    }
  }
}
