/** At most one turn, or branch compaction, of a session is between its start and its end. */
module TurnExclusion {
  import opened JsText
  import opened RequestQueue
  import opened SessionRow
  import opened TurnScheduler

  /** Between a successful start and the end that belongs to it. */
  predicate Live(pc: Pc) {
    || pc.TurnOpen? || pc.TurnLive?
    || pc.BranchStarted? || pc.BranchPhased? || pc.BranchLive? || pc == BranchFailed(false)
  }

  predicate AnyLive(s: State) {
    exists i :: 0 <= i < |s.threads| && Live(s.threads[i])
  }

  predicate AtMostOneLive(s: State) {
    forall i, j | 0 <= i < |s.threads| && 0 <= j < |s.threads| && Live(s.threads[i]) && Live(s.threads[j]) :: i == j
  }

  /** At most one live thread, and a row that exists says so. */
  predicate Exclusive(s: State) {
    && AtMostOneLive(s)
    && (AnyLive(s) && s.row.Some? ==> Running(s))
  }

  /** An end of a turn by a thread that is not, or no longer, between start and end: a turn ended
      again after the event for its first end threw, an interrupt completed although no turn was
      registered, and the second end of a failed branch compaction. */
  predicate StrayEnd(s: State, step: Step) {
    && step.Act?
    && step.t < |s.threads|
    && s.row.Some?
    && match s.threads[step.t]
       case TurnEnded(_, _) => step.choice.EndTwice?
       case InterruptAnswered(accepted) => !accepted && !step.choice.Fail?
       case BranchFailed(ended) => ended && !step.choice.Fail?
       case _ => false
  }

  lemma MoveKeepsExclusive(s: State, s': State, t: nat)
    requires Exclusive(s) && OnlyMoves(s, s', t)
    requires Live(s'.threads[t]) ==> Live(s.threads[t]) || (s.row.Some? && !Running(s))
    requires Live(s'.threads[t]) && s'.row.Some? ==> Running(s')
    requires s'.row.Some? ==> s.row.Some? && (Running(s) ==> Running(s') || Live(s.threads[t]) || !AnyLive(s))
    ensures Exclusive(s')
  {
    if AnyLive(s') && s'.row.Some? && !Live(s'.threads[t]) {
      var i :| 0 <= i < |s'.threads| && Live(s'.threads[i]);
      assert Live(s.threads[i]);
    }
  }

  lemma StrayEndBreaks(s: State, s': State, t: nat)
    requires OnlyMoves(s, s', t) && AnyLive(s) && !Live(s.threads[t])
    requires s'.row.Some? && !Running(s')
    ensures !Exclusive(s')
  {
    var i :| 0 <= i < |s.threads| && Live(s.threads[i]);
    assert Live(s'.threads[i]);
  }

  lemma ActInputExclusive(s: State, t: nat, choice: Choice)
    requires Exclusive(s) && t < |s.threads| && Open(s, s.threads[t], choice)
    requires var pc := s.threads[t]; pc.InputRead? || pc.InputSeen? || pc.InputAttaching?
    ensures Exclusive(ActInput(s, t, choice))
  {
    MoveKeepsExclusive(s, ActInput(s, t, choice), t);
  }

  lemma ActDrainExclusive(s: State, t: nat, choice: Choice)
    requires Exclusive(s) && t < |s.threads| && Open(s, s.threads[t], choice)
    requires var pc := s.threads[t]; pc.DrainRead? || pc.DrainSeen? || pc.DrainClaimed? || pc.Closing?
    ensures Exclusive(ActDrain(s, t, choice))
  {
    MoveKeepsExclusive(s, ActDrain(s, t, choice), t);
  }

  lemma ActChainExclusive(s: State, t: nat, choice: Choice)
    requires Exclusive(s) && t < |s.threads| && Open(s, s.threads[t], choice)
    requires var pc := s.threads[t]; pc.ChainRead? || pc.ChainSeen? || pc.ChainCompleted?
    ensures Exclusive(ActChain(s, t, choice))
  {
    MoveKeepsExclusive(s, ActChain(s, t, choice), t);
  }

  lemma EndedExclusive(s: State, t: nat, choice: Choice)
    requires Exclusive(s) && t < |s.threads| && Open(s, s.threads[t], choice) && s.threads[t].TurnEnded?
    ensures Exclusive(ActTurn(s, t, choice)) <==> !(StrayEnd(s, Act(t, choice)) && AnyLive(s))
  {
    var s' := ActTurn(s, t, choice);
    if StrayEnd(s, Act(t, choice)) && AnyLive(s) {
      StrayEndBreaks(s, s', t);
    } else {
      MoveKeepsExclusive(s, s', t);
    }
  }

  lemma DoneExclusive(s: State, t: nat, choice: Choice)
    requires Exclusive(s) && t < |s.threads| && Open(s, s.threads[t], choice)
    requires s.threads[t].TurnFailed? || s.threads[t].TurnDone?
    ensures Exclusive(ActTurn(s, t, choice))
  {
    MoveKeepsExclusive(s, ActTurn(s, t, choice), t);
  }

  lemma LiveExclusive(s: State, t: nat, choice: Choice)
    requires Exclusive(s) && t < |s.threads| && Open(s, s.threads[t], choice)
    requires s.threads[t].TurnStart? || s.threads[t].TurnOpen? || s.threads[t].TurnLive?
    ensures Exclusive(ActTurn(s, t, choice))
  {
    MoveKeepsExclusive(s, ActTurn(s, t, choice), t);
  }

  lemma ActTurnExclusive(s: State, t: nat, choice: Choice)
    requires Exclusive(s) && t < |s.threads| && Open(s, s.threads[t], choice)
    requires
      var pc := s.threads[t];
      pc.TurnStart? || pc.TurnOpen? || pc.TurnLive? || pc.TurnFailed? || pc.TurnEnded? || pc.TurnDone?
    ensures Exclusive(ActTurn(s, t, choice)) <==> !(StrayEnd(s, Act(t, choice)) && AnyLive(s))
  {
    var pc := s.threads[t];
    if pc.TurnEnded? {
      EndedExclusive(s, t, choice);
    } else if pc.TurnFailed? || pc.TurnDone? {
      DoneExclusive(s, t, choice);
    } else {
      LiveExclusive(s, t, choice);
    }
  }

  lemma ActOtherExclusive(s: State, t: nat, choice: Choice)
    requires Exclusive(s) && t < |s.threads| && Open(s, s.threads[t], choice)
    requires
      var pc := s.threads[t];
      && !pc.TurnStart? && !pc.TurnOpen? && !pc.TurnLive? && !pc.TurnFailed? && !pc.TurnEnded? && !pc.TurnDone?
      && !IsBranch(pc)
    ensures Exclusive(ActOther(s, t, choice)) <==> !(StrayEnd(s, Act(t, choice)) && AnyLive(s))
  {
    var s' := ActOther(s, t, choice);
    if StrayEnd(s, Act(t, choice)) && AnyLive(s) {
      StrayEndBreaks(s, s', t);
    } else {
      MoveKeepsExclusive(s, s', t);
    }
  }

  lemma ActBranchExclusive(s: State, t: nat, choice: Choice)
    requires Exclusive(s) && t < |s.threads| && Open(s, s.threads[t], choice) && IsBranch(s.threads[t])
    ensures Exclusive(ActBranch(s, t, choice)) <==> !(StrayEnd(s, Act(t, choice)) && AnyLive(s))
  {
    var s' := ActBranch(s, t, choice);
    if StrayEnd(s, Act(t, choice)) && AnyLive(s) {
      StrayEndBreaks(s, s', t);
    } else {
      MoveKeepsExclusive(s, s', t);
    }
  }

  /** A step keeps exclusion exactly when it is not a stray end while something is live. */
  lemma StepKeepsExclusion(s: State, step: Step)
    requires Exclusive(s) && Enabled(s, step)
    ensures Exclusive(Next(s, step)) <==> !(StrayEnd(s, step) && AnyLive(s))
  {
    match step
    case Act(t, choice) =>
      var pc := s.threads[t];
      if pc.InputRead? || pc.InputSeen? || pc.InputAttaching? {
        ActInputExclusive(s, t, choice);
      } else if pc.DrainRead? || pc.DrainSeen? || pc.DrainClaimed? || pc.Closing? {
        ActDrainExclusive(s, t, choice);
      } else if pc.ChainRead? || pc.ChainSeen? || pc.ChainCompleted? {
        ActChainExclusive(s, t, choice);
      } else if pc.TurnStart? || pc.TurnOpen? || pc.TurnLive? || pc.TurnFailed? || pc.TurnEnded? || pc.TurnDone? {
        ActTurnExclusive(s, t, choice);
      } else if IsBranch(pc) {
        ActBranchExclusive(s, t, choice);
      } else {
        ActOtherExclusive(s, t, choice);
      }
    case Spawn(pc) =>
      var s' := Next(s, step);
      assert forall i | 0 <= i < |s'.threads| && Live(s'.threads[i]) :: i < |s.threads| && Live(s.threads[i]);
    case DeleteSession => assert Next(s, step).threads == s.threads;
    case _ => assert Next(s, step).threads == s.threads && Next(s, step).row == s.row;
  }

  /** No step of the run is a stray end while something is live. */
  predicate NoStrayEnd(s: State, steps: seq<Step>)
    requires Runs(s, steps)
    decreases |steps|
  {
    steps == [] || (!(StrayEnd(s, steps[0]) && AnyLive(s)) && NoStrayEnd(Next(s, steps[0]), steps[1..]))
  }

  lemma {:induction false} RunKeepsExclusion(s: State, steps: seq<Step>)
    requires Exclusive(s) && Runs(s, steps) && NoStrayEnd(s, steps)
    ensures Exclusive(Outcome(s, steps))
    decreases |steps|
  {
    if steps != [] {
      StepKeepsExclusion(s, steps[0]);
      RunKeepsExclusion(Next(s, steps[0]), steps[1..]);
    }
  }

  /** In every interleaving without a stray end, at most one turn or compaction is live. */
  lemma TurnsExclude(s: State, steps: seq<Step>)
    requires Initial(s) && Runs(s, steps) && NoStrayEnd(s, steps)
    ensures AtMostOneLive(Outcome(s, steps))
  {
    RunKeepsExclusion(s, steps);
  }

  // ----- the other way round -------------------------------------------------------------

  /** A row that says running has somebody between start and end. */
  predicate Backed(s: State) {
    Running(s) ==> AnyLive(s)
  }

  /** The only live turn throws before its input is recorded, or cannot be ended any more; or the
      message that branched the session off throws before it launches the compaction, or neither end
      of a failed compaction reaches the row: nobody ends the turn, and the row stays running. */
  predicate Abandons(s: State, step: Step) {
    && step.Act? && step.choice.Fail? && step.t < |s.threads|
    && (match s.threads[step.t]
        case TurnOpen(_) => true
        case TurnLive(_) => true
        case BranchStarted => true
        case BranchPhased => true
        case BranchFailed(ended) => !ended
        case _ => false)
    && Running(s)
    && forall i | 0 <= i < |s.threads| && i != step.t :: !Live(s.threads[i])
  }

  lemma MoveKeepsBacked(s: State, s': State, t: nat)
    requires Backed(s) && OnlyMoves(s, s', t)
    requires Running(s') ==> Live(s'.threads[t]) || (Running(s) && !Live(s.threads[t]))
    ensures Backed(s')
  {
    if Running(s') && !Live(s'.threads[t]) {
      var i :| 0 <= i < |s.threads| && Live(s.threads[i]);
      assert Live(s'.threads[i]);
    }
  }

  /** A live thread stops and leaves the row as it is. */
  lemma MoveDropsLive(s: State, s': State, t: nat)
    requires OnlyMoves(s, s', t) && Live(s.threads[t]) && !Live(s'.threads[t]) && Running(s') == Running(s)
    ensures
      Backed(s') <==> !(Running(s) && forall i | 0 <= i < |s.threads| && i != t :: !Live(s.threads[i]))
  {
    if forall i | 0 <= i < |s.threads| && i != t :: !Live(s.threads[i]) {
      assert forall i | 0 <= i < |s'.threads| && i != t :: s'.threads[i] == s.threads[i];
    } else if Running(s) {
      var i :| 0 <= i < |s.threads| && i != t && Live(s.threads[i]);
      assert Live(s'.threads[i]);
    }
  }

  lemma ActTurnBacked(s: State, t: nat, choice: Choice)
    requires Backed(s) && t < |s.threads| && Open(s, s.threads[t], choice)
    requires
      var pc := s.threads[t];
      pc.TurnStart? || pc.TurnOpen? || pc.TurnLive? || pc.TurnFailed? || pc.TurnEnded? || pc.TurnDone?
    ensures Backed(ActTurn(s, t, choice)) <==> !Abandons(s, Act(t, choice))
  {
    var pc := s.threads[t];
    if (pc.TurnOpen? || pc.TurnLive?) && choice.Fail? {
      MoveDropsLive(s, ActTurn(s, t, choice), t);
    } else {
      MoveKeepsBacked(s, ActTurn(s, t, choice), t);
    }
  }

  lemma ActBranchBacked(s: State, t: nat, choice: Choice)
    requires Backed(s) && t < |s.threads| && Open(s, s.threads[t], choice) && IsBranch(s.threads[t])
    ensures Backed(ActBranch(s, t, choice)) <==> !Abandons(s, Act(t, choice))
  {
    var pc := s.threads[t];
    if Live(pc) && !pc.BranchLive? && choice.Fail? {
      MoveDropsLive(s, ActBranch(s, t, choice), t);
    } else {
      MoveKeepsBacked(s, ActBranch(s, t, choice), t);
    }
  }

  lemma ActRestBacked(s: State, t: nat, choice: Choice)
    requires Backed(s) && t < |s.threads| && Open(s, s.threads[t], choice)
    requires
      var pc := s.threads[t];
      && !pc.TurnStart? && !pc.TurnOpen? && !pc.TurnLive? && !pc.TurnFailed? && !pc.TurnEnded? && !pc.TurnDone?
      && !IsBranch(pc)
    ensures Backed(ActStep(s, t, choice))
  {
    MoveKeepsBacked(s, ActStep(s, t, choice), t);
  }

  /** A step leaves a running row with nobody live exactly when it abandons the one live turn. */
  lemma StepKeepsBacked(s: State, step: Step)
    requires Backed(s) && Enabled(s, step)
    ensures Backed(Next(s, step)) <==> !Abandons(s, step)
  {
    match step
    case Act(t, choice) =>
      var pc := s.threads[t];
      if pc.TurnStart? || pc.TurnOpen? || pc.TurnLive? || pc.TurnFailed? || pc.TurnEnded? || pc.TurnDone? {
        ActTurnBacked(s, t, choice);
      } else if IsBranch(pc) {
        ActBranchBacked(s, t, choice);
      } else {
        ActRestBacked(s, t, choice);
      }
    case Spawn(pc) =>
      if AnyLive(s) {
        var i :| 0 <= i < |s.threads| && Live(s.threads[i]);
        assert Live(Next(s, step).threads[i]);
      }
    case DeleteSession =>
    case _ => assert Next(s, step).threads == s.threads && Next(s, step).row == s.row;
  }

  predicate NothingAbandoned(s: State, steps: seq<Step>)
    requires Runs(s, steps)
    decreases |steps|
  {
    steps == [] || (!Abandons(s, steps[0]) && NothingAbandoned(Next(s, steps[0]), steps[1..]))
  }

  lemma {:induction false} RunKeepsBacked(s: State, steps: seq<Step>)
    requires Backed(s) && Runs(s, steps) && NothingAbandoned(s, steps)
    ensures Backed(Outcome(s, steps))
    decreases |steps|
  {
    if steps != [] {
      StepKeepsBacked(s, steps[0]);
      RunKeepsBacked(Next(s, steps[0]), steps[1..]);
    }
  }

  /** With neither kind of step, an existing row says running exactly while a turn or compaction is live. */
  lemma RunningMeansLive(s: State, steps: seq<Step>)
    requires Initial(s) && Runs(s, steps) && NoStrayEnd(s, steps) && NothingAbandoned(s, steps)
    requires Outcome(s, steps).row.Some?
    ensures Running(Outcome(s, steps)) <==> AnyLive(Outcome(s, steps))
  {
    RunKeepsExclusion(s, steps);
    RunKeepsBacked(s, steps);
  }

  // ----- history -------------------------------------------------------------------------

  /** The phase of the registered turn, which no row tells; which one it is does not matter here. */
  function RuntimePhase(s: State): Option<string> {
    if s.scope.Some? then Some("registered") else None
  }

  predicate HistoryOpen(s: State) {
    s.row.Some? && HistoryMayChange(s.row.value, RuntimePhase(s))
  }

  /** Over every run without a stray end, history can be changed only while nothing is live. */
  lemma HistoryOpensAtRest(s: State, steps: seq<Step>)
    requires Initial(s) && Runs(s, steps) && NoStrayEnd(s, steps) && HistoryOpen(Outcome(s, steps))
    ensures !AnyLive(Outcome(s, steps))
  {
    RunKeepsExclusion(s, steps);
  }

  /** A registered turn ends, and then closes its scope: in between history stays closed, and afterwards
      it is open exactly when the end has completed an interrupt, or none was asked for. */
  lemma EndThenScopeOpensHistory(s: State, t: nat, end: Choice, close: Choice, ended: State, closed: State)
    requires t < |s.threads| && s.threads[t].TurnLive? && Running(s) && s.scope == Some(t)
    requires Open(s, s.threads[t], end) && (end.Go? || end.Interrupted?)
    requires ended == Next(s, Act(t, end)) && Open(ended, ended.threads[t], close) && !close.EndTwice?
    requires closed == Next(ended, Act(t, close))
    ensures !HistoryOpen(s) && !HistoryOpen(ended)
    ensures HistoryOpen(closed) <==> end.Interrupted? || !s.row.value.interruptrequested
  {
    HistoryAfterEnd(s.row.value, 0);
    assert ended.row == Some(Closed(s.row.value, end.Interrupted?)) && ended.scope == Some(t);
    assert closed.row == ended.row && closed.scope == None;
  }
}
