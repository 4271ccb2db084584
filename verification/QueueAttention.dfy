/** Who will still look at the queue. While a session is idle and something in its queue could run,
    some thread has yet to look at the queue; exactly the steps listed by `Forgets` break this. */
module QueueAttention {
  import opened JsText
  import opened RequestQueue
  import opened SessionRow
  import opened TurnScheduler
  import opened ClaimLedger
  import opened DrainProgress

  /** A drain that has not yet found the session running, a turn or chain, which looks when it ends,
      or a message that will start a drain. */
  predicate Watches(pc: Pc) {
    || IsTurn(pc) || pc.ChainRead? || pc.ChainSeen? || pc.ChainCompleted? || pc == Closing(true)
    || pc.DrainRead? || (pc.DrainSeen? && !pc.running) || pc.DrainClaimed? || pc == AddQueued(false)
  }

  predicate Waiting(q: seq<Item>) {
    exists i :: 0 <= i < |q| && q[i].Runnable()
  }

  predicate AnyWatches(s: State) {
    exists t :: 0 <= t < |s.threads| && Watches(s.threads[t])
  }

  predicate OtherWatches(s: State, t: nat) {
    exists u :: 0 <= u < |s.threads| && u != t && Watches(s.threads[u])
  }

  /** What could run has somebody to run it. */
  predicate Attended(s: State) {
    IsIdle(s) && Waiting(s.queue) ==> AnyWatches(s)
  }

  /** The last one to watch leaves a waiting request, a request comes while nobody watches, or the
      session becomes idle with a request waiting and nobody watching.

      A message queues its request after it has read the session as running, although the turn has
      ended since; it finds the guard taken, or its broadcast throws; a drain cannot read the
      session, or its broadcast throws after a claim; an interrupt that nobody accepted or a branch
      compaction clears the row and looks at no queue; a tool puts in a request, or an edit gives an
      empty one something to send, while nothing runs. */
  predicate Forgets(s: State, step: Step)
    requires Enabled(s, step)
  {
    match step
    case Act(t, choice) =>
      && !OtherWatches(s, t)
      && (match s.threads[t]
          case AddSeen(_, running) => running && choice.Put? && choice.item.Runnable() && IsIdle(s)
          case AddQueued(running) => !running && (choice.Fail? || s.guard) && IsIdle(s) && Waiting(s.queue)
          case DrainRead => choice.Fail? && IsIdle(s) && Waiting(s.queue)
          case DrainClaimed(_) => choice.Fail? && IsIdle(s) && Waiting(s.queue)
          case InterruptAnswered(accepted) => !accepted && !choice.Fail? && s.row.Some? && Waiting(s.queue)
          case BranchLive => !choice.GiveUp? && s.row.Some? && Waiting(s.queue)
          case BranchFailed(_) => !choice.Fail? && s.row.Some? && Waiting(s.queue)
          case _ => false)
    case InsertItem(_, item) => item.Runnable() && IsIdle(s) && !AnyWatches(s)
    case EditItem(itemid, edit) =>
      && Editable(s.queue, itemid) && !EditedItem(s.queue[IndexOfId(s.queue, itemid)], edit, CLAIM_TIME).Empty()
      && IsIdle(s) && !AnyWatches(s)
    case _ => false
  }

  // ----- what waits after an operation on the queue --------------------------------------

  lemma WaitingAfterInsert(q: seq<Item>, k: nat, item: Item)
    requires k <= |q|
    ensures Waiting(InsertedAt(q, k, item)) <==> Waiting(q) || item.Runnable()
  {
    var r := InsertedAt(q, k, item);
    assert r[k] == item;
    if Waiting(q) {
      var i :| 0 <= i < |q| && q[i].Runnable();
      assert r[if i < k then i else i + 1] == q[i];
    }
    if Waiting(r) {
      var i :| 0 <= i < |r| && r[i].Runnable();
      assert i != k ==> r[i] == q[if i < k then i else i - 1];
    }
  }

  lemma {:induction false} WaitingAfterWithout(q: seq<Item>, itemid: string)
    ensures Waiting(Without(q, itemid)) ==> Waiting(q)
  {
    if q != [] {
      WaitingAfterWithout(q[1..], itemid);
      var rest := Without(q[1..], itemid);
      if Waiting(Without(q, itemid)) && !q[0].Runnable() {
        assert Waiting(rest) by {
          var i :| 0 <= i < |Without(q, itemid)| && Without(q, itemid)[i].Runnable();
          assert q[0].itemid != itemid ==> rest[i - 1].Runnable();
        }
        var j :| 0 <= j < |q[1..]| && q[1..][j].Runnable();
        assert q[j + 1].Runnable();
      }
    }
  }

  lemma NothingToClaim(q: seq<Item>)
    ensures Claim(q, CLAIM_TIME).None? ==> !Waiting(AfterClaim(q, CLAIM_TIME))
  {
    FirstRunnableIsFirst(Pruned(q));
  }

  lemma WaitingAfterEdit(q: seq<Item>, itemid: string, edit: Edit)
    ensures !Waiting(q) ==>
              (Waiting(Edited(q, itemid, edit, CLAIM_TIME)) <==>
                 Editable(q, itemid) && !EditedItem(q[IndexOfId(q, itemid)], edit, CLAIM_TIME).Empty())
  {
    var k := IndexOfId(q, itemid);
    var r := Edited(q, itemid, edit, CLAIM_TIME);
    if Editable(q, itemid) {
      assert r[k] == EditedItem(q[k], edit, CLAIM_TIME);
    }
  }

  // ----- one thread moves ----------------------------------------------------------------

  /** The thread that moves watches afterwards, or nothing waits, or the session is not idle. */
  lemma MoveAttends(s: State, s': State, t: nat)
    requires OnlyMoves(s, s', t)
    requires Watches(s'.threads[t]) || !IsIdle(s') || !Waiting(s'.queue)
    ensures Attended(s')
  {
  }

  /** A thread that did not watch moves, and nothing that matters changes. */
  lemma MoveKeepsAttended(s: State, s': State, t: nat)
    requires Attended(s) && OnlyMoves(s, s', t) && !Watches(s.threads[t])
    requires IsIdle(s') && Waiting(s'.queue) ==> IsIdle(s) && Waiting(s.queue)
    ensures Attended(s')
  {
    if IsIdle(s) && Waiting(s.queue) {
      var u :| 0 <= u < |s.threads| && Watches(s.threads[u]);
      assert Watches(s'.threads[u]);
    }
  }

  /** A thread that does not watch afterwards leaves an idle session with something waiting. */
  lemma MoveLeaves(s: State, s': State, t: nat)
    requires OnlyMoves(s, s', t) && !Watches(s'.threads[t]) && IsIdle(s') && Waiting(s'.queue)
    ensures Attended(s') <==> OtherWatches(s, t)
  {
    if OtherWatches(s, t) {
      var u :| 0 <= u < |s.threads| && u != t && Watches(s.threads[u]);
      assert Watches(s'.threads[u]);
    }
  }

  lemma ActInputAttends(s: State, t: nat, choice: Choice)
    requires Attended(s) && t < |s.threads| && Open(s, s.threads[t], choice)
    requires var pc := s.threads[t]; pc.InputRead? || pc.InputSeen? || pc.InputAttaching?
    ensures Attended(ActInput(s, t, choice))
  {
    MoveKeepsAttended(s, ActInput(s, t, choice), t);
  }

  lemma DrainAwaitsAttends(s: State, t: nat, choice: Choice)
    requires t < |s.threads| && Open(s, s.threads[t], choice)
    requires s.threads[t].DrainRead? || s.threads[t].DrainClaimed?
    ensures Attended(ActDrain(s, t, choice)) <==> !Forgets(s, Act(t, choice))
  {
    if choice.Fail? && IsIdle(s) && Waiting(s.queue) {
      MoveLeaves(s, ActDrain(s, t, choice), t);
    } else {
      MoveAttends(s, ActDrain(s, t, choice), t);
    }
  }

  lemma DrainSeenAttends(s: State, t: nat, choice: Choice)
    requires Attended(s) && t < |s.threads| && Open(s, s.threads[t], choice)
    requires s.threads[t].DrainSeen? || s.threads[t].Closing?
    ensures Attended(ActDrain(s, t, choice))
  {
    NothingToClaim(s.queue);
    if !Watches(s.threads[t]) {
      MoveKeepsAttended(s, ActDrain(s, t, choice), t);
    } else {
      MoveAttends(s, ActDrain(s, t, choice), t);
    }
  }

  lemma ActChainAttends(s: State, t: nat, choice: Choice)
    requires t < |s.threads| && Open(s, s.threads[t], choice)
    requires var pc := s.threads[t]; pc.ChainRead? || pc.ChainSeen? || pc.ChainCompleted?
    ensures Attended(ActChain(s, t, choice))
  {
    MoveAttends(s, ActChain(s, t, choice), t);
  }

  lemma ActTurnAttends(s: State, t: nat, choice: Choice)
    requires t < |s.threads| && Open(s, s.threads[t], choice) && IsTurn(s.threads[t])
    ensures Attended(ActTurn(s, t, choice))
  {
    MoveAttends(s, ActTurn(s, t, choice), t);
  }

  lemma ActAddAttends(s: State, t: nat, choice: Choice)
    requires Attended(s) && t < |s.threads| && Open(s, s.threads[t], choice)
    requires var pc := s.threads[t]; pc.AddRead? || pc.AddSeen? || pc.AddQueued?
    ensures Attended(ActOther(s, t, choice)) <==> !Forgets(s, Act(t, choice))
  {
    var pc := s.threads[t];
    var s' := ActOther(s, t, choice);
    if choice.Put? {
      WaitingAfterInsert(s.queue, |s.queue|, choice.item);
      assert s'.queue == InsertedAt(s.queue, |s.queue|, choice.item);
    }
    if Watches(s'.threads[t]) || !IsIdle(s') || !Waiting(s'.queue) {
      MoveAttends(s, s', t);
    } else {
      MoveLeaves(s, s', t);
      if !OtherWatches(s, t) && !Watches(pc) {
        assert !AnyWatches(s);
      }
    }
  }

  lemma ActEndAttends(s: State, t: nat, choice: Choice)
    requires Attended(s) && t < |s.threads| && Open(s, s.threads[t], choice)
    requires s.threads[t].InterruptAnswered?
    ensures Attended(ActOther(s, t, choice)) <==> !Forgets(s, Act(t, choice))
  {
    var s' := ActOther(s, t, choice);
    if s.row.Some? && Waiting(s.queue) && !s.threads[t].accepted && !choice.Fail? {
      MoveLeaves(s, s', t);
    } else {
      MoveKeepsAttended(s, s', t);
    }
  }

  lemma BranchStartAttends(s: State, t: nat, choice: Choice)
    requires Attended(s) && t < |s.threads| && Open(s, s.threads[t], choice)
    requires var pc := s.threads[t]; pc.BranchCreated? || pc.BranchStarted? || pc.BranchPhased?
    ensures Attended(ActBranch(s, t, choice))
  {
    MoveKeepsAttended(s, ActBranch(s, t, choice), t);
  }

  lemma BranchLiveAttends(s: State, t: nat, choice: Choice)
    requires Attended(s) && t < |s.threads| && Open(s, s.threads[t], choice) && s.threads[t].BranchLive?
    ensures Attended(ActBranch(s, t, choice)) <==> !Forgets(s, Act(t, choice))
  {
    if s.row.Some? && !choice.GiveUp? && Waiting(s.queue) {
      MoveLeaves(s, ActBranch(s, t, choice), t);
    } else {
      MoveKeepsAttended(s, ActBranch(s, t, choice), t);
    }
  }

  lemma BranchFailedAttends(s: State, t: nat, choice: Choice)
    requires Attended(s) && t < |s.threads| && Open(s, s.threads[t], choice) && s.threads[t].BranchFailed?
    ensures Attended(ActBranch(s, t, choice)) <==> !Forgets(s, Act(t, choice))
  {
    if s.row.Some? && !choice.Fail? && Waiting(s.queue) {
      MoveLeaves(s, ActBranch(s, t, choice), t);
    } else {
      MoveKeepsAttended(s, ActBranch(s, t, choice), t);
    }
  }

  lemma ActInterruptAttends(s: State, t: nat, choice: Choice)
    requires Attended(s) && t < |s.threads| && Open(s, s.threads[t], choice)
    requires var pc := s.threads[t]; pc.InterruptRead? || pc.InterruptSeen? || pc.InterruptAsking? || pc.InterruptAsked?
    ensures Attended(ActOther(s, t, choice))
  {
    MoveKeepsAttended(s, ActOther(s, t, choice), t);
  }

  lemma OtherStepAttends(s: State, step: Step)
    requires Attended(s) && Enabled(s, step) && !step.Act?
    ensures Attended(Next(s, step)) <==> !Forgets(s, step)
  {
    var s' := Next(s, step);
    match step
    case Spawn(pc) =>
      if AnyWatches(s) {
        var t :| 0 <= t < |s.threads| && Watches(s.threads[t]);
        assert Watches(s'.threads[t]);
      }
    case DeleteItem(itemid) =>
      WaitingAfterWithout(s.queue, itemid);
      SameWatchers(s, s');
    case EditItem(itemid, edit) =>
      WaitingAfterEdit(s.queue, itemid, edit);
      SameWatchers(s, s');
    case ClearQueue =>
    case InsertItem(position, item) =>
      WaitingAfterInsert(s.queue, InsertIndex(s.queue, position), item);
      SameWatchers(s, s');
    case DeleteSession =>
  }

  lemma SameWatchers(s: State, s': State)
    requires s.threads == s'.threads
    ensures AnyWatches(s) == AnyWatches(s')
  {
  }

  /** A step leaves a request unattended exactly when it is one of those listed. */
  lemma StepKeepsAttended(s: State, step: Step)
    requires Attended(s) && Enabled(s, step)
    ensures Attended(Next(s, step)) <==> !Forgets(s, step)
  {
    if step.Act? {
      var t, choice := step.t, step.choice;
      var pc := s.threads[t];
      if pc.InputRead? || pc.InputSeen? || pc.InputAttaching? {
        ActInputAttends(s, t, choice);
      } else if pc.DrainRead? || pc.DrainClaimed? {
        DrainAwaitsAttends(s, t, choice);
      } else if pc.DrainSeen? || pc.Closing? {
        DrainSeenAttends(s, t, choice);
      } else if pc.ChainRead? || pc.ChainSeen? || pc.ChainCompleted? {
        ActChainAttends(s, t, choice);
      } else if IsTurn(pc) {
        ActTurnAttends(s, t, choice);
      } else if pc.AddRead? || pc.AddSeen? || pc.AddQueued? {
        ActAddAttends(s, t, choice);
      } else if pc.BranchLive? {
        BranchLiveAttends(s, t, choice);
      } else if pc.BranchFailed? {
        BranchFailedAttends(s, t, choice);
      } else if IsBranch(pc) {
        BranchStartAttends(s, t, choice);
      } else if pc.InterruptAnswered? {
        ActEndAttends(s, t, choice);
      } else {
        ActInterruptAttends(s, t, choice);
      }
    } else {
      OtherStepAttends(s, step);
    }
  }

  // ----- runs ----------------------------------------------------------------------------

  predicate NothingForgotten(s: State, steps: seq<Step>)
    requires Runs(s, steps)
    decreases |steps|
  {
    steps == [] || (!Forgets(s, steps[0]) && NothingForgotten(Next(s, steps[0]), steps[1..]))
  }

  predicate AttendedThroughout(s: State, steps: seq<Step>)
    requires Runs(s, steps)
    decreases |steps|
  {
    Attended(s) && (steps == [] || AttendedThroughout(Next(s, steps[0]), steps[1..]))
  }

  /** A run keeps every waiting request attended from beginning to end exactly when no step of it forgets one. */
  lemma {:induction false} RunKeepsAttended(s: State, steps: seq<Step>)
    requires Attended(s) && Runs(s, steps)
    ensures AttendedThroughout(s, steps) <==> NothingForgotten(s, steps)
    ensures NothingForgotten(s, steps) ==> Attended(Outcome(s, steps))
    decreases |steps|
  {
    if steps != [] {
      StepKeepsAttended(s, steps[0]);
      if Attended(Next(s, steps[0])) {
        RunKeepsAttended(Next(s, steps[0]), steps[1..]);
      }
    }
  }

  /** Something could run, nothing is running, and every thread is done. */
  predicate Forgotten(s: State) {
    IsIdle(s) && Waiting(s.queue) && forall t | 0 <= t < |s.threads| :: s.threads[t] == Done
  }

  /** A session that comes to rest with a request still waiting has lost it in one of the listed steps. */
  lemma ForgottenByAStep(s: State, steps: seq<Step>)
    requires Initial(s) && Runs(s, steps) && Forgotten(Outcome(s, steps))
    ensures !NothingForgotten(s, steps)
  {
    RunKeepsAttended(s, steps);
  }
}
