/** Runs in which no claim is lost, told by what clients and sockets do: owned items are not
    deleted, and no broadcast or read throws right after a claim. And the run that loses one otherwise. */
module ClaimPresence {
  import opened JsText
  import opened RequestQueue
  import opened SessionRow
  import opened TurnScheduler
  import opened TurnExclusion
  import opened ClaimLedger

  /** No owned item is taken from the queue under its owner, and no broadcast and no read of the
      session throws while the thread that waits for it holds a claim only it knows of. */
  ghost predicate Tame(s: State, step: Step)
    requires Enabled(s, step)
  {
    match step
    case DeleteItem(itemid) => !HasOwner(s, itemid)
    case ClearQueue => forall t | 0 <= t < |s.threads| :: Owned(s.threads[t]) == {}
    case Act(t, choice) =>
      var pc := s.threads[t];
      && (pc.TurnEnded? || pc.DrainClaimed? || pc.ChainRead? || pc.ChainCompleted? ==> !choice.Fail?)
      && (pc.DrainSeen? && !pc.found ==> forall u | 0 <= u < |s.threads| :: Owned(s.threads[u]) == {})
    case _ => true
  }

  /** Every owned item is still queued, and no chain has found its item gone. */
  ghost predicate Present(s: State) {
    forall t | 0 <= t < |s.threads| ::
      && Owned(s.threads[t]) <= Ids(s.queue)
      && (s.threads[t].ChainCompleted? ==> s.threads[t].completed)
  }

  lemma PresentLosesNothing(s: State, step: Step)
    requires Present(s) && Enabled(s, step) && Tame(s, step)
    ensures Lost(s, step).None?
  {
  }

  /** Queue unchanged, nothing new owned. */
  lemma StillPresent(s: State, s': State, t: nat)
    requires Present(s) && OnlyMoves(s, s', t) && s'.queue == s.queue
    requires Owned(s'.threads[t]) <= Owned(s.threads[t]) && !s'.threads[t].ChainCompleted?
    ensures Present(s')
  {
    MoveKeepsPresent(s, s', t);
  }

  lemma MoveKeepsPresent(s: State, s': State, t: nat)
    requires Present(s) && OnlyMoves(s, s', t)
    requires Owned(s'.threads[t]) <= Ids(s'.queue)
    requires s'.threads[t].ChainCompleted? ==> s'.threads[t].completed
    requires forall u | 0 <= u < |s.threads| && u != t :: Owned(s.threads[u]) <= Ids(s'.queue)
    ensures Present(s')
  {
  }

  /** What a claim leaves still holds every claimed item and the one just claimed. */
  lemma ClaimKeepsClaimed(q: seq<Item>)
    requires UniqueIds(q)
    ensures ClaimedIds(q) + One(ClaimedId(q)) <= Ids(AfterClaim(q, CLAIM_TIME))
  {
    IdsOfClaim(q, CLAIM_TIME);
    ClaimedAreIds(AfterClaim(q, CLAIM_TIME));
  }

  lemma OwnedAreClaimed(s: State, t: nat)
    requires Books(s) && Present(s) && t < |s.threads|
    ensures Owned(s.threads[t]) <= ClaimedIds(s.queue)
  {
    assert Owned(s.threads[t]) * Ids(s.queue) <= ClaimedIds(s.queue);
  }

  lemma ClaimMovePresent(s: State, s': State, t: nat)
    requires Books(s) && Present(s) && OnlyMoves(s, s', t)
    requires s'.queue == AfterClaim(s.queue, CLAIM_TIME) && !s'.threads[t].ChainCompleted?
    requires Owned(s'.threads[t]) <= Owned(s.threads[t]) + One(ClaimedId(s.queue))
    ensures Present(s')
  {
    ClaimKeepsClaimed(s.queue);
    forall u | 0 <= u < |s.threads| ensures Owned(s.threads[u]) <= Ids(s'.queue) {
      OwnedAreClaimed(s, u);
    }
    MoveKeepsPresent(s, s', t);
  }

  lemma ReleaseMovePresent(s: State, s': State, t: nat, id: Option<string>)
    requires Books(s) && Present(s) && OnlyMoves(s, s', t)
    requires s'.queue == (if id.Some? then Released(s.queue, id.value) else s.queue)
    requires Owned(s'.threads[t]) == {} && !s'.threads[t].ChainCompleted?
    ensures Present(s')
  {
    if id.Some? { IdsOfReleased(s.queue, id.value); }
    MoveKeepsPresent(s, s', t);
  }

  lemma CompletePresent(s: State, t: nat, choice: Choice)
    requires Books(s) && Present(s) && t < |s.threads| && Open(s, s.threads[t], choice)
    requires s.threads[t].TurnDone? && OriginClaim(s.threads[t].origin).Some?
    ensures Present(ActTurn(s, t, choice))
  {
    var id := OriginClaim(s.threads[t].origin).value;
    var s' := ActTurn(s, t, choice);
    IdsOfWithout(s.queue, id);
    assert id in Owned(s.threads[t]) && TwoRoles(s.threads[t]);
    forall u | 0 <= u < |s.threads| && u != t ensures Owned(s.threads[u]) <= Ids(s'.queue) {
      assert Owned(s.threads[u]) !! Owned(s.threads[t]);
    }
    MoveKeepsPresent(s, s', t);
  }

  lemma ResultPresent(s: State, t: nat, choice: Choice)
    requires Books(s) && Present(s) && t < |s.threads| && Open(s, s.threads[t], choice)
    requires s.threads[t].TurnDone?
    ensures Present(ActTurn(s, t, choice))
  {
    var pc := s.threads[t];
    if OriginClaim(pc.origin).Some? {
      CompletePresent(s, t, choice);
    } else if pc.origin.FromChain? && pc.next.Some? && pc.origin.number >= MAX_TRIGGERED {
      ReleaseMovePresent(s, ActTurn(s, t, choice), t, SuccessorClaim(pc));
    } else {
      MoveKeepsPresent(s, ActTurn(s, t, choice), t);
    }
  }

  lemma EndedPresent(s: State, t: nat, choice: Choice)
    requires Books(s) && Present(s) && t < |s.threads| && Open(s, s.threads[t], choice)
    requires s.threads[t].TurnEnded? && !choice.Fail?
    ensures Present(ActTurn(s, t, choice))
  {
    if choice.EndTwice? || choice.GiveUp? {
      EndedAgainPresent(s, t, choice);
    } else {
      ClaimMovePresent(s, ActTurn(s, t, choice), t);
    }
  }

  lemma EndedAgainPresent(s: State, t: nat, choice: Choice)
    requires Present(s) && t < |s.threads| && Open(s, s.threads[t], choice)
    requires s.threads[t].TurnEnded? && (choice.EndTwice? || choice.GiveUp?)
    ensures Present(ActTurn(s, t, choice))
  {
    StillPresent(s, ActTurn(s, t, choice), t);
  }

  lemma FailedPresent(s: State, t: nat, choice: Choice)
    requires Books(s) && Present(s) && t < |s.threads| && Open(s, s.threads[t], choice)
    requires s.threads[t].TurnFailed?
    ensures Present(ActTurn(s, t, choice))
  {
    ReleaseMovePresent(s, ActTurn(s, t, choice), t, OriginClaim(s.threads[t].origin));
  }

  lemma ActTurnPresent(s: State, t: nat, choice: Choice)
    requires Books(s) && Present(s) && t < |s.threads| && Open(s, s.threads[t], choice)
    requires IsTurn(s.threads[t]) && (s.threads[t].TurnEnded? ==> !choice.Fail?)
    ensures Present(ActTurn(s, t, choice))
  {
    var pc := s.threads[t];
    if pc.TurnEnded? {
      EndedPresent(s, t, choice);
    } else if pc.TurnDone? {
      ResultPresent(s, t, choice);
    } else if pc.TurnFailed? {
      FailedPresent(s, t, choice);
    } else {
      StillPresent(s, ActTurn(s, t, choice), t);
    }
  }

  lemma ActDrainPresent(s: State, t: nat, choice: Choice)
    requires Books(s) && Present(s) && t < |s.threads| && Open(s, s.threads[t], choice)
    requires var pc := s.threads[t]; pc.DrainRead? || pc.DrainSeen? || pc.DrainClaimed? || pc.Closing?
    requires s.threads[t].DrainClaimed? ==> !choice.Fail?
    requires s.threads[t].DrainSeen? && !s.threads[t].found ==>
               forall u | 0 <= u < |s.threads| :: Owned(s.threads[u]) == {}
    ensures Present(ActDrain(s, t, choice))
  {
    var pc := s.threads[t];
    var s' := ActDrain(s, t, choice);
    if pc.DrainSeen? && pc.found && !pc.running {
      ClaimMovePresent(s, s', t);
    } else if pc.DrainSeen? && !pc.found {
      MoveKeepsPresent(s, s', t);
    } else {
      StillPresent(s, s', t);
    }
  }

  lemma ActChainPresent(s: State, t: nat, choice: Choice)
    requires Books(s) && Present(s) && t < |s.threads| && Open(s, s.threads[t], choice)
    requires var pc := s.threads[t]; pc.ChainRead? || pc.ChainSeen? || pc.ChainCompleted?
    requires s.threads[t].ChainRead? || s.threads[t].ChainCompleted? ==> !choice.Fail?
    ensures Present(ActChain(s, t, choice))
  {
    var pc := s.threads[t];
    var s' := ActChain(s, t, choice);
    if pc.ChainSeen? && (!pc.found || pc.running) {
      ReleaseMovePresent(s, s', t, pc.request.claim);
    } else if pc.ChainCompleted? && pc.next.Some? && pc.number >= MAX_TRIGGERED {
      ReleaseMovePresent(s, s', t, SuccessorClaim(pc));
    } else {
      MoveKeepsPresent(s, s', t);
    }
  }

  lemma ActInputPresent(s: State, t: nat, choice: Choice)
    requires Present(s) && t < |s.threads| && Open(s, s.threads[t], choice)
    requires var pc := s.threads[t]; pc.InputRead? || pc.InputSeen? || pc.InputAttaching?
    ensures Present(ActInput(s, t, choice))
  {
    StillPresent(s, ActInput(s, t, choice), t);
  }

  lemma ActBranchPresent(s: State, t: nat, choice: Choice)
    requires Present(s) && t < |s.threads| && Open(s, s.threads[t], choice) && IsBranch(s.threads[t])
    ensures Present(ActBranch(s, t, choice))
  {
    StillPresent(s, ActBranch(s, t, choice), t);
  }

  lemma PutPresent(s: State, t: nat, choice: Choice)
    requires Books(s) && Present(s) && t < |s.threads| && Open(s, s.threads[t], choice) && choice.Put?
    ensures Present(ActOther(s, t, choice))
  {
    IdsOfInserted(s.queue, |s.queue|, choice.item);
    MoveKeepsPresent(s, ActOther(s, t, choice), t);
  }

  lemma ActOtherPresent(s: State, t: nat, choice: Choice)
    requires Present(s) && t < |s.threads| && Open(s, s.threads[t], choice) && !choice.Put?
    requires
      var pc := s.threads[t];
      || pc.AddRead? || pc.AddSeen? || pc.AddQueued? || pc.InterruptRead? || pc.InterruptSeen?
      || pc.InterruptAsking? || pc.InterruptAsked? || pc.InterruptAnswered?
    ensures Present(ActOther(s, t, choice))
  {
    StillPresent(s, ActOther(s, t, choice), t);
  }

  lemma StepKeepsPresent(s: State, step: Step)
    requires Books(s) && Present(s) && Enabled(s, step) && Tame(s, step)
    ensures Present(Next(s, step))
  {
    match step
    case Act(t, choice) =>
      var pc := s.threads[t];
      if IsTurn(pc) {
        ActTurnPresent(s, t, choice);
      } else if pc.DrainRead? || pc.DrainSeen? || pc.DrainClaimed? || pc.Closing? {
        ActDrainPresent(s, t, choice);
      } else if pc.ChainRead? || pc.ChainSeen? || pc.ChainCompleted? {
        ActChainPresent(s, t, choice);
      } else if pc.InputRead? || pc.InputSeen? || pc.InputAttaching? {
        ActInputPresent(s, t, choice);
      } else if IsBranch(pc) {
        ActBranchPresent(s, t, choice);
      } else if choice.Put? {
        PutPresent(s, t, choice);
      } else {
        ActOtherPresent(s, t, choice);
      }
    case Spawn(pc) =>
    case DeleteItem(itemid) =>
      IdsOfWithout(s.queue, itemid);
      forall t | 0 <= t < |s.threads| ensures itemid !in Owned(s.threads[t]) {
        assert !HasOwner(s, itemid);
      }
    case EditItem(itemid, edit) => IdsOfEdits(s.queue, itemid, edit.text, edit, CLAIM_TIME);
    case ClearQueue =>
    case InsertItem(position, item) => IdsOfInserted(s.queue, InsertIndex(s.queue, position), item);
    case DeleteSession =>
  }

  ghost predicate AllTame(s: State, steps: seq<Step>)
    requires Runs(s, steps)
    decreases |steps|
  {
    steps == [] || (Tame(s, steps[0]) && AllTame(Next(s, steps[0]), steps[1..]))
  }

  /** Over every tame run no claim is lost, and the items being run stay queued. */
  lemma {:induction false} TameRunsLoseNothing(s: State, steps: seq<Step>)
    requires Ledger(s) && Present(s) && Runs(s, steps) && AllTame(s, steps)
    ensures NothingLost(s, steps) && Ledger(Outcome(s, steps)) && Present(Outcome(s, steps))
    decreases |steps|
  {
    if steps != [] {
      PresentLosesNothing(s, steps[0]);
      StepKeepsLedger(s, steps[0]);
      StepKeepsPresent(s, steps[0]);
      TameRunsLoseNothing(Next(s, steps[0]), steps[1..]);
    }
  }

  /** A state in which `id` is claimed for good: no thread will ever release or complete it. */
  ghost predicate Stranded(s: State, id: string) {
    id in ClaimedIds(s.queue) && !HasOwner(s, id)
  }

  lemma ChainDropsSuccessor(s: State, t: nat, number: nat, next: string)
    requires Books(s) && t < |s.threads|
    requires s.threads[t] == ChainCompleted(number, false, Some(Request(Some(next)))) && next in Ids(s.queue)
    ensures Runs(s, [Act(t, Go)]) && Stranded(Outcome(s, [Act(t, Go)]), next)
  {
    var s' := Next(s, Act(t, Go));
    assert Outcome(s, [Act(t, Go)]) == s';
    assert next in Owned(s.threads[t]) * Ids(s.queue);
    forall u | 0 <= u < |s'.threads| ensures next !in Owned(s'.threads[u]) {
      if u != t { assert Owned(s.threads[t]) !! Owned(s.threads[u]); }
    }
  }

  lemma ChainFindsItemGone(s: State, t: nat, number: nat, id: string, next: string)
    requires Ledger(s) && t < |s.threads|
    requires s.threads[t] == TurnDone(FromChain(Request(Some(id)), number), Some(Request(Some(next))))
    requires id !in Ids(s.queue) && next in Ids(s.queue)
    ensures Runs(s, [Act(t, Go), Act(t, Go)]) && Stranded(Outcome(s, [Act(t, Go), Act(t, Go)]), next)
  {
    var s' := Next(s, Act(t, Go));
    StepKeepsLedger(s, Act(t, Go));
    IdsOfWithout(s.queue, id);
    ChainDropsSuccessor(s', t, number, next);
    assert [Act(t, Go), Act(t, Go)][1..] == [Act(t, Go)];
  }

  lemma ClaimedIdQueued(q: seq<Item>)
    requires UniqueIds(q)
    ensures Ids(AfterClaim(q, CLAIM_TIME)) <= Ids(q)
    ensures ClaimedId(q).Some? ==> ClaimedId(q).value in Ids(AfterClaim(q, CLAIM_TIME))
  {
    IdsOfClaim(q, CLAIM_TIME);
    ClaimKeepsClaimed(q);
  }

  /** What the turn-end hook makes of the state, when there is something to claim. */
  lemma HookClaims(s: State, t: nat, number: nat, id: string) returns (s': State)
    requires Ledger(s) && t < |s.threads|
    requires s.threads[t] == TurnEnded(FromChain(Request(Some(id)), number), 1)
    requires id !in Ids(s.queue) && ClaimedId(s.queue).Some?
    ensures Enabled(s, Act(t, Go)) && s' == Next(s, Act(t, Go)) && Ledger(s') && |s'.threads| == |s.threads|
    ensures s'.threads[t] == TurnDone(FromChain(Request(Some(id)), number), Some(Request(ClaimedId(s.queue))))
    ensures id !in Ids(s'.queue) && ClaimedId(s.queue).value in Ids(s'.queue)
  {
    s' := Next(s, Act(t, Go));
    StepKeepsLedger(s, Act(t, Go));
    ClaimedIdQueued(s.queue);
  }

  lemma HookClaimsThenStrands(s: State, t: nat, number: nat, id: string)
    requires Ledger(s) && t < |s.threads|
    requires s.threads[t] == TurnEnded(FromChain(Request(Some(id)), number), 1)
    requires id !in Ids(s.queue) && ClaimedId(s.queue).Some?
    ensures
      var steps := [Act(t, Go)] + [Act(t, Go), Act(t, Go)];
      Runs(s, steps) && Stranded(Outcome(s, steps), ClaimedId(s.queue).value)
  {
    var s' := HookClaims(s, t, number, id);
    ChainFindsItemGone(s', t, number, id, ClaimedId(s.queue).value);
    Prepend(s, Act(t, Go), s', [Act(t, Go), Act(t, Go)]);
  }

  lemma EndsWithoutItem(s: State, t: nat, id: string, number: nat) returns (s': State)
    requires Ledger(s) && t < |s.threads| && s.row.Some? && id !in Ids(s.queue)
    requires s.threads[t] == TurnLive(FromChain(Request(Some(id)), number))
    ensures Enabled(s, Act(t, Go)) && s' == Next(s, Act(t, Go)) && Ledger(s') && |s'.threads| == |s.threads|
    ensures s'.threads[t] == TurnEnded(FromChain(Request(Some(id)), number), 1) && s'.queue == s.queue
  {
    s' := Next(s, Act(t, Go));
    StepKeepsLedger(s, Act(t, Go));
  }

  lemma ItemDeleted(s: State, id: string) returns (s': State)
    requires Ledger(s)
    ensures s' == Next(s, DeleteItem(id)) && Ledger(s') && s'.threads == s.threads && s'.row == s.row
    ensures s'.queue == Without(s.queue, id) && id !in Ids(s'.queue)
  {
    s' := Next(s, DeleteItem(id));
    StepKeepsLedger(s, DeleteItem(id));
    IdsOfWithout(s.queue, id);
  }

  /** Deleting the item a chain is running strands the item claimed after it: the chain finds its
      own item gone and stops without releasing its successor. */
  lemma DeletedItemStrandsSuccessor(s: State, t: nat, id: string, number: nat)
    requires Ledger(s) && t < |s.threads| && s.row.Some?
    requires s.threads[t] == TurnLive(FromChain(Request(Some(id)), number))
    requires ClaimedId(Without(s.queue, id)).Some?
    ensures
      var steps := [DeleteItem(id)] + ([Act(t, Go)] + ([Act(t, Go)] + [Act(t, Go), Act(t, Go)]));
      Runs(s, steps) && Stranded(Outcome(s, steps), ClaimedId(Without(s.queue, id)).value)
  {
    var s1 := ItemDeleted(s, id);
    var s2 := EndsWithoutItem(s1, t, id, number);
    HookClaimsThenStrands(s2, t, number, id);
    var rest := [Act(t, Go)] + [Act(t, Go), Act(t, Go)];
    Prepend(s1, Act(t, Go), s2, rest);
    Prepend(s, DeleteItem(id), s1, [Act(t, Go)] + rest);
  }
}
