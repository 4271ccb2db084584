/** Who owns a claimed queue item: exactly one thread, either as the request it runs or as the
    successor its turn-end hook claimed. Exactly four kinds of step lose a claim. */
module ClaimLedger {
  import opened JsText
  import opened RequestQueue
  import opened SessionRow
  import opened TurnScheduler
  import opened TurnExclusion

  function OriginClaim(origin: Origin): Option<string> {
    if origin.FromChain? then origin.request.claim else None
  }

  /** The item a thread runs, or is about to run. */
  function RunningClaim(pc: Pc): Option<string> {
    match pc
    case DrainClaimed(itemid) => Some(itemid)
    case ChainRead(request, _) => request.claim
    case ChainSeen(request, _, _, _) => request.claim
    case TurnStart(origin) => OriginClaim(origin)
    case TurnOpen(origin) => OriginClaim(origin)
    case TurnLive(origin) => OriginClaim(origin)
    case TurnFailed(origin) => OriginClaim(origin)
    case TurnEnded(origin, _) => OriginClaim(origin)
    case TurnDone(origin, _) => OriginClaim(origin)
    case _ => None
  }

  /** The item claimed to be run next. */
  function SuccessorClaim(pc: Pc): Option<string> {
    match pc
    case TurnDone(_, next) => if next.Some? then next.value.claim else None
    case ChainCompleted(_, _, next) => if next.Some? then next.value.claim else None
    case _ => None
  }

  function One(id: Option<string>): set<string> {
    if id.Some? then {id.value} else {}
  }

  function Owned(pc: Pc): set<string> {
    One(RunningClaim(pc)) + One(SuccessorClaim(pc))
  }

  predicate TwoRoles(pc: Pc) {
    One(RunningClaim(pc)) !! One(SuccessorClaim(pc))
  }

  /** No item has two owners, and what is owned and still queued is claimed. */
  ghost predicate Books(s: State) {
    && UniqueIds(s.queue) && Ids(s.queue) <= s.used
    && (forall t | 0 <= t < |s.threads| ::
          && TwoRoles(s.threads[t]) && Owned(s.threads[t]) <= s.used
          && Owned(s.threads[t]) * Ids(s.queue) <= ClaimedIds(s.queue))
    && (forall t, u | 0 <= t < u < |s.threads| :: Owned(s.threads[t]) !! Owned(s.threads[u]))
  }

  ghost predicate HasOwner(s: State, id: string) {
    exists t :: 0 <= t < |s.threads| && id in Owned(s.threads[t])
  }

  ghost predicate AllOwned(s: State) {
    forall id | id in ClaimedIds(s.queue) :: HasOwner(s, id)
  }

  function ClaimedId(q: seq<Item>): Option<string> {
    var claim := Claim(q, CLAIM_TIME);
    if claim.Some? then Some(claim.value.itemid) else None
  }

  /** The claim a step leaves without an owner: the broadcast after a claim throws, a chain cannot
      read the session of the request it is about to run, or a chain stops with a successor in
      hand, because its own item was gone or its broadcast threw. */
  function Lost(s: State, step: Step): Option<string>
    requires Enabled(s, step)
  {
    if !step.Act? then None
    else
      match s.threads[step.t]
      case TurnEnded(_, _) => if step.choice.Fail? then ClaimedId(s.queue) else None
      case DrainClaimed(itemid) =>
        if step.choice.Fail? && IndexOfId(s.queue, itemid) < |s.queue| then Some(itemid) else None
      case ChainRead(request, _) =>
        if step.choice.Fail? && request.claim.Some? && IndexOfId(s.queue, request.claim.value) < |s.queue|
        then request.claim else None
      case ChainCompleted(_, completed, next) =>
        if (step.choice.Fail? || !completed) && next.Some? && next.value.claim.Some?
           && IndexOfId(s.queue, next.value.claim.value) < |s.queue|
        then next.value.claim else None
      case _ => None
  }

  // ----- one thread moves ----------------------------------------------------------------

  /** The queue changes only by what thread `t` gives up and gains. */
  ghost predicate Accounts(s: State, s': State, t: nat, gained: set<string>)
    requires OnlyMoves(s, s', t)
  {
    var before, after := Owned(s.threads[t]), Owned(s'.threads[t]);
    && UniqueIds(s'.queue) && Ids(s'.queue) <= s'.used && s.used <= s'.used
    && Ids(s'.queue) * s.used <= Ids(s.queue)
    && gained <= Ids(s.queue) - ClaimedIds(s.queue)
    && TwoRoles(s'.threads[t]) && after <= before + gained
    && (ClaimedIds(s.queue) + gained) * Ids(s'.queue) <= ClaimedIds(s'.queue) + (before - after)
  }

  lemma MoveKeepsBooks(s: State, s': State, t: nat, gained: set<string>)
    requires Books(s) && OnlyMoves(s, s', t) && Accounts(s, s', t, gained)
    ensures Books(s')
  {
    forall u | 0 <= u < |s'.threads| && u != t
      ensures Owned(s'.threads[u]) * Ids(s'.queue) <= ClaimedIds(s'.queue)
      ensures Owned(s'.threads[u]) !! Owned(s'.threads[t])
    {
      assert Owned(s.threads[u]) !! Owned(s.threads[t]);
      assert Owned(s.threads[u]) !! gained;
      forall id | id in Owned(s'.threads[u]) * Ids(s'.queue) ensures id in ClaimedIds(s'.queue) {
        assert id in Owned(s.threads[u]) * Ids(s.queue);
        assert id in (ClaimedIds(s.queue) + gained) * Ids(s'.queue);
      }
    }
    forall id | id in Owned(s'.threads[t]) * Ids(s'.queue) ensures id in ClaimedIds(s'.queue) {
      assert id in Owned(s.threads[t]) ==> id in s.used && id in Owned(s.threads[t]) * Ids(s.queue);
      assert id in (ClaimedIds(s.queue) + gained) * Ids(s'.queue);
    }
  }

  lemma MoveKeepsOwners(s: State, s': State, t: nat)
    requires OnlyMoves(s, s', t)
    requires forall id | id in ClaimedIds(s'.queue) ::
               id in Owned(s'.threads[t]) || (id in ClaimedIds(s.queue) && id !in Owned(s.threads[t]))
    ensures AllOwned(s) ==> AllOwned(s')
  {
    forall id | AllOwned(s) && id in ClaimedIds(s'.queue) ensures HasOwner(s', id) {
      if id !in Owned(s'.threads[t]) {
        var u :| 0 <= u < |s.threads| && id in Owned(s.threads[u]);
        assert id in Owned(s'.threads[u]);
      }
    }
  }

  lemma MoveLosesOwner(s: State, s': State, t: nat, id: string)
    requires Books(s) && OnlyMoves(s, s', t)
    requires id in ClaimedIds(s'.queue) && id !in Owned(s'.threads[t])
    requires id in Owned(s.threads[t]) || id in Ids(s.queue) - ClaimedIds(s.queue)
    ensures !AllOwned(s')
  {
    forall u | 0 <= u < |s'.threads| ensures id !in Owned(s'.threads[u]) {
      if u != t {
        assert Owned(s.threads[t]) !! Owned(s.threads[u]);
        assert Owned(s.threads[u]) * Ids(s.queue) <= ClaimedIds(s.queue);
      }
    }
  }

  // ----- the ways a step changes owners and queue ----------------------------------------

  /** Queue and owned items stay; roles may shift. */
  lemma KeepMove(s: State, s': State, t: nat)
    requires Books(s) && OnlyMoves(s, s', t)
    requires s'.queue == s.queue && s'.used == s.used
    requires Owned(s'.threads[t]) == Owned(s.threads[t]) && TwoRoles(s'.threads[t])
    ensures Books(s') && (AllOwned(s) ==> AllOwned(s'))
  {
    MoveKeepsBooks(s, s', t, {});
    MoveKeepsOwners(s, s', t);
  }

  /** A thread gives back the claim it holds. */
  lemma ReleaseMove(s: State, s': State, t: nat, id: Option<string>)
    requires Books(s) && OnlyMoves(s, s', t)
    requires s'.queue == (if id.Some? then Released(s.queue, id.value) else s.queue) && s'.used == s.used
    requires Owned(s.threads[t]) == One(id) && Owned(s'.threads[t]) == {}
    ensures Books(s') && (AllOwned(s) ==> AllOwned(s'))
  {
    if id.Some? { IdsOfReleased(s.queue, id.value); }
    MoveKeepsBooks(s, s', t, {});
    MoveKeepsOwners(s, s', t);
  }

  /** A thread claims the next runnable item: to run it, or as the successor of the one it runs. */
  lemma ClaimMove(s: State, s': State, t: nat)
    requires Books(s) && OnlyMoves(s, s', t)
    requires s'.queue == AfterClaim(s.queue, CLAIM_TIME) && s'.used == s.used
    requires SuccessorClaim(s.threads[t]).None?
    requires
      var id := ClaimedId(s.queue);
      || (RunningClaim(s'.threads[t]) == RunningClaim(s.threads[t]) && SuccessorClaim(s'.threads[t]) == id)
      || (RunningClaim(s.threads[t]).None? && RunningClaim(s'.threads[t]) == id && SuccessorClaim(s'.threads[t]).None?)
    ensures Books(s') && (AllOwned(s) ==> AllOwned(s'))
  {
    var gained := One(ClaimedId(s.queue));
    IdsOfClaim(s.queue, CLAIM_TIME);
    assert gained !! Owned(s.threads[t]) by {
      assert Owned(s.threads[t]) * Ids(s.queue) <= ClaimedIds(s.queue);
    }
    MoveKeepsBooks(s, s', t, gained);
    MoveKeepsOwners(s, s', t);
  }

  /** A claim whose broadcast throws: nobody owns the item. */
  lemma LostClaimMove(s: State, s': State, t: nat)
    requires Books(s) && OnlyMoves(s, s', t)
    requires s'.queue == AfterClaim(s.queue, CLAIM_TIME) && s'.used == s.used
    requires Owned(s'.threads[t]) == Owned(s.threads[t]) && TwoRoles(s'.threads[t])
    ensures Books(s') && (AllOwned(s) ==> (AllOwned(s') <==> ClaimedId(s.queue).None?))
  {
    IdsOfClaim(s.queue, CLAIM_TIME);
    MoveKeepsBooks(s, s', t, {});
    if ClaimedId(s.queue).Some? {
      MoveLosesOwner(s, s', t, ClaimedId(s.queue).value);
    } else {
      MoveKeepsOwners(s, s', t);
    }
  }

  /** A thread that holds one item drops it without releasing it. */
  lemma DropMove(s: State, s': State, t: nat, id: Option<string>)
    requires Books(s) && OnlyMoves(s, s', t)
    requires s'.queue == s.queue && s'.used == s.used
    requires Owned(s.threads[t]) == One(id) && Owned(s'.threads[t]) == {}
    ensures Books(s') && (AllOwned(s) ==> (AllOwned(s') <==> !(id.Some? && id.value in Ids(s.queue))))
  {
    MoveKeepsBooks(s, s', t, {});
    if id.Some? && id.value in Ids(s.queue) {
      assert id.value in Owned(s.threads[t]) * Ids(s.queue);
      MoveLosesOwner(s, s', t, id.value);
    } else {
      MoveKeepsOwners(s, s', t);
    }
  }

  /** A chain removes the item it has run and keeps its successor. */
  lemma CompleteMove(s: State, s': State, t: nat, id: string)
    requires Books(s) && OnlyMoves(s, s', t)
    requires s'.queue == Without(s.queue, id) && s'.used == s.used
    requires RunningClaim(s.threads[t]) == Some(id) && RunningClaim(s'.threads[t]).None?
    requires SuccessorClaim(s'.threads[t]) == SuccessorClaim(s.threads[t])
    ensures Books(s') && (AllOwned(s) ==> AllOwned(s'))
  {
    IdsOfWithout(s.queue, id);
    MoveKeepsBooks(s, s', t, {});
    MoveKeepsOwners(s, s', t);
  }

  /** The queue of a missing session is cleared. */
  lemma ClearMove(s: State, s': State, t: nat)
    requires Books(s) && OnlyMoves(s, s', t)
    requires s'.queue == [] && s'.used == s.used
    requires Owned(s'.threads[t]) == Owned(s.threads[t]) && TwoRoles(s'.threads[t])
    ensures Books(s') && (AllOwned(s) ==> AllOwned(s'))
  {
    MoveKeepsBooks(s, s', t, {});
  }

  /** A new unclaimed item is queued. */
  lemma AddMove(s: State, s': State, t: nat, item: Item)
    requires Books(s) && OnlyMoves(s, s', t)
    requires item.itemid !in s.used && !item.Claimed()
    requires s'.queue == Inserted(s.queue, End, item) && s'.used == s.used + {item.itemid}
    requires Owned(s.threads[t]) == {} && Owned(s'.threads[t]) == {}
    ensures Books(s') && (AllOwned(s) ==> AllOwned(s'))
  {
    IdsOfInserted(s.queue, |s.queue|, item);
    MoveKeepsBooks(s, s', t, {});
    MoveKeepsOwners(s, s', t);
  }

  // ----- steps ---------------------------------------------------------------------------

  ghost predicate Ledger(s: State) {
    Books(s) && AllOwned(s)
  }

  lemma ActInputLedger(s: State, t: nat, choice: Choice)
    requires Books(s) && t < |s.threads| && Open(s, s.threads[t], choice)
    requires var pc := s.threads[t]; pc.InputRead? || pc.InputSeen? || pc.InputAttaching?
    ensures Books(ActInput(s, t, choice)) && (AllOwned(s) ==> AllOwned(ActInput(s, t, choice)))
  {
    KeepMove(s, ActInput(s, t, choice), t);
  }

  lemma ActDrainLedger(s: State, t: nat, choice: Choice)
    requires Books(s) && t < |s.threads| && Open(s, s.threads[t], choice)
    requires var pc := s.threads[t]; pc.DrainRead? || pc.DrainSeen? || pc.DrainClaimed? || pc.Closing?
    ensures Books(ActDrain(s, t, choice))
    ensures AllOwned(s) ==> (AllOwned(ActDrain(s, t, choice)) <==> Lost(s, Act(t, choice)).None?)
  {
    var pc := s.threads[t];
    var s' := ActDrain(s, t, choice);
    if pc.DrainSeen? && !pc.found {
      ClearMove(s, s', t);
    } else if pc.DrainSeen? && !pc.running {
      ClaimMove(s, s', t);
    } else if pc.DrainClaimed? && choice.Fail? {
      DropMove(s, s', t, Some(pc.itemid));
    } else {
      KeepMove(s, s', t);
    }
  }

  lemma GoOnLedger(s: State, t: nat, number: nat, next: Option<Request>)
    requires Books(s) && t < |s.threads|
    requires Owned(s.threads[t]) == if next.Some? then One(next.value.claim) else {}
    ensures Books(GoOn(s, t, number, next)) && (AllOwned(s) ==> AllOwned(GoOn(s, t, number, next)))
  {
    var s' := GoOn(s, t, number, next);
    if next.Some? && number >= MAX_TRIGGERED {
      ReleaseMove(s, s', t, next.value.claim);
    } else {
      KeepMove(s, s', t);
    }
  }

  lemma ChainStopsLedger(s: State, t: nat, choice: Choice)
    requires Books(s) && t < |s.threads| && Open(s, s.threads[t], choice) && s.threads[t].ChainCompleted?
    ensures Books(ActChain(s, t, choice))
    ensures AllOwned(s) ==> (AllOwned(ActChain(s, t, choice)) <==> Lost(s, Act(t, choice)).None?)
  {
    var pc := s.threads[t];
    var s' := ActChain(s, t, choice);
    if choice.Fail? || !pc.completed {
      DropMove(s, s', t, SuccessorClaim(pc));
    } else {
      GoOnLedger(s, t, pc.number, pc.next);
    }
  }

  lemma ActChainLedger(s: State, t: nat, choice: Choice)
    requires Books(s) && t < |s.threads| && Open(s, s.threads[t], choice)
    requires var pc := s.threads[t]; pc.ChainRead? || pc.ChainSeen? || pc.ChainCompleted?
    ensures Books(ActChain(s, t, choice))
    ensures AllOwned(s) ==> (AllOwned(ActChain(s, t, choice)) <==> Lost(s, Act(t, choice)).None?)
  {
    var pc := s.threads[t];
    if pc.ChainCompleted? {
      ChainStopsLedger(s, t, choice);
    } else if pc.ChainRead? && choice.Fail? {
      DropMove(s, ActChain(s, t, choice), t, pc.request.claim);
    } else if pc.ChainSeen? && (!pc.found || pc.running) {
      ReleaseMove(s, ActChain(s, t, choice), t, pc.request.claim);
    } else {
      KeepMove(s, ActChain(s, t, choice), t);
    }
  }

  predicate IsTurn(pc: Pc) {
    pc.TurnStart? || pc.TurnOpen? || pc.TurnLive? || pc.TurnFailed? || pc.TurnEnded? || pc.TurnDone?
  }

  lemma HookThrowsLedger(s: State, t: nat)
    requires Books(s) && t < |s.threads| && s.threads[t].TurnEnded?
    ensures Books(ActTurn(s, t, Fail))
    ensures AllOwned(s) ==> (AllOwned(ActTurn(s, t, Fail)) <==> Lost(s, Act(t, Fail)).None?)
  {
    LostClaimMove(s, ActTurn(s, t, Fail), t);
  }

  lemma HookClaimsLedger(s: State, t: nat, choice: Choice)
    requires Books(s) && t < |s.threads| && Open(s, s.threads[t], choice) && s.threads[t].TurnEnded?
    requires !choice.EndTwice? && !choice.GiveUp? && !choice.Fail?
    ensures Books(ActTurn(s, t, choice)) && (AllOwned(s) ==> AllOwned(ActTurn(s, t, choice)))
  {
    ClaimMove(s, ActTurn(s, t, choice), t);
  }

  lemma HookLedger(s: State, t: nat, choice: Choice)
    requires Books(s) && t < |s.threads| && Open(s, s.threads[t], choice)
    requires s.threads[t].TurnEnded? && !choice.EndTwice? && !choice.GiveUp?
    ensures Books(ActTurn(s, t, choice))
    ensures AllOwned(s) ==> (AllOwned(ActTurn(s, t, choice)) <==> Lost(s, Act(t, choice)).None?)
  {
    if choice.Fail? {
      HookThrowsLedger(s, t);
    } else {
      HookClaimsLedger(s, t, choice);
    }
  }

  lemma ResultLedger(s: State, t: nat, choice: Choice)
    requires Books(s) && t < |s.threads| && Open(s, s.threads[t], choice)
    requires s.threads[t].TurnDone? || s.threads[t].TurnFailed?
    ensures Books(ActTurn(s, t, choice)) && (AllOwned(s) ==> AllOwned(ActTurn(s, t, choice)))
  {
    var pc := s.threads[t];
    var s' := ActTurn(s, t, choice);
    if pc.TurnFailed? && pc.origin.FromChain? {
      ReleaseMove(s, s', t, pc.origin.request.claim);
    } else if pc.TurnDone? && pc.origin.FromChain? && pc.origin.request.claim.Some? {
      CompleteMove(s, s', t, pc.origin.request.claim.value);
    } else if pc.TurnDone? && pc.origin.FromChain? {
      GoOnLedger(s, t, pc.origin.number, pc.next);
    } else {
      KeepMove(s, s', t);
    }
  }

  lemma ActTurnLedger(s: State, t: nat, choice: Choice)
    requires Books(s) && t < |s.threads| && Open(s, s.threads[t], choice) && IsTurn(s.threads[t])
    ensures Books(ActTurn(s, t, choice))
    ensures AllOwned(s) ==> (AllOwned(ActTurn(s, t, choice)) <==> Lost(s, Act(t, choice)).None?)
  {
    var pc := s.threads[t];
    if pc.TurnEnded? && !choice.EndTwice? && !choice.GiveUp? {
      HookLedger(s, t, choice);
    } else if pc.TurnDone? || pc.TurnFailed? {
      ResultLedger(s, t, choice);
    } else {
      KeepMove(s, ActTurn(s, t, choice), t);
    }
  }

  lemma ActOtherLedger(s: State, t: nat, choice: Choice)
    requires Books(s) && t < |s.threads| && Open(s, s.threads[t], choice)
    requires
      var pc := s.threads[t];
      && !IsTurn(pc) && !IsBranch(pc)
      && !pc.DrainRead? && !pc.DrainClaimed? && !pc.ChainRead? && !pc.ChainCompleted?
    ensures Books(ActOther(s, t, choice)) && (AllOwned(s) ==> AllOwned(ActOther(s, t, choice)))
  {
    var s' := ActOther(s, t, choice);
    if choice.Put? {
      AddMove(s, s', t, choice.item);
    } else {
      KeepMove(s, s', t);
    }
  }

  /** The queue changes under a step of no thread: claims and ids only go away, or one fresh
      unclaimed item comes. */
  lemma QueueStepLedger(s: State, s': State)
    requires Books(s) && s'.threads == s.threads && s.used <= s'.used
    requires UniqueIds(s'.queue) && Ids(s'.queue) <= s'.used && Ids(s'.queue) * s.used <= Ids(s.queue)
    requires ClaimedIds(s'.queue) == ClaimedIds(s.queue) * Ids(s'.queue)
    ensures Books(s') && (AllOwned(s) ==> AllOwned(s'))
  {
    forall id | AllOwned(s) && id in ClaimedIds(s'.queue) ensures HasOwner(s', id) {
      assert HasOwner(s, id);
    }
  }

  lemma ClaimedAreIds(q: seq<Item>)
    ensures ClaimedIds(q) <= Ids(q)
  {
  }

  lemma OtherStepLedger(s: State, step: Step)
    requires Books(s) && Enabled(s, step) && !step.Act?
    ensures Books(Next(s, step)) && (AllOwned(s) ==> AllOwned(Next(s, step)))
  {
    var s' := Next(s, step);
    ClaimedAreIds(s.queue);
    match step
    case Spawn(pc) =>
      assert forall t | 0 <= t < |s'.threads| && t != |s.threads| :: s'.threads[t] == s.threads[t];
      forall id | AllOwned(s) && id in ClaimedIds(s'.queue) ensures HasOwner(s', id) {
        var t :| 0 <= t < |s.threads| && id in Owned(s.threads[t]);
        assert id in Owned(s'.threads[t]);
      }
    case DeleteItem(itemid) =>
      IdsOfWithout(s.queue, itemid);
      QueueStepLedger(s, s');
    case EditItem(itemid, edit) =>
      IdsOfEdits(s.queue, itemid, edit.text, edit, CLAIM_TIME);
      QueueStepLedger(s, s');
    case ClearQueue =>
      QueueStepLedger(s, s');
    case InsertItem(position, item) =>
      IdsOfInserted(s.queue, InsertIndex(s.queue, position), item);
      QueueStepLedger(s, s');
    case DeleteSession =>
      QueueStepLedger(s, s');
  }

  lemma ActLedger(s: State, t: nat, choice: Choice)
    requires Books(s) && t < |s.threads| && Open(s, s.threads[t], choice)
    ensures Books(ActStep(s, t, choice))
    ensures AllOwned(s) ==> (AllOwned(ActStep(s, t, choice)) <==> Lost(s, Act(t, choice)).None?)
  {
    var pc := s.threads[t];
    if pc.InputRead? || pc.InputSeen? || pc.InputAttaching? {
      ActInputLedger(s, t, choice);
    } else if pc.DrainRead? || pc.DrainSeen? || pc.DrainClaimed? || pc.Closing? {
      ActDrainLedger(s, t, choice);
    } else if pc.ChainRead? || pc.ChainSeen? || pc.ChainCompleted? {
      ActChainLedger(s, t, choice);
    } else if IsTurn(pc) {
      ActTurnLedger(s, t, choice);
    } else if IsBranch(pc) {
      ActBranchLedger(s, t, choice);
    } else {
      ActOtherLedger(s, t, choice);
    }
  }

  lemma ActBranchLedger(s: State, t: nat, choice: Choice)
    requires Books(s) && t < |s.threads| && Open(s, s.threads[t], choice) && IsBranch(s.threads[t])
    ensures Books(ActBranch(s, t, choice)) && (AllOwned(s) ==> AllOwned(ActBranch(s, t, choice)))
  {
    KeepMove(s, ActBranch(s, t, choice), t);
  }

  /** Every step keeps the books, and keeps every claim owned exactly when it loses none; a step that
      loses a claim keeps the books all the same. */
  lemma StepKeepsLedger(s: State, step: Step)
    requires Books(s) && Enabled(s, step)
    ensures Books(Next(s, step))
    ensures AllOwned(s) ==> (AllOwned(Next(s, step)) <==> Lost(s, step).None?)
  {
    if step.Act? {
      ActLedger(s, step.t, step.choice);
    } else {
      OtherStepLedger(s, step);
    }
  }

  lemma {:induction false} RunKeepsBooks(s: State, steps: seq<Step>)
    requires Books(s) && Runs(s, steps)
    ensures Books(Outcome(s, steps))
    decreases |steps|
  {
    if steps != [] {
      StepKeepsLedger(s, steps[0]);
      RunKeepsBooks(Next(s, steps[0]), steps[1..]);
    }
  }

  predicate NothingLost(s: State, steps: seq<Step>)
    requires Runs(s, steps)
    decreases |steps|
  {
    steps == [] || (Lost(s, steps[0]).None? && NothingLost(Next(s, steps[0]), steps[1..]))
  }

  lemma {:induction false} RunKeepsLedger(s: State, steps: seq<Step>)
    requires Ledger(s) && Runs(s, steps) && NothingLost(s, steps)
    ensures Ledger(Outcome(s, steps))
    decreases |steps|
  {
    if steps != [] {
      StepKeepsLedger(s, steps[0]);
      RunKeepsLedger(Next(s, steps[0]), steps[1..]);
    }
  }

  /** In every run that loses no claim, a claimed item has exactly one owner in exactly one role,
      and once every thread is done nothing is claimed. */
  lemma ClaimsHaveOneOwner(s: State, steps: seq<Step>, id: string)
    requires Initial(s) && Runs(s, steps) && NothingLost(s, steps)
    requires id in ClaimedIds(Outcome(s, steps).queue)
    ensures
      var threads := Outcome(s, steps).threads;
      exists t :: 0 <= t < |threads| && id in Owned(threads[t]) && TwoRoles(threads[t])
        && forall u | 0 <= u < |threads| && u != t :: id !in Owned(threads[u])
    ensures exists t :: 0 <= t < |Outcome(s, steps).threads| && Outcome(s, steps).threads[t] != Done
  {
    assert Ledger(s);
    RunKeepsLedger(s, steps);
    var s' := Outcome(s, steps);
    assert HasOwner(s', id);
    var t :| 0 <= t < |s'.threads| && id in Owned(s'.threads[t]);
    forall u | 0 <= u < |s'.threads| && u != t ensures id !in Owned(s'.threads[u]) {
      assert Owned(s'.threads[t]) !! Owned(s'.threads[u]);
    }
  }
}
