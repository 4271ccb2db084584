/** A claimed request is run: nothing leaves the queue of an existing session by a thread's own step
    but an item for which that thread has started exactly one turn since it claimed the item. */
module ClaimRuns {
  import opened JsText
  import opened RequestQueue
  import opened SessionRow
  import opened TurnScheduler
  import opened TurnExclusion
  import opened ClaimLedger

  // ----- the record of a run -------------------------------------------------------------

  /** The step from `s` to `s'` claims the item: it was not claimed before, and is after. */
  ghost predicate Claims(s: State, s': State, id: string) {
    id !in ClaimedIds(s.queue) && id in ClaimedIds(s'.queue)
  }

  /** Thread `t` sets an idle session running, for the request it claimed as `id`. */
  predicate StartsFor(s: State, s': State, t: nat, id: string) {
    t < |s.threads| && RunningClaim(s.threads[t]) == Some(id) && !Running(s) && Running(s')
  }

  ghost function CountedMove(s: State, s': State, t: nat, id: string, n: Option<nat>): Option<nat> {
    if Claims(s, s', id) then Some(0)
    else if StartsFor(s, s', t, id) && n.Some? then Some(n.value + 1)
    else n
  }

  /** Only the thread's own steps count. */
  ghost function Counted(s: State, step: Step, t: nat, id: string, n: Option<nat>): Option<nat>
    requires Enabled(s, step)
  {
    if step.Act? && step.t == t then CountedMove(s, Next(s, step), t, id, n) else n
  }

  /** How many turns thread `t` has started for the item since it last claimed it, if it ever has;
      `n` of them before the run. */
  ghost function Starts(s: State, steps: seq<Step>, t: nat, id: string, n: Option<nat>): Option<nat>
    requires Runs(s, steps)
    decreases |steps|
  {
    if steps == [] then n else Starts(Next(s, steps[0]), steps[1..], t, id, Counted(s, steps[0], t, id, n))
  }

  // ----- what the count is at each place of a thread ------------------------------------

  predicate Begun(pc: Pc) { pc.TurnOpen? || pc.TurnLive? || pc.TurnEnded? || pc.TurnDone? }

  /** No turn yet for an item that waits for one, one turn for an item whose turn has begun. */
  predicate Tallies(pc: Pc, id: string, n: Option<nat>) {
    && (RunningClaim(pc) == Some(id) && !pc.TurnFailed? ==> n == Some(if Begun(pc) then 1 else 0))
    && (SuccessorClaim(pc) == Some(id) ==> n == Some(0))
  }

  predicate IsDrain(pc: Pc) { pc.DrainRead? || pc.DrainSeen? || pc.DrainClaimed? || pc.Closing? }

  predicate ClaimsNext(pc: Pc, choice: Choice) {
    || (pc.DrainSeen? && pc.found && !pc.running)
    || (pc.TurnEnded? && !choice.EndTwice? && !choice.GiveUp?)
  }

  /** The thread may give its claim back: the turn for it has failed, or was not to be started since the
      session was seen gone or running, or the chain has come to its limit. */
  predicate MayGiveBack(pc: Pc, id: string) {
    || (RunningClaim(pc) == Some(id) && (pc.TurnFailed? || (pc.ChainSeen? && (!pc.found || pc.running))))
    || (SuccessorClaim(pc) == Some(id) && pc.ChainCompleted? && pc.number >= MAX_TRIGGERED)
    || (SuccessorClaim(pc) == Some(id) && pc.TurnDone? && pc.origin.FromChain? && pc.origin.number >= MAX_TRIGGERED)
  }

  /** The step claims nothing, and gives back at most what the thread may give back. */
  ghost predicate NoNewClaims(s: State, s': State, pc: Pc) {
    && ClaimedIds(s'.queue) <= ClaimedIds(s.queue)
    && forall id | id in ClaimedIds(s.queue) * Ids(s'.queue) - ClaimedIds(s'.queue) :: MayGiveBack(pc, id)
  }

  lemma ReleaseClaimsNothing(s: State, s': State, pc: Pc, id: Option<string>)
    requires UniqueIds(s.queue) && (id.Some? ==> MayGiveBack(pc, id.value))
    requires s'.queue == (if id.Some? then Released(s.queue, id.value) else s.queue)
    ensures NoNewClaims(s, s', pc) && Ids(s'.queue) == Ids(s.queue)
  {
    if id.Some? { IdsOfReleased(s.queue, id.value); }
  }

  lemma ChainClaimsNothing(s: State, t: nat, choice: Choice)
    requires Books(s) && t < |s.threads| && Open(s, s.threads[t], choice)
    requires var pc := s.threads[t]; pc.ChainRead? || pc.ChainSeen? || pc.ChainCompleted?
    ensures var s' := ActChain(s, t, choice); NoNewClaims(s, s', s.threads[t]) && Ids(s'.queue) == Ids(s.queue)
  {
    var pc := s.threads[t];
    var s' := ActChain(s, t, choice);
    if pc.ChainSeen? && (!pc.found || pc.running) {
      ReleaseClaimsNothing(s, s', pc, pc.request.claim);
    } else if pc.ChainCompleted? && !choice.Fail? && pc.completed && pc.next.Some? && pc.number >= MAX_TRIGGERED {
      ReleaseClaimsNothing(s, s', pc, pc.next.value.claim);
    }
  }

  lemma TurnClaimsNothing(s: State, t: nat, choice: Choice)
    requires Books(s) && t < |s.threads| && Open(s, s.threads[t], choice)
    requires IsTurn(s.threads[t]) && !ClaimsNext(s.threads[t], choice)
    ensures NoNewClaims(s, ActTurn(s, t, choice), s.threads[t])
    ensures forall id | id in Ids(s.queue) && id !in Ids(ActTurn(s, t, choice).queue) ::
              s.threads[t].TurnDone? && RunningClaim(s.threads[t]) == Some(id)
  {
    var pc := s.threads[t];
    var s' := ActTurn(s, t, choice);
    if pc.TurnFailed? {
      ReleaseClaimsNothing(s, s', pc, OriginClaim(pc.origin));
    } else if pc.TurnDone? {
      if OriginClaim(pc.origin).Some? {
        IdsOfWithout(s.queue, OriginClaim(pc.origin).value);
      } else if pc.origin.FromChain? && pc.next.Some? && pc.origin.number >= MAX_TRIGGERED {
        ReleaseClaimsNothing(s, s', pc, pc.next.value.claim);
      }
    }
  }

  lemma OtherClaimsNothing(s: State, t: nat, choice: Choice)
    requires Books(s) && t < |s.threads| && Open(s, s.threads[t], choice) && !IsBranch(s.threads[t])
    ensures NoNewClaims(s, ActOther(s, t, choice), s.threads[t])
    ensures Ids(s.queue) <= Ids(ActOther(s, t, choice).queue)
  {
    if choice.Put? {
      IdsOfInserted(s.queue, |s.queue|, choice.item);
    }
  }

  lemma DrainClaimsNothing(s: State, t: nat, choice: Choice)
    requires t < |s.threads| && Open(s, s.threads[t], choice)
    requires IsDrain(s.threads[t]) && !ClaimsNext(s.threads[t], choice)
    ensures NoNewClaims(s, ActDrain(s, t, choice), s.threads[t])
    ensures (exists id :: id in Ids(s.queue) && id !in Ids(ActDrain(s, t, choice).queue)) ==>
              s.threads[t].DrainSeen? && !s.threads[t].found
  {
    var s' := ActDrain(s, t, choice);
    assert s'.queue == s.queue || (s'.queue == [] && s.threads[t].DrainSeen? && !s.threads[t].found);
  }

  lemma ActClaimsNothing(s: State, t: nat, choice: Choice)
    requires Books(s) && t < |s.threads| && Open(s, s.threads[t], choice) && !ClaimsNext(s.threads[t], choice)
    ensures NoNewClaims(s, ActStep(s, t, choice), s.threads[t])
    ensures forall id | id in Ids(s.queue) && id !in Ids(ActStep(s, t, choice).queue) ::
              || (s.threads[t].TurnDone? && RunningClaim(s.threads[t]) == Some(id))
              || (s.threads[t].DrainSeen? && !s.threads[t].found)
  {
    var pc := s.threads[t];
    if IsTurn(pc) {
      TurnClaimsNothing(s, t, choice);
    } else if pc.ChainRead? || pc.ChainSeen? || pc.ChainCompleted? {
      ChainClaimsNothing(s, t, choice);
    } else if IsDrain(pc) {
      DrainClaimsNothing(s, t, choice);
    } else if pc.AddSeen? {
      OtherClaimsNothing(s, t, choice);
    } else {
      assert ActStep(s, t, choice).queue == s.queue;
    }
  }

  /** A step that claims: it keeps all claims and adds the item claimed. */
  lemma ActClaims(s: State, t: nat, choice: Choice)
    requires Books(s) && t < |s.threads| && Open(s, s.threads[t], choice) && ClaimsNext(s.threads[t], choice)
    ensures
      var s' := ActStep(s, t, choice);
      && ClaimedIds(s'.queue) == ClaimedIds(s.queue) + One(ClaimedId(s.queue))
      && One(ClaimedId(s.queue)) !! ClaimedIds(s.queue) && One(ClaimedId(s.queue)) <= Ids(s.queue)
  {
    IdsOfClaim(s.queue, CLAIM_TIME);
  }

  // ----- one step ------------------------------------------------------------------------

  /** A hook claims the successor of the item whose turn has begun. */
  lemma SuccessorTallies(s: State, s': State, t: nat, id: string, n: Option<nat>)
    requires Books(s) && OnlyMoves(s, s', t) && s'.row == s.row && s'.queue == AfterClaim(s.queue, CLAIM_TIME)
    requires Tallies(s.threads[t], id, n) && Begun(s.threads[t]) && Begun(s'.threads[t])
    requires RunningClaim(s'.threads[t]) == RunningClaim(s.threads[t])
    requires SuccessorClaim(s'.threads[t]).None? || SuccessorClaim(s'.threads[t]) == ClaimedId(s.queue)
    ensures Tallies(s'.threads[t], id, CountedMove(s, s', t, id, n))
  {
    IdsOfClaim(s.queue, CLAIM_TIME);
    assert Owned(s.threads[t]) * Ids(s.queue) <= ClaimedIds(s.queue);
  }

  lemma HookTallies(s: State, t: nat, choice: Choice, id: string, n: Option<nat>)
    requires Books(s) && t < |s.threads| && Open(s, s.threads[t], choice) && Tallies(s.threads[t], id, n)
    requires s.threads[t].TurnEnded? && ClaimsNext(s.threads[t], choice)
    ensures var s' := ActTurn(s, t, choice); Tallies(s'.threads[t], id, CountedMove(s, s', t, id, n))
  {
    SuccessorTallies(s, ActTurn(s, t, choice), t, id, n);
  }

  lemma DrainClaimTallies(s: State, t: nat, choice: Choice, id: string, n: Option<nat>)
    requires Books(s) && t < |s.threads| && Open(s, s.threads[t], choice)
    requires var pc := s.threads[t]; pc.DrainSeen? && pc.found && !pc.running
    ensures var s' := ActDrain(s, t, choice); Tallies(s'.threads[t], id, CountedMove(s, s', t, id, n))
  {
    IdsOfClaim(s.queue, CLAIM_TIME);
  }

  lemma DrainTallies(s: State, t: nat, choice: Choice, id: string, n: Option<nat>)
    requires Books(s) && t < |s.threads| && Open(s, s.threads[t], choice) && Tallies(s.threads[t], id, n)
    requires IsDrain(s.threads[t])
    ensures var s' := ActDrain(s, t, choice); Tallies(s'.threads[t], id, CountedMove(s, s', t, id, n))
  {
    var pc := s.threads[t];
    if pc.DrainSeen? && pc.found && !pc.running {
      DrainClaimTallies(s, t, choice, id, n);
    } else {
      var s' := ActDrain(s, t, choice);
      assert s'.row == s.row && (s'.queue == s.queue || s'.queue == []);
      assert Owned(s'.threads[t]) <= Owned(s.threads[t]) && !Begun(s'.threads[t]);
    }
  }

  lemma ChainTallies(s: State, t: nat, choice: Choice, id: string, n: Option<nat>)
    requires Books(s) && t < |s.threads| && Open(s, s.threads[t], choice) && Tallies(s.threads[t], id, n)
    requires var pc := s.threads[t]; pc.ChainRead? || pc.ChainSeen? || pc.ChainCompleted?
    ensures var s' := ActChain(s, t, choice); Tallies(s'.threads[t], id, CountedMove(s, s', t, id, n))
  {
    ChainClaimsNothing(s, t, choice);
    assert ActChain(s, t, choice).row == s.row;
  }

  lemma StartTallies(s: State, t: nat, choice: Choice, id: string, n: Option<nat>)
    requires Books(s) && t < |s.threads| && Open(s, s.threads[t], choice) && Tallies(s.threads[t], id, n)
    requires s.threads[t].TurnStart?
    ensures var s' := ActTurn(s, t, choice); Tallies(s'.threads[t], id, CountedMove(s, s', t, id, n))
  {
    assert ActTurn(s, t, choice).queue == s.queue;
  }

  /** The row stays, the thread is in no turn, and holds at most what it held as its successor. */
  ghost predicate GoesOn(s: State, s': State, t: nat)
    requires OnlyMoves(s, s', t)
  {
    var pc, pc' := s.threads[t], s'.threads[t];
    && s'.row == s.row && !Begun(pc')
    && One(RunningClaim(pc')) + One(SuccessorClaim(pc')) <= One(SuccessorClaim(pc))
  }

  /** Nothing is claimed and no turn starts; the thread keeps its place with the item it runs, or goes
      on to run its successor. */
  lemma MoveTallies(s: State, s': State, t: nat, id: string, n: Option<nat>)
    requires OnlyMoves(s, s', t) && GoesOn(s, s', t) && ClaimedIds(s'.queue) <= ClaimedIds(s.queue)
    requires Tallies(s.threads[t], id, n)
    ensures Tallies(s'.threads[t], id, CountedMove(s, s', t, id, n))
  {
    var pc, pc' := s.threads[t], s'.threads[t];
    assert RunningClaim(pc') == Some(id) ==> id in One(RunningClaim(pc'));
    assert SuccessorClaim(pc') == Some(id) ==> id in One(SuccessorClaim(pc'));
  }

  lemma GoOnGoesOn(s: State, t: nat, number: nat, next: Option<Request>)
    requires t < |s.threads| && (next.Some? ==> SuccessorClaim(s.threads[t]) == next.value.claim)
    ensures OnlyMoves(s, GoOn(s, t, number, next), t) && GoesOn(s, GoOn(s, t, number, next), t)
  {
  }

  lemma FailedGoesOn(s: State, t: nat, choice: Choice)
    requires t < |s.threads| && Open(s, s.threads[t], choice) && s.threads[t].TurnFailed?
    ensures GoesOn(s, ActTurn(s, t, choice), t)
  {
  }

  lemma DoneMove(s: State, t: nat, choice: Choice)
    requires t < |s.threads| && Open(s, s.threads[t], choice)
    requires s.threads[t].TurnDone? || s.threads[t].TurnFailed?
    ensures GoesOn(s, ActTurn(s, t, choice), t)
  {
    var pc := s.threads[t];
    if pc.TurnFailed? {
      FailedGoesOn(s, t, choice);
    } else if pc.origin.FromChain? && pc.origin.request.claim.None? {
      GoOnGoesOn(s, t, pc.origin.number, pc.next);
      assert ActTurn(s, t, choice) == GoOn(s, t, pc.origin.number, pc.next);
    } else {
      DoneGoesOn(s, t, choice);
    }
  }

  lemma DoneGoesOn(s: State, t: nat, choice: Choice)
    requires t < |s.threads| && Open(s, s.threads[t], choice) && s.threads[t].TurnDone?
    requires var origin := s.threads[t].origin; origin.FromInput? || origin.request.claim.Some?
    ensures GoesOn(s, ActTurn(s, t, choice), t)
  {
  }

  lemma DoneTallies(s: State, t: nat, choice: Choice, id: string, n: Option<nat>)
    requires Books(s) && t < |s.threads| && Open(s, s.threads[t], choice) && Tallies(s.threads[t], id, n)
    requires s.threads[t].TurnDone? || s.threads[t].TurnFailed?
    ensures var s' := ActTurn(s, t, choice); Tallies(s'.threads[t], id, CountedMove(s, s', t, id, n))
  {
    TurnClaimsNothing(s, t, choice);
    DoneMove(s, t, choice);
    MoveTallies(s, ActTurn(s, t, choice), t, id, n);
  }

  lemma LiveTallies(s: State, t: nat, choice: Choice, id: string, n: Option<nat>)
    requires Books(s) && t < |s.threads| && Open(s, s.threads[t], choice) && Tallies(s.threads[t], id, n)
    requires var pc := s.threads[t]; pc.TurnOpen? || pc.TurnLive? || (pc.TurnEnded? && !ClaimsNext(pc, choice))
    ensures var s' := ActTurn(s, t, choice); Tallies(s'.threads[t], id, CountedMove(s, s', t, id, n))
  {
    var s' := ActTurn(s, t, choice);
    assert s'.queue == s.queue && RunningClaim(s'.threads[t]) == RunningClaim(s.threads[t]);
    assert SuccessorClaim(s'.threads[t]).None?;
    assert Running(s') ==> Running(s);
  }

  lemma TurnTallies(s: State, t: nat, choice: Choice, id: string, n: Option<nat>)
    requires Books(s) && t < |s.threads| && Open(s, s.threads[t], choice) && Tallies(s.threads[t], id, n)
    requires IsTurn(s.threads[t])
    ensures var s' := ActTurn(s, t, choice); Tallies(s'.threads[t], id, CountedMove(s, s', t, id, n))
  {
    var pc := s.threads[t];
    if pc.TurnStart? {
      StartTallies(s, t, choice, id, n);
    } else if pc.TurnDone? || pc.TurnFailed? {
      DoneTallies(s, t, choice, id, n);
    } else if ClaimsNext(pc, choice) {
      HookTallies(s, t, choice, id, n);
    } else {
      LiveTallies(s, t, choice, id, n);
    }
  }

  lemma InputHoldsNothing(s: State, t: nat, choice: Choice)
    requires t < |s.threads| && Open(s, s.threads[t], choice)
    requires var pc := s.threads[t]; pc.InputRead? || pc.InputSeen? || pc.InputAttaching?
    ensures Owned(ActInput(s, t, choice).threads[t]) == {}
  {
  }

  lemma BranchHoldsNothing(s: State, t: nat, choice: Choice)
    requires t < |s.threads| && Open(s, s.threads[t], choice) && IsBranch(s.threads[t])
    ensures Owned(ActBranch(s, t, choice).threads[t]) == {}
  {
  }

  predicate IsOther(pc: Pc) {
    || pc.AddRead? || pc.AddSeen? || pc.AddQueued? || pc.InterruptRead? || pc.InterruptSeen? || pc.InterruptAsking?
    || pc.InterruptAsked? || pc.InterruptAnswered?
  }

  lemma OtherHoldsNothing(s: State, t: nat, choice: Choice)
    requires t < |s.threads| && Open(s, s.threads[t], choice) && IsOther(s.threads[t])
    ensures Owned(ActOther(s, t, choice).threads[t]) == {}
  {
  }

  lemma OthersTally(s: State, t: nat, choice: Choice, id: string, n: Option<nat>)
    requires t < |s.threads| && Open(s, s.threads[t], choice)
    requires
      var pc := s.threads[t];
      pc.InputRead? || pc.InputSeen? || pc.InputAttaching? || IsBranch(pc) || IsOther(pc)
    ensures var s' := ActStep(s, t, choice); Tallies(s'.threads[t], id, CountedMove(s, s', t, id, n))
  {
    var s' := ActStep(s, t, choice);
    if IsBranch(s.threads[t]) {
      BranchHoldsNothing(s, t, choice);
    } else if IsOther(s.threads[t]) {
      OtherHoldsNothing(s, t, choice);
    } else {
      InputHoldsNothing(s, t, choice);
    }
    HoldsNothing(s, s', t, id, n);
  }

  lemma HoldsNothing(s: State, s': State, t: nat, id: string, n: Option<nat>)
    requires t < |s'.threads| && Owned(s'.threads[t]) == {}
    ensures Tallies(s'.threads[t], id, CountedMove(s, s', t, id, n))
  {
    var pc := s'.threads[t];
    assert RunningClaim(pc) == Some(id) ==> id in Owned(pc);
    assert SuccessorClaim(pc) == Some(id) ==> id in Owned(pc);
  }

  lemma ActTallies(s: State, t: nat, choice: Choice, id: string, n: Option<nat>)
    requires Books(s) && t < |s.threads| && Open(s, s.threads[t], choice) && Tallies(s.threads[t], id, n)
    ensures var s' := ActStep(s, t, choice); Tallies(s'.threads[t], id, CountedMove(s, s', t, id, n))
  {
    var pc := s.threads[t];
    if IsTurn(pc) {
      TurnTallies(s, t, choice, id, n);
    } else if pc.ChainRead? || pc.ChainSeen? || pc.ChainCompleted? {
      ChainTallies(s, t, choice, id, n);
    } else if IsDrain(pc) {
      DrainTallies(s, t, choice, id, n);
    } else {
      OthersTally(s, t, choice, id, n);
    }
  }

  /** The thread, if it is there yet, stands where the count says. */
  predicate TalliesAt(s: State, t: nat, id: string, n: Option<nat>) {
    t < |s.threads| ==> Tallies(s.threads[t], id, n)
  }

  lemma StepTallies(s: State, step: Step, t: nat, id: string, n: Option<nat>)
    requires Books(s) && Enabled(s, step) && TalliesAt(s, t, id, n)
    ensures TalliesAt(Next(s, step), t, id, Counted(s, step, t, id, n))
  {
    if step.Act? && step.t == t {
      ActTallies(s, t, step.choice, id, n);
    }
  }

  lemma {:induction false} RunTallies(s: State, steps: seq<Step>, t: nat, id: string, n: Option<nat>)
    requires Books(s) && Runs(s, steps) && TalliesAt(s, t, id, n)
    ensures TalliesAt(Outcome(s, steps), t, id, Starts(s, steps, t, id, n))
    decreases |steps|
  {
    if steps != [] {
      StepTallies(s, steps[0], t, id, n);
      StepKeepsLedger(s, steps[0]);
      RunTallies(Next(s, steps[0]), steps[1..], t, id, Counted(s, steps[0], t, id, n));
    }
  }

  /** A thread's step makes a claimed item free again only for one of the reasons above. */
  lemma GivenBackForAReason(s: State, t: nat, choice: Choice, id: string)
    requires Books(s) && t < |s.threads| && Open(s, s.threads[t], choice)
    requires
      var s' := ActStep(s, t, choice);
      id in ClaimedIds(s.queue) && id in Ids(s'.queue) && id !in ClaimedIds(s'.queue)
    ensures MayGiveBack(s.threads[t], id)
  {
    if ClaimsNext(s.threads[t], choice) {
      ActClaims(s, t, choice);
    } else {
      ActClaimsNothing(s, t, choice);
    }
  }

  // ----- a drain that saw no session saw right -------------------------------------------

  ghost predicate GoneForGood(s: State) {
    forall t | 0 <= t < |s.threads| && s.threads[t].DrainSeen? && !s.threads[t].found :: s.row.None?
  }

  lemma NoSessionComesBack(s: State, t: nat, choice: Choice)
    requires t < |s.threads| && Open(s, s.threads[t], choice) && s.row.None?
    ensures ActStep(s, t, choice).row.None?
  {
  }

  lemma DrainReadSees(s: State, t: nat, choice: Choice)
    requires t < |s.threads| && Open(s, s.threads[t], choice)
    requires IsDrain(s.threads[t])
    ensures
      var pc := ActDrain(s, t, choice).threads[t];
      pc.DrainSeen? ==> pc.found == s.row.Some?
  {
  }

  /** Only a drain comes to the place where it has read the session. */
  lemma OnlyDrainsSee(s: State, t: nat, choice: Choice)
    requires t < |s.threads| && Open(s, s.threads[t], choice)
    requires !IsDrain(s.threads[t])
    ensures !ActStep(s, t, choice).threads[t].DrainSeen?
  {
    var pc := s.threads[t];
    if pc.ChainRead? || pc.ChainSeen? || pc.ChainCompleted? {
      assert !ActChain(s, t, choice).threads[t].DrainSeen?;
    } else if IsTurn(pc) {
      TurnsNeverSee(s, t, choice);
    } else if IsBranch(pc) {
      assert !ActBranch(s, t, choice).threads[t].DrainSeen?;
    }
  }

  lemma TurnsNeverSee(s: State, t: nat, choice: Choice)
    requires t < |s.threads| && Open(s, s.threads[t], choice) && IsTurn(s.threads[t])
    ensures !ActTurn(s, t, choice).threads[t].DrainSeen?
  {
  }

  lemma StepKeepsGone(s: State, step: Step)
    requires GoneForGood(s) && Enabled(s, step)
    ensures GoneForGood(Next(s, step))
  {
    if step.Act? {
      if s.row.None? {
        NoSessionComesBack(s, step.t, step.choice);
      } else if IsDrain(s.threads[step.t]) {
        DrainReadSees(s, step.t, step.choice);
      } else {
        OnlyDrainsSee(s, step.t, step.choice);
      }
    }
  }

  lemma {:induction false} RunKeepsGone(s: State, steps: seq<Step>)
    requires GoneForGood(s) && Runs(s, steps)
    ensures GoneForGood(Outcome(s, steps))
    decreases |steps|
  {
    if steps != [] {
      StepKeepsGone(s, steps[0]);
      RunKeepsGone(Next(s, steps[0]), steps[1..]);
    }
  }

  // ----- runs ----------------------------------------------------------------------------

  /** In every run, lost claims and failures included: a thread's own step that takes a claimed item out
      of the queue of an existing session comes after that thread claimed the item and set the session
      running for it, once since then. */
  lemma TakenWasRun(s: State, steps: seq<Step>, t: nat, choice: Choice, id: string)
    requires Initial(s) && Runs(s, steps)
    requires
      var s' := Outcome(s, steps);
      && Enabled(s', Act(t, choice)) && s'.row.Some?
      && id in ClaimedIds(s'.queue) && id !in Ids(Next(s', Act(t, choice)).queue)
    ensures Starts(s, steps, t, id, None) == Some(1)
  {
    RunKeepsBooks(s, steps);
    RunKeepsGone(s, steps);
    RunTallies(s, steps, t, id, None);
    TakenAfterTurn(Outcome(s, steps), t, choice, id, Starts(s, steps, t, id, None));
  }

  lemma TakenAfterTurn(s: State, t: nat, choice: Choice, id: string, n: Option<nat>)
    requires Books(s) && GoneForGood(s) && s.row.Some?
    requires t < |s.threads| && Open(s, s.threads[t], choice) && Tallies(s.threads[t], id, n)
    requires id in ClaimedIds(s.queue) && id !in Ids(ActStep(s, t, choice).queue)
    ensures n == Some(1)
  {
    ClaimedAreIds(s.queue);
    if ClaimsNext(s.threads[t], choice) {
      ActClaims(s, t, choice);
      ClaimedAreIds(ActStep(s, t, choice).queue);
      assert false;
    } else {
      ActClaimsNothing(s, t, choice);
    }
  }

  /** And no thread starts a second turn for an item it claimed once. */
  lemma StartedAtMostOnce(s: State, steps: seq<Step>, t: nat, choice: Choice, id: string)
    requires Initial(s) && Runs(s, steps) && Enabled(Outcome(s, steps), Act(t, choice))
    requires StartsFor(Outcome(s, steps), Next(Outcome(s, steps), Act(t, choice)), t, id)
    ensures Starts(s, steps, t, id, None) == Some(0)
  {
    RunTallies(s, steps, t, id, None);
    StartsFirst(Outcome(s, steps), t, choice, id, Starts(s, steps, t, id, None));
  }

  lemma StartsFirst(s: State, t: nat, choice: Choice, id: string, n: Option<nat>)
    requires t < |s.threads| && Open(s, s.threads[t], choice) && Tallies(s.threads[t], id, n)
    requires StartsFor(s, ActStep(s, t, choice), t, id)
    ensures n == Some(0)
  {
    StartsAtStart(s, t, choice);
  }

  lemma TurnStartsAtStart(s: State, t: nat, choice: Choice)
    requires t < |s.threads| && Open(s, s.threads[t], choice) && IsTurn(s.threads[t])
    requires !Running(s) && Running(ActTurn(s, t, choice))
    ensures s.threads[t].TurnStart?
  {
  }

  lemma StartsAtStart(s: State, t: nat, choice: Choice)
    requires t < |s.threads| && Open(s, s.threads[t], choice)
    requires !Running(s) && Running(ActStep(s, t, choice))
    ensures s.threads[t].TurnStart? || s.threads[t].BranchCreated?
  {
    if IsTurn(s.threads[t]) {
      TurnStartsAtStart(s, t, choice);
    }
  }
}
