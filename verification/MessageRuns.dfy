/** What a message does when its calls succeed: an interrupt reaches the row whatever else happens in
    between; an input, a queued request, the request after a turn, and a branch get their turn. */
module MessageRuns {
  import opened JsText
  import opened RequestQueue
  import opened SessionRow
  import opened TurnScheduler
  import opened ClaimLedger
  import opened ClaimPresence
  import opened ClaimRuns

  // ----- interrupts, among the steps of all other threads --------------------------------

  predicate InterruptMarked(s: State) {
    && s.row.Some? && s.row.value.interruptrequested && s.row.value.requestedat.Some?
    && s.row.value.completedat.None?
  }

  /** Some step of thread `t` leaves the row marked as interrupted. */
  predicate MarksInterrupt(s: State, steps: seq<Step>, t: nat)
    requires Runs(s, steps)
    decreases |steps|
  {
    steps != [] &&
    var s' := Next(s, steps[0]);
    (steps[0].Act? && steps[0].t == t && InterruptMarked(s')) || MarksInterrupt(s', steps[1..], t)
  }

  /** Some step of thread `t` changes the row. */
  predicate TouchesRow(s: State, steps: seq<Step>, t: nat)
    requires Runs(s, steps)
    decreases |steps|
  {
    steps != [] &&
    var s' := Next(s, steps[0]);
    (steps[0].Act? && steps[0].t == t && s'.row != s.row) || TouchesRow(s', steps[1..], t)
  }

  predicate CallsSucceed(steps: seq<Step>, t: nat) {
    forall i | 0 <= i < |steps| :: steps[i].Act? && steps[i].t == t ==> !steps[i].choice.Fail?
  }

  lemma {:induction false} RunStaysGone(s: State, steps: seq<Step>)
    requires Runs(s, steps) && s.row.None?
    ensures Outcome(s, steps).row.None?
    decreases |steps|
  {
    if steps != [] {
      if steps[0].Act? { NoSessionComesBack(s, steps[0].t, steps[0].choice); }
      RunStaysGone(Next(s, steps[0]), steps[1..]);
    }
  }

  lemma OtherStepKeepsPlace(s: State, step: Step, t: nat)
    requires Enabled(s, step) && t < |s.threads| && !(step.Act? && step.t == t)
    ensures t < |Next(s, step).threads| && Next(s, step).threads[t] == s.threads[t]
  {
  }

  /** Let through, or about to write the mark. */
  predicate WillAsk(pc: Pc) {
    pc.InterruptAsking? || (pc.InterruptSeen? && pc.found && pc.running && (pc.deleting || !pc.compacting))
  }

  lemma AskStep(s: State, t: nat, choice: Choice)
    requires t < |s.threads| && Open(s, s.threads[t], choice) && WillAsk(s.threads[t])
    requires !choice.Fail? && s.row.Some?
    ensures var s' := ActOther(s, t, choice); InterruptMarked(s') || (s'.threads[t].InterruptAsking? && s'.row == s.row)
  {
  }

  lemma {:induction false} AskerMarks(s: State, steps: seq<Step>, t: nat)
    requires Runs(s, steps) && t < |s.threads| && WillAsk(s.threads[t]) && CallsSucceed(steps, t)
    requires Outcome(s, steps).row.Some? && t < |Outcome(s, steps).threads| && Outcome(s, steps).threads[t] == Done
    ensures MarksInterrupt(s, steps, t)
    decreases |steps|
  {
    assert steps != [];
    if s.row.None? {
      RunStaysGone(s, steps);
    }
    var step, s' := steps[0], Next(s, steps[0]);
    if step.Act? && step.t == t {
      AskStep(s, t, step.choice);
    } else {
      OtherStepKeepsPlace(s, step, t);
    }
    if !MarksInterrupt(s, steps, t) {
      assert forall i | 0 <= i < |steps[1..]| :: steps[1..][i] == steps[i + 1];
      AskerMarks(s', steps[1..], t);
    }
  }

  /** An interrupt that reads a running session which is not compacting, or that a deletion sends to any
      running session, marks the row before it is done, whatever other threads do in between, unless a
      call of its own throws or the session is deleted. */
  lemma InterruptIsMarked(s: State, steps: seq<Step>, t: nat)
    requires t < |s.threads| && s.threads[t].InterruptRead? && Running(s)
    requires s.threads[t].deleting || s.row.value.turnphase != "compacting"
    requires steps != [] && steps[0] == Act(t, Go) && Runs(s, steps) && CallsSucceed(steps, t)
    requires Outcome(s, steps).row.Some? && t < |Outcome(s, steps).threads| && Outcome(s, steps).threads[t] == Done
    ensures MarksInterrupt(s, steps, t)
  {
    var s' := Next(s, steps[0]);
    assert s' == ActOther(s, t, Go);
    assert forall i | 0 <= i < |steps[1..]| :: steps[1..][i] == steps[i + 1];
    AskerMarks(s', steps[1..], t);
  }

  lemma {:induction false} RefusedTouchesNothing(s: State, steps: seq<Step>, t: nat)
    requires Runs(s, steps) && t < |s.threads|
    requires
      var pc := s.threads[t];
      || pc == Done
      || (pc.InterruptSeen? && (!pc.found || (if pc.deleting then !pc.running else pc.compacting)))
    ensures !TouchesRow(s, steps, t)
    decreases |steps|
  {
    if steps != [] {
      var step, s' := steps[0], Next(s, steps[0]);
      if step.Act? && step.t == t {
        assert s.threads[t] != Done;
        assert s' == ActOther(s, t, step.choice);
      } else {
        OtherStepKeepsPlace(s, step, t);
      }
      RefusedTouchesNothing(s', steps[1..], t);
    }
  }

  /** One that reads no session, or a client's that reads a compacting one, or a deletion's that reads
      one not running, never touches the row. */
  lemma InterruptIsRefused(s: State, steps: seq<Step>, t: nat)
    requires t < |s.threads| && s.threads[t].InterruptRead?
    requires s.row.None? || (if s.threads[t].deleting then !Running(s) else s.row.value.turnphase == "compacting")
    requires steps != [] && steps[0].Act? && steps[0].t == t && Runs(s, steps)
    ensures !TouchesRow(s, steps, t)
  {
    var s' := Next(s, steps[0]);
    assert s' == ActOther(s, t, steps[0].choice);
    RefusedTouchesNothing(s', steps[1..], t);
  }

  /** Nor does a client's interrupt that read a session not running, if no turn is registered by the time
      it goes on, whatever was done in between. */
  lemma InterruptFindsNoTurn(s: State, steps: seq<Step>, t: nat)
    requires t < |s.threads| && s.threads[t].InterruptSeen? && !s.threads[t].deleting && !s.threads[t].running
    requires s.scope.None? && steps != [] && steps[0].Act? && steps[0].t == t && Runs(s, steps)
    ensures !TouchesRow(s, steps, t)
  {
    var s' := Next(s, steps[0]);
    assert s' == ActOther(s, t, steps[0].choice);
    RefusedTouchesNothing(s', steps[1..], t);
  }

  lemma InterruptReadsRow(s: State, t: nat, choice: Choice)
    requires t < |s.threads| && s.threads[t].InterruptRead? && Open(s, s.threads[t], choice) && !choice.Fail?
    ensures
      var s' := ActStep(s, t, choice);
      && s'.threads[t].InterruptSeen? && s'.threads[t].deleting == s.threads[t].deleting
      && s'.threads[t].running == Running(s) && s'.row == s.row
  {
  }

  // ----- one thread by itself ------------------------------------------------------------

  /** Where a thread's own steps lead, if each of them can be taken. */
  function Alone(s: State, t: nat, choices: seq<Choice>): Option<State>
    decreases |choices|
  {
    if choices == [] then Some(s)
    else if Enabled(s, Act(t, choices[0])) then Alone(Next(s, Act(t, choices[0])), t, choices[1..])
    else None
  }

  /** A call succeeds, and nothing unusual happens. */
  predicate Smooth(choice: Choice) { choice.Go? || choice.Put? || choice.Offer? }

  predicate AllSmooth(choices: seq<Choice>) {
    forall i | 0 <= i < |choices| :: Smooth(choices[i])
  }

  /** The thread by itself, when its calls succeed, gets from `s` to `s'`. */
  ghost predicate Leads(s: State, t: nat, s': State) {
    exists choices :: AllSmooth(choices) && Alone(s, t, choices) == Some(s')
  }

  lemma LeadsThere(s: State, t: nat, choice: Choice)
    requires Enabled(s, Act(t, choice)) && Smooth(choice)
    ensures Leads(s, t, Next(s, Act(t, choice)))
  {
    var s' := Next(s, Act(t, choice));
    assert Alone(s', t, []) == Some(s') && [choice][1..] == [];
    assert Alone(s, t, [choice]) == Some(s') && AllSmooth([choice]);
  }

  lemma {:induction false} AloneConcat(s: State, t: nat, a: seq<Choice>, b: seq<Choice>)
    requires Alone(s, t, a).Some?
    ensures Alone(s, t, a + b) == Alone(Alone(s, t, a).value, t, b)
    decreases |a|
  {
    if a == [] {
      assert a + b == b;
    } else {
      assert (a + b)[1..] == a[1..] + b;
      AloneConcat(Next(s, Act(t, a[0])), t, a[1..], b);
    }
  }

  lemma LeadsOn(s: State, t: nat, a: State, b: State)
    requires Leads(s, t, a) && Leads(a, t, b)
    ensures Leads(s, t, b)
  {
    var first :| AllSmooth(first) && Alone(s, t, first) == Some(a);
    var second :| AllSmooth(second) && Alone(a, t, second) == Some(b);
    AloneConcat(s, t, first, second);
    assert AllSmooth(first + second);
  }

  lemma InputLeads(s: State, t: nat)
    requires t < |s.threads|
    requires var pc := s.threads[t]; pc.InputRead? || pc.InputSeen? || pc.InputAttaching?
    ensures Leads(s, t, ActInput(s, t, Go))
  {
    LeadsThere(s, t, Go);
  }

  lemma DrainLeads(s: State, t: nat)
    requires t < |s.threads| && (s.threads[t].DrainRead? || s.threads[t].DrainSeen? || s.threads[t].DrainClaimed?)
    ensures Leads(s, t, ActDrain(s, t, Go))
  {
    LeadsThere(s, t, Go);
  }

  lemma ChainLeads(s: State, t: nat)
    requires t < |s.threads|
    requires var pc := s.threads[t]; pc.ChainRead? || pc.ChainSeen? || pc.ChainCompleted?
    ensures Leads(s, t, ActChain(s, t, Go))
  {
    LeadsThere(s, t, Go);
  }

  lemma TurnLeads(s: State, t: nat, choice: Choice)
    requires t < |s.threads| && IsTurn(s.threads[t]) && Open(s, s.threads[t], choice) && Smooth(choice)
    ensures Leads(s, t, ActTurn(s, t, choice))
  {
    LeadsThere(s, t, choice);
  }

  lemma BranchLeads(s: State, t: nat)
    requires t < |s.threads| && IsBranch(s.threads[t])
    ensures Leads(s, t, ActBranch(s, t, Go))
  {
    LeadsThere(s, t, Go);
  }

  lemma AddLeads(s: State, t: nat, choice: Choice)
    requires t < |s.threads| && (s.threads[t].AddRead? || s.threads[t].AddSeen? || s.threads[t].AddQueued?)
    requires Open(s, s.threads[t], choice) && Smooth(choice)
    ensures Leads(s, t, ActOther(s, t, choice))
  {
    LeadsThere(s, t, choice);
  }

  /** The turn that thread `t` has started in an idle session. */
  predicate Opened(s: State, row: Row, t: nat, origin: Origin) {
    s.row == Some(Started(row)) && t < |s.threads| && s.threads[t] == TurnOpen(origin)
  }

  predicate IdleAt(s: State, t: nat, pc: Pc) {
    s.row.Some? && !s.row.value.isrunning && t < |s.threads| && s.threads[t] == pc
  }

  lemma StartOpens(s: State, t: nat, origin: Origin) returns (s': State)
    requires IdleAt(s, t, TurnStart(origin))
    ensures Leads(s, t, s') && Opened(s', s.row.value, t, origin) && s'.queue == s.queue && s'.guard == s.guard
  {
    s' := ActTurn(s, t, Go);
    TurnLeads(s, t, Go);
  }

  lemma InputIsAdmitted(s: State, t: nat) returns (s': State)
    requires IdleAt(s, t, InputRead) && !s.guard
    ensures Leads(s, t, s') && IdleAt(s', t, InputAttaching) && s'.row == s.row
  {
    var seen := ActInput(s, t, Go);
    InputLeads(s, t);
    s' := ActInput(seen, t, Go);
    InputLeads(seen, t);
    LeadsOn(s, t, seen, s');
  }

  lemma InputTakesGuard(s: State, t: nat) returns (s': State)
    requires IdleAt(s, t, InputAttaching)
    ensures Leads(s, t, s') && IdleAt(s', t, TurnStart(FromInput)) && s'.row == s.row && s'.guard
  {
    s' := ActInput(s, t, Go);
    InputLeads(s, t);
  }

  /** An input to an idle session whose guard is free starts its turn, with the guard taken. */
  lemma InputStartsTurn(s: State, t: nat) returns (s': State)
    requires IdleAt(s, t, InputRead) && !s.guard
    ensures Leads(s, t, s') && Opened(s', s.row.value, t, FromInput) && s'.guard
  {
    var admitted := InputIsAdmitted(s, t);
    var taken := InputTakesGuard(admitted, t);
    s' := StartOpens(taken, t, FromInput);
    LeadsOn(admitted, t, taken, s');
    LeadsOn(s, t, admitted, s');
  }

  /** An input to a session that is gone or running, or whose guard is taken, is dropped. */
  lemma InputIsRefused(s: State, t: nat)
    requires t < |s.threads| && s.threads[t] == InputRead && (s.row.None? || Running(s) || s.guard)
    ensures Leads(s, t, At(s, t, Done))
  {
    var seen := ActInput(s, t, Go);
    InputLeads(s, t);
    InputLeads(seen, t);
    assert ActInput(seen, t, Go).threads == At(s, t, Done).threads;
    assert ActInput(seen, t, Go) == At(s, t, Done);
    LeadsOn(s, t, seen, At(s, t, Done));
  }

  lemma ChainGoesToTurn(s: State, t: nat, request: Request, number: nat) returns (s': State)
    requires IdleAt(s, t, ChainRead(request, number))
    ensures Leads(s, t, s') && IdleAt(s', t, TurnStart(FromChain(request, number)))
    ensures s'.row == s.row && s'.queue == s.queue && s'.guard == s.guard
  {
    var seen := ActChain(s, t, Go);
    ChainLeads(s, t);
    s' := ActChain(seen, t, Go);
    ChainLeads(seen, t);
    LeadsOn(s, t, seen, s');
  }

  /** A request that a chain is to run next gets its turn if the session is idle. */
  lemma ChainStartsTurn(s: State, t: nat, request: Request, number: nat) returns (s': State)
    requires IdleAt(s, t, ChainRead(request, number))
    ensures Leads(s, t, s') && Opened(s', s.row.value, t, FromChain(request, number))
    ensures s'.queue == s.queue && s'.guard == s.guard
  {
    var starting := ChainGoesToTurn(s, t, request, number);
    s' := StartOpens(starting, t, FromChain(request, number));
    LeadsOn(s, t, starting, s');
  }

  lemma DrainClaims(s: State, t: nat, id: string) returns (s': State)
    requires IdleAt(s, t, DrainRead) && ClaimedId(s.queue) == Some(id)
    ensures Leads(s, t, s') && IdleAt(s', t, DrainClaimed(id))
    ensures s'.row == s.row && s'.queue == AfterClaim(s.queue, CLAIM_TIME) && s'.guard == s.guard
  {
    var seen := ActDrain(s, t, Go);
    DrainLeads(s, t);
    s' := ActDrain(seen, t, Go);
    DrainLeads(seen, t);
    LeadsOn(s, t, seen, s');
  }

  lemma DrainLaunches(s: State, t: nat, id: string) returns (s': State)
    requires IdleAt(s, t, DrainClaimed(id))
    ensures Leads(s, t, s') && IdleAt(s', t, ChainRead(Request(Some(id)), 1))
    ensures s'.row == s.row && s'.queue == s.queue && s'.guard == s.guard
  {
    s' := ActDrain(s, t, Go);
    DrainLeads(s, t);
  }

  /** A drain of an idle session runs the first request that can run. */
  lemma DrainStartsTurn(s: State, t: nat, id: string) returns (s': State)
    requires IdleAt(s, t, DrainRead) && ClaimedId(s.queue) == Some(id)
    ensures Leads(s, t, s') && Opened(s', s.row.value, t, FromChain(Request(Some(id)), 1))
    ensures s'.queue == AfterClaim(s.queue, CLAIM_TIME) && s'.guard == s.guard
  {
    var claimed := DrainClaims(s, t, id);
    var launched := DrainLaunches(claimed, t, id);
    s' := ChainStartsTurn(launched, t, Request(Some(id)), 1);
    LeadsOn(claimed, t, launched, s');
    LeadsOn(s, t, claimed, s');
  }

  lemma OnlyItemIsClaimed(item: Item)
    requires item.Runnable()
    ensures ClaimedId(InsertedAt([], 0, item)) == Some(item.itemid)
  {
    assert InsertedAt([], 0, item) == [item];
    assert Pruned([item]) == [item];
  }

  lemma RequestIsQueued(s: State, t: nat, item: Item) returns (s': State)
    requires IdleAt(s, t, AddRead) && s.queue == [] && item.Runnable() && item.itemid !in s.used
    ensures Leads(s, t, s') && IdleAt(s', t, AddQueued(false)) && ClaimedId(s'.queue) == Some(item.itemid)
    ensures s'.row == s.row && s'.guard == s.guard
  {
    var seen := ActOther(s, t, Go);
    AddLeads(s, t, Go);
    s' := ActOther(seen, t, Put(item));
    AddLeads(seen, t, Put(item));
    LeadsOn(s, t, seen, s');
    OnlyItemIsClaimed(item);
  }

  lemma DrainIsStarted(s: State, t: nat) returns (s': State)
    requires IdleAt(s, t, AddQueued(false)) && !s.guard
    ensures Leads(s, t, s') && IdleAt(s', t, DrainRead) && s'.guard
    ensures s'.row == s.row && s'.queue == s.queue
  {
    s' := ActOther(s, t, Go);
    AddLeads(s, t, Go);
  }

  /** A request queued for an idle session with nothing queued and the guard free gets its turn. */
  lemma QueuedRequestStartsTurn(s: State, t: nat, item: Item) returns (s': State)
    requires IdleAt(s, t, AddRead) && s.queue == [] && !s.guard
    requires item.Runnable() && item.itemid !in s.used
    ensures Leads(s, t, s') && Opened(s', s.row.value, t, FromChain(Request(Some(item.itemid)), 1)) && s'.guard
  {
    var queued := RequestIsQueued(s, t, item);
    var draining := DrainIsStarted(queued, t);
    s' := DrainStartsTurn(draining, t, item.itemid);
    LeadsOn(queued, t, draining, s');
    LeadsOn(s, t, queued, s');
  }

  // ----- a turn --------------------------------------------------------------------------

  lemma TurnRegisters(s: State, t: nat, origin: Origin) returns (s': State)
    requires t < |s.threads| && s.threads[t] == TurnOpen(origin)
    ensures Leads(s, t, s') && t < |s'.threads| && s'.threads[t] == TurnLive(origin)
    ensures s'.scope == Some(t) && s'.row == s.row && s'.queue == s.queue
  {
    s' := ActTurn(s, t, Go);
    TurnLeads(s, t, Go);
  }

  /** A turn that was started registers for interrupts and runs to its end, which leaves the session
      idle; if the turn has seen an interrupt, its end completes the interrupt. */
  lemma TurnRunsToItsEnd(s: State, t: nat, origin: Origin) returns (live: State, over: State)
    requires t < |s.threads| && s.threads[t] == TurnOpen(origin) && s.row.Some?
    ensures Leads(s, t, live) && live.scope == Some(t) && live.row == s.row
    ensures Leads(live, t, over) && IdleAt(over, t, TurnEnded(origin, 1)) && over.queue == s.queue
    ensures over.row == Some(Ended(s.row.value))
    ensures Enabled(live, Act(t, Interrupted))
    ensures Next(live, Act(t, Interrupted)).row == Some(InterruptDone(s.row.value, 0))
  {
    live := TurnRegisters(s, t, origin);
    over := ActTurn(live, t, Go);
    TurnLeads(live, t, Go);
    assert Next(live, Act(t, Interrupted)) == ActTurn(live, t, Interrupted);
  }

  // ----- after a turn --------------------------------------------------------------------

  /** The hooks at the end of a turn take the next queued request, or offer one of their own. */
  lemma NextIsTaken(s: State, t: nat, origin: Origin, ends: nat, next: Request) returns (s': State)
    requires IdleAt(s, t, TurnEnded(origin, ends)) && ClaimedId(s.queue) == next.claim
    ensures Leads(s, t, s') && IdleAt(s', t, TurnDone(origin, Some(next)))
    ensures s'.row == s.row && s'.queue == AfterClaim(s.queue, CLAIM_TIME)
  {
    var choice := if next.claim.Some? then Go else Offer;
    s' := ActTurn(s, t, choice);
    TurnLeads(s, t, choice);
  }

  lemma ItemIsCompleted(s: State, t: nat, id: string, number: nat, next: Option<Request>) returns (s': State)
    requires IdleAt(s, t, TurnDone(FromChain(Request(Some(id)), number), next)) && id in Ids(s.queue)
    ensures Leads(s, t, s') && IdleAt(s', t, ChainCompleted(number, true, next))
    ensures s'.row == s.row && s'.queue == Without(s.queue, id)
  {
    s' := ActTurn(s, t, Go);
    TurnLeads(s, t, Go);
  }

  lemma ChainGoesOn(s: State, t: nat, number: nat, next: Request) returns (s': State)
    requires IdleAt(s, t, ChainCompleted(number, true, Some(next))) && number < MAX_TRIGGERED
    ensures Leads(s, t, s') && IdleAt(s', t, ChainRead(next, number + 1))
    ensures s'.row == s.row && s'.queue == s.queue
  {
    s' := ActChain(s, t, Go);
    ChainLeads(s, t);
  }

  /** The number of the turn that follows: an input's turn begins a chain. */
  function NumberAfter(origin: Origin): nat {
    if origin.FromInput? then 1 else origin.number + 1
  }

  /** The queue without the item whose turn is over. */
  function Completed(q: seq<Item>, origin: Origin): seq<Item> {
    if OriginClaim(origin).Some? then Without(q, OriginClaim(origin).value) else q
  }

  lemma TurnIsLeft(s: State, t: nat, origin: Origin, next: Request) returns (s': State)
    requires IdleAt(s, t, TurnDone(origin, Some(next))) && NumberAfter(origin) <= MAX_TRIGGERED
    requires OriginClaim(origin).Some? ==> OriginClaim(origin).value in Ids(s.queue)
    ensures Leads(s, t, s') && IdleAt(s', t, ChainRead(next, NumberAfter(origin)))
    ensures s'.row == s.row && s'.queue == Completed(s.queue, origin)
  {
    if OriginClaim(origin).Some? {
      assert origin == FromChain(Request(Some(origin.request.claim.value)), origin.number);
      var completed := ItemIsCompleted(s, t, origin.request.claim.value, origin.number, Some(next));
      s' := ChainGoesOn(completed, t, origin.number, next);
      LeadsOn(s, t, completed, s');
    } else {
      s' := ActTurn(s, t, Go);
      TurnLeads(s, t, Go);
    }
  }

  /** Whatever turn it was, the request taken at its end gets the next turn in an idle session, and
      the item of the turn that is over is gone. */
  lemma NextRequestStartsTurn(s: State, t: nat, origin: Origin, ends: nat, next: Request) returns (s': State)
    requires IdleAt(s, t, TurnEnded(origin, ends)) && NumberAfter(origin) <= MAX_TRIGGERED
    requires UniqueIds(s.queue) && One(OriginClaim(origin)) <= ClaimedIds(s.queue)
    requires ClaimedId(s.queue) == next.claim
    ensures Leads(s, t, s') && Opened(s', s.row.value, t, FromChain(next, NumberAfter(origin)))
    ensures s'.queue == Completed(AfterClaim(s.queue, CLAIM_TIME), origin)
  {
    ClaimKeepsClaimed(s.queue);
    var taken := NextIsTaken(s, t, origin, ends, next);
    assert OriginClaim(origin).Some? ==> OriginClaim(origin).value in One(OriginClaim(origin));
    var reading := TurnIsLeft(taken, t, origin, next);
    s' := ChainStartsTurn(reading, t, next, NumberAfter(origin));
    LeadsOn(taken, t, reading, s');
    LeadsOn(s, t, taken, s');
  }

  // ----- branching off -------------------------------------------------------------------

  lemma BranchIsStarted(s: State, t: nat) returns (s': State)
    requires IdleAt(s, t, BranchCreated)
    ensures Leads(s, t, s') && t < |s'.threads|
    ensures s'.threads[t] == BranchStarted && s'.row == Some(Started(s.row.value))
  {
    s' := ActBranch(s, t, Go);
    BranchLeads(s, t);
  }

  lemma BranchIsLaunched(s: State, t: nat) returns (s': State)
    requires t < |s.threads| && s.threads[t].BranchStarted? && s.row.Some?
    ensures Leads(s, t, s') && t < |s'.threads|
    ensures s'.threads[t] == BranchLive && s'.row == Some(InPhase(s.row.value, "compacting"))
  {
    var phased := ActBranch(s, t, Go);
    BranchLeads(s, t);
    s' := ActBranch(phased, t, Go);
    BranchLeads(phased, t);
    LeadsOn(s, t, phased, s');
  }

  lemma BranchIsOver(s: State, t: nat) returns (s': State)
    requires t < |s.threads| && s.threads[t].BranchLive? && s.row.Some?
    ensures Leads(s, t, s') && t < |s'.threads| && s'.threads[t] == Done && s'.row == Some(Ended(s.row.value))
  {
    s' := ActBranch(s, t, Go);
    BranchLeads(s, t);
  }

  /** The message that branches a session off leaves it running as compacting, and then idle again. */
  lemma BranchCompacts(s: State, t: nat) returns (compacting: State, over: State)
    requires IdleAt(s, t, BranchCreated)
    ensures Leads(s, t, compacting) && compacting.row == Some(InPhase(Started(s.row.value), "compacting"))
    ensures Leads(compacting, t, over) && IdleAt(over, t, Done) && over.row.value == Ended(compacting.row.value)
  {
    var started := BranchIsStarted(s, t);
    compacting := BranchIsLaunched(started, t);
    LeadsOn(s, t, started, compacting);
    over := BranchIsOver(compacting, t);
  }
}
