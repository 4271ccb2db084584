/** One session's turn scheduler as a machine of interleaved steps.

    Every asynchronous handler of the session is a thread; a step runs one thread from one
    `await` to the next. A read of the session row and the code that acts on the value read are
    two steps, so what a thread has read may be stale by the time it acts. All shared state is
    kept per session, so one session is modelled. */
module TurnScheduler {
  import opened JsText
  import opened RequestQueue
  import opened SessionRow

  /** A follow-up request; `claim` is the queue item it was claimed from, if any. */
  datatype Request = Request(claim: Option<string>)

  /** Who runs a turn: a client's input message, or turn `number` of a chain running `request`. */
  datatype Origin = FromInput | FromChain(request: Request, number: nat)

  /** Where a thread stands. */
  datatype Pc =
    // a client's input message
    | InputRead
    | InputSeen(found: bool, running: bool)
    | InputAttaching
    // the drain that claims queued requests
    | DrainRead
    | DrainSeen(found: bool, running: bool)
    | DrainClaimed(itemid: string)
    // a chain of follow-up turns, between two turns
    | ChainRead(request: Request, number: nat)
    | ChainSeen(request: Request, number: nat, found: bool, running: bool)
    | ChainCompleted(number: nat, completed: bool, next: Option<Request>)
    // a turn
    | TurnStart(origin: Origin)
    | TurnOpen(origin: Origin)
    | TurnLive(origin: Origin)
    | TurnFailed(origin: Origin)
    | TurnEnded(origin: Origin, ends: nat)
    | TurnDone(origin: Origin, next: Option<Request>)
    // waiting for the last broadcast before the run guard is released
    | Closing(restart: bool)
    // a client's queue-add message
    | AddRead
    | AddSeen(found: bool, running: bool)
    | AddQueued(running: bool)
    // a client's interrupt message, or the interrupt a session deletion sends first
    | InterruptRead(deleting: bool)
    | InterruptSeen(deleting: bool, found: bool, running: bool, compacting: bool)
    | InterruptAsking
    | InterruptAsked
    | InterruptAnswered(accepted: bool)
    // the message that branches a session off, and the compaction that fills it
    | BranchCreated
    | BranchStarted
    | BranchPhased
    | BranchLive
    | BranchFailed(ended: bool)
    | Done

  datatype State = State(
    row: Option<Row>,          // None once the session is deleted
    scope: Option<nat>,        // the thread whose turn is registered as interruptible
    queue: seq<Item>,
    used: set<string>,         // ids ever queued; random ids are never used twice
    guard: bool,               // the session is in the set of running queue drains
    threads: seq<Pc>)

  /** How an awaited call of a thread turns out, or which way its code goes on. */
  datatype Choice =
    | Go                           // as usual
    | Fail                         // the awaited call throws
    | Interrupted                  // the turn sees an interrupt, and ends by completing it
    | EndTwice(interrupted: bool)  // the event after the end of a turn throws, the failure path ends it again
    | GiveUp                       // the failure path throws as well, and with it the turn
    | Offer                        // some other hook offers a request of its own
    | Phase(phase: string)
    | Put(item: Item)

  datatype Step =
    | Spawn(pc: Pc)
    | Act(t: nat, choice: Choice)
    | DeleteItem(itemid: string)
    | EditItem(itemid: string, edit: Edit)
    | ClearQueue
    | InsertItem(position: Position, item: Item)   // a tool of a running turn, through the bridge
    | DeleteSession

  const MAX_TRIGGERED: nat := 100
  const CLAIM_TIME := "now"

  // ----- pieces of a step ----------------------------------------------------------------

  function At(s: State, t: nat, pc: Pc): State
    requires t < |s.threads|
  {
    s.(threads := s.threads[t := pc])
  }

  /** Takes the guard and starts a drain, unless the guard is taken. */
  function StartDrain(s: State, t: nat): State
    requires t < |s.threads|
  {
    if s.guard then At(s, t, Done) else At(s, t, DrainRead).(guard := true)
  }

  /** Drops the guard; the last act of a launched run is to start a drain if anything is queued. */
  function Finish(s: State, t: nat, restart: bool): State
    requires t < |s.threads|
  {
    var freed := s.(guard := false);
    if restart && s.queue != [] then StartDrain(freed, t) else At(freed, t, Done)
  }

  function ReleaseClaim(s: State, request: Request): State {
    if request.claim.Some? then s.(queue := Released(s.queue, request.claim.value)) else s
  }

  /** A turn body that throws without a result: the chain gives its claim back, an input frees the guard. */
  function Rethrow(s: State, t: nat, origin: Origin): State
    requires t < |s.threads|
  {
    match origin
    case FromInput => Finish(s, t, true)
    case FromChain(request, _) => At(ReleaseClaim(s, request), t, Closing(true))
  }

  function CloseScope(s: State, t: nat): State {
    if s.scope == Some(t) then s.(scope := None) else s
  }

  function SetRow(s: State, row: Row): State {
    s.(row := Some(row))
  }

  /** The row after the end of a turn, which completes the interrupt if the turn was interrupted. */
  function Closed(row: Row, interrupted: bool): Row {
    if interrupted then InterruptDone(row, 0) else Ended(row)
  }

  predicate Running(s: State) { s.row.Some? && s.row.value.isrunning }

  /** Only thread `t` has moved. */
  ghost predicate OnlyMoves(s: State, s': State, t: nat) {
    && t < |s.threads| == |s'.threads|
    && forall i | 0 <= i < |s.threads| && i != t :: s'.threads[i] == s.threads[i]
  }

  // ----- one thread, one step ------------------------------------------------------------

  predicate IsBranch(pc: Pc) {
    pc.BranchCreated? || pc.BranchStarted? || pc.BranchPhased? || pc.BranchLive? || pc.BranchFailed?
  }

  /** The choices open to a thread. */
  predicate Open(s: State, pc: Pc, choice: Choice) {
    match choice
    case Go => pc != Done && !pc.AddSeen?
    case Fail =>
      || pc.InputRead? || pc.InputAttaching? || pc.DrainRead? || pc.DrainClaimed? || pc.ChainRead?
      || pc.ChainCompleted? || pc.TurnStart? || pc.TurnOpen? || pc.TurnLive? || pc.TurnEnded? || pc.AddRead?
      || pc.AddSeen? || pc.AddQueued? || pc.InterruptRead? || pc.InterruptAsking? || pc.InterruptAnswered?
      || IsBranch(pc)
    case Interrupted => pc.TurnLive?
    case EndTwice(_) => pc.TurnEnded? && pc.ends < 3
    case GiveUp => pc.TurnEnded? || pc.BranchLive?
    case Offer => pc.TurnEnded?
    case Phase(_) => pc.TurnLive? || pc.InterruptAsking?
    case Put(item) => pc.AddSeen? && pc.found && item.itemid !in s.used && !item.Claimed()
  }

  function ActInput(s: State, t: nat, choice: Choice): (r: State)
    ensures OnlyMoves(s, r, t)
    requires t < |s.threads| && Open(s, s.threads[t], choice)
    requires var pc := s.threads[t]; pc.InputRead? || pc.InputSeen? || pc.InputAttaching?
  {
    match s.threads[t]
    case InputRead => At(s, t, if choice.Fail? then Done else InputSeen(s.row.Some?, Running(s)))
    case InputSeen(found, running) =>
      if !found || running || s.guard then At(s, t, Done) else At(s, t, InputAttaching)
    case InputAttaching =>
      if choice.Fail? then At(s, t, Done) else At(s, t, TurnStart(FromInput)).(guard := true)
  }

  function ActDrain(s: State, t: nat, choice: Choice): (r: State)
    ensures OnlyMoves(s, r, t)
    requires t < |s.threads| && Open(s, s.threads[t], choice)
    requires var pc := s.threads[t]; pc.DrainRead? || pc.DrainSeen? || pc.DrainClaimed? || pc.Closing?
  {
    match s.threads[t]
    case DrainRead =>
      if choice.Fail? then Finish(s, t, false) else At(s, t, DrainSeen(s.row.Some?, Running(s)))
    case DrainSeen(found, running) =>
      if !found then At(s, t, Closing(false)).(queue := [])
      else if running then Finish(s, t, false)
      else
        var claim := Claim(s.queue, CLAIM_TIME);
        At(s, t, if claim.Some? then DrainClaimed(claim.value.itemid) else Closing(false))
          .(queue := AfterClaim(s.queue, CLAIM_TIME))
    case DrainClaimed(itemid) =>
      if choice.Fail? then Finish(s, t, false) else At(s, t, ChainRead(Request(Some(itemid)), 1))
    case Closing(restart) => Finish(s, t, restart)
  }

  /** What a chain does after a completed turn. */
  function GoOn(s: State, t: nat, number: nat, next: Option<Request>): State
    requires t < |s.threads|
  {
    if next.None? then Finish(s, t, true)
    else if number >= MAX_TRIGGERED then At(ReleaseClaim(s, next.value), t, Closing(true))
    else At(s, t, ChainRead(next.value, number + 1))
  }

  function ActChain(s: State, t: nat, choice: Choice): (r: State)
    ensures OnlyMoves(s, r, t)
    requires t < |s.threads| && Open(s, s.threads[t], choice)
    requires var pc := s.threads[t]; pc.ChainRead? || pc.ChainSeen? || pc.ChainCompleted?
  {
    match s.threads[t]
    case ChainRead(request, number) =>
      if choice.Fail? then Finish(s, t, true)
      else At(s, t, ChainSeen(request, number, s.row.Some?, Running(s)))
    case ChainSeen(request, number, found, running) =>
      if !found || running then At(ReleaseClaim(s, request), t, Closing(true))
      else At(s, t, TurnStart(FromChain(request, number)))
    case ChainCompleted(number, completed, next) =>
      if choice.Fail? || !completed then Finish(s, t, true) else GoOn(s, t, number, next)
  }

  function ActTurn(s: State, t: nat, choice: Choice): (r: State)
    ensures OnlyMoves(s, r, t)
    requires t < |s.threads| && Open(s, s.threads[t], choice)
    requires
      var pc := s.threads[t];
      pc.TurnStart? || pc.TurnOpen? || pc.TurnLive? || pc.TurnFailed? || pc.TurnEnded? || pc.TurnDone?
  {
    match s.threads[t]
    case TurnStart(origin) =>
      if s.row.Some? && !s.row.value.isrunning && !choice.Fail?
      then SetRow(At(s, t, TurnOpen(origin)), Started(s.row.value))
      else At(s, t, TurnFailed(origin))
    case TurnOpen(origin) =>
      if choice.Fail? then At(s, t, TurnFailed(origin)) else At(s, t, TurnLive(origin)).(scope := Some(t))
    case TurnLive(origin) =>
      if choice.Fail? || s.row.None? then CloseScope(At(s, t, TurnFailed(origin)), t)
      else if choice.Phase? then SetRow(s, InPhase(s.row.value, choice.phase))
      else SetRow(At(s, t, TurnEnded(origin, 1)), Closed(s.row.value, choice.Interrupted?))
    case TurnFailed(origin) => Rethrow(s, t, origin)
    case TurnEnded(origin, ends) =>
      if choice.EndTwice? then
        if s.row.None? then CloseScope(At(s, t, TurnFailed(origin)), t)
        else SetRow(At(s, t, TurnEnded(origin, ends + 1)), Closed(s.row.value, choice.interrupted))
      else if choice.GiveUp? then CloseScope(At(s, t, TurnFailed(origin)), t)
      else
        var claim := Claim(s.queue, CLAIM_TIME);
        var next :=
          if claim.Some? then (if choice.Fail? then None else Some(Request(Some(claim.value.itemid))))
          else if choice.Offer? then Some(Request(None)) else None;
        CloseScope(At(s, t, TurnDone(origin, next)), t).(queue := AfterClaim(s.queue, CLAIM_TIME))
    case TurnDone(origin, next) =>
      match origin
      case FromInput =>
        if next.None? then Finish(s, t, true) else At(s, t, ChainRead(next.value, 1))
      case FromChain(request, number) =>
        if request.claim.None? then GoOn(s, t, number, next)
        else
          var id := request.claim.value;
          At(s, t, ChainCompleted(number, IndexOfId(s.queue, id) < |s.queue|, next))
            .(queue := Without(s.queue, id))
  }

  function ActOther(s: State, t: nat, choice: Choice): (r: State)
    ensures OnlyMoves(s, r, t)
    requires t < |s.threads| && Open(s, s.threads[t], choice) && !IsBranch(s.threads[t])
  {
    match s.threads[t]
    case AddRead => At(s, t, if choice.Fail? then Done else AddSeen(s.row.Some?, Running(s)))
    case AddSeen(found, running) =>
      if choice.Put? then
        At(s, t, AddQueued(running))
          .(queue := Inserted(s.queue, End, choice.item), used := s.used + {choice.item.itemid})
      else At(s, t, Done)
    case AddQueued(running) => if choice.Fail? || running then At(s, t, Done) else StartDrain(s, t)
    case InterruptRead(deleting) =>
      if choice.Fail? then At(s, t, Done)
      else
        var compacting := s.row.Some? && s.row.value.turnphase == "compacting";
        At(s, t, InterruptSeen(deleting, s.row.Some?, Running(s), compacting))
    case InterruptSeen(deleting, found, running, compacting) =>
      if !found || (if deleting then !running else compacting || (!running && s.scope.None?))
      then At(s, t, Done)
      else At(s, t, InterruptAsking)
    case InterruptAsking =>
      if s.row.None? || choice.Fail? then At(s, t, Done)
      else
        var phase := if choice.Phase? then Some(choice.phase) else None;
        SetRow(At(s, t, InterruptAsked), SessionRow.InterruptAsked(s.row.value, phase, 0))
    case InterruptAsked => At(s, t, InterruptAnswered(s.scope.Some?))
    case InterruptAnswered(accepted) =>
      if accepted || s.row.None? || choice.Fail? then At(s, t, Done)
      else SetRow(At(s, t, Done), InterruptDone(s.row.value, 0))
    case _ => s
  }

  /** A branched session is started and marked as compacting, clients are told, and only then is its
      compaction launched. The compaction ends the turn; if it fails, or an event after its end throws,
      the failure path ends the turn again, and either end may fail to reach the row. */
  function ActBranch(s: State, t: nat, choice: Choice): (r: State)
    ensures OnlyMoves(s, r, t)
    requires t < |s.threads| && Open(s, s.threads[t], choice) && IsBranch(s.threads[t])
  {
    match s.threads[t]
    case BranchCreated =>
      if choice.Fail? || s.row.None? || s.row.value.isrunning then At(s, t, Done)
      else SetRow(At(s, t, BranchStarted), Started(s.row.value))
    case BranchStarted =>
      if choice.Fail? || s.row.None? then At(s, t, Done)
      else SetRow(At(s, t, BranchPhased), InPhase(s.row.value, "compacting"))
    case BranchPhased => At(s, t, if choice.Fail? then Done else BranchLive)
    case BranchLive =>
      if choice.GiveUp? || s.row.None? then At(s, t, BranchFailed(false))
      else SetRow(At(s, t, if choice.Fail? then BranchFailed(true) else Done), Ended(s.row.value))
    case BranchFailed(_) =>
      if choice.Fail? || s.row.None? then At(s, t, Done) else SetRow(At(s, t, Done), Ended(s.row.value))
  }

  function ActStep(s: State, t: nat, choice: Choice): (r: State)
    ensures OnlyMoves(s, r, t)
    requires t < |s.threads| && Open(s, s.threads[t], choice)
  {
    var pc := s.threads[t];
    if pc.InputRead? || pc.InputSeen? || pc.InputAttaching? then ActInput(s, t, choice)
    else if pc.DrainRead? || pc.DrainSeen? || pc.DrainClaimed? || pc.Closing? then ActDrain(s, t, choice)
    else if pc.ChainRead? || pc.ChainSeen? || pc.ChainCompleted? then ActChain(s, t, choice)
    else if pc.TurnStart? || pc.TurnOpen? || pc.TurnLive? || pc.TurnFailed? || pc.TurnEnded? || pc.TurnDone?
    then ActTurn(s, t, choice)
    else if IsBranch(pc) then ActBranch(s, t, choice)
    else ActOther(s, t, choice)
  }

  // ----- steps and runs ------------------------------------------------------------------

  predicate Enabled(s: State, step: Step) {
    match step
    case Spawn(pc) => pc.InputRead? || pc.AddRead? || pc.InterruptRead?
    case Act(t, choice) => t < |s.threads| && Open(s, s.threads[t], choice)
    case InsertItem(_, item) => item.itemid !in s.used && !item.Claimed()
    case _ => true
  }

  function Next(s: State, step: Step): (r: State)
    requires Enabled(s, step)
    ensures |s.threads| <= |r.threads|
  {
    match step
    case Spawn(pc) => s.(threads := s.threads + [pc])
    case Act(t, choice) => ActStep(s, t, choice)
    case DeleteItem(itemid) => s.(queue := Without(s.queue, itemid))
    case EditItem(itemid, edit) => s.(queue := Edited(s.queue, itemid, edit, CLAIM_TIME))
    case ClearQueue => s.(queue := [])
    case InsertItem(position, item) =>
      s.(queue := Inserted(s.queue, position, item), used := s.used + {item.itemid})
    case DeleteSession => s.(row := None)
  }

  predicate Runs(s: State, steps: seq<Step>)
    decreases |steps|
  {
    steps == [] || (Enabled(s, steps[0]) && Runs(Next(s, steps[0]), steps[1..]))
  }

  function Outcome(s: State, steps: seq<Step>): State
    requires Runs(s, steps)
    decreases |steps|
  {
    if steps == [] then s else Outcome(Next(s, steps[0]), steps[1..])
  }

  lemma Prepend(s: State, step: Step, s': State, rest: seq<Step>)
    requires Enabled(s, step) && s' == Next(s, step) && Runs(s', rest)
    ensures Runs(s, [step] + rest) && Outcome(s, [step] + rest) == Outcome(s', rest)
  {
    assert ([step] + rest)[1..] == rest;
  }

  lemma {:induction false} Append(s: State, a: seq<Step>, b: seq<Step>)
    requires Runs(s, a) && Runs(Outcome(s, a), b)
    ensures Runs(s, a + b) && Outcome(s, a + b) == Outcome(Outcome(s, a), b)
    decreases |a|
  {
    if a == [] {
      assert a + b == b;
    } else {
      assert (a + b)[1..] == a[1..] + b;
      Append(Next(s, a[0]), a[1..], b);
    }
  }

  /** A session just created, by a client or by the message that branches it off another. */
  const FRESH := State(Some(IDLE_ROW), None, [], {}, false, [])
  const BRANCHED := State(Some(IDLE_ROW), None, [], {}, false, [BranchCreated])

  predicate Initial(s: State) { s == FRESH || s == BRANCHED }
}
