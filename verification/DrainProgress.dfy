/** The drain loop stops, unless a request comes back to it over and over.

    Without new messages and new items, the number of steps is bounded by the queue length and by
    where the threads stand, as long as no chain sends the first item it was launched with back from
    an idle session. A chain that does so starts an endless run: a drain claims the same item again. */
module DrainProgress {
  import opened JsText
  import opened RequestQueue
  import opened SessionRow
  import opened TurnScheduler
  import opened ClaimLedger

  /** A step of the server alone: no new message, no edit of the queue, no new item; the phases a
      live turn reports are not counted either. */
  predicate Quiet(s: State, step: Step)
    requires Enabled(s, step)
  {
    step.Act? && !step.choice.Put? && !(s.threads[step.t].TurnLive? && step.choice.Phase?)
  }

  /** A chain at its first item, which a drain claimed for it, or the end of an input's turn: no item
      has been completed for it yet. */
  predicate Unpaid(origin: Origin) {
    origin.FromChain? && origin.number <= 1 && origin.request.claim.Some?
  }

  /** A chain at its first item sends it back although the session may be idle: its turn ends and then
      throws, or cannot be started by an idle session. */
  predicate SendsBack(s: State, step: Step)
    requires Enabled(s, step)
  {
    && step.Act?
    && match s.threads[step.t]
       case TurnEnded(origin, _) => Unpaid(origin) && step.choice.GiveUp?
       case TurnStart(origin) => Unpaid(origin) && step.choice.Fail? && IsIdle(s)
       case _ => false
  }

  predicate IsIdle(s: State) { s.row.Some? && !s.row.value.isrunning }

  // ----- ends still to come --------------------------------------------------------------

  const TURN_ENDS: nat := 3

  /** The ends still to come after the turn of this number: those of the turns the chain may go on
      to, and those of one turn of the drain that follows it. */
  function EndsAfter(number: nat): nat {
    TURN_ENDS * (if number < MAX_TRIGGERED then MAX_TRIGGERED - number else 0) + TURN_ENDS
  }

  /** A chain that completes its item makes the queue shorter, which pays for what follows; one
      whose item is gone drains again at no cost. */
  function EndsIfGone(q: seq<Item>, id: string): nat {
    if IndexOfId(q, id) == |q| then TURN_ENDS else 0
  }

  function EndsAfterTurn(q: seq<Item>, origin: Origin): nat {
    if origin.FromInput? then EndsAfter(0)
    else if Unpaid(origin) then EndsIfGone(q, origin.request.claim.value)
    else EndsAfter(origin.number)
  }

  function EndsLeft(ends: nat): nat { if ends <= TURN_ENDS then TURN_ENDS - ends else 0 }

  /** How often a thread can still end a turn of an existing session, while the queue keeps its length. */
  function Ends(pc: Pc, q: seq<Item>): nat {
    match pc
    case InputRead => EndsAfter(0) + TURN_ENDS
    case InputSeen(_, _) => EndsAfter(0) + TURN_ENDS
    case InputAttaching => EndsAfter(0) + TURN_ENDS
    case DrainRead => TURN_ENDS
    case DrainSeen(_, _) => TURN_ENDS
    case DrainClaimed(itemid) => TURN_ENDS + EndsIfGone(q, itemid)
    case ChainRead(request, number) => TURN_ENDS + EndsAfterTurn(q, FromChain(request, number))
    case ChainSeen(request, number, _, _) => TURN_ENDS + EndsAfterTurn(q, FromChain(request, number))
    case ChainCompleted(number, completed, _) => if completed then EndsAfter(number) else TURN_ENDS
    case TurnStart(origin) => TURN_ENDS + EndsAfterTurn(q, origin)
    case TurnOpen(origin) => TURN_ENDS + EndsAfterTurn(q, origin)
    case TurnLive(origin) => TURN_ENDS + EndsAfterTurn(q, origin)
    case TurnEnded(origin, ends) => EndsLeft(ends) + EndsAfterTurn(q, origin)
    case TurnDone(origin, _) => EndsAfterTurn(q, origin)
    case TurnFailed(_) => TURN_ENDS
    case Closing(restart) => if restart then TURN_ENDS else 0
    case AddQueued(_) => TURN_ENDS
    case InterruptRead(_) => 1
    case InterruptSeen(_, _, _, _) => 1
    case InterruptAsking => 1
    case InterruptAsked => 1
    case InterruptAnswered(_) => 1
    case BranchCreated => 2
    case BranchStarted => 2
    case BranchPhased => 2
    case BranchLive => 2
    case BranchFailed(_) => 1
    case _ => 0
  }

  function TotalEnds(threads: seq<Pc>, q: seq<Item>): nat {
    if threads == [] then 0 else Ends(threads[0], q) + TotalEnds(threads[1..], q)
  }

  lemma {:induction false} EndsOfUpdate(threads: seq<Pc>, t: nat, pc: Pc, q: seq<Item>)
    requires t < |threads|
    ensures TotalEnds(threads[t := pc], q) + Ends(threads[t], q) == TotalEnds(threads, q) + Ends(pc, q)
  {
    if t > 0 {
      assert threads[t := pc][1..] == threads[1..][t - 1 := pc];
      EndsOfUpdate(threads[1..], t - 1, pc, q);
    } else {
      assert threads[t := pc][1..] == threads[1..];
    }
  }

  lemma {:induction false} EndsOfOtherQueue(threads: seq<Pc>, q: seq<Item>, q': seq<Item>)
    ensures TotalEnds(threads, q') <= TotalEnds(threads, q) + TURN_ENDS * |threads|
    ensures Ids(q) == Ids(q') ==> TotalEnds(threads, q') == TotalEnds(threads, q)
  {
    if threads != [] {
      EndsOfOtherQueue(threads[1..], q, q');
      assert Ends(threads[0], q') <= Ends(threads[0], q) + TURN_ENDS;
      assert Ids(q) == Ids(q') ==> Ends(threads[0], q') == Ends(threads[0], q);
    }
  }

  // ----- steps between two starts or ends ------------------------------------------------

  const CLAIM_WORTH: nat := 15
  const MOST_LEFT: nat := 27

  /** Bounds the steps a thread can take while nobody starts or ends a turn, the queue keeps its
      length, and a claim pays for itself. An item claimed in an idle session gets its turn started. */
  function Left(pc: Pc, idle: bool): (n: nat)
    ensures n <= MOST_LEFT
  {
    match pc
    case InputRead => 24
    case InputSeen(_, _) => 23
    case InputAttaching => 22
    case DrainRead => 3
    case DrainSeen(found, running) => if found && !running && !idle then 11 else 2
    case DrainClaimed(_) => if idle then 9 else 25
    case ChainRead(request, number) => if idle && Unpaid(FromChain(request, number)) then 8 else 24
    case ChainSeen(request, number, found, running) =>
      if idle && found && !running && Unpaid(FromChain(request, number)) then 7 else 23
    case ChainCompleted(_, _, _) => 25
    case TurnStart(origin) => if idle && Unpaid(origin) then 6 else 21
    case TurnOpen(_) => 22
    case TurnLive(_) => 21
    case TurnEnded(_, _) => 27
    case TurnDone(_, _) => 26
    case TurnFailed(_) => 20
    case Closing(restart) => if restart then 4 else 1
    case AddRead => 5
    case AddSeen(_, _) => 1
    case AddQueued(_) => 4
    case InterruptRead(_) => 5
    case InterruptSeen(_, _, _, _) => 4
    case InterruptAsking => 3
    case InterruptAsked => 2
    case InterruptAnswered(_) => 1
    case BranchCreated => 5
    case BranchStarted => 4
    case BranchPhased => 3
    case BranchLive => 2
    case BranchFailed(_) => 1
    case Done => 0
  }

  function TotalLeft(threads: seq<Pc>, idle: bool): (n: nat)
    ensures n <= MOST_LEFT * |threads|
  {
    if threads == [] then 0 else Left(threads[0], idle) + TotalLeft(threads[1..], idle)
  }

  lemma {:induction false} LeftOfUpdate(threads: seq<Pc>, t: nat, pc: Pc, idle: bool)
    requires t < |threads|
    ensures TotalLeft(threads[t := pc], idle) + Left(threads[t], idle) == TotalLeft(threads, idle) + Left(pc, idle)
  {
    if t > 0 {
      assert threads[t := pc][1..] == threads[1..][t - 1 := pc];
      LeftOfUpdate(threads[1..], t - 1, pc, idle);
    } else {
      assert threads[t := pc][1..] == threads[1..];
    }
  }

  function Unclaimed(q: seq<Item>): (n: nat)
    ensures n <= |q|
  {
    if q == [] then 0 else (if q[0].Claimed() then 0 else 1) + Unclaimed(q[1..])
  }

  lemma {:induction false} UnclaimedOfReplaced(q: seq<Item>, k: nat, item: Item)
    requires k < |q|
    ensures Unclaimed(q[k := item]) + (if q[k].Claimed() then 0 else 1) ==
            Unclaimed(q) + if item.Claimed() then 0 else 1
  {
    if k > 0 {
      assert q[k := item][1..] == q[1..][k - 1 := item];
      UnclaimedOfReplaced(q[1..], k - 1, item);
    } else {
      assert q[k := item][1..] == q[1..];
    }
  }

  /** A claim that drops nothing claims one item more, and the item it takes is queued. */
  lemma ClaimCosts(q: seq<Item>)
    ensures
      var after := AfterClaim(q, CLAIM_TIME);
      && (|after| == |q| ==>
            && Ids(after) == Ids(q)
            && Unclaimed(after) == Unclaimed(q) - if Claim(q, CLAIM_TIME).Some? then 1 else 0)
      && (ClaimedId(q).Some? ==> IndexOfId(after, ClaimedId(q).value) < |after|)
  {
    var p := Pruned(q);
    var k := FirstRunnable(p);
    PrunedIsSuffix(q);
    if k < |p| {
      var item := p[k].(claimedat := Some(CLAIM_TIME));
      UnclaimedOfReplaced(p, k, item);
      SameIds(p, k, item);
      assert p[k := item][k].itemid in Ids(p[k := item]);
    }
  }

  lemma SameIds(q: seq<Item>, k: nat, item: Item)
    requires k < |q| && item.itemid == q[k].itemid
    ensures Ids(q[k := item]) == Ids(q)
  {
    var r := q[k := item];
    assert forall i | 0 <= i < |q| :: r[i].itemid == q[i].itemid;
    forall id | id in Ids(q) ensures id in Ids(r) {
      var i :| 0 <= i < |q| && q[i].itemid == id;
      assert r[i].itemid == id;
    }
  }

  lemma ReleaseCosts(q: seq<Item>, itemid: string)
    ensures Ids(Released(q, itemid)) == Ids(q) && Unclaimed(Released(q, itemid)) <= Unclaimed(q) + 1
  {
    var k := IndexOfId(q, itemid);
    if k < |q| && q[k].Claimed() {
      SameIds(q, k, q[k].(claimedat := None));
      UnclaimedOfReplaced(q, k, q[k].(claimedat := None));
    }
  }

  // ----- the measure ---------------------------------------------------------------------

  /** What one item is worth: a whole chain, and an item gone for every thread. */
  function ItemWorth(threads: nat): nat { 310 + TURN_ENDS * threads }

  function Times(n: nat, each: nat): nat {
    if n == 0 then 0 else each + Times(n - 1, each)
  }

  lemma {:induction false} FewerTimes(n: nat, m: nat, each: nat)
    requires n < m
    ensures Times(n, each) + each <= Times(m, each)
    decreases m
  {
    if n < m - 1 {
      FewerTimes(n, m - 1, each);
    }
  }

  /** Falls with every start and every end of a turn, and never rises in between. */
  function Major(s: State): nat {
    2 * (Times(|s.queue|, ItemWorth(|s.threads|)) + if s.row.None? then 0 else TotalEnds(s.threads, s.queue))
      + if IsIdle(s) then 1 else 0
  }

  /** Falls with every step that is neither. */
  function Minor(s: State): nat {
    TotalLeft(s.threads, IsIdle(s)) + CLAIM_WORTH * Unclaimed(s.queue)
  }

  /** More than `Minor` can be with these threads and a queue no longer than this one. */
  function Round(s: State): nat {
    MOST_LEFT * |s.threads| + CLAIM_WORTH * |s.queue| + 1
  }

  /** Bounds the length of a quiet run in which no item is sent back. */
  function Limit(s: State): nat {
    Major(s) * Round(s) + Minor(s)
  }

  /** Only thread `t` moves, and a missing session stays missing. */
  ghost predicate ThreadMoves(s: State, s': State, t: nat) {
    && t < |s.threads| == |s'.threads| && s'.threads == s.threads[t := s'.threads[t]]
    && (s.row.None? ==> s'.row.None?)
  }

  predicate Lower(s: State, s': State) {
    Major(s') < Major(s) || (Major(s') == Major(s) && Minor(s') < Minor(s))
  }

  /** The queue gets shorter. */
  lemma ShortMove(s: State, s': State, t: nat)
    requires ThreadMoves(s, s', t) && |s'.queue| < |s.queue|
    requires Ends(s'.threads[t], s'.queue) <= Ends(s.threads[t], s'.queue) + 306
    ensures Lower(s, s')
  {
    EndsOfUpdate(s.threads, t, s'.threads[t], s'.queue);
    EndsOfOtherQueue(s.threads, s.queue, s'.queue);
    FewerTimes(|s'.queue|, |s.queue|, ItemWorth(|s.threads|));
  }

  /** A turn of an existing session is ended, by its own thread or another. */
  lemma EndMove(s: State, s': State, t: nat)
    requires ThreadMoves(s, s', t) && s'.queue == s.queue && s'.row.Some?
    requires Ends(s'.threads[t], s.queue) < Ends(s.threads[t], s.queue)
    ensures Lower(s, s')
  {
    EndsOfUpdate(s.threads, t, s'.threads[t], s.queue);
  }

  /** A turn is started. */
  lemma StartMove(s: State, s': State, t: nat)
    requires ThreadMoves(s, s', t) && s'.queue == s.queue && IsIdle(s) && !IsIdle(s') && s'.row.Some?
    requires Ends(s'.threads[t], s.queue) <= Ends(s.threads[t], s.queue)
    ensures Lower(s, s')
  {
    EndsOfUpdate(s.threads, t, s'.threads[t], s.queue);
  }

  /** Neither: the thread comes closer to a stop, or claims an item. */
  lemma SpendMove(s: State, s': State, t: nat)
    requires ThreadMoves(s, s', t) && |s'.queue| == |s.queue| && Ids(s'.queue) == Ids(s.queue)
    requires IsIdle(s) == IsIdle(s') && s.row.Some? == s'.row.Some?
    requires s.row.Some? ==> Ends(s'.threads[t], s'.queue) <= Ends(s.threads[t], s'.queue)
    requires Left(s'.threads[t], IsIdle(s)) + CLAIM_WORTH * Unclaimed(s'.queue)
               < Left(s.threads[t], IsIdle(s)) + CLAIM_WORTH * Unclaimed(s.queue)
    ensures Lower(s, s')
  {
    EndsOfUpdate(s.threads, t, s'.threads[t], s'.queue);
    EndsOfOtherQueue(s.threads, s.queue, s'.queue);
    LeftOfUpdate(s.threads, t, s'.threads[t], IsIdle(s));
  }

  lemma ClaimMovePays(s: State, s': State, t: nat)
    requires ThreadMoves(s, s', t) && s'.row == s.row && s'.queue == AfterClaim(s.queue, CLAIM_TIME)
    requires s.row.Some? ==> Ends(s'.threads[t], s'.queue) <= Ends(s.threads[t], s'.queue)
    requires Left(s'.threads[t], IsIdle(s))
               < Left(s.threads[t], IsIdle(s)) + if Claim(s.queue, CLAIM_TIME).Some? then CLAIM_WORTH else 0
    requires Ends(s'.threads[t], s'.queue) <= Ends(s.threads[t], s'.queue) + 306
    ensures Lower(s, s')
  {
    ClaimCosts(s.queue);
    if |s'.queue| < |s.queue| {
      ShortMove(s, s', t);
    } else {
      SpendMove(s, s', t);
    }
  }

  lemma ReleaseMovePays(s: State, s': State, t: nat, id: Option<string>)
    requires ThreadMoves(s, s', t) && s'.row == s.row
    requires s'.queue == if id.Some? then Released(s.queue, id.value) else s.queue
    requires s'.threads[t] == Closing(true)
    requires TURN_ENDS <= Ends(s.threads[t], s'.queue) && 19 < Left(s.threads[t], IsIdle(s))
    ensures Lower(s, s')
  {
    if id.Some? {
      ReleaseCosts(s.queue, id.value);
    }
    SpendMove(s, s', t);
  }

  lemma DrainMissesPays(s: State, t: nat, choice: Choice)
    requires t < |s.threads| && Open(s, s.threads[t], choice) && s.threads[t].DrainSeen? && !s.threads[t].found
    ensures Lower(s, ActDrain(s, t, choice))
  {
    if s.queue != [] {
      ShortMove(s, ActDrain(s, t, choice), t);
    } else {
      SpendMove(s, ActDrain(s, t, choice), t);
    }
  }

  lemma DrainClaimsPays(s: State, t: nat, choice: Choice)
    requires t < |s.threads| && Open(s, s.threads[t], choice) && s.threads[t] == DrainSeen(true, false)
    ensures Lower(s, ActDrain(s, t, choice))
  {
    ClaimCosts(s.queue);
    ClaimMovePays(s, ActDrain(s, t, choice), t);
  }

  lemma DrainSeenPays(s: State, t: nat, choice: Choice)
    requires t < |s.threads| && Open(s, s.threads[t], choice) && s.threads[t].DrainSeen?
    ensures Lower(s, ActDrain(s, t, choice))
  {
    var pc := s.threads[t];
    if !pc.found {
      DrainMissesPays(s, t, choice);
    } else if !pc.running {
      DrainClaimsPays(s, t, choice);
    } else {
      SpendMove(s, ActDrain(s, t, choice), t);
    }
  }

  lemma ActDrainPays(s: State, t: nat, choice: Choice)
    requires t < |s.threads| && Open(s, s.threads[t], choice)
    requires s.threads[t].DrainRead? || s.threads[t].DrainClaimed?
    ensures Lower(s, ActDrain(s, t, choice))
  {
    SpendMove(s, ActDrain(s, t, choice), t);
  }

  lemma ClosingPays(s: State, t: nat, choice: Choice)
    requires t < |s.threads| && Open(s, s.threads[t], choice) && s.threads[t].Closing?
    ensures Lower(s, ActDrain(s, t, choice))
  {
    SpendMove(s, ActDrain(s, t, choice), t);
  }

  lemma GoOnPays(s: State, t: nat, number: nat, next: Option<Request>)
    requires t < |s.threads|
    requires
      || s.threads[t] == ChainCompleted(number, true, next)
      || (s.threads[t].TurnDone? && EndsAfter(number) == EndsAfterTurn(s.queue, s.threads[t].origin))
    ensures Lower(s, GoOn(s, t, number, next))
  {
    if next.Some? && number >= MAX_TRIGGERED {
      LimitPays(s, t, number, next.value);
    } else {
      SpendMove(s, GoOn(s, t, number, next), t);
    }
  }

  lemma LimitPays(s: State, t: nat, number: nat, next: Request)
    requires t < |s.threads| && number >= MAX_TRIGGERED
    requires
      || s.threads[t] == ChainCompleted(number, true, Some(next))
      || (s.threads[t].TurnDone? && EndsAfter(number) == EndsAfterTurn(s.queue, s.threads[t].origin))
    ensures Lower(s, GoOn(s, t, number, Some(next)))
  {
    if next.claim.Some? {
      ReleaseCosts(s.queue, next.claim.value);
    }
    ReleaseMovePays(s, GoOn(s, t, number, Some(next)), t, next.claim);
  }

  lemma ActChainPays(s: State, t: nat, choice: Choice)
    requires t < |s.threads| && Open(s, s.threads[t], choice)
    requires var pc := s.threads[t]; pc.ChainRead? || pc.ChainSeen? || pc.ChainCompleted?
    ensures Lower(s, ActChain(s, t, choice))
  {
    var pc := s.threads[t];
    var s' := ActChain(s, t, choice);
    if pc.ChainCompleted? && pc.completed && !choice.Fail? {
      GoOnPays(s, t, pc.number, pc.next);
    } else if pc.ChainSeen? && (!pc.found || pc.running) {
      ReleaseMovePays(s, s', t, pc.request.claim);
    } else {
      SpendMove(s, s', t);
    }
  }

  lemma RemovePays(s: State, t: nat, choice: Choice)
    requires t < |s.threads| && Open(s, s.threads[t], choice) && s.threads[t].TurnDone?
    requires OriginClaim(s.threads[t].origin).Some?
    requires IndexOfId(s.queue, OriginClaim(s.threads[t].origin).value) < |s.queue|
    ensures Lower(s, ActTurn(s, t, choice))
  {
    IdsOfWithout(s.queue, OriginClaim(s.threads[t].origin).value);
    ShortMove(s, ActTurn(s, t, choice), t);
  }

  lemma MissPays(s: State, t: nat, choice: Choice)
    requires t < |s.threads| && Open(s, s.threads[t], choice) && s.threads[t].TurnDone?
    requires OriginClaim(s.threads[t].origin).Some?
    requires IndexOfId(s.queue, OriginClaim(s.threads[t].origin).value) == |s.queue|
    ensures Lower(s, ActTurn(s, t, choice))
  {
    IdsOfWithout(s.queue, OriginClaim(s.threads[t].origin).value);
    MissMove(s, ActTurn(s, t, choice), t);
  }

  /** A chain finds its item gone. */
  lemma MissMove(s: State, s': State, t: nat)
    requires ThreadMoves(s, s', t) && s'.row == s.row && s'.queue == s.queue
    requires s.threads[t].TurnDone? && OriginClaim(s.threads[t].origin).Some?
    requires IndexOfId(s.queue, OriginClaim(s.threads[t].origin).value) == |s.queue|
    requires s'.threads[t].ChainCompleted? && !s'.threads[t].completed
    ensures Lower(s, s')
  {
    SpendMove(s, s', t);
  }

  lemma DonePays(s: State, t: nat, choice: Choice)
    requires t < |s.threads| && Open(s, s.threads[t], choice) && s.threads[t].TurnDone?
    ensures Lower(s, ActTurn(s, t, choice))
  {
    var origin := s.threads[t].origin;
    if origin.FromInput? {
      SpendMove(s, ActTurn(s, t, choice), t);
    } else if origin.request.claim.None? {
      GoOnPays(s, t, origin.number, s.threads[t].next);
    } else if IndexOfId(s.queue, origin.request.claim.value) < |s.queue| {
      RemovePays(s, t, choice);
    } else {
      MissPays(s, t, choice);
    }
  }

  lemma EndedPays(s: State, t: nat, choice: Choice)
    requires t < |s.threads| && Open(s, s.threads[t], choice) && s.threads[t].TurnEnded?
    requires (choice.EndTwice? || choice.GiveUp?) && !SendsBack(s, Act(t, choice))
    ensures Lower(s, ActTurn(s, t, choice))
  {
    var s' := ActTurn(s, t, choice);
    if choice.EndTwice? && s.row.Some? {
      EndMove(s, s', t);
    } else {
      SpendMove(s, s', t);
    }
  }

  lemma HookPays(s: State, t: nat, choice: Choice)
    requires t < |s.threads| && Open(s, s.threads[t], choice) && s.threads[t].TurnEnded?
    requires !choice.EndTwice? && !choice.GiveUp?
    ensures Lower(s, ActTurn(s, t, choice))
  {
    ClaimMovePays(s, ActTurn(s, t, choice), t);
  }

  lemma FailedPays(s: State, t: nat, choice: Choice)
    requires t < |s.threads| && Open(s, s.threads[t], choice) && s.threads[t].TurnFailed?
    ensures Lower(s, ActTurn(s, t, choice))
  {
    var origin := s.threads[t].origin;
    if origin.FromChain? {
      ReleaseMovePays(s, ActTurn(s, t, choice), t, origin.request.claim);
    } else {
      SpendMove(s, ActTurn(s, t, choice), t);
    }
  }

  lemma StartPays(s: State, t: nat, choice: Choice)
    requires t < |s.threads| && Open(s, s.threads[t], choice) && s.threads[t].TurnStart?
    requires !SendsBack(s, Act(t, choice))
    ensures Lower(s, ActTurn(s, t, choice))
  {
    var s' := ActTurn(s, t, choice);
    if IsIdle(s) && !choice.Fail? {
      StartMove(s, s', t);
    } else {
      SpendMove(s, s', t);
    }
  }

  lemma OpenPays(s: State, t: nat, choice: Choice)
    requires t < |s.threads| && Open(s, s.threads[t], choice) && s.threads[t].TurnOpen?
    ensures Lower(s, ActTurn(s, t, choice))
  {
    SpendMove(s, ActTurn(s, t, choice), t);
  }

  lemma LivePays(s: State, t: nat, choice: Choice)
    requires t < |s.threads| && Open(s, s.threads[t], choice) && s.threads[t].TurnLive? && !choice.Phase?
    ensures Lower(s, ActTurn(s, t, choice))
  {
    if choice.Fail? || s.row.None? {
      SpendMove(s, ActTurn(s, t, choice), t);
    } else {
      EndMove(s, ActTurn(s, t, choice), t);
    }
  }

  lemma ActInputPays(s: State, t: nat, choice: Choice)
    requires t < |s.threads| && Open(s, s.threads[t], choice)
    requires var pc := s.threads[t]; pc.InputRead? || pc.InputSeen? || pc.InputAttaching?
    ensures Lower(s, ActInput(s, t, choice))
  {
    SpendMove(s, ActInput(s, t, choice), t);
  }

  lemma ActAddPays(s: State, t: nat, choice: Choice)
    requires t < |s.threads| && Open(s, s.threads[t], choice) && !choice.Put?
    requires var pc := s.threads[t]; pc.AddRead? || pc.AddSeen? || pc.AddQueued?
    ensures Lower(s, ActOther(s, t, choice))
  {
    SpendMove(s, ActOther(s, t, choice), t);
  }

  lemma ActInterruptPays(s: State, t: nat, choice: Choice)
    requires t < |s.threads| && Open(s, s.threads[t], choice)
    requires s.threads[t].InterruptRead? || s.threads[t].InterruptSeen?
    ensures Lower(s, ActOther(s, t, choice))
  {
    SpendMove(s, ActOther(s, t, choice), t);
  }

  lemma ActAskPays(s: State, t: nat, choice: Choice)
    requires t < |s.threads| && Open(s, s.threads[t], choice)
    requires s.threads[t].InterruptAsking? || s.threads[t].InterruptAsked?
    ensures Lower(s, ActOther(s, t, choice))
  {
    SpendMove(s, ActOther(s, t, choice), t);
  }

  lemma ActEndPays(s: State, t: nat, choice: Choice)
    requires t < |s.threads| && Open(s, s.threads[t], choice)
    requires s.threads[t].InterruptAnswered?
    ensures Lower(s, ActOther(s, t, choice))
  {
    var s' := ActOther(s, t, choice);
    if s.row.Some? {
      EndMove(s, s', t);
    } else {
      SpendMove(s, s', t);
    }
  }

  lemma BranchCreatedPays(s: State, t: nat, choice: Choice)
    requires t < |s.threads| && Open(s, s.threads[t], choice) && s.threads[t].BranchCreated?
    ensures Lower(s, ActBranch(s, t, choice))
  {
    if IsIdle(s) && !choice.Fail? {
      StartMove(s, ActBranch(s, t, choice), t);
    } else {
      SpendMove(s, ActBranch(s, t, choice), t);
    }
  }

  lemma BranchStartedPays(s: State, t: nat, choice: Choice)
    requires t < |s.threads| && Open(s, s.threads[t], choice) && s.threads[t].BranchStarted?
    ensures Lower(s, ActBranch(s, t, choice))
  {
    SpendMove(s, ActBranch(s, t, choice), t);
  }

  lemma BranchPhasedPays(s: State, t: nat, choice: Choice)
    requires t < |s.threads| && Open(s, s.threads[t], choice) && s.threads[t].BranchPhased?
    ensures Lower(s, ActBranch(s, t, choice))
  {
    SpendMove(s, ActBranch(s, t, choice), t);
  }

  lemma BranchEndPays(s: State, t: nat, choice: Choice)
    requires t < |s.threads| && Open(s, s.threads[t], choice) && s.row.Some?
    requires s.threads[t].BranchLive? || s.threads[t].BranchFailed?
    ensures Lower(s, ActBranch(s, t, choice))
  {
    EndMove(s, ActBranch(s, t, choice), t);
  }

  lemma BranchGonePays(s: State, t: nat, choice: Choice)
    requires t < |s.threads| && Open(s, s.threads[t], choice) && s.row.None?
    requires s.threads[t].BranchLive? || s.threads[t].BranchFailed?
    ensures Lower(s, ActBranch(s, t, choice))
  {
    SpendMove(s, ActBranch(s, t, choice), t);
  }

  lemma ActBranchPays(s: State, t: nat, choice: Choice)
    requires t < |s.threads| && Open(s, s.threads[t], choice) && IsBranch(s.threads[t])
    ensures Lower(s, ActBranch(s, t, choice))
  {
    match s.threads[t]
    case BranchCreated => BranchCreatedPays(s, t, choice);
    case BranchStarted => BranchStartedPays(s, t, choice);
    case BranchPhased => BranchPhasedPays(s, t, choice);
    case _ => if s.row.Some? { BranchEndPays(s, t, choice); } else { BranchGonePays(s, t, choice); }
  }

  /** Every quiet step that sends no item back lowers the measure. */
  lemma QuietStepPays(s: State, step: Step)
    requires Enabled(s, step) && Quiet(s, step) && !SendsBack(s, step)
    ensures Lower(s, Next(s, step))
  {
    var t, choice := step.t, step.choice;
    var pc := s.threads[t];
    if pc.InputRead? || pc.InputSeen? || pc.InputAttaching? {
      ActInputPays(s, t, choice);
    } else if pc.DrainSeen? {
      DrainSeenPays(s, t, choice);
    } else if pc.DrainRead? || pc.DrainClaimed? {
      ActDrainPays(s, t, choice);
    } else if pc.Closing? {
      ClosingPays(s, t, choice);
    } else if pc.ChainRead? || pc.ChainSeen? || pc.ChainCompleted? {
      ActChainPays(s, t, choice);
    } else if IsTurn(pc) {
      ActTurnPays(s, t, choice);
    } else if pc.AddRead? || pc.AddSeen? || pc.AddQueued? {
      ActAddPays(s, t, choice);
    } else if IsBranch(pc) {
      ActBranchPays(s, t, choice);
    } else if pc.InterruptAnswered? {
      ActEndPays(s, t, choice);
    } else if pc.InterruptRead? || pc.InterruptSeen? {
      ActInterruptPays(s, t, choice);
    } else {
      ActAskPays(s, t, choice);
    }
  }

  lemma ActTurnPays(s: State, t: nat, choice: Choice)
    requires t < |s.threads| && Open(s, s.threads[t], choice) && IsTurn(s.threads[t])
    requires Quiet(s, Act(t, choice)) && !SendsBack(s, Act(t, choice))
    ensures Lower(s, ActTurn(s, t, choice))
  {
    var pc := s.threads[t];
    if pc.TurnDone? {
      DonePays(s, t, choice);
    } else if pc.TurnEnded? && (choice.EndTwice? || choice.GiveUp?) {
      EndedPays(s, t, choice);
    } else if pc.TurnEnded? {
      HookPays(s, t, choice);
    } else if pc.TurnFailed? {
      FailedPays(s, t, choice);
    } else if pc.TurnStart? {
      StartPays(s, t, choice);
    } else if pc.TurnOpen? {
      OpenPays(s, t, choice);
    } else {
      LivePays(s, t, choice);
    }
  }

  const SENT_BACK_WORTH: nat := 7

  lemma SendingBackCosts(s: State, step: Step, s': State)
    requires Enabled(s, step) && SendsBack(s, step) && s' == Next(s, step)
    ensures Major(s') <= Major(s) + SENT_BACK_WORTH - 1
  {
    var t := step.t;
    SentBackMove(s, t, step.choice);
    assert s' == ActTurn(s, t, step.choice);
    EndsOfUpdate(s.threads, t, TurnFailed(s.threads[t].origin), s.queue);
  }

  lemma SentBackMove(s: State, t: nat, choice: Choice)
    requires t < |s.threads| && Open(s, s.threads[t], choice) && SendsBack(s, Act(t, choice))
    ensures
      var s' := ActTurn(s, t, choice);
      && s'.threads == s.threads[t := TurnFailed(s.threads[t].origin)]
      && s'.queue == s.queue && s'.row == s.row
  {
  }

  lemma QuietKeepsRound(s: State, step: Step, s': State)
    requires Enabled(s, step) && Quiet(s, step) && s' == Next(s, step)
    ensures Round(s') <= Round(s)
  {
    QuietAddsNothing(s, step);
  }

  lemma QuietAddsNothing(s: State, step: Step)
    requires Enabled(s, step) && Quiet(s, step)
    ensures |Next(s, step).threads| == |s.threads| && |Next(s, step).queue| <= |s.queue|
  {
  }

  predicate AllQuiet(s: State, steps: seq<Step>)
    requires Runs(s, steps)
    decreases |steps|
  {
    steps == [] || (Quiet(s, steps[0]) && AllQuiet(Next(s, steps[0]), steps[1..]))
  }

  /** How many steps of the run send an item back. */
  function SentBack(s: State, steps: seq<Step>): nat
    requires Runs(s, steps)
    decreases |steps|
  {
    if steps == [] then 0
    else (if SendsBack(s, steps[0]) then 1 else 0) + SentBack(Next(s, steps[0]), steps[1..])
  }

  /** What is left after one step, in rounds of a given length. */
  lemma LessIsLeft(major: nat, minor: nat, major': nat, minor': nat, round: nat)
    requires minor' < round && (major' < major || (major' == major && minor' < minor))
    ensures 1 + major' * round + minor' <= major * round + minor
  {
    if major' < major {
      MoreRounds(major', major - 1, round);
    }
  }

  lemma StepTakesFromRounds(s: State, step: Step, s': State, round: nat)
    requires Enabled(s, step) && Quiet(s, step) && s' == Next(s, step) && Round(s) <= round
    ensures Round(s') <= round
    ensures 1 + Major(s') * round + Minor(s') <=
              Major(s) * round + Minor(s) + if SendsBack(s, step) then SENT_BACK_WORTH * round else 0
  {
    QuietKeepsRound(s, step, s');
    MinorFits(s');
    if SendsBack(s, step) {
      SendingBackCosts(s, step, s');
      LessIsLeft(Major(s) + SENT_BACK_WORTH, Minor(s), Major(s'), Minor(s'), round);
      Distribute(Major(s), SENT_BACK_WORTH, round);
    } else {
      QuietStepPays(s, step);
      LessIsLeft(Major(s), Minor(s), Major(s'), Minor(s'), round);
    }
  }

  /** The length of a quiet run is bounded by the state it begins in and the number of items sent
      back: an endless quiet run sends items back without end. */
  lemma {:induction false} QuietRunsAreBounded(s: State, steps: seq<Step>, round: nat)
    requires Runs(s, steps) && AllQuiet(s, steps) && Round(s) <= round
    ensures |steps| <= Major(s) * round + Minor(s) + Times(SentBack(s, steps), SENT_BACK_WORTH * round)
    decreases |steps|
  {
    if steps != [] {
      var s' := Next(s, steps[0]);
      StepTakesFromRounds(s, steps[0], s', round);
      QuietRunsAreBounded(s', steps[1..], round);
    }
  }

  lemma MinorFits(s: State)
    ensures Minor(s) < Round(s)
  {
  }

  lemma MoreRounds(a: nat, b: int, round: nat)
    requires a <= b
    ensures a * round <= b * round
    ensures (b + 1) * round == b * round + round
  {
  }

  lemma Distribute(a: nat, b: nat, round: nat)
    ensures (a + b) * round == a * round + b * round
  {
  }

  /** A quiet run that sends no item back is at most this long, whatever else fails in it. */
  lemma QuietRunsStop(s: State, steps: seq<Step>)
    requires Runs(s, steps) && AllQuiet(s, steps) && SentBack(s, steps) == 0
    ensures |steps| <= Limit(s)
  {
    QuietRunsAreBounded(s, steps, Round(s));
  }
}
