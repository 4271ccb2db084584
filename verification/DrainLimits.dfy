/** Runs that end with a queued request nobody will run, one for each of three of the steps that
    forget one; and runs of any length in which a drain claims the same request over and over. */
module DrainLimits {
  import opened JsText
  import opened RequestQueue
  import opened SessionRow
  import opened TurnScheduler
  import opened TurnExclusion
  import opened TurnExclusionLimits
  import opened DrainProgress
  import opened QueueAttention

  /** A turn on an empty queue ends, and its thread with it. */
  lemma TurnFinishes(s: State, row: Row, threads: seq<Pc>, t: nat)
    requires t < |threads| && threads[t] == TurnEnded(FromInput, 1)
    requires Reaches(s, With(row, Some(t), true, threads))
    ensures Reaches(s, With(row, None, false, threads[t := Done]))
  {
    var a := With(row, Some(t), true, threads);
    Then(s, a, Act(t, Go));
    var b := With(row, None, true, threads[t := TurnDone(FromInput, None)]);
    assert Next(a, Act(t, Go)) == b;
    Then(s, b, Act(t, Go));
    assert b.threads[t := Done] == threads[t := Done];
  }

  lemma AddReads(s: State, row: Row, guard: bool, threads: seq<Pc>, t: nat)
    requires t < |threads| && threads[t] == AddRead && row.isrunning
    requires Reaches(s, With(row, None, guard, threads))
    ensures Reaches(s, With(row, None, guard, threads[t := AddSeen(true, true)]))
  {
    Moves(s, row, None, guard, threads, t, Go, row, None, AddSeen(true, true));
  }

  lemma AddQueues(s: State, row: Row, threads: seq<Pc>, t: nat, item: Item) returns (s': State)
    requires t < |threads| && threads[t] == AddSeen(true, true) && item.Runnable()
    requires Reaches(s, With(row, None, false, threads))
    ensures Reaches(s, s') && s'.queue == [item] && s'.row == Some(row) && !s'.guard && s'.threads == threads[t := Done]
  {
    var b := AddPuts(s, row, threads, t, item);
    Then(s, b, Act(t, Go));
    s' := Next(b, Act(t, Go));
    assert s'.threads == threads[t := Done];
  }

  lemma AddPuts(s: State, row: Row, threads: seq<Pc>, t: nat, item: Item) returns (b: State)
    requires t < |threads| && threads[t] == AddSeen(true, true) && item.Runnable()
    requires Reaches(s, With(row, None, false, threads))
    ensures Reaches(s, b) && b.queue == [item] && b.row == Some(row) && !b.guard
    ensures b.threads == threads[t := AddQueued(true)]
  {
    var a := With(row, None, false, threads);
    Then(s, a, Act(t, Put(item)));
    b := Next(a, Act(t, Put(item)));
  }

  lemma StaleReadForgetsRequest(item: Item) returns (s: State)
    requires item.Runnable()
    ensures Reaches(FRESH, s) && Forgotten(s) && s.queue == [item]
  {
    Here(FRESH);
    InputAdmitted(FRESH, IDLE_ROW, None, []);
    var a := [] + [InputAttaching];
    InputStarts(FRESH, IDLE_ROW, None, false, a, 0);
    var b := a[0 := TurnOpen(FromInput)];
    var on := Started(IDLE_ROW);
    Then(FRESH, With(on, None, true, b), Spawn(AddRead));
    AddReads(FRESH, on, true, b + [AddRead], 1);
    assert (b + [AddRead])[1 := AddSeen(true, true)] == [TurnOpen(FromInput), AddSeen(true, true)];
    WholeTurn(FRESH, on, [TurnOpen(FromInput), AddSeen(true, true)]);
    s := AddQueues(FRESH, Ended(on), [Done, AddSeen(true, true)], 1, item);
    assert s.queue[0].Runnable();
  }

  /** The turn of the first thread, from its start to its end. */
  lemma WholeTurn(s: State, on: Row, threads: seq<Pc>)
    requires threads == [TurnOpen(FromInput), AddSeen(true, true)]
    requires Reaches(s, With(on, None, true, threads))
    ensures Reaches(s, With(Ended(on), None, false, [Done, AddSeen(true, true)]))
  {
    TurnRegisters(s, on, None, true, threads, 0);
    var d := threads[0 := TurnLive(FromInput)];
    TurnEnds(s, on, Some(0), true, d, 0);
    var e := d[0 := TurnEnded(FromInput, 1)];
    TurnFinishes(s, Ended(on), e, 0);
    assert e[0 := Done] == [Done, AddSeen(true, true)];
  }

  /** A request queued while a branched session is still being compacted: its message sees the
      session running and leaves the request to whoever runs, and the compaction looks at no queue. */
  lemma CompactionForgetsRequest(item: Item) returns (s: State)
    requires item.Runnable()
    ensures Reaches(BRANCHED, s) && Forgotten(s) && s.queue == [item]
  {
    var row := InPhase(Started(IDLE_ROW), "compacting");
    BranchLaunches();
    var launched := With(row, None, false, [BranchLive]);
    Then(BRANCHED, launched, Spawn(AddRead));
    var a := [BranchLive, AddRead];
    assert Next(launched, Spawn(AddRead)) == With(row, None, false, a);
    AddReads(BRANCHED, row, false, a, 1);
    var b := AddQueues(BRANCHED, row, a[1 := AddSeen(true, true)], 1, item);
    s := CompactionEnds(BRANCHED, b);
    assert s.queue[0].Runnable();
  }

  lemma CompactionEnds(s: State, a: State) returns (s': State)
    requires Reaches(s, a) && a.threads == [BranchLive, Done] && a.row.Some? && !a.guard
    ensures Reaches(s, s') && s'.threads == [Done, Done] && s'.queue == a.queue && !s'.guard
    ensures s'.row == Some(Ended(a.row.value))
  {
    Then(s, a, Act(0, Go));
    s' := Next(a, Act(0, Go));
    assert s'.threads == a.threads[0 := Done];
  }

  // ----- a guard held by a drain that will not look again --------------------------------

  /** An idle session with this queue, its guard and its threads. */
  function Idle(queue: seq<Item>, used: set<string>, guard: bool, threads: seq<Pc>): State {
    State(Some(IDLE_ROW), None, queue, used, guard, threads)
  }

  /** A queue-add message that found the session idle has its request queued. */
  lemma AddPutsIdle(s: State, queue: seq<Item>, used: set<string>, guard: bool, threads: seq<Pc>, item: Item)
    requires Reaches(s, Idle(queue, used, guard, threads)) && item.itemid !in used && !item.Claimed()
    ensures Reaches(s, Idle(queue + [item], used + {item.itemid}, guard, threads + [AddQueued(false)]))
  {
    var t := |threads|;
    Then(s, Idle(queue, used, guard, threads), Spawn(AddRead));
    var a := Idle(queue, used, guard, threads + [AddRead]);
    Then(s, a, Act(t, Go));
    var b := Idle(queue, used, guard, threads + [AddSeen(true, false)]);
    assert Next(a, Act(t, Go)) == b by {
      assert a.threads[t := AddSeen(true, false)] == b.threads;
    }
    AddPutsOne(s, queue, used, guard, threads, item);
  }

  lemma AddPutsOne(s: State, queue: seq<Item>, used: set<string>, guard: bool, threads: seq<Pc>, item: Item)
    requires Reaches(s, Idle(queue, used, guard, threads + [AddSeen(true, false)]))
    requires item.itemid !in used && !item.Claimed()
    ensures Reaches(s, Idle(queue + [item], used + {item.itemid}, guard, threads + [AddQueued(false)]))
  {
    var b := Idle(queue, used, guard, threads + [AddSeen(true, false)]);
    var t := |threads|;
    Then(s, b, Act(t, Put(item)));
    var c := Idle(queue + [item], used + {item.itemid}, guard, threads + [AddQueued(false)]);
    assert Next(b, Act(t, Put(item))) == c by {
      assert b.threads[t := AddQueued(false)] == c.threads;
      assert Inserted(queue, End, item) == queue + [item];
    }
  }

  /** A drain has read the session as idle, and the one request queued is deleted before it claims. */
  lemma DrainFindsNothing(x: Item)
    requires x.Runnable()
    ensures Reaches(FRESH, Idle([], {x.itemid}, true, [Closing(false)]))
  {
    DrainOfFresh(x);
    var used := {x.itemid};
    var d := Idle([x], used, true, [DrainRead]);
    Then(FRESH, d, Act(0, Go));
    var e := Idle([x], used, true, [DrainSeen(true, false)]);
    assert Next(d, Act(0, Go)) == e by {
      assert d.threads[0 := DrainSeen(true, false)] == e.threads;
    }
    Then(FRESH, e, DeleteItem(x.itemid));
    var f := Idle([], used, true, [DrainSeen(true, false)]);
    assert Next(e, DeleteItem(x.itemid)) == f;
    Then(FRESH, f, Act(0, Go));
    assert Next(f, Act(0, Go)) == Idle([], used, true, [Closing(false)]);
  }

  /** A new session with one request, and the drain its message has started. */
  lemma DrainOfFresh(x: Item)
    requires x.Runnable()
    ensures Reaches(FRESH, Idle([x], {x.itemid}, true, [DrainRead]))
  {
    Here(FRESH);
    AddPutsIdle(FRESH, [], {}, false, [], x);
    assert [] + [x] == [x] && [] + [AddQueued(false)] == [AddQueued(false)] && {} + {x.itemid} == {x.itemid};
    var c := Idle([x], {x.itemid}, false, [AddQueued(false)]);
    Then(FRESH, c, Act(0, Go));
    assert Next(c, Act(0, Go)) == Idle([x], {x.itemid}, true, [DrainRead]);
  }

  /** A request is queued while the drain holds the guard, and its message leaves. */
  lemma AddMeetsGuard(x: Item, y: Item)
    requires x.Runnable() && y.Runnable() && x.itemid != y.itemid
    ensures Reaches(FRESH, Idle([y], {x.itemid} + {y.itemid}, true, [Closing(false), Done]))
  {
    DrainFindsNothing(x);
    AddPutsIdle(FRESH, [], {x.itemid}, true, [Closing(false)], y);
    var a := Idle([] + [y], {x.itemid} + {y.itemid}, true, [Closing(false)] + [AddQueued(false)]);
    Then(FRESH, a, Act(1, Go));
    assert a.threads[1 := Done] == [Closing(false), Done] && [] + [y] == [y];
  }

  /** A request queued while a drain that found nothing still holds the guard: its message starts no
      drain, and the other does not look again. */
  lemma HeldGuardForgetsRequest(x: Item, y: Item) returns (s: State)
    requires x.Runnable() && y.Runnable() && x.itemid != y.itemid
    ensures Reaches(FRESH, s) && Forgotten(s) && s.queue == [y]
  {
    AddMeetsGuard(x, y);
    var b := Idle([y], {x.itemid} + {y.itemid}, true, [Closing(false), Done]);
    Then(FRESH, b, Act(0, Go));
    assert b.threads[0 := Done] == [Done, Done];
    s := Idle([y], {x.itemid} + {y.itemid}, false, [Done, Done]);
    assert s.queue[0].Runnable();
  }

  // ----- a request claimed over and over -------------------------------------------------

  ghost predicate QuietlyReaches(s: State, steps: seq<Step>, s': State) {
    Runs(s, steps) && AllQuiet(s, steps) && Outcome(s, steps) == s'
  }

  lemma QuietThen(s: State, step: Step, a: State, rest: seq<Step>, s': State)
    requires Enabled(s, step) && Quiet(s, step) && a == Next(s, step) && QuietlyReaches(a, rest, s')
    ensures QuietlyReaches(s, [step] + rest, s')
  {
    Prepend(s, step, a, rest);
    assert ([step] + rest)[1..] == rest;
  }

  lemma {:induction false} QuietAppend(s: State, a: seq<Step>, m: State, b: seq<Step>, s': State)
    requires QuietlyReaches(s, a, m) && QuietlyReaches(m, b, s')
    ensures QuietlyReaches(s, a + b, s')
    decreases |a|
  {
    if a == [] {
      assert a + b == b;
    } else {
      QuietAppend(Next(s, a[0]), a[1..], m, b, s');
      QuietThen(s, a[0], Next(s, a[0]), a[1..] + b, s');
      assert [a[0]] + (a[1..] + b) == a + b;
    }
  }

  /** The session of the loop: one request, the guard taken, one thread. */
  function Loop(x: Item, claimed: bool, row: Row, scope: Option<nat>, pc: Pc): State {
    State(Some(row), scope, [if claimed then x.(claimedat := Some(CLAIM_TIME)) else x], {x.itemid}, true, [pc])
  }

  function Again(x: Item): State { Loop(x, false, IDLE_ROW, None, DrainRead) }

  function Own(x: Item): Origin { FromChain(Request(Some(x.itemid)), 1) }

  /** Sending the request back: the chain releases it and starts a drain. */
  lemma SendBackLap(x: Item, scope: Option<nat>) returns (steps: seq<Step>)
    requires x.Runnable() && x.claimedat.None? && scope.None?
    ensures |steps| == 2 && QuietlyReaches(Loop(x, true, IDLE_ROW, scope, TurnFailed(Own(x))), steps, Again(x))
  {
    var a := Loop(x, true, IDLE_ROW, scope, TurnFailed(Own(x)));
    var b := Loop(x, false, IDLE_ROW, scope, Closing(true));
    assert Next(a, Act(0, Go)) == b;
    assert Next(b, Act(0, Go)) == Again(x);
    QuietThen(b, Act(0, Go), Again(x), [], Again(x));
    QuietThen(a, Act(0, Go), b, [Act(0, Go)] + [], Again(x));
    steps := [Act(0, Go)] + ([Act(0, Go)] + []);
  }

  /** From the drain's read to the start of the turn of the request it claims. */
  lemma ClaimLap(x: Item, rest: seq<Step>, end: State) returns (steps: seq<Step>)
    requires x.Runnable() && x.claimedat.None?
    requires QuietlyReaches(Loop(x, true, IDLE_ROW, None, TurnStart(Own(x))), rest, end)
    ensures |steps| == |rest| + 5 && QuietlyReaches(Again(x), steps, end)
  {
    var request := Request(Some(x.itemid));
    var b := Loop(x, false, IDLE_ROW, None, DrainSeen(true, false));
    var c := Loop(x, true, IDLE_ROW, None, DrainClaimed(x.itemid));
    var d := Loop(x, true, IDLE_ROW, None, ChainRead(request, 1));
    var e := Loop(x, true, IDLE_ROW, None, ChainSeen(request, 1, true, false));
    var f := Loop(x, true, IDLE_ROW, None, TurnStart(Own(x)));
    ClaimOne(x);
    QuietThen(e, Act(0, Go), f, rest, end);
    steps := [Act(0, Go)] + rest;
    QuietThen(d, Act(0, Go), e, steps, end);
    steps := [Act(0, Go)] + steps;
    QuietThen(c, Act(0, Go), d, steps, end);
    steps := [Act(0, Go)] + steps;
    QuietThen(b, Act(0, Go), c, steps, end);
    steps := [Act(0, Go)] + steps;
    QuietThen(Again(x), Act(0, Go), b, steps, end);
    steps := [Act(0, Go)] + steps;
  }

  lemma ClaimOne(x: Item)
    requires x.Runnable()
    ensures Claim([x], CLAIM_TIME) == Some(x.(claimedat := Some(CLAIM_TIME)))
    ensures AfterClaim([x], CLAIM_TIME) == [x.(claimedat := Some(CLAIM_TIME))]
  {
    assert Pruned([x]) == [x];
  }

  /** A turn that ends and then throws. */
  lemma EndThrowsLap(x: Item, rest: seq<Step>, end: State) returns (steps: seq<Step>)
    requires QuietlyReaches(Loop(x, true, IDLE_ROW, None, TurnFailed(Own(x))), rest, end)
    ensures |steps| == |rest| + 2
    ensures QuietlyReaches(Loop(x, true, Started(IDLE_ROW), Some(0), TurnLive(Own(x))), steps, end)
  {
    var c := Loop(x, true, Started(IDLE_ROW), Some(0), TurnLive(Own(x)));
    var d := Loop(x, true, IDLE_ROW, Some(0), TurnEnded(Own(x), 1));
    QuietThen(d, Act(0, GiveUp), Loop(x, true, IDLE_ROW, None, TurnFailed(Own(x))), rest, end);
    steps := [Act(0, GiveUp)] + rest;
    QuietThen(c, Act(0, Go), d, steps, end);
    steps := [Act(0, Go)] + steps;
  }

  lemma TurnThrowsLap(x: Item, rest: seq<Step>, end: State) returns (steps: seq<Step>)
    requires QuietlyReaches(Loop(x, true, IDLE_ROW, None, TurnFailed(Own(x))), rest, end)
    ensures |steps| == |rest| + 4 && QuietlyReaches(Loop(x, true, IDLE_ROW, None, TurnStart(Own(x))), steps, end)
  {
    var on := Started(IDLE_ROW);
    var a := Loop(x, true, IDLE_ROW, None, TurnStart(Own(x)));
    var b := Loop(x, true, on, None, TurnOpen(Own(x)));
    steps := EndThrowsLap(x, rest, end);
    QuietThen(b, Act(0, Go), Loop(x, true, on, Some(0), TurnLive(Own(x))), steps, end);
    steps := [Act(0, Go)] + steps;
    QuietThen(a, Act(0, Go), b, steps, end);
    steps := [Act(0, Go)] + steps;
  }

  lemma Laps(x: Item, lap: seq<Step>, n: nat) returns (steps: seq<Step>)
    requires QuietlyReaches(Again(x), lap, Again(x))
    ensures |steps| == n * |lap| && QuietlyReaches(Again(x), steps, Again(x))
  {
    steps := [];
    for i := 0 to n
      invariant |steps| == i * |lap| && QuietlyReaches(Again(x), steps, Again(x))
    {
      QuietAppend(Again(x), lap, Again(x), steps, Again(x));
      steps := lap + steps;
    }
  }

  /** A request whose turns all throw after they have ended is claimed, run and given back for ever:
      a new session reaches a state from which there are quiet runs of any length, and every eleven
      steps lead back to it. */
  lemma ThrowingTurnsGoRound(x: Item, n: nat) returns (steps: seq<Step>)
    requires x.Runnable() && x.claimedat.None?
    ensures Reaches(FRESH, Again(x))
    ensures |steps| == n * 11 && QuietlyReaches(Again(x), steps, Again(x))
  {
    DrainOfFresh(x);
    var lap := SendBackLap(x, None);
    lap := TurnThrowsLap(x, lap, Again(x));
    lap := ClaimLap(x, lap, Again(x));
    steps := Laps(x, lap, n);
  }

  /** The same for a session whose turns cannot be started. */
  lemma RefusedStartsGoRound(x: Item, n: nat) returns (steps: seq<Step>)
    requires x.Runnable() && x.claimedat.None?
    ensures Reaches(FRESH, Again(x))
    ensures |steps| == n * 8 && QuietlyReaches(Again(x), steps, Again(x))
  {
    DrainOfFresh(x);
    var lap := SendBackLap(x, None);
    var a := Loop(x, true, IDLE_ROW, None, TurnStart(Own(x)));
    QuietThen(a, Act(0, Fail), Loop(x, true, IDLE_ROW, None, TurnFailed(Own(x))), lap, Again(x));
    lap := ClaimLap(x, [Act(0, Fail)] + lap, Again(x));
    steps := Laps(x, lap, n);
  }
}
