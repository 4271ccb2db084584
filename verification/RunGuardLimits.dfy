/** A run in which an input takes a guard that is taken and, refused by the row, frees it under the
    turn that runs: a drain starts beside that turn, and three items are claimed. */
module RunGuardLimits {
  import opened JsText
  import opened RequestQueue
  import opened SessionRow
  import opened TurnScheduler
  import opened TurnExclusionLimits
  import opened ClaimLedger
  import opened DrainLimits

  lemma Leads(s: State, a: State, step: Step, b: State)
    requires Reaches(s, a) && Enabled(a, step) && Next(a, step) == b
    ensures Reaches(s, b)
  {
    Then(s, a, step);
  }

  const ON := Started(IDLE_ROW)

  /** Two inputs are admitted; the turn of the first runs, and the second has freed the guard. */
  lemma GuardIsFreed()
    ensures Reaches(FRESH, With(ON, None, false, [TurnOpen(FromInput), Done]))
  {
    Here(FRESH);
    OneOfTwoStarts(FRESH, IDLE_ROW, []);
    assert [] + [TurnOpen(FromInput), InputAttaching] == [TurnOpen(FromInput), InputAttaching];
    var open, start, failed := TurnOpen(FromInput), TurnStart(FromInput), TurnFailed(FromInput);
    Leads(FRESH, With(ON, None, true, [open, InputAttaching]), Act(1, Go), With(ON, None, true, [open, start]));
    Leads(FRESH, With(ON, None, true, [open, start]), Act(1, Go), With(ON, None, true, [open, failed]));
    Leads(FRESH, With(ON, None, true, [open, failed]), Act(1, Go), With(ON, None, false, [open, Done]));
  }

  /** The first turn has ended, with no guard, and has yet to claim. */
  lemma TurnEndsUnguarded()
    ensures Reaches(FRESH, With(IDLE_ROW, Some(0), false, [TurnEnded(FromInput, 1), Done]))
  {
    GuardIsFreed();
    var open, live := TurnOpen(FromInput), TurnLive(FromInput);
    Leads(FRESH, With(ON, None, false, [open, Done]), Act(0, Go), With(ON, Some(0), false, [live, Done]));
    Leads(FRESH, With(ON, Some(0), false, [live, Done]), Act(0, Go),
          With(IDLE_ROW, Some(0), false, [TurnEnded(FromInput, 1), Done]));
  }

  /** Three requests, of which those below `claimed` are claimed, beside the turn of the first input. */
  function Stage(items: seq<Item>, claimed: nat, row: Row, scope: Option<nat>, first: Pc, third: Pc): State
    requires |items| == 3
  {
    State(Some(row), scope, Marked(items, claimed), UsedBy(items), true, [first, Done, third])
  }

  function UsedBy(items: seq<Item>): set<string>
    requires |items| == 3
  {
    {items[0].itemid} + {items[1].itemid} + {items[2].itemid}
  }

  /** One step of the third thread. */
  lemma ThirdMoves(items: seq<Item>, claimed: nat, row: Row, scope: Option<nat>, first: Pc, pc: Pc,
                   claimed': nat, row': Row, scope': Option<nat>, pc': Pc)
    requires Fit(items) && Reaches(FRESH, Stage(items, claimed, row, scope, first, pc))
    requires
      var a := Stage(items, claimed, row, scope, first, pc);
      && Open(a, pc, Go)
      && ActStep(a, 2, Go) == State(Some(row'), scope', Marked(items, claimed'), a.used, true, a.threads[2 := pc'])
    ensures Reaches(FRESH, Stage(items, claimed', row', scope', first, pc'))
  {
    Then(FRESH, Stage(items, claimed, row, scope, first, pc), Act(2, Go));
    assert [first, Done, pc][2 := pc'] == [first, Done, pc'];
  }

  function Marked(items: seq<Item>, claimed: nat): seq<Item>
    requires |items| == 3
  {
    seq(3, i requires 0 <= i < 3 => if i < claimed then items[i].(claimedat := Some(CLAIM_TIME)) else items[i])
  }

  predicate Fit(items: seq<Item>) {
    && |items| == 3 && items[0].Runnable() && items[1].Runnable() && items[2].Runnable()
    && items[0].itemid != items[1].itemid && items[0].itemid != items[2].itemid && items[1].itemid != items[2].itemid
  }

  /** What a claim makes of the three. */
  lemma NextOfThree(items: seq<Item>, claimed: nat)
    requires Fit(items) && claimed < 3
    ensures AfterClaim(Marked(items, claimed), CLAIM_TIME) == Marked(items, claimed + 1)
    ensures ClaimedId(Marked(items, claimed)) == Some(items[claimed].itemid)
  {
    var q := Marked(items, claimed);
    assert Pruned(q) == q;
    FirstRunnableIsFirst(q);
    assert q[claimed].Runnable() && forall i | 0 <= i < claimed :: !q[i].Runnable();
    assert FirstRunnable(q) == claimed;
    assert q[claimed := q[claimed].(claimedat := Some(CLAIM_TIME))] == Marked(items, claimed + 1);
  }

  /** A tool of a turn puts in a request. */
  lemma ToolInserts(queue: seq<Item>, used: set<string>, threads: seq<Pc>, item: Item)
    requires Reaches(FRESH, State(Some(IDLE_ROW), Some(0), queue, used, false, threads))
    requires item.itemid !in used && !item.Claimed()
    ensures Reaches(FRESH, State(Some(IDLE_ROW), Some(0), queue + [item], used + {item.itemid}, false, threads))
  {
    Then(FRESH, State(Some(IDLE_ROW), Some(0), queue, used, false, threads), InsertItem(End, item));
    InsertedAtEnd(queue, item);
  }

  lemma InsertedAtEnd(queue: seq<Item>, item: Item)
    ensures Inserted(queue, End, item) == queue + [item]
  {
  }

  lemma TwoAreQueued(x: Item, y: Item)
    requires x.Runnable() && y.Runnable() && x.itemid != y.itemid
    ensures Reaches(FRESH, State(Some(IDLE_ROW), Some(0), [x, y], {x.itemid} + {y.itemid}, false,
                                 [TurnEnded(FromInput, 1), Done]))
  {
    TurnEndsUnguarded();
    var threads := [TurnEnded(FromInput, 1), Done];
    ToolInserts([], {}, threads, x);
    assert [] + [x] == [x] && {} + {x.itemid} == {x.itemid};
    ToolInserts([x], {x.itemid}, threads, y);
    assert [x] + [y] == [x, y];
  }

  /** A queue-add message finds the row idle. */
  lemma ThirdIsAdded(items: seq<Item>)
    requires Fit(items)
    ensures
      var stage := Stage(items, 0, IDLE_ROW, Some(0), TurnEnded(FromInput, 1), AddQueued(false));
      Reaches(FRESH, stage.(guard := false))
  {
    var x, y, z := items[0], items[1], items[2];
    TwoAreQueued(x, y);
    var ended := TurnEnded(FromInput, 1);
    var c := State(Some(IDLE_ROW), Some(0), [x, y], {x.itemid} + {y.itemid}, false, [ended, Done]);
    AddSeesIdle(c);
    var e := c.(threads := [ended, Done, AddSeen(true, false)]);
    assert Inserted([x, y], End, z) == Marked(items, 0);
    assert e.threads[2 := AddQueued(false)] == [ended, Done, AddQueued(false)];
    Then(FRESH, e, Act(2, Put(z)));
  }

  lemma AddSeesIdle(c: State)
    requires Reaches(FRESH, c) && c.row == Some(IDLE_ROW) && |c.threads| == 2
    ensures Reaches(FRESH, c.(threads := [c.threads[0], c.threads[1], AddSeen(true, false)]))
  {
    Then(FRESH, c, Spawn(AddRead));
    var d := c.(threads := c.threads + [AddRead]);
    Then(FRESH, d, Act(2, Go));
    assert d.threads[2 := AddSeen(true, false)] == [c.threads[0], c.threads[1], AddSeen(true, false)];
  }

  /** It finds the guard free as well. */
  lemma DrainBesideTurn(items: seq<Item>)
    requires Fit(items)
    ensures Reaches(FRESH, Stage(items, 0, IDLE_ROW, Some(0), TurnEnded(FromInput, 1), DrainRead))
  {
    ThirdIsAdded(items);
    var ended := TurnEnded(FromInput, 1);
    var f := Stage(items, 0, IDLE_ROW, Some(0), ended, AddQueued(false)).(guard := false);
    Then(FRESH, f, Act(2, Go));
    assert f.threads[2 := DrainRead] == [ended, Done, DrainRead];
  }

  /** The drain claims the first request. */
  lemma DrainClaimsFirst(items: seq<Item>)
    requires Fit(items)
    ensures Reaches(FRESH, Stage(items, 1, IDLE_ROW, Some(0), TurnEnded(FromInput, 1), DrainClaimed(items[0].itemid)))
  {
    DrainBesideTurn(items);
    NextOfThree(items, 0);
    var ended, seen := TurnEnded(FromInput, 1), DrainSeen(true, false);
    ThirdMoves(items, 0, IDLE_ROW, Some(0), ended, DrainRead, 0, IDLE_ROW, Some(0), seen);
    ThirdMoves(items, 0, IDLE_ROW, Some(0), ended, seen, 1, IDLE_ROW, Some(0), DrainClaimed(items[0].itemid));
  }

  /** The turn beside it claims the second. */
  lemma TurnClaimsSecond(items: seq<Item>)
    requires Fit(items)
    ensures Reaches(FRESH, Stage(items, 2, IDLE_ROW, None, FirstDone(items), DrainClaimed(items[0].itemid)))
  {
    DrainClaimsFirst(items);
    NextOfThree(items, 1);
    FirstMoves(items, 1, Some(0), TurnEnded(FromInput, 1), DrainClaimed(items[0].itemid), 2, None, FirstDone(items));
  }

  /** One step of the first thread, on an idle row. */
  lemma FirstMoves(items: seq<Item>, claimed: nat, scope: Option<nat>, pc: Pc, third: Pc,
                   claimed': nat, scope': Option<nat>, pc': Pc)
    requires Fit(items) && Reaches(FRESH, Stage(items, claimed, IDLE_ROW, scope, pc, third))
    requires
      var a := Stage(items, claimed, IDLE_ROW, scope, pc, third);
      && Open(a, pc, Go)
      && ActStep(a, 0, Go) == State(Some(IDLE_ROW), scope', Marked(items, claimed'), a.used, true, a.threads[0 := pc'])
    ensures Reaches(FRESH, Stage(items, claimed', IDLE_ROW, scope', pc', third))
  {
    Then(FRESH, Stage(items, claimed, IDLE_ROW, scope, pc, third), Act(0, Go));
    assert [pc, Done, third][0 := pc'] == [pc', Done, third];
  }

  function FirstDone(items: seq<Item>): Pc
    requires |items| == 3
  {
    TurnDone(FromInput, Some(Request(Some(items[1].itemid))))
  }

  function RunsFirst(items: seq<Item>): Origin
    requires |items| == 3
  {
    FromChain(Request(Some(items[0].itemid)), 1)
  }

  /** The drain's chain comes to the turn of the first request. */
  lemma ChainReachesTurn(items: seq<Item>)
    requires Fit(items)
    ensures Reaches(FRESH, Stage(items, 2, IDLE_ROW, None, FirstDone(items), TurnStart(RunsFirst(items))))
  {
    TurnClaimsSecond(items);
    var request, first := Request(Some(items[0].itemid)), FirstDone(items);
    var read, seen := ChainRead(request, 1), ChainSeen(request, 1, true, false);
    ThirdMoves(items, 2, IDLE_ROW, None, first, DrainClaimed(items[0].itemid), 2, IDLE_ROW, None, read);
    ThirdMoves(items, 2, IDLE_ROW, None, first, read, 2, IDLE_ROW, None, seen);
    ThirdMoves(items, 2, IDLE_ROW, None, first, seen, 2, IDLE_ROW, None, TurnStart(RunsFirst(items)));
  }

  lemma ChainTurnRuns(items: seq<Item>)
    requires Fit(items)
    ensures Reaches(FRESH, Stage(items, 2, ON, Some(2), FirstDone(items), TurnLive(RunsFirst(items))))
  {
    ChainReachesTurn(items);
    var origin, first := RunsFirst(items), FirstDone(items);
    ThirdMoves(items, 2, IDLE_ROW, None, first, TurnStart(origin), 2, ON, None, TurnOpen(origin));
    ThirdMoves(items, 2, ON, None, first, TurnOpen(origin), 2, ON, Some(2), TurnLive(origin));
  }

  lemma ChainTurnEnds(items: seq<Item>)
    requires Fit(items)
    ensures Reaches(FRESH, Stage(items, 2, IDLE_ROW, Some(2), FirstDone(items), TurnEnded(RunsFirst(items), 1)))
  {
    ChainTurnRuns(items);
    var origin, first := RunsFirst(items), FirstDone(items);
    ThirdMoves(items, 2, ON, Some(2), first, TurnLive(origin), 2, IDLE_ROW, Some(2), TurnEnded(origin, 1));
  }

  function LastDone(items: seq<Item>): Pc
    requires |items| == 3
  {
    TurnDone(RunsFirst(items), Some(Request(Some(items[2].itemid))))
  }

  /** Its end claims the third. */
  lemma ChainClaimsThird(items: seq<Item>)
    requires Fit(items)
    ensures Reaches(FRESH, Stage(items, 3, IDLE_ROW, None, FirstDone(items), LastDone(items)))
  {
    ChainTurnEnds(items);
    NextOfThree(items, 2);
    ThirdMoves(items, 2, IDLE_ROW, Some(2), FirstDone(items), TurnEnded(RunsFirst(items), 1),
               3, IDLE_ROW, None, LastDone(items));
  }

  lemma ThreeOwners(s: State, items: seq<Item>)
    requires Fit(items) && s.threads == [FirstDone(items), Done, LastDone(items)]
    ensures HasOwner(s, items[0].itemid) && HasOwner(s, items[1].itemid) && HasOwner(s, items[2].itemid)
  {
    assert items[1].itemid in Owned(s.threads[0]);
    assert items[0].itemid in Owned(s.threads[2]) && items[2].itemid in Owned(s.threads[2]);
  }

  /** Three items are claimed, and every claim has its owner: two chains run beside each other. */
  lemma FreedGuardLetsThreeBeClaimed(items: seq<Item>) returns (s: State)
    requires Fit(items)
    ensures Reaches(FRESH, s) && AllOwned(s)
    ensures ClaimedIds(s.queue) == {items[0].itemid, items[1].itemid, items[2].itemid} && |ClaimedIds(s.queue)| == 3
  {
    ChainClaimsThird(items);
    s := Stage(items, 3, IDLE_ROW, None, FirstDone(items), LastDone(items));
    ThreeAreClaimed(items, s.queue);
    ThreeOwners(s, items);
  }

  lemma ThreeAreClaimed(items: seq<Item>, q: seq<Item>)
    requires Fit(items) && q == Marked(items, 3)
    ensures ClaimedIds(q) == {items[0].itemid, items[1].itemid, items[2].itemid} && |ClaimedIds(q)| == 3
  {
    assert q[0].Claimed() && q[1].Claimed() && q[2].Claimed();
  }
}
