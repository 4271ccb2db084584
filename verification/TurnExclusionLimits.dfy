/** Runs in which a stray end lets a second turn start: each kind of stray end does it. */
module TurnExclusionLimits {
  import opened JsText
  import opened RequestQueue
  import opened SessionRow
  import opened TurnScheduler
  import opened TurnExclusion

  ghost predicate Reaches(s: State, s': State) {
    exists steps :: Runs(s, steps) && Outcome(s, steps) == s'
  }

  lemma Then(s: State, a: State, step: Step)
    requires Reaches(s, a) && Enabled(a, step)
    ensures Reaches(s, Next(a, step))
  {
    var steps :| Runs(s, steps) && Outcome(s, steps) == a;
    Prepend(a, step, Next(a, step), []);
    Append(s, steps, [step] + []);
  }

  lemma Here(s: State)
    ensures Reaches(s, s)
  {
    assert Runs(s, []) && Outcome(s, []) == s;
  }

  function With(row: Row, scope: Option<nat>, guard: bool, threads: seq<Pc>): State {
    State(Some(row), scope, [], {}, guard, threads)
  }

  /** A new input message is let through while the row is idle and the guard is free. */
  lemma InputAdmitted(s: State, row: Row, scope: Option<nat>, threads: seq<Pc>)
    requires Reaches(s, With(row, scope, false, threads)) && !row.isrunning
    ensures Reaches(s, With(row, scope, false, threads + [InputAttaching]))
  {
    var t := |threads|;
    var a := With(row, scope, false, threads);
    Then(s, a, Spawn(InputRead));
    var b := Next(a, Spawn(InputRead));
    Then(s, b, Act(t, Go));
    var c := Next(b, Act(t, Go));
    assert c.threads == threads + [InputSeen(true, false)];
    Then(s, c, Act(t, Go));
    assert Next(c, Act(t, Go)).threads == threads + [InputAttaching];
  }

  /** An admitted input takes the guard and starts its turn, whoever holds the guard. */
  lemma InputStarts(s: State, row: Row, scope: Option<nat>, guard: bool, threads: seq<Pc>, t: nat)
    requires Reaches(s, With(row, scope, guard, threads)) && !row.isrunning
    requires t < |threads| && threads[t] == InputAttaching
    ensures Reaches(s, With(Started(row), scope, true, threads[t := TurnOpen(FromInput)]))
  {
    var a := With(row, scope, guard, threads);
    Then(s, a, Act(t, Go));
    var b := Next(a, Act(t, Go));
    assert b == With(row, scope, true, threads[t := TurnStart(FromInput)]);
    Then(s, b, Act(t, Go));
    assert b.threads[t := TurnOpen(FromInput)] == threads[t := TurnOpen(FromInput)];
  }

  /** One step of one thread that touches only the row and the scope. */
  lemma Moves(s: State, row: Row, scope: Option<nat>, guard: bool, threads: seq<Pc>, t: nat, choice: Choice,
              row': Row, scope': Option<nat>, pc: Pc)
    requires Reaches(s, With(row, scope, guard, threads))
    requires t < |threads| && Open(With(row, scope, guard, threads), threads[t], choice)
    requires ActStep(With(row, scope, guard, threads), t, choice) == With(row', scope', guard, threads[t := pc])
    ensures Reaches(s, With(row', scope', guard, threads[t := pc]))
  {
    Then(s, With(row, scope, guard, threads), Act(t, choice));
  }

  /** The compaction of a branched session is launched: its row is running. */
  lemma BranchLaunches()
    ensures Reaches(BRANCHED, With(InPhase(Started(IDLE_ROW), "compacting"), None, false, [BranchLive]))
  {
    BranchIsMarked();
    var row := InPhase(Started(IDLE_ROW), "compacting");
    assert [BranchPhased][0 := BranchLive] == [BranchLive];
    Moves(BRANCHED, row, None, false, [BranchPhased], 0, Go, row, None, BranchLive);
  }

  lemma BranchIsMarked()
    ensures Reaches(BRANCHED, With(InPhase(Started(IDLE_ROW), "compacting"), None, false, [BranchPhased]))
  {
    Here(BRANCHED);
    var on := Started(IDLE_ROW);
    assert [BranchCreated][0 := BranchStarted] == [BranchStarted];
    Moves(BRANCHED, IDLE_ROW, None, false, [BranchCreated], 0, Go, on, None, BranchStarted);
    assert [BranchStarted][0 := BranchPhased] == [BranchPhased];
    Moves(BRANCHED, on, None, false, [BranchStarted], 0, Go, InPhase(on, "compacting"), None, BranchPhased);
  }

  lemma BranchFails(s: State, row: Row, scope: Option<nat>, guard: bool, threads: seq<Pc>, t: nat)
    requires Reaches(s, With(row, scope, guard, threads)) && t < |threads| && threads[t] == BranchLive
    ensures Reaches(s, With(Ended(row), scope, guard, threads[t := BranchFailed(true)]))
  {
    Moves(s, row, scope, guard, threads, t, Fail, Ended(row), scope, BranchFailed(true));
  }

  lemma BranchEndsAgain(s: State, row: Row, scope: Option<nat>, guard: bool, threads: seq<Pc>, t: nat)
    requires Reaches(s, With(row, scope, guard, threads)) && t < |threads| && threads[t] == BranchFailed(true)
    ensures Reaches(s, With(Ended(row), scope, guard, threads[t := Done]))
  {
    Moves(s, row, scope, guard, threads, t, Go, Ended(row), scope, Done);
  }

  lemma TurnRegisters(s: State, row: Row, scope: Option<nat>, guard: bool, threads: seq<Pc>, t: nat)
    requires Reaches(s, With(row, scope, guard, threads)) && t < |threads| && threads[t] == TurnOpen(FromInput)
    ensures Reaches(s, With(row, Some(t), guard, threads[t := TurnLive(FromInput)]))
  {
    Moves(s, row, scope, guard, threads, t, Go, row, Some(t), TurnLive(FromInput));
  }

  lemma TurnEnds(s: State, row: Row, scope: Option<nat>, guard: bool, threads: seq<Pc>, t: nat)
    requires Reaches(s, With(row, scope, guard, threads)) && t < |threads| && threads[t] == TurnLive(FromInput)
    ensures Reaches(s, With(Ended(row), scope, guard, threads[t := TurnEnded(FromInput, 1)]))
  {
    Moves(s, row, scope, guard, threads, t, Go, Ended(row), scope, TurnEnded(FromInput, 1));
  }

  lemma TurnEndsAgain(s: State, row: Row, scope: Option<nat>, guard: bool, threads: seq<Pc>, t: nat)
    requires Reaches(s, With(row, scope, guard, threads)) && t < |threads| && threads[t] == TurnEnded(FromInput, 1)
    ensures Reaches(s, With(Ended(row), scope, guard, threads[t := TurnEnded(FromInput, 2)]))
  {
    Moves(s, row, scope, guard, threads, t, EndTwice(false), Ended(row), scope, TurnEnded(FromInput, 2));
  }

  lemma InterruptReads(s: State, row: Row, guard: bool, threads: seq<Pc>, t: nat)
    requires Reaches(s, With(row, None, guard, threads)) && t < |threads| && threads[t] == InterruptRead(false)
    requires row.isrunning && row.turnphase == "starting"
    ensures Reaches(s, With(row, None, guard, threads[t := InterruptSeen(false, true, true, false)]))
  {
    Moves(s, row, None, guard, threads, t, Go, row, None, InterruptSeen(false, true, true, false));
  }

  lemma InterruptAdmitted(s: State, row: Row, guard: bool, threads: seq<Pc>, t: nat)
    requires Reaches(s, With(row, None, guard, threads)) && t < |threads|
    requires threads[t] == InterruptSeen(false, true, true, false)
    ensures Reaches(s, With(row, None, guard, threads[t := InterruptAsking]))
  {
    Moves(s, row, None, guard, threads, t, Go, row, None, InterruptAsking);
  }

  lemma InterruptAsks(s: State, row: Row, guard: bool, threads: seq<Pc>, t: nat)
    requires Reaches(s, With(row, None, guard, threads)) && t < |threads| && threads[t] == InterruptAsking
    ensures
      var asked := SessionRow.InterruptAsked(row, None, 0);
      Reaches(s, With(asked, None, guard, threads[t := TurnScheduler.InterruptAsked]))
  {
    var asked := SessionRow.InterruptAsked(row, None, 0);
    Moves(s, row, None, guard, threads, t, Go, asked, None, TurnScheduler.InterruptAsked);
  }

  lemma InterruptUnaccepted(s: State, row: Row, guard: bool, threads: seq<Pc>, t: nat)
    requires Reaches(s, With(row, None, guard, threads)) && t < |threads| && threads[t] == TurnScheduler.InterruptAsked
    ensures Reaches(s, With(row, None, guard, threads[t := InterruptAnswered(false)]))
  {
    Moves(s, row, None, guard, threads, t, Go, row, None, InterruptAnswered(false));
  }

  lemma InterruptCompletes(s: State, row: Row, guard: bool, threads: seq<Pc>, t: nat)
    requires Reaches(s, With(row, None, guard, threads)) && t < |threads| && threads[t] == InterruptAnswered(false)
    ensures Reaches(s, With(InterruptDone(row, 0), None, guard, threads[t := Done]))
  {
    Moves(s, row, None, guard, threads, t, Go, InterruptDone(row, 0), None, Done);
  }

  /** Two admitted inputs on an idle row, the first of them with its turn started. */
  lemma OneOfTwoStarts(s: State, row: Row, threads: seq<Pc>)
    requires Reaches(s, With(row, None, false, threads)) && !row.isrunning
    ensures Reaches(s, With(Started(row), None, true, threads + [TurnOpen(FromInput), InputAttaching]))
  {
    InputAdmitted(s, row, None, threads);
    InputAdmitted(s, row, None, threads + [InputAttaching]);
    var two := threads + [InputAttaching] + [InputAttaching];
    InputStarts(s, row, None, false, two, |threads|);
    assert two[|threads| := TurnOpen(FromInput)] == threads + [TurnOpen(FromInput), InputAttaching];
  }

  /** A failed branch compaction ends its turn twice; a turn started in between loses its flag. */
  lemma BranchFailureEndsTwice() returns (s: State)
    ensures Reaches(BRANCHED, s) && !AtMostOneLive(s)
  {
    var row := InPhase(Started(IDLE_ROW), "compacting");
    BranchLaunches();
    BranchFails(BRANCHED, row, None, false, [BranchLive], 0);
    assert [BranchLive][0 := BranchFailed(true)] == [BranchFailed(true)];
    OneOfTwoStarts(BRANCHED, Ended(row), [BranchFailed(true)]);
    s := BranchEndsWhileTurnRuns(Started(Ended(row)), [BranchFailed(true)] + [TurnOpen(FromInput), InputAttaching]);
  }

  lemma BranchEndsWhileTurnRuns(on: Row, threads: seq<Pc>) returns (s: State)
    requires threads == [BranchFailed(true), TurnOpen(FromInput), InputAttaching]
    requires Reaches(BRANCHED, With(on, None, true, threads))
    ensures Reaches(BRANCHED, s) && !AtMostOneLive(s)
  {
    BranchEndsAgain(BRANCHED, on, None, true, threads, 0);
    var off := threads[0 := Done];
    InputStarts(BRANCHED, Ended(on), None, true, off, 2);
    s := With(Started(Ended(on)), None, true, off[2 := TurnOpen(FromInput)]);
    assert Live(s.threads[1]) && Live(s.threads[2]);
  }

  /** A turn whose end event throws is ended again by its failure path, by which time another
      input may have started. */
  lemma TurnEndsTwice() returns (s: State)
    ensures Reaches(FRESH, s) && !AtMostOneLive(s)
  {
    Here(FRESH);
    InputAdmitted(FRESH, IDLE_ROW, None, []);
    OneOfTwoStarts(FRESH, IDLE_ROW, [] + [InputAttaching]);
    var a := [] + [InputAttaching] + [TurnOpen(FromInput), InputAttaching];
    var on := Started(IDLE_ROW);
    TurnRegisters(FRESH, on, None, true, a, 1);
    var b := a[1 := TurnLive(FromInput)];
    TurnEnds(FRESH, on, Some(1), true, b, 1);
    var c := b[1 := TurnEnded(FromInput, 1)];
    var off := Ended(on);
    InputStarts(FRESH, off, Some(1), true, c, 0);
    var d := c[0 := TurnOpen(FromInput)];
    TurnEndsAgain(FRESH, Started(off), Some(1), true, d, 1);
    var e := d[1 := TurnEnded(FromInput, 2)];
    InputStarts(FRESH, Ended(Started(off)), Some(1), true, e, 2);
    s := With(Started(Ended(Started(off))), Some(1), true, e[2 := TurnOpen(FromInput)]);
    assert Live(s.threads[0]) && Live(s.threads[2]);
  }

  /** An interrupt asked for between the start of a turn and its registration is not accepted, and
      completing it clears the flag of the live turn. */
  lemma UnacceptedInterruptClearsLiveTurn() returns (s: State)
    ensures Reaches(FRESH, s) && !AtMostOneLive(s)
  {
    Here(FRESH);
    OneOfTwoStarts(FRESH, IDLE_ROW, []);
    var on := Started(IDLE_ROW);
    var a := [] + [TurnOpen(FromInput), InputAttaching];
    Then(FRESH, With(on, None, true, a), Spawn(InterruptRead(false)));
    var b := a + [InterruptRead(false)];
    InterruptStripsFlag(FRESH, on, b, 2);
    var off := InterruptDone(SessionRow.InterruptAsked(on, None, 0), 0);
    InputStarts(FRESH, off, None, true, b[2 := Done], 1);
    s := With(Started(off), None, true, b[2 := Done][1 := TurnOpen(FromInput)]);
    assert Live(s.threads[0]) && Live(s.threads[1]);
  }

  lemma InterruptStripsFlag(s: State, on: Row, threads: seq<Pc>, t: nat)
    requires on.isrunning && on.turnphase == "starting"
    requires t < |threads| && threads[t] == InterruptRead(false)
    requires Reaches(s, With(on, None, true, threads))
    ensures Reaches(s, With(InterruptDone(SessionRow.InterruptAsked(on, None, 0), 0), None, true, threads[t := Done]))
  {
    InterruptIsAsked(s, on, threads, t);
    var e := threads[t := TurnScheduler.InterruptAsked];
    InterruptGoesUnanswered(s, SessionRow.InterruptAsked(on, None, 0), e, t);
    assert e[t := Done] == threads[t := Done];
  }

  lemma InterruptIsAsked(s: State, on: Row, threads: seq<Pc>, t: nat)
    requires on.isrunning && on.turnphase == "starting"
    requires t < |threads| && threads[t] == InterruptRead(false)
    requires Reaches(s, With(on, None, true, threads))
    ensures
      var asked := SessionRow.InterruptAsked(on, None, 0);
      Reaches(s, With(asked, None, true, threads[t := TurnScheduler.InterruptAsked]))
  {
    InterruptReads(s, on, true, threads, t);
    var c := threads[t := InterruptSeen(false, true, true, false)];
    InterruptAdmitted(s, on, true, c, t);
    var d := c[t := InterruptAsking];
    InterruptAsks(s, on, true, d, t);
    assert d[t := TurnScheduler.InterruptAsked] == threads[t := TurnScheduler.InterruptAsked];
  }

  lemma InterruptGoesUnanswered(s: State, asked: Row, threads: seq<Pc>, t: nat)
    requires t < |threads| && threads[t] == TurnScheduler.InterruptAsked
    requires Reaches(s, With(asked, None, true, threads))
    ensures Reaches(s, With(InterruptDone(asked, 0), None, true, threads[t := Done]))
  {
    InterruptUnaccepted(s, asked, true, threads, t);
    var f := threads[t := InterruptAnswered(false)];
    InterruptCompletes(s, asked, true, f, t);
    assert f[t := Done] == threads[t := Done];
  }
}
