/** What every model request keeps, whatever the provider answers: how often it sends, what makes it
    send again, what it remembers, and what it may return. */
module RetryLimits {
  import opened JsText
  import opened RetryDriver

  function Count(log: seq<Sent>, mode: InputMode): nat {
    if log == [] then 0 else (if log[0].mode == mode then 1 else 0) + Count(log[1..], mode)
  }

  /** A mode that can still be tried: the first body for what is left of its attempts, the second
      for all of them. */
  function Budget(bodies: seq<InputMode>, attempt: nat, mode: InputMode): int
    requires 1 <= |bodies| <= 2
  {
    if mode == bodies[0] then MAX_TRANSIENT_ATTEMPTS - attempt + 1
    else if mode in bodies then MAX_TRANSIENT_ATTEMPTS
    else 0
  }

  predicate Distinct(bodies: seq<InputMode>) {
    1 <= |bodies| <= 2 && (|bodies| == 2 ==> bodies[0] != bodies[1])
  }

  lemma {:induction false} SendsWithinBudget(bodies: seq<InputMode>, attempt: nat, rejected: set<InputMode>,
                                             strict: bool, script: nat -> Exchange, n: nat, mode: InputMode)
    requires Distinct(bodies) && 1 <= attempt <= MAX_TRANSIENT_ATTEMPTS
    ensures Count(Resume(bodies, attempt, rejected, strict, script, n).log, mode) <= Budget(bodies, attempt, mode)
    decreases |bodies|, MAX_TRANSIENT_ATTEMPTS - attempt
  {
    var x := script(n);
    if !x.abortedBefore {
      var ruling := Judge(x, attempt, strict);
      if ruling.Again? {
        SendsWithinBudget(bodies, attempt + 1, rejected, strict, script, n + 1, mode);
      } else if ruling.Fallback? && |bodies| == 2 {
        SendsWithinBudget(bodies[1..], 1, rejected + {bodies[0]}, strict, script, n + 1, mode);
      }
    }
  }

  lemma {:induction false} CountsMakeLength(log: seq<Sent>)
    ensures |log| == Count(log, TextInput) + Count(log, ArrayInput)
  {
    if log != [] { CountsMakeLength(log[1..]); }
  }

  /** At most two requests for each way of writing the input, so at most four in all. */
  lemma CallsAreBounded(attachments: bool, rejected: set<InputMode>, strict: bool, script: nat -> Exchange)
    ensures
      var log := Call(attachments, rejected, strict, script).log;
      && Count(log, TextInput) <= MAX_TRANSIENT_ATTEMPTS
      && Count(log, ArrayInput) <= MAX_TRANSIENT_ATTEMPTS
      && |log| <= 2 * MAX_TRANSIENT_ATTEMPTS
  {
    var bodies := Bodies(attachments, rejected);
    SendsWithinBudget(bodies, 1, rejected, strict, script, 0, TextInput);
    SendsWithinBudget(bodies, 1, rejected, strict, script, 0, ArrayInput);
    CountsMakeLength(Call(attachments, rejected, strict, script).log);
  }

  // ----- what makes a call send again ----------------------------------------------------

  /** Each request is justified by the reply to the one before: the same input again after a
      passing fault, the other input after a rejection, and then never the first one again. */
  predicate Orderly(log: seq<Sent>, strict: bool) {
    |log| <= 1 ||
    (Orderly(log[1..], strict) &&
     if log[1].mode == log[0].mode then Transient(log[0].reply)
     else !strict && InputRejected(log[0].reply) && Count(log[1..], log[0].mode) == 0)
  }

  lemma {:induction false} ResumeIsOrderly(bodies: seq<InputMode>, attempt: nat, rejected: set<InputMode>,
                                           strict: bool, script: nat -> Exchange, n: nat)
    requires Distinct(bodies) && 1 <= attempt <= MAX_TRANSIENT_ATTEMPTS
    ensures
      var log := Resume(bodies, attempt, rejected, strict, script, n).log;
      Orderly(log, strict) && (log != [] ==> log[0].mode == bodies[0])
    decreases |bodies|, MAX_TRANSIENT_ATTEMPTS - attempt
  {
    var x := script(n);
    if !x.abortedBefore {
      var ruling := Judge(x, attempt, strict);
      var log := Resume(bodies, attempt, rejected, strict, script, n).log;
      if ruling.Again? {
        ResumeIsOrderly(bodies, attempt + 1, rejected, strict, script, n + 1);
        assert log[1..] == Resume(bodies, attempt + 1, rejected, strict, script, n + 1).log;
      } else if ruling.Fallback? && |bodies| == 2 {
        var rejected' := rejected + {bodies[0]};
        ResumeIsOrderly(bodies[1..], 1, rejected', strict, script, n + 1);
        SendsWithinBudget(bodies[1..], 1, rejected', strict, script, n + 1, bodies[0]);
        assert log[1..] == Resume(bodies[1..], 1, rejected', strict, script, n + 1).log;
      }
    }
  }

  lemma CallsAreOrderly(attachments: bool, rejected: set<InputMode>, strict: bool, script: nat -> Exchange)
    ensures Orderly(Call(attachments, rejected, strict, script).log, strict)
  {
    ResumeIsOrderly(Bodies(attachments, rejected), 1, rejected, strict, script, 0);
  }

  // ----- what a call remembers -----------------------------------------------------------

  ghost predicate Sends(log: seq<Sent>, mode: InputMode) {
    exists k | 0 <= k < |log| :: log[k].mode == mode
  }

  /** The mode was sent and the provider said it cannot read it. */
  ghost predicate SeenRejected(log: seq<Sent>, mode: InputMode) {
    exists k | 0 <= k < |log| :: log[k].mode == mode && InputRejected(log[k].reply)
  }

  /** The provider refused the request for the type of its input. */
  predicate RefusedInput(reply: Reply) {
    reply.Refused? && InputRejected(reply)
  }

  ghost predicate Remembers(run: Run, rejected: set<InputMode>, strict: bool) {
    && rejected <= run.rejected
    && (strict ==> run.rejected == rejected)
    && (forall m | m in run.rejected && m !in rejected :: SeenRejected(run.log, m))
    && (!strict ==> forall k | 0 <= k < |run.log| && RefusedInput(run.log[k].reply) :: run.log[k].mode in run.rejected)
  }

  lemma RemembersMore(sent: Sent, run: Run, rejected: set<InputMode>, strict: bool)
    requires Remembers(run, rejected, strict) && (!strict && RefusedInput(sent.reply) ==> sent.mode in rejected)
    ensures Remembers(Logged(sent, run), rejected, strict)
  {
    var log := [sent] + run.log;
    forall m | m in run.rejected && m !in rejected ensures SeenRejected(log, m) {
      var k :| 0 <= k < |run.log| && run.log[k].mode == m && InputRejected(run.log[k].reply);
      assert log[k + 1] == run.log[k];
    }
  }

  lemma {:induction false} ResumeRemembers(bodies: seq<InputMode>, attempt: nat, rejected: set<InputMode>,
                                           strict: bool, script: nat -> Exchange, n: nat)
    requires 1 <= |bodies| <= 2 && attempt <= MAX_TRANSIENT_ATTEMPTS
    ensures Remembers(Resume(bodies, attempt, rejected, strict, script, n), rejected, strict)
    decreases |bodies|, MAX_TRANSIENT_ATTEMPTS - attempt
  {
    var x := script(n);
    if !x.abortedBefore {
      var ruling := Judge(x, attempt, strict);
      var sent := Sent(bodies[0], x.reply);
      if ruling.Again? {
        ResumeRemembers(bodies, attempt + 1, rejected, strict, script, n + 1);
        RemembersMore(sent, Resume(bodies, attempt + 1, rejected, strict, script, n + 1), rejected, strict);
      } else if ruling.Fallback? {
        var rejected' := rejected + {bodies[0]};
        if |bodies| == 2 {
          ResumeRemembers(bodies[1..], 1, rejected', strict, script, n + 1);
          RemembersMore(sent, Resume(bodies[1..], 1, rejected', strict, script, n + 1), rejected', strict);
        }
        var run := Resume(bodies, attempt, rejected, strict, script, n);
        assert run.log[0] == sent;
        assert SeenRejected(run.log, bodies[0]);
      }
    }
  }

  /** The memory only grows, by modes the provider rejected in this call; strict calls add nothing. */
  lemma CallsRemember(attachments: bool, rejected: set<InputMode>, strict: bool, script: nat -> Exchange)
    ensures Remembers(Call(attachments, rejected, strict, script), rejected, strict)
  {
    ResumeRemembers(Bodies(attachments, rejected), 1, rejected, strict, script, 0);
  }

  lemma CountMeansSent(log: seq<Sent>, mode: InputMode)
    ensures Count(log, mode) > 0 <==> Sends(log, mode)
  {
    if log != [] {
      CountMeansSent(log[1..], mode);
      if Sends(log, mode) {
        var k :| 0 <= k < |log| && log[k].mode == mode;
        assert k > 0 ==> log[1..][k - 1].mode == mode;
      }
      if Sends(log[1..], mode) {
        var k :| 0 <= k < |log[1..]| && log[1..][k].mode == mode;
        assert log[k + 1].mode == mode;
      }
    }
  }

  /** A remembered mode is not sent, unless both are remembered; then only the preferred one is. */
  lemma RememberedIsNotSent(attachments: bool, rejected: set<InputMode>, strict: bool, script: nat -> Exchange,
                            mode: InputMode)
    requires mode in rejected && Sends(Call(attachments, rejected, strict, script).log, mode)
    ensures TextInput in rejected && ArrayInput in rejected && mode == Preferred(attachments)[0]
  {
    var bodies := Bodies(attachments, rejected);
    SendsWithinBudget(bodies, 1, rejected, strict, script, 0, mode);
    CountMeansSent(Call(attachments, rejected, strict, script).log, mode);
    AllowedAreNew(Preferred(attachments), rejected, mode);
    var preferred := Preferred(attachments);
    AllowedAreNew(preferred, rejected, preferred[0]);
    AllowedAreNew(preferred, rejected, preferred[1]);
  }

  lemma {:induction false} AllowedAreNew(modes: seq<InputMode>, rejected: set<InputMode>, mode: InputMode)
    ensures mode in Allowed(modes, rejected) <==> mode in modes && mode !in rejected
  {
    if modes != [] { AllowedAreNew(modes[1..], rejected, mode); }
  }

  // ----- how a call ends -----------------------------------------------------------------

  function CauseOf(reply: Reply): Cause {
    match reply
    case Refused(status, _) => Status(status)
    case Streamed(_) => EmptyStream
    case Answered(_) => EmptyPayload
    case Threw(error) => Raised(error)
  }

  function ResponseOf(reply: Reply): Option<Response> {
    match reply
    case Streamed(response) => Some(response)
    case Answered(response) => Some(response)
    case _ => None
  }

  /** A reply after which the call waits before it sends the same input again. */
  predicate Waits(reply: Reply) {
    Transient(reply) && (InputRejected(reply) ==> reply.Threw? && reply.error.toolCallParse)
  }

  /** The abort signal was set where it is read: before the next request, in the catch of the last
      one, or in the wait after it; the exchanges from `n` on are those of the run, made after `spent`
      attempts with `mode`. */
  predicate Stopped(run: Run, mode: InputMode, spent: nat, script: nat -> Exchange, n: nat) {
    || script(n + |run.log|).abortedBefore
    || (run.log != [] &&
        var x := script(n + |run.log| - 1);
        || (x.reply.Threw? && x.abortedInCatch)
        || (x.abortedInWait && Waits(x.reply) && Attempts(run, mode, spent) < MAX_TRANSIENT_ATTEMPTS))
  }

  /** How often the last input mode was sent. */
  function Attempts(run: Run, mode: InputMode, spent: nat): nat
    requires run.log != []
  {
    Count(run.log, Last(run).mode) + if Last(run).mode == mode then spent else 0
  }

  /** The outcome is that of the last reply; an empty answer is never returned, a call fails only when
      its last reply could not be retried, or its attempts were used up, and it is aborted only when
      the signal was seen to be set. */
  predicate Justified(run: Run, script: nat -> Exchange) {
    match run.outcome
    case Returned(response) =>
      run.log != [] && Useful(response) && ResponseOf(Last(run).reply) == Some(response)
    case Failed(cause) =>
      && run.log != [] && cause == CauseOf(Last(run).reply)
      && (ResponseOf(Last(run).reply).Some? ==> !Useful(ResponseOf(Last(run).reply).value))
      && (Transient(Last(run).reply) ==>
            InputRejected(Last(run).reply) || Count(run.log, Last(run).mode) == MAX_TRANSIENT_ATTEMPTS)
    case Aborted => Stopped(run, TextInput, 0, script, 0)
  }

  function Last(run: Run): Sent
    requires run.log != []
  {
    run.log[|run.log| - 1]
  }

  /** `Justified` for a call resumed at exchange `n`, after `spent` attempts with its first body. */
  predicate JustifiedFrom(run: Run, mode: InputMode, spent: nat, script: nat -> Exchange, n: nat) {
    match run.outcome
    case Failed(cause) =>
      && run.log != [] && cause == CauseOf(Last(run).reply)
      && (ResponseOf(Last(run).reply).Some? ==> !Useful(ResponseOf(Last(run).reply).value))
      && (Transient(Last(run).reply) ==>
            InputRejected(Last(run).reply) || Attempts(run, mode, spent) == MAX_TRANSIENT_ATTEMPTS)
    case Aborted => Stopped(run, mode, spent, script, n)
    case _ => Justified(run, script)
  }

  lemma OneMoreIsJustified(sent: Sent, run: Run, mode: InputMode, spent: nat, script: nat -> Exchange, n: nat)
    requires JustifiedFrom(run, mode, spent, script, n + 1) && sent.mode == mode && spent > 0
    requires run.log == [] ==> spent < MAX_TRANSIENT_ATTEMPTS || script(n + 1).abortedBefore
    ensures JustifiedFrom(Logged(sent, run), mode, spent - 1, script, n)
  {
    assert ([sent] + run.log)[1..] == run.log;
    if run.log == [] { assert Count([sent], mode) == 1; }
  }

  lemma FirstIsJustified(sent: Sent, run: Run, mode: InputMode, spent: nat, script: nat -> Exchange, n: nat)
    requires JustifiedFrom(run, mode, 0, script, n + 1) && sent.mode != mode
    requires run.log != [] ==> Last(run).mode == mode
    ensures JustifiedFrom(Logged(sent, run), sent.mode, spent, script, n)
  {
    assert ([sent] + run.log)[1..] == run.log;
  }

  lemma AgainIsJustified(bodies: seq<InputMode>, attempt: nat, rejected: set<InputMode>, strict: bool,
                         script: nat -> Exchange, n: nat)
    requires Distinct(bodies) && 1 <= attempt <= MAX_TRANSIENT_ATTEMPTS && !script(n).abortedBefore
    requires Judge(script(n), attempt, strict).Again?
    requires
      var rest := Resume(bodies, attempt + 1, rejected, strict, script, n + 1);
      JustifiedFrom(rest, bodies[0], attempt, script, n + 1)
    ensures JustifiedFrom(Resume(bodies, attempt, rejected, strict, script, n), bodies[0], attempt - 1, script, n)
  {
    var rest := Resume(bodies, attempt + 1, rejected, strict, script, n + 1);
    OneMoreIsJustified(Sent(bodies[0], script(n).reply), rest, bodies[0], attempt, script, n);
  }

  lemma FallbackIsJustified(bodies: seq<InputMode>, attempt: nat, rejected: set<InputMode>, strict: bool,
                            script: nat -> Exchange, n: nat)
    requires Distinct(bodies) && |bodies| == 2 && 1 <= attempt <= MAX_TRANSIENT_ATTEMPTS
    requires !script(n).abortedBefore && Judge(script(n), attempt, strict).Fallback?
    requires
      var rest := Resume(bodies[1..], 1, rejected + {bodies[0]}, strict, script, n + 1);
      JustifiedFrom(rest, bodies[1], 0, script, n + 1) && (rest.log != [] ==> Last(rest).mode == bodies[1])
    ensures JustifiedFrom(Resume(bodies, attempt, rejected, strict, script, n), bodies[0], attempt - 1, script, n)
  {
    var rest := Resume(bodies[1..], 1, rejected + {bodies[0]}, strict, script, n + 1);
    FirstIsJustified(Sent(bodies[0], script(n).reply), rest, bodies[1], attempt - 1, script, n);
  }

  lemma {:induction false} ResumeIsJustified(bodies: seq<InputMode>, attempt: nat, rejected: set<InputMode>,
                                             strict: bool, script: nat -> Exchange, n: nat)
    requires Distinct(bodies) && 1 <= attempt <= MAX_TRANSIENT_ATTEMPTS
    ensures JustifiedFrom(Resume(bodies, attempt, rejected, strict, script, n), bodies[0], attempt - 1, script, n)
    decreases |bodies|, MAX_TRANSIENT_ATTEMPTS - attempt
  {
    if !script(n).abortedBefore {
      var ruling := Judge(script(n), attempt, strict);
      if ruling.Again? {
        ResumeIsJustified(bodies, attempt + 1, rejected, strict, script, n + 1);
        AgainIsJustified(bodies, attempt, rejected, strict, script, n);
      } else if ruling.Fallback? && |bodies| == 2 {
        ResumeIsJustified(bodies[1..], 1, rejected + {bodies[0]}, strict, script, n + 1);
        LogKeepsToBodies(bodies[1..], 1, rejected + {bodies[0]}, strict, script, n + 1);
        FallbackIsJustified(bodies, attempt, rejected, strict, script, n);
      } else {
        LastIsJustified(bodies, attempt, rejected, strict, script, n);
      }
    }
  }

  lemma LastIsJustified(bodies: seq<InputMode>, attempt: nat, rejected: set<InputMode>, strict: bool,
                        script: nat -> Exchange, n: nat)
    requires Distinct(bodies) && 1 <= attempt <= MAX_TRANSIENT_ATTEMPTS && !script(n).abortedBefore
    requires
      var ruling := Judge(script(n), attempt, strict);
      !ruling.Again? && !(ruling.Fallback? && |bodies| == 2)
    ensures JustifiedFrom(Resume(bodies, attempt, rejected, strict, script, n), bodies[0], attempt - 1, script, n)
  {
    var sent := Sent(bodies[0], script(n).reply);
    assert Resume(bodies, attempt, rejected, strict, script, n).log == [sent];
    assert Count([sent], bodies[0]) == 1;
  }

  lemma {:induction false} LogKeepsToBodies(bodies: seq<InputMode>, attempt: nat, rejected: set<InputMode>,
                                            strict: bool, script: nat -> Exchange, n: nat)
    requires Distinct(bodies) && 1 <= attempt <= MAX_TRANSIENT_ATTEMPTS
    ensures
      var log := Resume(bodies, attempt, rejected, strict, script, n).log;
      log != [] ==> log[|log| - 1].mode in bodies
    decreases |bodies|, MAX_TRANSIENT_ATTEMPTS - attempt
  {
    var x := script(n);
    if !x.abortedBefore {
      var ruling := Judge(x, attempt, strict);
      if ruling.Again? {
        LogKeepsToBodies(bodies, attempt + 1, rejected, strict, script, n + 1);
      } else if ruling.Fallback? && |bodies| == 2 {
        LogKeepsToBodies(bodies[1..], 1, rejected + {bodies[0]}, strict, script, n + 1);
      }
    }
  }

  lemma CallsAreJustified(attachments: bool, rejected: set<InputMode>, strict: bool, script: nat -> Exchange)
    ensures Justified(Call(attachments, rejected, strict, script), script)
  {
    ResumeIsJustified(Bodies(attachments, rejected), 1, rejected, strict, script, 0);
  }

  // ----- which input is sent first -------------------------------------------------------

  /** A request with attachments is written as an array first, one without as a text, unless the
      provider is remembered to reject that and not the other. */
  lemma FirstInputSent(attachments: bool, rejected: set<InputMode>, strict: bool, script: nat -> Exchange)
    ensures
      var log := Call(attachments, rejected, strict, script).log;
      && (log == [] <==> script(0).abortedBefore)
      && (log != [] && ArrayInput !in rejected && TextInput !in rejected ==>
            log[0].mode == if attachments then ArrayInput else TextInput)
      && (log != [] && ArrayInput in rejected && TextInput !in rejected ==> log[0].mode == TextInput)
      && (log != [] && ArrayInput !in rejected && TextInput in rejected ==> log[0].mode == ArrayInput)
  {
    var bodies := Bodies(attachments, rejected);
    var preferred := Preferred(attachments);
    ResumeIsOrderly(bodies, 1, rejected, strict, script, 0);
    AllowedAreNew(preferred, rejected, ArrayInput);
    AllowedAreNew(preferred, rejected, TextInput);
    assert preferred[1..] == [preferred[1]];
    assert Allowed([preferred[1]], rejected) == if preferred[1] in rejected then [] else [preferred[1]];
  }

  // ----- a call against its script -------------------------------------------------------

  predicate EndsUseful(run: Run) {
    run.log != [] && ResponseOf(Last(run).reply).Some? && Useful(ResponseOf(Last(run).reply).value)
  }

  /** The request was made before any signal, and got the reply of its turn; the call went on only
      if no signal was set where it is read. */
  predicate FollowsAt(run: Run, script: nat -> Exchange, n: nat, i: nat)
    requires i < |run.log|
  {
    var x := script(n + i);
    && run.log[i].reply == x.reply && !x.abortedBefore
    && (x.reply.Threw? && x.abortedInCatch ==> i == |run.log| - 1 && run.outcome == Aborted)
    && (i < |run.log| - 1 && run.log[i].mode == run.log[i + 1].mode ==> !x.abortedInWait)
  }

  ghost predicate Follows(run: Run, script: nat -> Exchange, n: nat) {
    && (forall i | 0 <= i < |run.log| :: FollowsAt(run, script, n, i))
    && (run.log == [] ==> run.outcome == Aborted)
    && (run.outcome.Returned? <==> EndsUseful(run))
  }

  lemma FollowsOneMore(sent: Sent, run: Run, script: nat -> Exchange, n: nat)
    requires Follows(run, script, n + 1) && sent.reply == script(n).reply && !script(n).abortedBefore
    requires !(sent.reply.Threw? && script(n).abortedInCatch)
    requires run.log == [] || run.log[0].mode != sent.mode || !script(n).abortedInWait
    requires ResponseOf(sent.reply).Some? ==> !Useful(ResponseOf(sent.reply).value)
    ensures Follows(Logged(sent, run), script, n)
  {
    var more := Logged(sent, run);
    forall i | 0 <= i < |more.log| ensures FollowsAt(more, script, n, i) {
      if i > 0 {
        assert FollowsAt(run, script, n + 1, i - 1);
      }
    }
    assert Last(more) == if run.log == [] then sent else Last(run);
  }

  lemma {:induction false} ResumeFollows(bodies: seq<InputMode>, attempt: nat, rejected: set<InputMode>,
                                         strict: bool, script: nat -> Exchange, n: nat)
    requires Distinct(bodies) && 1 <= attempt <= MAX_TRANSIENT_ATTEMPTS
    ensures Follows(Resume(bodies, attempt, rejected, strict, script, n), script, n)
    decreases |bodies|, MAX_TRANSIENT_ATTEMPTS - attempt
  {
    var x := script(n);
    if !x.abortedBefore {
      var ruling := Judge(x, attempt, strict);
      var sent := Sent(bodies[0], x.reply);
      if ruling.Again? {
        ResumeFollows(bodies, attempt + 1, rejected, strict, script, n + 1);
        FollowsOneMore(sent, Resume(bodies, attempt + 1, rejected, strict, script, n + 1), script, n);
      } else if ruling.Fallback? && |bodies| == 2 {
        var rejected' := rejected + {bodies[0]};
        ResumeFollows(bodies[1..], 1, rejected', strict, script, n + 1);
        ResumeIsOrderly(bodies[1..], 1, rejected', strict, script, n + 1);
        FollowsOneMore(sent, Resume(bodies[1..], 1, rejected', strict, script, n + 1), script, n);
      } else {
        assert Resume(bodies, attempt, rejected, strict, script, n).log == [sent];
      }
    }
  }

  /** A call returns exactly when its last reply is useful, and a signal stops it where it is read. */
  lemma CallsFollowTheirScript(attachments: bool, rejected: set<InputMode>, strict: bool, script: nat -> Exchange)
    ensures Follows(Call(attachments, rejected, strict, script), script, 0)
  {
    ResumeFollows(Bodies(attachments, rejected), 1, rejected, strict, script, 0);
  }

  predicate Calm(x: Exchange) { !x.abortedBefore && !x.abortedInCatch && !x.abortedInWait }

  /** Without any abort signal a call returns its last reply when that is useful, and fails otherwise. */
  lemma CalmCallsReturn(attachments: bool, rejected: set<InputMode>, strict: bool, script: nat -> Exchange)
    requires forall k: nat :: Calm(script(k))
    ensures
      var run := Call(attachments, rejected, strict, script);
      && run.log != []
      && if EndsUseful(run) then run.outcome == Returned(ResponseOf(Last(run).reply).value)
         else run.outcome == Failed(CauseOf(Last(run).reply))
  {
    CallsAreJustified(attachments, rejected, strict, script);
    CallsFollowTheirScript(attachments, rejected, strict, script);
    var run := Call(attachments, rejected, strict, script);
    assert Calm(script(0 + |run.log|));
    assert run.log != [] ==> Calm(script(0 + |run.log| - 1));
  }

  lemma {:induction false} FallbackIsTried(bodies: seq<InputMode>, attempt: nat, rejected: set<InputMode>,
                                           script: nat -> Exchange, n: nat)
    requires |bodies| == 2 && attempt <= MAX_TRANSIENT_ATTEMPTS
    ensures
      var run := Resume(bodies, attempt, rejected, false, script, n);
      run.outcome.Failed? ==> run.log != [] && (RefusedInput(Last(run).reply) ==> Last(run).mode == bodies[1])
    decreases MAX_TRANSIENT_ATTEMPTS - attempt
  {
    var x := script(n);
    if !x.abortedBefore {
      var ruling := Judge(x, attempt, false);
      if ruling.Again? {
        FallbackIsTried(bodies, attempt + 1, rejected, script, n + 1);
      } else if ruling.Fallback? {
        SecondIsLast(bodies[1..], 1, rejected + {bodies[0]}, script, n + 1);
      }
    }
  }

  lemma {:induction false} SecondIsLast(bodies: seq<InputMode>, attempt: nat, rejected: set<InputMode>,
                                        script: nat -> Exchange, n: nat)
    requires |bodies| == 1 && attempt <= MAX_TRANSIENT_ATTEMPTS
    ensures
      var run := Resume(bodies, attempt, rejected, false, script, n);
      && (run.outcome.Failed? ==> run.log != [])
      && (run.log != [] ==> Last(run).mode == bodies[0])
    decreases MAX_TRANSIENT_ATTEMPTS - attempt
  {
    var x := script(n);
    if !x.abortedBefore && Judge(x, attempt, false).Again? {
      SecondIsLast(bodies, attempt + 1, rejected, script, n + 1);
    }
  }

  /** Unless in strict mode, a call with nothing remembered fails with a refused input only after
      the other way of writing it was refused too. */
  lemma RefusalIsNotFinal(attachments: bool, script: nat -> Exchange)
    ensures
      var run := Call(attachments, {}, false, script);
      run.outcome.Failed? ==>
        run.log != [] && (RefusedInput(Last(run).reply) ==> Last(run).mode == Preferred(attachments)[1])
  {
    var preferred := Preferred(attachments);
    assert preferred[1..] == [preferred[1]];
    assert Allowed([preferred[1]], {}) == [preferred[1]];
    assert Bodies(attachments, {}) == preferred;
    FallbackIsTried(preferred, 1, {}, script, 0);
  }

  // ----- many calls for one provider -----------------------------------------------------

  datatype Request = Request(attachments: bool, strict: bool, script: nat -> Exchange)

  /** How many of the calls, made one after the other, sent both input modes. */
  function Fallbacks(rejected: set<InputMode>, requests: seq<Request>): nat
    decreases |requests|
  {
    if requests == [] then 0
    else
      var run := Call(requests[0].attachments, rejected, requests[0].strict, requests[0].script);
      (if Count(run.log, TextInput) > 0 && Count(run.log, ArrayInput) > 0 then 1 else 0) +
      Fallbacks(run.rejected, requests[1..])
  }

  lemma BothModesNeedNoMemory(attachments: bool, rejected: set<InputMode>, strict: bool, script: nat -> Exchange)
    ensures
      var run := Call(attachments, rejected, strict, script);
      Count(run.log, TextInput) > 0 && Count(run.log, ArrayInput) > 0 ==> rejected == {} && run.rejected != {}
  {
    var bodies := Bodies(attachments, rejected);
    SendsWithinBudget(bodies, 1, rejected, strict, script, 0, TextInput);
    SendsWithinBudget(bodies, 1, rejected, strict, script, 0, ArrayInput);
    if |bodies| == 2 { TwoModesAreRemembered(bodies, 1, rejected, strict, script, 0); }
  }

  lemma {:induction false} TwoModesAreRemembered(bodies: seq<InputMode>, attempt: nat, rejected: set<InputMode>,
                                                 strict: bool, script: nat -> Exchange, n: nat)
    requires |bodies| == 2 && bodies[0] != bodies[1] && 1 <= attempt <= MAX_TRANSIENT_ATTEMPTS
    ensures
      var run := Resume(bodies, attempt, rejected, strict, script, n);
      Count(run.log, bodies[1]) > 0 ==> bodies[0] in run.rejected
    decreases MAX_TRANSIENT_ATTEMPTS - attempt
  {
    var x := script(n);
    if !x.abortedBefore {
      var ruling := Judge(x, attempt, strict);
      if ruling.Again? {
        TwoModesAreRemembered(bodies, attempt + 1, rejected, strict, script, n + 1);
      } else if ruling.Fallback? {
        ResumeRemembers(bodies[1..], 1, rejected + {bodies[0]}, strict, script, n + 1);
      } else {
        assert Count([Sent(bodies[0], x.reply)], bodies[1]) == 0;
      }
    }
  }

  /** Over any number of calls for a provider, at most one switches from one input mode to the other,
      and none once a mode is remembered. */
  lemma {:induction false} AtMostOneFallback(rejected: set<InputMode>, requests: seq<Request>)
    ensures Fallbacks(rejected, requests) <= 1
    ensures rejected != {} ==> Fallbacks(rejected, requests) == 0
    decreases |requests|
  {
    if requests != [] {
      var r := requests[0];
      BothModesNeedNoMemory(r.attachments, rejected, r.strict, r.script);
      CallsRemember(r.attachments, rejected, r.strict, r.script);
      AtMostOneFallback(Call(r.attachments, rejected, r.strict, r.script).rejected, requests[1..]);
    }
  }
}
