/** One model request: at most two attempts for each way of writing the input, a fallback to the
    other way when the provider rejects the first, and a memory of rejected ways per provider.
    What the provider and the abort signal do is a script of exchanges, arbitrary in every proof. */
module RetryDriver {
  import opened JsText

  const MAX_TRANSIENT_ATTEMPTS := 2

  datatype InputMode = TextInput | ArrayInput

  datatype Response = Response(content: string, toolCalls: seq<string>)

  /** What the tests on an error's message say about it. */
  datatype ProviderError = ProviderError(toolCallParse: bool, inputParse: bool, retryable: bool)

  datatype Reply =
    | Refused(status: nat, invalidInputType: bool)
    | Streamed(streamed: Response)
    | Answered(payload: Response)
    | Threw(error: ProviderError)

  /** One attempt: the reply, and where the abort signal is seen to be set. */
  datatype Exchange = Exchange(abortedBefore: bool, reply: Reply, abortedInCatch: bool, abortedInWait: bool)

  datatype Cause = Status(status: nat) | EmptyStream | EmptyPayload | Raised(error: ProviderError) | Unknown

  datatype Outcome = Returned(response: Response) | Failed(cause: Cause) | Aborted

  datatype Sent = Sent(mode: InputMode, reply: Reply)

  datatype Run = Run(outcome: Outcome, log: seq<Sent>, rejected: set<InputMode>)

  predicate Useful(r: Response) {
    !Blank(r.content) || r.toolCalls != []
  }

  predicate RetryableStatus(status: nat) {
    status == 408 || status == 409 || status == 425 || status == 429 || status >= 500
  }

  /** The provider says that it cannot read the input. */
  predicate InputRejected(reply: Reply) {
    || (reply.Refused? && reply.status == 400 && reply.invalidInputType)
    || (reply.Threw? && reply.error.inputParse)
  }

  /** A reply after which the same input may be sent once more. */
  predicate Transient(reply: Reply) {
    match reply
    case Refused(status, _) => RetryableStatus(status)
    case Streamed(response) => !Useful(response)
    case Answered(_) => false
    case Threw(error) => error.toolCallParse || error.retryable
  }

  // ----- the decision for one attempt ----------------------------------------------------

  datatype Ruling = Accept(response: Response) | Stop | Again | GiveUp(cause: Cause) | Fallback(cause: Cause)

  function AfterWait(x: Exchange): Ruling {
    if x.abortedInWait then Stop else Again
  }

  function Judge(x: Exchange, attempt: nat, strict: bool): (r: Ruling)
    ensures r.Again? ==> attempt < MAX_TRANSIENT_ATTEMPTS
  {
    var mayRetry := attempt < MAX_TRANSIENT_ATTEMPTS;
    match x.reply
    case Refused(status, invalidInputType) =>
      if status == 400 && invalidInputType then (if strict then GiveUp(Status(status)) else Fallback(Status(status)))
      else if RetryableStatus(status) && mayRetry then AfterWait(x)
      else GiveUp(Status(status))
    case Streamed(response) =>
      if Useful(response) then Accept(response)
      else if mayRetry then AfterWait(x)
      else GiveUp(EmptyStream)
    case Answered(response) =>
      if Useful(response) then Accept(response) else GiveUp(EmptyPayload)
    case Threw(error) =>
      if x.abortedInCatch then Stop
      else if error.toolCallParse && mayRetry then AfterWait(x)
      else if error.inputParse then (if strict then GiveUp(Raised(error)) else Fallback(Raised(error)))
      else if error.retryable && mayRetry then AfterWait(x)
      else GiveUp(Raised(error))
  }

  // ----- the whole call ------------------------------------------------------------------

  function Preferred(attachments: bool): seq<InputMode> {
    if attachments then [ArrayInput, TextInput] else [TextInput, ArrayInput]
  }

  function Allowed(modes: seq<InputMode>, rejected: set<InputMode>): seq<InputMode> {
    if modes == [] then []
    else (if modes[0] in rejected then [] else [modes[0]]) + Allowed(modes[1..], rejected)
  }

  /** The input modes to try, in order: those not rejected, or the preferred one when all were. */
  function Bodies(attachments: bool, rejected: set<InputMode>): (bodies: seq<InputMode>)
    ensures 1 <= |bodies| <= 2
    ensures |bodies| == 2 ==> bodies[0] != bodies[1] && rejected == {}
  {
    var preferred := Preferred(attachments);
    var allowed := Allowed(preferred, rejected);
    assert preferred[1..] == [preferred[1]];
    assert Allowed([preferred[1]], rejected) == if preferred[1] in rejected then [] else [preferred[1]];
    assert |allowed| == 2 ==> forall m | m in rejected :: m == preferred[0] || m == preferred[1];
    if allowed == [] then [preferred[0]] else allowed
  }

  function Logged(sent: Sent, run: Run): Run {
    run.(log := [sent] + run.log)
  }

  /** The rest of a call: `bodies` left to try, the first of them for the `attempt`-th time; `n`
      exchanges are over. */
  function Resume(bodies: seq<InputMode>, attempt: nat, rejected: set<InputMode>, strict: bool,
                  script: nat -> Exchange, n: nat): Run
    requires 1 <= |bodies| <= 2 && attempt <= MAX_TRANSIENT_ATTEMPTS
    decreases |bodies|, MAX_TRANSIENT_ATTEMPTS - attempt
  {
    var x := script(n);
    var sent := Sent(bodies[0], x.reply);
    if x.abortedBefore then Run(Aborted, [], rejected)
    else
      match Judge(x, attempt, strict)
      case Accept(response) => Run(Returned(response), [sent], rejected)
      case Stop => Run(Aborted, [sent], rejected)
      case Again => Logged(sent, Resume(bodies, attempt + 1, rejected, strict, script, n + 1))
      case GiveUp(cause) => Run(Failed(cause), [sent], rejected)
      case Fallback(cause) =>
        var rejected' := rejected + {bodies[0]};
        if |bodies| == 1 then Run(Failed(cause), [sent], rejected')
        else Logged(sent, Resume(bodies[1..], 1, rejected', strict, script, n + 1))
  }

  function Call(attachments: bool, rejected: set<InputMode>, strict: bool, script: nat -> Exchange): Run {
    Resume(Bodies(attachments, rejected), 1, rejected, strict, script, 0)
  }

  class ProviderInputs {
    var rejectedProviderInputModes: map<string, set<InputMode>>

    constructor ()
      ensures rejectedProviderInputModes == map[]
    {
      rejectedProviderInputModes := map[];
    }

    function Rejected(key: string): set<InputMode>
      reads this
    {
      if key in rejectedProviderInputModes then rejectedProviderInputModes[key] else {}
    }

    method Remember(key: string, mode: InputMode)
      modifies this
      ensures Rejected(key) == old(Rejected(key)) + {mode}
      ensures forall other | other != key :: Rejected(other) == old(Rejected(other))
    {
      var current := Rejected(key);
      rejectedProviderInputModes := rejectedProviderInputModes[key := current + {mode}];
    }

    method RequestBodies(key: string, attachments: bool) returns (bodies: seq<InputMode>)
      ensures bodies == Bodies(attachments, Rejected(key))
    {
      var preferred := Preferred(attachments);
      bodies := [];
      for i := 0 to |preferred|
        invariant bodies + Allowed(preferred[i..], Rejected(key)) == Allowed(preferred, Rejected(key))
      {
        assert preferred[i..][1..] == preferred[i + 1..];
        if preferred[i] !in Rejected(key) {
          bodies := bodies + [preferred[i]];
        }
      }
      assert bodies == Allowed(preferred, Rejected(key));
      if |bodies| == 0 {
        bodies := [preferred[0]];
      }
    }

    /** The body of the attempt loop: reads the reply, remembers a rejected input mode, and says
        whether to return, to try the same input again, to leave the loop, or to fall back. */
    method HandleReply(key: string, mode: InputMode, x: Exchange, attempt: nat, strict: bool)
      returns (ruling: Ruling)
      modifies this
      ensures ruling == Judge(x, attempt, strict)
      ensures Rejected(key) == old(Rejected(key)) + if ruling.Fallback? then {mode} else {}
      ensures forall other | other != key :: Rejected(other) == old(Rejected(other))
    {
      if x.reply.Threw? {
        var error := x.reply.error;
        if x.abortedInCatch {
          return Stop;
        }
        if error.toolCallParse && attempt < MAX_TRANSIENT_ATTEMPTS {
          ruling := WaitBeforeRetry(x);
          return;
        }
        if error.inputParse {
          if strict {
            return GiveUp(Raised(error));
          }
          Remember(key, mode);
          return Fallback(Raised(error));
        }
        if error.retryable && attempt < MAX_TRANSIENT_ATTEMPTS {
          ruling := WaitBeforeRetry(x);
          return;
        }
        return GiveUp(Raised(error));
      }
      if x.reply.Refused? {
        var status := x.reply.status;
        if status == 400 && x.reply.invalidInputType {
          if strict {
            return GiveUp(Status(status));
          }
          Remember(key, mode);
          return Fallback(Status(status));
        }
        if RetryableStatus(status) && attempt < MAX_TRANSIENT_ATTEMPTS {
          ruling := WaitBeforeRetry(x);
          return;
        }
        return GiveUp(Status(status));
      }
      if x.reply.Streamed? {
        if Useful(x.reply.streamed) {
          return Accept(x.reply.streamed);
        }
        if attempt < MAX_TRANSIENT_ATTEMPTS {
          ruling := WaitBeforeRetry(x);
          return;
        }
        return GiveUp(EmptyStream);
      }
      if Useful(x.reply.payload) {
        return Accept(x.reply.payload);
      }
      return GiveUp(EmptyPayload);
    }

    static method WaitBeforeRetry(x: Exchange) returns (ruling: Ruling)
      ensures ruling == AfterWait(x)
    {
      if x.abortedInWait {
        return Stop;
      }
      return Again;
    }

    /** The attempt loop for one input mode; it ends with any ruling but `Again`. */
    method TryInput(key: string, ghost bodies: seq<InputMode>, mode: InputMode, strict: bool,
                    script: nat -> Exchange, start: nat)
      returns (ruling: Ruling, sent: nat, ghost log: seq<Sent>)
      requires 1 <= |bodies| <= 2 && mode == bodies[0]
      modifies this
      ensures !ruling.Again? && sent == start + |log|
      ensures Rejected(key) == old(Rejected(key)) + if ruling.Fallback? then {mode} else {}
      ensures forall other | other != key :: Rejected(other) == old(Rejected(other))
      ensures Resume(bodies, 1, old(Rejected(key)), strict, script, start) ==
              After(log, Next(bodies, ruling, Rejected(key), strict, script, sent))
    {
      log, sent := [], start;
      ghost var before := Rejected(key);
      var attempt := 1;
      while attempt <= MAX_TRANSIENT_ATTEMPTS
        invariant 1 <= attempt <= MAX_TRANSIENT_ATTEMPTS && sent == start + |log|
        invariant Rejected(key) == before
        invariant forall other | other != key :: Rejected(other) == old(Rejected(other))
        invariant Resume(bodies, 1, before, strict, script, start) ==
                  After(log, Resume(bodies, attempt, before, strict, script, sent))
        decreases MAX_TRANSIENT_ATTEMPTS - attempt
      {
        var x := script(sent);
        if x.abortedBefore {
          return Stop, sent, log;
        }
        ruling := HandleReply(key, mode, x, attempt, strict);
        ResumeOnce(log, bodies, attempt, before, strict, script, sent);
        log := log + [Sent(mode, x.reply)];
        sent := sent + 1;
        if !ruling.Again? {
          return;
        }
        attempt := attempt + 1;
      }
    }

    method RequestModelResponse(key: string, attachments: bool, strict: bool, script: nat -> Exchange)
      returns (outcome: Outcome, ghost log: seq<Sent>)
      modifies this
      ensures Run(outcome, log, Rejected(key)) == Call(attachments, old(Rejected(key)), strict, script)
      ensures forall other | other != key :: Rejected(other) == old(Rejected(other))
    {
      var bodies := RequestBodies(key, attachments);
      ghost var whole := Call(attachments, Rejected(key), strict, script);
      assert bodies[0..] == bodies;
      log := [];
      var sent := 0;
      var lastError := Unknown;
      var shouldTryAlternativeInput := false;
      var bodyIndex := 0;
      while bodyIndex < |bodies|
        invariant bodyIndex <= |bodies| && sent == |log|
        invariant bodyIndex == 0 ==> !shouldTryAlternativeInput
        invariant whole == After(log, if bodyIndex < |bodies| && (bodyIndex == 0 || shouldTryAlternativeInput)
                                      then Resume(bodies[bodyIndex..], 1, Rejected(key), strict, script, sent)
                                      else Run(Failed(lastError), [], Rejected(key)))
        invariant forall other | other != key :: Rejected(other) == old(Rejected(other))
      {
        if bodyIndex > 0 && !shouldTryAlternativeInput {
          break;
        }
        assert bodies[bodyIndex..][1..] == bodies[bodyIndex + 1..];
        ghost var more;
        var ruling;
        ruling, sent, more := TryInput(key, bodies[bodyIndex..], bodies[bodyIndex], strict, script, sent);
        AfterTwice(log, more, Next(bodies[bodyIndex..], ruling, Rejected(key), strict, script, sent));
        log := log + more;
        if ruling.Accept? {
          return Returned(ruling.response), log;
        }
        if ruling.Stop? {
          return Aborted, log;
        }
        lastError := ruling.cause;
        if ruling.Fallback? {
          shouldTryAlternativeInput := true;
        }
        bodyIndex := bodyIndex + 1;
      }
      outcome := Failed(lastError);
    }
  }

  ghost function After(log: seq<Sent>, run: Run): Run {
    run.(log := log + run.log)
  }

  lemma AfterTwice(log: seq<Sent>, more: seq<Sent>, run: Run)
    ensures After(log, After(more, run)) == After(log + more, run)
  {
    assert log + (more + run.log) == log + more + run.log;
  }

  /** What is left of a call once an attempt was ruled on; `rejected` holds the mode it rejected. */
  ghost function Next(bodies: seq<InputMode>, ruling: Ruling, rejected: set<InputMode>, strict: bool,
                      script: nat -> Exchange, n: nat): Run
    requires 1 <= |bodies| <= 2 && !ruling.Again?
  {
    match ruling
    case Accept(response) => Run(Returned(response), [], rejected)
    case Stop => Run(Aborted, [], rejected)
    case GiveUp(cause) => Run(Failed(cause), [], rejected)
    case Fallback(cause) =>
      if |bodies| == 1 then Run(Failed(cause), [], rejected) else Resume(bodies[1..], 1, rejected, strict, script, n)
  }

  lemma ResumeOnce(log: seq<Sent>, bodies: seq<InputMode>, attempt: nat, rejected: set<InputMode>, strict: bool,
                   script: nat -> Exchange, n: nat)
    requires 1 <= |bodies| <= 2 && attempt <= MAX_TRANSIENT_ATTEMPTS && !script(n).abortedBefore
    ensures
      var ruling := Judge(script(n), attempt, strict);
      var rejected' := rejected + if ruling.Fallback? then {bodies[0]} else {};
      After(log, Resume(bodies, attempt, rejected, strict, script, n)) ==
      After(log + [Sent(bodies[0], script(n).reply)],
            if ruling.Again? then Resume(bodies, attempt + 1, rejected, strict, script, n + 1)
            else Next(bodies, ruling, rejected', strict, script, n + 1))
  {
    var ruling := Judge(script(n), attempt, strict);
    var rejected' := rejected + if ruling.Fallback? then {bodies[0]} else {};
    var rest := if ruling.Again? then Resume(bodies, attempt + 1, rejected, strict, script, n + 1)
                else Next(bodies, ruling, rejected', strict, script, n + 1);
    var sent := Sent(bodies[0], script(n).reply);
    assert !ruling.Fallback? ==> rejected' == rejected;
    assert [sent] + [] == [sent];
    assert Resume(bodies, attempt, rejected, strict, script, n) == After([sent], rest);
    AfterTwice(log, [sent], rest);
  }
}
