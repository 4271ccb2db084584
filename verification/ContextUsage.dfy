/** Token counts of a model request, whole or by part, and when to compact. How many tokens a text
    takes and how a message is written are parameters; percentages enter only as a comparison. */
module ContextUsage {
  import opened JsText

  datatype Role = System | UserRole | OtherRole

  datatype Message = Message(role: Role, body: string)

  datatype Usage = Usage(tokens: nat, messageTokens: nat, toolDefinitionTokens: nat)

  datatype Parts = Parts(developer: nat, user: nat, history: nat, toolDefinitions: nat, remaining: nat)

  function Sum(counts: seq<nat>): nat {
    if counts == [] then 0 else counts[0] + Sum(counts[1..])
  }

  function Counts(messages: seq<Message>, text: Message -> string, estimate: string -> nat): seq<nat> {
    if messages == [] then [] else [estimate(text(messages[0]))] + Counts(messages[1..], text, estimate)
  }

  ghost predicate PreviewMatches(messages: seq<Message>, preview: seq<string>, text: Message -> string) {
    preview != [] && |preview| <= |messages| && forall i | 0 <= i < |preview| :: text(messages[i]) == preview[i]
  }

  method PrefixPreviewMatches(messages: seq<Message>, preview: Option<seq<string>>, text: Message -> string)
    returns (matches: bool)
    ensures matches <==> preview.Some? && PreviewMatches(messages, preview.value, text)
  {
    if preview.None? || |preview.value| == 0 || |messages| < |preview.value| {
      return false;
    }
    for i := 0 to |preview.value|
      invariant forall j | 0 <= j < i :: text(messages[j]) == preview.value[j]
    {
      if text(messages[i]) != preview.value[i] {
        return false;
      }
    }
    return true;
  }

  /** The counts are those of the messages' own texts, with any preview or none. */
  method MessageTokenParts(messages: seq<Message>, preview: Option<seq<string>>, text: Message -> string,
                           estimate: string -> nat)
    returns (counts: seq<nat>)
    ensures counts == Counts(messages, text, estimate)
  {
    var matches := PrefixPreviewMatches(messages, preview, text);
    var prefixLength := if matches then |preview.value| else 0;
    counts := [];
    assert messages[0..] == messages;
    for i := 0 to |messages|
      invariant counts + Counts(messages[i..], text, estimate) == Counts(messages, text, estimate)
    {
      assert messages[i..][1..] == messages[i + 1..];
      counts := counts + [estimate(if i < prefixLength then preview.value[i] else text(messages[i]))];
    }
  }

  method CalculateContextUsage(messages: seq<Message>, preview: Option<seq<string>>, extra: string,
                               toolDefinitions: Option<string>, text: Message -> string, estimate: string -> nat)
    returns (usage: Usage)
    ensures usage.messageTokens == Sum(Counts(messages, text, estimate)) + estimate(extra)
    ensures usage.toolDefinitionTokens == if toolDefinitions.Some? then estimate(toolDefinitions.value) else 0
    ensures usage.tokens == usage.messageTokens + usage.toolDefinitionTokens
  {
    var counts := MessageTokenParts(messages, preview, text, estimate);
    var messageTokens := Sum(counts) + estimate(extra);
    var toolDefinitionTokens := if toolDefinitions.Some? then estimate(toolDefinitions.value) else 0;
    usage := Usage(messageTokens + toolDefinitionTokens, messageTokens, toolDefinitionTokens);
  }

  /** The tokens of all system messages. */
  function DeveloperTokens(messages: seq<Message>, text: Message -> string, estimate: string -> nat): nat {
    if messages == [] then 0
    else
      (if messages[0].role == System then estimate(text(messages[0])) else 0) +
      DeveloperTokens(messages[1..], text, estimate)
  }

  /** The tokens of the first user message, unless one was seen before. */
  function FirstUserTokens(messages: seq<Message>, seen: bool, text: Message -> string, estimate: string -> nat): nat {
    if messages == [] || seen then 0
    else if messages[0].role == UserRole then estimate(text(messages[0]))
    else FirstUserTokens(messages[1..], false, text, estimate)
  }

  method SumByRole(messages: seq<Message>, counts: seq<nat>, text: Message -> string, estimate: string -> nat)
    returns (developer: nat, user: nat, history: nat)
    requires counts == Counts(messages, text, estimate)
    ensures developer == DeveloperTokens(messages, text, estimate)
    ensures user == FirstUserTokens(messages, false, text, estimate)
    ensures developer + user + history == Sum(counts)
  {
    developer, user, history := 0, 0, 0;
    var firstUserContextSeen := false;
    CountsLength(messages, text, estimate);
    assert messages[0..] == messages && counts[0..] == counts;
    for i := 0 to |messages|
      invariant |counts| == |messages|
      invariant counts[i..] == Counts(messages[i..], text, estimate)
      invariant developer + user + history + Sum(counts[i..]) == Sum(counts)
      invariant developer + DeveloperTokens(messages[i..], text, estimate) == DeveloperTokens(messages, text, estimate)
      invariant user + FirstUserTokens(messages[i..], firstUserContextSeen, text, estimate) ==
                FirstUserTokens(messages, false, text, estimate)
    {
      var tokens := counts[i];
      assert messages[i..][1..] == messages[i + 1..] && counts[i..][1..] == counts[i + 1..];
      if messages[i].role == System {
        developer := developer + tokens;
      } else if messages[i].role == UserRole && !firstUserContextSeen {
        firstUserContextSeen := true;
        user := user + tokens;
      } else {
        history := history + tokens;
      }
    }
  }

  /** The parts add up to the simple totals, whatever the roles and whatever previews were used; when
      the request fits, the parts and what remains add up to the context size. */
  method CalculateDetailedContextUsage(messages: seq<Message>, contextsize: nat, preview: Option<seq<string>>,
                                       extra: string, toolDefinitions: Option<string>,
                                       text: Message -> string, estimate: string -> nat)
    returns (usage: Usage, parts: Parts)
    ensures usage.messageTokens == Sum(Counts(messages, text, estimate)) + estimate(extra)
    ensures usage.toolDefinitionTokens == if toolDefinitions.Some? then estimate(toolDefinitions.value) else 0
    ensures usage.tokens == usage.messageTokens + usage.toolDefinitionTokens
    ensures parts.developer == DeveloperTokens(messages, text, estimate)
    ensures parts.user == FirstUserTokens(messages, false, text, estimate)
    ensures parts.developer + parts.user + parts.history + parts.toolDefinitions == usage.tokens
    ensures parts.remaining == if usage.tokens <= contextsize then contextsize - usage.tokens else 0
  {
    var counts := MessageTokenParts(messages, preview, text, estimate);
    var developerTokens, userTokens, historyTokens := SumByRole(messages, counts, text, estimate);
    historyTokens := historyTokens + estimate(extra);
    var toolDefinitionTokens := if toolDefinitions.Some? then estimate(toolDefinitions.value) else 0;
    var messageTokens := developerTokens + userTokens + historyTokens;
    var tokens := messageTokens + toolDefinitionTokens;
    usage := Usage(tokens, messageTokens, toolDefinitionTokens);
    parts := Parts(developerTokens, userTokens, historyTokens, toolDefinitionTokens,
                   if contextsize > tokens then contextsize - tokens else 0);
  }

  lemma {:induction false} CountsLength(messages: seq<Message>, text: Message -> string, estimate: string -> nat)
    ensures |Counts(messages, text, estimate)| == |messages|
  {
    if messages != [] { CountsLength(messages[1..], text, estimate); }
  }

  // ----- when to compact -----------------------------------------------------------------

  function MinReal(a: real, b: real): real { if a < b then a else b }

  function MaxReal(a: real, b: real): real { if a > b then a else b }

  function Ceil(a: real): int {
    if a.Floor as real == a then a.Floor else a.Floor + 1
  }

  function Max(a: int, b: int): int { if a > b then a else b }

  datatype Availability = Availability(shouldCompact: bool, remainingTokens: int, requiredTokens: int)

  function JudgeContextAvailability(tokens: nat, contextsize: nat, percent: real, averageTurn: Option<real>,
                                    outputReserve: Option<real>, limit: Option<real>): Availability {
    var remaining := Max(0, contextsize - tokens);
    var defaultAverage := MaxReal(4096.0, contextsize as real * 0.12);
    var measured := if averageTurn.Some? then averageTurn.value else defaultAverage;
    var average := Max(0, Ceil(MinReal(measured, defaultAverage)));
    var defaultReserve := MinReal(8192.0, MaxReal(2048.0, contextsize as real * 0.08));
    var reserve := Max(1024, Ceil(if outputReserve.Some? then outputReserve.value else defaultReserve));
    var required := reserve + Ceil(average as real * 1.15);
    var limitPercent := MinReal(99.0, MaxReal(1.0, if limit.Some? then limit.value else 88.0));
    Availability(remaining < required || percent >= limitPercent, remaining, required)
  }

  /** Deciding not to compact means the request and what the next turn needs fit the context, for any
      reserve, average or limit asked for; a context too small for the reserve is always compacted. */
  lemma NotCompactingFits(tokens: nat, contextsize: nat, percent: real, averageTurn: Option<real>,
                          outputReserve: Option<real>, limit: Option<real>)
    ensures
      var a := JudgeContextAvailability(tokens, contextsize, percent, averageTurn, outputReserve, limit);
      && (!a.shouldCompact ==> tokens + a.requiredTokens <= contextsize)
      && a.requiredTokens >= 1024
      && (contextsize < 1024 ==> a.shouldCompact)
  {
    var defaultAverage := MaxReal(4096.0, contextsize as real * 0.12);
    var measured := if averageTurn.Some? then averageTurn.value else defaultAverage;
    var average := Max(0, Ceil(MinReal(measured, defaultAverage)));
    assert Ceil(average as real * 1.15) >= 0;
  }

  /** The limit on the share of the context in use: what was asked for, between 1 and 99 percent, or 88.
      Below it a request that leaves room for what the next turn needs is not compacted. */
  lemma LimitDecides(tokens: nat, contextsize: nat, percent: real, averageTurn: Option<real>,
                     outputReserve: Option<real>, limit: Option<real>)
    ensures
      var a := JudgeContextAvailability(tokens, contextsize, percent, averageTurn, outputReserve, limit);
      && (percent >= 99.0 ==> a.shouldCompact)
      && (limit.None? && percent >= 88.0 ==> a.shouldCompact)
      && (limit.Some? && percent >= limit.value && percent >= 1.0 ==> a.shouldCompact)
      && (percent < 99.0 && tokens + a.requiredTokens <= contextsize &&
          (limit.Some? ==> percent < limit.value || percent < 1.0) && (limit.None? ==> percent < 88.0) ==>
            !a.shouldCompact)
  {
  }
}
