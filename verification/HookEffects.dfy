/** Effects of hooks: how they are merged, and how each is shown to the hooks that run after it. */
module HookEffects {
  import opened JsText

  type Message = string
  type Value = string

  datatype Effect = Effect(
    stopType: bool,
    stopTurn: bool,
    replaceMessages: Option<seq<Message>>,
    replaceRequestText: Option<string>,
    appendMessages: Option<seq<Message>>,
    replaceModelTools: Option<Value>,
    replaceToolCalls: Option<Value>,
    replaceToolResults: Option<Value>,
    finalAssistantText: Option<string>,
    interruptModelResponse: bool,
    interruptReason: Option<string>,
    compact: Option<Value>,
    turnEndRequest: Option<Value>,
    prefixDrifts: Option<seq<Value>>,
    diagnostics: Option<seq<string>>)

  const NO_EFFECT := Effect(false, false, None, None, None, None, None, None, None, false, None, None, None, None, None)

  predicate Stops(e: Effect) {
    e.stopType || e.stopTurn
  }

  function Normalized(e: Effect): Effect {
    e.(stopType := Stops(e), stopTurn := Stops(e))
  }

  function Latest<T>(old_: Option<T>, new_: Option<T>): Option<T> {
    if new_.Some? then new_ else old_
  }

  function Earliest<T>(old_: Option<T>, new_: Option<T>): Option<T> {
    if old_.Some? then old_ else new_
  }

  function Items<T>(list: Option<seq<T>>): seq<T> {
    if list.Some? then list.value else []
  }

  function Appended<T>(old_: Option<seq<T>>, new_: Option<seq<T>>): Option<seq<T>> {
    if new_.Some? then Some(Items(old_) + new_.value) else old_
  }

  /** One effect merged into those before it: the last replacement wins, the first request for a
      further turn wins, lists are appended, and a stop or an interruption stays. */
  function Combined(merged: Effect, e: Effect): Effect {
    Effect(
      merged.stopType || Stops(e),
      merged.stopTurn || Stops(e),
      Latest(merged.replaceMessages, e.replaceMessages),
      Latest(merged.replaceRequestText, e.replaceRequestText),
      Appended(merged.appendMessages, e.appendMessages),
      Latest(merged.replaceModelTools, e.replaceModelTools),
      Latest(merged.replaceToolCalls, e.replaceToolCalls),
      Latest(merged.replaceToolResults, e.replaceToolResults),
      Latest(merged.finalAssistantText, e.finalAssistantText),
      merged.interruptModelResponse || e.interruptModelResponse,
      Latest(merged.interruptReason, e.interruptReason),
      Latest(merged.compact, e.compact),
      Earliest(merged.turnEndRequest, e.turnEndRequest),
      Appended(merged.prefixDrifts, e.prefixDrifts),
      Appended(merged.diagnostics, e.diagnostics))
  }

  function CombinedAll(merged: Effect, effects: seq<Effect>): Effect
    decreases |effects|
  {
    if effects == [] then merged else CombinedAll(Combined(merged, effects[0]), effects[1..])
  }

  function Merged(effects: seq<Effect>): Effect {
    CombinedAll(NO_EFFECT, effects)
  }

  /** One pass of the merge loop, in two halves: first the fields whose last value wins. */
  method Replacements(before: Effect, effect: Effect) returns (merged: Effect)
    ensures merged == before.(
              replaceMessages := Latest(before.replaceMessages, effect.replaceMessages),
              replaceRequestText := Latest(before.replaceRequestText, effect.replaceRequestText),
              replaceModelTools := Latest(before.replaceModelTools, effect.replaceModelTools),
              replaceToolCalls := Latest(before.replaceToolCalls, effect.replaceToolCalls),
              replaceToolResults := Latest(before.replaceToolResults, effect.replaceToolResults),
              finalAssistantText := Latest(before.finalAssistantText, effect.finalAssistantText))
  {
    var replaceMessages, replaceRequestText := before.replaceMessages, before.replaceRequestText;
    var replaceModelTools, replaceToolCalls := before.replaceModelTools, before.replaceToolCalls;
    var replaceToolResults, finalAssistantText := before.replaceToolResults, before.finalAssistantText;
    if effect.replaceMessages.Some? {
      replaceMessages := effect.replaceMessages;
    }
    if effect.replaceRequestText.Some? {
      replaceRequestText := effect.replaceRequestText;
    }
    if effect.replaceModelTools.Some? {
      replaceModelTools := effect.replaceModelTools;
    }
    if effect.replaceToolCalls.Some? {
      replaceToolCalls := effect.replaceToolCalls;
    }
    if effect.replaceToolResults.Some? {
      replaceToolResults := effect.replaceToolResults;
    }
    if effect.finalAssistantText.Some? {
      finalAssistantText := effect.finalAssistantText;
    }
    merged := before.(
      replaceMessages := replaceMessages, replaceRequestText := replaceRequestText,
      replaceModelTools := replaceModelTools, replaceToolCalls := replaceToolCalls,
      replaceToolResults := replaceToolResults, finalAssistantText := finalAssistantText);
  }

  method MergeOne(before: Effect, effect: Effect) returns (merged: Effect)
    ensures merged == Combined(before, effect)
  {
    merged := Replacements(before, effect);
    var appendMessages, prefixDrifts, diagnostics := merged.appendMessages, merged.prefixDrifts, merged.diagnostics;
    var interruptModelResponse, interruptReason := merged.interruptModelResponse, merged.interruptReason;
    var compact, turnEndRequest := merged.compact, merged.turnEndRequest;
    var stopType, stopTurn := merged.stopType, merged.stopTurn;
    if effect.appendMessages.Some? {
      appendMessages := Some(Items(appendMessages) + effect.appendMessages.value);
    }
    if effect.interruptModelResponse {
      interruptModelResponse := true;
    }
    if effect.interruptReason.Some? {
      interruptReason := effect.interruptReason;
    }
    if effect.compact.Some? {
      compact := effect.compact;
    }
    if effect.turnEndRequest.Some? && turnEndRequest.None? {
      turnEndRequest := effect.turnEndRequest;
    }
    if effect.prefixDrifts.Some? {
      prefixDrifts := Some(Items(prefixDrifts) + effect.prefixDrifts.value);
    }
    if Stops(effect) {
      stopType, stopTurn := true, true;
    }
    if effect.diagnostics.Some? {
      diagnostics := Some(Items(diagnostics) + effect.diagnostics.value);
    }
    merged := merged.(
      stopType := stopType, stopTurn := stopTurn, appendMessages := appendMessages,
      interruptModelResponse := interruptModelResponse, interruptReason := interruptReason, compact := compact,
      turnEndRequest := turnEndRequest, prefixDrifts := prefixDrifts, diagnostics := diagnostics);
  }

  method MergeNDXHookEffects(effects: seq<Effect>) returns (result: Effect)
    ensures result == Merged(effects)
  {
    var merged := NO_EFFECT;
    assert effects[0..] == effects;
    MergedStopsAreEqual(effects);
    for i := 0 to |effects|
      invariant CombinedAll(merged, effects[i..]) == Merged(effects)
    {
      assert effects[i..][1..] == effects[i + 1..];
      merged := MergeOne(merged, Normalized(effects[i]));
    }
    result := Normalized(merged);
  }

  lemma CombinedAllOne(merged: Effect, a: Effect)
    ensures CombinedAll(merged, [a]) == Combined(merged, a)
  {
    assert [a][1..] == [];
  }

  lemma CombinedAllTwo(merged: Effect, a: Effect, b: Effect)
    ensures CombinedAll(merged, [a, b]) == Combined(Combined(merged, a), b)
  {
    assert [a, b][1..] == [b];
    CombinedAllOne(Combined(merged, a), b);
  }

  lemma MergedStopsAreEqual(effects: seq<Effect>)
    ensures Normalized(Merged(effects)) == Merged(effects)
  {
    StopsStayEqual(NO_EFFECT, effects);
  }

  lemma {:induction false} StopsStayEqual(merged: Effect, effects: seq<Effect>)
    requires merged.stopType == merged.stopTurn
    ensures CombinedAll(merged, effects).stopType == CombinedAll(merged, effects).stopTurn
    decreases |effects|
  {
    if effects != [] { StopsStayEqual(Combined(merged, effects[0]), effects[1..]); }
  }

  // ----- merging parts -------------------------------------------------------------------

  lemma AppendedIsAssociative<T>(a: Option<seq<T>>, b: Option<seq<T>>, c: Option<seq<T>>)
    ensures Appended(Appended(a, b), c) == Appended(a, Appended(b, c))
  {
    assert Items(a) + (Items(b) + Items(c)) == Items(a) + Items(b) + Items(c);
    assert b.None? ==> [] + Items(c) == Items(c);
  }

  lemma CombinedIsAssociative(a: Effect, b: Effect, c: Effect)
    ensures Combined(Combined(a, b), c) == Combined(a, Combined(b, c))
  {
    AppendedIsAssociative(a.appendMessages, b.appendMessages, c.appendMessages);
    AppendedIsAssociative(a.prefixDrifts, b.prefixDrifts, c.prefixDrifts);
    AppendedIsAssociative(a.diagnostics, b.diagnostics, c.diagnostics);
  }

  lemma AppendedToNone<T>(a: Option<seq<T>>)
    ensures Appended(None, a) == a
  {
    assert a.Some? ==> [] + a.value == a.value;
  }

  lemma NoEffectIsLeftIdentity(e: Effect)
    ensures Combined(NO_EFFECT, e) == Normalized(e)
  {
    AppendedToNone(e.appendMessages);
    AppendedToNone(e.prefixDrifts);
    AppendedToNone(e.diagnostics);
  }

  lemma {:induction false} CombinedAllIsCombined(merged: Effect, effects: seq<Effect>)
    requires merged.stopType == merged.stopTurn
    ensures CombinedAll(merged, effects) == Combined(merged, Merged(effects))
    decreases |effects|
  {
    if effects != [] {
      var e, rest := effects[0], effects[1..];
      CombinedAllIsCombined(Combined(merged, e), rest);
      CombinedAllIsCombined(Combined(NO_EFFECT, e), rest);
      NoEffectIsLeftIdentity(e);
      CombinedIsAssociative(merged, Normalized(e), Merged(rest));
      assert Combined(merged, e) == Combined(merged, Normalized(e));
    }
  }

  /** Merging merged parts is merging everything at once. */
  lemma MergeOfMerges(a: seq<Effect>, b: seq<Effect>)
    ensures Merged([Merged(a), Merged(b)]) == Merged(a + b)
  {
    MergedStopsAreEqual(a);
    MergedStopsAreEqual(b);
    NoEffectIsLeftIdentity(Merged(a));
    assert [Merged(a), Merged(b)][1..] == [Merged(b)] && [Merged(b)][1..] == [];
    assert Merged([Merged(a), Merged(b)]) == CombinedAll(Merged(a), [Merged(b)]) == Combined(Merged(a), Merged(b));
    CombinedAllConcat(NO_EFFECT, a, b);
    CombinedAllIsCombined(Merged(a), b);
  }

  lemma {:induction false} CombinedAllConcat(merged: Effect, a: seq<Effect>, b: seq<Effect>)
    ensures CombinedAll(merged, a + b) == CombinedAll(CombinedAll(merged, a), b)
    decreases |a|
  {
    if a == [] {
      assert a + b == b;
    } else {
      assert (a + b)[1..] == a[1..] + b;
      CombinedAllConcat(Combined(merged, a[0]), a[1..], b);
    }
  }

  function MergedParts(parts: seq<seq<Effect>>): seq<Effect> {
    if parts == [] then [] else [Merged(parts[0])] + MergedParts(parts[1..])
  }

  function Flat(parts: seq<seq<Effect>>): seq<Effect> {
    if parts == [] then [] else parts[0] + Flat(parts[1..])
  }

  /** For any way of cutting the effects into parts. */
  lemma {:induction false} MergeIsHomomorphism(parts: seq<seq<Effect>>)
    ensures Merged(MergedParts(parts)) == Merged(Flat(parts))
  {
    if parts != [] {
      var rest := parts[1..];
      MergeIsHomomorphism(rest);
      MergeOfMerges(parts[0], Flat(rest));
      MergeOfMerges([Merged(parts[0])], MergedParts(rest));
      MergedStopsAreEqual(parts[0]);
      NoEffectIsLeftIdentity(Merged(parts[0]));
      CombinedAllOne(NO_EFFECT, Merged(parts[0]));
      assert Merged([Merged(parts[0])]) == Merged(parts[0]);
    }
  }

  // ----- running the hooks ---------------------------------------------------------------

  datatype Context = Context(
    messages: Option<seq<Message>>,
    requestText: string,
    modelTools: Option<Value>,
    toolCalls: Option<Value>,
    toolResults: Option<Value>,
    assistantText: Option<string>)

  /** What the next hook sees after an effect. */
  function Applied(context: Context, e: Effect): Context {
    Context(
      Appended(Latest(context.messages, e.replaceMessages), e.appendMessages),
      if e.replaceRequestText.Some? then e.replaceRequestText.value else context.requestText,
      Latest(context.modelTools, e.replaceModelTools),
      Latest(context.toolCalls, e.replaceToolCalls),
      Latest(context.toolResults, e.replaceToolResults),
      Latest(context.assistantText, e.finalAssistantText))
  }

  function AppliedAll(context: Context, effects: seq<Effect>): Context
    decreases |effects|
  {
    if effects == [] then context else AppliedAll(Applied(context, effects[0]), effects[1..])
  }

  /** The effects of the hooks that run: each sees what those before it did, up to the first stop. */
  function Executed(plan: seq<Context -> Effect>, context: Context): seq<Effect>
    decreases |plan|
  {
    if plan == [] then []
    else
      var e := plan[0](context);
      [e] + if Stops(e) then [] else Executed(plan[1..], Applied(context, e))
  }

  class HookState {
    var context: Context

    constructor (initial: Context)
      ensures context == initial
    {
      context := initial;
    }

    method ApplyEffect(effect: Effect)
      modifies this
      ensures context == Applied(old(context), effect)
    {
      if effect.replaceMessages.Some? {
        context := context.(messages := effect.replaceMessages);
      }
      if effect.replaceRequestText.Some? {
        context := context.(requestText := effect.replaceRequestText.value);
      }
      if effect.appendMessages.Some? {
        context := context.(messages := Some(Items(context.messages) + effect.appendMessages.value));
      }
      if effect.replaceModelTools.Some? {
        context := context.(modelTools := effect.replaceModelTools);
      }
      if effect.replaceToolCalls.Some? {
        context := context.(toolCalls := effect.replaceToolCalls);
      }
      if effect.replaceToolResults.Some? {
        context := context.(toolResults := effect.replaceToolResults);
      }
      if effect.finalAssistantText.Some? {
        context := context.(assistantText := effect.finalAssistantText);
      }
    }
  }

  lemma AppliedConcat(context: Context, a: seq<Effect>, e: Effect)
    ensures AppliedAll(context, a + [e]) == Applied(AppliedAll(context, a), e)
    decreases |a|
  {
    if a == [] {
      assert a + [e] == [e] && [e][1..] == [];
    } else {
      assert (a + [e])[1..] == a[1..] + [e];
      AppliedConcat(Applied(context, a[0]), a[1..], e);
    }
  }

  lemma MergedOneMore(done: seq<Effect>, e: Effect)
    ensures Merged([Merged(done), e]) == Merged(done + [e]) == Combined(Merged(done), e)
  {
    MergedStopsAreEqual(done);
    NoEffectIsLeftIdentity(Merged(done));
    assert [Merged(done), e][1..] == [e] && [e][1..] == [];
    CombinedAllConcat(NO_EFFECT, done, [e]);
  }

  /** Every hook that ran got what the effects before its own had made of the context. */
  predicate RanInOrder(plan: seq<Context -> Effect>, initial: Context, executions: seq<Effect>) {
    |executions| <= |plan| &&
    forall i | 0 <= i < |executions| :: executions[i] == plan[i](AppliedAll(initial, executions[..i]))
  }

  predicate NoneStops(executions: seq<Effect>) {
    forall i | 0 <= i < |executions| :: !Stops(executions[i])
  }

  lemma OneMoreRan(plan: seq<Context -> Effect>, initial: Context, executions: seq<Effect>, e: Effect)
    requires RanInOrder(plan, initial, executions) && |executions| < |plan|
    requires e == plan[|executions|](AppliedAll(initial, executions))
    ensures RanInOrder(plan, initial, executions + [e])
  {
    var more := executions + [e];
    forall i | 0 <= i < |more| ensures more[i] == plan[i](AppliedAll(initial, more[..i])) {
      assert more[..i] == executions[..i];
      assert executions[..|executions|] == executions;
    }
  }

  /** Hooks run one after the other, each on what those before it left, until one stops the turn or none
      is left; the effect kept is merged as they go, and is the merge of all their effects. */
  method RunNDXHooks(plan: seq<Context -> Effect>, initial: Context)
    returns (executions: seq<Effect>, effect: Effect, final: Context)
    ensures RanInOrder(plan, initial, executions)
    ensures executions != [] ==> NoneStops(executions[..|executions| - 1])
    ensures |executions| < |plan| ==> executions != [] && Stops(executions[|executions| - 1])
    ensures executions == Executed(plan, initial)
    ensures effect == Merged(executions)
    ensures final == AppliedAll(initial, executions)
  {
    executions := [];
    var state := new HookState(initial);
    var mergedEffect := NO_EFFECT;
    assert plan[0..] == plan;
    for i := 0 to |plan|
      invariant fresh(state)
      invariant |executions| == i && RanInOrder(plan, initial, executions) && NoneStops(executions)
      invariant executions + Executed(plan[i..], state.context) == Executed(plan, initial)
      invariant mergedEffect == Merged(executions)
      invariant state.context == AppliedAll(initial, executions)
    {
      var execution := plan[i](state.context);
      assert plan[i..][1..] == plan[i + 1..];
      MergedOneMore(executions, execution);
      AppliedConcat(initial, executions, execution);
      OneMoreRan(plan, initial, executions, execution);
      ghost var left := if Stops(execution) then [] else Executed(plan[i + 1..], Applied(state.context, execution));
      Assoc(executions, [execution], left);
      assert (executions + [execution])[..|executions|] == executions;
      executions := executions + [execution];
      mergedEffect := MergeNDXHookEffects([mergedEffect, execution]);
      state.ApplyEffect(execution);
      if Stops(execution) {
        assert executions + [] == executions;
        break;
      }
    }
    assert executions + [] == executions;
    MergedStopsAreEqual(executions);
    effect := Normalized(mergedEffect);
    final := state.context;
  }

  // ----- what each field of the merged effect is -----------------------------------------

  /** `r` is the first value there is, by `f`, or there is none. */
  ghost predicate FirstWins<T>(effects: seq<Effect>, f: Effect -> Option<T>, r: Option<T>) {
    if r.None? then forall i | 0 <= i < |effects| :: f(effects[i]).None?
    else exists i | 0 <= i < |effects| :: f(effects[i]) == r && forall j | 0 <= j < i :: f(effects[j]).None?
  }

  /** `r` is the last value there is, by `f`, or there is none. */
  ghost predicate LastWins<T>(effects: seq<Effect>, f: Effect -> Option<T>, r: Option<T>) {
    if r.None? then forall i | 0 <= i < |effects| :: f(effects[i]).None?
    else exists i | 0 <= i < |effects| :: f(effects[i]) == r && forall j | i < j < |effects| :: f(effects[j]).None?
  }

  lemma FirstOfOneMore<T>(done: seq<Effect>, e: Effect, f: Effect -> Option<T>, r: Option<T>)
    requires FirstWins(done, f, r)
    ensures FirstWins(done + [e], f, Earliest(r, f(e)))
  {
    var all := done + [e];
    if r.Some? {
      var i :| 0 <= i < |done| && f(done[i]) == r && forall j | 0 <= j < i :: f(done[j]).None?;
      assert f(all[i]) == r && forall j | 0 <= j < i :: f(all[j]).None?;
    } else {
      assert f(all[|done|]) == f(e);
    }
  }

  lemma LastOfOneMore<T>(done: seq<Effect>, e: Effect, f: Effect -> Option<T>, r: Option<T>)
    requires LastWins(done, f, r)
    ensures LastWins(done + [e], f, Latest(r, f(e)))
  {
    var all := done + [e];
    if f(e).Some? {
      assert f(all[|done|]) == f(e);
    } else if r.Some? {
      var i :| 0 <= i < |done| && f(done[i]) == r && forall j | i < j < |done| :: f(done[j]).None?;
      assert f(all[i]) == r && forall j | i < j < |all| :: f(all[j]).None?;
    }
  }

  /** All the values of a list field, in order. */
  function Gathered<T>(effects: seq<Effect>, f: Effect -> Option<seq<T>>): seq<T> {
    if effects == [] then [] else Items(f(effects[0])) + Gathered(effects[1..], f)
  }

  lemma {:induction false} GatheredOneMore<T>(done: seq<Effect>, e: Effect, f: Effect -> Option<seq<T>>)
    ensures Gathered(done + [e], f) == Gathered(done, f) + Items(f(e))
  {
    if done == [] {
      assert done + [e] == [e] && [e][1..] == [];
    } else {
      assert (done + [e])[1..] == done[1..] + [e];
      GatheredOneMore(done[1..], e, f);
      Assoc(Items(f(done[0])), Gathered(done[1..], f), Items(f(e)));
    }
  }

  lemma {:induction false} MergedSingles(effects: seq<Effect>)
    ensures
      var m := Merged(effects);
      && FirstWins(effects, (e: Effect) => e.turnEndRequest, m.turnEndRequest)
      && LastWins(effects, (e: Effect) => e.compact, m.compact)
      && LastWins(effects, (e: Effect) => e.interruptReason, m.interruptReason)
      && LastWins(effects, (e: Effect) => e.replaceMessages, m.replaceMessages)
    decreases |effects|
  {
    if effects != [] {
      var done, e := effects[..|effects| - 1], effects[|effects| - 1];
      assert effects == done + [e];
      MergedSingles(done);
      MergedOneMore(done, e);
      FirstOfOneMore(done, e, (e: Effect) => e.turnEndRequest, Merged(done).turnEndRequest);
      LastOfOneMore(done, e, (e: Effect) => e.compact, Merged(done).compact);
      LastOfOneMore(done, e, (e: Effect) => e.interruptReason, Merged(done).interruptReason);
      LastOfOneMore(done, e, (e: Effect) => e.replaceMessages, Merged(done).replaceMessages);
    }
  }

  lemma {:induction false} MergedLists(effects: seq<Effect>)
    ensures
      var m := Merged(effects);
      && Items(m.appendMessages) == Gathered(effects, (e: Effect) => e.appendMessages)
      && Items(m.prefixDrifts) == Gathered(effects, (e: Effect) => e.prefixDrifts)
      && Items(m.diagnostics) == Gathered(effects, (e: Effect) => e.diagnostics)
    decreases |effects|
  {
    if effects != [] {
      var done, e := effects[..|effects| - 1], effects[|effects| - 1];
      assert effects == done + [e];
      MergedLists(done);
      MergedOneMore(done, e);
      GatheredOneMore(done, e, (e: Effect) => e.appendMessages);
      GatheredOneMore(done, e, (e: Effect) => e.prefixDrifts);
      GatheredOneMore(done, e, (e: Effect) => e.diagnostics);
    }
  }

  predicate AnyHas(effects: seq<Effect>, holds: Effect -> bool) {
    exists i | 0 <= i < |effects| :: holds(effects[i])
  }

  lemma SomeOfOneMore(done: seq<Effect>, e: Effect, holds: Effect -> bool)
    ensures AnyHas(done + [e], holds) <==> AnyHas(done, holds) || holds(e)
  {
    var all := done + [e];
    assert all[|done|] == e;
    if AnyHas(done, holds) {
      var i :| 0 <= i < |done| && holds(done[i]);
      assert holds(all[i]);
    }
  }

  lemma {:induction false} MergedFlags(effects: seq<Effect>)
    ensures
      var m := Merged(effects);
      && (m.interruptModelResponse <==> AnyHas(effects, (e: Effect) => e.interruptModelResponse))
      && (Stops(m) <==> AnyHas(effects, (e: Effect) => Stops(e)))
    decreases |effects|
  {
    if effects != [] {
      var done, e := effects[..|effects| - 1], effects[|effects| - 1];
      assert effects == done + [e];
      MergedFlags(done);
      MergedOneMore(done, e);
      SomeOfOneMore(done, e, (e: Effect) => e.interruptModelResponse);
      SomeOfOneMore(done, e, (e: Effect) => Stops(e));
    }
  }

  // ----- the merged effect against the threaded context ----------------------------------

  predicate Appends(e: Effect) {
    Items(e.appendMessages) != []
  }

  /** Some effect replaces the messages after another has appended some. */
  predicate LateReplace(effects: seq<Effect>) {
    exists i, j | 0 <= i < j < |effects| :: Appends(effects[i]) && effects[j].replaceMessages.Some?
  }

  predicate AnyAppends(effects: seq<Effect>) {
    exists i | 0 <= i < |effects| :: Appends(effects[i])
  }

  lemma OneMoreAppends(done: seq<Effect>, e: Effect)
    ensures AnyAppends(done + [e]) <==> AnyAppends(done) || Appends(e)
    ensures LateReplace(done + [e]) <==> LateReplace(done) || (AnyAppends(done) && e.replaceMessages.Some?)
  {
    var all := done + [e];
    if AnyAppends(done) {
      var i :| 0 <= i < |done| && Appends(done[i]);
      assert all[i] == done[i];
      assert all[|done|] == e;
    }
    assert Appends(e) ==> Appends(all[|done|]);
    if LateReplace(done) {
      var i, j :| 0 <= i < j < |done| && Appends(done[i]) && done[j].replaceMessages.Some?;
      assert all[i] == done[i] && all[j] == done[j];
    }
  }

  lemma MessagesOneMore(threaded: Option<seq<Message>>, base: Option<seq<Message>>, merged: Effect, e: Effect)
    requires
      var whole := Appended(Latest(base, merged.replaceMessages), merged.appendMessages);
      threaded.Some? == whole.Some?
    ensures
      var whole := Appended(Latest(base, merged.replaceMessages), merged.appendMessages);
      var next := Combined(merged, e);
      var threaded' := Appended(Latest(threaded, e.replaceMessages), e.appendMessages);
      var whole' := Appended(Latest(base, next.replaceMessages), next.appendMessages);
      && threaded'.Some? == whole'.Some?
      && (threaded' == whole' <==>
          if e.replaceMessages.Some? then Items(merged.appendMessages) == [] else threaded == whole)
  {
    var b, m, a := Items(Latest(base, merged.replaceMessages)), Items(merged.appendMessages), Items(e.appendMessages);
    if e.replaceMessages.Some? {
      var r := e.replaceMessages.value;
      var threaded' := Appended(Some(r), e.appendMessages);
      var whole' := Appended(Some(r), Appended(merged.appendMessages, e.appendMessages));
      assert Items(threaded') == r + a;
      assert Items(whole') == r + (m + a);
      assert |r + (m + a)| == |r + a| + |m|;
      assert m == [] ==> m + a == a;
    } else {
      assert b + (m + a) == b + m + a;
      assert (Items(threaded) + a)[..|Items(threaded)|] == Items(threaded);
      assert (b + m + a)[..|b + m|] == b + m;
    }
  }

  lemma {:induction false} MessagesFrom(context: Context, effects: seq<Effect>)
    ensures AppliedAll(context, effects).messages.Some? == Applied(context, Merged(effects)).messages.Some?
    ensures Items(Merged(effects).appendMessages) == [] <==> !AnyAppends(effects)
    ensures Applied(context, Merged(effects)).messages == AppliedAll(context, effects).messages <==>
            !LateReplace(effects)
    decreases |effects|
  {
    if effects != [] {
      var done, e := effects[..|effects| - 1], effects[|effects| - 1];
      assert effects == done + [e];
      MessagesFrom(context, done);
      MergedOneMore(done, e);
      AppliedConcat(context, done, e);
      OneMoreAppends(done, e);
      MessagesOneMore(AppliedAll(context, done).messages, context.messages, Merged(done), e);
    }
  }

  /** Applying the merged effect shows the messages that the last hook left exactly when no effect
      replaces the messages after another has appended some. */
  lemma MergedMessages(context: Context, effects: seq<Effect>)
    ensures Applied(context, Merged(effects)).messages == AppliedAll(context, effects).messages <==>
            !LateReplace(effects)
  {
    MessagesFrom(context, effects);
  }

  /** Everything but the messages is always the same. */
  lemma {:induction false} MergedRest(context: Context, effects: seq<Effect>)
    ensures Applied(context, Merged(effects)).(messages := None) == AppliedAll(context, effects).(messages := None)
    decreases |effects|
  {
    if effects != [] {
      var done, e := effects[..|effects| - 1], effects[|effects| - 1];
      assert effects == done + [e];
      MergedRest(context, done);
      MergedOneMore(done, e);
      AppliedConcat(context, done, e);
    }
  }

  lemma {:induction false} MergedReplacements(effects: seq<Effect>)
    ensures
      var m := Merged(effects);
      && LastWins(effects, (e: Effect) => e.replaceRequestText, m.replaceRequestText)
      && LastWins(effects, (e: Effect) => e.replaceModelTools, m.replaceModelTools)
      && LastWins(effects, (e: Effect) => e.replaceToolCalls, m.replaceToolCalls)
      && LastWins(effects, (e: Effect) => e.replaceToolResults, m.replaceToolResults)
      && LastWins(effects, (e: Effect) => e.finalAssistantText, m.finalAssistantText)
    decreases |effects|
  {
    if effects != [] {
      var done, e := effects[..|effects| - 1], effects[|effects| - 1];
      assert effects == done + [e];
      MergedReplacements(done);
      MergedOneMore(done, e);
      var m := Merged(done);
      LastOfOneMore(done, e, (e: Effect) => e.replaceRequestText, m.replaceRequestText);
      LastOfOneMore(done, e, (e: Effect) => e.replaceModelTools, m.replaceModelTools);
      LastOfOneMore(done, e, (e: Effect) => e.replaceToolCalls, m.replaceToolCalls);
      LastOfOneMore(done, e, (e: Effect) => e.replaceToolResults, m.replaceToolResults);
      LastOfOneMore(done, e, (e: Effect) => e.finalAssistantText, m.finalAssistantText);
    }
  }

  /** `now` is the last value the effects set, by `f`, or `before` when none of them sets one. */
  ghost predicate LastSet<T>(effects: seq<Effect>, f: Effect -> Option<T>, before: Option<T>, now: Option<T>) {
    LastWins(effects, f, now) || (LastWins(effects, f, None) && now == before)
  }

  /** After the hooks have run, each part of the context is what the last hook to set it set. */
  lemma ContextAfterHooks(context: Context, effects: seq<Effect>)
    ensures
      var c := AppliedAll(context, effects);
      && LastSet(effects, (e: Effect) => e.replaceRequestText, Some(context.requestText), Some(c.requestText))
      && LastSet(effects, (e: Effect) => e.replaceModelTools, context.modelTools, c.modelTools)
      && LastSet(effects, (e: Effect) => e.replaceToolCalls, context.toolCalls, c.toolCalls)
      && LastSet(effects, (e: Effect) => e.replaceToolResults, context.toolResults, c.toolResults)
      && LastSet(effects, (e: Effect) => e.finalAssistantText, context.assistantText, c.assistantText)
  {
    MergedReplacements(effects);
    MergedRest(context, effects);
    assert Applied(context, Merged(effects)).(messages := None) == AppliedAll(context, effects).(messages := None);
  }

  /** A replacement after an append: the merged effect brings the appended message back. */
  lemma LateReplaceBringsBack(context: Context, appended: Message, replaced: seq<Message>)
    ensures
      var effects := [NO_EFFECT.(appendMessages := Some([appended])), NO_EFFECT.(replaceMessages := Some(replaced))];
      && AppliedAll(context, effects).messages == Some(replaced)
      && Applied(context, Merged(effects)).messages == Some(replaced + [appended])
  {
    var first, second := NO_EFFECT.(appendMessages := Some([appended])), NO_EFFECT.(replaceMessages := Some(replaced));
    var effects := [first, second];
    CombinedAllTwo(NO_EFFECT, first, second);
    AppliedConcat(context, [first], second);
    AppliedConcat(context, [], first);
    assert [first] + [second] == effects && [] + [first] == [first];
    assert [] + [appended] == [appended];
  }
}
