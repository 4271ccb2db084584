/** The transcript given to the model that compacts a session: rows grouped by user row, and as many
    groups as fit a budget of tokens. How many tokens a text takes, and what text a group gets, are
    parameters. */
module TranscriptBudget {
  import opened JsText

  datatype Entry = Entry(text: string, compactText: string, important: bool)

  // ----- grouping ------------------------------------------------------------------------

  function Flat<T>(groups: seq<seq<T>>): seq<T> {
    if groups == [] then [] else groups[0] + Flat(groups[1..])
  }

  lemma {:induction false} FlatAppend<T>(groups: seq<seq<T>>, last: seq<T>)
    ensures Flat(groups + [last]) == Flat(groups) + last
  {
    if groups == [] {
      assert groups + [last] == [last] && [last][1..] == [];
      assert Flat([last]) == last + [];
    } else {
      assert (groups + [last])[1..] == groups[1..] + [last];
      FlatAppend(groups[1..], last);
    }
  }

  /** No row after the first begins a turn. */
  predicate OneTurn<T>(group: seq<T>, isUser: T -> bool) {
    group != [] && forall i | 0 < i < |group| :: !isUser(group[i])
  }

  /** Groups partition the rows, in order; a group begins at a user row, or with the first row of all. */
  method GroupRows<T>(rows: seq<T>, isUser: T -> bool) returns (groups: seq<seq<T>>)
    ensures Flat(groups) == rows
    ensures forall k | 0 <= k < |groups| :: OneTurn(groups[k], isUser) && (k > 0 ==> isUser(groups[k][0]))
  {
    groups := [];
    var current: seq<T> := [];
    for i := 0 to |rows|
      invariant Flat(groups) + current == rows[..i]
      invariant forall k | 0 <= k < |groups| :: OneTurn(groups[k], isUser) && (k > 0 ==> isUser(groups[k][0]))
      invariant current != [] ==> OneTurn(current, isUser) && (groups != [] ==> isUser(current[0]))
      invariant current == [] ==> i == 0 && groups == []
    {
      if isUser(rows[i]) && |current| > 0 {
        FlatAppend(groups, current);
        groups := groups + [current];
        current := [];
      }
      current := current + [rows[i]];
      assert rows[..i + 1] == rows[..i] + [rows[i]];
    }
    assert rows[..|rows|] == rows;
    if |current| > 0 {
      FlatAppend(groups, current);
      groups := groups + [current];
    }
  }

  // ----- the greedy pass -----------------------------------------------------------------

  function Preferred(e: Entry): string {
    if e.important then e.text else e.compactText
  }

  /** What is shown of an entry when `used` tokens are taken. */
  function Choice(e: Entry, used: nat, maxTokens: nat, estimate: string -> nat): Option<string> {
    if used + estimate(Preferred(e)) <= maxTokens then Some(Preferred(e))
    else if Preferred(e) != e.compactText && used + estimate(e.compactText) <= maxTokens then Some(e.compactText)
    else None
  }

  function Cost(choice: Option<string>, estimate: string -> nat): nat {
    if choice.Some? then estimate(choice.value) else 0
  }

  function Choices(entries: seq<Entry>, used: nat, maxTokens: nat, estimate: string -> nat): (r: seq<Option<string>>)
    ensures |r| == |entries|
  {
    if entries == [] then []
    else
      var choice := Choice(entries[0], used, maxTokens, estimate);
      [choice] + Choices(entries[1..], used + Cost(choice, estimate), maxTokens, estimate)
  }

  function Shown(choices: seq<Option<string>>): seq<string> {
    if choices == [] then []
    else (if choices[0].Some? then [choices[0].value] else []) + Shown(choices[1..])
  }

  function Omitted(choices: seq<Option<string>>): nat {
    if choices == [] then 0 else (if choices[0].None? then 1 else 0) + Omitted(choices[1..])
  }

  function Total(texts: seq<string>, estimate: string -> nat): nat {
    if texts == [] then 0 else estimate(texts[0]) + Total(texts[1..], estimate)
  }

  lemma ChoicesOneMore(entries: seq<Entry>, i: nat, used: nat, maxTokens: nat, estimate: string -> nat)
    requires i < |entries|
    ensures
      var choice := Choice(entries[i], used, maxTokens, estimate);
      var rest := Choices(entries[i + 1..], used + Cost(choice, estimate), maxTokens, estimate);
      var choices := Choices(entries[i..], used, maxTokens, estimate);
      && Shown(choices) == (if choice.Some? then [choice.value] else []) + Shown(rest)
      && Omitted(choices) == (if choice.None? then 1 else 0) + Omitted(rest)
  {
    var choice := Choice(entries[i], used, maxTokens, estimate);
    var rest := Choices(entries[i + 1..], used + Cost(choice, estimate), maxTokens, estimate);
    assert entries[i..][1..] == entries[i + 1..];
    assert ([choice] + rest)[1..] == rest;
  }

  /** One pass of the loop. */
  method ShowEntry(entry: Entry, tokens: nat, maxTokens: nat, estimate: string -> nat)
    returns (shown: seq<string>, taken: nat, omitted: nat)
    ensures
      var choice := Choice(entry, tokens, maxTokens, estimate);
      && shown == (if choice.Some? then [choice.value] else [])
      && taken == tokens + Cost(choice, estimate)
      && omitted == (if choice.None? then 1 else 0)
  {
    var preferredText := if entry.important then entry.text else entry.compactText;
    var preferredTokens := estimate(preferredText);
    if tokens + preferredTokens <= maxTokens {
      return [preferredText], tokens + preferredTokens, 0;
    }
    var compactTokens := estimate(entry.compactText);
    if preferredText != entry.compactText && tokens + compactTokens <= maxTokens {
      return [entry.compactText], tokens + compactTokens, 0;
    }
    return [], tokens, 1;
  }

  // ----- what the pass guarantees --------------------------------------------------------

  /** The texts shown never take more than the budget. */
  lemma {:induction false} ShownFits(entries: seq<Entry>, used: nat, maxTokens: nat, estimate: string -> nat)
    requires used <= maxTokens
    ensures used + Total(Shown(Choices(entries, used, maxTokens, estimate)), estimate) <= maxTokens
    decreases |entries|
  {
    if entries != [] {
      var choice := Choice(entries[0], used, maxTokens, estimate);
      ShownFits(entries[1..], used + Cost(choice, estimate), maxTokens, estimate);
      TotalOfChoices(choice, Choices(entries[1..], used + Cost(choice, estimate), maxTokens, estimate), estimate);
    }
  }

  lemma TotalOfChoices(choice: Option<string>, rest: seq<Option<string>>, estimate: string -> nat)
    ensures Total(Shown([choice] + rest), estimate) == Cost(choice, estimate) + Total(Shown(rest), estimate)
  {
    assert ([choice] + rest)[1..] == rest;
    if choice.Some? {
      assert ([choice.value] + Shown(rest))[1..] == Shown(rest);
    } else {
      assert [] + Shown(rest) == Shown(rest);
    }
  }

  /** `shown` are texts of the entries at the rising places `at`: the full text only of an important one. */
  ghost predicate Shows(entries: seq<Entry>, shown: seq<string>, at: seq<nat>) {
    && |at| == |shown|
    && (forall i, j | 0 <= i < j < |at| :: at[i] < at[j])
    && (forall i | 0 <= i < |at| :: at[i] < |entries| && TextOf(entries[at[i]], shown[i]))
  }

  predicate TextOf(e: Entry, text: string) {
    text == e.compactText || (e.important && text == e.text)
  }

  /** The pass shows texts of some of the entries, in their order and each once, and counts all others
      as omitted. */
  lemma {:induction false} ShownOrOmitted(entries: seq<Entry>, used: nat, maxTokens: nat, estimate: string -> nat)
    returns (at: seq<nat>)
    ensures
      var choices := Choices(entries, used, maxTokens, estimate);
      Shows(entries, Shown(choices), at) && |at| + Omitted(choices) == |entries|
    decreases |entries|
  {
    if entries == [] {
      at := [];
    } else {
      var choice := Choice(entries[0], used, maxTokens, estimate);
      var next := used + Cost(choice, estimate);
      var rest := ShownOrOmitted(entries[1..], next, maxTokens, estimate);
      var left := Choices(entries[1..], next, maxTokens, estimate);
      assert ([choice] + left)[1..] == left;
      at := (if choice.Some? then [0] else []) + seq(|rest|, i requires 0 <= i < |rest| => rest[i] + 1);
      ShowsOneMore(entries, Shown(left), rest, choice, at);
    }
  }

  lemma ShowsOneMore(entries: seq<Entry>, shown: seq<string>, rest: seq<nat>, choice: Option<string>, at: seq<nat>)
    requires entries != [] && Shows(entries[1..], shown, rest) && (choice.Some? ==> TextOf(entries[0], choice.value))
    requires at == (if choice.Some? then [0] else []) + seq(|rest|, i requires 0 <= i < |rest| => rest[i] + 1)
    ensures Shows(entries, (if choice.Some? then [choice.value] else []) + shown, at)
  {
    var n := if choice.Some? then 1 else 0;
    forall i | n <= i < |at| ensures at[i] < |entries| && entries[at[i]] == entries[1..][rest[i - n]] {
      assert at[i] == rest[i - n] + 1;
    }
  }

  /** Entry by entry: what is shown is one of its own texts, the full text only of an important entry.
      What is left out would not fit beside all that is shown, and a shortened important entry would
      not fit in full. */
  lemma {:induction false} EachChoiceIsForced(entries: seq<Entry>, used: nat, maxTokens: nat,
                                              estimate: string -> nat, k: nat)
    requires k < |entries|
    ensures
      var choices := Choices(entries, used, maxTokens, estimate);
      var total := used + Total(Shown(choices), estimate);
      var e := entries[k];
      && (choices[k].Some? ==> choices[k].value == e.compactText || (e.important && choices[k].value == e.text))
      && (choices[k].None? ==> total + estimate(e.compactText) > maxTokens)
      && (e.important && choices[k] != Some(e.text) ==>
            used + Total(Shown(choices[..k]), estimate) + estimate(e.text) > maxTokens)
    decreases |entries|
  {
    var choice := Choice(entries[0], used, maxTokens, estimate);
    var rest := Choices(entries[1..], used + Cost(choice, estimate), maxTokens, estimate);
    TotalOfChoices(choice, rest, estimate);
    var choices := Choices(entries, used, maxTokens, estimate);
    assert choices == [choice] + rest;
    if k == 0 {
      assert choices[..0] == [];
    } else {
      EachChoiceIsForced(entries[1..], used + Cost(choice, estimate), maxTokens, estimate, k - 1);
      assert choices[..k] == [choice] + rest[..k - 1];
      TotalOfChoices(choice, rest[..k - 1], estimate);
    }
  }

  /** As many entries as fit, in their order; all others are counted. */
  method CompactTranscript(entries: seq<Entry>, maxTokens: nat, estimate: string -> nat)
    returns (output: seq<string>, omitted: nat, ghost at: seq<nat>)
    ensures
      var choices := Choices(entries, 0, maxTokens, estimate);
      output == Shown(choices) && omitted == Omitted(choices)
    ensures Shows(entries, output, at) && |output| + omitted == |entries|
    ensures Total(output, estimate) <= maxTokens
  {
    output, omitted := [], 0;
    var tokens: nat := 0;
    ghost var all := Choices(entries, 0, maxTokens, estimate);
    ghost var left := all;
    assert entries[0..] == entries;
    for i := 0 to |entries|
      invariant left == Choices(entries[i..], tokens, maxTokens, estimate)
      invariant output + Shown(left) == Shown(all)
      invariant omitted + Omitted(left) == Omitted(all)
    {
      ChoicesOneMore(entries, i, tokens, maxTokens, estimate);
      var shown, taken, more := ShowEntry(entries[i], tokens, maxTokens, estimate);
      left := Choices(entries[i + 1..], taken, maxTokens, estimate);
      assert output + (shown + Shown(left)) == output + shown + Shown(left);
      output := output + shown;
      tokens := taken;
      omitted := omitted + more;
    }
    at := ShownOrOmitted(entries, 0, maxTokens, estimate);
    ShownFits(entries, 0, maxTokens, estimate);
  }
}
