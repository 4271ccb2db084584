/** Hiding a model's thinking from its streamed answer.

    The filter drops `<think>...</think>` blocks and, before anything was shown, text closed by a
    `</think>` that was never opened. The stream reader also takes back what it has shown when a
    later delta closes a block that was never opened. */
module ThinkFilter {
  import opened JsText
  import opened SseFrames

  const OPEN := "<think>"
  const CLOSE := "</think>"

  datatype Filter = Filter(visibleStarted: bool, insideThink: bool)

  datatype Pushed = Pushed(text: string, reasoning: seq<string>, filter: Filter)

  function Before(p: Pushed, text: string, reasoning: seq<string>): Pushed {
    p.(text := text + p.text, reasoning := reasoning + p.reasoning)
  }

  function Push(f: Filter, rest: string): Pushed
    decreases |rest|
  {
    if rest == [] then Pushed("", [], f)
    else if f.insideThink then
      var end := IndexOf(rest, CLOSE);
      if end.None? then Pushed("", [rest], f)
      else Before(Push(f.(insideThink := false), rest[end.value + |CLOSE|..]), "", [rest[..end.value]])
    else
      var start, end := IndexOf(rest, OPEN), IndexOf(rest, CLOSE);
      if start.Some? && (end.None? || start.value < end.value) then
        var visible := rest[..start.value];
        Before(Push(Filter(f.visibleStarted || visible != [], true), rest[start.value + |OPEN|..]), visible, [])
      else if !f.visibleStarted && end.Some? then
        Before(Push(f, rest[end.value + |CLOSE|..]), "", [rest[..end.value]])
      else Pushed(rest, [], f.(visibleStarted := true))
  }

  lemma BeforeTwice(p: Pushed, t: string, r: seq<string>, t': string, r': seq<string>)
    ensures Before(Before(p, t', r'), t, r) == Before(p, t + t', r + r')
  {
    assert t + (t' + p.text) == t + t' + p.text;
    assert r + (r' + p.reasoning) == r + r' + p.reasoning;
  }

  class OutputTextFilter {
    var visibleStarted: bool
    var insideThink: bool

    function State(): Filter
      reads this
    {
      Filter(visibleStarted, insideThink)
    }

    constructor ()
      ensures State() == Filter(false, false)
    {
      visibleStarted, insideThink := false, false;
    }

    method PushDelta(delta: string) returns (text: string, reasoning: seq<string>)
      modifies this
      ensures Pushed(text, reasoning, State()) == Push(old(State()), delta)
    {
      text, reasoning := "", [];
      var rest := delta;
      while |rest| > 0
        invariant Before(Push(State(), rest), text, reasoning) == Push(old(State()), delta)
        decreases |rest|
      {
        var visible, hidden, next := PassOne(rest);
        BeforeTwice(Push(State(), next), text, reasoning, visible, hidden);
        text := text + visible;
        reasoning := reasoning + hidden;
        rest := next;
      }
    }

    /** One pass of the loop: takes the text up to and including the next tag, or all of it. */
    method PassOne(rest: string) returns (visible: string, hidden: seq<string>, next: string)
      requires |rest| > 0
      modifies this
      ensures |next| < |rest|
      ensures Push(old(State()), rest) == Before(Push(State(), next), visible, hidden)
    {
      visible, hidden, next := "", [], "";
      var endIndex := IndexOf(rest, CLOSE);
      if insideThink {
        if endIndex.None? {
          return "", [rest], "";
        }
        insideThink := false;
        return "", [rest[..endIndex.value]], rest[endIndex.value + |CLOSE|..];
      }
      var startIndex := IndexOf(rest, OPEN);
      if startIndex.Some? && (endIndex.None? || startIndex.value < endIndex.value) {
        visible := rest[..startIndex.value];
        visibleStarted := visibleStarted || |visible| > 0;
        insideThink := true;
        return visible, [], rest[startIndex.value + |OPEN|..];
      }
      if !visibleStarted && endIndex.Some? {
        return "", [rest[..endIndex.value]], rest[endIndex.value + |CLOSE|..];
      }
      visibleStarted := true;
      return rest, [], "";
    }
  }

  function StripHiddenThinking(text: string): Pushed {
    Push(Filter(false, false), text)
  }

  // ----- the stream reader's content -----------------------------------------------------

  datatype Stream = Stream(content: string, filter: Filter)

  const START := Stream("", Filter(false, false))

  /** What one text delta does to the visible content. */
  function Received(s: Stream, delta: string): Stream {
    if delta == [] then s
    else
      var dangling := if |s.content| > 0 then IndexOf(delta, CLOSE) else None;
      if dangling.Some? then
        var p := Push(s.filter, delta[dangling.value + |CLOSE|..]);
        Stream(p.text, p.filter)
      else
        var p := Push(s.filter, delta);
        Stream(s.content + p.text, p.filter)
  }

  function ReceivedAll(s: Stream, deltas: seq<string>): Stream
    decreases |deltas|
  {
    if deltas == [] then s else ReceivedAll(Received(s, deltas[0]), deltas[1..])
  }

  method ReadText(deltas: seq<string>) returns (content: string)
    ensures content == ReceivedAll(START, deltas).content
  {
    content := "";
    var textFilter := new OutputTextFilter();
    for i := 0 to |deltas|
      invariant ReceivedAll(Stream(content, textFilter.State()), deltas[i..]) == ReceivedAll(START, deltas)
      invariant fresh(textFilter)
    {
      var delta := deltas[i];
      assert deltas[i..][1..] == deltas[i + 1..];
      if |delta| > 0 {
        var danglingThinkEndIndex := if |content| > 0 then IndexOf(delta, CLOSE) else None;
        if danglingThinkEndIndex.Some? {
          var text, reasoning := textFilter.PushDelta(delta[danglingThinkEndIndex.value + |CLOSE|..]);
          content := text;
        } else {
          var text, reasoning := textFilter.PushDelta(delta);
          content := content + text;
        }
      }
    }
  }

  // ----- occurrences of tags -------------------------------------------------------------

  ghost predicate TagFree(s: string) {
    forall k: nat :: !Occurs(s, OPEN, k) && !Occurs(s, CLOSE, k)
  }

  lemma TagFreeHasNoIndex(s: string)
    ensures TagFree(s) <==> IndexOf(s, OPEN).None? && IndexOf(s, CLOSE).None?
  {
    IndexOfIsFirst(s, OPEN);
    IndexOfIsFirst(s, CLOSE);
  }

  predicate IsTag(tag: string) { tag == OPEN || tag == CLOSE }

  lemma PartIsTagFree(s: string, i: nat, j: nat)
    requires TagFree(s) && i <= j <= |s|
    ensures TagFree(s[i..j])
  {
    forall tag, k: nat | IsTag(tag) ensures !Occurs(s[i..j], tag, k) {
      OccursByChars(s[i..j], tag, k);
      OccursByChars(s, tag, i + k);
      assert !Occurs(s, tag, i + k);
    }
  }

  /** A tag has its only `<` in front. */
  lemma TagChars(tag: string)
    requires IsTag(tag)
    ensures |tag| >= 7 && tag[0] == '<' && forall m | 0 < m < |tag| :: tag[m] != '<'
  {
  }

  /** In text with one tag between two tag-free parts, tags occur nowhere else: no occurrence
      reaches into another. */
  lemma OnlyTagHere(a: string, tag: string, b: string, other: string, k: nat)
    requires TagFree(a) && TagFree(b) && IsTag(tag) && IsTag(other)
    ensures Occurs(a + tag + b, other, k) <==> (k == |a| && other == tag)
  {
    var s := a + tag + b;
    OccursByChars(s, other, k);
    TagChars(tag);
    TagChars(other);
    if k == |a| {
      assert forall m | 0 <= m < |tag| :: s[k + m] == tag[m];
      assert other != tag ==> other[1] != tag[1];
    } else {
      NoTagElsewhere(a, tag, b, other, k);
    }
  }

  lemma NoTagElsewhere(a: string, tag: string, b: string, other: string, k: nat)
    requires TagFree(a) && TagFree(b) && IsTag(tag) && IsTag(other) && k != |a|
    ensures !Occurs(a + tag + b, other, k)
  {
    var s := a + tag + b;
    OccursByChars(s, other, k);
    TagChars(tag);
    TagChars(other);
    if k + |other| <= |a| {
      OccursByChars(a, other, k);
      assert !Occurs(a, other, k);
      var part := a[k..k + |other|];
      assert forall m | 0 <= m < |other| :: part[m] == s[k + m];
    } else if k < |a| {
      assert s[|a|] == '<';
      assert s[k + (|a| - k)] != other[|a| - k];
    } else if k < |a| + |tag| {
      assert s[k + 0] == tag[k - |a|] != other[0];
    } else if k + |other| <= |s| {
      var k' := k - |a| - |tag|;
      OccursByChars(b, other, k');
      assert !Occurs(b, other, k');
      var part := b[k'..k' + |other|];
      assert forall m | 0 <= m < |other| :: part[m] == s[k + m];
    }
  }

  lemma OneTagIndex(a: string, tag: string, b: string)
    requires TagFree(a) && TagFree(b) && IsTag(tag)
    ensures IndexOf(a + tag + b, tag) == Some(|a|)
    ensures forall other | IsTag(other) && other != tag :: IndexOf(a + tag + b, other).None?
  {
    var s := a + tag + b;
    IndexOfIsFirst(s, OPEN);
    IndexOfIsFirst(s, CLOSE);
    OnlyTagHere(a, tag, b, tag, |a|);
    forall k: nat | k < |a| ensures !Occurs(a + tag + b, tag, k) {
      OnlyTagHere(a, tag, b, tag, k);
    }
    forall other, k: nat | IsTag(other) && other != tag ensures !Occurs(a + tag + b, other, k) {
      OnlyTagHere(a, tag, b, other, k);
    }
  }

  /** Tag-free text passes a filter unchanged, or is all hidden inside a block. */
  lemma PushTagFree(f: Filter, s: string)
    requires TagFree(s)
    ensures Push(f, s).text == (if f.insideThink then "" else s)
    ensures Push(f, s).filter == (if s == [] || f.insideThink then f else f.(visibleStarted := true))
  {
    TagFreeHasNoIndex(s);
  }

  lemma PushClose(f: Filter, a: string, b: string)
    requires TagFree(a) && TagFree(b) && (f.insideThink || !f.visibleStarted)
    ensures Push(f, a + CLOSE + b).text == b
    ensures !Push(f, a + CLOSE + b).filter.insideThink
  {
    var s := a + CLOSE + b;
    OneTagIndex(a, CLOSE, b);
    assert s[|a| + |CLOSE|..] == b;
    PushTagFree(Filter(f.visibleStarted, false), b);
  }
}
