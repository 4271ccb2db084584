/** The answer shown at the end of a stream, for every way in which the text may be cut into deltas:
    it does not depend on the cutting as long as no cut falls inside the closing tag. */
module ThinkStreaming {
  import opened JsText
  import opened SseFrames
  import opened ThinkFilter

  /** No delta ends strictly inside the `n` characters from position `p`; `c` characters precede. */
  predicate Uncut(deltas: seq<string>, c: nat, p: nat, n: nat)
    decreases |deltas|
  {
    deltas == [] || (!(p < c + |deltas[0]| < p + n) && Uncut(deltas[1..], c + |deltas[0]|, p, n))
  }

  /** A part that does not hold the whole of the only tag is free of tags. */
  lemma PartBesideTag(a: string, tag: string, b: string, i: nat, j: nat)
    requires TagFree(a) && TagFree(b) && IsTag(tag) && i <= j <= |a + tag + b|
    requires i > |a| || j < |a| + |tag|
    ensures TagFree((a + tag + b)[i..j])
  {
    forall other, k: nat | IsTag(other) ensures !Occurs((a + tag + b)[i..j], other, k) {
      OnlyTagHere(a, tag, b, other, i + k);
      OccursInPart(a + tag + b, i, j, other, k);
    }
  }

  lemma OccursInPart(s: string, i: nat, j: nat, pat: string, k: nat)
    requires i <= j <= |s|
    ensures Occurs(s[i..j], pat, k) ==> Occurs(s, pat, i + k) && i + k + |pat| <= j
  {
    OccursByChars(s[i..j], pat, k);
    OccursByChars(s, pat, i + k);
    var part := s[i..j];
    assert forall n | 0 <= n < |part| :: part[n] == s[i + n];
  }

  lemma ReceiveTagFree(s: Stream, delta: string)
    requires TagFree(delta)
    ensures Received(s, delta).content == s.content + if s.filter.insideThink then "" else delta
    ensures Received(s, delta).filter.insideThink == s.filter.insideThink
    ensures !s.filter.insideThink ==>
              Received(s, delta).filter.visibleStarted == (s.filter.visibleStarted || delta != [])
    ensures s.filter.insideThink ==> Received(s, delta) == s
  {
    TagFreeHasNoIndex(delta);
    PushTagFree(s.filter, delta);
  }

  /** A delta that holds the closing tag leaves exactly what follows it, whether the text before it
      was shown, hidden, or never there. */
  lemma ReceiveClose(s: Stream, a: string, b: string)
    requires TagFree(a) && TagFree(b)
    requires (s.filter == Filter(false, true) && s.content == "") || s.filter == Filter(s.content != [], false)
    ensures Received(s, a + CLOSE + b).content == b
    ensures !Received(s, a + CLOSE + b).filter.insideThink
  {
    var delta := a + CLOSE + b;
    OneTagIndex(a, CLOSE, b);
    if s.content == "" {
      PushClose(s.filter, a, b);
    } else {
      assert delta[|a| + |CLOSE|..] == b;
      PushTagFree(s.filter, b);
    }
  }

  lemma ReceiveAcross(a: string, b: string, c: nat, c': nat, s: Stream)
    requires TagFree(a) && TagFree(b) && c <= |a| && |a| + |CLOSE| <= c' <= |a + CLOSE + b|
    requires (s.filter == Filter(false, true) && s.content == "") || s.filter == Filter(s.content != [], false)
    ensures
      var after := Received(s, (a + CLOSE + b)[c..c']);
      after.content == b[..c' - |a| - |CLOSE|] && !after.filter.insideThink
  {
    var a2, b1 := a[c..], b[..c' - |a| - |CLOSE|];
    assert a[c..|a|] == a2;
    PartIsTagFree(a, c, |a|);
    PartIsTagFree(b, 0, c' - |a| - |CLOSE|);
    assert (a + CLOSE + b)[c..c'] == a2 + CLOSE + b1;
    ReceiveClose(s, a2, b1);
  }

  // ----- text closed by a tag that was never opened --------------------------------------

  /** The stream after `x` was shown and then `c` characters of `a + CLOSE + b` came, no cut having
      hit the tag. */
  ghost predicate Shown(x: string, a: string, b: string, c: nat, s: Stream) {
    var close := |a| + |CLOSE|;
    if c <= |a| then s == Stream(x + a[..c], Filter(x + a[..c] != [], false))
    else close <= c <= close + |b| && s.content == b[..c - close] && !s.filter.insideThink
  }

  lemma PartAfterClose(a: string, b: string, c: nat, c': nat)
    requires |a| + |CLOSE| <= c <= c' <= |a + CLOSE + b|
    ensures (a + CLOSE + b)[c..c'] == b[c - |a| - |CLOSE|..c' - |a| - |CLOSE|]
    ensures (a + CLOSE + b)[c..] == b[c - |a| - |CLOSE|..]
  {
  }

  lemma ReceiveShown(x: string, a: string, b: string, c: nat, s: Stream, delta: string)
    requires TagFree(a) && TagFree(b) && Shown(x, a, b, c, s)
    requires c + |delta| <= |a + CLOSE + b| && delta == (a + CLOSE + b)[c..c + |delta|]
    requires !(|a| < c + |delta| < |a| + |CLOSE|)
    ensures Shown(x, a, b, c + |delta|, Received(s, delta))
  {
    var m := a + CLOSE + b;
    var c' := c + |delta|;
    if c <= |a| && |a| + |CLOSE| <= c' {
      ReceiveAcross(a, b, c, c', s);
    } else {
      PartBesideTag(a, CLOSE, b, c, c');
      ReceiveTagFree(s, delta);
      if c' <= |a| {
        assert a[..c] + delta == a[..c'];
        Assoc(x, a[..c], delta);
      } else {
        var close := |a| + |CLOSE|;
        PartAfterClose(a, b, c, c');
        assert b[..c - close] + b[c - close..c' - close] == b[..c' - close];
      }
    }
  }

  lemma NextDelta(m: string, c: nat, deltas: seq<string>)
    requires deltas != [] && c <= |m| && Concat(deltas) == m[c..]
    ensures c + |deltas[0]| <= |m| && deltas[0] == m[c..c + |deltas[0]|]
    ensures Concat(deltas[1..]) == m[c + |deltas[0]|..]
  {
    assert m[c..] == deltas[0] + Concat(deltas[1..]);
    assert m[c..][..|deltas[0]|] == deltas[0];
    assert m[c..][|deltas[0]|..] == Concat(deltas[1..]);
  }

  lemma {:induction false} ClosedFrom(x: string, a: string, b: string, c: nat, s: Stream, deltas: seq<string>)
    requires TagFree(a) && TagFree(b) && Shown(x, a, b, c, s)
    requires c <= |a + CLOSE + b| && Concat(deltas) == (a + CLOSE + b)[c..]
    requires Uncut(deltas, c, |a|, |CLOSE|)
    ensures ReceivedAll(s, deltas).content == b
    decreases |deltas|
  {
    var m := a + CLOSE + b;
    if deltas == [] {
      assert |m[c..]| == 0;
      assert s.content == b[..|b|] == b;
    } else {
      NextDelta(m, c, deltas);
      ReceiveShown(x, a, b, c, s, deltas[0]);
      ClosedFrom(x, a, b, c + |deltas[0]|, Received(s, deltas[0]), deltas[1..]);
    }
  }

  /** Once a cut has fallen inside the tag, everything is shown as it comes. */
  lemma {:induction false} ShownVerbatim(x: string, a: string, b: string, c: nat, s: Stream, deltas: seq<string>)
    requires TagFree(a) && TagFree(b) && |a| < c <= |a + CLOSE + b|
    requires s.content == x + (a + CLOSE + b)[..c] && !s.filter.insideThink
    requires Concat(deltas) == (a + CLOSE + b)[c..]
    ensures ReceivedAll(s, deltas).content == x + (a + CLOSE + b)
    decreases |deltas|
  {
    var m := a + CLOSE + b;
    if deltas == [] {
      assert m[..c] == m;
    } else {
      NextDelta(m, c, deltas);
      var c' := c + |deltas[0]|;
      PartBesideTag(a, CLOSE, b, c, c');
      ReceiveTagFree(s, deltas[0]);
      assert m[..c] + m[c..c'] == m[..c'];
      Assoc(x, m[..c], m[c..c']);
      ShownVerbatim(x, a, b, c', Received(s, deltas[0]), deltas[1..]);
    }
  }

  /** The delta that ends inside the tag. */
  lemma CutHere(x: string, a: string, b: string, c: nat, s: Stream, delta: string, rest: seq<string>)
    requires TagFree(a) && TagFree(b) && c <= |a| && Shown(x, a, b, c, s)
    requires |a| < c + |delta| < |a| + |CLOSE| && delta == (a + CLOSE + b)[c..c + |delta|]
    requires Concat(rest) == (a + CLOSE + b)[c + |delta|..]
    ensures ReceivedAll(Received(s, delta), rest).content == x + (a + CLOSE + b)
  {
    var c' := c + |delta|;
    PartBesideTag(a, CLOSE, b, c, c');
    ReceiveTagFree(s, delta);
    FrontGrows(a, CLOSE + b, c, c');
    assert a + (CLOSE + b) == a + CLOSE + b;
    Assoc(x, a[..c], delta);
    ShownVerbatim(x, a, b, c', Received(s, delta), rest);
  }

  lemma FrontGrows(a: string, end: string, c: nat, c': nat)
    requires c <= |a| && c <= c' <= |a + end|
    ensures a[..c] + (a + end)[c..c'] == (a + end)[..c']
  {
  }

  lemma {:induction false} CutFrom(x: string, a: string, b: string, c: nat, s: Stream, deltas: seq<string>)
    requires TagFree(a) && TagFree(b) && c <= |a| && Shown(x, a, b, c, s)
    requires Concat(deltas) == (a + CLOSE + b)[c..]
    requires !Uncut(deltas, c, |a|, |CLOSE|)
    ensures ReceivedAll(s, deltas).content == x + (a + CLOSE + b)
    decreases |deltas|
  {
    NextDelta(a + CLOSE + b, c, deltas);
    var c' := c + |deltas[0]|;
    if c' <= |a| {
      ReceiveShown(x, a, b, c, s, deltas[0]);
      CutFrom(x, a, b, c', Received(s, deltas[0]), deltas[1..]);
    } else if c' < |a| + |CLOSE| {
      CutHere(x, a, b, c, s, deltas[0], deltas[1..]);
    } else {
      UncutAfter(deltas[1..], c', |a|, |CLOSE|);
      assert false;
    }
  }

  lemma {:induction false} UncutAfter(deltas: seq<string>, c: nat, p: nat, n: nat)
    requires p + n <= c
    ensures Uncut(deltas, c, p, n)
    decreases |deltas|
  {
    if deltas != [] { UncutAfter(deltas[1..], c + |deltas[0]|, p, n); }
  }

  /** Thinking that was never opened: whatever the cutting, the answer is what follows the closing
      tag exactly when no delta ends inside that tag; otherwise the whole message is shown. */
  lemma UnopenedThinking(a: string, b: string, deltas: seq<string>)
    requires TagFree(a) && TagFree(b) && Concat(deltas) == a + CLOSE + b
    ensures ReceivedAll(START, deltas).content == if Uncut(deltas, 0, |a|, |CLOSE|) then b else a + CLOSE + b
  {
    assert (a + CLOSE + b)[0..] == a + CLOSE + b;
    if Uncut(deltas, 0, |a|, |CLOSE|) {
      ClosedFrom("", a, b, 0, START, deltas);
    } else {
      CutFrom("", a, b, 0, START, deltas);
    }
  }

  // ----- an answer without thinking ------------------------------------------------------

  lemma {:induction false} PlainFrom(b: string, c: nat, s: Stream, deltas: seq<string>)
    requires TagFree(b) && c <= |b| && s.content == b[..c] && !s.filter.insideThink && Concat(deltas) == b[c..]
    ensures ReceivedAll(s, deltas).content == b
    decreases |deltas|
  {
    if deltas == [] {
      assert b[..c] == b;
    } else {
      NextDelta(b, c, deltas);
      PartIsTagFree(b, c, c + |deltas[0]|);
      ReceiveTagFree(s, deltas[0]);
      assert b[..c] + b[c..c + |deltas[0]|] == b[..c + |deltas[0]|];
      PlainFrom(b, c + |deltas[0]|, Received(s, deltas[0]), deltas[1..]);
    }
  }

  lemma PlainAnswer(b: string, deltas: seq<string>)
    requires TagFree(b) && Concat(deltas) == b
    ensures ReceivedAll(START, deltas).content == b
  {
    PlainFrom(b, 0, START, deltas);
  }

  // ----- an explicit block ---------------------------------------------------------------

  /** Inside a block the closing tag ends it, unless a cut falls inside that tag: then the block
      never ends, and nothing is shown. */
  lemma {:induction false} InsideFrom(a: string, b: string, c: nat, deltas: seq<string>)
    requires TagFree(a) && TagFree(b) && c <= |a| && Concat(deltas) == (a + CLOSE + b)[c..]
    ensures ReceivedAll(Stream("", Filter(false, true)), deltas).content ==
            if Uncut(deltas, c, |a|, |CLOSE|) then b else ""
    decreases |deltas|
  {
    var m := a + CLOSE + b;
    var s := Stream("", Filter(false, true));
    assert |m[c..]| > 0;
    NextDelta(m, c, deltas);
    var c' := c + |deltas[0]|;
    var close := |a| + |CLOSE|;
    if c' <= |a| {
      PartBesideTag(a, CLOSE, b, c, c');
      ReceiveTagFree(s, deltas[0]);
      InsideFrom(a, b, c', deltas[1..]);
    } else if c' < close {
      PartBesideTag(a, CLOSE, b, c, c');
      ReceiveTagFree(s, deltas[0]);
      InsideForever(a, b, c', deltas[1..]);
    } else {
      ReceiveAcross(a, b, c, c', s);
      UncutAfter(deltas[1..], c', |a|, |CLOSE|);
      assert m[c'..] == b[c' - close..];
      PlainFrom(b, c' - close, Received(s, deltas[0]), deltas[1..]);
    }
  }

  lemma {:induction false} InsideForever(a: string, b: string, c: nat, deltas: seq<string>)
    requires TagFree(a) && TagFree(b) && |a| < c <= |a + CLOSE + b| && Concat(deltas) == (a + CLOSE + b)[c..]
    ensures ReceivedAll(Stream("", Filter(false, true)), deltas).content == ""
    decreases |deltas|
  {
    if deltas != [] {
      NextDelta(a + CLOSE + b, c, deltas);
      PartBesideTag(a, CLOSE, b, c, c + |deltas[0]|);
      ReceiveTagFree(Stream("", Filter(false, true)), deltas[0]);
      InsideForever(a, b, c + |deltas[0]|, deltas[1..]);
    }
  }

  lemma {:induction false} UncutShift(deltas: seq<string>, c: nat, c': nat, p: nat, p': nat, n: nat)
    requires c - p == c' - p'
    ensures Uncut(deltas, c, p, n) == Uncut(deltas, c', p', n)
    decreases |deltas|
  {
    if deltas != [] { UncutShift(deltas[1..], c + |deltas[0]|, c' + |deltas[0]|, p, p', n); }
  }

  /** The first delta of an explicit block: it opens the block, and may close it again. */
  lemma OpeningDelta(a: string, b: string, x: nat)
    requires TagFree(a) && TagFree(b) && x <= |a + CLOSE + b|
    ensures
      var s := Received(START, OPEN + (a + CLOSE + b)[..x]);
      if x < |a| + |CLOSE| then s == Stream("", Filter(false, true))
      else s.content == b[..x - |a| - |CLOSE|] && !s.filter.insideThink
  {
    var m := a + CLOSE + b;
    var rest := m[..x];
    var delta := OPEN + rest;
    OpenIsFirst(rest);
    assert delta[|OPEN|..] == rest;
    if x < |a| + |CLOSE| {
      assert rest == m[0..x];
      PartBesideTag(a, CLOSE, b, 0, x);
      PushTagFree(Filter(false, true), rest);
    } else {
      var b1 := b[..x - |a| - |CLOSE|];
      PartIsTagFree(b, 0, x - |a| - |CLOSE|);
      assert rest == a + CLOSE + b1;
      PushClose(Filter(false, true), a, b1);
    }
  }

  /** A text that begins with the opening tag: the filter enters the block first. */
  lemma OpenIsFirst(rest: string)
    ensures Push(Filter(false, false), OPEN + rest) ==
            Before(Push(Filter(false, true), (OPEN + rest)[|OPEN|..]), "", [])
  {
    var delta := OPEN + rest;
    IndexOfIsFirst(delta, OPEN);
    IndexOfIsFirst(delta, CLOSE);
    assert delta[0..|OPEN|] == OPEN;
    assert Occurs(delta, OPEN, 0);
    OccursByChars(delta, CLOSE, 0);
    assert delta[1] == 't';
    assert IndexOf(delta, OPEN) == Some(0);
    assert IndexOf(delta, CLOSE) != Some(0);
    assert delta[..0] == "";
  }

  /** What comes after the delta that holds the opening tag, and `x` characters more. */
  lemma AfterOpening(a: string, b: string, x: nat, deltas: seq<string>)
    requires TagFree(a) && TagFree(b) && x <= |a + CLOSE + b| && Concat(deltas) == (a + CLOSE + b)[x..]
    ensures ReceivedAll(Received(START, OPEN + (a + CLOSE + b)[..x]), deltas).content ==
            if !(|a| < x < |a| + |CLOSE|) && Uncut(deltas, x, |a|, |CLOSE|) then b else ""
  {
    OpeningDelta(a, b, x);
    if x <= |a| {
      InsideFrom(a, b, x, deltas);
    } else if x < |a| + |CLOSE| {
      InsideForever(a, b, x, deltas);
    } else {
      PartAfterClose(a, b, x, |a + CLOSE + b|);
      UncutAfter(deltas, x, |a|, |CLOSE|);
      PlainFrom(b, x - |a| - |CLOSE|, Received(START, OPEN + (a + CLOSE + b)[..x]), deltas);
    }
  }

  lemma PartsOfOpened(inner: string, first: string, rest: string)
    requires |OPEN| <= |first| && first + rest == OPEN + inner
    ensures
      var x := |first| - |OPEN|;
      x <= |inner| && first == OPEN + inner[..x] && rest == inner[x..]
  {
    var m := OPEN + inner;
    assert first == m[..|first|] && rest == m[|first|..];
  }

  lemma OpenedFrom(a: string, b: string, first: string, rest: seq<string>)
    requires TagFree(a) && TagFree(b) && |OPEN| <= |first| && first + Concat(rest) == OPEN + (a + CLOSE + b)
    ensures
      var p := |OPEN| + |a|;
      ReceivedAll(Received(START, first), rest).content ==
      if !(p < |first| < p + |CLOSE|) && Uncut(rest, |first|, p, |CLOSE|) then b else ""
  {
    var x := |first| - |OPEN|;
    PartsOfOpened(a + CLOSE + b, first, Concat(rest));
    AfterOpening(a, b, x, rest);
    UncutShift(rest, |first|, x, |OPEN| + |a|, |a|, |CLOSE|);
  }

  /** The first delta holds the opening tag. */
  lemma OpenedThinking(a: string, b: string, deltas: seq<string>)
    requires TagFree(a) && TagFree(b) && Concat(deltas) == OPEN + (a + CLOSE + b)
    requires deltas != [] && |OPEN| <= |deltas[0]|
    ensures ReceivedAll(START, deltas).content == if Uncut(deltas, 0, |OPEN| + |a|, |CLOSE|) then b else ""
  {
    OpenedFrom(a, b, deltas[0], deltas[1..]);
  }

  /** What follows a cut inside the opening tag is free of that tag. */
  lemma RestOfOpen(a: string, k: nat)
    requires TagFree(a) && 0 < k <= |OPEN|
    ensures TagFree(OPEN[k..] + a) && TagFree(OPEN[..k - 1])
  {
    var s := OPEN[k..] + a;
    forall tag, i: nat | IsTag(tag) ensures !Occurs(s, tag, i) {
      OccursByChars(s, tag, i);
      TagChars(tag);
      if i < |OPEN| - k {
        assert s[i + 0] == OPEN[k + i];
      } else if i + |tag| <= |s| {
        var i' := i - (|OPEN| - k);
        OccursByChars(a, tag, i');
        var part := a[i'..i' + |tag|];
        assert forall m | 0 <= m < |tag| :: part[m] == s[i + m];
      }
    }
  }

  /** Some text was shown first, which holds no tag. */
  lemma ClosedAfter(x: string, a: string, b: string, deltas: seq<string>)
    requires TagFree(x) && TagFree(a) && TagFree(b) && x != [] && Concat(deltas) == a + CLOSE + b
    ensures ReceivedAll(Received(START, x), deltas).content ==
            if Uncut(deltas, 0, |a|, |CLOSE|) then b else x + (a + CLOSE + b)
  {
    var s := Received(START, x);
    ReceiveTagFree(START, x);
    assert "" + x == x && x + a[..0] == x;
    assert (a + CLOSE + b)[0..] == a + CLOSE + b;
    if Uncut(deltas, 0, |a|, |CLOSE|) {
      ClosedFrom(x, a, b, 0, s, deltas);
    } else {
      CutFrom(x, a, b, 0, s, deltas);
    }
  }

  lemma CutOpen(a: string, b: string, k: nat)
    requires k <= |OPEN|
    ensures
      var m := OPEN + (a + CLOSE + b);
      && m[0..k] == OPEN[..k] && m[k..] == OPEN[k..] + a + CLOSE + b
      && OPEN[..k] + (OPEN[k..] + a + CLOSE + b) == m
  {
    var m := OPEN + (a + CLOSE + b);
    assert OPEN == OPEN[..k] + OPEN[k..];
    Assoc(OPEN[..k], OPEN[k..], a + CLOSE + b);
    assert OPEN[k..] + a + CLOSE + b == OPEN[k..] + (a + CLOSE + b);
    assert m[k..] == OPEN[k..] + (a + CLOSE + b);
  }

  /** The first delta ends inside the opening tag: the block is never opened. */
  lemma BrokenOpening(a: string, b: string, deltas: seq<string>)
    requires TagFree(a) && TagFree(b) && Concat(deltas) == OPEN + (a + CLOSE + b)
    requires deltas != [] && 0 < |deltas[0]| < |OPEN|
    ensures ReceivedAll(START, deltas).content ==
            if Uncut(deltas, 0, |OPEN| + |a|, |CLOSE|) then b else OPEN + (a + CLOSE + b)
  {
    var m := OPEN + (a + CLOSE + b);
    assert m[0..] == m;
    NextDelta(m, 0, deltas);
    var k := |deltas[0]|;
    CutOpen(a, b, k);
    RestOfOpen(a, k);
    RestOfOpen(a, k + 1);
    ClosedAfter(OPEN[..k], OPEN[k..] + a, b, deltas[1..]);
    UncutShift(deltas[1..], k, 0, |OPEN| + |a|, |OPEN[k..] + a|, |CLOSE|);
  }

  /** An explicit block, whatever the cutting: the answer is shown exactly as long as no delta ends
      inside the closing tag, even when one ends inside the opening tag. When one does end inside the
      closing tag, the answer is lost with the thinking, and when deltas end inside both tags the
      whole message is shown. */
  lemma {:induction false} ExplicitThinking(a: string, b: string, deltas: seq<string>)
    requires TagFree(a) && TagFree(b) && Concat(deltas) == OPEN + a + CLOSE + b
    ensures ReceivedAll(START, deltas).content ==
            if Uncut(deltas, 0, |OPEN| + |a|, |CLOSE|) then b
            else if Uncut(deltas, 0, 0, |OPEN|) then ""
            else OPEN + a + CLOSE + b
    decreases |deltas|
  {
    var m := OPEN + (a + CLOSE + b);
    assert OPEN + a + CLOSE + b == m;
    assert deltas != [];
    if |deltas[0]| == 0 {
      assert Concat(deltas[1..]) == m;
      ExplicitThinking(a, b, deltas[1..]);
    } else if |deltas[0]| < |OPEN| {
      BrokenOpening(a, b, deltas);
    } else {
      UncutAfter(deltas[1..], |deltas[0]|, 0, |OPEN|);
      OpenedThinking(a, b, deltas);
    }
  }

  // ----- stripping the whole message at once ---------------------------------------------

  /** The three forms of message, stripped in one go, leave the same answer. */
  lemma StrippedAtOnce(a: string, b: string)
    requires TagFree(a) && TagFree(b)
    ensures StripHiddenThinking(b).text == b
    ensures StripHiddenThinking(a + CLOSE + b).text == b
    ensures StripHiddenThinking(OPEN + a + CLOSE + b).text == b
  {
    PushTagFree(Filter(false, false), b);
    PushClose(Filter(false, false), a, b);
    var inner := a + CLOSE + b;
    assert OPEN + a + CLOSE + b == OPEN + inner;
    OpenIsFirst(inner);
    assert (OPEN + inner)[|OPEN|..] == inner;
    PushClose(Filter(false, true), a, b);
  }
}
