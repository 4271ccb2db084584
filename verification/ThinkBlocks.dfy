/** Thinking blocks between visible parts: what the filter shows and what it reports as reasoning when
    it gets them in one text, and what the stream reader makes of a block that follows shown text. */
module ThinkBlocks {
  import opened JsText
  import opened SseFrames
  import opened ThinkFilter
  import opened ThinkStreaming

  // ----- the first tag of a text ---------------------------------------------------------

  ghost predicate Lacks(s: string, tag: string) {
    forall k: nat :: !Occurs(s, tag, k)
  }

  /** No tag begins before the end of a part that lacks it: a tag has its only `<` in front. */
  lemma NotBeforeTag(a: string, tag: string, rest: string, other: string, k: nat)
    requires IsTag(tag) && IsTag(other) && Lacks(a, other) && k <= |a| && (k == |a| ==> other != tag)
    ensures !Occurs(a + tag + rest, other, k)
  {
    var s := a + tag + rest;
    OccursByChars(s, other, k);
    TagChars(tag);
    TagChars(other);
    if k + |other| <= |a| {
      OccursByChars(a, other, k);
      assert !Occurs(a, other, k);
      var part := a[k..k + |other|];
      assert forall m | 0 <= m < |other| :: part[m] == s[k + m];
    } else if k < |a| {
      assert s[|a|] == '<';
      assert s[k + (|a| - k)] != other[|a| - k];
    } else {
      assert s[k + 1] == tag[1] != other[1];
    }
  }

  lemma TagIsFirst(a: string, tag: string, rest: string)
    requires IsTag(tag) && Lacks(a, tag)
    ensures IndexOf(a + tag + rest, tag) == Some(|a|)
  {
    var s := a + tag + rest;
    IndexOfIsFirst(s, tag);
    assert s[|a|..|a| + |tag|] == tag;
    assert Occurs(s, tag, |a|);
    forall k: nat | k < |a| ensures !Occurs(a + tag + rest, tag, k) {
      NotBeforeTag(a, tag, rest, tag, k);
    }
  }

  /** The other tag comes later, or not at all. */
  lemma OtherTagIsLater(a: string, tag: string, rest: string, other: string)
    requires IsTag(tag) && IsTag(other) && other != tag && Lacks(a, other)
    ensures
      var at := IndexOf(a + tag + rest, other);
      at.Some? ==> |a| < at.value
  {
    IndexOfIsFirst(a + tag + rest, other);
    forall k: nat | k <= |a| ensures !Occurs(a + tag + rest, other, k) {
      NotBeforeTag(a, tag, rest, other, k);
    }
  }

  lemma TagFreeLacks(s: string)
    ensures TagFree(s) <==> Lacks(s, OPEN) && Lacks(s, CLOSE)
  {
  }

  // ----- blocks in one text --------------------------------------------------------------

  lemma PartsOf(a: string, tag: string, rest: string)
    ensures (a + tag + rest)[..|a|] == a && (a + tag + rest)[|a| + |tag|..] == rest
  {
  }

  lemma InsideUntilClose(f: Filter, h: string, rest: string)
    requires f.insideThink && Lacks(h, CLOSE)
    ensures Push(f, h + CLOSE + rest) == Before(Push(f.(insideThink := false), rest), "", [h])
  {
    TagIsFirst(h, CLOSE, rest);
    PartsOf(h, CLOSE, rest);
  }

  lemma VisibleUntilOpen(f: Filter, v: string, rest: string)
    requires !f.insideThink && TagFree(v)
    ensures Push(f, v + OPEN + rest) == Before(Push(Filter(f.visibleStarted || v != [], true), rest), v, [])
  {
    TagFreeLacks(v);
    TagIsFirst(v, OPEN, rest);
    OtherTagIsLater(v, OPEN, rest, CLOSE);
    PartsOf(v, OPEN, rest);
  }

  /** Whatever follows, the part in front of a block is shown, what the block holds is reported as
      reasoning, and the filter goes on behind it. */
  lemma BlockIsCutOut(f: Filter, v: string, h: string, rest: string)
    requires !f.insideThink && TagFree(v) && Lacks(h, CLOSE)
    ensures Push(f, v + OPEN + (h + CLOSE + rest)) ==
            Before(Push(Filter(f.visibleStarted || v != [], false), rest), v, [h])
  {
    var inside := Filter(f.visibleStarted || v != [], true);
    VisibleUntilOpen(f, v, h + CLOSE + rest);
    InsideUntilClose(inside, h, rest);
    BeforeTwice(Push(inside.(insideThink := false), rest), v, [], "", [h]);
    assert v + "" == v && [] + [h] == [h];
  }

  datatype Block = Block(hidden: string, visible: string)

  /** The blocks as a model writes them, each with the visible text behind it. */
  function Marked(blocks: seq<Block>): string {
    if blocks == [] then "" else OPEN + (blocks[0].hidden + CLOSE + (blocks[0].visible + Marked(blocks[1..])))
  }

  function Visible(blocks: seq<Block>): string {
    if blocks == [] then "" else blocks[0].visible + Visible(blocks[1..])
  }

  function Hidden(blocks: seq<Block>): seq<string> {
    seq(|blocks|, i requires 0 <= i < |blocks| => blocks[i].hidden)
  }

  ghost predicate Clean(blocks: seq<Block>) {
    forall i | 0 <= i < |blocks| :: TagFree(blocks[i].visible) && Lacks(blocks[i].hidden, CLOSE)
  }

  lemma HiddenFirst(blocks: seq<Block>)
    requires blocks != []
    ensures Hidden(blocks) == [blocks[0].hidden] + Hidden(blocks[1..])
  {
  }

  lemma {:induction false} PushMarked(f: Filter, v: string, blocks: seq<Block>)
    requires !f.insideThink && TagFree(v) && Clean(blocks)
    ensures
      var p := Push(f, v + Marked(blocks));
      p.text == v + Visible(blocks) && p.reasoning == Hidden(blocks) && !p.filter.insideThink
    decreases |blocks|
  {
    if blocks == [] {
      assert v + "" == v;
      PushTagFree(f, v);
      NoReasoning(f, v);
    } else {
      var b, rest := blocks[0], blocks[1..];
      var f' := Filter(f.visibleStarted || v != [], false);
      assert v + Marked(blocks) == v + OPEN + (b.hidden + CLOSE + (b.visible + Marked(rest)));
      BlockIsCutOut(f, v, b.hidden, b.visible + Marked(rest));
      PushMarked(f', b.visible, rest);
      HiddenFirst(blocks);
    }
  }

  lemma NoReasoning(f: Filter, v: string)
    requires !f.insideThink && TagFree(v)
    ensures Push(f, v).reasoning == []
  {
    TagFreeHasNoIndex(v);
  }

  /** Any number of blocks between visible parts, stripped in one go: all visible parts are left, in
      order, and the reasoning is what the blocks held, in order. */
  lemma BlocksAreStripped(v: string, blocks: seq<Block>)
    requires TagFree(v) && Clean(blocks)
    ensures StripHiddenThinking(v + Marked(blocks)).text == v + Visible(blocks)
    ensures StripHiddenThinking(v + Marked(blocks)).reasoning == Hidden(blocks)
  {
    PushMarked(Filter(false, false), v, blocks);
  }

  /** A closing tag without an opening one, anywhere behind shown text, is shown with all that follows;
      before anything is shown, what it closes is reasoning. */
  lemma StrayClose(f: Filter, v: string, rest: string)
    requires !f.insideThink && TagFree(v) && TagFree(rest)
    ensures f.visibleStarted ==> Push(f, v + CLOSE + rest) == Pushed(v + CLOSE + rest, [], f)
    ensures !f.visibleStarted ==>
              Push(f, v + CLOSE + rest).text == rest && Push(f, v + CLOSE + rest).reasoning == [v]
  {
    OneTagIndex(v, CLOSE, rest);
    PartsOf(v, CLOSE, rest);
    PushTagFree(f, rest);
    NoReasoning(f, rest);
  }

  /** A block that is never closed hides the rest of the text. */
  lemma UnclosedBlock(f: Filter, v: string, h: string)
    requires !f.insideThink && TagFree(v) && Lacks(h, CLOSE)
    ensures Push(f, v + OPEN + h).text == v
    ensures Push(f, v + OPEN + h).reasoning == if h == "" then [] else [h]
    ensures Push(f, v + OPEN + h).filter.insideThink
  {
    VisibleUntilOpen(f, v, h);
    IndexOfIsFirst(h, CLOSE);
    assert v + "" == v;
  }

  // ----- blocks in a stream --------------------------------------------------------------

  lemma {:induction false} PlainRest(s: Stream, deltas: seq<string>)
    requires !s.filter.insideThink && forall i | 0 <= i < |deltas| :: TagFree(deltas[i])
    ensures ReceivedAll(s, deltas).content == s.content + Concat(deltas)
    decreases |deltas|
  {
    if deltas != [] {
      ReceiveTagFree(s, deltas[0]);
      PlainRest(Received(s, deltas[0]), deltas[1..]);
      Assoc(s.content, deltas[0], Concat(deltas[1..]));
    }
  }

  lemma FirstDelta(m: string)
    ensures Received(START, m).content == Push(Filter(false, false), m).text
    ensures Received(START, m).filter == Push(Filter(false, false), m).filter
  {
    assert "" + Push(Filter(false, false), m).text == Push(Filter(false, false), m).text;
  }

  /** A stream whose first delta holds all the blocks shows what stripping leaves, and then whatever
      plain text comes. */
  lemma BlocksInFirstDelta(v: string, blocks: seq<Block>, deltas: seq<string>)
    requires TagFree(v) && Clean(blocks) && forall i | 0 <= i < |deltas| :: TagFree(deltas[i])
    ensures ReceivedAll(START, [v + Marked(blocks)] + deltas).content == v + Visible(blocks) + Concat(deltas)
  {
    var m := v + Marked(blocks);
    PushMarked(Filter(false, false), v, blocks);
    FirstDelta(m);
    assert ([m] + deltas)[1..] == deltas;
    PlainRest(Received(START, m), deltas);
  }

  // ----- a block behind shown text, however the stream is cut ----------------------------

  /** The position at which the delta begins that holds position `p`; `c` characters precede. */
  function BeginOf(deltas: seq<string>, c: nat, p: nat): (b: nat)
    ensures c <= b
    decreases |deltas|
  {
    if deltas == [] || p < c + |deltas[0]| then c else BeginOf(deltas[1..], c + |deltas[0]|, p)
  }

  lemma {:induction false} PlainOn(x: string, b: string, c: nat, s: Stream, deltas: seq<string>)
    requires TagFree(b) && c <= |b| && s.content == x + b[..c] && !s.filter.insideThink && Concat(deltas) == b[c..]
    ensures ReceivedAll(s, deltas).content == x + b
    decreases |deltas|
  {
    if deltas == [] {
      assert b[..c] == b;
    } else {
      NextDelta(b, c, deltas);
      var c' := c + |deltas[0]|;
      PartIsTagFree(b, c, c');
      ReceiveTagFree(s, deltas[0]);
      assert b[..c] + b[c..c'] == b[..c'];
      Assoc(x, b[..c], b[c..c']);
      PlainOn(x, b, c', Received(s, deltas[0]), deltas[1..]);
    }
  }

  /** Inside a block, text without tags changes nothing. */
  lemma {:induction false} HiddenOn(s: Stream, b: string, c: nat, deltas: seq<string>)
    requires s.filter.insideThink && TagFree(b) && c <= |b| && Concat(deltas) == b[c..]
    ensures ReceivedAll(s, deltas) == s
    decreases |deltas|
  {
    if deltas != [] {
      NextDelta(b, c, deltas);
      PartIsTagFree(b, c, c + |deltas[0]|);
      ReceiveTagFree(s, deltas[0]);
      HiddenOn(s, b, c + |deltas[0]|, deltas[1..]);
    }
  }

  lemma RestAfterCut(h: string, w: string, c: nat)
    requires TagFree(h) && TagFree(w) && |h| < c <= |h + CLOSE + w|
    ensures TagFree((h + CLOSE + w)[c..])
  {
    PartBesideTag(h, CLOSE, w, c, |h + CLOSE + w|);
    assert (h + CLOSE + w)[c..|h + CLOSE + w|] == (h + CLOSE + w)[c..];
  }

  /** The closing tag comes while text is shown: what was shown goes, and the block stays open. */
  lemma CloseTakesBack(v: string, a: string, b: string)
    requires v != [] && TagFree(a) && TagFree(b)
    ensures Received(Stream(v, Filter(true, true)), a + CLOSE + b) == Stream("", Filter(true, true))
  {
    OneTagIndex(a, CLOSE, b);
    PartsOf(a, CLOSE, b);
    PushTagFree(Filter(true, true), b);
  }

  /** In a block that follows shown text; `c` characters of what follows the opening tag have come. */
  lemma {:induction false} HiddenFrom(v: string, h: string, w: string, c: nat, deltas: seq<string>)
    requires v != [] && TagFree(h) && TagFree(w) && c <= |h| && Concat(deltas) == (h + CLOSE + w)[c..]
    ensures ReceivedAll(Stream(v, Filter(true, true)), deltas).content ==
            if Uncut(deltas, c, |h|, |CLOSE|) then "" else v
    decreases |deltas|
  {
    var m := h + CLOSE + w;
    var s := Stream(v, Filter(true, true));
    assert |m[c..]| > 0;
    NextDelta(m, c, deltas);
    var c' := c + |deltas[0]|;
    if c' < |h| + |CLOSE| {
      PartBesideTag(h, CLOSE, w, c, c');
      ReceiveTagFree(s, deltas[0]);
      if c' <= |h| {
        HiddenFrom(v, h, w, c', deltas[1..]);
      } else {
        RestAfterCut(h, w, c');
        HiddenOn(s, m[c'..], 0, deltas[1..]);
      }
    } else {
      HiddenAcross(v, h, w, c, c', deltas);
    }
  }

  lemma HiddenAcross(v: string, h: string, w: string, c: nat, c': nat, deltas: seq<string>)
    requires v != [] && TagFree(h) && TagFree(w) && c <= |h| && |h| + |CLOSE| <= c' <= |h + CLOSE + w|
    requires deltas != [] && deltas[0] == (h + CLOSE + w)[c..c'] && c' == c + |deltas[0]|
    requires Concat(deltas[1..]) == (h + CLOSE + w)[c'..]
    ensures ReceivedAll(Stream(v, Filter(true, true)), deltas).content == ""
    ensures Uncut(deltas, c, |h|, |CLOSE|)
  {
    var close := |h| + |CLOSE|;
    assert deltas[0] == h[c..] + CLOSE + w[..c' - close];
    PartIsTagFree(h, c, |h|);
    PartIsTagFree(w, 0, c' - close);
    assert h[c..|h|] == h[c..];
    CloseTakesBack(v, h[c..], w[..c' - close]);
    assert (h + CLOSE + w)[c'..] == w[c' - close..];
    HiddenOn(Stream("", Filter(true, true)), w, c' - close, deltas[1..]);
    UncutAfter(deltas[1..], c', |h|, |CLOSE|);
  }

  /** The delta that holds the opening tag but not the closing one. */
  lemma OpeningIsReceived(x: string, a: string, b: string)
    requires TagFree(a) && TagFree(b) && x + a != []
    ensures Received(Stream(x, Filter(x != [], false)), a + OPEN + b) == Stream(x + a, Filter(true, true))
  {
    OneTagIndex(a, OPEN, b);
    VisibleUntilOpen(Filter(x != [], false), a, b);
    PushTagFree(Filter(true, true), b);
    assert a + "" == a;
  }

  /** The delta that holds both tags: nothing was shown before, or all that was shown goes. */
  lemma BlockIsReceived(x: string, a: string, h: string, b: string)
    requires TagFree(a) && TagFree(h) && TagFree(b)
    ensures
      var s := Received(Stream(x, Filter(x != [], false)), a + OPEN + (h + CLOSE + b));
      s.content == (if x == [] then a + b else b) && !s.filter.insideThink
  {
    var delta := a + OPEN + (h + CLOSE + b);
    if x == [] {
      TagFreeLacks(h);
      BlockIsCutOut(Filter(false, false), a, h, b);
      PushTagFree(Filter(a != [], false), b);
    } else {
      OneTagIndex(a, OPEN, h);
      IndexOfIsFirst(a + OPEN + h, CLOSE);
      assert delta == (a + OPEN + h) + CLOSE + b;
      TagIsFirst(a + OPEN + h, CLOSE, b);
      PartsOf(a + OPEN + h, CLOSE, b);
      PushTagFree(Filter(true, false), b);
    }
  }

  function Whole(v: string, h: string, w: string): string {
    v + OPEN + (h + CLOSE + w)
  }

  /** What is shown in the end when `c` characters were shown so far, none of them of the block. */
  function Answer(v: string, h: string, w: string, deltas: seq<string>, c: nat): string {
    var open, close := |v|, |v| + |OPEN| + |h|;
    var begin := BeginOf(deltas, c, close);
    if !Uncut(deltas, c, close, |CLOSE|) then (if Uncut(deltas, c, open, |OPEN|) then v else Whole(v, h, w))
    else if begin == 0 then v + w
    else if Uncut(deltas, c, open, |OPEN|) && open + |OPEN| <= begin then ""
    else w
  }

  ghost predicate Parts(v: string, h: string, w: string) {
    v != [] && TagFree(v) && TagFree(h) && TagFree(w)
  }

  /** `c` characters of the text in front were shown so far. */
  function InFront(v: string, c: nat): Stream
    requires c <= |v|
  {
    Stream(v[..c], Filter(v[..c] != [], false))
  }

  // ----- the opening tag came whole, in a delta that ends before the closing tag does

  lemma SliceOpened(v: string, inner: string, c: nat, x: nat)
    requires c <= |v| && x <= |inner|
    ensures
      var m := v + OPEN + inner;
      && m[c..|v| + |OPEN| + x] == v[c..] + OPEN + inner[..x] && m[|v| + |OPEN| + x..] == inner[x..]
      && inner[0..x] == inner[..x] && v[c..|v|] == v[c..] && v[..c] + v[c..] == v
  {
  }

  lemma AnswerIfOpened(v: string, h: string, w: string, c: nat, deltas: seq<string>, x: nat)
    requires c <= |v| && deltas != [] && c + |deltas[0]| == |v| + |OPEN| + x && x < |h| + |CLOSE|
    ensures Answer(v, h, w, deltas, c) == if x <= |h| && Uncut(deltas[1..], x, |h|, |CLOSE|) then "" else v
  {
    var c' := c + |deltas[0]|;
    UncutAfter(deltas[1..], c', |v|, |OPEN|);
    UncutShift(deltas[1..], c', x, |v| + |OPEN| + |h|, |h|, |CLOSE|);
  }

  lemma OpenedIsReceived(v: string, h: string, w: string, c: nat, x: nat)
    requires Parts(v, h, w) && c <= |v| && x < |h| + |CLOSE|
    ensures
      x <= |h + CLOSE + w| &&
      Received(InFront(v, c), v[c..] + OPEN + (h + CLOSE + w)[..x]) == Stream(v, Filter(true, true))
  {
    var inner := h + CLOSE + w;
    SliceOpened(v, inner, c, x);
    PartIsTagFree(v, c, |v|);
    PartBesideTag(h, CLOSE, w, 0, x);
    OpeningIsReceived(v[..c], v[c..], inner[..x]);
  }

  lemma HiddenAfter(v: string, h: string, w: string, x: nat, deltas: seq<string>)
    requires Parts(v, h, w) && x < |h| + |CLOSE| && Concat(deltas) == (h + CLOSE + w)[x..]
    ensures ReceivedAll(Stream(v, Filter(true, true)), deltas).content ==
            if x <= |h| && Uncut(deltas, x, |h|, |CLOSE|) then "" else v
  {
    if x <= |h| {
      HiddenFrom(v, h, w, x, deltas);
    } else {
      var rest := (h + CLOSE + w)[x..];
      RestAfterCut(h, w, x);
      assert rest[0..] == rest;
      HiddenOn(Stream(v, Filter(true, true)), rest, 0, deltas);
    }
  }

  lemma OpenedDelta(v: string, h: string, w: string, c: nat, deltas: seq<string>, x: nat)
    requires c <= |v| && deltas != [] && Concat(deltas) == Whole(v, h, w)[c..]
    requires c + |deltas[0]| == |v| + |OPEN| + x
    ensures
      var inner := h + CLOSE + w;
      x <= |inner| && deltas[0] == v[c..] + OPEN + inner[..x] && Concat(deltas[1..]) == inner[x..]
  {
    NextDelta(Whole(v, h, w), c, deltas);
    assert |Whole(v, h, w)| == |v| + |OPEN| + |h + CLOSE + w|;
    SliceOpened(v, h + CLOSE + w, c, x);
  }

  lemma AfterOpenDelta(v: string, h: string, w: string, c: nat, deltas: seq<string>)
    requires Parts(v, h, w) && c <= |v| && deltas != [] && Concat(deltas) == Whole(v, h, w)[c..]
    requires |v| + |OPEN| <= c + |deltas[0]| < |v| + |OPEN| + |h| + |CLOSE|
    ensures ReceivedAll(InFront(v, c), deltas).content == Answer(v, h, w, deltas, c)
  {
    var x := c + |deltas[0]| - |v| - |OPEN|;
    OpenedDelta(v, h, w, c, deltas, x);
    AnswerIfOpened(v, h, w, c, deltas, x);
    OpenedIsReceived(v, h, w, c, x);
    HiddenAfter(v, h, w, x, deltas[1..]);
  }

  // ----- one delta holds both tags

  lemma SliceBlock(v: string, h: string, w: string, c: nat, x: nat)
    requires c <= |v| && x <= |w|
    ensures
      var m, end := Whole(v, h, w), |v| + |OPEN| + |h| + |CLOSE| + x;
      && end <= |m| && m[c..end] == v[c..] + OPEN + (h + CLOSE + w[..x]) && m[end..] == w[x..]
      && v[c..|v|] == v[c..] && (c == 0 ==> v[c..] == v)
  {
    var inner := h + CLOSE + w;
    var n := |h| + |CLOSE| + x;
    SliceOpened(v, inner, c, n);
    assert inner[..n] == h + CLOSE + w[..x] && inner[n..] == w[x..];
  }

  lemma AnswerIfBlock(v: string, h: string, w: string, c: nat, deltas: seq<string>)
    requires c <= |v| && deltas != [] && |v| + |OPEN| + |h| + |CLOSE| <= c + |deltas[0]|
    ensures Answer(v, h, w, deltas, c) == if c == 0 then v + w else w
  {
    var c' := c + |deltas[0]|;
    UncutAfter(deltas[1..], c', |v|, |OPEN|);
    UncutAfter(deltas[1..], c', |v| + |OPEN| + |h|, |CLOSE|);
  }

  lemma PlainAfter(x: string, b: string, c: nat, s: Stream, deltas: seq<string>)
    requires TagFree(b) && c <= |b| && !s.filter.insideThink && Concat(deltas) == b[c..]
    requires s.content == if x == [] then b[..c] else x + b[..c]
    ensures ReceivedAll(s, deltas).content == if x == [] then b else x + b
  {
    assert "" + b[..c] == b[..c] && "" + b == b;
    PlainOn(x, b, c, s, deltas);
  }

  lemma BlockReceived(v: string, h: string, w: string, c: nat, x: nat)
    requires Parts(v, h, w) && c <= |v| && x <= |w|
    ensures
      var s := Received(InFront(v, c), v[c..] + OPEN + (h + CLOSE + w[..x]));
      s.content == (if c == 0 then v + w[..x] else w[..x]) && !s.filter.insideThink
  {
    SliceBlock(v, h, w, c, x);
    PartIsTagFree(v, c, |v|);
    PartIsTagFree(w, 0, x);
    assert w[0..x] == w[..x];
    BlockIsReceived(v[..c], v[c..], h, w[..x]);
  }

  lemma AfterBlockDelta(v: string, h: string, w: string, c: nat, deltas: seq<string>)
    requires Parts(v, h, w) && c <= |v| && deltas != [] && Concat(deltas) == Whole(v, h, w)[c..]
    requires |v| + |OPEN| + |h| + |CLOSE| <= c + |deltas[0]|
    ensures ReceivedAll(InFront(v, c), deltas).content == Answer(v, h, w, deltas, c)
  {
    NextDelta(Whole(v, h, w), c, deltas);
    var x := c + |deltas[0]| - |v| - |OPEN| - |h| - |CLOSE|;
    SliceBlock(v, h, w, c, x);
    AnswerIfBlock(v, h, w, c, deltas);
    BlockReceived(v, h, w, c, x);
    PlainAfter(if c == 0 then v else "", w, x, Received(InFront(v, c), deltas[0]), deltas[1..]);
  }

  // ----- a delta ends inside the opening tag

  lemma CutOpening(v: string, h: string, w: string, k: nat)
    requires k <= |OPEN|
    ensures
      var m, x, a := Whole(v, h, w), v + OPEN[..k], OPEN[k..] + h;
      x + (a + CLOSE + w) == m && m[|x|..] == a + CLOSE + w && (v + OPEN + "")[0..|x|] == x
  {
    var m, x, a := Whole(v, h, w), v + OPEN[..k], OPEN[k..] + h;
    assert OPEN == OPEN[..k] + OPEN[k..];
    assert x + (a + CLOSE + w) == m;
  }

  lemma SliceCut(v: string, h: string, w: string, c: nat, k: nat)
    requires c <= |v| && k <= |OPEN|
    ensures
      var m, x := Whole(v, h, w), v + OPEN[..k];
      m[c..|x|] == x[c..|x|] && x[..c] == v[..c] && x[..c] + x[c..|x|] == x
  {
    CutOpening(v, h, w, k);
  }

  lemma AnswerIfCut(v: string, h: string, w: string, c: nat, deltas: seq<string>, k: nat)
    requires Parts(v, h, w) && c <= |v| && deltas != [] && 0 < k < |OPEN| && c + |deltas[0]| == |v| + k
    ensures Answer(v, h, w, deltas, c) ==
            if Uncut(deltas[1..], 0, |OPEN[k..] + h|, |CLOSE|) then w else Whole(v, h, w)
  {
    UncutShift(deltas[1..], |v| + k, 0, |v| + |OPEN| + |h|, |OPEN[k..] + h|, |CLOSE|);
  }

  lemma CutIsReceived(v: string, h: string, w: string, c: nat, k: nat)
    requires Parts(v, h, w) && c <= |v| && 0 < k < |OPEN|
    ensures
      var x := v + OPEN[..k];
      TagFree(x) && Received(InFront(v, c), x[c..|x|]) == Received(START, x)
  {
    var x := v + OPEN[..k];
    CutOpening(v, h, w, k);
    EmptyIsFree();
    PartBesideTag(v, OPEN, "", 0, |x|);
    PartIsTagFree(x, c, |x|);
    SliceCut(v, h, w, c, k);
    ReceiveTagFree(InFront(v, c), x[c..|x|]);
    ReceiveTagFree(START, x);
    assert "" + x == x;
  }

  lemma EmptyIsFree()
    ensures TagFree("")
  {
    forall tag, k: nat | IsTag(tag) ensures !Occurs("", tag, k) {
      TagChars(tag);
    }
  }

  lemma AfterCutOpening(v: string, h: string, w: string, c: nat, deltas: seq<string>)
    requires Parts(v, h, w) && c <= |v| && deltas != [] && Concat(deltas) == Whole(v, h, w)[c..]
    requires |v| < c + |deltas[0]| < |v| + |OPEN|
    ensures ReceivedAll(InFront(v, c), deltas).content == Answer(v, h, w, deltas, c)
  {
    NextDelta(Whole(v, h, w), c, deltas);
    var k := c + |deltas[0]| - |v|;
    SliceCut(v, h, w, c, k);
    CutIsReceived(v, h, w, c, k);
    AnswerIfCut(v, h, w, c, deltas, k);
    CutOpening(v, h, w, k);
    RestOfOpen(h, k);
    ClosedAfter(v + OPEN[..k], OPEN[k..] + h, w, deltas[1..]);
  }

  // ----- any cutting

  lemma InFrontReceived(v: string, c: nat, delta: string)
    requires TagFree(v) && c + |delta| <= |v| && delta == v[c..c + |delta|]
    ensures Received(InFront(v, c), delta) == InFront(v, c + |delta|)
  {
    assert v[..c] + delta == v[..c + |delta|];
    PartIsTagFree(v, c, c + |delta|);
    ReceiveTagFree(InFront(v, c), delta);
  }

  lemma MoreToCome(v: string, h: string, w: string, c: nat, deltas: seq<string>)
    requires c <= |v| && Concat(deltas) == Whole(v, h, w)[c..]
    ensures deltas != []
    ensures
      var c' := c + |deltas[0]|;
      c' <= |v| ==> deltas[0] == v[c..c'] && Concat(deltas[1..]) == Whole(v, h, w)[c'..]
  {
    assert |Whole(v, h, w)[c..]| > 0;
    NextDelta(Whole(v, h, w), c, deltas);
    var c' := c + |deltas[0]|;
    if c' <= |v| { assert Whole(v, h, w)[c..c'] == v[c..c']; }
  }

  lemma AnswerStill(v: string, h: string, w: string, c: nat, deltas: seq<string>)
    requires c <= |v| && deltas != [] && c + |deltas[0]| <= |v|
    ensures Answer(v, h, w, deltas, c) == Answer(v, h, w, deltas[1..], c + |deltas[0]|)
  {
  }

  lemma AnswerAtTag(v: string, h: string, w: string, c: nat, deltas: seq<string>)
    requires Parts(v, h, w) && c <= |v| && deltas != [] && Concat(deltas) == Whole(v, h, w)[c..]
    requires |v| < c + |deltas[0]|
    ensures ReceivedAll(InFront(v, c), deltas).content == Answer(v, h, w, deltas, c)
  {
    var c' := c + |deltas[0]|;
    if c' < |v| + |OPEN| {
      AfterCutOpening(v, h, w, c, deltas);
    } else if c' < |v| + |OPEN| + |h| + |CLOSE| {
      AfterOpenDelta(v, h, w, c, deltas);
    } else {
      AfterBlockDelta(v, h, w, c, deltas);
    }
  }

  lemma ReceivedNext(v: string, c: nat, deltas: seq<string>)
    requires TagFree(v) && deltas != [] && c + |deltas[0]| <= |v| && deltas[0] == v[c..c + |deltas[0]|]
    ensures ReceivedAll(InFront(v, c), deltas) == ReceivedAll(InFront(v, c + |deltas[0]|), deltas[1..])
  {
    InFrontReceived(v, c, deltas[0]);
  }

  lemma {:induction false} AnswerFrom(v: string, h: string, w: string, c: nat, deltas: seq<string>)
    requires Parts(v, h, w) && c <= |v| && Concat(deltas) == Whole(v, h, w)[c..]
    ensures ReceivedAll(InFront(v, c), deltas).content == Answer(v, h, w, deltas, c)
    decreases |deltas|
  {
    MoreToCome(v, h, w, c, deltas);
    if c + |deltas[0]| <= |v| {
      AnswerFrom(v, h, w, c + |deltas[0]|, deltas[1..]);
      ReceivedNext(v, c, deltas);
      AnswerStill(v, h, w, c, deltas);
    } else {
      AnswerAtTag(v, h, w, c, deltas);
    }
  }

  /** A block behind shown text, whatever the cutting. The answer is what stripping the whole message
      leaves when the delta that closes the block is the first with any text in it. Otherwise what was
      shown in front of the block is lost: taken back when the closing tag comes, and with it all that
      follows the block if the block was opened in an earlier delta. When a delta ends inside the
      closing tag, the text in front is all that is left, or, when one ends inside the opening tag too,
      the whole message is shown. */
  lemma ThinkingAfterText(v: string, h: string, w: string, deltas: seq<string>)
    requires v != [] && TagFree(v) && TagFree(h) && TagFree(w) && Concat(deltas) == v + OPEN + h + CLOSE + w
    ensures
      var open, close := |v|, |v| + |OPEN| + |h|;
      var begin := BeginOf(deltas, 0, close);
      ReceivedAll(START, deltas).content ==
      if !Uncut(deltas, 0, close, |CLOSE|) then
        if Uncut(deltas, 0, open, |OPEN|) then v else v + OPEN + h + CLOSE + w
      else if begin == 0 then StripHiddenThinking(v + OPEN + h + CLOSE + w).text
      else if Uncut(deltas, 0, open, |OPEN|) && open + |OPEN| <= begin then ""
      else w
    ensures StripHiddenThinking(v + OPEN + h + CLOSE + w).text == v + w
  {
    assert Whole(v, h, w) == v + OPEN + h + CLOSE + w;
    assert Whole(v, h, w)[0..] == Whole(v, h, w);
    AnswerFrom(v, h, w, 0, deltas);
    TagFreeLacks(h);
    BlockIsCutOut(Filter(false, false), v, h, w);
    PushTagFree(Filter(true, false), w);
  }
}
