/** Collecting the tool calls of a stream: each is announced to the caller and kept, with repeats
    told apart by their id. */
module ToolCalls {
  import opened JsText

  /** A tool call; an id that is missing or blank counts as none. */
  datatype Call = Call(id: Option<string>, body: string)

  function IdsOf(calls: seq<Call>): set<string> {
    set i | 0 <= i < |calls| && calls[i].id.Some? :: calls[i].id.value
  }

  /** Some kept call has the id of this one. */
  predicate Known(kept: seq<Call>, call: Call) {
    call.id.Some? && call.id.value in IdsOf(kept)
  }

  /** The calls of one event that are announced: the test looks at what was kept before the event. */
  function Announced(kept: seq<Call>, event: seq<Call>): seq<Call> {
    if event == [] then []
    else (if Known(kept, event[0]) then [] else [event[0]]) + Announced(kept, event[1..])
  }

  /** What is kept after an event: the test looks at the calls of the event kept so far, too. */
  function KeptAfter(kept: seq<Call>, event: seq<Call>): seq<Call>
    decreases |event|
  {
    if event == [] then kept
    else KeptAfter(if Known(kept, event[0]) then kept else kept + [event[0]], event[1..])
  }

  function AllKept(kept: seq<Call>, events: seq<seq<Call>>): seq<Call>
    decreases |events|
  {
    if events == [] then kept else AllKept(KeptAfter(kept, events[0]), events[1..])
  }

  function AllAnnounced(kept: seq<Call>, events: seq<seq<Call>>): seq<Call>
    decreases |events|
  {
    if events == [] then []
    else Announced(kept, events[0]) + AllAnnounced(KeptAfter(kept, events[0]), events[1..])
  }

  /** One event: its calls are announced in a first loop and kept in a second. */
  method ReadEvent(before: seq<Call>, event: seq<Call>) returns (announced: seq<Call>, toolCalls: seq<Call>)
    ensures announced == Announced(before, event)
    ensures toolCalls == KeptAfter(before, event)
  {
    announced := AnnounceCalls(before, event);
    toolCalls := KeepCalls(before, event);
  }

  method AnnounceCalls(toolCalls: seq<Call>, event: seq<Call>) returns (announced: seq<Call>)
    ensures announced == Announced(toolCalls, event)
  {
    announced := [];
    assert event[0..] == event;
    for i := 0 to |event|
      invariant announced + Announced(toolCalls, event[i..]) == Announced(toolCalls, event)
    {
      assert event[i..][1..] == event[i + 1..];
      Assoc(announced, if Known(toolCalls, event[i]) then [] else [event[i]], Announced(toolCalls, event[i + 1..]));
      if !Known(toolCalls, event[i]) {
        announced := announced + [event[i]];
      }
    }
    assert announced + [] == announced;
  }

  method KeepCalls(before: seq<Call>, event: seq<Call>) returns (toolCalls: seq<Call>)
    ensures toolCalls == KeptAfter(before, event)
  {
    toolCalls := before;
    assert event[0..] == event;
    for i := 0 to |event|
      invariant KeptAfter(toolCalls, event[i..]) == KeptAfter(before, event)
    {
      assert event[i..][1..] == event[i + 1..];
      if !Known(toolCalls, event[i]) {
        toolCalls := toolCalls + [event[i]];
      }
    }
  }

  method ReadToolCalls(events: seq<seq<Call>>) returns (toolCalls: seq<Call>, announced: seq<Call>)
    ensures toolCalls == AllKept([], events)
    ensures announced == AllAnnounced([], events)
  {
    toolCalls, announced := [], [];
    assert events[0..] == events;
    for e := 0 to |events|
      invariant AllKept(toolCalls, events[e..]) == AllKept([], events)
      invariant announced + AllAnnounced(toolCalls, events[e..]) == AllAnnounced([], events)
    {
      assert events[e..][1..] == events[e + 1..];
      var heard, kept := ReadEvent(toolCalls, events[e]);
      Assoc(announced, heard, AllAnnounced(kept, events[e + 1..]));
      announced := announced + heard;
      toolCalls := kept;
    }
    assert announced + [] == announced;
  }

  // ----- what is kept --------------------------------------------------------------------

  ghost predicate DistinctIds(calls: seq<Call>) {
    forall i, j | 0 <= i < j < |calls| && calls[i].id.Some? :: calls[i].id != calls[j].id
  }

  lemma IdsOfAppend(calls: seq<Call>, call: Call)
    ensures IdsOf(calls + [call]) == IdsOf(calls) + if call.id.Some? then {call.id.value} else {}
  {
    var more := calls + [call];
    forall id ensures id in IdsOf(more) <==> id in IdsOf(calls) || call.id == Some(id) {
      if id in IdsOf(calls) {
        var i :| 0 <= i < |calls| && calls[i].id.Some? && calls[i].id.value == id;
        assert more[i].id.Some? && more[i].id.value == id;
      }
      assert more[|calls|] == call;
    }
  }

  lemma AppendKeepsDistinct(kept: seq<Call>, call: Call)
    requires DistinctIds(kept) && !Known(kept, call)
    ensures DistinctIds(kept + [call])
  {
    forall i | 0 <= i < |kept| && kept[i].id.Some? ensures kept[i].id != call.id {
      assert kept[i].id.value in IdsOf(kept);
    }
  }

  lemma {:induction false} EventIsKept(kept: seq<Call>, event: seq<Call>)
    requires DistinctIds(kept)
    ensures DistinctIds(KeptAfter(kept, event)) && kept <= KeptAfter(kept, event)
    ensures IdsOf(KeptAfter(kept, event)) == IdsOf(kept) + IdsOf(event)
    decreases |event|
  {
    if event != [] {
      var call, rest := event[0], event[1..];
      IdsOfFirst(event);
      if Known(kept, call) {
        EventIsKept(kept, rest);
      } else {
        AppendKeepsDistinct(kept, call);
        IdsOfAppend(kept, call);
        EventIsKept(kept + [call], rest);
      }
    }
  }

  lemma IdsOfFirst(calls: seq<Call>)
    requires calls != []
    ensures IdsOf(calls) == (if calls[0].id.Some? then {calls[0].id.value} else {}) + IdsOf(calls[1..])
  {
    var rest := calls[1..];
    forall id ensures id in IdsOf(calls) <==> calls[0].id == Some(id) || id in IdsOf(rest) {
      if id in IdsOf(calls) && calls[0].id != Some(id) {
        var i :| 0 <= i < |calls| && calls[i].id.Some? && calls[i].id.value == id;
        assert rest[i - 1] == calls[i];
      }
      if id in IdsOf(rest) {
        var i :| 0 <= i < |rest| && rest[i].id.Some? && rest[i].id.value == id;
        assert calls[i + 1] == rest[i];
      }
    }
  }

  function AllIds(events: seq<seq<Call>>): set<string> {
    if events == [] then {} else IdsOf(events[0]) + AllIds(events[1..])
  }

  /** Every id of the stream is kept, and kept once. */
  lemma {:induction false} EveryIdIsKeptOnce(kept: seq<Call>, events: seq<seq<Call>>)
    requires DistinctIds(kept)
    ensures DistinctIds(AllKept(kept, events))
    ensures IdsOf(AllKept(kept, events)) == IdsOf(kept) + AllIds(events)
    decreases |events|
  {
    if events != [] {
      EventIsKept(kept, events[0]);
      EveryIdIsKeptOnce(KeptAfter(kept, events[0]), events[1..]);
    }
  }

  lemma {:induction false} KeptConcat(kept: seq<Call>, a: seq<Call>, b: seq<Call>)
    ensures KeptAfter(kept, a + b) == KeptAfter(KeptAfter(kept, a), b)
    decreases |a|
  {
    if a == [] {
      assert a + b == b;
    } else {
      assert (a + b)[1..] == a[1..] + b;
      KeptConcat(if Known(kept, a[0]) then kept else kept + [a[0]], a[1..], b);
    }
  }

  function Flat(events: seq<seq<Call>>): seq<Call> {
    if events == [] then [] else events[0] + Flat(events[1..])
  }

  /** What is kept does not depend on how the calls came in events. */
  lemma {:induction false} EventsAreKeptAsOne(kept: seq<Call>, events: seq<seq<Call>>)
    ensures AllKept(kept, events) == KeptAfter(kept, Flat(events))
    decreases |events|
  {
    if events != [] {
      EventsAreKeptAsOne(KeptAfter(kept, events[0]), events[1..]);
      KeptConcat(kept, events[0], Flat(events[1..]));
    }
  }

  /** The next call is kept exactly when it has no id, or one that no call before it had; so of the calls
      with an id the first is kept, and calls without one are all kept, in the order they came. */
  lemma NextIsKept(calls: seq<Call>, call: Call)
    ensures KeptAfter([], calls + [call]) ==
            KeptAfter([], calls) +
            if call.id.None? || forall i | 0 <= i < |calls| :: calls[i].id != call.id then [call] else []
  {
    KeptConcat([], calls, [call]);
    EventIsKept([], calls);
    var kept := KeptAfter([], calls);
    assert IdsOf([]) == {} && IdsOf(kept) == IdsOf(calls);
    assert [call][1..] == [];
    assert kept + [] == kept;
  }

  /** Within an event, a call is announced unless a call kept before the event has its id. */
  lemma {:induction false} NextIsAnnounced(kept: seq<Call>, event: seq<Call>, call: Call)
    ensures Announced(kept, event + [call]) ==
            Announced(kept, event) +
            if call.id.None? || forall i | 0 <= i < |kept| :: kept[i].id != call.id then [call] else []
    decreases |event|
  {
    if event == [] {
      assert event + [call] == [call] && [call][1..] == [];
    } else {
      assert (event + [call])[1..] == event[1..] + [call];
      NextIsAnnounced(kept, event[1..], call);
      Assoc(if Known(kept, event[0]) then [] else [event[0]], Announced(kept, event[1..]),
            if call.id.None? || forall i | 0 <= i < |kept| :: kept[i].id != call.id then [call] else []);
    }
  }

  // ----- what is announced ---------------------------------------------------------------

  /** Keeping, told as what an event adds: `new_` are the ids the event has added so far. */
  function Added(kept: seq<Call>, new_: set<string>, event: seq<Call>): seq<Call>
    decreases |event|
  {
    if event == [] then []
    else if Known(kept, event[0]) || (event[0].id.Some? && event[0].id.value in new_) then Added(kept, new_, event[1..])
    else [event[0]] + Added(kept, if event[0].id.Some? then new_ + {event[0].id.value} else new_, event[1..])
  }

  lemma {:induction false} KeptIsAdded(kept: seq<Call>, more: seq<Call>, event: seq<Call>)
    ensures KeptAfter(kept + more, event) == kept + more + Added(kept, IdsOf(more), event)
    decreases |event|
  {
    if event == [] {
      assert kept + more + [] == kept + more;
    } else {
      var call := event[0];
      IdsOfConcat(kept, more);
      if Known(kept + more, call) {
        KeptIsAdded(kept, more, event[1..]);
      } else {
        IdsOfAppend(more, call);
        assert kept + more + [call] == kept + (more + [call]);
        KeptIsAdded(kept, more + [call], event[1..]);
        var new_ := if call.id.Some? then IdsOf(more) + {call.id.value} else IdsOf(more);
        assert IdsOf(more + [call]) == new_;
        assert kept + (more + [call]) + Added(kept, new_, event[1..]) ==
               kept + more + ([call] + Added(kept, new_, event[1..]));
      }
    }
  }

  lemma IdsOfConcat(a: seq<Call>, b: seq<Call>)
    ensures IdsOf(a + b) == IdsOf(a) + IdsOf(b)
    decreases |b|
  {
    if b == [] {
      assert a + b == a;
    } else {
      var init, last := b[..|b| - 1], b[|b| - 1];
      assert b == init + [last] && a + b == (a + init) + [last];
      IdsOfConcat(a, init);
      IdsOfAppend(a + init, last);
      IdsOfAppend(init, last);
    }
  }

  /** Some call of the event has an id the event added before. */
  predicate Clashes(kept: seq<Call>, new_: set<string>, event: seq<Call>)
    decreases |event|
  {
    event != [] &&
    ((!Known(kept, event[0]) && event[0].id.Some? && event[0].id.value in new_) ||
     Clashes(kept, if event[0].id.Some? then new_ + {event[0].id.value} else new_, event[1..]))
  }

  lemma {:induction false} AddedLength(kept: seq<Call>, new_: set<string>, event: seq<Call>)
    ensures |Added(kept, new_, event)| <= |Announced(kept, event)|
    ensures Added(kept, new_, event) == Announced(kept, event) <==> !Clashes(kept, new_, event)
    ensures |Added(kept, new_, event)| == |Announced(kept, event)| <==> !Clashes(kept, new_, event)
    decreases |event|
  {
    if event != [] {
      var call, rest := event[0], event[1..];
      var new' := if call.id.Some? then new_ + {call.id.value} else new_;
      if Known(kept, call) {
        ClashesWithKnown(kept, new_, call.id.value, rest);
        AddedLength(kept, new_, rest);
        assert [] + Announced(kept, rest) == Announced(kept, rest);
      } else if call.id.Some? && call.id.value in new_ {
        AddedLength(kept, new_, rest);
        assert |Announced(kept, event)| == 1 + |Announced(kept, rest)|;
      } else {
        AddedLength(kept, new', rest);
        assert Added(kept, new_, event)[1..] == Added(kept, new', rest);
        assert Announced(kept, event)[1..] == Announced(kept, rest);
      }
    }
  }

  lemma {:induction false} ClashesWithKnown(kept: seq<Call>, new_: set<string>, id: string, event: seq<Call>)
    requires id in IdsOf(kept)
    ensures Clashes(kept, new_ + {id}, event) == Clashes(kept, new_, event)
    decreases |event|
  {
    if event != [] {
      var call := event[0];
      var new' := if call.id.Some? then new_ + {call.id.value} else new_;
      ClashesWithKnown(kept, new', id, event[1..]);
      assert (if call.id.Some? then new_ + {id} + {call.id.value} else new_ + {id}) == new' + {id};
    }
  }

  /** Some event repeats an id that no event before it had. */
  predicate SomeRepeat(kept: seq<Call>, events: seq<seq<Call>>)
    decreases |events|
  {
    events != [] && (Clashes(kept, {}, events[0]) || SomeRepeat(KeptAfter(kept, events[0]), events[1..]))
  }

  /** What is announced is what is kept exactly when no event repeats an id that is new with it; such
      a call is announced again and kept once. */
  lemma {:induction false} AnnouncedIsKept(kept: seq<Call>, events: seq<seq<Call>>)
    ensures |AllKept(kept, events)| <= |kept| + |AllAnnounced(kept, events)|
    ensures AllKept(kept, events) == kept + AllAnnounced(kept, events) <==> !SomeRepeat(kept, events)
    ensures |AllKept(kept, events)| == |kept| + |AllAnnounced(kept, events)| <==> !SomeRepeat(kept, events)
    decreases |events|
  {
    if events == [] {
      assert kept + [] == kept;
    } else {
      var event, rest := events[0], events[1..];
      var kept' := KeptAfter(kept, event);
      assert kept + [] == kept && IdsOf([]) == {};
      KeptIsAdded(kept, [], event);
      AddedLength(kept, {}, event);
      AnnouncedIsKept(kept', rest);
      assert kept + (Announced(kept, event) + AllAnnounced(kept', rest)) ==
             kept + Announced(kept, event) + AllAnnounced(kept', rest);
    }
  }
}
