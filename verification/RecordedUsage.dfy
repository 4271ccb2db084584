/** Recording the usage of each finished turn, against rebuilding the totals from all rows. */
module RecordedUsage {
  import opened JsText
  import opened TurnHistory
  import opened UsageTotals

  /** The rows of the session whose ids lie between the input's and the answer's. */
  function Between(rows: seq<DataRow>, start: int, end: int): seq<DataRow> {
    if rows == [] then []
    else (if start <= rows[0].dataid <= end then [rows[0]] else []) + Between(rows[1..], start, end)
  }

  class TurnContextUsage {
    var stats: Option<Stats>

    constructor ()
      ensures stats == None
    {
      stats := None;
    }

    method Rebuild(rows: seq<DataRow>, weigh: DataRow -> nat)
      modifies this
      ensures stats == Some(StatsOf(Users(rows), Tokens(rows, None, weigh)))
    {
      var calculated := CalculateTurnContextUsageStats(rows, weigh);
      stats := Some(calculated);
    }

    method Record(rows: seq<DataRow>, input: DataRow, assistant: DataRow, weigh: DataRow -> nat)
      modifies this
      ensures stats == Some(Recorded(old(stats), Sum(Between(rows, input.dataid, assistant.dataid), weigh)))
    {
      var tokens := Sum(Between(rows, input.dataid, assistant.dataid), weigh);
      if stats.Some? {
        var s := stats.value;
        stats := Some(Stats(s.turncount + 1, s.tokens + tokens, CeilDiv(s.tokens + tokens, s.turncount + 1)));
      }
      if stats.None? {
        stats := Some(Stats(1, tokens, tokens));
      }
    }
  }

  function Recorded(stats: Option<Stats>, tokens: nat): Stats {
    match stats
    case None => Stats(1, tokens, tokens)
    case Some(s) => Stats(s.turncount + 1, s.tokens + tokens, CeilDiv(s.tokens + tokens, s.turncount + 1))
  }

  // ----- what one record counts ----------------------------------------------------------

  lemma {:induction false} BetweenConcat(a: seq<DataRow>, b: seq<DataRow>, start: int, end: int)
    ensures Between(a + b, start, end) == Between(a, start, end) + Between(b, start, end)
  {
    if a == [] {
      assert a + b == b;
    } else {
      assert (a + b)[1..] == a[1..] + b;
      BetweenConcat(a[1..], b, start, end);
      Assoc(if start <= a[0].dataid <= end then [a[0]] else [], Between(a[1..], start, end), Between(b, start, end));
    }
  }

  lemma {:induction false} BetweenAll(rows: seq<DataRow>, start: int, end: int)
    requires forall i | 0 <= i < |rows| :: start <= rows[i].dataid <= end
    ensures Between(rows, start, end) == rows
  {
    if rows != [] { BetweenAll(rows[1..], start, end); }
  }

  lemma {:induction false} BetweenNone(rows: seq<DataRow>, start: int, end: int)
    requires forall i | 0 <= i < |rows| :: rows[i].dataid < start || end < rows[i].dataid
    ensures Between(rows, start, end) == []
  {
    if rows != [] { BetweenNone(rows[1..], start, end); }
  }

  lemma IdsAround(before: seq<DataRow>, counted: seq<DataRow>, since: seq<DataRow>)
    requires counted != [] && Ordered(before + counted + since)
    ensures
      var start, end := counted[0].dataid, counted[|counted| - 1].dataid;
      && (forall i | 0 <= i < |before| :: before[i].dataid < start)
      && (forall i | 0 <= i < |counted| :: start <= counted[i].dataid <= end)
      && (forall i | 0 <= i < |since| :: end < since[i].dataid)
      && start <= end
  {
    var rows := before + counted + since;
    var first, last := |before|, |before| + |counted| - 1;
    assert rows[first] == counted[0] && rows[last] == counted[|counted| - 1];
    forall i | 0 <= i < |before| ensures before[i].dataid < counted[0].dataid {
      assert before[i] == rows[i];
    }
    forall i | 0 <= i < |counted| ensures counted[0].dataid <= counted[i].dataid <= counted[|counted| - 1].dataid {
      assert counted[i] == rows[first + i];
    }
    forall i | 0 <= i < |since| ensures counted[|counted| - 1].dataid < since[i].dataid {
      assert since[i] == rows[last + 1 + i];
    }
  }

  /** A record counts the rows of its turn through the answer, whatever was stored before the turn and
      whatever was stored since. */
  lemma RecordCountsTurn(before: seq<DataRow>, counted: seq<DataRow>, since: seq<DataRow>)
    requires counted != [] && Ordered(before + counted + since)
    ensures Between(before + counted + since, counted[0].dataid, counted[|counted| - 1].dataid) == counted
  {
    IdsAround(before, counted, since);
    BetweenMiddle(before, counted, since, counted[0].dataid, counted[|counted| - 1].dataid);
  }

  lemma BetweenMiddle(before: seq<DataRow>, counted: seq<DataRow>, since: seq<DataRow>, start: int, end: int)
    requires forall i | 0 <= i < |before| :: before[i].dataid < start
    requires forall i | 0 <= i < |counted| :: start <= counted[i].dataid <= end
    requires forall i | 0 <= i < |since| :: end < since[i].dataid
    ensures Between(before + counted + since, start, end) == counted
  {
    BetweenNone(before, start, end);
    BetweenAll(counted, start, end);
    BetweenNone(since, start, end);
    BetweenConcat(before, counted, start, end);
    BetweenConcat(before + counted, since, start, end);
    assert [] + counted == counted && counted + [] == counted;
  }

  // ----- all records ---------------------------------------------------------------------

  /** A finished turn: its rows, and how many of them its record counted. */
  datatype Finished = Finished(turn: seq<DataRow>, counted: nat)

  ghost predicate Valid(finished: seq<Finished>) {
    forall i | 0 <= i < |finished| :: finished[i].counted <= |finished[i].turn|
  }

  function Counted(f: Finished, weigh: DataRow -> nat): nat
    requires f.counted <= |f.turn|
  {
    Sum(f.turn[..f.counted], weigh)
  }

  /** The stored totals after the records, made one after the other. */
  function RecordAll(stats: Option<Stats>, finished: seq<Finished>, weigh: DataRow -> nat): Option<Stats>
    requires Valid(finished)
    decreases |finished|
  {
    if finished == [] then stats
    else RecordAll(Some(Recorded(stats, Counted(finished[0], weigh))), finished[1..], weigh)
  }

  function CountedTokens(finished: seq<Finished>, weigh: DataRow -> nat): nat
    requires Valid(finished)
  {
    if finished == [] then 0 else Counted(finished[0], weigh) + CountedTokens(finished[1..], weigh)
  }

  /** The tokens of the rows stored after their turn's answer. */
  function Trailing(finished: seq<Finished>, weigh: DataRow -> nat): nat
    requires Valid(finished)
  {
    if finished == [] then 0
    else Sum(finished[0].turn[finished[0].counted..], weigh) + Trailing(finished[1..], weigh)
  }

  /** Records keep the totals and the average they would have if computed at once. */
  lemma {:induction false} RecordsAddUp(turncount: nat, tokens: nat, finished: seq<Finished>, weigh: DataRow -> nat)
    requires Valid(finished)
    ensures RecordAll(Some(StatsOf(turncount, tokens)), finished, weigh) ==
            Some(StatsOf(turncount + |finished|, tokens + CountedTokens(finished, weigh)))
    decreases |finished|
  {
    if finished != [] {
      RecordsAddUp(turncount + 1, tokens + Counted(finished[0], weigh), finished[1..], weigh);
    }
  }

  function TurnsOf(finished: seq<Finished>): seq<seq<DataRow>> {
    seq(|finished|, i requires 0 <= i < |finished| => finished[i].turn)
  }

  function SumTurns(turns: seq<seq<DataRow>>, weigh: DataRow -> nat): nat {
    if turns == [] then 0 else Sum(turns[0], weigh) + SumTurns(turns[1..], weigh)
  }

  lemma {:induction false} CountedAndTrailing(finished: seq<Finished>, weigh: DataRow -> nat)
    requires Valid(finished)
    ensures CountedTokens(finished, weigh) + Trailing(finished, weigh) == SumTurns(TurnsOf(finished), weigh)
  {
    if finished != [] {
      var f := finished[0];
      assert f.turn == f.turn[..f.counted] + f.turn[f.counted..];
      SumConcat(f.turn[..f.counted], f.turn[f.counted..], weigh);
      assert TurnsOf(finished)[1..] == TurnsOf(finished[1..]);
      CountedAndTrailing(finished[1..], weigh);
    }
  }

  lemma {:induction false} SumTurnsConcat(a: seq<seq<DataRow>>, b: seq<seq<DataRow>>, weigh: DataRow -> nat)
    ensures SumTurns(a + b, weigh) == SumTurns(a, weigh) + SumTurns(b, weigh)
  {
    if a == [] {
      assert a + b == b;
    } else {
      assert (a + b)[1..] == a[1..] + b;
      SumTurnsConcat(a[1..], b, weigh);
    }
  }

  lemma WithoutOne<T>(s: seq<T>, i: nat)
    requires i < |s|
    ensures multiset(s[..i] + s[i + 1..]) == multiset(s) - multiset{s[i]}
  {
    assert s == s[..i] + [s[i]] + s[i + 1..];
  }

  lemma SumWithoutOne(turns: seq<seq<DataRow>>, i: nat, weigh: DataRow -> nat)
    requires i < |turns|
    ensures SumTurns(turns, weigh) == Sum(turns[i], weigh) + SumTurns(turns[..i] + turns[i + 1..], weigh)
  {
    SumTurnsConcat(turns[..i], turns[i + 1..], weigh);
    SumTurnsConcat(turns[..i], turns[i..], weigh);
    assert turns == turns[..i] + turns[i..];
  }

  lemma SameSize<T>(a: seq<T>, b: seq<T>)
    requires multiset(a) == multiset(b)
    ensures |a| == |b|
    ensures a != [] ==> a[0] in b
  {
    assert |multiset(a)| == |multiset(b)|;
    if a != [] { assert a[0] in multiset(b); }
  }

  lemma Position<T>(x: T, s: seq<T>) returns (i: nat)
    requires x in s
    ensures i < |s| && s[i] == x
  {
    i :| 0 <= i < |s| && s[i] == x;
  }

  /** The order in which turns finish does not matter. */
  lemma {:induction false} SumTurnsInAnyOrder(a: seq<seq<DataRow>>, b: seq<seq<DataRow>>, weigh: DataRow -> nat)
    requires multiset(a) == multiset(b)
    ensures SumTurns(a, weigh) == SumTurns(b, weigh) && |a| == |b|
    decreases |a|
  {
    SameSize(a, b);
    if a != [] {
      var i := Position(a[0], b);
      WithoutOne(a, 0);
      WithoutOne(b, i);
      assert a[..0] + a[1..] == a[1..];
      SumTurnsInAnyOrder(a[1..], b[..i] + b[i + 1..], weigh);
      SumWithoutOne(b, i, weigh);
    }
  }

  // ----- against the rebuild -------------------------------------------------------------

  /** The turns of every session. */
  function AllTurns(table: seq<DataRow>, sessions: seq<string>): seq<seq<DataRow>> {
    if sessions == [] then [] else Turns(Of(table, sessions[0])) + AllTurns(table, sessions[1..])
  }

  lemma {:induction false} TokensOfOneSession(rows: seq<DataRow>, sessionid: string, on: bool, weigh: DataRow -> nat)
    requires Only(rows, sessionid)
    ensures Tokens(rows, Open(sessionid, on), weigh) ==
            (if on then Sum(Lead(rows), weigh) else 0) + SumTurns(Turns(rows), weigh)
  {
    if rows != [] {
      assert rows[0].sessionid == sessionid;
      var rest := rows[1..];
      if IsUser(rows[0]) {
        TokensOfOneSession(rest, sessionid, true, weigh);
        var turn := [rows[0]] + Lead(rest);
        assert Turns(rows) == [turn] + Turns(rest);
        assert turn[1..] == Lead(rest);
      } else {
        TokensOfOneSession(rest, sessionid, on, weigh);
        assert Turns(rows) == Turns(rest);
        assert Lead(rows)[1..] == Lead(rest);
      }
    }
  }

  lemma {:induction false} UsersAreTurns(rows: seq<DataRow>)
    ensures Users(rows) == |Turns(rows)|
  {
    if rows != [] { UsersAreTurns(rows[1..]); }
  }

  lemma {:induction false} RebuildSumsTurns(table: seq<DataRow>, sessions: seq<string>, weigh: DataRow -> nat)
    requires Distinct(sessions)
    ensures SessionTokens(table, sessions, {}, weigh) == SumTurns(AllTurns(table, sessions), weigh)
    ensures Users(BySession(table, sessions)) == |AllTurns(table, sessions)|
  {
    if sessions != [] {
      var rows := Of(table, sessions[0]);
      RebuildSumsTurns(table, sessions[1..], weigh);
      OfIsOnly(table, sessions[0]);
      TokensOfOneSession(rows, sessions[0], false, weigh);
      SumTurnsConcat(Turns(rows), AllTurns(table, sessions[1..]), weigh);
      UsersConcat(rows, BySession(table, sessions[1..]));
      UsersAreTurns(rows);
    }
  }

  /** The totals a rebuild stores for the table. */
  function Rebuilt(table: seq<DataRow>, sessions: seq<string>, weigh: DataRow -> nat): Stats {
    var rows := BySession(table, sessions);
    StatsOf(Users(rows), Tokens(rows, None, weigh))
  }

  lemma RebuiltTotals(table: seq<DataRow>, sessions: seq<string>, weigh: DataRow -> nat)
    requires Distinct(sessions)
    ensures
      var turns := AllTurns(table, sessions);
      Rebuilt(table, sessions, weigh) == StatsOf(|turns|, SumTurns(turns, weigh))
  {
    QueryOrderTokens(table, sessions, weigh);
    RebuildSumsTurns(table, sessions, weigh);
  }

  lemma RecordedTotals(finished: seq<Finished>, turns: seq<seq<DataRow>>, weigh: DataRow -> nat)
    requires Valid(finished) && multiset(TurnsOf(finished)) == multiset(turns)
    ensures RecordAll(Some(StatsOf(0, 0)), finished, weigh) ==
            Some(StatsOf(|turns|, CountedTokens(finished, weigh)))
    ensures CountedTokens(finished, weigh) + Trailing(finished, weigh) == SumTurns(turns, weigh)
  {
    RecordedCounts(finished, weigh);
    SumTurnsInAnyOrder(TurnsOf(finished), turns, weigh);
  }

  lemma RecordedCounts(finished: seq<Finished>, weigh: DataRow -> nat)
    requires Valid(finished)
    ensures RecordAll(Some(StatsOf(0, 0)), finished, weigh) ==
            Some(StatsOf(|TurnsOf(finished)|, CountedTokens(finished, weigh)))
    ensures CountedTokens(finished, weigh) + Trailing(finished, weigh) == SumTurns(TurnsOf(finished), weigh)
  {
    RecordsAddUp(0, 0, finished, weigh);
    CountedAndTrailing(finished, weigh);
  }

  /** When every turn has been recorded once, in whatever order, the recorded totals differ from the
      rebuilt ones by exactly the rows stored after their turn's answer; without such rows they are
      the same triple, average included. */
  lemma RecordedAgainstRebuilt(table: seq<DataRow>, sessions: seq<string>, finished: seq<Finished>,
                               weigh: DataRow -> nat)
    requires Distinct(sessions) && Valid(finished)
    requires multiset(TurnsOf(finished)) == multiset(AllTurns(table, sessions))
    ensures
      var recorded := RecordAll(Some(StatsOf(0, 0)), finished, weigh);
      var rebuilt := Rebuilt(table, sessions, weigh);
      && recorded.Some?
      && recorded.value.turncount == rebuilt.turncount
      && recorded.value.tokens + Trailing(finished, weigh) == rebuilt.tokens
      && (recorded.value == rebuilt <==> Trailing(finished, weigh) == 0)
  {
    RecordedTotals(finished, AllTurns(table, sessions), weigh);
    RebuiltTotals(table, sessions, weigh);
  }

  // ----- the records as they are made ----------------------------------------------------

  /** A record is made when the session has these rows. */
  datatype Recording = Recording(rows: seq<DataRow>, input: DataRow, answer: DataRow)

  function RecordEach(stats: Option<Stats>, recordings: seq<Recording>, weigh: DataRow -> nat): Option<Stats>
    decreases |recordings|
  {
    if recordings == [] then stats
    else
      var r := recordings[0];
      var tokens := Sum(Between(r.rows, r.input.dataid, r.answer.dataid), weigh);
      RecordEach(Some(Recorded(stats, tokens)), recordings[1..], weigh)
  }

  function TurnOf(table: seq<DataRow>, r: Recording): seq<DataRow> {
    var range := TurnRange(Of(table, r.input.sessionid), r.input.dataid);
    if range.Some? then range.value else []
  }

  /** The session has grown since, and input and answer belong to one turn of it. */
  ghost predicate MadeOn(table: seq<DataRow>, r: Recording) {
    && r.rows <= Of(table, r.input.sessionid)
    && r.input in r.rows && IsUser(r.input) && r.answer in r.rows && r.answer in TurnOf(table, r)
  }

  /** The turn of a record, and how many of its rows lie in the window of the record. */
  function FinishedBy(table: seq<DataRow>, r: Recording): Finished {
    var turn := TurnOf(table, r);
    Finished(turn, |Between(turn, r.input.dataid, r.answer.dataid)|)
  }

  function AllFinished(table: seq<DataRow>, recordings: seq<Recording>): seq<Finished> {
    seq(|recordings|, i requires 0 <= i < |recordings| => FinishedBy(table, recordings[i]))
  }

  lemma {:induction false} OfIsOrdered(table: seq<DataRow>, sessionid: string)
    requires Ordered(table)
    ensures Ordered(Of(table, sessionid)) && forall r | r in Of(table, sessionid) :: r in table
  {
    if table != [] {
      OfIsOrdered(table[1..], sessionid);
      assert table == [table[0]] + table[1..];
      var rest := Of(table[1..], sessionid);
      forall i | 0 <= i < |rest| ensures table[0].dataid < rest[i].dataid {
        assert rest[i] in table[1..];
      }
    }
  }

  lemma SamePlace(rows: seq<DataRow>, i: nat, j: nat)
    requires Ordered(rows) && i < |rows| && j < |rows| && rows[i].dataid == rows[j].dataid
    ensures i == j
  {
  }

  lemma OrderedSlice(all: seq<DataRow>, lo: nat, hi: nat)
    requires Ordered(all) && lo <= hi <= |all|
    ensures Ordered(all[lo..hi])
  {
    forall i, j | 0 <= i < j < hi - lo ensures all[lo..hi][i].dataid < all[lo..hi][j].dataid {
      assert all[lo + i].dataid < all[lo + j].dataid;
    }
  }

  lemma SliceInParts<T>(all: seq<T>, lo: nat, start: nat, last: nat, hi: nat)
    requires lo <= start <= last < hi <= |all|
    ensures all[lo..hi] == all[lo..start] + all[start..last + 1] + all[last + 1..hi]
  {
  }

  /** A window lies wholly in every part of the rows that holds its ends. */
  lemma WindowInSlice(all: seq<DataRow>, lo: nat, start: nat, last: nat, hi: nat)
    requires Ordered(all) && lo <= start <= last < hi <= |all|
    ensures Between(all[lo..hi], all[start].dataid, all[last].dataid) == all[start..last + 1]
  {
    OrderedSlice(all, lo, hi);
    SliceInParts(all, lo, start, last, hi);
    RecordCountsTurn(all[lo..start], all[start..last + 1], all[last + 1..hi]);
  }

  lemma PlaceInPrefix(rows: seq<DataRow>, all: seq<DataRow>, row: DataRow) returns (i: nat)
    requires rows <= all && row in rows
    ensures i < |rows| <= |all| && all[i] == row
  {
    i :| 0 <= i < |rows| && rows[i] == row;
  }

  lemma PlaceInSlice(all: seq<DataRow>, start: nat, end: nat, row: DataRow) returns (i: nat)
    requires start <= end <= |all| && row in all[start..end]
    ensures start <= i < end && all[i] == row
  {
    var p :| 0 <= p < end - start && all[start..end][p] == row;
    i := start + p;
  }

  lemma PlaceOfRecord(table: seq<DataRow>, r: Recording) returns (start: nat, last: nat, end: nat)
    requires Ordered(table) && MadeOn(table, r)
    ensures
      var all := Of(table, r.input.sessionid);
      && Ordered(all) && start <= last < end <= |all| && last < |r.rows|
      && all[start] == r.input && all[last] == r.answer && TurnOf(table, r) == all[start..end]
  {
    var all := Of(table, r.input.sessionid);
    OfIsOrdered(table, r.input.sessionid);
    start := PlaceInPrefix(r.rows, all, r.input);
    last := PlaceInPrefix(r.rows, all, r.answer);
    FindInputFinds(all, start);
    end := NextUser(all, start + 1);
    var i := PlaceInSlice(all, start, end, r.answer);
    SamePlace(all, i, last);
  }

  lemma PrefixIsSlice<T>(a: seq<T>, b: seq<T>)
    requires a <= b
    ensures a == b[0..|a|]
  {
  }

  lemma TakeOfSlice<T>(s: seq<T>, lo: nat, mid: nat, hi: nat)
    requires lo <= mid <= hi <= |s|
    ensures |s[lo..mid]| == mid - lo && s[lo..hi][..mid - lo] == s[lo..mid]
  {
  }

  /** What a record counts is what of its turn lies in its window, however much the session grows. */
  lemma RecordCountsWindow(table: seq<DataRow>, r: Recording)
    requires Ordered(table) && MadeOn(table, r)
    ensures
      var f := FinishedBy(table, r);
      f.counted <= |f.turn| && Between(r.rows, r.input.dataid, r.answer.dataid) == f.turn[..f.counted]
  {
    var all := Of(table, r.input.sessionid);
    var start, last, end := PlaceOfRecord(table, r);
    PrefixIsSlice(r.rows, all);
    WindowInSlice(all, 0, start, last, |r.rows|);
    WindowInSlice(all, start, start, last, end);
    TakeOfSlice(all, start, last + 1, end);
  }

  lemma WindowsAreValid(table: seq<DataRow>, recordings: seq<Recording>)
    requires Ordered(table) && forall i | 0 <= i < |recordings| :: MadeOn(table, recordings[i])
    ensures Valid(AllFinished(table, recordings))
  {
    forall i | 0 <= i < |recordings|
      ensures FinishedBy(table, recordings[i]).counted <= |FinishedBy(table, recordings[i]).turn|
    {
      RecordCountsWindow(table, recordings[i]);
    }
  }

  lemma FinishedTail(table: seq<DataRow>, recordings: seq<Recording>)
    requires recordings != []
    ensures AllFinished(table, recordings)[0] == FinishedBy(table, recordings[0])
    ensures AllFinished(table, recordings)[1..] == AllFinished(table, recordings[1..])
  {
  }

  lemma {:induction false} RecordsOfWindows(table: seq<DataRow>, recordings: seq<Recording>, stats: Option<Stats>,
                                            weigh: DataRow -> nat)
    requires Ordered(table) && forall i | 0 <= i < |recordings| :: MadeOn(table, recordings[i])
    requires Valid(AllFinished(table, recordings))
    ensures RecordEach(stats, recordings, weigh) == RecordAll(stats, AllFinished(table, recordings), weigh)
    decreases |recordings|
  {
    if recordings != [] {
      var finished, r := AllFinished(table, recordings), recordings[0];
      RecordCountsWindow(table, r);
      var tokens := Sum(Between(r.rows, r.input.dataid, r.answer.dataid), weigh);
      assert tokens == Counted(finished[0], weigh);
      FinishedTail(table, recordings);
      RecordsOfWindows(table, recordings[1..], Some(Recorded(stats, tokens)), weigh);
    }
  }

  /** The first record stores what it would add to empty totals. */
  lemma FromNothing(finished: seq<Finished>, weigh: DataRow -> nat)
    requires Valid(finished) && finished != []
    ensures RecordAll(None, finished, weigh) == RecordAll(Some(StatsOf(0, 0)), finished, weigh)
  {
    assert CeilDiv(Counted(finished[0], weigh), 1) == Counted(finished[0], weigh);
  }

  /** Every turn of the table recorded once, in whatever order and while the table was still growing:
      the recorded totals differ from those of a rebuild by exactly the rows stored after their turn's
      answer, and are the same triple, average included, if and only if those weigh nothing. */
  lemma RecordingsAgainstRebuilt(table: seq<DataRow>, sessions: seq<string>, recordings: seq<Recording>,
                                 weigh: DataRow -> nat)
    requires Distinct(sessions) && Ordered(table) && recordings != []
    requires forall i | 0 <= i < |recordings| :: MadeOn(table, recordings[i])
    requires multiset(TurnsOf(AllFinished(table, recordings))) == multiset(AllTurns(table, sessions))
    ensures
      var finished := AllFinished(table, recordings);
      var recorded := RecordEach(None, recordings, weigh);
      var rebuilt := Rebuilt(table, sessions, weigh);
      && Valid(finished) && recorded.Some?
      && recorded.value.turncount == rebuilt.turncount
      && recorded.value.tokens + Trailing(finished, weigh) == rebuilt.tokens
      && (recorded.value == rebuilt <==> Trailing(finished, weigh) == 0)
  {
    var finished := AllFinished(table, recordings);
    WindowsAreValid(table, recordings);
    RecordsOfWindows(table, recordings, None, weigh);
    FromNothing(finished, weigh);
    RecordedAgainstRebuilt(table, sessions, finished, weigh);
  }
}
