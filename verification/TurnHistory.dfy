/** The stored rows of a session as turns: each user row begins a turn that ends before the next.
    Turn ranges, the history view, deletion of a turn, branch prefixes and compaction windows. */
module TurnHistory {
  import opened JsText

  datatype RowType = User | Interrupt | Compact | OtherType

  datatype Contents =
    | AssistantMessage
    | ErrorMessage
    | AssistantDelta
    | AssistantReasoning
    | ToolCall
    | ToolResult
    | CotWork
    | SubagentSession
    | CompactNote(text: Option<string>)
    | OtherContents

  datatype DataRow = DataRow(dataid: int, sessionid: string, rowtype: RowType, contents: Contents)

  datatype Event = InputRecorded | Interrupted | CompactCompleted | AssistantRecorded | Detail

  function EventOf(row: DataRow): Option<Event> {
    match row.rowtype
    case User => Some(InputRecorded)
    case Interrupt => Some(Interrupted)
    case Compact => Some(CompactCompleted)
    case OtherType =>
      match row.contents
      case AssistantMessage => Some(AssistantRecorded)
      case ErrorMessage => Some(AssistantRecorded)
      case CompactNote(_) => None
      case OtherContents => None
      case _ => Some(Detail)
  }

  predicate IsUser(row: DataRow) {
    row.rowtype == User
  }

  /** The rows of a session as the table lists them. */
  ghost predicate Ordered(rows: seq<DataRow>) {
    forall i, j | 0 <= i < j < |rows| :: rows[i].dataid < rows[j].dataid
  }

  // ----- turns ---------------------------------------------------------------------------

  /** The rows before the first user row. */
  function Lead(rows: seq<DataRow>): (lead: seq<DataRow>)
    ensures lead <= rows
  {
    if rows == [] || IsUser(rows[0]) then [] else [rows[0]] + Lead(rows[1..])
  }

  function Turns(rows: seq<DataRow>): seq<seq<DataRow>> {
    if rows == [] then []
    else (if IsUser(rows[0]) then [[rows[0]] + Lead(rows[1..])] else []) + Turns(rows[1..])
  }

  function Flat(turns: seq<seq<DataRow>>): seq<DataRow> {
    if turns == [] then [] else turns[0] + Flat(turns[1..])
  }

  /** Turns partition the rows after the first user row. */
  lemma {:induction false} TurnsPartition(rows: seq<DataRow>)
    ensures Lead(rows) + Flat(Turns(rows)) == rows
  {
    if rows != [] {
      TurnsPartition(rows[1..]);
      var rest := rows[1..];
      Halves(rows, 1);
      assert rows[..1] == [rows[0]];
      Assoc([rows[0]], Lead(rest), Flat(Turns(rest)));
      if IsUser(rows[0]) {
        assert Turns(rows)[1..] == Turns(rest);
        assert [] + rows == rows;
      } else {
        assert [] + Turns(rest) == Turns(rest);
      }
    }
  }

  /** Turns of rows cut in front of a user row. */
  lemma {:induction false} TurnsConcat(a: seq<DataRow>, b: seq<DataRow>)
    requires b == [] || IsUser(b[0])
    ensures Turns(a + b) == Turns(a) + Turns(b) && Lead(a + b) == Lead(a)
  {
    if a == [] {
      assert a + b == b;
    } else {
      assert (a + b)[1..] == a[1..] + b;
      TurnsConcat(a[1..], b);
      Assoc(if IsUser(a[0]) then [[a[0]] + Lead(a[1..])] else [], Turns(a[1..]), Turns(b));
    }
  }

  // ----- the range of one turn -----------------------------------------------------------

  /** `rows.findIndex(row => row.type === "user" && row.dataid === inputDataId)` */
  function FindInput(rows: seq<DataRow>, inputDataId: int): (r: Option<nat>)
    ensures r.Some? ==> r.value < |rows| && IsUser(rows[r.value]) && rows[r.value].dataid == inputDataId
  {
    if rows == [] then None
    else if IsUser(rows[0]) && rows[0].dataid == inputDataId then Some(0)
    else
      var rest := FindInput(rows[1..], inputDataId);
      if rest.Some? then Some(rest.value + 1) else None
  }

  /** The position of the first user row at or after `from`, or the end. */
  function NextUser(rows: seq<DataRow>, from: nat): (r: nat)
    requires from <= |rows|
    ensures from <= r <= |rows|
    ensures r < |rows| ==> IsUser(rows[r])
    decreases |rows| - from
  {
    if from == |rows| || IsUser(rows[from]) then from else NextUser(rows, from + 1)
  }

  function TurnRange(rows: seq<DataRow>, inputDataId: int): Option<seq<DataRow>> {
    var start := FindInput(rows, inputDataId);
    if start.None? then None
    else Some(rows[start.value..NextUser(rows, start.value + 1)])
  }

  lemma {:induction false} NextUserEndsLead(rows: seq<DataRow>, from: nat)
    requires from <= |rows|
    ensures rows[from..NextUser(rows, from)] == Lead(rows[from..])
    decreases |rows| - from
  {
    if from < |rows| && !IsUser(rows[from]) {
      NextUserEndsLead(rows, from + 1);
      assert rows[from..][1..] == rows[from + 1..];
      assert rows[from..NextUser(rows, from)] == [rows[from]] + rows[from + 1..NextUser(rows, from)];
    }
  }

  /** A user row and the rows up to the next one. */
  predicate IsTurn(turn: seq<DataRow>) {
    turn != [] && IsUser(turn[0]) && Lead(turn[1..]) == turn[1..]
  }

  lemma {:induction false} LeadHasNoTurns(rows: seq<DataRow>)
    requires Lead(rows) == rows
    ensures Turns(rows) == []
  {
    if rows != [] {
      assert rows[1..] == Lead(rows[1..]);
      LeadHasNoTurns(rows[1..]);
    }
  }

  lemma TurnAmong(a: seq<DataRow>, turn: seq<DataRow>, b: seq<DataRow>)
    requires IsTurn(turn) && (b == [] || IsUser(b[0]))
    ensures Turns(a + turn + b) == Turns(a) + [turn] + Turns(b)
    ensures Turns(a + b) == Turns(a) + Turns(b)
    ensures Lead(a + turn + b) == Lead(a) == Lead(a + b)
  {
    Assoc(a, turn, b);
    TurnsConcat(a, turn + b);
    TurnsConcat(a, b);
    TurnsConcat(turn, b);
    OnlyTurn(turn);
    Assoc(Turns(a), [turn], Turns(b));
  }

  lemma OnlyTurn(turn: seq<DataRow>)
    requires IsTurn(turn)
    ensures Turns(turn) == [turn]
  {
    LeadHasNoTurns(turn[1..]);
    assert turn == [turn[0]] + turn[1..];
  }

  lemma {:induction false} LeadTwice(rows: seq<DataRow>)
    ensures Lead(Lead(rows)) == Lead(rows)
  {
    if rows != [] && !IsUser(rows[0]) {
      LeadTwice(rows[1..]);
      assert Lead(rows)[1..] == Lead(rows[1..]);
    }
  }

  lemma ThreeParts<T>(s: seq<T>, i: nat, j: nat)
    requires i <= j <= |s|
    ensures s == s[..i] + s[i..j] + s[j..]
  {
  }

  lemma RangeIsTurn(rows: seq<DataRow>, start: nat)
    requires start < |rows| && IsUser(rows[start])
    ensures
      var end := NextUser(rows, start + 1);
      IsTurn(rows[start..end]) && rows == rows[..start] + rows[start..end] + rows[end..]
  {
    var end := NextUser(rows, start + 1);
    NextUserEndsLead(rows, start + 1);
    LeadTwice(rows[start + 1..]);
    var turn := rows[start..end];
    assert turn[0] == rows[start] && turn[1..] == rows[start + 1..end];
    ThreeParts(rows, start, end);
  }

  /** Rows as what comes before a turn, the turn, and what comes after it. */
  lemma RangeSplits(rows: seq<DataRow>, start: nat)
    requires start < |rows| && IsUser(rows[start])
    ensures
      var end := NextUser(rows, start + 1);
      && Turns(rows) == Turns(rows[..start]) + [rows[start..end]] + Turns(rows[end..])
      && Turns(rows[..start] + rows[end..]) == Turns(rows[..start]) + Turns(rows[end..])
      && Lead(rows) == Lead(rows[..start] + rows[end..])
  {
    var end := NextUser(rows, start + 1);
    RangeIsTurn(rows, start);
    TurnAmong(rows[..start], rows[start..end], rows[end..]);
  }

  lemma {:induction false} FindInputFinds(rows: seq<DataRow>, start: nat)
    requires Ordered(rows) && start < |rows| && IsUser(rows[start])
    ensures FindInput(rows, rows[start].dataid) == Some(start)
  {
    if start > 0 {
      assert rows[0].dataid < rows[start].dataid;
      assert Ordered(rows[1..]);
      FindInputFinds(rows[1..], start - 1);
    }
  }

  /** Asking for the range of a turn's input gives that turn, for every turn there is. */
  lemma {:induction false} EveryTurnIsARange(rows: seq<DataRow>, k: nat)
    requires Ordered(rows) && k < |Turns(rows)|
    ensures Turns(rows)[k] != [] && TurnRange(rows, Turns(rows)[k][0].dataid) == Some(Turns(rows)[k])
  {
    var start := StartOf(rows, k);
    RangeSplits(rows, start);
    FindInputFinds(rows, start);
  }

  /** Where the k-th turn begins. */
  ghost function StartOf(rows: seq<DataRow>, k: nat): (start: nat)
    requires k < |Turns(rows)|
    ensures start < |rows| && IsUser(rows[start]) && |Turns(rows[..start])| == k
    ensures rows[start..NextUser(rows, start + 1)] == Turns(rows)[k]
  {
    var start := StartIn(rows, k);
    RangeSplits(rows, start);
    start
  }

  ghost function StartIn(rows: seq<DataRow>, k: nat): (start: nat)
    requires k < |Turns(rows)|
    ensures start < |rows| && IsUser(rows[start]) && |Turns(rows[..start])| == k
  {
    if IsUser(rows[0]) && k == 0 then 0
    else
      var start := StartIn(rows[1..], if IsUser(rows[0]) then k - 1 else k);
      assert rows[..start + 1][1..] == rows[1..][..start];
      start + 1
  }

  // ----- the history view ----------------------------------------------------------------

  function Events(rows: seq<DataRow>): seq<DataRow> {
    if rows == [] then []
    else (if EventOf(rows[0]).Some? then [rows[0]] else []) + Events(rows[1..])
  }

  /** Up to and including the first answer. */
  function ThroughAnswer(rows: seq<DataRow>): seq<DataRow> {
    if rows == [] then []
    else if EventOf(rows[0]) == Some(AssistantRecorded) then [rows[0]]
    else [rows[0]] + ThroughAnswer(rows[1..])
  }

  /** What the history shows of a turn: its events through its first answer. */
  function View(turn: seq<DataRow>): seq<DataRow> {
    ThroughAnswer(Events(turn))
  }

  function Views(turns: seq<seq<DataRow>>): seq<seq<DataRow>> {
    seq(|turns|, i requires 0 <= i < |turns| => View(turns[i]))
  }

  function Listed(rows: seq<DataRow>, current: Option<seq<DataRow>>): seq<seq<DataRow>>
    decreases |rows|
  {
    if rows == [] then (if current.Some? then [current.value] else [])
    else
      var row, rest := rows[0], rows[1..];
      match EventOf(row)
      case None => Listed(rest, current)
      case Some(InputRecorded) => (if current.Some? then [current.value] else []) + Listed(rest, Some([row]))
      case Some(AssistantRecorded) =>
        if current.None? then Listed(rest, None) else [current.value + [row]] + Listed(rest, None)
      case Some(_) =>
        if current.None? then Listed(rest, None) else Listed(rest, Some(current.value + [row]))
  }

  /** One row of the loop: the views it finishes, and the one it leaves open. */
  method ReadRow(row: DataRow, current: Option<seq<DataRow>>, ghost rest: seq<DataRow>)
    returns (finished: seq<seq<DataRow>>, next: Option<seq<DataRow>>)
    ensures Listed([row] + rest, current) == finished + Listed(rest, next)
  {
    assert ([row] + rest)[1..] == rest;
    finished, next := [], current;
    var event := EventOf(row);
    if event.None? {
      return;
    }
    if event == Some(InputRecorded) {
      if current.Some? {
        finished := [current.value];
      }
      next := Some([row]);
      return;
    }
    if current.None? {
      return;
    }
    next := Some(current.value + [row]);
    if event == Some(AssistantRecorded) {
      return [next.value], None;
    }
  }

  method ListSessionHistoryTurns(rows: seq<DataRow>) returns (turns: seq<seq<DataRow>>)
    ensures turns == Views(Turns(rows))
  {
    turns := [];
    var current: Option<seq<DataRow>> := None;
    assert rows[0..] == rows;
    for i := 0 to |rows|
      invariant turns + Listed(rows[i..], current) == Listed(rows, None)
    {
      assert rows[i..] == [rows[i]] + rows[i + 1..];
      var finished, next := ReadRow(rows[i], current, rows[i + 1..]);
      Assoc(turns, finished, Listed(rows[i + 1..], next));
      turns := turns + finished;
      current := next;
    }
    if current.Some? {
      turns := turns + [current.value];
    }
    ListedIsViews(rows);
  }

  predicate Answered(rows: seq<DataRow>) {
    exists i | 0 <= i < |rows| :: EventOf(rows[i]) == Some(AssistantRecorded)
  }

  lemma {:induction false} EventsConcat(a: seq<DataRow>, b: seq<DataRow>)
    ensures Events(a + b) == Events(a) + Events(b)
  {
    if a == [] {
      assert a + b == b;
    } else {
      assert (a + b)[1..] == a[1..] + b;
      EventsConcat(a[1..], b);
      Assoc(if EventOf(a[0]).Some? then [a[0]] else [], Events(a[1..]), Events(b));
    }
  }

  lemma {:induction false} ThroughUnanswered(a: seq<DataRow>, b: seq<DataRow>)
    requires !Answered(a)
    ensures ThroughAnswer(a + b) == a + ThroughAnswer(b)
  {
    if a == [] {
      assert a + b == b;
    } else {
      assert (a + b)[1..] == a[1..] + b;
      assert forall i | 0 <= i < |a[1..]| :: a[1..][i] == a[i + 1];
      ThroughUnanswered(a[1..], b);
    }
  }

  function Opened(current: Option<seq<DataRow>>, rest: seq<DataRow>): seq<seq<DataRow>> {
    if current.Some? then [current.value + ThroughAnswer(Events(rest))] else []
  }

  lemma ListedUser(row: DataRow, rest: seq<DataRow>, current: Option<seq<DataRow>>)
    requires IsUser(row)
    requires Listed(rest, Some([row])) == Opened(Some([row]), Lead(rest)) + Views(Turns(rest))
    ensures Listed([row] + rest, current) == Opened(current, []) + Views(Turns([row] + rest))
  {
    var rows, turn := [row] + rest, [row] + Lead(rest);
    assert rows[1..] == rest;
    assert Turns(rows) == [turn] + Turns(rest);
    ViewsConcat([turn], Turns(rest));
    assert Views([turn]) == [View(turn)];
    ViewOfTurn(row, Lead(rest));
    assert current.Some? ==> current.value + [] == current.value;
  }

  lemma ViewOfTurn(row: DataRow, rest: seq<DataRow>)
    requires IsUser(row)
    ensures View([row] + rest) == [row] + ThroughAnswer(Events(rest))
  {
    EventsConcat([row], rest);
    assert Events([row]) == [row];
    ThroughUnanswered([row], Events(rest));
  }

  lemma OpenedGrows(current: Option<seq<DataRow>>, row: DataRow, rest: seq<DataRow>)
    ensures Opened(current, [row] + rest) ==
            if EventOf(row).None? || current.None? then Opened(current, rest)
            else if EventOf(row) == Some(AssistantRecorded) then [current.value + [row]]
            else Opened(Some(current.value + [row]), rest)
  {
    assert ([row] + rest)[1..] == rest;
    assert [] + Events(rest) == Events(rest);
    if EventOf(row).Some? {
      assert Events([row] + rest) == [row] + Events(rest);
      assert ([row] + Events(rest))[1..] == Events(rest);
      assert current.Some? ==>
          current.value + [row] + ThroughAnswer(Events(rest)) == current.value + ([row] + ThroughAnswer(Events(rest)));
    }
  }

  /** The rest of the loop: the open turn goes on to the next user row, then come the other turns. */
  lemma {:induction false} ListedFrom(rows: seq<DataRow>, current: Option<seq<DataRow>>)
    requires current.Some? ==> !Answered(current.value)
    ensures Listed(rows, current) == Opened(current, Lead(rows)) + Views(Turns(rows))
    decreases |rows|
  {
    if rows == [] {
      assert current.Some? ==> current.value + [] == current.value;
    } else {
      var row, rest := rows[0], rows[1..];
      assert rows == [row] + rest;
      if IsUser(row) {
        ListedFrom(rest, Some([row]));
        ListedUser(row, rest, current);
      } else {
        OpenedGrows(current, row, Lead(rest));
        assert Turns(rows) == Turns(rest);
        if EventOf(row) == Some(AssistantRecorded) {
          ListedFrom(rest, None);
        } else if EventOf(row).Some? && current.Some? {
          ListedFrom(rest, Some(current.value + [row]));
        } else {
          ListedFrom(rest, current);
        }
      }
    }
  }

  lemma ListedIsViews(rows: seq<DataRow>)
    ensures Listed(rows, None) == Views(Turns(rows))
  {
    ListedFrom(rows, None);
  }

  /** What the history has an event for: all but notes of a compaction and contents of no known kind. */
  predicate IsEvent(row: DataRow) {
    row.rowtype == OtherType ==> !row.contents.CompactNote? && !row.contents.OtherContents?
  }

  lemma {:induction false} EventsAreThose(rows: seq<DataRow>)
    ensures forall row :: row in Events(rows) <==> row in rows && IsEvent(row)
  {
    if rows != [] { EventsAreThose(rows[1..]); }
  }

  lemma EventsKeepAnswers(rows: seq<DataRow>)
    ensures Answered(Events(rows)) <==> Answered(rows)
  {
    EventsAreThose(rows);
    if Answered(rows) {
      var i :| 0 <= i < |rows| && EventOf(rows[i]) == Some(AssistantRecorded);
      assert rows[i] in Events(rows);
    }
  }

  /** The history shows a turn through its first answer, which it shows too, and all of the events of a
      turn that has none. */
  lemma ViewEndsAtAnswer(before: seq<DataRow>, answer: DataRow, after: seq<DataRow>)
    requires !Answered(before)
    ensures EventOf(answer) == Some(AssistantRecorded) ==>
              View(before + [answer] + after) == Events(before) + [answer]
    ensures View(before) == Events(before)
  {
    EventsKeepAnswers(before);
    ThroughUnanswered(Events(before), []);
    assert Events(before) + [] == Events(before);
    if EventOf(answer) == Some(AssistantRecorded) {
      EventsConcat(before, [answer] + after);
      EventsConcat([answer], after);
      assert Events([answer]) == [answer];
      assert before + [answer] + after == before + ([answer] + after);
      ThroughUnanswered(Events(before), [answer] + Events(after));
    }
  }

  // ----- deleting a turn -----------------------------------------------------------------

  function Ids(rows: seq<DataRow>): set<int> {
    set i | 0 <= i < |rows| :: rows[i].dataid
  }

  /** `DELETE ... WHERE dataid = ANY(ids)` */
  function Without(rows: seq<DataRow>, ids: set<int>): seq<DataRow> {
    if rows == [] then []
    else (if rows[0].dataid in ids then [] else [rows[0]]) + Without(rows[1..], ids)
  }

  lemma {:induction false} WithoutConcat(a: seq<DataRow>, b: seq<DataRow>, ids: set<int>)
    ensures Without(a + b, ids) == Without(a, ids) + Without(b, ids)
  {
    if a == [] {
      assert a + b == b;
    } else {
      assert (a + b)[1..] == a[1..] + b;
      WithoutConcat(a[1..], b, ids);
      Assoc(if a[0].dataid in ids then [] else [a[0]], Without(a[1..], ids), Without(b, ids));
    }
  }

  lemma {:induction false} WithoutOthers(rows: seq<DataRow>, ids: set<int>)
    requires forall i | 0 <= i < |rows| :: rows[i].dataid !in ids
    ensures Without(rows, ids) == rows
  {
    if rows != [] { WithoutOthers(rows[1..], ids); }
  }

  lemma {:induction false} WithoutAll(rows: seq<DataRow>, ids: set<int>)
    requires forall i | 0 <= i < |rows| :: rows[i].dataid in ids
    ensures Without(rows, ids) == []
  {
    if rows != [] { WithoutAll(rows[1..], ids); }
  }

  lemma WithoutMiddle(a: seq<DataRow>, part: seq<DataRow>, b: seq<DataRow>)
    requires Ordered(a + part + b)
    ensures Without(a + part + b, Ids(part)) == a + b
  {
    IdsApart(a, part, b);
    WithoutApart(a, part, b, Ids(part));
  }

  lemma IdsApart(a: seq<DataRow>, part: seq<DataRow>, b: seq<DataRow>)
    requires Ordered(a + part + b)
    ensures forall i | 0 <= i < |a| :: a[i].dataid !in Ids(part)
    ensures forall i | 0 <= i < |b| :: b[i].dataid !in Ids(part)
  {
    var rows := a + part + b;
    forall i, k | 0 <= i < |a| && 0 <= k < |part| ensures a[i].dataid != part[k].dataid {
      assert rows[i] == a[i] && rows[|a| + k] == part[k];
    }
    forall i, k | 0 <= i < |b| && 0 <= k < |part| ensures b[i].dataid != part[k].dataid {
      assert rows[|a| + |part| + i] == b[i] && rows[|a| + k] == part[k];
    }
  }

  lemma WithoutApart(a: seq<DataRow>, part: seq<DataRow>, b: seq<DataRow>, ids: set<int>)
    requires forall i | 0 <= i < |a| :: a[i].dataid !in ids
    requires forall i | 0 <= i < |part| :: part[i].dataid in ids
    requires forall i | 0 <= i < |b| :: b[i].dataid !in ids
    ensures Without(a + part + b, ids) == a + b
  {
    WithoutOthers(a, ids);
    WithoutAll(part, ids);
    WithoutOthers(b, ids);
    WithoutConcat(a, part, ids);
    WithoutConcat(a + part, b, ids);
    assert a + [] == a;
  }

  lemma ViewsConcat(a: seq<seq<DataRow>>, b: seq<seq<DataRow>>)
    ensures Views(a + b) == Views(a) + Views(b)
  {
  }

  /** Deleting the rows of a turn takes that turn out of the turns, and so out of the history view,
      and changes nothing else. */
  lemma DeletionRemovesOneTurn(rows: seq<DataRow>, inputDataId: int)
    requires Ordered(rows) && TurnRange(rows, inputDataId).Some?
    ensures
      var turn := TurnRange(rows, inputDataId).value;
      var left := Without(rows, Ids(turn));
      var earlier := Turns(rows[..FindInput(rows, inputDataId).value]);
      exists later ::
        && Turns(rows) == earlier + [turn] + later && Turns(left) == earlier + later && Lead(left) == Lead(rows)
        && Views(Turns(rows)) == Views(earlier) + [View(turn)] + Views(later)
        && Views(Turns(left)) == Views(earlier) + Views(later)
  {
    var start := FindInput(rows, inputDataId).value;
    var end := NextUser(rows, start + 1);
    var turn := rows[start..end];
    RangeSplits(rows, start);
    RangeIsTurn(rows, start);
    WithoutMiddle(rows[..start], turn, rows[end..]);
    var earlier, later := Turns(rows[..start]), Turns(rows[end..]);
    ViewsConcat(earlier, later);
    ViewsConcat(earlier, [turn]);
    ViewsConcat(earlier + [turn], later);
    assert Views([turn]) == [View(turn)];
  }

  lemma {:induction false} NoSuchInput(rows: seq<DataRow>, id: int)
    requires forall i | 0 <= i < |rows| :: rows[i].dataid != id
    ensures FindInput(rows, id).None?
  {
    if rows != [] { NoSuchInput(rows[1..], id); }
  }

  lemma LeftIsOrdered(a: seq<DataRow>, part: seq<DataRow>, b: seq<DataRow>)
    requires Ordered(a + part + b) && part != []
    ensures Ordered(a + b)
    ensures FindInput(a + b, part[0].dataid).None?
  {
    var rows, left := a + part + b, a + b;
    assert forall i | 0 <= i < |a| :: left[i] == rows[i];
    assert forall i | |a| <= i < |left| :: left[i] == rows[i + |part|];
    assert rows[|a|] == part[0];
    NoSuchInput(left, part[0].dataid);
  }

  lemma OneTakenOut<T>(a: seq<T>, x: T, b: seq<T>, k: nat)
    requires k <= |a| + |b|
    ensures (a + [x] + b)[k] == if k == |a| then x else (a + b)[if k < |a| then k else k - 1]
  {
  }

  lemma OthersKeepTheirRange(a: seq<DataRow>, turn: seq<DataRow>, b: seq<DataRow>, k: nat)
    requires Ordered(a + turn + b) && IsTurn(turn) && (b == [] || IsUser(b[0]))
    requires k < |Turns(a + turn + b)|
    ensures
      var other := Turns(a + turn + b)[k];
      other != [] &&
      TurnRange(a + b, other[0].dataid) == if other[0].dataid == turn[0].dataid then None else Some(other)
  {
    LeftIsOrdered(a, turn, b);
    TurnAmong(a, turn, b);
    EveryTurnIsARange(a + turn + b, k);
    OneTakenOut(Turns(a), turn, Turns(b), k);
    var n := |Turns(a)|;
    if k != n {
      EveryTurnIsARange(a + b, if k < n then k else k - 1);
    }
  }

  /** Every other turn keeps its range; the deleted one has none. */
  lemma DeletionKeepsOtherRanges(rows: seq<DataRow>, inputDataId: int, k: nat)
    requires Ordered(rows) && TurnRange(rows, inputDataId).Some? && k < |Turns(rows)|
    ensures
      var left := Without(rows, Ids(TurnRange(rows, inputDataId).value));
      var other := Turns(rows)[k];
      && other != []
      && TurnRange(left, other[0].dataid) == (if other[0].dataid == inputDataId then None else Some(other))
  {
    var start := FindInput(rows, inputDataId).value;
    var end := NextUser(rows, start + 1);
    RangeIsTurn(rows, start);
    WithoutMiddle(rows[..start], rows[start..end], rows[end..]);
    OthersKeepTheirRange(rows[..start], rows[start..end], rows[end..], k);
  }

  // ----- rows through a turn -------------------------------------------------------------

  function UpTo(rows: seq<DataRow>, last: int): seq<DataRow> {
    if rows == [] then []
    else (if rows[0].dataid <= last then [rows[0]] else []) + UpTo(rows[1..], last)
  }

  function RowsThroughTurn(rows: seq<DataRow>, inputDataId: int): Option<seq<DataRow>> {
    var range := TurnRange(rows, inputDataId);
    if range.None? || range.value == [] then None
    else Some(UpTo(rows, range.value[|range.value| - 1].dataid))
  }

  lemma {:induction false} UpToIsPrefix(rows: seq<DataRow>, end: nat)
    requires Ordered(rows) && 0 < end <= |rows|
    ensures UpTo(rows, rows[end - 1].dataid) == rows[..end]
  {
    var last := rows[end - 1].dataid;
    assert rows[0].dataid <= last;
    if end == 1 {
      NoneUpTo(rows[1..], last);
    } else {
      assert Ordered(rows[1..]);
      UpToIsPrefix(rows[1..], end - 1);
    }
  }

  lemma {:induction false} NoneUpTo(rows: seq<DataRow>, last: int)
    requires forall i | 0 <= i < |rows| :: rows[i].dataid > last
    ensures UpTo(rows, last) == []
  {
    if rows != [] { NoneUpTo(rows[1..], last); }
  }

  lemma UpToTurn(a: seq<DataRow>, turn: seq<DataRow>, b: seq<DataRow>)
    requires Ordered(a + turn + b) && turn != []
    ensures UpTo(a + turn + b, turn[|turn| - 1].dataid) == a + turn <= a + turn + b
  {
    var end := |a| + |turn|;
    assert (a + turn + b)[end - 1] == turn[|turn| - 1];
    UpToIsPrefix(a + turn + b, end);
    assert (a + turn + b)[..end] == a + turn;
  }

  /** A branch takes the rows up to the end of the turn: a prefix, whose turns are the earlier turns
      and that one. */
  lemma RowsThroughTurnIsPrefix(rows: seq<DataRow>, inputDataId: int)
    requires Ordered(rows)
    ensures RowsThroughTurn(rows, inputDataId).Some? <==> TurnRange(rows, inputDataId).Some?
    ensures RowsThroughTurn(rows, inputDataId).Some? ==>
              var taken := RowsThroughTurn(rows, inputDataId).value;
              var before := rows[..FindInput(rows, inputDataId).value];
              var turn := TurnRange(rows, inputDataId).value;
              taken == before + turn && taken <= rows && Turns(taken) == Turns(before) + [turn]
  {
    if TurnRange(rows, inputDataId).Some? {
      var start := FindInput(rows, inputDataId).value;
      var end := NextUser(rows, start + 1);
      RangeIsTurn(rows, start);
      UpToTurn(rows[..start], rows[start..end], rows[end..]);
      TurnsEndingIn(rows[..start], rows[start..end]);
    }
  }

  lemma TurnsEndingIn(a: seq<DataRow>, turn: seq<DataRow>)
    requires IsTurn(turn)
    ensures Turns(a + turn) == Turns(a) + [turn]
  {
    TurnAmong(a, turn, []);
    assert a + turn + [] == a + turn;
  }

  // ----- compaction windows --------------------------------------------------------------

  /** What `findLastCompactIndex` looks for: a compact row, or a compact note with text. */
  predicate MarksCompact(row: DataRow) {
    row.rowtype == Compact || (row.contents.CompactNote? && row.contents.text.Some?)
  }

  /** What `isCompactRow` accepts: a note without text, too. */
  predicate IsCompactRow(row: DataRow) {
    row.rowtype == Compact || row.contents.CompactNote?
  }

  function LatestCompact(rows: seq<DataRow>): (r: Option<nat>)
    ensures r.Some? ==> r.value < |rows|
  {
    if rows == [] then None
    else if MarksCompact(rows[|rows| - 1]) then Some(|rows| - 1)
    else LatestCompact(rows[..|rows| - 1])
  }

  method FindLastCompactIndex(rows: seq<DataRow>) returns (r: int)
    ensures r == if LatestCompact(rows).Some? then LatestCompact(rows).value else -1
  {
    var index := |rows| - 1;
    assert rows[..|rows|] == rows;
    while index >= 0
      invariant -1 <= index < |rows|
      invariant LatestCompact(rows[..index + 1]) == LatestCompact(rows)
    {
      if MarksCompact(rows[index]) {
        return index;
      }
      assert rows[..index + 1][..index] == rows[..index];
      index := index - 1;
    }
    return -1;
  }

  function ContextRows(rows: seq<DataRow>): seq<DataRow> {
    var index := LatestCompact(rows);
    if index.Some? then rows[index.value..] else rows
  }

  datatype Source = Source(previousCompact: Option<DataRow>, rows: seq<DataRow>)

  function CompactSource(rows: seq<DataRow>): Source {
    SourceOf(ContextRows(rows))
  }

  function SourceOf(context: seq<DataRow>): Source {
    if context != [] && IsCompactRow(context[0]) then Source(Some(context[0]), context[1..])
    else Source(None, context)
  }

  lemma {:induction false} LatestCompactMarks(rows: seq<DataRow>)
    ensures LatestCompact(rows).Some? ==> MarksCompact(rows[LatestCompact(rows).value])
  {
    if rows != [] {
      LatestCompactMarks(rows[..|rows| - 1]);
    }
  }

  lemma {:induction false} LatestCompactIsLast(rows: seq<DataRow>, i: nat)
    requires i < |rows| && MarksCompact(rows[i])
    ensures LatestCompact(rows).Some? && i <= LatestCompact(rows).value
  {
    if !MarksCompact(rows[|rows| - 1]) {
      LatestCompactIsLast(rows[..|rows| - 1], i);
    }
  }

  /** The context rows are a suffix with no mark of a compaction after its first row. */
  lemma ContextRowsAreSuffix(rows: seq<DataRow>)
    ensures
      var context := ContextRows(rows);
      && |context| <= |rows| && context == rows[|rows| - |context|..]
      && (forall i | 0 < i < |context| :: !MarksCompact(context[i]))
      && (LatestCompact(rows).None? ==> context == rows && forall i | 0 <= i < |rows| :: !MarksCompact(rows[i]))
      && (LatestCompact(rows).Some? ==> context != [] && MarksCompact(context[0]))
  {
    LatestCompactMarks(rows);
    var context := ContextRows(rows);
    var n := |rows| - |context|;
    forall i | 0 < i < |context| ensures !MarksCompact(context[i]) {
      assert context[i] == rows[n + i];
      if MarksCompact(rows[n + i]) { LatestCompactIsLast(rows, n + i); }
    }
    forall i | 0 <= i < |rows| && MarksCompact(rows[i]) ensures LatestCompact(rows).Some? {
      LatestCompactIsLast(rows, i);
    }
  }

  lemma NothingBefore<T>(s: seq<T>)
    ensures [] + s == s
  {
  }


  /** The previous compact row and the source rows make up the suffix from the latest compaction;
      no source row marks one. There is a previous compact row exactly when some row marks a
      compaction, or the first row is a note without text. */
  lemma CompactSourceIsSuffix(rows: seq<DataRow>)
    ensures
      var source := CompactSource(rows);
      && ContextRows(rows) ==
         (if source.previousCompact.Some? then [source.previousCompact.value] else []) + source.rows
      && (forall i | 0 <= i < |source.rows| :: !MarksCompact(source.rows[i]))
      && (source.previousCompact.Some? <==> LatestCompact(rows).Some? || (rows != [] && IsCompactRow(rows[0])))
  {
    ContextRowsAreSuffix(rows);
    SourceOfContext(ContextRows(rows));
  }

  lemma SourceOfContext(context: seq<DataRow>)
    requires forall i | 0 < i < |context| :: !MarksCompact(context[i])
    ensures
      var source := SourceOf(context);
      && context == (if source.previousCompact.Some? then [source.previousCompact.value] else []) + source.rows
      && forall i | 0 <= i < |source.rows| :: !MarksCompact(source.rows[i])
  {
    if context != [] && IsCompactRow(context[0]) {
      forall i | 0 <= i < |context| - 1 ensures !MarksCompact(context[1..][i]) {
        assert context[1..][i] == context[i + 1];
      }
    } else {
      NothingBefore(context);
    }
  }
}
