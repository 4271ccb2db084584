/** The stored totals of turns and tokens: rebuilt from all rows, or recorded turn by turn.
    How many tokens a row counts for is a parameter. */
module UsageTotals {
  import opened JsText
  import opened TurnHistory

  datatype Stats = Stats(turncount: nat, tokens: nat, avgtokens: nat)

  function CeilDiv(a: nat, b: nat): nat
    requires b > 0
  {
    (a + b - 1) / b
  }

  function Average(turncount: nat, tokens: nat): nat {
    if turncount > 0 then CeilDiv(tokens, turncount) else 0
  }

  function StatsOf(turncount: nat, tokens: nat): Stats {
    Stats(turncount, tokens, Average(turncount, tokens))
  }

  /** The average is the exact one rounded up: no smaller number of tokens per turn covers them all. */
  lemma AverageRoundsUp(turncount: nat, tokens: nat)
    requires turncount > 0
    ensures tokens <= Average(turncount, tokens) * turncount < tokens + turncount
  {
  }

  function Sum(rows: seq<DataRow>, weigh: DataRow -> nat): nat {
    if rows == [] then 0 else weigh(rows[0]) + Sum(rows[1..], weigh)
  }

  function Users(rows: seq<DataRow>): nat {
    if rows == [] then 0 else (if IsUser(rows[0]) then 1 else 0) + Users(rows[1..])
  }

  /** The tokens of the rows that follow a user row of their session without a row of another session
      between; `open` is the session of a turn begun before. */
  function Tokens(rows: seq<DataRow>, open: Option<string>, weigh: DataRow -> nat): nat
    decreases |rows|
  {
    if rows == [] then 0
    else
      var row := rows[0];
      if IsUser(row) then weigh(row) + Tokens(rows[1..], Some(row.sessionid), weigh)
      else if open == Some(row.sessionid) then weigh(row) + Tokens(rows[1..], open, weigh)
      else Tokens(rows[1..], None, weigh)
  }

  lemma {:induction false} SumConcat(a: seq<DataRow>, b: seq<DataRow>, weigh: DataRow -> nat)
    ensures Sum(a + b, weigh) == Sum(a, weigh) + Sum(b, weigh)
  {
    if a == [] {
      assert a + b == b;
    } else {
      assert (a + b)[1..] == a[1..] + b;
      SumConcat(a[1..], b, weigh);
    }
  }

  /** The rebuild loop over the rows in the order of the query. */
  method CalculateTurnContextUsageStats(rows: seq<DataRow>, weigh: DataRow -> nat) returns (stats: Stats)
    ensures stats == StatsOf(Users(rows), Tokens(rows, None, weigh))
  {
    var turncount, tokens: nat := 0, 0;
    var currentSessionId := "";
    var currentRows: seq<DataRow> := [];
    assert rows[0..] == rows;
    for i := 0 to |rows|
      invariant turncount + (if currentRows == [] then 0 else 1) + Users(rows[i..]) == Users(rows)
      invariant tokens + Sum(currentRows, weigh) +
                Tokens(rows[i..], if currentRows == [] then None else Some(currentSessionId), weigh) ==
                Tokens(rows, None, weigh)
    {
      var row := rows[i];
      assert rows[i..][1..] == rows[i + 1..];
      if row.sessionid != currentSessionId {
        tokens := tokens + Sum(currentRows, weigh);
        turncount := turncount + if |currentRows| > 0 then 1 else 0;
        currentSessionId := row.sessionid;
        currentRows := [];
      }
      if IsUser(row) {
        tokens := tokens + Sum(currentRows, weigh);
        turncount := turncount + if |currentRows| > 0 then 1 else 0;
        currentRows := [row];
        continue;
      }
      if |currentRows| > 0 {
        SumConcat(currentRows, [row], weigh);
        currentRows := currentRows + [row];
      }
    }
    tokens := tokens + Sum(currentRows, weigh);
    turncount := turncount + if |currentRows| > 0 then 1 else 0;
    stats := Stats(turncount, tokens, if turncount > 0 then CeilDiv(tokens, turncount) else 0);
  }

  // ----- rows of many sessions, in any order ---------------------------------------------

  /** The rows of one session, in the order of the table. */
  function Of(table: seq<DataRow>, sessionid: string): seq<DataRow> {
    if table == [] then []
    else (if table[0].sessionid == sessionid then [table[0]] else []) + Of(table[1..], sessionid)
  }

  /** The table as the query lists it: session by session. */
  function BySession(table: seq<DataRow>, sessions: seq<string>): seq<DataRow> {
    if sessions == [] then [] else Of(table, sessions[0]) + BySession(table, sessions[1..])
  }

  /** The tokens of all rows at or after the first user row of their session, wherever the rows of
      other sessions lie; `seen` are the sessions with a user row before. */
  function AfterFirstUser(table: seq<DataRow>, seen: set<string>, weigh: DataRow -> nat): nat
    decreases |table|
  {
    if table == [] then 0
    else
      var row := table[0];
      var seen' := if IsUser(row) then seen + {row.sessionid} else seen;
      (if row.sessionid in seen' then weigh(row) else 0) + AfterFirstUser(table[1..], seen', weigh)
  }

  ghost predicate Distinct(sessions: seq<string>) {
    forall i, j | 0 <= i < j < |sessions| :: sessions[i] != sessions[j]
  }

  ghost predicate Covers(sessions: seq<string>, table: seq<DataRow>) {
    forall i | 0 <= i < |table| :: table[i].sessionid in sessions
  }

  function Open(sessionid: string, on: bool): Option<string> {
    if on then Some(sessionid) else None
  }

  /** The totals of all sessions, each read by itself. */
  function SessionTokens(table: seq<DataRow>, sessions: seq<string>, seen: set<string>, weigh: DataRow -> nat): nat {
    if sessions == [] then 0
    else
      Tokens(Of(table, sessions[0]), Open(sessions[0], sessions[0] in seen), weigh) +
      SessionTokens(table, sessions[1..], seen, weigh)
  }

  /** One row changes the total of its own session only. */
  lemma {:induction false} FirstRowCounts(table: seq<DataRow>, sessions: seq<string>, seen: set<string>,
                                          weigh: DataRow -> nat)
    requires table != [] && Distinct(sessions)
    ensures
      var row := table[0];
      var seen' := if IsUser(row) then seen + {row.sessionid} else seen;
      SessionTokens(table, sessions, seen, weigh) ==
      (if row.sessionid in sessions && row.sessionid in seen' then weigh(row) else 0) +
      SessionTokens(table[1..], sessions, seen', weigh)
    decreases |sessions|
  {
    if sessions != [] {
      var s, rest := sessions[0], sessions[1..];
      assert s !in rest;
      FirstRowCounts(table, rest, seen, weigh);
      var row := table[0];
      if row.sessionid == s {
        assert Of(table, s)[1..] == Of(table[1..], s);
      } else {
        assert [] + Of(table[1..], s) == Of(table[1..], s);
        assert row.sessionid in sessions <==> row.sessionid in rest;
      }
    }
  }

  lemma {:induction false} NoSessionTokens(sessions: seq<string>, seen: set<string>, weigh: DataRow -> nat)
    ensures SessionTokens([], sessions, seen, weigh) == 0
  {
    if sessions != [] { NoSessionTokens(sessions[1..], seen, weigh); }
  }

  lemma {:induction false} SessionsTogether(table: seq<DataRow>, sessions: seq<string>, seen: set<string>,
                                            weigh: DataRow -> nat)
    requires Distinct(sessions) && Covers(sessions, table)
    ensures SessionTokens(table, sessions, seen, weigh) == AfterFirstUser(table, seen, weigh)
    decreases |table|
  {
    if table == [] {
      NoSessionTokens(sessions, seen, weigh);
    } else {
      FirstRowCounts(table, sessions, seen, weigh);
      assert table[0].sessionid in sessions;
      assert forall i | 0 <= i < |table[1..]| :: table[1..][i] == table[i + 1];
      SessionsTogether(table[1..], sessions, if IsUser(table[0]) then seen + {table[0].sessionid} else seen, weigh);
    }
  }

  ghost predicate Only(rows: seq<DataRow>, sessionid: string) {
    forall i | 0 <= i < |rows| :: rows[i].sessionid == sessionid
  }

  ghost predicate NoneOf(rows: seq<DataRow>, sessionid: string) {
    forall i | 0 <= i < |rows| :: rows[i].sessionid != sessionid
  }

  lemma OtherSessionStartsClosed(b: seq<DataRow>, sessionid: string, weigh: DataRow -> nat)
    requires NoneOf(b, sessionid)
    ensures Tokens(b, Some(sessionid), weigh) == Tokens(b, None, weigh)
  {
  }

  /** Where the session changes, no turn goes on. */
  lemma {:induction false} TokensConcat(a: seq<DataRow>, b: seq<DataRow>, sessionid: string, on: bool,
                                        weigh: DataRow -> nat)
    requires Only(a, sessionid) && NoneOf(b, sessionid)
    ensures Tokens(a + b, Open(sessionid, on), weigh) == Tokens(a, Open(sessionid, on), weigh) + Tokens(b, None, weigh)
    decreases |a|
  {
    if a == [] {
      assert a + b == b;
      OtherSessionStartsClosed(b, sessionid, weigh);
    } else {
      assert (a + b)[1..] == a[1..] + b;
      assert a[0].sessionid == sessionid;
      TokensConcat(a[1..], b, sessionid, on || IsUser(a[0]), weigh);
    }
  }

  lemma {:induction false} OfIsOnly(table: seq<DataRow>, sessionid: string)
    ensures Only(Of(table, sessionid), sessionid)
  {
    if table != [] { OfIsOnly(table[1..], sessionid); }
  }

  lemma {:induction false} OtherSessions(table: seq<DataRow>, sessions: seq<string>, sessionid: string)
    requires sessionid !in sessions
    ensures NoneOf(BySession(table, sessions), sessionid)
  {
    if sessions != [] {
      OfIsOnly(table, sessions[0]);
      OtherSessions(table, sessions[1..], sessionid);
    }
  }

  lemma {:induction false} QueryOrderTokens(table: seq<DataRow>, sessions: seq<string>, weigh: DataRow -> nat)
    requires Distinct(sessions)
    ensures Tokens(BySession(table, sessions), None, weigh) == SessionTokens(table, sessions, {}, weigh)
  {
    if sessions != [] {
      QueryOrderTokens(table, sessions[1..], weigh);
      assert sessions[0] !in sessions[1..];
      OfIsOnly(table, sessions[0]);
      OtherSessions(table, sessions[1..], sessions[0]);
      TokensConcat(Of(table, sessions[0]), BySession(table, sessions[1..]), sessions[0], false, weigh);
    }
  }

  /** However the rows of the sessions are interleaved in the table, the rebuild counts the tokens of
      all rows at or after their session's first user row. */
  lemma RebuildCountsAfterFirstUser(table: seq<DataRow>, sessions: seq<string>, weigh: DataRow -> nat)
    requires Distinct(sessions) && Covers(sessions, table)
    ensures Tokens(BySession(table, sessions), None, weigh) == AfterFirstUser(table, {}, weigh)
  {
    QueryOrderTokens(table, sessions, weigh);
    SessionsTogether(table, sessions, {}, weigh);
  }

  // ----- users ---------------------------------------------------------------------------

  lemma {:induction false} UsersConcat(a: seq<DataRow>, b: seq<DataRow>)
    ensures Users(a + b) == Users(a) + Users(b)
  {
    if a == [] {
      assert a + b == b;
    } else {
      assert (a + b)[1..] == a[1..] + b;
      UsersConcat(a[1..], b);
    }
  }

  lemma {:induction false} FirstRowUsers(table: seq<DataRow>, sessions: seq<string>)
    requires table != [] && Distinct(sessions)
    ensures Users(BySession(table, sessions)) ==
            (if IsUser(table[0]) && table[0].sessionid in sessions then 1 else 0) +
            Users(BySession(table[1..], sessions))
    decreases |sessions|
  {
    if sessions != [] {
      var s, rest := sessions[0], sessions[1..];
      assert s !in rest;
      FirstRowUsers(table, rest);
      UsersConcat(Of(table, s), BySession(table, rest));
      UsersConcat(Of(table[1..], s), BySession(table[1..], rest));
      if table[0].sessionid == s {
        assert Of(table, s)[1..] == Of(table[1..], s);
      } else {
        assert [] + Of(table[1..], s) == Of(table[1..], s);
        assert table[0].sessionid in sessions <==> table[0].sessionid in rest;
      }
    }
  }

  lemma {:induction false} NoRows(sessions: seq<string>)
    ensures BySession([], sessions) == []
  {
    if sessions != [] { NoRows(sessions[1..]); }
  }

  /** The rebuild counts the user rows of the table. */
  lemma {:induction false} RebuildCountsUsers(table: seq<DataRow>, sessions: seq<string>)
    requires Distinct(sessions) && Covers(sessions, table)
    ensures Users(BySession(table, sessions)) == Users(table)
    decreases |table|
  {
    if table == [] {
      NoRows(sessions);
    } else {
      FirstRowUsers(table, sessions);
      assert table[0].sessionid in sessions;
      assert forall i | 0 <= i < |table[1..]| :: table[1..][i] == table[i + 1];
      RebuildCountsUsers(table[1..], sessions);
    }
  }
}
