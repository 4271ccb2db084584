/** Deleting a turn from the database: guarded by the state of the session, cut out of the rows of
    that session only, and followed by a rebuild of the stored totals. */
module TurnDeletion {
  import opened JsText
  import opened TurnHistory
  import opened UsageTotals
  import RecordedUsage
  import SessionRow

  datatype Outcome = NoSuchTurn | Refused | Deleted(rows: seq<DataRow>)

  /** `DELETE FROM sessiondata WHERE sessionid = ... AND dataid = ANY(ids)` */
  function DeleteRows(table: seq<DataRow>, sessionid: string, ids: set<int>): seq<DataRow> {
    if table == [] then []
    else
      (if table[0].sessionid == sessionid && table[0].dataid in ids then [] else [table[0]]) +
      DeleteRows(table[1..], sessionid, ids)
  }

  lemma OfOneMore(row: DataRow, rest: seq<DataRow>, sessionid: string)
    ensures Of([row] + rest, sessionid) == (if row.sessionid == sessionid then [row] else []) + Of(rest, sessionid)
  {
    assert ([row] + rest)[1..] == rest;
  }

  lemma WithoutOneMore(row: DataRow, rest: seq<DataRow>, ids: set<int>)
    ensures Without([row] + rest, ids) == (if row.dataid in ids then [] else [row]) + Without(rest, ids)
  {
    assert ([row] + rest)[1..] == rest;
  }

  lemma DeleteOneMore(row: DataRow, rest: seq<DataRow>, sessionid: string, ids: set<int>)
    ensures DeleteRows([row] + rest, sessionid, ids) ==
            (if row.sessionid == sessionid && row.dataid in ids then [] else [row]) + DeleteRows(rest, sessionid, ids)
  {
    assert ([row] + rest)[1..] == rest;
  }

  lemma EmptyFirst(rows: seq<DataRow>)
    ensures [] + rows == rows
  {
  }

  /** Rows of other sessions stay, even rows with the same ids. */
  lemma {:induction false} DeleteKeepsOtherSessions(table: seq<DataRow>, sessionid: string, ids: set<int>,
                                                    other: string)
    ensures Of(DeleteRows(table, sessionid, ids), other) ==
            if other == sessionid then Without(Of(table, other), ids) else Of(table, other)
  {
    if table != [] {
      DeleteKeepsOtherSessions(table[1..], sessionid, ids, other);
      DeleteFirstRow(table[0], table[1..], sessionid, ids, other);
      assert table == [table[0]] + table[1..];
    }
  }

  lemma DeleteFirstRow(row: DataRow, rest: seq<DataRow>, sessionid: string, ids: set<int>, other: string)
    requires Of(DeleteRows(rest, sessionid, ids), other) ==
             if other == sessionid then Without(Of(rest, other), ids) else Of(rest, other)
    ensures
      var table := [row] + rest;
      Of(DeleteRows(table, sessionid, ids), other) ==
      if other == sessionid then Without(Of(table, other), ids) else Of(table, other)
  {
    var left := DeleteRows(rest, sessionid, ids);
    DeleteOneMore(row, rest, sessionid, ids);
    OfOneMore(row, rest, other);
    if row.sessionid == sessionid && row.dataid in ids {
      EmptyFirst(left);
    } else {
      OfOneMore(row, left, other);
    }
    if row.sessionid == other {
      WithoutOneMore(row, Of(rest, other), ids);
      EmptyFirst(Without(Of(rest, other), ids));
    } else {
      EmptyFirst(Of(rest, other));
      EmptyFirst(Of(left, other));
    }
  }

  lemma {:induction false} DeletedAreCovered(sessions: seq<string>, table: seq<DataRow>, sessionid: string,
                                             ids: set<int>)
    requires Covers(sessions, table)
    ensures Covers(sessions, DeleteRows(table, sessionid, ids))
  {
    if table != [] {
      assert forall i | 0 <= i < |table[1..]| :: table[1..][i] == table[i + 1];
      DeletedAreCovered(sessions, table[1..], sessionid, ids);
    }
  }

  class AgentDatabase {
    var sessions: map<string, SessionRow.Row>
    var data: seq<DataRow>
    /** The sessions that have rows, in the order in which a query lists them. */
    var order: seq<string>
    const usage: RecordedUsage.TurnContextUsage

    ghost predicate Valid()
      reads this
    {
      Distinct(order) && Covers(order, data)
    }

    constructor ()
      ensures Valid() && sessions == map[] && data == []
      ensures fresh(usage)
    {
      sessions, order, data := map[], [], [];
      usage := new RecordedUsage.TurnContextUsage();
    }

    method DeleteSessionTurn(sessionid: string, inputDataId: int, runtimePhase: Option<string>, weigh: DataRow -> nat)
      returns (outcome: Outcome)
      requires Valid()
      modifies this`data, usage
      ensures Valid()
      ensures
        var range := TurnRange(Of(old(data), sessionid), inputDataId);
        outcome ==
        if sessionid !in sessions then NoSuchTurn
        else if !SessionRow.HistoryMayChange(sessions[sessionid], runtimePhase) then Refused
        else if range.None? then NoSuchTurn
        else Deleted(range.value)
      ensures !outcome.Deleted? ==> data == old(data) && usage.stats == old(usage.stats)
      ensures outcome.Deleted? ==>
                && Of(data, sessionid) == Without(Of(old(data), sessionid), Ids(outcome.rows))
                && (forall other | other != sessionid :: Of(data, other) == Of(old(data), other))
                && usage.stats == Some(StatsOf(Users(data), AfterFirstUser(data, {}, weigh)))
    {
      if sessionid !in sessions {
        return NoSuchTurn;
      }
      if !SessionRow.HistoryMayChange(sessions[sessionid], runtimePhase) {
        return Refused;
      }
      var range := TurnRange(Of(data, sessionid), inputDataId);
      if range.None? {
        return NoSuchTurn;
      }
      var ids := Ids(range.value);
      forall other: string
        ensures Of(DeleteRows(data, sessionid, ids), other) ==
                if other == sessionid then Without(Of(data, other), ids) else Of(data, other)
      {
        DeleteKeepsOtherSessions(data, sessionid, ids, other);
      }
      DeletedAreCovered(order, data, sessionid, ids);
      data := DeleteRows(data, sessionid, ids);
      usage.Rebuild(BySession(data, order), weigh);
      RebuildCountsAfterFirstUser(data, order, weigh);
      RebuildCountsUsers(data, order);
      return Deleted(range.value);
    }
  }
}
