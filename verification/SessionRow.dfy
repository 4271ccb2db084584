/** The running state of a session as its table row keeps it, and the updates the server makes:
    a compare-and-set start, an unconditional end, and the interrupt marks. */
module SessionRow {
  import opened JsText

  type Time = nat

  datatype Row = Row(
    isrunning: bool, turnphase: string,
    interruptrequested: bool, requestedat: Option<Time>, completedat: Option<Time>)

  const IDLE_ROW := Row(false, "idle", false, None, None)

  datatype Failure = AlreadyRunning | NotFound
  datatype Result = Updated(row: Row) | Failed(failure: Failure)

  /** The row after a successful start; a start succeeds only on a row that is not running. */
  function Started(row: Row): Row {
    Row(true, "starting", false, None, None)
  }

  function Ended(row: Row): Row {
    row.(isrunning := false, turnphase := "idle")
  }

  function InPhase(row: Row, phase: string): Row {
    row.(turnphase := phase)
  }

  function InterruptAsked(row: Row, phase: Option<string>, now: Time): Row {
    row.(interruptrequested := true,
         requestedat := if row.requestedat.Some? then row.requestedat else Some(now),
         completedat := None,
         turnphase := if phase.Some? then phase.value else row.turnphase)
  }

  function InterruptDone(row: Row, now: Time): Row {
    row.(isrunning := false, turnphase := "idle", interruptrequested := false, completedat := Some(now))
  }

  /** History may be changed only while nothing runs and no interrupt is under way. */
  predicate HistoryMayChange(row: Row, runtimePhase: Option<string>) {
    !row.isrunning && row.turnphase == "idle" && !row.interruptrequested && runtimePhase.None?
  }

  /** A turn that ends by itself leaves a requested interrupt on the row, and with it history stays
      closed to changes until the interrupt is completed; completing it opens history in any case. */
  lemma HistoryAfterEnd(row: Row, now: Time)
    ensures HistoryMayChange(Ended(row), None) <==> !row.interruptrequested
    ensures HistoryMayChange(InterruptDone(row, now), None)
    ensures !HistoryMayChange(Started(row), None)
  {
  }

  /** The time of the first request stays until the next turn starts, through requests that follow and
      through the completion; a request takes the mark of an earlier completion away. */
  lemma FirstRequestCounts(row: Row, p: Option<string>, first: Time, q: Option<string>, second: Time)
    ensures
      var asked := InterruptAsked(row, p, first);
      && (row.requestedat.None? ==> asked.requestedat == Some(first))
      && InterruptAsked(asked, q, second).requestedat == asked.requestedat
      && InterruptDone(asked, second).requestedat == asked.requestedat
      && Ended(asked).requestedat == asked.requestedat && Started(asked).requestedat.None?
      && asked.interruptrequested && asked.completedat.None? && asked.isrunning == row.isrunning
  {
  }

  class SessionTable {
    var rows: map<string, Row>

    constructor ()
      ensures rows == map[]
    {
      rows := map[];
    }

    method StartTurn(sessionid: string) returns (result: Result)
      modifies this
      ensures sessionid !in old(rows) ==> result == Failed(NotFound) && rows == old(rows)
      ensures sessionid in old(rows) && old(rows)[sessionid].isrunning ==>
                result == Failed(AlreadyRunning) && rows == old(rows)
      ensures sessionid in old(rows) && !old(rows)[sessionid].isrunning ==>
                && result == Updated(Started(old(rows)[sessionid]))
                && rows == old(rows)[sessionid := result.row]
    {
      if sessionid in rows && !rows[sessionid].isrunning {
        rows := rows[sessionid := Row(true, "starting", false, None, None)];
        return Updated(rows[sessionid]);
      }
      if sessionid in rows && rows[sessionid].isrunning {
        return Failed(AlreadyRunning);
      }
      return Failed(NotFound);
    }

    method EndTurn(sessionid: string) returns (result: Result)
      modifies this
      ensures sessionid !in old(rows) ==> result == Failed(NotFound) && rows == old(rows)
      ensures sessionid in old(rows) ==>
                result == Updated(Ended(old(rows)[sessionid])) && rows == old(rows)[sessionid := result.row]
    {
      if sessionid !in rows {
        return Failed(NotFound);
      }
      rows := rows[sessionid := rows[sessionid].(isrunning := false, turnphase := "idle")];
      return Updated(rows[sessionid]);
    }

    method UpdateTurnPhase(sessionid: string, phase: string) returns (result: Result)
      modifies this
      ensures sessionid !in old(rows) ==> result == Failed(NotFound) && rows == old(rows)
      ensures sessionid in old(rows) ==>
                result == Updated(InPhase(old(rows)[sessionid], phase)) && rows == old(rows)[sessionid := result.row]
    {
      if sessionid !in rows {
        return Failed(NotFound);
      }
      rows := rows[sessionid := rows[sessionid].(turnphase := phase)];
      return Updated(rows[sessionid]);
    }

    method RequestInterrupt(sessionid: string, phase: Option<string>, now: Time) returns (result: Result)
      modifies this
      ensures sessionid !in old(rows) ==> result == Failed(NotFound) && rows == old(rows)
      ensures sessionid in old(rows) ==>
                && result == Updated(InterruptAsked(old(rows)[sessionid], phase, now))
                && rows == old(rows)[sessionid := result.row]
    {
      if sessionid !in rows {
        return Failed(NotFound);
      }
      var row := rows[sessionid];
      row := row.(interruptrequested := true, completedat := None);
      if row.requestedat.None? {
        row := row.(requestedat := Some(now));
      }
      if phase.Some? {
        row := row.(turnphase := phase.value);
      }
      rows := rows[sessionid := row];
      return Updated(row);
    }

    method CompleteInterrupt(sessionid: string, now: Time) returns (result: Result)
      modifies this
      ensures sessionid !in old(rows) ==> result == Failed(NotFound) && rows == old(rows)
      ensures sessionid in old(rows) ==>
                && result == Updated(InterruptDone(old(rows)[sessionid], now))
                && rows == old(rows)[sessionid := result.row]
    {
      if sessionid !in rows {
        return Failed(NotFound);
      }
      rows := rows[sessionid := rows[sessionid].(isrunning := false, turnphase := "idle",
                                                 interruptrequested := false, completedat := Some(now))];
      return Updated(rows[sessionid]);
    }
  }
}
