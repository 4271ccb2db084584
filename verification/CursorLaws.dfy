/** What the self-check keeps over all its runs, those that stop half-way included: which rows are
    never missed, and exactly which commits break that. */
module CursorLaws {
  import opened JsText
  import opened CursorScan

  /** The candidates a single scan up to the cursor gives, whatever the order of the commits. */
  ghost function ScanTo(s: State): set<Key> {
    set r, k | r in s.rows && r.relevant && r.id <= s.cursor && k in r.keys :: k
  }

  /** The candidates of the rows that lie beyond the cursor. */
  ghost function KeysLeft(s: State): set<Key> {
    set r, k | r in s.rows && r.relevant && r.id > s.cursor && k in r.keys :: k
  }

  ghost function ScanAll(s: State): set<Key> {
    set r, k | r in s.rows && r.relevant && k in r.keys :: k
  }

  lemma ScanAllSplits(s: State)
    ensures ScanAll(s) == ScanTo(s) + KeysLeft(s)
  {
  }

  ghost function KeySet(rows: seq<Row>): set<Key> {
    set k | k in KeysOf(rows)
  }

  lemma {:induction false} KeySetIs(rows: seq<Row>)
    ensures KeySet(rows) == set r, k | r in rows && k in r.keys :: k
  {
    if rows != [] {
      KeySetIs(rows[1..]);
      assert rows == [rows[0]] + rows[1..];
      assert forall k :: k in KeysOf(rows) <==> k in rows[0].keys || k in KeySet(rows[1..]);
      assert forall r :: r in rows <==> r == rows[0] || r in rows[1..];
    }
  }

  function Seen(rows: seq<Row>, cursor: nat): seq<Row> {
    if rows == [] then []
    else (if rows[0].id <= cursor then [rows[0]] else []) + Seen(rows[1..], cursor)
  }

  ghost predicate InOrder(rows: seq<Row>) {
    forall i, j | 0 <= i < j < |rows| :: rows[i].id < rows[j].id
  }

  // ----- rows before and after the cursor ------------------------------------------------

  /** Where an ordered list crosses the cursor. */
  ghost predicate Crosses(rows: seq<Row>, cursor: nat, p: nat) {
    && p <= |rows|
    && (forall i | 0 <= i < p :: rows[i].id <= cursor)
    && (forall i | p <= i < |rows| :: rows[i].id > cursor)
  }

  lemma {:induction false} SplitAtCursor(rows: seq<Row>, cursor: nat, p: nat)
    requires Crosses(rows, cursor, p)
    ensures Seen(rows, cursor) == rows[..p] && Beyond(rows, cursor) == rows[p..]
  {
    if rows != [] {
      if p > 0 {
        SplitAtCursor(rows[1..], cursor, p - 1);
        assert rows[..p] == [rows[0]] + rows[1..][..p - 1];
      } else {
        SplitAtCursor(rows[1..], cursor, 0);
        assert rows[0..] == rows && rows[1..][0..] == rows[1..];
        assert rows == [rows[0]] + rows[1..];
      }
    }
  }

  lemma {:induction false} Crossing(rows: seq<Row>, cursor: nat) returns (p: nat)
    requires InOrder(rows)
    ensures Crosses(rows, cursor, p)
  {
    p := 0;
    while p < |rows| && rows[p].id <= cursor
      invariant p <= |rows|
      invariant forall i | 0 <= i < p :: rows[i].id <= cursor
    {
      p := p + 1;
    }
  }

  /** No two rows have the same id. */
  ghost predicate UniqueRows(rows: seq<Row>) {
    forall i, j | 0 <= i < j < |rows| :: rows[i].id != rows[j].id
  }

  ghost predicate IsNew(rows: seq<Row>, row: Row) {
    forall r | r in rows :: r.id != row.id
  }

  lemma {:induction false} InsertedInOrder(rows: seq<Row>, row: Row)
    requires InOrder(rows) && IsNew(rows, row)
    ensures InOrder(InsertedById(rows, row))
    ensures forall r :: r in InsertedById(rows, row) <==> r in rows || r == row
  {
    if rows != [] && row.id > rows[0].id {
      InsertedInOrder(rows[1..], row);
      var rest := InsertedById(rows[1..], row);
      forall i | 0 <= i < |rest| ensures rows[0].id < rest[i].id {
        assert rest[i] in rest;
      }
      assert rows == [rows[0]] + rows[1..];
    } else {
      assert rows != [] ==> row.id != rows[0].id by {
        if rows != [] { assert rows[0] in rows; }
      }
      assert InsertedById(rows, row) == [row] + rows;
    }
  }

  lemma {:induction false} ScanIsInOrder(rows: seq<Row>)
    requires UniqueRows(rows)
    ensures InOrder(Scan(rows))
    ensures forall r :: r in Scan(rows) <==> r in rows && r.relevant
    decreases |rows|
  {
    if rows != [] {
      var last := |rows| - 1;
      var before := rows[..last];
      ScanIsInOrder(before);
      assert rows == before + [rows[last]];
      if rows[last].relevant {
        forall r | r in Scan(before) ensures r.id != rows[last].id {
          assert r in before;
        }
        InsertedInOrder(Scan(before), rows[last]);
      }
    }
  }

  lemma UpsertNames(candidates: seq<Candidate>, key: Key)
    ensures Names(Upserted(candidates, key)) == Names(candidates) + {key}
  {
    if key !in Names(candidates) {
      var more := Upserted(candidates, key);
      forall k ensures k in Names(more) <==> k in Names(candidates) || k == key {
        if k in Names(candidates) {
          var i :| 0 <= i < |candidates| && candidates[i].key == k;
          assert more[i].key == k;
        }
        assert more[|candidates|].key == key;
      }
    }
  }

  lemma {:induction false} UpsertAllNames(candidates: seq<Candidate>, keys: seq<Key>)
    ensures Names(UpsertedAll(candidates, keys)) == Names(candidates) + (set k | k in keys)
    decreases |keys|
  {
    if keys != [] {
      UpsertNames(candidates, keys[0]);
      UpsertAllNames(Upserted(candidates, keys[0]), keys[1..]);
      assert (set k | k in keys) == {keys[0]} + (set k | k in keys[1..]);
    }
  }

  lemma CrossesFurther(rows: seq<Row>, p: nat)
    requires InOrder(rows) && 0 < p <= |rows|
    ensures Crosses(rows, rows[p - 1].id, p)
  {
  }

  lemma SlicesMeet<T>(s: seq<T>, p: nat, n: nat)
    requires p + n <= |s|
    ensures s[..p + n] == s[..p] + s[p..][..n] && s[p..] == s[p..][..n] + s[p + n..]
  {
  }

  /** The first `n` rows of an ordered list beyond the cursor, when the cursor is moved to the last of them. */
  lemma CursorOverRows(all: seq<Row>, cursor: nat, n: nat)
    requires InOrder(all) && n <= |Beyond(all, cursor)|
    ensures
      var batch := Beyond(all, cursor)[..n];
      var next := if n == 0 then cursor else batch[n - 1].id;
      && cursor <= next
      && Seen(all, next) == Seen(all, cursor) + batch && Beyond(all, cursor) == batch + Beyond(all, next)
  {
    var p := Crossing(all, cursor);
    SplitAtCursor(all, cursor, p);
    SlicesMeet(all, p, n);
    if n > 0 {
      assert all[p..][n - 1] == all[p + n - 1];
      CrossesFurther(all, p + n);
      SplitAtCursor(all, all[p + n - 1].id, p + n);
    }
  }

  /** A finished batch takes the rows up to the new cursor off the front of those beyond the old one. */
  lemma BatchMovesCursor(s: State, size: nat)
    requires UniqueRows(s.rows)
    ensures
      var all, batch, s' := Scan(s.rows), Batch(s, size), Extracted(s, size);
      && s.cursor <= s'.cursor
      && Seen(all, s'.cursor) == Seen(all, s.cursor) + batch
      && Beyond(all, s.cursor) == batch + Beyond(all, s'.cursor)
      && |batch| == if size < |Beyond(all, s.cursor)| then size else |Beyond(all, s.cursor)|
  {
    ScanIsInOrder(s.rows);
    var found := Beyond(Scan(s.rows), s.cursor);
    assert found[..|found|] == found;
    CursorOverRows(Scan(s.rows), s.cursor, |Batch(s, size)|);
  }

  lemma {:induction false} SidesOfCursor(rows: seq<Row>, cursor: nat)
    ensures forall r :: r in Seen(rows, cursor) <==> r in rows && r.id <= cursor
    ensures forall r :: r in Beyond(rows, cursor) <==> r in rows && r.id > cursor
  {
    if rows != [] {
      SidesOfCursor(rows[1..], cursor);
      assert rows == [rows[0]] + rows[1..];
    }
  }

  lemma BetweenCursors(all: seq<Row>, batch: seq<Row>, c: nat, c': nat)
    requires Seen(all, c') == Seen(all, c) + batch && Beyond(all, c) == batch + Beyond(all, c')
    ensures forall r :: r in batch <==> r in all && c < r.id <= c'
  {
    SidesOfCursor(all, c);
    SidesOfCursor(all, c');
    forall r ensures r in batch <==> r in all && c < r.id <= c' {
      if r in batch {
        assert r in Seen(all, c') && r in Beyond(all, c);
      }
      if r in all && c < r.id <= c' {
        assert r in batch + Beyond(all, c');
      }
    }
  }

  lemma KeysBetween(s: State, c': nat, batch: seq<Row>)
    requires s.cursor <= c'
    requires forall r :: r in batch <==> r in s.rows && r.relevant && s.cursor < r.id <= c'
    ensures
      var s' := s.(cursor := c');
      ScanTo(s') == ScanTo(s) + KeySet(batch) && KeysLeft(s) == KeysLeft(s') + KeySet(batch)
  {
    KeySetIs(batch);
  }

  /** So its rows are those from the old cursor to the new one. */
  lemma BatchIsBetween(s: State, size: nat)
    requires UniqueRows(s.rows)
    ensures
      var batch, s' := Batch(s, size), Extracted(s, size);
      && (forall r :: r in batch <==> r in s.rows && r.relevant && s.cursor < r.id <= s'.cursor)
      && ScanTo(s') == ScanTo(s) + KeySet(batch) && KeysLeft(s) == KeysLeft(s') + KeySet(batch)
  {
    var all, batch, s' := Scan(s.rows), Batch(s, size), Extracted(s, size);
    BatchMovesCursor(s, size);
    ScanIsInOrder(s.rows);
    BetweenCursors(all, batch, s.cursor, s'.cursor);
    KeysBetween(s, s'.cursor, batch);
    SameCursor(s', s.(cursor := s'.cursor));
  }

  lemma SameCursor(s: State, t: State)
    requires s.rows == t.rows && s.cursor == t.cursor
    ensures ScanTo(s) == ScanTo(t) && KeysLeft(s) == KeysLeft(t)
  {
  }

  /** Each finished run takes a whole batch off what is left. */
  lemma RunsCatchUp(s: State, size: nat)
    requires UniqueRows(s.rows)
    ensures
      var left := |Beyond(Scan(s.rows), s.cursor)|;
      |Beyond(Scan(s.rows), Extracted(s, size).cursor)| == if size < left then left - size else 0
  {
    BatchMovesCursor(s, size);
  }

  lemma {:induction false} AnalysisKeepsNames(candidates: seq<Candidate>, limit: nat, verdicts: seq<Verdict>)
    ensures |AnalyzedRun(candidates, limit, verdicts)| == |candidates|
    ensures forall i | 0 <= i < |candidates| :: AnalyzedRun(candidates, limit, verdicts)[i].key == candidates[i].key
    ensures Names(AnalyzedRun(candidates, limit, verdicts)) == Names(candidates)
    decreases |candidates|
  {
    if candidates != [] {
      var c := candidates[0];
      if Eligible(c) && limit > 0 && verdicts != [] {
        AnalysisKeepsNames(candidates[1..], limit - 1, verdicts[1..]);
      } else {
        AnalysisKeepsNames(candidates[1..], limit, verdicts);
      }
    }
  }

  // ----- one step ------------------------------------------------------------------------

  /** The table gives every row an id of its own. */
  ghost predicate Enabled(s: State, step: Step) {
    step.Commit? ==> IsNew(s.rows, step.row)
  }

  ghost predicate Sound(s: State) { UniqueRows(s.rows) }

  /** Every candidate has a row it could come from. */
  ghost predicate FromRows(s: State) { Names(s.candidates) <= ScanAll(s) }

  /** Every key is a candidate or will be met. */
  ghost predicate Covered(s: State) {
    ScanAll(s) <= Names(s.candidates) + KeysLeft(s)
  }

  /** The candidates hold those of a scan up to the cursor. */
  ghost predicate Scanned(s: State) { ScanTo(s) <= Names(s.candidates) }

  /** The candidates are those of a scan up to the cursor. */
  ghost predicate Exact(s: State) { ScanTo(s) == Names(s.candidates) }

  /** A relevant row is committed at or below the cursor, with a key no candidate has. */
  ghost predicate Late(s: State, step: Step) {
    && step.Commit? && step.row.relevant && step.row.id <= s.cursor
    && exists k :: k in step.row.keys && k !in Names(s.candidates)
  }

  /** A relevant row is committed at or below the cursor, with a key that neither a candidate has nor
      a row beyond the cursor brings; or all rows beyond the cursor that bring a key are deleted, and a
      row that has it stays behind, without a candidate. */
  ghost predicate Hides(s: State, step: Step) {
    match step
    case Commit(row) =>
      && row.relevant && row.id <= s.cursor
      && exists k :: k in row.keys && k !in Names(s.candidates) && k !in KeysLeft(s)
    case Delete(ids) =>
      exists r, k :: r in s.rows && StaysBehind(s, ids, r) && k in r.keys && k !in Names(s.candidates)
                     && AllDeleted(s, ids, k)
    case _ => false
  }

  predicate StaysBehind(s: State, ids: set<nat>, r: Row) {
    r.relevant && r.id <= s.cursor && r.id !in ids
  }

  /** Every row beyond the cursor that brings the key is deleted. */
  ghost predicate AllDeleted(s: State, ids: set<nat>, k: Key) {
    forall r | r in s.rows && r.relevant && r.id > s.cursor && k in r.keys :: r.id in ids
  }

  /** All rows that bring the key of a candidate are deleted. */
  ghost predicate Orphans(s: State, step: Step) {
    && step.Delete?
    && exists k :: k in Names(s.candidates)
                   && forall r | r in s.rows && r.relevant && k in r.keys :: r.id in step.ids
  }

  /** All rows up to the cursor that bring the key of a candidate are deleted. */
  ghost predicate Unseats(s: State, step: Step) {
    && step.Delete?
    && exists k :: k in Names(s.candidates)
                   && forall r | r in s.rows && r.relevant && r.id <= s.cursor && k in r.keys :: r.id in step.ids
  }

  /** A run stops half-way after making a new candidate. */
  predicate RunsAhead(s: State, step: Step) {
    step.ExtractAndStop? && exists k :: k in UpsertedBy(s, step) && k !in Names(s.candidates)
  }

  function UpsertedBy(s: State, step: Step): seq<Key>
    requires step.ExtractAndStop?
  {
    var keys := KeysOf(Batch(s, step.size));
    if step.upserts < |keys| then keys[..step.upserts] else keys
  }

  lemma CommitAdds(s: State, row: Row)
    ensures
      var s', keys := Next(s, Commit(row)), set k | k in row.keys;
      && ScanAll(s') == ScanAll(s) + (if row.relevant then keys else {})
      && ScanTo(s') == ScanTo(s) + (if row.relevant && row.id <= s.cursor then keys else {})
      && KeysLeft(s') == KeysLeft(s) + (if row.relevant && row.id > s.cursor then keys else {})
  {
    var s' := Next(s, Commit(row));
    assert forall r :: r in s'.rows <==> r in s.rows || r == row;
  }

  lemma {:induction false} WithoutMembers(rows: seq<Row>, ids: set<nat>)
    ensures forall r :: r in Without(rows, ids) <==> r in rows && r.id !in ids
    ensures UniqueRows(rows) ==> UniqueRows(Without(rows, ids))
  {
    if rows != [] {
      WithoutMembers(rows[1..], ids);
      var rest := Without(rows[1..], ids);
      assert rows == [rows[0]] + rows[1..];
      if UniqueRows(rows) {
        forall i | 0 <= i < |rest| ensures rest[i].id != rows[0].id {
          assert rest[i] in rows[1..];
        }
      }
    }
  }

  /** A deletion takes away exactly the keys whose rows it takes. */
  lemma DeleteTakes(s: State, ids: set<nat>)
    ensures
      var s' := Next(s, Delete(ids));
      && ScanAll(s') == (set r, k | r in s.rows && r.relevant && r.id !in ids && k in r.keys :: k)
      && ScanTo(s') == (set r, k | r in s.rows && StaysBehind(s, ids, r) && k in r.keys :: k)
      && KeysLeft(s') == (set r, k | r in s.rows && r.relevant && r.id > s.cursor && r.id !in ids && k in r.keys :: k)
      && ScanAll(s') <= ScanAll(s) && ScanTo(s') <= ScanTo(s)
  {
    WithoutMembers(s.rows, ids);
  }

  lemma ExtractAdds(s: State, size: nat)
    requires UniqueRows(s.rows)
    ensures
      var s' := Extracted(s, size);
      && s.cursor <= s'.cursor && ScanAll(s') == ScanAll(s)
      && Names(s'.candidates) == Names(s.candidates) + KeySet(Batch(s, size))
      && KeySet(Batch(s, size)) <= ScanAll(s)
  {
    BatchIsBetween(s, size);
    BatchMovesCursor(s, size);
    UpsertAllNames(s.candidates, KeysOf(Batch(s, size)));
    ScanAllSplits(s);
  }

  lemma StopAdds(s: State, step: Step)
    requires UniqueRows(s.rows) && step.ExtractAndStop?
    ensures
      var s' := Next(s, step);
      && Names(s'.candidates) == Names(s.candidates) + (set k | k in UpsertedBy(s, step))
      && (set k | k in UpsertedBy(s, step)) <= ScanAll(s)
  {
    ExtractAdds(s, step.size);
    UpsertAllNames(s.candidates, UpsertedBy(s, step));
    assert forall k | k in UpsertedBy(s, step) :: k in KeySet(Batch(s, step.size));
  }

  /** Ids stay unique, and the cursor only moves forward. */
  lemma StepKeepsSound(s: State, step: Step)
    requires Sound(s) && Enabled(s, step)
    ensures Sound(Next(s, step)) && s.cursor <= Next(s, step).cursor
  {
    match step
    case Commit(row) =>
      forall i | 0 <= i < |s.rows| ensures s.rows[i].id != row.id {
        assert s.rows[i] in s.rows;
      }
    case Delete(ids) => WithoutMembers(s.rows, ids);
    case Extract(size) => ExtractAdds(s, size);
    case ExtractAndStop(_, _) =>
    case Analyze(_, _) =>
  }

  /** A candidate loses its last row exactly when a deletion takes it. */
  lemma StepKeepsFromRows(s: State, step: Step)
    requires Sound(s) && Enabled(s, step) && FromRows(s)
    ensures FromRows(Next(s, step)) <==> !Orphans(s, step)
  {
    match step
    case Commit(row) => CommitAdds(s, row);
    case Delete(ids) => DeleteFromRows(s, ids);
    case Extract(size) => ExtractAdds(s, size);
    case ExtractAndStop(_, _) => StopAdds(s, step);
    case Analyze(limit, verdicts) => AnalysisKeepsNames(s.candidates, limit, verdicts);
  }

  lemma DeleteFromRows(s: State, ids: set<nat>)
    requires FromRows(s)
    ensures FromRows(Next(s, Delete(ids))) <==> !Orphans(s, Delete(ids))
  {
    var s' := Next(s, Delete(ids));
    DeleteTakes(s, ids);
    forall k | k in Names(s.candidates)
      ensures k in ScanAll(s') <==> !forall r | r in s.rows && r.relevant && k in r.keys :: r.id in ids
    {
    }
  }

  lemma CommitCovered(s: State, row: Row)
    requires Covered(s)
    ensures Covered(Next(s, Commit(row))) <==> !Hides(s, Commit(row))
  {
    var s' := Next(s, Commit(row));
    CommitAdds(s, row);
    if Hides(s, Commit(row)) {
      var k :| k in row.keys && k !in Names(s.candidates) && k !in KeysLeft(s);
      assert k in ScanAll(s') && k !in Names(s'.candidates) + KeysLeft(s');
    } else {
      forall k | k in ScanAll(s') ensures k in Names(s'.candidates) + KeysLeft(s') {
        if k in ScanAll(s) { assert k in Names(s.candidates) + KeysLeft(s); }
      }
    }
  }

  lemma DeleteCovered(s: State, ids: set<nat>)
    requires Covered(s)
    ensures Covered(Next(s, Delete(ids))) <==> !Hides(s, Delete(ids))
  {
    var s' := Next(s, Delete(ids));
    DeleteTakes(s, ids);
    ScanAllSplits(s');
    if Hides(s, Delete(ids)) {
      var r, k :| r in s.rows && StaysBehind(s, ids, r) && k in r.keys && k !in Names(s.candidates)
                  && AllDeleted(s, ids, k);
      assert k in ScanTo(s') && k !in KeysLeft(s');
    } else {
      forall k | k in ScanAll(s') ensures k in Names(s'.candidates) + KeysLeft(s') {
        if k in ScanTo(s') && k !in Names(s.candidates) {
          var r :| r in s.rows && StaysBehind(s, ids, r) && k in r.keys;
          assert !AllDeleted(s, ids, k);
        }
      }
    }
  }

  /** A step puts a key out of reach for good exactly when it hides it. */
  lemma StepKeepsCovered(s: State, step: Step)
    requires Sound(s) && Enabled(s, step) && Covered(s)
    ensures Covered(Next(s, step)) <==> !Hides(s, step)
  {
    match step
    case Commit(row) => CommitCovered(s, row);
    case Delete(ids) => DeleteCovered(s, ids);
    case Extract(size) =>
      ExtractAdds(s, size);
      BatchIsBetween(s, size);
    case ExtractAndStop(_, _) => StopAdds(s, step);
    case Analyze(limit, verdicts) => AnalysisKeepsNames(s.candidates, limit, verdicts);
  }

  /** The candidates keep up with the cursor exactly until a row is committed late. */
  lemma StepKeepsScanned(s: State, step: Step)
    requires Sound(s) && Enabled(s, step) && Scanned(s)
    ensures Scanned(Next(s, step)) <==> !Late(s, step)
  {
    match step
    case Commit(row) => CommitAdds(s, row);
    case Delete(ids) => DeleteTakes(s, ids);
    case Extract(size) =>
      ExtractAdds(s, size);
      BatchIsBetween(s, size);
    case ExtractAndStop(_, _) => StopAdds(s, step);
    case Analyze(limit, verdicts) => AnalysisKeepsNames(s.candidates, limit, verdicts);
  }

  lemma DeleteExact(s: State, ids: set<nat>)
    requires Exact(s)
    ensures Exact(Next(s, Delete(ids))) <==> !Unseats(s, Delete(ids))
  {
    var s' := Next(s, Delete(ids));
    DeleteTakes(s, ids);
    forall k | k in Names(s.candidates)
      ensures k in ScanTo(s') <==>
              !forall r | r in s.rows && r.relevant && r.id <= s.cursor && k in r.keys :: r.id in ids
    {
    }
  }

  /** They are those of a scan up to it exactly until that happens, a run stops half-way, or the rows of
      a candidate are deleted. */
  lemma StepKeepsExact(s: State, step: Step)
    requires Sound(s) && Enabled(s, step) && Exact(s)
    ensures Exact(Next(s, step)) <==> !Late(s, step) && !RunsAhead(s, step) && !Unseats(s, step)
  {
    match step
    case Commit(row) => CommitAdds(s, row);
    case Delete(ids) => DeleteExact(s, ids);
    case Extract(size) =>
      ExtractAdds(s, size);
      BatchIsBetween(s, size);
    case ExtractAndStop(_, _) => StopAdds(s, step);
    case Analyze(limit, verdicts) => AnalysisKeepsNames(s.candidates, limit, verdicts);
  }

  // ----- every run -----------------------------------------------------------------------

  ghost predicate Runs(s: State, steps: seq<Step>)
    decreases |steps|
  {
    steps == [] || (Enabled(s, steps[0]) && Runs(Next(s, steps[0]), steps[1..]))
  }

  ghost predicate NothingHidden(s: State, steps: seq<Step>)
    decreases |steps|
  {
    steps == [] || (!Hides(s, steps[0]) && NothingHidden(Next(s, steps[0]), steps[1..]))
  }

  ghost predicate NothingLate(s: State, steps: seq<Step>)
    decreases |steps|
  {
    steps == [] || (!Late(s, steps[0]) && NothingLate(Next(s, steps[0]), steps[1..]))
  }

  /** No run stops ahead, and no deletion takes the rows of a candidate. */
  ghost predicate NothingParted(s: State, steps: seq<Step>)
    decreases |steps|
  {
    steps == [] ||
    (!RunsAhead(s, steps[0]) && !Unseats(s, steps[0]) && NothingParted(Next(s, steps[0]), steps[1..]))
  }

  ghost predicate NothingOrphaned(s: State, steps: seq<Step>)
    decreases |steps|
  {
    steps == [] || (!Orphans(s, steps[0]) && NothingOrphaned(Next(s, steps[0]), steps[1..]))
  }

  ghost predicate CoveredThroughout(s: State, steps: seq<Step>)
    decreases |steps|
  {
    Covered(s) && (steps == [] || CoveredThroughout(Next(s, steps[0]), steps[1..]))
  }

  /** Over every sequence of runs the cursor only moves forward; the candidates hold those of a scan
      up to the cursor while no row comes late, and are those of it while no run stops ahead and no
      deletion takes their rows either; and they come from rows while no deletion takes the last. */
  lemma {:induction false} RunsKeep(s: State, steps: seq<Step>)
    requires Sound(s) && Runs(s, steps)
    ensures Sound(RunAll(s, steps)) && s.cursor <= RunAll(s, steps).cursor
    ensures Scanned(s) && NothingLate(s, steps) ==> Scanned(RunAll(s, steps))
    ensures Exact(s) && NothingLate(s, steps) && NothingParted(s, steps) ==> Exact(RunAll(s, steps))
    ensures FromRows(s) && NothingOrphaned(s, steps) ==> FromRows(RunAll(s, steps))
    decreases |steps|
  {
    if steps != [] {
      StepKeepsSound(s, steps[0]);
      if Scanned(s) { StepKeepsScanned(s, steps[0]); }
      if Exact(s) { StepKeepsExact(s, steps[0]); }
      if FromRows(s) { StepKeepsFromRows(s, steps[0]); }
      RunsKeep(Next(s, steps[0]), steps[1..]);
    }
  }

  /** No key is ever out of reach exactly when no step of the run hides one. */
  lemma {:induction false} RunsKeepCovered(s: State, steps: seq<Step>)
    requires Sound(s) && Runs(s, steps) && Covered(s)
    ensures CoveredThroughout(s, steps) <==> NothingHidden(s, steps)
    ensures NothingHidden(s, steps) ==> Covered(RunAll(s, steps))
    decreases |steps|
  {
    if steps != [] {
      StepKeepsSound(s, steps[0]);
      StepKeepsCovered(s, steps[0]);
      if Covered(Next(s, steps[0])) {
        RunsKeepCovered(Next(s, steps[0]), steps[1..]);
      }
    }
  }

  /** Once no key lies beyond the cursor, the candidates hold those of one scan of everything, in
      whatever order rows were committed and whatever runs stopped, unless a step hid a key; and they
      are those of that scan, unless a deletion took the last row of one. */
  lemma CaughtUp(steps: seq<Step>)
    requires Runs(START, steps) && NothingHidden(START, steps) && KeysLeft(RunAll(START, steps)) == {}
    ensures ScanAll(RunAll(START, steps)) <= Names(RunAll(START, steps).candidates)
    ensures NothingOrphaned(START, steps) ==> ScanAll(RunAll(START, steps)) == Names(RunAll(START, steps).candidates)
  {
    RunsKeep(START, steps);
    RunsKeepCovered(START, steps);
  }

  // ----- rows committed in the order of their ids ----------------------------------------

  /** Every commit has an id above all ids committed before, of which `top` is the highest. */
  predicate CommitsInOrder(steps: seq<Step>, top: nat)
    decreases |steps|
  {
    steps == [] ||
    if steps[0].Commit? then steps[0].row.id > top && CommitsInOrder(steps[1..], steps[0].row.id)
    else CommitsInOrder(steps[1..], top)
  }

  ghost predicate UpTo(s: State, top: nat) {
    s.cursor <= top && forall r | r in s.rows :: r.id <= top
  }

  lemma StepKeepsUpTo(s: State, step: Step, top: nat)
    requires Sound(s) && Enabled(s, step) && UpTo(s, top) && (step.Commit? ==> step.row.id > top)
    ensures UpTo(Next(s, step), if step.Commit? then step.row.id else top)
  {
    if step.Extract? {
      BatchIsBetween(s, step.size);
      var batch := Batch(s, step.size);
      if batch != [] {
        assert batch[|batch| - 1] in batch;
      }
    } else if step.Delete? {
      WithoutMembers(s.rows, step.ids);
    }
  }

  /** Rows committed in the order of their ids are never late, whatever is deleted in between. */
  lemma {:induction false} OrderedIsNeverLate(s: State, steps: seq<Step>, top: nat)
    requires Sound(s) && UpTo(s, top) && CommitsInOrder(steps, top)
    ensures Runs(s, steps) && NothingLate(s, steps)
    decreases |steps|
  {
    if steps != [] {
      StepKeepsSound(s, steps[0]);
      StepKeepsUpTo(s, steps[0], top);
      OrderedIsNeverLate(Next(s, steps[0]), steps[1..], if steps[0].Commit? then steps[0].row.id else top);
    }
  }

  // ----- attempts ------------------------------------------------------------------------

  ghost predicate Bounded(candidates: seq<Candidate>) {
    forall i | 0 <= i < |candidates| :: candidates[i].attempts <= MAX_ATTEMPTS
  }

  function Number(verdicts: seq<Verdict>, which: Verdict -> bool): nat {
    if verdicts == [] then 0 else (if which(verdicts[0]) then 1 else 0) + Number(verdicts[1..], which)
  }

  lemma {:induction false} NumberOneMore(done: seq<Verdict>, v: Verdict, which: Verdict -> bool)
    ensures Number(done + [v], which) == Number(done, which) + if which(v) then 1 else 0
  {
    if done == [] {
      assert done + [v] == [v] && [v][1..] == [];
    } else {
      assert (done + [v])[1..] == done[1..] + [v];
      NumberOneMore(done[1..], v, which);
    }
  }

  /** The tally of a run: answers that could be read, checks that are new, and checks known before. */
  lemma {:induction false} TallyCounts(verdicts: seq<Verdict>)
    ensures
      var t := Counted(verdicts);
      && t.analyses == Number(verdicts, (v: Verdict) => !v.NoAnswer? && v != Faulty(false))
      && t.created == Number(verdicts, (v: Verdict) => v == Actionable(true))
      && t.deduped == Number(verdicts, (v: Verdict) => v == Actionable(false))
    decreases |verdicts|
  {
    if verdicts != [] {
      var done, v := verdicts[..|verdicts| - 1], verdicts[|verdicts| - 1];
      assert verdicts == done + [v];
      TallyCounts(done);
      NumberOneMore(done, v, (v: Verdict) => !v.NoAnswer? && v != Faulty(false));
      NumberOneMore(done, v, (v: Verdict) => v == Actionable(true));
      NumberOneMore(done, v, (v: Verdict) => v == Actionable(false));
    }
  }

  /** Still to be analysed, or to be analysed again. */
  predicate Unsettled(c: Candidate) {
    c.attempts < 3 && c.status != Analyzing && c.status != Analyzed && c.status != Skipped
  }

  function UnsettledBefore(candidates: seq<Candidate>, i: nat): nat
    requires i <= |candidates|
  {
    if i == 0 then 0
    else UnsettledBefore(candidates, i - 1) + if Unsettled(candidates[i - 1]) then 1 else 0
  }

  lemma {:induction false} UnsettledBehind(c: Candidate, rest: seq<Candidate>, i: nat)
    requires i <= |rest|
    ensures UnsettledBefore([c] + rest, i + 1) == UnsettledBefore(rest, i) + if Unsettled(c) then 1 else 0
  {
    assert ([c] + rest)[i] == if i == 0 then c else rest[i - 1];
    if i > 0 { UnsettledBehind(c, rest, i - 1); }
  }

  /** The candidate `c` is as its verdict left it. */
  predicate Settled(c: Candidate, c': Candidate, v: Verdict) {
    && c'.key == c.key && c'.attempts == c.attempts + 1
    && (v.NotActionable? <==> c'.status == Skipped)
    && (v.Actionable? <==> c'.status == Analyzed)
    && (v.Faulty? <==> c'.status == Failed)
  }

  /** What a run does to the candidate at each place: the unsettled ones get the verdicts in order, as far
      as the limit and the verdicts go. A skipped or analysed one is settled for good, a failed one is
      tried again, one whose run died with it is not. */
  lemma {:induction false} AnalyzedAt(candidates: seq<Candidate>, limit: nat, verdicts: seq<Verdict>, i: nat)
    requires i < |candidates|
    ensures i < |AnalyzedRun(candidates, limit, verdicts)|
    ensures
      var c, c', k := candidates[i], AnalyzedRun(candidates, limit, verdicts)[i], UnsettledBefore(candidates, i);
      if Unsettled(c) && k < limit && k < |verdicts| then Settled(c, c', verdicts[k]) else c' == c
    decreases |candidates|
  {
    if i > 0 {
      var c, rest := candidates[0], candidates[1..];
      UnsettledFirst(candidates, i);
      if Unsettled(c) && limit > 0 && verdicts != [] {
        AnalyzedAt(rest, limit - 1, verdicts[1..], i - 1);
      } else {
        AnalyzedAt(rest, limit, verdicts, i - 1);
      }
    }
  }

  lemma UnsettledFirst(candidates: seq<Candidate>, i: nat)
    requires 0 < i < |candidates|
    ensures UnsettledBefore(candidates, i) ==
            UnsettledBefore(candidates[1..], i - 1) + if Unsettled(candidates[0]) then 1 else 0
  {
    assert candidates == [candidates[0]] + candidates[1..];
    UnsettledBehind(candidates[0], candidates[1..], i - 1);
  }

  /** A candidate whose analyses fail is tried three times, over three runs, and then no more. */
  lemma FailuresAreRetried(key: Key, a: Verdict, b: Verdict, c: Verdict, d: Verdict)
    requires a.Faulty? && b.Faulty? && c.Faulty?
    ensures
      var one := AnalyzedRun([Candidate(key, Pending, 0)], 1, [a]);
      var two := AnalyzedRun(one, 1, [b]);
      var three := AnalyzedRun(two, 1, [c]);
      three == [Candidate(key, Failed, 3)] && AnalyzedRun(three, 1, [d]) == three
  {
    RunOfOne(Candidate(key, Pending, 0), a);
    RunOfOne(Candidate(key, Failed, 1), b);
    RunOfOne(Candidate(key, Failed, 2), c);
    RunOfOne(Candidate(key, Failed, 3), d);
  }

  lemma RunOfOne(c: Candidate, v: Verdict)
    ensures
      var run := AnalyzedRun([c], 1, [v]);
      |run| == 1 && (Unsettled(c) && v.Faulty? ==> run == [Candidate(c.key, Failed, c.attempts + 1)])
      && (!Unsettled(c) ==> run == [c])
  {
    AnalysisKeepsNames([c], 1, [v]);
    AnalyzedAt([c], 1, [v], 0);
  }

  lemma {:induction false} AnalysisIsBounded(candidates: seq<Candidate>, limit: nat, verdicts: seq<Verdict>)
    requires Bounded(candidates)
    ensures Bounded(AnalyzedRun(candidates, limit, verdicts))
    ensures Attempts(AnalyzedRun(candidates, limit, verdicts)) ==
            Attempts(candidates) + Calls(candidates, limit, verdicts)
    ensures Calls(candidates, limit, verdicts) <= limit
    decreases |candidates|
  {
    if candidates != [] {
      var c := candidates[0];
      assert candidates == [c] + candidates[1..];
      if Eligible(c) && limit > 0 && verdicts != [] {
        AnalysisIsBounded(candidates[1..], limit - 1, verdicts[1..]);
      } else {
        AnalysisIsBounded(candidates[1..], limit, verdicts);
      }
    }
  }

  lemma {:induction false} AttemptsAppend(candidates: seq<Candidate>, c: Candidate)
    ensures Attempts(candidates + [c]) == Attempts(candidates) + c.attempts
  {
    if candidates == [] {
      assert candidates + [c] == [c] && [c][1..] == [];
    } else {
      assert (candidates + [c])[1..] == candidates[1..] + [c];
      AttemptsAppend(candidates[1..], c);
    }
  }

  lemma {:induction false} UpsertKeepsAttempts(candidates: seq<Candidate>, keys: seq<Key>)
    requires Bounded(candidates)
    ensures Bounded(UpsertedAll(candidates, keys)) && Attempts(UpsertedAll(candidates, keys)) == Attempts(candidates)
    ensures |candidates| <= |UpsertedAll(candidates, keys)|
    ensures candidates == UpsertedAll(candidates, keys)[..|candidates|]
    decreases |keys|
  {
    if keys != [] {
      AttemptsAppend(candidates, Candidate(keys[0], Pending, 0));
      UpsertKeepsAttempts(Upserted(candidates, keys[0]), keys[1..]);
    } else {
      assert candidates[..|candidates|] == candidates;
    }
  }

  /** The analyses made over all runs. */
  function AllCalls(s: State, steps: seq<Step>): nat
    decreases |steps|
  {
    if steps == [] then 0
    else
      (match steps[0]
       case Analyze(limit, verdicts) => Calls(s.candidates, limit, verdicts)
       case _ => 0) + AllCalls(Next(s, steps[0]), steps[1..])
  }

  lemma {:induction false} CallsAreAttempts(s: State, steps: seq<Step>)
    requires Bounded(s.candidates)
    ensures Bounded(RunAll(s, steps).candidates)
    ensures Attempts(RunAll(s, steps).candidates) == Attempts(s.candidates) + AllCalls(s, steps)
    decreases |steps|
  {
    if steps != [] {
      match steps[0] {
        case Commit(_) =>
        case Delete(_) =>
        case Extract(size) => UpsertKeepsAttempts(s.candidates, KeysOf(Batch(s, size)));
        case ExtractAndStop(size, n) =>
          var keys := KeysOf(Batch(s, size));
          UpsertKeepsAttempts(s.candidates, if n < |keys| then keys[..n] else keys);
        case Analyze(limit, verdicts) => AnalysisIsBounded(s.candidates, limit, verdicts);
      }
      CallsAreAttempts(Next(s, steps[0]), steps[1..]);
    }
  }

  lemma {:induction false} AttemptsAtMost(candidates: seq<Candidate>)
    requires Bounded(candidates)
    ensures Attempts(candidates) <= MAX_ATTEMPTS * |candidates|
  {
    if candidates != [] { AttemptsAtMost(candidates[1..]); }
  }

  /** Every candidate is analysed at most three times over all runs, repeated extraction included. */
  lemma AnalysesAreBounded(steps: seq<Step>)
    ensures
      var candidates := RunAll(START, steps).candidates;
      Bounded(candidates) && AllCalls(START, steps) <= MAX_ATTEMPTS * |candidates|
  {
    CallsAreAttempts(START, steps);
    AttemptsAtMost(RunAll(START, steps).candidates);
  }

  // ----- a row committed late ------------------------------------------------------------

  ghost predicate OutOfReach(s: State, key: Key) {
    key !in Names(s.candidates) && key !in KeysLeft(s)
  }

  ghost predicate Hidden(s: State, key: Key) {
    key in ScanAll(s) && OutOfReach(s, key)
  }

  /** A key out of reach never becomes a candidate, in any number of runs, unless another row brings it. */
  lemma {:induction false} LateRowIsMissed(s: State, steps: seq<Step>, key: Key)
    requires Sound(s) && Runs(s, steps) && OutOfReach(s, key)
    requires forall i | 0 <= i < |steps| && steps[i].Commit? :: key !in steps[i].row.keys
    ensures OutOfReach(RunAll(s, steps), key)
    decreases |steps|
  {
    if steps != [] {
      var step, s' := steps[0], Next(s, steps[0]);
      StepKeepsSound(s, step);
      match step {
        case Commit(row) => CommitAdds(s, row);
        case Delete(ids) => DeleteTakes(s, ids);
        case Extract(size) =>
          ExtractAdds(s, size);
          BatchIsBetween(s, size);
        case ExtractAndStop(size, n) =>
          StopAdds(s, step);
          BatchIsBetween(s, size);
          assert forall k | k in UpsertedBy(s, step) :: k in KeySet(Batch(s, size));
        case Analyze(limit, verdicts) => AnalysisKeepsNames(s.candidates, limit, verdicts);
      }
      LateRowIsMissed(s', steps[1..], key);
    }
  }

  /** Such a row exists in a state the server can come to when ids commit out of order. */
  lemma LateRowHides(key: Key, other: Key)
    requires key != other
    ensures
      var steps := [Commit(Row(2, true, [other])), Extract(1), Commit(Row(1, true, [key]))];
      Runs(START, steps) && Hidden(RunAll(START, steps), key)
  {
    var late, first := Row(1, true, [key]), Row(2, true, [other]);
    var s1 := State([first], 0, []);
    var s2 := State([first], 2, [Candidate(other, Pending, 0)]);
    var s3 := s2.(rows := [first, late]);
    FirstBatch(first);
    assert [] + [first] == [first] && [first] + [late] == [first, late];
    assert Next(START, Commit(first)) == s1 && Next(s1, Extract(1)) == s2 && Next(s2, Commit(late)) == s3;
    ThreeSteps(START, Commit(first), s1, Extract(1), s2, Commit(late), s3);
    HiddenBelow(s3, late, key);
  }

  lemma HiddenBelow(s: State, late: Row, key: Key)
    requires late in s.rows && late.relevant && key in late.keys
    requires forall r | r in s.rows :: r.id <= s.cursor
    requires forall c | c in s.candidates :: c.key != key
    ensures Hidden(s, key)
  {
    forall i | 0 <= i < |s.candidates| ensures s.candidates[i].key != key {
      assert s.candidates[i] in s.candidates;
    }
  }

  lemma ThreeSteps(s: State, a: Step, s1: State, b: Step, s2: State, c: Step, s3: State)
    requires Enabled(s, a) && Next(s, a) == s1 && Enabled(s1, b) && Next(s1, b) == s2
    requires Enabled(s2, c) && Next(s2, c) == s3
    ensures Runs(s, [a, b, c]) && RunAll(s, [a, b, c]) == s3
  {
    assert [a, b, c][1..] == [b, c] && [b, c][1..] == [c] && [c][1..] == [];
    assert Runs(s2, [c]) && RunAll(s2, [c]) == RunAll(s3, []);
    assert Runs(s1, [b, c]) && RunAll(s1, [b, c]) == s3;
  }

  lemma FirstBatch(first: Row)
    requires first.relevant && first.id > 0 && |first.keys| == 1
    ensures Extracted(State([first], 0, []), 1) == State([first], first.id, [Candidate(first.keys[0], Pending, 0)])
  {
    var s := State([first], 0, []);
    assert [first][..0] == [] && Scan([first]) == [first];
    assert [first][1..] == [] && KeysOf([first]) == first.keys + [] == first.keys;
    assert Beyond([first], 0) == [first];
    assert Batch(s, 1) == [first] && first.keys[1..] == [];
    assert UpsertedAll([], first.keys) == UpsertedAll(Upserted([], first.keys[0]), []);
    assert [] + [Candidate(first.keys[0], Pending, 0)] == [Candidate(first.keys[0], Pending, 0)];
  }
}
