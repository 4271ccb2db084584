/** The self-check: batches of rows past a cursor become candidates, and candidates are analysed a
    bounded number of times. Runs may stop anywhere before the cursor is written. */
module CursorScan {
  import opened JsText

  type Key = string

  /** A stored row: whether the query looks at it, and the candidates it gives. */
  datatype Row = Row(id: nat, relevant: bool, keys: seq<Key>)

  datatype Status = Pending | Analyzing | Analyzed | Skipped | Failed

  /** Candidates are kept in the order of their creation, in which they are analysed. */
  datatype Candidate = Candidate(key: Key, status: Status, attempts: nat)

  datatype State = State(rows: seq<Row>, cursor: nat, candidates: seq<Candidate>)

  const MAX_ATTEMPTS := 3

  // ----- extracting ----------------------------------------------------------------------

  function InsertedById(rows: seq<Row>, row: Row): seq<Row> {
    if rows == [] || row.id < rows[0].id then [row] + rows else [rows[0]] + InsertedById(rows[1..], row)
  }

  /** The rows the query looks at, in the order of their ids; a table holds them as they were committed. */
  function Scan(rows: seq<Row>): seq<Row>
    decreases |rows|
  {
    if rows == [] then []
    else
      var last := |rows| - 1;
      if rows[last].relevant then InsertedById(Scan(rows[..last]), rows[last]) else Scan(rows[..last])
  }

  function Beyond(rows: seq<Row>, cursor: nat): seq<Row> {
    if rows == [] then []
    else (if rows[0].id > cursor then [rows[0]] else []) + Beyond(rows[1..], cursor)
  }

  /** `WHERE dataid > cursor ... ORDER BY dataid LIMIT size` */
  function Batch(s: State, size: nat): seq<Row> {
    var found := Beyond(Scan(s.rows), s.cursor);
    if |found| <= size then found else found[..size]
  }

  function KeysOf(rows: seq<Row>): seq<Key> {
    if rows == [] then [] else rows[0].keys + KeysOf(rows[1..])
  }

  function Names(candidates: seq<Candidate>): set<Key> {
    set i | 0 <= i < |candidates| :: candidates[i].key
  }

  /** `INSERT ... ON CONFLICT DO UPDATE SET updatedat`: a known candidate keeps its status and count. */
  function Upserted(candidates: seq<Candidate>, key: Key): seq<Candidate> {
    if key in Names(candidates) then candidates else candidates + [Candidate(key, Pending, 0)]
  }

  function UpsertedAll(candidates: seq<Candidate>, keys: seq<Key>): seq<Candidate>
    decreases |keys|
  {
    if keys == [] then candidates else UpsertedAll(Upserted(candidates, keys[0]), keys[1..])
  }

  function Extracted(s: State, size: nat): State {
    var batch := Batch(s, size);
    s.(candidates := UpsertedAll(s.candidates, KeysOf(batch)),
       cursor := if batch == [] then s.cursor else batch[|batch| - 1].id)
  }

  /** A run that stops after `n` upserts, before the cursor is written. */
  function Interrupted(s: State, size: nat, n: nat): State {
    var keys := KeysOf(Batch(s, size));
    s.(candidates := UpsertedAll(s.candidates, if n < |keys| then keys[..n] else keys))
  }

  lemma {:induction false} UpsertedConcat(candidates: seq<Candidate>, a: seq<Key>, b: seq<Key>)
    ensures UpsertedAll(candidates, a + b) == UpsertedAll(UpsertedAll(candidates, a), b)
    decreases |a|
  {
    if a == [] {
      assert a + b == b;
    } else {
      assert (a + b)[1..] == a[1..] + b;
      UpsertedConcat(Upserted(candidates, a[0]), a[1..], b);
    }
  }

  // ----- analysing -----------------------------------------------------------------------

  /** How one analysis goes: an answer that is not actionable, or gives a check, which is a new one
      or known; a throw, before or after the answer was read; or the end of the process. */
  datatype Verdict = NotActionable | Actionable(created: bool) | Faulty(parsed: bool) | NoAnswer

  function After(v: Verdict): Status {
    match v
    case NotActionable => Skipped
    case Actionable(_) => Analyzed
    case Faulty(_) => Failed
    case NoAnswer => Analyzing
  }

  predicate Eligible(c: Candidate) {
    (c.status == Pending || c.status == Failed) && c.attempts < MAX_ATTEMPTS
  }

  /** One analysis run: the first `limit` eligible candidates, one verdict each; when the verdicts run
      out the run has died. */
  function AnalyzedRun(candidates: seq<Candidate>, limit: nat, verdicts: seq<Verdict>): seq<Candidate>
    decreases |candidates|
  {
    if candidates == [] then []
    else
      var c := candidates[0];
      if Eligible(c) && limit > 0 && verdicts != [] then
        [c.(status := After(verdicts[0]), attempts := c.attempts + 1)] +
        AnalyzedRun(candidates[1..], limit - 1, verdicts[1..])
      else [c] + AnalyzedRun(candidates[1..], limit, verdicts)
  }

  /** The analyses a run makes. */
  function Calls(candidates: seq<Candidate>, limit: nat, verdicts: seq<Verdict>): nat
    decreases |candidates|
  {
    if candidates == [] then 0
    else if Eligible(candidates[0]) && limit > 0 && verdicts != [] then
      1 + Calls(candidates[1..], limit - 1, verdicts[1..])
    else Calls(candidates[1..], limit, verdicts)
  }

  datatype Tally = Tally(analyses: nat, created: nat, deduped: nat)

  function Plus(t: Tally, v: Verdict): Tally {
    match v
    case NotActionable => t.(analyses := t.analyses + 1)
    case Actionable(created) =>
      if created then t.(analyses := t.analyses + 1, created := t.created + 1)
      else t.(analyses := t.analyses + 1, deduped := t.deduped + 1)
    case Faulty(parsed) => if parsed then t.(analyses := t.analyses + 1) else t
    case NoAnswer => t
  }

  function Counted(verdicts: seq<Verdict>): Tally {
    if verdicts == [] then Tally(0, 0, 0)
    else Plus(Counted(verdicts[..|verdicts| - 1]), verdicts[|verdicts| - 1])
  }

  lemma CountedNext(verdicts: seq<Verdict>, n: nat)
    requires n < |verdicts|
    ensures Counted(verdicts[..n + 1]) == Plus(Counted(verdicts[..n]), verdicts[n])
  {
    assert verdicts[..n + 1][..n] == verdicts[..n];
  }

  function Attempts(candidates: seq<Candidate>): nat {
    if candidates == [] then 0 else candidates[0].attempts + Attempts(candidates[1..])
  }

  class Selfcheck {
    var state: State

    method UpsertCandidate(key: Key) returns (created: nat)
      modifies this
      ensures state == old(state).(candidates := Upserted(old(state).candidates, key))
      ensures |state.candidates| == |old(state).candidates| + created
    {
      created := if key in Names(state.candidates) then 0 else 1;
      state := state.(candidates := Upserted(state.candidates, key));
    }

    method ExtractCandidates(batchSize: nat) returns (created: nat)
      modifies this
      ensures state == Extracted(old(state), batchSize)
      ensures created == |state.candidates| - |old(state).candidates|
    {
      var rows := Batch(state, batchSize);
      created := 0;
      ghost var before := state;
      assert rows[0..] == rows;
      for i := 0 to |rows|
        invariant state == before.(candidates := state.candidates)
        invariant UpsertedAll(state.candidates, KeysOf(rows[i..])) == UpsertedAll(before.candidates, KeysOf(rows))
        invariant |state.candidates| == |before.candidates| + created
      {
        var keys := rows[i].keys;
        assert rows[i..][1..] == rows[i + 1..];
        ghost var rest := KeysOf(rows[i + 1..]);
        UpsertedConcat(state.candidates, keys, rest);
        assert keys[0..] == keys;
        for j := 0 to |keys|
          invariant state == before.(candidates := state.candidates)
          invariant UpsertedAll(UpsertedAll(state.candidates, keys[j..]), rest) ==
                    UpsertedAll(before.candidates, KeysOf(rows))
          invariant |state.candidates| == |before.candidates| + created
        {
          assert keys[j..][1..] == keys[j + 1..];
          var one := UpsertCandidate(keys[j]);
          created := created + one;
        }
      }
      state := state.(cursor := if |rows| > 0 then rows[|rows| - 1].id else state.cursor);
    }

    method AnalyzePendingCandidates(limit: nat, verdicts: seq<Verdict>) returns (tally: Tally)
      modifies this
      ensures state == old(state).(candidates := AnalyzedRun(old(state).candidates, limit, verdicts))
      ensures Calls(old(state).candidates, limit, verdicts) <= |verdicts|
      ensures tally == Counted(verdicts[..Calls(old(state).candidates, limit, verdicts)])
    {
      ghost var before := state.candidates;
      var done: seq<Candidate> := [];
      var left := state.candidates;
      var calls := 0;
      tally := Tally(0, 0, 0);
      while |left| > 0
        invariant state == old(state) && calls <= limit && calls <= |verdicts|
        invariant done + AnalyzedRun(left, limit - calls, verdicts[calls..]) == AnalyzedRun(before, limit, verdicts)
        invariant tally == Counted(verdicts[..calls])
        invariant calls + Calls(left, limit - calls, verdicts[calls..]) == Calls(before, limit, verdicts)
        decreases |left|
      {
        var candidate := left[0];
        ghost var rest := left[1..];
        if Eligible(candidate) && calls < limit && calls < |verdicts| {
          assert verdicts[calls..][1..] == verdicts[calls + 1..];
          var analyzed := candidate.(status := After(verdicts[calls]), attempts := candidate.attempts + 1);
          Assoc(done, [analyzed], AnalyzedRun(rest, limit - calls - 1, verdicts[calls + 1..]));
          done := done + [analyzed];
          CountedNext(verdicts, calls);
          tally := Plus(tally, verdicts[calls]);
          calls := calls + 1;
        } else {
          Assoc(done, [candidate], AnalyzedRun(rest, limit - calls, verdicts[calls..]));
          done := done + [candidate];
        }
        left := left[1..];
      }
      assert AnalyzedRun(left, limit - calls, verdicts[calls..]) == [];
      assert done + [] == done;
      state := state.(candidates := done);
    }
  }

  // ----- runs ----------------------------------------------------------------------------

  function Without(rows: seq<Row>, ids: set<nat>): seq<Row> {
    if rows == [] then []
    else (if rows[0].id in ids then [] else [rows[0]]) + Without(rows[1..], ids)
  }

  datatype Step =
    | Commit(row: Row)
    | Delete(ids: set<nat>)   // of a turn or of a whole session; candidates stay
    | Extract(size: nat)
    | ExtractAndStop(size: nat, upserts: nat)
    | Analyze(limit: nat, verdicts: seq<Verdict>)

  function Next(s: State, step: Step): State {
    match step
    case Commit(row) => s.(rows := s.rows + [row])
    case Delete(ids) => s.(rows := Without(s.rows, ids))
    case Extract(size) => Extracted(s, size)
    case ExtractAndStop(size, upserts) => Interrupted(s, size, upserts)
    case Analyze(limit, verdicts) => s.(candidates := AnalyzedRun(s.candidates, limit, verdicts))
  }

  function RunAll(s: State, steps: seq<Step>): State
    decreases |steps|
  {
    if steps == [] then s else RunAll(Next(s, steps[0]), steps[1..])
  }

  const START := State([], 0, [])
}
