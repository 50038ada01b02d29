/** Storing a round's results: a bulk copy fed by a cursor, tried again with growing waits. Taken from the
    database: a copy stores all of its rows or none, and reports an error only in the second case. */
module RoundInsert {
  import opened Results

  /** The copy source: `idx` starts before the first row. */
  class Cursor {
    const rows: seq<Result>
    var idx: int

    constructor (rows: seq<Result>)
      ensures this.rows == rows && idx == -1
    {
      this.rows, idx := rows, -1;
    }

    method Next() returns (more: bool)
      modifies this
      ensures idx == old(idx) + 1 && (more <==> idx < |rows|)
    {
      idx := idx + 1;
      more := idx < |rows|;
    }

    method Values() returns (r: Result)
      requires 0 <= idx < |rows|
      ensures r == rows[idx]
    {
      r := rows[idx];
    }
  }

  /** Sum of the squares 1 .. k. */
  function Waits(k: nat): nat { if k == 0 then 0 else Waits(k - 1) + k * k }

  lemma {:induction false} WaitsClosed(k: nat)
    ensures 6 * Waits(k) == k * (k + 1) * (2 * k + 1)
  {
    if k > 0 {
      WaitsClosed(k - 1);
    }
  }

  /** Which attempt stores the rows: 0 is the first insert, 1 to 5 are the retries. */
  ghost predicate FirstSuccess(answers: seq<bool>, k: nat) {
    k < |answers| && answers[k] && forall i :: 0 <= i < k ==> !answers[i]
  }

  const RETRIES: nat := 5

  class CheckTable {
    var rows: seq<Result>
    var slept: nat

    constructor ()
      ensures rows == [] && slept == 0
    {
      rows, slept := [], 0;
    }

    /** The copy reads every row the cursor yields, then succeeds or not. */
    method Insert(results: seq<Result>, answer: bool) returns (ok: bool)
      modifies this`rows
      ensures ok == answer
      ensures rows == if answer then old(rows) + results else old(rows)
    {
      var cursor := new Cursor(results);
      var copied: seq<Result> := [];
      var more := cursor.Next();
      while more
        invariant fresh(cursor) && cursor.rows == results
        invariant 0 <= cursor.idx && (more <==> cursor.idx < |results|) && cursor.idx <= |results|
        invariant copied == results[..cursor.idx]
        invariant rows == old(rows)
        decreases |results| - cursor.idx
      {
        var r := cursor.Values();
        copied := copied + [r];
        more := cursor.Next();
      }
      if answer {
        rows := rows + copied;
      }
      return answer;
    }

    /** The first insert and up to five retries, waiting n * n seconds before the n-th. */
    method StoreRound(results: seq<Result>, answers: seq<bool>) returns (ok: bool)
      requires |answers| == RETRIES + 1
      modifies this
      ensures ok <==> exists k :: FirstSuccess(answers, k)
      ensures rows == if ok then old(rows) + results else old(rows)
      ensures forall k :: FirstSuccess(answers, k) ==> slept == old(slept) + Waits(k)
      ensures !ok ==> slept == old(slept) + Waits(RETRIES)
    {
      ok := Insert(results, answers[0]);
      if ok {
        assert FirstSuccess(answers, 0);
        return;
      }
      var attempt := 1;
      while attempt <= RETRIES
        invariant 1 <= attempt <= RETRIES + 1
        invariant forall i :: 0 <= i < attempt ==> !answers[i]
        invariant rows == old(rows) && slept == old(slept) + Waits(attempt - 1) && !ok
      {
        slept := slept + attempt * attempt;
        ok := Insert(results, answers[attempt]);
        if ok {
          assert FirstSuccess(answers, attempt);
          return;
        }
        attempt := attempt + 1;
      }
    }
  }
}
