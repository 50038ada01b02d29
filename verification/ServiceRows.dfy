/** The live service board: rows on the page are reconciled in place with the data of each message. */
module ServiceRows {
  /** A row element; `node` is its identity on the page. */
  datatype Row = Row(node: nat, id: int, caption: string, boxes: seq<string>)

  datatype Datum = Datum(id: int, name: string, statuses: seq<string>)

  datatype Outcome = OutOfSync | Synced

  /** Only the boxes a row has are written; only as many as there are statuses. */
  function Updated(boxes: seq<string>, statuses: seq<string>): (r: seq<string>)
    ensures |r| == |boxes|
    ensures |boxes| == |statuses| ==> r == statuses
  {
    seq(|boxes|, i requires 0 <= i < |boxes| => if i < |statuses| then statuses[i] else boxes[i])
  }

  function NewRow(node: nat, d: Datum): (r: Row)
    ensures r.boxes == d.statuses
  {
    Row(node, d.id, d.name, Updated(seq(|d.statuses|, _ => ""), d.statuses))
  }

  function Refreshed(r: Row, d: Datum): Row { r.(boxes := Updated(r.boxes, d.statuses)) }

  /** The board after a message, on any rows and data; `next` numbers the elements created. */
  function Merge(rows: seq<Row>, data: seq<Datum>, next: nat): (seq<Row>, nat)
    decreases |rows| + |data|
  {
    if data == [] then ([], next)
    else if rows == [] || rows[0].id > data[0].id then
      var (rest, n) := Merge(rows, data[1..], next + 1);
      ([NewRow(next, data[0])] + rest, n)
    else if rows[0].id < data[0].id then Merge(rows[1..], data, next)
    else
      var (rest, n) := Merge(rows[1..], data[1..], next);
      ([Refreshed(rows[0], data[0])] + rest, n)
  }

  ghost predicate DistinctNodes(rows: seq<Row>, next: nat) {
    && (forall i, j :: 0 <= i < j < |rows| ==> rows[i].node != rows[j].node)
    && (forall i :: 0 <= i < |rows| ==> rows[i].node < next)
  }

  /** Where an element is among its siblings. */
  function IndexOf(rows: seq<Row>, node: nat): (k: nat)
    requires exists i :: 0 <= i < |rows| && rows[i].node == node
    ensures k < |rows| && rows[k].node == node
    ensures forall i :: 0 <= i < |rows| && rows[i].node == node ==> k <= i
  {
    if rows[0].node == node then 0
    else
      assert forall i :: 0 < i < |rows| ==> rows[i] == rows[1..][i - 1];
      1 + IndexOf(rows[1..], node)
  }

  class Board {
    var rows: seq<Row>
    var next: nat
    const teams: nat

    constructor (teams: nat)
      ensures rows == [] && next == 0 && this.teams == teams
    {
      rows, next, this.teams := [], 0, teams;
    }

    ghost predicate Valid()
      reads this
    {
      DistinctNodes(rows, next)
    }

    method Create(d: Datum) returns (r: Row)
      modifies this`next
      ensures r == NewRow(old(next), d) && next == old(next) + 1
    {
      r := NewRow(next, d);
      next := next + 1;
    }

    method InsertBefore(node: nat, r: Row)
      requires exists i :: 0 <= i < |rows| && rows[i].node == node
      modifies this`rows
      ensures var k := IndexOf(old(rows), node); rows == old(rows)[..k] + [r] + old(rows)[k..]
    {
      var k := IndexOf(rows, node);
      rows := rows[..k] + [r] + rows[k..];
    }

    method Remove(node: nat)
      requires exists i :: 0 <= i < |rows| && rows[i].node == node
      modifies this`rows
      ensures var k := IndexOf(old(rows), node); rows == old(rows)[..k] + old(rows)[k + 1..]
    {
      var k := IndexOf(rows, node);
      rows := rows[..k] + rows[k + 1..];
    }

    method UpdateBoxes(node: nat, d: Datum)
      requires exists i :: 0 <= i < |rows| && rows[i].node == node
      modifies this`rows
      ensures var k := IndexOf(old(rows), node); rows == old(rows)[k := Refreshed(old(rows)[k], d)]
    {
      var k := IndexOf(rows, node);
      rows := rows[k := Refreshed(rows[k], d)];
    }

    /** One turn of the walk: insert before the row, delete it, or update it. */
    method Step(row: Row, d: Datum, ghost done: seq<Row>, ghost left: seq<Row>, ghost todo: seq<Datum>,
                ghost goal: (seq<Row>, nat))
      returns (rowUsed: bool, datumUsed: bool, ghost done': seq<Row>)
      requires Halfway(rows, done, left, todo, next, goal)
      requires left != [] && todo != [] && left[0] == row && todo[0] == d
      modifies this`rows, this`next
      ensures rowUsed <==> row.id <= d.id
      ensures datumUsed <==> row.id >= d.id
      ensures Halfway(rows, done', if rowUsed then left[1..] else left,
                      if datumUsed then todo[1..] else todo, next, goal)
    {
      FoundAt(rows, done, left, next);
      if row.id > d.id {
        InsertStep(rows, done, left, todo, next, goal);
        var created := Create(d);
        assert rows[|done|].node == row.node;
        InsertBefore(row.node, created);
        return false, true, done + [created];
      } else if row.id < d.id {
        RemoveStep(rows, done, left, todo, next, goal);
        Remove(row.node);
        return true, false, done;
      } else {
        UpdateStep(rows, done, left, todo, next, goal);
        UpdateBoxes(row.node, d);
        return true, true, done + [Refreshed(row, d)];
      }
    }

    method RemoveTrailing(serviceRows: seq<Row>, from: nat, ghost done: seq<Row>, ghost todo: seq<Datum>,
                          ghost goal: (seq<Row>, nat))
      requires from == |serviceRows| || (from < |serviceRows| && todo == [])
      requires Halfway(rows, done, serviceRows[from..], todo, next, goal)
      modifies this`rows
      ensures Halfway(rows, done, [], todo, next, goal)
    {
      var i := from;
      while i < |serviceRows|
        invariant i <= |serviceRows| && (i < |serviceRows| ==> todo == [])
        invariant Halfway(rows, done, serviceRows[i..], todo, next, goal)
      {
        FoundAt(rows, done, serviceRows[i..], next);
        RemoveStep(rows, done, serviceRows[i..], todo, next, goal);
        Remove(serviceRows[i].node);
        i := i + 1;
      }
    }

    method AppendTrailing(data: seq<Datum>, from: nat, ghost done: seq<Row>, ghost goal: (seq<Row>, nat))
      requires from <= |data|
      requires Halfway(rows, done, [], data[from..], next, goal)
      modifies this`rows, this`next
      ensures Valid() && (rows, next) == goal
    {
      var j := from;
      ghost var sofar := done;
      while j < |data|
        invariant j <= |data|
        invariant Halfway(rows, sofar, [], data[j..], next, goal)
      {
        InsertStep(rows, sofar, [], data[j..], next, goal);
        var created := Create(data[j]);
        rows := rows + [created];
        sofar := sofar + [created];
        j := j + 1;
      }
    }

    /** The two-index walk over rows and data, and the two trailing loops, of which
        at most one has anything to do. */
    method SyncServices(data: seq<Datum>) returns (r: Outcome)
      requires Valid()
      modifies this`rows, this`next
      ensures Valid()
      ensures r == OutOfSync <==> data == [] || |data[0].statuses| != teams
      ensures r == OutOfSync ==> rows == old(rows) && next == old(next)
      ensures r == Synced ==> (rows, next) == Merge(old(rows), data, old(next))
    {
      if |data| == 0 || |data[0].statuses| != teams {
        return OutOfSync;
      }
      var serviceRows := rows; // the elements as they were found, in order
      ghost var goal := Merge(rows, data, next);
      ghost var done: seq<Row> := [];
      var i, j := 0, 0;
      assert Halfway(rows, done, serviceRows[0..], data[0..], next, goal) by {
        assert serviceRows[0..] == rows && data[0..] == data;
        assert [] + goal.0 == goal.0;
      }
      while i < |serviceRows| && j < |data|
        invariant 0 <= i <= |serviceRows| && 0 <= j <= |data|
        invariant Halfway(rows, done, serviceRows[i..], data[j..], next, goal)
        decreases |serviceRows| - i + |data| - j
      {
        var rowUsed, datumUsed;
        rowUsed, datumUsed, done := Step(serviceRows[i], data[j], done, serviceRows[i..], data[j..], goal);
        assert serviceRows[i..][1..] == serviceRows[i + 1..] && data[j..][1..] == data[j + 1..];
        i := if rowUsed then i + 1 else i;
        j := if datumUsed then j + 1 else j;
      }
      RemoveTrailing(serviceRows, i, done, data[j..], goal);
      AppendTrailing(data, j, done, goal);
      return Synced;
    }
  }

  function Joined(done: seq<Row>, rest: (seq<Row>, nat)): (seq<Row>, nat) { (done + rest.0, rest.1) }

  lemma FoundAt(rows: seq<Row>, done: seq<Row>, rest: seq<Row>, next: nat)
    requires DistinctNodes(rows, next) && rows == done + rest && rest != []
    ensures rows[|done|] == rest[0]
    ensures IndexOf(rows, rest[0].node) == |done|
    ensures rows[..|done|] == done && rows[|done|..] == rest && rows[|done| + 1..] == rest[1..]
  {
  }

  /** `done` is final, `left` and `todo` are the rows and data not yet looked at. */
  ghost predicate Halfway(rows: seq<Row>, done: seq<Row>, left: seq<Row>, todo: seq<Datum>, next: nat,
                          goal: (seq<Row>, nat)) {
    && DistinctNodes(rows, next)
    && rows == done + left
    && Joined(done, Merge(left, todo, next)) == goal
  }

  lemma InsertDistinct(rows: seq<Row>, n: nat, r: Row, next: nat)
    requires DistinctNodes(rows, next) && n <= |rows| && r.node == next
    ensures DistinctNodes(rows[..n] + [r] + rows[n..], next + 1)
  {
    var after := rows[..n] + [r] + rows[n..];
    assert forall i :: 0 <= i < n ==> after[i] == rows[i];
    assert after[n] == r;
    assert forall i :: n < i < |after| ==> after[i] == rows[i - 1];
  }

  lemma InsertStep(rows: seq<Row>, done: seq<Row>, left: seq<Row>, todo: seq<Datum>, next: nat, goal: (seq<Row>, nat))
    requires Halfway(rows, done, left, todo, next, goal) && todo != []
    requires left == [] || left[0].id > todo[0].id
    ensures var r := NewRow(next, todo[0]);
            Halfway(done + [r] + left, done + [r], left, todo[1..], next + 1, goal)
  {
    var r := NewRow(next, todo[0]);
    var rest := Merge(left, todo[1..], next + 1);
    assert done + ([r] + rest.0) == (done + [r]) + rest.0;
    InsertDistinct(rows, |done|, r, next);
    assert rows[..|done|] == done && rows[|done|..] == left;
  }

  lemma RemoveStep(rows: seq<Row>, done: seq<Row>, left: seq<Row>, todo: seq<Datum>, next: nat, goal: (seq<Row>, nat))
    requires Halfway(rows, done, left, todo, next, goal) && left != []
    requires todo == [] || left[0].id < todo[0].id
    ensures Halfway(done + left[1..], done, left[1..], todo, next, goal)
  {
    var after, n := done + left[1..], |done|;
    assert forall i :: 0 <= i < n ==> after[i] == rows[i];
    assert forall i :: n <= i < |after| ==> after[i] == rows[i + 1];
    forall i | 0 <= i < |after| ensures after[i].node < next {
      var p := if i < n then i else i + 1;
      assert rows[p].node < next;
    }
    forall i, j | 0 <= i < j < |after| ensures after[i].node != after[j].node {
      var p, q := if i < n then i else i + 1, if j < n then j else j + 1;
      assert rows[p].node != rows[q].node;
    }
  }

  lemma UpdateStep(rows: seq<Row>, done: seq<Row>, left: seq<Row>, todo: seq<Datum>, next: nat, goal: (seq<Row>, nat))
    requires Halfway(rows, done, left, todo, next, goal) && left != [] && todo != []
    requires left[0].id == todo[0].id
    ensures var r := Refreshed(left[0], todo[0]);
            Halfway(done + [r] + left[1..], done + [r], left[1..], todo[1..], next, goal)
  {
    var r := Refreshed(left[0], todo[0]);
    var rest := Merge(left[1..], todo[1..], next);
    assert done + ([r] + rest.0) == (done + [r]) + rest.0;
    SameNodes(rows, done + [r] + left[1..], next);
  }

  lemma SameNodes(rows: seq<Row>, after: seq<Row>, next: nat)
    requires DistinctNodes(rows, next) && |after| == |rows|
    requires forall i :: 0 <= i < |rows| ==> after[i].node == rows[i].node
    ensures DistinctNodes(after, next)
  {
  }

  // ----------------------------------------------------------------- results

  ghost predicate RowsAscend(rows: seq<Row>) {
    forall i, j :: 0 <= i < j < |rows| ==> rows[i].id < rows[j].id
  }

  ghost predicate DataAscend(data: seq<Datum>) {
    forall i, j :: 0 <= i < j < |data| ==> data[i].id < data[j].id
  }

  ghost predicate Shown(rows: seq<Row>, id: int) {
    exists i :: 0 <= i < |rows| && rows[i].id == id
  }

  /** The row now showing `d`: the old element with its label if there was one, else a new one. */
  ghost predicate Shows(r: Row, d: Datum, rows: seq<Row>, next: nat) {
    && r.id == d.id
    && (Shown(rows, d.id) ==> exists i :: 0 <= i < |rows| && rows[i].id == d.id && r == Refreshed(rows[i], d))
    && (!Shown(rows, d.id) ==> r.node >= next && r.caption == d.name && r.boxes == d.statuses)
  }

  lemma ShowsLift(r: Row, d: Datum, rows: seq<Row>, next: nat)
    requires rows != [] && rows[0].id != d.id && Shows(r, d, rows[1..], next)
    ensures Shows(r, d, rows, next)
  {
  }

  ghost predicate AllShow(r: seq<Row>, data: seq<Datum>, rows: seq<Row>, next: nat) {
    |r| == |data| && forall k :: 0 <= k < |data| ==> Shows(r[k], data[k], rows, next)
  }

  lemma AllShowLift(r: seq<Row>, data: seq<Datum>, rows: seq<Row>, next: nat)
    requires rows != [] && AllShow(r, data, rows[1..], next)
    requires forall k :: 0 <= k < |data| ==> data[k].id != rows[0].id
    ensures AllShow(r, data, rows, next)
  {
    forall k | 0 <= k < |data| ensures Shows(r[k], data[k], rows, next) {
      ShowsLift(r[k], data[k], rows, next);
    }
  }

  lemma AllShowCons(first: Row, r: seq<Row>, data: seq<Datum>, rows: seq<Row>, next: nat)
    requires data != [] && Shows(first, data[0], rows, next) && AllShow(r, data[1..], rows, next)
    ensures AllShow([first] + r, data, rows, next)
  {
    forall k | 0 <= k < |data| ensures Shows(([first] + r)[k], data[k], rows, next) {
      assert k > 0 ==> Shows(r[k - 1], data[1..][k - 1], rows, next);
    }
  }

  /** With rows and data both in ascending order the board shows the data, row for row, and a
      service that stays keeps its element. */
  lemma {:induction false} MergeShowsData(rows: seq<Row>, data: seq<Datum>, next: nat)
    requires RowsAscend(rows) && DataAscend(data)
    ensures Merge(rows, data, next).1 >= next
    ensures |Merge(rows, data, next).0| == |data|
    ensures forall k :: 0 <= k < |data| ==> Shows(Merge(rows, data, next).0[k], data[k], rows, next)
    decreases |rows| + |data|
  {
    if data == [] {
    } else if rows == [] || rows[0].id > data[0].id {
      MergeShowsData(rows, data[1..], next + 1);
      assert !Shown(rows, data[0].id);
      AllShowCons(NewRow(next, data[0]), Merge(rows, data[1..], next + 1).0, data, rows, next);
    } else if rows[0].id < data[0].id {
      MergeShowsData(rows[1..], data, next);
      AllShowLift(Merge(rows[1..], data, next).0, data, rows, next);
    } else {
      MergeShowsData(rows[1..], data[1..], next);
      AllShowLift(Merge(rows[1..], data[1..], next).0, data[1..], rows, next);
      AllShowCons(Refreshed(rows[0], data[0]), Merge(rows[1..], data[1..], next).0, data, rows, next);
    }
  }

  /** If every row and every datum has one box per team, the board is the data in ids, order and statuses.
      The labels of rows that stay are not touched, so a renamed service shows its old name. */
  lemma BoardEqualsData(rows: seq<Row>, data: seq<Datum>, next: nat, teams: nat)
    requires RowsAscend(rows) && DataAscend(data)
    requires forall i :: 0 <= i < |rows| ==> |rows[i].boxes| == teams
    requires forall j :: 0 <= j < |data| ==> |data[j].statuses| == teams
    ensures var r := Merge(rows, data, next).0;
            && |r| == |data|
            && RowsAscend(r)
            && forall k :: 0 <= k < |r| ==> r[k].id == data[k].id && r[k].boxes == data[k].statuses
    ensures var r := Merge(rows, data, next).0;
            forall i, k :: 0 <= i < |rows| && 0 <= k < |r| && r[k].id == rows[i].id ==>
              r[k].node == rows[i].node && r[k].caption == rows[i].caption
  {
    MergeShowsData(rows, data, next);
    var r := Merge(rows, data, next).0;
    forall k | 0 <= k < |r|
      ensures r[k].id == data[k].id && r[k].boxes == data[k].statuses
    {
      assert Shows(r[k], data[k], rows, next);
    }
    forall i, k | 0 <= i < |rows| && 0 <= k < |r| && r[k].id == rows[i].id
      ensures r[k].node == rows[i].node && r[k].caption == rows[i].caption
    {
      assert Shows(r[k], data[k], rows, next) && Shown(rows, data[k].id);
    }
  }

  /** The same message again changes nothing. */
  lemma {:induction false} SyncIsIdempotent(rows: seq<Row>, data: seq<Datum>, next: nat)
    requires |rows| == |data|
    requires forall k :: 0 <= k < |data| ==> rows[k].id == data[k].id && rows[k].boxes == data[k].statuses
    ensures Merge(rows, data, next) == (rows, next)
  {
    if data != [] {
      SyncIsIdempotent(rows[1..], data[1..], next);
      assert Refreshed(rows[0], data[0]) == rows[0] && rows == [rows[0]] + rows[1..];
    }
  }
}
