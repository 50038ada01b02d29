/** The chat announcer: it polls for solves and announces each challenge once. */
module Announcer {
  datatype Solve = Solve(challenge: int, team: int)

  function NewFirsts(batch: seq<Solve>, seen: set<int>): map<int, Solve> {
    if batch == [] then map[]
    else
      var s := batch[|batch| - 1];
      var m := NewFirsts(batch[..|batch| - 1], seen);
      if s.challenge !in seen then m[s.challenge := s] else m
  }

  class Poller {
    var seen: set<int>

    constructor ()
      ensures seen == {}
    {
      seen := {};
    }

    method FilterNewFirsts(batch: seq<Solve>) returns (firsts: map<int, Solve>)
      ensures firsts == NewFirsts(batch, seen)
    {
      firsts := map[];
      for i := 0 to |batch|
        invariant firsts == NewFirsts(batch[..i], seen)
      {
        assert batch[..i + 1][..i] == batch[..i];
        if batch[i].challenge !in seen {
          firsts := firsts[batch[i].challenge := batch[i]];
        }
      }
      assert batch[..|batch|] == batch;
    }

    /** One poll that got an answer. A challenge counts as seen even if its message could not be sent. */
    method Step(batch: seq<Solve>) returns (announced: map<int, Solve>)
      modifies this
      ensures announced == NewFirsts(batch, old(seen))
      ensures seen == old(seen) + announced.Keys
    {
      announced := FilterNewFirsts(batch);
      if |announced| != 0 {
        seen := seen + announced.Keys;
      } else {
        assert announced == map[];
      }
    }
  }

  ghost predicate LastFor(batch: seq<Solve>, c: int, i: nat) {
    i < |batch| && batch[i].challenge == c && forall j :: i < j < |batch| ==> batch[j].challenge != c
  }

  ghost predicate FirstFor(batch: seq<Solve>, c: int, i: nat) {
    i < |batch| && batch[i].challenge == c && forall j :: 0 <= j < i ==> batch[j].challenge != c
  }

  lemma {:induction false} NewFirstsKeys(batch: seq<Solve>, seen: set<int>, c: int)
    ensures c in NewFirsts(batch, seen) <==> c !in seen && exists i :: 0 <= i < |batch| && batch[i].challenge == c
  {
    if batch != [] {
      var n := |batch| - 1;
      NewFirstsKeys(batch[..n], seen, c);
      if i :| 0 <= i < |batch| && batch[i].challenge == c && i != n {
        assert batch[..n][i] == batch[i];
      }
    }
  }

  /** What is announced for a challenge is the last solve of it in the batch. */
  lemma {:induction false} LastIsKept(batch: seq<Solve>, seen: set<int>, c: int, i: nat)
    requires c !in seen && LastFor(batch, c, i)
    ensures c in NewFirsts(batch, seen) && NewFirsts(batch, seen)[c] == batch[i]
  {
    if i < |batch| - 1 {
      LastIsKept(batch[..|batch| - 1], seen, c, i);
    }
  }

  lemma {:induction false} SomeLast(batch: seq<Solve>, c: int, i: nat) returns (last: nat)
    requires i < |batch| && batch[i].challenge == c
    ensures LastFor(batch, c, last) && i <= last
    decreases |batch| - i
  {
    if j: nat :| i < j < |batch| && batch[j].challenge == c {
      last := SomeLast(batch, c, j);
    } else {
      last := i;
    }
  }

  /** A team captures a challenge once, so the first solver is announced exactly when the batch has no other solve of
      that challenge: a later one in the same poll takes its place. */
  lemma FirstSolverAnnounced(batch: seq<Solve>, seen: set<int>, c: int, first: nat)
    requires forall i, j :: 0 <= i < j < |batch| ==> batch[i] != batch[j]
    requires FirstFor(batch, c, first) && c !in seen
    ensures c in NewFirsts(batch, seen)
    ensures NewFirsts(batch, seen)[c] == batch[first]
       <==> forall i :: 0 <= i < |batch| && batch[i].challenge == c ==> i == first
  {
    var last := SomeLast(batch, c, first);
    LastIsKept(batch, seen, c, last);
  }

  lemma LaterSolverWins()
    ensures NewFirsts([Solve(7, 1), Solve(7, 2)], {}) == map[7 := Solve(7, 2)]
  {
  }

  /** The challenges announced by one poll after another, each polled batch in turn. */
  function Announced(batches: seq<seq<Solve>>, seen: set<int>): seq<set<int>> {
    if batches == [] then []
    else
      var now := NewFirsts(batches[0], seen).Keys;
      [now] + Announced(batches[1..], seen + now)
  }

  /** Over any run no challenge is announced twice. */
  lemma {:induction false} AnnouncedOnce(batches: seq<seq<Solve>>, seen: set<int>)
    ensures |Announced(batches, seen)| == |batches|
    ensures forall i :: 0 <= i < |batches| ==> Announced(batches, seen)[i] !! seen
    ensures forall i, j :: 0 <= i < j < |batches| ==> Announced(batches, seen)[i] !! Announced(batches, seen)[j]
  {
    if batches != [] {
      var now := NewFirsts(batches[0], seen).Keys;
      AnnouncedOnce(batches[1..], seen + now);
      var rest := Announced(batches[1..], seen + now);
      forall c | c in now ensures c !in seen {
        NewFirstsKeys(batches[0], seen, c);
      }
      assert forall i :: 0 < i < |batches| ==> Announced(batches, seen)[i] == rest[i - 1];
      assert forall i :: 0 <= i < |rest| ==> rest[i] !! (seen + now);
    }
  }
}
