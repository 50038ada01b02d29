/** The other serial order of submissions: each at the snapshot it read. It explains every answer, stale captures
    included, as long as no challenge id comes back after it has gone. */
module SnapshotOrder {
  import opened Common
  import opened Relational
  import opened FlagSubmission

  ghost predicate ForeignKeys(db: Tables) {
    forall x :: x in db.solves ==> HasId(db, x.challenge)
  }

  ghost predicate NoIdReturns(versions: seq<Tables>) {
    forall id, i, j, k ::
      0 <= i < j < k < |versions| && HasId(versions[i], id) && HasId(versions[k], id) ==> HasId(versions[j], id)
  }

  ghost predicate Linked(versions: seq<Tables>, log: seq<Entry>) {
    |versions| == |log| + 1 && forall k: nat :: k < |log| ==> Led(versions, log, k)
  }

  /** What the results are proved about. */
  ghost predicate Setting(s: State) {
    Inv(s) && ForeignKeys(s.versions[0]) && NoIdReturns(s.versions)
  }

  lemma AreLinked(s: State)
    requires Inv(s)
    ensures Linked(s.versions, s.log)
  {
    forall k: nat | k < |s.log| ensures Led(s.versions, s.log, k) {
      assert Happened(s, k);
    }
  }

  // ------------------------------------------------------- ids and solves over time

  lemma HasIdIn(db: Tables, id: int)
    ensures HasId(db, id) <==> exists c :: c in db.challenges && c.id == id
  {
    if i :| 0 <= i < |db.challenges| && db.challenges[i].id == id {
      assert db.challenges[i] in db.challenges;
    }
  }

  lemma IdsAfter(db: Tables, e: Edit, id: int)
    ensures HasId(ApplyEdit(db, e), id) <==>
            match e
            case Add(c) => HasId(db, id) || c.id == id
            case Replace(_) => HasId(db, id)
            case Delete(gone) => HasId(db, id) && id != gone
  {
    var after := ApplyEdit(db, e);
    match e
    case Add(c) =>
      assert after.challenges[|db.challenges|] == c;
      assert forall i :: 0 <= i < |db.challenges| ==> after.challenges[i] == db.challenges[i];
    case Replace(c) =>
      assert forall i :: 0 <= i < |db.challenges| ==> after.challenges[i].id == db.challenges[i].id;
    case Delete(gone) =>
      HasIdIn(db, id);
      HasIdIn(after, id);
      WhereKeeps(db.challenges, (c: Challenge) => c.id != gone);
  }

  lemma SolvesAfter(db: Tables, e: Edit, x: Solve)
    ensures x in ApplyEdit(db, e).solves <==> x in db.solves && (e.Delete? ==> x.challenge != e.id)
  {
    if e.Delete? {
      WhereKeeps(db.solves, (y: Solve) => y.challenge != e.id);
    }
  }

  /** A solve stays for as long as its challenge does. */
  lemma {:induction false} Persists(versions: seq<Tables>, log: seq<Entry>, x: Solve, i: nat, j: nat)
    requires Linked(versions, log) && NoIdReturns(versions) && i <= j < |versions|
    requires x in versions[i].solves && HasId(versions[i], x.challenge) && HasId(versions[j], x.challenge)
    ensures x in versions[j].solves
    decreases j
  {
    if i < j {
      assert i < j - 1 ==> HasId(versions[j - 1], x.challenge);
      Persists(versions, log, x, i, j - 1);
      assert Led(versions, log, j - 1);
      if log[j - 1].Staff? {
        SolvesAfter(versions[j - 1], log[j - 1].edit, x);
        IdsAfter(versions[j - 1], log[j - 1].edit, x.challenge);
      }
    }
  }

  predicate Captures(e: Entry, x: Solve) {
    e.Captured? && Solve(e.guess.team, e.challenge.id) == x
  }

  /** What is held was held from the start or has been captured, and its challenge is there. */
  lemma {:induction false} HeldFrom(s: State, x: Solve, j: nat)
    requires Inv(s) && ForeignKeys(s.versions[0]) && j < |s.versions| && x in s.versions[j].solves
    ensures HasId(s.versions[j], x.challenge)
    ensures x in s.versions[0].solves || exists k :: 0 <= k < j && Captures(s.log[k], x)
  {
    if j > 0 {
      assert Happened(s, j - 1);
      match s.log[j - 1]
      case Captured(_, _, _, _) =>
        if x in s.versions[j - 1].solves {
          HeldFrom(s, x, j - 1);
        } else {
          assert Captures(s.log[j - 1], x);
        }
      case Staff(e) =>
        SolvesAfter(s.versions[j - 1], e, x);
        HeldFrom(s, x, j - 1);
        IdsAfter(s.versions[j - 1], e, x.challenge);
    }
  }

  // ------------------------------------------------------------------ the order

  predicate Answered(x: Txn) { x.Done? && x.answer != Failed }

  predicate At(x: Txn, v: nat) { Answered(x) && x.snap == v }

  /** From the `n`-th transaction at version `v` on: the submissions that were answered from that version's snapshot,
      then the edit that led on from it, if it was one, and so on with the next version. */
  function SnapOrder(s: State, v: nat, n: nat): seq<Op>
    requires v <= |s.log| && n <= |s.txns|
    decreases |s.log| - v, |s.txns| - n
  {
    if n < |s.txns| then
      if At(s.txns[n], v) then [Asked(s, n)] + SnapOrder(s, v, n + 1) else SnapOrder(s, v, n + 1)
    else if v < |s.log| then
      if s.log[v].Staff? then [StaffEdit(s.log[v].edit)] + SnapOrder(s, v + 1, 0) else SnapOrder(s, v + 1, 0)
    else []
  }

  ghost predicate CapturedBy(s: State, x: Solve, t: nat) {
    t < |s.txns| && Answered(s.txns[t]) && s.txns[t].answer.ValidFlag?
    && Solve(s.txns[t].guess.team, s.txns[t].answer.challenge.id) == x
  }

  /** Captured by a transaction placed before the `n`-th at version `v`. */
  ghost predicate Before(s: State, x: Solve, v: nat, n: nat) {
    exists t: nat :: CapturedBy(s, x, t) && (s.txns[t].snap < v || (s.txns[t].snap == v && t < n))
  }

  /** What any transaction placed earlier captured, or was there from the start, unless the challenge has gone. */
  ghost function Expected(s: State, v: nat, n: nat): iset<Solve>
    requires v < |s.versions|
  {
    iset x: Solve | HasId(s.versions[v], x.challenge) && (x in s.versions[0].solves || Before(s, x, v, n))
  }

  ghost function Holding(db: Tables): iset<Solve> { iset x: Solve | x in db.solves }

  /** The tables of the replay when it gets there: the challenges are those of version `v`,
      and the solves are those to be expected. */
  ghost predicate Track(s: State, db: Tables, v: nat, n: nat)
    requires v < |s.versions|
  {
    db.challenges == s.versions[v].challenges && OneCapture(db) && Holding(db) == Expected(s, v, n)
  }

  lemma TrackHas(s: State, db: Tables, v: nat, n: nat, x: Solve)
    requires v < |s.versions| && Track(s, db, v, n)
    ensures x in db.solves <==>
            HasId(s.versions[v], x.challenge) && (x in s.versions[0].solves || Before(s, x, v, n))
  {
    assert x in Holding(db) <==> x in Expected(s, v, n);
  }

  /** The entry of a capture. */
  lemma EntryOf(s: State, x: Solve, t: nat) returns (k: nat)
    requires Inv(s) && CapturedBy(s, x, t)
    ensures k < |s.log| && Captures(s.log[k], x) && s.log[k].txn == t && s.log[k].snap == s.txns[t].snap <= k
    ensures HasId(s.versions[k], x.challenge) && HasId(s.versions[k + 1], x.challenge) && x in s.versions[k + 1].solves
    ensures !CapturedSince(s.log[..k], s.txns[t].snap, x.team, x.challenge)
  {
    assert TxnInv(s, t);
    k := s.txns[t].at;
    assert Happened(s, k);
  }

  lemma TxnOf(s: State, x: Solve, k: nat) returns (t: nat)
    requires Inv(s) && k < |s.log| && Captures(s.log[k], x)
    ensures CapturedBy(s, x, t) && s.txns[t].snap <= k
  {
    assert Happened(s, k);
    t := s.log[k].txn;
  }

  /** Two captures of the same challenge by one team cannot overlap, and without ids that come back there are no two. */
  lemma CaptureUnique(s: State, x: Solve, t: nat, u: nat)
    requires Setting(s) && CapturedBy(s, x, t) && CapturedBy(s, x, u) && s.txns[t].snap <= s.txns[u].snap
    ensures t == u
  {
    var k := EntryOf(s, x, t);
    var l := EntryOf(s, x, u);
    if k < l {
      CommittedBefore(s.log, x, k, l, s.txns[u].snap);
      NotHeldAtSnapshot(s, x, u);
      AreLinked(s);
      Persists(s.versions, s.log, x, k + 1, s.txns[u].snap);
    } else if l < k {
      CommittedBefore(s.log, x, l, k, s.txns[t].snap);
    }
  }

  lemma CommittedBefore(log: seq<Entry>, x: Solve, k: nat, l: nat, snap: nat)
    requires k < l <= |log| && Captures(log[k], x) && !CapturedSince(log[..l], snap, x.team, x.challenge)
    ensures k < snap
  {
    assert log[..l][k] == log[k];
  }

  /** A transaction that captured had found the challenge free. */
  lemma NotHeldAtSnapshot(s: State, x: Solve, t: nat)
    requires Inv(s) && CapturedBy(s, x, t)
    ensures s.txns[t].snap < |s.versions|
    ensures x !in s.versions[s.txns[t].snap].solves && HasId(s.versions[s.txns[t].snap], x.challenge)
    ensures GuessedIs(s.versions[s.txns[t].snap], s.txns[t].guess, s.txns[t].answer.challenge)
  {
    assert TxnInv(s, t);
    assert Happened(s, s.txns[t].at);
    var v := s.txns[t].snap;
    ReadMeans(s.versions[v], s.txns[t].guess);
    HasIdIn(s.versions[v], x.challenge);
  }

  lemma NotYetHeld(s: State, db: Tables, n: nat, x: Solve)
    requires Setting(s) && CapturedBy(s, x, n) && s.txns[n].snap < |s.versions| && Track(s, db, s.txns[n].snap, n)
    ensures x !in db.solves
  {
    var v := s.txns[n].snap;
    NotHeldAtSnapshot(s, x, n);
    TrackHas(s, db, v, n, x);
    if x in s.versions[0].solves {
      AreLinked(s);
      Persists(s.versions, s.log, x, 0, v);
    }
    if u: nat :| CapturedBy(s, x, u) && (s.txns[u].snap < v || (s.txns[u].snap == v && u < n)) {
      CaptureUnique(s, x, u, n);
    }
  }

  lemma CaptureAnswers(s: State, db: Tables, n: nat, x: Solve)
    requires Setting(s) && CapturedBy(s, x, n) && s.txns[n].snap < |s.versions| && Track(s, db, s.txns[n].snap, n)
    ensures x !in db.solves && HasId(s.versions[s.txns[n].snap], x.challenge)
    ensures Submit(db, s.txns[n].guess) == (db.(solves := db.solves + [x]), s.txns[n].answer)
  {
    var v := s.txns[n].snap;
    NotHeldAtSnapshot(s, x, n);
    NotYetHeld(s, db, n, x);
    assert GuessedIs(db, s.txns[n].guess, s.txns[n].answer.challenge);
    assert Keys(db) by {
      assert Keys(s.versions[v]);
    }
    SubmitMeans(db, s.txns[n].guess, db.(solves := db.solves + [x]), s.txns[n].answer);
  }

  lemma CaptureTracks(s: State, db: Tables, v: nat, n: nat, x: Solve)
    requires v < |s.versions| && CapturedBy(s, x, n) && s.txns[n].snap == v && Track(s, db, v, n)
    requires x !in db.solves && HasId(s.versions[v], x.challenge)
    ensures Track(s, db.(solves := db.solves + [x]), v, n + 1)
  {
    var after := db.(solves := db.solves + [x]);
    forall y ensures y in Holding(after) <==> y in Expected(s, v, n + 1) {
      TrackHas(s, db, v, n, y);
      assert y == x ==> CapturedBy(s, y, n);
      assert Before(s, y, v, n + 1) <==> Before(s, y, v, n) || y == x;
    }
  }

  lemma CaptureReplays(s: State, db: Tables, n: nat, x: Solve)
    requires Setting(s) && CapturedBy(s, x, n) && s.txns[n].snap < |s.versions| && Track(s, db, s.txns[n].snap, n)
    ensures Submit(db, s.txns[n].guess) == (db.(solves := db.solves + [x]), s.txns[n].answer)
    ensures Track(s, db.(solves := db.solves + [x]), s.txns[n].snap, n + 1)
  {
    CaptureAnswers(s, db, n, x);
    CaptureTracks(s, db, s.txns[n].snap, n, x);
  }

  lemma ReadReplays(s: State, db: Tables, v: nat, n: nat)
    requires Setting(s) && v < |s.versions| && n < |s.txns| && ReadOnly(s.txns[n], v) && Track(s, db, v, n)
    ensures Submit(db, s.txns[n].guess) == (db, s.txns[n].answer)
    ensures Track(s, db, v, n + 1)
  {
    assert TxnInv(s, n);
    var g, answer := s.txns[n].guess, s.txns[n].answer;
    SubmitMeans(s.versions[v], g, s.versions[v], answer);
    if answer.AlreadyCaptured? {
      var x := Solve(g.team, answer.challenge.id);
      HeldFrom(s, x, v);
      if k: nat :| k < v && Captures(s.log[k], x) {
        var t := TxnOf(s, x, k);
        assert Before(s, x, v, n);
      }
      TrackHas(s, db, v, n, x);
    }
    SubmitMeans(db, g, db, answer);
    NothingPlaced(s, v, n);
  }

  lemma NothingPlaced(s: State, v: nat, n: nat)
    requires v < |s.versions| && n < |s.txns| && !(At(s.txns[n], v) && s.txns[n].answer.ValidFlag?)
    ensures Expected(s, v, n + 1) == Expected(s, v, n)
  {
    forall y ensures Before(s, y, v, n + 1) <==> Before(s, y, v, n) {
    }
  }

  /** A challenge that some solve was once made for is there after an edit only if it was there before. */
  lemma NoNewIds(s: State, x: Solve, v: nat)
    requires Setting(s) && v + 1 < |s.versions| && HasId(s.versions[v + 1], x.challenge)
    requires x in s.versions[0].solves || Before(s, x, v + 1, 0)
    ensures HasId(s.versions[v], x.challenge)
  {
    if x in s.versions[0].solves {
      assert HasId(s.versions[0], x.challenge);
    } else {
      var t: nat :| CapturedBy(s, x, t) && s.txns[t].snap < v + 1;
      NotHeldAtSnapshot(s, x, t);
    }
  }

  lemma BeforeNext(s: State, x: Solve, v: nat)
    ensures Before(s, x, v, |s.txns|) <==> Before(s, x, v + 1, 0)
  {
  }

  lemma CommitTracks(s: State, db: Tables, v: nat)
    requires Setting(s) && v < |s.log| && s.log[v].Captured? && Track(s, db, v, |s.txns|)
    ensures Track(s, db, v + 1, 0)
  {
    assert Happened(s, v);
    forall x ensures Before(s, x, v, |s.txns|) <==> Before(s, x, v + 1, 0) {
      BeforeNext(s, x, v);
    }
    assert Expected(s, v, |s.txns|) == Expected(s, v + 1, 0);
  }

  lemma EditTracks(s: State, db: Tables, v: nat, e: Edit)
    requires Setting(s) && v < |s.log| && s.log[v] == Staff(e) && Track(s, db, v, |s.txns|)
    ensures Track(s, ApplyEdit(db, e), v + 1, 0)
  {
    assert Happened(s, v);
    var end := ApplyEdit(db, e);
    if e.Delete? {
      WhereOneCapture(db.solves, e.id);
    }
    forall x ensures x in Holding(end) <==> x in Expected(s, v + 1, 0) {
      TrackHas(s, db, v, |s.txns|, x);
      BeforeNext(s, x, v);
      SolvesAfter(db, e, x);
      IdsAfter(s.versions[v], e, x.challenge);
      if HasId(s.versions[v + 1], x.challenge) && (x in s.versions[0].solves || Before(s, x, v + 1, 0)) {
        NoNewIds(s, x, v);
      }
    }
  }

  /** What the next submission leads to. */
  lemma SubmissionReplays(s: State, db: Tables, v: nat, n: nat) returns (next: Tables)
    requires Setting(s) && v < |s.versions| && n < |s.txns| && At(s.txns[n], v) && Track(s, db, v, n)
    ensures Submit(db, s.txns[n].guess) == (next, s.txns[n].answer) && Track(s, next, v, n + 1)
  {
    var x := s.txns[n];
    if x.answer.ValidFlag? {
      var captured := Solve(x.guess.team, x.answer.challenge.id);
      CaptureReplays(s, db, n, captured);
      next := db.(solves := db.solves + [captured]);
    } else {
      ReadReplays(s, db, v, n);
      next := db;
    }
  }

  lemma ReplayedNext(db: Tables, op: Op, rest: seq<Op>)
    requires op.Submitted? ==> Submit(db, op.guess).1 == op.answer
    ensures Replayed(db, [op] + rest) == Replayed(Next(db, op), rest)
  {
    assert ([op] + rest)[1..] == rest;
  }

  lemma {:induction false} Replay(s: State, db: Tables, v: nat, n: nat) returns (end: Tables)
    requires Setting(s) && v <= |s.log| && n <= |s.txns| && Track(s, db, v, n)
    ensures Serial(db, SnapOrder(s, v, n), end) && Track(s, end, |s.log|, |s.txns|)
    decreases |s.log| - v, |s.txns| - n
  {
    if n < |s.txns| {
      if At(s.txns[n], v) {
        var next := SubmissionReplays(s, db, v, n);
        end := Replay(s, next, v, n + 1);
        ReplayedNext(db, Asked(s, n), SnapOrder(s, v, n + 1));
      } else {
        NothingPlaced(s, v, n);
        end := Replay(s, db, v, n + 1);
      }
    } else if v < |s.log| {
      if s.log[v].Staff? {
        EditTracks(s, db, v, s.log[v].edit);
        end := Replay(s, ApplyEdit(db, s.log[v].edit), v + 1, 0);
        ReplayedNext(db, StaffEdit(s.log[v].edit), SnapOrder(s, v + 1, 0));
      } else {
        CommitTracks(s, db, v);
        end := Replay(s, db, v + 1, 0);
      }
    } else {
      end := db;
    }
  }

  lemma StartTracks(s: State)
    requires Setting(s)
    ensures Track(s, s.versions[0], 0, 0)
  {
    forall x ensures x in Holding(s.versions[0]) <==> x in Expected(s, 0, 0) {
      assert !Before(s, x, 0, 0);
    }
  }

  // ------------------------------------------------------------------ the result

  lemma TimesNext(op: Op, rest: seq<Op>, t: nat)
    ensures Times([op] + rest, t) == (if op.Submitted? && op.txn == t then 1 else 0) + Times(rest, t)
  {
    assert ([op] + rest)[1..] == rest;
  }

  /** Placed at version `v` from the `n`-th transaction on, or at a later version. */
  predicate StillToCome(x: Txn, t: nat, v: nat, n: nat) {
    Answered(x) && (x.snap > v || (x.snap == v && t >= n))
  }

  lemma {:induction false} EachOnce(s: State, v: nat, n: nat, t: nat)
    requires v <= |s.log| && n <= |s.txns| && t < |s.txns| && (Answered(s.txns[t]) ==> s.txns[t].snap <= |s.log|)
    ensures Times(SnapOrder(s, v, n), t) == if StillToCome(s.txns[t], t, v, n) then 1 else 0
    decreases |s.log| - v, |s.txns| - n
  {
    if n < |s.txns| {
      EachOnce(s, v, n + 1, t);
      if At(s.txns[n], v) {
        TimesNext(Asked(s, n), SnapOrder(s, v, n + 1), t);
      }
    } else if v < |s.log| {
      EachOnce(s, v + 1, 0, t);
      if s.log[v].Staff? {
        TimesNext(StaffEdit(s.log[v].edit), SnapOrder(s, v + 1, 0), t);
      }
    }
  }

  /** The replay ends with the solves there are. */
  lemma EndTracks(s: State, end: Tables, x: Solve)
    requires Setting(s) && Track(s, end, |s.log|, |s.txns|)
    ensures x in end.solves <==> x in Now(s).solves
  {
    var n := |s.log|;
    AreLinked(s);
    TrackHas(s, end, n, |s.txns|, x);
    if x in Now(s).solves {
      HeldFrom(s, x, n);
      if k: nat :| k < n && Captures(s.log[k], x) {
        var t := TxnOf(s, x, k);
        assert Before(s, x, n, |s.txns|);
      }
    } else if x in end.solves {
      if x in s.versions[0].solves {
        Persists(s.versions, s.log, x, 0, n);
      } else {
        var t: nat :| CapturedBy(s, x, t) && (s.txns[t].snap < n || (s.txns[t].snap == n && t < |s.txns|));
        var k := EntryOf(s, x, t);
        Persists(s.versions, s.log, x, k + 1, n);
      }
    }
  }

  lemma {:induction false} OneOfEach(solves: seq<Solve>, x: Solve)
    requires OneCapture(Tables([], solves))
    ensures multiset(solves)[x] == if x in solves then 1 else 0
  {
    if solves != [] {
      var rest := solves[1..];
      assert forall i :: 0 <= i < |rest| ==> rest[i] == solves[i + 1];
      assert Tables([], rest).solves == rest;
      OneOfEach(rest, x);
      assert solves == [solves[0]] + rest;
    }
  }

  /** However staff edit, if no challenge id comes back after it has gone: the submissions that did not fail, each
      placed once at the snapshot it read, and the edits in commit order, done one after another give every answer that
      was given, the challenges there are and the solves there are, in some order. So captures that outlive the
      challenge they were for are in order too. */
  lemma SerialAtSnapshots(db: Tables, acts: seq<Action>, s: State) returns (end: Tables)
    requires Keys(db) && OneCapture(db) && ForeignKeys(db) && Run(Init(db), acts, s) && NoIdReturns(s.versions)
    ensures |s.versions| == |s.log| + 1
    ensures Serial(db, SnapOrder(s, 0, 0), end)
    ensures end.challenges == Now(s).challenges && multiset(end.solves) == multiset(Now(s).solves)
    ensures forall t: nat :: t < |s.txns| ==> Times(SnapOrder(s, 0, 0), t) == if Answered(s.txns[t]) then 1 else 0
  {
    InvRun(Init(db), acts, s);
    FirstVersionStays(Init(db), acts, s);
    StartTracks(s);
    end := Replay(s, db, 0, 0);
    SameBag(s, end);
    forall t: nat | t < |s.txns| ensures Times(SnapOrder(s, 0, 0), t) == if Answered(s.txns[t]) then 1 else 0 {
      assert TxnInv(s, t);
      EachOnce(s, 0, 0, t);
    }
  }

  lemma SameBag(s: State, end: Tables)
    requires Setting(s) && Track(s, end, |s.log|, |s.txns|)
    ensures multiset(end.solves) == multiset(Now(s).solves)
  {
    assert OneCapture(Now(s));
    forall x ensures multiset(end.solves)[x] == multiset(Now(s).solves)[x] {
      EndTracks(s, end, x);
      OneOfEach(end.solves, x);
      OneOfEach(Now(s).solves, x);
    }
  }
}
