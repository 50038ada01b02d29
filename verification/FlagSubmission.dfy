/** Flag submissions as concurrent transactions. The solve table has no unique key, so that a team
    captures a challenge once rests on the transaction alone.

    What is taken from the database: a transaction reads one snapshot, taken at its first query; its commit is
    refused when a submission that committed since has written a solve its query looked for (a serialization
    failure), or when the challenge it refers to is gone (the foreign key); and deleting a challenge deletes
    its solves. Staff edit challenges in transactions of their own, which nothing validates. */
module FlagSubmission {
  import opened Common
  import opened Relational

  datatype Challenge = Challenge(id: int, name: string, category: string, flag: string, total: real, hidden: bool)

  datatype Solve = Solve(team: int, challenge: int)

  datatype Tables = Tables(challenges: seq<Challenge>, solves: seq<Solve>)

  datatype Guess = Guess(team: int, name: string, flag: string)

  datatype Answer =
    | ValidFlag(challenge: Challenge)
    | AlreadyCaptured(challenge: Challenge)
    | InvalidFlag
    | Failed // the transaction was rolled back with an error

  /** Primary key, unique names and unique flags. */
  ghost predicate Keys(db: Tables) {
    forall i, j :: 0 <= i < j < |db.challenges| ==>
      && db.challenges[i].id != db.challenges[j].id
      && db.challenges[i].name != db.challenges[j].name
      && db.challenges[i].flag != db.challenges[j].flag
  }

  ghost predicate OneCapture(db: Tables) {
    forall i, j :: 0 <= i < j < |db.solves| ==> db.solves[i] != db.solves[j]
  }

  /** The WHERE clause: a named guess is for a public challenge, an unnamed one for a hidden challenge. */
  predicate Matches(c: Challenge, g: Guess) {
    if |g.name| > 0 then !c.hidden && c.flag == g.flag && c.name == g.name
    else c.hidden && c.flag == g.flag
  }

  function OfTeam(team: int): (Challenge, Solve) -> bool {
    (c: Challenge, s: Solve) => c.id == s.challenge && s.team == team
  }

  function QueryRows(db: Tables, g: Guess): seq<(Challenge, Option<Solve>)> {
    Where(LeftJoin(db.challenges, db.solves, OfTeam(g.team)), MatchingGuess(g))
  }

  /** The row a submission reads: the challenge guessed, with the team's solve of it. */
  function ReadRow(db: Tables, g: Guess): Option<(Challenge, Option<Solve>)> {
    FirstMatch(db.challenges, db.solves, g)
  }

  function FirstMatch(cs: seq<Challenge>, solves: seq<Solve>, g: Guess): Option<(Challenge, Option<Solve>)> {
    if cs == [] then None
    else if Matches(cs[0], g) then
      Some((cs[0], if Solve(g.team, cs[0].id) in solves then Some(Solve(g.team, cs[0].id)) else None))
    else FirstMatch(cs[1..], solves, g)
  }

  function MatchingGuess(g: Guess): ((Challenge, Option<Solve>)) -> bool {
    (row: (Challenge, Option<Solve>)) => Matches(row.0, g)
  }

  /** The rows that one challenge contributes to the join all match or all do not. */
  lemma {:induction false} MatchedRows(c: Challenge, ms: seq<Solve>, g: Guess)
    ensures Where(Matched(c, ms), MatchingGuess(g)) == if Matches(c, g) then Matched(c, ms) else []
  {
    if ms != [] {
      MatchedRows(c, ms[1..], g);
    }
  }

  lemma JoinedRows(c: Challenge, solves: seq<Solve>, g: Guess)
    ensures var rows := Where(Joined(c, Partners(c, solves, OfTeam(g.team))), MatchingGuess(g));
            if Matches(c, g) then
              rows != [] && rows[0] == (c, if Solve(g.team, c.id) in solves then Some(Solve(g.team, c.id)) else None)
            else rows == []
  {
    var on := OfTeam(g.team);
    var ms := Partners(c, solves, on);
    assert forall s :: on(c, s) <==> s == Solve(g.team, c.id);
    NoPartners(c, solves, on);
    MatchedRows(c, ms, g);
    if ms != [] {
      PartnersAre(c, solves, on, ms[0]);
    }
  }

  /** It is the first row of the query, which is all that is scanned. */
  lemma {:induction false} FirstMatchIsFirstRow(cs: seq<Challenge>, solves: seq<Solve>, g: Guess)
    ensures var rows := Where(LeftJoin(cs, solves, OfTeam(g.team)), MatchingGuess(g));
            FirstMatch(cs, solves, g) == if rows == [] then None else Some(rows[0])
  {
    if cs != [] {
      var first := Joined(cs[0], Partners(cs[0], solves, OfTeam(g.team)));
      WhereAppend(first, LeftJoin(cs[1..], solves, OfTeam(g.team)), MatchingGuess(g));
      JoinedRows(cs[0], solves, g);
      FirstMatchIsFirstRow(cs[1..], solves, g);
    }
  }

  lemma ReadsFirstRow(db: Tables, g: Guess)
    ensures ReadRow(db, g) == if QueryRows(db, g) == [] then None else Some(QueryRows(db, g)[0])
  {
    FirstMatchIsFirstRow(db.challenges, db.solves, g);
  }

  /** A submission with nothing else going on. */
  function Submit(db: Tables, g: Guess): (Tables, Answer) {
    match ReadRow(db, g)
    case None => (db, InvalidFlag)
    case Some((c, Some(_))) => (db, AlreadyCaptured(c))
    case Some((c, None)) => (db.(solves := db.solves + [Solve(g.team, c.id)]), ValidFlag(c))
  }

  lemma QueryRowsAre(db: Tables, g: Guess, c: Challenge)
    ensures (c, None) in QueryRows(db, g) <==>
            c in db.challenges && Matches(c, g) && Solve(g.team, c.id) !in db.solves
    ensures forall s :: (c, Some(s)) in QueryRows(db, g) <==>
              c in db.challenges && Matches(c, g) && s in db.solves && s == Solve(g.team, c.id)
  {
    var on := OfTeam(g.team);
    var joined := LeftJoin(db.challenges, db.solves, on);
    WhereKeeps(joined, MatchingGuess(g));
    assert forall s :: on(c, s) <==> s == Solve(g.team, c.id);
    LeftJoinHas(db.challenges, db.solves, on, c, None);
    forall s ensures (c, Some(s)) in joined <==> c in db.challenges && s in db.solves && on(c, s) {
      LeftJoinHas(db.challenges, db.solves, on, c, Some(s));
    }
  }

  /** What the query means: the challenge guessed, if any, and whether the team holds it. */
  lemma ReadMeans(db: Tables, g: Guess)
    requires Keys(db)
    ensures ReadRow(db, g).None? <==> forall c :: c in db.challenges ==> !Matches(c, g)
    ensures ReadRow(db, g).Some? ==>
              var (c, held) := ReadRow(db, g).value;
              && c in db.challenges && Matches(c, g)
              && (forall c' :: c' in db.challenges && Matches(c', g) ==> c' == c)
              && (held.Some? <==> Solve(g.team, c.id) in db.solves)
  {
    FirstMatchMeans(db.challenges, db.solves, g);
  }

  lemma {:induction false} FirstMatchMeans(cs: seq<Challenge>, solves: seq<Solve>, g: Guess)
    ensures FirstMatch(cs, solves, g).None? <==> forall c :: c in cs ==> !Matches(c, g)
    ensures FirstMatch(cs, solves, g).Some? ==>
              var (c, held) := FirstMatch(cs, solves, g).value;
              c in cs && Matches(c, g) && (held.Some? <==> Solve(g.team, c.id) in solves)
  {
    if cs != [] {
      FirstMatchMeans(cs[1..], solves, g);
      assert cs == [cs[0]] + cs[1..];
    }
  }

  /** The flag is the challenge's own; a name says which public challenge is meant, no name means a hidden one. */
  ghost predicate RightFlag(c: Challenge, g: Guess) {
    && c.flag == g.flag
    && ((|g.name| > 0 && c.name == g.name && !c.hidden) || (|g.name| == 0 && c.hidden))
  }

  /** The one challenge a guess is for. */
  ghost predicate GuessedIs(db: Tables, g: Guess, c: Challenge) {
    c in db.challenges && RightFlag(c, g) && forall c' :: c' in db.challenges && RightFlag(c', g) ==> c' == c
  }

  /** What a submission should do: award a correct flag once, and write nothing otherwise. */
  ghost predicate Awarded(db: Tables, g: Guess, after: Tables, answer: Answer) {
    && after.challenges == db.challenges
    && match answer
       case ValidFlag(c) =>
         && GuessedIs(db, g, c) && Solve(g.team, c.id) !in db.solves
         && after.solves == db.solves + [Solve(g.team, c.id)]
       case AlreadyCaptured(c) => GuessedIs(db, g, c) && Solve(g.team, c.id) in db.solves && after.solves == db.solves
       case InvalidFlag => (forall c :: c in db.challenges ==> !RightFlag(c, g)) && after.solves == db.solves
       case Failed => false
  }

  /** No other tables and answer meet that description. */
  lemma SubmitMeans(db: Tables, g: Guess, after: Tables, answer: Answer)
    requires Keys(db)
    ensures Submit(db, g) == (after, answer) <==> Awarded(db, g, after, answer)
  {
    ReadMeans(db, g);
  }

  /** Which answer, for which tables: a flag counts for the challenge it belongs to, once for each team. */
  lemma AnswerMeans(db: Tables, g: Guess)
    requires Keys(db)
    ensures forall c :: Submit(db, g).1 == ValidFlag(c) <==>
              c in db.challenges && RightFlag(c, g) && Solve(g.team, c.id) !in db.solves
    ensures forall c :: Submit(db, g).1 == AlreadyCaptured(c) <==>
              c in db.challenges && RightFlag(c, g) && Solve(g.team, c.id) in db.solves
    ensures Submit(db, g).1 == InvalidFlag <==> forall c :: c in db.challenges ==> !RightFlag(c, g)
    ensures Submit(db, g).0 ==
            match Submit(db, g).1
            case ValidFlag(c) => db.(solves := db.solves + [Solve(g.team, c.id)])
            case _ => db
  {
    ReadMeans(db, g);
  }

  /** The handler's store: one submission at a time. */
  class Store {
    var challenges: seq<Challenge>
    var solves: seq<Solve>

    constructor (challenges: seq<Challenge>)
      ensures this.challenges == challenges && solves == []
    {
      this.challenges := challenges;
      solves := [];
    }

    function Contents(): Tables
      reads this
    {
      Tables(challenges, solves)
    }

    method CheckFlagSubmission(g: Guess) returns (answer: Answer)
      modifies this`solves
      ensures (Contents(), answer) == Submit(old(Contents()), g)
      ensures Keys(old(Contents())) ==> Awarded(old(Contents()), g, Contents(), answer)
    {
      ghost var before := Contents();
      var row := ReadRow(Contents(), g);
      if row.None? {
        answer := InvalidFlag;
      } else {
        var (c, solver) := row.value;
        if solver.Some? {
          answer := AlreadyCaptured(c);
        } else {
          solves := solves + [Solve(g.team, c.id)];
          answer := ValidFlag(c);
        }
      }
      if Keys(before) {
        SubmitMeans(before, g, Contents(), answer);
      }
    }
  }

  // ------------------------------------------------------------- staff edits

  datatype Edit = Add(challenge: Challenge) | Replace(challenge: Challenge) | Delete(id: int)

  function Without(s: seq<Challenge>, id: int): seq<Challenge> {
    Where(s, (c: Challenge) => c.id != id)
  }

  function ApplyEdit(db: Tables, e: Edit): Tables {
    match e
    case Add(c) => db.(challenges := db.challenges + [c])
    case Replace(c) =>
      db.(challenges := seq(|db.challenges|, i requires 0 <= i < |db.challenges| =>
                            if db.challenges[i].id == c.id then c else db.challenges[i]))
    case Delete(id) =>
      Tables(Without(db.challenges, id), Where(db.solves, (s: Solve) => s.challenge != id))
  }

  lemma {:induction false} ReplacedIs(cs: seq<Challenge>, x: Challenge, c: Challenge)
    ensures c in ApplyEdit(Tables(cs, []), Replace(x)).challenges <==>
            (c in cs && c.id != x.id) || (c == x && exists y :: y in cs && y.id == x.id)
  {
    var after := ApplyEdit(Tables(cs, []), Replace(x)).challenges;
    assert forall i :: 0 <= i < |cs| ==> after[i] == if cs[i].id == x.id then x else cs[i];
    if y :| y in cs && y.id == x.id {
      var i :| 0 <= i < |cs| && cs[i] == y;
      assert after[i] == x;
    }
    if c in cs && c.id != x.id {
      var i :| 0 <= i < |cs| && cs[i] == c;
      assert after[i] == c;
    }
  }

  /** What an edit leaves. */
  lemma EditMeans(db: Tables, e: Edit, c: Challenge, x: Solve)
    ensures c in ApplyEdit(db, e).challenges <==>
            match e
            case Add(added) => c in db.challenges || c == added
            case Replace(new_) =>
              || (c in db.challenges && c.id != new_.id)
              || (c == new_ && exists y :: y in db.challenges && y.id == new_.id)
            case Delete(id) => c in db.challenges && c.id != id
    ensures x in ApplyEdit(db, e).solves <==> x in db.solves && (e.Delete? ==> x.challenge != e.id)
  {
    match e
    case Add(_) =>
    case Replace(new_) => ReplacedIs(db.challenges, new_, c);
    case Delete(id) =>
      WhereKeeps(db.challenges, (y: Challenge) => y.id != id);
      WhereKeeps(db.solves, (y: Solve) => y.challenge != id);
  }

  // ------------------------------------------------------- the step system

  datatype Entry = Captured(txn: nat, guess: Guess, snap: nat, challenge: Challenge) | Staff(edit: Edit)

  datatype Txn =
    | Begun(guess: Guess, begun: nat)
    | HasRead(guess: Guess, begun: nat, snap: nat, row: Option<(Challenge, Option<Solve>)>)
    | Inserted(guess: Guess, begun: nat, snap: nat, challenge: Challenge)
    | Done(guess: Guess, begun: nat, snap: nat, answer: Answer, at: nat)

  /** `versions` are the committed tables, oldest first; `log[k]` is what led from
      version `k` to version `k + 1`. */
  datatype State = State(versions: seq<Tables>, log: seq<Entry>, txns: seq<Txn>)

  datatype Action =
    | Begin(guess: Guess)
    | Read(t: nat)
    | Insert(t: nat)
    | Commit(t: nat)
    | Abort(t: nat)
    | Change(edit: Edit)

  function Init(db: Tables): State { State([db], [], []) }

  function Now(s: State): Tables
    requires s.versions != []
  {
    s.versions[|s.versions| - 1]
  }

  ghost predicate Enabled(s: State, a: Action)
    requires s.versions != []
  {
    match a
    case Begin(_) => true
    case Read(t) => t < |s.txns| && s.txns[t].Begun?
    case Insert(t) => t < |s.txns| && s.txns[t].HasRead? && s.txns[t].row.Some? && s.txns[t].row.value.1.None?
    case Commit(t) => t < |s.txns| && s.txns[t].Inserted?
    case Abort(t) => t < |s.txns| && !s.txns[t].Done?
    case Change(e) => Keys(ApplyEdit(Now(s), e))
  }

  /** Since version `snap` some submission has committed a capture of challenge `id` by `team`. */
  predicate CapturedSince(log: seq<Entry>, snap: nat, team: int, id: int) {
    exists k :: snap <= k < |log| && log[k].Captured? && log[k].guess.team == team && log[k].challenge.id == id
  }

  predicate HasId(db: Tables, id: int) {
    exists i :: 0 <= i < |db.challenges| && db.challenges[i].id == id
  }

  /** What the database checks at commit. It does not look for the solve itself: no unique key covers it. */
  predicate CommitAllowed(s: State, x: Txn)
    requires s.versions != [] && x.Inserted?
  {
    && !CapturedSince(s.log, x.snap, x.guess.team, x.challenge.id)
    && HasId(Now(s), x.challenge.id)
  }

  function Apply(s: State, a: Action): State
    requires s.versions != [] && Enabled(s, a)
  {
    var last := |s.versions| - 1;
    match a
    case Begin(g) => s.(txns := s.txns + [Begun(g, last)])
    case Read(t) =>
      var x := s.txns[t];
      var row := ReadRow(Now(s), x.guess);
      s.(txns := s.txns[t :=
        match row
        case None => Done(x.guess, x.begun, last, InvalidFlag, last)
        case Some((c, Some(_))) => Done(x.guess, x.begun, last, AlreadyCaptured(c), last)
        case Some((c, None)) => HasRead(x.guess, x.begun, last, row)])
    case Insert(t) =>
      var x := s.txns[t];
      s.(txns := s.txns[t := Inserted(x.guess, x.begun, x.snap, x.row.value.0)])
    case Commit(t) =>
      var x := s.txns[t];
      var db := Now(s);
      if CommitAllowed(s, x) then
        State(s.versions + [db.(solves := db.solves + [Solve(x.guess.team, x.challenge.id)])],
              s.log + [Captured(t, x.guess, x.snap, x.challenge)],
              s.txns[t := Done(x.guess, x.begun, x.snap, ValidFlag(x.challenge), last)])
      else
        s.(txns := s.txns[t := Done(x.guess, x.begun, x.snap, Failed, last)])
    case Abort(t) =>
      var x := s.txns[t];
      s.(txns := s.txns[t := Done(x.guess, x.begun, last, Failed, last)])
    case Change(e) =>
      s.(versions := s.versions + [ApplyEdit(Now(s), e)], log := s.log + [Staff(e)])
  }

  ghost predicate Run(s: State, acts: seq<Action>, s': State)
    decreases |acts|
  {
    if acts == [] then s == s'
    else s.versions != [] && Enabled(s, acts[0]) && Run(Apply(s, acts[0]), acts[1..], s')
  }

  // ------------------------------------------------------------- invariants

  /** The k-th entry led from version `k` to the next. */
  ghost predicate Led(versions: seq<Tables>, log: seq<Entry>, k: nat)
    requires k < |log| && |versions| == |log| + 1
  {
    match log[k]
    case Captured(_, g, _, c) =>
      versions[k + 1] == versions[k].(solves := versions[k].solves + [Solve(g.team, c.id)])
    case Staff(e) => versions[k + 1] == ApplyEdit(versions[k], e)
  }

  /** A capture is that of a finished transaction, which had not found the solve in its snapshot. */
  ghost predicate Happened(s: State, k: nat)
    requires k < |s.log| && |s.versions| == |s.log| + 1
  {
    && Led(s.versions, s.log, k)
    && match s.log[k]
       case Captured(t, g, snap, c) =>
         && snap <= k
         && ReadRow(s.versions[snap], g) == Some((c, None))
         && Solve(g.team, c.id) !in s.versions[k].solves
         && HasId(s.versions[k], c.id)
         && !CapturedSince(s.log[..k], snap, g.team, c.id)
         && t < |s.txns| && s.txns[t].Done?
         && s.txns[t] == Done(g, s.txns[t].begun, snap, ValidFlag(c), k)
       case Staff(_) => true
  }

  ghost predicate TxnInv(s: State, t: nat)
    requires |s.versions| == |s.log| + 1 && t < |s.txns|
  {
    var x := s.txns[t];
    && x.begun < |s.versions|
    && match x
       case Begun(_, _) => true
       case HasRead(g, begun, snap, row) =>
         begun <= snap < |s.versions| && row == ReadRow(s.versions[snap], g)
       case Inserted(g, begun, snap, c) =>
         begun <= snap < |s.versions| && ReadRow(s.versions[snap], g) == Some((c, None))
       case Done(g, begun, snap, answer, at) =>
         && begun <= snap <= at < |s.versions|
         && match answer
            case Failed => true
            case ValidFlag(c) => at < |s.log| && s.log[at] == Captured(t, g, snap, c)
            case _ => Submit(s.versions[snap], g) == (s.versions[snap], answer)
  }

  ghost predicate Inv(s: State) {
    && |s.versions| == |s.log| + 1
    && (forall k :: 0 <= k < |s.versions| ==> Keys(s.versions[k]) && OneCapture(s.versions[k]))
    && (forall k: nat :: k < |s.log| ==> Happened(s, k))
    && (forall t: nat :: t < |s.txns| ==> TxnInv(s, t))
  }

  lemma {:induction false} WhereOneCapture(solves: seq<Solve>, id: int)
    requires OneCapture(Tables([], solves))
    ensures OneCapture(Tables([], Where(solves, (s: Solve) => s.challenge != id)))
  {
    if solves != [] {
      var keep := (s: Solve) => s.challenge != id;
      assert Tables([], solves[1..]).solves == solves[1..];
      WhereOneCapture(solves[1..], id);
      WhereKeeps(solves[1..], keep);
      assert forall x :: x in Where(solves[1..], keep) ==> x != solves[0];
    }
  }

  /** A solve that a transaction did not find in its snapshot is in no later version either, as long as
      no submission has committed it since: staff edits take solves away but add none. */
  lemma {:induction false} NotHeldSince(versions: seq<Tables>, log: seq<Entry>, snap: nat, team: int, id: int, j: nat)
    requires |versions| == |log| + 1 && snap <= j < |versions|
    requires forall k: nat :: k < |log| ==> Led(versions, log, k)
    requires Solve(team, id) !in versions[snap].solves && !CapturedSince(log, snap, team, id)
    ensures Solve(team, id) !in versions[j].solves
    decreases j
  {
    if snap < j {
      NotHeldSince(versions, log, snap, team, id, j - 1);
      assert Led(versions, log, j - 1);
      match log[j - 1]
      case Captured(_, g, _, c) => assert Solve(g.team, c.id) != Solve(team, id);
      case Staff(edit) =>
        if edit.Delete? {
          WhereKeeps(versions[j - 1].solves, (x: Solve) => x.challenge != edit.id);
        }
    }
  }

  /** The snapshot's answer still stands when a commit is let through. */
  lemma ReadStillValid(s: State, t: nat)
    requires Inv(s) && t < |s.txns| && s.txns[t].Inserted? && CommitAllowed(s, s.txns[t])
    ensures Solve(s.txns[t].guess.team, s.txns[t].challenge.id) !in Now(s).solves
  {
    assert TxnInv(s, t);
    var x := s.txns[t];
    ReadMeans(s.versions[x.snap], x.guess);
    forall k: nat | k < |s.log| ensures Led(s.versions, s.log, k) {
      assert Happened(s, k);
    }
    NotHeldSince(s.versions, s.log, x.snap, x.guess.team, x.challenge.id, |s.versions| - 1);
  }

  /** The tables after a step: still keyed, still one capture per team and challenge. */
  lemma NewVersionGood(s: State, a: Action)
    requires Inv(s) && Enabled(s, a) && |Apply(s, a).versions| > |s.versions|
    ensures Keys(Now(Apply(s, a))) && OneCapture(Now(Apply(s, a)))
  {
    if a.Commit? {
      ReadStillValid(s, a.t);
    } else if a.Change? && a.edit.Delete? {
      WhereOneCapture(Now(s).solves, a.edit.id);
    }
  }

  lemma LogsGrow(s: State, a: Action)
    requires s.versions != [] && |s.versions| == |s.log| + 1 && Enabled(s, a)
    ensures var s' := Apply(s, a);
            && |s'.versions| == |s'.log| + 1
            && s.versions <= s'.versions && s.log <= s'.log
            && |s'.versions| <= |s.versions| + 1
            && |s.txns| <= |s'.txns|
            && forall t :: 0 <= t < |s.txns| && s.txns[t].Done? ==> s'.txns[t] == s.txns[t]
  {
  }

  lemma EntryStays(s: State, a: Action, k: nat)
    requires Inv(s) && Enabled(s, a) && k < |s.log|
    requires |Apply(s, a).versions| == |Apply(s, a).log| + 1
    ensures k < |Apply(s, a).log| && Happened(Apply(s, a), k)
  {
    LogsGrow(s, a);
    assert Happened(s, k);
    assert Apply(s, a).log[k] == s.log[k] && Apply(s, a).log[..k] == s.log[..k];
  }

  lemma EntryAdded(s: State, a: Action)
    requires Inv(s) && Enabled(s, a) && |Apply(s, a).log| > |s.log|
    requires |Apply(s, a).versions| == |Apply(s, a).log| + 1
    ensures Happened(Apply(s, a), |s.log|)
  {
    if a.Commit? {
      assert TxnInv(s, a.t);
      ReadStillValid(s, a.t);
      assert Apply(s, a).log[..|s.log|] == s.log;
    }
  }

  lemma TxnStays(s: State, a: Action, t: nat)
    requires Inv(s) && Enabled(s, a) && t < |s.txns| && Apply(s, a).txns[t] == s.txns[t]
    requires |Apply(s, a).versions| == |Apply(s, a).log| + 1
    ensures TxnInv(Apply(s, a), t)
  {
    LogsGrow(s, a);
    assert TxnInv(s, t);
  }

  lemma TxnMoves(s: State, a: Action, t: nat)
    requires Inv(s) && Enabled(s, a) && t < |Apply(s, a).txns|
    requires t == |s.txns| || Apply(s, a).txns[t] != s.txns[t]
    requires |Apply(s, a).versions| == |Apply(s, a).log| + 1
    ensures TxnInv(Apply(s, a), t)
  {
    LogsGrow(s, a);
    if t < |s.txns| {
      assert TxnInv(s, t);
    }
  }

  lemma InvStep(s: State, a: Action)
    requires Inv(s) && Enabled(s, a)
    ensures Inv(Apply(s, a))
  {
    var s' := Apply(s, a);
    LogsGrow(s, a);
    forall k | 0 <= k < |s'.versions| ensures Keys(s'.versions[k]) && OneCapture(s'.versions[k]) {
      if k == |s.versions| {
        NewVersionGood(s, a);
      } else {
        assert s'.versions[k] == s.versions[k];
      }
    }
    forall k: nat | k < |s'.log| ensures Happened(s', k) {
      if k < |s.log| {
        EntryStays(s, a, k);
      } else {
        EntryAdded(s, a);
      }
    }
    forall t: nat | t < |s'.txns| ensures TxnInv(s', t) {
      if t < |s.txns| && s'.txns[t] == s.txns[t] {
        TxnStays(s, a, t);
      } else {
        TxnMoves(s, a, t);
      }
    }
  }

  lemma {:induction false} InvRun(s: State, acts: seq<Action>, s': State)
    requires Inv(s) && Run(s, acts, s')
    ensures Inv(s')
    decreases |acts|
  {
    if acts != [] {
      InvStep(s, acts[0]);
      InvRun(Apply(s, acts[0]), acts[1..], s');
    }
  }

  // ---------------------------------------------------------------- results

  /** However submissions and staff edits interleave, no team ever holds a challenge twice. */
  lemma CapturedOnce(db: Tables, acts: seq<Action>, s: State)
    requires Keys(db) && OneCapture(db) && Run(Init(db), acts, s)
    ensures forall k :: 0 <= k < |s.versions| ==> OneCapture(s.versions[k])
    ensures s.versions != [] && OneCapture(Now(s))
  {
    InvRun(Init(db), acts, s);
  }

  /** Every capture ever committed was by a guess with the challenge's own flag. */
  lemma CapturesAreRight(db: Tables, acts: seq<Action>, s: State, k: nat)
    requires Keys(db) && OneCapture(db) && Run(Init(db), acts, s)
    requires k < |s.log| && s.log[k].Captured?
    ensures RightFlag(s.log[k].challenge, s.log[k].guess)
    ensures s.log[k].snap < |s.versions| && s.log[k].challenge in s.versions[s.log[k].snap].challenges
  {
    InvRun(Init(db), acts, s);
    assert Happened(s, k);
    ReadMeans(s.versions[s.log[k].snap], s.log[k].guess);
  }

  /** From any reachable state a submission with nothing else going on does, and answers, what it should:
      nothing but a conflict keeps a commit from going through. */
  lemma AloneIsAtomic(db: Tables, before: seq<Action>, s: State, g: Guess) returns (acts: seq<Action>, s': State)
    requires Keys(db) && OneCapture(db) && Run(Init(db), before, s)
    ensures s.versions != [] && Run(s, acts, s') && s'.versions != []
    ensures |s'.txns| == |s.txns| + 1 && s'.txns[|s.txns|].Done?
    ensures (Now(s'), s'.txns[|s.txns|].answer) == Submit(Now(s), g)
  {
    InvRun(Init(db), before, s);
    var t := |s.txns|;
    var s1 := Apply(s, Begin(g));
    var s2 := Apply(s1, Read(t));
    ReadMeans(Now(s), g);
    if s2.txns[t].Done? {
      s' := s2;
      RunOne(s1, Read(t), [], s');
      acts := [Read(t)] + [];
    } else {
      s' := CommitsAlone(s2, t);
      RunOne(Apply(s2, Insert(t)), Commit(t), [], s');
      RunOne(s2, Insert(t), [Commit(t)] + [], s');
      acts := [Insert(t)] + ([Commit(t)] + []);
      RunOne(s1, Read(t), acts, s');
      acts := [Read(t)] + acts;
    }
    RunOne(s, Begin(g), acts, s');
    acts := [Begin(g)] + acts;
  }

  lemma CommitsAlone(s: State, t: nat) returns (s': State)
    requires s.versions != [] && |s.versions| == |s.log| + 1 && t < |s.txns| && s.txns[t].HasRead?
    requires s.txns[t].row.Some? && s.txns[t].row.value.1.None? && s.txns[t].snap == |s.log|
    requires s.txns[t].row.value.0 in Now(s).challenges
    ensures Enabled(s, Insert(t)) && Enabled(Apply(s, Insert(t)), Commit(t))
    ensures s' == Apply(Apply(s, Insert(t)), Commit(t)) && |s'.txns| == |s.txns| && s'.versions != []
    ensures var x, c := s.txns[t], s.txns[t].row.value.0;
            && s'.txns[t] == Done(x.guess, x.begun, x.snap, ValidFlag(c), |s.versions| - 1)
            && Now(s') == Now(s).(solves := Now(s).solves + [Solve(x.guess.team, c.id)])
  {
    s' := Apply(Apply(s, Insert(t)), Commit(t));
    var i :| 0 <= i < |Now(s).challenges| && Now(s).challenges[i] == s.txns[t].row.value.0;
    assert HasId(Now(s), s.txns[t].row.value.0.id);
  }

  /** A submission rolled back leaves the tables as they are, and it is over: whatever
      happens later, it has failed and captured nothing. */
  lemma RolledBack(db: Tables, before: seq<Action>, s: State, t: nat, after: seq<Action>, s': State)
    requires Keys(db) && OneCapture(db) && Run(Init(db), before, s)
    requires s.versions != [] && Enabled(s, Abort(t)) && Run(Apply(s, Abort(t)), after, s')
    ensures Apply(s, Abort(t)).versions == s.versions
    ensures t < |s'.txns| && s'.txns[t].Done? && s'.txns[t].answer == Failed
    ensures forall k :: 0 <= k < |s'.log| && s'.log[k].Captured? ==> s'.log[k].txn != t
  {
    InvRun(Init(db), before, s);
    InvStep(s, Abort(t));
    InvRun(Apply(s, Abort(t)), after, s');
    DoneStays(Apply(s, Abort(t)), after, s', t);
    forall k: nat | k < |s'.log| && s'.log[k].Captured? ensures s'.log[k].txn != t {
      assert Happened(s', k);
    }
  }

  lemma {:induction false} DoneStays(s: State, acts: seq<Action>, s': State, t: nat)
    requires Inv(s) && Run(s, acts, s') && t < |s.txns| && s.txns[t].Done?
    ensures t < |s'.txns| && s'.txns[t] == s.txns[t]
    decreases |acts|
  {
    if acts != [] {
      LogsGrow(s, acts[0]);
      InvStep(s, acts[0]);
      DoneStays(Apply(s, acts[0]), acts[1..], s', t);
    }
  }

  /** The challenge row a capture read is in the tables it was committed to. */
  ghost predicate Fresh(s: State, k: nat)
    requires k < |s.log| <= |s.versions|
  {
    s.log[k].Captured? ==> s.log[k].challenge in s.versions[k].challenges
  }

  /** A committed capture did to the tables, and answered, just what an atomic submission at its place in the
      commit order would have, exactly when the challenge row it read is there, unchanged, at its commit. */
  lemma CommitIsAtomic(db: Tables, acts: seq<Action>, s: State, k: nat)
    requires Keys(db) && OneCapture(db) && Run(Init(db), acts, s)
    requires k < |s.log| && s.log[k].Captured?
    ensures |s.versions| == |s.log| + 1
    ensures Submit(s.versions[k], s.log[k].guess) == (s.versions[k + 1], ValidFlag(s.log[k].challenge))
       <==> Fresh(s, k)
  {
    InvRun(Init(db), acts, s);
    FreshIsAtomic(s, k);
  }

  lemma FreshIsAtomic(s: State, k: nat)
    requires Inv(s) && k < |s.log| && s.log[k].Captured?
    ensures Submit(s.versions[k], s.log[k].guess) == (s.versions[k + 1], ValidFlag(s.log[k].challenge))
       <==> Fresh(s, k)
  {
    assert Happened(s, k);
    var e := s.log[k];
    ReadMeans(s.versions[e.snap], e.guess);
    ReadMeans(s.versions[k], e.guess);
  }

  /** And it need not be: for any visible challenge and right guess, if staff hide the challenge between the read and
      the commit the capture stands, though the same guess made at the moment of commit would have been wrong. */
  lemma StaleCapture(c: Challenge, g: Guess) returns (acts: seq<Action>, s: State)
    requires |g.name| > 0 && Matches(c, g)
    ensures Keys(Tables([c], [])) && Run(Init(Tables([c], [])), acts, s)
    ensures |s.log| == 2 && |s.versions| == 3 && s.log[1] == Captured(0, g, 0, c)
    ensures !Fresh(s, 1) && Submit(s.versions[1], g) == (s.versions[1], InvalidFlag)
    ensures Now(s).solves == [Solve(g.team, c.id)]
  {
    var s2 := ReadOf(c, g);
    var s4 := HiddenMeanwhile(c, g, s2);
    s := Apply(s4, Commit(0));
    OnlyRow(c.(hidden := true), g);
    acts := StaleRun(c, g, s2, s4);
  }

  lemma StaleRun(c: Challenge, g: Guess, s2: State, s4: State) returns (acts: seq<Action>)
    requires var start := Apply(Init(Tables([c], [])), Begin(g));
             Enabled(start, Read(0)) && s2 == Apply(start, Read(0)) && s2.versions != []
    requires var edit := Change(Replace(c.(hidden := true)));
             && Enabled(s2, edit) && Enabled(Apply(s2, edit), Insert(0)) && s4 == Apply(Apply(s2, edit), Insert(0))
    requires s4.versions != [] && Enabled(s4, Commit(0))
    ensures Run(Init(Tables([c], [])), acts, Apply(s4, Commit(0)))
  {
    var db, edit, s := Tables([c], []), Change(Replace(c.(hidden := true))), Apply(s4, Commit(0));
    RunOne(s4, Commit(0), [], s);
    RunOne(Apply(s2, edit), Insert(0), [Commit(0)], s);
    acts := [Insert(0)] + [Commit(0)];
    RunOne(s2, edit, acts, s);
    acts := [edit] + acts;
    RunOne(Apply(Init(db), Begin(g)), Read(0), acts, s);
    acts := [Read(0)] + acts;
    RunOne(Init(db), Begin(g), acts, s);
    acts := [Begin(g)] + acts;
  }

  lemma ReadOf(c: Challenge, g: Guess) returns (s: State)
    requires Matches(c, g)
    ensures var start := Apply(Init(Tables([c], [])), Begin(g)); Enabled(start, Read(0)) && s == Apply(start, Read(0))
    ensures s == State([Tables([c], [])], [], [HasRead(g, 0, 0, Some((c, None)))])
  {
    OnlyRow(c, g);
    s := Apply(Apply(Init(Tables([c], [])), Begin(g)), Read(0));
  }

  lemma HiddenMeanwhile(c: Challenge, g: Guess, s: State) returns (s': State)
    requires s == State([Tables([c], [])], [], [HasRead(g, 0, 0, Some((c, None)))])
    ensures var edit := Replace(c.(hidden := true));
            && Enabled(s, Change(edit)) && Enabled(Apply(s, Change(edit)), Insert(0))
            && s' == Apply(Apply(s, Change(edit)), Insert(0))
            && s' == State([Tables([c], []), Tables([c.(hidden := true)], [])], [Staff(edit)], [Inserted(g, 0, 0, c)])
    ensures Enabled(s', Commit(0)) && CommitAllowed(s', s'.txns[0])
  {
    var edit := Replace(c.(hidden := true));
    assert ApplyEdit(Now(s), edit) == Tables([c.(hidden := true)], []);
    s' := Apply(Apply(s, Change(edit)), Insert(0));
    assert Now(s').challenges[0].id == c.id;
  }

  lemma OnlyRow(c: Challenge, g: Guess)
    ensures ReadRow(Tables([c], []), g) == if Matches(c, g) then Some((c, None)) else None
  {
    ReadMeans(Tables([c], []), g);
    assert c in Tables([c], []).challenges;
  }

  lemma RunOne(s: State, a: Action, rest: seq<Action>, s': State)
    requires s.versions != [] && Enabled(s, a) && Run(Apply(s, a), rest, s')
    ensures Run(s, [a] + rest, s')
  {
    assert ([a] + rest)[1..] == rest;
  }

  lemma {:induction false} ChallengesStay(versions: seq<Tables>, log: seq<Entry>, i: nat, j: nat)
    requires |versions| == |log| + 1 && i <= j < |versions|
    requires forall k: nat :: k < |log| ==> Led(versions, log, k) && log[k].Captured?
    ensures versions[i].challenges == versions[j].challenges
    decreases j
  {
    if i < j {
      assert Led(versions, log, j - 1);
      ChallengesStay(versions, log, i, j - 1);
    }
  }

  lemma SubmissionsStayFresh(s: State, k: nat)
    requires Inv(s) && k < |s.log|
    requires forall i :: 0 <= i < |s.log| ==> s.log[i].Captured?
    ensures Fresh(s, k)
  {
    assert Happened(s, k);
    var e := s.log[k];
    forall i: nat | i < |s.log| ensures Led(s.versions, s.log, i) {
      assert Happened(s, i);
    }
    ChallengesStay(s.versions, s.log, e.snap, k);
    ReadMeans(s.versions[e.snap], e.guess);
  }

  // -------------------------------------------------------- the serial order

  /** One thing done all at once: a submission with the answer it got, or a staff edit. */
  datatype Op = Submitted(txn: nat, guess: Guess, answer: Answer) | StaffEdit(edit: Edit)

  function Next(db: Tables, op: Op): Tables {
    if op.Submitted? then Submit(db, op.guess).0 else ApplyEdit(db, op.edit)
  }

  /** Doing them one after another, as long as each submission gets its answer. */
  function Replayed(db: Tables, ops: seq<Op>): Option<Tables>
    decreases |ops|
  {
    if ops == [] then Some(db)
    else if ops[0].Submitted? && Submit(db, ops[0].guess).1 != ops[0].answer then None
    else Replayed(Next(db, ops[0]), ops[1..])
  }

  /** It leads from `db` to `end`, and gives each submission its answer. */
  ghost predicate Serial(db: Tables, ops: seq<Op>, end: Tables) {
    Replayed(db, ops) == Some(end)
  }

  lemma {:induction false} ReplayedJoin(db: Tables, x: seq<Op>, y: seq<Op>)
    ensures Replayed(db, x + y) == match Replayed(db, x) case None => None case Some(m) => Replayed(m, y)
    decreases |x|
  {
    if x == [] {
      assert x + y == y;
    } else {
      assert (x + y)[0] == x[0] && (x + y)[1..] == x[1..] + y;
      ReplayedJoin(Next(db, x[0]), x[1..], y);
    }
  }

  lemma SerialJoin(a: Tables, x: seq<Op>, b: Tables, y: seq<Op>, c: Tables)
    requires Serial(a, x, b) && Serial(b, y, c)
    ensures Serial(a, x + y, c)
  {
    ReplayedJoin(a, x, y);
  }

  /** Finished without writing, on version `v`. */
  predicate ReadOnly(x: Txn, v: nat) {
    x.Done? && x.snap == v && (x.answer.InvalidFlag? || x.answer.AlreadyCaptured?)
  }

  function Asked(s: State, t: nat): Op
    requires t < |s.txns| && s.txns[t].Done?
  {
    Submitted(t, s.txns[t].guess, s.txns[t].answer)
  }

  function Readers(s: State, v: nat, n: nat): seq<Op>
    requires n <= |s.txns|
  {
    if n == 0 then []
    else Readers(s, v, n - 1) + if ReadOnly(s.txns[n - 1], v) then [Asked(s, n - 1)] else []
  }

  function Logged(e: Entry): Op {
    match e
    case Captured(t, g, _, c) => Submitted(t, g, ValidFlag(c))
    case Staff(edit) => StaffEdit(edit)
  }

  /** The log in commit order, with those that only read placed at their snapshots. */
  function Order(s: State, n: nat): seq<Op>
    requires n <= |s.log|
  {
    if n == 0 then Readers(s, 0, |s.txns|)
    else Order(s, n - 1) + [Logged(s.log[n - 1])] + Readers(s, n, |s.txns|)
  }

  lemma OneSerial(db: Tables, op: Op, end: Tables)
    requires Next(db, op) == end
    requires op.Submitted? ==> Submit(db, op.guess).1 == op.answer
    ensures Serial(db, [op], end)
  {
    assert [op][1..] == [];
  }

  lemma {:induction false} ReadersSerial(s: State, v: nat, n: nat, db: Tables)
    requires n <= |s.txns|
    requires forall t: nat :: t < n && ReadOnly(s.txns[t], v) ==> Serial(db, [Asked(s, t)], db)
    ensures Serial(db, Readers(s, v, n), db)
  {
    if n > 0 {
      ReadersSerial(s, v, n - 1, db);
      if ReadOnly(s.txns[n - 1], v) {
        SerialJoin(db, Readers(s, v, n - 1), db, [Asked(s, n - 1)], db);
      } else {
        assert Readers(s, v, n) == Readers(s, v, n - 1);
      }
    }
  }

  ghost predicate ReadsFit(s: State, k: nat)
    requires k < |s.versions|
  {
    Serial(s.versions[k], Readers(s, k, |s.txns|), s.versions[k])
  }

  ghost predicate EntryFits(s: State, k: nat)
    requires k < |s.log| && |s.versions| == |s.log| + 1
  {
    Serial(s.versions[k], [Logged(s.log[k])], s.versions[k + 1])
  }

  lemma PartsFit(s: State, k: nat)
    requires Inv(s) && k < |s.versions|
    ensures ReadsFit(s, k)
    ensures k < |s.log| && Fresh(s, k) ==> EntryFits(s, k)
  {
    forall t: nat | t < |s.txns| && ReadOnly(s.txns[t], k)
      ensures Serial(s.versions[k], [Asked(s, t)], s.versions[k])
    {
      assert TxnInv(s, t);
      OneSerial(s.versions[k], Asked(s, t), s.versions[k]);
    }
    ReadersSerial(s, k, |s.txns|, s.versions[k]);
    if k < |s.log| && Fresh(s, k) {
      assert Happened(s, k);
      if s.log[k].Captured? {
        FreshIsAtomic(s, k);
      }
      OneSerial(s.versions[k], Logged(s.log[k]), s.versions[k + 1]);
    }
  }

  lemma {:induction false} OrderSerial(s: State, n: nat)
    requires |s.versions| == |s.log| + 1 && n <= |s.log|
    requires forall k: nat :: k <= n ==> ReadsFit(s, k)
    requires forall k: nat :: k < n ==> EntryFits(s, k)
    ensures Serial(s.versions[0], Order(s, n), s.versions[n])
  {
    assert ReadsFit(s, n);
    if n > 0 {
      OrderSerial(s, n - 1);
      assert EntryFits(s, n - 1);
      var db := s.versions;
      SerialJoin(db[0], Order(s, n - 1), db[n - 1], [Logged(s.log[n - 1])], db[n]);
      SerialJoin(db[0], Order(s, n - 1) + [Logged(s.log[n - 1])], db[n], Readers(s, n, |s.txns|), db[n]);
    }
  }

  /** How often a transaction's submission is in a list. */
  function Times(ops: seq<Op>, t: nat): nat {
    if ops == [] then 0
    else (if ops[0].Submitted? && ops[0].txn == t then 1 else 0) + Times(ops[1..], t)
  }

  lemma {:induction false} TimesJoin(a: seq<Op>, b: seq<Op>, t: nat)
    ensures Times(a + b, t) == Times(a, t) + Times(b, t)
  {
    if a == [] {
      assert a + b == b;
    } else {
      assert (a + b)[0] == a[0] && (a + b)[1..] == a[1..] + b;
      TimesJoin(a[1..], b, t);
    }
  }

  lemma {:induction false} ReadersOnce(s: State, v: nat, n: nat, t: nat)
    requires n <= |s.txns|
    ensures Times(Readers(s, v, n), t) == if t < n && ReadOnly(s.txns[t], v) then 1 else 0
  {
    if n > 0 {
      ReadersOnce(s, v, n - 1, t);
      var last := if ReadOnly(s.txns[n - 1], v) then [Asked(s, n - 1)] else [];
      TimesJoin(Readers(s, v, n - 1), last, t);
      assert last != [] ==> last[1..] == [];
    }
  }

  /** Done, and in the order no later than the `n`-th entry and the reads after it. */
  ghost predicate PlacedBy(x: Txn, n: nat) {
    x.Done? && match x.answer case Failed => false case ValidFlag(_) => x.at < n case _ => x.snap <= n
  }

  lemma LoggedOnce(s: State, k: nat, t: nat)
    requires Inv(s) && k < |s.log| && t < |s.txns|
    ensures Times([Logged(s.log[k])], t)
         == if s.txns[t].Done? && s.txns[t].answer.ValidFlag? && s.txns[t].at == k then 1 else 0
  {
    assert [Logged(s.log[k])][1..] == [];
    assert Happened(s, k) && TxnInv(s, t);
  }

  lemma {:induction false} OrderOnce(s: State, n: nat, t: nat)
    requires Inv(s) && n <= |s.log| && t < |s.txns|
    ensures Times(Order(s, n), t) == if PlacedBy(s.txns[t], n) then 1 else 0
  {
    ReadersOnce(s, n, |s.txns|, t);
    if n > 0 {
      OrderOnce(s, n - 1, t);
      LoggedOnce(s, n - 1, t);
      TimesJoin(Order(s, n - 1) + [Logged(s.log[n - 1])], Readers(s, n, |s.txns|), t);
      TimesJoin(Order(s, n - 1), [Logged(s.log[n - 1])], t);
    }
  }

  lemma {:induction false} FirstVersionStays(s: State, acts: seq<Action>, s': State)
    requires Inv(s) && Run(s, acts, s')
    ensures s'.versions != [] && s'.versions[0] == s.versions[0]
    decreases |acts|
  {
    if acts != [] {
      InvStep(s, acts[0]);
      FirstVersionStays(Apply(s, acts[0]), acts[1..], s');
    }
  }

  lemma OrderReplays(s: State)
    requires Inv(s) && forall k: nat :: k < |s.log| ==> Fresh(s, k)
    ensures Serial(s.versions[0], Order(s, |s.log|), Now(s))
  {
    forall k: nat | k < |s.versions| ensures ReadsFit(s, k) && (k < |s.log| ==> EntryFits(s, k)) {
      PartsFit(s, k);
    }
    OrderSerial(s, |s.log|);
  }

  lemma OrderHasEach(s: State, t: nat)
    requires Inv(s) && t < |s.txns|
    ensures Times(Order(s, |s.log|), t) == if s.txns[t].Done? && s.txns[t].answer != Failed then 1 else 0
  {
    OrderOnce(s, |s.log|, t);
    assert TxnInv(s, t);
  }

  /** One serial order for everything that finished: each submission that did not fail is in it once, the captures
      and edits in commit order, and done one after another they give every answer that was given and the tables
      that resulted; if every capture was fresh, and so always when staff edit nothing. */
  lemma SerialInCommitOrder(db: Tables, acts: seq<Action>, s: State)
    requires Keys(db) && OneCapture(db) && Run(Init(db), acts, s)
    ensures |s.versions| == |s.log| + 1
    ensures (forall k: nat :: k < |s.log| ==> Fresh(s, k)) ==> Serial(db, Order(s, |s.log|), Now(s))
    ensures forall t: nat :: t < |s.txns| ==>
              Times(Order(s, |s.log|), t) == if s.txns[t].Done? && s.txns[t].answer != Failed then 1 else 0
    ensures (forall k :: 0 <= k < |s.log| ==> s.log[k].Captured?) ==> forall k: nat :: k < |s.log| ==> Fresh(s, k)
  {
    InvRun(Init(db), acts, s);
    FirstVersionStays(Init(db), acts, s);
    if forall k: nat :: k < |s.log| ==> Fresh(s, k) {
      OrderReplays(s);
    }
    forall t: nat | t < |s.txns|
      ensures Times(Order(s, |s.log|), t) == if s.txns[t].Done? && s.txns[t].answer != Failed then 1 else 0
    {
      OrderHasEach(s, t);
    }
    if forall k :: 0 <= k < |s.log| ==> s.log[k].Captured? {
      forall k: nat | k < |s.log| ensures Fresh(s, k) {
        SubmissionsStayFresh(s, k);
      }
    }
  }

  /** And each is placed within its own time: a read at a version current between the transaction's beginning and
      its end, a capture at an entry logged in that stretch. */
  lemma AnswersAreTimely(db: Tables, acts: seq<Action>, s: State, t: nat)
    requires Keys(db) && OneCapture(db) && Run(Init(db), acts, s)
    requires t < |s.txns| && s.txns[t].Done? && s.txns[t].answer != Failed
    ensures var x := s.txns[t];
            && x.begun <= x.snap <= x.at < |s.versions|
            && (!x.answer.ValidFlag? ==> Submit(s.versions[x.snap], x.guess) == (s.versions[x.snap], x.answer))
            && (x.answer.ValidFlag? ==>
                  x.at < |s.log| && s.log[x.at] == Captured(t, x.guess, x.snap, x.answer.challenge))
  {
    InvRun(Init(db), acts, s);
    assert TxnInv(s, t);
  }
}
