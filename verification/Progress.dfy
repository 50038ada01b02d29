/** A team's progress in each category, as the query counts it. */
module Progress {
  import opened Common
  import opened Relational
  import opened FlagSubmission

  datatype Tally = Tally(amount: nat, max: nat)

  function ProgressRows(db: Tables, team: int): seq<(Challenge, Option<Solve>)> {
    LeftJoin(db.challenges, db.solves, OfTeam(team))
  }

  function InCategory(category: string): ((Challenge, Option<Solve>)) -> bool {
    (row: (Challenge, Option<Solve>)) => !row.0.hidden && row.0.category == category
  }

  function SolvedIn(category: string): ((Challenge, Option<Solve>)) -> bool {
    (row: (Challenge, Option<Solve>)) => !row.0.hidden && row.0.category == category && row.1.Some?
  }

  /** `COUNT(solve.team_id)` and `COUNT(*)` over the visible rows of one category. */
  function CategoryProgress(db: Tables, team: int, category: string): Tally {
    var rows := ProgressRows(db, team);
    Tally(Count(rows, SolvedIn(category)), Count(rows, InCategory(category)))
  }

  function VisibleIn(category: string): Challenge -> bool {
    (c: Challenge) => !c.hidden && c.category == category
  }

  function Held(db: Tables, team: int, category: string): Challenge -> bool {
    (c: Challenge) => !c.hidden && c.category == category && Solve(team, c.id) in db.solves
  }

  /** Visible challenges of the category that the team has captured more than once. */
  ghost predicate Doubled(cs: seq<Challenge>, solves: seq<Solve>, team: int, category: string) {
    exists c :: c in cs && VisibleIn(category)(c) && |Partners(c, solves, OfTeam(team))| > 1
  }

  lemma {:induction false} CountMatched(c: Challenge, ms: seq<Solve>, category: string)
    ensures Count(Matched(c, ms), InCategory(category)) == if VisibleIn(category)(c) then |ms| else 0
    ensures Count(Matched(c, ms), SolvedIn(category)) == if VisibleIn(category)(c) then |ms| else 0
  {
    if ms != [] {
      CountMatched(c, ms[1..], category);
    }
  }

  lemma CountJoined(c: Challenge, ms: seq<Solve>, category: string)
    ensures Count(Joined(c, ms), InCategory(category))
         == if VisibleIn(category)(c) then (if ms == [] then 1 else |ms|) else 0
    ensures Count(Joined(c, ms), SolvedIn(category)) == if VisibleIn(category)(c) then |ms| else 0
  {
    CountMatched(c, ms, category);
  }

  lemma DoubledCons(c: Challenge, rest: seq<Challenge>, solves: seq<Solve>, team: int, category: string)
    ensures Doubled([c] + rest, solves, team, category)
       <==> (VisibleIn(category)(c) && |Partners(c, solves, OfTeam(team))| > 1) || Doubled(rest, solves, team, category)
  {
  }

  /** What one challenge adds to the two counts. */
  lemma CountsNext(c: Challenge, rest: seq<Challenge>, db: Tables, team: int, category: string)
    ensures var ms, on := Partners(c, db.solves, OfTeam(team)), OfTeam(team);
            var visible := if VisibleIn(category)(c) then 1 else 0;
            && Count(LeftJoin([c] + rest, db.solves, on), InCategory(category))
            == visible * (if ms == [] then 1 else |ms|) + Count(LeftJoin(rest, db.solves, on), InCategory(category))
            && Count(LeftJoin([c] + rest, db.solves, on), SolvedIn(category))
            == visible * |ms| + Count(LeftJoin(rest, db.solves, on), SolvedIn(category))
  {
    var ms := Partners(c, db.solves, OfTeam(team));
    assert ([c] + rest)[1..] == rest;
    CountSplit(Joined(c, ms), LeftJoin(rest, db.solves, OfTeam(team)), InCategory(category));
    CountSplit(Joined(c, ms), LeftJoin(rest, db.solves, OfTeam(team)), SolvedIn(category));
    CountJoined(c, ms, category);
  }

  lemma {:induction false} CountsMean(cs: seq<Challenge>, db: Tables, team: int, category: string)
    ensures Count(LeftJoin(cs, db.solves, OfTeam(team)), InCategory(category)) >= Count(cs, VisibleIn(category))
    ensures Count(LeftJoin(cs, db.solves, OfTeam(team)), InCategory(category)) == Count(cs, VisibleIn(category))
       <==> !Doubled(cs, db.solves, team, category)
    ensures Count(LeftJoin(cs, db.solves, OfTeam(team)), SolvedIn(category)) >= Count(cs, Held(db, team, category))
    ensures Count(LeftJoin(cs, db.solves, OfTeam(team)), SolvedIn(category)) == Count(cs, Held(db, team, category))
       <==> !Doubled(cs, db.solves, team, category)
  {
    if cs != [] {
      assert cs == [cs[0]] + cs[1..];
      CountsMean(cs[1..], db, team, category);
      CountsNext(cs[0], cs[1..], db, team, category);
      DoubledCons(cs[0], cs[1..], db.solves, team, category);
      HeldMeans(cs[0], db, team, category);
    }
  }

  lemma HeldMeans(c: Challenge, db: Tables, team: int, category: string)
    ensures Solve(team, c.id) in db.solves <==> Partners(c, db.solves, OfTeam(team)) != []
  {
    NoPartners(c, db.solves, OfTeam(team));
    assert forall s :: OfTeam(team)(c, s) <==> s == Solve(team, c.id);
  }

  lemma {:induction false} OnePartner(c: Challenge, solves: seq<Solve>, team: int)
    requires OneCapture(Tables([], solves))
    ensures |Partners(c, solves, OfTeam(team))| <= 1
  {
    if solves != [] {
      assert Tables([], solves[1..]).solves == solves[1..];
      OnePartner(c, solves[1..], team);
      if OfTeam(team)(c, solves[0]) {
        assert solves[0] == Solve(team, c.id);
        assert forall i :: 0 <= i < |solves[1..]| ==> solves[1..][i] == solves[i + 1] && solves[i + 1] != solves[0];
        NoPartners(c, solves[1..], OfTeam(team));
      }
    }
  }

  /** The maximum shown is the number of visible challenges in the category, and the amount the number of them the team
      holds, exactly when it holds none of them twice; which, captures being unique, is always. */
  lemma ProgressCounts(db: Tables, team: int, category: string)
    ensures var p := CategoryProgress(db, team, category);
            && (p.max == Count(db.challenges, VisibleIn(category))
                <==> !Doubled(db.challenges, db.solves, team, category))
            && (p.amount == Count(db.challenges, Held(db, team, category))
                <==> !Doubled(db.challenges, db.solves, team, category))
    ensures OneCapture(db) ==> !Doubled(db.challenges, db.solves, team, category)
    ensures OneCapture(db) ==> CategoryProgress(db, team, category).amount <= CategoryProgress(db, team, category).max
  {
    CountsMean(db.challenges, db, team, category);
    if OneCapture(db) {
      forall c ensures |Partners(c, db.solves, OfTeam(team))| <= 1 {
        OnePartner(c, db.solves, team);
      }
      HeldAreVisible(db.challenges, db, team, category);
    }
  }

  lemma {:induction false} HeldAreVisible(cs: seq<Challenge>, db: Tables, team: int, category: string)
    ensures Count(cs, Held(db, team, category)) <= Count(cs, VisibleIn(category))
  {
    if cs != [] {
      HeldAreVisible(cs[1..], db, team, category);
    }
  }
}
