/** The score views, as the joins and groupings the schema defines, against a ledger kept up to date
    event by event. Points are exact reals. */
module Scoring {
  import opened Common
  import opened Relational
  import opened FlagSubmission
  import opened Results

  datatype Team = Team(id: int, name: string, blue: bool, disabled: bool)

  datatype Service = Service(id: int, points: Option<real>)

  datatype Bonus = Bonus(team: int, points: real)

  /** Team rows are kept in key order, the order the score query sorts by. */
  datatype Db = Db(teams: seq<Team>, services: seq<Service>, challenges: seq<Challenge>,
                   checks: seq<Result>, solves: seq<Solve>, bonuses: seq<Bonus>)

  ghost predicate PrimaryKeys(db: Db) {
    && (forall i, j :: 0 <= i < j < |db.teams| ==> db.teams[i].id < db.teams[j].id)
    && (forall i, j :: 0 <= i < j < |db.services| ==> db.services[i].id != db.services[j].id)
    && (forall i, j :: 0 <= i < j < |db.challenges| ==> db.challenges[i].id != db.challenges[j].id)
  }

  // ------------------------------------------------------------------ views

  /** The sum of `value` over the rows of one group. */
  function SumFor<A>(rows: seq<A>, key: A -> int, k: int, value: A -> real): real {
    if rows == [] then 0.0
    else (if key(rows[0]) == k then value(rows[0]) else 0.0) + SumFor(rows[1..], key, k, value)
  }

  /** `SELECT key, COALESCE(sum(value), 0) ... GROUP BY key`: one row per key. */
  function GroupSum<A>(rows: seq<A>, key: A -> int, value: A -> real): map<int, real> {
    map k | k in (set i | 0 <= i < |rows| :: key(rows[i])) :: SumFor(rows, key, k, value)
  }

  function BlueTeams(teams: seq<Team>): seq<Team> {
    Where(teams, (t: Team) => t.blue && !t.disabled)
  }

  function TeamKey<M>(): ((Team, M)) -> int { (row: (Team, M)) => row.0.id }

  function OuterTeamKey<M, R>(): (((Team, Option<M>), Option<R>)) -> int {
    (row: ((Team, Option<M>), Option<R>)) => row.0.0.id
  }

  function Refers<M, R>(ref: M -> int, id: R -> int): ((Team, Option<M>), R) -> bool {
    (row: (Team, Option<M>), r: R) => row.1.Some? && ref(row.1.value) == id(r)
  }

  function ValueOr0<M, R>(value: R -> real): (((Team, Option<M>), Option<R>)) -> real {
    (row: ((Team, Option<M>), Option<R>)) => if row.1.Some? then value(row.1.value) else 0.0
  }

  /** team LEFT JOIN mids LEFT JOIN rights, grouped by team: the shape of both long views. */
  function JoinedScore<M, R>(teams: seq<Team>, mids: seq<M>, on: (Team, M) -> bool,
                             rights: seq<R>, ref: M -> int, id: R -> int, value: R -> real): map<int, real>
  {
    GroupSum(LeftJoin(LeftJoin(teams, mids, on), rights, Refers(ref, id)), OuterTeamKey(), ValueOr0(value))
  }

  function PassOf(): (Team, Result) -> bool { (t: Team, c: Result) => t.id == c.team && c.status == Pass }

  function SolveOf(): (Team, Solve) -> bool { (t: Team, s: Solve) => t.id == s.team }

  function BonusOf(): (Team, Bonus) -> bool { (t: Team, b: Bonus) => t.id == b.team }

  function CheckService(): Result -> int { (c: Result) => c.service }

  function SolveChallenge(): Solve -> int { (s: Solve) => s.challenge }

  function ServiceId(): Service -> int { (s: Service) => s.id }

  function ChallengeId(): Challenge -> int { (c: Challenge) => c.id }

  function ServiceWorth(): Service -> real { (s: Service) => if s.points.Some? then s.points.value else 0.0 }

  function ChallengeWorth(): Challenge -> real { (c: Challenge) => c.total }

  function BonusWorth(): ((Team, Option<Bonus>)) -> real {
    (row: (Team, Option<Bonus>)) => if row.1.Some? then row.1.value.points else 0.0
  }

  function ServiceScore(db: Db): map<int, real> {
    JoinedScore(BlueTeams(db.teams), db.checks, PassOf(),
                db.services, CheckService(), ServiceId(), ServiceWorth())
  }

  function CtfScore(db: Db): map<int, real> {
    JoinedScore(BlueTeams(db.teams), db.solves, SolveOf(),
                db.challenges, SolveChallenge(), ChallengeId(), ChallengeWorth())
  }

  function OtherScore(db: Db): map<int, real> {
    GroupSum(LeftJoin(BlueTeams(db.teams), db.bonuses, BonusOf()), TeamKey(), BonusWorth())
  }

  // ----------------------------------------- the views without their joins

  function Worth<R>(rights: seq<R>, id: R -> int, k: int, value: R -> real): real {
    SumFor(rights, id, k, value)
  }

  function SumPasses(checks: seq<Result>, services: seq<Service>, team: int): real {
    if checks == [] then 0.0
    else
      var c := checks[0];
      (if c.team == team && c.status == Pass then Worth(services, ServiceId(), c.service, ServiceWorth()) else 0.0)
      + SumPasses(checks[1..], services, team)
  }

  function SumSolves(solves: seq<Solve>, challenges: seq<Challenge>, team: int): real {
    if solves == [] then 0.0
    else
      var s := solves[0];
      (if s.team == team then Worth(challenges, ChallengeId(), s.challenge, ChallengeWorth()) else 0.0)
      + SumSolves(solves[1..], challenges, team)
  }

  function SumBonuses(bonuses: seq<Bonus>, team: int): real {
    if bonuses == [] then 0.0
    else (if bonuses[0].team == team then bonuses[0].points else 0.0) + SumBonuses(bonuses[1..], team)
  }

  // ------------------------------------------------------ unfolding a join

  lemma {:induction false} SumForSplit<A>(s: seq<A>, t: seq<A>, key: A -> int, k: int, value: A -> real)
    ensures SumFor(s + t, key, k, value) == SumFor(s, key, k, value) + SumFor(t, key, k, value)
  {
    if s == [] {
      assert s + t == t;
    } else {
      assert (s + t)[0] == s[0] && (s + t)[1..] == s[1..] + t;
      SumForSplit(s[1..], t, key, k, value);
    }
  }

  /** Summing rows of `A LEFT JOIN B` whose key is that of the left row. */
  function PartnerSum<A, B>(a: A, ms: seq<B>, value: ((A, Option<B>)) -> real): real {
    if ms == [] then 0.0 else value((a, Some(ms[0]))) + PartnerSum(a, ms[1..], value)
  }

  lemma {:induction false} SumMatched<A, B>(a: A, ms: seq<B>, key: ((A, Option<B>)) -> int, akey: int, k: int,
                                            value: ((A, Option<B>)) -> real)
    requires forall o :: key((a, o)) == akey
    ensures SumFor(Matched(a, ms), key, k, value) == if akey == k then PartnerSum(a, ms, value) else 0.0
  {
    if ms != [] {
      SumMatched(a, ms[1..], key, akey, k, value);
    }
  }

  lemma SumJoined<A, B>(a: A, ms: seq<B>, key: ((A, Option<B>)) -> int, akey: int, k: int,
                        value: ((A, Option<B>)) -> real)
    requires forall o :: key((a, o)) == akey
    requires value((a, None)) == 0.0
    ensures SumFor(Joined(a, ms), key, k, value) == if akey == k then PartnerSum(a, ms, value) else 0.0
  {
    SumMatched(a, ms, key, akey, k, value);
  }

  /** The second join: each middle row stands for the rows it refers to. */
  function MidWorth<M, R>(rights: seq<R>, ref: M -> int, id: R -> int, value: R -> real): ((Team, Option<M>)) -> real {
    (row: (Team, Option<M>)) => if row.1.Some? then Worth(rights, id, ref(row.1.value), value) else 0.0
  }

  lemma {:induction false} ReferredSum<M, R>(row: (Team, Option<M>), rights: seq<R>, ref: M -> int, id: R -> int,
                                             value: R -> real)
    ensures PartnerSum(row, Partners(row, rights, Refers(ref, id)), ValueOr0(value))
        == MidWorth(rights, ref, id, value)(row)
  {
    if rights != [] {
      ReferredSum(row, rights[1..], ref, id, value);
      var on, rest := Refers<M, R>(ref, id), Partners(row, rights[1..], Refers(ref, id));
      if on(row, rights[0]) {
        assert ([rights[0]] + rest)[1..] == rest;
      } else {
        assert [] + rest == rest;
      }
    }
  }

  lemma {:induction false} SecondJoin<M, R>(rows: seq<(Team, Option<M>)>, rights: seq<R>, ref: M -> int, id: R -> int,
                                            value: R -> real, k: int)
    ensures SumFor(LeftJoin(rows, rights, Refers(ref, id)), OuterTeamKey(), k, ValueOr0(value))
         == SumFor(rows, TeamKey(), k, MidWorth(rights, ref, id, value))
  {
    if rows != [] {
      var on := Refers<M, R>(ref, id);
      var block := Joined(rows[0], Partners(rows[0], rights, on));
      SumForSplit(block, LeftJoin(rows[1..], rights, on), OuterTeamKey(), k, ValueOr0(value));
      SumJoined(rows[0], Partners(rows[0], rights, on), OuterTeamKey(), rows[0].0.id, k, ValueOr0(value));
      ReferredSum(rows[0], rights, ref, id, value);
      SecondJoin(rows[1..], rights, ref, id, value, k);
    }
  }

  /** The first join, for a team that is there once. */
  lemma {:induction false} FirstJoin<M>(teams: seq<Team>, mids: seq<M>, on: (Team, M) -> bool,
                                        value: ((Team, Option<M>)) -> real, t: Team)
    requires forall i, j :: 0 <= i < j < |teams| ==> teams[i].id != teams[j].id
    requires forall a :: value((a, None)) == 0.0
    ensures t in teams ==>
              SumFor(LeftJoin(teams, mids, on), TeamKey(), t.id, value) == PartnerSum(t, Partners(t, mids, on), value)
    ensures (forall x :: x in teams ==> x.id != t.id) ==>
              SumFor(LeftJoin(teams, mids, on), TeamKey(), t.id, value) == 0.0
  {
    if teams != [] {
      var a := teams[0];
      var block := Joined(a, Partners(a, mids, on));
      SumForSplit(block, LeftJoin(teams[1..], mids, on), TeamKey(), t.id, value);
      SumJoined(a, Partners(a, mids, on), TeamKey(), a.id, t.id, value);
      FirstJoin(teams[1..], mids, on, value, t);
      assert teams == [a] + teams[1..];
      assert forall x :: x in teams[1..] ==> x.id != a.id;
    }
  }

  /** A left join keeps every left row, and has rows of no other. */
  lemma JoinKeeps<A, B>(xs: seq<A>, bs: seq<B>, on: (A, B) -> bool, a: A) returns (i: nat)
    requires a in xs
    ensures i < |LeftJoin(xs, bs, on)| && LeftJoin(xs, bs, on)[i].0 == a
  {
    var rows := LeftJoin(xs, bs, on);
    var ms := Partners(a, bs, on);
    NoPartners(a, bs, on);
    var o := if ms == [] then None else Some(ms[0]);
    if ms != [] {
      PartnersAre(a, bs, on, ms[0]);
    }
    LeftJoinHas(xs, bs, on, a, o);
    assert (a, o) in rows;
    i :| 0 <= i < |rows| && rows[i] == (a, o);
  }

  lemma JoinInvents<A, B>(xs: seq<A>, bs: seq<B>, on: (A, B) -> bool, i: nat)
    requires i < |LeftJoin(xs, bs, on)|
    ensures LeftJoin(xs, bs, on)[i].0 in xs
  {
    var row := LeftJoin(xs, bs, on)[i];
    assert row in LeftJoin(xs, bs, on) && row == (row.0, row.1);
    LeftJoinHas(xs, bs, on, row.0, row.1);
  }

  lemma GroupKeys<A>(rows: seq<A>, key: A -> int, value: A -> real, k: int)
    ensures k in GroupSum(rows, key, value) <==> exists i :: 0 <= i < |rows| && key(rows[i]) == k
  {
  }

  ghost predicate HasTeam(teams: seq<Team>, k: int) {
    exists t :: t in teams && t.id == k
  }

  /** One row per team of the left table, and in it what the team's middle rows refer to. */
  lemma JoinedScoreIs<M, R>(teams: seq<Team>, mids: seq<M>, on: (Team, M) -> bool,
                            rights: seq<R>, ref: M -> int, id: R -> int, value: R -> real, k: int)
    requires forall i, j :: 0 <= i < j < |teams| ==> teams[i].id != teams[j].id
    ensures k in JoinedScore(teams, mids, on, rights, ref, id, value) <==> HasTeam(teams, k)
    ensures forall t :: t in teams && t.id == k ==>
              && k in JoinedScore(teams, mids, on, rights, ref, id, value)
              && JoinedScore(teams, mids, on, rights, ref, id, value)[k]
              == PartnerSum(t, Partners(t, mids, on), MidWorth(rights, ref, id, value))
  {
    var inner := LeftJoin(teams, mids, on);
    var rows := LeftJoin(inner, rights, Refers<M, R>(ref, id));
    var key := OuterTeamKey<M, R>();
    GroupKeys(rows, key, ValueOr0(value), k);
    if i :| 0 <= i < |rows| && key(rows[i]) == k {
      JoinInvents(inner, rights, Refers(ref, id), i);
      var j :| 0 <= j < |inner| && inner[j] == rows[i].0;
      JoinInvents(teams, mids, on, j);
    }
    forall t | t in teams && t.id == k
      ensures exists i :: 0 <= i < |rows| && key(rows[i]) == k
      ensures SumFor(rows, key, k, ValueOr0(value))
           == PartnerSum(t, Partners(t, mids, on), MidWorth(rights, ref, id, value))
    {
      var j := JoinKeeps(teams, mids, on, t);
      var i := JoinKeeps(inner, rights, Refers(ref, id), inner[j]);
      assert key(rows[i]) == k;
      SecondJoin(inner, rights, ref, id, value, k);
      FirstJoin(teams, mids, on, MidWorth(rights, ref, id, value), t);
    }
  }

  lemma {:induction false} BlueTeamsOrdered(teams: seq<Team>)
    requires forall i, j :: 0 <= i < j < |teams| ==> teams[i].id < teams[j].id
    ensures forall i, j :: 0 <= i < j < |BlueTeams(teams)| ==> BlueTeams(teams)[i].id < BlueTeams(teams)[j].id
    ensures forall t :: t in BlueTeams(teams) <==> t in teams && t.blue && !t.disabled
  {
    WhereKeeps(teams, (t: Team) => t.blue && !t.disabled);
    if teams != [] {
      BlueTeamsOrdered(teams[1..]);
      WhereKeeps(teams[1..], (t: Team) => t.blue && !t.disabled);
      forall i | 0 <= i < |BlueTeams(teams[1..])| ensures teams[0].id < BlueTeams(teams[1..])[i].id {
        assert BlueTeams(teams[1..])[i] in teams[1..];
      }
    }
  }

  lemma {:induction false} PassesByPartner(t: Team, checks: seq<Result>, services: seq<Service>)
    ensures PartnerSum(t, Partners(t, checks, PassOf()),
                       MidWorth(services, CheckService(), ServiceId(), ServiceWorth()))
         == SumPasses(checks, services, t.id)
  {
    if checks != [] {
      PassesByPartner(t, checks[1..], services);
      PartnerSumCons(t, checks, PassOf(), MidWorth(services, CheckService(), ServiceId(), ServiceWorth()));
    }
  }

  lemma {:induction false} SolvesByPartner(t: Team, solves: seq<Solve>, challenges: seq<Challenge>)
    ensures PartnerSum(t, Partners(t, solves, SolveOf()),
                       MidWorth(challenges, SolveChallenge(), ChallengeId(), ChallengeWorth()))
         == SumSolves(solves, challenges, t.id)
  {
    if solves != [] {
      SolvesByPartner(t, solves[1..], challenges);
      PartnerSumCons(t, solves, SolveOf(), MidWorth(challenges, SolveChallenge(), ChallengeId(), ChallengeWorth()));
    }
  }

  lemma {:induction false} BonusesByPartner(t: Team, bonuses: seq<Bonus>)
    ensures PartnerSum(t, Partners(t, bonuses, BonusOf()), BonusWorth()) == SumBonuses(bonuses, t.id)
  {
    if bonuses != [] {
      BonusesByPartner(t, bonuses[1..]);
      PartnerSumCons(t, bonuses, BonusOf(), BonusWorth());
    }
  }

  lemma PartnerSumCons<M>(t: Team, mids: seq<M>, on: (Team, M) -> bool, value: ((Team, Option<M>)) -> real)
    requires mids != []
    ensures PartnerSum(t, Partners(t, mids, on), value)
         == (if on(t, mids[0]) then value((t, Some(mids[0]))) else 0.0)
            + PartnerSum(t, Partners(t, mids[1..], on), value)
  {
    var rest := Partners(t, mids[1..], on);
    if on(t, mids[0]) {
      assert ([mids[0]] + rest)[1..] == rest;
    } else {
      assert [] + rest == rest;
    }
  }

  ghost predicate EnabledBlue(db: Db, k: int) {
    exists t :: t in db.teams && t.id == k && t.blue && !t.disabled
  }

  /** The three views have a row for each enabled blue team and no other, and the sums in
      them are those taken directly over the team's passing checks, solves and bonuses. */
  lemma ViewsAreSums(db: Db, k: int)
    requires PrimaryKeys(db)
    ensures k in ServiceScore(db) <==> EnabledBlue(db, k)
    ensures k in CtfScore(db) <==> EnabledBlue(db, k)
    ensures k in OtherScore(db) <==> EnabledBlue(db, k)
    ensures EnabledBlue(db, k) ==>
              && ServiceScore(db)[k] == SumPasses(db.checks, db.services, k)
              && CtfScore(db)[k] == SumSolves(db.solves, db.challenges, k)
              && OtherScore(db)[k] == SumBonuses(db.bonuses, k)
  {
    var blue := BlueTeams(db.teams);
    BlueTeamsOrdered(db.teams);
    JoinedScoreIs(blue, db.checks, PassOf(), db.services, CheckService(), ServiceId(), ServiceWorth(), k);
    JoinedScoreIs(blue, db.solves, SolveOf(), db.challenges, SolveChallenge(), ChallengeId(), ChallengeWorth(), k);
    OtherScoreKeys(db, k);
    assert HasTeam(blue, k) <==> EnabledBlue(db, k);
    if EnabledBlue(db, k) {
      var t :| t in db.teams && t.id == k && t.blue && !t.disabled;
      assert t in blue;
      PassesByPartner(t, db.checks, db.services);
      SolvesByPartner(t, db.solves, db.challenges);
      FirstJoin(blue, db.bonuses, BonusOf(), BonusWorth(), t);
      BonusesByPartner(t, db.bonuses);
    }
  }

  lemma OtherScoreKeys(db: Db, k: int)
    ensures k in OtherScore(db) <==> HasTeam(BlueTeams(db.teams), k)
  {
    var blue := BlueTeams(db.teams);
    var rows := LeftJoin(blue, db.bonuses, BonusOf());
    var key := TeamKey<Option<Bonus>>();
    if i :| 0 <= i < |rows| && key(rows[i]) == k {
      JoinInvents(blue, db.bonuses, BonusOf(), i);
    }
    GroupKeys(rows, key, BonusWorth(), k);
    if t :| t in blue && t.id == k {
      var i := JoinKeeps(blue, db.bonuses, BonusOf(), t);
      assert key(rows[i]) == k;
    }
  }

  // ------------------------------------------------------------- the scores

  /** Rounding to the nearest integer, ties to even. */
  function Round(x: real): int {
    var f := x.Floor;
    var d := x - f as real;
    if d < 0.5 then f
    else if d > 0.5 then f + 1
    else if f % 2 == 0 then f else f + 1
  }

  lemma RoundIsNearest(x: real)
    ensures -0.5 <= Round(x) as real - x <= 0.5
    ensures x - x.Floor as real == 0.5 ==> Round(x) % 2 == 0
    ensures Round(x) as real - x == -0.5 || Round(x) as real - x == 0.5 ==> Round(x) % 2 == 0
  {
  }

  datatype Row = Row(team: int, name: string, score: int, service: int, ctf: int, other: int)

  /** team JOIN service_score JOIN ctf_score JOIN other_score, by team. */
  function JoinScores(teams: seq<Team>, service: map<int, real>, ctf: map<int, real>, other: map<int, real>): seq<Row> {
    if teams == [] then []
    else
      var t := teams[0];
      (if t.id in service && t.id in ctf && t.id in other then
         [Row(t.id, t.name, Round(service[t.id] + ctf[t.id] + other[t.id]),
              Round(service[t.id]), Round(ctf[t.id]), Round(other[t.id]))]
       else [])
      + JoinScores(teams[1..], service, ctf, other)
  }

  function TeamsScores(db: Db): seq<Row> {
    JoinScores(db.teams, ServiceScore(db), CtfScore(db), OtherScore(db))
  }

  function ScoreRow(t: Team, service: real, ctf: real, other: real): Row {
    Row(t.id, t.name, Round(service + ctf + other), Round(service), Round(ctf), Round(other))
  }

  lemma SameTeam(db: Db, t: Team)
    requires PrimaryKeys(db) && t in db.teams
    ensures EnabledBlue(db, t.id) <==> t.blue && !t.disabled
  {
  }

  function RowFor(db: Db, t: Team): Row {
    ScoreRow(t, SumPasses(db.checks, db.services, t.id), SumSolves(db.solves, db.challenges, t.id),
             SumBonuses(db.bonuses, t.id))
  }

  /** The three-way join, once each map is known to hold the enabled blue teams. */
  lemma {:induction false} JoinScoresRows(teams: seq<Team>, db: Db, service: map<int, real>, ctf: map<int, real>,
                                          other: map<int, real>)
    requires forall t :: t in teams ==>
               && (t.id in service <==> t.blue && !t.disabled)
               && (t.id in ctf <==> t.id in service) && (t.id in other <==> t.id in service)
               && (t.id in service ==>
                     ScoreRow(t, service[t.id], ctf[t.id], other[t.id]) == RowFor(db, t))
    ensures |JoinScores(teams, service, ctf, other)| == |BlueTeams(teams)|
    ensures forall i :: 0 <= i < |BlueTeams(teams)| ==>
              JoinScores(teams, service, ctf, other)[i] == RowFor(db, BlueTeams(teams)[i])
  {
    if teams != [] {
      JoinScoresRows(teams[1..], db, service, ctf, other);
    }
  }

  /** The scoreboard has exactly one row for each enabled blue team, in key order: the
      joins neither drop a team without points nor repeat one with many. */
  lemma OneRowPerTeam(db: Db)
    requires PrimaryKeys(db)
    ensures var rows, blue := TeamsScores(db), BlueTeams(db.teams);
            && |rows| == |blue|
            && (forall i :: 0 <= i < |rows| ==> rows[i] == RowFor(db, blue[i]))
            && (forall i, j :: 0 <= i < j < |rows| ==> rows[i].team < rows[j].team)
  {
    forall t | t in db.teams
      ensures t.id in ServiceScore(db) <==> t.blue && !t.disabled
      ensures t.id in CtfScore(db) <==> t.id in ServiceScore(db)
      ensures t.id in OtherScore(db) <==> t.id in ServiceScore(db)
      ensures t.id in ServiceScore(db) ==>
                ScoreRow(t, ServiceScore(db)[t.id], CtfScore(db)[t.id], OtherScore(db)[t.id]) == RowFor(db, t)
    {
      ViewsAreSums(db, t.id);
      SameTeam(db, t);
    }
    JoinScoresRows(db.teams, db, ServiceScore(db), CtfScore(db), OtherScore(db));
    BlueTeamsOrdered(db.teams);
  }

  /** The columns are rounded one by one, so they need not add up; they are never further apart than two. */
  lemma ColumnsNearlyAdd(service: real, ctf: real, other: real)
    ensures -2 <= Round(service + ctf + other) - (Round(service) + Round(ctf) + Round(other)) <= 2
    ensures Round(0.5 + 0.5 + 0.5) - (Round(0.5) + Round(0.5) + Round(0.5)) == 2
  {
  }
}
