/** A running tally per team, updated by what each event adds or takes away, and the proof that the score
    views, which recompute everything from the rows, always show the same numbers. */
module Ledger {
  import opened Common
  import opened Relational
  import opened FlagSubmission
  import opened Scoring
  import opened Results

  datatype Tally = Tally(service: real, ctf: real, other: real)

  type Tallies = map<int, Tally>

  datatype Event =
    | Solved(solve: Solve)
    | Checked(check: Result)
    | Awarded(bonus: Bonus)
    | Edited(edit: Edit)                               // challenges: added, changed, deleted
    | Revalued(service: int, points: Option<real>)     // a service's points per check, after the fact
    | Toggled(team: int, disabled: bool)

  predicate TeamExists(db: Db, k: int) { exists i :: 0 <= i < |db.teams| && db.teams[i].id == k }

  predicate ChallengeExists(db: Db, k: int) { exists i :: 0 <= i < |db.challenges| && db.challenges[i].id == k }

  predicate ServiceExists(db: Db, k: int) { exists i :: 0 <= i < |db.services| && db.services[i].id == k }

  /** The keys the schema enforces. */
  predicate Enabled(db: Db, e: Event) {
    match e
    case Solved(s) => TeamExists(db, s.team) && ChallengeExists(db, s.challenge)
    case Checked(c) => TeamExists(db, c.team) && ServiceExists(db, c.service)
    case Awarded(b) => TeamExists(db, b.team)
    case Edited(Add(c)) => !ChallengeExists(db, c.id)
    case _ => true
  }

  function Apply(db: Db, e: Event): Db {
    match e
    case Solved(s) => db.(solves := db.solves + [s])
    case Checked(c) => db.(checks := db.checks + [c])
    case Awarded(b) => db.(bonuses := db.bonuses + [b])
    case Edited(edit) =>
      var after := ApplyEdit(Tables(db.challenges, db.solves), edit);
      db.(challenges := after.challenges, solves := after.solves)
    case Revalued(id, p) =>
      db.(services := WithPoints(db.services, id, p))
    case Toggled(id, off) =>
      db.(teams := seq(|db.teams|, i requires 0 <= i < |db.teams| =>
                       if db.teams[i].id == id then db.teams[i].(disabled := off) else db.teams[i]))
  }

  function WithPoints(services: seq<Service>, id: int, p: Option<real>): seq<Service> {
    seq(|services|, i requires 0 <= i < |services| => if services[i].id == id then Service(id, p) else services[i])
  }

  /** `n` times `x`. */
  function Times(n: nat, x: real): (r: real)
    ensures r == n as real * x
  {
    if n == 0 then 0.0 else x + Times(n - 1, x)
  }

  function ChallengePrice(challenges: seq<Challenge>, id: int): real {
    Worth(challenges, ChallengeId(), id, ChallengeWorth())
  }

  function ServicePrice(services: seq<Service>, id: int): real {
    Worth(services, ServiceId(), id, ServiceWorth())
  }

  function Captures(solves: seq<Solve>, team: int, challenge: int): nat {
    if solves == [] then 0
    else (if solves[0] == Solve(team, challenge) then 1 else 0) + Captures(solves[1..], team, challenge)
  }

  function Passes(checks: seq<Result>, team: int, service: int): nat {
    if checks == [] then 0
    else (if IsPass(checks[0], team, service) then 1 else 0) + Passes(checks[1..], team, service)
  }

  /** What an event is worth to one team. */
  function Delta(db: Db, team: int, e: Event): Tally {
    match e
    case Solved(s) => Tally(0.0, if s.team == team then ChallengePrice(db.challenges, s.challenge) else 0.0, 0.0)
    case Checked(c) =>
      Tally(if c.team == team && c.status == Pass then ServicePrice(db.services, c.service) else 0.0, 0.0, 0.0)
    case Awarded(b) => Tally(0.0, 0.0, if b.team == team then b.points else 0.0)
    case Edited(Add(_)) => Tally(0.0, 0.0, 0.0)
    case Edited(Replace(c)) =>
      var change := if ChallengeExists(db, c.id) then c.total - ChallengePrice(db.challenges, c.id) else 0.0;
      Tally(0.0, Times(Captures(db.solves, team, c.id), change), 0.0)
    case Edited(Delete(id)) =>
      Tally(0.0, -Times(Captures(db.solves, team, id), ChallengePrice(db.challenges, id)), 0.0)
    case Revalued(id, p) =>
      var points := if p.Some? then p.value else 0.0;
      var change := if ServiceExists(db, id) then points - ServicePrice(db.services, id) else 0.0;
      Tally(Times(Passes(db.checks, team, id), change), 0.0, 0.0)
    case Toggled(_, _) => Tally(0.0, 0.0, 0.0)
  }

  function Update(db: Db, l: Tallies, e: Event): Tallies {
    map k | k in l ::
      var d := Delta(db, k, e);
      Tally(l[k].service + d.service, l[k].ctf + d.ctf, l[k].other + d.other)
  }

  function Recomputed(db: Db, team: int): Tally {
    Tally(SumPasses(db.checks, db.services, team),
          SumSolves(db.solves, db.challenges, team),
          SumBonuses(db.bonuses, team))
  }

  ghost predicate ForeignKeys(db: Db) {
    && (forall s :: s in db.solves ==> ChallengeExists(db, s.challenge))
    && (forall c :: c in db.checks ==> ServiceExists(db, c.service))
  }

  ghost predicate Inv(db: Db, l: Tallies) {
    && PrimaryKeys(db)
    && ForeignKeys(db)
    && (forall k :: k in l <==> TeamExists(db, k))
    && (forall k :: k in l ==> l[k] == Recomputed(db, k))
  }

  // --------------------------------------------------------------- prices

  lemma {:induction false} NoPrice(challenges: seq<Challenge>, id: int)
    requires forall i :: 0 <= i < |challenges| ==> challenges[i].id != id
    ensures ChallengePrice(challenges, id) == 0.0
  {
    if challenges != [] {
      NoPrice(challenges[1..], id);
    }
  }

  lemma {:induction false} PriceAfterEdit(challenges: seq<Challenge>, edit: Edit, k: int)
    requires forall i, j :: 0 <= i < j < |challenges| ==> challenges[i].id != challenges[j].id
    ensures var after := ApplyEdit(Tables(challenges, []), edit).challenges;
            match edit
            case Add(c) => k != c.id ==> ChallengePrice(after, k) == ChallengePrice(challenges, k)
            case Replace(c) =>
              && (k != c.id ==> ChallengePrice(after, k) == ChallengePrice(challenges, k))
              && ((exists i :: 0 <= i < |challenges| && challenges[i].id == c.id) ==>
                  ChallengePrice(after, c.id) == c.total)
            case Delete(id) => k != id ==> ChallengePrice(after, k) == ChallengePrice(challenges, k)
  {
    var after := ApplyEdit(Tables(challenges, []), edit).challenges;
    match edit
    case Add(c) =>
      SumForSplit(challenges, [c], ChallengeId(), k, ChallengeWorth());
    case Replace(c) =>
      if challenges != [] {
        PriceAfterEdit(challenges[1..], edit, k);
        assert after[1..] == ApplyEdit(Tables(challenges[1..], []), edit).challenges;
        if challenges[0].id == c.id {
          NoPrice(after[1..], c.id);
        }
      }
    case Delete(id) =>
      if challenges != [] {
        PriceAfterEdit(challenges[1..], edit, k);
        var rest := ApplyEdit(Tables(challenges[1..], []), edit).challenges;
        assert after == (if challenges[0].id != id then [challenges[0]] else []) + rest;
        SumForSplit(if challenges[0].id != id then [challenges[0]] else [], rest, ChallengeId(), k, ChallengeWorth());
      }
  }

  lemma {:induction false} ServicePriceAfter(services: seq<Service>, id: int, p: Option<real>, k: int)
    requires forall i, j :: 0 <= i < j < |services| ==> services[i].id != services[j].id
    ensures k != id ==> ServicePrice(WithPoints(services, id, p), k) == ServicePrice(services, k)
    ensures (exists i :: 0 <= i < |services| && services[i].id == id) ==>
              ServicePrice(WithPoints(services, id, p), id) == if p.Some? then p.value else 0.0
    ensures (forall i :: 0 <= i < |services| ==> services[i].id != id) ==>
              ServicePrice(WithPoints(services, id, p), id) == ServicePrice(services, id)
  {
    if services != [] {
      ServicePriceAfter(services[1..], id, p, k);
      var rest := WithPoints(services[1..], id, p);
      assert WithPoints(services, id, p)[1..] == rest;
      if services[0].id == id {
        NoServicePrice(rest, id);
      }
    }
  }

  lemma {:induction false} NoServicePrice(services: seq<Service>, id: int)
    requires forall i :: 0 <= i < |services| ==> services[i].id != id
    ensures ServicePrice(services, id) == 0.0
  {
    if services != [] {
      NoServicePrice(services[1..], id);
    }
  }

  // ----------------------------------------------------------- recomputing

  /** One price changed: every capture of that challenge is worth the difference more. */
  lemma {:induction false} Reprice(solves: seq<Solve>, before: seq<Challenge>, after: seq<Challenge>, id: int,
                                   team: int)
    requires forall s :: s in solves && s.challenge != id ==>
               ChallengePrice(after, s.challenge) == ChallengePrice(before, s.challenge)
    ensures SumSolves(solves, after, team) == SumSolves(solves, before, team)
            + Times(Captures(solves, team, id), ChallengePrice(after, id) - ChallengePrice(before, id))
  {
    if solves != [] {
      assert solves[0] in solves;
      Reprice(solves[1..], before, after, id, team);
    }
  }

  /** The cascade: captures of the deleted challenge go, and their worth with them. */
  lemma {:induction false} Cascade(solves: seq<Solve>, before: seq<Challenge>, after: seq<Challenge>, id: int,
                                   team: int)
    requires forall s :: s in solves && s.challenge != id ==>
               ChallengePrice(after, s.challenge) == ChallengePrice(before, s.challenge)
    ensures SumSolves(Where(solves, (s: Solve) => s.challenge != id), after, team) == SumSolves(solves, before, team)
            - Times(Captures(solves, team, id), ChallengePrice(before, id))
  {
    if solves != [] {
      assert solves[0] in solves;
      Cascade(solves[1..], before, after, id, team);
      var rest := Where(solves[1..], (s: Solve) => s.challenge != id);
      assert ([solves[0]] + rest)[1..] == rest && [] + rest == rest;
    }
  }

  lemma {:induction false} Revalue(checks: seq<Result>, before: seq<Service>, after: seq<Service>, id: int, team: int)
    requires forall c :: c in checks && c.service != id ==>
               ServicePrice(after, c.service) == ServicePrice(before, c.service)
    ensures SumPasses(checks, after, team) == SumPasses(checks, before, team)
            + Times(Passes(checks, team, id), ServicePrice(after, id) - ServicePrice(before, id))
  {
    if checks != [] {
      assert checks[0] in checks;
      Revalue(checks[1..], before, after, id, team);
    }
  }

  lemma {:induction false} SolveAppended(solves: seq<Solve>, s: Solve, challenges: seq<Challenge>, team: int)
    ensures SumSolves(solves + [s], challenges, team) == SumSolves(solves, challenges, team)
            + if s.team == team then ChallengePrice(challenges, s.challenge) else 0.0
  {
    if solves != [] {
      assert (solves + [s])[1..] == solves[1..] + [s];
      SolveAppended(solves[1..], s, challenges, team);
    }
  }

  lemma {:induction false} CheckAppended(checks: seq<Result>, c: Result, services: seq<Service>, team: int)
    ensures SumPasses(checks + [c], services, team) == SumPasses(checks, services, team)
            + if c.team == team && c.status == Pass then ServicePrice(services, c.service) else 0.0
  {
    if checks != [] {
      assert (checks + [c])[1..] == checks[1..] + [c];
      CheckAppended(checks[1..], c, services, team);
    }
  }

  lemma {:induction false} BonusAppended(bonuses: seq<Bonus>, b: Bonus, team: int)
    ensures SumBonuses(bonuses + [b], team) == SumBonuses(bonuses, team) + if b.team == team then b.points else 0.0
  {
    if bonuses != [] {
      assert (bonuses + [b])[1..] == bonuses[1..] + [b];
      BonusAppended(bonuses[1..], b, team);
    }
  }

  lemma SameEdit(db: Db, edit: Edit)
    ensures ApplyEdit(Tables(db.challenges, db.solves), edit).challenges
         == ApplyEdit(Tables(db.challenges, []), edit).challenges
  {
  }

  lemma EditDelta(db: Db, edit: Edit, team: int)
    requires PrimaryKeys(db) && ForeignKeys(db) && Enabled(db, Edited(edit))
    ensures var after := Apply(db, Edited(edit));
            SumSolves(after.solves, after.challenges, team)
            == SumSolves(db.solves, db.challenges, team) + Delta(db, team, Edited(edit)).ctf
  {
    var after := Apply(db, Edited(edit));
    SameEdit(db, edit);
    var id := match edit case Add(c) => c.id case Replace(c) => c.id case Delete(i) => i;
    forall k | k != id ensures ChallengePrice(after.challenges, k) == ChallengePrice(db.challenges, k) {
      PriceAfterEdit(db.challenges, edit, k);
    }
    match edit
    case Add(c) =>
      NotCaptured(db.solves, team, c.id);
      Reprice(db.solves, db.challenges, after.challenges, c.id, team);
    case Replace(c) =>
      PriceAfterEdit(db.challenges, edit, c.id);
      Reprice(db.solves, db.challenges, after.challenges, c.id, team);
      if !ChallengeExists(db, c.id) {
        NotCaptured(db.solves, team, c.id);
      }
    case Delete(i) =>
      Cascade(db.solves, db.challenges, after.challenges, i, team);
  }

  lemma {:induction false} NotCaptured(solves: seq<Solve>, team: int, id: int)
    requires forall s :: s in solves ==> s.challenge != id
    ensures Captures(solves, team, id) == 0
  {
    if solves != [] {
      assert solves[0] in solves;
      NotCaptured(solves[1..], team, id);
    }
  }

  lemma DeltaIsRight(db: Db, e: Event, team: int)
    requires PrimaryKeys(db) && ForeignKeys(db) && Enabled(db, e)
    ensures var d := Delta(db, team, e);
            var was := Recomputed(db, team);
            Recomputed(Apply(db, e), team) == Tally(was.service + d.service, was.ctf + d.ctf, was.other + d.other)
  {
    match e
    case Solved(s) => SolveAppended(db.solves, s, db.challenges, team);
    case Checked(c) => CheckAppended(db.checks, c, db.services, team);
    case Awarded(b) => BonusAppended(db.bonuses, b, team);
    case Edited(edit) => EditDelta(db, edit, team);
    case Revalued(id, p) =>
      var after := Apply(db, e);
      forall k | k != id ensures ServicePrice(after.services, k) == ServicePrice(db.services, k) {
        ServicePriceAfter(db.services, id, p, k);
      }
      ServicePriceAfter(db.services, id, p, id);
      Revalue(db.checks, db.services, after.services, id, team);
    case Toggled(_, _) =>
  }

  lemma {:induction false} WithoutKeys(challenges: seq<Challenge>, id: int)
    requires forall i, j :: 0 <= i < j < |challenges| ==> challenges[i].id != challenges[j].id
    ensures forall i, j :: 0 <= i < j < |Without(challenges, id)| ==>
        Without(challenges, id)[i].id != Without(challenges, id)[j].id
  {
    if challenges != [] {
      WithoutKeys(challenges[1..], id);
      WhereKeeps(challenges[1..], (c: Challenge) => c.id != id);
      var rest := Without(challenges[1..], id);
      forall j | 0 <= j < |rest| ensures rest[j].id != challenges[0].id {
        assert rest[j] in challenges[1..];
      }
    }
  }

  lemma KeysKept(db: Db, e: Event)
    requires PrimaryKeys(db) && Enabled(db, e)
    ensures PrimaryKeys(Apply(db, e))
    ensures forall k :: TeamExists(Apply(db, e), k) <==> TeamExists(db, k)
  {
    if e.Edited? && e.edit.Delete? {
      WithoutKeys(db.challenges, e.edit.id);
    }
    var after := Apply(db, e);
    assert |after.teams| == |db.teams| && forall i :: 0 <= i < |db.teams| ==> after.teams[i].id == db.teams[i].id;
  }

  lemma ReferencesKept(db: Db, e: Event)
    requires ForeignKeys(db) && Enabled(db, e)
    ensures ForeignKeys(Apply(db, e))
  {
    var after := Apply(db, e);
    forall k | ServiceExists(db, k) ensures ServiceExists(after, k) {
      var i :| 0 <= i < |db.services| && db.services[i].id == k;
      assert after.services[i].id == k;
    }
    if e.Edited? && e.edit.Delete? {
      WhereKeeps(db.challenges, (c: Challenge) => c.id != e.edit.id);
      WhereKeeps(db.solves, (s: Solve) => s.challenge != e.edit.id);
      forall s | s in after.solves ensures ChallengeExists(after, s.challenge) {
        var i :| 0 <= i < |db.challenges| && db.challenges[i].id == s.challenge;
        assert db.challenges[i] in after.challenges;
      }
    } else {
      forall k | ChallengeExists(db, k) ensures ChallengeExists(after, k) {
        var i :| 0 <= i < |db.challenges| && db.challenges[i].id == k;
        assert after.challenges[i].id == k;
      }
    }
  }

  lemma TalliesKept(db: Db, l: Tallies, e: Event, k: int)
    requires PrimaryKeys(db) && ForeignKeys(db) && Enabled(db, e) && k in l && l[k] == Recomputed(db, k)
    ensures k in Update(db, l, e) && Update(db, l, e)[k] == Recomputed(Apply(db, e), k)
  {
    DeltaIsRight(db, e, k);
  }

  lemma InvStep(db: Db, l: Tallies, e: Event)
    requires Inv(db, l) && Enabled(db, e)
    ensures Inv(Apply(db, e), Update(db, l, e))
  {
    KeysKept(db, e);
    ReferencesKept(db, e);
    forall k | k in l ensures k in Update(db, l, e) && Update(db, l, e)[k] == Recomputed(Apply(db, e), k) {
      TalliesKept(db, l, e, k);
    }
    assert Update(db, l, e).Keys == l.Keys;
  }

  lemma ToggledTeams(db: Db, id: int, off: bool, t: Team)
    ensures t in Apply(db, Toggled(id, off)).teams <==>
            exists u :: u in db.teams && t == if u.id == id then u.(disabled := off) else u
  {
    var after := Apply(db, Toggled(id, off)).teams;
    if t in after {
      var i :| 0 <= i < |after| && after[i] == t;
      assert db.teams[i] in db.teams;
    }
    if u :| u in db.teams && t == if u.id == id then u.(disabled := off) else u {
      var i :| 0 <= i < |db.teams| && db.teams[i] == u;
      assert after[i] == t;
    }
  }

  lemma BlueAfterToggle(db: Db, id: int, off: bool, k: int)
    ensures EnabledBlue(Apply(db, Toggled(id, off)), k) <==>
            exists u :: u in db.teams && u.id == k && u.blue && !(if u.id == id then off else u.disabled)
  {
    var after := Apply(db, Toggled(id, off));
    if t :| t in after.teams && t.id == k && t.blue && !t.disabled {
      ToggledTeams(db, id, off, t);
    }
    if u :| u in db.teams && u.id == k && u.blue && !(if u.id == id then off else u.disabled) {
      ToggledTeams(db, id, off, if u.id == id then u.(disabled := off) else u);
    }
  }

  /** A team that is disabled leaves the views, and comes back with all its points; no other team is touched. */
  lemma ToggledMeans(db: Db, id: int, off: bool, k: int)
    ensures var after := Apply(db, Toggled(id, off));
            && (k != id ==> (EnabledBlue(after, k) <==> EnabledBlue(db, k)))
            && (EnabledBlue(after, id) <==> !off && exists u :: u in db.teams && u.id == id && u.blue)
            && Recomputed(after, k) == Recomputed(db, k)
  {
    BlueAfterToggle(db, id, off, k);
    BlueAfterToggle(db, id, off, id);
  }

  // ---------------------------------------------------------------- histories

  ghost predicate Run(db: Db, l: Tallies, history: seq<Event>, db': Db, l': Tallies)
    decreases |history|
  {
    if history == [] then db == db' && l == l'
    else
      && Enabled(db, history[0])
      && Run(Apply(db, history[0]), Update(db, l, history[0]), history[1..], db', l')
  }

  lemma {:induction false} InvRun(db: Db, l: Tallies, history: seq<Event>, db': Db, l': Tallies)
    requires Inv(db, l) && Run(db, l, history, db', l')
    ensures Inv(db', l')
    decreases |history|
  {
    if history != [] {
      InvStep(db, l, history[0]);
      InvRun(Apply(db, history[0]), Update(db, l, history[0]), history[1..], db', l');
    }
  }

  /** Before the event: teams, services and challenges, and nothing scored. */
  ghost predicate Fresh(db: Db) {
    PrimaryKeys(db) && db.checks == [] && db.solves == [] && db.bonuses == []
  }

  function TeamIds(db: Db): set<int> {
    set i | 0 <= i < |db.teams| :: db.teams[i].id
  }

  function Zeros(db: Db): Tallies {
    map k | k in TeamIds(db) :: Tally(0.0, 0.0, 0.0)
  }

  /** After any history, the tallies and the views agree on every enabled blue team. */
  lemma TalliesAreViews(db: Db, history: seq<Event>, db': Db, l: Tallies, k: int)
    requires Fresh(db) && Run(db, Zeros(db), history, db', l) && EnabledBlue(db', k)
    ensures k in l && k in ServiceScore(db') && k in CtfScore(db') && k in OtherScore(db')
    ensures l[k] == Tally(ServiceScore(db')[k], CtfScore(db')[k], OtherScore(db')[k])
  {
    assert Inv(db, Zeros(db)) by {
      forall k ensures k in Zeros(db) <==> TeamExists(db, k) {
      }
    }
    InvRun(db, Zeros(db), history, db', l);
    ViewsAreSums(db', k);
    var t :| t in db'.teams && t.id == k && t.blue && !t.disabled;
    assert TeamExists(db', k);
  }

  /** And so does the scoreboard: one row per enabled blue team, rounded from its tally. */
  lemma ScoreboardIsTallies(db: Db, history: seq<Event>, db': Db, l: Tallies)
    requires Fresh(db) && Run(db, Zeros(db), history, db', l)
    ensures var rows, blue := TeamsScores(db'), BlueTeams(db'.teams);
            && |rows| == |blue|
            && forall i :: 0 <= i < |rows| ==>
                 && blue[i].id in l
                 && rows[i] == ScoreRow(blue[i], l[blue[i].id].service, l[blue[i].id].ctf, l[blue[i].id].other)
  {
    assert Inv(db, Zeros(db)) by {
      forall k ensures k in Zeros(db) <==> TeamExists(db, k) {
      }
    }
    InvRun(db, Zeros(db), history, db', l);
    OneRowPerTeam(db');
    BlueTeamsOrdered(db'.teams);
    var blue := BlueTeams(db'.teams);
    forall i | 0 <= i < |blue|
      ensures blue[i].id in l && l[blue[i].id] == Recomputed(db', blue[i].id)
    {
      assert blue[i] in blue && TeamExists(db', blue[i].id);
    }
  }
}
