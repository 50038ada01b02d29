/** The runner with its rounds: the clock, ticker and break scheduler of `Runner`, the goroutines, collector and reloads
    of `Round`, and the table the results go to, as one step system. A round of the one is a round of the other. */
module Engine {
  import opened Common
  import opened Relational
  import opened Results
  import opened Monitor
  import Round
  import Runner
  import Ledger

  /** `unstored` says that a finished round's results have not been stored yet, or given up on. */
  datatype State = State(run: Runner.State, work: Round.State, table: seq<Result>, unstored: bool)

  /** `Begin` starts a round: the runner takes the lock with the stamp it read before its jitter. `Store` ends
      the attempts to store a round: all of its rows are stored, or none. */
  datatype Action =
    | Time(step: Runner.Action)
    | Work(task: Round.Action)
    | Begin(stamp: int)
    | Store(ok: bool)

  /** `starts` gives each service's start. */
  datatype World = World(rules: Runner.Rules, starts: int -> int)

  function Init(t: int): State { State(Runner.Init(t), Round.Init([]), [], false) }

  /** Active checks are of services that have started. */
  ghost predicate Active(w: World, checks: seq<Check>, now: int) {
    Keyed(checks) && forall c :: c in checks ==> w.starts(c.service) < now
  }

  ghost predicate Enabled(w: World, s: State, e: Action)
    requires w.rules.interval >= 1
  {
    match e
    case Time(a) =>
      && Runner.Enabled(w.rules, s.run, a)
      && !a.StartRound?
      && (a.NothingToCheck? ==> s.work.checks == [])
      && (a.EndRound? ==> !s.work.locked && !s.unstored)
    case Work(a) =>
      && Round.Enabled(s.work, a)
      && !a.Lock?
      && (a.Reload? ==> Active(w, a.checks, s.run.clock))
    case Begin(stamp) =>
      && stamp <= s.run.clock
      && Runner.Enabled(w.rules, s.run, Runner.StartRound)
      && Round.Enabled(s.work, Round.Lock(stamp))
    case Store(_) => s.unstored && s.work.history != []
  }

  function LastRound(s: State): Round.Done
    requires s.work.history != []
  {
    s.work.history[|s.work.history| - 1]
  }

  function Apply(w: World, s: State, e: Action): State
    requires w.rules.interval >= 1 && Enabled(w, s, e)
  {
    match e
    case Time(a) => s.(run := Runner.Apply(w.rules, s.run, a))
    case Work(a) => s.(work := Round.Apply(s.work, a), unstored := s.unstored || a.Unlock?)
    case Begin(stamp) =>
      s.(run := Runner.Apply(w.rules, s.run, Runner.StartRound), work := Round.Apply(s.work, Round.Lock(stamp)))
    case Store(ok) =>
      s.(table := s.table + if ok then LastRound(s).results else [], unstored := false)
  }

  ghost predicate Run(w: World, s: State, acts: seq<Action>, s': State)
    requires w.rules.interval >= 1
    decreases |acts|
  {
    if acts == [] then s == s'
    else Enabled(w, s, acts[0]) && Run(w, Apply(w, s, acts[0]), acts[1..], s')
  }

  /** What the runner alone does in such a run. */
  function RunnerPart(acts: seq<Action>): seq<Runner.Action> {
    if acts == [] then []
    else
      (match acts[0]
       case Time(a) => [a]
       case Begin(_) => [Runner.StartRound]
       case _ => [])
      + RunnerPart(acts[1..])
  }

  lemma {:induction false} RunnerRuns(w: World, s: State, acts: seq<Action>, s': State)
    requires w.rules.interval >= 1 && Run(w, s, acts, s')
    ensures Runner.Run(w.rules, s.run, RunnerPart(acts), s'.run)
    decreases |acts|
  {
    if acts != [] {
      var next := Apply(w, s, acts[0]);
      RunnerRuns(w, next, acts[1..], s');
      match acts[0]
      case Time(a) => Runner.RunStep(w.rules, s.run, a, RunnerPart(acts[1..]), s'.run);
      case Begin(_) => Runner.RunStep(w.rules, s.run, Runner.StartRound, RunnerPart(acts[1..]), s'.run);
      case _ => assert [] + RunnerPart(acts[1..]) == RunnerPart(acts[1..]);
    }
  }

  /** And what happens to the rounds. */
  function WorkPart(acts: seq<Action>): seq<Round.Action> {
    if acts == [] then []
    else
      (match acts[0]
       case Work(a) => [a]
       case Begin(stamp) => [Round.Lock(stamp)]
       case _ => [])
      + WorkPart(acts[1..])
  }

  lemma RoundStep(s: Round.State, a: Round.Action, rest: seq<Round.Action>, s': Round.State)
    requires Round.Enabled(s, a) && Round.Run(Round.Apply(s, a), rest, s')
    ensures Round.Run(s, [a] + rest, s')
  {
    assert ([a] + rest)[1..] == rest;
  }

  lemma {:induction false} RoundsRun(w: World, s: State, acts: seq<Action>, s': State)
    requires w.rules.interval >= 1 && Run(w, s, acts, s')
    ensures Round.Run(s.work, WorkPart(acts), s'.work)
    decreases |acts|
  {
    if acts != [] {
      RoundsRun(w, Apply(w, s, acts[0]), acts[1..], s');
      match acts[0]
      case Work(a) => RoundStep(s.work, a, WorkPart(acts[1..]), s'.work);
      case Begin(stamp) => RoundStep(s.work, Round.Lock(stamp), WorkPart(acts[1..]), s'.work);
      case _ => assert [] + WorkPart(acts[1..]) == WorkPart(acts[1..]);
    }
  }

  // ------------------------------------------------------------ counting passes

  lemma {:induction false} PassesJoin(a: seq<Result>, b: seq<Result>, team: int, service: int)
    ensures Ledger.Passes(a + b, team, service) == Ledger.Passes(a, team, service) + Ledger.Passes(b, team, service)
  {
    if a == [] {
      assert a + b == b;
    } else {
      assert (a + b)[0] == a[0] && (a + b)[1..] == a[1..] + b;
      PassesJoin(a[1..], b, team, service);
    }
  }

  lemma PassesWithout(b: seq<Result>, i: nat, team: int, service: int)
    requires i < |b|
    ensures Ledger.Passes(b, team, service)
         == (if IsPass(b[i], team, service) then 1 else 0) + Ledger.Passes(b[..i] + b[i + 1..], team, service)
  {
    var left, right := b[..i], b[i + 1..];
    assert b == left + ([b[i]] + right) && ([b[i]] + right)[1..] == right;
    PassesJoin(left, right, team, service);
    PassesJoin(left, [b[i]] + right, team, service);
  }

  /** The order in which results arrive does not matter. */
  lemma {:induction false} PassesBag(a: seq<Result>, b: seq<Result>, team: int, service: int)
    requires multiset(a) == multiset(b)
    ensures Ledger.Passes(a, team, service) == Ledger.Passes(b, team, service)
  {
    if a == [] {
      assert |multiset(b)| == |b| == 0;
    } else {
      var i := Matching(a, b);
      PassesBag(a[1..], b[..i] + b[i + 1..], team, service);
      PassesWithout(b, i, team, service);
    }
  }

  lemma Matching(a: seq<Result>, b: seq<Result>) returns (i: nat)
    requires a != [] && multiset(a) == multiset(b)
    ensures i < |b| && b[i] == a[0] && multiset(a[1..]) == multiset(b[..i] + b[i + 1..])
  {
    assert a[0] in multiset(b);
    i :| i < |b| && b[i] == a[0];
    TakenOut(b, i);
    assert a == [a[0]] + a[1..];
    assert multiset(a[1..]) == multiset(a) - multiset{a[0]};
  }

  ghost predicate Has(checks: seq<Check>, service: int) {
    exists c :: c in checks && c.service == service
  }

  lemma {:induction false} NoPass(rows: seq<Result>, team: int, service: int)
    requires forall i :: 0 <= i < |rows| ==> !IsPass(rows[i], team, service)
    ensures Ledger.Passes(rows, team, service) == 0
  {
    if rows != [] {
      NoPass(rows[1..], team, service);
    }
  }

  lemma {:induction false} ExpectedOnce(checks: seq<Check>, stamp: int, outcomes: seq<Outcome>, team: int, service: int)
    requires Keyed(checks) && |outcomes| == |checks|
    ensures Ledger.Passes(Expected(checks, stamp, outcomes), team, service) <= 1
  {
    if checks != [] {
      var rows := Expected(checks, stamp, outcomes);
      assert rows[1..] == Expected(checks[1..], stamp, outcomes[1..]);
      if IsPass(rows[0], team, service) {
        NoPass(rows[1..], team, service);
      } else {
        ExpectedOnce(checks[1..], stamp, outcomes[1..], team, service);
      }
    }
  }

  lemma ExpectedNone(checks: seq<Check>, stamp: int, outcomes: seq<Outcome>, team: int, service: int)
    requires |outcomes| == |checks| && !Has(checks, service)
    ensures Ledger.Passes(Expected(checks, stamp, outcomes), team, service) == 0
  {
    forall i | 0 <= i < |checks| ensures checks[i].service != service {
      assert checks[i] in checks;
    }
    NoPass(Expected(checks, stamp, outcomes), team, service);
  }

  /** A finished round scores a service at most once for a team, and not at all if it was not active. */
  lemma RoundScoresOnce(d: Round.Done, team: int, service: int)
    requires Round.Complete(d) && Keyed(d.checks)
    ensures Ledger.Passes(d.results, team, service) <= if Has(d.checks, service) then 1 else 0
  {
    var outcomes :|
      |outcomes| == |d.checks| && multiset(d.results) == multiset(Expected(d.checks, d.stamp, outcomes));
    PassesBag(d.results, Expected(d.checks, d.stamp, outcomes), team, service);
    ExpectedOnce(d.checks, d.stamp, outcomes, team, service);
    if !Has(d.checks, service) {
      ExpectedNone(d.checks, d.stamp, outcomes, team, service);
    }
  }

  // ------------------------------------------------- passes against the runner's rounds

  /** The runner's rounds that began after `start`. */
  function RoundsAfter(rounds: seq<int>, start: int): nat {
    if rounds == [] then 0
    else RoundsAfter(rounds[..|rounds| - 1], start) + if rounds[|rounds| - 1] > start then 1 else 0
  }

  /** A round whose results are still to come or to be stored can add a pass. */
  function Owed(s: State): nat { if s.work.locked || s.unstored then 1 else 0 }

  /** A round in hand is the runner's last. */
  ghost predicate InHand(s: State) {
    && (s.work.locked || s.unstored ==> s.run.phase.Checking? && s.run.rounds != [])
    && !(s.work.locked && s.unstored)
    && (s.unstored ==> s.work.history != [])
  }

  /** The checks of the round in hand. */
  function Current(s: State): seq<Check> {
    if s.work.locked then s.work.checks
    else if s.unstored && s.work.history != [] then LastRound(s).checks
    else []
  }

  ghost predicate ChecksInv(w: World, s: State) {
    && Round.Inv(s.work)
    && Active(w, s.work.checks, s.run.clock)
    && forall i :: 0 <= i < |s.work.history| ==> Keyed(s.work.history[i].checks)
  }

  /** A service in the round in hand had started when that round began. */
  ghost predicate StartedInv(w: World, s: State) {
    Owed(s) == 1 ==>
      && s.run.rounds != []
      && forall c :: c in Current(s) ==> w.starts(c.service) < s.run.rounds[|s.run.rounds| - 1]
  }

  ghost predicate PassesInv(w: World, s: State, team: int, service: int) {
    Ledger.Passes(s.table, team, service) + (if Owed(s) == 1 && Has(Current(s), service) then 1 else 0)
      <= RoundsAfter(s.run.rounds, w.starts(service))
  }

  ghost predicate Inv(w: World, s: State, team: int, service: int) {
    InHand(s) && ChecksInv(w, s) && StartedInv(w, s) && PassesInv(w, s, team, service)
  }

  lemma RunnerMoves(w: World, s: State, a: Runner.Action)
    requires w.rules.interval >= 1 && Enabled(w, s, Time(a))
    ensures var s' := Apply(w, s, Time(a));
            && s'.run.rounds == s.run.rounds && s'.run.clock >= s.run.clock
            && (s'.run.phase.Checking? <==> s.run.phase.Checking? && !a.EndRound?)
  {
  }

  lemma ActiveLater(w: World, checks: seq<Check>, now: int, later: int)
    requires Active(w, checks, now) && now <= later
    ensures Active(w, checks, later)
  {
  }

  lemma TimeChecks(w: World, s: State, a: Runner.Action)
    requires w.rules.interval >= 1 && ChecksInv(w, s) && Enabled(w, s, Time(a))
    ensures ChecksInv(w, Apply(w, s, Time(a)))
  {
    RunnerMoves(w, s, a);
    ActiveLater(w, s.work.checks, s.run.clock, Apply(w, s, Time(a)).run.clock);
  }

  lemma TimeHand(w: World, s: State, a: Runner.Action)
    requires w.rules.interval >= 1 && InHand(s) && Enabled(w, s, Time(a))
    ensures var s' := Apply(w, s, Time(a));
            InHand(s') && Owed(s') == Owed(s) && Current(s') == Current(s) && s'.run.rounds == s.run.rounds
  {
    RunnerMoves(w, s, a);
  }

  lemma TimeStep(w: World, s: State, a: Runner.Action, team: int, service: int)
    requires w.rules.interval >= 1 && Inv(w, s, team, service) && Enabled(w, s, Time(a))
    ensures Inv(w, Apply(w, s, Time(a)), team, service)
  {
    TimeChecks(w, s, a);
    TimeHand(w, s, a);
    SameClaims(w, s, Apply(w, s, Time(a)), team, service);
  }

  lemma RoundMoves(s: Round.State, a: Round.Action)
    requires Round.Enabled(s, a) && !a.Lock?
    ensures var s' := Round.Apply(s, a);
            && s'.checks == (if a.Reload? then a.checks else s.checks)
            && s'.locked == (s.locked && !a.Unlock?)
            && (a.Unlock? || a.Spawn? || a.Receive? ==> s.locked) && (a.Reload? ==> !s.locked)
            && s'.history == if a.Unlock? then s.history + [Round.Done(s.stamp, s.checks, s.buf)] else s.history
  {
  }

  lemma WorkChecks(w: World, s: State, a: Round.Action)
    requires w.rules.interval >= 1 && ChecksInv(w, s) && Enabled(w, s, Work(a))
    ensures ChecksInv(w, Apply(w, s, Work(a)))
  {
    assert Round.Inv(Apply(w, s, Work(a)).work) by {
      Round.InvStep(s.work, a);
    }
    RoundMoves(s.work, a);
  }

  lemma WorkHand(w: World, s: State, a: Round.Action)
    requires w.rules.interval >= 1 && InHand(s) && Enabled(w, s, Work(a))
    ensures var s' := Apply(w, s, Work(a));
            InHand(s') && Owed(s') == Owed(s) && (Owed(s) == 1 ==> Current(s') == Current(s))
  {
    RoundMoves(s.work, a);
  }

  lemma WorkStep(w: World, s: State, a: Round.Action, team: int, service: int)
    requires w.rules.interval >= 1 && Inv(w, s, team, service) && Enabled(w, s, Work(a))
    ensures Inv(w, Apply(w, s, Work(a)), team, service)
  {
    WorkChecks(w, s, a);
    WorkHand(w, s, a);
    SameClaims(w, s, Apply(w, s, Work(a)), team, service);
  }

  lemma SameClaims(w: World, s: State, s': State, team: int, service: int)
    requires StartedInv(w, s) && PassesInv(w, s, team, service)
    requires s'.run.rounds == s.run.rounds && s'.table == s.table
    requires Owed(s') == Owed(s) && (Owed(s) == 1 ==> Current(s') == Current(s))
    ensures StartedInv(w, s') && PassesInv(w, s', team, service)
  {
  }

  lemma BeginStep(w: World, s: State, stamp: int, team: int, service: int)
    requires w.rules.interval >= 1 && Inv(w, s, team, service) && Enabled(w, s, Begin(stamp))
    ensures Inv(w, Apply(w, s, Begin(stamp)), team, service)
  {
    Round.InvStep(s.work, Round.Lock(stamp));
    var s' := Apply(w, s, Begin(stamp));
    assert s'.run.rounds[..|s.run.rounds|] == s.run.rounds;
    assert Current(s') == s.work.checks && Owed(s) == 0;
  }

  lemma StoreStep(w: World, s: State, ok: bool, team: int, service: int)
    requires w.rules.interval >= 1 && Inv(w, s, team, service) && Enabled(w, s, Store(ok))
    ensures Inv(w, Apply(w, s, Store(ok)), team, service)
  {
    var d := LastRound(s);
    RoundScoresOnce(d, team, service);
    PassesJoin(s.table, if ok then d.results else [], team, service);
    assert Current(s) == d.checks;
  }

  lemma InvStep(w: World, s: State, e: Action, team: int, service: int)
    requires w.rules.interval >= 1 && Inv(w, s, team, service) && Enabled(w, s, e)
    ensures Inv(w, Apply(w, s, e), team, service)
  {
    match e
    case Time(a) => TimeStep(w, s, a, team, service);
    case Work(a) => WorkStep(w, s, a, team, service);
    case Begin(stamp) => BeginStep(w, s, stamp, team, service);
    case Store(ok) => StoreStep(w, s, ok, team, service);
  }

  lemma {:induction false} InvRun(w: World, s: State, acts: seq<Action>, s': State, team: int, service: int)
    requires w.rules.interval >= 1 && Inv(w, s, team, service) && Run(w, s, acts, s')
    ensures Inv(w, s', team, service)
    decreases |acts|
  {
    if acts != [] {
      InvStep(w, s, acts[0], team, service);
      InvRun(w, Apply(w, s, acts[0]), acts[1..], s', team, service);
    }
  }

  lemma {:induction false} RoundsAfterBound(before: seq<int>, rounds: seq<int>, start: int)
    requires before <= rounds && forall i :: 0 <= i < |before| ==> before[i] <= start
    ensures RoundsAfter(rounds, start) <= |rounds| - |before|
  {
    if |rounds| > |before| {
      RoundsAfterBound(before, rounds[..|rounds| - 1], start);
    } else if rounds != [] {
      assert before == rounds;
      RoundsAfterBound(before[..|before| - 1], rounds[..|rounds| - 1], start);
    }
  }

  /** In every run: the passes stored for a team and a service are no more than
      the runner's rounds that began after the service's start. */
  lemma PassesWithinRounds(w: World, t: int, acts: seq<Action>, s: State, team: int, service: int)
    requires w.rules.interval >= 1 && Run(w, Init(t), acts, s)
    ensures Ledger.Passes(s.table, team, service) <= RoundsAfter(s.run.rounds, w.starts(service)) <= |s.run.rounds|
  {
    InvRun(w, Init(t), acts, s, team, service);
    RoundsAfterBound([], s.run.rounds, w.starts(service));
  }

  lemma {:induction false} RoundsGrow(w: World, s: State, acts: seq<Action>, s': State)
    requires w.rules.interval >= 1 && Run(w, s, acts, s')
    ensures s.run.rounds <= s'.run.rounds
    decreases |acts|
  {
    if acts != [] {
      RoundsGrow(w, Apply(w, s, acts[0]), acts[1..], s');
    }
  }

  /** And if no round up to `m` began after the start, they are no more than the rounds since `m`. */
  lemma PassesSince(w: World, t: int, before: seq<Action>, m: State, acts: seq<Action>, s: State, team: int,
                    service: int)
    requires w.rules.interval >= 1 && Run(w, Init(t), before, m) && Run(w, m, acts, s)
    requires forall i :: 0 <= i < |m.run.rounds| ==> m.run.rounds[i] <= w.starts(service)
    ensures Ledger.Passes(s.table, team, service) <= |s.run.rounds| - |m.run.rounds|
  {
    InvRun(w, Init(t), before, m, team, service);
    InvRun(w, m, acts, s, team, service);
    RoundsGrow(w, m, acts, s);
    RoundsAfterBound(m.run.rounds, s.run.rounds, w.starts(service));
  }

  // -------------------------------------------------------------- what the table holds

  /** How the rounds' stores came out, in order. */
  function Answers(acts: seq<Action>): seq<bool> {
    if acts == [] then []
    else if acts[0].Store? then [acts[0].ok] + Answers(acts[1..])
    else Answers(acts[1..])
  }

  /** The results of the finished rounds that were kept, one round after another. */
  function Rows(history: seq<Round.Done>, kept: seq<bool>): seq<Result>
    requires |kept| <= |history|
  {
    if kept == [] then []
    else
      var n := |kept| - 1;
      Rows(history, kept[..n]) + if kept[n] then history[n].results else []
  }

  lemma {:induction false} RowsStay(history: seq<Round.Done>, more: seq<Round.Done>, kept: seq<bool>)
    requires |kept| <= |history| && history <= more
    ensures Rows(more, kept) == Rows(history, kept)
  {
    if kept != [] {
      RowsStay(history, more, kept[..|kept| - 1]);
    }
  }

  lemma RowsNext(history: seq<Round.Done>, kept: seq<bool>, ok: bool)
    requires |kept| < |history|
    ensures Rows(history, kept + [ok]) == Rows(history, kept) + if ok then history[|kept|].results else []
  {
    assert (kept + [ok])[..|kept|] == kept;
  }

  /** Every finished round but one still in hand has been kept or given up, and the table holds those kept. */
  ghost predicate Booked(s: State, kept: seq<bool>) {
    && |kept| + (if s.unstored then 1 else 0) == |s.work.history|
    && s.table == Rows(s.work.history, kept)
  }

  lemma HandStep(w: World, s: State, e: Action)
    requires w.rules.interval >= 1 && InHand(s) && Enabled(w, s, e)
    ensures InHand(Apply(w, s, e))
  {
    match e
    case Time(a) => TimeHand(w, s, a);
    case Work(a) => WorkHand(w, s, a);
    case Begin(_) =>
    case Store(_) =>
  }

  lemma HistoryStep(w: World, s: State, e: Action)
    requires w.rules.interval >= 1 && InHand(s) && Enabled(w, s, e)
    ensures var s' := Apply(w, s, e);
            && s.work.history <= s'.work.history
            && |s'.work.history| == |s.work.history| + (if e == Work(Round.Unlock) then 1 else 0)
            && (e == Work(Round.Unlock) ==> !s.unstored && s'.unstored)
            && (e.Store? ==> s.unstored && !s'.unstored)
            && (e != Work(Round.Unlock) && !e.Store? ==> s'.unstored == s.unstored)
  {
    if e.Work? {
      RoundMoves(s.work, e.task);
    }
  }

  lemma BookedStep(w: World, s: State, e: Action, kept: seq<bool>)
    requires w.rules.interval >= 1 && InHand(s) && Booked(s, kept) && Enabled(w, s, e)
    ensures Booked(Apply(w, s, e), kept + if e.Store? then [e.ok] else [])
  {
    HistoryStep(w, s, e);
    if e.Store? {
      RowsNext(s.work.history, kept, e.ok);
    } else {
      assert kept + [] == kept;
      RowsStay(s.work.history, Apply(w, s, e).work.history, kept);
    }
  }

  function KeptAfter(kept: seq<bool>, acts: seq<Action>): seq<bool> { kept + Answers(acts) }

  lemma KeptNext(kept: seq<bool>, acts: seq<Action>)
    requires acts != []
    ensures KeptAfter(kept + (if acts[0].Store? then [acts[0].ok] else []), acts[1..]) == KeptAfter(kept, acts)
  {
    if !acts[0].Store? {
      assert kept + [] == kept;
    }
  }

  lemma {:induction false} BookedRun(w: World, s: State, acts: seq<Action>, s': State, kept: seq<bool>)
    requires w.rules.interval >= 1 && InHand(s) && Booked(s, kept) && Run(w, s, acts, s')
    ensures Booked(s', KeptAfter(kept, acts))
    decreases |acts|
  {
    if acts == [] {
      assert KeptAfter(kept, acts) == kept;
    } else {
      HandStep(w, s, acts[0]);
      BookedStep(w, s, acts[0], kept);
      KeptNext(kept, acts);
      BookedRun(w, Apply(w, s, acts[0]), acts[1..], s', kept + if acts[0].Store? then [acts[0].ok] else []);
    }
  }

  /** In every run the table holds the results of the finished rounds whose store succeeded, whole and in order,
      and nothing else; each finished round is stored or given up once before the runner goes on. */
  lemma TableIsStoredRounds(w: World, t: int, acts: seq<Action>, s: State)
    requires w.rules.interval >= 1 && Run(w, Init(t), acts, s)
    ensures |Answers(acts)| + (if s.unstored then 1 else 0) == |s.work.history|
    ensures s.table == Rows(s.work.history, Answers(acts))
    ensures s.run.phase.Idle? || s.run.phase.Passing? ==> !s.unstored
  {
    InHandAtStart(t);
    BookedRun(w, Init(t), acts, s, []);
    assert KeptAfter([], acts) == Answers(acts);
    HandRun(w, Init(t), acts, s);
  }

  lemma InHandAtStart(t: int)
    ensures InHand(Init(t)) && Booked(Init(t), [])
  {
  }

  lemma {:induction false} HandRun(w: World, s: State, acts: seq<Action>, s': State)
    requires w.rules.interval >= 1 && InHand(s) && Run(w, s, acts, s')
    ensures InHand(s')
    decreases |acts|
  {
    if acts != [] {
      HandStep(w, s, acts[0]);
      HandRun(w, Apply(w, s, acts[0]), acts[1..], s');
    }
  }

  ghost predicate HoldsPass(d: Round.Done, team: int, service: int) {
    exists r :: r in d.results && IsPass(r, team, service)
  }

  /** The kept rounds that hold a pass. */
  ghost function RoundsPassed(history: seq<Round.Done>, kept: seq<bool>, team: int, service: int): nat
    requires |kept| <= |history|
  {
    if kept == [] then 0
    else
      var n := |kept| - 1;
      RoundsPassed(history, kept[..n], team, service) + if kept[n] && HoldsPass(history[n], team, service) then 1 else 0
  }

  lemma {:induction false} PassesAny(rows: seq<Result>, team: int, service: int)
    ensures Ledger.Passes(rows, team, service) > 0 <==> exists r :: r in rows && IsPass(r, team, service)
  {
    if rows != [] {
      PassesAny(rows[1..], team, service);
      assert rows == [rows[0]] + rows[1..];
    }
  }

  lemma RoundPasses(d: Round.Done, team: int, service: int)
    requires Round.Complete(d) && Keyed(d.checks)
    ensures Ledger.Passes(d.results, team, service) == if HoldsPass(d, team, service) then 1 else 0
  {
    RoundScoresOnce(d, team, service);
    PassesAny(d.results, team, service);
  }

  lemma {:induction false} RowsPasses(history: seq<Round.Done>, kept: seq<bool>, team: int, service: int)
    requires |kept| <= |history|
    requires forall i :: 0 <= i < |history| ==> Round.Complete(history[i]) && Keyed(history[i].checks)
    ensures Ledger.Passes(Rows(history, kept), team, service) == RoundsPassed(history, kept, team, service)
  {
    if kept != [] {
      var n := |kept| - 1;
      RowsPasses(history, kept[..n], team, service);
      RoundPasses(history[n], team, service);
      PassesJoin(Rows(history, kept[..n]), if kept[n] then history[n].results else [], team, service);
    }
  }

  /** So a team's stored passes for a service are exactly the kept rounds that hold one. */
  lemma PassesAreRounds(w: World, t: int, acts: seq<Action>, s: State, team: int, service: int)
    requires w.rules.interval >= 1 && Run(w, Init(t), acts, s)
    ensures |Answers(acts)| <= |s.work.history|
    ensures Ledger.Passes(s.table, team, service) == RoundsPassed(s.work.history, Answers(acts), team, service)
  {
    TableIsStoredRounds(w, t, acts, s);
    InvRun(w, Init(t), acts, s, team, service);
    RowsPasses(s.work.history, Answers(acts), team, service);
  }

  // --------------------------------------------------------------- a round that goes through

  lemma EngineStep(w: World, s: State, e: Action, rest: seq<Action>, s': State)
    requires w.rules.interval >= 1 && Enabled(w, s, e) && Run(w, Apply(w, s, e), rest, s')
    ensures Run(w, s, [e] + rest, s')
  {
    assert ([e] + rest)[1..] == rest;
  }

  /** Steps of a round under way are steps of the whole. */
  lemma {:induction false} WorkRuns(w: World, s: State, acts: seq<Round.Action>, work: Round.State,
                                    rest: seq<Action>, s': State) returns (all: seq<Action>)
    requires w.rules.interval >= 1 && Round.Run(s.work, acts, work) && Run(w, s.(work := work), rest, s')
    requires forall i :: 0 <= i < |acts| ==> acts[i].Spawn? || acts[i].Finish? || acts[i].Receive?
    ensures Run(w, s, all, s')
    decreases |acts|
  {
    if acts == [] {
      all := rest;
    } else {
      var next := Apply(w, s, Work(acts[0]));
      var more := WorkRuns(w, next, acts[1..], work, rest, s');
      EngineStep(w, s, Work(acts[0]), more, s');
      all := [Work(acts[0])] + more;
    }
  }

  /** Unlocking, storing and going to wait. */
  lemma RoundEnds(w: World, s: State, ok: bool) returns (acts: seq<Action>, s': State)
    requires w.rules.interval >= 1 && InHand(s) && Round.Enabled(s.work, Round.Unlock)
    ensures Run(w, s, acts, s')
    ensures s'.run.phase.Idle? && s'.run.rounds == s.run.rounds && !s'.work.locked && !s'.unstored
    ensures s'.work.history == Round.Apply(s.work, Round.Unlock).history
    ensures s'.table == s.table + if ok then s.work.buf else []
  {
    var unlocked := Apply(w, s, Work(Round.Unlock));
    var stored := Apply(w, unlocked, Store(ok));
    s' := Apply(w, stored, Time(Runner.EndRound));
    EngineStep(w, stored, Time(Runner.EndRound), [], s');
    EngineStep(w, unlocked, Store(ok), [Time(Runner.EndRound)] + [], s');
    acts := [Store(ok)] + ([Time(Runner.EndRound)] + []);
    EngineStep(w, s, Work(Round.Unlock), acts, s');
    acts := [Work(Round.Unlock)] + acts;
  }

  /** From every reachable state in which the runner is about to check, and whatever way each command is going to end, a
      round goes through: its results are those ways of ending, and they are all in the table if the store succeeds. */
  lemma RoundGoesThrough(w: World, t: int, before: seq<Action>, s: State, outcomes: seq<Outcome>, ok: bool)
    returns (acts: seq<Action>, s': State)
    requires w.rules.interval >= 1 && Run(w, Init(t), before, s)
    requires s.run.phase.Passing? && s.work.checks != [] && |outcomes| == |s.work.checks|
    ensures Run(w, s, acts, s') && s'.run.phase.Idle? && s'.run.rounds == s.run.rounds + [s.run.clock]
    ensures |s'.work.history| == |s.work.history| + 1 && s'.work.history[..|s.work.history|] == s.work.history
    ensures LastRound(s').checks == s.work.checks
    ensures multiset(LastRound(s').results) == multiset(Expected(s.work.checks, s.run.clock, outcomes))
    ensures s'.table == s.table + if ok then LastRound(s').results else []
  {
    InHandAtStart(t);
    HandRun(w, Init(t), before, s);
    RoundsRun(w, Init(t), before, s);
    var stamp := s.run.clock;
    var begun := Apply(w, s, Begin(stamp));
    var steps, work := Round.Completed(begun.work, outcomes);
    var exits := Round.RoundHoldsItsExits([], WorkPart(before), s.work, stamp, steps, work);
    assert exits == outcomes by {
      forall g: nat | g < |exits| ensures exits[g] == outcomes[g] {
        assert Round.FinishOf(steps, g) == Some(outcomes[g]);
      }
    }
    Round.StaysInRound(begun.work, steps, work);
    var full := begun.(work := work);
    var ending;
    ending, s' := RoundEnds(w, full, ok);
    var rest := WorkRuns(w, begun, steps, work, ending, s');
    EngineStep(w, s, Begin(stamp), rest, s');
    acts := [Begin(stamp)] + rest;
  }

  /** With no active checks the runner passes on to its wait, and the rounds and the table stay as they are. */
  lemma EmptyPass(w: World, t: int, before: seq<Action>, s: State)
    requires w.rules.interval >= 1 && Run(w, Init(t), before, s) && s.run.phase.Passing? && s.work.checks == []
    ensures Enabled(w, s, Time(Runner.NothingToCheck))
    ensures var s' := Apply(w, s, Time(Runner.NothingToCheck));
            s'.run.phase.Idle? && s'.run.rounds == s.run.rounds && s'.work == s.work && s'.table == s.table
  {
  }

  /** Between rounds any list of active checks can be loaded, and is what the next round checks. */
  lemma ReloadTakes(w: World, t: int, before: seq<Action>, s: State, checks: seq<Check>)
    requires w.rules.interval >= 1 && Run(w, Init(t), before, s)
    requires !s.work.locked && Active(w, checks, s.run.clock)
    ensures Enabled(w, s, Work(Round.Reload(checks)))
    ensures var s' := Apply(w, s, Work(Round.Reload(checks)));
            s'.work.checks == checks && s'.run == s.run && s'.table == s.table && s'.work.history == s.work.history
  {
  }
}
