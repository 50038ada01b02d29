/** From rounds to points: what the score view makes of the stored rows for one team and service,
    against the cap on it. */
module Earnings {
  import opened Relational
  import opened Results
  import opened Schedule
  import opened Points
  import Runner
  import PauseTime
  import PromptRuns
  import Engine
  import Scoring
  import Ledger

  function OfService(service: int): Result -> bool { (r: Result) => r.service == service }

  /** What the score view adds up for one team and one service. */
  function Earned(rows: seq<Result>, services: seq<Scoring.Service>, team: int, service: int): real {
    Scoring.SumPasses(Where(rows, OfService(service)), services, team)
  }

  lemma EarnedStep(row: Result, rest: seq<Result>, services: seq<Scoring.Service>, team: int, service: int)
    ensures Scoring.SumPasses((if OfService(service)(row) then [row] else []) + rest, services, team)
         == (if IsPass(row, team, service) then Ledger.ServicePrice(services, service) else 0.0)
            + Scoring.SumPasses(rest, services, team)
  {
    assert ([row] + rest)[1..] == rest && [] + rest == rest;
  }

  lemma {:induction false} EarnedIs(rows: seq<Result>, services: seq<Scoring.Service>, team: int, service: int)
    ensures Earned(rows, services, team, service)
         == Ledger.Times(Ledger.Passes(rows, team, service), Ledger.ServicePrice(services, service))
  {
    if rows != [] {
      EarnedIs(rows[1..], services, team, service);
      EarnedStep(rows[0], Where(rows[1..], OfService(service)), services, team, service);
    }
  }

  /** The service is priced at its share of `total` for each of `n` checks. */
  ghost predicate Priced(services: seq<Scoring.Service>, service: int, total: real, n: int) {
    n >= 1 && Ledger.ServicePrice(services, service) == total / n as real
  }

  lemma EarnedIsPaid(rows: seq<Result>, services: seq<Scoring.Service>, team: int, service: int, total: real, n: int)
    requires Priced(services, service, total, n)
    ensures Earned(rows, services, team, service) == Paid(Ledger.Passes(rows, team, service), total, n)
  {
    EarnedIs(rows, services, team, service);
  }

  /** In every run it is a check's worth for each round that was kept and holds a pass: none is lost, none is added. */
  lemma EarnedIsRounds(w: Engine.World, t: int, acts: seq<Engine.Action>, s: Engine.State,
                       services: seq<Scoring.Service>, team: int, service: int, total: real, n: int)
    requires w.rules.interval >= 1 && Engine.Run(w, Engine.Init(t), acts, s) && Priced(services, service, total, n)
    ensures |Engine.Answers(acts)| <= |s.work.history|
    ensures Earned(s.table, services, team, service)
         == Paid(Engine.RoundsPassed(s.work.history, Engine.Answers(acts), team, service), total, n)
  {
    Engine.PassesAreRounds(w, t, acts, s, team, service);
    EarnedIsPaid(s.table, services, team, service, total, n);
  }

  /** In any run, what the score view gives a team for a service that was due when the monitor came up. */
  lemma EarnedInAnyRun(w: Engine.World, ev: Event, t: int, acts: seq<Engine.Action>, s: Engine.State,
                       services: seq<Scoring.Service>, team: int, service: int, total: real)
    requires w.rules.Valid() && w.rules.breaks == ev.breaks && GoodBreaks(ev)
    requires Engine.Run(w, Engine.Init(t), acts, s) && w.starts(service) <= t && s.run.clock <= ev.end
    requires total > 0.0 && Priced(services, service, total, NumChecks(ev, w.starts(service), w.rules.interval))
    ensures var slack := PauseTime.Slack(w.rules, Runner.Init(t), s.run, w.starts(service));
            Earned(s.table, services, team, service)
              <= Cap(total, |s.run.handed| + 1 + PauseTime.ChecksIn(slack, w.rules.interval),
                     NumChecks(ev, w.starts(service), w.rules.interval))
  {
    var passes := Ledger.Passes(s.table, team, service);
    Engine.RunnerRuns(w, Engine.Init(t), acts, s);
    Engine.PassesWithinRounds(w, t, acts, s, team, service);
    EarnedIsPaid(s.table, services, team, service, total, NumChecks(ev, w.starts(service), w.rules.interval));
    PauseTime.ServiceCap(w.rules, ev, t, Engine.RunnerPart(acts), s.run, w.starts(service), total, passes);
  }

  /** And for one that starts later: `m` is a state at or after its start up to which no round
      had begun after it, such as the one in which the clock passes it. */
  lemma EarnedSince(w: Engine.World, ev: Event, t: int, before: seq<Engine.Action>, m: Engine.State,
                    acts: seq<Engine.Action>, s: Engine.State,
                    services: seq<Scoring.Service>, team: int, service: int, total: real)
    requires w.rules.Valid() && w.rules.breaks == ev.breaks && GoodBreaks(ev)
    requires Engine.Run(w, Engine.Init(t), before, m) && Engine.Run(w, m, acts, s)
    requires w.starts(service) <= m.run.clock && s.run.clock <= ev.end
    requires forall i :: 0 <= i < |m.run.rounds| ==> m.run.rounds[i] <= w.starts(service)
    requires total > 0.0 && Priced(services, service, total, NumChecks(ev, w.starts(service), w.rules.interval))
    ensures s.run.resumed >= m.run.resumed
    ensures var slack := PauseTime.Slack(w.rules, m.run, s.run, w.starts(service));
            Earned(s.table, services, team, service)
              <= Cap(total, s.run.resumed - m.run.resumed + 4 + PauseTime.ChecksIn(slack, w.rules.interval),
                     NumChecks(ev, w.starts(service), w.rules.interval))
  {
    var passes := Ledger.Passes(s.table, team, service);
    Engine.RunnerRuns(w, Engine.Init(t), before, m);
    Engine.RunnerRuns(w, m, acts, s);
    Engine.PassesSince(w, t, before, m, acts, s, team, service);
    EarnedIsPaid(s.table, services, team, service, total, NumChecks(ev, w.starts(service), w.rules.interval));
    PauseTime.ServiceCapSince(w.rules, ev, t, Engine.RunnerPart(before), m.run, Engine.RunnerPart(acts), s.run,
                              w.starts(service), total, passes);
  }

  /** And where every run keeps within the cap, as on the schedules `PromptRuns` singles out. */
  lemma EarnedWithinCap(w: Engine.World, ev: Event, t: int, acts: seq<Engine.Action>, s: Engine.State,
                        services: seq<Scoring.Service>, team: int, service: int, total: real)
    requires w.rules.Valid() && Engine.Run(w, Engine.Init(t), acts, s) && s.run.clock <= ev.end
    requires total > 0.0 && Priced(services, service, total, NumChecks(ev, w.starts(service), w.rules.interval))
    requires PromptRuns.AlwaysWithinCap(w.rules, ev, t, w.starts(service), total)
    ensures Earned(s.table, services, team, service)
         <= Cap(total, |s.run.handed| + 1, NumChecks(ev, w.starts(service), w.rules.interval))
  {
    var passes := Ledger.Passes(s.table, team, service);
    Engine.RunnerRuns(w, Engine.Init(t), acts, s);
    Engine.PassesWithinRounds(w, t, acts, s, team, service);
    EarnedIsPaid(s.table, services, team, service, total, NumChecks(ev, w.starts(service), w.rules.interval));
    PromptRuns.WithinCapOf(w.rules, ev, t, w.starts(service), total, Engine.RunnerPart(acts), s.run, passes);
  }
}
