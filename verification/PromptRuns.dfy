/** Runs in which the scheduler is prompt and breaks go before ticks. The number of rounds they can reach is exact, and
    with it the schedules on which a service pays no more than it should, for the code as written and as commented. */
module PromptRuns {
  import opened Common
  import opened Schedule
  import opened Points
  import opened BreakSelection
  import opened Runner

  /** Whole intervals in a stretch of time. */
  function Whole(time: int, interval: int): nat
    requires interval >= 1
  {
    if time < 0 then 0 else time / interval
  }

  lemma WholeMonotone(x: int, y: int, d: int)
    requires d >= 1 && x <= y
    ensures Whole(x, d) <= Whole(y, d)
    ensures Whole(x, d) * d <= Max(x, 0) < Whole(x, d) * d + d
  {
    if x >= 0 {
      CellMonotone(x, y, d);
    }
  }

  /** How many ticks fit between `x` and `end`, going by the breaks the scheduler picks: those
      until the first one picked, and those after its end. */
  ghost function Beats(r: Rules, end: int, x: int): nat
    requires r.Valid()
    decreases Unfinished(r.breaks, x)
  {
    PickAdvances(r, x);
    match r.Pick(x)
    case None => Whole(end - x, r.interval)
    case Some(k) => Whole(r.breaks[k].startsAt - x, r.interval) + Beats(r, end, r.breaks[k].End())
  }

  /** Ticks the present ticker, or the one after the pause, can still deliver by `limit`. */
  function Ahead(r: Rules, s: State, limit: int): nat
    requires r.interval >= 1
  {
    match s.phase
    case Paused(until) => Whole(limit - until, r.interval)
    case Stopped(_) => 0
    case _ =>
      var cells := Whole(limit - s.tickerStart, r.interval);
      (if s.buffered then 1 else 0) + if cells > s.lastCell then cells - s.lastCell else 0
  }

  /** Ticks to come if `next` is the break to be waited for. */
  ghost function Future(r: Rules, s: State, end: int, next: Option<nat>): nat
    requires r.Valid() && (next.Some? ==> next.value < |r.breaks|)
  {
    match next
    case None => Ahead(r, s, end)
    case Some(k) => Ahead(r, s, Max(r.breaks[k].startsAt, s.clock)) + Beats(r, end, r.breaks[k].End())
  }

  /** Ticks to come: none is taken from the start of a break to its end. */
  ghost function TicksLeft(r: Rules, s: State, end: int): nat
    requires r.Valid() && IndexInRange(r, s)
  {
    match s.sched
    case Selecting => PickAdvances(r, s.clock); Future(r, s, end, r.Pick(s.clock))
    case Pending(k) => Future(r, s, end, Some(k))
    case Offering(k, _, _) => Beats(r, end, r.breaks[k].End())
    case Asleep(k) => Beats(r, end, r.breaks[k].End())
    case Quit => Future(r, s, end, None)
  }

  // ------------------------------------------------------------- the upper bound

  /** A ticker that starts no earlier than now, if the runner is not stopped. */
  predicate StartsAfresh(r: Rules, s: State) {
    match s.phase
    case Paused(until) => until >= s.clock
    case Stopped(_) => true
    case _ => s.tickerStart == s.clock && s.lastCell == 0 && !s.buffered
  }

  /** What promptness keeps: breaks are waited for before their end, so that pauses are in time, and
      while the scheduler sleeps through a break no ticker has had time to tick. */
  ghost predicate PromptInv(r: Rules, s: State)
    requires r.interval >= 1
  {
    && Sane(r, s)
    && IndexInRange(r, s)
    && (!r.asCommented ==> match s.sched
        case Pending(k) => k == |r.breaks| - 1
        case Offering(k, _, _) => k == |r.breaks| - 1
        case Asleep(k) => k == |r.breaks| - 1
        case _ => true)
    && match s.sched
       case Pending(k) => s.clock < r.breaks[k].End()
       case Offering(k, duration, computedAt) =>
         duration == r.breaks[k].End() - computedAt > 0 && computedAt <= s.clock
       case Asleep(k) =>
         && StartsAfresh(r, s)
         && (match s.phase
             case Paused(until) => until >= r.breaks[k].End()
             case Stopped(_) => true
             case _ => s.clock >= r.breaks[k].End())
       case _ => true
  }

  lemma PickFacts(r: Rules, now: int)
    requires r.Valid()
    ensures r.Pick(now).Some? ==>
              var k := r.Pick(now).value;
              k < |r.breaks| && now < r.breaks[k].End() && (!r.asCommented ==> k == |r.breaks| - 1)
  {
    PickComesAfter(r, [], now);
  }

  lemma PromptInvStep(r: Rules, s: State, a: Action)
    requires r.Valid() && r.prompt && r.breakFirst && PromptInv(r, s) && Enabled(r, s, a)
    ensures PromptInv(r, Apply(r, s, a))
  {
    StepCounts(r, s, a);
    PickFacts(r, s.clock);
    var s' := Apply(r, s, a);
    if s.sched.Pending? {
      assert r.breaks[s.sched.index].goesFor >= 1;
    }
    if a.Tick? && s.sched.Asleep? {
      CellMonotone(0, 0, r.interval);
    }
  }

  /** Later, less is left; for the code as written, once it waits for nothing. */
  lemma {:induction false} BeatsFall(r: Rules, end: int, x: int, y: int)
    requires r.Valid() && x <= y
    requires !r.asCommented ==> BreaksOver(r, x)
    ensures Beats(r, end, y) <= Beats(r, end, x)
    decreases Unfinished(r.breaks, x)
  {
    PickAdvances(r, x);
    EndsAscend(r.breaks);
    if r.asCommented && r.Pick(x).Some? {
      var k := r.Pick(x).value;
      if y >= r.breaks[k].End() {
        BeatsFall(r, end, r.breaks[k].End(), y);
      } else {
        assert r.Pick(y) == Some(k);
        WholeMonotone(r.breaks[k].startsAt - y, r.breaks[k].startsAt - x, r.interval);
      }
    } else {
      NoneLeft(r, x, y);
      WholeMonotone(end - y, end - x, r.interval);
    }
  }

  ghost predicate BreaksOver(r: Rules, x: int) {
    r.breaks != [] ==> r.breaks[|r.breaks| - 1].End() <= x
  }

  lemma NoneLeft(r: Rules, x: int, y: int)
    requires r.Valid() && x <= y
    requires if r.asCommented then r.Pick(x).None? else BreaksOver(r, x)
    ensures r.Pick(x).None? && r.Pick(y).None?
  {
    SelectedIsLast(r.breaks, x);
    SelectedIsLast(r.breaks, y);
  }

  lemma AheadStep(r: Rules, s: State, a: Action, limit: int)
    requires r.interval >= 1 && Sane(r, s) && Enabled(r, s, a) && s.clock <= limit
    requires !a.Elapse? && !a.TakeBreak?
    ensures Apply(r, s, a).ticks + Ahead(r, Apply(r, s, a), limit) <= s.ticks + Ahead(r, s, limit)
  {
    match a
    case Tick => CellMonotone(s.clock - s.tickerStart, limit - s.tickerStart, r.interval);
    case Resume => WholeMonotone(limit - s.clock, limit - s.phase.until, r.interval);
    case _ =>
  }

  /** While the scheduler stays where it is and no time passes. */
  lemma FutureStep(r: Rules, s: State, a: Action, end: int, next: Option<nat>)
    requires r.Valid() && Sane(r, s) && Enabled(r, s, a) && s.clock <= end
    requires next.Some? ==> next.value < |r.breaks|
    requires !a.Elapse? && !a.TakeBreak?
    ensures Apply(r, s, a).ticks + Future(r, Apply(r, s, a), end, next) <= s.ticks + Future(r, s, end, next)
  {
    match next
    case None => AheadStep(r, s, a, end);
    case Some(k) => AheadStep(r, s, a, Max(r.breaks[k].startsAt, s.clock));
  }

  /** A fresh ticker has no more ahead of it than the breaks leave from now on. */
  lemma FutureAfresh(r: Rules, s: State, end: int)
    requires r.Valid() && StartsAfresh(r, s)
    ensures r.Pick(s.clock).Some? ==> r.Pick(s.clock).value < |r.breaks|
    ensures Future(r, s, end, r.Pick(s.clock)) <= Beats(r, end, s.clock)
  {
    PickAdvances(r, s.clock);
    match r.Pick(s.clock)
    case None => AheadAfresh(r, s, end);
    case Some(k) =>
      var l := r.breaks[k].startsAt;
      AheadAfresh(r, s, Max(l, s.clock));
      if l < s.clock {
        SmallWhole(l - s.clock, r.interval);
        SmallWhole(0, r.interval);
      }
  }

  lemma WakeStep(r: Rules, s: State, end: int)
    requires r.Valid() && r.prompt && r.breakFirst && PromptInv(r, s) && Enabled(r, s, SchedulerWakes)
    ensures TicksLeft(r, Apply(r, s, SchedulerWakes), end) <= TicksLeft(r, s, end)
  {
    BeatsFall(r, end, r.breaks[s.sched.index].End(), s.clock);
    FutureAfresh(r, Apply(r, s, SchedulerWakes), end);
  }

  lemma SmallWhole(x: int, d: int)
    requires d >= 1 && x <= 0
    ensures Whole(x, d) == 0
  {
    WholeMonotone(x, 0, d);
  }

  lemma AheadAfresh(r: Rules, s: State, limit: int)
    requires r.interval >= 1 && StartsAfresh(r, s)
    ensures Ahead(r, s, limit) <= Whole(limit - s.clock, r.interval)
  {
    if s.phase.Paused? {
      WholeMonotone(limit - s.phase.until, limit - s.clock, r.interval);
    }
  }

  lemma RunnerStep(r: Rules, s: State, a: Action, end: int)
    requires r.Valid() && r.prompt && r.breakFirst && PromptInv(r, s) && Enabled(r, s, a) && s.clock <= end
    requires a.Tick? || a.StartRound? || a.NothingToCheck? || a.EndRound? || a.TakeTick? || a.Resume? || a.Stop?
    ensures IndexInRange(r, Apply(r, s, a))
    ensures Apply(r, s, a).ticks + TicksLeft(r, Apply(r, s, a), end) <= s.ticks + TicksLeft(r, s, end)
  {
    match s.sched
    case Selecting =>
      PickAdvances(r, s.clock);
      FutureStep(r, s, a, end, r.Pick(s.clock));
    case Pending(k) => FutureStep(r, s, a, end, Some(k));
    case Quit => FutureStep(r, s, a, end, None);
    case Offering(_, _, _) =>
    case Asleep(_) =>
  }

  lemma SchedulerStep(r: Rules, s: State, a: Action, end: int)
    requires r.Valid() && IndexInRange(r, s) && Enabled(r, s, a) && (a.Select? || a.BreakStarts? || a.TakeBreak?)
    ensures IndexInRange(r, Apply(r, s, a))
    ensures Apply(r, s, a).ticks + TicksLeft(r, Apply(r, s, a), end) <= s.ticks + TicksLeft(r, s, end)
  {
    if a.Select? {
      PickAdvances(r, s.clock);
    }
  }

  /** No step brings more ticks than were left. */
  lemma TicksStep(r: Rules, s: State, a: Action, end: int)
    requires r.Valid() && r.prompt && r.breakFirst && PromptInv(r, s) && Enabled(r, s, a) && Apply(r, s, a).clock <= end
    ensures IndexInRange(r, Apply(r, s, a))
    ensures Apply(r, s, a).ticks + TicksLeft(r, Apply(r, s, a), end) <= s.ticks + TicksLeft(r, s, end)
  {
    match a
    case SchedulerWakes => WakeStep(r, s, end);
    case Elapse(d) => ElapseStep(r, s, d, end);
    case Select => SchedulerStep(r, s, a, end);
    case BreakStarts => SchedulerStep(r, s, a, end);
    case TakeBreak => SchedulerStep(r, s, a, end);
    case _ => RunnerStep(r, s, a, end);
  }

  lemma FutureWaits(r: Rules, s: State, d: nat, end: int, next: Option<nat>)
    requires r.Valid() && Enabled(r, s, Elapse(d))
    requires next.Some? ==>
               var k := next.value;
               k < |r.breaks| && Max(r.breaks[k].startsAt, s.clock + d) == Max(r.breaks[k].startsAt, s.clock)
    ensures Future(r, Apply(r, s, Elapse(d)), end, next) == Future(r, s, end, next)
  {
  }

  lemma ElapseStep(r: Rules, s: State, d: nat, end: int)
    requires r.Valid() && r.prompt && r.breakFirst && PromptInv(r, s) && Enabled(r, s, Elapse(d))
    ensures IndexInRange(r, Apply(r, s, Elapse(d)))
    ensures TicksLeft(r, Apply(r, s, Elapse(d)), end) <= TicksLeft(r, s, end)
  {
    match s.sched
    case Selecting => assert Apply(r, s, Elapse(d)) == s;
    case Pending(k) => FutureWaits(r, s, d, end, Some(k));
    case Quit => FutureWaits(r, s, d, end, None);
    case Offering(_, _, _) =>
    case Asleep(_) =>
  }

  lemma {:induction false} TicksRun(r: Rules, s: State, acts: seq<Action>, s': State, end: int)
    requires r.Valid() && r.prompt && r.breakFirst && PromptInv(r, s) && Run(r, s, acts, s') && s'.clock <= end
    ensures PromptInv(r, s') && s'.ticks + TicksLeft(r, s', end) <= s.ticks + TicksLeft(r, s, end)
    decreases |acts|
  {
    if acts != [] {
      var m := Apply(r, s, acts[0]);
      PromptInvStep(r, s, acts[0]);
      RunCounts(r, m, acts[1..], s');
      TicksStep(r, s, acts[0], end);
      TicksRun(r, m, acts[1..], s', end);
    }
  }

  lemma LeftAtStart(r: Rules, t: int, end: int)
    requires r.Valid()
    ensures PromptInv(r, Init(t)) && TicksLeft(r, Init(t), end) == Beats(r, end, t)
  {
    PickAdvances(r, t);
    CellMonotone(0, 0, r.interval);
    if r.Pick(t).Some? {
      var l := r.breaks[r.Pick(t).value].startsAt;
      if l < t {
        SmallWhole(l - t, r.interval);
      }
    }
  }

  /** In a prompt run the rounds are at most one for the start, one for each
      hand-off, and the ticks that fit between the breaks picked. */
  lemma PromptRounds(r: Rules, t: int, acts: seq<Action>, s: State, end: int)
    requires r.Valid() && r.prompt && r.breakFirst && Run(r, Init(t), acts, s) && s.clock <= end
    ensures |s.rounds| <= 1 + |s.handed| + Beats(r, end, t)
  {
    LeftAtStart(r, t, end);
    TicksRun(r, Init(t), acts, s, end);
    RunCounts(r, Init(t), acts, s);
  }

  // -------------------------------------------------------------- it is reached

  lemma Two(r: Rules, s: State, a: Action, b: Action) returns (acts: seq<Action>)
    requires r.interval >= 1 && Enabled(r, s, a) && Enabled(r, Apply(r, s, a), b)
    ensures Run(r, s, acts, Apply(r, Apply(r, s, a), b))
  {
    acts := [a, b];
    assert acts[1..] == [b] && acts[1..][1..] == [];
  }

  lemma ExactQuotient(k: nat, d: int)
    requires d >= 1
    ensures k * d / d == k
  {
    CellMonotone(k * d, k * d, d);
    AtMostQuotient(k, k * d, d);
    AtMostQuotient(k * d / d - k, 0, d);
  }

  /** The state one interval on, with a round and a tick in it. */
  function AfterInterval(r: Rules, s: State, sched: Scheduler): State {
    s.(clock := s.clock + r.interval, sched := sched, lastCell := s.lastCell + 1, buffered := false,
       rounds := s.rounds + [s.clock], ticks := s.ticks + 1)
  }

  /** A round, any way of passing the time, and the tick. */
  lemma OneInterval(r: Rules, s: State, wait: seq<Action>, sched: Scheduler) returns (acts: seq<Action>)
    requires r.interval >= 1 && s.phase.Passing?
    requires s.lastCell * r.interval == s.clock - s.tickerStart
    requires var idle := s.(phase := Idle, rounds := s.rounds + [s.clock]);
             Run(r, idle, wait, idle.(clock := s.clock + r.interval, sched := sched))
    requires r.breakFirst ==> !sched.Offering?
    ensures Run(r, s, acts, AfterInterval(r, s, sched))
  {
    var idle := s.(phase := Idle, rounds := s.rounds + [s.clock]);
    var late := idle.(clock := s.clock + r.interval, sched := sched);
    assert late.clock - late.tickerStart == (s.lastCell + 1) * r.interval;
    ExactQuotient(s.lastCell + 1, r.interval);
    assert Cell(r, late) == s.lastCell + 1;
    var round := Two(r, s, StartRound, EndRound);
    var ending := Two(r, late, Tick, TakeTick);
    RunJoin(r, idle, wait, late, ending, AfterInterval(r, s, sched));
    RunJoin(r, s, round, idle, wait + ending, AfterInterval(r, s, sched));
    acts := round + (wait + ending);
  }

  /** A state from which rounds can follow one another at every interval. */
  predicate InStep(r: Rules, s: State)
    requires r.interval >= 1
  {
    s.phase.Passing? && !s.buffered && s.lastCell * r.interval == s.clock - s.tickerStart
  }

  /** Nothing is asked of the scheduler before `now`. */
  predicate Undisturbed(r: Rules, s: State, now: int) {
    || s.sched.Quit?
    || (&& s.sched.Pending? && s.sched.index < |r.breaks|
        && now <= Max(s.clock, r.breaks[s.sched.index].startsAt))
  }

  lemma QuietInterval(r: Rules, s: State) returns (acts: seq<Action>)
    requires r.interval >= 1 && InStep(r, s) && Undisturbed(r, s, s.clock + r.interval)
    ensures Run(r, s, acts, AfterInterval(r, s, s.sched))
  {
    var idle := s.(phase := Idle, rounds := s.rounds + [s.clock]);
    RunStep(r, idle, Elapse(r.interval), [], Apply(r, idle, Elapse(r.interval)));
    acts := OneInterval(r, s, [Elapse(r.interval)] + [], s.sched);
  }

  lemma InStepStays(r: Rules, s: State, sched: Scheduler)
    requires r.interval >= 1 && InStep(r, s)
    ensures InStep(r, AfterInterval(r, s, sched))
  {
    Distribute(s.lastCell, 1, r.interval);
  }

  lemma Distribute(a: int, b: int, d: int)
    ensures (a + b) * d == a * d + b * d
  {
  }

  lemma {:induction false} Intervals(r: Rules, s: State, n: nat) returns (acts: seq<Action>, s': State)
    requires r.interval >= 1 && InStep(r, s) && Undisturbed(r, s, s.clock + n * r.interval)
    ensures Run(r, s, acts, s') && InStep(r, s')
    ensures s'.clock == s.clock + n * r.interval && s'.sched == s.sched && s'.handed == s.handed
    ensures |s'.rounds| == |s.rounds| + n && s.rounds <= s'.rounds
    ensures forall i :: 0 <= i < n ==> s'.rounds[|s.rounds| + i] == s.clock + i * r.interval
  {
    if n == 0 {
      acts, s' := [], s;
    } else {
      Distribute(n - 1, 1, r.interval);
      ProductSign(n - 1, r.interval);
      var before, m := Intervals(r, s, n - 1);
      var cycle := QuietInterval(r, m);
      s' := AfterInterval(r, m, m.sched);
      InStepStays(r, m, m.sched);
      RunJoin(r, s, before, m, cycle, s');
      acts := before + cycle;
    }
  }

  /** As written, the monitor can check services every interval straight through all breaks but the last,
      even with a scheduler that is never late: that one is waiting for the last break all along. */
  lemma EarlierBreaksAreScored(r: Rules, t: int, n: nat) returns (acts: seq<Action>, s: State)
    requires r.Valid() && !r.asCommented && r.breaks != []
    requires t < r.breaks[|r.breaks| - 1].startsAt && t + n * r.interval <= r.breaks[|r.breaks| - 1].startsAt
    ensures Run(r, Init(t), acts, s)
    ensures s.sched == Pending(|r.breaks| - 1) && s.handed == [] && s.clock == t + n * r.interval
    ensures |s.rounds| == n && forall i :: 0 <= i < n ==> s.rounds[i] == t + i * r.interval
  {
    SelectedIsLast(r.breaks, t);
    var m := Apply(r, Init(t), Select);
    var rest;
    rest, s := Intervals(r, m, n);
    RunStep(r, Init(t), Select, rest, s);
    acts := [Select] + rest;
  }

  /** Ready to start a round, with a new ticker and a scheduler about to select. */
  predicate Anew(s: State) {
    s.phase.Passing? && s.sched.Selecting? && s.tickerStart == s.clock && s.lastCell == 0 && !s.buffered
  }

  /** A last round before a break, until the break is offered. */
  lemma IntoBreak(r: Rules, s: State) returns (acts: seq<Action>, s': State)
    requires r.Valid() && s.phase.Passing? && s.sched.Pending? && s.sched.index < |r.breaks|
    requires s.clock < r.breaks[s.sched.index].End()
    ensures var k := s.sched.index;
            var now := Max(s.clock, r.breaks[k].startsAt);
            && Run(r, s, acts, s')
            && s'.clock == now && s'.phase.Idle? && s'.sched == Offering(k, r.breaks[k].End() - now, now)
            && |s'.rounds| == |s.rounds| + 1 && s'.handed == s.handed
  {
    var m := Apply(r, Apply(r, s, StartRound), EndRound);
    var wait := Elapse(Max(s.clock, r.breaks[s.sched.index].startsAt) - s.clock);
    s' := Apply(r, Apply(r, m, wait), BreakStarts);
    var first := Two(r, s, StartRound, EndRound);
    var second := Two(r, m, wait, BreakStarts);
    RunJoin(r, s, first, m, second, s');
    acts := first + second;
  }

  /** Handed over at once, slept through, and over. */
  lemma OutOfBreak(r: Rules, s: State) returns (acts: seq<Action>, s': State)
    requires r.Valid() && s.phase.Idle? && s.sched.Offering? && s.sched.index < |r.breaks|
    requires s.sched.duration == r.breaks[s.sched.index].End() - s.clock && s.sched.duration >= 0
    ensures Run(r, s, acts, s') && Anew(s') && s'.clock == r.breaks[s.sched.index].End()
    ensures s'.rounds == s.rounds && |s'.handed| == |s.handed| + 1
  {
    var m := Apply(r, s, TakeBreak);
    var sleep := Elapse(s.sched.duration);
    var m' := Apply(r, m, sleep);
    s' := Apply(r, Apply(r, m', Resume), SchedulerWakes);
    var first := Two(r, s, TakeBreak, sleep);
    var second := Two(r, m', Resume, SchedulerWakes);
    RunJoin(r, s, first, m', second, s');
    acts := first + second;
  }

  /** Selecting, and rounds at every interval until `limit`. */
  lemma Stretch(r: Rules, s: State, limit: int) returns (acts: seq<Action>, s': State)
    requires r.Valid() && Anew(s)
    requires r.Pick(s.clock).Some? ==>
               r.Pick(s.clock).value < |r.breaks| && limit == r.breaks[r.Pick(s.clock).value].startsAt
    ensures Run(r, s, acts, s') && InStep(r, s') && s'.clock <= Max(s.clock, limit)
    ensures s'.sched == match r.Pick(s.clock) case None => Quit case Some(k) => Pending(k)
    ensures s'.handed == s.handed && |s'.rounds| == |s.rounds| + Whole(limit - s.clock, r.interval)
  {
    var m := Apply(r, s, Select);
    var n := Whole(limit - s.clock, r.interval);
    WholeMonotone(limit - s.clock, limit - s.clock, r.interval);
    var rest;
    rest, s' := Intervals(r, m, n);
    RunStep(r, s, Select, rest, s');
    acts := [Select] + rest;
  }

  lemma {:induction false} MostRounds(r: Rules, end: int, s: State) returns (acts: seq<Action>, s': State)
    requires r.Valid() && Anew(s) && s.clock <= end
    requires forall i :: 0 <= i < |r.breaks| ==> r.breaks[i].End() <= end
    ensures Run(r, s, acts, s') && s'.clock <= end
    ensures |s'.rounds| - |s.rounds| == 1 + (|s'.handed| - |s.handed|) + Beats(r, end, s.clock)
    decreases Unfinished(r.breaks, s.clock)
  {
    PickAdvances(r, s.clock);
    match r.Pick(s.clock)
    case None =>
      var before, m := Stretch(r, s, end);
      s' := Apply(r, m, StartRound);
      RunStep(r, m, StartRound, [], s');
      RunJoin(r, s, before, m, [StartRound] + [], s');
      acts := before + ([StartRound] + []);
    case Some(k) =>
      var before, anew := UpToBreak(r, s, k);
      var after;
      after, s' := MostRounds(r, end, anew);
      RunJoin(r, s, before, anew, after, s');
      acts := before + after;
  }

  lemma UpToBreak(r: Rules, s: State, k: nat) returns (acts: seq<Action>, s': State)
    requires r.Valid() && Anew(s) && r.Pick(s.clock) == Some(k) && k < |r.breaks| && s.clock < r.breaks[k].End()
    ensures Run(r, s, acts, s') && Anew(s') && s'.clock == r.breaks[k].End()
    ensures |s'.rounds| == |s.rounds| + Whole(r.breaks[k].startsAt - s.clock, r.interval) + 1
    ensures |s'.handed| == |s.handed| + 1
  {
    assert r.breaks[k].goesFor >= 1;
    var before, m := Stretch(r, s, r.breaks[k].startsAt);
    var through;
    through, s' := ThroughBreak(r, m, k);
    RunJoin(r, s, before, m, through, s');
    acts := before + through;
  }

  lemma ThroughBreak(r: Rules, s: State, k: nat) returns (acts: seq<Action>, s': State)
    requires r.Valid() && s.phase.Passing? && s.sched == Pending(k) && k < |r.breaks| && s.clock < r.breaks[k].End()
    ensures Run(r, s, acts, s') && Anew(s') && s'.clock == r.breaks[k].End()
    ensures |s'.rounds| == |s.rounds| + 1 && |s'.handed| == |s.handed| + 1
  {
    assert r.breaks[k].goesFor >= 1;
    var into, m := IntoBreak(r, s);
    var out;
    out, s' := OutOfBreak(r, m);
    RunJoin(r, s, into, m, out, s');
    acts := into + out;
  }

  // --------------------------------------------------------------------- the cap

  /** Whether every prompt run keeps within the cap of a service's points, one check
      over the total for the start and for each pause. */
  ghost predicate AlwaysWithinCap(r: Rules, ev: Event, t: int, startsAt: int, total: real)
    requires r.Valid() && NumChecks(ev, startsAt, r.interval) >= 1
  {
    forall acts, s :: Run(r, Init(t), acts, s) && s.clock <= ev.end ==>
      Paid(|s.rounds|, total, NumChecks(ev, startsAt, r.interval))
        <= Cap(total, |s.handed| + 1, NumChecks(ev, startsAt, r.interval))
  }

  lemma WithinCapOf(r: Rules, ev: Event, t: int, startsAt: int, total: real, acts: seq<Action>, s: State, passes: nat)
    requires r.Valid() && NumChecks(ev, startsAt, r.interval) >= 1 && total > 0.0
    requires AlwaysWithinCap(r, ev, t, startsAt, total) && Run(r, Init(t), acts, s) && s.clock <= ev.end
    requires passes <= |s.rounds|
    ensures Paid(passes, total, NumChecks(ev, startsAt, r.interval))
         <= Cap(total, |s.handed| + 1, NumChecks(ev, startsAt, r.interval))
  {
    PaidMonotone(passes, |s.rounds|, total, NumChecks(ev, startsAt, r.interval));
  }

  /** They do exactly when the ticks that fit between the breaks picked are no more than the service's checks. */
  lemma WithinCapIff(r: Rules, ev: Event, t: int, startsAt: int, total: real)
    requires r.Valid() && r.prompt && r.breakFirst && r.breaks == ev.breaks && GoodBreaks(ev) && t <= ev.end
    requires NumChecks(ev, startsAt, r.interval) >= 1 && total > 0.0
    ensures AlwaysWithinCap(r, ev, t, startsAt, total) <==> Beats(r, ev.end, t) <= NumChecks(ev, startsAt, r.interval)
  {
    var n := NumChecks(ev, startsAt, r.interval);
    forall acts, s | Run(r, Init(t), acts, s) && s.clock <= ev.end && Beats(r, ev.end, t) <= n
      ensures Paid(|s.rounds|, total, n) <= Cap(total, |s.handed| + 1, n)
    {
      PromptRounds(r, t, acts, s, ev.end);
      ShareOfTotal(|s.rounds|, |s.handed| + 1, n, total);
    }
    var acts, s := MostRounds(r, ev.end, Init(t));
    ShareOfTotal(|s.rounds|, |s.handed| + 1, n, total);
  }

  lemma FreeUntilPicked(r: Rules, x: int, k: nat)
    requires r.Valid() && r.asCommented && r.Pick(x) == Some(k) && k < |r.breaks| && x < r.breaks[k].End()
    ensures Whole(r.breaks[k].startsAt - x, r.interval) * r.interval <= ActiveTime(r.breaks, x, r.breaks[k].End())
  {
    var b := r.breaks[k];
    WholeMonotone(b.startsAt - x, b.startsAt - x, r.interval);
    if x < b.startsAt {
      assert b.goesFor >= 1;
      forall t | x <= t < b.startsAt ensures !Points.OnBreak(r.breaks, t) {
        forall i | 0 <= i < |r.breaks| ensures !r.breaks[i].Contains(t) {
          assert i < k ==> r.breaks[i].End() <= x;
          assert k < i ==> b.End() <= r.breaks[i].startsAt;
        }
      }
      ActiveSplit(r.breaks, x, b.startsAt, b.End());
      ActiveConstant(r.breaks, x, b.startsAt, false);
    }
  }

  lemma FreeToTheEnd(r: Rules, end: int, x: int)
    requires r.Valid() && r.asCommented && r.Pick(x).None? && x <= end
    ensures Whole(end - x, r.interval) * r.interval <= ActiveTime(r.breaks, x, end)
  {
    ActiveConstant(r.breaks, x, end, false);
    WholeMonotone(end - x, end - x, r.interval);
  }

  /** As commented the picked breaks leave just the active time, which the service's checks fill. */
  lemma {:induction false} BeatsAreActive(r: Rules, end: int, x: int)
    requires r.Valid() && r.asCommented && x <= end
    requires forall i :: 0 <= i < |r.breaks| ==> r.breaks[i].End() <= end
    ensures Beats(r, end, x) * r.interval <= ActiveTime(r.breaks, x, end)
    decreases Unfinished(r.breaks, x)
  {
    PickAdvances(r, x);
    match r.Pick(x)
    case None =>
      FreeToTheEnd(r, end, x);
    case Some(k) =>
      var e, w := r.breaks[k].End(), Whole(r.breaks[k].startsAt - x, r.interval);
      BeatsAreActive(r, end, e);
      assert w * r.interval <= ActiveTime(r.breaks, x, e) by {
        FreeUntilPicked(r, x, k);
      }
      ActiveSplit(r.breaks, x, e, end);
      Distribute(w, Beats(r, end, e), r.interval);
  }

  /** Run as commented, every prompt run keeps within the cap, on every accepted schedule. */
  lemma CommentedWithinCap(r: Rules, ev: Event, t: int, startsAt: int, total: real)
    requires r.Valid() && r.prompt && r.breakFirst && r.asCommented && r.breaks == ev.breaks && GoodBreaks(ev)
    requires startsAt <= t <= ev.end && NumChecks(ev, startsAt, r.interval) >= 1 && total > 0.0
    ensures AlwaysWithinCap(r, ev, t, startsAt, total)
  {
    BeatsFit(r, ev, t, startsAt);
    WithinCapIff(r, ev, t, startsAt, total);
  }

  lemma BeatsFit(r: Rules, ev: Event, t: int, startsAt: int)
    requires r.Valid() && r.asCommented && r.breaks == ev.breaks && GoodBreaks(ev)
    requires startsAt <= t <= ev.end && NumChecks(ev, startsAt, r.interval) >= 1
    ensures Beats(r, ev.end, t) <= NumChecks(ev, startsAt, r.interval)
  {
    BeatsAreActive(r, ev.end, t);
    ActiveSplit(ev.breaks, startsAt, t, ev.end);
    SpanIsActiveTime(ev, startsAt);
    AtMostQuotient(Beats(r, ev.end, t), Span(ev, startsAt), r.interval);
  }

  /** The ticks of the code as written: only the last break counts, and that
      one only if it is ahead or running when the monitor comes up. */
  function BeatsAsWritten(ev: Event, interval: int, t: int): nat
    requires interval >= 1
  {
    var n := |ev.breaks|;
    if n > 0 && Listed(ev.breaks[n - 1], t) then
      Whole(ev.breaks[n - 1].startsAt - t, interval) + Whole(ev.end - ev.breaks[n - 1].End(), interval)
    else Whole(ev.end - t, interval)
  }

  lemma BeatsWritten(r: Rules, ev: Event, t: int)
    requires r.Valid() && !r.asCommented && r.breaks == ev.breaks
    ensures Beats(r, ev.end, t) == BeatsAsWritten(ev, r.interval, t)
  {
    SelectedIsLast(r.breaks, t);
    if r.Pick(t).Some? {
      var last := r.breaks[|r.breaks| - 1].End();
      NoneLeft(r, last, last);
    }
  }

  /** As written, exactly the schedules and services for which those ticks are no more than the service's checks. */
  lemma WrittenWithinCapIff(r: Rules, ev: Event, t: int, startsAt: int, total: real)
    requires r.Valid() && r.prompt && r.breakFirst && !r.asCommented
    requires r.breaks == ev.breaks && GoodBreaks(ev) && t <= ev.end
    requires NumChecks(ev, startsAt, r.interval) >= 1 && total > 0.0
    ensures AlwaysWithinCap(r, ev, t, startsAt, total)
       <==> BeatsAsWritten(ev, r.interval, t) <= NumChecks(ev, startsAt, r.interval)
  {
    WithinCapIff(r, ev, t, startsAt, total);
    BeatsWritten(r, ev, t);
  }

  /** That is so when at most one break is left and it is not starting at this very instant. */
  lemma LastBreakWithinCap(ev: Event, interval: int, t: int, startsAt: int)
    requires GoodBreaks(ev) && interval >= 1 && startsAt <= t <= ev.end && NumChecks(ev, startsAt, interval) >= 1
    requires Unfinished(ev.breaks, t) == 0
             || (Unfinished(ev.breaks, t) == 1 && t != ev.breaks[|ev.breaks| - 1].startsAt)
    ensures BeatsAsWritten(ev, interval, t) <= NumChecks(ev, startsAt, interval)
  {
    var written := Rules(interval, ev.breaks, false, true, true);
    var commented := written.(asCommented := true);
    assert Ordered(ev.breaks);
    AgreesWithComment(ev.breaks, t);
    BeatsFit(commented, ev, t, startsAt);
    BeatsWritten(written, ev, t);
    BeatsAgree(written, commented, ev.end, t);
  }

  lemma BeatsAgree(written: Rules, commented: Rules, end: int, t: int)
    requires written.Valid() && !written.asCommented && commented == written.(asCommented := true)
    requires written.Pick(t) == commented.Pick(t)
    ensures Beats(written, end, t) == Beats(commented, end, t)
  {
    SelectedIsLast(written.breaks, t);
    if written.Pick(t).Some? {
      var last := written.breaks[|written.breaks| - 1].End();
      EndsAscend(written.breaks);
      NoneLeft(written, last, last);
      assert commented.Pick(last).None?;
    }
  }

  // ------------------------------------------- when ticks may be taken before breaks

  /** The scheduler, once it has selected, gets as far as offering its break and no further. */
  predicate Waits(r: Rules, sched: Scheduler) {
    match sched
    case Pending(k) => k < |r.breaks|
    case Offering(k, _, _) => k < |r.breaks|
    case Quit => true
    case _ => false
  }

  lemma JustElapse(r: Rules, s: State, d: nat) returns (acts: seq<Action>)
    requires r.interval >= 1 && Enabled(r, s, Elapse(d))
    ensures Run(r, s, acts, s.(clock := s.clock + d))
  {
    acts := [Elapse(d)];
    assert acts[1..] == [];
  }

  lemma PassStart(r: Rules, s: State, d: nat) returns (acts: seq<Action>, sched: Scheduler)
    requires r.interval >= 1 && !s.phase.Stopped? && s.sched.Pending? && s.sched.index < |r.breaks|
    requires Max(s.clock, r.breaks[s.sched.index].startsAt) <= s.clock + d
    ensures Waits(r, sched) && Run(r, s, acts, s.(clock := s.clock + d, sched := sched))
  {
    var first := Max(s.clock, r.breaks[s.sched.index].startsAt) - s.clock;
    var offered := Apply(r, Apply(r, s, Elapse(first)), BreakStarts);
    var before := Two(r, s, Elapse(first), BreakStarts);
    var after := JustElapse(r, offered, d - first);
    RunJoin(r, s, before, offered, after, offered.(clock := s.clock + d));
    acts, sched := before + after, offered.sched;
  }

  lemma PassTime(r: Rules, s: State, d: nat) returns (acts: seq<Action>, sched: Scheduler)
    requires r.interval >= 1 && !s.phase.Stopped? && Waits(r, s.sched)
    ensures Waits(r, sched) && Run(r, s, acts, s.(clock := s.clock + d, sched := sched))
  {
    if s.sched.Pending? && Max(s.clock, r.breaks[s.sched.index].startsAt) <= s.clock + d {
      acts, sched := PassStart(r, s, d);
    } else {
      sched := s.sched;
      acts := JustElapse(r, s, d);
    }
  }

  lemma TickFirst(r: Rules, s: State) returns (acts: seq<Action>, sched: Scheduler)
    requires r.interval >= 1 && !r.breakFirst && InStep(r, s) && Waits(r, s.sched)
    ensures Run(r, s, acts, AfterInterval(r, s, sched)) && Waits(r, sched)
  {
    var wait;
    wait, sched := PassTime(r, s.(phase := Idle, rounds := s.rounds + [s.clock]), r.interval);
    acts := OneInterval(r, s, wait, sched);
  }

  lemma {:induction false} TicksFirst(r: Rules, s: State, n: nat) returns (acts: seq<Action>, s': State)
    requires r.interval >= 1 && !r.breakFirst && InStep(r, s) && Waits(r, s.sched)
    ensures Run(r, s, acts, s') && InStep(r, s') && Waits(r, s'.sched)
    ensures s'.clock == s.clock + n * r.interval && |s'.rounds| == |s.rounds| + n && s'.handed == s.handed
  {
    if n == 0 {
      acts, s' := [], s;
    } else {
      Distribute(n - 1, 1, r.interval);
      var before, m := TicksFirst(r, s, n - 1);
      var cycle, sched := TickFirst(r, m);
      s' := AfterInterval(r, m, sched);
      InStepStays(r, m, sched);
      RunJoin(r, s, before, m, cycle, s');
      acts := before + cycle;
    }
  }

  /** If the runner may take ticks first, it may pass over every break, however prompt the scheduler:
      then a run can check at every interval from `t` on, and that alone decides. */
  lemma TicksFirstWithinCapIff(r: Rules, ev: Event, t: int, startsAt: int, total: real)
    requires r.Valid() && !r.breakFirst && r.breaks == ev.breaks && GoodBreaks(ev) && t <= ev.end
    requires NumChecks(ev, startsAt, r.interval) >= 1 && total > 0.0
    ensures AlwaysWithinCap(r, ev, t, startsAt, total)
       <==> Whole(ev.end - t, r.interval) <= NumChecks(ev, startsAt, r.interval)
  {
    var n, w := NumChecks(ev, startsAt, r.interval), Whole(ev.end - t, r.interval);
    forall acts, s | Run(r, Init(t), acts, s) && s.clock <= ev.end && w <= n
      ensures Paid(|s.rounds|, total, n) <= Cap(total, |s.handed| + 1, n)
    {
      RoundsBounded(r, t, acts, s);
      RunCounts(r, Init(t), acts, s);
      WholeMonotone(s.clock - t - PausedFor(s), ev.end - t, r.interval);
      ShareOfTotal(|s.rounds|, |s.handed| + 1, n, total);
    }
    var acts, s := EveryInterval(r, t, ev.end);
    ShareOfTotal(|s.rounds|, |s.handed| + 1, n, total);
  }

  lemma EveryInterval(r: Rules, t: int, end: int) returns (acts: seq<Action>, s: State)
    requires r.Valid() && !r.breakFirst && t <= end
    ensures Run(r, Init(t), acts, s) && s.clock <= end
    ensures |s.rounds| == 1 + Whole(end - t, r.interval) && s.handed == []
  {
    PickAdvances(r, t);
    var start := Apply(r, Init(t), Select);
    var rest, m := TicksFirst(r, start, Whole(end - t, r.interval));
    WholeMonotone(end - t, end - t, r.interval);
    s := Apply(r, m, StartRound);
    RunStep(r, m, StartRound, [], s);
    RunJoin(r, start, rest, m, [StartRound] + [], s);
    RunStep(r, Init(t), Select, rest + ([StartRound] + []), s);
    acts := [Select] + (rest + ([StartRound] + []));
  }

  // ------------------------------------------------------- passes without checks

  lemma PassAfterSelect(r: Rules, s: State, d: nat) returns (acts: seq<Action>, sched: Scheduler)
    requires r.Valid() && !s.phase.Stopped? && s.sched.Selecting?
    ensures Waits(r, sched) && Run(r, s, acts, s.(clock := s.clock + d, sched := sched))
  {
    PickAdvances(r, s.clock);
    var m := Apply(r, s, Select);
    var rest;
    rest, sched := PassTime(r, m, d);
    RunStep(r, s, Select, rest, s.(clock := s.clock + d, sched := sched));
    acts := [Select] + rest;
  }

  lemma PassAfterBreak(r: Rules, s: State, d: nat) returns (acts: seq<Action>, sched: Scheduler)
    requires r.Valid() && !s.phase.Stopped? && s.sched.Asleep? && s.sched.index < |r.breaks|
    ensures IndexInRange(r, s.(sched := sched)) && Run(r, s, acts, s.(clock := s.clock + d, sched := sched))
  {
    var wait := Max(s.clock, r.breaks[s.sched.index].End()) - s.clock;
    if d <= wait {
      sched := s.sched;
      acts := JustElapse(r, s, d);
    } else {
      var woken := Apply(r, Apply(r, s, Elapse(wait)), SchedulerWakes);
      var before := Two(r, s, Elapse(wait), SchedulerWakes);
      var after;
      after, sched := PassAfterSelect(r, woken, d - wait);
      RunJoin(r, s, before, woken, after, s.(clock := s.clock + d, sched := sched));
      acts := before + after;
    }
  }

  /** Whatever the scheduler is at, time can pass without the runner taking a step. */
  lemma TimePasses(r: Rules, s: State, d: nat) returns (acts: seq<Action>, sched: Scheduler)
    requires r.Valid() && !s.phase.Stopped? && IndexInRange(r, s)
    ensures IndexInRange(r, s.(sched := sched)) && Run(r, s, acts, s.(clock := s.clock + d, sched := sched))
  {
    if s.sched.Selecting? {
      acts, sched := PassAfterSelect(r, s, d);
    } else if s.sched.Asleep? {
      acts, sched := PassAfterBreak(r, s, d);
    } else {
      acts, sched := PassTime(r, s, d);
    }
  }

  lemma NextCell(x: int, d: int)
    requires d >= 1 && x >= 0
    ensures (x + d) / d > x / d
  {
    CellMonotone(x, x, d);
    Distribute(x / d, 1, d);
    AtMostQuotient(x / d + 1, x + d, d);
  }

  lemma WaitedOut(r: Rules, s: State) returns (acts: seq<Action>, late: State)
    requires r.Valid() && Sane(r, s) && IndexInRange(r, s) && s.phase.Idle?
    ensures Run(r, s, acts, late) && IndexInRange(r, late) && Enabled(r, late, Tick)
    ensures late == s.(clock := late.clock, sched := late.sched)
  {
    var sched;
    acts, sched := TimePasses(r, s, r.interval);
    late := s.(clock := s.clock + r.interval, sched := sched);
    NextCell(s.clock - s.tickerStart, r.interval);
  }

  lemma PausedOut(r: Rules, s: State) returns (acts: seq<Action>, m: State)
    requires r.Valid() && IndexInRange(r, s) && Enabled(r, s, TakeBreak)
    ensures Run(r, s, acts, m) && m.phase.Passing? && m.rounds == s.rounds && |m.handed| == |s.handed| + 1
  {
    var paused := Apply(r, s, TakeBreak);
    var end := Max(paused.phase.until, paused.clock);
    var sleep, sched := TimePasses(r, paused, end - paused.clock);
    var over := paused.(clock := end, sched := sched);
    m := Apply(r, over, Resume);
    RunStep(r, over, Resume, [], m);
    RunJoin(r, paused, sleep, over, [Resume] + [], m);
    RunStep(r, s, TakeBreak, sleep + ([Resume] + []), m);
    acts := [TakeBreak] + (sleep + ([Resume] + []));
  }

  /** The runner goes on from its wait: by a tick, or by a break that goes first. */
  lemma WaitEnds(r: Rules, s: State) returns (acts: seq<Action>, m: State)
    requires r.Valid() && Sane(r, s) && IndexInRange(r, s) && s.phase.Idle?
    ensures Run(r, s, acts, m) && m.phase.Passing? && m.rounds == s.rounds
    ensures (m.ticks == s.ticks + 1 && m.handed == s.handed) || (r.breakFirst && |m.handed| == |s.handed| + 1)
  {
    var wait, late := WaitedOut(r, s);
    var on;
    if r.breakFirst && late.sched.Offering? {
      on, m := PausedOut(r, late);
    } else {
      on := Two(r, late, Tick, TakeTick);
      m := Apply(r, Apply(r, late, Tick), TakeTick);
    }
    RunJoin(r, s, wait, late, on, m);
    acts := wait + on;
  }

  /** A pass that finds nothing to check does not end the monitor: from any reachable one a run goes on,
      by a tick unless a break goes before it, to a pass that starts a round. */
  lemma EmptyPassGoesOn(r: Rules, t: int, before: seq<Action>, s: State) returns (acts: seq<Action>, m: State)
    requires r.Valid() && Run(r, Init(t), before, s) && s.phase.Passing?
    ensures Run(r, s, [NothingToCheck] + acts, m) && m.phase.Passing? && m.rounds == s.rounds
    ensures (m.ticks == s.ticks + 1 && m.handed == s.handed) || (r.breakFirst && |m.handed| == |s.handed| + 1)
    ensures Enabled(r, m, StartRound) && Apply(r, m, StartRound).rounds == s.rounds + [m.clock]
  {
    RunCounts(r, Init(t), before, s);
    SchedulerIndexInRange(r, Init(t), before, s);
    var idle := Apply(r, s, NothingToCheck);
    StepCounts(r, s, NothingToCheck);
    acts, m := WaitEnds(r, idle);
    RunStep(r, s, NothingToCheck, acts, m);
  }

  // ------------------------------------------------ how far over it can go

  /** Two breaks, the first as long as you like: a service that runs from 0 is worth three checks. */
  lemma TwoBreaks(interval: int, k: nat) returns (ev: Event)
    requires interval >= 1 && k >= 1
    ensures GoodBreaks(ev) && Ordered(ev.breaks) && !Points.OnBreak(ev.breaks, 0) && !Points.OnBreak(ev.breaks, 1)
    ensures |ev.breaks| == 2 && ev.breaks[1].startsAt >= 1 + (3 * k) * interval && ev.end >= 1
    ensures NumChecks(ev, 0, interval) == 3
  {
    var long := (3 * k) * interval;
    ProductSign(3 * k, interval);
    ProductSign(3 * k - 1, interval);
    assert (3 * k - 1) * interval == long - interval;
    var first, last := Break(interval + 1, long), Break(long + 2 * interval + 1, interval);
    ev := Event(0, long + 4 * interval, [first, last]);
    assert [first, last][..1] == [first] && [first][..0] == [];
    assert LaterBreakTime([first], 0) == long;
    assert Span(ev, 0) == 3 * interval;
    ExactQuotient(3, interval);
  }

  /** As written, for any check interval, there are accepted schedules on which a service is checked
      straight through a break and pays any multiple of its total. */
  lemma PaidThroughBreak(interval: int, k: nat, total: real) returns (ev: Event, r: Rules, acts: seq<Action>, s: State)
    requires interval >= 1 && k >= 1 && total >= 0.0
    ensures GoodBreaks(ev) && !Points.OnBreak(ev.breaks, 0) && !Points.OnBreak(ev.breaks, 1)
    ensures r == Rules(interval, ev.breaks, false, true, true) && r.Valid()
    ensures Run(r, Init(1), acts, s) && s.clock <= ev.end && NumChecks(ev, 0, interval) == 3
    ensures Paid(|s.rounds|, total, NumChecks(ev, 0, interval)) >= k as real * total
  {
    ev := TwoBreaks(interval, k);
    r := Rules(interval, ev.breaks, false, true, true);
    ProductSign(3 * k, interval);
    acts, s := EarlierBreaksAreScored(r, 1, 3 * k);
    assert |s.rounds| as real == 3.0 * k as real;
    assert (3.0 * k as real) * (total / 3.0) == k as real * total;
  }
}
