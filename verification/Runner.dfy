/** The check runner and the break scheduler as one step system over an integer clock. Timers may be
    late but never early; the ticker's channel holds one tick and drops the rest; the hand-off of a
    break is a rendezvous between the two threads, at any time after the duration was computed. */
module Runner {
  import opened Common
  import opened Schedule
  import opened BreakSelection

  /** `asCommented` runs the scheduler with the selection its comment describes. With `prompt` the
      scheduler acts as soon as it can; with `breakFirst` a runner that finds both a break and a tick takes the break,
      where the source leaves that open. Rounds may take as long as they like in any case. */
  datatype Rules = Rules(interval: int, breaks: seq<Break>, asCommented: bool, prompt: bool, breakFirst: bool) {
    function Pick(now: int): Option<nat> {
      if asCommented then Intended(breaks, now) else Selected(breaks, now)
    }

    ghost predicate Valid() { interval >= 1 && Ordered(breaks) }
  }

  datatype Phase =
    | Passing            // top of the loop: jitter, waiting for the lock
    | Checking           // commands running, results being stored
    | Idle               // in waitToContinue
    | Paused(until: int)
    | Stopped(until: int) // `until` as it was, if it was paused

  datatype Scheduler =
    | Selecting
    | Pending(index: nat)                                   // sleeping until the break starts
    | Offering(index: nat, duration: int, computedAt: int)  // blocked on the hand-off
    | Asleep(index: nat)                                    // sleeping until the break ends
    | Quit

  datatype Handoff = Handoff(index: nat, computedAt: int, at: int, roundsBefore: nat) {
    function Late(): int { at - computedAt }
  }

  /** `rounds` lists the instants at which rounds started and `handed` the breaks handed over.
      `banked` and `pausedFor` are the lengths of the closed ticking and pausing periods,
      `grid` the whole intervals in the former, `ticks` the ticks consumed so far. */
  datatype State = State(
    clock: int, phase: Phase, sched: Scheduler,
    tickerStart: int, lastCell: nat, buffered: bool,
    rounds: seq<int>, handed: seq<Handoff>, resumed: nat, ticks: nat,
    banked: int, grid: int, pausedAt: int, pausedFor: int)

  function Init(t: int): State {
    State(t, Passing, Selecting, t, 0, false, [], [], 0, 0, 0, 0, t, 0)
  }

  datatype Action =
    | Elapse(d: nat)
    | Tick
    | StartRound
    | NothingToCheck
    | EndRound
    | TakeTick
    | TakeBreak
    | Resume
    | Stop
    | Select
    | BreakStarts
    | SchedulerWakes

  predicate Ticking(s: State) { !s.phase.Paused? && !s.phase.Stopped? }

  /** Which interval of the current ticker the clock is in. */
  function Cell(r: Rules, s: State): int
    requires r.interval >= 1
  {
    if Ticking(s) then (s.clock - s.tickerStart) / r.interval else 0
  }

  /** By the time `now` the scheduler will not have been kept waiting. */
  predicate Timely(r: Rules, s: State, now: int) {
    match s.sched
    case Selecting => now <= s.clock
    case Pending(k) => k < |r.breaks| ==> now <= s.clock || now <= r.breaks[k].startsAt
    case Asleep(k) => k < |r.breaks| ==> now <= s.clock || now <= r.breaks[k].End()
    case _ => true
  }

  predicate Enabled(r: Rules, s: State, a: Action)
    requires r.interval >= 1
  {
    match a
    case Elapse(d) => !s.phase.Stopped? && (r.prompt ==> Timely(r, s, s.clock + d))
    case Tick => Ticking(s) && Cell(r, s) > s.lastCell
    case StartRound => s.phase.Passing?
    case NothingToCheck => s.phase.Passing?
    case EndRound => s.phase.Checking?
    case TakeTick => s.phase.Idle? && s.buffered && (r.breakFirst ==> !s.sched.Offering?)
    case TakeBreak => s.phase.Idle? && s.sched.Offering?
    case Resume => s.phase.Paused? && s.clock >= s.phase.until
    case Stop => s.phase.Idle? || s.phase.Paused?
    case Select => s.sched.Selecting?
    case BreakStarts => s.sched.Pending? && s.sched.index < |r.breaks| && s.clock >= r.breaks[s.sched.index].startsAt
    case SchedulerWakes => s.sched.Asleep? && s.sched.index < |r.breaks| && s.clock >= r.breaks[s.sched.index].End()
  }

  function Apply(r: Rules, s: State, a: Action): State
    requires r.interval >= 1 && Enabled(r, s, a)
  {
    match a
    case Elapse(d) => s.(clock := s.clock + d)
    // A late ticker skips the ticks it missed; a full channel drops this one.
    case Tick => s.(lastCell := Cell(r, s), buffered := true)
    case StartRound => s.(phase := Checking, rounds := s.rounds + [s.clock])
    case NothingToCheck => s.(phase := Idle)
    case EndRound => s.(phase := Idle)
    case TakeTick => s.(phase := Passing, buffered := false, ticks := s.ticks + 1)
    case TakeBreak =>
      CloseTicker(r, s).(
        phase := Paused(s.clock + s.sched.duration),
        sched := Asleep(s.sched.index),
        handed := s.handed + [Handoff(s.sched.index, s.sched.computedAt, s.clock, |s.rounds|)])
    case Resume =>
      s.(phase := Passing, tickerStart := s.clock, lastCell := 0, buffered := false,
         resumed := s.resumed + 1, pausedFor := s.pausedFor + (s.clock - s.pausedAt))
    case Stop =>
      if s.phase.Idle? then CloseTicker(r, s).(phase := Stopped(s.clock))
      else s.(phase := Stopped(s.phase.until), pausedFor := s.pausedFor + (s.clock - s.pausedAt))
    case Select =>
      (match r.Pick(s.clock)
       case None => s.(sched := Quit)
       case Some(k) => s.(sched := Pending(k)))
    case BreakStarts =>
      s.(sched := Offering(s.sched.index, r.breaks[s.sched.index].End() - s.clock, s.clock))
    case SchedulerWakes => s.(sched := Selecting)
  }

  function CloseTicker(r: Rules, s: State): State
    requires r.interval >= 1
  {
    s.(banked := s.banked + (s.clock - s.tickerStart),
       grid := s.grid + (s.clock - s.tickerStart) / r.interval,
       buffered := false, lastCell := 0, pausedAt := s.clock)
  }

  ghost predicate Run(r: Rules, s: State, acts: seq<Action>, s': State)
    requires r.interval >= 1
    decreases |acts|
  {
    if acts == [] then s == s'
    else Enabled(r, s, acts[0]) && Run(r, Apply(r, s, acts[0]), acts[1..], s')
  }

  /** Time with the ticker on, and time paused. */
  function ActiveFor(s: State): int {
    s.banked + if Ticking(s) then s.clock - s.tickerStart else 0
  }

  function PausedFor(s: State): int {
    s.pausedFor + if s.phase.Paused? then s.clock - s.pausedAt else 0
  }

  // ------------------------------------------------------------ counting rounds

  /** Ticks consumed, plus one for a tick in the channel and one for a tick now due. */
  function Claimed(r: Rules, s: State): int
    requires r.interval >= 1
  {
    if !Ticking(s) then s.ticks
    else s.ticks + (if s.buffered then 1 else 0) + (if s.lastCell < Cell(r, s) then 1 else 0)
  }

  /** Interval boundaries the tickers have passed. */
  function Crossed(r: Rules, s: State): int
    requires r.interval >= 1
  {
    s.grid + Cell(r, s)
  }

  function Passes(s: State): int { |s.rounds| + if s.phase.Passing? then 1 else 0 }

  ghost predicate Sane(r: Rules, s: State)
    requires r.interval >= 1
  {
    && (Ticking(s) ==> s.tickerStart <= s.clock && s.lastCell <= Cell(r, s))
    && (s.phase.Paused? ==> s.pausedAt <= s.clock && s.resumed + 1 == |s.handed|)
    && (Ticking(s) ==> s.resumed == |s.handed|)
    && (s.phase.Stopped? ==> s.resumed <= |s.handed|)
  }

  lemma ProductSign(x: int, d: int)
    requires d >= 1
    ensures x >= 0 ==> x * d >= 0
  {
  }

  lemma CellMonotone(x: int, y: int, d: int)
    requires d >= 1 && 0 <= x <= y
    ensures 0 <= x / d <= y / d
    ensures x / d * d <= x < x / d * d + d
  {
    var p, q := x / d, y / d;
    assert (q + 1 - p) * d == q * d + d - p * d > 0;
    ProductSign(p - q - 1, d);
    assert (p - q - 1) * d == -((q + 1 - p) * d);
  }

  /** What one step may do to the counters: every tick claimed pays for a boundary crossed, every pass
      for a tick or a resumption, and boundaries are an interval apart. */
  lemma StepCounts(r: Rules, s: State, a: Action)
    requires r.interval >= 1 && Sane(r, s) && Enabled(r, s, a)
    ensures var s' := Apply(r, s, a);
            && Sane(r, s')
            && Claimed(r, s') - Claimed(r, s) <= Crossed(r, s') - Crossed(r, s)
            && Passes(s') - Passes(s) <= (s'.ticks - s.ticks) + (s'.resumed - s.resumed)
            && s'.banked - s'.grid * r.interval >= s.banked - s.grid * r.interval
            && |s'.handed| >= |s.handed| && s'.resumed >= s.resumed
            && s'.clock >= s.clock && PausedFor(s') >= PausedFor(s)
            && (s'.clock - s.clock) == (ActiveFor(s') - ActiveFor(s)) + (PausedFor(s') - PausedFor(s))
  {
    if Ticking(s) {
      CellMonotone(s.clock - s.tickerStart, s.clock - s.tickerStart, r.interval);
      if a.Elapse? {
        CellMonotone(s.clock - s.tickerStart, s.clock + a.d - s.tickerStart, r.interval);
      }
    }
  }

  lemma {:induction false} RunCounts(r: Rules, s: State, acts: seq<Action>, s': State)
    requires r.interval >= 1 && Sane(r, s) && Run(r, s, acts, s')
    ensures Sane(r, s')
    ensures Claimed(r, s') - Claimed(r, s) <= Crossed(r, s') - Crossed(r, s)
    ensures Passes(s') - Passes(s) <= (s'.ticks - s.ticks) + (s'.resumed - s.resumed)
    ensures s'.banked - s'.grid * r.interval >= s.banked - s.grid * r.interval
    ensures |s'.handed| >= |s.handed| && s'.resumed >= s.resumed && s'.clock >= s.clock && PausedFor(s') >= PausedFor(s)
    ensures s'.clock - s.clock == (ActiveFor(s') - ActiveFor(s)) + (PausedFor(s') - PausedFor(s))
    decreases |acts|
  {
    if acts != [] {
      StepCounts(r, s, acts[0]);
      RunCounts(r, Apply(r, s, acts[0]), acts[1..], s');
    }
  }

  lemma CrossedRate(r: Rules, s: State)
    requires r.interval >= 1 && Sane(r, s)
    ensures var rest := (ActiveFor(s) - Crossed(r, s) * r.interval) - (s.banked - s.grid * r.interval);
            0 <= rest < r.interval
  {
  }

  lemma AtMostQuotient(k: int, total: int, d: int)
    requires d >= 1 && k * d <= total
    ensures k <= total / d
  {
    var q := total / d;
    assert (k - q - 1) * d == k * d - (q * d + d) < 0;
    ProductSign(k - q - 1, d);
  }

  /** From the start of the monitor: one round for free, one more for each pause, and beyond
      that at most one for each whole interval of unpaused time, however late rounds run. */
  lemma RoundsBounded(r: Rules, t: int, acts: seq<Action>, s: State)
    requires r.interval >= 1 && Run(r, Init(t), acts, s)
    ensures |s.rounds| <= 1 + |s.handed| + (s.clock - t - PausedFor(s)) / r.interval
  {
    RunCounts(r, Init(t), acts, s);
    CrossedRate(r, s);
    assert Claimed(r, Init(t)) == 0 == Crossed(r, Init(t));
    AtMostQuotient(Crossed(r, s), ActiveFor(s), r.interval);
  }

  lemma DifferenceTimes(a: int, b: int, d: int)
    ensures (a - b - 1) * d == a * d - b * d - d
  {
  }

  lemma CrossedSince(r: Rules, m: State, s: State)
    requires r.interval >= 1 && Sane(r, m) && Sane(r, s)
    requires s.banked - s.grid * r.interval >= m.banked - m.grid * r.interval
    ensures Crossed(r, s) - Crossed(r, m) <= 1 + (ActiveFor(s) - ActiveFor(m)) / r.interval
  {
    CrossedRate(r, m);
    CrossedRate(r, s);
    var k := Crossed(r, s) - Crossed(r, m) - 1;
    DifferenceTimes(Crossed(r, s), Crossed(r, m), r.interval);
    AtMostQuotient(k, ActiveFor(s) - ActiveFor(m), r.interval);
  }

  /** From any reachable moment on: a round may be under way, a tick may be in the channel, another
      overdue, and the next boundary close by; apart from those four the same bound holds. */
  lemma RoundsBoundedSince(r: Rules, t: int, before: seq<Action>, m: State, acts: seq<Action>, s: State)
    requires r.interval >= 1 && Run(r, Init(t), before, m) && Run(r, m, acts, s)
    ensures |s.rounds| - |m.rounds|
         <= 4 + (s.resumed - m.resumed) + (s.clock - m.clock - (PausedFor(s) - PausedFor(m))) / r.interval
    ensures s.clock >= m.clock && s.resumed >= m.resumed
  {
    RunCounts(r, Init(t), before, m);
    RunCounts(r, m, acts, s);
    CrossedSince(r, m, s);
  }

  // -------------------------------------------------------- breaks and pauses

  /** When a handed-over break lets the runner go: its end, plus however long
      the hand-off itself was delayed. */
  function Due(r: Rules, h: Handoff): int
    requires h.index < |r.breaks|
  {
    r.breaks[h.index].End() + h.Late()
  }

  ghost predicate GoodHandoff(r: Rules, s: State, h: Handoff) {
    && h.index < |r.breaks|
    && r.breaks[h.index].startsAt <= h.computedAt <= h.at <= s.clock
    && h.roundsBefore <= |s.rounds|
    && (!r.asCommented ==> h.index == |r.breaks| - 1)
    && forall i :: h.roundsBefore <= i < |s.rounds| ==> s.rounds[i] >= Due(r, h)
  }

  ghost predicate GoodHandoffs(r: Rules, s: State) {
    forall i :: 0 <= i < |s.handed| ==> GoodHandoff(r, s, s.handed[i])
  }

  ghost predicate Rising(handed: seq<Handoff>) {
    forall i, j :: 0 <= i < j < |handed| ==> handed[i].index < handed[j].index
  }

  ghost predicate InRange(r: Rules, handed: seq<Handoff>) {
    forall i :: 0 <= i < |handed| ==> handed[i].index < |r.breaks|
  }

  function Last(s: State): Handoff
    requires s.handed != []
  {
    s.handed[|s.handed| - 1]
  }

  /** The first `n` hand-offs are due by `now`. */
  ghost predicate DueBy(r: Rules, handed: seq<Handoff>, n: int, now: int)
    requires InRange(r, handed) && n <= |handed|
  {
    forall i :: 0 <= i < n ==> Due(r, handed[i]) <= now
  }

  /** The runner sleeps until the last hand-off is due, and no other is outstanding. */
  ghost predicate PhaseInv(r: Rules, s: State)
    requires InRange(r, s.handed)
  {
    match s.phase
    case Paused(until) =>
      && s.handed != []
      && until == Due(r, Last(s))
      && Last(s).roundsBefore == |s.rounds|
      && DueBy(r, s.handed, |s.handed| - 1, s.clock)
    case Stopped(until) =>
      || (until <= s.clock && DueBy(r, s.handed, |s.handed|, s.clock))
      || (s.handed != [] && until == Due(r, Last(s)) && DueBy(r, s.handed, |s.handed| - 1, s.clock))
    case _ => DueBy(r, s.handed, |s.handed|, s.clock)
  }

  ghost predicate Below(handed: seq<Handoff>, k: nat) {
    forall i :: 0 <= i < |handed| ==> handed[i].index < k
  }

  ghost predicate Over(r: Rules, handed: seq<Handoff>, now: int)
    requires InRange(r, handed)
  {
    forall i :: 0 <= i < |handed| ==> r.breaks[handed[i].index].End() <= now
  }

  /** Breaks are handed over in order: the one being waited for comes after all of them. */
  ghost predicate SchedulerInv(r: Rules, s: State)
    requires InRange(r, s.handed)
  {
    match s.sched
    case Pending(k) =>
      && k < |r.breaks| && (!r.asCommented ==> k == |r.breaks| - 1)
      && Below(s.handed, k)
    case Offering(k, duration, computedAt) =>
      && k < |r.breaks| && (!r.asCommented ==> k == |r.breaks| - 1)
      && Below(s.handed, k)
      && duration == r.breaks[k].End() - computedAt
      && r.breaks[k].startsAt <= computedAt <= s.clock
    case Asleep(k) => s.handed != [] && Last(s).index == k
    case _ => Over(r, s.handed, s.clock)
  }

  ghost predicate PauseInv(r: Rules, s: State) {
    && GoodHandoffs(r, s) && Rising(s.handed)
    && InRange(r, s.handed) && PhaseInv(r, s) && SchedulerInv(r, s)
  }

  lemma OldHandoffStays(r: Rules, s: State, a: Action, i: nat)
    requires r.Valid() && InRange(r, s.handed) && PhaseInv(r, s) && Enabled(r, s, a)
    requires i < |s.handed| && GoodHandoff(r, s, s.handed[i])
    ensures GoodHandoff(r, Apply(r, s, a), s.handed[i])
  {
    var s' := Apply(r, s, a);
    assert a.StartRound? ==> Due(r, s.handed[i]) <= s.clock;
    assert s'.rounds == if a.StartRound? then s.rounds + [s.clock] else s.rounds;
  }

  lemma NewHandoffGood(r: Rules, s: State)
    requires r.Valid() && InRange(r, s.handed) && SchedulerInv(r, s) && Enabled(r, s, TakeBreak)
    ensures var s' := Apply(r, s, TakeBreak);
            && s'.handed == s.handed + [Last(s')] && Last(s').index == s.sched.index
            && GoodHandoff(r, s', Last(s')) && Below(s.handed, Last(s').index)
  {
  }

  lemma HandoffsStep(r: Rules, s: State, a: Action)
    requires r.Valid() && PauseInv(r, s) && Enabled(r, s, a)
    ensures GoodHandoffs(r, Apply(r, s, a)) && Rising(Apply(r, s, a).handed) && InRange(r, Apply(r, s, a).handed)
  {
    var s' := Apply(r, s, a);
    assert !a.TakeBreak? ==> s'.handed == s.handed;
    if a.TakeBreak? {
      NewHandoffGood(r, s);
    }
    forall i | 0 <= i < |s'.handed| ensures GoodHandoff(r, s', s'.handed[i]) {
      if i < |s.handed| {
        OldHandoffStays(r, s, a, i);
      }
    }
  }

  lemma BreakIsOver(r: Rules, s: State)
    requires r.Valid() && InRange(r, s.handed) && Rising(s.handed)
    requires s.handed != [] && s.clock >= r.breaks[Last(s).index].End()
    ensures Over(r, s.handed, s.clock)
  {
    EndsAscend(r.breaks);
    forall i | 0 <= i < |s.handed| ensures r.breaks[s.handed[i].index].End() <= s.clock {
      assert i < |s.handed| - 1 ==> s.handed[i].index < Last(s).index;
    }
  }

  /** Whatever is picked is unfinished, so it comes after everything that is over. */
  lemma PickComesAfter(r: Rules, handed: seq<Handoff>, now: int)
    requires r.Valid() && InRange(r, handed) && Over(r, handed, now)
    ensures r.Pick(now).Some? ==>
              var k := r.Pick(now).value;
              && k < |r.breaks| && now < r.breaks[k].End()
              && (!r.asCommented ==> k == |r.breaks| - 1)
              && Below(handed, k)
  {
    SelectedIsLast(r.breaks, now);
    EndsAscend(r.breaks);
    if r.Pick(now).Some? {
      var k := r.Pick(now).value;
      assert r.breaks[k].goesFor >= 1;
      assert forall i :: 0 <= i < |handed| && handed[i].index > k ==>
          r.breaks[k].End() < r.breaks[handed[i].index].End();
    }
  }

  lemma SchedulerInvStep(r: Rules, s: State, a: Action)
    requires r.Valid() && InRange(r, s.handed) && Rising(s.handed) && SchedulerInv(r, s) && Enabled(r, s, a)
    requires InRange(r, Apply(r, s, a).handed)
    ensures SchedulerInv(r, Apply(r, s, a))
  {
    if a.Select? {
      PickComesAfter(r, s.handed, s.clock);
    } else if a.SchedulerWakes? {
      BreakIsOver(r, s);
    } else if !a.TakeBreak? && !a.BreakStarts? {
      SchedulerKept(r, s, Apply(r, s, a));
    }
  }

  lemma SchedulerKept(r: Rules, s: State, s': State)
    requires InRange(r, s.handed) && SchedulerInv(r, s)
    requires s'.sched == s.sched && s'.handed == s.handed && s'.clock >= s.clock
    ensures SchedulerInv(r, s')
  {
  }

  lemma PauseBegins(r: Rules, s: State)
    requires r.Valid() && InRange(r, s.handed) && PhaseInv(r, s) && SchedulerInv(r, s)
    requires Enabled(r, s, TakeBreak) && InRange(r, Apply(r, s, TakeBreak).handed)
    ensures PhaseInv(r, Apply(r, s, TakeBreak))
  {
    var s' := Apply(r, s, TakeBreak);
    assert forall i :: 0 <= i < |s.handed| ==> s'.handed[i] == s.handed[i];
    assert Last(s') == Handoff(s.sched.index, s.sched.computedAt, s.clock, |s.rounds|);
  }

  lemma PauseEnds(r: Rules, s: State)
    requires r.Valid() && InRange(r, s.handed) && PhaseInv(r, s) && Enabled(r, s, Resume)
    ensures PhaseInv(r, Apply(r, s, Resume))
  {
    forall i | 0 <= i < |s.handed| ensures Due(r, s.handed[i]) <= s.clock {
      assert i == |s.handed| - 1 ==> s.handed[i] == Last(s);
    }
  }

  lemma RunnerStops(r: Rules, s: State)
    requires r.Valid() && InRange(r, s.handed) && PhaseInv(r, s) && Enabled(r, s, Stop)
    ensures PhaseInv(r, Apply(r, s, Stop))
  {
  }

  /** Steps of the rounds, of the scheduler and of time. */
  lemma PhaseKept(r: Rules, s: State, s': State)
    requires InRange(r, s.handed) && PhaseInv(r, s)
    requires s'.handed == s.handed && s'.clock >= s.clock
    requires s'.phase == s.phase || (Ticking(s) && Ticking(s'))
    requires s.phase.Paused? ==> s'.rounds == s.rounds
    ensures PhaseInv(r, s')
  {
  }

  lemma PhaseInvStep(r: Rules, s: State, a: Action)
    requires r.Valid() && InRange(r, s.handed) && PhaseInv(r, s) && SchedulerInv(r, s) && Enabled(r, s, a)
    requires InRange(r, Apply(r, s, a).handed)
    ensures PhaseInv(r, Apply(r, s, a))
  {
    match a
    case TakeBreak => PauseBegins(r, s);
    case Resume => PauseEnds(r, s);
    case Stop => RunnerStops(r, s);
    case _ => PhaseKept(r, s, Apply(r, s, a));
  }

  lemma PauseInvStep(r: Rules, s: State, a: Action)
    requires r.Valid() && PauseInv(r, s) && Enabled(r, s, a)
    ensures PauseInv(r, Apply(r, s, a))
  {
    HandoffsStep(r, s, a);
    SchedulerInvStep(r, s, a);
    PhaseInvStep(r, s, a);
  }

  lemma {:induction false} PauseInvRun(r: Rules, s: State, acts: seq<Action>, s': State)
    requires r.Valid() && PauseInv(r, s) && Run(r, s, acts, s')
    ensures PauseInv(r, s')
    decreases |acts|
  {
    if acts != [] {
      PauseInvStep(r, s, acts[0]);
      PauseInvRun(r, Apply(r, s, acts[0]), acts[1..], s');
    }
  }

  /** After a break is handed over no round starts before its end, and the runner oversleeps by exactly
      the time the hand-off was late. Up to the hand-off rounds may start inside the break. */
  lemma NoRoundDuringHandedBreak(r: Rules, t: int, acts: seq<Action>, s: State)
    requires r.Valid() && Run(r, Init(t), acts, s)
    ensures forall k :: 0 <= k < |s.handed| ==>
              && s.handed[k].index < |r.breaks|
              && s.handed[k].Late() >= 0
              && forall i :: s.handed[k].roundsBefore <= i < |s.rounds| ==>
                   s.rounds[i] >= r.breaks[s.handed[k].index].End() + s.handed[k].Late()
    ensures s.phase.Paused? ==>
              && s.handed != []
              && Last(s).index < |r.breaks|
              && s.phase.until == r.breaks[Last(s).index].End() + Last(s).Late()
  {
    assert GoodHandoffs(r, s) && InRange(r, s.handed) && PhaseInv(r, s) by {
      PauseInvRun(r, Init(t), acts, s);
    }
    forall k | 0 <= k < |s.handed| ensures GoodHandoff(r, s, s.handed[k]) {
    }
  }

  lemma {:induction false} AscendingFits(s: seq<Handoff>, lo: nat, hi: nat)
    requires lo <= hi
    requires Rising(s)
    requires forall i :: 0 <= i < |s| ==> lo <= s[i].index < hi
    ensures |s| <= hi - lo
  {
    if s != [] {
      AscendingFits(s[..|s| - 1], lo, s[|s| - 1].index);
    }
  }

  lemma HandedIndices(r: Rules, s: State)
    requires GoodHandoffs(r, s) && Rising(s.handed)
    ensures forall i :: 0 <= i < |s.handed| ==>
              && s.handed[i].index < |r.breaks|
              && r.breaks[s.handed[i].index].startsAt <= s.handed[i].computedAt <= s.handed[i].at <= s.clock
              && (!r.asCommented ==> s.handed[i].index == |r.breaks| - 1)
    ensures |s.handed| <= if r.asCommented then |r.breaks| else 1
  {
    forall i | 0 <= i < |s.handed| ensures GoodHandoff(r, s, s.handed[i]) {
    }
    assert s.handed != [] ==> s.handed[0].index < |r.breaks|;
    var lo := if r.asCommented || s.handed == [] then 0 else |r.breaks| - 1;
    AscendingFits(s.handed, lo, |r.breaks|);
  }

  /** Run as its comment describes, the scheduler hands over each break at most once, in order. As
      written it hands over the last break at most once, and no other break ever. */
  lemma HandoffsBounded(r: Rules, t: int, acts: seq<Action>, s: State)
    requires r.Valid() && Run(r, Init(t), acts, s)
    ensures Rising(s.handed)
    ensures |s.handed| <= if r.asCommented then |r.breaks| else 1
    ensures !r.asCommented ==> forall i :: 0 <= i < |s.handed| ==> s.handed[i].index == |r.breaks| - 1
    ensures !r.asCommented && s.phase.Paused? ==>
              r.breaks != [] && s.clock >= r.breaks[|r.breaks| - 1].startsAt
  {
    assert GoodHandoffs(r, s) && Rising(s.handed) && (s.phase.Paused? ==> s.handed != []) by {
      PauseInvRun(r, Init(t), acts, s);
    }
    HandedIndices(r, s);
    assert s.handed != [] ==> s.handed[0].index < |r.breaks|;
  }

  /** The whole run of the monitor as written, on any accepted schedule. */
  lemma RoundsAsWritten(r: Rules, t: int, acts: seq<Action>, s: State)
    requires r.Valid() && !r.asCommented && Run(r, Init(t), acts, s)
    ensures |s.rounds| <= 2 + (s.clock - t - PausedFor(s)) / r.interval
  {
    RoundsBounded(r, t, acts, s);
    HandoffsBounded(r, t, acts, s);
  }

  // ------------------------------------------------- the scheduler comes to an end

  function Selects(acts: seq<Action>): nat {
    if acts == [] then 0 else (if acts[0].Select? then 1 else 0) + Selects(acts[1..])
  }

  /** How many selections are still to come, at most. */
  function SelectsLeft(r: Rules, s: State): nat {
    match s.sched
    case Selecting => 1 + Unfinished(r.breaks, s.clock)
    case Pending(k) => if k < |r.breaks| then 1 + Unfinished(r.breaks, r.breaks[k].End()) else 0
    case Offering(k, _, _) => if k < |r.breaks| then 1 + Unfinished(r.breaks, r.breaks[k].End()) else 0
    case Asleep(k) => if k < |r.breaks| then 1 + Unfinished(r.breaks, r.breaks[k].End()) else 0
    case Quit => 0
  }

  /** The earlier, the more breaks are unfinished; strictly more if one ends in between. */
  lemma {:induction false} UnfinishedFalls(breaks: seq<Break>, now: int, later: int)
    requires now <= later
    ensures Unfinished(breaks, later) <= Unfinished(breaks, now)
    ensures (exists k :: 0 <= k < |breaks| && now < breaks[k].End() <= later) ==>
              Unfinished(breaks, later) < Unfinished(breaks, now)
  {
    if breaks != [] {
      var n := |breaks| - 1;
      UnfinishedFalls(breaks[..n], now, later);
      if k :| 0 <= k < |breaks| && now < breaks[k].End() <= later && k != n {
        assert breaks[..n][k] == breaks[k];
      }
    }
  }

  lemma PickAdvances(r: Rules, now: int)
    requires r.Valid()
    ensures r.Pick(now).Some? ==>
              var k := r.Pick(now).value;
              && k < |r.breaks| && now < r.breaks[k].End()
              && Unfinished(r.breaks, r.breaks[k].End()) < Unfinished(r.breaks, now)
    ensures Unfinished(r.breaks, now) == 0 ==> r.Pick(now).None?
  {
    PickComesAfter(r, [], now);
    if r.Pick(now).Some? {
      UnfinishedFalls(r.breaks, now, r.breaks[r.Pick(now).value].End());
    }
  }

  lemma SelectsStep(r: Rules, s: State, a: Action)
    requires r.Valid() && Enabled(r, s, a)
    ensures SelectsLeft(r, Apply(r, s, a)) + (if a.Select? then 1 else 0) <= SelectsLeft(r, s)
  {
    match a
    case Select => PickAdvances(r, s.clock);
    case Elapse(d) => UnfinishedFalls(r.breaks, s.clock, s.clock + d);
    case SchedulerWakes => UnfinishedFalls(r.breaks, r.breaks[s.sched.index].End(), s.clock);
    case _ =>
  }

  lemma {:induction false} SelectsRun(r: Rules, s: State, acts: seq<Action>, s': State)
    requires r.Valid() && Run(r, s, acts, s')
    ensures Selects(acts) + SelectsLeft(r, s') <= SelectsLeft(r, s)
    decreases |acts|
  {
    if acts != [] {
      SelectsStep(r, s, acts[0]);
      SelectsRun(r, Apply(r, s, acts[0]), acts[1..], s');
    }
  }

  /** Each pass of the scheduler leaves fewer breaks unfinished, so that it selects at most once more than there are
      unfinished breaks when it comes up; when none is left it returns. */
  lemma SchedulerReturns(r: Rules, t: int, acts: seq<Action>, s: State)
    requires r.Valid() && Run(r, Init(t), acts, s)
    ensures Selects(acts) <= 1 + Unfinished(r.breaks, t)
    ensures Selects(acts) == 1 + Unfinished(r.breaks, t) ==> s.sched.Quit?
    ensures s.sched.Selecting? && Unfinished(r.breaks, s.clock) == 0 ==> Apply(r, s, Select).sched.Quit?
  {
    SelectsRun(r, Init(t), acts, s);
    PickAdvances(r, s.clock);
    assert SelectsLeft(r, s) == 0 ==> s.sched.Quit? by {
      SchedulerIndexInRange(r, Init(t), acts, s);
    }
  }

  predicate IndexInRange(r: Rules, s: State) {
    match s.sched
    case Pending(k) => k < |r.breaks|
    case Offering(k, _, _) => k < |r.breaks|
    case Asleep(k) => k < |r.breaks|
    case _ => true
  }

  lemma {:induction false} SchedulerIndexInRange(r: Rules, s: State, acts: seq<Action>, s': State)
    requires r.Valid() && Run(r, s, acts, s') && IndexInRange(r, s)
    ensures IndexInRange(r, s')
    decreases |acts|
  {
    if acts != [] {
      PickAdvances(r, s.clock);
      SchedulerIndexInRange(r, Apply(r, s, acts[0]), acts[1..], s');
    }
  }

  // ------------------------------------------------------- when the runner stops

  /** Only being stopped stops the runner: no round, however empty, and no pause ends it. */
  lemma {:induction false} OnlyStopStops(r: Rules, s: State, acts: seq<Action>, s': State)
    requires r.interval >= 1 && Run(r, s, acts, s') && !s.phase.Stopped?
    requires forall i :: 0 <= i < |acts| ==> !acts[i].Stop?
    ensures !s'.phase.Stopped?
    decreases |acts|
  {
    if acts != [] {
      OnlyStopStops(r, Apply(r, s, acts[0]), acts[1..], s');
    }
  }

  lemma RunsOn(r: Rules, t: int, acts: seq<Action>, s: State)
    requires r.interval >= 1 && Run(r, Init(t), acts, s) && forall i :: 0 <= i < |acts| ==> !acts[i].Stop?
    ensures !s.phase.Stopped?
  {
    OnlyStopStops(r, Init(t), acts, s);
  }

  /** It can be stopped whenever it waits, for a tick or for a break to end. */
  lemma StopsFromWaiting(r: Rules, s: State)
    requires r.interval >= 1 && (s.phase.Idle? || s.phase.Paused?)
    ensures Enabled(r, s, Stop) && Apply(r, s, Stop).phase.Stopped?
    ensures Apply(r, s, Stop).rounds == s.rounds && Apply(r, s, Stop).clock == s.clock
  {
  }

  /** And once it is stopped it starts no more rounds. */
  lemma StoppedForGood(r: Rules, s: State, acts: seq<Action>, s': State)
    requires r.interval >= 1 && Enabled(r, s, Stop) && Run(r, Apply(r, s, Stop), acts, s')
    ensures s'.phase.Stopped? && s'.rounds == s.rounds && s'.handed == s.handed
  {
    StaysStopped(r, Apply(r, s, Stop), acts, s');
  }

  lemma {:induction false} StaysStopped(r: Rules, s: State, acts: seq<Action>, s': State)
    requires r.interval >= 1 && s.phase.Stopped? && Run(r, s, acts, s')
    ensures s'.phase.Stopped? && s'.rounds == s.rounds && s'.handed == s.handed
    decreases |acts|
  {
    if acts != [] {
      StaysStopped(r, Apply(r, s, acts[0]), acts[1..], s');
    }
  }

  // ----------------------------------------------------------- putting runs together

  lemma {:induction false} RunJoin(r: Rules, s: State, a: seq<Action>, m: State, b: seq<Action>, s': State)
    requires r.interval >= 1 && Run(r, s, a, m) && Run(r, m, b, s')
    ensures Run(r, s, a + b, s')
    decreases |a|
  {
    if a == [] {
      assert a + b == b;
    } else {
      assert (a + b)[0] == a[0] && (a + b)[1..] == a[1..] + b;
      RunJoin(r, Apply(r, s, a[0]), a[1..], m, b, s');
    }
  }

  lemma RunStep(r: Rules, s: State, a: Action, rest: seq<Action>, s': State)
    requires r.interval >= 1 && Enabled(r, s, a) && Run(r, Apply(r, s, a), rest, s')
    ensures Run(r, s, [a] + rest, s')
  {
  }
}
