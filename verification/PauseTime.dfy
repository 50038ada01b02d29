/** How long pauses last against the breaks they are for, and what that leaves for scoring. The results hold
    for every run, late or prompt, and for both ways of selecting breaks. */
module PauseTime {
  import opened Common
  import opened Schedule
  import opened Points
  import opened BreakSelection
  import opened Runner

  /** What is left of a pause under way. */
  function Remaining(s: State): nat {
    var until := match s.phase case Paused(u) => u case Stopped(u) => u case _ => s.clock;
    if until > s.clock then until - s.clock else 0
  }

  /** The pauses the runner was told to make. */
  function Told(r: Rules, handed: seq<Handoff>): int {
    if handed == [] then 0
    else Told(r, handed[..|handed| - 1]) + PauseFor(r, handed[|handed| - 1])
  }

  function PauseFor(r: Rules, h: Handoff): int {
    if h.index < |r.breaks| then r.breaks[h.index].End() - h.computedAt else 0
  }

  /** Time paused so far and still to be paused, over what was ordered. */
  function Surplus(r: Rules, s: State): int {
    PausedFor(s) + Remaining(s) - Told(r, s.handed)
  }

  ghost predicate DurationKept(r: Rules, s: State) {
    s.sched.Offering? ==>
      && s.sched.index < |r.breaks|
      && s.sched.duration == r.breaks[s.sched.index].End() - s.sched.computedAt
  }

  /** No step lets the runner off a pause it was told to make. */
  lemma SurplusStep(r: Rules, s: State, a: Action)
    requires r.interval >= 1 && Enabled(r, s, a) && DurationKept(r, s)
    ensures DurationKept(r, Apply(r, s, a)) && Surplus(r, Apply(r, s, a)) >= Surplus(r, s)
    ensures s.handed <= Apply(r, s, a).handed
  {
    var s' := Apply(r, s, a);
    if a.TakeBreak? {
      assert s'.handed[..|s'.handed| - 1] == s.handed;
    }
  }

  lemma {:induction false} SurplusRun(r: Rules, s: State, acts: seq<Action>, s': State)
    requires r.interval >= 1 && Run(r, s, acts, s') && DurationKept(r, s)
    ensures DurationKept(r, s') && Surplus(r, s') >= Surplus(r, s)
    ensures s.handed <= s'.handed
    decreases |acts|
  {
    if acts != [] {
      SurplusStep(r, s, acts[0]);
      SurplusRun(r, Apply(r, s, acts[0]), acts[1..], s');
    }
  }

  // --------------------------------------------------- break by break

  function Max0(x: int): nat { if x > 0 then x else 0 }

  /** The hand-off of break `k`, if it was handed over. */
  function Find(handed: seq<Handoff>, k: nat): Option<Handoff> {
    if handed == [] then None
    else if handed[|handed| - 1].index == k then Some(handed[|handed| - 1])
    else Find(handed[..|handed| - 1], k)
  }

  lemma {:induction false} FindIs(handed: seq<Handoff>, k: nat)
    ensures Find(handed, k).Some? ==> Find(handed, k).value in handed && Find(handed, k).value.index == k
    ensures Find(handed, k).None? <==> forall h :: h in handed ==> h.index != k
  {
    if handed != [] {
      FindIs(handed[..|handed| - 1], k);
      assert handed == handed[..|handed| - 1] + [handed[|handed| - 1]];
    }
  }

  lemma {:induction false} FindGrows(before: seq<Handoff>, after: seq<Handoff>, k: nat)
    requires before <= after && Rising(after) && Find(before, k).Some?
    ensures Find(after, k) == Find(before, k)
  {
    if |after| > |before| {
      FindIs(before, k);
      var i :| 0 <= i < |before| && before[i] == Find(before, k).value;
      assert after[i].index < after[|after| - 1].index;
      FindGrows(before, after[..|after| - 1], k);
    } else {
      assert before == after;
    }
  }

  function ToldFor(r: Rules, handed: seq<Handoff>, k: nat): int {
    match Find(handed, k) case None => 0 case Some(h) => PauseFor(r, h)
  }

  function ToldBelow(r: Rules, handed: seq<Handoff>, n: nat): int {
    if n == 0 then 0 else ToldBelow(r, handed, n - 1) + ToldFor(r, handed, n - 1)
  }

  lemma {:induction false} ToldWithoutLast(r: Rules, handed: seq<Handoff>, n: nat)
    requires handed != [] && n <= handed[|handed| - 1].index
    ensures ToldBelow(r, handed, n) == ToldBelow(r, handed[..|handed| - 1], n)
  {
    if n > 0 {
      ToldWithoutLast(r, handed, n - 1);
    }
  }

  lemma {:induction false} ToldByBreak(r: Rules, handed: seq<Handoff>, n: nat)
    requires Rising(handed) && forall i :: 0 <= i < |handed| ==> handed[i].index < n
    ensures ToldBelow(r, handed, n) == Told(r, handed)
    decreases n
  {
    if n > 0 {
      FindIs(handed, n - 1);
      if handed != [] && handed[|handed| - 1].index == n - 1 {
        ToldByBreak(r, handed[..|handed| - 1], n - 1);
        ToldWithoutLast(r, handed, n - 1);
      } else {
        assert forall i :: 0 <= i < |handed| ==> handed[i] in handed && handed[i].index <= handed[|handed| - 1].index;
        ToldByBreak(r, handed, n - 1);
      }
    }
  }

  /** The part of a break within a window of time; breaks being disjoint, these fit the window. */
  function Part(b: Break, lo: int, hi: int): nat { Max0(Min(b.End(), hi) - Max(b.startsAt, lo)) }

  function Parts(breaks: seq<Break>, lo: int, hi: int, n: nat): nat
    requires n <= |breaks|
  {
    if n == 0 then 0 else Parts(breaks, lo, hi, n - 1) + Part(breaks[n - 1], lo, hi)
  }

  lemma {:induction false} PartsFit(breaks: seq<Break>, lo: int, hi: int, n: nat)
    requires Ordered(breaks) && n <= |breaks| && lo <= hi
    ensures Parts(breaks, lo, hi, n) <= hi - lo
    ensures n > 0 ==> Parts(breaks, lo, hi, n) <= Max0(Min(breaks[n - 1].End(), hi) - lo)
  {
    if n > 0 {
      PartsFit(breaks, lo, hi, n - 1);
    }
  }

  // ----------------------------------------------------------------- the slack

  /** The part of break `k` that pauses after `m` do not make up for: what had passed of it when its pause was
      computed; or, when it was not handed over, what has passed of it by now. */
  function Lost(r: Rules, m: State, s: State, startsAt: int, k: nat): nat
    requires k < |r.breaks|
  {
    var b := r.breaks[k];
    if Find(m.handed, k).Some? then 0
    else
      match Find(s.handed, k)
      case Some(h) => Max0(h.computedAt - b.startsAt)
      case None => if b.startsAt > startsAt then Max0(Min(b.End(), s.clock) - b.startsAt) else 0
  }

  function LostBelow(r: Rules, m: State, s: State, startsAt: int, n: nat): nat
    requires n <= |r.breaks|
  {
    if n == 0 then 0 else LostBelow(r, m, s, startsAt, n - 1) + Lost(r, m, s, startsAt, n - 1)
  }

  /** All of that, and the delay of the hand-off if a pause is under way. */
  function Slack(r: Rules, m: State, s: State, startsAt: int): nat {
    LostBelow(r, m, s, startsAt, |r.breaks|) + if Remaining(s) > 0 && s.handed != [] then Max0(Last(s).Late()) else 0
  }

  /** From when on a state's outstanding breaks are all still to come, once its pause is over. */
  function Horizon(r: Rules, s: State): int {
    if Remaining(s) > 0 && s.handed != [] && Last(s).index < |r.breaks| then Max(s.clock, r.breaks[Last(s).index].End())
    else s.clock
  }

  /** What the hand-offs of a reachable state are like. */
  ghost predicate Handed(r: Rules, s: State) {
    && Rising(s.handed)
    && (forall h :: h in s.handed ==> GoodTimes(r, s, h))
    && (Remaining(s) > 0 ==>
          && s.handed != [] && Last(s).index < |r.breaks|
          && s.clock + Remaining(s) == Due(r, Last(s)))
  }

  ghost predicate GoodTimes(r: Rules, s: State, h: Handoff) {
    && h.index < |r.breaks|
    && r.breaks[h.index].startsAt <= h.computedAt <= h.at <= s.clock
    && r.breaks[h.index].End() <= s.clock + Remaining(s)
  }

  lemma AllDueSoon(r: Rules, s: State, i: nat)
    requires InRange(r, s.handed) && PhaseInv(r, s) && i < |s.handed|
    ensures Due(r, s.handed[i]) <= s.clock + Remaining(s)
    ensures Remaining(s) > 0 ==> s.clock + Remaining(s) == Due(r, Last(s))
  {
    assert i == |s.handed| - 1 ==> s.handed[i] == Last(s);
  }

  lemma ReachableHanded(r: Rules, t: int, acts: seq<Action>, s: State)
    requires r.Valid() && Run(r, Init(t), acts, s)
    ensures Handed(r, s)
  {
    PauseInvRun(r, Init(t), acts, s);
    HandedIndices(r, s);
    forall h | h in s.handed ensures GoodTimes(r, s, h) {
      var i :| 0 <= i < |s.handed| && s.handed[i] == h;
      AllDueSoon(r, s, i);
    }
    if s.handed != [] {
      AllDueSoon(r, s, 0);
    }
  }

  /** What is asked of each break: its length, less what it was paused for after `m`, is lost,
      or lies before the end of `m`'s pauses, or is still to come. */
  ghost predicate Accounted(r: Rules, m: State, s: State, startsAt: int, end: int, k: nat)
    requires k < |r.breaks|
  {
    var b := r.breaks[k];
    (if b.startsAt > startsAt then b.goesFor else 0) - (ToldFor(r, s.handed, k) - ToldFor(r, m.handed, k))
      <= Lost(r, m, s, startsAt, k) + Part(b, startsAt, m.clock + Remaining(m)) + Part(b, Horizon(r, s), end)
  }

  lemma HandedIsAccounted(r: Rules, m: State, s: State, startsAt: int, end: int, k: nat)
    requires r.Valid() && Handed(r, m) && Handed(r, s) && m.handed <= s.handed
    requires k < |r.breaks| && Find(s.handed, k).Some?
    ensures Accounted(r, m, s, startsAt, end, k)
  {
    FindIs(s.handed, k);
    FindIs(m.handed, k);
    var h := Find(s.handed, k).value;
    assert GoodTimes(r, s, h);
    if Find(m.handed, k).Some? {
      FindGrows(m.handed, s.handed, k);
      assert GoodTimes(r, m, h);
    }
  }

  lemma OutstandingIsAccounted(r: Rules, m: State, s: State, startsAt: int, end: int, k: nat)
    requires r.Valid() && Handed(r, m) && Handed(r, s) && m.handed <= s.handed
    requires k < |r.breaks| && Find(s.handed, k).None? && r.breaks[k].End() <= end
    ensures Accounted(r, m, s, startsAt, end, k)
  {
    FindIs(s.handed, k);
    if Find(m.handed, k).Some? {
      FindGrows(m.handed, s.handed, k);
    }
    var x := Horizon(r, s);
    if x != s.clock {
      var h := Last(s);
      assert h in s.handed && GoodTimes(r, s, h) && h.index != k;
      assert r.breaks[k].End() <= s.clock || r.breaks[k].startsAt >= x;
    }
  }

  lemma {:induction false} SumUp(r: Rules, m: State, s: State, startsAt: int, end: int, n: nat)
    requires n <= |r.breaks| && forall k: nat :: k < n ==> Accounted(r, m, s, startsAt, end, k)
    ensures LaterBreakTime(r.breaks[..n], startsAt) - (ToldBelow(r, s.handed, n) - ToldBelow(r, m.handed, n))
         <= LostBelow(r, m, s, startsAt, n)
            + Parts(r.breaks, startsAt, m.clock + Remaining(m), n) + Parts(r.breaks, Horizon(r, s), end, n)
  {
    if n > 0 {
      SumUp(r, m, s, startsAt, end, n - 1);
      assert Accounted(r, m, s, startsAt, end, n - 1);
      assert r.breaks[..n][..n - 1] == r.breaks[..n - 1];
    }
  }

  lemma HorizonBounds(r: Rules, s: State, end: int)
    requires r.Valid() && Handed(r, s) && s.clock <= end && forall i :: 0 <= i < |r.breaks| ==> r.breaks[i].End() <= end
    ensures s.clock <= Horizon(r, s) <= end
    ensures s.clock + Remaining(s)
         <= Horizon(r, s) + if Remaining(s) > 0 && s.handed != [] then Max0(Last(s).Late()) else 0
  {
    if Remaining(s) > 0 {
      assert Last(s) in s.handed && GoodTimes(r, s, Last(s));
    }
  }

  lemma EachAccounted(r: Rules, m: State, s: State, startsAt: int, end: int)
    requires r.Valid() && Handed(r, m) && Handed(r, s) && m.handed <= s.handed
    requires forall i :: 0 <= i < |r.breaks| ==> r.breaks[i].End() <= end
    ensures LaterBreakTime(r.breaks, startsAt)
            - (ToldBelow(r, s.handed, |r.breaks|) - ToldBelow(r, m.handed, |r.breaks|))
         <= LostBelow(r, m, s, startsAt, |r.breaks|)
            + Parts(r.breaks, startsAt, m.clock + Remaining(m), |r.breaks|)
            + Parts(r.breaks, Horizon(r, s), end, |r.breaks|)
  {
    forall k: nat | k < |r.breaks| ensures Accounted(r, m, s, startsAt, end, k) {
      if Find(s.handed, k).Some? {
        HandedIsAccounted(r, m, s, startsAt, end, k);
      } else {
        OutstandingIsAccounted(r, m, s, startsAt, end, k);
      }
    }
    SumUp(r, m, s, startsAt, end, |r.breaks|);
    assert r.breaks[..|r.breaks|] == r.breaks;
  }

  lemma AllAccounted(r: Rules, m: State, s: State, startsAt: int, end: int)
    requires r.Valid() && Handed(r, m) && Handed(r, s) && m.handed <= s.handed
    requires forall i :: 0 <= i < |r.breaks| ==> r.breaks[i].End() <= end
    requires startsAt <= m.clock && s.clock <= end
    ensures LaterBreakTime(r.breaks, startsAt) - (Told(r, s.handed) - Told(r, m.handed))
         <= Slack(r, m, s, startsAt) + (m.clock + Remaining(m) - startsAt) + (end - s.clock - Remaining(s))
  {
    EachAccounted(r, m, s, startsAt, end);
    ToldInRange(r, m);
    ToldInRange(r, s);
    WindowsFit(r, m, s, startsAt, end);
  }

  lemma WindowsFit(r: Rules, m: State, s: State, startsAt: int, end: int)
    requires r.Valid() && Handed(r, s) && forall i :: 0 <= i < |r.breaks| ==> r.breaks[i].End() <= end
    requires startsAt <= m.clock && s.clock <= end
    ensures LostBelow(r, m, s, startsAt, |r.breaks|)
            + Parts(r.breaks, startsAt, m.clock + Remaining(m), |r.breaks|)
            + Parts(r.breaks, Horizon(r, s), end, |r.breaks|)
         <= Slack(r, m, s, startsAt) + (m.clock + Remaining(m) - startsAt) + (end - s.clock - Remaining(s))
  {
    HorizonBounds(r, s, end);
    PartsFit(r.breaks, startsAt, m.clock + Remaining(m), |r.breaks|);
    PartsFit(r.breaks, Horizon(r, s), end, |r.breaks|);
  }

  /** The time the ticker is on after `m`, for a service that has started by then, is at most
      the service's span and the slack. */
  lemma ActiveWithinSpan(r: Rules, ev: Event, t: int, before: seq<Action>, m: State, acts: seq<Action>, s: State,
                         startsAt: int)
    requires r.Valid() && r.breaks == ev.breaks && GoodBreaks(ev)
    requires Run(r, Init(t), before, m) && Run(r, m, acts, s)
    requires startsAt <= m.clock && s.clock <= ev.end
    ensures (s.clock - m.clock) - (PausedFor(s) - PausedFor(m)) <= Span(ev, startsAt) + Slack(r, m, s, startsAt)
  {
    ReachTwice(r, t, before, m, acts, s);
    AllAccounted(r, m, s, startsAt, ev.end);
  }

  lemma ToldInRange(r: Rules, s: State)
    requires Handed(r, s)
    ensures ToldBelow(r, s.handed, |r.breaks|) == Told(r, s.handed)
  {
    forall i | 0 <= i < |s.handed| ensures s.handed[i].index < |r.breaks| {
      assert s.handed[i] in s.handed && GoodTimes(r, s, s.handed[i]);
    }
    ToldByBreak(r, s.handed, |r.breaks|);
  }

  lemma ReachTwice(r: Rules, t: int, before: seq<Action>, m: State, acts: seq<Action>, s: State)
    requires r.Valid() && Run(r, Init(t), before, m) && Run(r, m, acts, s)
    ensures Handed(r, m) && Handed(r, s) && m.handed <= s.handed && Surplus(r, s) >= Surplus(r, m)
  {
    ReachableHanded(r, t, before, m);
    RunJoin(r, Init(t), before, m, acts, s);
    ReachableHanded(r, t, before + acts, s);
    SurplusRun(r, Init(t), before, m);
    SurplusRun(r, m, acts, s);
  }

  // ------------------------------------------------------------------- the cap

  /** Enough checks to fill a stretch of time. */
  function ChecksIn(time: nat, interval: int): nat
    requires interval >= 1
  {
    (time + interval - 1) / interval
  }

  lemma FloorOfSum(span: int, slack: nat, active: int, d: int)
    requires d >= 1 && active <= span + slack && span >= 0
    ensures active / d <= span / d + ChecksIn(slack, d)
  {
    var p, q := span / d, ChecksIn(slack, d);
    assert span < p * d + d && slack + d - 1 < q * d + d;
    var k := active / d;
    assert k * d <= active;
    assert (p + q + 1 - k) * d == p * d + q * d + d - k * d > 0;
    ProductSign(k - p - q - 1, d);
    assert (k - p - q - 1) * d == -((p + q + 1 - k) * d);
  }

  /** What one team can earn from one service that was due when the monitor came up, in any run: its total, one check
      more for the start and for each pause, and as many as fit the time that pauses did not make up for. */
  lemma ServiceCap(r: Rules, ev: Event, t: int, acts: seq<Action>, s: State, startsAt: int, total: real, passes: nat)
    requires r.Valid() && r.breaks == ev.breaks && GoodBreaks(ev) && Run(r, Init(t), acts, s)
    requires startsAt <= t && s.clock <= ev.end && total > 0.0
    requires NumChecks(ev, startsAt, r.interval) >= 1 && passes <= |s.rounds|
    ensures Paid(passes, total, NumChecks(ev, startsAt, r.interval))
         <= Cap(total, |s.handed| + 1 + ChecksIn(Slack(r, Init(t), s, startsAt), r.interval),
                NumChecks(ev, startsAt, r.interval))
  {
    RoundsBounded(r, t, acts, s);
    ActiveWithinSpan(r, ev, t, [], Init(t), acts, s, startsAt);
    CapFrom(r, ev, startsAt, total, passes, |s.handed| + 1, s.clock - t - PausedFor(s), Slack(r, Init(t), s, startsAt));
  }

  lemma CapFrom(r: Rules, ev: Event, startsAt: int, total: real, passes: nat, extra: nat, active: int, slack: nat)
    requires r.interval >= 1 && total > 0.0 && NumChecks(ev, startsAt, r.interval) >= 1
    requires active <= Span(ev, startsAt) + slack && passes <= extra + active / r.interval
    ensures Paid(passes, total, NumChecks(ev, startsAt, r.interval))
         <= Cap(total, extra + ChecksIn(slack, r.interval), NumChecks(ev, startsAt, r.interval))
  {
    assert Span(ev, startsAt) >= 0 by {
      if Span(ev, startsAt) < 0 {
        CellMonotone(0, -Span(ev, startsAt), r.interval);
      }
    }
    FloorOfSum(Span(ev, startsAt), slack, active, r.interval);
    ShareOfTotal(passes, extra + ChecksIn(slack, r.interval), NumChecks(ev, startsAt, r.interval), total);
  }

  /** The same for a service that starts while the monitor is running: `m` is any state
      at or after its start, and only rounds from there on can score it. */
  lemma ServiceCapSince(r: Rules, ev: Event, t: int, before: seq<Action>, m: State, acts: seq<Action>, s: State,
                        startsAt: int, total: real, passes: nat)
    requires r.Valid() && r.breaks == ev.breaks && GoodBreaks(ev)
    requires Run(r, Init(t), before, m) && Run(r, m, acts, s)
    requires startsAt <= m.clock && s.clock <= ev.end && total > 0.0
    requires NumChecks(ev, startsAt, r.interval) >= 1 && passes <= |s.rounds| - |m.rounds|
    ensures s.resumed >= m.resumed
    ensures Paid(passes, total, NumChecks(ev, startsAt, r.interval))
         <= Cap(total, s.resumed - m.resumed + 4 + ChecksIn(Slack(r, m, s, startsAt), r.interval),
                NumChecks(ev, startsAt, r.interval))
  {
    RoundsBoundedSince(r, t, before, m, acts, s);
    ActiveWithinSpan(r, ev, t, before, m, acts, s, startsAt);
    var active := s.clock - m.clock - (PausedFor(s) - PausedFor(m));
    CapFrom(r, ev, startsAt, total, passes, s.resumed - m.resumed + 4, active, Slack(r, m, s, startsAt));
  }
}
