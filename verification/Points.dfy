/** What one passing check is worth: the span of time a service is scored, divided into
    check intervals. `ActiveTime` is the reference: it counts instants one by one. */
module Points {
  import opened Schedule

  datatype Award =
    | PerCheck(points: real)
    | NoChecks // the source divides a float by zero here

  predicate OnBreak(breaks: seq<Break>, t: int) {
    exists i :: 0 <= i < |breaks| && breaks[i].Contains(t)
  }

  /** The number of instants in [lo, hi) outside every break. */
  function ActiveTime(breaks: seq<Break>, lo: int, hi: int): nat
    decreases hi - lo
  {
    if lo >= hi then 0
    else (if OnBreak(breaks, lo) then 0 else 1) + ActiveTime(breaks, lo + 1, hi)
  }

  /** Total length of the breaks that start after `startsAt`. */
  function LaterBreakTime(breaks: seq<Break>, startsAt: int): int {
    if breaks == [] then 0
    else
      var b := breaks[|breaks| - 1];
      LaterBreakTime(breaks[..|breaks| - 1], startsAt) + if b.startsAt > startsAt then b.goesFor else 0
  }

  function Span(ev: Event, startsAt: int): int {
    ev.end - startsAt - LaterBreakTime(ev.breaks, startsAt)
  }

  /** Integer division as the source does it, truncating toward zero. */
  function Quotient(n: int, d: int): int
    requires d >= 1
  {
    if n >= 0 then n / d else -(-n / d)
  }

  /** Toward zero: the part dropped is less than one divisor and has the sign of the dividend. */
  lemma QuotientTruncates(n: int, d: int)
    requires d >= 1
    ensures n >= 0 ==> 0 <= n - Quotient(n, d) * d < d
    ensures n <= 0 ==> 0 <= Quotient(n, d) * d - n < d
  {
    if n < 0 {
      assert Quotient(n, d) * d == -((-n / d) * d);
    }
  }

  function NumChecks(ev: Event, startsAt: int, interval: int): int
    requires interval >= 1
  {
    Quotient(Span(ev, startsAt), interval)
  }

  method CalcPointsPerCheck(startsAt: int, totalPoints: real, ev: Event, interval: int) returns (award: Award)
    requires interval >= 1
    ensures var n := NumChecks(ev, startsAt, interval);
            award == if n == 0 then NoChecks else PerCheck(totalPoints / n as real)
  {
    var span := ev.end - startsAt;
    for i := 0 to |ev.breaks|
      invariant span == ev.end - startsAt - LaterBreakTime(ev.breaks[..i], startsAt)
    {
      assert ev.breaks[..i + 1][..i] == ev.breaks[..i];
      if ev.breaks[i].startsAt > startsAt {
        span := span - ev.breaks[i].goesFor;
      }
    }
    assert ev.breaks[..|ev.breaks|] == ev.breaks;
    var numChecks := Quotient(span, interval);
    if numChecks == 0 {
      return NoChecks;
    }
    award := PerCheck(totalPoints / numChecks as real);
  }

  // ------------------------------------------- the span against the reference

  /** Disjoint, in order, positive, and over by `limit`. */
  ghost predicate Chain(breaks: seq<Break>, limit: int) {
    && (forall i :: 0 <= i < |breaks| ==> breaks[i].goesFor >= 1 && breaks[i].End() <= limit)
    && (forall i, j :: 0 <= i < j < |breaks| ==> breaks[i].End() <= breaks[j].startsAt)
  }

  lemma {:induction false} ActiveSplit(breaks: seq<Break>, lo: int, mid: int, hi: int)
    requires lo <= mid <= hi
    ensures ActiveTime(breaks, lo, hi) == ActiveTime(breaks, lo, mid) + ActiveTime(breaks, mid, hi)
    decreases mid - lo
  {
    if lo < mid {
      ActiveSplit(breaks, lo + 1, mid, hi);
    }
  }

  lemma {:induction false} ActiveAgree(a: seq<Break>, b: seq<Break>, lo: int, hi: int)
    requires forall t :: lo <= t < hi ==> OnBreak(a, t) == OnBreak(b, t)
    ensures ActiveTime(a, lo, hi) == ActiveTime(b, lo, hi)
    decreases hi - lo
  {
    if lo < hi {
      ActiveAgree(a, b, lo + 1, hi);
    }
  }

  lemma {:induction false} ActiveConstant(breaks: seq<Break>, lo: int, hi: int, rest: bool)
    requires forall t :: lo <= t < hi ==> OnBreak(breaks, t) == rest
    requires lo <= hi
    ensures ActiveTime(breaks, lo, hi) == if rest then 0 else hi - lo
    decreases hi - lo
  {
    if lo < hi {
      ActiveConstant(breaks, lo + 1, hi, rest);
    }
  }

  /** How much of [startsAt, ...) lies in the break that is running at `startsAt`. */
  function CutTime(breaks: seq<Break>, startsAt: int): nat {
    if breaks == [] then 0
    else
      var b := breaks[|breaks| - 1];
      CutTime(breaks[..|breaks| - 1], startsAt) + if b.Contains(startsAt) then b.End() - startsAt else 0
  }

  lemma {:induction false} CutTimePositive(breaks: seq<Break>, startsAt: int)
    ensures CutTime(breaks, startsAt) > 0 <==> OnBreak(breaks, startsAt)
  {
    if breaks != [] {
      var prev := breaks[..|breaks| - 1];
      CutTimePositive(prev, startsAt);
      if OnBreak(breaks, startsAt) && !breaks[|breaks| - 1].Contains(startsAt) {
        var i :| 0 <= i < |breaks| && breaks[i].Contains(startsAt);
        assert prev[i].Contains(startsAt);
      }
      if OnBreak(prev, startsAt) {
        var i :| 0 <= i < |prev| && prev[i].Contains(startsAt);
        assert breaks[i].Contains(startsAt);
      }
    }
  }

  lemma OnBreakSplit(breaks: seq<Break>, t: int)
    requires breaks != []
    ensures OnBreak(breaks, t) <==> OnBreak(breaks[..|breaks| - 1], t) || breaks[|breaks| - 1].Contains(t)
  {
  }

  /** What the last break of a chain takes away from the time after `lo`. */
  lemma LastBreakCost(breaks: seq<Break>, lo: int, end: int)
    requires breaks != [] && Chain(breaks, end) && lo <= end
    ensures var b, prev := breaks[|breaks| - 1], breaks[..|breaks| - 1];
            && (lo <= b.startsAt ==>
                 ActiveTime(breaks, lo, end) == ActiveTime(prev, lo, b.startsAt) + (end - b.End()))
            && (b.startsAt < lo ==>
                 ActiveTime(breaks, lo, end) == end - (if b.End() > lo then b.End() else lo))
  {
    var b, prev := breaks[|breaks| - 1], breaks[..|breaks| - 1];
    forall t ensures OnBreak(breaks, t) <==> OnBreak(prev, t) || b.Contains(t) {
      OnBreakSplit(breaks, t);
    }
    assert forall t :: t >= b.startsAt ==> !OnBreak(prev, t);
    if lo <= b.startsAt {
      ActiveAgree(breaks, prev, lo, b.startsAt);
      ActiveSplit(breaks, lo, b.startsAt, end);
      ActiveSplit(breaks, b.startsAt, b.End(), end);
      ActiveConstant(breaks, b.startsAt, b.End(), true);
      ActiveConstant(breaks, b.End(), end, false);
    } else {
      var edge := if b.End() > lo then b.End() else lo;
      ActiveSplit(breaks, lo, edge, end);
      ActiveConstant(breaks, lo, edge, true);
      ActiveConstant(breaks, edge, end, false);
    }
  }

  /** The subtraction loop is off by exactly the part of a running break it forgets. */
  lemma {:induction false} SpanExcess(breaks: seq<Break>, startsAt: int, end: int)
    requires Chain(breaks, end) && startsAt <= end
    ensures end - startsAt - LaterBreakTime(breaks, startsAt)
         == ActiveTime(breaks, startsAt, end) + CutTime(breaks, startsAt)
  {
    if breaks == [] {
      ActiveConstant(breaks, startsAt, end, false);
    } else {
      var b, prev := breaks[|breaks| - 1], breaks[..|breaks| - 1];
      LastBreakCost(breaks, startsAt, end);
      if startsAt <= b.startsAt {
        SpanExcess(prev, startsAt, b.startsAt);
      } else {
        NothingLater(prev, startsAt);
        NothingCut(prev, startsAt);
      }
    }
  }

  lemma {:induction false} NothingCut(breaks: seq<Break>, startsAt: int)
    requires forall i :: 0 <= i < |breaks| ==> breaks[i].End() <= startsAt
    ensures CutTime(breaks, startsAt) == 0
  {
    if breaks != [] {
      NothingCut(breaks[..|breaks| - 1], startsAt);
    }
  }

  /** On an accepted schedule the span is the true active time exactly when the service starts
      by the end of the event and not during a break (the first instant of a break included). */
  lemma SpanIsActiveTime(ev: Event, startsAt: int)
    requires GoodBreaks(ev)
    ensures Span(ev, startsAt) == ActiveTime(ev.breaks, startsAt, ev.end)
       <==> startsAt <= ev.end && !OnBreak(ev.breaks, startsAt)
    ensures startsAt <= ev.end ==> Span(ev, startsAt) >= ActiveTime(ev.breaks, startsAt, ev.end)
  {
    if startsAt <= ev.end {
      SpanExcess(ev.breaks, startsAt, ev.end);
      CutTimePositive(ev.breaks, startsAt);
    } else {
      NothingLater(ev.breaks, startsAt);
    }
  }

  lemma {:induction false} NothingLater(breaks: seq<Break>, startsAt: int)
    requires forall i :: 0 <= i < |breaks| ==> breaks[i].startsAt <= startsAt
    ensures LaterBreakTime(breaks, startsAt) == 0
  {
    if breaks != [] {
      NothingLater(breaks[..|breaks| - 1], startsAt);
    }
  }

  /** The promised division: the checks fill the active time to within one interval, and together
      they are worth the service's total. */
  lemma ChecksShareTotal(ev: Event, startsAt: int, interval: int, totalPoints: real)
    requires GoodBreaks(ev) && interval >= 1
    requires startsAt <= ev.end && !OnBreak(ev.breaks, startsAt)
    requires ActiveTime(ev.breaks, startsAt, ev.end) >= interval
    ensures var n, active := NumChecks(ev, startsAt, interval), ActiveTime(ev.breaks, startsAt, ev.end);
            && n >= 1
            && n * interval <= active < (n + 1) * interval
            && n as real * (totalPoints / n as real) == totalPoints
  {
    SpanIsActiveTime(ev, startsAt);
    QuotientBounds(Span(ev, startsAt), interval);
  }

  lemma QuotientBounds(n: int, d: int)
    requires n >= d >= 1
    ensures Quotient(n, d) >= 1
    ensures Quotient(n, d) * d <= n < (Quotient(n, d) + 1) * d
  {
  }

  // ----------------------------------------------------------- what checks pay

  /** What `k` passing checks pay when `n` of them are worth `total`. */
  function Paid(k: nat, total: real, n: int): real
    requires n >= 1
  {
    k as real * (total / n as real)
  }

  /** The total, and `extra` checks more. */
  function Cap(total: real, extra: nat, n: int): real
    requires n >= 1
  {
    total * (1.0 + extra as real / n as real)
  }

  /** Points are within the cap exactly when the checks are. */
  lemma ShareOfTotal(k: nat, extra: nat, n: int, total: real)
    requires n >= 1 && total > 0.0
    ensures Paid(k, total, n) <= Cap(total, extra, n) <==> k <= n + extra
  {
    var each := total / n as real;
    assert each > 0.0;
    assert Cap(total, extra, n) == (n as real + extra as real) * each by {
      assert n as real * each == total;
      assert extra as real * each == total * (extra as real / n as real);
    }
    ScaledOrder(k as real, n as real + extra as real, each);
  }

  lemma PaidMonotone(j: nat, k: nat, total: real, n: int)
    requires n >= 1 && total > 0.0 && j <= k
    ensures Paid(j, total, n) <= Paid(k, total, n)
  {
    ScaledOrder(j as real, k as real, total / n as real);
  }

  lemma ScaledOrder(x: real, y: real, each: real)
    requires each > 0.0
    ensures x * each <= y * each <==> x <= y
  {
    if x > y {
      assert (x - y) * each > 0.0;
    } else {
      assert (y - x) * each >= 0.0;
    }
  }
}
