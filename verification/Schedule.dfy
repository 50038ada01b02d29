/** The event schedule: what `Validate` accepts, and what a service check is worth.
    Instants and durations are integers (nanoseconds); points are exact reals. */
module Schedule {
  datatype Break = Break(startsAt: int, goesFor: int) {
    function End(): int { startsAt + goesFor }

    predicate Contains(t: int) { startsAt <= t < End() }
  }

  datatype Event = Event(start: int, end: int, breaks: seq<Break>)

  datatype Config = Config(event: Event, intervals: int, timeout: int, baseIP: string)

  // ---------------------------------------------------------------- Validate

  datatype Fault = OutOfOrder | NotPositive | StartsEarly | EndsLate

  datatype Verdict =
    | Accepted
    | EventReversed
    | BadInterval
    | BadTimeout
    | BadBreak(index: nat, fault: Fault)
    | Overlap(index: nat)
    | BadPrefix

  /** A text, a dot, and what together with a last "0" is an address to the library's parser. */
  ghost predicate PrefixOfAddress(prefix: string, parseIP: string -> bool) {
    (exists text :: prefix == text + ".") && parseIP(prefix + "0")
  }

  predicate IPish(prefix: string, parseIP: string -> bool)
    ensures IPish(prefix, parseIP) <==> PrefixOfAddress(prefix, parseIP)
  {
    assert prefix != "" && prefix[|prefix| - 1] == '.' ==> prefix == prefix[..|prefix| - 1] + ".";
    |prefix| > 0 && prefix[|prefix| - 1] == '.' && parseIP(prefix + "0")
  }

  /** Positive, inside the event, and pairwise disjoint in the order given. */
  ghost predicate GoodBreaks(ev: Event) {
    && (forall i :: 0 <= i < |ev.breaks| ==>
          && ev.breaks[i].goesFor >= 1
          && ev.start <= ev.breaks[i].startsAt
          && ev.breaks[i].End() <= ev.end)
    && (forall i, j :: 0 <= i < j < |ev.breaks| ==> ev.breaks[i].End() <= ev.breaks[j].startsAt)
  }

  ghost predicate WellFormed(cfg: Config, parseIP: string -> bool) {
    && cfg.event.start <= cfg.event.end
    && cfg.intervals >= 1
    && cfg.timeout >= 1
    && GoodBreaks(cfg.event)
    && PrefixOfAddress(cfg.baseIP, parseIP)
  }

  ghost predicate EarlierLater(s: seq<Break>, i: nat)
    requires i < |s|
  {
    exists j :: i < j < |s| && s[j].startsAt < s[i].startsAt
  }

  /** The break at index `i` deserves `fault`, the checks being made in this order. */
  ghost predicate HasFault(ev: Event, i: nat, fault: Fault)
    requires i < |ev.breaks|
  {
    var b := ev.breaks[i];
    match fault
    case OutOfOrder => EarlierLater(ev.breaks, i)
    case NotPositive => !EarlierLater(ev.breaks, i) && b.goesFor < 1
    case StartsEarly => !EarlierLater(ev.breaks, i) && b.goesFor >= 1 && b.startsAt < ev.start
    case EndsLate =>
      !EarlierLater(ev.breaks, i) && b.goesFor >= 1 && b.startsAt >= ev.start && b.End() > ev.end
  }

  ghost predicate Faultless(ev: Event, i: nat)
    requires i < |ev.breaks|
  {
    forall f :: !HasFault(ev, i, f)
  }

  ghost predicate Collides(s: seq<Break>, i: nat) {
    i + 1 < |s| && s[i].End() > s[i + 1].startsAt
  }

  function Starts(s: seq<Break>): (r: seq<int>)
    ensures |r| == |s|
    ensures forall i :: 0 <= i < |s| ==> r[i] == s[i].startsAt
  {
    seq(|s|, i requires 0 <= i < |s| => s[i].startsAt)
  }

  ghost predicate Ascending(s: seq<int>) {
    forall i, j :: 0 <= i < j < |s| ==> s[i] <= s[j]
  }

  lemma InsertedBag<T>(s: seq<T>, p: nat, x: T)
    requires p <= |s|
    ensures multiset(s[..p] + [x] + s[p..]) == multiset(s) + multiset{x}
  {
    assert s == s[..p] + s[p..];
  }

  lemma InsertedAscending(s: seq<int>, p: nat, x: int)
    requires p <= |s| && Ascending(s)
    requires p > 0 ==> s[p - 1] <= x
    requires p < |s| ==> x <= s[p]
    ensures Ascending(s[..p] + [x] + s[p..])
  {
  }

  lemma Inserted(b: seq<Break>, p: nat, x: Break)
    requires p <= |b|
    ensures Starts(b[..p] + [x] + b[p..]) == Starts(b)[..p] + [x.startsAt] + Starts(b)[p..]
  {
  }

  method Insert(b: seq<Break>, x: Break) returns (c: seq<Break>)
    requires Ascending(Starts(b))
    ensures multiset(c) == multiset(b) + multiset{x}
    ensures multiset(Starts(c)) == multiset(Starts(b)) + multiset{x.startsAt}
    ensures Ascending(Starts(c))
  {
    var p := |b|;
    while p > 0 && x.startsAt < b[p - 1].startsAt
      invariant 0 <= p <= |b|
      invariant p < |b| ==> x.startsAt < b[p].startsAt
    {
      p := p - 1;
    }
    c := b[..p] + [x] + b[p..];
    InsertedBag(b, p, x);
    InsertedBag(Starts(b), p, x.startsAt);
    InsertedAscending(Starts(b), p, x.startsAt);
    Inserted(b, p, x);
  }

  /** The sorted copy. The library sort is not stable, so callers may rely only on
      the result holding the same starts in ascending order. */
  method SortedByStart(a: seq<Break>) returns (b: seq<Break>)
    ensures multiset(b) == multiset(a)
    ensures multiset(Starts(b)) == multiset(Starts(a))
    ensures Ascending(Starts(b))
  {
    b := [];
    for n := 0 to |a|
      invariant multiset(b) == multiset(a[..n])
      invariant multiset(Starts(b)) == multiset(Starts(a)[..n])
      invariant Ascending(Starts(b))
    {
      assert a[..n + 1] == a[..n] + [a[n]];
      assert Starts(a)[..n + 1] == Starts(a)[..n] + [a[n].startsAt];
      b := Insert(b, a[n]);
    }
    assert a[..|a|] == a && Starts(a)[..|a|] == Starts(a);
  }

  lemma SameTail(a: seq<int>, b: seq<int>, i: nat)
    requires multiset(a) == multiset(b)
    requires i < |a| == |b| && a[..i] == b[..i]
    ensures multiset(a[i..]) == multiset(b[i..])
  {
    assert a == a[..i] + a[i..];
    assert b == a[..i] + b[i..];
    var head, ta, tb := multiset(a[..i]), multiset(a[i..]), multiset(b[i..]);
    assert head + ta == head + tb;
    assert ta == (head + ta) - head && tb == (head + tb) - head;
  }

  /** Where a list first departs from its sorted copy, a later element is smaller. */
  lemma SortedCopyAgrees(a: seq<int>, b: seq<int>, i: nat)
    requires multiset(a) == multiset(b) && Ascending(b)
    requires i < |a| == |b| && a[..i] == b[..i]
    ensures a[i] == b[i] <==> forall j :: i < j < |a| ==> a[i] <= a[j]
  {
    SameTail(a, b, i);
    var ta, tb := a[i..], b[i..];
    assert tb[0] in multiset(ta);
    var p :| 0 <= p < |ta| && ta[p] == tb[0];
    assert a[i + p] == b[i];
    forall j | i <= j < |a| ensures b[i] <= a[j] {
      assert ta[j - i] in multiset(tb);
      var q :| 0 <= q < |tb| && tb[q] == ta[j - i];
    }
  }

  /** The first break with a fault of its own, found against the sorted copy. */
  method FirstFault(event: Event) returns (r: Verdict)
    ensures r == Accepted || r.BadBreak?
    ensures r == Accepted ==> forall k: nat :: k < |event.breaks| ==> Faultless(event, k)
    ensures r.BadBreak? ==>
              && r.index < |event.breaks|
              && (forall k: nat :: k < r.index ==> Faultless(event, k))
              && HasFault(event, r.index, r.fault)
  {
    var a := event.breaks;
    var b := SortedByStart(a);
    assert |a| == |b| by { assert |multiset(a)| == |a| && |multiset(b)| == |b|; }
    for i := 0 to |a|
      invariant Starts(a)[..i] == Starts(b)[..i]
      invariant forall k: nat :: k < i ==> Faultless(event, k)
    {
      SortedCopyAgrees(Starts(a), Starts(b), i);
      if a[i].startsAt != b[i].startsAt {
        assert HasFault(event, i, OutOfOrder);
        return BadBreak(i, OutOfOrder);
      }
      assert !EarlierLater(a, i);
      var brk := a[i];
      if brk.goesFor < 1 {
        return BadBreak(i, NotPositive);
      }
      if brk.startsAt < event.start {
        return BadBreak(i, StartsEarly);
      } else if brk.End() > event.end {
        return BadBreak(i, EndsLate);
      }
      assert Starts(a)[..i + 1] == Starts(a)[..i] + [a[i].startsAt];
      assert Starts(b)[..i + 1] == Starts(b)[..i] + [b[i].startsAt];
    }
    return Accepted;
  }

  /** The first break that runs into the next one. */
  method FirstOverlap(breaks: seq<Break>) returns (r: Verdict)
    ensures r == Accepted || r.Overlap?
    ensures r == Accepted ==> forall k: nat :: k < |breaks| - 1 ==> !Collides(breaks, k)
    ensures r.Overlap? ==>
              (forall k: nat :: k < r.index ==> !Collides(breaks, k)) && Collides(breaks, r.index)
  {
    var i := 0;
    while i < |breaks| - 1
      invariant 0 <= i <= |breaks|
      invariant forall k: nat :: k < i ==> !Collides(breaks, k)
    {
      if breaks[i].End() > breaks[i + 1].startsAt {
        return Overlap(i);
      }
      i := i + 1;
    }
    return Accepted;
  }

  /** Accepts exactly the well-formed configurations; otherwise names the first thing wrong,
      in the order the source looks for it. */
  method Validate(cfg: Config, parseIP: string -> bool) returns (r: Verdict)
    ensures r == Accepted <==> WellFormed(cfg, parseIP)
    ensures r == EventReversed <==> cfg.event.start > cfg.event.end
    ensures r == BadInterval <==> cfg.event.start <= cfg.event.end && cfg.intervals < 1
    ensures r == BadTimeout <==>
            cfg.event.start <= cfg.event.end && cfg.intervals >= 1 && cfg.timeout < 1
    ensures r.BadBreak? ==>
              && r.index < |cfg.event.breaks|
              && (forall k: nat :: k < r.index ==> Faultless(cfg.event, k))
              && HasFault(cfg.event, r.index, r.fault)
    ensures r.Overlap? ==>
              && (forall k: nat :: k < |cfg.event.breaks| ==> Faultless(cfg.event, k))
              && (forall k: nat :: k < r.index ==> !Collides(cfg.event.breaks, k))
              && Collides(cfg.event.breaks, r.index)
    ensures r == BadPrefix <==>
            && cfg.event.start <= cfg.event.end && cfg.intervals >= 1 && cfg.timeout >= 1
            && GoodBreaks(cfg.event) && !PrefixOfAddress(cfg.baseIP, parseIP)
  {
    var event := cfg.event;
    if event.start > event.end {
      return EventReversed;
    }
    if cfg.intervals < 1 {
      return BadInterval;
    } else if cfg.timeout < 1 {
      return BadTimeout;
    }

    r := FirstFault(event);
    if r != Accepted {
      FaultyBreak(event, r.index, r.fault);
      return;
    }
    FaultlessBreaks(event);

    r := FirstOverlap(event.breaks);
    if r != Accepted {
      return;
    }
    AdjacentSuffices(event);

    if !IPish(cfg.baseIP, parseIP) {
      return BadPrefix;
    }
    return Accepted;
  }

  lemma FaultyBreak(ev: Event, i: nat, fault: Fault)
    requires i < |ev.breaks| && HasFault(ev, i, fault)
    ensures !GoodBreaks(ev)
  {
  }

  lemma FaultlessBreaks(ev: Event)
    requires forall k: nat :: k < |ev.breaks| ==> Faultless(ev, k)
    ensures Ascending(Starts(ev.breaks))
    ensures forall i :: 0 <= i < |ev.breaks| ==>
              && ev.breaks[i].goesFor >= 1
              && ev.start <= ev.breaks[i].startsAt
              && ev.breaks[i].End() <= ev.end
  {
    forall i: nat | i < |ev.breaks|
      ensures !EarlierLater(ev.breaks, i) && ev.breaks[i].goesFor >= 1
      ensures ev.start <= ev.breaks[i].startsAt && ev.breaks[i].End() <= ev.end
    {
      assert Faultless(ev, i);
      assert !HasFault(ev, i, OutOfOrder) && !HasFault(ev, i, NotPositive);
      assert !HasFault(ev, i, StartsEarly) && !HasFault(ev, i, EndsLate);
    }
  }

  /** The code compares neighbours only; that suffices for every pair. */
  lemma AdjacentSuffices(ev: Event)
    requires Ascending(Starts(ev.breaks))
    requires forall k: nat :: k < |ev.breaks| - 1 ==> !Collides(ev.breaks, k)
    ensures forall i, j :: 0 <= i < j < |ev.breaks| ==> ev.breaks[i].End() <= ev.breaks[j].startsAt
  {
    forall i, j | 0 <= i < j < |ev.breaks|
      ensures ev.breaks[i].End() <= ev.breaks[j].startsAt
    {
      assert !Collides(ev.breaks, i);
      assert Starts(ev.breaks)[i + 1] <= Starts(ev.breaks)[j];
    }
  }
}
