/** Which break the schedulers wait for. The loop is commented "next, unfinished break" but takes
    the address of its loop variable and never leaves early; under the declared language version the
    variable is shared by all iterations, so the pointer ends up at the last break. */
module BreakSelection {
  import opened Common
  import opened Schedule

  /** The test in the loop. The exact first instant of a break passes neither comparison. */
  predicate Listed(b: Break, now: int) {
    now < b.startsAt || (b.startsAt < now < b.End())
  }

  predicate AnyListed(breaks: seq<Break>, now: int) {
    exists i :: 0 <= i < |breaks| && Listed(breaks[i], now)
  }

  /** The loop as written; `br` is the one shared loop variable and `found` says whether
      the pointer to it was taken. Returns the index of the break it points at. */
  method SelectBreak(breaks: seq<Break>, now: int) returns (next: Option<nat>)
    ensures next == Selected(breaks, now)
  {
    var br: nat := 0;
    var found := false;
    for i := 0 to |breaks|
      invariant i > 0 ==> br == i - 1
      invariant found <==> exists k :: 0 <= k < i && Listed(breaks[k], now)
    {
      br := i;
      if now < breaks[br].startsAt {
        found := true;
      } else if now > breaks[br].startsAt && now < breaks[br].End() {
        found := true;
      }
      assert found ==> Listed(breaks[i], now) || exists k :: 0 <= k < i && Listed(breaks[k], now);
    }
    next := if found then Some(br) else None;
  }

  function Selected(breaks: seq<Break>, now: int): (next: Option<nat>)
    ensures next.Some? ==> next.value < |breaks|
  {
    if AnyListed(breaks, now) then Some(|breaks| - 1) else None
  }

  /** The same loop had every iteration its own variable. */
  function LastListed(breaks: seq<Break>, now: int): Option<nat> {
    if breaks == [] then None
    else if Listed(breaks[|breaks| - 1], now) then Some(|breaks| - 1)
    else LastListed(breaks[..|breaks| - 1], now)
  }

  /** What the comment asks for: the earliest break that is not over. */
  function Intended(breaks: seq<Break>, now: int): (next: Option<nat>)
    ensures next.Some? ==>
              && next.value < |breaks|
              && now < breaks[next.value].End()
              && forall k :: 0 <= k < next.value ==> breaks[k].End() <= now
    ensures next.None? ==> forall k :: 0 <= k < |breaks| ==> breaks[k].End() <= now
  {
    if breaks == [] then None
    else
      var init := |breaks| - 1;
      match Intended(breaks[..init], now)
      case Some(k) => Some(k)
      case None => if now < breaks[init].End() then Some(init) else None
  }

  function Unfinished(breaks: seq<Break>, now: int): nat {
    if breaks == [] then 0
    else Unfinished(breaks[..|breaks| - 1], now) + if now < breaks[|breaks| - 1].End() then 1 else 0
  }

  /** A schedule as `Validate` accepts it, the event bounds apart. */
  ghost predicate Ordered(breaks: seq<Break>) {
    && (forall i :: 0 <= i < |breaks| ==> breaks[i].goesFor >= 1)
    && (forall i, j :: 0 <= i < j < |breaks| ==> breaks[i].End() <= breaks[j].startsAt)
  }

  lemma EndsAscend(breaks: seq<Break>)
    requires Ordered(breaks)
    ensures forall i, j :: 0 <= i < j < |breaks| ==> breaks[i].End() < breaks[j].End()
    ensures forall i, j :: 0 <= i < j < |breaks| ==> breaks[i].startsAt < breaks[j].startsAt
  {
  }

  /** What the loop yields: the last break for as long as that one is ahead or running. */
  lemma SelectedIsLast(breaks: seq<Break>, now: int)
    requires Ordered(breaks)
    ensures Selected(breaks, now) ==
            if breaks != [] && Listed(breaks[|breaks| - 1], now) then Some(|breaks| - 1) else None
  {
  }

  /** On an accepted schedule the language version makes no difference: not even at a break's start. */
  lemma AliasingIsHarmless(breaks: seq<Break>, now: int)
    requires Ordered(breaks)
    ensures Selected(breaks, now) == LastListed(breaks, now)
  {
  }

  /** The loop agrees with its comment exactly when at most one break is left
      and that break is not beginning at this very instant. */
  lemma AgreesWithComment(breaks: seq<Break>, now: int)
    requires Ordered(breaks)
    ensures Selected(breaks, now) == Intended(breaks, now)
       <==> Unfinished(breaks, now) == 0
            || (Unfinished(breaks, now) == 1 && now != breaks[|breaks| - 1].startsAt)
  {
    SelectedIsLast(breaks, now);
    EndsAscend(breaks);
    UnfinishedIsTail(breaks, now);
  }

  lemma {:induction false} UnfinishedIsTail(breaks: seq<Break>, now: int)
    requires Ordered(breaks)
    ensures Unfinished(breaks, now) <= |breaks|
    ensures Intended(breaks, now) ==
            if Unfinished(breaks, now) == 0 then None else Some(|breaks| - Unfinished(breaks, now))
  {
    if breaks != [] {
      EndsAscend(breaks);
      UnfinishedIsTail(breaks[..|breaks| - 1], now);
    }
  }

  // -------------------------------------- the "on break" flag of the web server

  datatype Waiter = Choosing | Waiting(index: nat) | OnBreak(index: nat) | Finished

  datatype FlagState = FlagState(clock: int, waiter: Waiter) {
    predicate Flag() { waiter.OnBreak? }
  }

  datatype FlagAction = Later(d: nat) | Choose | BreakBegins | BreakEnds

  predicate FlagEnabled(breaks: seq<Break>, s: FlagState, a: FlagAction) {
    match a
    case Later(_) => true
    case Choose => s.waiter.Choosing?
    case BreakBegins => s.waiter.Waiting? && s.waiter.index < |breaks| && s.clock >= breaks[s.waiter.index].startsAt
    case BreakEnds => s.waiter.OnBreak? && s.waiter.index < |breaks| && s.clock >= breaks[s.waiter.index].End()
  }

  function FlagApply(breaks: seq<Break>, s: FlagState, a: FlagAction): FlagState
    requires FlagEnabled(breaks, s, a)
  {
    match a
    case Later(d) => s.(clock := s.clock + d)
    case Choose =>
      (match Selected(breaks, s.clock)
       case None => s.(waiter := Finished)
       case Some(k) => s.(waiter := Waiting(k)))
    case BreakBegins => s.(waiter := OnBreak(s.waiter.index))
    case BreakEnds => s.(waiter := Choosing)
  }

  ghost predicate FlagRun(breaks: seq<Break>, s: FlagState, acts: seq<FlagAction>, s': FlagState)
    decreases |acts|
  {
    if acts == [] then s == s'
    else FlagEnabled(breaks, s, acts[0]) && FlagRun(breaks, FlagApply(breaks, s, acts[0]), acts[1..], s')
  }

  ghost predicate FlagInv(breaks: seq<Break>, s: FlagState) {
    match s.waiter
    case Waiting(k) => k == |breaks| - 1
    case OnBreak(k) => k == |breaks| - 1 && s.clock >= breaks[k].startsAt
    case _ => true
  }

  /** In no run is the flag up before the last break: contestants are not held off by any
      earlier break, whatever the timers do. */
  lemma {:induction false} FlagOnlyForLastBreak(breaks: seq<Break>, s: FlagState, acts: seq<FlagAction>, s': FlagState)
    requires FlagInv(breaks, s) && FlagRun(breaks, s, acts, s')
    ensures s'.Flag() ==> breaks != [] && s'.clock >= breaks[|breaks| - 1].startsAt
    ensures Ordered(breaks) && s'.Flag() ==>
              forall k :: 0 <= k < |breaks| - 1 ==> !breaks[k].Contains(s'.clock)
    decreases |acts|
  {
    if acts != [] {
      FlagOnlyForLastBreak(breaks, FlagApply(breaks, s, acts[0]), acts[1..], s');
    }
  }

  /** Which of a break's beginning and end came last. */
  function LastFlag(up: bool, acts: seq<FlagAction>): bool
    decreases |acts|
  {
    if acts == [] then up
    else LastFlag(if acts[0].BreakBegins? then true else if acts[0].BreakEnds? then false else up, acts[1..])
  }

  /** The flag is up from a break's beginning to its end: in any run it is up if and only if the
      last of the two steps was a beginning. */
  lemma {:induction false} FlagFollows(breaks: seq<Break>, s: FlagState, acts: seq<FlagAction>, s': FlagState)
    requires FlagRun(breaks, s, acts, s')
    ensures s'.Flag() == LastFlag(s.Flag(), acts)
    decreases |acts|
  {
    if acts != [] {
      FlagFollows(breaks, FlagApply(breaks, s, acts[0]), acts[1..], s');
    }
  }

  lemma FlagStep(breaks: seq<Break>, s: FlagState, a: FlagAction, rest: seq<FlagAction>, s': FlagState)
    requires FlagEnabled(breaks, s, a) && FlagRun(breaks, FlagApply(breaks, s, a), rest, s')
    ensures FlagRun(breaks, s, [a] + rest, s')
  {
    assert ([a] + rest)[1..] == rest;
  }

  /** For the last break it does go up, and down again at its end, after which nothing is waited for: with timers that
      are not late it is up at every instant of that break, whenever before it the server came up. */
  lemma LastBreakIsFlagged(breaks: seq<Break>, t: int, now: int)
    returns (acts: seq<FlagAction>, s: FlagState, more: seq<FlagAction>, s': FlagState)
    requires Ordered(breaks) && breaks != [] && t < breaks[|breaks| - 1].startsAt && breaks[|breaks| - 1].Contains(now)
    ensures FlagRun(breaks, FlagState(t, Choosing), acts, s) && s.clock == now && s.Flag()
    ensures FlagRun(breaks, s, more, s')
    ensures s'.clock == breaks[|breaks| - 1].End() && !s'.Flag() && s'.waiter.Finished?
  {
    var k := |breaks| - 1;
    var b := breaks[k];
    SelectedIsLast(breaks, t);
    SelectedIsLast(breaks, b.End());
    s := FlagState(now, OnBreak(k));
    FlagStep(breaks, FlagState(b.startsAt, OnBreak(k)), Later(now - b.startsAt), [], s);
    acts := [Later(now - b.startsAt)] + [];
    FlagStep(breaks, FlagState(b.startsAt, Waiting(k)), BreakBegins, acts, s);
    acts := [BreakBegins] + acts;
    FlagStep(breaks, FlagState(t, Waiting(k)), Later(b.startsAt - t), acts, s);
    acts := [Later(b.startsAt - t)] + acts;
    FlagStep(breaks, FlagState(t, Choosing), Choose, acts, s);
    acts := [Choose] + acts;
    s' := FlagState(b.End(), Finished);
    FlagStep(breaks, FlagState(b.End(), Choosing), Choose, [], s');
    more := [Choose] + [];
    FlagStep(breaks, FlagState(b.End(), OnBreak(k)), BreakEnds, more, s');
    more := [BreakEnds] + more;
    FlagStep(breaks, s, Later(b.End() - now), more, s');
    more := [Later(b.End() - now)] + more;
  }
}
