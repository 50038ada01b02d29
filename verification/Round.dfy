/** Rounds as threads: the runner spawns a goroutine per check, then fills its buffer from one unbuffered
    channel they all share, holding the lock that reloads need. */
module Round {
  import opened Common
  import opened Results
  import opened Monitor

  datatype Stage = Running | Sending(outcome: Outcome) | Sent(outcome: Outcome)

  /** A goroutine, with the check and the time stamp it was given. */
  datatype Goroutine = Goroutine(check: Check, stamp: int, stage: Stage)

  datatype Done = Done(stamp: int, checks: seq<Check>, results: seq<Result>)

  /** `current` are the goroutines of the round under way and `older` those of earlier ones;
      `idx` is the place in the buffer the collector fills next. */
  datatype State = State(
    checks: seq<Check>, locked: bool, stamp: int,
    older: seq<Goroutine>, current: seq<Goroutine>,
    buf: seq<Result>, idx: nat, history: seq<Done>)
  {
    function Pool(old_: bool): seq<Goroutine> { if old_ then older else current }

    function WithPool(old_: bool, gs: seq<Goroutine>): State {
      if old_ then this.(older := gs) else this.(current := gs)
    }
  }

  /** `old_` says whether goroutine `g` is one left from an earlier round. */
  datatype Action =
    | Reload(checks: seq<Check>)
    | Lock(stamp: int)
    | Spawn
    | Finish(old_: bool, g: nat, outcome: Outcome)
    | Receive(old_: bool, g: nat)
    | Unlock

  function Init(checks: seq<Check>): State { State(checks, false, 0, [], [], [], 0, []) }

  predicate Enabled(s: State, a: Action) {
    match a
    case Reload(_) => !s.locked
    case Lock(_) => !s.locked && s.checks != []
    case Spawn => s.locked && |s.current| < |s.checks|
    case Finish(o, g, _) => g < |s.Pool(o)| && s.Pool(o)[g].stage.Running?
    case Receive(o, g) =>
      s.locked && |s.current| >= |s.checks| && s.idx < |s.buf| && g < |s.Pool(o)| && s.Pool(o)[g].stage.Sending?
    case Unlock => s.locked && |s.current| >= |s.checks| && s.idx >= |s.buf|
  }

  /** A reused buffer keeps whatever it held; a new one holds zero values. */
  function Buffer(old_: seq<Result>, n: nat): seq<Result> {
    if |old_| == n then old_ else seq(n, _ => Result(0, 0, 0, Fail, 0))
  }

  function Apply(s: State, a: Action): State
    requires Enabled(s, a)
  {
    match a
    case Reload(cs) => s.(checks := cs)
    case Lock(stamp) =>
      s.(locked := true, stamp := stamp, older := s.older + s.current, current := [],
         buf := Buffer(s.buf, |s.checks|), idx := 0)
    case Spawn => s.(current := s.current + [Goroutine(s.checks[|s.current|], s.stamp, Running)])
    case Finish(o, g, outcome) =>
      s.WithPool(o, s.Pool(o)[g := s.Pool(o)[g].(stage := Sending(outcome))])
    case Receive(o, g) =>
      var x := s.Pool(o)[g];
      s.WithPool(o, s.Pool(o)[g := x.(stage := Sent(x.stage.outcome))]).(
         buf := s.buf[s.idx := ResultOf(x.check, x.stamp, x.stage.outcome)],
         idx := s.idx + 1)
    case Unlock => s.(locked := false, history := s.history + [Done(s.stamp, s.checks, s.buf)])
  }

  ghost predicate Run(s: State, acts: seq<Action>, s': State)
    decreases |acts|
  {
    if acts == [] then s == s'
    else Enabled(s, acts[0]) && Run(Apply(s, acts[0]), acts[1..], s')
  }

  // --------------------------------------------------------------- invariant

  /** The results delivered by the goroutines from `from` on. */
  function Delivered(gs: seq<Goroutine>): seq<Result> {
    if gs == [] then [] else Delivered(gs[..|gs| - 1]) + FromOne(gs[|gs| - 1])
  }

  function FromOne(g: Goroutine): seq<Result> {
    if g.stage.Sent? then [ResultOf(g.check, g.stamp, g.stage.outcome)] else []
  }

  /** The same as a bag, and the bag of the first `n` places of a buffer. */
  function Sends(gs: seq<Goroutine>): multiset<Result> {
    if gs == [] then multiset{} else Sends(gs[..|gs| - 1]) + multiset(FromOne(gs[|gs| - 1]))
  }

  function Filled(buf: seq<Result>, n: nat): multiset<Result>
    requires n <= |buf|
  {
    if n == 0 then multiset{} else Filled(buf, n - 1) + multiset{buf[n - 1]}
  }

  ghost predicate AllSent(gs: seq<Goroutine>) {
    forall i :: 0 <= i < |gs| ==> gs[i].stage.Sent?
  }

  /** The current round's goroutines belong to its first checks, in order. */
  ghost predicate Belong(gs: seq<Goroutine>, checks: seq<Check>, stamp: int) {
    && |gs| <= |checks|
    && forall i :: 0 <= i < |gs| ==> gs[i].check == checks[i] && gs[i].stamp == stamp
  }

  /** One result for each check, each with the round's stamp and its command's own outcome. */
  ghost predicate Complete(d: Done) {
    exists outcomes ::
      |outcomes| == |d.checks| && multiset(d.results) == multiset(Expected(d.checks, d.stamp, outcomes))
  }

  ghost predicate AllComplete(history: seq<Done>) {
    forall i :: 0 <= i < |history| ==> Complete(history[i])
  }

  /** The filled part of the buffer holds what the current goroutines have delivered. */
  ghost predicate Collecting(gs: seq<Goroutine>, checks: seq<Check>, stamp: int, buf: seq<Result>, idx: nat) {
    && Belong(gs, checks, stamp)
    && |buf| == |checks|
    && idx <= |buf|
    && (|gs| < |checks| ==> idx == 0)
    && Filled(buf, idx) == Sends(gs)
  }

  ghost predicate Inv(s: State) {
    && AllComplete(s.history)
    && AllSent(s.older)
    && if s.locked then Collecting(s.current, s.checks, s.stamp, s.buf, s.idx) else AllSent(s.current)
  }

  lemma {:induction false} DeliveredSize(gs: seq<Goroutine>)
    ensures |Delivered(gs)| <= |gs|
    ensures |Delivered(gs)| == |gs| <==> AllSent(gs)
  {
    if gs != [] {
      DeliveredSize(gs[..|gs| - 1]);
      assert AllSent(gs) <==> AllSent(gs[..|gs| - 1]) && gs[|gs| - 1].stage.Sent?;
    }
  }

  lemma {:induction false} SendsDelivered(gs: seq<Goroutine>)
    ensures Sends(gs) == multiset(Delivered(gs))
  {
    if gs != [] {
      SendsDelivered(gs[..|gs| - 1]);
    }
  }

  lemma {:induction false} FilledIs(buf: seq<Result>, n: nat)
    requires n <= |buf|
    ensures Filled(buf, n) == multiset(buf[..n])
  {
    if n > 0 {
      FilledIs(buf, n - 1);
      assert buf[..n] == buf[..n - 1] + [buf[n - 1]];
    }
  }

  lemma {:induction false} FilledPrefix(a: seq<Result>, b: seq<Result>, n: nat)
    requires n <= |a| && n <= |b| && forall i :: 0 <= i < n ==> a[i] == b[i]
    ensures Filled(a, n) == Filled(b, n)
  {
    if n > 0 {
      FilledPrefix(a, b, n - 1);
    }
  }

  lemma Regroup<A>(a: seq<A>, b: seq<A>, c: seq<A>)
    ensures a + (b + c) == (a + b) + c
  {
  }

  lemma DeliveredSnoc(gs: seq<Goroutine>, g: Goroutine)
    ensures Delivered(gs + [g]) == Delivered(gs) + FromOne(g)
  {
    assert (gs + [g])[..|gs|] == gs;
  }

  lemma {:induction false} DeliveredJoin(a: seq<Goroutine>, b: seq<Goroutine>)
    ensures Delivered(a + b) == Delivered(a) + Delivered(b)
  {
    if b == [] {
      assert a + b == a;
    } else {
      var init, last := b[..|b| - 1], b[|b| - 1];
      assert a + b == (a + init) + [last];
      DeliveredJoin(a, init);
      DeliveredSnoc(a + init, last);
      Regroup(Delivered(a), Delivered(init), FromOne(last));
    }
  }

  lemma DeliveredAlone(x: Goroutine)
    ensures Delivered([x]) == FromOne(x)
  {
    assert [x][..0] == [];
  }

  lemma DeliveredAround(a: seq<Goroutine>, x: Goroutine, b: seq<Goroutine>)
    ensures Delivered(a + ([x] + b)) == Delivered(a) + (FromOne(x) + Delivered(b))
  {
    DeliveredJoin(a, [x] + b);
    DeliveredJoin([x], b);
    DeliveredAlone(x);
  }

  /** Delivering one more result. */
  lemma DeliverOne(gs: seq<Goroutine>, k: nat, o: Outcome)
    requires k < |gs| && gs[k].stage == Sending(o)
    ensures Sends(gs[k := gs[k].(stage := Sent(o))]) == Sends(gs) + multiset{ResultOf(gs[k].check, gs[k].stamp, o)}
  {
    var a, x, y, b := gs[..k], gs[k], gs[k].(stage := Sent(o)), gs[k + 1..];
    assert gs == a + ([x] + b) && gs[k := y] == a + ([y] + b);
    DeliveredAround(a, x, b);
    DeliveredAround(a, y, b);
    SendsDelivered(gs);
    SendsDelivered(gs[k := y]);
  }

  lemma {:induction false} DeliverNone(gs: seq<Goroutine>, after: seq<Goroutine>)
    requires |gs| == |after|
    requires forall i :: 0 <= i < |gs| ==>
               gs[i] == after[i] || (!gs[i].stage.Sent? && !after[i].stage.Sent?)
    ensures Sends(gs) == Sends(after)
  {
    if gs != [] {
      DeliverNone(gs[..|gs| - 1], after[..|gs| - 1]);
    }
  }

  lemma ExpectedSnoc(checks: seq<Check>, c: Check, stamp: int, outcomes: seq<Outcome>, o: Outcome)
    requires |outcomes| == |checks|
    ensures Expected(checks + [c], stamp, outcomes + [o]) == Expected(checks, stamp, outcomes) + [ResultOf(c, stamp, o)]
  {
  }

  /** All sent: what was delivered is one result per check. */
  lemma {:induction false} DeliveredAll(gs: seq<Goroutine>, checks: seq<Check>, stamp: int)
    returns (outcomes: seq<Outcome>)
    requires Belong(gs, checks, stamp) && AllSent(gs) && |gs| == |checks|
    ensures |outcomes| == |checks| && Delivered(gs) == Expected(checks, stamp, outcomes)
    ensures forall i :: 0 <= i < |gs| ==> outcomes[i] == gs[i].stage.outcome
  {
    if gs == [] {
      outcomes := [];
    } else {
      var n := |gs| - 1;
      var before := DeliveredAll(gs[..n], checks[..n], stamp);
      outcomes := before + [gs[n].stage.outcome];
      ExpectedSnoc(checks[..n], checks[n], stamp, before, gs[n].stage.outcome);
      assert checks == checks[..n] + [checks[n]];
    }
  }

  lemma SendsSnoc(gs: seq<Goroutine>, g: Goroutine)
    requires !g.stage.Sent?
    ensures Sends(gs + [g]) == Sends(gs)
  {
    assert (gs + [g])[..|gs|] == gs;
  }

  lemma BelongUpdate(gs: seq<Goroutine>, k: nat, stage: Stage, checks: seq<Check>, stamp: int)
    requires Belong(gs, checks, stamp) && k < |gs|
    ensures Belong(gs[k := gs[k].(stage := stage)], checks, stamp)
  {
  }

  lemma SpawnOne(gs: seq<Goroutine>, checks: seq<Check>, stamp: int, buf: seq<Result>, idx: nat)
    requires Collecting(gs, checks, stamp, buf, idx) && |gs| < |checks|
    ensures Collecting(gs + [Goroutine(checks[|gs|], stamp, Running)], checks, stamp, buf, idx)
  {
    SendsSnoc(gs, Goroutine(checks[|gs|], stamp, Running));
  }

  lemma FinishOne(gs: seq<Goroutine>, checks: seq<Check>, stamp: int, buf: seq<Result>, idx: nat, k: nat, o: Outcome)
    requires Collecting(gs, checks, stamp, buf, idx) && k < |gs| && gs[k].stage.Running?
    ensures Collecting(gs[k := gs[k].(stage := Sending(o))], checks, stamp, buf, idx)
  {
    BelongUpdate(gs, k, Sending(o), checks, stamp);
    DeliverNone(gs, gs[k := gs[k].(stage := Sending(o))]);
  }

  lemma CollectOne(gs: seq<Goroutine>, checks: seq<Check>, stamp: int, buf: seq<Result>, idx: nat, k: nat, o: Outcome)
    requires Collecting(gs, checks, stamp, buf, idx)
    requires idx < |buf| && k < |gs| == |checks| && gs[k].stage == Sending(o)
    ensures Collecting(gs[k := gs[k].(stage := Sent(o))], checks, stamp,
                       buf[idx := ResultOf(gs[k].check, gs[k].stamp, o)], idx + 1)
  {
    BelongUpdate(gs, k, Sent(o), checks, stamp);
    DeliverOne(gs, k, o);
    FilledPrefix(buf, buf[idx := ResultOf(gs[k].check, gs[k].stamp, o)], idx);
  }

  lemma AsSeqs(s: State)
    requires Collecting(s.current, s.checks, s.stamp, s.buf, s.idx)
    ensures multiset(s.buf[..s.idx]) == multiset(Delivered(s.current))
  {
    FilledIs(s.buf, s.idx);
    SendsDelivered(s.current);
  }

  lemma LastOneIn(s: State)
    requires Inv(s) && Enabled(s, Unlock)
    ensures AllSent(s.current) && Complete(Done(s.stamp, s.checks, s.buf))
  {
    AsSeqs(s);
    assert s.buf[..s.idx] == s.buf;
    BagSize(s.buf, Delivered(s.current));
    DeliveredSize(s.current);
    var outcomes := DeliveredAll(s.current, s.checks, s.stamp);
  }

  lemma BagSize<A>(a: seq<A>, b: seq<A>)
    requires multiset(a) == multiset(b)
    ensures |a| == |b|
  {
    assert |multiset(a)| == |a| && |multiset(b)| == |b|;
  }

  lemma FinishStep(s: State, old_: bool, g: nat, o: Outcome)
    requires Inv(s) && Enabled(s, Finish(old_, g, o))
    ensures Inv(Apply(s, Finish(old_, g, o)))
  {
    FinishOne(s.current, s.checks, s.stamp, s.buf, s.idx, g, o);
  }

  lemma Received(s: State, old_: bool, g: nat) returns (o: Outcome)
    requires Inv(s) && Enabled(s, Receive(old_, g))
    ensures !old_ && g < |s.current| == |s.checks| && s.current[g].stage == Sending(o)
    ensures var x := s.current[g];
            Apply(s, Receive(old_, g)) ==
            s.(current := s.current[g := x.(stage := Sent(o))],
               buf := s.buf[s.idx := ResultOf(x.check, x.stamp, o)], idx := s.idx + 1)
  {
    o := s.Pool(old_)[g].stage.outcome;
  }

  lemma ReceiveStep(s: State, old_: bool, g: nat)
    requires Inv(s) && Enabled(s, Receive(old_, g))
    ensures Inv(Apply(s, Receive(old_, g)))
  {
    var o := Received(s, old_, g);
    var x := s.current[g];
    CollectOne(s.current, s.checks, s.stamp, s.buf, s.idx, g, o);
    Refilled(s, s.current[g := x.(stage := Sent(o))], s.buf[s.idx := ResultOf(x.check, x.stamp, o)], s.idx + 1);
  }

  lemma Refilled(s: State, gs: seq<Goroutine>, buf: seq<Result>, idx: nat)
    requires Inv(s) && s.locked && Collecting(gs, s.checks, s.stamp, buf, idx)
    ensures Inv(s.(current := gs, buf := buf, idx := idx))
  {
  }

  lemma LockStep(s: State, stamp: int)
    requires Inv(s) && Enabled(s, Lock(stamp))
    ensures Inv(Apply(s, Lock(stamp)))
  {
  }

  lemma SpawnStep(s: State)
    requires Inv(s) && Enabled(s, Spawn)
    ensures Inv(Apply(s, Spawn))
  {
    SpawnOne(s.current, s.checks, s.stamp, s.buf, s.idx);
  }

  lemma UnlockStep(s: State)
    requires Inv(s) && Enabled(s, Unlock)
    ensures Inv(Apply(s, Unlock))
  {
    LastOneIn(s);
  }

  lemma InvStep(s: State, a: Action)
    requires Inv(s) && Enabled(s, a)
    ensures Inv(Apply(s, a))
  {
    match a
    case Reload(_) =>
    case Lock(stamp) => LockStep(s, stamp);
    case Spawn => SpawnStep(s);
    case Finish(o, g, outcome) => FinishStep(s, o, g, outcome);
    case Receive(o, g) => ReceiveStep(s, o, g);
    case Unlock => UnlockStep(s);
  }

  lemma {:induction false} InvRun(s: State, acts: seq<Action>, s': State)
    requires Inv(s) && Run(s, acts, s')
    ensures Inv(s')
    decreases |acts|
  {
    if acts != [] {
      InvStep(s, acts[0]);
      InvRun(Apply(s, acts[0]), acts[1..], s');
    }
  }

  // ----------------------------------------------------------------- results

  /** However goroutines, collector and reloads interleave, every finished round holds exactly one result per check
      that was active, with that round's stamp and nothing left over from an earlier one. */
  lemma RoundsComplete(checks: seq<Check>, acts: seq<Action>, s: State)
    requires Run(Init(checks), acts, s)
    ensures forall i :: 0 <= i < |s.history| ==> Complete(s.history[i])
    ensures forall i, j :: 0 <= i < |s.history| && 0 <= j < |s.history[i].results| ==>
              s.history[i].results[j].createdAt == s.history[i].stamp
    ensures forall i :: 0 <= i < |s.history| ==> |s.history[i].results| == |s.history[i].checks|
  {
    InvRun(Init(checks), acts, s);
    forall i | 0 <= i < |s.history|
      ensures |s.history[i].results| == |s.history[i].checks|
      ensures forall j :: 0 <= j < |s.history[i].results| ==> s.history[i].results[j].createdAt == s.history[i].stamp
    {
      var d := s.history[i];
      assert Complete(d);
      var outcomes :|
        |outcomes| == |d.checks| && multiset(d.results) == multiset(Expected(d.checks, d.stamp, outcomes));
      BagSize(d.results, Expected(d.checks, d.stamp, outcomes));
      forall j | 0 <= j < |d.results| ensures d.results[j].createdAt == d.stamp {
        assert d.results[j] in multiset(Expected(d.checks, d.stamp, outcomes));
      }
    }
  }

  // ----------------------------------------------- which results a round holds

  /** How the command of goroutine `g` of the current round ended, by the steps of a run. */
  function FinishOf(acts: seq<Action>, g: nat): Option<Outcome> {
    if acts == [] then None
    else
      match FinishOf(acts[1..], g)
      case Some(o) => Some(o)
      case None =>
        if acts[0].Finish? && !acts[0].old_ && acts[0].g == g then Some(acts[0].outcome) else None
  }

  function OutcomeIn(s: State, g: nat): Option<Outcome> {
    if g < |s.current| && !s.current[g].stage.Running? then Some(s.current[g].stage.outcome) else None
  }

  lemma OutcomeStep(s: State, a: Action, g: nat)
    requires Enabled(s, a) && !a.Lock?
    ensures OutcomeIn(Apply(s, a), g)
         == if a.Finish? && !a.old_ && a.g == g then Some(a.outcome) else OutcomeIn(s, g)
  {
  }

  lemma {:induction false} OutcomesFollow(s: State, acts: seq<Action>, s': State, g: nat)
    requires Run(s, acts, s') && forall i :: 0 <= i < |acts| ==> !acts[i].Lock?
    ensures OutcomeIn(s', g) == if FinishOf(acts, g).Some? then FinishOf(acts, g) else OutcomeIn(s, g)
    decreases |acts|
  {
    if acts != [] {
      OutcomeStep(s, acts[0], g);
      OutcomesFollow(Apply(s, acts[0]), acts[1..], s', g);
    }
  }

  lemma {:induction false} StaysInRound(s: State, acts: seq<Action>, s': State)
    requires Run(s, acts, s') && forall i :: 0 <= i < |acts| ==> !acts[i].Lock?
    ensures s'.locked ==> s.locked && s'.checks == s.checks && s'.stamp == s.stamp && s'.history == s.history
    decreases |acts|
  {
    if acts != [] {
      StaysInRound(Apply(s, acts[0]), acts[1..], s');
    }
  }

  /** A finished round, from its lock to its unlocking, in any reachable state: it holds one result for each of the
      checks there were when it began, with its stamp, and a check's result is that of how its own command ended. */
  lemma RoundHoldsItsExits(checks: seq<Check>, before: seq<Action>, s: State, stamp: int, acts: seq<Action>, s': State)
    returns (outcomes: seq<Outcome>)
    requires Run(Init(checks), before, s) && Enabled(s, Lock(stamp)) && Run(Apply(s, Lock(stamp)), acts, s')
    requires (forall i :: 0 <= i < |acts| ==> !acts[i].Lock?) && Enabled(s', Unlock)
    ensures |outcomes| == |s.checks| && forall g: nat :: g < |outcomes| ==> FinishOf(acts, g) == Some(outcomes[g])
    ensures Apply(s', Unlock).history == s.history + [Done(stamp, s.checks, s'.buf)] && !Apply(s', Unlock).locked
    ensures multiset(s'.buf) == multiset(Expected(s.checks, stamp, outcomes))
  {
    InvRun(Init(checks), before, s);
    var begun := Apply(s, Lock(stamp));
    InvStep(s, Lock(stamp));
    InvRun(begun, acts, s');
    StaysInRound(begun, acts, s');
    outcomes := LastOutcomes(s');
    forall g: nat | g < |outcomes| ensures FinishOf(acts, g) == Some(outcomes[g]) {
      OutcomesFollow(begun, acts, s', g);
    }
  }

  lemma LastOutcomes(s: State) returns (outcomes: seq<Outcome>)
    requires Inv(s) && Enabled(s, Unlock)
    ensures |outcomes| == |s.checks| == |s.current|
    ensures multiset(s.buf) == multiset(Expected(s.checks, s.stamp, outcomes))
    ensures forall g: nat :: g < |outcomes| ==> OutcomeIn(s, g) == Some(outcomes[g])
  {
    AsSeqs(s);
    assert s.buf[..s.idx] == s.buf;
    BagSize(s.buf, Delivered(s.current));
    DeliveredSize(s.current);
    outcomes := DeliveredAll(s.current, s.checks, s.stamp);
  }

  /** A round in its straightest course: all spawned, then each finishing and received in turn. */
  ghost predicate InTurn(s: State) {
    && s.locked && |s.buf| == |s.checks| && s.idx <= |s.current| <= |s.checks|
    && (|s.current| < |s.checks| ==> s.idx == 0)
    && (forall i :: 0 <= i < s.idx ==> s.current[i].stage.Sent?)
    && (forall i :: s.idx <= i < |s.current| ==> s.current[i].stage.Running?)
  }

  lemma {:induction false} Completed(s: State, outcomes: seq<Outcome>) returns (acts: seq<Action>, s': State)
    requires InTurn(s) && |outcomes| == |s.checks|
    ensures Run(s, acts, s') && Enabled(s', Unlock)
    ensures forall i :: 0 <= i < |acts| ==> acts[i].Spawn? || acts[i].Finish? || acts[i].Receive?
    ensures forall g: nat :: s.idx <= g < |outcomes| ==> FinishOf(acts, g) == Some(outcomes[g])
    decreases |s.checks| - |s.current|, |s.checks| - s.idx
  {
    if |s.current| < |s.checks| {
      var rest;
      rest, s' := Completed(Apply(s, Spawn), outcomes);
      acts := [Spawn] + rest;
      assert acts[1..] == rest;
    } else if s.idx < |s.checks| {
      var k, o := s.idx, outcomes[s.idx];
      var finished := Apply(s, Finish(false, k, o));
      var rest;
      rest, s' := Completed(Apply(finished, Receive(false, k)), outcomes);
      var received := [Receive(false, k)] + rest;
      acts := [Finish(false, k, o)] + received;
      assert received[1..] == rest && acts[1..] == received;
      assert Run(finished, received, s');
      forall g: nat | s.idx <= g < |outcomes| ensures FinishOf(acts, g) == Some(outcomes[g]) {
        assert FinishOf(received, g) == FinishOf(rest, g);
        if g == k {
          NotFinishedTwice(rest, s', Apply(finished, Receive(false, k)), k);
        }
      }
    } else {
      acts, s' := [], s;
    }
  }

  /** A goroutine that has sent does not finish again. */
  lemma {:induction false} NotFinishedTwice(acts: seq<Action>, s': State, s: State, g: nat)
    requires Run(s, acts, s') && g < |s.current| && s.current[g].stage.Sent?
    requires forall i :: 0 <= i < |acts| ==> !acts[i].Lock?
    ensures FinishOf(acts, g) == None
    decreases |acts|
  {
    if acts != [] {
      NotFinishedTwice(acts[1..], s', Apply(s, acts[0]), g);
    }
  }

  function LastReload(checks: seq<Check>, acts: seq<Action>): seq<Check>
    decreases |acts|
  {
    if acts == [] then checks
    else LastReload(if acts[0].Reload? then acts[0].checks else checks, acts[1..])
  }

  /** The checks are those of the last reload, which nothing else touches. */
  lemma {:induction false} ChecksAreReloaded(s: State, acts: seq<Action>, s': State)
    requires Run(s, acts, s')
    ensures s'.checks == LastReload(s.checks, acts)
    decreases |acts|
  {
    if acts != [] {
      ChecksAreReloaded(Apply(s, acts[0]), acts[1..], s');
    }
  }

  /** Between rounds no goroutine is left that could send into a later one, and within one no older goroutine is. */
  lemma NoStraySender(checks: seq<Check>, acts: seq<Action>, s: State)
    requires Run(Init(checks), acts, s)
    ensures forall old_: bool, g: nat :: old_ || !s.locked ==> !Enabled(s, Receive(old_, g))
    ensures forall old_: bool, g: nat, o :: old_ || !s.locked ==> !Enabled(s, Finish(old_, g, o))
    ensures s.locked ==> |s.current| <= |s.checks|
  {
    InvRun(Init(checks), acts, s);
    assert forall old_: bool, i :: (old_ || !s.locked) && 0 <= i < |s.Pool(old_)| ==> s.Pool(old_)[i].stage.Sent?;
  }

  function Weight(gs: seq<Goroutine>): nat {
    if gs == [] then 0
    else
      Weight(gs[..|gs| - 1]) + match gs[|gs| - 1].stage case Running => 2 case Sending(_) => 1 case Sent(_) => 0
  }

  /** The steps a round still has to take. */
  function Work(s: State): nat {
    if s.locked then 1 + Weight(s.current) + 3 * if |s.checks| > |s.current| then |s.checks| - |s.current| else 0
    else 0
  }

  lemma SomeStep(s: State) returns (a: Action)
    requires Inv(s) && s.locked
    ensures !a.Reload? && !a.Lock? && Enabled(s, a)
  {
    if |s.current| < |s.checks| {
      return Spawn;
    } else if s.idx == |s.buf| {
      return Unlock;
    }
    AsSeqs(s);
    BagSize(s.buf[..s.idx], Delivered(s.current));
    DeliveredSize(s.current);
    var k: nat :| k < |s.current| && !s.current[k].stage.Sent?;
    a := if s.current[k].stage.Sending? then Receive(false, k) else Finish(false, k, TimedOut);
  }

  /** A round cannot get stuck: while it lasts, some step of it is possible as soon as its commands end or
      time out, reloads are not, and each of its steps leaves less to do. */
  lemma RoundFinishes(checks: seq<Check>, acts: seq<Action>, s: State, next: Action)
    requires Run(Init(checks), acts, s) && s.locked
    ensures exists a: Action :: !a.Reload? && !a.Lock? && Enabled(s, a)
    ensures next.Reload? ==> !Enabled(s, next)
    ensures Enabled(s, next) ==> Work(Apply(s, next)) < Work(s)
  {
    InvRun(Init(checks), acts, s);
    var a := SomeStep(s);
    if Enabled(s, next) {
      WorkShrinks(s, next);
    }
  }

  lemma {:induction false} WorkOfStage(gs: seq<Goroutine>, k: nat, stage: Stage)
    requires k < |gs| && (if stage.Sending? then gs[k].stage.Running? else stage.Sent? && gs[k].stage.Sending?)
    ensures Weight(gs[k := gs[k].(stage := stage)]) + 1 == Weight(gs)
  {
    var n := |gs| - 1;
    var after := gs[k := gs[k].(stage := stage)];
    if k < n {
      WorkOfStage(gs[..n], k, stage);
      assert after[..n] == gs[..n][k := gs[k].(stage := stage)];
    } else {
      assert after[..n] == gs[..n];
    }
  }

  lemma WorkOfSpawn(gs: seq<Goroutine>, g: Goroutine)
    requires g.stage.Running?
    ensures Weight(gs + [g]) == Weight(gs) + 2
  {
    assert (gs + [g])[..|gs|] == gs;
  }

  lemma WorkShrinks(s: State, a: Action)
    requires Inv(s) && s.locked && Enabled(s, a)
    ensures Work(Apply(s, a)) < Work(s)
  {
    match a
    case Spawn => WorkOfSpawn(s.current, Goroutine(s.checks[|s.current|], s.stamp, Running));
    case Finish(_, g, o) => WorkOfStage(s.current, g, Sending(o));
    case Receive(_, g) => WorkOfStage(s.current, g, Sent(s.current[g].stage.outcome));
    case Unlock =>
  }
}
