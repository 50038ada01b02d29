/** Which checks are active over a whole run of reloads and activations. */
module Activation {
  import opened Common
  import opened Relational
  import opened Monitor

  /** `prepared` is the list of the last reload; `horizon` the latest instant that any reload or
      activation since then has compared starts with. */
  datatype State = State(clock: int, checks: seq<Check>, unstarted: seq<Check>, prepared: seq<Check>, horizon: int)

  /** A round activates with a stamp it read before its jitter, a reload with the time it is. */
  datatype Action = Elapse(d: nat) | Reload(prepared: seq<Check>) | Activate(stamp: int)

  predicate Enabled(s: State, a: Action) { a.Activate? ==> a.stamp <= s.clock }

  function Apply(s: State, a: Action): State {
    match a
    case Elapse(d) => s.(clock := s.clock + d)
    case Reload(p) => State(s.clock, Where(p, StartedBy(s.clock)), Where(p, NotStartedBy(s.clock)), p, s.clock)
    case Activate(stamp) =>
      s.(checks := s.checks + Where(s.unstarted, StartedBy(stamp)),
         unstarted := Where(s.unstarted, NotStartedBy(stamp)),
         horizon := Max(s.horizon, stamp))
  }

  ghost predicate Run(s: State, acts: seq<Action>, s': State)
    decreases |acts|
  {
    if acts == [] then s == s' else Enabled(s, acts[0]) && Run(Apply(s, acts[0]), acts[1..], s')
  }

  function Init(t: int): State { State(t, [], [], [], t) }

  ghost predicate Inv(s: State) {
    && multiset(s.checks + s.unstarted) == multiset(s.prepared)
    && (forall c :: c in s.checks ==> c.startsAt < s.horizon)
    && (forall c :: c in s.unstarted ==> s.horizon <= c.startsAt)
    && s.horizon <= s.clock
  }

  lemma MovedBag(checks: seq<Check>, unstarted: seq<Check>, now: int)
    ensures multiset(checks + Where(unstarted, StartedBy(now)) + Where(unstarted, NotStartedBy(now)))
         == multiset(checks + unstarted)
  {
    WhereSplits(unstarted, now);
    var moved, kept := Where(unstarted, StartedBy(now)), Where(unstarted, NotStartedBy(now));
    assert checks + moved + kept == checks + (moved + kept);
  }

  lemma ReloadStep(s: State, prepared: seq<Check>)
    requires Inv(s)
    ensures Inv(Apply(s, Reload(prepared)))
  {
    WhereSplits(prepared, s.clock);
    WhereKeeps(prepared, StartedBy(s.clock));
    WhereKeeps(prepared, NotStartedBy(s.clock));
  }

  lemma ActivateStep(s: State, stamp: int)
    requires Inv(s) && stamp <= s.clock
    ensures Inv(Apply(s, Activate(stamp)))
  {
    var s' := Apply(s, Activate(stamp));
    assert multiset(s'.checks + s'.unstarted) == multiset(s'.prepared) by {
      MovedBag(s.checks, s.unstarted, stamp);
    }
    forall c | c in s'.checks ensures c.startsAt < s'.horizon {
      WhereKeeps(s.unstarted, StartedBy(stamp));
    }
    forall c | c in s'.unstarted ensures s'.horizon <= c.startsAt {
      WhereKeeps(s.unstarted, NotStartedBy(stamp));
    }
  }

  lemma InvStep(s: State, a: Action)
    requires Inv(s) && Enabled(s, a)
    ensures Inv(Apply(s, a))
  {
    match a
    case Elapse(_) =>
    case Reload(prepared) => ReloadStep(s, prepared);
    case Activate(stamp) => ActivateStep(s, stamp);
  }

  lemma {:induction false} InvRun(s: State, acts: seq<Action>, s': State)
    requires Inv(s) && Run(s, acts, s')
    ensures Inv(s')
    decreases |acts|
  {
    if acts != [] {
      InvStep(s, acts[0]);
      InvRun(Apply(s, acts[0]), acts[1..], s');
    }
  }

  /** In every run the two lists partition the last prepared list, and a check is active exactly when it
      started before the horizon, hence before the clock: no service is scored early. */
  lemma ActiveAreStarted(t: int, acts: seq<Action>, s: State)
    requires Run(Init(t), acts, s)
    ensures multiset(s.checks + s.unstarted) == multiset(s.prepared)
    ensures forall c :: c in s.prepared ==> (c in s.checks <==> c.startsAt < s.horizon)
    ensures forall c :: c in s.checks ==> c in s.prepared && c.startsAt < s.clock
  {
    InvRun(Init(t), acts, s);
    forall c ensures c in s.prepared <==> c in s.checks || c in s.unstarted {
      assert c in multiset(s.prepared) <==> c in multiset(s.checks + s.unstarted);
    }
  }

  lemma {:induction false} StaysActive(s: State, acts: seq<Action>, s': State)
    requires Run(s, acts, s')
    requires forall i :: 0 <= i < |acts| ==> !acts[i].Reload?
    ensures s.checks <= s'.checks && s'.prepared == s.prepared
    decreases |acts|
  {
    if acts != [] {
      StaysActive(Apply(s, acts[0]), acts[1..], s');
    }
  }

  /** Just after a round's activation nothing that is due waits any longer. Its active checks all start before
      its stamp exactly when no prepared check lies between the stamp and the horizon it found, which a reload
      during the jitter can have pushed past the stamp. */
  lemma StampAgainstReload(t: int, acts: seq<Action>, s: State, stamp: int)
    requires Run(Init(t), acts, s) && Enabled(s, Activate(stamp))
    ensures var s' := Apply(s, Activate(stamp));
            && (forall c :: c in s'.unstarted ==> stamp <= c.startsAt)
            && ((forall c :: c in s'.checks ==> c.startsAt < stamp)
                <==> forall c :: c in s.prepared ==> !(stamp <= c.startsAt < s.horizon))
  {
    InvRun(Init(t), acts, s);
    WhereKeeps(s.unstarted, StartedBy(stamp));
    WhereKeeps(s.unstarted, NotStartedBy(stamp));
    ActiveAreStarted(t, acts, s);
    var s' := Apply(s, Activate(stamp));
    if c :| c in s.prepared && stamp <= c.startsAt < s.horizon {
      assert c in s'.checks;
    }
  }

  /** And that does happen: stamp 5, a reload at 8 that finds a check due at 6, the round after. */
  lemma StampCanTrail() returns (acts: seq<Action>, s: State)
    ensures Run(Init(5), acts, s)
    ensures exists c :: c in s.checks && 5 <= c.startsAt && acts != [] && acts[|acts| - 1] == Activate(5)
  {
    var c := Check(1, 1, 6);
    var s1 := Apply(Init(5), Elapse(3));
    var s2 := Apply(s1, Reload([c]));
    s := Apply(s2, Activate(5));
    acts := [Elapse(3), Reload([c]), Activate(5)];
    assert Where([c][1..], StartedBy(8)) == [];
    assert s2.checks == [c] && s2.checks <= s.checks;
    assert acts[1..] == [Reload([c]), Activate(5)] && acts[1..][1..] == [Activate(5)] && acts[1..][1..][1..] == [];
    assert Run(s2, [Activate(5)], s);
    assert Run(s1, [Reload([c]), Activate(5)], s);
  }
}
