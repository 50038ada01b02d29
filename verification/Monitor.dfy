/** The service monitor's own state: which checks are active, which wait for their start, and the results
    buffer it reuses from round to round. */
module Monitor {
  import opened Relational
  import opened Results

  datatype Check = Check(team: int, service: int, startsAt: int)

  /** How a check command can end. */
  datatype Outcome = NotStarted | Exited(code: int) | TimedOut

  /** Cyboard's README says only exit code 2 is a failure; the code makes every other code one. */
  function ResultOf(c: Check, stamp: int, o: Outcome): Result {
    match o
    case NotStarted => Result(stamp, c.team, c.service, Timeout, 127)
    case TimedOut => Result(stamp, c.team, c.service, Timeout, 129)
    case Exited(code) =>
      Result(stamp, c.team, c.service, if code == 0 then Pass else if code == 1 then Partial else Fail, code)
  }

  /** A pass is an exit with 0, a warning one with 1; what did not run or did not end in time is a timeout;
      anything else fails. The exit code is kept, with codes of the monitor's own where there was none. */
  lemma ResultMeans(c: Check, stamp: int, o: Outcome)
    ensures var r := ResultOf(c, stamp, o);
            && r.createdAt == stamp && r.team == c.team && r.service == c.service
            && (r.status == Pass <==> o == Exited(0))
            && (r.status == Partial <==> o == Exited(1))
            && (r.status == Timeout <==> o == NotStarted || o == TimedOut)
            && (r.status == Fail <==> o.Exited? && o.code != 0 && o.code != 1)
            && (o.Exited? ==> r.exitCode == o.code)
            && (o == NotStarted ==> r.exitCode == 127) && (o == TimedOut ==> r.exitCode == 129)
  {
  }

  /** Teams and services are joined once each. */
  ghost predicate Keyed(checks: seq<Check>) {
    forall i, j :: 0 <= i < j < |checks| ==> checks[i].team != checks[j].team || checks[i].service != checks[j].service
  }

  /** One result for each check, in the order of the checks. */
  function Expected(checks: seq<Check>, stamp: int, outcomes: seq<Outcome>): (r: seq<Result>)
    requires |outcomes| == |checks|
    ensures |r| == |checks|
  {
    seq(|checks|, i requires 0 <= i < |checks| => ResultOf(checks[i], stamp, outcomes[i]))
  }

  /** Results that are those of the checks, in whatever order, hold a pass for a check
      if and only if its command exited with 0. */
  lemma PassIffExitZero(checks: seq<Check>, stamp: int, outcomes: seq<Outcome>, results: seq<Result>, g: nat)
    requires |outcomes| == |checks| && g < |checks| && Keyed(checks)
    requires multiset(results) == multiset(Expected(checks, stamp, outcomes))
    ensures (exists r :: r in results && IsPass(r, checks[g].team, checks[g].service)) <==> outcomes[g] == Exited(0)
  {
    var all := Expected(checks, stamp, outcomes);
    assert forall r :: r in results <==> r in multiset(all);
    ResultMeans(checks[g], stamp, outcomes[g]);
    assert all[g] == ResultOf(checks[g], stamp, outcomes[g]) && all[g] in multiset(all);
    if r :| r in results && IsPass(r, checks[g].team, checks[g].service) {
      var i :| 0 <= i < |all| && all[i] == r;
      ResultMeans(checks[i], stamp, outcomes[i]);
      assert i == g;
    }
  }

  function StartedBy(now: int): Check -> bool { (c: Check) => c.startsAt < now }

  function NotStartedBy(now: int): Check -> bool { (c: Check) => !(c.startsAt < now) }

  lemma {:induction false} WhereSplits(s: seq<Check>, now: int)
    ensures multiset(Where(s, StartedBy(now)) + Where(s, NotStartedBy(now))) == multiset(s)
  {
    if s != [] {
      WhereSplits(s[1..], now);
      assert s == [s[0]] + s[1..];
    }
  }

  lemma TakenOut<A>(s: seq<A>, k: nat)
    requires k < |s|
    ensures multiset(s) == multiset{s[k]} + multiset(s[..k] + s[k + 1..])
  {
    assert s == s[..k] + [s[k]] + s[k + 1..];
  }

  /** Fill the buffer with the results on the channel, whichever comes first. */
  method Collect(buf: array<Result>, results: seq<Result>)
    requires buf.Length == |results|
    modifies buf
    ensures multiset(buf[..]) == multiset(results)
  {
    var inFlight := results;
    ghost var got := [];
    for idx := 0 to buf.Length
      invariant |inFlight| == buf.Length - idx
      invariant got == buf[..idx]
      invariant multiset(got) + multiset(inFlight) == multiset(results)
    {
      var k: nat :| k < |inFlight|;
      TakenOut(inFlight, k);
      buf[idx] := inFlight[k];
      got := got + [inFlight[k]];
      inFlight := inFlight[..k] + inFlight[k + 1..];
    }
    assert buf[..buf.Length] == buf[..];
  }

  class ServiceMonitor {
    var checks: seq<Check>
    var unstarted: seq<Check>
    var resultsBuf: array<Result>

    constructor ()
      ensures checks == [] && unstarted == [] && resultsBuf.Length == 0 && fresh(resultsBuf)
    {
      checks, unstarted := [], [];
      resultsBuf := new Result[0];
    }

    /** Rebuild both lists from the checks just prepared. */
    method Reload(prepared: seq<Check>, now: int)
      modifies this`checks, this`unstarted
      ensures checks == Where(prepared, StartedBy(now))
      ensures unstarted == Where(prepared, NotStartedBy(now))
    {
      checks, unstarted := [], [];
      for i := 0 to |prepared|
        invariant checks == Where(prepared[..i], StartedBy(now))
        invariant unstarted == Where(prepared[..i], NotStartedBy(now))
      {
        var c := prepared[i];
        assert prepared[..i + 1] == prepared[..i] + [c];
        WhereAppend(prepared[..i], [c], StartedBy(now));
        WhereAppend(prepared[..i], [c], NotStartedBy(now));
        if now > c.startsAt {
          checks := checks + [c];
        } else {
          unstarted := unstarted + [c];
        }
      }
      assert prepared[..|prepared|] == prepared;
    }

    /** Move every check whose time has come, removing from the list while walking it. */
    method Activate(now: int)
      modifies this`checks, this`unstarted
      ensures checks == old(checks) + Where(old(unstarted), StartedBy(now))
      ensures unstarted == Where(old(unstarted), NotStartedBy(now))
    {
      ghost var was := unstarted;
      ghost var seen := 0;
      var i := 0;
      while i < |unstarted|
        invariant 0 <= i <= |unstarted| && 0 <= seen <= |was|
        invariant checks == old(checks) + Where(was[..seen], StartedBy(now))
        invariant unstarted[..i] == Where(was[..seen], NotStartedBy(now))
        invariant unstarted[i..] == was[seen..]
        decreases |was| - seen
      {
        var c := unstarted[i];
        assert c == was[seen] && was[..seen + 1] == was[..seen] + [c];
        WhereAppend(was[..seen], [c], StartedBy(now));
        WhereAppend(was[..seen], [c], NotStartedBy(now));
        assert unstarted[i + 1..] == was[seen + 1..] by {
          assert unstarted[i..][1..] == unstarted[i + 1..] && was[seen..][1..] == was[seen + 1..];
        }
        if now > c.startsAt {
          checks := checks + [c];
          unstarted := unstarted[..i] + unstarted[i + 1..];
          i := i - 1;
        }
        i := i + 1;
        seen := seen + 1;
      }
      assert |unstarted[i..]| == 0 && was[..seen] == was && unstarted[..i] == unstarted;
    }

    /** One round: the results come back in any order and fill the buffer, which is
        allocated anew only when the number of checks has changed. */
    method RunRound(stamp: int, outcomes: seq<Outcome>)
      requires |outcomes| == |checks|
      modifies this`resultsBuf, resultsBuf
      ensures |outcomes| == resultsBuf.Length
      ensures multiset(resultsBuf[..]) == multiset(Expected(checks, stamp, outcomes))
      ensures if old(resultsBuf).Length == |checks| then resultsBuf == old(resultsBuf) else fresh(resultsBuf)
    {
      if resultsBuf.Length != |checks| {
        resultsBuf := new Result[|checks|];
      }
      Collect(resultsBuf, Expected(checks, stamp, outcomes));
    }
  }
}
