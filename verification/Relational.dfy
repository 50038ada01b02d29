/** The relational operators the queries use, on tables as sequences of rows. */
module Relational {
  import opened Common

  /** The rows of `bs` that join with `a`, in table order. */
  function Partners<A, B>(a: A, bs: seq<B>, on: (A, B) -> bool): seq<B> {
    if bs == [] then []
    else (if on(a, bs[0]) then [bs[0]] else []) + Partners(a, bs[1..], on)
  }

  function Matched<A, B>(a: A, ms: seq<B>): seq<(A, Option<B>)> {
    if ms == [] then [] else [(a, Some(ms[0]))] + Matched(a, ms[1..])
  }

  /** A left row with its partners, or with nothing. */
  function Joined<A, B>(a: A, ms: seq<B>): seq<(A, Option<B>)> {
    if ms == [] then [(a, None)] else Matched(a, ms)
  }

  /** `as LEFT JOIN bs ON on`. */
  function LeftJoin<A, B>(xs: seq<A>, bs: seq<B>, on: (A, B) -> bool): seq<(A, Option<B>)> {
    if xs == [] then []
    else Joined(xs[0], Partners(xs[0], bs, on)) + LeftJoin(xs[1..], bs, on)
  }

  function Where<A>(rows: seq<A>, keep: A -> bool): seq<A> {
    if rows == [] then []
    else (if keep(rows[0]) then [rows[0]] else []) + Where(rows[1..], keep)
  }

  function Count<A>(rows: seq<A>, p: A -> bool): nat {
    if rows == [] then 0 else (if p(rows[0]) then 1 else 0) + Count(rows[1..], p)
  }

  lemma {:induction false} PartnersAre<A, B>(a: A, bs: seq<B>, on: (A, B) -> bool, b: B)
    ensures b in Partners(a, bs, on) <==> b in bs && on(a, b)
  {
    if bs != [] {
      PartnersAre(a, bs[1..], on, b);
      assert bs == [bs[0]] + bs[1..];
    }
  }

  lemma {:induction false} NoPartners<A, B>(a: A, bs: seq<B>, on: (A, B) -> bool)
    ensures Partners(a, bs, on) == [] <==> forall b :: b in bs ==> !on(a, b)
  {
    if bs != [] {
      NoPartners(a, bs[1..], on);
      assert bs == [bs[0]] + bs[1..];
    }
  }

  lemma {:induction false} WhereKeeps<A>(rows: seq<A>, keep: A -> bool)
    ensures forall x :: x in Where(rows, keep) <==> x in rows && keep(x)
  {
    if rows != [] {
      WhereKeeps(rows[1..], keep);
      assert rows == [rows[0]] + rows[1..];
    }
  }

  lemma {:induction false} WhereAppend<A>(s: seq<A>, t: seq<A>, keep: A -> bool)
    ensures Where(s + t, keep) == Where(s, keep) + Where(t, keep)
  {
    if s == [] {
      assert s + t == t;
    } else {
      assert (s + t)[0] == s[0] && (s + t)[1..] == s[1..] + t;
      WhereAppend(s[1..], t, keep);
      var head := if keep(s[0]) then [s[0]] else [];
      assert head + (Where(s[1..], keep) + Where(t, keep)) == (head + Where(s[1..], keep)) + Where(t, keep);
    }
  }

  lemma {:induction false} MatchedHas<A, B>(x: A, ms: seq<B>, a: A, o: Option<B>)
    ensures (a, o) in Matched(x, ms) <==> a == x && o.Some? && o.value in ms
  {
    if ms != [] {
      MatchedHas(x, ms[1..], a, o);
      assert ms == [ms[0]] + ms[1..];
    }
  }

  lemma JoinedHas<A, B>(x: A, ms: seq<B>, a: A, o: Option<B>)
    ensures (a, o) in Joined(x, ms) <==>
            a == x && if o.Some? then o.value in ms else ms == []
  {
    MatchedHas(x, ms, a, o);
  }

  /** A row of the join is a left row with one of its partners, or with nothing if it has none. */
  lemma {:induction false} LeftJoinHas<A, B>(xs: seq<A>, bs: seq<B>, on: (A, B) -> bool, a: A, o: Option<B>)
    ensures (a, o) in LeftJoin(xs, bs, on) <==>
            a in xs && if o.Some? then o.value in bs && on(a, o.value) else forall b :: b in bs ==> !on(a, b)
  {
    if xs != [] {
      LeftJoinHas(xs[1..], bs, on, a, o);
      JoinedHas(xs[0], Partners(xs[0], bs, on), a, o);
      if o.Some? {
        PartnersAre(xs[0], bs, on, o.value);
      } else {
        NoPartners(xs[0], bs, on);
      }
      assert xs == [xs[0]] + xs[1..];
    }
  }

  lemma {:induction false} CountSplit<A>(s: seq<A>, t: seq<A>, p: A -> bool)
    ensures Count(s + t, p) == Count(s, p) + Count(t, p)
  {
    if s == [] {
      assert s + t == t;
    } else {
      assert (s + t)[0] == s[0] && (s + t)[1..] == s[1..] + t;
      CountSplit(s[1..], t, p);
    }
  }
}
