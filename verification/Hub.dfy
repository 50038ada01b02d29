/** The broadcast hub: one publisher, many clients, a one-message buffer for each. A client whose
    buffer is full when a message comes is passed over. */
module Hub {
  import opened Common

  /** The hub's own state and methods; a connection's channel is the message it holds, if any. */
  class BroadcastHub<Message> {
    var conns: map<int, Option<Message>>
    var ts: int

    constructor (now: int)
      ensures conns == map[] && ts == now
    {
      conns, ts := map[], now;
    }

    method AddClient(ws: int)
      modifies this`conns
      ensures conns == old(conns)[ws := None]
    {
      conns := conns[ws := None];
    }

    method DelClient(ws: int)
      modifies this`conns
      ensures conns == old(conns) - {ws}
    {
      conns := conns - {ws};
    }

    /** Offer a message to every client in turn, in no particular order. */
    method Broadcast(message: Message)
      modifies this`conns
      ensures conns.Keys == old(conns).Keys
      ensures forall ws :: ws in conns ==>
                conns[ws] == if old(conns)[ws].None? then Some(message) else old(conns)[ws]
    {
      var pending := conns.Keys;
      while pending != {}
        invariant pending <= conns.Keys
        invariant conns.Keys == old(conns).Keys
        invariant forall ws :: ws in conns ==>
                    conns[ws] == if ws !in pending && old(conns)[ws].None? then Some(message) else old(conns)[ws]
        decreases pending
      {
        assert (forall ws :: ws !in pending) ==> pending == {};
        var ws :| ws in pending;
        if conns[ws].None? {
          conns := conns[ws := Some(message)];
        }
        pending := pending - {ws};
      }
    }

    /** One tick: the latest timestamp, or None if it could not be read, and
        the message made of the data, or None if that failed. */
    method Tick(latest: Option<int>, message: Option<Message>)
      modifies this
      ensures ts == if latest.Some? then latest.value else old(ts)
      ensures conns.Keys == old(conns).Keys
      ensures forall ws :: ws in conns ==>
                conns[ws] == if latest.Some? && latest.value != old(ts) && message.Some? && old(conns)[ws].None?
                             then message else old(conns)[ws]
    {
      if latest.None? || latest.value == ts {
        return;
      }
      ts := latest.value;
      if message.None? {
        return;
      }
      Broadcast(message.value);
    }
  }

  // ------------------------------------------------------------- whole runs

  /** Messages are numbered in the order they were broadcast. `joined` and `left` are how many had been
      broadcast when the client came and went, `skipped` how often it was passed over. */
  datatype Client = Client(joined: nat, got: seq<nat>, buf: Option<nat>, skipped: nat, left: Option<nat>) {
    /** Everything delivered to the client's channel, in order. */
    function Flow(): seq<nat> { got + if buf.Some? then [buf.value] else [] }
  }

  /** `pending` are the clients a broadcast under way has not reached; it holds the lock
      that joining and leaving need, while clients go on reading. */
  datatype State = State(ts: int, sent: nat, sentTs: int, clients: map<int, Client>, pending: set<int>)

  datatype Action =
    | Join(c: int)
    | Leave(c: int)
    | Read(c: int)
    | Poll(latest: int, ok: bool)
    | Offer(c: int)

  function Init(ts: int): State { State(ts, 0, ts, map[], {}) }

  function Connected(s: State): set<int> {
    set c | c in s.clients && s.clients[c].left.None?
  }

  predicate Enabled(s: State, a: Action) {
    match a
    case Join(c) => s.pending == {} && c !in s.clients
    case Leave(c) => s.pending == {} && c in Connected(s)
    case Read(c) => c in s.clients && s.clients[c].buf.Some?
    case Poll(_, _) => s.pending == {}
    case Offer(c) => c in s.pending && c in s.clients && s.sent > 0
  }

  function Apply(s: State, a: Action): State
    requires Enabled(s, a)
  {
    match a
    case Join(c) => s.(clients := s.clients[c := Client(s.sent, [], None, 0, None)])
    case Leave(c) => s.(clients := s.clients[c := s.clients[c].(left := Some(s.sent))])
    case Read(c) =>
      var x := s.clients[c];
      s.(clients := s.clients[c := x.(got := x.got + [x.buf.value], buf := None)])
    case Poll(latest, ok) =>
      if latest == s.ts then s
      else if !ok then s.(ts := latest)
      else s.(ts := latest, sent := s.sent + 1, sentTs := latest, pending := Connected(s))
    case Offer(c) =>
      var x := s.clients[c];
      var y := if x.buf.None? then x.(buf := Some(s.sent - 1)) else x.(skipped := x.skipped + 1);
      s.(clients := s.clients[c := y], pending := s.pending - {c})
  }

  ghost predicate Run(s: State, acts: seq<Action>, s': State)
    decreases |acts|
  {
    if acts == [] then s == s'
    else Enabled(s, acts[0]) && Run(Apply(s, acts[0]), acts[1..], s')
  }

  /** How many messages have been offered to a client so far. */
  function Offered(s: State, c: int): int
    requires c in s.clients
  {
    var x := s.clients[c];
    (if x.left.Some? then x.left.value else s.sent) - x.joined - if c in s.pending then 1 else 0
  }

  ghost predicate Ascending(s: seq<nat>) {
    forall i, j :: 0 <= i < j < |s| ==> s[i] < s[j]
  }

  ghost predicate ClientInv(s: State, c: int)
    requires c in s.clients
  {
    var x := s.clients[c];
    && Ascending(x.Flow())
    && (forall i :: 0 <= i < |x.Flow()| ==> x.joined <= x.Flow()[i] < x.joined + Offered(s, c))
    && |x.Flow()| + x.skipped == Offered(s, c)
    && x.joined <= s.sent
    && (x.left.Some? ==> x.joined <= x.left.value <= s.sent)
  }

  ghost predicate Inv(s: State) {
    && s.pending <= Connected(s)
    && (s.pending != {} ==> s.sent > 0)
    && forall c :: c in s.clients ==> ClientInv(s, c)
  }

  lemma OfferStep(s: State, c: int)
    requires Inv(s) && Enabled(s, Offer(c))
    ensures ClientInv(Apply(s, Offer(c)), c)
  {
    assert ClientInv(s, c);
    var s' := Apply(s, Offer(c));
    var x, x' := s.clients[c], s'.clients[c];
    assert c in Connected(s) && Offered(s', c) == Offered(s, c) + 1;
    assert x'.Flow() == if x.buf.None? then x.Flow() + [s.sent - 1] else x.Flow();
  }

  lemma ClientStep(s: State, a: Action, c: int)
    requires Inv(s) && Enabled(s, a) && c in s.clients
    ensures c in Apply(s, a).clients && ClientInv(Apply(s, a), c)
  {
    if a == Offer(c) {
      OfferStep(s, c);
    } else {
      assert ClientInv(s, c);
      var s' := Apply(s, a);
      assert s'.clients[c].Flow() == s.clients[c].Flow();
      assert Offered(s', c) == Offered(s, c);
    }
  }

  lemma InvStep(s: State, a: Action)
    requires Inv(s) && Enabled(s, a)
    ensures Inv(Apply(s, a))
  {
    var s' := Apply(s, a);
    forall c | c in s'.clients ensures ClientInv(s', c) {
      if c in s.clients {
        ClientStep(s, a, c);
      }
    }
  }

  lemma {:induction false} InvRun(s: State, acts: seq<Action>, s': State)
    requires Inv(s) && Run(s, acts, s')
    ensures Inv(s')
    decreases |acts|
  {
    if acts != [] {
      InvStep(s, acts[0]);
      InvRun(Apply(s, acts[0]), acts[1..], s');
    }
  }

  /** In every run, what reaches a client is an ascending selection, without repeats, of the messages broadcast while
      it was connected, and every message offered to it was received, is in its buffer, or was passed over. */
  lemma DeliveryInOrder(ts: int, acts: seq<Action>, s: State, c: int)
    requires Run(Init(ts), acts, s) && c in s.clients
    ensures var x := s.clients[c];
            && Ascending(x.Flow())
            && (forall i :: 0 <= i < |x.Flow()| ==> x.joined <= x.Flow()[i] < x.joined + Offered(s, c))
            && |x.Flow()| + x.skipped == Offered(s, c)
  {
    InvRun(Init(ts), acts, s);
    assert ClientInv(s, c);
  }

  /** Over any run what was delivered to a client, read or not, stays as it was, and what comes after it is newer. */
  lemma {:induction false} FlowGrows(s: State, acts: seq<Action>, s': State, c: int)
    requires Run(s, acts, s') && c in s.clients
    ensures c in s'.clients && s.clients[c].Flow() <= s'.clients[c].Flow()
    ensures var old_, now := s.clients[c].Flow(), s'.clients[c].Flow();
            forall i :: |old_| <= i < |now| ==> now[i] >= if c in s.pending then s.sent - 1 else s.sent
    decreases |acts|
  {
    if acts != [] {
      var next := Apply(s, acts[0]);
      FlowGrows(next, acts[1..], s', c);
      FlowStep(s, acts[0], c);
    }
  }

  lemma FlowStep(s: State, a: Action, c: int)
    requires Enabled(s, a) && c in s.clients
    ensures c in Apply(s, a).clients
    ensures Apply(s, a).clients[c].Flow()
         == s.clients[c].Flow() + if a == Offer(c) && s.clients[c].buf.None? then [s.sent - 1] else []
    ensures (if c in Apply(s, a).pending then Apply(s, a).sent - 1 else Apply(s, a).sent)
         >= if c in s.pending then s.sent - 1 else s.sent
  {
  }

  /** In every run a message reaches a client it was offered to if and only if that client's buffer was empty then. */
  lemma OfferDecides(ts: int, before: seq<Action>, s: State, c: int, after: seq<Action>, s': State)
    requires Run(Init(ts), before, s) && Enabled(s, Offer(c)) && Run(Apply(s, Offer(c)), after, s')
    ensures c in s'.clients
    ensures s.sent - 1 in s'.clients[c].Flow() <==> s.clients[c].buf.None?
  {
    InvRun(Init(ts), before, s);
    assert ClientInv(s, c);
    FlowStep(s, Offer(c), c);
    FlowGrows(Apply(s, Offer(c)), after, s', c);
    var was, flow := Apply(s, Offer(c)).clients[c].Flow(), s'.clients[c].Flow();
    assert forall i :: 0 <= i < |was| ==> flow[i] == was[i];
    if s.clients[c].buf.None? {
      assert flow[|was| - 1] == s.sent - 1;
    }
  }

  lemma {:induction false} GoneGetsNothing(s: State, acts: seq<Action>, s': State, c: int)
    requires Run(s, acts, s') && c in s.clients && c !in Connected(s) && c !in s.pending
    ensures c in s'.clients && s'.clients[c].Flow() == s.clients[c].Flow()
    decreases |acts|
  {
    if acts != [] {
      FlowStep(s, acts[0], c);
      GoneGetsNothing(Apply(s, acts[0]), acts[1..], s', c);
    }
  }

  /** A client that has left is given nothing more. */
  lemma NothingAfterLeaving(s: State, c: int, after: seq<Action>, s': State)
    requires Enabled(s, Leave(c)) && Run(Apply(s, Leave(c)), after, s')
    ensures c in s'.clients && s'.clients[c].Flow() == s.clients[c].Flow()
  {
    GoneGetsNothing(Apply(s, Leave(c)), after, s', c);
  }

  /** The offers of one broadcast together do what the hub's own method does: each client with an empty buffer gets
      the message, and every other keeps what it had. */
  lemma {:induction false} OffersAreBroadcast(s: State, offers: seq<Action>, s': State)
    requires Run(s, offers, s') && s'.pending == {} && forall i :: 0 <= i < |offers| ==> offers[i].Offer?
    ensures s'.clients.Keys == s.clients.Keys
    ensures forall c :: c in s.clients ==>
              s'.clients[c].buf ==
              if c in s.pending && s.clients[c].buf.None? then Some(s.sent - 1) else s.clients[c].buf
    ensures forall c :: c in s.clients ==> s'.clients[c].got == s.clients[c].got
    decreases |offers|
  {
    if offers != [] {
      OffersAreBroadcast(Apply(s, offers[0]), offers[1..], s');
    }
  }

  lemma AscendingIsRange(s: seq<nat>, lo: nat)
    requires Ascending(s) && forall i :: 0 <= i < |s| ==> lo <= s[i] < lo + |s|
    ensures forall i :: 0 <= i < |s| ==> s[i] == lo + i
  {
    forall i | 0 <= i < |s| ensures s[i] == lo + i {
      AtLeast(s, lo, i);
      AtMost(s, lo, |s| - 1 - i);
    }
  }

  lemma {:induction false} AtLeast(s: seq<nat>, lo: nat, i: nat)
    requires Ascending(s) && i < |s| && lo <= s[0]
    ensures s[i] >= lo + i
  {
    if i > 0 {
      AtLeast(s, lo, i - 1);
    }
  }

  lemma {:induction false} AtMost(s: seq<nat>, lo: nat, back: nat)
    requires Ascending(s) && back < |s| && s[|s| - 1] < lo + |s|
    ensures s[|s| - 1 - back] < lo + |s| - back
  {
    if back > 0 {
      AtMost(s, lo, back - 1);
    }
  }

  /** A client whose buffer was empty whenever a message came has been given every
      message since it joined, each once. */
  lemma PromptClientGetsAll(ts: int, acts: seq<Action>, s: State, c: int)
    requires Run(Init(ts), acts, s) && c in s.clients && s.clients[c].skipped == 0
    ensures var x := s.clients[c];
            |x.Flow()| == Offered(s, c) && forall i :: 0 <= i < |x.Flow()| ==> x.Flow()[i] == x.joined + i
  {
    DeliveryInOrder(ts, acts, s, c);
    AscendingIsRange(s.clients[c].Flow(), s.clients[c].joined);
  }

  // ------------------------------------------------- is the last broadcast current

  /** A poll that found a new timestamp, and the state it found it in. */
  datatype Move = Move(from: State, latest: int, ok: bool)

  ghost function LastMove(s: State, acts: seq<Action>, s': State): Option<Move>
    requires Run(s, acts, s')
    decreases |acts|
  {
    if acts == [] then None
    else
      match LastMove(Apply(s, acts[0]), acts[1..], s')
      case Some(m) => Some(m)
      case None => if acts[0].Poll? && acts[0].latest != s.ts then Some(Move(s, acts[0].latest, acts[0].ok)) else None
  }

  lemma {:induction false} QuietKeepsTimestamps(s: State, acts: seq<Action>, s': State)
    requires Run(s, acts, s') && LastMove(s, acts, s').None?
    ensures s'.ts == s.ts && s'.sentTs == s.sentTs && s'.sent == s.sent
    decreases |acts|
  {
    if acts != [] {
      QuietKeepsTimestamps(Apply(s, acts[0]), acts[1..], s');
    }
  }

  /** The hub remembers a timestamp before it has the data for it. So the last broadcast is of the timestamp it holds
      exactly when none was new, or the last new one came with its data, or it was that of the last broadcast again. */
  lemma BroadcastIsCurrent(s: State, acts: seq<Action>, s': State)
    requires Run(s, acts, s') && s.sentTs == s.ts
    ensures s'.sentTs == s'.ts <==>
            match LastMove(s, acts, s')
            case None => true
            case Some(m) => m.ok || m.latest == m.from.sentTs
  {
    CurrentFrom(s, acts, s');
  }

  lemma {:induction false} CurrentFrom(s: State, acts: seq<Action>, s': State)
    requires Run(s, acts, s')
    ensures s'.sentTs == s'.ts <==>
            match LastMove(s, acts, s')
            case None => s.sentTs == s.ts
            case Some(m) => m.ok || m.latest == m.from.sentTs
    decreases |acts|
  {
    if acts != [] {
      var next := Apply(s, acts[0]);
      CurrentFrom(next, acts[1..], s');
      if LastMove(next, acts[1..], s').None? {
        QuietKeepsTimestamps(next, acts[1..], s');
      }
    }
  }

  /** A change whose data could not be fetched is forgotten: from any reachable state, as long as polls
      go on finding that timestamp, nothing is broadcast and no client's channel gets anything. */
  lemma FailedFetchIsForgotten(ts: int, before: seq<Action>, m: State, latest: int, after: seq<Action>, s: State)
    requires Run(Init(ts), before, m) && Enabled(m, Poll(latest, false)) && latest != m.ts
    requires Run(Apply(m, Poll(latest, false)), after, s)
    requires forall i :: 0 <= i < |after| && after[i].Poll? ==> after[i].latest == latest
    ensures s.ts == latest && s.sent == m.sent && s.sentTs == m.sentTs
    ensures forall c :: c in m.clients ==> c in s.clients && s.clients[c].Flow() == m.clients[c].Flow()
    ensures forall c :: c in s.clients && c !in m.clients ==> s.clients[c].Flow() == []
  {
    InvRun(Init(ts), before, m);
    var start := Apply(m, Poll(latest, false));
    assert Inv(start) by {
      InvStep(m, Poll(latest, false));
    }
    NothingArrives(start, after, s);
  }

  lemma {:induction false} NothingArrives(s: State, acts: seq<Action>, s': State)
    requires Run(s, acts, s') && s.pending == {}
    requires forall i :: 0 <= i < |acts| && acts[i].Poll? ==> acts[i].latest == s.ts
    ensures s'.ts == s.ts && s'.sent == s.sent && s'.sentTs == s.sentTs
    ensures forall c :: c in s.clients ==> c in s'.clients && s'.clients[c].Flow() == s.clients[c].Flow()
    ensures forall c :: c in s'.clients && c !in s.clients ==> s'.clients[c].Flow() == []
    decreases |acts|
  {
    if acts != [] {
      var next := Apply(s, acts[0]);
      assert next.pending == {} && next.ts == s.ts;
      NothingArrives(next, acts[1..], s');
    }
  }
}
