/** The stepwise flush of the protocol, when nothing comes in between, does to every connection
    what the sequential `SendMessages` does: every such run is one of its outcomes, and every
    outcome has such a run. */
module Refinement {
  import opened Messages
  import opened Queues
  import opened Links
  import opened Flushes
  import opened Protocol
  import opened Soundness

  ghost predicate Chain<S(!new), C>(step: (S, C, S) -> bool, chs: seq<C>, s: S, s': S) {
    if chs == [] then s == s'
    else exists mid :: step(s, chs[0], mid) && Chain(step, chs[1..], mid, s')
  }

  lemma {:induction false} Chained<S(!new), C>(step: (S, C, S) -> bool, a: seq<C>, b: seq<C>, s: S, mid: S, s': S)
    requires Chain(step, a, s, mid) && Chain(step, b, mid, s')
    ensures Chain(step, a + b, s, s')
  {
    if a == [] {
      assert a + b == b;
    } else {
      var next :| step(s, a[0], next) && Chain(step, a[1..], next, mid);
      Chained(step, a[1..], b, next, mid, s');
      assert (a + b)[1..] == a[1..] + b;
    }
  }

  /** A step within a flush. */
  ghost function StepOf(env: Env, t: nat): (State, Choice, State) -> bool {
    (s, ch, s') => CanAdvance(env, s, t, ch) && !s.threads[t].stage.Idle? && s' == Moved(env, s, t, ch)
  }

  /** Goroutine `t` alone takes these steps, all of them within one flush. */
  ghost predicate Alone(env: Env, t: nat, chs: seq<Choice>, s: State, s': State) {
    Chain(StepOf(env, t), chs, s, s')
  }

  lemma AloneThen(env: Env, t: nat, a: seq<Choice>, b: seq<Choice>, s: State, mid: State, s': State)
    requires Alone(env, t, a, s, mid) && Alone(env, t, b, mid, s')
    ensures Alone(env, t, a + b, s, s')
  {
    Chained(StepOf(env, t), a, b, s, mid, s');
  }

  lemma OneStep(env: Env, s: State, t: nat, ch: Choice) returns (s': State)
    requires CanAdvance(env, s, t, ch) && !s.threads[t].stage.Idle?
    ensures s' == Moved(env, s, t, ch) && Alone(env, t, [ch], s, s')
  {
    s' := Moved(env, s, t, ch);
    assert StepOf(env, t)(s, ch, s');
    assert Chain(StepOf(env, t), [ch][1..], s', s');
  }

  /** Nothing but links, tallies, offers and the stage of `t` has changed. */
  ghost predicate OnlyFlush(s: State, s': State, t: nat) {
    && |s'.conns| == |s.conns| && s'.store == s.store && s'.now == s.now
    && (forall c :: 0 <= c < |s.conns| ==> s'.conns[c].keys == s.conns[c].keys && s'.conns[c].registered == s.conns[c].registered)
    && t < |s.threads| == |s'.threads| && s'.threads[t].todo == s.threads[t].todo
    && forall u :: 0 <= u < |s.threads| && u != t ==> s'.threads[u] == s.threads[u]
  }

  const OK := Choice(true, [], [])
  const FAIL := Choice(false, [], [])

  /** The turn of connection `cs[j]` at message `q[i]`. */
  ghost predicate AtTurn(env: Env, s: State, t: nat, key: Key, cs: seq<nat>, q: Queue, i: nat, j: nat) {
    && t < |s.threads| && s.threads[t].stage == Walking(key, cs, q, i, j, Offer)
    && i < |q| && j <= |cs| && NoDuplicates(cs) && forall x :: 0 <= x < |cs| ==> cs[x] < |s.conns|
  }

  /** A whole turn is `OfferOne` on its connection. */
  lemma TurnAlone(env: Env, s: State, t: nat, key: Key, cs: seq<nat>, q: Queue, i: nat, j: nat, ok: bool)
    returns (chs: seq<Choice>, s': State)
    requires AtTurn(env, s, t, key, cs, q, i, j) && j < |cs|
    ensures Alone(env, t, chs, s, s') && OnlyFlush(s, s', t) && AtTurn(env, s', t, key, cs, q, i, j + 1)
    ensures forall c :: 0 <= c < |s.conns| ==>
              s'.conns[c].link == if c == cs[j] then OfferOne(s.conns[c].link, q[i].id, key, ok) else s.conns[c].link
  {
    s' := OneStep(env, s, t, OK);
    chs := [OK];
    if CanMark(s.conns[cs[j]].link, q[i].id) {
      var mid := s';
      assert mid.threads[t].stage == Walking(key, cs, q, i, j, Write);
      if ok {
        s' := OneStep(env, mid, t, OK);
        AloneThen(env, t, chs, [OK], s, mid, s');
        chs := chs + [OK];
      } else {
        var rest, end := FailedWrite(env, mid, t, key, cs, q, i, j);
        AloneThen(env, t, chs, rest, s, mid, end);
        chs, s' := chs + rest, end;
      }
    }
  }

  /** After a failed write: clear, close, next connection. */
  lemma FailedWrite(env: Env, s: State, t: nat, key: Key, cs: seq<nat>, q: Queue, i: nat, j: nat)
    returns (chs: seq<Choice>, s': State)
    requires t < |s.threads| && s.threads[t].stage == Walking(key, cs, q, i, j, Write)
    requires i < |q| && j < |cs| && NoDuplicates(cs) && forall x :: 0 <= x < |cs| ==> cs[x] < |s.conns|
    ensures Alone(env, t, chs, s, s') && OnlyFlush(s, s', t) && AtTurn(env, s', t, key, cs, q, i, j + 1)
    ensures forall c :: 0 <= c < |s.conns| ==>
              s'.conns[c].link == if c == cs[j] then Shut(Forget(s.conns[c].link, q[i].id)) else s.conns[c].link
  {
    var a := OneStep(env, s, t, FAIL);
    assert a.threads[t].stage == Walking(key, cs, q, i, j, Clean);
    var b := OneStep(env, a, t, FAIL);
    assert b.threads[t].stage == Walking(key, cs, q, i, j, Hang);
    s' := OneStep(env, b, t, FAIL);
    AloneThen(env, t, [FAIL], [FAIL], s, a, b);
    AloneThen(env, t, [FAIL] + [FAIL], [FAIL], s, b, s');
    chs := [FAIL] + [FAIL] + [FAIL];
  }

  /** The remaining turns of a message, and on to the next message. */
  lemma {:induction false} TurnsAlone(env: Env, s: State, t: nat, key: Key, cs: seq<nat>, q: Queue, i: nat, j: nat, net: Net<nat>)
    returns (chs: seq<Choice>, s': State)
    requires AtTurn(env, s, t, key, cs, q, i, j)
    ensures Alone(env, t, chs, s, s') && OnlyFlush(s, s', t)
    ensures s'.threads[t].stage == Walking(key, cs, q, i + 1, 0, Test)
    ensures forall c: nat :: c < |s.conns| ==>
              s'.conns[c].link == if c in cs[j..] then OfferOne(s.conns[c].link, q[i].id, key, net(c, key, i)) else s.conns[c].link
    decreases |cs| - j
  {
    if j == |cs| {
      s' := OneStep(env, s, t, OK);
      chs := [OK];
    } else {
      var a, mid := TurnAlone(env, s, t, key, cs, q, i, j, net(cs[j], key, i));
      var b, end := TurnsAlone(env, mid, t, key, cs, q, i, j + 1, net);
      AloneThen(env, t, a, b, s, mid, end);
      chs, s' := a + b, end;
      assert cs[j..] == [cs[j]] + cs[j + 1..];
    }
  }

  /** All expiry tests of an uninterrupted flush read the same instant. */
  function Still(now: int): Clock {
    (k: Key, i: nat) => now
  }

  /** Where the links stand when message `i` is about to be tested. */
  ghost predicate Halfway(start: State, s: State, t: nat, key: Key, cs: seq<nat>, q: Queue, i: nat, net: Net<nat>) {
    && OnlyFlush(start, s, t) && i <= |q|
    && s.threads[t].stage == Walking(key, cs, q, i, 0, Test)
    && NoDuplicates(cs) && (forall x :: 0 <= x < |cs| ==> cs[x] < |s.conns|)
    && forall c: nat :: c < |s.conns| ==>
         s.conns[c].link
         == if c in cs then OfferAll(start.conns[c].link, c, q, key, Still(s.now), net, i) else start.conns[c].link
  }

  lemma MessageAlone(env: Env, start: State, s: State, t: nat, key: Key, cs: seq<nat>, q: Queue, i: nat, net: Net<nat>)
    returns (chs: seq<Choice>, s': State)
    requires Halfway(start, s, t, key, cs, q, i, net) && i < |q|
    ensures Alone(env, t, chs, s, s') && Halfway(start, s', t, key, cs, q, i + 1, net)
  {
    s' := OneStep(env, s, t, OK);
    chs := [OK];
    if !q[i].Expired(s.now) {
      assert AtTurn(env, s', t, key, cs, q, i, 0);
      var rest, end := TurnsAlone(env, s', t, key, cs, q, i, 0, net);
      AloneThen(env, t, chs, rest, s, s', end);
      chs, s' := chs + rest, end;
      assert cs[0..] == cs;
    }
  }

  lemma {:induction false} MessagesAlone(env: Env, start: State, s: State, t: nat, key: Key, cs: seq<nat>, q: Queue, i: nat, net: Net<nat>)
    returns (chs: seq<Choice>, s': State)
    requires Halfway(start, s, t, key, cs, q, i, net)
    ensures Alone(env, t, chs, s, s') && OnlyFlush(start, s', t) && s'.threads[t].stage.Idle?
    ensures forall c: nat :: c < |s.conns| ==>
              s'.conns[c].link
              == if c in cs then OfferAll(start.conns[c].link, c, q, key, Still(s.now), net, |q|) else start.conns[c].link
    decreases |q| - i
  {
    if i == |q| {
      s' := OneStep(env, s, t, OK);
      chs := [OK];
    } else {
      var a, mid := MessageAlone(env, start, s, t, key, cs, q, i, net);
      var b, end := MessagesAlone(env, start, mid, t, key, cs, q, i + 1, net);
      AloneThen(env, t, a, b, s, mid, end);
      chs, s' := a + b, end;
    }
  }

  /** What the sequential flush makes of connection `c`. */
  ghost function FlushedLink(env: Env, s: State, key: Key, c: nat, net: Net<nat>): Link
    requires c < |s.conns|
  {
    var conn := s.conns[c];
    if conn.registered then FlushLink(env.glob, conn.keys, conn.link, c, s.store, key, Still(s.now), net) else conn.link
  }

  /** Every outcome of `SendMessages` has an uninterrupted flush, from holding the send lock to
      giving it back, that ends in it: whatever each write is to come to, every registered
      connection ends as `SendMessages` leaves it, and nothing else changes. */
  lemma FlushAlone(env: Env, s: State, t: nat, net: Net<nat>) returns (chs: seq<Choice>, s': State)
    requires t < |s.threads| && s.threads[t].stage.Entered?
    ensures Alone(env, t, chs, s, s') && OnlyFlush(s, s', t) && s'.threads[t].stage.Idle?
    ensures forall c: nat :: c < |s.conns| ==> s'.conns[c].link == FlushedLink(env, s, s.threads[t].stage.key, c, net)
  {
    var key := s.threads[t].stage.key;
    var cs, q := ReceiversUpTo(env, s, key, |s.conns|), QueueAt(s.store, key);
    var snap := Choice(true, [], cs);
    var mid := OneStep(env, s, t, snap);
    chs, s' := [snap], mid;
    forall x | 0 <= x < |cs| ensures cs[x] < |s.conns| {
      assert cs[x] in cs;
    }
    if cs != [] {
      var walk := OneStep(env, mid, t, OK);
      AloneThen(env, t, chs, [OK], s, mid, walk);
      chs, s' := chs + [OK], walk;
      if q != [] {
        assert Halfway(s, walk, t, key, cs, q, 0, net);
        var rest, end := MessagesAlone(env, s, walk, t, key, cs, q, 0, net);
        AloneThen(env, t, chs, rest, s, walk, end);
        chs, s' := chs + rest, end;
      }
    }
    forall c: nat | c < |s.conns|
      ensures s'.conns[c].link == FlushedLink(env, s, key, c, net)
    {
      assert c in cs <==> Receiver(env, s, c, key);
      if q == [] {
        assert OfferAll(s.conns[c].link, c, q, key, Still(s.now), net, 0) == s.conns[c].link;
      }
    }
  }

  // --------------------------------------------------------- the other way round

  /** Where connection `cs[y]` of a flush that has come to `w` stands, if `l` is its link when
      the flush began. */
  ghost function LinkAt(l: Link, w: Stage, y: nat, now: int, net: Net<nat>): Link
    requires w.Walking? && y < |w.cs| && w.i <= |w.q| && (w.at != Test ==> w.i < |w.q|)
  {
    var before := OfferAll(l, w.cs[y], w.q, w.key, Still(now), net, w.i);
    if w.at == Test || y > w.j || (y == w.j && w.at == Offer) then before
    else if y < w.j then OfferOne(before, w.q[w.i].id, w.key, net(w.cs[y], w.key, w.i))
    else if w.at == Hang then Forget(Mark(before, w.q[w.i].id, w.key), w.q[w.i].id)
    else Mark(before, w.q[w.i].id, w.key)
  }

  /** The pair at hand was marked; past the write, the write is known to have failed. */
  ghost predicate TurnBegun(l: Link, w: Stage, now: int, net: Net<nat>)
    requires w.Walking? && w.j < |w.cs| && w.i < |w.q|
  {
    && CanMark(OfferAll(l, w.cs[w.j], w.q, w.key, Still(now), net, w.i), w.q[w.i].id)
    && (w.at != Write ==> !net(w.cs[w.j], w.key, w.i))
  }

  /** A flush that began in `start` has come to `s`, with writes coming out as in `net`. */
  ghost predicate Tracks(start: State, s: State, t: nat, net: Net<nat>) {
    && OnlyFlush(start, s, t) && s.threads[t].stage.Walking?
    && var w := s.threads[t].stage;
       && w.i <= |w.q| && w.j <= |w.cs| && (w.at != Test ==> w.i < |w.q| && !w.q[w.i].Expired(s.now))
       && NoDuplicates(w.cs) && (forall y :: 0 <= y < |w.cs| ==> w.cs[y] < |s.conns|)
       && (forall c: nat :: c < |s.conns| && c !in w.cs ==> s.conns[c].link == start.conns[c].link)
       && (forall y: nat :: y < |w.cs| ==> s.conns[w.cs[y]].link == LinkAt(start.conns[w.cs[y]].link, w, y, s.now, net))
       && (w.at != Test && w.at != Offer ==> w.j < |w.cs| && TurnBegun(start.conns[w.cs[w.j]].link, w, s.now, net))
  }

  /** What `SendMessages` makes of the connections of the snapshot. */
  ghost predicate Tracked(start: State, s: State, t: nat, cs: seq<nat>, q: Queue, key: Key, net: Net<nat>) {
    && OnlyFlush(start, s, t)
    && forall c: nat :: c < |s.conns| ==>
         s.conns[c].link
         == if c in cs then OfferAll(start.conns[c].link, c, q, key, Still(s.now), net, |q|) else start.conns[c].link
  }

  function Observed(net: Net<nat>, c: nat, key: Key, i: nat, ok: bool): Net<nat> {
    (d: nat, k: Key, x: nat) => if d == c && k == key && x == i then ok else net(d, k, x)
  }

  /** What a message comes to does not depend on the writes of later ones. */
  lemma {:induction false} LaterWritesDoNotMatter(l: Link, d: nat, q: Queue, now: int, net: Net<nat>, c: nat, key: Key, i: nat, ok: bool, n: nat)
    requires n <= |q| && n <= i
    ensures OfferAll(l, d, q, key, Still(now), Observed(net, c, key, i, ok), n) == OfferAll(l, d, q, key, Still(now), net, n)
  {
    if n > 0 {
      LaterWritesDoNotMatter(l, d, q, now, net, c, key, i, ok, n - 1);
    }
  }

  /** The flush goes on to the next message, or from its test to its connections, or ends. */
  lemma PassTracks(env: Env, start: State, s: State, t: nat, ch: Choice, net: Net<nat>)
    requires Tracks(start, s, t, net) && CanAdvance(env, s, t, ch) && Passing(s.threads[t].stage)
    ensures var s', w := Walk(s, t, ch), s.threads[t].stage;
            if s'.threads[t].stage.Idle? then Tracked(start, s', t, w.cs, w.q, w.key, net) else Tracks(start, s', t, net)
  {
    var s', w := Walk(s, t, ch), s.threads[t].stage;
    if s'.threads[t].stage.Idle? {
      forall c: nat | c < |s.conns|
        ensures s'.conns[c].link
             == if c in w.cs then OfferAll(start.conns[c].link, c, w.q, w.key, Still(s.now), net, |w.q|) else start.conns[c].link
      {
        if c in w.cs {
          var y: nat :| y < |w.cs| && w.cs[y] == c;
          assert s.conns[w.cs[y]].link == LinkAt(start.conns[w.cs[y]].link, w, y, s.now, net);
        }
      }
    } else {
      var w' := s'.threads[t].stage;
      forall y: nat | y < |w.cs|
        ensures s'.conns[w.cs[y]].link == LinkAt(start.conns[w.cs[y]].link, w', y, s.now, net)
      {
        assert s.conns[w.cs[y]].link == LinkAt(start.conns[w.cs[y]].link, w, y, s.now, net);
      }
    }
  }

  /** What is known of the outcomes once the pair at hand has taken its step. */
  function NetAfter(w: Stage, ch: Choice, net: Net<nat>): Net<nat>
    requires w.Walking? && w.j < |w.cs|
  {
    if w.at == Write then Observed(net, w.cs[w.j], w.key, w.i, ch.ok) else net
  }

  lemma TurnLink(env: Env, start: State, s: State, t: nat, ch: Choice, net: Net<nat>, y: nat)
    requires Tracks(start, s, t, net) && CanAdvance(env, s, t, ch) && !Passing(s.threads[t].stage)
    requires y < |s.threads[t].stage.cs|
    ensures var w, s' := s.threads[t].stage, Walk(s, t, ch);
            s'.conns[w.cs[y]].link
            == LinkAt(start.conns[w.cs[y]].link, s'.threads[t].stage, y, s.now, NetAfter(w, ch, net))
  {
    var w := s.threads[t].stage;
    assert s.conns[w.cs[y]].link == LinkAt(start.conns[w.cs[y]].link, w, y, s.now, net);
    LaterWritesDoNotMatter(start.conns[w.cs[y]].link, w.cs[y], w.q, s.now, net, w.cs[w.j], w.key, w.i, ch.ok, w.i);
    if y != w.j {
      assert Walk(s, t, ch).conns[w.cs[y]] == s.conns[w.cs[y]];
    }
  }

  lemma TurnGoesOn(env: Env, start: State, s: State, t: nat, ch: Choice, net: Net<nat>)
    requires Tracks(start, s, t, net) && CanAdvance(env, s, t, ch) && !Passing(s.threads[t].stage)
    ensures var w, w' := s.threads[t].stage, Walk(s, t, ch).threads[t].stage;
            w'.Walking? && (w'.at != Offer ==> w'.j == w.j && w'.i == w.i && TurnBegun(start.conns[w.cs[w.j]].link, w', s.now, NetAfter(w, ch, net)))
  {
    var w := s.threads[t].stage;
    var l := start.conns[w.cs[w.j]].link;
    assert s.conns[w.cs[w.j]].link == LinkAt(l, w, w.j, s.now, net);
    LaterWritesDoNotMatter(l, w.cs[w.j], w.q, s.now, net, w.cs[w.j], w.key, w.i, ch.ok, w.i);
  }

  /** A step at the pair at hand; a write shows what it comes to. */
  lemma TurnTracks(env: Env, start: State, s: State, t: nat, ch: Choice, net: Net<nat>)
    requires Tracks(start, s, t, net) && CanAdvance(env, s, t, ch) && !Passing(s.threads[t].stage)
    ensures Tracks(start, Walk(s, t, ch), t, NetAfter(s.threads[t].stage, ch, net))
  {
    var s', w := Walk(s, t, ch), s.threads[t].stage;
    TurnGoesOn(env, start, s, t, ch, net);
    forall y: nat | y < |w.cs|
      ensures s'.conns[w.cs[y]].link
           == LinkAt(start.conns[w.cs[y]].link, s'.threads[t].stage, y, s.now, NetAfter(w, ch, net))
    {
      TurnLink(env, start, s, t, ch, net, y);
    }
    forall c: nat | c < |s.conns| && c !in w.cs ensures s'.conns[c].link == start.conns[c].link {
      assert w.cs[w.j] != c;
    }
  }

  /** A flush that has not ended takes another step. */
  lemma FirstStep(env: Env, t: nat, chs: seq<Choice>, s: State, s': State) returns (mid: State)
    requires Alone(env, t, chs, s, s') && t < |s.threads| && t < |s'.threads|
    requires !s.threads[t].stage.Idle? && s'.threads[t].stage.Idle?
    ensures chs != [] && CanAdvance(env, s, t, chs[0]) && mid == Moved(env, s, t, chs[0])
    ensures Alone(env, t, chs[1..], mid, s')
  {
    mid :| StepOf(env, t)(s, chs[0], mid) && Chain(StepOf(env, t), chs[1..], mid, s');
  }

  /** One that has ended takes none. */
  lemma NoMoreSteps(env: Env, t: nat, chs: seq<Choice>, s: State, s': State)
    requires Alone(env, t, chs, s, s') && t < |s.threads| && s.threads[t].stage.Idle?
    ensures s' == s
  {
  }

  lemma {:induction false} RestTracks(env: Env, start: State, s: State, t: nat, chs: seq<Choice>, s': State, net: Net<nat>)
    returns (net': Net<nat>)
    requires Tracks(start, s, t, net) && Alone(env, t, chs, s, s') && t < |s'.threads| && s'.threads[t].stage.Idle?
    ensures var w := s.threads[t].stage;
            Tracked(start, s', t, w.cs, w.q, w.key, net')
    decreases |chs|
  {
    var w := s.threads[t].stage;
    var mid := FirstStep(env, t, chs, s, s');
    if Passing(w) {
      net' := net;
      PassTracks(env, start, s, t, chs[0], net);
    } else {
      net' := NetAfter(w, chs[0], net);
      TurnTracks(env, start, s, t, chs[0], net);
    }
    if mid.threads[t].stage.Idle? {
      NoMoreSteps(env, t, chs[1..], mid, s');
    } else {
      net' := RestTracks(env, start, mid, t, chs[1..], s', net');
    }
  }

  /** From the registry snapshot on. */
  lemma SnappedTracks(env: Env, start: State, s: State, t: nat, cs: seq<nat>, chs: seq<Choice>, s': State) returns (net: Net<nat>)
    requires OnlyFlush(start, s, t) && s.conns == start.conns && NoDuplicates(cs) && forall x :: 0 <= x < |cs| ==> cs[x] < |s.conns|
    requires t < |s.threads| && s.threads[t].stage.Snapped? && s.threads[t].stage.cs == cs
    requires Alone(env, t, chs, s, s') && t < |s'.threads| && s'.threads[t].stage.Idle?
    ensures var key := s.threads[t].stage.key;
            Tracked(start, s', t, cs, QueueAt(start.store, key), key, net)
  {
    net := (c: nat, k: Key, i: nat) => true;
    var mid := FirstStep(env, t, chs, s, s');
    if mid.threads[t].stage.Idle? {
      NoMoreSteps(env, t, chs[1..], mid, s');
    } else {
      assert Tracks(start, mid, t, net);
      net := RestTracks(env, start, mid, t, chs[1..], s', net);
    }
  }

  /** Every uninterrupted flush, from holding the send lock to giving it back, is an outcome of
      `SendMessages`: whatever order the registry is ranged over and whatever each write does,
      reading off what the writes came to, every registered connection has ended as
      `SendMessages` leaves it, and nothing else has changed. */
  lemma EveryFlushAlone(env: Env, s: State, t: nat, chs: seq<Choice>, s': State) returns (net: Net<nat>)
    requires t < |s.threads| && s.threads[t].stage.Entered?
    requires Alone(env, t, chs, s, s') && t < |s'.threads| && s'.threads[t].stage.Idle?
    ensures OnlyFlush(s, s', t)
    ensures forall c: nat :: c < |s.conns| ==> s'.conns[c].link == FlushedLink(env, s, s.threads[t].stage.key, c, net)
  {
    var key := s.threads[t].stage.key;
    var mid := FirstStep(env, t, chs, s, s');
    var cs := chs[0].cs;
    forall x | 0 <= x < |cs| ensures cs[x] < |s.conns| {
      assert cs[x] in cs;
    }
    if cs == [] {
      NoMoreSteps(env, t, chs[1..], mid, s');
      net := (c: nat, k: Key, i: nat) => true;
    } else {
      net := SnappedTracks(env, s, mid, t, cs, chs[1..], s');
    }
    forall c: nat | c < |s.conns| ensures s'.conns[c].link == FlushedLink(env, s, key, c, net) {
      assert c in cs <==> Receiver(env, s, c, key);
    }
  }
}
