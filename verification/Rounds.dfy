/** The rounds of the draining argument are runs of the protocol: a reconcile task flushes every
    key of its set, then the clients acknowledge what is in flight. */
module Rounds {
  import opened Messages
  import opened Queues
  import opened Flushes
  import opened Protocol
  import opened Refinement
  import opened Drain

  // ------------------------------------------------------------------- paths

  ghost function TakesStep(env: Env): (State, Step, State) -> bool {
    (s, step, s') => Enabled(env, s, step) && s' == Exec(env, s, step)
  }

  /** The protocol can get from `s` to `s'` by these steps. */
  ghost predicate Path(env: Env, steps: seq<Step>, s: State, s': State) {
    Chain(TakesStep(env), steps, s, s')
  }

  lemma PathThen(env: Env, a: seq<Step>, b: seq<Step>, s: State, mid: State, s': State)
    requires Path(env, a, s, mid) && Path(env, b, mid, s')
    ensures Path(env, a + b, s, s')
  {
    Chained(TakesStep(env), a, b, s, mid, s');
  }

  lemma OnePath(env: Env, s: State, step: Step) returns (s': State)
    requires Enabled(env, s, step)
    ensures s' == Exec(env, s, step) && Path(env, [step], s, s')
  {
    s' := Exec(env, s, step);
    assert TakesStep(env)(s, step, s');
    assert Chain(TakesStep(env), [step][1..], s', s');
  }

  function Advances(t: nat, chs: seq<Choice>): seq<Step> {
    seq(|chs|, i requires 0 <= i < |chs| => Advance(t, chs[i]))
  }

  lemma {:induction false} AloneIsPath(env: Env, t: nat, chs: seq<Choice>, s: State, s': State)
    requires Alone(env, t, chs, s, s')
    ensures Path(env, Advances(t, chs), s, s')
  {
    if chs != [] {
      var mid :| StepOf(env, t)(s, chs[0], mid) && Chain(StepOf(env, t), chs[1..], mid, s');
      AloneIsPath(env, t, chs[1..], mid, s');
      assert TakesStep(env)(s, Advances(t, chs)[0], mid);
      assert Advances(t, chs)[1..] == Advances(t, chs[1..]);
    }
  }

  /** Only tasks and ACKs. */
  predicate Answering(steps: seq<Step>) {
    forall i :: 0 <= i < |steps| ==> steps[i].Advance? || steps[i].Ack?
  }

  // ------------------------------------------------------------ the two views

  /** The protocol state as the draining argument sees it. */
  function View(s: State): Network {
    Network(seq(|s.conns|, c requires 0 <= c < |s.conns| => Peer(s.conns[c].keys, s.conns[c].link.inflight)), s.store)
  }

  /** All connections are open, nothing in the store expires, no flush is under way. */
  ghost predicate Calm(s: State) {
    && (forall c :: 0 <= c < |s.conns| ==> s.conns[c].registered && !s.conns[c].link.closed)
    && (forall key, m :: m in QueueAt(s.store, key) ==> !m.Expired(s.now))
    && (forall t :: 0 <= t < |s.threads| ==> s.threads[t].stage.Idle?)
  }

  // ---------------------------------------------------------------- flushing

  function AllWell(): Net<nat> {
    (c: nat, k: Key, i: nat) => true
  }

  /** One flush, from taking it up to giving the send lock back. */
  lemma FlushPath(env: Env, s: State, t: nat, key: Key, rest: seq<Job>) returns (steps: seq<Step>, s': State)
    requires Calm(s) && t < |s.threads| && s.threads[t].todo == [Flush(key)] + rest
    ensures Path(env, steps, s, s') && Answering(steps)
    ensures Calm(s') && s'.store == s.store && |s'.threads| == |s.threads| && s'.threads[t].todo == rest
    ensures |s'.conns| == |s.conns|
    ensures forall c :: 0 <= c < |s.conns| ==> View(s').peers[c] == FlushPeer(env.glob, View(s).peers[c], s.store, key)
  {
    var first := Advance(t, OK);
    var mid := OnePath(env, s, first);
    var chs, end := FlushAlone(env, mid, t, AllWell());
    AloneIsPath(env, t, chs, mid, end);
    PathThen(env, [first], Advances(t, chs), s, mid, end);
    steps, s' := [first] + Advances(t, chs), end;
    forall c: nat | c < |s.conns|
      ensures !s'.conns[c].link.closed && View(s').peers[c] == FlushPeer(env.glob, View(s).peers[c], s.store, key)
    {
      assert mid.conns == s.conns;
      WellFlushed(env, mid, key, c);
    }
  }

  lemma WellFlushed(env: Env, s: State, key: Key, c: nat)
    requires c < |s.conns| && s.conns[c].registered && !s.conns[c].link.closed
    requires forall m :: m in QueueAt(s.store, key) ==> !m.Expired(s.now)
    ensures var l, p := FlushedLink(env, s, key, c, AllWell()), FlushPeer(env.glob, View(s).peers[c], s.store, key);
            !l.closed && p == Peer(s.conns[c].keys, l.inflight)
  {
    SmoothFlush(env.glob, s.conns[c].keys, s.conns[c].link, c, s.store, key, Still(s.now), AllWell());
  }

  /** The whole pass. */
  lemma {:induction false} PassPath(env: Env, start: State, s: State, t: nat, order: seq<Key>, i: nat)
    returns (steps: seq<Step>, s': State)
    requires Calm(s) && t < |s.threads| && i <= |order| && s.threads[t].todo == Each(order[i..], k => Flush(k))
    requires |s.conns| == |start.conns| && s.store == start.store
    requires forall c :: 0 <= c < |s.conns| ==> View(s).peers[c] == FlushAll(env.glob, View(start).peers[c], s.store, order[..i])
    ensures Path(env, steps, s, s') && Answering(steps) && Calm(s')
    ensures View(s') == Network(Flushed(env.glob, View(start).peers, start.store, order), start.store)
    decreases |order| - i
  {
    if i == |order| {
      steps, s' := [], s;
      assert order[..i] == order;
      assert View(s).peers == Flushed(env.glob, View(start).peers, start.store, order);
    } else {
      var rest := Each(order[i + 1..], k => Flush(k));
      assert s.threads[t].todo == [Flush(order[i])] + rest;
      var a, mid := FlushPath(env, s, t, order[i], rest);
      forall c | 0 <= c < |s.conns|
        ensures View(mid).peers[c] == FlushAll(env.glob, View(start).peers[c], s.store, order[..i + 1])
      {
        assert order[..i + 1][..i] == order[..i];
      }
      var b, end := PassPath(env, start, mid, t, order, i + 1);
      PathThen(env, a, b, s, mid, end);
      steps, s' := a + b, end;
    }
  }

  // -------------------------------------------------------------------- ACKs

  /** One ACK, both halves. */
  lemma AckPath(env: Env, s: State, c: nat, id: Uuid) returns (steps: seq<Step>, s': State)
    requires Calm(s)
    ensures Path(env, steps, s, s') && Answering(steps) && Calm(s') && View(s') == AckOne(View(s), c, id)
  {
    if c < |s.conns| && id in s.conns[c].link.inflight {
      var key, t := s.conns[c].link.inflight[id], |s.threads|;
      var mid := OnePath(env, s, Ack(c, id));
      assert mid.threads[t] == Thread(Idle, [Discard(key, id, ByAck(c))]);
      s' := OnePath(env, mid, Advance(t, OK));
      PathThen(env, [Ack(c, id)], [Advance(t, OK)], s, mid, s');
      steps := [Ack(c, id)] + [Advance(t, OK)];
      DiscardIsCalm(env, s, mid, t, key, id, ByAck(c));
      assert View(s').peers == AckOne(View(s), c, id).peers;
    } else {
      steps, s' := [], s;
    }
  }

  lemma DiscardIsCalm(env: Env, s: State, mid: State, t: nat, key: Key, id: Uuid, cause: Cause)
    requires Calm(s) && mid.store == s.store && mid.now == s.now && t < |mid.threads|
    requires mid.threads[t] == Thread(Idle, [Discard(key, id, cause)])
    ensures forall k, m :: m in QueueAt(Take(env, mid, t, OK).store, k) ==> !m.Expired(s.now)
  {
    forall k, m | m in QueueAt(Take(env, mid, t, OK).store, k) ensures !m.Expired(s.now) {
      DeleteTouchesOneKey(s.store, key, id, k);
      var q := QueueAt(s.store, k);
      assert forall x :: x in Without(q, id) ==> x in q;
    }
  }

  lemma {:induction false} AcksPath(env: Env, s: State, acks: seq<(nat, Uuid)>) returns (steps: seq<Step>, s': State)
    requires Calm(s)
    ensures Path(env, steps, s, s') && Answering(steps) && Calm(s') && View(s') == AckAll(View(s), acks)
  {
    if acks == [] {
      steps, s' := [], s;
    } else {
      var n := |acks| - 1;
      var a, mid := AcksPath(env, s, acks[..n]);
      var b, end := AckPath(env, mid, acks[n].0, acks[n].1);
      PathThen(env, a, b, s, mid, end);
      steps, s' := a + b, end;
    }
  }

  // ------------------------------------------------------------- the theorem

  /** Every round is a run of the protocol: from any state with open connections, nothing
      expired and no flush under way, a reconcile pass over the keys, the flushes of its task and
      then the ACKs, each followed by its deletion, lead to the store the round leaves, with
      nothing in flight and everything ready for the next round. */
  lemma RoundIsARun(env: Env, s: State, order: seq<Key>, acks: seq<(nat, Uuid)>, store': Store)
    returns (steps: seq<Step>, s': State)
    requires Calm(s) && GoodStore(s.store) && IsRound(env.glob, View(s).peers, s.store, order, acks, store')
    ensures Path(env, [Reflush(order)] + steps, s, s') && Answering(steps)
    ensures Calm(s') && s'.store == store' && Rested(View(s').peers)
    ensures |s'.conns| == |s.conns| && forall c :: 0 <= c < |s.conns| ==> s'.conns[c].keys == s.conns[c].keys
  {
    var start := OnePath(env, s, Reflush(order));
    assert order[0..] == order && order[..0] == [];
    assert View(start) == View(s);
    var a, mid := PassPath(env, start, start, |s.threads|, order, 0);
    var b, end := AcksPath(env, mid, acks);
    PathThen(env, a, b, start, mid, end);
    PathThen(env, [Reflush(order)], a + b, s, start, end);
    steps, s' := a + b, end;
    RoundRests(env.glob, View(s).peers, s.store, order, acks);
    AcksSettle(View(mid), acks);
    forall c | 0 <= c < |s.conns| ensures s'.conns[c].keys == s.conns[c].keys {
      FlushAllKeys(env.glob, View(s).peers[c], s.store, order);
      assert View(s').peers[c].keys == View(mid).peers[c].keys;
    }
  }
}
