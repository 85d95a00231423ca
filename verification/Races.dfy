/** Runs that the source's comments rule out and its code allows, and the exact line between a
    key whose backlog is always flushed and one whose backlog is not. */
module Races {
  import opened Messages
  import opened Queues
  import opened Links
  import opened Protocol
  import opened Wakeups
  import opened Flights
  import opened Ledger

  ghost predicate Reachable(env: Env, s: State) {
    exists steps, ss :: IsRun(env, steps, ss) && ss[|steps|] == s
  }

  lemma Start(env: Env, now: int)
    ensures Reachable(env, Init(now))
  {
    assert IsRun(env, [], [Init(now)]);
  }

  lemma Next(env: Env, s: State, step: Step) returns (s': State)
    requires Reachable(env, s) && Enabled(env, s, step)
    ensures s' == Exec(env, s, step) && Reachable(env, s')
  {
    s' := Exec(env, s, step);
    var steps, ss :| IsRun(env, steps, ss) && ss[|steps|] == s;
    var steps', ss' := Extended(env, steps, ss, step);
    assert ss'[|steps'|] == s';
  }

  // ------------------------------------------------------- a flush in one go

  /** The goroutine is alone at work, its next job is to flush `key`, and connection `c` is the
      only receiver. */
  ghost predicate AboutToFlush(env: Env, s: State, t: nat, key: Key, c: nat, rest: seq<Job>) {
    && t < |s.threads| && s.threads[t] == Thread(Idle, [Flush(key)] + rest)
    && (forall u :: 0 <= u < |s.threads| ==> s.threads[u].stage.Idle?)
    && (forall d: nat :: Receiver(env, s, d, key) <==> d == c)
  }

  function Go(t: nat, c: nat): Step {
    Advance(t, Choice(true, [], [c]))
  }

  /** Both snapshots of a flush of a queue that holds just one live message. */
  lemma Snapshots(env: Env, s: State, t: nat, key: Key, m: Message, c: nat, rest: seq<Job>) returns (s': State)
    requires Reachable(env, s) && AboutToFlush(env, s, t, key, c, rest)
    requires QueueAt(s.store, key) == [m] && !m.Expired(s.now)
    ensures Reachable(env, s')
    ensures s' == s.(threads := s.threads[t := Thread(Walking(key, [c], [m], 0, 0, Offer), rest)])
  {
    s' := Next(env, s, Go(t, c));
    assert forall d: nat :: Receiver(env, s', d, key) <==> Receiver(env, s, d, key);
    s' := Next(env, s', Go(t, c));
    s' := Next(env, s', Go(t, c));
    s' := Next(env, s', Go(t, c));
  }

  /** The flush goes through its last connection and its last message, and unlocks. */
  lemma LastTurn(env: Env, s: State, t: nat, key: Key, m: Message, c: nat) returns (s': State)
    requires Reachable(env, s) && t < |s.threads|
    requires s.threads[t].stage == Walking(key, [c], [m], 0, 1, Offer)
    ensures Reachable(env, s')
    ensures s' == s.(threads := s.threads[t := Thread(Idle, s.threads[t].todo)])
  {
    s' := Next(env, s, Go(t, c));
    assert s'.threads[t].stage == Walking(key, [c], [m], 1, 0, Test);
    s' := Next(env, s', Go(t, c));
  }

  /** Mark and write at the pair at hand. */
  lemma MarkAndWrite(env: Env, s: State, t: nat, key: Key, m: Message, c: nat) returns (s': State)
    requires Reachable(env, s) && t < |s.threads| && c < |s.conns| && CanMark(s.conns[c].link, m.id)
    requires s.threads[t].stage == Walking(key, [c], [m], 0, 0, Offer)
    ensures Reachable(env, s')
    ensures s' == Written(s, t, key, m, c).(threads := s.threads[t := Thread(Walking(key, [c], [m], 0, 1, Offer), s.threads[t].todo)])
  {
    s' := Next(env, s, Go(t, c));
    assert s'.threads[t].stage == Walking(key, [c], [m], 0, 0, Write);
    s' := Next(env, s', Go(t, c));
  }

  function Written(s: State, t: nat, key: Key, m: Message, c: nat): State
    requires c < |s.conns|
  {
    var l, y := s.conns[c].link, s.conns[c].tally;
    SetLink(s, c, Mark(l, m.id, key), y.(marks := y.marks + multiset{m.id}, writes := y.writes + multiset{m.id}))
      .(offered := s.offered + {(c, key, m.id)})
  }

  /** The message is not in flight: the flush marks and writes it. */
  lemma FlushWrites(env: Env, s: State, t: nat, key: Key, m: Message, c: nat, rest: seq<Job>) returns (s': State)
    requires Reachable(env, s) && AboutToFlush(env, s, t, key, c, rest)
    requires QueueAt(s.store, key) == [m] && !m.Expired(s.now)
    requires c < |s.conns| && CanMark(s.conns[c].link, m.id)
    ensures Reachable(env, s')
    ensures s' == Written(s, t, key, m, c).(threads := s.threads[t := Thread(Idle, rest)])
  {
    s' := Snapshots(env, s, t, key, m, c, rest);
    s' := MarkAndWrite(env, s', t, key, m, c);
    s' := LastTurn(env, s', t, key, m, c);
  }

  /** The message is in flight: the flush leaves the connection alone. */
  lemma FlushSkips(env: Env, s: State, t: nat, key: Key, m: Message, c: nat, rest: seq<Job>) returns (s': State)
    requires Reachable(env, s) && AboutToFlush(env, s, t, key, c, rest)
    requires QueueAt(s.store, key) == [m] && !m.Expired(s.now)
    requires c < |s.conns| && !s.conns[c].link.closed && m.id in s.conns[c].link.inflight
    ensures Reachable(env, s')
    ensures s' == s.(threads := s.threads[t := Thread(Idle, rest)],
                     offered := s.offered + {(c, key, m.id)})
  {
    s' := Snapshots(env, s, t, key, m, c, rest);
    s' := Next(env, s', Go(t, c));
    s' := LastTurn(env, s', t, key, m, c);
  }

  // -------------------------------------------------- duplicates despite reconcile

  lemma SingleTarget(key: Key)
    requires key != ""
    ensures Distinct([key] + []) == [key]
    ensures forall m :: PublishJobs(m, [key]) == [Publish(key, m.(key := key)), Flush(key)]
  {
    var ks := [key] + [];
    assert ks[..0] == [];
    assert Distinct(ks[..0]) == [];
    assert [key][1..] == [];
  }

  /** One subscriber to a concrete key, with this link and history, and one queued message. */
  function Solo(key: Key, m: Message, l: Link, y: Tally, threads: seq<Thread>,
                offered: set<(nat, Key, Uuid)>, settled: set<(nat, Key, Uuid)>): State {
    State(map[key := [m]], [Conn([key], true, l, y)], threads, 0,
          [Entry(key, m)], multiset{(key, m.id)}, [], offered, settled, true)
  }

  predicate Concrete(key: Key) {
    key != "" && !HasWildcard(key)
  }

  /** Nothing is queued: the flush takes its snapshots and goes away. */
  lemma FlushNothing(env: Env, s: State, t: nat, key: Key, c: nat, rest: seq<Job>) returns (s': State)
    requires Reachable(env, s) && AboutToFlush(env, s, t, key, c, rest) && QueueAt(s.store, key) == []
    ensures Reachable(env, s')
    ensures s' == s.(threads := s.threads[t := Thread(Idle, rest)])
  {
    s' := Next(env, s, Go(t, c));
    assert forall d: nat :: Receiver(env, s', d, key) <==> Receiver(env, s, d, key);
    s' := Next(env, s', Go(t, c));
    s' := Next(env, s', Go(t, c));
  }

  /** A publish to an empty queue, or over the only entry of a queue. */
  lemma PublishOnly(env: Env, s: State, t: nat, key: Key, m: Message, rest: seq<Job>) returns (s': State)
    requires Reachable(env, s) && t < |s.threads| && s.threads[t] == Thread(Idle, [Publish(key, m)] + rest)
    requires |QueueAt(s.store, key)| <= 1 && forall x :: x in QueueAt(s.store, key) ==> x.id == m.id
    ensures Reachable(env, s')
    ensures s' == Added(s, key, m).(threads := s.threads[t := Thread(Idle, rest)])
    ensures s'.store == s.store[key := [m]]
  {
    s' := Next(env, s, Go(t, 0));
    var q := QueueAt(s.store, key);
    assert q != [] ==> q[0] in q;
    assert Upsert(q, m) == [m];
  }

  /** A deletion of the only entry of a queue. */
  lemma DiscardOnly(env: Env, s: State, t: nat, key: Key, m: Message, cause: Cause, rest: seq<Job>) returns (s': State)
    requires Reachable(env, s) && t < |s.threads| && s.threads[t] == Thread(Idle, [Discard(key, m.id, cause)] + rest)
    requires QueueAt(s.store, key) == [m]
    ensures Reachable(env, s')
    ensures s' == s.(threads := s.threads[t := Thread(Idle, rest)], store := s.store - {key},
                     exits := s.exits + [Exit(key, m, cause, s.now)])
  {
    s' := Next(env, s, Go(t, 0));
    assert Without([m], m.id) == [];
  }

  /** One subscriber whose backlog task has found nothing. */
  lemma OneSubscriber(env: Env, key: Key) returns (s: State)
    requires Concrete(key)
    ensures Reachable(env, s)
    ensures s == Init(0).(conns := [Conn([key], true, OPEN, NOTHING)], threads := [Thread(Idle, [])])
  {
    Start(env, 0);
    s := Next(env, Init(0), Connect([key]));
    assert s.threads[0].todo == [Flush(key)] + [];
    s := FlushNothing(env, s, 0, key, 0, []);
  }

  /** The publisher has not flushed yet. */
  lemma OneSubscriberOneMessage(env: Env, key: Key, m: Message) returns (s: State)
    requires Concrete(key) && m.key == key && m.keys == []
    ensures Reachable(env, s)
    ensures s == Solo(key, m, OPEN, NOTHING, [Thread(Idle, []), Thread(Idle, [Flush(key)])], {}, {})
  {
    s := OneSubscriber(env, key);
    SingleTarget(key);
    s := Next(env, s, Post(m));
    assert s.threads == [Thread(Idle, []), Thread(Idle, [Publish(key, m), Flush(key)])];
    s := Next(env, s, Go(1, 0));
    assert Upsert([], m) == [m];
    assert s.threads == [Thread(Idle, []), Thread(Idle, [Flush(key)])];
  }

  /** The publisher flushes; no task is left. */
  lemma WrittenOnce(env: Env, key: Key, m: Message) returns (s: State)
    requires Concrete(key) && m.key == key && m.keys == [] && !m.Expired(0)
    ensures Reachable(env, s)
    ensures s == Solo(key, m, Link(false, map[m.id := key]), WroteOnce(m.id),
                      [Thread(Idle, []), Thread(Idle, [])], {(0, key, m.id)}, {})
  {
    s := OneSubscriberOneMessage(env, key, m);
    s := FlushWrites(env, s, 1, key, m, 0, []);
    assert multiset{} + multiset{m.id} == multiset{m.id};
    assert s.conns == [Conn([key], true, Link(false, map[m.id := key]), WroteOnce(m.id))];
    assert s.threads == [Thread(Idle, []), Thread(Idle, [])];
    assert s.offered == {(0, key, m.id)};
  }

  function AckedOnce(id: Uuid): Tally {
    WroteOnce(id).(acks := multiset{id})
  }

  /** The first half of the ACK is done, then the reconcile loop comes by. */
  lemma ReconcileBetweenHalves(env: Env, key: Key, m: Message) returns (s: State)
    requires Concrete(key) && m.key == key && m.keys == [] && !m.Expired(0)
    ensures Reachable(env, s)
    ensures s == Solo(key, m, OPEN, AckedOnce(m.id),
                      [Thread(Idle, []), Thread(Idle, []), Thread(Idle, [Discard(key, m.id, ByAck(0))]),
                       Thread(Idle, [Flush(key)])], {(0, key, m.id)}, {(0, key, m.id)})
  {
    s := WrittenOnce(env, key, m);
    s := Next(env, s, Ack(0, m.id));
    assert multiset{} + multiset{m.id} == multiset{m.id};
    assert map[m.id := key] - {m.id} == map[];
    s := Next(env, s, Reflush([key]));
    assert s.threads[3].todo == [Flush(key)];
  }

  /** src/engine.go:113-114 promises that re-flushing never produces duplicates. It can, in the
      middle of an ACK: an ACK first forgets the id and only then deletes the entry, and a
      reconcile pass in between writes the message a second time, although it was published and
      acknowledged once. */
  lemma ReflushCanDuplicate(env: Env, key: Key, m: Message) returns (s: State)
    requires Concrete(key) && m.key == key && m.keys == [] && !m.Expired(0)
    ensures Reachable(env, s)
    ensures |s.conns| == 1 && !s.conns[0].link.closed && s.honest && s.added == [Entry(key, m)]
    ensures s.conns[0].tally.acks[m.id] == 1 && s.conns[0].tally.writes[m.id] == 2
  {
    s := ReconcileBetweenHalves(env, key, m);
    assert s.threads[3] == Thread(Idle, [Flush(key)] + []);
    s := FlushWrites(env, s, 3, key, m, 0, []);
  }

  /** A reconcile pass has read the queue, then the first half of the ACK is handled. */
  lemma TakenBehindSnapshot(env: Env, key: Key, m: Message) returns (s: State)
    requires Concrete(key) && m.key == key && m.keys == [] && !m.Expired(0)
    ensures Reachable(env, s)
    ensures s.store == map[key := [m]] && s.conns == [Conn([key], true, OPEN, AckedOnce(m.id))]
    ensures s.honest && s.added == [Entry(key, m)]
    ensures |s.threads| == 4 && s.threads[2] == Thread(Walking(key, [0], [m], 0, 0, Offer), [])
    ensures s.threads[3] == Thread(Idle, [Discard(key, m.id, ByAck(0))] + [])
  {
    s := WrittenOnce(env, key, m);
    s := Next(env, s, Reflush([key]));
    assert s.threads[2] == Thread(Idle, [Flush(key)] + []);
    s := Snapshots(env, s, 2, key, m, 0, []);
    s := Next(env, s, Ack(0, m.id));
    assert multiset{} + multiset{m.id} == multiset{m.id};
    assert map[m.id := key] - {m.id} == map[];
  }

  /** Then the second half. */
  lemma AckedBehindSnapshot(env: Env, key: Key, m: Message) returns (s: State)
    requires Concrete(key) && m.key == key && m.keys == [] && !m.Expired(0)
    ensures Reachable(env, s)
    ensures s.store == map[] && s.conns == [Conn([key], true, OPEN, AckedOnce(m.id))]
    ensures s.honest && s.added == [Entry(key, m)]
    ensures |s.threads| == 4 && s.threads[2] == Thread(Walking(key, [0], [m], 0, 0, Offer), [])
  {
    s := TakenBehindSnapshot(env, key, m);
    s := DiscardOnly(env, s, 3, key, m, ByAck(0), []);
  }

  /** And it can behind an old snapshot: the pass read the queue before the ACK was handled, and
      writes after all of it, when the message is queued nowhere any more. */
  lemma OldSnapshotCanDuplicate(env: Env, key: Key, m: Message) returns (s: State)
    requires Concrete(key) && m.key == key && m.keys == [] && !m.Expired(0)
    ensures Reachable(env, s)
    ensures |s.conns| == 1 && !s.conns[0].link.closed && s.honest && s.added == [Entry(key, m)] && s.store == map[]
    ensures s.conns[0].tally.acks[m.id] == 1 && s.conns[0].tally.writes[m.id] == 2
  {
    s := AckedBehindSnapshot(env, key, m);
    s := MarkAndWrite(env, s, 2, key, m, 0);
  }

  // ------------------------------------------------------ one ACK, one entry

  /** Two keys of one connection, one message for both. */
  lemma TwoTargets(a: Key, b: Key)
    requires a != "" && b != "" && a != b
    ensures Distinct([a] + [b]) == [a, b]
    ensures forall m :: PublishJobs(m, [a, b])
                     == [Publish(a, m.(key := a)), Flush(a), Publish(b, m.(key := b)), Flush(b)]
  {
    SingleTarget(a);
    var ks := [a] + [b];
    assert ks[..1] == [a] + [];
    SingleTarget(b);
    assert [a, b][1..] == [b];
  }

  /** One connection to both keys, whose backlog task has found nothing. */
  lemma IdleSubscriber(env: Env, a: Key, b: Key) returns (s: State)
    requires Concrete(a) && Concrete(b)
    ensures Reachable(env, s)
    ensures s == Init(0).(conns := [Conn([a, b], true, OPEN, NOTHING)], threads := [Thread(Idle, [])])
  {
    Start(env, 0);
    s := Next(env, Init(0), Connect([a, b]));
    assert s.threads[0].todo == [Flush(a)] + [Flush(b)];
    s := FlushNothing(env, s, 0, a, 0, [Flush(b)]);
    assert [Flush(b)] == [Flush(b)] + [];
    s := FlushNothing(env, s, 0, b, 0, []);
  }

  /** One connection to both keys; the publisher of a message for both is still at `todo`. */
  ghost predicate PairState(s: State, a: Key, b: Key, store: Store, added: seq<Entry>, l: Link, y: Tally, todo: seq<Job>) {
    s.store == store && s.now == 0 && s.conns == [Conn([a, b], true, l, y)]
    && s.threads == [Thread(Idle, []), Thread(Idle, todo)]
    && s.honest && s.added == added
  }

  function WroteOnce(id: Uuid): Tally {
    Tally(multiset{id}, multiset{}, multiset{}, multiset{id}, multiset{})
  }

  lemma PostToBoth(env: Env, a: Key, b: Key, m: Message) returns (s: State)
    requires Concrete(a) && Concrete(b) && a != b && m.key == a && m.keys == [b]
    ensures Reachable(env, s)
    ensures PairState(s, a, b, map[a := [m]], [Entry(a, m)], OPEN, NOTHING, [Flush(a), Publish(b, m.(key := b)), Flush(b)])
  {
    var rest := [Flush(a), Publish(b, m.(key := b)), Flush(b)];
    s := IdleSubscriber(env, a, b);
    TwoTargets(a, b);
    assert PublishJobs(m, [a, b]) == [Publish(a, m)] + rest;
    s := Next(env, s, Post(m));
    assert s.threads == [Thread(Idle, []), Thread(Idle, [Publish(a, m)] + rest)];
    s := PublishOnly(env, s, 1, a, m, rest);
  }

  lemma FirstTarget(env: Env, a: Key, b: Key, m: Message) returns (s: State)
    requires Concrete(a) && Concrete(b) && a != b && m.key == a && m.keys == [b] && !m.Expired(0)
    ensures Reachable(env, s)
    ensures PairState(s, a, b, map[a := [m]], [Entry(a, m)], Link(false, map[m.id := a]), WroteOnce(m.id),
                      [Publish(b, m.(key := b)), Flush(b)])
  {
    s := PostToBoth(env, a, b, m);
    var rest := [Publish(b, m.(key := b)), Flush(b)];
    assert s.threads[1] == Thread(Idle, [Flush(a)] + rest);
    s := FlushWrites(env, s, 1, a, m, 0, rest);
    assert multiset{} + multiset{m.id} == multiset{m.id};
  }

  lemma SecondTarget(env: Env, a: Key, b: Key, m: Message) returns (s: State)
    requires Concrete(a) && Concrete(b) && a != b && m.key == a && m.keys == [b] && !m.Expired(0)
    ensures Reachable(env, s)
    ensures PairState(s, a, b, map[a := [m], b := [m.(key := b)]], [Entry(a, m), Entry(b, m.(key := b))],
                      Link(false, map[m.id := a]), WroteOnce(m.id), [])
  {
    s := FirstTarget(env, a, b, m);
    assert s.threads[1] == Thread(Idle, [Publish(b, m.(key := b))] + [Flush(b)]);
    s := PublishOnly(env, s, 1, b, m.(key := b), [Flush(b)]);
    assert s.added == [Entry(a, m), Entry(b, m.(key := b))];
    assert [Flush(b)] == [Flush(b)] + [];
    s := FlushSkips(env, s, 1, b, m.(key := b), 0, []);
  }

  lemma BothAcknowledged(env: Env, a: Key, b: Key, m: Message) returns (s: State)
    requires Concrete(a) && Concrete(b) && a != b && m.key == a && m.keys == [b] && !m.Expired(0)
    ensures Reachable(env, s)
    ensures s.store == map[a := [m], b := [m.(key := b)]] && s.now == 0 && s.honest
    ensures s.conns == [Conn([a, b], true, OPEN, AckedOnce(m.id))] && s.added == [Entry(a, m), Entry(b, m.(key := b))]
    ensures s.threads == [Thread(Idle, []), Thread(Idle, []), Thread(Idle, [Discard(a, m.id, ByAck(0))] + [])]
  {
    s := SecondTarget(env, a, b, m);
    s := Next(env, s, Ack(0, m.id));
    assert multiset{} + multiset{m.id} == multiset{m.id};
    assert map[m.id := a] - {m.id} == map[];
    assert s.threads[2].todo == [Discard(a, m.id, ByAck(0))];
    assert s.threads == [Thread(Idle, []), Thread(Idle, []), Thread(Idle, [Discard(a, m.id, ByAck(0))])];
    assert [Discard(a, m.id, ByAck(0))] + [] == [Discard(a, m.id, ByAck(0))];
  }

  /** src/client.go:195-196 says that an ACK removes the message from every key of the
      connection. It removes one entry: a message for two keys of one connection is written
      once, acknowledged, and with no task left still queued under the second key. */
  lemma OneAckOneEntry(env: Env, a: Key, b: Key, m: Message) returns (s: State)
    requires Concrete(a) && Concrete(b) && a != b && m.key == a && m.keys == [b] && !m.Expired(0)
    ensures Reachable(env, s) && Quiet(s)
    ensures s.store == map[b := [m.(key := b)]]
    ensures |s.conns| == 1 && s.conns[0].keys == [a, b] && s.conns[0].registered && s.conns[0].link == OPEN
    ensures s.conns[0].tally.writes == multiset{m.id} && s.conns[0].tally.acks == multiset{m.id}
    ensures s.now == 0 && s.honest && s.added == [Entry(a, m), Entry(b, m.(key := b))]
  {
    s := BothAcknowledged(env, a, b, m);
    s := DiscardOnly(env, s, 2, a, m, ByAck(0), []);
  }

  /** Hence a duplicate without any race: nothing is running, the message was posted once and its
      only write acknowledged, and the next reconcile pass writes it a second time. */
  lemma FanOutCanDuplicate(env: Env, a: Key, b: Key, m: Message) returns (s: State)
    requires Concrete(a) && Concrete(b) && a != b && m.key == a && m.keys == [b] && !m.Expired(0)
    ensures Reachable(env, s)
    ensures |s.conns| == 1 && !s.conns[0].link.closed && s.honest && s.added == [Entry(a, m), Entry(b, m.(key := b))]
    ensures s.conns[0].tally.acks[m.id] == 1 && s.conns[0].tally.writes[m.id] == 2
  {
    s := OneAckOneEntry(env, a, b, m);
    var t := |s.threads|;
    s := Next(env, s, Reflush([b]));
    assert s.threads[t] == Thread(Idle, [Flush(b)] + []);
    s := FlushWrites(env, s, t, b, m.(key := b), 0, []);
  }

  lemma {:induction false} FirstTargetIsKey(key: Key, keys: seq<Key>)
    requires key != ""
    ensures Distinct([key] + keys) != [] && Distinct([key] + keys)[0] == key
  {
    var all := [key] + keys;
    if keys == [] {
      SingleTarget(key);
    } else {
      assert all[..|all| - 1] == [key] + keys[..|keys| - 1];
      FirstTargetIsKey(key, keys[..|keys| - 1]);
    }
  }

  /** The jobs of a publish after its first target. */
  function OtherTargets(m: Message): seq<Job>
    requires m.key != ""
  {
    FirstTargetIsKey(m.key, m.keys);
    PublishJobs(m, Distinct([m.key] + m.keys)[1..])
  }

  lemma PublishStarts(m: Message)
    requires m.key != ""
    ensures Distinct([m.key] + m.keys) != []
    ensures PublishJobs(m, Distinct([m.key] + m.keys)) == [Publish(m.key, m)] + ([Flush(m.key)] + OtherTargets(m))
  {
    FirstTargetIsKey(m.key, m.keys);
    assert m.(key := m.key) == m;
  }

  /** A message published before anybody connects, not flushed yet. */
  lemma Letter(env: Env, now: int, m: Message) returns (s: State)
    requires m.key != ""
    ensures Reachable(env, s)
    ensures s.store == map[m.key := [m]] && s.now == now && s.exits == [] && s.conns == [] && s.offered == {}
    ensures s.threads == [Thread(Idle, [Flush(m.key)] + OtherTargets(m))]
  {
    Start(env, now);
    PublishStarts(m);
    s := Next(env, Init(now), Post(m));
    assert s.threads[0] == Thread(Idle, [Publish(m.key, m)] + ([Flush(m.key)] + OtherTargets(m)));
    s := PublishOnly(env, s, 0, m.key, m, [Flush(m.key)] + OtherTargets(m));
  }

  // ------------------------------------------ sweeping while an id is reused

  /** src/engine.go:484-486 says that a message added concurrently is never clobbered. A re-post
      under the same id between the sweeper's test and its deletion is. */
  lemma SweepCanRemoveTheLiving(env: Env, now: int, dead: Message, live: Message) returns (s: State)
    requires live.key == dead.key != "" && live.id == dead.id && dead.Expired(now)
    ensures Reachable(env, s)
    ensures s.exits == [Exit(dead.key, live, BySweep(dead), now)] && s.store == map[]
  {
    var key := dead.key;
    s := SweptToBe(env, now, dead);
    PublishStarts(live);
    s := Next(env, s, Post(live));
    assert s.threads[2] == Thread(Idle, [Publish(key, live)] + ([Flush(key)] + OtherTargets(live)));
    s := PublishOnly(env, s, 2, key, live, [Flush(key)] + OtherTargets(live));
    s := DiscardOnly(env, s, 1, key, live, BySweep(dead), [Scan(key, [])]);
  }

  /** The exact line, for any two entries that can lie in the queue of a key and any instant: a
      run in which the sweeper, having seen the one, removes the other exists if and only if the
      two share an id and the one that was seen has expired. Whether the one that goes is alive
      plays no part. */
  lemma SweepRemovesExactlyWhen(env: Env, time: int, seen: Message, gone: Message)
    requires gone.key == seen.key != ""
    ensures (exists s, x :: Reachable(env, s) && 0 <= x < |s.exits| && s.exits[x] == Exit(seen.key, gone, BySweep(seen), time))
       <==> gone.id == seen.id && seen.Expired(time)
  {
    if gone.id == seen.id && seen.Expired(time) {
      var s := SweepCanRemoveTheLiving(env, time, seen, gone);
      assert s.exits[0] == Exit(seen.key, gone, BySweep(seen), time);
    }
    if s, x :| Reachable(env, s) && 0 <= x < |s.exits| && s.exits[x] == Exit(seen.key, gone, BySweep(seen), time) {
      var steps, ss :| IsRun(env, steps, ss) && ss[|steps|] == s;
      EverythingAccounted(env, steps, ss, |steps|);
      assert Justified(env, s, seen.key, gone.id, BySweep(seen), time);
    }
  }

  /** The sweeper has read the queue. */
  lemma SweepBegun(env: Env, now: int, dead: Message) returns (s: State)
    requires dead.key != ""
    ensures Reachable(env, s)
    ensures s.store == map[dead.key := [dead]] && s.now == now && s.exits == []
    ensures |s.threads| == 2 && s.threads[1] == Thread(Idle, [Scan(dead.key, [dead])])
  {
    s := Letter(env, now, dead);
    s := Next(env, s, Sweep([dead.key]));
    assert s.threads[1].todo == [Inspect(dead.key)];
    s := Next(env, s, Go(1, 0));
    assert s.threads[1].todo == [Scan(dead.key, [dead])];
  }

  /** The sweeper has found the dead message and not deleted it yet. */
  lemma SweptToBe(env: Env, now: int, dead: Message) returns (s: State)
    requires dead.key != "" && dead.Expired(now)
    ensures Reachable(env, s)
    ensures s.store == map[dead.key := [dead]] && s.now == now && s.exits == []
    ensures |s.threads| == 2
    ensures s.threads[1] == Thread(Idle, [Discard(dead.key, dead.id, BySweep(dead))] + [Scan(dead.key, [])])
  {
    s := SweepBegun(env, now, dead);
    s := Next(env, s, Go(1, 0));
    assert [dead][1..] == [];
  }

  // --------------------------------------- keys that are patterns themselves

  /** With no task left, everything queued under `key` has been offered to every open
      connection that `clientsForKey` finds for it. */
  ghost predicate AlwaysOffered(env: Env, key: Key) {
    forall s, m, c: nat ::
      (Reachable(env, s) && Quiet(s) && m in QueueAt(s.store, key) && !m.Expired(s.now)
       && Receiver(env, s, c, key) && !s.conns[c].link.closed)
      ==> Offered(s, key, m, c)
  }

  /** A message waits under a key with wildcard characters that does not match itself; then a
      connection registers under exactly that key, and its backlog task finds nothing. */
  lemma StrandedBacklog(env: Env, key: Key, m: Message) returns (s: State)
    requires !KeyMatches(env.glob, key, key) && m.key == key && m.keys == []
    ensures Reachable(env, s) && Quiet(s)
    ensures QueueAt(s.store, key) == [m] && s.now == 0
    ensures Receiver(env, s, 0, key) && !s.conns[0].link.closed && s.offered == {}
  {
    s := Letter(env, 0, m);
    SingleTarget(key);
    assert OtherTargets(m) == [];
    s := Next(env, s, Advance(0, Choice(true, [], [])));
    s := Next(env, s, Advance(0, Choice(true, [], [])));
    assert s.threads == [Thread(Idle, [])];
    s := LateSubscriber(env, s, key, m);
  }

  lemma LateSubscriber(env: Env, s: State, key: Key, m: Message) returns (s': State)
    requires Reachable(env, s) && !KeyMatches(env.glob, key, key)
    requires s.threads == [Thread(Idle, [])] && s.store == map[key := [m]] && s.conns == [] && s.offered == {} && s.now == 0
    ensures Reachable(env, s') && Quiet(s')
    ensures QueueAt(s'.store, key) == [m] && s'.now == 0
    ensures Receiver(env, s', 0, key) && !s'.conns[0].link.closed && s'.offered == {}
  {
    s' := Next(env, s, Connect([key]));
    assert s'.threads[1].todo == [Expand(key)];
    s' := Next(env, s', Advance(1, Choice(true, [], [])));
    assert s'.threads[1].todo == [];
  }

  /** The exact line: the backlog of a key always reaches its receivers if and only if the key
      matches itself as a pattern. Keys without wildcard characters do. */
  lemma BacklogReachesExactly(env: Env, key: Key)
    ensures AlwaysOffered(env, key) <==> KeyMatches(env.glob, key, key)
  {
    if KeyMatches(env.glob, key, key) {
      forall s, m, c: nat | Reachable(env, s) && Quiet(s) && m in QueueAt(s.store, key) && !m.Expired(s.now)
                         && Receiver(env, s, c, key) && !s.conns[c].link.closed
        ensures Offered(s, key, m, c)
      {
        ReceivesImpliesCovers(env.glob, s.conns[c].keys, key);
        var steps, ss :| IsRun(env, steps, ss) && ss[|steps|] == s;
        QuietMeansDelivered(env, steps, ss, |steps|, key, m, c);
      }
    } else {
      var m := Message(Uuid(7), key, [], "", "v", 10, 0);
      var s := StrandedBacklog(env, key, m);
      assert m in QueueAt(s.store, key);
    }
  }
}
