/** Draining under every interleaving: however the flushes of a reconcile pass, the ACKs and their
    deletions interleave, by the time everything has come to rest the pass has drained something. */
module Passes {
  import opened Messages
  import opened Queues
  import opened Flushes
  import opened Protocol
  import opened Soundness
  import opened Wakeups
  import opened Flights
  import opened Ledger
  import opened Repeats
  import opened Resends
  import opened Drain
  import opened Rounds

  // ------------------------------------------------------- what can be under way

  /** An entry that the pass can send: its key is flushed, and it was queued at the start. */
  ghost predicate Sendable(s0: State, order: seq<Key>, key: Key, id: Uuid) {
    key in order && id in Ids(QueueAt(s0.store, key))
  }

  ghost predicate FlowJob(order: seq<Key>, job: Job) {
    match job
    case Flush(key) => key in order
    case Discard(_, _, ByAck(_)) => true
    case _ => false
  }

  ghost predicate FlowThread(s0: State, order: seq<Key>, th: Thread) {
    && (!th.stage.Idle? ==> th.stage.key in order)
    && (th.stage.Walking? ==>
          && th.stage.at !in {Clean, Hang}
          && forall x :: 0 <= x < |th.stage.q| ==> th.stage.q[x] in QueueAt(s0.store, th.stage.key))
    && forall n :: 0 <= n < |th.todo| ==> FlowJob(order, th.todo[n])
  }

  ghost predicate SameOpenConns(s0: State, s: State) {
    && |s.conns| == |s0.conns|
    && forall c :: 0 <= c < |s.conns| ==>
         s.conns[c].keys == s0.conns[c].keys && s.conns[c].registered && !s.conns[c].link.closed
  }

  /** Since the pass began in `s0` there have been its flushes, ACKs and their deletions only, and
      every write has come out well. */
  ghost predicate Flow(s0: State, order: seq<Key>, s: State) {
    && SameOpenConns(s0, s) && s.now == s0.now
    && (forall key, m :: m in QueueAt(s.store, key) ==> m in QueueAt(s0.store, key))
    && (forall t :: 0 <= t < |s.threads| ==> FlowThread(s0, order, s.threads[t]))
    && (forall c: nat, id :: c < |s.conns| && id in s.conns[c].link.inflight ==>
          Sendable(s0, order, s.conns[c].link.inflight[id], id))
  }

  predicate GoodStep(step: Step) {
    (step.Advance? && step.ch.ok) || step.Ack?
  }

  lemma TakeFlows(env: Env, s0: State, order: seq<Key>, s: State, t: nat, ch: Choice)
    requires Sound(env, s) && Flow(s0, order, s) && CanAdvance(env, s, t, ch) && s.threads[t].stage.Idle?
    ensures Flow(s0, order, Take(env, s, t, ch))
  {
    var s', todo := Take(env, s, t, ch), s.threads[t].todo;
    assert FlowThread(s0, order, s.threads[t]);
    assert FlowJob(order, todo[0]);
    assert s'.threads[t].todo == todo[1..];
    if todo[0].Discard? {
      forall key, m | m in QueueAt(s'.store, key) ensures m in QueueAt(s0.store, key) {
        DeleteTouchesOneKey(s.store, todo[0].key, todo[0].id, key);
        assert DistinctIds(QueueAt(s.store, key));
        WithoutKeepsIdsDistinct(QueueAt(s.store, key), todo[0].id);
        assert m in QueueAt(s.store, key);
      }
    }
  }

  lemma WalkThreadFlows(env: Env, s0: State, order: seq<Key>, s: State, t: nat, ch: Choice)
    requires Flow(s0, order, s) && CanAdvance(env, s, t, ch) && ch.ok && s.threads[t].stage.Walking?
    ensures FlowThread(s0, order, Walk(s, t, ch).threads[t])
  {
    assert FlowThread(s0, order, s.threads[t]);
  }

  lemma WalkLinksFlow(env: Env, s0: State, order: seq<Key>, s: State, t: nat, ch: Choice, c: nat, id: Uuid)
    requires Sound(env, s) && Flow(s0, order, s) && CanAdvance(env, s, t, ch) && s.threads[t].stage.Walking? && c < |s.conns|
    ensures c < |Walk(s, t, ch).conns| && !Walk(s, t, ch).conns[c].link.closed
    ensures id in Walk(s, t, ch).conns[c].link.inflight ==> Sendable(s0, order, Walk(s, t, ch).conns[c].link.inflight[id], id)
  {
    var w := s.threads[t].stage;
    assert ThreadSound(env, s, s.threads[t]);
    assert FlowThread(s0, order, s.threads[t]);
    if !Passing(w) {
      assert w.q[w.i] in QueueAt(s0.store, w.key);
      assert Sendable(s0, order, w.key, w.q[w.i].id);
    }
  }

  lemma WalkFlows(env: Env, s0: State, order: seq<Key>, s: State, t: nat, ch: Choice)
    requires Sound(env, s) && Flow(s0, order, s) && CanAdvance(env, s, t, ch) && ch.ok && s.threads[t].stage.Walking?
    ensures Flow(s0, order, Walk(s, t, ch))
  {
    AdvanceFrame(env, s, t, ch);
    WalkThreadFlows(env, s0, order, s, t, ch);
    forall c: nat, id | c < |s.conns|
      ensures !Walk(s, t, ch).conns[c].link.closed
      ensures id in Walk(s, t, ch).conns[c].link.inflight ==> Sendable(s0, order, Walk(s, t, ch).conns[c].link.inflight[id], id)
    {
      WalkLinksFlow(env, s0, order, s, t, ch, c, id);
    }
  }

  lemma SnapshotFlows(env: Env, s0: State, order: seq<Key>, s: State, t: nat, ch: Choice)
    requires Flow(s0, order, s) && CanAdvance(env, s, t, ch) && (s.threads[t].stage.Entered? || s.threads[t].stage.Snapped?)
    ensures Flow(s0, order, Moved(env, s, t, ch))
  {
    assert FlowThread(s0, order, s.threads[t]);
  }

  lemma StepFlows(env: Env, s0: State, order: seq<Key>, s: State, step: Step)
    requires Sound(env, s) && Flow(s0, order, s) && GoodStep(step) && Enabled(env, s, step)
    ensures Flow(s0, order, Exec(env, s, step))
  {
    if step.Advance? {
      match s.threads[step.t].stage
      case Idle => TakeFlows(env, s0, order, s, step.t, step.ch);
      case Walking(_, _, _, _, _, _) => WalkFlows(env, s0, order, s, step.t, step.ch);
      case _ => SnapshotFlows(env, s0, order, s, step.t, step.ch);
    }
  }

  // ------------------------------------------------------- the entry that goes

  /** Some entry of the id has gone, or its deletion is under way. */
  ghost predicate Lost(s0: State, order: seq<Key>, s: State, c: nat, id: Uuid) {
    exists k :: Sendable(s0, order, k, id) && (Pending(s, c, k, id) || !Has(QueueAt(s.store, k), id))
  }

  /** The id is still to be sent to the connection, or is in flight on it, or some entry of it
      has gone or is going. */
  ghost predicate Carried(env: Env, s0: State, order: seq<Key>, s: State, key: Key, c: nat, id: Uuid) {
    && c < |s.conns|
    && (|| (Takes(s, c, id) && StillComes(env, s, key, c, id))
        || id in s.conns[c].link.inflight
        || Lost(s0, order, s, c, id))
  }

  lemma NothingIsAdded(env: Env, s0: State, order: seq<Key>, s: State, t: nat, ch: Choice, k: Key, id: Uuid)
    requires Sound(env, s) && Flow(s0, order, s) && CanAdvance(env, s, t, ch) && !Has(QueueAt(s.store, k), id)
    ensures !Has(QueueAt(Moved(env, s, t, ch).store, k), id)
  {
    AdvanceFrame(env, s, t, ch);
    if s.threads[t].stage.Idle? {
      assert FlowThread(s0, order, s.threads[t]);
      assert FlowJob(order, s.threads[t].todo[0]);
      if s.threads[t].todo[0].Discard? {
        DeleteTouchesOneKey(s.store, s.threads[t].todo[0].key, s.threads[t].todo[0].id, k);
        WithoutHas(QueueAt(s.store, k), s.threads[t].todo[0].id, id);
      }
    }
  }

  lemma AdvanceStaysLost(env: Env, s0: State, order: seq<Key>, s: State, t: nat, ch: Choice, c: nat, id: Uuid)
    requires Sound(env, s) && Flow(s0, order, s) && CanAdvance(env, s, t, ch) && Lost(s0, order, s, c, id)
    ensures Lost(s0, order, Moved(env, s, t, ch), c, id)
  {
    var k :| Sendable(s0, order, k, id) && (Pending(s, c, k, id) || !Has(QueueAt(s.store, k), id));
    if !Has(QueueAt(s.store, k), id) {
      NothingIsAdded(env, s0, order, s, t, ch, k, id);
    } else if s.threads[t].stage.Idle? {
      TakeKeepsPending(env, s, t, ch, c, k, id);
    } else {
      var u, n :| 0 <= u < |s.threads| && 0 <= n < |s.threads[u].todo| && s.threads[u].todo[n] == Discard(k, id, ByAck(c));
      AdvanceFrame(env, s, t, ch);
      assert Moved(env, s, t, ch).threads[u].todo[n] == Discard(k, id, ByAck(c));
    }
  }

  lemma AckStaysLost(env: Env, s0: State, order: seq<Key>, s: State, d: nat, x: Uuid, c: nat, id: Uuid)
    requires d < |s.conns| && Lost(s0, order, s, c, id)
    ensures Lost(s0, order, Acked(s, d, x), c, id)
  {
    var k :| Sendable(s0, order, k, id) && (Pending(s, c, k, id) || !Has(QueueAt(s.store, k), id));
    if Pending(s, c, k, id) {
      var u, n :| 0 <= u < |s.threads| && 0 <= n < |s.threads[u].todo| && s.threads[u].todo[n] == Discard(k, id, ByAck(c));
      assert Acked(s, d, x).threads[u].todo[n] == Discard(k, id, ByAck(c));
    }
  }

  lemma AckStaysCarried(env: Env, s0: State, order: seq<Key>, s: State, d: nat, x: Uuid, key: Key, c: nat, id: Uuid)
    requires Flow(s0, order, s) && d < |s.conns| && Carried(env, s0, order, s, key, c, id)
    ensures Carried(env, s0, order, Acked(s, d, x), key, c, id)
  {
    var s' := Acked(s, d, x);
    if Lost(s0, order, s, c, id) {
      AckStaysLost(env, s0, order, s, d, x, c, id);
    } else if id in s.conns[c].link.inflight {
      if d == c && x == id {
        var k := s.conns[c].link.inflight[id];
        assert s'.threads[|s.threads|].todo[0] == Discard(k, id, ByAck(c));
        assert Pending(s', c, k, id);
      }
    } else {
      AckLeavesComing(env, s, d, x, key, c, id);
    }
  }

  lemma AckLeavesComing(env: Env, s: State, d: nat, x: Uuid, key: Key, c: nat, id: Uuid)
    requires d < |s.conns| && c < |s.conns| && StillComes(env, s, key, c, id)
    ensures StillComes(env, Acked(s, d, x), key, c, id)
  {
    var s' := Acked(s, d, x);
    if InSnapshot(s, c, id) {
      var u: nat :| u < |s.threads| && Comes(s.now, s.threads[u].stage, c, id);
      assert Comes(s'.now, s'.threads[u].stage, c, id);
    } else {
      var u: nat :| u < |s.threads| && WillFlush(env, s.threads[u], key, c);
      assert WillFlush(env, s'.threads[u], key, c);
      assert Queued(s', key, id);
    }
  }

  // ------------------------------------------------------- steps of the tasks

  /** A connection that takes the id still does, unless the id is put in flight. */
  lemma StillTakes(env: Env, s: State, t: nat, ch: Choice, c: nat, id: Uuid)
    requires Sound(env, s) && Takes(s, c, id) && Untroubled(s, c) && CanAdvance(env, s, t, ch) && ch.ok
    ensures Takes(Moved(env, s, t, ch), c, id) || (c < |Moved(env, s, t, ch).conns| && id in Moved(env, s, t, ch).conns[c].link.inflight)
  {
    AdvanceFrame(env, s, t, ch);
    if s.threads[t].stage.Walking? {
      assert ThreadSound(env, s, s.threads[t]);
      assert !CleansUp(s.threads[t].stage, c);
    }
  }

  lemma WriteMeansInFlight(env: Env, s: State, t: nat, ch: Choice, c: nat, id: Uuid)
    requires Sound(env, s) && Takes(s, c, id) && CanAdvance(env, s, t, ch) && s.threads[t].stage.Walking?
    requires IsAt(Walk(s, t, ch).threads[t], Write, c, id)
    ensures c < |Walk(s, t, ch).conns| && id in Walk(s, t, ch).conns[c].link.inflight
  {
    assert ThreadSound(env, s, s.threads[t]);
  }

  /** In a snapshot, until the id has its turn. */
  lemma SnapshotStays(env: Env, s: State, t: nat, ch: Choice, c: nat, id: Uuid)
    requires Sound(env, s) && Takes(s, c, id) && Untroubled(s, c) && CanAdvance(env, s, t, ch) && ch.ok && InSnapshot(s, c, id)
    requires Takes(Moved(env, s, t, ch), c, id)
    ensures InSnapshot(Moved(env, s, t, ch), c, id)
  {
    var s' := Moved(env, s, t, ch);
    AdvanceFrame(env, s, t, ch);
    var u: nat :| u < |s.threads| && Comes(s.now, s.threads[u].stage, c, id);
    if u == t {
      PairIsCarried(env, s, t, ch, c, id);
      if IsAt(Walk(s, t, ch).threads[t], Write, c, id) {
        WriteMeansInFlight(env, s, t, ch, c, id);
      }
    }
    assert Comes(s'.now, s'.threads[u].stage, c, id);
  }

  ghost predicate StillComes(env: Env, s: State, key: Key, c: nat, id: Uuid) {
    InSnapshot(s, c, id) || ComingUnder(env, s, key, c, id)
  }

  /** The step of another goroutine. */
  lemma OthersLeaveComing(env: Env, s0: State, order: seq<Key>, s: State, t: nat, ch: Choice, key: Key, c: nat, id: Uuid, u: nat)
    requires Settled(env, s, id) && Flow(s0, order, s) && c < |s.conns| && CanAdvance(env, s, t, ch)
    requires Queued(s, key, id) && Receiver(env, s, c, key) && u < |s.threads| && u != t && WillFlush(env, s.threads[u], key, c)
    ensures ComingUnder(env, Moved(env, s, t, ch), key, c, id) || !Has(QueueAt(Moved(env, s, t, ch).store, key), id)
  {
    var s' := Moved(env, s, t, ch);
    AdvanceFrame(env, s, t, ch);
    assert WillFlush(env, s'.threads[u], key, c);
    if s.threads[t].stage.Idle? {
      QueuedStays(env, s0, order, s, t, ch, key, id);
    } else {
      assert Queued(s', key, id);
    }
  }

  /** Queued with a task bound to flush, until the entry goes. */
  lemma ComingStays(env: Env, s0: State, order: seq<Key>, s: State, t: nat, ch: Choice, key: Key, c: nat, id: Uuid)
    requires Settled(env, s, id) && AllUniform(s) && Flow(s0, order, s) && c < |s.conns|
    requires CanAdvance(env, s, t, ch) && ComingUnder(env, s, key, c, id)
    ensures StillComes(env, Moved(env, s, t, ch), key, c, id) || !Has(QueueAt(Moved(env, s, t, ch).store, key), id)
  {
    var u: nat :| u < |s.threads| && WillFlush(env, s.threads[u], key, c);
    if u != t {
      OthersLeaveComing(env, s0, order, s, t, ch, key, c, id, u);
    } else if n: nat :| n < |s.threads[u].todo| && JobBound(env, s.threads[u].todo[n], key) {
      if s.threads[t].stage.Idle? {
        TakeCarries(env, s, t, ch, key, c, id, n);
      } else {
        OthersCarry(env, s, t, ch, key, c, id, u, n);
      }
    } else {
      SnapshotCarries(env, s, t, ch, key, c, id);
    }
  }

  lemma QueuedStays(env: Env, s0: State, order: seq<Key>, s: State, t: nat, ch: Choice, key: Key, id: Uuid)
    requires Settled(env, s, id) && Flow(s0, order, s) && CanAdvance(env, s, t, ch) && s.threads[t].stage.Idle? && Queued(s, key, id)
    ensures Queued(Take(env, s, t, ch), key, id) || !Has(QueueAt(Take(env, s, t, ch).store, key), id)
  {
    assert FlowThread(s0, order, s.threads[t]);
    assert FlowJob(order, s.threads[t].todo[0]);
    if s.threads[t].todo[0].Discard? {
      var k, gone := s.threads[t].todo[0].key, s.threads[t].todo[0].id;
      var m :| m in QueueAt(s.store, key) && m.id == id && !m.Expired(s.now);
      DeleteTouchesOneKey(s.store, k, gone, key);
      assert DistinctIds(QueueAt(s.store, key));
      WithoutHas(QueueAt(s.store, key), gone, id);
      WithoutKeepsIdsDistinct(QueueAt(s.store, key), gone);
      assert m.id != gone ==> m in Without(QueueAt(s.store, key), gone);
    } else {
      TakeLeavesQueued(env, s, t, ch, key, id);
    }
  }

  lemma FlowIsUntroubled(s0: State, order: seq<Key>, s: State, c: nat)
    requires Flow(s0, order, s)
    ensures Untroubled(s, c)
  {
    forall t | 0 <= t < |s.threads| ensures !CleansUp(s.threads[t].stage, c) {
      assert FlowThread(s0, order, s.threads[t]);
    }
  }

  lemma AdvanceStaysCarried(env: Env, s0: State, order: seq<Key>, s: State, t: nat, ch: Choice, key: Key, c: nat, id: Uuid)
    requires Settled(env, s, id) && AllUniform(s) && Flow(s0, order, s) && Sendable(s0, order, key, id)
    requires CanAdvance(env, s, t, ch) && ch.ok && Carried(env, s0, order, s, key, c, id)
    ensures Carried(env, s0, order, Moved(env, s, t, ch), key, c, id)
  {
    var s' := Moved(env, s, t, ch);
    AdvanceFrame(env, s, t, ch);
    FlowIsUntroubled(s0, order, s, c);
    if Lost(s0, order, s, c, id) {
      AdvanceStaysLost(env, s0, order, s, t, ch, c, id);
    } else if id in s.conns[c].link.inflight {
      StaysInFlight(env, s, t, ch, c, id);
    } else {
      StillTakes(env, s, t, ch, c, id);
      if Takes(s', c, id) {
        if InSnapshot(s, c, id) {
          SnapshotStays(env, s, t, ch, c, id);
        } else {
          ComingStays(env, s0, order, s, t, ch, key, c, id);
        }
      }
    }
  }

  lemma StaysInFlight(env: Env, s: State, t: nat, ch: Choice, c: nat, id: Uuid)
    requires Sound(env, s) && Untroubled(s, c) && CanAdvance(env, s, t, ch) && c < |s.conns| && id in s.conns[c].link.inflight
    ensures c < |Moved(env, s, t, ch).conns| && id in Moved(env, s, t, ch).conns[c].link.inflight
  {
    AdvanceFrame(env, s, t, ch);
    if s.threads[t].stage.Walking? {
      assert ThreadSound(env, s, s.threads[t]);
      assert !CleansUp(s.threads[t].stage, c);
    }
  }

  // ----------------------------------------------------------------- whole passes

  /** What holds of every state of the pass. */
  ghost predicate OnTheWay(env: Env, s0: State, order: seq<Key>, s: State, key: Key, c: nat, id: Uuid) {
    Flow(s0, order, s) && Carried(env, s0, order, s, key, c, id)
  }

  lemma FlowPublishesNothing(s0: State, order: seq<Key>, s: State, id: Uuid)
    requires Flow(s0, order, s)
    ensures NotToBePublished(s, id)
  {
    forall t, n | 0 <= t < |s.threads| && 0 <= n < |s.threads[t].todo| ensures !s.threads[t].todo[n].Publish? {
      assert FlowThread(s0, order, s.threads[t]);
      assert FlowJob(order, s.threads[t].todo[n]);
    }
  }

  lemma StepOnTheWay(env: Env, s0: State, order: seq<Key>, s: State, step: Step, key: Key, c: nat, id: Uuid)
    requires Settled(env, s, id) && AllUniform(s) && OnTheWay(env, s0, order, s, key, c, id) && Sendable(s0, order, key, id)
    requires GoodStep(step) && Enabled(env, s, step)
    ensures OnTheWay(env, s0, order, Exec(env, s, step), key, c, id)
  {
    StepFlows(env, s0, order, s, step);
    if step.Advance? {
      AdvanceStaysCarried(env, s0, order, s, step.t, step.ch, key, c, id);
    } else {
      AckStaysCarried(env, s0, order, s, step.c, step.id, key, c, id);
    }
  }

  lemma RunOnTheWay(env: Env, steps: seq<Step>, ss: seq<State>, n: nat, s0: State, order: seq<Key>, key: Key, c: nat, id: Uuid)
    requires IsRun(env, steps, ss) && n < |steps| && GoodStep(steps[n])
    requires OnTheWay(env, s0, order, ss[n], key, c, id) && Sendable(s0, order, key, id)
    ensures OnTheWay(env, s0, order, ss[n + 1], key, c, id)
  {
    FlowPublishesNothing(s0, order, ss[n], id);
    ReachableIsSettled(env, steps, ss, n, id);
    TasksAreUniform(env, steps, ss, n);
    StepOnTheWay(env, s0, order, ss[n], steps[n], key, c, id);
  }

  lemma {:induction false} AllOnTheWay(env: Env, ss: seq<State>, from: nat, n: nat, s0: State, order: seq<Key>, key: Key, c: nat, id: Uuid)
    requires from <= n < |ss| && OnTheWay(env, s0, order, ss[from], key, c, id)
    requires forall k :: from <= k < n && OnTheWay(env, s0, order, ss[k], key, c, id) ==> OnTheWay(env, s0, order, ss[k + 1], key, c, id)
    ensures OnTheWay(env, s0, order, ss[n], key, c, id)
  {
    if n > from {
      AllOnTheWay(env, ss, from, n - 1, s0, order, key, c, id);
      assert OnTheWay(env, s0, order, ss[n - 1 + 1], key, c, id);
    }
  }

  /** A reconcile pass from rest: the keys are those that the reconcile loop selects, every write
      comes out well, clients acknowledge what and when they like, and at the end nothing is left
      to do and nothing in flight. */
  ghost predicate IsPass(env: Env, steps: seq<Step>, ss: seq<State>, from: nat, order: seq<Key>) {
    && IsRun(env, steps, ss) && from < |steps|
    && Calm(ss[from]) && Quiet(ss[from]) && Rested(View(ss[from]).peers)
    && steps[from] == Reflush(order)
    && (forall key :: key in order <==> ReconcileKey(env.glob, View(ss[from]).peers, ss[from].store, key))
    && (forall k :: from < k < |steps| ==> GoodStep(steps[k]))
    && Quiet(ss[|steps|]) && Rested(View(ss[|steps|]).peers)
  }

  /** The start of a pass, for a connection that an entry waits for. */
  lemma PassStarts(env: Env, s0: State, order: seq<Key>, key: Key, c: nat, id: Uuid)
    requires Calm(s0) && Quiet(s0) && Rested(View(s0).peers) && Sendable(s0, order, key, id)
    requires c < |s0.conns| && Covers(env.glob, s0.conns[c].keys, key)
    ensures OnTheWay(env, s0, order, Exec(env, s0, Reflush(order)), key, c, id)
  {
    var s, t := Exec(env, s0, Reflush(order)), |s0.threads|;
    forall d: nat | d < |s0.conns| ensures s0.conns[d].link.inflight == map[] {
      assert View(s0).peers[d].inflight == map[];
    }
    CoversImpliesReceives(env.glob, s0.conns[c].keys, key);
    var n: nat :| n < |order| && order[n] == key;
    assert JobBound(env, s.threads[t].todo[n], key);
    assert WillFlush(env, s.threads[t], key, c);
    var m :| m in QueueAt(s0.store, key) && m.id == id;
    assert Queued(s, key, id);
  }

  /** An entry that waits at the start of a pass costs some entry of its id its place. */
  lemma PassTakesSomething(env: Env, steps: seq<Step>, ss: seq<State>, from: nat, order: seq<Key>, key: Key, c: nat, id: Uuid) returns (k: Key)
    requires IsPass(env, steps, ss, from, order) && Sendable(ss[from], order, key, id)
    requires c < |ss[from].conns| && Covers(env.glob, ss[from].conns[c].keys, key)
    ensures Sendable(ss[from], order, k, id) && !Has(QueueAt(ss[|steps|].store, k), id)
    ensures Flow(ss[from], order, ss[|steps|])
  {
    var s0, end := ss[from], ss[|steps|];
    PassStarts(env, s0, order, key, c, id);
    forall r | from + 1 <= r < |steps| && OnTheWay(env, s0, order, ss[r], key, c, id)
      ensures OnTheWay(env, s0, order, ss[r + 1], key, c, id)
    {
      RunOnTheWay(env, steps, ss, r, s0, order, key, c, id);
    }
    AllOnTheWay(env, ss, from + 1, |steps|, s0, order, key, c, id);
    RestHasLost(env, s0, order, end, key, c, id);
    k :| Sendable(s0, order, k, id) && (Pending(end, c, k, id) || !Has(QueueAt(end.store, k), id));
  }

  /** At rest nothing is coming, in flight or pending. */
  lemma RestHasLost(env: Env, s0: State, order: seq<Key>, s: State, key: Key, c: nat, id: Uuid)
    requires Quiet(s) && Rested(View(s).peers) && Carried(env, s0, order, s, key, c, id)
    ensures Lost(s0, order, s, c, id) && forall k :: !Pending(s, c, k, id)
  {
    assert View(s).peers[c].inflight == map[];
  }

  /** However the pass is interleaved, if a queue entry had a matching connection when it began,
      then when all is at rest there are strictly fewer such entries and no new ones, and the next
      pass can begin. */
  lemma EveryPassDrains(env: Env, steps: seq<Step>, ss: seq<State>, from: nat, order: seq<Key>)
    requires IsPass(env, steps, ss, from, order)
    requires WaitingPairs(env.glob, View(ss[from]).peers, ss[from].store) != {}
    ensures WaitingPairs(env.glob, View(ss[|steps|]).peers, ss[|steps|].store)
          < WaitingPairs(env.glob, View(ss[from]).peers, ss[from].store)
    ensures Calm(ss[|steps|])
  {
    var s0, end := ss[from], ss[|steps|];
    var peers := View(s0).peers;
    var p :| p in WaitingPairs(env.glob, peers, s0.store);
    ReconcileCovers(env.glob, peers, s0.store, p.0);
    var c: nat :| c < |peers| && Covers(env.glob, peers[c].keys, p.0);
    var k := PassTakesSomething(env, steps, ss, from, order, p.0, c, p.1);
    FewerWait(env, s0, order, end, k, p.1);
  }

  lemma FewerWait(env: Env, s0: State, order: seq<Key>, s: State, k: Key, id: Uuid)
    requires Flow(s0, order, s) && Sendable(s0, order, k, id) && !Has(QueueAt(s.store, k), id)
    requires forall key :: key in order <==> ReconcileKey(env.glob, View(s0).peers, s0.store, key)
    ensures WaitingPairs(env.glob, View(s).peers, s.store) < WaitingPairs(env.glob, View(s0).peers, s0.store)
  {
    var before, after := WaitingPairs(env.glob, View(s0).peers, s0.store), WaitingPairs(env.glob, View(s).peers, s.store);
    ReconcileCovers(env.glob, View(s0).peers, s0.store, k);
    assert (k, id) in before;
    forall p | p in after ensures p in before && p != (k, id) {
      var m :| m in s.store[p.0] && m.id == p.1;
      assert m in QueueAt(s.store, p.0);
      assert m in QueueAt(s0.store, p.0);
      var c: nat :| c < |View(s).peers| && Covers(env.glob, View(s).peers[c].keys, p.0);
      assert Covers(env.glob, View(s0).peers[c].keys, p.0);
      assert Has(QueueAt(s.store, p.0), p.1);
    }
  }
}
