/** When a message is written to a connection once more: the windows an ACK leaves open, and the
    exact condition under which the tasks of the server can still write an id. */
module Repeats {
  import opened Messages
  import opened Queues
  import opened Protocol
  import opened Soundness
  import opened Flights
  import opened Ledger
  import opened Fifo
  import opened Liveness

  // --------------------------------------------------------- what an ACK leaves

  /** The id was added at most once, and under no other key. */
  ghost predicate Single(s: State, key: Key, id: Uuid) {
    Sole(s, key, id) && Once(s, key, id)
  }

  /** The id was added at most once under the key. */
  ghost predicate Once(s: State, key: Key, id: Uuid) {
    forall a, b :: 0 <= a < b < |s.added| && s.added[a].key == key && s.added[a].m.id == id ==>
      !(s.added[b].key == key && s.added[b].m.id == id)
  }

  /** The second half of an accepted ACK is still to run. */
  ghost predicate Pending(s: State, c: nat, key: Key, id: Uuid) {
    exists t, n :: 0 <= t < |s.threads| && 0 <= n < |s.threads[t].todo| && s.threads[t].todo[n] == Discard(key, id, ByAck(c))
  }

  ghost predicate WasAdded(s: State, key: Key, id: Uuid) {
    exists e :: e in s.added && e.key == key && e.m.id == id
  }

  /** The record of an accepted ACK: its key is one the id was added under, and if the id was
      added there once the entry is gone, or about to go. */
  ghost predicate AckDone(s: State, c: nat, key: Key, id: Uuid) {
    WasAdded(s, key, id) && (Once(s, key, id) ==> Pending(s, c, key, id) || !Has(QueueAt(s.store, key), id))
  }

  ghost predicate AcksDone(s: State) {
    && (forall c, key, id :: (c, key, id) in s.settled ==> AckDone(s, c, key, id))
    && (forall c: nat, id :: c < |s.conns| && id in s.conns[c].link.inflight ==> WasAdded(s, s.conns[c].link.inflight[id], id))
    && (forall c: nat, id :: c < |s.conns| && s.conns[c].tally.acks[id] > 0 ==> exists key :: (c, key, id) in s.settled)
  }

  lemma StaysAdded(s: State, s': State, key: Key, id: Uuid)
    requires WasAdded(s, key, id) && Grown(s, s')
    ensures WasAdded(s', key, id)
  {
    var e :| e in s.added && e.key == key && e.m.id == id;
    assert e in s'.added;
  }

  lemma OnceBefore(s: State, s': State, key: Key, id: Uuid)
    requires s.added <= s'.added && Once(s', key, id)
    ensures Once(s, key, id)
  {
    forall a, b | 0 <= a < b < |s.added| && s.added[a].key == key && s.added[a].m.id == id
      ensures !(s.added[b].key == key && s.added[b].m.id == id)
    {
      assert s'.added[a] == s.added[a] && s'.added[b] == s.added[b];
    }
  }

  /** An id that was added is not added again as long as it counts as added once. */
  lemma NotAddedTwice(s: State, key: Key, m: Message)
    requires WasAdded(s, key, m.id)
    ensures !Once(Added(s, key, m), key, m.id)
  {
    var e :| e in s.added && e.key == key && e.m.id == m.id;
    var a :| 0 <= a < |s.added| && s.added[a] == e;
    var s' := Added(s, key, m);
    assert s'.added[a] == e && s'.added[|s.added|] == Entry(key, m);
  }

  /** Nobody puts an entry of an id back that was added once already. */
  lemma TakeKeepsGone(env: Env, s: State, t: nat, ch: Choice, key: Key, id: Uuid)
    requires Sound(env, s) && CanAdvance(env, s, t, ch) && s.threads[t].stage.Idle?
    requires WasAdded(s, key, id) && !Has(QueueAt(s.store, key), id) && Once(Take(env, s, t, ch), key, id)
    ensures !Has(QueueAt(Take(env, s, t, ch).store, key), id)
  {
    match s.threads[t].todo[0]
    case Publish(k, m) =>
      AddTouchesOneKey(s.store, k, m, key);
      UpsertHas(QueueAt(s.store, key), m, id);
      if m.id == id && k == key {
        OnceBefore(Added(s, k, m), Take(env, s, t, ch), key, id);
        NotAddedTwice(s, key, m);
      }
    case Discard(k, gone, _) =>
      DeleteTouchesOneKey(s.store, k, gone, key);
      WithoutHas(QueueAt(s.store, key), gone, id);
    case _ =>
  }

  /** A job that is not taken up yet stays in line. */
  lemma JobMoves(env: Env, s: State, t: nat, ch: Choice, n: nat) returns (n': nat)
    requires CanAdvance(env, s, t, ch) && s.threads[t].stage.Idle? && 0 < n < |s.threads[t].todo|
    ensures n' < |Take(env, s, t, ch).threads[t].todo| && Take(env, s, t, ch).threads[t].todo[n'] == s.threads[t].todo[n]
  {
    TakeTodo(env, s, t, ch);
    n' := |Front(s, t, ch)| + n - 1;
  }

  /** The second half stays pending until it runs, and when it runs the entry is gone. */
  lemma TakeKeepsPending(env: Env, s: State, t: nat, ch: Choice, c: nat, key: Key, id: Uuid)
    requires Sound(env, s) && CanAdvance(env, s, t, ch) && s.threads[t].stage.Idle? && Pending(s, c, key, id)
    ensures Pending(Take(env, s, t, ch), c, key, id) || !Has(QueueAt(Take(env, s, t, ch).store, key), id)
  {
    var s' := Take(env, s, t, ch);
    AdvanceFrame(env, s, t, ch);
    var u, n :| 0 <= u < |s.threads| && 0 <= n < |s.threads[u].todo| && s.threads[u].todo[n] == Discard(key, id, ByAck(c));
    if u != t {
      assert s'.threads[u].todo[n] == Discard(key, id, ByAck(c));
    } else if n == 0 {
      WithoutHas(QueueAt(s.store, key), id, id);
    } else {
      var n' := JobMoves(env, s, t, ch, n);
      assert s'.threads[t].todo[n'] == Discard(key, id, ByAck(c));
    }
  }

  lemma AdvanceKeepsAckDone(env: Env, s: State, t: nat, ch: Choice, c: nat, key: Key, id: Uuid)
    requires Sound(env, s) && CanAdvance(env, s, t, ch) && AckDone(s, c, key, id)
    ensures AckDone(Moved(env, s, t, ch), c, key, id)
  {
    var s' := Moved(env, s, t, ch);
    AdvanceFrame(env, s, t, ch);
    AdvanceGrows(env, s, t, ch);
    StaysAdded(s, s', key, id);
    if Once(s', key, id) {
      if s.threads[t].stage.Idle? {
        OnceBefore(s, s', key, id);
        if Pending(s, c, key, id) {
          TakeKeepsPending(env, s, t, ch, c, key, id);
        } else {
          TakeKeepsGone(env, s, t, ch, key, id);
        }
      } else if Pending(s, c, key, id) {
        var u, n :| 0 <= u < |s.threads| && 0 <= n < |s.threads[u].todo| && s.threads[u].todo[n] == Discard(key, id, ByAck(c));
        assert s'.threads[u].todo[n] == Discard(key, id, ByAck(c));
      }
    }
  }

  lemma OtherStepKeepsAckDone(env: Env, s: State, step: Step, c: nat, key: Key, id: Uuid)
    requires Enabled(env, s, step) && !step.Advance? && AckDone(s, c, key, id)
    ensures AckDone(Exec(env, s, step), c, key, id)
  {
    var s' := Exec(env, s, step);
    OtherStepsFrame(env, s, step);
    if Pending(s, c, key, id) {
      var u, n :| 0 <= u < |s.threads| && 0 <= n < |s.threads[u].todo| && s.threads[u].todo[n] == Discard(key, id, ByAck(c));
      assert s'.threads[u].todo[n] == Discard(key, id, ByAck(c));
    }
  }

  /** What is put in flight was published under the key it is put in flight for. */
  lemma MarkedWasAdded(env: Env, s: State, step: Step, c: nat, id: Uuid)
    requires Sound(env, s) && AllSourced(s) && AcksDone(s) && Enabled(env, s, step)
    requires c < |Exec(env, s, step).conns| && id in Exec(env, s, step).conns[c].link.inflight
    ensures WasAdded(Exec(env, s, step), Exec(env, s, step).conns[c].link.inflight[id], id)
  {
    var s' := Exec(env, s, step);
    var key := s'.conns[c].link.inflight[id];
    StepGrows(env, s, step);
    if c < |s.conns| && id in s.conns[c].link.inflight && s.conns[c].link.inflight[id] == key {
      StaysAdded(s, s', key, id);
    } else {
      NewlyMarked(env, s, step, c, id);
      var w := s.threads[step.t].stage;
      assert Sourced(s, s.threads[step.t]);
      assert Entry(w.key, w.q[w.i]) in s.added;
      StaysAdded(s, s', key, id);
    }
  }

  lemma NewlyMarked(env: Env, s: State, step: Step, c: nat, id: Uuid)
    requires Enabled(env, s, step) && c < |Exec(env, s, step).conns| && id in Exec(env, s, step).conns[c].link.inflight
    requires !(c < |s.conns| && id in s.conns[c].link.inflight
               && s.conns[c].link.inflight[id] == Exec(env, s, step).conns[c].link.inflight[id])
    ensures step.Advance? && s.threads[step.t].stage.Walking?
    ensures var w := s.threads[step.t].stage;
            && w.at == Offer && w.i < |w.q| && w.q[w.i].id == id
            && Exec(env, s, step).conns[c].link.inflight[id] == w.key
  {
  }

  lemma AckIsRecorded(env: Env, s: State, step: Step, c: nat, id: Uuid)
    requires AcksDone(s) && Enabled(env, s, step)
    requires c < |Exec(env, s, step).conns| && Exec(env, s, step).conns[c].tally.acks[id] > 0
    ensures exists key :: (c, key, id) in Exec(env, s, step).settled
  {
    var s' := Exec(env, s, step);
    StepGrows(env, s, step);
    if c < |s.conns| && s.conns[c].tally.acks[id] > 0 {
      var key :| (c, key, id) in s.settled;
      assert (c, key, id) in s'.settled;
    } else {
      FirstAck(env, s, step, c, id);
      assert (c, s.conns[c].link.inflight[id], id) in s'.settled;
    }
  }

  lemma FirstAck(env: Env, s: State, step: Step, c: nat, id: Uuid)
    requires Enabled(env, s, step) && c < |Exec(env, s, step).conns| && Exec(env, s, step).conns[c].tally.acks[id] > 0
    requires !(c < |s.conns| && s.conns[c].tally.acks[id] > 0)
    ensures step == Ack(c, id) && c < |s.conns| && id in s.conns[c].link.inflight
  {
  }

  lemma StepKeepsAcksDone(env: Env, s: State, step: Step)
    requires Sound(env, s) && AllSourced(s) && AcksDone(s) && Enabled(env, s, step)
    ensures AcksDone(Exec(env, s, step))
  {
    var s' := Exec(env, s, step);
    forall c, key, id | (c, key, id) in s'.settled ensures AckDone(s', c, key, id) {
      if (c, key, id) in s.settled {
        if step.Advance? {
          AdvanceKeepsAckDone(env, s, step.t, step.ch, c, key, id);
        } else {
          OtherStepKeepsAckDone(env, s, step, c, key, id);
        }
      } else {
        NewlySettled(env, s, step, c, key, id);
        StepGrows(env, s, step);
        StaysAdded(s, s', key, id);
        assert s'.threads[|s.threads|].todo[0] == Discard(key, id, ByAck(c));
      }
    }
    forall c: nat, id | c < |s'.conns| && id in s'.conns[c].link.inflight
      ensures WasAdded(s', s'.conns[c].link.inflight[id], id)
    {
      MarkedWasAdded(env, s, step, c, id);
    }
    forall c: nat, id | c < |s'.conns| && s'.conns[c].tally.acks[id] > 0 ensures exists key :: (c, key, id) in s'.settled {
      AckIsRecorded(env, s, step, c, id);
    }
  }

  lemma {:induction false} AcksAreDone(env: Env, steps: seq<Step>, ss: seq<State>, n: nat)
    requires IsRun(env, steps, ss) && n <= |steps|
    ensures AcksDone(ss[n])
  {
    if n > 0 {
      AcksAreDone(env, steps, ss, n - 1);
      RunStaysSound(env, steps, ss, n - 1);
      SnapshotsAreSourced(env, steps, ss, n - 1);
      StepKeepsAcksDone(env, ss[n - 1], steps[n - 1]);
    }
  }

  /** In every reachable state: a message published once, to one key, that was written to a
      connection and is still queued is in flight on that connection, or the second half of an
      ACK of that connection for it is still to run. */
  lemma WrittenIsHeldOrPending(env: Env, steps: seq<Step>, ss: seq<State>, n: nat, c: nat, key: Key, id: Uuid)
    requires IsRun(env, steps, ss) && n <= |steps| && c < |ss[n].conns| && Single(ss[n], key, id)
    requires ss[n].conns[c].tally.writes[id] > 0 && Has(QueueAt(ss[n].store, key), id)
    ensures id in ss[n].conns[c].link.inflight || Pending(ss[n], c, key, id)
  {
    var s := ss[n];
    BooksBalance(env, steps, ss, n);
    AcksAreDone(env, steps, ss, n);
    assert Balanced(s, c, id);
    if id !in s.conns[c].link.inflight {
      var k :| (c, k, id) in s.settled;
      assert AckDone(s, c, k, id);
      var e :| e in s.added && e.key == k && e.m.id == id;
      assert k == key;
    }
  }
}
