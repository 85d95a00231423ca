/** Exactly when the tasks of the server can still write an id to a connection. For an id that was
    written before, this is the line between re-flushing in peace and a duplicate. */
module Resends {
  import opened Messages
  import opened Queues
  import opened Links
  import opened Protocol
  import opened Soundness
  import opened Wakeups
  import opened Flights
  import opened Ledger
  import opened Fifo
  import opened Liveness
  import opened Repeats

  // ------------------------------------------------------------- the condition

  /** The id is still to come for the connection in this flush, and its message has passed the
      expiry test or is going to. */
  ghost predicate Comes(now: int, w: Stage, c: nat, id: Uuid) {
    w.Walking? && exists x: nat, y: nat :: x < |w.q| && y < |w.cs| && ComesAt(now, w, x, y, c, id)
  }

  ghost predicate ComesAt(now: int, w: Stage, x: nat, y: nat, c: nat, id: Uuid)
    requires w.Walking? && x < |w.q| && y < |w.cs|
  {
    && w.q[x].id == id && w.cs[y] == c && Ahead(w, x, y)
    && ((x == w.i && w.at != Test) || !w.q[x].Expired(now))
  }

  /** The goroutine is still to read the queue of the key for this connection. */
  ghost predicate WillFlush(env: Env, th: Thread, key: Key, c: nat) {
    || th.stage == Entered(key)
    || (th.stage.Snapped? && th.stage.key == key && c in th.stage.cs)
    || exists n: nat :: n < |th.todo| && JobBound(env, th.todo[n], key)
  }

  /** The id is queued under the key and has not expired. */
  ghost predicate Queued(s: State, key: Key, id: Uuid) {
    exists m :: m in QueueAt(s.store, key) && m.id == id && !m.Expired(s.now)
  }

  /** The id is queued under this key of the connection, and a task is bound to flush the queue. */
  ghost predicate ComingUnder(env: Env, s: State, key: Key, c: nat, id: Uuid) {
    Queued(s, key, id) && Receiver(env, s, c, key) && exists t: nat :: t < |s.threads| && WillFlush(env, s.threads[t], key, c)
  }

  /** The id is ahead in the snapshot of some flush. */
  ghost predicate InSnapshot(s: State, c: nat, id: Uuid) {
    exists t: nat :: t < |s.threads| && Comes(s.now, s.threads[t].stage, c, id)
  }

  ghost predicate Coming(env: Env, s: State, c: nat, id: Uuid) {
    InSnapshot(s, c, id) || exists key :: ComingUnder(env, s, key, c, id)
  }

  /** Marked, and the write not done yet. */
  ghost predicate UnderWay(s: State, c: nat, id: Uuid) {
    exists t: nat :: t < |s.threads| && IsAt(s.threads[t], Write, c, id)
  }

  ghost predicate CanComeAgain(env: Env, s: State, c: nat, id: Uuid) {
    UnderWay(s, c, id) || (Takes(s, c, id) && Coming(env, s, c, id))
  }

  /** The connection is open and the id is not in flight on it. */
  ghost predicate Takes(s: State, c: nat, id: Uuid) {
    c < |s.conns| && !s.conns[c].link.closed && id !in s.conns[c].link.inflight
  }

  /** No task is going to publish the id. */
  ghost predicate NotToBePublished(s: State, id: Uuid) {
    forall t, n :: 0 <= t < |s.threads| && 0 <= n < |s.threads[t].todo| && s.threads[t].todo[n].Publish? ==> s.threads[t].todo[n].m.id != id
  }

  // --------------------------------------------------- nothing comes from nothing

  ghost predicate OpenIsRegistered(s: State) {
    forall c :: 0 <= c < |s.conns| ==> s.conns[c].registered || s.conns[c].link.closed
  }

  lemma {:induction false} OpenStaysRegistered(env: Env, steps: seq<Step>, ss: seq<State>, n: nat)
    requires IsRun(env, steps, ss) && n <= |steps|
    ensures OpenIsRegistered(ss[n])
  {
    if n > 0 {
      OpenStaysRegistered(env, steps, ss, n - 1);
      StepKeepsRegistered(env, ss[n - 1], steps[n - 1]);
    }
  }

  lemma StepKeepsRegistered(env: Env, s: State, step: Step)
    requires OpenIsRegistered(s) && Enabled(env, s, step)
    ensures OpenIsRegistered(Exec(env, s, step))
  {
    if step.Advance? {
      AdvanceFrame(env, s, step.t, step.ch);
    }
  }

  /** The facts about a reachable state that matter here. */
  ghost predicate Settled(env: Env, s: State, id: Uuid) {
    Sound(env, s) && Accounted(env, s) && AllSourced(s) && OpenIsRegistered(s) && NotToBePublished(s, id)
  }

  lemma TakeBringsNoEntry(env: Env, s: State, t: nat, ch: Choice, key: Key, id: Uuid)
    requires Settled(env, s, id) && CanAdvance(env, s, t, ch) && s.threads[t].stage.Idle?
    requires Queued(Take(env, s, t, ch), key, id)
    ensures Queued(s, key, id)
  {
    var m :| m in QueueAt(Take(env, s, t, ch).store, key) && m.id == id && !m.Expired(s.now);
    match s.threads[t].todo[0]
    case Publish(k, p) =>
      AddTouchesOneKey(s.store, k, p, key);
      assert DistinctIds(QueueAt(s.store, key));
      UpsertKeepsIdsDistinct(QueueAt(s.store, key), p);
      assert m in QueueAt(s.store, key);
    case Discard(k, gone, _) =>
      DeleteTouchesOneKey(s.store, k, gone, key);
      assert DistinctIds(QueueAt(s.store, key));
      WithoutKeepsIdsDistinct(QueueAt(s.store, key), gone);
      assert m in QueueAt(s.store, key);
    case _ => assert m in QueueAt(s.store, key);
  }

  /** A job that is bound to flush comes from one that was. */
  lemma JobBringsNoFlush(env: Env, s: State, t: nat, ch: Choice, key: Key, n: nat) returns (m: nat)
    requires CanAdvance(env, s, t, ch) && s.threads[t].stage.Idle?
    requires n < |Take(env, s, t, ch).threads[t].todo| && JobBound(env, Take(env, s, t, ch).threads[t].todo[n], key)
    ensures m < |s.threads[t].todo| && JobBound(env, s.threads[t].todo[m], key)
  {
    TakeTodo(env, s, t, ch);
    var d := |Front(s, t, ch)|;
    if n >= d {
      m := n - d + 1;
    } else {
      m := 0;
      FrontBringsNoFlush(env, s, t, ch, key, n);
    }
  }

  /** A task that will flush was going to before its step. */
  lemma TakeBringsNoFlush(env: Env, s: State, t: nat, ch: Choice, key: Key, c: nat)
    requires CanAdvance(env, s, t, ch) && s.threads[t].stage.Idle?
    requires WillFlush(env, Take(env, s, t, ch).threads[t], key, c)
    ensures WillFlush(env, s.threads[t], key, c)
  {
    var todo' := Take(env, s, t, ch).threads[t].todo;
    if n: nat :| n < |todo'| && JobBound(env, todo'[n], key) {
      var m := JobBringsNoFlush(env, s, t, ch, key, n);
    } else {
      assert JobBound(env, s.threads[t].todo[0], key);
    }
  }

  lemma FrontBringsNoFlush(env: Env, s: State, t: nat, ch: Choice, key: Key, n: nat)
    requires CanAdvance(env, s, t, ch) && s.threads[t].stage.Idle?
    requires n < |Front(s, t, ch)| && JobBound(env, Front(s, t, ch)[n], key)
    ensures JobBound(env, s.threads[t].todo[0], key)
  {
    if s.threads[t].todo[0].Expand? {
      assert ch.keys[n] in ch.keys;
    }
  }

  /** A pair that comes was coming before the step. */
  lemma WalkBringsNoPair(env: Env, s: State, t: nat, ch: Choice, c: nat, id: Uuid)
    requires Sound(env, s) && CanAdvance(env, s, t, ch) && s.threads[t].stage.Walking?
    requires Comes(s.now, Walk(s, t, ch).threads[t].stage, c, id)
    ensures Comes(s.now, s.threads[t].stage, c, id)
  {
    var s', w := Walk(s, t, ch), s.threads[t].stage;
    var w' := s'.threads[t].stage;
    assert ThreadSound(env, s, s.threads[t]);
    var x: nat, y: nat :| x < |w'.q| && y < |w'.cs| && ComesAt(s.now, w', x, y, c, id);
    if Passing(w) {
      PassBringsNoPair(w, s.now, x, y, c, id);
    } else {
      var k := w.cs[w.j];
      assert w' == StageAfter(w, s.conns[k].link, w.q[w.i].id, ch.ok);
      TurnBringsNoPair(w, s.conns[k].link, ch.ok, s.now, x, y, c, id);
    }
  }

  lemma PassBringsNoPair(w: Stage, now: int, x: nat, y: nat, c: nat, id: Uuid)
    requires w.Walking? && Passing(w) && (w.at != Test ==> w.i < |w.q|) && (w.at == Test ==> w.j == 0) && Pass(w, now).Walking?
    requires x < |w.q| && y < |w.cs| && ComesAt(now, Pass(w, now), x, y, c, id)
    ensures ComesAt(now, w, x, y, c, id)
  {
  }

  lemma TurnBringsNoPair(w: Stage, l: Link, ok: bool, now: int, x: nat, y: nat, c: nat, id: Uuid)
    requires w.Walking? && !Passing(w) && w.i < |w.q| && x < |w.q| && y < |w.cs|
    requires ComesAt(now, StageAfter(w, l, w.q[w.i].id, ok), x, y, c, id)
    ensures ComesAt(now, w, x, y, c, id)
  {
  }

  /** A flush that has just read the queue has found it there. */
  lemma SnapshotBringsNoPair(env: Env, s: State, t: nat, ch: Choice, c: nat, id: Uuid)
    requires Settled(env, s, id) && CanAdvance(env, s, t, ch) && s.threads[t].stage.Snapped?
    requires c < |s.conns| && !s.conns[c].link.closed
    requires Comes(s.now, Moved(env, s, t, ch).threads[t].stage, c, id)
    ensures ComingUnder(env, s, s.threads[t].stage.key, c, id)
  {
    var w' := Moved(env, s, t, ch).threads[t].stage;
    var x: nat, y: nat :| x < |w'.q| && y < |w'.cs| && ComesAt(s.now, w', x, y, c, id);
    assert w'.q[x] in QueueAt(s.store, w'.key);
    assert ThreadSound(env, s, s.threads[t]);
    assert WillFlush(env, s.threads[t], w'.key, c);
  }

  lemma AdvanceBringsNoPair(env: Env, s: State, t: nat, ch: Choice, c: nat, id: Uuid, u: nat)
    requires Settled(env, s, id) && CanAdvance(env, s, t, ch) && c < |s.conns| && !s.conns[c].link.closed
    requires u < |Moved(env, s, t, ch).threads| && Comes(s.now, Moved(env, s, t, ch).threads[u].stage, c, id)
    ensures Coming(env, s, c, id)
  {
    AdvanceFrame(env, s, t, ch);
    if u == t {
      if s.threads[t].stage.Walking? {
        WalkBringsNoPair(env, s, t, ch, c, id);
      } else {
        SnapshotBringsNoPair(env, s, t, ch, c, id);
      }
    } else {
      assert Comes(s.now, s.threads[u].stage, c, id);
    }
  }

  lemma AdvanceBringsNoFlush(env: Env, s: State, t: nat, ch: Choice, key: Key, c: nat, u: nat)
    requires CanAdvance(env, s, t, ch) && u < |Moved(env, s, t, ch).threads|
    requires WillFlush(env, Moved(env, s, t, ch).threads[u], key, c)
    ensures u < |s.threads| && WillFlush(env, s.threads[u], key, c)
  {
    AdvanceFrame(env, s, t, ch);
    if u == t {
      if s.threads[t].stage.Idle? {
        TakeBringsNoFlush(env, s, t, ch, key, c);
      } else {
        StageBringsNoFlush(env, s, t, ch, key, c);
      }
    }
  }

  lemma AdvanceBringsNoEntry(env: Env, s: State, t: nat, ch: Choice, key: Key, id: Uuid)
    requires Settled(env, s, id) && CanAdvance(env, s, t, ch) && Queued(Moved(env, s, t, ch), key, id)
    ensures Queued(s, key, id)
  {
    AdvanceFrame(env, s, t, ch);
    if s.threads[t].stage.Idle? {
      TakeBringsNoEntry(env, s, t, ch, key, id);
    }
  }

  lemma AdvanceBringsNothing(env: Env, s: State, t: nat, ch: Choice, c: nat, id: Uuid)
    requires Settled(env, s, id) && CanAdvance(env, s, t, ch) && c < |s.conns| && !s.conns[c].link.closed
    requires Coming(env, Moved(env, s, t, ch), c, id)
    ensures Coming(env, s, c, id)
  {
    var s' := Moved(env, s, t, ch);
    AdvanceFrame(env, s, t, ch);
    if u: nat :| u < |s'.threads| && Comes(s'.now, s'.threads[u].stage, c, id) {
      AdvanceBringsNoPair(env, s, t, ch, c, id, u);
    } else {
      var key :| ComingUnder(env, s', key, c, id);
      var u: nat :| u < |s'.threads| && WillFlush(env, s'.threads[u], key, c);
      AdvanceBringsNoFlush(env, s, t, ch, key, c, u);
      AdvanceBringsNoEntry(env, s, t, ch, key, id);
      assert ComingUnder(env, s, key, c, id);
    }
  }

  lemma StageBringsNoFlush(env: Env, s: State, t: nat, ch: Choice, key: Key, c: nat)
    requires CanAdvance(env, s, t, ch) && !s.threads[t].stage.Idle?
    requires WillFlush(env, Moved(env, s, t, ch).threads[t], key, c)
    ensures WillFlush(env, s.threads[t], key, c)
  {
  }

  // ------------------------------------------------------------ never any more

  /** A write of the id to the connection has failed, and its mark is about to be cleared. */
  ghost predicate Clearing(s: State, c: nat, id: Uuid) {
    exists t: nat :: t < |s.threads| && IsAt(s.threads[t], Clean, c, id)
  }

  /** It is being cleared, or the connection about to be closed after that. */
  ghost predicate Failing(s: State, c: nat, id: Uuid) {
    exists t: nat :: t < |s.threads| && (IsAt(s.threads[t], Clean, c, id) || IsAt(s.threads[t], Hang, c, id))
  }

  /** The id was published to one key at most. */
  ghost predicate OneKey(s: State, id: Uuid) {
    exists key :: Sole(s, key, id)
  }

  ghost predicate NeverMore(env: Env, s: State, c: nat, id: Uuid) {
    && c < |s.conns| && !UnderWay(s, c, id)
    && (|| s.conns[c].link.closed
        || (id in s.conns[c].link.inflight && !Clearing(s, c, id))
        || (Failing(s, c, id) && OneKey(s, id))
        || !Coming(env, s, c, id))
  }

  /** Two goroutines do not handle an id with one key at the same time. */
  lemma OneHandler(env: Env, s: State, id: Uuid, t: nat, u: nat)
    requires Settled(env, s, id) && OneKey(s, id) && t < |s.threads| && u < |s.threads|
    requires s.threads[t].stage.Walking? && s.threads[t].stage.i < |s.threads[t].stage.q|
    requires s.threads[u].stage.Walking? && s.threads[u].stage.i < |s.threads[u].stage.q|
    requires s.threads[t].stage.q[s.threads[t].stage.i].id == id && s.threads[u].stage.q[s.threads[u].stage.i].id == id
    ensures t == u
  {
    assert Sourced(s, s.threads[t]) && Sourced(s, s.threads[u]);
    assert Entry(s.threads[t].stage.key, s.threads[t].stage.q[s.threads[t].stage.i]) in s.added;
    assert Entry(s.threads[u].stage.key, s.threads[u].stage.q[s.threads[u].stage.i]) in s.added;
  }

  /** The turn of the very pair. */
  ghost predicate AtPair(w: Stage, c: nat, id: Uuid) {
    w.Walking? && w.i < |w.q| && w.j < |w.cs| && w.cs[w.j] == c && w.q[w.i].id == id
  }

  /** A flush whose turn it is to offer the id finds the connection closed or the id in flight. */
  lemma NoMarkNow(env: Env, s: State, t: nat, c: nat, id: Uuid)
    requires Settled(env, s, id) && NeverMore(env, s, c, id)
    requires t < |s.threads| && AtPair(s.threads[t].stage, c, id) && s.threads[t].stage.at == Offer
    ensures !CanMark(s.conns[c].link, id)
  {
    var w := s.threads[t].stage;
    assert ComesAt(s.now, w, w.i, w.j, c, id);
    assert Comes(s.now, w, c, id);
    if Failing(s, c, id) && OneKey(s, id) {
      var u: nat :| u < |s.threads| && (IsAt(s.threads[u], Clean, c, id) || IsAt(s.threads[u], Hang, c, id));
      OneHandler(env, s, id, t, u);
    }
  }

  /** What the turn of the very pair does, when it can come to no write. */
  lemma TurnStaysNever(env: Env, s: State, t: nat, ch: Choice, c: nat, id: Uuid)
    requires Settled(env, s, id) && NeverMore(env, s, c, id)
    requires CanAdvance(env, s, t, ch) && AtPair(s.threads[t].stage, c, id) && s.threads[t].stage.at != Test
    ensures var s' := Walk(s, t, ch);
            && !IsAt(s'.threads[t], Write, c, id) && !IsAt(s'.threads[t], Clean, c, id)
            && s'.conns[c].tally.writes[id] == s.conns[c].tally.writes[id]
            && (s'.conns[c].link == s.conns[c].link || s'.conns[c].link.closed || IsAt(s.threads[t], Clean, c, id))
  {
    assert !IsAt(s.threads[t], Write, c, id);
    if s.threads[t].stage.at == Offer {
      NoMarkNow(env, s, t, c, id);
    }
  }

  /** A step that has nothing to do with the pair. */
  lemma ElsewhereStaysNever(env: Env, s: State, t: nat, ch: Choice, c: nat, id: Uuid)
    requires Sound(env, s) && CanAdvance(env, s, t, ch) && c < |s.conns|
    requires !(AtPair(s.threads[t].stage, c, id) && s.threads[t].stage.at != Test)
    ensures var s' := Moved(env, s, t, ch);
            && !IsAt(s'.threads[t], Write, c, id) && !IsAt(s'.threads[t], Clean, c, id) && !IsAt(s'.threads[t], Hang, c, id)
            && !IsAt(s.threads[t], Clean, c, id) && !IsAt(s.threads[t], Hang, c, id)
            && |s'.conns| == |s.conns| && s'.conns[c].tally.writes[id] == s.conns[c].tally.writes[id]
            && (id in s'.conns[c].link.inflight <==> id in s.conns[c].link.inflight)
            && (s.conns[c].link.closed ==> s'.conns[c].link.closed)
  {
    var w := s.threads[t].stage;
    AdvanceFrame(env, s, t, ch);
    assert ThreadSound(env, s, s.threads[t]);
    if w.Walking? {
      WalkElsewhere(env, s, t, ch, c, id);
      NotAtElsewhere(env, s, t, ch, c, id);
      assert forall at :: at in {Write, Clean, Hang} ==> !IsAt(s.threads[t], at, c, id);
      assert Write in {Write, Clean, Hang} && Clean in {Write, Clean, Hang} && Hang in {Write, Clean, Hang};
    }
  }

  /** Whoever else is at a point of the pair is there before and after. */
  lemma OthersStay(env: Env, s: State, t: nat, ch: Choice, at: Point, c: nat, id: Uuid, u: nat)
    requires CanAdvance(env, s, t, ch) && u < |s.threads| && u != t
    ensures u < |Moved(env, s, t, ch).threads| && (IsAt(Moved(env, s, t, ch).threads[u], at, c, id) <==> IsAt(s.threads[u], at, c, id))
  {
    AdvanceFrame(env, s, t, ch);
  }

  lemma StillNoWrite(env: Env, s: State, t: nat, ch: Choice, c: nat, id: Uuid)
    requires CanAdvance(env, s, t, ch)
    requires !UnderWay(s, c, id) && !IsAt(Moved(env, s, t, ch).threads[t], Write, c, id)
    ensures !UnderWay(Moved(env, s, t, ch), c, id)
  {
    AdvanceFrame(env, s, t, ch);
    forall u: nat | u < |s.threads| ensures !IsAt(Moved(env, s, t, ch).threads[u], Write, c, id) {
      if u != t {
        OthersStay(env, s, t, ch, Write, c, id, u);
      }
    }
  }

  lemma StillNoClearing(env: Env, s: State, t: nat, ch: Choice, c: nat, id: Uuid)
    requires CanAdvance(env, s, t, ch)
    requires !Clearing(s, c, id) && !IsAt(Moved(env, s, t, ch).threads[t], Clean, c, id)
    ensures !Clearing(Moved(env, s, t, ch), c, id)
  {
    AdvanceFrame(env, s, t, ch);
    forall u: nat | u < |s.threads| ensures !IsAt(Moved(env, s, t, ch).threads[u], Clean, c, id) {
      if u != t {
        OthersStay(env, s, t, ch, Clean, c, id, u);
      }
    }
  }

  /** A failing write goes on to fail until the connection is closed. */
  lemma StillFailing(env: Env, s: State, t: nat, ch: Choice, c: nat, id: Uuid)
    requires CanAdvance(env, s, t, ch) && Failing(s, c, id) && c < |s.conns|
    ensures c < |Moved(env, s, t, ch).conns|
    ensures Failing(Moved(env, s, t, ch), c, id) || Moved(env, s, t, ch).conns[c].link.closed
  {
    var s' := Moved(env, s, t, ch);
    AdvanceFrame(env, s, t, ch);
    var u: nat :| u < |s.threads| && (IsAt(s.threads[u], Clean, c, id) || IsAt(s.threads[u], Hang, c, id));
    if u != t {
      OthersStay(env, s, t, ch, Clean, c, id, u);
      OthersStay(env, s, t, ch, Hang, c, id, u);
    } else if IsAt(s.threads[t], Clean, c, id) {
      assert IsAt(s'.threads[t], Hang, c, id);
    }
  }

  lemma AdvanceStaysNever(env: Env, s: State, t: nat, ch: Choice, c: nat, id: Uuid)
    requires Settled(env, s, id) && NeverMore(env, s, c, id) && CanAdvance(env, s, t, ch)
    requires OneKey(s, id) ==> OneKey(Moved(env, s, t, ch), id)
    ensures NeverMore(env, Moved(env, s, t, ch), c, id)
    ensures Writes(Moved(env, s, t, ch), c, id) == Writes(s, c, id)
  {
    var s' := Moved(env, s, t, ch);
    AdvanceFrame(env, s, t, ch);
    if AtPair(s.threads[t].stage, c, id) && s.threads[t].stage.at != Test {
      TurnStaysNever(env, s, t, ch, c, id);
    } else {
      ElsewhereStaysNever(env, s, t, ch, c, id);
    }
    StillNoWrite(env, s, t, ch, c, id);
    if !s'.conns[c].link.closed {
      if Failing(s, c, id) && OneKey(s, id) {
        StillFailing(env, s, t, ch, c, id);
      } else if Coming(env, s', c, id) {
        AdvanceBringsNothing(env, s, t, ch, c, id);
        StillNoClearing(env, s, t, ch, c, id);
      }
    }
  }

  lemma TakeStaysUnpublished(env: Env, s: State, t: nat, ch: Choice, id: Uuid)
    requires NotToBePublished(s, id) && CanAdvance(env, s, t, ch) && s.threads[t].stage.Idle?
    ensures forall n :: 0 <= n < |Take(env, s, t, ch).threads[t].todo| && Take(env, s, t, ch).threads[t].todo[n].Publish? ==>
              Take(env, s, t, ch).threads[t].todo[n].m.id != id
  {
    var todo', d := Take(env, s, t, ch).threads[t].todo, |Front(s, t, ch)|;
    TakeTodo(env, s, t, ch);
    assert forall n :: 0 <= n < d ==> !Front(s, t, ch)[n].Publish?;
    forall n | 0 <= n < |todo'| && todo'[n].Publish? ensures todo'[n].m.id != id {
      assert n >= d;
      assert todo'[n] == s.threads[t].todo[n - d + 1];
    }
  }

  lemma StaysUnpublished(env: Env, s: State, t: nat, ch: Choice, id: Uuid)
    requires NotToBePublished(s, id) && CanAdvance(env, s, t, ch)
    ensures NotToBePublished(Moved(env, s, t, ch), id) && (OneKey(s, id) ==> OneKey(Moved(env, s, t, ch), id))
  {
    AdvanceFrame(env, s, t, ch);
    if s.threads[t].stage.Idle? {
      TakeStaysUnpublished(env, s, t, ch, id);
    } else {
      assert Moved(env, s, t, ch).threads[t].todo == s.threads[t].todo;
    }
    if OneKey(s, id) {
      var key :| Sole(s, key, id);
      assert Sole(Moved(env, s, t, ch), key, id);
    }
  }

  lemma ReachableIsSettled(env: Env, steps: seq<Step>, ss: seq<State>, n: nat, id: Uuid)
    requires IsRun(env, steps, ss) && n <= |steps| && NotToBePublished(ss[n], id)
    ensures Settled(env, ss[n], id)
  {
    RunStaysSound(env, steps, ss, n);
    EverythingAccounted(env, steps, ss, n);
    SnapshotsAreSourced(env, steps, ss, n);
    OpenStaysRegistered(env, steps, ss, n);
  }

  /** No further write can come, and there have been so many. */
  ghost predicate Finished(env: Env, s: State, c: nat, id: Uuid, writes: nat) {
    NotToBePublished(s, id) && NeverMore(env, s, c, id) && Writes(s, c, id) == writes
  }

  lemma StepStaysNever(env: Env, s: State, step: Step, c: nat, id: Uuid, writes: nat)
    requires Settled(env, s, id) && Finished(env, s, c, id, writes) && step.Advance? && Enabled(env, s, step)
    ensures Finished(env, Exec(env, s, step), c, id, writes)
  {
    StaysUnpublished(env, s, step.t, step.ch, id);
    AdvanceStaysNever(env, s, step.t, step.ch, c, id);
  }

  lemma RunStaysNever(env: Env, steps: seq<Step>, ss: seq<State>, n: nat, c: nat, id: Uuid, writes: nat)
    requires IsRun(env, steps, ss) && n < |steps| && steps[n].Advance? && Finished(env, ss[n], c, id, writes)
    ensures Finished(env, ss[n + 1], c, id, writes)
  {
    ReachableIsSettled(env, steps, ss, n, id);
    StepStaysNever(env, ss[n], steps[n], c, id, writes);
  }

  lemma {:induction false} Carried(env: Env, ss: seq<State>, from: nat, n: nat, c: nat, id: Uuid, writes: nat)
    requires from <= n < |ss| && Finished(env, ss[from], c, id, writes)
    requires forall k :: from <= k < n && Finished(env, ss[k], c, id, writes) ==> Finished(env, ss[k + 1], c, id, writes)
    ensures Finished(env, ss[n], c, id, writes)
  {
    if n > from {
      Carried(env, ss, from, n - 1, c, id, writes);
      assert Finished(env, ss[n - 1 + 1], c, id, writes);
    }
  }

  lemma StaysNever(env: Env, steps: seq<Step>, ss: seq<State>, from: nat, c: nat, id: Uuid, writes: nat)
    requires IsRun(env, steps, ss) && from <= |steps| && NoRequestsAfter(steps, from)
    requires Finished(env, ss[from], c, id, writes)
    ensures Finished(env, ss[|steps|], c, id, writes)
  {
    forall k | from <= k < |steps| && Finished(env, ss[k], c, id, writes) ensures Finished(env, ss[k + 1], c, id, writes) {
      RunStaysNever(env, steps, ss, k, c, id, writes);
    }
    Carried(env, ss, from, |steps|, c, id, writes);
  }

  // ------------------------------------------------------------- still to come

  predicate Delivers(job: Job) {
    job.Publish? || job.Flush? || job.Expand?
  }

  /** Tasks that deliver do not delete, and the other way round. */
  ghost predicate Uniform(todo: seq<Job>) {
    || (forall n :: 0 <= n < |todo| ==> Delivers(todo[n]))
    || (forall n :: 0 <= n < |todo| ==> !Delivers(todo[n]))
  }

  ghost predicate AllUniform(s: State) {
    forall t :: 0 <= t < |s.threads| ==> Uniform(s.threads[t].todo)
  }

  lemma FrontIsUniform(env: Env, s: State, t: nat, ch: Choice)
    requires CanAdvance(env, s, t, ch) && s.threads[t].stage.Idle?
    ensures forall n :: 0 <= n < |Front(s, t, ch)| ==> Delivers(Front(s, t, ch)[n]) == Delivers(s.threads[t].todo[0])
  {
  }

  lemma UniformAfter(todo: seq<Job>, front: seq<Job>)
    requires todo != [] && Uniform(todo) && forall n :: 0 <= n < |front| ==> Delivers(front[n]) == Delivers(todo[0])
    ensures Uniform(front + todo[1..])
  {
    var all := front + todo[1..];
    forall n | 0 <= n < |all| ensures Delivers(all[n]) == Delivers(todo[0]) {
      if n >= |front| {
        assert all[n] == todo[n - |front| + 1];
      }
    }
  }

  lemma TakeStaysUniform(env: Env, s: State, t: nat, ch: Choice)
    requires CanAdvance(env, s, t, ch) && s.threads[t].stage.Idle? && Uniform(s.threads[t].todo)
    ensures Uniform(Take(env, s, t, ch).threads[t].todo)
  {
    TakeTodo(env, s, t, ch);
    FrontIsUniform(env, s, t, ch);
    UniformAfter(s.threads[t].todo, Front(s, t, ch));
  }

  lemma StepStaysUniform(env: Env, s: State, step: Step)
    requires AllUniform(s) && Enabled(env, s, step)
    ensures AllUniform(Exec(env, s, step))
  {
    var s' := Exec(env, s, step);
    if step.Advance? {
      AdvanceFrame(env, s, step.t, step.ch);
      if s.threads[step.t].stage.Idle? {
        TakeStaysUniform(env, s, step.t, step.ch);
      } else {
        assert s'.threads[step.t].todo == s.threads[step.t].todo;
      }
    } else {
      OtherStepsFrame(env, s, step);
      if |s'.threads| > |s.threads| {
        NewTaskIsUniform(env, s, step);
      }
    }
  }

  lemma NewTaskIsUniform(env: Env, s: State, step: Step)
    requires Enabled(env, s, step) && !step.Advance? && |Exec(env, s, step).threads| > |s.threads|
    ensures Uniform(Exec(env, s, step).threads[|s.threads|].todo)
  {
    if step.Post? {
      PublishJobsHarmless(step.m, Distinct([step.m.key] + step.m.keys));
    }
  }

  lemma {:induction false} TasksAreUniform(env: Env, steps: seq<Step>, ss: seq<State>, n: nat)
    requires IsRun(env, steps, ss) && n <= |steps|
    ensures AllUniform(ss[n])
  {
    if n > 0 {
      TasksAreUniform(env, steps, ss, n - 1);
      StepStaysUniform(env, ss[n - 1], steps[n - 1]);
    }
  }

  /** No goroutine is cleaning up after a failed write to this connection. */
  ghost predicate Untroubled(s: State, c: nat) {
    forall t :: 0 <= t < |s.threads| ==> !CleansUp(s.threads[t].stage, c)
  }

  ghost predicate CleansUp(w: Stage, c: nat) {
    w.Walking? && w.at in {Clean, Hang} && w.j < |w.cs| && w.cs[w.j] == c
  }

  lemma StaysUntroubled(env: Env, s: State, t: nat, ch: Choice, c: nat)
    requires Untroubled(s, c) && CanAdvance(env, s, t, ch) && ch.ok
    ensures Untroubled(Moved(env, s, t, ch), c)
  {
    AdvanceFrame(env, s, t, ch);
  }

  /** The connection can take the id until someone marks it. */
  lemma StaysTaking(env: Env, s: State, t: nat, ch: Choice, c: nat, id: Uuid)
    requires Sound(env, s) && Takes(s, c, id) && Untroubled(s, c) && CanAdvance(env, s, t, ch) && ch.ok
    ensures Takes(Moved(env, s, t, ch), c, id) || UnderWay(Moved(env, s, t, ch), c, id)
  {
    var s', w := Moved(env, s, t, ch), s.threads[t].stage;
    AdvanceFrame(env, s, t, ch);
    if w.Walking? {
      assert ThreadSound(env, s, s.threads[t]);
      if !Passing(w) && w.cs[w.j] == c && w.q[w.i].id == id && w.at == Offer {
        assert IsAt(s'.threads[t], Write, c, id);
      }
    }
  }

  /** The pair at hand has its turn, or comes after the step as it did before. */
  lemma PairIsCarried(env: Env, s: State, t: nat, ch: Choice, c: nat, id: Uuid)
    requires Sound(env, s) && Takes(s, c, id) && Untroubled(s, c)
    requires CanAdvance(env, s, t, ch) && ch.ok && Comes(s.now, s.threads[t].stage, c, id)
    ensures var w' := Walk(s, t, ch).threads[t].stage;
            Comes(s.now, w', c, id) || IsAt(Walk(s, t, ch).threads[t], Write, c, id)
  {
    var w := s.threads[t].stage;
    assert ThreadSound(env, s, s.threads[t]);
    var x: nat, y: nat :| x < |w.q| && y < |w.cs| && ComesAt(s.now, w, x, y, c, id);
    if Passing(w) {
      PassCarries(w, s.now, x, y, c, id);
    } else {
      var l := s.conns[w.cs[w.j]].link;
      if x == w.i && y == w.j && w.at == Offer {
        assert IsAt(Walk(s, t, ch).threads[t], Write, c, id);
      } else {
        TurnCarries(w, l, s.now, x, y, c, id);
        assert Walk(s, t, ch).threads[t].stage == StageAfter(w, l, w.q[w.i].id, true);
      }
    }
  }

  lemma PassCarries(w: Stage, now: int, x: nat, y: nat, c: nat, id: Uuid)
    requires w.Walking? && Passing(w) && w.i <= |w.q| && (w.at != Test ==> w.i < |w.q|)
    requires x < |w.q| && y < |w.cs| && ComesAt(now, w, x, y, c, id)
    ensures Comes(now, Pass(w, now), c, id)
  {
    assert ComesAt(now, Pass(w, now), x, y, c, id);
  }

  lemma TurnCarries(w: Stage, l: Link, now: int, x: nat, y: nat, c: nat, id: Uuid)
    requires w.Walking? && !Passing(w) && w.i < |w.q| && x < |w.q| && y < |w.cs|
    requires ComesAt(now, w, x, y, c, id) && !(x == w.i && y == w.j && w.at == Offer)
    ensures Comes(now, StageAfter(w, l, w.q[w.i].id, true), c, id)
  {
    assert ComesAt(now, StageAfter(w, l, w.q[w.i].id, true), x, y, c, id);
  }

  /** A flush that is about to read the queue finds the message there. */
  lemma SnapshotCarries(env: Env, s: State, t: nat, ch: Choice, key: Key, c: nat, id: Uuid)
    requires CanAdvance(env, s, t, ch) && c < |s.conns| && Receiver(env, s, c, key) && Queued(s, key, id)
    requires s.threads[t].stage == Entered(key) || (s.threads[t].stage.Snapped? && s.threads[t].stage.key == key && c in s.threads[t].stage.cs)
    ensures InSnapshot(Moved(env, s, t, ch), c, id) || ComingUnder(env, Moved(env, s, t, ch), key, c, id)
  {
    var s' := Moved(env, s, t, ch);
    AdvanceFrame(env, s, t, ch);
    if s.threads[t].stage.Entered? {
      assert WillFlush(env, s'.threads[t], key, c);
      assert Queued(s', key, id);
      assert ComingUnder(env, s', key, c, id);
    } else {
      var w' := s'.threads[t].stage;
      var m :| m in QueueAt(s.store, key) && m.id == id && !m.Expired(s.now);
      var x: nat :| x < |w'.q| && w'.q[x] == m;
      var y: nat :| y < |w'.cs| && w'.cs[y] == c;
      assert ComesAt(s.now, w', x, y, c, id);
      assert Comes(s'.now, w', c, id);
    }
  }

  /** A goroutine that delivers leaves the message in the queue. */
  lemma TakeLeavesQueued(env: Env, s: State, t: nat, ch: Choice, key: Key, id: Uuid)
    requires Settled(env, s, id) && CanAdvance(env, s, t, ch) && s.threads[t].stage.Idle?
    requires Delivers(s.threads[t].todo[0]) && Queued(s, key, id)
    ensures Queued(Take(env, s, t, ch), key, id)
  {
    var m :| m in QueueAt(s.store, key) && m.id == id && !m.Expired(s.now);
    if s.threads[t].todo[0].Publish? {
      var k, p := s.threads[t].todo[0].key, s.threads[t].todo[0].m;
      AddTouchesOneKey(s.store, k, p, key);
      assert DistinctIds(QueueAt(s.store, key));
      UpsertKeepsIdsDistinct(QueueAt(s.store, key), p);
    }
    assert m in QueueAt(Take(env, s, t, ch).store, key);
  }

  /** The job that is bound to flush is still in line, or was taken up, after a step of its own
      goroutine. */
  lemma TakeCarries(env: Env, s: State, t: nat, ch: Choice, key: Key, c: nat, id: Uuid, n: nat)
    requires Settled(env, s, id) && AllUniform(s) && CanAdvance(env, s, t, ch) && s.threads[t].stage.Idle?
    requires c < |s.conns| && Receiver(env, s, c, key) && Queued(s, key, id)
    requires n < |s.threads[t].todo| && JobBound(env, s.threads[t].todo[n], key)
    ensures ComingUnder(env, Take(env, s, t, ch), key, c, id)
  {
    var s' := Take(env, s, t, ch);
    AdvanceFrame(env, s, t, ch);
    assert Delivers(s.threads[t].todo[n]);
    TakeLeavesQueued(env, s, t, ch, key, id);
    var m :| m in QueueAt(s.store, key);
    BoundJobs(env, s, t, ch, key, m, c);
    assert WillFlush(env, s'.threads[t], key, c);
  }

  /** What is coming is not put off by a step of a goroutine that holds a send lock. */
  lemma OthersCarry(env: Env, s: State, t: nat, ch: Choice, key: Key, c: nat, id: Uuid, u: nat, n: nat)
    requires CanAdvance(env, s, t, ch) && !s.threads[t].stage.Idle?
    requires c < |s.conns| && Receiver(env, s, c, key) && Queued(s, key, id)
    requires u < |s.threads| && n < |s.threads[u].todo| && JobBound(env, s.threads[u].todo[n], key)
    ensures ComingUnder(env, Moved(env, s, t, ch), key, c, id)
  {
    var s' := Moved(env, s, t, ch);
    AdvanceFrame(env, s, t, ch);
    assert s'.threads[u].todo == s.threads[u].todo;
    assert JobBound(env, s'.threads[u].todo[n], key);
    assert WillFlush(env, s'.threads[u], key, c);
    assert Queued(s', key, id);
  }

  /** A goroutine inside a flush can always go on, with the write coming out well. */
  lemma HolderCanStep(env: Env, s: State, t: nat) returns (ch: Choice)
    requires Sound(env, s) && t < |s.threads| && !s.threads[t].stage.Idle?
    ensures CanAdvance(env, s, t, ch) && ch.ok
  {
    assert ThreadSound(env, s, s.threads[t]);
    ch := Choice(true, [], if s.threads[t].stage.Entered? then ReceiversUpTo(env, s, s.threads[t].stage.key, |s.conns|) else []);
  }

  /** The next step on the way of a job to its flush: its own goroutine's, or, if that waits for a
      send lock, that of the goroutine that has it. */
  lemma TowardsFlush(env: Env, s: State, key: Key, c: nat, id: Uuid, u: nat, n: nat) returns (t: nat, ch: Choice)
    requires Settled(env, s, id) && AllUniform(s)
    requires c < |s.conns| && Receiver(env, s, c, key) && Queued(s, key, id)
    requires u < |s.threads| && n < |s.threads[u].todo| && JobBound(env, s.threads[u].todo[n], key)
    ensures CanAdvance(env, s, t, ch) && ch.ok && ComingUnder(env, Moved(env, s, t, ch), key, c, id)
  {
    t := u;
    if !s.threads[u].stage.Idle? {
      ch := HolderCanStep(env, s, u);
      OthersCarry(env, s, u, ch, key, c, id, u, n);
    } else {
      var job := s.threads[u].todo[0];
      if v: nat :| v < |s.threads| && v != u && job.Flush? && Holds(s.threads[v], env, env.shard(job.key)) {
        t := v;
        ch := HolderCanStep(env, s, v);
        OthersCarry(env, s, v, ch, key, c, id, u, n);
      } else {
        ch := Choice(true, if job.Expand? then MatchingKeys(env, s, job.pattern, s.store.Keys) else [], []);
        TakeCarries(env, s, u, ch, key, c, id, n);
      }
    }
  }

  lemma TowardsWrite(env: Env, s: State, c: nat, id: Uuid) returns (t: nat, ch: Choice)
    requires Settled(env, s, id) && AllUniform(s) && Untroubled(s, c) && Takes(s, c, id) && Coming(env, s, c, id)
    ensures CanAdvance(env, s, t, ch) && ch.ok
    ensures Coming(env, Moved(env, s, t, ch), c, id) || UnderWay(Moved(env, s, t, ch), c, id)
  {
    if u: nat :| u < |s.threads| && Comes(s.now, s.threads[u].stage, c, id) {
      t := u;
      ch := HolderCanStep(env, s, u);
      AdvanceFrame(env, s, u, ch);
      PairIsCarried(env, s, u, ch, c, id);
    } else {
      var key :| ComingUnder(env, s, key, c, id);
      var u: nat :| u < |s.threads| && WillFlush(env, s.threads[u], key, c);
      if n: nat :| n < |s.threads[u].todo| && JobBound(env, s.threads[u].todo[n], key) {
        t, ch := TowardsFlush(env, s, key, c, id, u, n);
      } else {
        t := u;
        ch := HolderCanStep(env, s, u);
        SnapshotCarries(env, s, u, ch, key, c, id);
      }
    }
  }

  /** The next step of the tasks on the way to the write. */
  lemma NextTowardsWrite(env: Env, s: State, c: nat, id: Uuid) returns (t: nat, ch: Choice)
    requires Settled(env, s, id) && AllUniform(s) && Untroubled(s, c) && c < |s.conns| && CanComeAgain(env, s, c, id)
    ensures CanAdvance(env, s, t, ch) && Untroubled(Moved(env, s, t, ch), c) && |Moved(env, s, t, ch).conns| == |s.conns|
    ensures Writes(Moved(env, s, t, ch), c, id) >= Writes(s, c, id)
    ensures Writes(Moved(env, s, t, ch), c, id) > Writes(s, c, id) || CanComeAgain(env, Moved(env, s, t, ch), c, id)
  {
    if u: nat :| u < |s.threads| && IsAt(s.threads[u], Write, c, id) {
      t, ch := u, Choice(true, [], []);
      assert ThreadSound(env, s, s.threads[u]);
    } else {
      t, ch := TowardsWrite(env, s, c, id);
      StaysTaking(env, s, t, ch, c, id);
    }
    AdvanceFrame(env, s, t, ch);
    AdvanceGrows(env, s, t, ch);
    StaysUntroubled(env, s, t, ch, c);
  }

  // ---------------------------------------------------------------- main results

  /** By the tasks alone, without any request, ACK or passing of time, the run can be continued to
      a state with one more write of the id to the connection. */
  ghost predicate CanBeWritten(env: Env, steps: seq<Step>, ss: seq<State>, c: nat, id: Uuid) {
    exists steps': seq<Step>, ss': seq<State> ::
      Continued(env, steps, ss, steps', ss') && Writes(ss'[|steps'|], c, id) > Writes(ss'[|steps|], c, id)
  }

  /** The second run is the first, continued by tasks. */
  ghost predicate Continued(env: Env, steps: seq<Step>, ss: seq<State>, steps': seq<Step>, ss': seq<State>) {
    IsRun(env, steps', ss') && steps <= steps' && ss <= ss' && NoRequestsAfter(steps', |steps|)
  }

  function Writes(s: State, c: nat, id: Uuid): nat {
    if c < |s.conns| then s.conns[c].tally.writes[id] else 0
  }

  lemma {:induction false} WritesAgain(env: Env, steps: seq<Step>, ss: seq<State>, c: nat, id: Uuid)
    returns (steps': seq<Step>, ss': seq<State>)
    requires IsRun(env, steps, ss) && NotToBePublished(ss[|steps|], id)
    requires c < |ss[|steps|].conns| && Untroubled(ss[|steps|], c) && CanComeAgain(env, ss[|steps|], c, id)
    ensures Continued(env, steps, ss, steps', ss') && Writes(ss'[|steps'|], c, id) > Writes(ss[|steps|], c, id)
    decreases StepsLeft(ss[|steps|])
  {
    var s := ss[|steps|];
    ReachableIsSettled(env, steps, ss, |steps|, id);
    TasksAreUniform(env, steps, ss, |steps|);
    var t, ch := NextTowardsWrite(env, s, c, id);
    StepCosts(env, s, Advance(t, ch), Budget(s));
    StepsLeftIsPositive(env, s);
    StaysUnpublished(env, s, t, ch, id);
    steps', ss' := Extended(env, steps, ss, Advance(t, ch));
    if Writes(Moved(env, s, t, ch), c, id) == Writes(s, c, id) {
      var more, further := steps', ss';
      steps', ss' := WritesAgain(env, more, further, c, id);
      assert steps'[|steps|] == more[|steps|];
    }
  }

  /** Only so can the tasks write an id that none of them is still to publish once more: it is
      marked and about to be written; or the connection is open, the id is not in flight on it,
      and it is ahead in the snapshot of a flush, or queued and unexpired under some key of the
      connection with a task bound to flush that queue. While the mark of a failed write of the
      id to this very connection is being cleared, an id published to several keys may get
      through by another of them. */
  lemma WrittenOnlyIf(env: Env, steps: seq<Step>, ss: seq<State>, c: nat, id: Uuid)
    requires IsRun(env, steps, ss) && c < |ss[|steps|].conns| && NotToBePublished(ss[|steps|], id)
    requires CanBeWritten(env, steps, ss, c, id)
    ensures CanComeAgain(env, ss[|steps|], c, id) || (Clearing(ss[|steps|], c, id) && !OneKey(ss[|steps|], id))
  {
    var steps': seq<Step>, ss': seq<State> :|
      Continued(env, steps, ss, steps', ss') && Writes(ss'[|steps'|], c, id) > Writes(ss'[|steps|], c, id);
    var s := ss'[|steps|];
    assert s == ss[|steps|];
    if NeverMore(env, s, c, id) {
      StaysNever(env, steps', ss', |steps|, c, id, Writes(s, c, id));
    } else if Clearing(s, c, id) {
      assert Failing(s, c, id);
    }
  }

  /** The exact line, for every id, whatever its keys and however often it was published, on a
      connection that no failed write is being cleaned up on: without any further request the
      tasks can write the id to it once more if and only if it can come again. Where the id was
      written before, this is when re-flushing duplicates. */
  lemma WrittenAgainExactlyWhen(env: Env, steps: seq<Step>, ss: seq<State>, c: nat, id: Uuid)
    requires IsRun(env, steps, ss) && c < |ss[|steps|].conns|
    requires Untroubled(ss[|steps|], c) && NotToBePublished(ss[|steps|], id)
    ensures CanBeWritten(env, steps, ss, c, id) <==> CanComeAgain(env, ss[|steps|], c, id)
  {
    if CanComeAgain(env, ss[|steps|], c, id) {
      var steps', ss' := WritesAgain(env, steps, ss, c, id);
      assert ss'[|steps|] == ss[|steps|];
    }
    if CanBeWritten(env, steps, ss, c, id) {
      WrittenOnlyIf(env, steps, ss, c, id);
      NoneClearing(ss[|steps|], c, id);
    }
  }

  lemma NoneClearing(s: State, c: nat, id: Uuid)
    requires Untroubled(s, c)
    ensures !Clearing(s, c, id)
  {
    forall t: nat | t < |s.threads| ensures !IsAt(s.threads[t], Clean, c, id) {
      assert !CleansUp(s.threads[t].stage, c);
    }
  }

  /** The channels of a duplicate. An id that was added at most once under each key can be written
      to a connection again, apart from a write already under way, only behind the snapshot of a
      flush that still has it ahead; or from a queue of the connection where the second half of
      an ACK of the connection for it is still to run; or from a queue of the connection for
      which the connection has acknowledged nothing, an ACK clearing one key only. */
  lemma DuplicateChannels(env: Env, steps: seq<Step>, ss: seq<State>, c: nat, id: Uuid)
    requires IsRun(env, steps, ss) && c < |ss[|steps|].conns|
    requires Untroubled(ss[|steps|], c) && NotToBePublished(ss[|steps|], id) && CanBeWritten(env, steps, ss, c, id)
    requires forall key :: Once(ss[|steps|], key, id)
    ensures var s := ss[|steps|];
            || UnderWay(s, c, id)
            || (Takes(s, c, id)
                && (InSnapshot(s, c, id)
                    || exists key :: ComingUnder(env, s, key, c, id) && (Pending(s, c, key, id) || (c, key, id) !in s.settled)))
  {
    var s := ss[|steps|];
    WrittenAgainExactlyWhen(env, steps, ss, c, id);
    if !UnderWay(s, c, id) && !InSnapshot(s, c, id) {
      var key :| ComingUnder(env, s, key, c, id);
      AcksAreDone(env, steps, ss, |steps|);
      if (c, key, id) in s.settled {
        assert AckDone(s, c, key, id);
        var m :| m in QueueAt(s.store, key) && m.id == id;
        assert Has(QueueAt(s.store, key), id);
      }
    }
  }

  /** With one key there are two channels: once such a message was written to a connection, it
      can be written to it again, apart from a write under way, only behind an old snapshot or in
      the middle of an ACK. */
  lemma OneKeyHasTwoWindows(env: Env, steps: seq<Step>, ss: seq<State>, key: Key, c: nat, id: Uuid)
    requires IsRun(env, steps, ss) && c < |ss[|steps|].conns|
    requires Single(ss[|steps|], key, id) && NotToBePublished(ss[|steps|], id)
    requires ss[|steps|].conns[c].tally.writes[id] > 0 && CanBeWritten(env, steps, ss, c, id)
    ensures var s := ss[|steps|];
            || UnderWay(s, c, id)
            || (Takes(s, c, id) && (InSnapshot(s, c, id) || (Queued(s, key, id) && Pending(s, c, key, id))))
  {
    var s := ss[|steps|];
    WrittenOnlyIf(env, steps, ss, c, id);
    assert OneKey(s, id);
    if !UnderWay(s, c, id) && !InSnapshot(s, c, id) {
      var k :| ComingUnder(env, s, k, c, id);
      var m :| m in QueueAt(s.store, k) && m.id == id && !m.Expired(s.now);
      EverythingAccounted(env, steps, ss, |steps|);
      assert Entry(k, m) in s.added;
      assert Has(QueueAt(s.store, key), id);
      WrittenIsHeldOrPending(env, steps, ss, |steps|, c, key, id);
    }
  }
}
