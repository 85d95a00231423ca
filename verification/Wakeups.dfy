/** No lost wake-up: whatever is queued for an open connection has been offered to it, or some
    scheduled task is still bound to do so. */
module Wakeups {
  import opened Messages
  import opened Queues
  import opened Protocol
  import opened Soundness

  /** `m` is queued under `key`, has not expired, and connection `c` is registered, open and
      subscribed to `key`. */
  ghost predicate Owed(env: Env, s: State, key: Key, m: Message, c: nat) {
    && m in QueueAt(s.store, key)
    && !m.Expired(s.now)
    && c < |s.conns| && s.conns[c].registered && !s.conns[c].link.closed
    && Covers(env.glob, s.conns[c].keys, key)
  }

  /** Since the latest AddMessage of the id under this key, a flush of the key found the
      connection open and left the id in flight on it. */
  ghost predicate Offered(s: State, key: Key, m: Message, c: nat) {
    (c, key, m.id) in s.offered
  }

  /** Carrying out this job flushes `key`, as long as something is queued there. */
  ghost predicate JobBound(env: Env, job: Job, key: Key) {
    job == Flush(key) || (job.Expand? && KeyMatches(env.glob, job.pattern, key))
  }

  /** The flush has not yet come to `c` with its copy of `m`. */
  ghost predicate StageBound(stage: Stage, key: Key, m: Message, c: nat) {
    match stage
    case Idle => false
    case Entered(k) => k == key
    case Snapped(k, cs) => k == key && c in cs
    case Walking(k, cs, q, i, j, at) =>
      && k == key
      && exists x, y :: 0 <= x < |q| && 0 <= y < |cs| && Ahead(stage, x, y) && q[x] == m && cs[y] == c
  }

  /** The pair of message `x` and connection `y` is still to come. */
  ghost predicate Ahead(w: Stage, x: int, y: int)
    requires w.Walking?
  {
    x > w.i || (x == w.i && (w.at == Test || y > w.j || (y == w.j && w.at == Offer)))
  }

  ghost predicate Bound(env: Env, th: Thread, key: Key, m: Message, c: nat) {
    || StageBound(th.stage, key, m, c)
    || exists n :: 0 <= n < |th.todo| && JobBound(env, th.todo[n], key)
  }

  ghost predicate Served(env: Env, s: State, key: Key, m: Message, c: nat) {
    || Offered(s, key, m, c)
    || exists t :: 0 <= t < |s.threads| && Bound(env, s.threads[t], key, m, c)
  }

  ghost predicate NothingLost(env: Env, s: State) {
    forall key, m, c: nat :: Owed(env, s, key, m, c) ==> Served(env, s, key, m, c)
  }

  // ------------------------------------------------ a bound goroutine's own step

  /** A pair still to come is still to come after a step, unless its turn was this one. */
  lemma PairAfter(env: Env, s: State, t: nat, ch: Choice, x: nat, y: nat)
    requires Sound(env, s) && CanAdvance(env, s, t, ch) && s.threads[t].stage.Walking?
    requires var w := s.threads[t].stage;
             x < |w.q| && y < |w.cs| && Ahead(w, x, y) && !w.q[x].Expired(s.now)
    ensures var w, w' := s.threads[t].stage, Walk(s, t, ch).threads[t].stage;
            || (w'.Walking? && w'.key == w.key && w'.q == w.q && w'.cs == w.cs && Ahead(w', x, y))
            || (w.at == Offer && x == w.i && y == w.j)
  {
    assert ThreadSound(env, s, s.threads[t]);
  }

  lemma BoundWalk(env: Env, s: State, t: nat, ch: Choice, key: Key, m: Message, c: nat)
    requires Sound(env, s) && CanAdvance(env, s, t, ch) && s.threads[t].stage.Walking?
    requires Owed(env, s, key, m, c) && StageBound(s.threads[t].stage, key, m, c)
    ensures Offered(Walk(s, t, ch), key, m, c) || StageBound(Walk(s, t, ch).threads[t].stage, key, m, c)
  {
    var w := s.threads[t].stage;
    var x: nat, y: nat :| x < |w.q| && y < |w.cs| && Ahead(w, x, y) && w.q[x] == m && w.cs[y] == c;
    PairAfter(env, s, t, ch, x, y);
  }

  lemma BoundJobs(env: Env, s: State, t: nat, ch: Choice, key: Key, m: Message, c: nat)
    requires CanAdvance(env, s, t, ch) && s.threads[t].stage.Idle?
    requires key in s.store && Bound(env, s.threads[t], key, m, c)
    ensures Bound(env, Take(env, s, t, ch).threads[t], key, m, c)
  {
    var todo, th' := s.threads[t].todo, Take(env, s, t, ch).threads[t];
    var n: nat :| n < |todo| && JobBound(env, todo[n], key);
    if n == 0 {
      if todo[0].Expand? {
        var x: nat :| x < |ch.keys| && ch.keys[x] == key;
        assert JobBound(env, th'.todo[x], key);
      }
    } else {
      var d := |th'.todo| - |todo|;
      assert th'.todo[n + d] == todo[n];
    }
  }

  lemma BoundAdvance(env: Env, s: State, t: nat, ch: Choice, key: Key, m: Message, c: nat)
    requires Sound(env, s) && CanAdvance(env, s, t, ch)
    requires Owed(env, s, key, m, c) && Bound(env, s.threads[t], key, m, c)
    ensures var s' := Moved(env, s, t, ch);
            Offered(s', key, m, c) || Bound(env, s'.threads[t], key, m, c)
  {
    var th := s.threads[t];
    var s' := Moved(env, s, t, ch);
    if th.stage.Idle? {
      BoundJobs(env, s, t, ch, key, m, c);
    } else if n: nat :| n < |th.todo| && JobBound(env, th.todo[n], key) {
      assert s'.threads[t].todo[n] == th.todo[n];
    } else {
      match th.stage
      case Entered(_) =>
        CoversImpliesReceives(env.glob, s.conns[c].keys, key);
        assert Receiver(env, s, c, key);
      case Snapped(_, cs) =>
        var q := QueueAt(s.store, key);
        var x: nat :| x < |q| && q[x] == m;
        var y: nat :| y < |cs| && cs[y] == c;
        assert Ahead(s'.threads[t].stage, x, y);
      case Walking(_, _, _, _, _, _) => BoundWalk(env, s, t, ch, key, m, c);
    }
  }

  // ---------------------------------------------------------- any other step

  /** A publish revokes earlier offers of that id under that key, and leaves its own flush bound. */
  lemma PublishStep(env: Env, s: State, t: nat, ch: Choice, key: Key, m: Message, c: nat)
    requires Sound(env, s) && CanAdvance(env, s, t, ch)
    requires s.threads[t].stage.Idle? && s.threads[t].todo[0].Publish?
    requires Owed(env, Moved(env, s, t, ch), key, m, c)
    ensures || Bound(env, Moved(env, s, t, ch).threads[t], key, m, c)
            || (Owed(env, s, key, m, c) && (Offered(s, key, m, c) ==> Offered(Moved(env, s, t, ch), key, m, c)))
  {
    var s' := Moved(env, s, t, ch);
    var job := s.threads[t].todo[0];
    assert ThreadSound(env, s, s.threads[t]);
    if job.key == key {
      assert s'.threads[t].todo[0] == Flush(key);
      assert JobBound(env, s'.threads[t].todo[0], key);
    }
  }

  lemma OwedBefore(env: Env, s: State, t: nat, ch: Choice, key: Key, m: Message, c: nat)
    requires Sound(env, s) && CanAdvance(env, s, t, ch)
    requires !(s.threads[t].stage.Idle? && s.threads[t].todo[0].Publish?)
    requires Owed(env, Moved(env, s, t, ch), key, m, c)
    ensures Owed(env, s, key, m, c)
    ensures Offered(s, key, m, c) ==> Offered(Moved(env, s, t, ch), key, m, c)
  {
    AdvanceFrame(env, s, t, ch);
    if s.threads[t].stage.Idle? {
      match s.threads[t].todo[0]
      case Discard(k, id, _) =>
        if k in s.store {
          WithoutKeepsIdsDistinct(s.store[k], id);
        }
      case _ =>
    }
  }

  lemma AdvanceLosesNothing(env: Env, s: State, t: nat, ch: Choice, key: Key, m: Message, c: nat)
    requires Sound(env, s) && NothingLost(env, s) && CanAdvance(env, s, t, ch)
    requires Owed(env, Moved(env, s, t, ch), key, m, c)
    ensures Served(env, Moved(env, s, t, ch), key, m, c)
  {
    var s' := Moved(env, s, t, ch);
    AdvanceFrame(env, s, t, ch);
    if s.threads[t].stage.Idle? && s.threads[t].todo[0].Publish? {
      PublishStep(env, s, t, ch, key, m, c);
    } else {
      OwedBefore(env, s, t, ch, key, m, c);
    }
    if !Bound(env, s'.threads[t], key, m, c) && !Offered(s', key, m, c) {
      assert Served(env, s, key, m, c);
      var u: nat :| u < |s.threads| && Bound(env, s.threads[u], key, m, c);
      if u == t {
        BoundAdvance(env, s, t, ch, key, m, c);
      }
      assert Bound(env, s'.threads[u], key, m, c);
    }
  }

  /** A new connection comes with a task that flushes every key it covers. */
  lemma ConnectIsServed(env: Env, s: State, keys: seq<Key>, key: Key, m: Message)
    requires Covers(env.glob, keys, key)
    ensures Served(env, Exec(env, s, Connect(keys)), key, m, |s.conns|)
  {
    var s' := Exec(env, s, Connect(keys));
    var p :| p in keys && KeyMatches(env.glob, p, key);
    var n: nat :| n < |keys| && keys[n] == p;
    assert JobBound(env, s'.threads[|s.threads|].todo[n], key);
    assert Bound(env, s'.threads[|s.threads|], key, m, |s.conns|);
  }

  lemma OtherStepLosesNothing(env: Env, s: State, step: Step, key: Key, m: Message, c: nat)
    requires Sound(env, s) && NothingLost(env, s) && Enabled(env, s, step) && !step.Advance?
    requires Owed(env, Exec(env, s, step), key, m, c)
    ensures Served(env, Exec(env, s, step), key, m, c)
  {
    var s' := Exec(env, s, step);
    OtherStepsFrame(env, s, step);
    if step.Connect? && c == |s.conns| {
      ConnectIsServed(env, s, step.keys, key, m);
    } else {
      assert Owed(env, s, key, m, c);
      assert Served(env, s, key, m, c);
      if !Offered(s, key, m, c) {
        var u: nat :| u < |s.threads| && Bound(env, s.threads[u], key, m, c);
        assert Bound(env, s'.threads[u], key, m, c);
      }
    }
  }

  lemma StepLosesNothing(env: Env, s: State, step: Step)
    requires Sound(env, s) && NothingLost(env, s) && Enabled(env, s, step)
    ensures NothingLost(env, Exec(env, s, step))
  {
    forall key, m, c: nat | Owed(env, Exec(env, s, step), key, m, c)
      ensures Served(env, Exec(env, s, step), key, m, c)
    {
      if step.Advance? {
        AdvanceLosesNothing(env, s, step.t, step.ch, key, m, c);
      } else {
        OtherStepLosesNothing(env, s, step, key, m, c);
      }
    }
  }

  /** In every reachable state, every unexpired queued message is, for every open connection
      that covers its key, offered or bound to be offered by an unfinished task. */
  lemma {:induction false} NoLostWakeup(env: Env, steps: seq<Step>, ss: seq<State>, n: nat)
    requires IsRun(env, steps, ss) && n <= |steps|
    ensures NothingLost(env, ss[n])
  {
    if n > 0 {
      NoLostWakeup(env, steps, ss, n - 1);
      RunStaysSound(env, steps, ss, n - 1);
      StepLosesNothing(env, ss[n - 1], steps[n - 1]);
    }
  }
}
