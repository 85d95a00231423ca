/** What every reachable state of the protocol looks like, before any delivery property. */
module Soundness {
  import opened Messages
  import opened Queues
  import opened Protocol

  ghost predicate StageSound(env: Env, s: State, stage: Stage) {
    match stage
    case Idle => true
    case Entered(_) => true
    case Snapped(key, cs) => CsSound(env, s, key, cs)
    case Walking(key, cs, q, i, j, at) =>
      && CsSound(env, s, key, cs)
      && DistinctIds(q)
      && i <= |q| && j <= |cs|
      && (at == Test ==> j == 0)
      && (at != Test ==> i < |q|)
      && (at != Test && at != Offer ==> j < |cs|)
  }

  ghost predicate CsSound(env: Env, s: State, key: Key, cs: seq<nat>) {
    && NoDuplicates(cs)
    && forall x :: 0 <= x < |cs| ==> cs[x] < |s.conns| && Receives(env.glob, s.conns[cs[x]].keys, key)
  }

  /** A queued publish is followed by the flush of its key. */
  ghost predicate Paired(todo: seq<Job>) {
    forall n :: 0 <= n < |todo| && todo[n].Publish? ==> n + 1 < |todo| && todo[n + 1] == Flush(todo[n].key)
  }

  ghost predicate ThreadSound(env: Env, s: State, th: Thread) {
    StageSound(env, s, th.stage) && Paired(th.todo)
  }

  /** Send locks exclude each other. */
  ghost predicate Exclusive(env: Env, s: State) {
    forall t, u :: 0 <= t < u < |s.threads| && !s.threads[t].stage.Idle? && !s.threads[u].stage.Idle? ==>
      env.shard(s.threads[t].stage.key) != env.shard(s.threads[u].stage.key)
  }

  ghost predicate Sound(env: Env, s: State) {
    && GoodStore(s.store)
    && (forall t :: 0 <= t < |s.threads| ==> ThreadSound(env, s, s.threads[t]))
    && Exclusive(env, s)
  }

  /** Connections keep their number and their keys. */
  ghost predicate ConnsKept(s: State, s': State) {
    && |s.conns| <= |s'.conns|
    && forall c :: 0 <= c < |s.conns| ==> s'.conns[c].keys == s.conns[c].keys
  }

  lemma StageStaysSound(env: Env, s: State, s': State, stage: Stage)
    requires StageSound(env, s, stage) && ConnsKept(s, s')
    ensures StageSound(env, s', stage)
  {
  }

  // ----------------------------------------------------------------- frames

  /** A goroutine's step leaves the other goroutines alone. */
  lemma AdvanceFrame(env: Env, s: State, t: nat, ch: Choice)
    requires CanAdvance(env, s, t, ch)
    ensures Framed(s, Moved(env, s, t, ch), t)
    ensures !s.threads[t].stage.Idle? ==> SameQueues(s, Moved(env, s, t, ch))
  {
    if s.threads[t].stage.Idle? {
      TakeFrame(env, s, t, ch);
    } else if s.threads[t].stage.Walking? {
      WalkFrame(env, s, t, ch);
    }
  }

  ghost predicate SameQueues(s: State, s': State) {
    s'.store == s.store && s'.added == s.added && s'.inserted == s.inserted && s'.exits == s.exits
  }

  ghost predicate Framed(s: State, s': State, t: nat) {
    && |s'.threads| == |s.threads|
    && (forall u :: 0 <= u < |s.threads| && u != t ==> s'.threads[u] == s.threads[u])
    && |s'.conns| == |s.conns|
    && (forall c :: 0 <= c < |s.conns| ==>
          && s'.conns[c].keys == s.conns[c].keys
          && s'.conns[c].registered == s.conns[c].registered
          && (s.conns[c].link.closed ==> s'.conns[c].link.closed))
    && s'.now == s.now
  }

  lemma TakeFrame(env: Env, s: State, t: nat, ch: Choice)
    requires CanAdvance(env, s, t, ch) && s.threads[t].stage.Idle?
    ensures Framed(s, Take(env, s, t, ch), t)
    ensures Take(env, s, t, ch).conns == s.conns
  {
  }

  lemma WalkFrame(env: Env, s: State, t: nat, ch: Choice)
    requires CanAdvance(env, s, t, ch) && s.threads[t].stage.Walking?
    ensures Framed(s, Walk(s, t, ch), t)
    ensures SameQueues(s, Walk(s, t, ch)) && Walk(s, t, ch).threads[t].todo == s.threads[t].todo
  {
  }

  lemma StepKeepsConns(env: Env, s: State, step: Step)
    requires Enabled(env, s, step)
    ensures ConnsKept(s, Exec(env, s, step))
  {
    if step.Advance? {
      AdvanceFrame(env, s, step.t, step.ch);
    }
  }

  /** What the other steps do to the goroutines: at most one more is started. */
  lemma OtherStepsFrame(env: Env, s: State, step: Step)
    requires Enabled(env, s, step) && !step.Advance?
    ensures var s' := Exec(env, s, step);
            && s'.store == s.store && s'.offered == s.offered && s'.exits == s.exits && s'.added == s.added
            && s'.inserted == s.inserted && s.now <= s'.now
            && (s'.threads == s.threads ||
                 exists th: Thread :: th.stage.Idle? && s'.threads == s.threads + [th])
  {
    match step
    case Post(m) => assert Exec(env, s, step).threads == s.threads + [Thread(Idle, PublishJobs(m, Distinct([m.key] + m.keys)))];
    case Connect(keys) => assert Exec(env, s, step).threads == s.threads + [Thread(Idle, Each(keys, k => BacklogJob(k)))];
    case Reflush(keys) => assert Exec(env, s, step).threads == s.threads + [Thread(Idle, Each(keys, k => Flush(k)))];
    case Sweep(keys) => assert Exec(env, s, step).threads == s.threads + [Thread(Idle, Each(keys, k => Inspect(k)))];
    case DeleteOne(key, id) => assert Exec(env, s, step).threads == s.threads + [Thread(Idle, [Discard(key, id, ByRequest)])];
    case DeleteKey(key) => assert Exec(env, s, step).threads == s.threads + [Thread(Idle, [Clear(key)])];
    case DeleteAll(keys) => assert Exec(env, s, step).threads == s.threads + [Thread(Idle, Each(keys, k => Clear(k)))];
    case Ack(c, id) =>
      if id in s.conns[c].link.inflight {
        assert Exec(env, s, step).threads
            == s.threads + [Thread(Idle, [Discard(s.conns[c].link.inflight[id], id, ByAck(c))])];
      }
    case Close(_) =>
    case Unregister(_) =>
    case Tick(_) =>
  }

  // ----------------------------------------------------------- preservation

  lemma {:induction false} PublishJobsPaired(m: Message, targets: seq<Key>)
    ensures Paired(PublishJobs(m, targets))
  {
    if targets != [] {
      var head: seq<Job>, tail := [Publish(targets[0], m.(key := targets[0])), Flush(targets[0])], PublishJobs(m, targets[1..]);
      PublishJobsPaired(m, targets[1..]);
      forall n | 0 <= n < |head + tail| && (head + tail)[n].Publish?
        ensures n + 1 < |head + tail| && (head + tail)[n + 1] == Flush((head + tail)[n].key)
      {
        if n >= 2 {
          assert (head + tail)[n] == tail[n - 2];
        }
      }
    }
  }

  lemma NewTasksPaired(env: Env, s: State, step: Step)
    requires Enabled(env, s, step) && !step.Advance?
    ensures var s' := Exec(env, s, step);
            |s'.threads| > |s.threads| ==> Paired(s'.threads[|s.threads|].todo)
  {
    if step.Post? {
      PublishJobsPaired(step.m, Distinct([step.m.key] + step.m.keys));
    }
  }

  lemma PairedTail(todo: seq<Job>)
    requires Paired(todo) && todo != []
    ensures Paired(todo[1..])
  {
    forall n | 0 <= n < |todo| - 1 && todo[1..][n].Publish?
      ensures n + 1 < |todo| - 1 && todo[1..][n + 1] == Flush(todo[1..][n].key)
    {
      assert todo[n + 1] == todo[1..][n];
      assert todo[n + 2] == todo[1..][n + 1];
    }
  }

  lemma PairedAfter(front: seq<Job>, rest: seq<Job>)
    requires Paired(rest) && forall n :: 0 <= n < |front| ==> !front[n].Publish?
    ensures Paired(front + rest)
  {
    var all := front + rest;
    forall n | 0 <= n < |all| && all[n].Publish? ensures n + 1 < |all| && all[n + 1] == Flush(all[n].key) {
      assert all[n] == rest[n - |front|];
    }
  }

  lemma TakeStaysPaired(env: Env, s: State, t: nat, ch: Choice)
    requires CanAdvance(env, s, t, ch) && s.threads[t].stage.Idle? && Paired(s.threads[t].todo)
    ensures Paired(Take(env, s, t, ch).threads[t].todo)
  {
    var todo := s.threads[t].todo;
    var rest := todo[1..];
    PairedTail(todo);
    match todo[0]
    case Expand(_) => PairedAfter(Each(ch.keys, k => Flush(k)), rest);
    case Inspect(key) => PairedAfter([Scan(key, QueueAt(s.store, key))], rest);
    case Scan(key, q) =>
      if q != [] {
        PairedAfter([Scan(key, q[1..])], rest);
        PairedAfter([Discard(key, q[0].id, BySweep(q[0]))], [Scan(key, q[1..])] + rest);
      }
    case _ =>
  }

  lemma AdvanceKeepsStage(env: Env, s: State, t: nat, ch: Choice)
    requires Sound(env, s) && CanAdvance(env, s, t, ch)
    ensures StageSound(env, Moved(env, s, t, ch), Moved(env, s, t, ch).threads[t].stage)
  {
    AdvanceFrame(env, s, t, ch);
    assert ThreadSound(env, s, s.threads[t]);
    match s.threads[t].stage
    case Idle =>
    case Entered(key) => assert forall x :: 0 <= x < |ch.cs| ==> ch.cs[x] in ch.cs;
    case Snapped(key, cs) =>
      if QueueAt(s.store, key) != [] {
        assert DistinctIds(QueueAt(s.store, key));
      }
    case Walking(_, _, _, _, _, _) => WalkKeepsStage(env, s, t, ch);
  }

  lemma WalkKeepsStage(env: Env, s: State, t: nat, ch: Choice)
    requires Sound(env, s) && CanAdvance(env, s, t, ch) && s.threads[t].stage.Walking?
    ensures StageSound(env, s, Walk(s, t, ch).threads[t].stage)
    ensures StageSound(env, Walk(s, t, ch), Walk(s, t, ch).threads[t].stage)
  {
    assert ThreadSound(env, s, s.threads[t]);
    AdvanceFrame(env, s, t, ch);
    StageStaysSound(env, s, Walk(s, t, ch), Walk(s, t, ch).threads[t].stage);
  }

  lemma AdvanceKeepsStore(env: Env, s: State, t: nat, ch: Choice)
    requires Sound(env, s) && CanAdvance(env, s, t, ch)
    ensures GoodStore(Moved(env, s, t, ch).store)
  {
    AdvanceFrame(env, s, t, ch);
    if s.threads[t].stage.Idle? {
      match s.threads[t].todo[0]
      case Publish(key, m) => ApplyKeepsGood(s.store, Queues.Add(key, m));
      case Discard(key, id, _) => ApplyKeepsGood(s.store, Queues.Delete(key, id));
      case Clear(key) => ApplyKeepsGood(s.store, Queues.Drop(key));
      case _ =>
    }
  }

  /** A goroutine that leaves a lock section, or stays in one, keeps the key it holds. */
  lemma AdvanceKeepsExclusion(env: Env, s: State, t: nat, ch: Choice)
    requires Sound(env, s) && CanAdvance(env, s, t, ch)
    ensures Exclusive(env, Moved(env, s, t, ch))
  {
    var s' := Moved(env, s, t, ch);
    AdvanceFrame(env, s, t, ch);
    assert !s.threads[t].stage.Idle? && !s'.threads[t].stage.Idle? ==> s'.threads[t].stage.key == s.threads[t].stage.key;
    assert s.threads[t].stage.Idle? && !s'.threads[t].stage.Idle? ==>
      s.threads[t].todo[0].Flush? && s'.threads[t].stage.key == s.threads[t].todo[0].key;
    assert forall u :: 0 <= u < |s.threads| && u != t && !s.threads[u].stage.Idle? && !s'.threads[t].stage.Idle? ==>
      Holds(s.threads[u], env, env.shard(s.threads[u].stage.key)) && env.shard(s.threads[u].stage.key) != env.shard(s'.threads[t].stage.key);
  }

  lemma AdvanceKeepsSound(env: Env, s: State, t: nat, ch: Choice)
    requires Sound(env, s) && CanAdvance(env, s, t, ch)
    ensures Sound(env, Moved(env, s, t, ch))
  {
    var s' := Moved(env, s, t, ch);
    AdvanceFrame(env, s, t, ch);
    AdvanceKeepsStore(env, s, t, ch);
    AdvanceKeepsExclusion(env, s, t, ch);
    forall u | 0 <= u < |s.threads| ensures ThreadSound(env, s', s'.threads[u]) {
      assert ThreadSound(env, s, s.threads[u]);
      if u == t {
        AdvanceKeepsStage(env, s, t, ch);
        if s.threads[t].stage.Idle? {
          TakeStaysPaired(env, s, t, ch);
        } else {
          assert s'.threads[t].todo == s.threads[t].todo;
        }
      } else {
        StageStaysSound(env, s, s', s.threads[u].stage);
      }
    }
  }

  lemma StepKeepsSound(env: Env, s: State, step: Step)
    requires Sound(env, s) && Enabled(env, s, step)
    ensures Sound(env, Exec(env, s, step))
  {
    var s' := Exec(env, s, step);
    if step.Advance? {
      AdvanceKeepsSound(env, s, step.t, step.ch);
    } else {
      OtherStepsFrame(env, s, step);
      StepKeepsConns(env, s, step);
      NewTasksPaired(env, s, step);
      forall u | 0 <= u < |s'.threads| ensures ThreadSound(env, s', s'.threads[u]) {
        if u < |s.threads| {
          assert ThreadSound(env, s, s.threads[u]);
          StageStaysSound(env, s, s', s.threads[u].stage);
        }
      }
    }
  }

  lemma {:induction false} RunStaysSound(env: Env, steps: seq<Step>, ss: seq<State>, n: nat)
    requires IsRun(env, steps, ss) && n <= |steps|
    ensures Sound(env, ss[n])
  {
    if n > 0 {
      RunStaysSound(env, steps, ss, n - 1);
      StepKeepsSound(env, ss[n - 1], steps[n - 1]);
    }
  }

  // --------------------------------------------------------------- progress

  /** The send locks cannot deadlock: as long as some goroutine has work, one of them can take
      a step. */
  lemma NeverStuck(env: Env, steps: seq<Step>, ss: seq<State>, n: nat)
    requires IsRun(env, steps, ss) && n <= |steps|
    requires !Quiet(ss[n])
    ensures exists t, ch :: Enabled(env, ss[n], Advance(t, ch))
  {
    var s := ss[n];
    RunStaysSound(env, steps, ss, n);
    var t: nat :| t < |s.threads| && s.threads[t] != Thread(Idle, []);
    if u: nat :| u < |s.threads| && !s.threads[u].stage.Idle? {
      assert ThreadSound(env, s, s.threads[u]);
      var cs := if s.threads[u].stage.Entered? then ReceiversUpTo(env, s, s.threads[u].stage.key, |s.conns|) else [];
      assert Enabled(env, s, Advance(u, Choice(false, [], cs)));
    } else {
      var keys := if s.threads[t].todo[0].Expand? then MatchingKeys(env, s, s.threads[t].todo[0].pattern, s.store.Keys) else [];
      assert Enabled(env, s, Advance(t, Choice(false, keys, [])));
    }
  }

  /** The registry snapshot of a flush, in order of registration. */
  ghost function ReceiversUpTo(env: Env, s: State, key: Key, n: nat): (cs: seq<nat>)
    ensures NoDuplicates(cs)
    ensures forall c: nat :: c in cs <==> c < n && Receiver(env, s, c, key)
  {
    if n == 0 then []
    else
      var before := ReceiversUpTo(env, s, key, n - 1);
      if Receiver(env, s, n - 1, key) then before + [n - 1] else before
  }

  ghost function MatchingKeys(env: Env, s: State, pattern: Key, among: set<Key>): (keys: seq<Key>)
    requires among <= s.store.Keys
    ensures NoDuplicates(keys)
    ensures forall k :: k in keys <==> k in among && KeyMatches(env.glob, pattern, k)
  {
    if among == {} then []
    else
      var k :| k in among;
      var others := MatchingKeys(env, s, pattern, among - {k});
      if KeyMatches(env.glob, pattern, k) then others + [k] else others
  }
}
