/** The task pool runs dry: with no further requests every schedule is finite, and where it ends
    everything deliverable has been delivered. */
module Liveness {
  import opened Messages
  import opened Queues
  import opened Protocol
  import opened Soundness
  import opened Wakeups
  import opened Flights
  import opened Ledger

  // -------------------------------------------------------------- pigeonholes

  lemma {:induction false} Pigeonhole<T>(xs: seq<T>, holes: set<T>)
    requires NoDuplicates(xs) && forall x :: x in xs ==> x in holes
    ensures |xs| <= |holes|
  {
    if xs != [] {
      var rest, last := xs[..|xs| - 1], xs[|xs| - 1];
      assert xs == rest + [last];
      assert forall x :: x in rest ==> x != last;
      Pigeonhole(rest, holes - {last});
    }
  }

  function KeysOf(added: seq<Entry>): (keys: set<Key>)
    ensures |keys| <= |added| && forall e :: e in added ==> e.key in keys
  {
    if added == [] then {} else KeysOf(added[..|added| - 1]) + {added[|added| - 1].key}
  }

  function IdsIn(added: seq<Entry>): (ids: set<Uuid>)
    ensures |ids| <= |added| && forall e :: e in added ==> e.m.id in ids
  {
    if added == [] then {} else IdsIn(added[..|added| - 1]) + {added[|added| - 1].m.id}
  }

  function Numbers(n: nat): (r: set<nat>)
    ensures |r| == n && forall x: nat :: x in r <==> x < n
  {
    if n == 0 then {} else Numbers(n - 1) + {n - 1}
  }

  /** No queue and no list of stored keys is longer than the number of messages ever added. */
  lemma QueueIsShort(env: Env, s: State, key: Key)
    requires Sound(env, s) && Accounted(env, s)
    ensures |QueueAt(s.store, key)| <= |s.added|
  {
    var q := QueueAt(s.store, key);
    forall id | id in IdsOf(q) ensures id in IdsIn(s.added) {
      var i :| 0 <= i < |q| && q[i].id == id;
      assert q[i] in q;
      assert Entry(key, q[i]) in s.added;
    }
    Pigeonhole(IdsOf(q), IdsIn(s.added));
  }

  lemma FewKeys(env: Env, s: State, keys: seq<Key>)
    requires Sound(env, s) && Accounted(env, s)
    requires NoDuplicates(keys) && forall k :: k in keys ==> k in s.store
    ensures |keys| <= |s.added|
  {
    forall k | k in keys ensures k in KeysOf(s.added) {
      assert s.store[k][0] in QueueAt(s.store, k);
      assert Entry(k, s.store[k][0]) in s.added;
    }
    Pigeonhole(keys, KeysOf(s.added));
  }

  lemma FewReceivers(cs: seq<nat>, n: nat)
    requires NoDuplicates(cs) && forall x :: 0 <= x < |cs| ==> cs[x] < n
    ensures |cs| <= n
  {
    Pigeonhole(cs, Numbers(n));
  }

  // ----------------------------------------------------------------- measure

  /** The most steps a message of a flush can take, with `c` connections. */
  function PerMessage(c: nat): nat {
    2 + 4 * c
  }

  /** The most steps a flush can take, with queues of at most `b` messages. */
  function FlushCost(b: nat, c: nat): nat {
    4 + b * PerMessage(c)
  }

  function Late(at: Point): nat {
    match at
    case Test => 0
    case Offer => 0
    case Write => 1
    case Clean => 2
    case Hang => 3
  }

  function StageCost(stage: Stage, b: nat, c: nat): int {
    match stage
    case Idle => 0
    case Entered(_) => FlushCost(b, c) - 1
    case Snapped(_, _) => FlushCost(b, c) - 2
    case Walking(_, _, q, i, j, at) =>
      if at == Test then (|q| - i) * PerMessage(c) + 1
      else (|q| - i - 1) * PerMessage(c) + 4 * (c - j) - Late(at) + 2
  }

  function JobCost(job: Job, b: nat, c: nat): nat {
    match job
    case Flush(_) => FlushCost(b, c)
    case Expand(_) => 1 + b * FlushCost(b, c)
    case Inspect(_) => 2 + 2 * b
    case Scan(_, q) => 1 + 2 * |q|
    case _ => 1
  }

  function JobsCost(todo: seq<Job>, b: nat, c: nat): nat {
    if todo == [] then 0 else JobCost(todo[0], b, c) + JobsCost(todo[1..], b, c)
  }

  function ThreadCost(th: Thread, b: nat, c: nat): int {
    StageCost(th.stage, b, c) + JobsCost(th.todo, b, c)
  }

  function PoolCost(ts: seq<Thread>, b: nat, c: nat): int {
    if ts == [] then 0 else PoolCost(ts[..|ts| - 1], b, c) + ThreadCost(ts[|ts| - 1], b, c)
  }

  lemma {:induction false} PoolUpdate(ts: seq<Thread>, t: nat, th: Thread, b: nat, c: nat)
    requires t < |ts|
    ensures PoolCost(ts[t := th], b, c) == PoolCost(ts, b, c) - ThreadCost(ts[t], b, c) + ThreadCost(th, b, c)
  {
    var n := |ts| - 1;
    if t < n {
      PoolUpdate(ts[..n], t, th, b, c);
      assert ts[t := th][..n] == ts[..n][t := th];
    } else {
      assert ts[t := th][..n] == ts[..n];
    }
  }

  lemma {:induction false} JobsConcat(x: seq<Job>, y: seq<Job>, b: nat, c: nat)
    ensures JobsCost(x + y, b, c) == JobsCost(x, b, c) + JobsCost(y, b, c)
  {
    if x == [] {
      assert x + y == y;
    } else {
      assert (x + y)[1..] == x[1..] + y;
      JobsConcat(x[1..], y, b, c);
    }
  }

  lemma {:induction false} FlushesCost(keys: seq<Key>, b: nat, c: nat)
    ensures JobsCost(Each(keys, k => Flush(k)), b, c) == |keys| * FlushCost(b, c)
  {
    if keys != [] {
      var jobs := Each(keys, k => Flush(k));
      assert jobs[1..] == Each(keys[1..], k => Flush(k));
      FlushesCost(keys[1..], b, c);
      Distribute(|keys|, FlushCost(b, c));
    }
  }

  lemma Distribute(n: int, x: int)
    ensures n * x == (n - 1) * x + x
  {
  }

  lemma Monotone(m: nat, n: nat, x: nat)
    requires m <= n
    ensures m * x <= n * x
  {
  }

  /** Publishes not done yet; what they will add is all that can still be added. */
  function Publishes(todo: seq<Job>): nat {
    if todo == [] then 0 else (if todo[0].Publish? then 1 else 0) + Publishes(todo[1..])
  }

  function PoolPublishes(ts: seq<Thread>): nat {
    if ts == [] then 0 else PoolPublishes(ts[..|ts| - 1]) + Publishes(ts[|ts| - 1].todo)
  }

  lemma {:induction false} PublishesUpdate(ts: seq<Thread>, t: nat, th: Thread)
    requires t < |ts|
    ensures PoolPublishes(ts[t := th]) + Publishes(ts[t].todo) == PoolPublishes(ts) + Publishes(th.todo)
  {
    var n := |ts| - 1;
    if t < n {
      PublishesUpdate(ts[..n], t, th);
      assert ts[t := th][..n] == ts[..n][t := th];
    } else {
      assert ts[t := th][..n] == ts[..n];
    }
  }

  lemma {:induction false} PublishesConcat(x: seq<Job>, y: seq<Job>)
    ensures Publishes(x + y) == Publishes(x) + Publishes(y)
  {
    if x == [] {
      assert x + y == y;
    } else {
      assert (x + y)[1..] == x[1..] + y;
      PublishesConcat(x[1..], y);
    }
  }

  lemma {:induction false} NoPublishes(x: seq<Job>)
    requires forall n :: 0 <= n < |x| ==> !x[n].Publish?
    ensures Publishes(x) == 0
  {
    if x != [] {
      NoPublishes(x[1..]);
    }
  }

  /** How long queues can ever get without further requests. */
  function Budget(s: State): nat {
    |s.added| + PoolPublishes(s.threads)
  }

  // ------------------------------------------------------- each step costs one

  /** The jobs that replace the one taken up, before those that remain. */
  function Front(s: State, t: nat, ch: Choice): seq<Job>
    requires t < |s.threads| && s.threads[t].todo != []
  {
    match s.threads[t].todo[0]
    case Expand(_) => Each(ch.keys, k => Flush(k))
    case Inspect(key) => [Scan(key, QueueAt(s.store, key))]
    case Scan(key, q) =>
      if q == [] then []
      else if q[0].Expired(s.now) then [Discard(key, q[0].id, BySweep(q[0]))] + [Scan(key, q[1..])]
      else [Scan(key, q[1..])]
    case _ => []
  }

  lemma TakeTodo(env: Env, s: State, t: nat, ch: Choice)
    requires CanAdvance(env, s, t, ch) && s.threads[t].stage.Idle?
    ensures Take(env, s, t, ch).threads[t].todo == Front(s, t, ch) + s.threads[t].todo[1..]
    ensures s.threads[t].todo[0].Flush? ==> Take(env, s, t, ch).threads[t].stage.Entered?
    ensures !s.threads[t].todo[0].Flush? ==> Take(env, s, t, ch).threads[t].stage.Idle?
  {
  }

  lemma FrontCost(env: Env, s: State, t: nat, ch: Choice, b: nat, c: nat)
    requires Sound(env, s) && Accounted(env, s) && |s.added| <= b
    requires CanAdvance(env, s, t, ch) && s.threads[t].stage.Idle? && !s.threads[t].todo[0].Flush?
    ensures JobsCost(Front(s, t, ch), b, c) < JobCost(s.threads[t].todo[0], b, c)
  {
    match s.threads[t].todo[0]
    case Expand(_) =>
      FewKeys(env, s, ch.keys);
      FlushesCost(ch.keys, b, c);
      Monotone(|ch.keys|, b, FlushCost(b, c));
    case Inspect(key) => QueueIsShort(env, s, key);
    case Scan(key, q) =>
      if q != [] {
        JobsConcat([Discard(key, q[0].id, BySweep(q[0]))], [Scan(key, q[1..])], b, c);
      }
    case _ =>
  }

  lemma TakeCosts(env: Env, s: State, t: nat, ch: Choice, b: nat, c: nat)
    requires Sound(env, s) && Accounted(env, s) && |s.added| <= b
    requires CanAdvance(env, s, t, ch) && s.threads[t].stage.Idle?
    ensures ThreadCost(Take(env, s, t, ch).threads[t], b, c) < ThreadCost(s.threads[t], b, c)
  {
    TakeTodo(env, s, t, ch);
    JobsConcat(Front(s, t, ch), s.threads[t].todo[1..], b, c);
    if !s.threads[t].todo[0].Flush? {
      FrontCost(env, s, t, ch, b, c);
    }
  }

  lemma WalkCosts(env: Env, s: State, t: nat, ch: Choice, b: nat)
    requires Sound(env, s) && CanAdvance(env, s, t, ch) && s.threads[t].stage.Walking?
    ensures ThreadCost(Walk(s, t, ch).threads[t], b, |s.conns|) < ThreadCost(s.threads[t], b, |s.conns|)
  {
    var w, c := s.threads[t].stage, |s.conns|;
    assert ThreadSound(env, s, s.threads[t]);
    FewReceivers(w.cs, c);
    Distribute(|w.q| - w.i, PerMessage(c));
  }

  lemma SnapshotCosts(env: Env, s: State, t: nat, ch: Choice, b: nat)
    requires Sound(env, s) && Accounted(env, s) && |s.added| <= b && CanAdvance(env, s, t, ch)
    requires s.threads[t].stage.Entered? || s.threads[t].stage.Snapped?
    ensures ThreadCost(Moved(env, s, t, ch).threads[t], b, |s.conns|) < ThreadCost(s.threads[t], b, |s.conns|)
  {
    var p := PerMessage(|s.conns|);
    assert b * p >= 0;
    if s.threads[t].stage.Snapped? {
      var q := QueueAt(s.store, s.threads[t].stage.key);
      QueueIsShort(env, s, s.threads[t].stage.key);
      Monotone(|q|, b, p);
      assert q != [] ==> StageCost(Moved(env, s, t, ch).threads[t].stage, b, |s.conns|) == |q| * p + 1;
    }
  }

  lemma AdvanceCosts(env: Env, s: State, t: nat, ch: Choice, b: nat)
    requires Sound(env, s) && Accounted(env, s) && |s.added| <= b && CanAdvance(env, s, t, ch)
    ensures PoolCost(Moved(env, s, t, ch).threads, b, |s.conns|) < PoolCost(s.threads, b, |s.conns|)
  {
    var s', c := Moved(env, s, t, ch), |s.conns|;
    AdvanceFrame(env, s, t, ch);
    assert s'.threads == s.threads[t := s'.threads[t]];
    PoolUpdate(s.threads, t, s'.threads[t], b, c);
    match s.threads[t].stage
    case Idle => TakeCosts(env, s, t, ch, b, c);
    case Walking(_, _, _, _, _, _) => WalkCosts(env, s, t, ch, b);
    case _ => SnapshotCosts(env, s, t, ch, b);
  }

  lemma AdvanceKeepsBudget(env: Env, s: State, t: nat, ch: Choice)
    requires CanAdvance(env, s, t, ch)
    ensures Budget(Moved(env, s, t, ch)) == Budget(s)
  {
    var s' := Moved(env, s, t, ch);
    AdvanceFrame(env, s, t, ch);
    assert s'.threads == s.threads[t := s'.threads[t]];
    PublishesUpdate(s.threads, t, s'.threads[t]);
    if s.threads[t].stage.Idle? {
      TakeTodo(env, s, t, ch);
      PublishesConcat(Front(s, t, ch), s.threads[t].todo[1..]);
      NoPublishes(Front(s, t, ch));
    }
  }

  // ---------------------------------------------------------------- main results

  /** From step `from` on, tasks run but no request comes in. */
  ghost predicate NoRequestsAfter(steps: seq<Step>, from: nat) {
    forall k :: from <= k < |steps| ==> steps[k].Advance?
  }

  lemma StepCosts(env: Env, s: State, step: Step, b: nat)
    requires Sound(env, s) && Accounted(env, s) && Budget(s) == b && step.Advance? && Enabled(env, s, step)
    ensures var s' := Exec(env, s, step);
            && Budget(s') == b && |s'.conns| == |s.conns|
            && PoolCost(s'.threads, b, |s.conns|) < PoolCost(s.threads, b, |s.conns|)
  {
    AdvanceFrame(env, s, step.t, step.ch);
    AdvanceKeepsBudget(env, s, step.t, step.ch);
    AdvanceCosts(env, s, step.t, step.ch, b);
  }

  /** The upper bound on the steps left in the pool. */
  ghost function StepsLeft(s: State): int {
    PoolCost(s.threads, Budget(s), |s.conns|)
  }

  lemma RunStepCosts(env: Env, steps: seq<Step>, ss: seq<State>, n: nat)
    requires IsRun(env, steps, ss) && n < |steps| && steps[n].Advance?
    ensures StepsLeft(ss[n + 1]) < StepsLeft(ss[n])
  {
    RunStaysSound(env, steps, ss, n);
    EverythingAccounted(env, steps, ss, n);
    StepCosts(env, ss[n], steps[n], Budget(ss[n]));
  }

  lemma {:induction false} CostGoesDown(ss: seq<State>, from: nat, n: nat)
    requires from <= n < |ss| && forall k :: from <= k < n ==> StepsLeft(ss[k + 1]) < StepsLeft(ss[k])
    ensures StepsLeft(ss[n]) + (n - from) <= StepsLeft(ss[from])
  {
    if n > from {
      CostGoesDown(ss, from, n - 1);
      assert StepsLeft(ss[n - 1 + 1]) < StepsLeft(ss[n - 1]);
    }
  }

  lemma {:induction false} PoolCostIsPositive(env: Env, s: State, ts: seq<Thread>, b: nat)
    requires forall t :: 0 <= t < |ts| ==> StageSound(env, s, ts[t].stage)
    ensures PoolCost(ts, b, |s.conns|) >= 0
  {
    if ts != [] {
      PoolCostIsPositive(env, s, ts[..|ts| - 1], b);
      var w, c := ts[|ts| - 1].stage, |s.conns|;
      assert b * PerMessage(c) >= 0;
      if w.Walking? {
        FewReceivers(w.cs, c);
        Monotone(0, if w.at == Test then |w.q| - w.i else |w.q| - w.i - 1, PerMessage(c));
      }
    }
  }

  lemma StepsLeftIsPositive(env: Env, s: State)
    requires Sound(env, s)
    ensures StepsLeft(s) >= 0
  {
    forall t | 0 <= t < |s.threads| ensures StageSound(env, s, s.threads[t].stage) {
      assert ThreadSound(env, s, s.threads[t]);
    }
    PoolCostIsPositive(env, s, s.threads, Budget(s));
  }

  /** However the scheduler interleaves the tasks, without new requests the pool can only take
      so many steps. */
  lemma TasksFinish(env: Env, steps: seq<Step>, ss: seq<State>, from: nat)
    requires IsRun(env, steps, ss) && from <= |steps| && NoRequestsAfter(steps, from)
    ensures |steps| - from <= StepsLeft(ss[from])
  {
    forall k | from <= k < |steps| ensures StepsLeft(ss[k + 1]) < StepsLeft(ss[k]) {
      RunStepCosts(env, steps, ss, k);
    }
    CostGoesDown(ss, from, |steps|);
    RunStaysSound(env, steps, ss, |steps|);
    StepsLeftIsPositive(env, ss[|steps|]);
  }

  /** Eventual delivery: wherever a schedule gets to that has no step left to take, every
      unexpired queued message has been written to every open connection that covers its key. */
  lemma EventualDelivery(env: Env, steps: seq<Step>, ss: seq<State>, key: Key, m: Message, c: nat)
    requires IsRun(env, steps, ss)
    requires forall t, ch :: !Enabled(env, ss[|steps|], Advance(t, ch))
    requires Owed(env, ss[|steps|], key, m, c)
    ensures ss[|steps|].conns[c].tally.writes[m.id] > 0
  {
    if !Quiet(ss[|steps|]) {
      NeverStuck(env, steps, ss, |steps|);
    }
    QuietMeansDelivered(env, steps, ss, |steps|, key, m, c);
  }

  /** Every run can be completed, by the tasks alone, to one where nothing is left to do. */
  lemma {:induction false} TasksCanFinish(env: Env, steps: seq<Step>, ss: seq<State>) returns (steps': seq<Step>, ss': seq<State>)
    requires IsRun(env, steps, ss)
    ensures IsRun(env, steps', ss') && steps <= steps' && ss <= ss' && NoRequestsAfter(steps', |steps|)
    ensures Quiet(ss'[|steps'|])
    decreases StepsLeft(ss[|steps|])
  {
    var s := ss[|steps|];
    if Quiet(s) {
      steps', ss' := steps, ss;
    } else {
      NeverStuck(env, steps, ss, |steps|);
      RunStaysSound(env, steps, ss, |steps|);
      EverythingAccounted(env, steps, ss, |steps|);
      StepsLeftIsPositive(env, s);
      var t, ch :| Enabled(env, s, Advance(t, ch));
      StepCosts(env, s, Advance(t, ch), Budget(s));
      var more, further := Extended(env, steps, ss, Advance(t, ch));
      steps', ss' := TasksCanFinish(env, more, further);
      assert forall k :: |steps| <= k < |steps'| ==> steps'[k].Advance? by {
        assert steps'[|steps|] == more[|steps|];
      }
    }
  }
}
