/** Why entries leave the queues: conservation, and a justification for every removal. */
module Ledger {
  import opened Messages
  import opened Queues
  import opened Protocol
  import opened Soundness

  // ------------------------------------------------------------ conservation

  function Exits(log: seq<Exit>, key: Key, id: Uuid): nat {
    if log == [] then 0
    else
      var e := log[|log| - 1];
      Exits(log[..|log| - 1], key, id) + (if e.key == key && e.m.id == id then 1 else 0)
  }

  lemma {:induction false} ExitsConcat(a: seq<Exit>, b: seq<Exit>, key: Key, id: Uuid)
    ensures Exits(a + b, key, id) == Exits(a, key, id) + Exits(b, key, id)
  {
    if b == [] {
      assert a + b == a;
    } else {
      ExitsConcat(a, b[..|b| - 1], key, id);
      assert (a + b)[..|a + b| - 1] == a + b[..|b| - 1];
    }
  }

  lemma HasLast(q: Queue, id: Uuid)
    requires q != []
    ensures Has(q, id) <==> Has(q[..|q| - 1], id) || q[|q| - 1].id == id
  {
    if i :| 0 <= i < |q| && q[i].id == id {
      assert i < |q| - 1 ==> q[..|q| - 1][i].id == id;
    }
    var p := q[..|q| - 1];
    if i :| 0 <= i < |p| && p[i].id == id {
      assert q[i].id == id;
    }
  }

  lemma {:induction false} ExitsOfQueue(k: Key, q: Queue, now: int, key: Key, id: Uuid)
    requires DistinctIds(q)
    ensures Exits(ExitsOf(k, q, now), key, id) == if k == key && Has(q, id) then 1 else 0
  {
    if q != [] {
      ExitsOfQueue(k, q[..|q| - 1], now, key, id);
      assert ExitsOf(k, q, now)[..|q| - 1] == ExitsOf(k, q[..|q| - 1], now);
      HasLast(q, id);
    }
  }

  /** Entries created are entries removed plus the entry there now, if any. */
  ghost predicate Conserved(s: State, key: Key, id: Uuid) {
    s.inserted[(key, id)] == Exits(s.exits, key, id) + (if Has(QueueAt(s.store, key), id) then 1 else 0)
  }

  lemma UpsertHas(q: Queue, m: Message, id: Uuid)
    ensures Has(Upsert(q, m), id) <==> id == m.id || Has(q, id)
  {
    var i, r := Find(q, m.id), Upsert(q, m);
    assert r[i] == m;
    if x :| 0 <= x < |q| && q[x].id == id {
      assert r[x].id == id;
    }
  }

  lemma WithoutHas(q: Queue, gone: Uuid, id: Uuid)
    requires DistinctIds(q)
    ensures Has(Without(q, gone), id) <==> id != gone && Has(q, id)
  {
    WithoutKeepsIdsDistinct(q, gone);
    var r := Without(q, gone);
    if x :| 0 <= x < |q| && q[x].id == id && id != gone {
      assert q[x] in r;
    }
    if x :| 0 <= x < |r| && r[x].id == id {
      assert r[x] in q;
    }
  }

  lemma PublishConserves(s: State, k: Key, m: Message, key: Key, id: Uuid)
    requires Conserved(s, key, id)
    ensures Conserved(Added(s, k, m), key, id)
  {
    AddTouchesOneKey(s.store, k, m, key);
    UpsertHas(QueueAt(s.store, k), m, id);
  }

  lemma DiscardConserves(s: State, k: Key, gone: Uuid, cause: Cause, key: Key, id: Uuid)
    requires GoodStore(s.store) && Conserved(s, key, id)
    ensures Conserved(Discarded(s, k, gone, cause), key, id)
  {
    var q := QueueAt(s.store, k);
    WithoutHas(q, gone, id);
    DeleteTouchesOneKey(s.store, k, gone, key);
    var i := Find(q, gone);
    if i < |q| {
      assert Has(q, gone);
      ExitsAppend(s.exits, Exit(k, q[i], cause, s.now), key, id);
    }
  }

  lemma ExitsAppend(log: seq<Exit>, e: Exit, key: Key, id: Uuid)
    ensures Exits(log + [e], key, id) == Exits(log, key, id) + (if e.key == key && e.m.id == id then 1 else 0)
  {
    assert (log + [e])[..|log|] == log;
  }

  lemma DropConserves(s: State, k: Key, key: Key, id: Uuid)
    requires GoodStore(s.store) && Conserved(s, key, id)
    ensures Conserved(Dropped(s, k), key, id)
  {
    ExitsConcat(s.exits, ExitsOf(k, QueueAt(s.store, k), s.now), key, id);
    ExitsOfQueue(k, QueueAt(s.store, k), s.now, key, id);
  }

  lemma TakeConserves(env: Env, s: State, t: nat, ch: Choice, key: Key, id: Uuid)
    requires Sound(env, s) && CanAdvance(env, s, t, ch) && s.threads[t].stage.Idle?
    requires Conserved(s, key, id)
    ensures Conserved(Take(env, s, t, ch), key, id)
  {
    var mid := SetThread(s, t, Thread(Idle, s.threads[t].todo[1..]));
    assert Conserved(mid, key, id);
    match s.threads[t].todo[0]
    case Publish(k, m) => PublishConserves(mid, k, m, key, id);
    case Discard(k, gone, cause) => DiscardConserves(mid, k, gone, cause, key, id);
    case Clear(k) => DropConserves(mid, k, key, id);
    case _ =>
  }

  /** No loss and no duplication: for every key and id, in every reachable state. */
  lemma {:induction false} NothingVanishes(env: Env, steps: seq<Step>, ss: seq<State>, n: nat, key: Key, id: Uuid)
    requires IsRun(env, steps, ss) && n <= |steps|
    ensures Conserved(ss[n], key, id)
  {
    if n > 0 {
      var s, step := ss[n - 1], steps[n - 1];
      NothingVanishes(env, steps, ss, n - 1, key, id);
      RunStaysSound(env, steps, ss, n - 1);
      if !step.Advance? {
        OtherStepsFrame(env, s, step);
      } else if s.threads[step.t].stage.Idle? {
        TakeConserves(env, s, step.t, step.ch, key, id);
      } else {
        AdvanceFrame(env, s, step.t, step.ch);
      }
    }
  }

  // ---------------------------------------------------------- justifications

  /** Why a deletion by id may happen: the connection is subscribed to the key and had exactly
      this key recorded for the id it acknowledged; or the sweeper saw an expired copy that was
      published under this key; or someone asked for it, see `Requested`. */
  ghost predicate Justified(env: Env, s: State, key: Key, id: Uuid, cause: Cause, time: int) {
    match cause
    case ByAck(c) =>
      && c < |s.conns| && Receives(env.glob, s.conns[c].keys, key)
      && (c, key, id) in s.settled
      && (s.honest ==> s.conns[c].tally.writes[id] > 0)
    case BySweep(seen) => seen.id == id && Entry(key, seen) in s.added && seen.Expired(time)
    case ByRequest => true
  }

  ghost predicate JobJustified(env: Env, s: State, job: Job) {
    match job
    case Discard(key, id, cause) => Justified(env, s, key, id, cause, s.now)
    case Scan(key, q) => forall x :: 0 <= x < |q| ==> Entry(key, q[x]) in s.added
    case _ => true
  }

  ghost predicate LinkJustified(env: Env, s: State, c: nat)
    requires c < |s.conns|
  {
    forall id :: id in s.conns[c].link.inflight ==> Receives(env.glob, s.conns[c].keys, s.conns[c].link.inflight[id])
  }

  ghost predicate Accounted(env: Env, s: State) {
    && (forall key, m :: m in QueueAt(s.store, key) ==> Entry(key, m) in s.added)
    && (forall x :: 0 <= x < |s.exits| ==>
          && Entry(s.exits[x].key, s.exits[x].m) in s.added
          && s.exits[x].time <= s.now
          && Justified(env, s, s.exits[x].key, s.exits[x].m.id, s.exits[x].cause, s.exits[x].time))
    && (forall t, n :: 0 <= t < |s.threads| && 0 <= n < |s.threads[t].todo| ==> JobJustified(env, s, s.threads[t].todo[n]))
    && (forall c: nat :: c < |s.conns| ==> LinkJustified(env, s, c))
  }

  /** Nothing that justifies a removal is ever taken back. */
  ghost predicate Grown(s: State, s': State) {
    && ConnsKept(s, s')
    && (forall c :: 0 <= c < |s.conns| ==> s.conns[c].tally.writes <= s'.conns[c].tally.writes)
    && s.settled <= s'.settled && (s'.honest ==> s.honest) && s.now <= s'.now
    && (forall e :: e in s.added ==> e in s'.added)
  }

  lemma AdvanceGrows(env: Env, s: State, t: nat, ch: Choice)
    requires CanAdvance(env, s, t, ch)
    ensures Grown(s, Moved(env, s, t, ch))
  {
    AdvanceFrame(env, s, t, ch);
    if s.threads[t].stage.Idle? {
      TakeFrame(env, s, t, ch);
    }
  }

  lemma StepGrows(env: Env, s: State, step: Step)
    requires Enabled(env, s, step)
    ensures Grown(s, Exec(env, s, step))
  {
    if step.Advance? {
      AdvanceGrows(env, s, step.t, step.ch);
    } else {
      StepKeepsConns(env, s, step);
      OtherStepsFrame(env, s, step);
    }
  }

  lemma StaysJustified(env: Env, s: State, s': State, key: Key, id: Uuid, cause: Cause, time: int, time': int)
    requires Justified(env, s, key, id, cause, time) && Grown(s, s') && time <= time'
    ensures Justified(env, s', key, id, cause, time')
  {
  }

  lemma JobStaysJustified(env: Env, s: State, s': State, job: Job)
    requires JobJustified(env, s, job) && Grown(s, s')
    ensures JobJustified(env, s', job)
  {
    if job.Discard? {
      StaysJustified(env, s, s', job.key, job.id, job.cause, s.now, s'.now);
    }
  }

  lemma ExitsStayJustified(env: Env, s: State, s': State)
    requires Accounted(env, s) && Grown(s, s') && s'.exits == s.exits
    ensures forall x :: 0 <= x < |s'.exits| ==>
              && Entry(s'.exits[x].key, s'.exits[x].m) in s'.added
              && s'.exits[x].time <= s'.now
              && Justified(env, s', s'.exits[x].key, s'.exits[x].m.id, s'.exits[x].cause, s'.exits[x].time)
  {
    forall x | 0 <= x < |s.exits|
      ensures Justified(env, s', s.exits[x].key, s.exits[x].m.id, s.exits[x].cause, s.exits[x].time)
    {
      var e := s.exits[x];
      StaysJustified(env, s, s', e.key, e.m.id, e.cause, e.time, e.time);
    }
  }

  // ------------------------------------------------------------ preservation

  lemma TakeKeepsStoreRecorded(env: Env, s: State, t: nat, ch: Choice, key: Key, m: Message)
    requires Sound(env, s) && Accounted(env, s) && CanAdvance(env, s, t, ch) && s.threads[t].stage.Idle?
    requires m in QueueAt(Take(env, s, t, ch).store, key)
    ensures Entry(key, m) in Take(env, s, t, ch).added
  {
    match s.threads[t].todo[0]
    case Publish(k, p) =>
      AddTouchesOneKey(s.store, k, p, key);
      assert DistinctIds(QueueAt(s.store, k));
      UpsertKeepsIdsDistinct(QueueAt(s.store, k), p);
    case Discard(k, gone, _) =>
      assert DistinctIds(QueueAt(s.store, k));
      WithoutKeepsIdsDistinct(QueueAt(s.store, k), gone);
    case _ =>
  }

  lemma NewExitsJustified(env: Env, s: State, t: nat, ch: Choice, x: nat)
    requires Sound(env, s) && Accounted(env, s) && CanAdvance(env, s, t, ch) && s.threads[t].stage.Idle?
    requires |s.exits| <= x < |Take(env, s, t, ch).exits|
    ensures var s', e := Take(env, s, t, ch), Take(env, s, t, ch).exits[x];
            Entry(e.key, e.m) in s'.added && e.time <= s'.now && Justified(env, s', e.key, e.m.id, e.cause, e.time)
  {
    AdvanceGrows(env, s, t, ch);
    var s', job := Take(env, s, t, ch), s.threads[t].todo[0];
    if job.Discard? {
      assert JobJustified(env, s, job);
      StaysJustified(env, s, s', job.key, job.id, job.cause, s.now, s'.now);
    }
  }

  lemma TakeKeepsExitsJustified(env: Env, s: State, t: nat, ch: Choice, x: nat)
    requires Sound(env, s) && Accounted(env, s) && CanAdvance(env, s, t, ch) && s.threads[t].stage.Idle?
    requires x < |Take(env, s, t, ch).exits|
    ensures var s', e := Take(env, s, t, ch), Take(env, s, t, ch).exits[x];
            Entry(e.key, e.m) in s'.added && e.time <= s'.now && Justified(env, s', e.key, e.m.id, e.cause, e.time)
  {
    if x < |s.exits| {
      AdvanceGrows(env, s, t, ch);
      var e := s.exits[x];
      StaysJustified(env, s, Take(env, s, t, ch), e.key, e.m.id, e.cause, e.time, e.time);
    } else {
      NewExitsJustified(env, s, t, ch, x);
    }
  }

  /** The jobs that replace the one just taken up. */
  lemma FirstJobJustified(env: Env, s: State, t: nat, ch: Choice, n: nat)
    requires Sound(env, s) && Accounted(env, s) && CanAdvance(env, s, t, ch) && s.threads[t].stage.Idle?
    requires n < |Take(env, s, t, ch).threads[t].todo| - (|s.threads[t].todo| - 1)
    ensures JobJustified(env, Take(env, s, t, ch), Take(env, s, t, ch).threads[t].todo[n])
  {
    assert JobJustified(env, s, s.threads[t].todo[0]);
  }

  /** Behind them the other jobs are still in line. */
  lemma LaterJob(env: Env, s: State, t: nat, ch: Choice, n: nat)
    requires CanAdvance(env, s, t, ch) && s.threads[t].stage.Idle?
    requires var front := |Take(env, s, t, ch).threads[t].todo| - (|s.threads[t].todo| - 1);
             front <= n < |Take(env, s, t, ch).threads[t].todo|
    ensures var front := |Take(env, s, t, ch).threads[t].todo| - (|s.threads[t].todo| - 1);
            front >= 0 && Take(env, s, t, ch).threads[t].todo[n] == s.threads[t].todo[n - front + 1]
  {
  }

  lemma TakeKeepsJobsJustified(env: Env, s: State, t: nat, ch: Choice, n: nat)
    requires Sound(env, s) && Accounted(env, s) && CanAdvance(env, s, t, ch) && s.threads[t].stage.Idle?
    requires n < |Take(env, s, t, ch).threads[t].todo|
    ensures JobJustified(env, Take(env, s, t, ch), Take(env, s, t, ch).threads[t].todo[n])
  {
    var s', todo := Take(env, s, t, ch), s.threads[t].todo;
    var front := |s'.threads[t].todo| - (|todo| - 1);
    if n < front {
      FirstJobJustified(env, s, t, ch, n);
    } else {
      AdvanceGrows(env, s, t, ch);
      LaterJob(env, s, t, ch, n);
      assert JobJustified(env, s, todo[n - front + 1]);
      JobStaysJustified(env, s, s', todo[n - front + 1]);
    }
  }

  lemma WalkKeepsLinksJustified(env: Env, s: State, t: nat, ch: Choice, c: nat)
    requires Sound(env, s) && Accounted(env, s) && CanAdvance(env, s, t, ch) && s.threads[t].stage.Walking?
    requires c < |s.conns|
    ensures LinkJustified(env, Walk(s, t, ch), c)
  {
    assert ThreadSound(env, s, s.threads[t]);
    assert LinkJustified(env, s, c);
  }

  lemma AdvanceAccounted(env: Env, s: State, t: nat, ch: Choice)
    requires Sound(env, s) && Accounted(env, s) && CanAdvance(env, s, t, ch)
    ensures Accounted(env, Moved(env, s, t, ch))
  {
    var s' := Moved(env, s, t, ch);
    AdvanceFrame(env, s, t, ch);
    AdvanceGrows(env, s, t, ch);
    if s.threads[t].stage.Idle? {
      TakeFrame(env, s, t, ch);
      forall key, m | m in QueueAt(s'.store, key) ensures Entry(key, m) in s'.added {
        TakeKeepsStoreRecorded(env, s, t, ch, key, m);
      }
      forall x | 0 <= x < |s'.exits|
        ensures Entry(s'.exits[x].key, s'.exits[x].m) in s'.added && s'.exits[x].time <= s'.now
        ensures Justified(env, s', s'.exits[x].key, s'.exits[x].m.id, s'.exits[x].cause, s'.exits[x].time)
      {
        TakeKeepsExitsJustified(env, s, t, ch, x);
      }
    } else {
      ExitsStayJustified(env, s, s');
    }
    forall u, n | 0 <= u < |s'.threads| && 0 <= n < |s'.threads[u].todo|
      ensures JobJustified(env, s', s'.threads[u].todo[n])
    {
      if u == t && s.threads[t].stage.Idle? {
        TakeKeepsJobsJustified(env, s, t, ch, n);
      } else {
        assert s'.threads[u].todo == s.threads[u].todo;
        JobStaysJustified(env, s, s', s.threads[u].todo[n]);
      }
    }
    forall c: nat | c < |s'.conns| ensures LinkJustified(env, s', c) {
      if s.threads[t].stage.Walking? {
        WalkKeepsLinksJustified(env, s, t, ch, c);
      } else {
        assert LinkJustified(env, s, c);
      }
    }
  }

  lemma NewJobsJustified(env: Env, s: State, step: Step, n: nat)
    requires Sound(env, s) && Accounted(env, s) && Enabled(env, s, step) && !step.Advance?
    requires |Exec(env, s, step).threads| > |s.threads| && n < |Exec(env, s, step).threads[|s.threads|].todo|
    ensures JobJustified(env, Exec(env, s, step), Exec(env, s, step).threads[|s.threads|].todo[n])
  {
    match step
    case Post(m) => PublishJobsHarmless(m, Distinct([m.key] + m.keys));
    case Ack(c, id) => assert LinkJustified(env, s, c);
    case _ =>
  }

  lemma {:induction false} PublishJobsHarmless(m: Message, targets: seq<Key>)
    ensures forall n :: 0 <= n < |PublishJobs(m, targets)| ==>
              PublishJobs(m, targets)[n].Publish? || PublishJobs(m, targets)[n].Flush?
  {
    if targets != [] {
      PublishJobsHarmless(m, targets[1..]);
    }
  }

  lemma JobsJustifiedAfter(env: Env, s: State, step: Step, u: nat, n: nat)
    requires Sound(env, s) && Accounted(env, s) && Enabled(env, s, step) && !step.Advance?
    requires u < |Exec(env, s, step).threads| && n < |Exec(env, s, step).threads[u].todo|
    ensures JobJustified(env, Exec(env, s, step), Exec(env, s, step).threads[u].todo[n])
  {
    OtherStepsFrame(env, s, step);
    if u < |s.threads| {
      StepGrows(env, s, step);
      assert Exec(env, s, step).threads[u] == s.threads[u];
      JobStaysJustified(env, s, Exec(env, s, step), s.threads[u].todo[n]);
    } else {
      NewJobsJustified(env, s, step, n);
    }
  }

  lemma OtherStepAccounted(env: Env, s: State, step: Step)
    requires Sound(env, s) && Accounted(env, s) && Enabled(env, s, step) && !step.Advance?
    ensures Accounted(env, Exec(env, s, step))
  {
    var s' := Exec(env, s, step);
    OtherStepsFrame(env, s, step);
    StepGrows(env, s, step);
    ExitsStayJustified(env, s, s');
    forall u, n | 0 <= u < |s'.threads| && 0 <= n < |s'.threads[u].todo|
      ensures JobJustified(env, s', s'.threads[u].todo[n])
    {
      JobsJustifiedAfter(env, s, step, u, n);
    }
    forall c: nat | c < |s'.conns| ensures LinkJustified(env, s', c) {
      if c < |s.conns| {
        assert LinkJustified(env, s, c);
      }
    }
  }

  lemma {:induction false} EverythingAccounted(env: Env, steps: seq<Step>, ss: seq<State>, n: nat)
    requires IsRun(env, steps, ss) && n <= |steps|
    ensures Accounted(env, ss[n])
  {
    if n > 0 {
      var s, step := ss[n - 1], steps[n - 1];
      EverythingAccounted(env, steps, ss, n - 1);
      RunStaysSound(env, steps, ss, n - 1);
      if step.Advance? {
        AdvanceAccounted(env, s, step.t, step.ch);
      } else {
        OtherStepAccounted(env, s, step);
      }
    }
  }

  // ---------------------------------------------------------------- requests

  /** A DELETE of everything under the key. */
  predicate AsksForKey(step: Step, key: Key) {
    step == DeleteKey(key) || (step.DeleteAll? && key in step.keys)
  }

  /** One of the first `n` steps was a DELETE that covers this entry. */
  ghost predicate Requested(steps: seq<Step>, n: nat, key: Key, id: Uuid)
    requires n <= |steps|
  {
    exists k :: 0 <= k < n && (AsksForKey(steps[k], key) || steps[k] == DeleteOne(key, id))
  }

  ghost predicate JobRequested(steps: seq<Step>, n: nat, job: Job)
    requires n <= |steps|
  {
    match job
    case Discard(key, id, ByRequest) => Requested(steps, n, key, id)
    case Clear(key) => exists k :: 0 <= k < n && AsksForKey(steps[k], key)
    case _ => true
  }

  ghost predicate ExitRequested(steps: seq<Step>, n: nat, e: Exit)
    requires n <= |steps|
  {
    e.cause.ByRequest? ==> Requested(steps, n, e.key, e.m.id)
  }

  ghost predicate AllRequested(steps: seq<Step>, n: nat, s: State)
    requires n <= |steps|
  {
    && (forall x :: 0 <= x < |s.exits| ==> ExitRequested(steps, n, s.exits[x]))
    && forall t, j :: 0 <= t < |s.threads| && 0 <= j < |s.threads[t].todo| ==> JobRequested(steps, n, s.threads[t].todo[j])
  }

  lemma StaysRequested(steps: seq<Step>, n: nat, s: State)
    requires n < |steps| && AllRequested(steps, n, s)
    ensures AllRequested(steps, n + 1, s)
  {
    forall x | 0 <= x < |s.exits| ensures ExitRequested(steps, n + 1, s.exits[x]) {
      assert ExitRequested(steps, n, s.exits[x]);
    }
    forall t, j | 0 <= t < |s.threads| && 0 <= j < |s.threads[t].todo|
      ensures JobRequested(steps, n + 1, s.threads[t].todo[j])
    {
      assert JobRequested(steps, n, s.threads[t].todo[j]);
    }
  }

  /** A goroutine passes on the requests it has. */
  lemma TakeRequested(env: Env, s: State, t: nat, ch: Choice, steps: seq<Step>, n: nat)
    requires n <= |steps| && AllRequested(steps, n, s) && CanAdvance(env, s, t, ch) && s.threads[t].stage.Idle?
    ensures forall x :: 0 <= x < |Take(env, s, t, ch).exits| ==> ExitRequested(steps, n, Take(env, s, t, ch).exits[x])
    ensures forall j :: 0 <= j < |Take(env, s, t, ch).threads[t].todo| ==>
              JobRequested(steps, n, Take(env, s, t, ch).threads[t].todo[j])
  {
    var s', todo := Take(env, s, t, ch), s.threads[t].todo;
    assert JobRequested(steps, n, todo[0]);
    forall x | 0 <= x < |s'.exits| ensures ExitRequested(steps, n, s'.exits[x]) {
      if x < |s.exits| {
        assert s'.exits[x] == s.exits[x];
      }
    }
    forall j | 0 <= j < |s'.threads[t].todo| ensures JobRequested(steps, n, s'.threads[t].todo[j]) {
      var front := |s'.threads[t].todo| - (|todo| - 1);
      if j >= front {
        LaterJob(env, s, t, ch, j);
        assert JobRequested(steps, n, todo[j - front + 1]);
      }
    }
  }

  lemma NewTaskRequested(env: Env, s: State, steps: seq<Step>, n: nat, j: nat)
    requires n < |steps| && Enabled(env, s, steps[n]) && !steps[n].Advance?
    requires var s' := Exec(env, s, steps[n]);
             |s'.threads| > |s.threads| && j < |s'.threads[|s.threads|].todo|
    ensures JobRequested(steps, n + 1, Exec(env, s, steps[n]).threads[|s.threads|].todo[j])
  {
    match steps[n]
    case Post(m) => PublishJobsHarmless(m, Distinct([m.key] + m.keys));
    case DeleteAll(keys) => assert AsksForKey(steps[n], keys[j]);
    case DeleteKey(key) => assert AsksForKey(steps[n], key);
    case DeleteOne(key, id) => assert steps[n] == DeleteOne(key, id);
    case _ =>
  }

  lemma StepRequested(env: Env, s: State, steps: seq<Step>, n: nat)
    requires n < |steps| && AllRequested(steps, n, s) && Enabled(env, s, steps[n])
    ensures AllRequested(steps, n + 1, Exec(env, s, steps[n]))
  {
    var s', step := Exec(env, s, steps[n]), steps[n];
    StaysRequested(steps, n, s);
    if step.Advance? {
      AdvanceFrame(env, s, step.t, step.ch);
      if s.threads[step.t].stage.Idle? {
        TakeRequested(env, s, step.t, step.ch, steps, n + 1);
      } else {
        assert s'.threads[step.t].todo == s.threads[step.t].todo;
      }
    } else {
      OtherStepsFrame(env, s, step);
      forall t, j | 0 <= t < |s'.threads| && 0 <= j < |s'.threads[t].todo|
        ensures JobRequested(steps, n + 1, s'.threads[t].todo[j])
      {
        if t < |s.threads| {
          assert s'.threads[t] == s.threads[t];
        } else {
          NewTaskRequested(env, s, steps, n, j);
        }
      }
    }
  }

  lemma {:induction false} RequestsWereMade(env: Env, steps: seq<Step>, ss: seq<State>, n: nat)
    requires IsRun(env, steps, ss) && n <= |steps|
    ensures AllRequested(steps, n, ss[n])
  {
    if n > 0 {
      RequestsWereMade(env, steps, ss, n - 1);
      StepRequested(env, ss[n - 1], steps, n - 1);
    }
  }

  // ------------------------------------------------------------ main results

  /** No message leaves a queue for any other reason. Everything ever queued and not queued now
      has left at least once, and every single exit was by an accepted ACK recorded for exactly
      this key on a connection subscribed to it, by a sweep that saw an expired copy of the id
      published under this key, or by a DELETE request made before that covers the entry. If
      clients only ACK what was written to them, an exit by ACK means the id was written to that
      connection. */
  lemma EveryExitIsJustified(env: Env, steps: seq<Step>, ss: seq<State>, n: nat)
    requires IsRun(env, steps, ss) && n <= |steps|
    ensures forall x :: 0 <= x < |ss[n].exits| ==>
              var e := ss[n].exits[x];
              && Justified(env, ss[n], e.key, e.m.id, e.cause, e.time)
              && ExitRequested(steps, n, e)
    ensures forall key, id :: ss[n].inserted[(key, id)] > 0 && !Has(QueueAt(ss[n].store, key), id) ==>
              exists x :: 0 <= x < |ss[n].exits| && ss[n].exits[x].key == key && ss[n].exits[x].m.id == id
  {
    EverythingAccounted(env, steps, ss, n);
    RequestsWereMade(env, steps, ss, n);
    forall key, id | ss[n].inserted[(key, id)] > 0 && !Has(QueueAt(ss[n].store, key), id)
      ensures exists x :: 0 <= x < |ss[n].exits| && ss[n].exits[x].key == key && ss[n].exits[x].m.id == id
    {
      NothingVanishes(env, steps, ss, n, key, id);
      var _ := SomeExit(ss[n].exits, key, id);
    }
  }

  lemma {:induction false} SomeExit(log: seq<Exit>, key: Key, id: Uuid) returns (x: nat)
    requires Exits(log, key, id) > 0
    ensures x < |log| && log[x].key == key && log[x].m.id == id
  {
    x := |log| - 1;
    if !(log[x].key == key && log[x].m.id == id) {
      x := SomeExit(log[..x], key, id);
    }
  }

  /** No id was added twice under one key. */
  ghost predicate Fresh(s: State) {
    forall a, b :: 0 <= a < b < |s.added| && s.added[a].key == s.added[b].key ==> s.added[a].m.id != s.added[b].m.id
  }

  /** With fresh ids the sweeper never removes a message that has not expired. */
  lemma SweepSparesTheLiving(env: Env, steps: seq<Step>, ss: seq<State>, n: nat, x: nat)
    requires IsRun(env, steps, ss) && n <= |steps| && Fresh(ss[n])
    requires x < |ss[n].exits| && ss[n].exits[x].cause.BySweep?
    ensures ss[n].exits[x].m == ss[n].exits[x].cause.seen
    ensures ss[n].exits[x].m.Expired(ss[n].exits[x].time)
  {
    EverythingAccounted(env, steps, ss, n);
    var s, e := ss[n], ss[n].exits[x];
    assert Justified(env, s, e.key, e.m.id, e.cause, e.time);
    var a :| 0 <= a < |s.added| && s.added[a] == Entry(e.key, e.m);
    var b :| 0 <= b < |s.added| && s.added[b] == Entry(e.key, e.cause.seen);
    assert a == b;
  }

  /** Whatever is in flight on a connection belongs to a key the connection is subscribed to. */
  lemma InflightIsSubscribed(env: Env, steps: seq<Step>, ss: seq<State>, n: nat, c: nat, id: Uuid)
    requires IsRun(env, steps, ss) && n <= |steps| && c < |ss[n].conns|
    requires id in ss[n].conns[c].link.inflight
    ensures Receives(env.glob, ss[n].conns[c].keys, ss[n].conns[c].link.inflight[id])
  {
    EverythingAccounted(env, steps, ss, n);
    assert LinkJustified(env, ss[n], c);
  }

  /** Step `k` of the run accepted an ACK of this connection while the id was in flight on it
      for this key. */
  ghost predicate Accepted(steps: seq<Step>, ss: seq<State>, k: nat, c: nat, key: Key, id: Uuid)
    requires |steps| < |ss|
  {
    && k < |steps| && steps[k] == Ack(c, id)
    && c < |ss[k].conns| && id in ss[k].conns[c].link.inflight && ss[k].conns[c].link.inflight[id] == key
  }

  lemma {:induction false} SettledWasAccepted(env: Env, steps: seq<Step>, ss: seq<State>, n: nat, c: nat, key: Key, id: Uuid)
    returns (k: nat)
    requires IsRun(env, steps, ss) && n <= |steps| && (c, key, id) in ss[n].settled
    ensures k < n && Accepted(steps, ss, k, c, key, id)
  {
    if (c, key, id) in ss[n - 1].settled {
      k := SettledWasAccepted(env, steps, ss, n - 1, c, key, id);
    } else {
      k := n - 1;
      NewlySettled(env, ss[k], steps[k], c, key, id);
    }
  }

  lemma NewlySettled(env: Env, s: State, step: Step, c: nat, key: Key, id: Uuid)
    requires Enabled(env, s, step) && (c, key, id) in Exec(env, s, step).settled && (c, key, id) !in s.settled
    ensures step == Ack(c, id) && id in s.conns[c].link.inflight && s.conns[c].link.inflight[id] == key
  {
  }

  /** The second half of an ACK, whenever it runs and whatever ran since the first half: it
      answers an ACK the connection sent while the id was in flight for this key, it takes
      exactly the entry of this id out of the queue of the key, keeping the order of the rest,
      and no other queue and no connection changes. */
  lemma AckRemovesOneEntry(env: Env, steps: seq<Step>, ss: seq<State>, n: nat, c: nat, key: Key, id: Uuid)
    requires IsRun(env, steps, ss) && n < |steps| && steps[n].Advance?
    requires ss[n].threads[steps[n].t].stage.Idle? && ss[n].threads[steps[n].t].todo[0] == Discard(key, id, ByAck(c))
    ensures exists k: nat :: k < n && Accepted(steps, ss, k, c, key, id)
    ensures c < |ss[n].conns| && Receives(env.glob, ss[n].conns[c].keys, key)
    ensures forall k :: QueueAt(ss[n + 1].store, k)
                     == if k == key then Without(QueueAt(ss[n].store, k), id) else QueueAt(ss[n].store, k)
    ensures !Has(QueueAt(ss[n + 1].store, key), id) && ss[n + 1].conns == ss[n].conns
  {
    var s := ss[n];
    EverythingAccounted(env, steps, ss, n);
    RunStaysSound(env, steps, ss, n);
    assert JobJustified(env, s, s.threads[steps[n].t].todo[0]);
    var k := SettledWasAccepted(env, steps, ss, n, c, key, id);
    forall k ensures QueueAt(ss[n + 1].store, k)
                  == if k == key then Without(QueueAt(s.store, k), id) else QueueAt(s.store, k)
    {
      DeleteTouchesOneKey(s.store, key, id, k);
    }
    WithoutHas(QueueAt(s.store, key), id, id);
  }
}
