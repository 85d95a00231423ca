/** What requests come to: every POST is queued under each of its keys and delivered, every DELETE,
    sweep and ACK takes out what it was meant for, and connections live from their registration
    to the first close. */
module Requests {
  import opened Messages
  import opened Queues
  import opened Links
  import opened Protocol
  import opened Soundness
  import opened Wakeups
  import opened Flights
  import opened Ledger
  import opened Fifo
  import opened Liveness
  import opened Repeats

  /** Added after the first `base` additions of the run. */
  ghost predicate AddedSince(s: State, base: nat, key: Key, m: Message) {
    exists x :: base <= x < |s.added| && s.added[x] == Entry(key, m)
  }

  lemma AddedGrows(env: Env, s: State, step: Step, base: nat, key: Key, m: Message)
    requires Enabled(env, s, step) && AddedSince(s, base, key, m)
    ensures AddedSince(Exec(env, s, step), base, key, m)
  {
    var s' := Exec(env, s, step);
    assert s.added <= s'.added by {
      if !step.Advance? {
        OtherStepsFrame(env, s, step);
      }
    }
    var x :| base <= x < |s.added| && s.added[x] == Entry(key, m);
    assert s'.added[x] == Entry(key, m);
  }

  /** A job in line is still in line after a step, or was taken up by it. */
  lemma JobStays(env: Env, s: State, step: Step, t: nat, n: nat) returns (n': nat)
    requires Enabled(env, s, step) && t < |s.threads| && n < |s.threads[t].todo|
    requires !(step.Advance? && step.t == t && n == 0 && s.threads[t].stage.Idle?)
    ensures var s' := Exec(env, s, step);
            t < |s'.threads| && n' < |s'.threads[t].todo| && s'.threads[t].todo[n'] == s.threads[t].todo[n]
  {
    n' := n;
    if step.Advance? {
      AdvanceFrame(env, s, step.t, step.ch);
      if step.t == t && s.threads[t].stage.Idle? {
        n' := JobMoves(env, s, t, step.ch, n);
      } else if step.t == t && s.threads[t].stage.Walking? {
        WalkFrame(env, s, t, step.ch);
      }
    } else {
      OtherStepsFrame(env, s, step);
    }
  }

  // ------------------------------------------------------------------- publish

  /** A task is still to add the message under the key. */
  ghost predicate ToBePublished(s: State, key: Key, m: Message) {
    exists t, n :: 0 <= t < |s.threads| && 0 <= n < |s.threads[t].todo| && s.threads[t].todo[n] == Publish(key, m)
  }

  ghost predicate QueuedSoon(s: State, base: nat, key: Key, m: Message) {
    AddedSince(s, base, key, m) || ToBePublished(s, key, m)
  }

  /** A POST is taken exactly if the message names a key at all. */
  lemma PostIsTakenExactlyWhen(env: Env, s: State, m: Message)
    ensures Enabled(env, s, Post(m)) <==> m.key != "" || exists key :: key in m.keys && key != ""
  {
    var targets := Distinct([m.key] + m.keys);
    DistinctIsASet([m.key] + m.keys);
    if targets != [] {
      assert targets[0] in targets;
    }
    if key :| key in m.keys && key != "" {
      assert key in targets;
    }
    if m.key != "" {
      assert m.key in targets;
    }
  }

  lemma {:induction false} PublishedSomewhere(m: Message, targets: seq<Key>, key: Key) returns (n: nat)
    requires key in targets
    ensures n < |PublishJobs(m, targets)| && PublishJobs(m, targets)[n] == Publish(key, m.(key := key))
  {
    n := 0;
    if targets[0] != key {
      n := PublishedSomewhere(m, targets[1..], key);
      n := n + 2;
    }
  }

  lemma PostSchedules(env: Env, s: State, m: Message, key: Key)
    requires Enabled(env, s, Post(m)) && key != "" && (key == m.key || key in m.keys)
    ensures ToBePublished(Exec(env, s, Post(m)), key, m.(key := key))
  {
    var s', targets := Exec(env, s, Post(m)), Distinct([m.key] + m.keys);
    DistinctIsASet([m.key] + m.keys);
    var n := PublishedSomewhere(m, targets, key);
    assert s'.threads[|s.threads|].todo[n] == Publish(key, m.(key := key));
  }

  lemma StepQueues(env: Env, s: State, step: Step, base: nat, key: Key, m: Message)
    requires Enabled(env, s, step) && QueuedSoon(s, base, key, m) && base <= |s.added|
    ensures QueuedSoon(Exec(env, s, step), base, key, m)
  {
    var s' := Exec(env, s, step);
    if AddedSince(s, base, key, m) {
      AddedGrows(env, s, step, base, key, m);
    } else {
      var t, n :| 0 <= t < |s.threads| && 0 <= n < |s.threads[t].todo| && s.threads[t].todo[n] == Publish(key, m);
      if step.Advance? && step.t == t && n == 0 && s.threads[t].stage.Idle? {
        assert s'.added[|s.added|] == Entry(key, m);
      } else {
        var n' := JobStays(env, s, step, t, n);
        assert s'.threads[t].todo[n'] == Publish(key, m);
      }
    }
  }

  lemma RunAdds(env: Env, steps: seq<Step>, ss: seq<State>, n: nat)
    requires IsRun(env, steps, ss) && n < |steps|
    ensures |ss[n].added| <= |ss[n + 1].added|
  {
    if !steps[n].Advance? {
      OtherStepsFrame(env, ss[n], steps[n]);
    }
  }

  lemma RunQueues(env: Env, steps: seq<Step>, ss: seq<State>, n: nat, base: nat, key: Key, m: Message)
    requires IsRun(env, steps, ss) && n < |steps| && base <= |ss[n].added| && QueuedSoon(ss[n], base, key, m)
    ensures base <= |ss[n + 1].added| && QueuedSoon(ss[n + 1], base, key, m)
  {
    RunAdds(env, steps, ss, n);
    StepQueues(env, ss[n], steps[n], base, key, m);
  }

  /** Every POST of a run is added under each non-empty key of the message, with that key, or a
      task is still to add it; so once no task is left it has been added under all of them. */
  lemma {:induction false} PostIsQueued(env: Env, steps: seq<Step>, ss: seq<State>, k: nat, n: nat, m: Message, key: Key)
    requires IsRun(env, steps, ss) && k < n <= |steps| && steps[k] == Post(m)
    requires key != "" && (key == m.key || key in m.keys)
    ensures |ss[k].added| <= |ss[n].added|
    ensures AddedSince(ss[n], |ss[k].added|, key, m.(key := key)) || ToBePublished(ss[n], key, m.(key := key))
    ensures Quiet(ss[n]) ==> AddedSince(ss[n], |ss[k].added|, key, m.(key := key))
  {
    if n == k + 1 {
      RunAdds(env, steps, ss, k);
      PostSchedules(env, ss[k], m, key);
    } else {
      PostIsQueued(env, steps, ss, k, n - 1, m, key);
      RunQueues(env, steps, ss, n - 1, |ss[k].added|, key, m.(key := key));
    }
  }

  // ------------------------------------------------------------------ delivery

  lemma AddingInserts(env: Env, s: State, step: Step, e: Entry)
    requires Enabled(env, s, step) && e in Exec(env, s, step).added
    requires e in s.added ==> s.inserted[(e.key, e.m.id)] > 0
    requires Conserved(s, e.key, e.m.id)
    ensures Exec(env, s, step).inserted[(e.key, e.m.id)] > 0
  {
    if !step.Advance? {
      OtherStepsFrame(env, s, step);
    } else {
      AdvanceFrame(env, s, step.t, step.ch);
    }
  }

  lemma RunAddingInserts(env: Env, steps: seq<Step>, ss: seq<State>, n: nat, e: Entry)
    requires IsRun(env, steps, ss) && n < |steps| && e in ss[n + 1].added
    requires e in ss[n].added ==> ss[n].inserted[(e.key, e.m.id)] > 0
    ensures ss[n + 1].inserted[(e.key, e.m.id)] > 0
  {
    NothingVanishes(env, steps, ss, n, e.key, e.m.id);
    AddingInserts(env, ss[n], steps[n], e);
  }

  lemma {:induction false} AddedWasInserted(env: Env, steps: seq<Step>, ss: seq<State>, n: nat, e: Entry)
    requires IsRun(env, steps, ss) && n <= |steps| && e in ss[n].added
    ensures ss[n].inserted[(e.key, e.m.id)] > 0
  {
    if e in ss[n - 1].added {
      AddedWasInserted(env, steps, ss, n - 1, e);
    }
    RunAddingInserts(env, steps, ss, n - 1, e);
  }

  /** One of the keys is this one, or a pattern the glob says it matches. */
  ghost predicate Subscribes(glob: Glob, keys: seq<Key>, key: Key) {
    exists p :: p in keys && if '*' in p || '?' in p || '[' in p then glob(p, key) else p == key
  }

  /** An entry of the id is queued under the key that has outlived its lifetime. */
  ghost predicate Outlived(s: State, key: Key, id: Uuid) {
    exists m :: m in QueueAt(s.store, key) && m.id == id && m.date + m.expire < s.now
  }

  ghost predicate Removed(s: State, key: Key, id: Uuid) {
    exists x :: 0 <= x < |s.exits| && s.exits[x].key == key && s.exits[x].m.id == id
  }

  lemma StillQueuedIsWritten(env: Env, steps: seq<Step>, ss: seq<State>, n: nat, key: Key, id: Uuid, c: nat)
    requires IsRun(env, steps, ss) && n <= |steps| && Quiet(ss[n]) && Has(QueueAt(ss[n].store, key), id)
    requires c < |ss[n].conns| && ss[n].conns[c].registered && !ss[n].conns[c].link.closed
    requires Subscribes(env.glob, ss[n].conns[c].keys, key) && !Outlived(ss[n], key, id)
    ensures ss[n].conns[c].tally.writes[id] > 0 && ss[n].conns[c].tally.failures[id] == 0
  {
    var q, keys := QueueAt(ss[n].store, key), ss[n].conns[c].keys;
    var i :| 0 <= i < |q| && q[i].id == id;
    var p :| p in keys && if '*' in p || '?' in p || '[' in p then env.glob(p, key) else p == key;
    assert KeyMatches(env.glob, p, key);
    assert q[i] in q;
    QuietMeansDelivered(env, steps, ss, n, key, q[i], c);
  }

  /** At least once, from the request to the wire. A message was posted, and no task is left. Then
      for each of its non-empty keys and every open registered connection subscribed to the key,
      literally or by a pattern that matches it: the id was written to the connection and no write
      of it failed, or its entry under the key was removed, which `Ledger.EveryExitIsJustified`
      lays down, or it has outlived its lifetime in the queue. */
  lemma PostedIsDelivered(env: Env, steps: seq<Step>, ss: seq<State>, k: nat, n: nat, m: Message, key: Key, c: nat)
    requires IsRun(env, steps, ss) && k < n <= |steps| && steps[k] == Post(m) && Quiet(ss[n])
    requires key != "" && (key == m.key || key in m.keys)
    requires c < |ss[n].conns| && ss[n].conns[c].registered && !ss[n].conns[c].link.closed
    requires Subscribes(env.glob, ss[n].conns[c].keys, key)
    ensures var y := ss[n].conns[c].tally;
            (y.writes[m.id] > 0 && y.failures[m.id] == 0) || Removed(ss[n], key, m.id) || Outlived(ss[n], key, m.id)
  {
    PostIsQueued(env, steps, ss, k, n, m, key);
    var e := Entry(key, m.(key := key));
    assert e in ss[n].added;
    AddedWasInserted(env, steps, ss, n, e);
    if Has(QueueAt(ss[n].store, key), m.id) {
      if !Outlived(ss[n], key, m.id) {
        StillQueuedIsWritten(env, steps, ss, n, key, m.id, c);
      }
    } else {
      NothingVanishes(env, steps, ss, n, key, m.id);
      var x := SomeExit(ss[n].exits, key, m.id);
      assert ss[n].exits[x].key == key;
    }
  }

  /** A message found expired is passed over. */
  lemma ExpiredIsPassed(env: Env, s: State, t: nat, ch: Choice, x: nat)
    requires CanAdvance(env, s, t, ch) && s.threads[t].stage.Walking? && s.threads[t].stage.at == Test
    requires s.threads[t].stage.i == x < |s.threads[t].stage.q| && s.threads[t].stage.q[x].Expired(s.now)
    ensures Moved(env, s, t, ch).threads[t].stage.i > x
  {
  }

  ghost predicate HasGoneOn(s: State, s': State, t: nat) {
    && t < |s.threads| && t < |s'.threads| && s.threads[t].stage.Walking? && s'.threads[t].stage.Walking?
    && s.threads[t].stage.i <= s'.threads[t].stage.i
  }

  lemma {:induction false} StaysBehind(ss: seq<State>, k: nat, n: nat, t: nat, x: nat)
    requires k <= n < |ss| && t < |ss[k].threads| && ss[k].threads[t].stage.Walking? && ss[k].threads[t].stage.i > x
    requires forall r: nat :: k <= r < n ==> HasGoneOn(ss[r], ss[r + 1], t)
    ensures t < |ss[n].threads| && ss[n].threads[t].stage.Walking? && ss[n].threads[t].stage.i > x
  {
    if n > k {
      StaysBehind(ss, k, n - 1, t, x);
      assert HasGoneOn(ss[n - 1], ss[n - 1 + 1], t);
    }
  }

  lemma OnlyOnward(env: Env, s: State, step: Step, t: nat)
    requires Enabled(env, s, step) && t < |s.threads| && t < |Exec(env, s, step).threads|
    requires SameSnapshots(s.threads[t].stage, Exec(env, s, step).threads[t].stage)
    ensures HasGoneOn(s, Exec(env, s, step), t)
  {
    if step.Advance? {
      AdvanceFrame(env, s, step.t, step.ch);
    } else {
      OtherStepsFrame(env, s, step);
    }
  }

  lemma SameAcross(ss: seq<State>, k: nat, n: nat, t: nat, r: nat)
    requires k <= r < n < |ss| && SameFlush(ss, k, n, t)
    ensures t < |ss[r].threads| && t < |ss[r + 1].threads| && SameSnapshots(ss[r].threads[t].stage, ss[r + 1].threads[t].stage)
  {
    assert SameSnapshots(ss[r].threads[t].stage, ss[n].threads[t].stage);
    assert SameSnapshots(ss[r + 1].threads[t].stage, ss[n].threads[t].stage);
  }

  lemma RunOnward(env: Env, steps: seq<Step>, ss: seq<State>, k: nat, n: nat, t: nat, r: nat)
    requires IsRun(env, steps, ss) && n <= |steps| && SameFlush(ss, k, n, t) && k <= r < n
    ensures HasGoneOn(ss[r], ss[r + 1], t)
  {
    SameAcross(ss, k, n, t, r);
    OnlyOnward(env, ss[r], steps[r], t);
  }

  lemma RunPassesExpired(env: Env, steps: seq<Step>, ss: seq<State>, k: nat, n: nat, t: nat, x: nat)
    requires IsRun(env, steps, ss) && n <= |steps| && TestedAt(steps, ss, k, n, t, x)
    ensures SameFlush(ss, k + 1, n, t) && t < |ss[k + 1].threads| && ss[k + 1].threads[t].stage.Walking?
    ensures ss[k].threads[t].stage.q[x].Expired(ss[k].now) ==> ss[k + 1].threads[t].stage.i > x
  {
    if ss[k].threads[t].stage.q[x].Expired(ss[k].now) {
      ExpiredIsPassed(env, ss[k], t, steps[k].ch, x);
    }
  }

  /** Nothing is written that had outlived its lifetime when the flush came to it. */
  lemma WrittenWasInTime(env: Env, steps: seq<Step>, ss: seq<State>, n: nat, t: nat) returns (k: nat)
    requires IsRun(env, steps, ss) && n <= |steps| && Writing(ss[n], t)
    ensures TestedAt(steps, ss, k, n, t, ss[n].threads[t].stage.i)
    ensures var w := ss[n].threads[t].stage; ss[k].now <= w.q[w.i].date + w.q[w.i].expire
  {
    var x := ss[n].threads[t].stage.i;
    k := WasTested(env, steps, ss, n, t, x);
    RunPassesExpired(env, steps, ss, k, n, t, x);
    if ss[k].threads[t].stage.q[x].Expired(ss[k].now) {
      forall r: nat | k + 1 <= r < n ensures HasGoneOn(ss[r], ss[r + 1], t) {
        RunOnward(env, steps, ss, k + 1, n, t, r);
      }
      StaysBehind(ss, k + 1, n, t, x);
    }
  }

  // ------------------------------------------------------- DELETE, sweep and ACK

  /** Carried out now, this job takes the message out of the queue of the key, or leads to a job
      that does. */
  ghost predicate TakesOut(job: Job, key: Key, m: Message, now: int) {
    match job
    case Discard(k, id, _) => k == key && id == m.id
    case Clear(k) => k == key
    case Inspect(k) => k == key && m.date + m.expire < now
    case Scan(k, q) => k == key && m in q && m.date + m.expire < now
    case _ => false
  }

  ghost predicate BeingTakenOut(s: State, key: Key, m: Message) {
    exists t, n :: 0 <= t < |s.threads| && 0 <= n < |s.threads[t].todo| && TakesOut(s.threads[t].todo[n], key, m, s.now)
  }

  /** Gone, about to go, or added once more. */
  ghost predicate Condemned(s: State, base: nat, key: Key, m: Message) {
    m !in QueueAt(s.store, key) || AddedSince(s, base, key, m) || BeingTakenOut(s, key, m)
  }

  lemma StaysOut(env: Env, s: State, step: Step, key: Key, m: Message)
    requires Sound(env, s) && Enabled(env, s, step) && m !in QueueAt(s.store, key)
    ensures var s' := Exec(env, s, step);
            m in QueueAt(s'.store, key) ==> |s'.added| == |s.added| + 1 && s'.added[|s.added|] == Entry(key, m)
  {
    if !step.Advance? {
      OtherStepsFrame(env, s, step);
    } else {
      AdvanceFrame(env, s, step.t, step.ch);
      if s.threads[step.t].stage.Idle? {
        TakeKeepsOut(env, s, step.t, step.ch, key, m);
      }
    }
  }

  lemma TakeKeepsOut(env: Env, s: State, t: nat, ch: Choice, key: Key, m: Message)
    requires Sound(env, s) && CanAdvance(env, s, t, ch) && s.threads[t].stage.Idle? && m !in QueueAt(s.store, key)
    ensures var s' := Take(env, s, t, ch);
            m in QueueAt(s'.store, key) ==> |s'.added| == |s.added| + 1 && s'.added[|s.added|] == Entry(key, m)
  {
    match s.threads[t].todo[0]
    case Publish(k, p) =>
      AddTouchesOneKey(s.store, k, p, key);
      assert DistinctIds(QueueAt(s.store, key));
      UpsertKeepsIdsDistinct(QueueAt(s.store, key), p);
    case Discard(k, id, _) =>
      DeleteTouchesOneKey(s.store, k, id, key);
      assert DistinctIds(QueueAt(s.store, key));
      WithoutKeepsIdsDistinct(QueueAt(s.store, key), id);
    case _ =>
  }

  /** The job itself. */
  lemma JobTakesOut(env: Env, s: State, t: nat, ch: Choice, key: Key, m: Message)
    requires Sound(env, s) && CanAdvance(env, s, t, ch) && s.threads[t].stage.Idle?
    requires TakesOut(s.threads[t].todo[0], key, m, s.now)
    ensures var s' := Take(env, s, t, ch); m !in QueueAt(s'.store, key) || BeingTakenOut(s', key, m)
  {
    var s' := Take(env, s, t, ch);
    match s.threads[t].todo[0]
    case Discard(_, id, _) =>
      assert DistinctIds(QueueAt(s.store, key));
      WithoutKeepsIdsDistinct(QueueAt(s.store, key), id);
    case Clear(_) =>
    case Inspect(_) =>
      assert m in QueueAt(s'.store, key) ==> TakesOut(s'.threads[t].todo[0], key, m, s'.now);
    case Scan(_, q) =>
      assert m == q[0] || m in q[1..];
      var n := if q[0].Expired(s.now) && m != q[0] then 1 else 0;
      assert TakesOut(s'.threads[t].todo[n], key, m, s'.now);
  }

  lemma StepCondemns(env: Env, s: State, step: Step, base: nat, key: Key, m: Message)
    requires Sound(env, s) && Enabled(env, s, step) && base <= |s.added| && Condemned(s, base, key, m)
    ensures Condemned(Exec(env, s, step), base, key, m)
  {
    var s' := Exec(env, s, step);
    if AddedSince(s, base, key, m) {
      AddedGrows(env, s, step, base, key, m);
    } else if m !in QueueAt(s.store, key) {
      StaysOut(env, s, step, key, m);
    } else {
      var t, n :| 0 <= t < |s.threads| && 0 <= n < |s.threads[t].todo| && TakesOut(s.threads[t].todo[n], key, m, s.now);
      StepGrows(env, s, step);
      if step.Advance? && step.t == t && n == 0 && s.threads[t].stage.Idle? {
        JobTakesOut(env, s, t, step.ch, key, m);
      } else {
        var n' := JobStays(env, s, step, t, n);
        assert TakesOut(s'.threads[t].todo[n'], key, m, s'.now);
      }
    }
  }

  /** A DELETE of one message, of a key or of everything, a sweep of the key when the message has
      outlived its lifetime, or an ACK of the id while it is in flight for the key. */
  ghost predicate AsksToRemove(s: State, step: Step, key: Key, m: Message) {
    || step == DeleteOne(key, m.id)
    || step == DeleteKey(key)
    || step.DeleteAll?
    || (step.Sweep? && key in step.keys && m.date + m.expire < s.now)
    || (step.Ack? && step.id == m.id && step.c < |s.conns|
        && m.id in s.conns[step.c].link.inflight && s.conns[step.c].link.inflight[m.id] == key)
  }

  lemma RequestCondemns(env: Env, s: State, step: Step, key: Key, m: Message)
    requires Enabled(env, s, step) && AsksToRemove(s, step, key, m)
    ensures Condemned(Exec(env, s, step), |s.added|, key, m)
  {
    var s', t := Exec(env, s, step), |s.threads|;
    if m in QueueAt(s.store, key) {
      var n: nat := 0;
      if step.DeleteAll? || step.Sweep? {
        n :| n < |step.keys| && step.keys[n] == key;
      }
      assert TakesOut(s'.threads[t].todo[n], key, m, s'.now);
    }
  }

  lemma RunCondemns(env: Env, steps: seq<Step>, ss: seq<State>, n: nat, base: nat, key: Key, m: Message)
    requires IsRun(env, steps, ss) && n < |steps| && base <= |ss[n].added| && Condemned(ss[n], base, key, m)
    ensures base <= |ss[n + 1].added| && Condemned(ss[n + 1], base, key, m)
  {
    RunAdds(env, steps, ss, n);
    RunStaysSound(env, steps, ss, n);
    StepCondemns(env, ss[n], steps[n], base, key, m);
  }

  lemma QuietIsDone(s: State, base: nat, key: Key, m: Message)
    requires Quiet(s) && Condemned(s, base, key, m)
    ensures m in QueueAt(s.store, key) ==> AddedSince(s, base, key, m)
  {
  }

  /** Whatever a request asks to remove is gone, unless it was added once more, as soon as no
      task is left; until then some task is still to remove it. */
  lemma {:induction false} RequestsRemove(env: Env, steps: seq<Step>, ss: seq<State>, k: nat, n: nat, key: Key, m: Message)
    requires IsRun(env, steps, ss) && k < n <= |steps| && AsksToRemove(ss[k], steps[k], key, m)
    ensures |ss[k].added| <= |ss[n].added| && Condemned(ss[n], |ss[k].added|, key, m)
    ensures Quiet(ss[n]) && m in QueueAt(ss[n].store, key) ==> AddedSince(ss[n], |ss[k].added|, key, m)
  {
    if n == k + 1 {
      RunAdds(env, steps, ss, k);
      RequestCondemns(env, ss[k], steps[k], key, m);
    } else {
      RequestsRemove(env, steps, ss, k, n - 1, key, m);
      RunCondemns(env, steps, ss, n - 1, |ss[k].added|, key, m);
    }
    if Quiet(ss[n]) {
      QuietIsDone(ss[n], |ss[k].added|, key, m);
    }
  }

  // -------------------------------------------------------------- connections

  /** The keys of the connections, in the order they came. */
  function Connected(steps: seq<Step>): seq<seq<Key>> {
    if steps == [] then []
    else
      var before := Connected(steps[..|steps| - 1]);
      if steps[|steps| - 1].Connect? then before + [steps[|steps| - 1].keys] else before
  }

  /** The step closes the connection: its own goroutines give up, or a flush after a failed write. */
  ghost predicate Closes(s: State, step: Step, c: nat) {
    || step == Protocol.Close(c)
    || (step.Advance? && step.t < |s.threads| && s.threads[step.t].stage.Walking? && s.threads[step.t].stage.at == Hang
        && var w := s.threads[step.t].stage; w.j < |w.cs| && w.cs[w.j] == c)
  }

  /** What a step can do to a connection that is there. */
  ghost predicate OneStep(s: State, step: Step, s': State, c: nat) {
    && c < |s.conns| && c < |s'.conns| && s'.conns[c].keys == s.conns[c].keys
    && (s'.conns[c].registered <==> s.conns[c].registered && step != Unregister(c))
    && (s'.conns[c].link.closed <==> s.conns[c].link.closed || Closes(s, step, c))
    && (s.conns[c].link.closed ==> s'.conns[c].tally.marks == s.conns[c].tally.marks)
  }

  lemma StepOnConn(env: Env, s: State, step: Step, c: nat)
    requires Enabled(env, s, step) && c < |s.conns|
    ensures OneStep(s, step, Exec(env, s, step), c)
  {
    StepKeepsConns(env, s, step);
    if step.Advance? {
      AdvanceFrame(env, s, step.t, step.ch);
      if s.threads[step.t].stage.Walking? {
        WalkOnConn(env, s, step.t, step.ch, c);
      }
    }
  }

  lemma WalkOnConn(env: Env, s: State, t: nat, ch: Choice, c: nat)
    requires CanAdvance(env, s, t, ch) && s.threads[t].stage.Walking? && c < |s.conns|
    ensures var conn, conn' := s.conns[c], Walk(s, t, ch).conns[c];
            && (conn'.link.closed <==> conn.link.closed || Closes(s, Advance(t, ch), c))
            && (conn.link.closed ==> conn'.tally.marks == conn.tally.marks)
  {
  }

  lemma StepCountsConns(env: Env, s: State, step: Step)
    requires Enabled(env, s, step)
    ensures var s' := Exec(env, s, step);
            if step.Connect? then s'.conns == s.conns + [Conn(step.keys, true, OPEN, NOTHING)] else |s'.conns| == |s.conns|
  {
    if step.Advance? {
      AdvanceFrame(env, s, step.t, step.ch);
    }
  }

  /** Registered until it is unregistered, and open until it is closed. */
  ghost predicate OwnHistory(steps: seq<Step>, ss: seq<State>, n: nat, c: nat)
    requires n <= |steps| < |ss| && c < |ss[n].conns|
  {
    && (ss[n].conns[c].registered <==> forall k :: 0 <= k < n ==> steps[k] != Unregister(c))
    && (ss[n].conns[c].link.closed <==> exists k :: 0 <= k < n && Closes(ss[k], steps[k], c))
  }

  lemma HistoryStep(steps: seq<Step>, ss: seq<State>, n: nat, c: nat)
    requires n < |steps| < |ss| && c < |ss[n].conns| && OwnHistory(steps, ss, n, c) && OneStep(ss[n], steps[n], ss[n + 1], c)
    ensures OwnHistory(steps, ss, n + 1, c)
  {
  }

  lemma HistoryStarts(env: Env, steps: seq<Step>, ss: seq<State>, n: nat, c: nat)
    requires IsRun(env, steps, ss) && n < |steps| && |ss[n].conns| <= c < |ss[n + 1].conns|
    ensures OwnHistory(steps, ss, n + 1, c) && steps[n].Connect? && ss[n + 1].conns[c].keys == steps[n].keys
  {
    NotYet(env, steps, ss, n, c);
    StepCountsConns(env, ss[n], steps[n]);
  }

  lemma {:induction false} ConnectionsCame(env: Env, steps: seq<Step>, ss: seq<State>, n: nat)
    requires IsRun(env, steps, ss) && n <= |steps|
    ensures |ss[n].conns| == |Connected(steps[..n])|
    ensures forall c :: 0 <= c < |ss[n].conns| ==> ss[n].conns[c].keys == Connected(steps[..n])[c]
  {
    if n > 0 {
      ConnectionsCame(env, steps, ss, n - 1);
      assert steps[..n][..n - 1] == steps[..n - 1];
      StepCountsConns(env, ss[n - 1], steps[n - 1]);
      StepKeepsConns(env, ss[n - 1], steps[n - 1]);
    }
  }

  /** A connection is registered until it is unregistered, and open until it is closed, by its own
      goroutines or by a flush whose write failed. */
  lemma {:induction false} ConnectionIsItsHistory(env: Env, steps: seq<Step>, ss: seq<State>, n: nat, c: nat)
    requires IsRun(env, steps, ss) && n <= |steps| && c < |ss[n].conns|
    ensures ss[n].conns[c].registered <==> forall k :: 0 <= k < n ==> steps[k] != Unregister(c)
    ensures ss[n].conns[c].link.closed <==> exists k :: 0 <= k < n && Closes(ss[k], steps[k], c)
  {
    if c < |ss[n - 1].conns| {
      ConnectionIsItsHistory(env, steps, ss, n - 1, c);
      StepOnConn(env, ss[n - 1], steps[n - 1], c);
      HistoryStep(steps, ss, n - 1, c);
    } else {
      HistoryStarts(env, steps, ss, n - 1, c);
    }
    assert OwnHistory(steps, ss, n, c);
  }

  /** Nothing happens to a connection before it is there. */
  lemma {:induction false} NotYet(env: Env, steps: seq<Step>, ss: seq<State>, n: nat, c: nat)
    requires IsRun(env, steps, ss) && n < |steps| && c >= |ss[n].conns|
    ensures forall k :: 0 <= k <= n ==> steps[k] != Unregister(c) && !Closes(ss[k], steps[k], c)
  {
    RunStaysSound(env, steps, ss, n);
    if steps[n].Advance? {
      assert ThreadSound(env, ss[n], ss[n].threads[steps[n].t]);
    }
    if n > 0 {
      StepCountsConns(env, ss[n - 1], steps[n - 1]);
      NotYet(env, steps, ss, n - 1, c);
    }
  }

  /** Once closed, a connection stays closed and nothing more is marked, let alone written. */
  lemma {:induction false} ClosedIsFinal(env: Env, steps: seq<Step>, ss: seq<State>, k: nat, n: nat, c: nat)
    requires IsRun(env, steps, ss) && k <= n <= |steps| && c < |ss[k].conns| && ss[k].conns[c].link.closed
    ensures c < |ss[n].conns| && ss[n].conns[c].link.closed && ss[n].conns[c].tally.marks == ss[k].conns[c].tally.marks
  {
    if n > k {
      ClosedIsFinal(env, steps, ss, k, n - 1, c);
      StepKeepsConns(env, ss[n - 1], steps[n - 1]);
      StepOnConn(env, ss[n - 1], steps[n - 1], c);
    }
  }

  // ------------------------------------------------------------------- clock

  function LastTick(start: int, steps: seq<Step>): int {
    if steps == [] then start
    else if steps[|steps| - 1].Tick? then steps[|steps| - 1].now
    else LastTick(start, steps[..|steps| - 1])
  }

  lemma StepOnClock(env: Env, s: State, step: Step)
    requires Enabled(env, s, step)
    ensures Exec(env, s, step).now == (if step.Tick? then step.now else s.now) >= s.now
  {
    if step.Advance? {
      AdvanceFrame(env, s, step.t, step.ch);
    }
  }

  /** Only the clock moves the clock, and it never runs backwards. */
  lemma {:induction false} ClockIsTicks(env: Env, steps: seq<Step>, ss: seq<State>, n: nat)
    requires IsRun(env, steps, ss) && n <= |steps|
    ensures ss[n].now == LastTick(ss[0].now, steps[..n]) && ss[0].now <= ss[n].now
  {
    if n > 0 {
      ClockIsTicks(env, steps, ss, n - 1);
      StepOnClock(env, ss[n - 1], steps[n - 1]);
      assert steps[..n][..n - 1] == steps[..n - 1];
    }
  }
}
