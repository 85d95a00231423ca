/** First deliveries are first-in first-out per connection and key. */
module Fifo {
  import opened Messages
  import opened Queues
  import opened Protocol
  import opened Soundness
  import opened Wakeups
  import opened Flights
  import opened Ledger

  // -------------------------------------------------------- where messages come from

  /** Every message of the queue snapshot was published under the key. */
  ghost predicate Sourced(s: State, th: Thread) {
    th.stage.Walking? ==> forall x :: 0 <= x < |th.stage.q| ==> Entry(th.stage.key, th.stage.q[x]) in s.added
  }

  ghost predicate AllSourced(s: State) {
    forall t :: 0 <= t < |s.threads| ==> Sourced(s, s.threads[t])
  }

  lemma WalkSourced(env: Env, s: State, t: nat, ch: Choice)
    requires CanAdvance(env, s, t, ch) && s.threads[t].stage.Walking? && Sourced(s, s.threads[t])
    ensures Sourced(Walk(s, t, ch), Walk(s, t, ch).threads[t])
  {
    AdvanceFrame(env, s, t, ch);
  }

  lemma EntrySourced(env: Env, s: State, t: nat, ch: Choice)
    requires Accounted(env, s) && CanAdvance(env, s, t, ch) && !s.threads[t].stage.Walking?
    ensures Sourced(Moved(env, s, t, ch), Moved(env, s, t, ch).threads[t])
  {
  }

  lemma StepKeepsSourced(env: Env, s: State, step: Step)
    requires Accounted(env, s) && AllSourced(s) && Enabled(env, s, step)
    ensures AllSourced(Exec(env, s, step))
  {
    var s' := Exec(env, s, step);
    StepGrows(env, s, step);
    if step.Advance? {
      AdvanceFrame(env, s, step.t, step.ch);
      if s.threads[step.t].stage.Walking? {
        WalkSourced(env, s, step.t, step.ch);
      } else {
        EntrySourced(env, s, step.t, step.ch);
      }
    } else {
      OtherStepsFrame(env, s, step);
    }
    forall t | 0 <= t < |s'.threads| ensures Sourced(s', s'.threads[t]) {
      if t < |s.threads| && !(step.Advance? && step.t == t) {
        assert s'.threads[t] == s.threads[t];
        assert Sourced(s, s.threads[t]);
      }
    }
  }

  lemma {:induction false} SnapshotsAreSourced(env: Env, steps: seq<Step>, ss: seq<State>, n: nat)
    requires IsRun(env, steps, ss) && n <= |steps|
    ensures AllSourced(ss[n])
  {
    if n > 0 {
      SnapshotsAreSourced(env, steps, ss, n - 1);
      EverythingAccounted(env, steps, ss, n - 1);
      StepKeepsSourced(env, ss[n - 1], steps[n - 1]);
    }
  }

  // ------------------------------------------------------------- one flush in time

  ghost predicate SameSnapshots(w: Stage, w': Stage) {
    w.Walking? && w'.Walking? && w.key == w'.key && w.cs == w'.cs && w.q == w'.q
  }

  /** From step `k` to step `n` goroutine `t` is in one and the same flush. */
  ghost predicate SameFlush(ss: seq<State>, k: nat, n: nat, t: nat) {
    && k <= n < |ss|
    && forall r :: k <= r <= n ==>
         t < |ss[r].threads| && t < |ss[n].threads| && SameSnapshots(ss[r].threads[t].stage, ss[n].threads[t].stage)
  }

  /** Step `k` is where the flush that goroutine `t` is in at step `n` tested its message `x`. */
  ghost predicate TestedAt(steps: seq<Step>, ss: seq<State>, k: nat, n: nat, t: nat, x: nat) {
    && k < n < |ss| && k < |steps| && SameFlush(ss, k, n, t)
    && steps[k].Advance? && steps[k].t == t
    && ss[k].threads[t].stage.at == Test && ss[k].threads[t].stage.i == x < |ss[k].threads[t].stage.q|
  }

  /** It was still alive at that test. */
  ghost predicate TestedAlive(steps: seq<Step>, ss: seq<State>, k: nat, n: nat, t: nat, x: nat) {
    TestedAt(steps, ss, k, n, t, x) && !ss[k].threads[t].stage.q[x].Expired(ss[k].now)
  }

  /** The test of message `x` lies behind. */
  predicate Past(w: Stage, x: nat) {
    w.Walking? && (x < w.i || (x == w.i && w.at != Test))
  }

  lemma NothingPastYet(env: Env, s: State, t: nat, ch: Choice, x: nat)
    requires CanAdvance(env, s, t, ch) && !s.threads[t].stage.Walking?
    ensures !Past(Moved(env, s, t, ch).threads[t].stage, x)
  {
  }

  lemma WalkPastBefore(env: Env, s: State, t: nat, ch: Choice, x: nat)
    requires Sound(env, s) && CanAdvance(env, s, t, ch) && s.threads[t].stage.Walking?
    requires Past(Moved(env, s, t, ch).threads[t].stage, x)
    ensures SameSnapshots(s.threads[t].stage, Moved(env, s, t, ch).threads[t].stage)
    ensures var w := s.threads[t].stage;
            Past(w, x) || (w.at == Test && w.i == x < |w.q|)
  {
    assert ThreadSound(env, s, s.threads[t]);
  }

  /** The same flush was past the test before, or this step is the test. */
  ghost predicate PastSince(s: State, step: Step, s': State, t: nat, x: nat) {
    && t < |s.threads| && t < |s'.threads| && SameSnapshots(s.threads[t].stage, s'.threads[t].stage)
    && var w := s.threads[t].stage;
       Past(w, x) || (step.Advance? && step.t == t && w.at == Test && w.i == x < |w.q|)
  }

  lemma PastBefore(env: Env, s: State, step: Step, t: nat, x: nat)
    requires Sound(env, s) && Enabled(env, s, step)
    requires t < |Exec(env, s, step).threads| && Past(Exec(env, s, step).threads[t].stage, x)
    ensures PastSince(s, step, Exec(env, s, step), t, x)
  {
    if step.Advance? {
      AdvanceFrame(env, s, step.t, step.ch);
      if step.t == t {
        if !s.threads[t].stage.Walking? {
          NothingPastYet(env, s, t, step.ch, x);
        } else {
          WalkPastBefore(env, s, t, step.ch, x);
        }
      }
    } else {
      OtherStepsFrame(env, s, step);
    }
  }

  lemma RunPastBefore(env: Env, steps: seq<Step>, ss: seq<State>, n: nat, t: nat, x: nat)
    requires IsRun(env, steps, ss) && n < |steps| && t < |ss[n + 1].threads| && Past(ss[n + 1].threads[t].stage, x)
    ensures PastSince(ss[n], steps[n], ss[n + 1], t, x)
  {
    RunStaysSound(env, steps, ss, n);
    PastBefore(env, ss[n], steps[n], t, x);
  }

  lemma SameFlushLater(ss: seq<State>, k: nat, n: nat, t: nat)
    requires 0 < n < |ss| && SameFlush(ss, k, n - 1, t)
    requires t < |ss[n].threads| && SameSnapshots(ss[n - 1].threads[t].stage, ss[n].threads[t].stage)
    ensures SameFlush(ss, k, n, t)
  {
  }

  lemma {:induction false} TestMoment(steps: seq<Step>, ss: seq<State>, n: nat, t: nat, x: nat) returns (k: nat)
    requires n <= |steps| < |ss| && t < |ss[n].threads| && Past(ss[n].threads[t].stage, x)
    requires |ss[0].threads| == 0
    requires forall r :: 0 <= r < n && t < |ss[r + 1].threads| && Past(ss[r + 1].threads[t].stage, x) ==>
               PastSince(ss[r], steps[r], ss[r + 1], t, x)
    ensures TestedAt(steps, ss, k, n, t, x)
  {
    assert Past(ss[n - 1 + 1].threads[t].stage, x);
    assert PastSince(ss[n - 1], steps[n - 1], ss[n - 1 + 1], t, x);
    if Past(ss[n - 1].threads[t].stage, x) {
      k := TestMoment(steps, ss, n - 1, t, x);
    } else {
      k := n - 1;
      assert SameFlush(ss, k, n - 1, t);
    }
    SameFlushLater(ss, k, n, t);
  }

  /** Every flush tests the messages of its snapshot in their order, before it offers them. */
  lemma WasTested(env: Env, steps: seq<Step>, ss: seq<State>, n: nat, t: nat, x: nat) returns (k: nat)
    requires IsRun(env, steps, ss) && n <= |steps|
    requires t < |ss[n].threads| && Past(ss[n].threads[t].stage, x)
    ensures TestedAt(steps, ss, k, n, t, x)
  {
    forall r: nat | r < n && t < |ss[r + 1].threads| && Past(ss[r + 1].threads[t].stage, x)
      ensures PastSince(ss[r], steps[r], ss[r + 1], t, x)
    {
      RunPastBefore(env, steps, ss, r, t, x);
    }
    k := TestMoment(steps, ss, n, t, x);
  }

  // -------------------------------------------------- what was tested alive is offered

  /** The connection is closed, or the id has been marked on it. */
  ghost predicate Offered(s: State, c: nat, id: Uuid) {
    c < |s.conns| && (s.conns[c].link.closed || s.conns[c].tally.marks[id] > 0)
  }

  lemma AdvanceKeepsOffered(env: Env, s: State, t: nat, ch: Choice, c: nat, id: Uuid)
    requires CanAdvance(env, s, t, ch) && Offered(s, c, id)
    ensures Offered(Moved(env, s, t, ch), c, id)
  {
    AdvanceFrame(env, s, t, ch);
  }

  lemma StepKeepsOffered(env: Env, s: State, step: Step, c: nat, id: Uuid)
    requires Enabled(env, s, step) && Offered(s, c, id)
    ensures Offered(Exec(env, s, step), c, id)
  {
    if step.Advance? {
      AdvanceKeepsOffered(env, s, step.t, step.ch, c, id);
    } else {
      StepKeepsConns(env, s, step);
    }
  }

  /** A pair past its test is behind after a step only if it was before, or had its turn. */
  lemma TurnOffers(env: Env, s: State, t: nat, ch: Choice, x: nat, y: nat)
    requires Sound(env, s) && AllBalanced(s) && CanAdvance(env, s, t, ch) && s.threads[t].stage.Walking?
    requires var w, w' := s.threads[t].stage, Walk(s, t, ch).threads[t].stage;
             && w'.Walking? && x < |w.q| && y < |w.cs| && Past(w, x) && Ahead(w, x, y) && !Ahead(w', x, y)
    ensures var w := s.threads[t].stage;
            Offered(Walk(s, t, ch), w.cs[y], w.q[x].id)
  {
    var w := s.threads[t].stage;
    assert ThreadSound(env, s, s.threads[t]);
    assert x == w.i && y == w.j && w.at == Offer;
    assert Balanced(s, w.cs[y], w.q[x].id);
  }

  /** Right after a test that found the message alive all its pairs are ahead. */
  lemma AliveIsAhead(env: Env, s: State, t: nat, ch: Choice, x: nat)
    requires CanAdvance(env, s, t, ch) && s.threads[t].stage.Walking? && s.threads[t].stage.at == Test
    requires s.threads[t].stage.i == x < |s.threads[t].stage.q| && !s.threads[t].stage.q[x].Expired(s.now)
    ensures var w' := Walk(s, t, ch).threads[t].stage;
            Past(w', x) && forall y :: 0 <= y ==> Ahead(w', x, y)
  {
  }

  /** Every pair a flush has come to, of a message it has found alive, is done. */
  lemma {:induction false} TestedIsOffered(env: Env, steps: seq<Step>, ss: seq<State>, k: nat, n: nat, t: nat, x: nat, y: nat)
    requires IsRun(env, steps, ss) && n <= |steps| && TestedAlive(steps, ss, k, n, t, x)
    ensures Past(ss[n].threads[t].stage, x)
    ensures var w := ss[n].threads[t].stage;
            y < |w.cs| && !Ahead(w, x, y) ==> Offered(ss[n], w.cs[y], w.q[x].id)
  {
    var s, step := ss[n - 1], steps[n - 1];
    if k == n - 1 {
      AliveIsAhead(env, s, t, step.ch, x);
    } else {
      assert TestedAlive(steps, ss, k, n - 1, t, x);
      TestedIsOffered(env, steps, ss, k, n - 1, t, x, y);
      RunStaysSound(env, steps, ss, n - 1);
      BooksBalance(env, steps, ss, n - 1);
      PairStep(env, s, step, t, x, y);
    }
  }

  lemma PairStep(env: Env, s: State, step: Step, t: nat, x: nat, y: nat)
    requires Sound(env, s) && AllBalanced(s) && Enabled(env, s, step)
    requires t < |s.threads| && t < |Exec(env, s, step).threads|
    requires SameSnapshots(s.threads[t].stage, Exec(env, s, step).threads[t].stage)
    requires var w := s.threads[t].stage;
             Past(w, x) && x < |w.q| && (y < |w.cs| && !Ahead(w, x, y) ==> Offered(s, w.cs[y], w.q[x].id))
    ensures var w, w', s' := s.threads[t].stage, Exec(env, s, step).threads[t].stage, Exec(env, s, step);
            Past(w', x) && (y < |w.cs| && !Ahead(w', x, y) ==> Offered(s', w.cs[y], w.q[x].id))
  {
    var w := s.threads[t].stage;
    if y < |w.cs| && !Ahead(w, x, y) {
      StepKeepsOffered(env, s, step, w.cs[y], w.q[x].id);
    }
    if step.Advance? && step.t == t {
      StaysPast(env, s, t, step.ch, x);
      if y < |w.cs| && Ahead(w, x, y) && !Ahead(Exec(env, s, step).threads[t].stage, x, y) {
        TurnOffers(env, s, t, step.ch, x, y);
      }
    } else if step.Advance? {
      AdvanceFrame(env, s, step.t, step.ch);
    } else {
      OtherStepsFrame(env, s, step);
    }
  }

  lemma StaysPast(env: Env, s: State, t: nat, ch: Choice, x: nat)
    requires CanAdvance(env, s, t, ch) && Past(s.threads[t].stage, x) && Walk(s, t, ch).threads[t].stage.Walking?
    ensures Past(Walk(s, t, ch).threads[t].stage, x)
  {
  }

  // --------------------------------------------------- earlier in the snapshot

  /** The id was published under this key only. */
  ghost predicate Sole(s: State, key: Key, id: Uuid) {
    forall e :: e in s.added && e.m.id == id ==> e.key == key
  }

  /** Nobody else is handling a single-target id of the key this flush has locked, once the flush
      has gone past it. */
  lemma AloneOnKey(env: Env, s: State, t: nat, x: nat, at: Point)
    requires Sound(env, s) && AllSourced(s) && t < |s.threads| && s.threads[t].stage.Walking?
    requires x < s.threads[t].stage.i < |s.threads[t].stage.q| && s.threads[t].stage.j < |s.threads[t].stage.cs|
    requires Sole(s, s.threads[t].stage.key, s.threads[t].stage.q[x].id) && at in {Write, Clean, Hang}
    ensures Count(s.threads, at, s.threads[t].stage.cs[s.threads[t].stage.j], s.threads[t].stage.q[x].id) == 0
  {
    var w := s.threads[t].stage;
    var c, id := w.cs[w.j], w.q[x].id;
    assert ThreadSound(env, s, s.threads[t]);
    forall u | 0 <= u < |s.threads| ensures !IsAt(s.threads[u], at, c, id) {
      var v := s.threads[u].stage;
      if u == t {
        assert w.q[w.i].id != id;
      } else if v.Walking? && v.i < |v.q| {
        assert v.key != w.key;
        assert Sourced(s, s.threads[u]);
        assert Entry(v.key, v.q[v.i]) in s.added;
      }
    }
    CountZero(s.threads, at, c, id);
  }

  /** At the moment of a mark the connection is open, so what was marked before was written. */
  lemma MarkedIsWritten(env: Env, s: State, t: nat, x: nat)
    requires Sound(env, s) && AllSourced(s) && AllBalanced(s)
    requires t < |s.threads| && s.threads[t].stage.Walking?
    requires var w := s.threads[t].stage;
             && x < w.i < |w.q| && w.j < |w.cs| && Offered(s, w.cs[w.j], w.q[x].id) && !s.conns[w.cs[w.j]].link.closed
             && Sole(s, w.key, w.q[x].id)
    ensures var w := s.threads[t].stage;
            s.conns[w.cs[w.j]].tally.writes[w.q[x].id] > 0
  {
    var w := s.threads[t].stage;
    assert Balanced(s, w.cs[w.j], w.q[x].id);
    AloneOnKey(env, s, t, x, Write);
    AloneOnKey(env, s, t, x, Clean);
    AloneOnKey(env, s, t, x, Hang);
  }

  /** The flush is at the write of the pair at hand. */
  ghost predicate Writing(s: State, t: nat) {
    && t < |s.threads| && s.threads[t].stage.Walking? && s.threads[t].stage.at == Write
    && var w := s.threads[t].stage;
       w.i < |w.q| && w.j < |w.cs| && w.cs[w.j] < |s.conns|
  }

  lemma WalkWritingBefore(env: Env, s: State, t: nat, ch: Choice)
    requires Sound(env, s) && CanAdvance(env, s, t, ch) && Writing(Moved(env, s, t, ch), t)
    ensures SameSnapshots(s.threads[t].stage, Moved(env, s, t, ch).threads[t].stage)
    ensures var w, w' := s.threads[t].stage, Moved(env, s, t, ch).threads[t].stage;
            && w.at == Offer && w'.i == w.i && w'.j == w.j && w.cs[w.j] < |s.conns| && !s.conns[w.cs[w.j]].link.closed
  {
    assert ThreadSound(env, s, s.threads[t]);
  }

  /** Before a step that ends at a write: at the same write, or about to mark. */
  ghost predicate Approaches(s: State, s': State, t: nat)
    requires Writing(s', t)
  {
    && t < |s.threads| && SameSnapshots(s.threads[t].stage, s'.threads[t].stage)
    && var w, w' := s.threads[t].stage, s'.threads[t].stage;
       && w'.i == w.i && w'.j == w.j && w.cs[w.j] < |s.conns|
       && (w == w' || (w.at == Offer && !s.conns[w.cs[w.j]].link.closed))
  }

  lemma WritingBefore(env: Env, s: State, step: Step, t: nat)
    requires Sound(env, s) && Enabled(env, s, step) && Writing(Exec(env, s, step), t)
    ensures Approaches(s, Exec(env, s, step), t)
  {
    if step.Advance? {
      AdvanceFrame(env, s, step.t, step.ch);
      if step.t == t {
        WalkWritingBefore(env, s, t, step.ch);
      } else {
        assert ThreadSound(env, s, s.threads[t]);
      }
    } else {
      OtherStepsFrame(env, s, step);
      assert ThreadSound(env, s, s.threads[t]);
    }
  }

  lemma RunWritingBefore(env: Env, steps: seq<Step>, ss: seq<State>, n: nat, t: nat)
    requires IsRun(env, steps, ss) && n < |steps| && Writing(ss[n + 1], t)
    ensures Approaches(ss[n], ss[n + 1], t)
  {
    RunStaysSound(env, steps, ss, n);
    WritingBefore(env, ss[n], steps[n], t);
  }

  lemma RunGrowsOnce(env: Env, steps: seq<Step>, ss: seq<State>, n: nat)
    requires IsRun(env, steps, ss) && n < |steps|
    ensures Grown(ss[n], ss[n + 1])
  {
    StepGrows(env, ss[n], steps[n]);
  }

  lemma {:induction false} Grows(ss: seq<State>, m: nat, n: nat)
    requires m <= n < |ss| && forall r :: 0 <= r < |ss| - 1 ==> Grown(ss[r], ss[r + 1])
    ensures Grown(ss[m], ss[n])
  {
    if m < n {
      Grows(ss, m, n - 1);
      assert Grown(ss[n - 1], ss[n - 1 + 1]);
      GrownThen(ss[m], ss[n - 1], ss[n]);
    }
  }

  lemma RunGrows(env: Env, steps: seq<Step>, ss: seq<State>, m: nat, n: nat)
    requires IsRun(env, steps, ss) && m <= n <= |steps|
    ensures Grown(ss[m], ss[n])
  {
    forall r | 0 <= r < |ss| - 1 ensures Grown(ss[r], ss[r + 1]) {
      RunGrowsOnce(env, steps, ss, r);
    }
    Grows(ss, m, n);
  }

  lemma GrownThen(s: State, mid: State, s': State)
    requires Grown(s, mid) && Grown(mid, s')
    ensures Grown(s, s')
  {
  }

  /** Where the flush, now at a write, marked the id. */
  ghost predicate MarkedIn(ss: seq<State>, m: nat, n: nat, t: nat)
    requires n < |ss| && Writing(ss[n], t)
  {
    && m < n && t < |ss[m].threads| && SameSnapshots(ss[m].threads[t].stage, ss[n].threads[t].stage)
    && (forall r :: m < r <= n ==> t < |ss[r].threads| && ss[r].threads[t].stage == ss[n].threads[t].stage)
    && var s, w, w' := ss[m], ss[m].threads[t].stage, ss[n].threads[t].stage;
       && w.i == w'.i && w.j == w'.j && w.at == Offer
       && w.cs[w.j] < |s.conns| && !s.conns[w.cs[w.j]].link.closed
  }

  lemma {:induction false} MarkMoment(ss: seq<State>, n: nat, t: nat) returns (m: nat)
    requires n < |ss| && Writing(ss[n], t)
    requires |ss[0].threads| == 0
    requires forall r :: 0 <= r < n && Writing(ss[r + 1], t) ==> Approaches(ss[r], ss[r + 1], t)
    ensures MarkedIn(ss, m, n, t)
  {
    assert Writing(ss[n - 1 + 1], t);
    assert Approaches(ss[n - 1], ss[n - 1 + 1], t);
    if ss[n - 1].threads[t].stage == ss[n].threads[t].stage {
      m := MarkMoment(ss, n - 1, t);
    } else {
      m := n - 1;
    }
  }

  /** What was tested in this flush was tested before the mark. */
  lemma TestedBeforeMark(steps: seq<Step>, ss: seq<State>, k: nat, m: nat, n: nat, t: nat, x: nat)
    requires n < |ss| && Writing(ss[n], t) && MarkedIn(ss, m, n, t) && TestedAlive(steps, ss, k, n, t, x)
    ensures k < m && TestedAlive(steps, ss, k, m, t, x)
  {
    assert SameSnapshots(ss[k].threads[t].stage, ss[n].threads[t].stage);
  }

  /** The mark of the pair at hand: what was found alive before was written before. */
  lemma MarkInOrder(env: Env, steps: seq<Step>, ss: seq<State>, n: nat, t: nat, x: nat, k: nat)
    requires IsRun(env, steps, ss) && n <= |steps| && TestedAlive(steps, ss, k, n, t, x)
    requires var s, w := ss[n], ss[n].threads[t].stage;
             && x < w.i < |w.q| && w.at == Offer && w.j < |w.cs| && w.cs[w.j] < |s.conns| && !s.conns[w.cs[w.j]].link.closed
             && Sole(s, w.key, w.q[x].id)
    ensures var w := ss[n].threads[t].stage;
            ss[n].conns[w.cs[w.j]].tally.writes[w.q[x].id] > 0
  {
    TestedIsOffered(env, steps, ss, k, n, t, x, ss[n].threads[t].stage.j);
    SnapshotsAreSourced(env, steps, ss, n);
    RunStaysSound(env, steps, ss, n);
    BooksBalance(env, steps, ss, n);
    MarkedIsWritten(env, ss[n], t, x);
  }

  lemma SoleBefore(s: State, s': State, key: Key, id: Uuid)
    requires Grown(s, s') && Sole(s', key, id)
    ensures Sole(s, key, id)
  {
  }

  /** When a flush writes a message, everything ahead of it in its snapshot that it found alive
      and that was published under this key only has been written to the connection before. */
  lemma SnapshotOrder(env: Env, steps: seq<Step>, ss: seq<State>, n: nat, t: nat, x: nat, k: nat)
    requires IsRun(env, steps, ss) && n <= |steps| && Writing(ss[n], t)
    requires x < ss[n].threads[t].stage.i && TestedAlive(steps, ss, k, n, t, x)
    requires Sole(ss[n], ss[n].threads[t].stage.key, ss[n].threads[t].stage.q[x].id)
    ensures var w := ss[n].threads[t].stage;
            ss[n].conns[w.cs[w.j]].tally.writes[w.q[x].id] > 0
  {
    var w := ss[n].threads[t].stage;
    forall r: nat | r < n && Writing(ss[r + 1], t) ensures Approaches(ss[r], ss[r + 1], t) {
      RunWritingBefore(env, steps, ss, r, t);
    }
    var m := MarkMoment(ss, n, t);
    TestedBeforeMark(steps, ss, k, m, n, t, x);
    RunGrows(env, steps, ss, m, n);
    SoleBefore(ss[m], ss[n], w.key, w.q[x].id);
    MarkInOrder(env, steps, ss, m, t, x, k);
  }

  // --------------------------------------------- queues follow publication order

  /** The queue lists its messages in the order they were added. */
  ghost predicate InOrder(added: seq<Entry>, key: Key, q: Queue) {
    forall x, y, a, b ::
      (0 <= x < y < |q| && 0 <= a < |added| && 0 <= b < |added|
       && added[a] == Entry(key, q[x]) && added[b] == Entry(key, q[y]))
      ==> a < b
  }

  /** Nothing that is still queued and was added before some message of the snapshot is
      missing from the snapshot. */
  ghost predicate NoGap(added: seq<Entry>, key: Key, now: Queue, snap: Queue) {
    forall a, b ::
      (0 <= a < b < |added| && added[a].key == key && added[b].key == key
       && added[a].m in now && added[b].m in snap)
      ==> added[a].m in snap
  }

  ghost predicate SnapChronological(s: State, key: Key, snap: Queue) {
    InOrder(s.added, key, snap) && NoGap(s.added, key, QueueAt(s.store, key), snap)
  }

  ghost predicate Chronological(s: State) {
    && (forall key :: InOrder(s.added, key, QueueAt(s.store, key)))
    && (forall t :: 0 <= t < |s.threads| && s.threads[t].stage.Walking? ==>
          SnapChronological(s, s.threads[t].stage.key, s.threads[t].stage.q))
  }

  lemma PublishIsLast(env: Env, s: State, key: Key, m: Message)
    requires Sound(env, s) && Accounted(env, s)
    requires Fresh(Added(s, key, m))
    ensures Upsert(QueueAt(s.store, key), m) == QueueAt(s.store, key) + [m]
    ensures Entry(key, m) !in s.added
  {
    var s', q := Added(s, key, m), QueueAt(s.store, key);
    forall e | e in s.added && e.key == key ensures e.m.id != m.id {
      var a :| 0 <= a < |s.added| && s.added[a] == e;
      assert s'.added[a] == e && s'.added[|s.added|] == Entry(key, m);
    }
    forall x | 0 <= x < |q| ensures q[x].id != m.id {
      assert Entry(key, q[x]) in s.added;
    }
  }

  lemma AppendInOrder(added: seq<Entry>, key: Key, m: Message, k: Key, q: Queue)
    requires InOrder(added, k, q) && Entry(key, m) !in added
    requires forall x :: 0 <= x < |q| ==> Entry(k, q[x]) in added
    ensures InOrder(added + [Entry(key, m)], k, q)
    ensures k == key ==> InOrder(added + [Entry(key, m)], k, q + [m])
  {
    var n := |added|;
    assert forall x :: 0 <= x < |q| ==> Entry(k, q[x]) != Entry(key, m);
  }

  lemma CutInOrder(added: seq<Entry>, key: Key, q: Queue, id: Uuid)
    requires InOrder(added, key, q)
    ensures InOrder(added, key, Without(q, id))
  {
    var i, r := Find(q, id), Without(q, id);
    if i < |q| {
      forall x, y, a, b | 0 <= x < y < |r| && 0 <= a < |added| && 0 <= b < |added|
        && added[a] == Entry(key, r[x]) && added[b] == Entry(key, r[y])
        ensures a < b
      {
        var x', y' := if x < i then x else x + 1, if y < i then y else y + 1;
        assert r[x] == q[x'] && r[y] == q[y'];
      }
    }
  }

  lemma AppendNoGap(added: seq<Entry>, key: Key, m: Message, k: Key, now: Queue, now': Queue, snap: Queue)
    requires NoGap(added, k, now, snap) && Entry(key, m) !in added
    requires forall x :: 0 <= x < |snap| ==> Entry(k, snap[x]) in added
    requires now' == if k == key then now + [m] else now
    ensures NoGap(added + [Entry(key, m)], k, now', snap)
  {
    var added' := added + [Entry(key, m)];
    if k == key {
      forall x | 0 <= x < |snap| ensures snap[x] != m {
        assert Entry(k, snap[x]) in added;
      }
    }
    forall a, b | 0 <= a < b < |added'| && added'[a].key == k && added'[b].key == k
      && added'[a].m in now' && added'[b].m in snap
      ensures added'[a].m in snap
    {
      if b < |added| {
        assert added[a] == added'[a] && added[b] == added'[b];
        assert Entry(k, added[a].m) == added[a] && added[a] in added;
        assert added[a].m in now;
      }
    }
  }

  lemma PublishChronological(env: Env, s: State, key: Key, m: Message)
    requires Sound(env, s) && Accounted(env, s) && AllSourced(s) && Chronological(s)
    requires Fresh(Added(s, key, m))
    ensures Chronological(Added(s, key, m))
  {
    var s' := Added(s, key, m);
    PublishIsLast(env, s, key, m);
    forall k ensures InOrder(s'.added, k, QueueAt(s'.store, k)) {
      AddTouchesOneKey(s.store, key, m, k);
      assert forall x :: 0 <= x < |QueueAt(s.store, k)| ==> Entry(k, QueueAt(s.store, k)[x]) in s.added;
      AppendInOrder(s.added, key, m, k, QueueAt(s.store, k));
    }
    forall t | 0 <= t < |s.threads| && s.threads[t].stage.Walking?
      ensures SnapChronological(s', s.threads[t].stage.key, s.threads[t].stage.q)
    {
      var w := s.threads[t].stage;
      assert Sourced(s, s.threads[t]) && SnapChronological(s, w.key, w.q);
      AddTouchesOneKey(s.store, key, m, w.key);
      AppendInOrder(s.added, key, m, w.key, w.q);
      AppendNoGap(s.added, key, m, w.key, QueueAt(s.store, w.key), QueueAt(s'.store, w.key), w.q);
    }
  }

  ghost predicate Shrunk(q: Queue, q': Queue) {
    q' == q || q' == [] || exists id :: q' == Without(q, id)
  }

  lemma ShrunkInOrder(added: seq<Entry>, key: Key, q: Queue, q': Queue)
    requires InOrder(added, key, q) && Shrunk(q, q')
    ensures InOrder(added, key, q')
    ensures forall m :: m in q' ==> m in q
  {
    if q' != q && q' != [] {
      var id :| q' == Without(q, id);
      CutInOrder(added, key, q, id);
    }
  }

  /** The snapshot was there before, or is the queue of this moment. */
  ghost predicate SnapKept(s: State, s': State, t: nat)
    requires t < |s'.threads| && s'.threads[t].stage.Walking?
  {
    var w' := s'.threads[t].stage;
    || w'.q == QueueAt(s'.store, w'.key)
    || (t < |s.threads| && s.threads[t].stage.Walking? && s.threads[t].stage.key == w'.key && s.threads[t].stage.q == w'.q)
  }

  /** Deletions and flushes: no message is added. */
  lemma ShrinkChronological(s: State, s': State)
    requires Chronological(s) && s'.added == s.added
    requires forall k :: Shrunk(QueueAt(s.store, k), QueueAt(s'.store, k))
    requires forall t :: 0 <= t < |s'.threads| && s'.threads[t].stage.Walking? ==> SnapKept(s, s', t)
    ensures Chronological(s')
  {
    forall k ensures InOrder(s'.added, k, QueueAt(s'.store, k)) {
      ShrunkInOrder(s.added, k, QueueAt(s.store, k), QueueAt(s'.store, k));
    }
    forall t | 0 <= t < |s'.threads| && s'.threads[t].stage.Walking?
      ensures SnapChronological(s', s'.threads[t].stage.key, s'.threads[t].stage.q)
    {
      var w' := s'.threads[t].stage;
      assert SnapKept(s, s', t);
      ShrunkInOrder(s.added, w'.key, QueueAt(s.store, w'.key), QueueAt(s'.store, w'.key));
      if w'.q != QueueAt(s'.store, w'.key) {
        assert SnapChronological(s, w'.key, w'.q);
      }
    }
  }

  lemma TakeShrinks(env: Env, s: State, t: nat, ch: Choice, k: Key)
    requires CanAdvance(env, s, t, ch) && s.threads[t].stage.Idle? && !s.threads[t].todo[0].Publish?
    ensures Shrunk(QueueAt(s.store, k), QueueAt(Take(env, s, t, ch).store, k))
    ensures Take(env, s, t, ch).added == s.added
  {
  }

  lemma AdvanceChronological(env: Env, s: State, t: nat, ch: Choice)
    requires Sound(env, s) && Accounted(env, s) && AllSourced(s) && Chronological(s)
    requires CanAdvance(env, s, t, ch) && Fresh(Moved(env, s, t, ch))
    ensures Chronological(Moved(env, s, t, ch))
  {
    var s' := Moved(env, s, t, ch);
    AdvanceFrame(env, s, t, ch);
    if s.threads[t].stage.Idle? && s.threads[t].todo[0].Publish? {
      var job := s.threads[t].todo[0];
      PublishChronological(env, s, job.key, job.m);
      SameChronology(Added(s, job.key, job.m), s');
    } else {
      if s.threads[t].stage.Idle? {
        forall k ensures Shrunk(QueueAt(s.store, k), QueueAt(s'.store, k)) {
          TakeShrinks(env, s, t, ch, k);
        }
      }
      forall u | 0 <= u < |s'.threads| && s'.threads[u].stage.Walking? ensures SnapKept(s, s', u) {
        if u == t {
          OwnSnapKept(env, s, t, ch);
        }
      }
      ShrinkChronological(s, s');
    }
  }

  lemma OwnSnapKept(env: Env, s: State, t: nat, ch: Choice)
    requires CanAdvance(env, s, t, ch) && Moved(env, s, t, ch).threads[t].stage.Walking?
    ensures SnapKept(s, Moved(env, s, t, ch), t)
  {
  }

  lemma SameChronology(s: State, s': State)
    requires Chronological(s) && s'.added == s.added && s'.store == s.store
    requires forall t :: 0 <= t < |s'.threads| && s'.threads[t].stage.Walking? ==> t < |s.threads| && s'.threads[t].stage == s.threads[t].stage
    ensures Chronological(s')
  {
    forall t | 0 <= t < |s'.threads| && s'.threads[t].stage.Walking?
      ensures SnapChronological(s', s'.threads[t].stage.key, s'.threads[t].stage.q)
    {
      assert SnapChronological(s, s.threads[t].stage.key, s.threads[t].stage.q);
    }
  }

  lemma FreshBefore(env: Env, s: State, step: Step)
    requires Enabled(env, s, step) && Fresh(Exec(env, s, step))
    ensures Fresh(s)
  {
    var s' := Exec(env, s, step);
    if step.Advance? {
      assert s.added <= s'.added;
    } else {
      OtherStepsFrame(env, s, step);
    }
  }

  lemma {:induction false} RunIsChronological(env: Env, steps: seq<Step>, ss: seq<State>, n: nat)
    requires IsRun(env, steps, ss) && n <= |steps| && Fresh(ss[n])
    ensures Chronological(ss[n])
  {
    if n > 0 {
      var s, step := ss[n - 1], steps[n - 1];
      FreshBefore(env, s, step);
      RunIsChronological(env, steps, ss, n - 1);
      RunStaysSound(env, steps, ss, n - 1);
      EverythingAccounted(env, steps, ss, n - 1);
      SnapshotsAreSourced(env, steps, ss, n - 1);
      if step.Advance? {
        AdvanceChronological(env, s, step.t, step.ch);
      } else {
        OtherStepsFrame(env, s, step);
        ShrinkChronological(s, ss[n]);
      }
    }
  }

  // ------------------------------------------------------------- main result

  /** The flush has found the message expired at its own test of it. */
  ghost predicate FoundExpired(steps: seq<Step>, ss: seq<State>, n: nat, t: nat, m: Message) {
    exists k: nat, x: nat ::
      TestedAt(steps, ss, k, n, t, x) && ss[k].threads[t].stage.q[x] == m && m.Expired(ss[k].now)
  }

  /** No overtaking. Ids are fresh, `first` was added under the key before the message that a
      flush of the key is now writing to a connection, and `first` has no other target. Then
      `first` was already written to that connection, or this flush has found it expired, or it
      had left the queue when the flush took its snapshot and has not come back. */
  lemma NoOvertaking(env: Env, steps: seq<Step>, ss: seq<State>, n: nat, t: nat, a: nat, b: nat)
    requires IsRun(env, steps, ss) && n <= |steps| && Fresh(ss[n]) && Writing(ss[n], t)
    requires a < b < |ss[n].added|
    requires var w := ss[n].threads[t].stage;
             && ss[n].added[b] == Entry(w.key, w.q[w.i])
             && ss[n].added[a].key == w.key
             && Sole(ss[n], w.key, ss[n].added[a].m.id)
    ensures var s, w, first := ss[n], ss[n].threads[t].stage, ss[n].added[a].m;
            || s.conns[w.cs[w.j]].tally.writes[first.id] > 0
            || FoundExpired(steps, ss, n, t, first)
            || (first !in w.q && first !in QueueAt(s.store, w.key))
  {
    var s := ss[n];
    var w, first := s.threads[t].stage, s.added[a].m;
    RunIsChronological(env, steps, ss, n);
    assert SnapChronological(s, w.key, w.q);
    assert first in QueueAt(s.store, w.key) ==> s.added[a].m in w.q;
    if first in w.q {
      var x: nat :| x < |w.q| && w.q[x] == first;
      assert s.added[a] == Entry(w.key, w.q[x]);
      assert x < w.i;
      var k := WasTested(env, steps, ss, n, t, x);
      if !first.Expired(ss[k].now) {
        SnapshotOrder(env, steps, ss, n, t, x, k);
      }
    }
  }
}
