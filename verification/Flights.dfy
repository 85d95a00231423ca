/** In-flight accounting: marks, writes, ACKs, failures and clears of a message id on one
    connection, under any interleaving. */
module Flights {
  import opened Messages
  import opened Links
  import opened Protocol
  import opened Soundness
  import opened Wakeups

  /** The goroutine is at this point of handling message id `id` on connection `c`. */
  predicate IsAt(th: Thread, at: Point, c: nat, id: Uuid) {
    && th.stage.Walking? && th.stage.at == at
    && th.stage.i < |th.stage.q| && th.stage.j < |th.stage.cs|
    && th.stage.cs[th.stage.j] == c && th.stage.q[th.stage.i].id == id
  }

  function Count(ts: seq<Thread>, at: Point, c: nat, id: Uuid): nat {
    if ts == [] then 0
    else Count(ts[..|ts| - 1], at, c, id) + (if IsAt(ts[|ts| - 1], at, c, id) then 1 else 0)
  }

  lemma {:induction false} CountUpdate(ts: seq<Thread>, t: nat, th: Thread, at: Point, c: nat, id: Uuid)
    requires t < |ts|
    ensures Count(ts[t := th], at, c, id) + (if IsAt(ts[t], at, c, id) then 1 else 0)
         == Count(ts, at, c, id) + (if IsAt(th, at, c, id) then 1 else 0)
  {
    var n := |ts| - 1;
    if t < n {
      CountUpdate(ts[..n], t, th, at, c, id);
      assert ts[t := th][..n] == ts[..n][t := th];
    } else {
      assert ts[t := th][..n] == ts[..n];
    }
  }

  lemma {:induction false} CountZero(ts: seq<Thread>, at: Point, c: nat, id: Uuid)
    requires forall t :: 0 <= t < |ts| ==> !IsAt(ts[t], at, c, id)
    ensures Count(ts, at, c, id) == 0
  {
    if ts != [] {
      CountZero(ts[..|ts| - 1], at, c, id);
    }
  }

  /** The books of one connection and one id. */
  ghost predicate Balanced(s: State, c: nat, id: Uuid)
    requires c < |s.conns|
  {
    var l, y := s.conns[c].link, s.conns[c].tally;
    // every mark was taken back by an ACK or a clear, or is the one in flight now
    && y.marks[id] == y.acks[id] + y.clears[id] + (if id in l.inflight then 1 else 0)
    // every mark is followed by one write
    && y.marks[id] == y.writes[id] + y.failures[id] + Count(s.threads, Write, c, id)
    // every clear belongs to a failed write
    && y.clears[id] + Count(s.threads, Clean, c, id) <= y.failures[id]
    // after a failed write the connection is closed, or about to be
    && (!l.closed ==> y.failures[id] == Count(s.threads, Clean, c, id) + Count(s.threads, Hang, c, id))
  }

  ghost predicate AllBalanced(s: State) {
    forall c: nat, id: Uuid :: c < |s.conns| ==> Balanced(s, c, id)
  }

  lemma SameCounts(s: State, s': State, t: nat, th: Thread, c: nat, id: Uuid)
    requires t < |s.threads| && s'.threads == s.threads[t := th]
    requires forall at :: at in {Write, Clean, Hang} ==> IsAt(s.threads[t], at, c, id) == IsAt(th, at, c, id)
    ensures forall at :: at in {Write, Clean, Hang} ==> Count(s'.threads, at, c, id) == Count(s.threads, at, c, id)
  {
    forall at | at in {Write, Clean, Hang} ensures Count(s'.threads, at, c, id) == Count(s.threads, at, c, id) {
      CountUpdate(s.threads, t, th, at, c, id);
    }
  }

  /** How the turn at the pair at hand moves the goroutine between the three points. */
  lemma TurnCounts(env: Env, s: State, t: nat, ch: Choice, id: Uuid)
    requires Sound(env, s) && CanAdvance(env, s, t, ch)
    requires s.threads[t].stage.Walking? && !Passing(s.threads[t].stage)
    requires id == s.threads[t].stage.q[s.threads[t].stage.i].id
    ensures var w, ts, ts' := s.threads[t].stage, s.threads, Walk(s, t, ch).threads;
            var c := w.cs[w.j];
            && Count(ts', Write, c, id) + (if w.at == Write then 1 else 0)
               == Count(ts, Write, c, id) + (if w.at == Offer && CanMark(s.conns[c].link, id) then 1 else 0)
            && Count(ts', Clean, c, id) + (if w.at == Clean then 1 else 0)
               == Count(ts, Clean, c, id) + (if w.at == Write && !ch.ok then 1 else 0)
            && Count(ts', Hang, c, id) + (if w.at == Hang then 1 else 0)
               == Count(ts, Hang, c, id) + (if w.at == Clean then 1 else 0)
  {
    var s', w := Walk(s, t, ch), s.threads[t].stage;
    var c := w.cs[w.j];
    assert s'.threads == s.threads[t := s'.threads[t]];
    CountUpdate(s.threads, t, s'.threads[t], Write, c, id);
    CountUpdate(s.threads, t, s'.threads[t], Clean, c, id);
    CountUpdate(s.threads, t, s'.threads[t], Hang, c, id);
  }

  lemma TurnBalanced(env: Env, s: State, t: nat, ch: Choice, id: Uuid)
    requires Sound(env, s) && CanAdvance(env, s, t, ch)
    requires s.threads[t].stage.Walking? && !Passing(s.threads[t].stage)
    requires id == s.threads[t].stage.q[s.threads[t].stage.i].id
    requires Balanced(s, s.threads[t].stage.cs[s.threads[t].stage.j], id)
    ensures Balanced(Walk(s, t, ch), s.threads[t].stage.cs[s.threads[t].stage.j], id)
  {
    TurnCounts(env, s, t, ch, id);
  }

  /** A step does not touch this pair, except that its connection may get closed. */
  ghost predicate Undisturbed(s: State, s': State, c: nat, id: Uuid)
    requires c < |s.conns| && c < |s'.conns|
  {
    var l, y, l', y' := s.conns[c].link, s.conns[c].tally, s'.conns[c].link, s'.conns[c].tally;
    && (id in l.inflight <==> id in l'.inflight) && (l.closed ==> l'.closed)
    && y'.marks[id] == y.marks[id] && y'.acks[id] == y.acks[id] && y'.clears[id] == y.clears[id]
    && y'.writes[id] == y.writes[id] && y'.failures[id] == y.failures[id]
  }

  /** The turn of another pair. */
  ghost predicate Elsewhere(w: Stage, c: nat, id: Uuid)
    requires w.Walking?
  {
    Passing(w) || (w.j < |w.cs| && w.i < |w.q| && (w.cs[w.j] != c || w.q[w.i].id != id))
  }

  lemma WalkElsewhere(env: Env, s: State, t: nat, ch: Choice, c: nat, id: Uuid)
    requires CanAdvance(env, s, t, ch) && s.threads[t].stage.Walking? && c < |s.conns|
    requires Elsewhere(s.threads[t].stage, c, id)
    ensures Undisturbed(s, Walk(s, t, ch), c, id)
  {
    var w := s.threads[t].stage;
    if !Passing(w) && w.cs[w.j] != c {
      assert Walk(s, t, ch).conns[c] == s.conns[c];
    }
  }

  lemma NotAtElsewhere(env: Env, s: State, t: nat, ch: Choice, c: nat, id: Uuid)
    requires CanAdvance(env, s, t, ch) && s.threads[t].stage.Walking? && Elsewhere(s.threads[t].stage, c, id)
    ensures forall at :: at in {Write, Clean, Hang} ==> IsAt(s.threads[t], at, c, id) == IsAt(Walk(s, t, ch).threads[t], at, c, id)
  {
  }

  lemma WalkBalanced(env: Env, s: State, t: nat, ch: Choice, c: nat, id: Uuid)
    requires Sound(env, s) && CanAdvance(env, s, t, ch) && s.threads[t].stage.Walking?
    requires c < |s.conns| && Balanced(s, c, id)
    ensures Balanced(Walk(s, t, ch), c, id)
  {
    var s', w := Walk(s, t, ch), s.threads[t].stage;
    if !Passing(w) && w.cs[w.j] == c && w.q[w.i].id == id {
      TurnBalanced(env, s, t, ch, id);
    } else {
      WalkElsewhere(env, s, t, ch, c, id);
      NotAtElsewhere(env, s, t, ch, c, id);
      assert s'.threads == s.threads[t := s'.threads[t]];
      SameCounts(s, s', t, s'.threads[t], c, id);
      Rebalanced(s, s', c, id);
    }
  }

  lemma AdvanceBalanced(env: Env, s: State, t: nat, ch: Choice, c: nat, id: Uuid)
    requires Sound(env, s) && CanAdvance(env, s, t, ch)
    requires c < |s.conns| && Balanced(s, c, id)
    ensures |Moved(env, s, t, ch).conns| == |s.conns| && Balanced(Moved(env, s, t, ch), c, id)
  {
    var s' := Moved(env, s, t, ch);
    AdvanceFrame(env, s, t, ch);
    if s.threads[t].stage.Walking? {
      WalkBalanced(env, s, t, ch, c, id);
    } else {
      assert s'.conns == s.conns;
      assert s'.threads == s.threads[t := s'.threads[t]];
      SameCounts(s, s', t, s'.threads[t], c, id);
    }
  }

  lemma CountUnused(env: Env, s: State, at: Point, c: nat, id: Uuid)
    requires Sound(env, s) && c >= |s.conns|
    ensures Count(s.threads, at, c, id) == 0
  {
    forall t | 0 <= t < |s.threads| ensures !IsAt(s.threads[t], at, c, id) {
      assert ThreadSound(env, s, s.threads[t]);
    }
    CountZero(s.threads, at, c, id);
  }

  lemma SpawnCounts(ts: seq<Thread>, th: Thread, at: Point, c: nat, id: Uuid)
    requires th.stage.Idle?
    ensures Count(ts + [th], at, c, id) == Count(ts, at, c, id)
  {
    assert (ts + [th])[..|ts|] == ts;
  }

  lemma OtherStepCounts(env: Env, s: State, step: Step, at: Point, c: nat, id: Uuid)
    requires Enabled(env, s, step) && !step.Advance?
    ensures Count(Exec(env, s, step).threads, at, c, id) == Count(s.threads, at, c, id)
  {
    OtherStepsFrame(env, s, step);
    if th: Thread :| th.stage.Idle? && Exec(env, s, step).threads == s.threads + [th] {
      SpawnCounts(s.threads, th, at, c, id);
    }
  }

  lemma AckBalanced(env: Env, s: State, c: nat, id: Uuid)
    requires c < |s.conns| && Balanced(s, c, id)
    ensures Balanced(Acked(s, c, id), c, id)
  {
    forall at ensures Count(Acked(s, c, id).threads, at, c, id) == Count(s.threads, at, c, id) {
      OtherStepCounts(env, s, Ack(c, id), at, c, id);
    }
  }

  lemma OtherStepBalanced(env: Env, s: State, step: Step, c: nat, id: Uuid)
    requires Sound(env, s) && Enabled(env, s, step) && !step.Advance?
    requires AllBalanced(s) && c < |Exec(env, s, step).conns|
    ensures Balanced(Exec(env, s, step), c, id)
  {
    forall at ensures Count(Exec(env, s, step).threads, at, c, id) == Count(s.threads, at, c, id) {
      OtherStepCounts(env, s, step, at, c, id);
    }
    if c >= |s.conns| {
      CountUnused(env, s, Write, c, id);
      CountUnused(env, s, Clean, c, id);
      CountUnused(env, s, Hang, c, id);
    } else {
      assert Balanced(s, c, id);
      if step == Ack(c, id) {
        AckBalanced(env, s, c, id);
      } else {
        OtherStepTally(env, s, step, c, id);
        Rebalanced(s, Exec(env, s, step), c, id);
      }
    }
  }

  /** The books of a pair stay in balance if only its connection may get closed. */
  lemma Rebalanced(s: State, s': State, c: nat, id: Uuid)
    requires c < |s.conns| && c < |s'.conns| && Balanced(s, c, id) && Undisturbed(s, s', c, id)
    requires forall at :: at in {Write, Clean, Hang} ==> Count(s'.threads, at, c, id) == Count(s.threads, at, c, id)
    ensures Balanced(s', c, id)
  {
    assert Write in {Write, Clean, Hang} && Clean in {Write, Clean, Hang} && Hang in {Write, Clean, Hang};
  }

  lemma OtherStepTally(env: Env, s: State, step: Step, c: nat, id: Uuid)
    requires Enabled(env, s, step) && !step.Advance? && step != Ack(c, id) && c < |s.conns|
    ensures c < |Exec(env, s, step).conns| && Undisturbed(s, Exec(env, s, step), c, id)
  {
  }

  /** The books balance for every connection and id in every reachable state. */
  lemma {:induction false} BooksBalance(env: Env, steps: seq<Step>, ss: seq<State>, n: nat)
    requires IsRun(env, steps, ss) && n <= |steps|
    ensures AllBalanced(ss[n])
  {
    if n > 0 {
      var s, step := ss[n - 1], steps[n - 1];
      BooksBalance(env, steps, ss, n - 1);
      RunStaysSound(env, steps, ss, n - 1);
      forall c: nat, id: Uuid | c < |ss[n].conns| ensures Balanced(ss[n], c, id) {
        if step.Advance? {
          AdvanceFrame(env, s, step.t, step.ch);
          AdvanceBalanced(env, s, step.t, step.ch, c, id);
        } else {
          OtherStepBalanced(env, s, step, c, id);
        }
      }
    }
  }

  /** At-least-once, with a ceiling: an id is written to one connection at most once more than
      the connection acknowledged it, and marked at most once more than it was acknowledged or
      failed to be written. */
  lemma WritesAreBounded(env: Env, steps: seq<Step>, ss: seq<State>, n: nat, c: nat, id: Uuid)
    requires IsRun(env, steps, ss) && n <= |steps| && c < |ss[n].conns|
    ensures var y := ss[n].conns[c].tally;
            && y.writes[id] <= 1 + y.acks[id]
            && y.marks[id] <= 1 + y.acks[id] + y.failures[id]
  {
    BooksBalance(env, steps, ss, n);
    assert Balanced(ss[n], c, id);
  }

  /** When exactly a connection accepts a mark of an id, in terms of its history: in every
      reachable state, if it is open and each mark so far has been taken back by an ACK or a
      clear. So nothing is repeated while a write is unacknowledged. */
  lemma AcceptsMarkExactlyWhen(env: Env, steps: seq<Step>, ss: seq<State>, n: nat, c: nat, id: Uuid)
    requires IsRun(env, steps, ss) && n <= |steps| && c < |ss[n].conns|
    ensures var conn := ss[n].conns[c];
            CanMark(conn.link, id) <==> !conn.link.closed && conn.tally.marks[id] == conn.tally.acks[id] + conn.tally.clears[id]
  {
    BooksBalance(env, steps, ss, n);
    assert Balanced(ss[n], c, id);
  }

  // --------------------------------------------------- everything gets delivered

  ghost predicate OffersAreMarks(s: State) {
    forall o :: o in s.offered ==> o.0 < |s.conns| && s.conns[o.0].tally.marks[o.2] > 0
  }

  lemma AdvanceKeepsOffers(env: Env, s: State, t: nat, ch: Choice)
    requires Sound(env, s) && CanAdvance(env, s, t, ch) && AllBalanced(s)
    requires OffersAreMarks(s)
    ensures OffersAreMarks(Moved(env, s, t, ch))
  {
    AdvanceFrame(env, s, t, ch);
    if s.threads[t].stage.Walking? {
      WalkKeepsOffers(env, s, t, ch);
    }
  }

  lemma WalkKeepsOffers(env: Env, s: State, t: nat, ch: Choice)
    requires CanAdvance(env, s, t, ch) && s.threads[t].stage.Walking? && AllBalanced(s) && OffersAreMarks(s)
    ensures OffersAreMarks(Walk(s, t, ch))
  {
    var s', w := Walk(s, t, ch), s.threads[t].stage;
    if !Passing(w) {
      assert Balanced(s, w.cs[w.j], w.q[w.i].id);
      assert forall c :: 0 <= c < |s.conns| ==> s.conns[c].tally.marks <= s'.conns[c].tally.marks;
    }
  }

  lemma {:induction false} OffersWereMarks(env: Env, steps: seq<Step>, ss: seq<State>, n: nat)
    requires IsRun(env, steps, ss) && n <= |steps|
    ensures OffersAreMarks(ss[n])
  {
    if n > 0 {
      var s, step := ss[n - 1], steps[n - 1];
      OffersWereMarks(env, steps, ss, n - 1);
      RunStaysSound(env, steps, ss, n - 1);
      BooksBalance(env, steps, ss, n - 1);
      if step.Advance? {
        AdvanceKeepsOffers(env, s, step.t, step.ch);
      } else {
        OtherStepsFrame(env, s, step);
        StepKeepsConns(env, s, step);
      }
    }
  }

  lemma QuietCounts(s: State, c: nat, id: Uuid)
    requires Quiet(s)
    ensures forall at :: Count(s.threads, at, c, id) == 0
  {
    forall at ensures Count(s.threads, at, c, id) == 0 {
      CountZero(s.threads, at, c, id);
    }
  }

  /** The delivery guarantee: once no task is left, every unexpired queued message has been
      written, without an error, to every open connection that covers its key. */
  lemma QuietMeansDelivered(env: Env, steps: seq<Step>, ss: seq<State>, n: nat, key: Key, m: Message, c: nat)
    requires IsRun(env, steps, ss) && n <= |steps| && Quiet(ss[n])
    requires Owed(env, ss[n], key, m, c)
    ensures Offered(ss[n], key, m, c)
    ensures ss[n].conns[c].tally.writes[m.id] > 0 && ss[n].conns[c].tally.failures[m.id] == 0
  {
    NoLostWakeup(env, steps, ss, n);
    BooksBalance(env, steps, ss, n);
    OffersWereMarks(env, steps, ss, n);
    assert Served(env, ss[n], key, m, c);
    assert Balanced(ss[n], c, m.id);
    QuietCounts(ss[n], c, m.id);
  }
}
