/** The mutexes of the server and the order in which its code paths take them
    (src/engine.go, src/client.go, src/memory_storage.go, src/history.go, src/ratelimit.go,
    src/metrics.go, src/proxy_authorizer.go). */
module Locks {

  /** The per-key send locks, the registry mutex, the mutex around the cached key count of the
      metrics, and the innermost mutexes. */
  datatype Lock =
    | Send(shard: nat)
    | Registry
    | KeyCount
    | Inflight(c: nat)
    | Writer(c: nat)
    | Storage
    | HistoryLock
    | LimiterLock
    | AuthCache

  function Rank(l: Lock): nat {
    match l
    case Send(_) => 0
    case Registry => 1
    case KeyCount => 1
    case _ => 2
  }

  datatype Action = Acquire(l: Lock) | Release(l: Lock)

  // -------------------------------------------------------------- code paths

  function Brief(l: Lock): seq<Action> {
    [Acquire(l), Release(l)]
  }

  datatype Outcome = Skipped | Written | Failed

  /** One connection's turn in a flush. */
  datatype Turn = Turn(c: nat, outcome: Outcome)

  function TurnPath(t: Turn): seq<Action> {
    match t.outcome
    case Skipped => Brief(Inflight(t.c))
    case Written => Brief(Inflight(t.c)) + Brief(Writer(t.c))
    case Failed => Brief(Inflight(t.c)) + Brief(Writer(t.c)) + Brief(Inflight(t.c)) + Brief(Inflight(t.c))
  }

  function TurnsPath(turns: seq<Turn>): seq<Action> {
    if turns == [] then [] else TurnPath(turns[0]) + TurnsPath(turns[1..])
  }

  function ClosesPath(cs: seq<nat>): seq<Action> {
    if cs == [] then [] else Brief(Inflight(cs[0])) + ClosesPath(cs[1..])
  }

  /** What a goroutine can be doing; a task is any sequence of these. */
  datatype Work =
    | FlushWork(shard: nat, turns: seq<Turn>)   // sendMessages, send lock held throughout
    | StorageWork                               // any storage call
    | RegistryWork                              // registering, reconcile snapshot, presence
    | HistoryWork
    | LimiterWork
    | AuthWork                                  // the authorizer's cache
    | GaugeWork(counts: bool)                   // the key gauge; counts anew unless its cache will do
    | InflightWork(c: nat)                      // handleAck, close
    | WriteWork(c: nat)                         // ping and pong
    | RemoveWork(c: nat)                        // removeClient: close, then unregister
    | StopWork(cs: seq<nat>)                    // Stop closes every client under the registry mutex

  function Path(w: Work): seq<Action> {
    match w
    case FlushWork(shard, turns) =>
      [Acquire(Send(shard))] + (Brief(Registry) + (Brief(Storage) + TurnsPath(turns))) + [Release(Send(shard))]
    case StorageWork => Brief(Storage)
    case RegistryWork => Brief(Registry)
    case HistoryWork => Brief(HistoryLock)
    case LimiterWork => Brief(LimiterLock)
    case AuthWork => Brief(AuthCache)
    case GaugeWork(counts) => [Acquire(KeyCount)] + (if counts then Brief(Storage) else []) + [Release(KeyCount)]
    case InflightWork(c) => Brief(Inflight(c))
    case WriteWork(c) => Brief(Writer(c))
    case RemoveWork(c) => Brief(Inflight(c)) + Brief(Registry)
    case StopWork(cs) => [Acquire(Registry)] + ClosesPath(cs) + [Release(Registry)]
  }

  function TaskPath(task: seq<Work>): seq<Action> {
    if task == [] then [] else Path(task[0]) + TaskPath(task[1..])
  }

  // --------------------------------------------------------------- discipline

  /** Locks are taken in strictly increasing rank and all given back in the end. */
  ghost predicate Disciplined(held: set<Lock>, todo: seq<Action>)
    decreases |todo|
  {
    if todo == [] then held == {}
    else match todo[0]
      case Acquire(l) => (forall h :: h in held ==> Rank(h) < Rank(l)) && Disciplined(held + {l}, todo[1..])
      case Release(l) => l in held && Disciplined(held - {l}, todo[1..])
  }

  ghost predicate Above(outer: set<Lock>, path: seq<Action>) {
    forall a, h :: a in path && h in outer ==> Rank(h) < Rank(a.l)
  }

  /** A disciplined path may run inside sections of lower rank. */
  lemma {:induction false} RunsInside(outer: set<Lock>, inner: set<Lock>, path: seq<Action>, rest: seq<Action>)
    requires Disciplined(inner, path) && Above(outer, path) && Disciplined(outer, rest) && outer !! inner
    ensures Disciplined(outer + inner, path + rest)
    decreases |path|
  {
    if path == [] {
      assert path + rest == rest;
      assert outer + inner == outer;
    } else {
      assert (path + rest)[1..] == path[1..] + rest;
      assert path[0] in path;
      match path[0]
      case Acquire(l) =>
        RunsInside(outer, inner + {l}, path[1..], rest);
        assert outer + (inner + {l}) == outer + inner + {l};
      case Release(l) =>
        RunsInside(outer, inner - {l}, path[1..], rest);
        assert outer + (inner - {l}) == outer + inner - {l};
    }
  }

  lemma BriefIsDisciplined(l: Lock)
    ensures Disciplined({}, Brief(l)) && forall a :: a in Brief(l) ==> a.l == l
  {
    assert Brief(l)[1..] == [Release(l)];
    assert [Release(l)][1..] == [];
    assert {} + {l} - {l} == {};
  }

  lemma Then(a: seq<Action>, b: seq<Action>)
    requires Disciplined({}, a) && Disciplined({}, b)
    ensures Disciplined({}, a + b)
  {
    RunsInside({}, {}, a, b);
    var none: set<Lock> := {};
    assert none + none == none;
  }

  /** A section of `l` around a disciplined path of higher rank. */
  lemma Section(l: Lock, path: seq<Action>)
    requires Disciplined({}, path) && forall a :: a in path ==> Rank(l) < Rank(a.l)
    ensures Disciplined({}, [Acquire(l)] + path + [Release(l)])
  {
    assert [Release(l)][1..] == [];
    assert {l} - {l} == {};
    assert Disciplined({l}, [Release(l)]);
    RunsInside({l}, {}, path, [Release(l)]);
    var all := [Acquire(l)] + path + [Release(l)];
    assert all[1..] == path + [Release(l)];
    assert {} + {l} == {l} + {};
  }

  lemma TurnIsDisciplined(t: Turn)
    ensures Disciplined({}, TurnPath(t)) && forall a :: a in TurnPath(t) ==> Rank(a.l) == 2
  {
    BriefIsDisciplined(Inflight(t.c));
    BriefIsDisciplined(Writer(t.c));
    Then(Brief(Inflight(t.c)), Brief(Writer(t.c)));
    Then(Brief(Inflight(t.c)) + Brief(Writer(t.c)), Brief(Inflight(t.c)));
    Then(Brief(Inflight(t.c)) + Brief(Writer(t.c)) + Brief(Inflight(t.c)), Brief(Inflight(t.c)));
  }

  lemma {:induction false} TurnsAreDisciplined(turns: seq<Turn>)
    ensures Disciplined({}, TurnsPath(turns)) && forall a :: a in TurnsPath(turns) ==> Rank(a.l) == 2
  {
    if turns != [] {
      TurnIsDisciplined(turns[0]);
      TurnsAreDisciplined(turns[1..]);
      Then(TurnPath(turns[0]), TurnsPath(turns[1..]));
    }
  }

  lemma {:induction false} ClosesAreDisciplined(cs: seq<nat>)
    ensures Disciplined({}, ClosesPath(cs)) && forall a :: a in ClosesPath(cs) ==> Rank(a.l) == 2
  {
    if cs != [] {
      BriefIsDisciplined(Inflight(cs[0]));
      ClosesAreDisciplined(cs[1..]);
      Then(Brief(Inflight(cs[0])), ClosesPath(cs[1..]));
    }
  }

  lemma FlushIsDisciplined(shard: nat, turns: seq<Turn>)
    ensures Disciplined({}, Path(FlushWork(shard, turns)))
  {
    BriefIsDisciplined(Registry);
    BriefIsDisciplined(Storage);
    TurnsAreDisciplined(turns);
    Then(Brief(Storage), TurnsPath(turns));
    Then(Brief(Registry), Brief(Storage) + TurnsPath(turns));
    Section(Send(shard), Brief(Registry) + (Brief(Storage) + TurnsPath(turns)));
  }

  lemma GaugeIsDisciplined(counts: bool)
    ensures Disciplined({}, Path(GaugeWork(counts)))
  {
    BriefIsDisciplined(Storage);
    Section(KeyCount, if counts then Brief(Storage) else []);
  }

  /** Every code path takes the send lock first, then the registry or key-count mutex, then one of
      the innermost mutexes, never two locks of the same rank, and gives all of them back. */
  lemma PathsAreDisciplined(w: Work)
    ensures Disciplined({}, Path(w)) && |Path(w)| >= 2
  {
    match w
    case FlushWork(shard, turns) => FlushIsDisciplined(shard, turns);
    case StorageWork => BriefIsDisciplined(Storage);
    case RegistryWork => BriefIsDisciplined(Registry);
    case HistoryWork => BriefIsDisciplined(HistoryLock);
    case LimiterWork => BriefIsDisciplined(LimiterLock);
    case AuthWork => BriefIsDisciplined(AuthCache);
    case InflightWork(c) => BriefIsDisciplined(Inflight(c));
    case WriteWork(c) => BriefIsDisciplined(Writer(c));
    case GaugeWork(counts) => GaugeIsDisciplined(counts);
    case RemoveWork(c) =>
      BriefIsDisciplined(Inflight(c));
      BriefIsDisciplined(Registry);
      Then(Brief(Inflight(c)), Brief(Registry));
    case StopWork(cs) =>
      ClosesAreDisciplined(cs);
      Section(Registry, ClosesPath(cs));
  }

  lemma {:induction false} TasksAreDisciplined(task: seq<Work>)
    ensures Disciplined({}, TaskPath(task))
  {
    if task != [] {
      PathsAreDisciplined(task[0]);
      TasksAreDisciplined(task[1..]);
      Then(Path(task[0]), TaskPath(task[1..]));
    }
  }

  // ---------------------------------------------------------- critical sections

  /** The mutex that guards what the work is about; removing a client is two sections. */
  function Guard(w: Work): Lock {
    match w
    case FlushWork(shard, _) => Send(shard)
    case StorageWork => Storage
    case RegistryWork => Registry
    case HistoryWork => HistoryLock
    case LimiterWork => LimiterLock
    case AuthWork => AuthCache
    case GaugeWork(_) => KeyCount
    case InflightWork(c) => Inflight(c)
    case WriteWork(c) => Writer(c)
    case RemoveWork(_) => Registry
    case StopWork(_) => Registry
  }

  /** The locks held after the first `n` actions. */
  function HeldAfter(path: seq<Action>, n: nat): set<Lock>
    requires n <= |path|
  {
    if n == 0 then {}
    else match path[n - 1]
      case Acquire(l) => HeldAfter(path, n - 1) + {l}
      case Release(l) => HeldAfter(path, n - 1) - {l}
  }

  lemma {:induction false} SectionHolds(l: Lock, inner: seq<Action>, n: nat)
    requires 0 < n <= |inner| + 1 && forall a :: a in inner ==> a.l != l
    ensures l in HeldAfter([Acquire(l)] + inner + [Release(l)], n)
  {
    var path := [Acquire(l)] + inner + [Release(l)];
    if n > 1 {
      SectionHolds(l, inner, n - 1);
      assert path[n - 1] == inner[n - 2] && inner[n - 2] in inner;
    }
  }

  lemma BriefHolds(l: Lock)
    ensures HeldAfter(Brief(l), 1) == {l}
  {
    assert HeldAfter(Brief(l), 0) == {};
  }

  lemma FlushHoldsSendLock(shard: nat, turns: seq<Turn>, n: nat)
    requires 0 < n < |Path(FlushWork(shard, turns))|
    ensures Send(shard) in HeldAfter(Path(FlushWork(shard, turns)), n)
  {
    var inner := Brief(Registry) + (Brief(Storage) + TurnsPath(turns));
    NoSendInside(turns);
    assert Path(FlushWork(shard, turns)) == [Acquire(Send(shard))] + inner + [Release(Send(shard))];
    SectionHolds(Send(shard), inner, n);
  }

  lemma NoSendInside(turns: seq<Turn>)
    ensures forall a :: a in Brief(Registry) + (Brief(Storage) + TurnsPath(turns)) ==> !a.l.Send?
  {
    TurnsAreDisciplined(turns);
  }

  /** Between its first and its last action a path holds its guard all the time: a flush its send
      lock over all its snapshots, marks and writes. */
  lemma PathHoldsGuard(w: Work, n: nat)
    requires 0 < n < |Path(w)|
    ensures w.RemoveWork? || Guard(w) in HeldAfter(Path(w), n)
  {
    match w
    case FlushWork(shard, turns) => FlushHoldsSendLock(shard, turns, n);
    case GaugeWork(counts) => SectionHolds(KeyCount, if counts then Brief(Storage) else [], n);
    case StopWork(cs) =>
      ClosesAreDisciplined(cs);
      SectionHolds(Registry, ClosesPath(cs), n);
    case _ => BriefHolds(Guard(w));
  }

  /** A flush reads the registry and the storage and goes to the in-flight map of every connection
      of its snapshot, and to its socket unless the mark was refused, each under its mutex. */
  lemma FlushTakesAll(shard: nat, turns: seq<Turn>, i: nat)
    requires i < |turns|
    ensures var path := Path(FlushWork(shard, turns));
            && Acquire(Registry) in path && Acquire(Storage) in path
            && Acquire(Inflight(turns[i].c)) in path
            && (turns[i].outcome != Skipped ==> Acquire(Writer(turns[i].c)) in path)
  {
    TurnTakes(turns, i);
    var path := Path(FlushWork(shard, turns));
    assert path[1] == Acquire(Registry) && path[3] == Acquire(Storage);
  }

  lemma {:induction false} TurnTakes(turns: seq<Turn>, i: nat)
    requires i < |turns|
    ensures Acquire(Inflight(turns[i].c)) in TurnsPath(turns)
    ensures turns[i].outcome != Skipped ==> Acquire(Writer(turns[i].c)) in TurnsPath(turns)
  {
    if i == 0 {
      var t, path := turns[0], TurnPath(turns[0]);
      assert path[0] == Acquire(Inflight(t.c));
      assert t.outcome != Skipped ==> path[2] == Acquire(Writer(t.c));
    } else {
      TurnTakes(turns[1..], i - 1);
    }
  }

  // --------------------------------------------------------------- the system

  datatype Goroutine = Goroutine(held: set<Lock>, todo: seq<Action>)

  ghost predicate Free(gs: seq<Goroutine>, l: Lock) {
    forall t :: 0 <= t < |gs| ==> l !in gs[t].held
  }

  ghost predicate CanStep(gs: seq<Goroutine>, t: nat) {
    t < |gs| && gs[t].todo != [] && (gs[t].todo[0].Acquire? ==> Free(gs, gs[t].todo[0].l))
  }

  function Stepped(gs: seq<Goroutine>, t: nat): seq<Goroutine>
    requires t < |gs| && gs[t].todo != []
  {
    var g := gs[t];
    gs[t := Goroutine(if g.todo[0].Acquire? then g.held + {g.todo[0].l} else g.held - {g.todo[0].l}, g.todo[1..])]
  }

  /** `gss` is a run that starts with these tasks. */
  ghost predicate IsRun(tasks: seq<seq<Work>>, ts: seq<nat>, gss: seq<seq<Goroutine>>) {
    && |gss| == |ts| + 1
    && |gss[0]| == |tasks| && (forall t :: 0 <= t < |tasks| ==> gss[0][t] == Goroutine({}, TaskPath(tasks[t])))
    && forall n :: 0 <= n < |ts| ==> CanStep(gss[n], ts[n]) && gss[n + 1] == Stepped(gss[n], ts[n])
  }

  ghost predicate AllDisciplined(gs: seq<Goroutine>) {
    forall t :: 0 <= t < |gs| ==> Disciplined(gs[t].held, gs[t].todo)
  }

  lemma {:induction false} RunsStayDisciplined(tasks: seq<seq<Work>>, ts: seq<nat>, gss: seq<seq<Goroutine>>, n: nat)
    requires IsRun(tasks, ts, gss) && n <= |ts|
    ensures AllDisciplined(gss[n])
  {
    if n == 0 {
      forall t | 0 <= t < |tasks| ensures Disciplined(gss[0][t].held, gss[0][t].todo) {
        TasksAreDisciplined(tasks[t]);
      }
    } else {
      RunsStayDisciplined(tasks, ts, gss, n - 1);
    }
  }

  lemma StepExcludes(gs: seq<Goroutine>, x: nat, t: nat, u: nat)
    requires CanStep(gs, x) && t < u < |gs| && gs[t].held !! gs[u].held
    ensures Stepped(gs, x)[t].held !! Stepped(gs, x)[u].held
  {
  }

  /** Mutual exclusion: in every reachable state no two goroutines hold the same lock. */
  lemma {:induction false} NoLockIsShared(tasks: seq<seq<Work>>, ts: seq<nat>, gss: seq<seq<Goroutine>>, n: nat, t: nat, u: nat)
    requires IsRun(tasks, ts, gss) && n <= |ts| && t < u < |gss[n]|
    ensures gss[n][t].held !! gss[n][u].held
  {
    if n > 0 {
      NoLockIsShared(tasks, ts, gss, n - 1, t, u);
      StepExcludes(gss[n - 1], ts[n - 1], t, u);
    }
  }

  /** `t` cannot go on before `u` gives a lock back. */
  ghost predicate Waits(gs: seq<Goroutine>, t: nat, u: nat) {
    && t < |gs| && u < |gs|
    && gs[t].todo != [] && gs[t].todo[0].Acquire? && gs[t].todo[0].l in gs[u].held
  }

  /** Whom one waits for is waiting, if at all, for a lock of higher rank. */
  lemma WaitsUpward(gs: seq<Goroutine>, t: nat, u: nat)
    requires AllDisciplined(gs) && Waits(gs, t, u)
    ensures gs[u].todo != []
    ensures gs[u].todo[0].Acquire? ==> Rank(gs[t].todo[0].l) < Rank(gs[u].todo[0].l)
  {
    assert Disciplined(gs[u].held, gs[u].todo);
  }

  /** Among goroutines that are to acquire something, one that is after the highest rank. */
  lemma {:induction false} HighestWaiter(gs: seq<Goroutine>, group: set<nat>) returns (best: nat)
    requires group != {} && forall t :: t in group ==> t < |gs| && gs[t].todo != []
    ensures best in group
    ensures forall t :: t in group ==> Rank(gs[t].todo[0].l) <= Rank(gs[best].todo[0].l)
    decreases |group|
  {
    var first :| first in group;
    var others := group - {first};
    best := first;
    if others != {} {
      var rest := HighestWaiter(gs, others);
      if Rank(gs[first].todo[0].l) < Rank(gs[rest].todo[0].l) {
        best := rest;
      }
    }
    assert forall t :: t in group ==> t == first || t in others;
  }

  ghost predicate WaitsForNone(gs: seq<Goroutine>, t: nat, group: set<nat>) {
    forall u :: u in group ==> !Waits(gs, t, u)
  }

  lemma SomeoneIsFree(gs: seq<Goroutine>, group: set<nat>) returns (t: nat)
    requires AllDisciplined(gs) && group != {}
    ensures t in group && WaitsForNone(gs, t, group)
  {
    if x :| x in group && !(x < |gs| && gs[x].todo != []) {
      t := x;
    } else {
      t := HighestWaiter(gs, group);
      if u :| u in group && Waits(gs, t, u) {
        WaitsUpward(gs, t, u);
        t := u;
      }
    }
  }

  /** No wait cycle in any reachable state: no group of goroutines has each member waiting for a
      member of the group. */
  lemma NoWaitCycle(tasks: seq<seq<Work>>, ts: seq<nat>, gss: seq<seq<Goroutine>>, n: nat, group: set<nat>) returns (t: nat)
    requires IsRun(tasks, ts, gss) && n <= |ts| && group != {}
    ensures t in group && WaitsForNone(gss[n], t, group)
  {
    RunsStayDisciplined(tasks, ts, gss, n);
    t := SomeoneIsFree(gss[n], group);
  }

  /** Whoever has work left can step, or waits for someone who can, through a chain of waits. */
  lemma {:induction false} WaitsEnd(gs: seq<Goroutine>, t: nat) returns (chain: seq<nat>)
    requires AllDisciplined(gs) && t < |gs| && gs[t].todo != []
    ensures chain != [] && chain[0] == t && CanStep(gs, chain[|chain| - 1])
    ensures forall i :: 0 <= i < |chain| - 1 ==> Waits(gs, chain[i], chain[i + 1])
    decreases 2 - Rank(gs[t].todo[0].l), if gs[t].todo[0].Acquire? then 1 else 0
  {
    chain := [t];
    if !CanStep(gs, t) {
      var u: nat :| u < |gs| && gs[t].todo[0].l in gs[u].held;
      WaitsUpward(gs, t, u);
      if gs[u].todo[0].Acquire? {
        chain := WaitsEnd(gs, u);
        chain := [t] + chain;
      } else {
        chain := [t, u];
      }
    }
  }

  /** No deadlock: in every reachable state a goroutine with work left can step, or there is a
      chain of waits from it to one that can. */
  lemma NoDeadlock(tasks: seq<seq<Work>>, ts: seq<nat>, gss: seq<seq<Goroutine>>, n: nat, t: nat) returns (chain: seq<nat>)
    requires IsRun(tasks, ts, gss) && n <= |ts| && t < |gss[n]| && gss[n][t].todo != []
    ensures chain != [] && chain[0] == t && CanStep(gss[n], chain[|chain| - 1])
    ensures forall i :: 0 <= i < |chain| - 1 ==> Waits(gss[n], chain[i], chain[i + 1])
  {
    RunsStayDisciplined(tasks, ts, gss, n);
    chain := WaitsEnd(gss[n], t);
  }
}
