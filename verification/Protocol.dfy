/** The delivery protocol as a state machine (src/engine.go, src/client.go, src/server.go).

    Every critical section of the server is one step, so publishers, new connections, ACKs,
    sweeps and other flushes interleave anywhere between the registry snapshot, the queue
    snapshot, and each mark, write, clear and close of a flush. Some components of the state
    are history: they record what happened and no step depends on them. */
module Protocol {
  import opened Messages
  import opened Queues
  import opened Links

  /** The glob matcher, and the hash that picks one of the 256 send locks for a key. */
  datatype Env = Env(glob: Glob, shard: Key -> nat)

  // ----------------------------------------------------------------- state

  /** History of one connection, per message id: successful marks, ACKs that found the id in
      flight, clears that found it in flight, successful writes and failed writes. */
  datatype Tally = Tally(
    marks: multiset<Uuid>,
    acks: multiset<Uuid>,
    clears: multiset<Uuid>,
    writes: multiset<Uuid>,
    failures: multiset<Uuid>)

  const NOTHING := Tally(multiset{}, multiset{}, multiset{}, multiset{}, multiset{})

  /** Connections are numbered in the order they register; a number is never reused. */
  datatype Conn = Conn(keys: seq<Key>, registered: bool, link: Link, tally: Tally)

  datatype Cause = ByAck(conn: nat) | BySweep(seen: Message) | ByRequest

  /** What a goroutine still has to do, one critical section or one flush at a time. */
  datatype Job =
    | Publish(key: Key, m: Message)             // queueMessage
    | Flush(key: Key)                           // sendMessages
    | Expand(pattern: Key)                      // storageKeysMatching, then a flush per key
    | Inspect(key: Key)                         // sweepKey: read the queue
    | Scan(key: Key, q: Queue)                  // sweepKey: test the messages read
    | Discard(key: Key, id: Uuid, cause: Cause) // DeleteMessage
    | Clear(key: Key)                           // DeleteQueue

  datatype Point = Test | Offer | Write | Clean | Hang

  /** Inside `sendMessages`; every stage but `Idle` holds the send lock of the key. `q[i]` and
      `cs[j]` are the message and the connection at hand. */
  datatype Stage =
    | Idle
    | Entered(key: Key)
    | Snapped(key: Key, cs: seq<nat>)
    | Walking(key: Key, cs: seq<nat>, q: Queue, i: nat, j: nat, at: Point)

  datatype Thread = Thread(stage: Stage, todo: seq<Job>)

  datatype Entry = Entry(key: Key, m: Message)

  datatype Exit = Exit(key: Key, m: Message, cause: Cause, time: int)

  datatype State = State(
    store: Store,
    conns: seq<Conn>,
    threads: seq<Thread>,
    now: int,
    // history
    added: seq<Entry>,                    // every AddMessage, in order
    inserted: multiset<(Key, Uuid)>,      // those that created a queue entry
    exits: seq<Exit>,                     // every removal of a queue entry, in order
    offered: set<(nat, Key, Uuid)>,       // pairs put to an open connection since the last add
    settled: set<(nat, Key, Uuid)>,       // ACKs accepted, with the key recorded in flight
    honest: bool)                         // so far clients ACKed only ids written to them

  function Init(now: int): State {
    State(map[], [], [], now, [], multiset{}, [], {}, {}, true)
  }

  // ------------------------------------------------------------------ steps

  /** `ok` is the outcome of a write; `keys` and `cs` are the orders in which Go happens to
      range over a map. */
  datatype Choice = Choice(ok: bool, keys: seq<Key>, cs: seq<nat>)

  datatype Step =
    | Post(m: Message)                    // handlePost schedules the fan-out task
    | Connect(keys: seq<Key>)             // handleWs registers and schedules the backlog task
    | Reflush(keys: seq<Key>)             // reconcileLoop, or a storage notification
    | Sweep(keys: seq<Key>)               // one tick of sweepExpired
    | DeleteOne(key: Key, id: Uuid)       // the three modes of handleDelete
    | DeleteKey(key: Key)
    | DeleteAll(keys: seq<Key>)
    | Ack(c: nat, id: Uuid)               // handleAck up to takeInflight
    | Close(c: nat)                       // readLoop or pingLoop gives up
    | Unregister(c: nat)                  // removeClient
    | Tick(now: int)
    | Advance(t: nat, ch: Choice)         // the next critical section of a goroutine

  function PublishJobs(m: Message, targets: seq<Key>): seq<Job> {
    if targets == [] then []
    else [Publish(targets[0], m.(key := targets[0])), Flush(targets[0])] + PublishJobs(m, targets[1..])
  }

  function BacklogJob(key: Key): Job {
    if HasWildcard(key) then Expand(key) else Flush(key)
  }

  function Each(keys: seq<Key>, job: Key -> Job): seq<Job> {
    seq(|keys|, i requires 0 <= i < |keys| => job(keys[i]))
  }

  function Spawn(s: State, todo: seq<Job>): State {
    s.(threads := s.threads + [Thread(Idle, todo)])
  }

  function SetLink(s: State, c: nat, l: Link, y: Tally): State
    requires c < |s.conns|
  {
    s.(conns := s.conns[c := s.conns[c].(link := l, tally := y)])
  }

  /** The connections `clientsForKey` finds. */
  predicate Receiver(env: Env, s: State, c: nat, key: Key) {
    c < |s.conns| && s.conns[c].registered && Receives(env.glob, s.conns[c].keys, key)
  }

  predicate Holds(th: Thread, env: Env, lock: nat) {
    !th.stage.Idle? && env.shard(th.stage.key) == lock
  }

  // ---------------------------------------------- effects of storage operations

  function Added(s: State, key: Key, m: Message): State {
    var q := QueueAt(s.store, key);
    s.(store := Apply(s.store, Queues.Add(key, m)),
       added := s.added + [Entry(key, m)],
       inserted := if Has(q, m.id) then s.inserted else s.inserted + multiset{(key, m.id)},
       offered := set o | o in s.offered && !(o.1 == key && o.2 == m.id))
  }

  function Discarded(s: State, key: Key, id: Uuid, cause: Cause): State {
    var q := QueueAt(s.store, key);
    var i := Find(q, id);
    s.(store := Apply(s.store, Queues.Delete(key, id)),
       exits := if i < |q| then s.exits + [Exit(key, q[i], cause, s.now)] else s.exits)
  }

  function ExitsOf(key: Key, q: Queue, now: int): seq<Exit> {
    seq(|q|, i requires 0 <= i < |q| => Exit(key, q[i], ByRequest, now))
  }

  function Dropped(s: State, key: Key): State {
    s.(store := Apply(s.store, Queues.Drop(key)),
       exits := s.exits + ExitsOf(key, QueueAt(s.store, key), s.now))
  }

  // ------------------------------------------------------------ thread steps

  ghost predicate CanAdvance(env: Env, s: State, t: nat, ch: Choice) {
    && t < |s.threads|
    && var th := s.threads[t];
       match th.stage
       case Idle =>
         && th.todo != []
         && (th.todo[0].Flush? ==>
               forall u :: 0 <= u < |s.threads| && u != t ==> !Holds(s.threads[u], env, env.shard(th.todo[0].key)))
         && (th.todo[0].Expand? ==>
               && NoDuplicates(ch.keys)
               && forall k :: k in ch.keys <==> k in s.store && KeyMatches(env.glob, th.todo[0].pattern, k))
       case Entered(key) =>
         && NoDuplicates(ch.cs)
         && forall c: nat :: c in ch.cs <==> Receiver(env, s, c, key)
       case Snapped(_, _) => true
       case Walking(_, cs, q, i, j, at) =>
         && (at != Test ==> i < |q|)
         && (!Passing(th.stage) ==> j < |cs| && cs[j] < |s.conns|)
  }

  /** An idle goroutine takes up its next job. */
  function Take(env: Env, s: State, t: nat, ch: Choice): State
    requires t < |s.threads| && s.threads[t].todo != []
  {
    var rest := s.threads[t].todo[1..];
    match s.threads[t].todo[0]
    case Publish(key, m) => Added(SetThread(s, t, Thread(Idle, rest)), key, m)
    case Flush(key) => SetThread(s, t, Thread(Entered(key), rest))
    case Expand(_) => SetThread(s, t, Thread(Idle, Each(ch.keys, k => Flush(k)) + rest))
    case Inspect(key) => SetThread(s, t, Thread(Idle, [Scan(key, QueueAt(s.store, key))] + rest))
    case Scan(key, q) =>
      if q == [] then SetThread(s, t, Thread(Idle, rest))
      else
        var left := [Scan(key, q[1..])] + rest;
        SetThread(s, t, Thread(Idle,
          if q[0].Expired(s.now) then [Discard(key, q[0].id, BySweep(q[0]))] + left else left))
    case Discard(key, id, cause) => Discarded(SetThread(s, t, Thread(Idle, rest)), key, id, cause)
    case Clear(key) => Dropped(SetThread(s, t, Thread(Idle, rest)), key)
  }

  function SetThread(s: State, t: nat, th: Thread): State
    requires t < |s.threads|
  {
    s.(threads := s.threads[t := th])
  }

  function GoTo(s: State, t: nat, stage: Stage): State
    requires t < |s.threads|
  {
    SetThread(s, t, s.threads[t].(stage := stage))
  }

  // A flush past its snapshots has message `id` and one connection at hand: mark, write, and
  // after a failed write clear and close.

  function LinkAfter(at: Point, l: Link, id: Uuid, key: Key): Link {
    match at
    case Offer => Mark(l, id, key)
    case Clean => Forget(l, id)
    case Hang => Shut(l)
    case _ => l
  }

  function TallyAfter(at: Point, l: Link, y: Tally, id: Uuid, ok: bool): Tally {
    match at
    case Offer => if CanMark(l, id) then y.(marks := y.marks + multiset{id}) else y
    case Write =>
      if ok then y.(writes := y.writes + multiset{id}) else y.(failures := y.failures + multiset{id})
    case Clean => if id in l.inflight then y.(clears := y.clears + multiset{id}) else y
    case _ => y
  }

  function StageAfter(w: Stage, l: Link, id: Uuid, ok: bool): Stage
    requires w.Walking?
  {
    match w.at
    case Offer => if CanMark(l, id) then w.(at := Write) else w.(j := w.j + 1)
    case Write => if ok then w.(j := w.j + 1, at := Offer) else w.(at := Clean)
    case Clean => w.(at := Hang)
    case _ => w.(j := w.j + 1, at := Offer)
  }

  /** No connection is involved: the expiry test of a message, or the end of its connections. */
  predicate Passing(w: Stage)
    requires w.Walking?
  {
    w.at == Test || (w.at == Offer && w.j >= |w.cs|)
  }

  function Pass(w: Stage, now: int): Stage
    requires w.Walking? && (w.at != Test ==> w.i < |w.q|)
  {
    if w.at != Test then w.(i := w.i + 1, j := 0, at := Test)
    else if w.i >= |w.q| then Idle
    else if w.q[w.i].Expired(now) then w.(i := w.i + 1)
    else w.(j := 0, at := Offer)
  }

  function Walk(s: State, t: nat, ch: Choice): State
    requires t < |s.threads| && s.threads[t].stage.Walking?
    requires var w := s.threads[t].stage;
             && (w.at != Test ==> w.i < |w.q|)
             && (!Passing(w) ==> w.j < |w.cs| && w.cs[w.j] < |s.conns|)
  {
    var w := s.threads[t].stage;
    if Passing(w) then GoTo(s, t, Pass(w, s.now))
    else
      var c, id := w.cs[w.j], w.q[w.i].id;
      var l, y := s.conns[c].link, s.conns[c].tally;
      GoTo(SetLink(s, c, LinkAfter(w.at, l, id, w.key), TallyAfter(w.at, l, y, id, ch.ok)),
           t, StageAfter(w, l, id, ch.ok))
        .(offered := if w.at == Offer && !l.closed then s.offered + {(c, w.key, id)} else s.offered)
  }

  function Moved(env: Env, s: State, t: nat, ch: Choice): State
    requires CanAdvance(env, s, t, ch)
  {
    var th := s.threads[t];
    match th.stage
    case Idle => Take(env, s, t, ch)
    case Entered(key) => GoTo(s, t, if ch.cs == [] then Idle else Snapped(key, ch.cs))
    case Snapped(key, cs) =>
      var q := QueueAt(s.store, key);
      GoTo(s, t, if q == [] then Idle else Walking(key, cs, q, 0, 0, Test))
    case Walking(_, _, _, _, _, _) => Walk(s, t, ch)
  }

  // -------------------------------------------------------------------- runs

  ghost predicate Enabled(env: Env, s: State, step: Step) {
    match step
    case Post(m) => Distinct([m.key] + m.keys) != []
    case Sweep(keys) => forall k :: k in keys ==> k in s.store
    case DeleteAll(keys) => forall k :: k in keys <==> k in s.store
    case Ack(c, _) => c < |s.conns|
    case Close(c) => c < |s.conns|
    case Unregister(c) => c < |s.conns| && s.conns[c].link.closed
    case Tick(now) => s.now <= now
    case Advance(t, ch) => CanAdvance(env, s, t, ch)
    case _ => true
  }

  /** An ACK for an id that is not in flight changes nothing; otherwise the id is forgotten and
      the reading goroutine is left with deleting it under the recorded key. */
  function Acked(s: State, c: nat, id: Uuid): State
    requires c < |s.conns|
  {
    var l, y := s.conns[c].link, s.conns[c].tally;
    var s1 := s.(honest := s.honest && id in y.writes);
    if id !in l.inflight then s1
    else
      var key := l.inflight[id];
      Spawn(SetLink(s1, c, Forget(l, id), y.(acks := y.acks + multiset{id})).(settled := s.settled + {(c, key, id)}),
            [Discard(key, id, ByAck(c))])
  }

  function Exec(env: Env, s: State, step: Step): State
    requires Enabled(env, s, step)
  {
    match step
    case Post(m) => Spawn(s, PublishJobs(m, Distinct([m.key] + m.keys)))
    case Connect(keys) =>
      Spawn(s.(conns := s.conns + [Conn(keys, true, OPEN, NOTHING)]), Each(keys, k => BacklogJob(k)))
    case Reflush(keys) => Spawn(s, Each(keys, k => Flush(k)))
    case Sweep(keys) => Spawn(s, Each(keys, k => Inspect(k)))
    case DeleteOne(key, id) => Spawn(s, [Discard(key, id, ByRequest)])
    case DeleteKey(key) => Spawn(s, [Clear(key)])
    case DeleteAll(keys) => Spawn(s, Each(keys, k => Clear(k)))
    case Ack(c, id) => Acked(s, c, id)
    case Close(c) => SetLink(s, c, Shut(s.conns[c].link), s.conns[c].tally)
    case Unregister(c) => s.(conns := s.conns[c := s.conns[c].(registered := false)])
    case Tick(now) => s.(now := now)
    case Advance(t, ch) => Moved(env, s, t, ch)
  }

  /** `ss` are the states passed through by the run `steps`, from a freshly started server. */
  ghost predicate IsRun(env: Env, steps: seq<Step>, ss: seq<State>) {
    && |ss| == |steps| + 1
    && ss[0] == Init(ss[0].now)
    && forall n :: 0 <= n < |steps| ==> Enabled(env, ss[n], steps[n]) && ss[n + 1] == Exec(env, ss[n], steps[n])
  }

  lemma Extended(env: Env, steps: seq<Step>, ss: seq<State>, step: Step) returns (steps': seq<Step>, ss': seq<State>)
    requires IsRun(env, steps, ss) && Enabled(env, ss[|steps|], step)
    ensures steps' == steps + [step] && ss' == ss + [Exec(env, ss[|steps|], step)] && IsRun(env, steps', ss')
  {
    steps', ss' := steps + [step], ss + [Exec(env, ss[|steps|], step)];
    forall n | 0 <= n < |steps'|
      ensures Enabled(env, ss'[n], steps'[n]) && ss'[n + 1] == Exec(env, ss'[n], steps'[n])
    {
      if n < |steps| {
        assert ss'[n] == ss[n] && ss'[n + 1] == ss[n + 1] && steps'[n] == steps[n];
      }
    }
  }

  /** Nothing is scheduled, running or waiting. */
  ghost predicate Quiet(s: State) {
    forall t :: 0 <= t < |s.threads| ==> s.threads[t] == Thread(Idle, [])
  }
}
