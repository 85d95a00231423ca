/** What one uninterrupted flush, and one pass of the reconcile loop, do to a single connection
    (src/engine.go:253-309, src/engine.go:152-154). */
module Flushes {
  import opened Messages
  import opened Queues
  import opened Links

  /** The instant at which the i-th message of a flush of the key is tested for expiry. */
  type Clock = (Key, nat) -> int

  /** Whether writing the i-th message of a flush of the key to this peer succeeds. */
  type Net<!P> = (P, Key, nat) -> bool

  /** The first `n` messages of a flush of `key`, seen from one connection. */
  function OfferAll<P>(l: Link, p: P, q: Queue, key: Key, clock: Clock, net: Net<P>, n: nat): Link
    requires n <= |q|
  {
    if n == 0 then l
    else
      var before := OfferAll(l, p, q, key, clock, net, n - 1);
      if q[n - 1].Expired(clock(key, n - 1)) then before
      else OfferOne(before, q[n - 1].id, key, net(p, key, n - 1))
  }

  function FlushLink<P>(glob: Glob, keys: seq<Key>, l: Link, p: P, store: Store, key: Key, clock: Clock, net: Net<P>): Link {
    if Receives(glob, keys, key)
    then OfferAll(l, p, QueueAt(store, key), key, clock, net, |QueueAt(store, key)|)
    else l
  }

  function FlushLinks<P>(glob: Glob, keys: seq<Key>, l: Link, p: P, store: Store, order: seq<Key>, clock: Clock, net: Net<P>): Link {
    if order == [] then l
    else
      var n := |order| - 1;
      FlushLink(glob, keys, FlushLinks(glob, keys, l, p, store, order[..n], clock, net), p, store, order[n], clock, net)
  }

  /** Subscription key `p` puts `key` into the key set of a reconcile pass: concrete keys as they
      are, a pattern for every stored key it matches. */
  predicate Selects(glob: Glob, p: Key, store: Store, key: Key) {
    if HasWildcard(p) then key in store && KeyMatches(glob, p, key) else p == key
  }

  /** The keys a pass flushes, in terms of the glob alone: the literal subscription keys, and the
      stored keys that a pattern among them matches. */
  lemma SelectionIsGlob(glob: Glob, p: Key, store: Store, key: Key)
    ensures '*' in p || '?' in p || '[' in p ==> (Selects(glob, p, store, key) <==> key in store && glob(p, key))
    ensures !('*' in p || '?' in p || '[' in p) ==> (Selects(glob, p, store, key) <==> key == p)
  {
  }

  lemma FlushLinksStep<P>(glob: Glob, keys: seq<Key>, l: Link, p: P, store: Store, order: seq<Key>, key: Key, clock: Clock, net: Net<P>)
    ensures FlushLinks(glob, keys, l, p, store, order + [key], clock, net)
         == FlushLink(glob, keys, FlushLinks(glob, keys, l, p, store, order, clock, net), p, store, key, clock, net)
  {
    assert (order + [key])[..|order|] == order;
  }

  // ------------------------------------------------------ what a flush comes to

  /** Message `i` of the queue is young enough when a flush of the key comes to it. */
  ghost predicate InTime(q: Queue, i: int, key: Key, clock: Clock) {
    0 <= i < |q| && clock(key, i) <= q[i].date + q[i].expire
  }

  lemma {:induction false} OfferAllReaches<P>(l: Link, p: P, q: Queue, key: Key, clock: Clock, net: Net<P>, n: nat, i: nat)
    requires i < n <= |q| && InTime(q, i, key, clock)
    ensures var l' := OfferAll(l, p, q, key, clock, net, n); l'.closed || q[i].id in l'.inflight
  {
    if i < n - 1 {
      OfferAllReaches(l, p, q, key, clock, net, n - 1, i);
    }
  }

  lemma {:induction false} OfferAllKeeps<P>(l: Link, p: P, q: Queue, key: Key, clock: Clock, net: Net<P>, n: nat)
    requires n <= |q|
    ensures var l' := OfferAll(l, p, q, key, clock, net, n);
            && (l.closed ==> l' == l)
            && (l'.closed && !l.closed ==> exists i :: InTime(q, i, key, clock) && !net(p, key, i))
            && (forall id :: id in l.inflight ==> id in l'.inflight && l'.inflight[id] == l.inflight[id])
            && (forall id :: id in l'.inflight && id !in l.inflight ==>
                  l'.inflight[id] == key && exists i :: InTime(q, i, key, clock) && q[i].id == id)
  {
    if n > 0 {
      OfferAllKeeps(l, p, q, key, clock, net, n - 1);
    }
  }

  /** Whatever expires and fails on the way: a flush leaves on every connection that receives the
      key each message it came to in time in flight, unless the connection is closed, and nothing
      new in flight but such messages; it closes a connection only after a failed write, takes
      nothing back, and leaves a closed connection, and one that does not receive the key, alone. */
  lemma FlushReaches<P>(glob: Glob, keys: seq<Key>, l: Link, p: P, store: Store, key: Key, clock: Clock, net: Net<P>)
    ensures var l', q := FlushLink(glob, keys, l, p, store, key, clock, net), QueueAt(store, key);
            && (l.closed || !Receives(glob, keys, key) ==> l' == l)
            && (l'.closed && !l.closed ==> exists i :: InTime(q, i, key, clock) && !net(p, key, i))
            && (forall i :: Receives(glob, keys, key) && InTime(q, i, key, clock) ==> l'.closed || q[i].id in l'.inflight)
            && (forall id :: id in l.inflight ==> id in l'.inflight && l'.inflight[id] == l.inflight[id])
            && (forall id :: id in l'.inflight && id !in l.inflight ==>
                  l'.inflight[id] == key && exists i :: InTime(q, i, key, clock) && q[i].id == id)
  {
    var q := QueueAt(store, key);
    OfferAllKeeps(l, p, q, key, clock, net, |q|);
    forall i | Receives(glob, keys, key) && InTime(q, i, key, clock)
      ensures var l' := FlushLink(glob, keys, l, p, store, key, clock, net); l'.closed || q[i].id in l'.inflight
    {
      OfferAllReaches(l, p, q, key, clock, net, |q|, i);
    }
  }

  /** The same for a pass over several keys. */
  lemma {:induction false} PassReaches<P>(glob: Glob, keys: seq<Key>, l: Link, p: P, store: Store, order: seq<Key>, clock: Clock, net: Net<P>)
    ensures var l' := FlushLinks(glob, keys, l, p, store, order, clock, net);
            && (l.closed ==> l' == l)
            && (l'.closed && !l.closed ==>
                  exists key, i :: key in order && InTime(QueueAt(store, key), i, key, clock) && !net(p, key, i))
            && (forall key, i :: key in order && Receives(glob, keys, key) && InTime(QueueAt(store, key), i, key, clock) ==>
                  l'.closed || QueueAt(store, key)[i].id in l'.inflight)
            && (forall id :: id in l.inflight ==> id in l'.inflight && l'.inflight[id] == l.inflight[id])
            && (forall id :: id in l'.inflight && id !in l.inflight ==>
                  var key := l'.inflight[id];
                  && key in order && Receives(glob, keys, key)
                  && exists i :: InTime(QueueAt(store, key), i, key, clock) && QueueAt(store, key)[i].id == id)
  {
    if order != [] {
      var n := |order| - 1;
      var mid := FlushLinks(glob, keys, l, p, store, order[..n], clock, net);
      PassReaches(glob, keys, l, p, store, order[..n], clock, net);
      FlushReaches(glob, keys, mid, p, store, order[n], clock, net);
      assert order == order[..n] + [order[n]];
    }
  }

  // -------------------------------------------- nothing fails, nothing expires

  function Ids(q: Queue): set<Uuid> {
    set m | m in q :: m.id
  }

  /** Every id of the queue that is not in flight yet is put in flight for `key`. */
  function Fill(inflight: map<Uuid, Key>, q: Queue, key: Key): map<Uuid, Key> {
    map id | id in inflight.Keys + Ids(q) :: if id in inflight then inflight[id] else key
  }

  /** The incidents that the draining argument leaves out. */
  ghost predicate Smooth<P>(p: P, q: Queue, key: Key, clock: Clock, net: Net<P>) {
    forall i: nat :: i < |q| ==> !q[i].Expired(clock(key, i)) && net(p, key, i)
  }

  lemma IdsStep(q: Queue, m: Message)
    ensures Ids(q + [m]) == Ids(q) + {m.id}
  {
    forall x | x in q + [m] ensures x in q || x == m {
    }
    assert m in q + [m];
    assert forall x :: x in q ==> x in q + [m];
  }

  lemma FillStep(inflight: map<Uuid, Key>, q: Queue, m: Message, key: Key)
    ensures var f := Fill(inflight, q, key);
            Fill(inflight, q + [m], key) == if m.id in f then f else f[m.id := key]
  {
    IdsStep(q, m);
  }

  lemma {:induction false} SmoothPrefix<P>(l: Link, p: P, q: Queue, key: Key, clock: Clock, net: Net<P>, n: nat)
    requires Smooth(p, q, key, clock, net) && !l.closed && n <= |q|
    ensures OfferAll(l, p, q, key, clock, net, n) == Link(false, Fill(l.inflight, q[..n], key))
  {
    if n == 0 {
      assert Fill(l.inflight, q[..0], key) == l.inflight;
    } else {
      SmoothPrefix(l, p, q, key, clock, net, n - 1);
      assert q[..n] == q[..n - 1] + [q[n - 1]];
      FillStep(l.inflight, q[..n - 1], q[n - 1], key);
    }
  }

  /** An undisturbed flush puts exactly the ids that were not in flight yet in flight. */
  lemma SmoothFlush<P>(glob: Glob, keys: seq<Key>, l: Link, p: P, store: Store, key: Key, clock: Clock, net: Net<P>)
    requires Smooth(p, QueueAt(store, key), key, clock, net) && !l.closed
    ensures FlushLink(glob, keys, l, p, store, key, clock, net)
         == if Receives(glob, keys, key) then Link(false, Fill(l.inflight, QueueAt(store, key), key)) else l
  {
    var q := QueueAt(store, key);
    SmoothPrefix(l, p, q, key, clock, net, |q|);
    assert q[..|q|] == q;
  }
}
