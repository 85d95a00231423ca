/** Draining: with a fixed set of open connections and nothing published, expiring or failing,
    repeating "flush the reconcile key set, then acknowledge everything in flight" empties the
    deliverable part of the store, and how many rounds that takes. */
module Drain {
  import opened Messages
  import opened Queues
  import opened Links
  import opened Flushes
  import opened Collections

  /** An open connection. */
  datatype Peer = Peer(keys: seq<Key>, inflight: map<Uuid, Key>)

  datatype Network = Network(peers: seq<Peer>, store: Store)

  ghost predicate SomeoneCovers(glob: Glob, peers: seq<Peer>, key: Key) {
    exists c :: 0 <= c < |peers| && Covers(glob, peers[c].keys, key)
  }

  /** The keys a reconcile pass flushes: concrete subscription keys, and stored keys that match
      a subscribed pattern. */
  ghost predicate ReconcileKey(glob: Glob, peers: seq<Peer>, store: Store, key: Key) {
    exists c, p :: 0 <= c < |peers| && p in peers[c].keys && Selects(glob, p, store, key)
  }

  lemma ReconcileCovers(glob: Glob, peers: seq<Peer>, store: Store, key: Key)
    requires key in store
    ensures ReconcileKey(glob, peers, store, key) <==> SomeoneCovers(glob, peers, key)
  {
    if c, p :| 0 <= c < |peers| && p in peers[c].keys && Selects(glob, p, store, key) {
      assert Covers(glob, peers[c].keys, key);
    }
    if c :| 0 <= c < |peers| && Covers(glob, peers[c].keys, key) {
      var p :| p in peers[c].keys && KeyMatches(glob, p, key);
      assert Selects(glob, p, store, key);
    }
  }

  // ------------------------------------------------------------- the flushes

  function FlushPeer(glob: Glob, p: Peer, store: Store, key: Key): Peer {
    if Receives(glob, p.keys, key) then p.(inflight := Fill(p.inflight, QueueAt(store, key), key)) else p
  }

  function FlushAll(glob: Glob, p: Peer, store: Store, order: seq<Key>): Peer {
    if order == [] then p
    else FlushPeer(glob, FlushAll(glob, p, store, order[..|order| - 1]), store, order[|order| - 1])
  }

  /** A flush pass sends what was asked for: every id in flight belongs to a flushed queue ... */
  lemma {:induction false} FlushedFrom(glob: Glob, p: Peer, store: Store, order: seq<Key>, id: Uuid)
    requires p.inflight == map[] && id in FlushAll(glob, p, store, order).inflight
    ensures var key := FlushAll(glob, p, store, order).inflight[id];
            key in order && Receives(glob, p.keys, key) && id in Ids(QueueAt(store, key))
    ensures FlushAll(glob, p, store, order).keys == p.keys
  {
    if order != [] {
      var before := order[..|order| - 1];
      assert order == before + [order[|order| - 1]];
      FlushAllKeys(glob, p, store, before);
      if id in FlushAll(glob, p, store, before).inflight {
        FlushedFrom(glob, p, store, before, id);
      }
    }
  }

  lemma {:induction false} FlushAllKeys(glob: Glob, p: Peer, store: Store, order: seq<Key>)
    ensures FlushAll(glob, p, store, order).keys == p.keys
  {
    if order != [] {
      FlushAllKeys(glob, p, store, order[..|order| - 1]);
    }
  }

  /** ... and every id of a flushed queue that the connection receives is in flight. */
  lemma {:induction false} FlushedTo(glob: Glob, p: Peer, store: Store, order: seq<Key>, key: Key, id: Uuid)
    requires key in order && Receives(glob, p.keys, key) && id in Ids(QueueAt(store, key))
    ensures id in FlushAll(glob, p, store, order).inflight
  {
    var before, last := order[..|order| - 1], order[|order| - 1];
    assert order == before + [last];
    FlushAllKeys(glob, p, store, before);
    if key in before {
      FlushedTo(glob, p, store, before, key, id);
    }
  }

  // ---------------------------------------------------------------- the ACKs

  function AckOne(net: Network, c: nat, id: Uuid): Network {
    if c < |net.peers| && id in net.peers[c].inflight then
      var p := net.peers[c];
      Network(net.peers[c := p.(inflight := p.inflight - {id})], Apply(net.store, Delete(p.inflight[id], id)))
    else net
  }

  function AckAll(net: Network, acks: seq<(nat, Uuid)>): Network {
    if acks == [] then net
    else
      var before := AckAll(net, acks[..|acks| - 1]);
      AckOne(before, acks[|acks| - 1].0, acks[|acks| - 1].1)
  }

  /** Connection `c` has acknowledged `id` while it was in flight for `key`. */
  ghost predicate Settles(peers: seq<Peer>, acks: seq<(nat, Uuid)>, key: Key, id: Uuid) {
    exists c: nat :: c < |peers| && (c, id) in acks && id in peers[c].inflight && peers[c].inflight[id] == key
  }

  ghost predicate AckedBy(net: Network, after: Network, acks: seq<(nat, Uuid)>) {
    && |after.peers| == |net.peers|
    && (forall c: nat :: c < |net.peers| ==>
          && after.peers[c].keys == net.peers[c].keys
          && (forall id :: id in after.peers[c].inflight <==> id in net.peers[c].inflight && (c, id) !in acks)
          && (forall id :: id in after.peers[c].inflight ==> after.peers[c].inflight[id] == net.peers[c].inflight[id]))
    && GoodStore(after.store)
    && (forall key, m :: Removes(net, after, acks, key, m))
  }

  ghost predicate Removes(net: Network, after: Network, acks: seq<(nat, Uuid)>, key: Key, m: Message) {
    m in QueueAt(after.store, key) <==> m in QueueAt(net.store, key) && !Settles(net.peers, acks, key, m.id)
  }

  lemma {:induction false} AcksSettle(net: Network, acks: seq<(nat, Uuid)>)
    requires GoodStore(net.store)
    ensures AckedBy(net, AckAll(net, acks), acks)
  {
    if acks != [] {
      var before, last := acks[..|acks| - 1], acks[|acks| - 1];
      assert acks == before + [last];
      AcksSettle(net, before);
      AckStep(net, before, last.0, last.1);
    }
  }

  lemma AckStep(net: Network, acks: seq<(nat, Uuid)>, c: nat, id: Uuid)
    requires AckedBy(net, AckAll(net, acks), acks)
    ensures AckedBy(net, AckOne(AckAll(net, acks), c, id), acks + [(c, id)])
  {
    var mid := AckAll(net, acks);
    var after := AckOne(mid, c, id);
    if c < |mid.peers| && id in mid.peers[c].inflight {
      var k := mid.peers[c].inflight[id];
      ApplyKeepsGood(mid.store, Delete(k, id));
      WithoutKeepsIdsDistinct(QueueAt(mid.store, k), id);
    }
    forall key, m ensures Removes(net, after, acks + [(c, id)], key, m) {
      AckStepQueue(net, acks, c, id, key, m);
    }
  }

  lemma SettlesStep(peers: seq<Peer>, acks: seq<(nat, Uuid)>, c: nat, id: Uuid, key: Key, x: Uuid)
    ensures Settles(peers, acks + [(c, id)], key, x) <==>
              || Settles(peers, acks, key, x)
              || (x == id && c < |peers| && id in peers[c].inflight && peers[c].inflight[id] == key)
  {
    if Settles(peers, acks, key, x) {
      var d: nat :| d < |peers| && (d, x) in acks && x in peers[d].inflight && peers[d].inflight[x] == key;
      assert (d, x) in acks + [(c, id)];
    }
    assert (c, id) in acks + [(c, id)];
  }

  lemma AckOneQueue(net: Network, c: nat, id: Uuid, key: Key, m: Message)
    requires GoodStore(net.store)
    ensures m in QueueAt(AckOne(net, c, id).store, key) <==>
              m in QueueAt(net.store, key)
              && !(m.id == id && c < |net.peers| && id in net.peers[c].inflight && net.peers[c].inflight[id] == key)
  {
    if c < |net.peers| && id in net.peers[c].inflight {
      var k := net.peers[c].inflight[id];
      assert DistinctIds(QueueAt(net.store, k));
      WithoutKeepsIdsDistinct(QueueAt(net.store, k), id);
    }
  }

  lemma AckStepQueue(net: Network, acks: seq<(nat, Uuid)>, c: nat, id: Uuid, key: Key, m: Message)
    requires AckedBy(net, AckAll(net, acks), acks)
    ensures Removes(net, AckOne(AckAll(net, acks), c, id), acks + [(c, id)], key, m)
  {
    var mid := AckAll(net, acks);
    assert Removes(net, mid, acks, key, m);
    AckOneQueue(mid, c, id, key, m);
    SettlesStep(net.peers, acks, c, id, key, m.id);
  }

  // --------------------------------------------------------------- one round

  /** Everything in flight gets acknowledged, in any order, possibly with stray ACKs. */
  ghost predicate Complete(peers: seq<Peer>, acks: seq<(nat, Uuid)>) {
    forall c: nat, id :: c < |peers| && id in peers[c].inflight ==> (c, id) in acks
  }

  ghost predicate Rested(peers: seq<Peer>) {
    forall c :: 0 <= c < |peers| ==> peers[c].inflight == map[]
  }

  function Flushed(glob: Glob, peers: seq<Peer>, store: Store, order: seq<Key>): seq<Peer> {
    seq(|peers|, c requires 0 <= c < |peers| => FlushAll(glob, peers[c], store, order))
  }

  /** `order` and `acks` make up a round that leaves `store'`. */
  ghost predicate IsRound(glob: Glob, peers: seq<Peer>, store: Store, order: seq<Key>, acks: seq<(nat, Uuid)>, store': Store) {
    && (forall key :: key in order <==> ReconcileKey(glob, peers, store, key))
    && Complete(Flushed(glob, peers, store, order), acks)
    && store' == AckAll(Network(Flushed(glob, peers, store, order), store), acks).store
  }

  /** The keys under which an id is still queued with someone to deliver it to. */
  ghost function Waiting(glob: Glob, peers: seq<Peer>, store: Store, id: Uuid): set<Key> {
    set key | key in store && id in Ids(store[key]) && SomeoneCovers(glob, peers, key)
  }

  /** A round ends as it began, with nothing in flight. */
  lemma RoundRests(glob: Glob, peers: seq<Peer>, store: Store, order: seq<Key>, acks: seq<(nat, Uuid)>)
    requires GoodStore(store) && Complete(Flushed(glob, peers, store, order), acks)
    ensures Rested(AckAll(Network(Flushed(glob, peers, store, order), store), acks).peers)
  {
    var net := Network(Flushed(glob, peers, store, order), store);
    AcksSettle(net, acks);
    var after := AckAll(net, acks);
    forall c | 0 <= c < |after.peers| ensures after.peers[c].inflight == map[] {
      assert forall id :: id !in after.peers[c].inflight;
    }
  }

  /** What a round takes from the waiting keys of an id: exactly those for which it was in
      flight on some connection. */
  lemma RoundTakes(glob: Glob, peers: seq<Peer>, store: Store, order: seq<Key>, acks: seq<(nat, Uuid)>, store': Store,
                   key: Key, id: Uuid)
    requires GoodStore(store) && IsRound(glob, peers, store, order, acks, store')
    ensures key in Waiting(glob, peers, store', id) <==>
              key in Waiting(glob, peers, store, id) && !Settles(Flushed(glob, peers, store, order), acks, key, id)
  {
    var net := Network(Flushed(glob, peers, store, order), store);
    AcksSettle(net, acks);
    var after := AckAll(net, acks);
    if key in store && id in Ids(store[key]) && !Settles(net.peers, acks, key, id) {
      var m :| m in QueueAt(store, key) && m.id == id;
      assert Removes(net, after, acks, key, m);
    }
    if key in store' && id in Ids(store'[key]) {
      var m :| m in QueueAt(after.store, key) && m.id == id;
      assert Removes(net, after, acks, key, m);
    }
  }

  /** An id that waits somewhere is acknowledged for one of the keys it waits under. */
  lemma SomethingSettles(glob: Glob, peers: seq<Peer>, store: Store, order: seq<Key>, acks: seq<(nat, Uuid)>, store': Store,
                         id: Uuid) returns (key: Key)
    requires Rested(peers) && IsRound(glob, peers, store, order, acks, store')
    requires Waiting(glob, peers, store, id) != {}
    ensures key in Waiting(glob, peers, store, id)
    ensures Settles(Flushed(glob, peers, store, order), acks, key, id)
  {
    var wait :| wait in Waiting(glob, peers, store, id);
    var c: nat :| c < |peers| && Covers(glob, peers[c].keys, wait);
    ReconcileCovers(glob, peers, store, wait);
    CoversImpliesReceives(glob, peers[c].keys, wait);
    FlushedTo(glob, peers[c], store, order, wait, id);
    FlushedFrom(glob, peers[c], store, order, id);
    var flushed := Flushed(glob, peers, store, order);
    key := flushed[c].inflight[id];
    assert (c, id) in acks;
    ReconcileCovers(glob, peers, store, key);
  }

  /** Every round takes at least one key from every id that still waits, and adds none; over a
      single connection it takes exactly one. */
  lemma RoundShrinks(glob: Glob, peers: seq<Peer>, store: Store, order: seq<Key>, acks: seq<(nat, Uuid)>, store': Store, id: Uuid)
    requires GoodStore(store) && Rested(peers) && IsRound(glob, peers, store, order, acks, store')
    ensures var before, after := Waiting(glob, peers, store, id), Waiting(glob, peers, store', id);
            && after <= before
            && (before != {} ==> |after| < |before|)
            && (|peers| == 1 && before != {} ==> |after| == |before| - 1)
  {
    var before, after := Waiting(glob, peers, store, id), Waiting(glob, peers, store', id);
    forall key ensures key in after <==> key in before && !Settles(Flushed(glob, peers, store, order), acks, key, id) {
      RoundTakes(glob, peers, store, order, acks, store', key, id);
    }
    if before != {} {
      var gone := SomethingSettles(glob, peers, store, order, acks, store', id);
      ProperSubset(after, before);
      if |peers| == 1 {
        forall key | key in before && key != gone ensures key in after {
          OneSettles(Flushed(glob, peers, store, order), acks, gone, key, id);
        }
        assert after == before - {gone};
      }
    }
  }

  /** A single connection acknowledges an id for one key. */
  lemma OneSettles(peers: seq<Peer>, acks: seq<(nat, Uuid)>, key: Key, other: Key, id: Uuid)
    requires |peers| == 1 && Settles(peers, acks, key, id) && other != key
    ensures !Settles(peers, acks, other, id)
  {
  }

  // --------------------------------------------------------------- many rounds

  ghost predicate RoundTo(glob: Glob, peers: seq<Peer>, store: Store, store': Store) {
    exists order, acks :: IsRound(glob, peers, store, order, acks, store')
  }

  /** Consecutive rounds. */
  ghost predicate AreRounds(glob: Glob, peers: seq<Peer>, stores: seq<Store>) {
    forall r :: 0 <= r < |stores| - 1 ==> RoundTo(glob, peers, stores[r], stores[r + 1])
  }

  lemma {:induction false} RoundsKeepGood(glob: Glob, peers: seq<Peer>, stores: seq<Store>, r: nat)
    requires r < |stores| && GoodStore(stores[0]) && AreRounds(glob, peers, stores)
    ensures GoodStore(stores[r])
  {
    if r > 0 {
      RoundsKeepGood(glob, peers, stores, r - 1);
      assert RoundTo(glob, peers, stores[r - 1], stores[r]);
      var order, acks :| IsRound(glob, peers, stores[r - 1], order, acks, stores[r]);
      AcksSettle(Network(Flushed(glob, peers, stores[r - 1], order), stores[r - 1]), acks);
    }
  }

  /** Draining has a measure: an id that waits under n keys waits under at most n - r of them
      after r rounds, so after n rounds it is gone; over one connection exactly n are needed. */
  lemma {:induction false} DrainsInRounds(glob: Glob, peers: seq<Peer>, stores: seq<Store>, r: nat, id: Uuid)
    requires r < |stores| && GoodStore(stores[0]) && Rested(peers) && AreRounds(glob, peers, stores)
    ensures var n, left := |Waiting(glob, peers, stores[0], id)|, |Waiting(glob, peers, stores[r], id)|;
            && left <= (if r <= n then n - r else 0)
            && (|peers| == 1 ==> left == (if r <= n then n - r else 0))
  {
    if r > 0 {
      DrainsInRounds(glob, peers, stores, r - 1, id);
      RoundsKeepGood(glob, peers, stores, r - 1);
      assert RoundTo(glob, peers, stores[r - 1], stores[r]);
      var order, acks :| IsRound(glob, peers, stores[r - 1], order, acks, stores[r]);
      RoundShrinks(glob, peers, stores[r - 1], order, acks, stores[r], id);
      if Waiting(glob, peers, stores[r - 1], id) == {} {
        assert Waiting(glob, peers, stores[r], id) == {};
      }
    }
  }

  // -------------------------------------------------------- everything queued

  /** The queue entries with someone to deliver them to. */
  ghost function WaitingPairs(glob: Glob, peers: seq<Peer>, store: Store): set<(Key, Uuid)> {
    set key, id | key in store && id in Ids(store[key]) && SomeoneCovers(glob, peers, key) :: (key, id)
  }

  lemma PairsAreWaiting(glob: Glob, peers: seq<Peer>, store: Store, key: Key, id: Uuid)
    ensures (key, id) in WaitingPairs(glob, peers, store) <==> key in Waiting(glob, peers, store, id)
  {
  }

  /** The real measure: every round strictly lowers the number of queue entries that have a
      matching connection, until none is left. */
  lemma PairsShrink(glob: Glob, peers: seq<Peer>, store: Store, order: seq<Key>, acks: seq<(nat, Uuid)>, store': Store)
    requires GoodStore(store) && Rested(peers) && IsRound(glob, peers, store, order, acks, store')
    ensures WaitingPairs(glob, peers, store') <= WaitingPairs(glob, peers, store)
    ensures WaitingPairs(glob, peers, store) != {} ==>
              |WaitingPairs(glob, peers, store')| < |WaitingPairs(glob, peers, store)|
  {
    var before, after := WaitingPairs(glob, peers, store), WaitingPairs(glob, peers, store');
    forall p | p in after ensures p in before {
      RoundShrinks(glob, peers, store, order, acks, store', p.1);
      PairsAreWaiting(glob, peers, store', p.0, p.1);
      PairsAreWaiting(glob, peers, store, p.0, p.1);
    }
    if before != {} {
      var p :| p in before;
      PairsAreWaiting(glob, peers, store, p.0, p.1);
      RoundShrinks(glob, peers, store, order, acks, store', p.1);
      var key := Missing(Waiting(glob, peers, store', p.1), Waiting(glob, peers, store, p.1));
      PairsAreWaiting(glob, peers, store, key, p.1);
      PairsAreWaiting(glob, peers, store', key, p.1);
      ProperSubset(after, before);
    }
  }

  /** As many rounds as the widest fan-out waits under keys leave nothing to deliver. */
  lemma EverythingDrains(glob: Glob, peers: seq<Peer>, stores: seq<Store>, r: nat)
    requires r < |stores| && GoodStore(stores[0]) && Rested(peers) && AreRounds(glob, peers, stores)
    requires forall id :: |Waiting(glob, peers, stores[0], id)| <= r
    ensures WaitingPairs(glob, peers, stores[r]) == {}
  {
    forall p | p in WaitingPairs(glob, peers, stores[r]) ensures false {
      DrainsInRounds(glob, peers, stores, r, p.1);
      PairsAreWaiting(glob, peers, stores[r], p.0, p.1);
    }
  }

  // ------------------------------------------------------- rounds always exist

  ghost function Enumerate<T(!new)>(s: set<T>): (r: seq<T>)
    ensures forall x :: x in r <==> x in s
  {
    if s == {} then []
    else
      var x :| x in s;
      [x] + Enumerate(s - {x})
  }

  ghost function Subscribed(peers: seq<Peer>): (keys: set<Key>)
    ensures forall k :: k in keys <==> exists c :: 0 <= c < |peers| && k in peers[c].keys
  {
    set c, k | 0 <= c < |peers| && k in peers[c].keys :: k
  }

  ghost function AllInflight(peers: seq<Peer>): (acks: set<(nat, Uuid)>)
    ensures forall c: nat, id :: (c, id) in acks <==> c < |peers| && id in peers[c].inflight
  {
    set c: nat, id | c < |peers| && id in peers[c].inflight :: (c, id)
  }

  /** There is always a next round, whatever the state. */
  lemma AnotherRound(glob: Glob, peers: seq<Peer>, store: Store)
    ensures exists store' :: RoundTo(glob, peers, store, store')
  {
    var keys := set k | k in Subscribed(peers) + store.Keys && ReconcileKey(glob, peers, store, k);
    var order := Enumerate(keys);
    forall k | ReconcileKey(glob, peers, store, k) ensures k in order {
      assert k in Subscribed(peers) || k in store.Keys;
    }
    var acks := Enumerate(AllInflight(Flushed(glob, peers, store, order)));
    var store' := AckAll(Network(Flushed(glob, peers, store, order), store), acks).store;
    assert IsRound(glob, peers, store, order, acks, store');
    assert RoundTo(glob, peers, store, store');
  }

  /** An undisturbed pass of the reconcile loop over one connection is the flush pass above. */
  lemma {:induction false} PassIsFlushAll<P>(glob: Glob, keys: seq<Key>, inflight: map<Uuid, Key>, p: P, store: Store,
                                             order: seq<Key>, clock: Clock, net: Net<P>)
    requires forall key :: key in order ==> Smooth(p, QueueAt(store, key), key, clock, net)
    ensures FlushLinks(glob, keys, Link(false, inflight), p, store, order, clock, net)
         == Link(false, FlushAll(glob, Peer(keys, inflight), store, order).inflight)
  {
    if order != [] {
      var before := order[..|order| - 1];
      assert order == before + [order[|order| - 1]];
      PassIsFlushAll(glob, keys, inflight, p, store, before, clock, net);
      FlushAllKeys(glob, Peer(keys, inflight), store, before);
      var mid := FlushAll(glob, Peer(keys, inflight), store, before);
      SmoothFlush(glob, keys, Link(false, mid.inflight), p, store, order[|order| - 1], clock, net);
    }
  }
}
