/** The engine object (src/engine.go): connection registry with its pattern index, flush,
    reconcile pass, ACK handling and sweep, each as one sequential call. */
module Engine {
  import opened Messages
  import opened Queues
  import opened Links
  import opened Flushes
  import opened MemoryStorages

  // --------------------------------------------------------- what a sweep keeps

  /** The queue after the first `n` messages of the snapshot `q` were tested, each at its own
      instant. */
  function Survivors(q: Queue, clock: nat -> int, n: nat): Queue
    requires n <= |q|
  {
    if n == 0 then q
    else
      var before := Survivors(q, clock, n - 1);
      if q[n - 1].Expired(clock(n - 1)) then Without(before, q[n - 1].id) else before
  }

  /** Those of the first `n` messages that were alive when tested, in order. */
  function Alive(q: Queue, clock: nat -> int, n: nat): Queue
    requires n <= |q|
  {
    if n == 0 then []
    else if q[n - 1].Expired(clock(n - 1)) then Alive(q, clock, n - 1)
    else Alive(q, clock, n - 1) + [q[n - 1]]
  }

  lemma {:induction false} AliveAre(q: Queue, clock: nat -> int, n: nat)
    requires n <= |q|
    ensures forall m :: m in Alive(q, clock, n) <==> exists i: nat :: i < n && q[i] == m && !m.Expired(clock(i))
  {
    if n > 0 {
      AliveAre(q, clock, n - 1);
    }
  }

  lemma WithoutMiddle(a: Queue, m: Message, b: Queue)
    requires forall x :: x in a ==> x.id != m.id
    ensures Without(a + [m] + b, m.id) == a + b
  {
    var q := a + [m] + b;
    assert q[|a|] == m;
    assert forall i :: 0 <= i < |a| ==> q[i] in a;
    assert Find(q, m.id) == |a|;
  }

  /** A sweep nobody interferes with keeps exactly the messages that were alive when tested, in
      their order: deleting one by one by id is filtering. */
  lemma {:induction false} SweepIsFilter(q: Queue, clock: nat -> int, n: nat)
    requires n <= |q| && DistinctIds(q)
    ensures Survivors(q, clock, n) == Alive(q, clock, n) + q[n..]
  {
    if n > 0 {
      SweepIsFilter(q, clock, n - 1);
      AliveAre(q, clock, n - 1);
      var a, m := Alive(q, clock, n - 1), q[n - 1];
      assert a + q[n - 1..] == a + [m] + q[n..];
      forall x | x in a ensures x.id != m.id {
        var i: nat :| i < n - 1 && q[i] == x;
      }
      WithoutMiddle(a, m, q[n..]);
    }
  }

  /** A message survives a sweep exactly if it is no older than its lifetime when it is tested. */
  lemma SweepKeepsExactly(q: Queue, clock: nat -> int)
    requires DistinctIds(q)
    ensures forall m :: m in Survivors(q, clock, |q|) ==> m in q
    ensures forall i: nat :: i < |q| ==> (q[i] in Survivors(q, clock, |q|) <==> clock(i) <= q[i].date + q[i].expire)
  {
    SweepIsFilter(q, clock, |q|);
    assert Alive(q, clock, |q|) + q[|q|..] == Alive(q, clock, |q|);
    AliveAre(q, clock, |q|);
    forall i: nat | i < |q| ensures q[i] in Alive(q, clock, |q|) <==> clock(i) <= q[i].date + q[i].expire {
      AliveAtItsTest(q, clock, i);
    }
  }

  lemma AliveAtItsTest(q: Queue, clock: nat -> int, i: nat)
    requires DistinctIds(q) && i < |q|
    ensures q[i] in Alive(q, clock, |q|) <==> clock(i) <= q[i].date + q[i].expire
  {
    AliveAre(q, clock, |q|);
    if q[i] in Alive(q, clock, |q|) {
      var j: nat :| j < |q| && q[j] == q[i] && !q[i].Expired(clock(j));
      assert j == i;
    }
  }

  /** With a clock that never runs backwards: what had outlived its lifetime when the sweep began
      is gone, and what has not when it ends is still there. */
  lemma SweepIsExact(q: Queue, clock: nat -> int)
    requires DistinctIds(q)
    requires forall i: nat, j: nat :: i <= j ==> clock(i) <= clock(j)
    ensures forall m :: m in q && m.date + m.expire < clock(0) ==> m !in Survivors(q, clock, |q|)
    ensures forall m :: m in q && clock(|q|) <= m.date + m.expire ==> m in Survivors(q, clock, |q|)
  {
    SweepKeepsExactly(q, clock);
    forall m | m in q
      ensures m.date + m.expire < clock(0) ==> m !in Survivors(q, clock, |q|)
      ensures clock(|q|) <= m.date + m.expire ==> m in Survivors(q, clock, |q|)
    {
      var i: nat :| i < |q| && q[i] == m;
      assert clock(0) <= clock(i) <= clock(|q|);
    }
  }

  lemma PutSame(st: Store, key: Key)
    requires key in st ==> st[key] != []
    ensures Put(st, key, QueueAt(st, key)) == st
  {
  }

  /** One message of a sweep, on the store. */
  function Swept(st: Store, key: Key, m: Message, now: int): Store {
    if m.Expired(now) then Apply(st, Delete(key, m.id)) else st
  }

  lemma SweptOnce(st: Store, key: Key, q: Queue, clock: nat -> int, i: nat)
    requires i < |q|
    ensures Swept(Put(st, key, Survivors(q, clock, i)), key, q[i], clock(i)) == Put(st, key, Survivors(q, clock, i + 1))
  {
    DeleteAfterPut(st, key, Survivors(q, clock, i), q[i].id);
  }

  lemma DeleteAfterPut(st: Store, key: Key, q: Queue, id: Uuid)
    ensures Apply(Put(st, key, q), Delete(key, id)) == Put(st, key, Without(q, id))
  {
  }

  // ----------------------------------------------------------------- the object

  /** `c` is on the list of `k`. */
  ghost predicate Lists(conns: map<Key, seq<Client>>, k: Key, older c: Client) {
    k in conns && c in conns[k]
  }

  class Goctopus {
    const glob: Glob
    const storage: MemoryStorage
    var conns: map<Key, seq<Client>>
    var patterns: set<Key>
    ghost var live: set<Client>

    /** The index says what a scan of the registered connections would: each is listed under
        each of its keys and nowhere else, no key has an empty list, and the patterns are the
        wildcard keys. */
    ghost predicate Indexed()
      reads this
    {
      && NoneEmpty() && PatternsMatch()
      && (forall k, c :: Lists(conns, k, c) ==> c in live && k in c.keys)
      && (forall c, k :: c in live && k in c.keys ==> Lists(conns, k, c))
    }

    ghost predicate NoneEmpty()
      reads this
    {
      forall k :: k in conns ==> conns[k] != []
    }

    ghost predicate PatternsMatch()
      reads this
    {
      forall k :: k in patterns <==> k in conns && HasWildcard(k)
    }

    constructor (glob: Glob)
      ensures this.glob == glob && conns == map[] && patterns == {} && live == {} && Indexed()
      ensures fresh(storage) && storage.Valid() && storage.Contents() == map[]
    {
      this.glob := glob;
      storage := new MemoryStorage();
      conns, patterns, live := map[], {}, {};
    }

    /** The registration part of `handleWs`; a key may be repeated. */
    method Register(c: Client)
      requires Indexed() && c !in live
      modifies this
      ensures Indexed() && live == old(live) + {c}
    {
      live := live + {c};
      for i := 0 to |c.keys|
        invariant live == old(live) + {c}
        invariant NoneEmpty() && PatternsMatch()
        invariant forall k, d :: Lists(conns, k, d) ==> d in live && k in d.keys
        invariant forall d, k :: d in old(live) && k in d.keys ==> Lists(conns, k, d)
        invariant forall k :: k in c.keys[..i] ==> Lists(conns, k, c)
      {
        assert c.keys[..i + 1] == c.keys[..i] + [c.keys[i]];
        List(c, c.keys[i]);
      }
      assert c.keys[..|c.keys|] == c.keys;
    }

    /** Appends `c` to the list of one key, and keeps a wildcard key among the patterns. */
    method List(c: Client, key: Key)
      requires NoneEmpty()
      modifies this
      ensures live == old(live) && NoneEmpty()
      ensures forall k, d :: Lists(conns, k, d) <==> Lists(old(conns), k, d) || (k == key && d == c)
      ensures old(PatternsMatch()) ==> PatternsMatch()
    {
      conns := conns[key := (if key in conns then conns[key] else []) + [c]];
      if HasWildcard(key) {
        patterns := patterns + {key};
      }
    }

    /** The list without any occurrence of `c`. */
    method Others(clients: seq<Client>, c: Client) returns (rest: seq<Client>)
      ensures forall x :: x in rest <==> x in clients && x != c
    {
      rest := [];
      for i := 0 to |clients|
        invariant forall x :: x in rest <==> x in clients[..i] && x != c
      {
        assert clients[..i + 1] == clients[..i] + [clients[i]];
        if clients[i] != c {
          rest := rest + [clients[i]];
        }
      }
      assert clients[..|clients|] == clients;
    }

    method RemoveClient(c: Client)
      requires Indexed()
      modifies this, c
      ensures Indexed() && live == old(live) - {c}
      ensures c.View() == Shut(old(c.View()))
    {
      c.Close();
      live := live - {c};
      for i := 0 to |c.keys|
        invariant live == old(live) - {c} && c.View() == Shut(old(c.View()))
        invariant NoneEmpty() && PatternsMatch()
        invariant forall k, d :: Lists(conns, k, d) && d != c ==> d in live && k in d.keys
        invariant forall d, k :: d in live && k in d.keys ==> Lists(conns, k, d)
        invariant forall k :: Lists(conns, k, c) ==> k in c.keys[i..]
      {
        assert c.keys[i..] == [c.keys[i]] + c.keys[i + 1..];
        Unlist(c, c.keys[i]);
      }
    }

    /** Takes `c` off the list of one key; an emptied list goes, and its pattern with it. */
    method Unlist(c: Client, key: Key)
      requires NoneEmpty()
      modifies this
      ensures live == old(live)
      ensures NoneEmpty()
      ensures forall k, d :: Lists(conns, k, d) <==> Lists(old(conns), k, d) && !(k == key && d == c)
      ensures old(PatternsMatch()) ==> PatternsMatch()
    {
      var rest := Others(if key in conns then conns[key] else [], c);
      if rest == [] {
        conns, patterns := conns - {key}, patterns - {key};
      } else {
        assert rest[0] in rest;
        conns := conns[key := rest];
      }
    }

    /** Appends those of `clients` that are not there yet. */
    static method AddNew(out: seq<Client>, clients: seq<Client>) returns (r: seq<Client>)
      requires NoDuplicates(out)
      ensures NoDuplicates(r)
      ensures forall x :: x in r <==> x in out || x in clients
    {
      r := out;
      for i := 0 to |clients|
        invariant NoDuplicates(r)
        invariant forall x :: x in r <==> x in out || x in clients[..i]
      {
        assert clients[..i + 1] == clients[..i] + [clients[i]];
        if clients[i] !in r {
          r := r + [clients[i]];
        }
      }
      assert clients[..|clients|] == clients;
    }

    /** Listed under the key itself or under one of these patterns. */
    predicate FoundBy(c: Client, key: Key, tried: set<Key>) {
      key in c.keys || exists p :: p in tried && p in c.keys && KeyMatches(glob, p, key)
    }

    /** Through the index, exactly the registered connections that receive the key, once each. */
    method ClientsForKey(key: Key) returns (out: seq<Client>)
      requires Indexed()
      ensures NoDuplicates(out)
      ensures forall c :: c in out <==> c in live && Receives(glob, c.keys, key)
      ensures forall c :: c in out <==>
                c in live && exists p :: p in c.keys && (p == key || (('*' in p || '?' in p || '[' in p) && glob(p, key)))
    {
      out := AddNew([], if key in conns then conns[key] else []);
      assert forall c :: c in out <==> Lists(conns, key, c);
      var left := patterns;
      while left != {}
        invariant left <= patterns && NoDuplicates(out)
        invariant forall c :: c in out <==> c in live && FoundBy(c, key, patterns - left)
        decreases left
      {
        var pattern :| pattern in left;
        if KeyMatches(glob, pattern, key) {
          assert forall c :: c in conns[pattern] <==> Lists(conns, pattern, c);
          out := AddNew(out, conns[pattern]);
        }
        left := left - {pattern};
      }
    }

    method StorageKeysMatching(pattern: Key) returns (out: seq<Key>)
      requires storage.Valid()
      ensures NoDuplicates(out)
      ensures forall k :: k in out <==> k in storage.Contents() && KeyMatches(glob, pattern, k)
      ensures '*' in pattern || '?' in pattern || '[' in pattern ==>
                forall k :: k in out <==> k in storage.Contents() && glob(pattern, k)
      ensures !('*' in pattern || '?' in pattern || '[' in pattern) ==>
                forall k :: k in out <==> k in storage.Contents() && k == pattern
    {
      var keys := storage.GetKeys();
      out := [];
      for i := 0 to |keys|
        invariant NoDuplicates(out)
        invariant forall k :: k in out <==> k in keys[..i] && KeyMatches(glob, pattern, k)
      {
        assert keys[..i + 1] == keys[..i] + [keys[i]];
        if KeyMatches(glob, pattern, keys[i]) {
          out := out + [keys[i]];
        }
      }
      assert keys[..|keys|] == keys;
    }

    // -------------------------------------------------------------- delivery

    /** A flush without interference: each receiver goes through the whole queue, marking,
        writing and on failure closing; everybody else, the registry and the storage stay as
        they are. */
    method SendMessages(key: Key, clock: Clock, net: Net<Client>)
      requires Indexed() && storage.Valid()
      modifies live
      ensures forall c :: c in live ==>
                c.View() == FlushLink(glob, c.keys, old(c.View()), c, storage.Contents(), key, clock, net)
    {
      var clients := ClientsForKey(key);
      if clients == [] {
        return;
      }
      var copy := storage.GetQueue(key);
      var q := copy[..];
      for i := 0 to |q|
        invariant forall c :: c in live && c !in clients ==> c.View() == old(c.View())
        invariant forall c :: c in clients ==> c.View() == OfferAll(old(c.View()), c, q, key, clock, net, i)
      {
        if !q[i].Expired(clock(key, i)) {
          OfferEach(clients, q[i].id, key, i, net);
        }
      }
    }

    /** The inner loop: message number `i` for every connection of the snapshot. */
    static method OfferEach(clients: seq<Client>, id: Uuid, key: Key, i: nat, net: Net<Client>)
      requires NoDuplicates(clients)
      modifies clients
      ensures forall c :: c in clients ==> c.View() == OfferOne(old(c.View()), id, key, net(c, key, i))
    {
      for j := 0 to |clients|
        invariant forall x :: j <= x < |clients| ==> clients[x].View() == old(clients[x].View())
        invariant forall x :: 0 <= x < j ==>
                    clients[x].View() == OfferOne(old(clients[x].View()), id, key, net(clients[x], key, i))
      {
        Offer(clients[j], id, key, net(clients[j], key, i));
      }
    }

    /** One turn of the inner loop. */
    static method Offer(c: Client, id: Uuid, key: Key, ok: bool)
      modifies c
      ensures c.View() == OfferOne(old(c.View()), id, key, ok)
    {
      var marked := c.MarkInflight(id, key);
      if !marked {
        return;
      }
      if !ok {
        c.ClearInflight(id);
        c.Close();
      }
    }

    ghost predicate Selected(store: Store, k: Key)
      reads this
    {
      exists c, p :: c in live && p in c.keys && Selects(glob, p, store, k)
    }

    /** The key set of one tick of the reconcile loop. */
    method ReconcileKeys() returns (keys: set<Key>)
      requires Indexed() && storage.Valid()
      ensures forall k :: k in keys <==> Selected(storage.Contents(), k)
    {
      keys := {};
      var left := conns.Keys;
      while left != {}
        invariant left <= conns.Keys
        invariant forall k :: k in keys <==> exists p :: p in conns.Keys - left && Selects(glob, p, storage.Contents(), k)
        decreases left
      {
        var p :| p in left;
        ghost var tried := conns.Keys - left;
        left := left - {p};
        assert conns.Keys - left == tried + {p};
        if HasWildcard(p) {
          var matching := StorageKeysMatching(p);
          keys := keys + set k | k in matching;
        } else {
          keys := keys + {p};
        }
      }
      forall p | p in conns ensures exists c :: c in live && p in c.keys {
        var c := conns[p][0];
        assert Lists(conns, p, c);
      }
    }

    /** One tick of the reconcile loop without interference; `order` is the order in which the
        key set was flushed. */
    method Reconcile(clock: Clock, net: Net<Client>) returns (order: seq<Key>)
      requires Indexed() && storage.Valid()
      modifies live
      ensures storage.Contents() == old(storage.Contents())
      ensures forall k :: k in order <==>
                exists c, p :: c in live && p in c.keys && Selects(glob, p, storage.Contents(), k)
      ensures forall c :: c in live ==>
                c.View() == FlushLinks(glob, c.keys, old(c.View()), c, storage.Contents(), order, clock, net)
    {
      var keys := ReconcileKeys();
      order := FlushSet(keys, clock, net);
    }

    /** Where the connections stand once these keys have been flushed. */
    ghost predicate Passed(links: map<Client, Link>, order: seq<Key>, clock: Clock, net: Net<Client>)
      requires storage.Valid()
      reads this, storage, storage.Arrays(), live
    {
      && links.Keys == live
      && forall c :: c in live ==> c.View() == FlushLinks(glob, c.keys, links[c], c, storage.Contents(), order, clock, net)
    }

    /** The next key of a pass. */
    method FlushNext(order: seq<Key>, key: Key, clock: Clock, net: Net<Client>, ghost links: map<Client, Link>)
      requires Indexed() && storage.Valid() && Passed(links, order, clock, net)
      modifies live
      ensures storage.Contents() == old(storage.Contents()) && Passed(links, order + [key], clock, net)
    {
      ghost var store := storage.Contents();
      SendMessages(key, clock, net);
      assert storage.Contents() == store;
      forall c | c in live
        ensures c.View() == FlushLinks(glob, c.keys, links[c], c, store, order + [key], clock, net)
      {
        FlushLinksStep(glob, c.keys, links[c], c, store, order, key, clock, net);
      }
    }

    /** Flushes every key of a set, in some order. */
    method FlushSet(keys: set<Key>, clock: Clock, net: Net<Client>) returns (order: seq<Key>)
      requires Indexed() && storage.Valid()
      modifies live
      ensures storage.Contents() == old(storage.Contents())
      ensures forall k :: k in order <==> k in keys
      ensures forall c :: c in live ==>
                c.View() == FlushLinks(glob, c.keys, old(c.View()), c, storage.Contents(), order, clock, net)
    {
      ghost var links := map c | c in live :: c.View();
      var left := keys;
      order := [];
      while left != {}
        invariant left <= keys && forall k :: k in order <==> k in keys - left
        invariant storage.Contents() == old(storage.Contents()) && Passed(links, order, clock, net)
        decreases left
      {
        var k :| k in left;
        FlushNext(order, k, clock, net, links);
        order, left := order + [k], left - {k};
      }
    }

    method DeleteMsgById(key: Key, id: Uuid)
      requires storage.Valid()
      modifies storage, storage.Arrays()
      ensures storage.Valid() && fresh(storage.Arrays() - old(storage.Arrays()))
      ensures storage.Contents() == Apply(old(storage.Contents()), Delete(key, id))
    {
      storage.DeleteMessage(key, id);
    }

    method HandleAck(c: Client, id: Uuid)
      requires storage.Valid()
      modifies c, storage, storage.Arrays()
      ensures storage.Valid()
      ensures c.View() == Forget(old(c.View()), id)
      ensures storage.Contents() == if id in old(c.inflight)
                                    then Apply(old(storage.Contents()), Delete(old(c.inflight)[id], id))
                                    else old(storage.Contents())
    {
      var key, ok := c.TakeInflight(id);
      if ok {
        DeleteMsgById(key, id);
      }
    }

    /** A sweep without interference. */
    method SweepKey(key: Key, clock: nat -> int)
      requires storage.Valid()
      modifies storage, storage.Arrays()
      ensures storage.Valid()
      ensures var q := QueueAt(old(storage.Contents()), key);
              storage.Contents() == Put(old(storage.Contents()), key, Survivors(q, clock, |q|))
    {
      var copy := storage.GetQueue(key);
      PutSame(storage.Contents(), key);
      SweepMessages(key, copy[..], clock, storage.Contents());
    }

    /** The loop over the snapshot. */
    method SweepMessages(key: Key, q: seq<Message>, clock: nat -> int, ghost was: Store)
      requires storage.Valid() && SweptTo(was, key, q, clock, 0)
      modifies storage, storage.Arrays()
      ensures storage.Valid() && SweptTo(was, key, q, clock, |q|)
    {
      for i := 0 to |q|
        invariant storage.Valid() && fresh(storage.Arrays() - old(storage.Arrays())) && SweptTo(was, key, q, clock, i)
      {
        SweepNext(key, q, clock, i, was);
      }
    }

    /** The first `i` messages of the snapshot are swept, and nothing else has changed. */
    ghost predicate SweptTo(was: Store, key: Key, q: Queue, clock: nat -> int, i: nat)
      requires storage.Valid() && i <= |q|
      reads storage, storage.Arrays()
    {
      storage.Contents() == Put(was, key, Survivors(q, clock, i))
    }

    /** The turn of one message of the snapshot. */
    method SweepNext(key: Key, q: seq<Message>, clock: nat -> int, i: nat, ghost was: Store)
      requires storage.Valid() && i < |q| && SweptTo(was, key, q, clock, i)
      modifies storage, storage.Arrays()
      ensures storage.Valid() && fresh(storage.Arrays() - old(storage.Arrays())) && SweptTo(was, key, q, clock, i + 1)
    {
      SweptOnce(was, key, q, clock, i);
      if q[i].Expired(clock(i)) {
        DeleteMsgById(key, q[i].id);
      }
    }
  }
}
