/** The tasks and handlers of src/server.go on the engine object, each as one sequential call. */
module Servers {
  import opened Messages
  import opened Queues
  import opened Links
  import opened Flushes
  import opened Engine
  import History

  // ------------------------------------------------------------------ publish

  /** What a connection goes through while `m` is published to these keys, one after the other:
      each flush sees the store with the message already added under its key. */
  function PublishLink<P>(glob: Glob, keys: seq<Key>, l: Link, p: P, store: Store, m: Message, targets: seq<Key>, clock: Clock, net: Net<P>): Link {
    if targets == [] then l
    else
      var n := |targets| - 1;
      FlushLink(glob, keys, PublishLink(glob, keys, l, p, store, m, targets[..n], clock, net), p,
                ApplyAll(store, Published(m, targets)), targets[n], clock, net)
  }

  /** The history after these targets were published, the i-th at instant `at(i)`. */
  function Recorded(lim: History.Limits, books: History.Books, m: Message, targets: seq<Key>, at: nat -> int): History.Books {
    if targets == [] then books
    else
      var n := |targets| - 1;
      History.Apply(lim, Recorded(lim, books, m, targets[..n], at), History.Add(targets[n], m.(key := targets[n]), at(n)))
  }

  /** The fan-out task of `handlePost`. */
  method HandlePost(g: Goctopus, h: History.HistoryStore, m: Message, at: nat -> int, clock: Clock, net: Net<Client>)
    requires g.Indexed() && g.storage.Valid()
    modifies g.storage, g.storage.Arrays(), g.live, h
    ensures g.Indexed() && g.storage.Valid()
    ensures var targets := Distinct([m.key] + m.keys);
            && g.storage.Contents() == ApplyAll(old(g.storage.Contents()), Published(m, targets))
            && h.byKey == Recorded(h.lim, old(h.byKey), m, targets, at)
            && forall c :: c in g.live ==>
                 c.View() == PublishLink(g.glob, c.keys, old(c.View()), c, old(g.storage.Contents()), m, targets, clock, net)
  {
    ghost var links := map c | c in g.live :: c.View();
    var targets := Targets(m);
    NothingPublished(g, h, links, m, at, clock, net);
    PublishAll(g, h, g.storage.Contents(), h.byKey, links, m, targets, at, clock, net);
  }

  /** Where everything stands once these targets have been published to. */
  ghost predicate PublishedSoFar(g: Goctopus, h: History.HistoryStore, store: Store, books: History.Books, links: map<Client, Link>,
                                 m: Message, front: seq<Key>, at: nat -> int, clock: Clock, net: Net<Client>)
    requires g.storage.Valid()
    reads g, g.storage, g.storage.Arrays(), h, g.live
  {
    && links.Keys == g.live
    && g.storage.Contents() == ApplyAll(store, Published(m, front))
    && h.byKey == Recorded(h.lim, books, m, front, at)
    && forall c :: c in g.live ==> c.View() == PublishLink(g.glob, c.keys, links[c], c, store, m, front, clock, net)
  }

  lemma NothingPublished(g: Goctopus, h: History.HistoryStore, links: map<Client, Link>, m: Message, at: nat -> int, clock: Clock, net: Net<Client>)
    requires g.storage.Valid() && links.Keys == g.live && forall c :: c in g.live ==> c.View() == links[c]
    ensures PublishedSoFar(g, h, g.storage.Contents(), h.byKey, links, m, [], at, clock, net)
  {
    assert Published(m, []) == [];
  }

  /** The loop over the targets. */
  method PublishAll(g: Goctopus, h: History.HistoryStore, ghost store: Store, ghost books: History.Books, ghost links: map<Client, Link>,
                    m: Message, targets: seq<Key>, at: nat -> int, clock: Clock, net: Net<Client>)
    requires g.Indexed() && g.storage.Valid() && PublishedSoFar(g, h, store, books, links, m, [], at, clock, net)
    modifies g.storage, g.storage.Arrays(), g.live, h
    ensures g.Indexed() && g.storage.Valid()
    ensures PublishedSoFar(g, h, store, books, links, m, targets, at, clock, net)
  {
    for i := 0 to |targets|
      invariant g.Indexed() && g.storage.Valid() && fresh(g.storage.Arrays() - old(g.storage.Arrays()))
      invariant PublishedSoFar(g, h, store, books, links, m, targets[..i], at, clock, net)
    {
      assert targets[..i + 1] == targets[..i] + [targets[i]];
      PublishNext(g, h, store, books, links, m, targets[..i], targets[i], at, clock, net);
    }
    assert targets[..|targets|] == targets;
  }

  /** The turn of one target. */
  method PublishNext(g: Goctopus, h: History.HistoryStore, ghost store: Store, ghost books: History.Books, ghost links: map<Client, Link>,
                     m: Message, front: seq<Key>, key: Key, at: nat -> int, clock: Clock, net: Net<Client>)
    requires g.Indexed() && g.storage.Valid() && PublishedSoFar(g, h, store, books, links, m, front, at, clock, net)
    modifies g.storage, g.storage.Arrays(), g.live, h
    ensures g.Indexed() && g.storage.Valid() && fresh(g.storage.Arrays() - old(g.storage.Arrays()))
    ensures PublishedSoFar(g, h, store, books, links, m, front + [key], at, clock, net)
  {
    PublishedSplit(store, m, front, key);
    RecordedStep(h.lim, books, m, front, key, at);
    PublishTo(g, h, m, key, at(|front|), clock, net);
    forall c | c in g.live
      ensures c.View() == PublishLink(g.glob, c.keys, links[c], c, store, m, front + [key], clock, net)
    {
      PublishLinkStep(g.glob, c.keys, links[c], c, store, m, front, key, clock, net);
    }
  }

  /** One target: add the message, record it, then flush. */
  method PublishTo(g: Goctopus, h: History.HistoryStore, m: Message, key: Key, now: int, clock: Clock, net: Net<Client>)
    requires g.Indexed() && g.storage.Valid()
    modifies g.storage, g.storage.Arrays(), g.live, h
    ensures g.Indexed() && g.storage.Valid() && fresh(g.storage.Arrays() - old(g.storage.Arrays()))
    ensures g.storage.Contents() == Apply(old(g.storage.Contents()), Add(key, m.(key := key)))
    ensures h.byKey == History.Apply(h.lim, old(h.byKey), History.Add(key, m.(key := key), now))
    ensures forall c :: c in g.live ==>
              c.View() == FlushLink(g.glob, c.keys, old(c.View()), c, g.storage.Contents(), key, clock, net)
  {
    g.storage.AddMessage(key, m.(key := key));
    h.AddItem(key, m.(key := key), now);
    g.SendMessages(key, clock, net);
  }

  lemma RecordedStep(lim: History.Limits, books: History.Books, m: Message, front: seq<Key>, key: Key, at: nat -> int)
    ensures Recorded(lim, books, m, front + [key], at)
         == History.Apply(lim, Recorded(lim, books, m, front, at), History.Add(key, m.(key := key), at(|front|)))
  {
    assert (front + [key])[..|front|] == front;
  }

  lemma PublishLinkStep<P>(glob: Glob, keys: seq<Key>, l: Link, p: P, store: Store, m: Message, front: seq<Key>, key: Key, clock: Clock, net: Net<P>)
    ensures PublishLink(glob, keys, l, p, store, m, front + [key], clock, net)
         == FlushLink(glob, keys, PublishLink(glob, keys, l, p, store, m, front, clock, net), p,
                      ApplyAll(store, Published(m, front + [key])), key, clock, net)
  {
    assert (front + [key])[..|front|] == front;
  }

  /** The queue of a target: the message with this key, in the place of an earlier one of the
      same id or else last. */
  ghost predicate Holds(was: Queue, queue: Queue, m: Message) {
    && m in queue && (forall x :: x in was && x.id != m.id ==> x in queue)
    && (if Has(was, m.id) then |queue| == |was| else |queue| == |was| + 1 && queue[|was|] == m)
  }

  lemma UpsertHolds(q: Queue, m: Message)
    ensures Holds(q, Upsert(q, m), m)
  {
    var i, r := Find(q, m.id), Upsert(q, m);
    assert r[i] == m;
    forall x | x in q && x.id != m.id ensures x in r {
      var j :| 0 <= j < |q| && q[j] == x;
      assert r[j] == x;
    }
  }

  /** What a publish leaves behind: under every non-empty key of the message a queue entry with
      this key, and the latest entry of its history; under no other key anything. */
  lemma PostIsKept(store: Store, lim: History.Limits, books: History.Books, m: Message, at: nat -> int, k: Key)
    requires lim.size > 0
    ensures var targets := Distinct([m.key] + m.keys);
            var queue, items := QueueAt(ApplyAll(store, Published(m, targets)), k), History.ItemsAt(Recorded(lim, books, m, targets, at), k);
            if k != "" && (k == m.key || k in m.keys)
            then Holds(QueueAt(store, k), queue, m.(key := k)) && EndsWith(items, m.(key := k), targets, at)
            else queue == QueueAt(store, k) && items == History.ItemsAt(books, k)
  {
    var targets := Distinct([m.key] + m.keys);
    DistinctIsASet([m.key] + m.keys);
    PublishedQueue(store, m, targets, k);
    RecordedUnder(lim, books, m, targets, at, k);
    UpsertHolds(QueueAt(store, k), m.(key := k));
  }

  /** The latest entry is the message, recorded at the instant of its turn. */
  ghost predicate EndsWith(items: seq<History.Item>, m: Message, targets: seq<Key>, at: nat -> int) {
    && items != [] && items[|items| - 1].m == m
    && exists i: nat :: i < |targets| && targets[i] == m.key && items[|items| - 1].at == at(i)
  }

  lemma EndsWithFront(items: seq<History.Item>, m: Message, front: seq<Key>, last: Key, at: nat -> int)
    requires EndsWith(items, m, front, at)
    ensures EndsWith(items, m, front + [last], at)
  {
    var i: nat :| i < |front| && front[i] == m.key && items[|items| - 1].at == at(i);
    assert (front + [last])[i] == front[i];
  }

  lemma {:induction false} RecordedUnder(lim: History.Limits, books: History.Books, m: Message, targets: seq<Key>, at: nat -> int, k: Key)
    requires lim.size > 0
    ensures var items := History.ItemsAt(Recorded(lim, books, m, targets, at), k);
            if k in targets then EndsWith(items, m.(key := k), targets, at)
            else items == History.ItemsAt(books, k)
  {
    if targets != [] {
      var front, last := targets[..|targets| - 1], targets[|targets| - 1];
      assert targets == front + [last];
      RecordedUnder(lim, books, m, front, at, k);
      if k == last {
        assert targets[|front|] == k;
      } else if k in front {
        EndsWithFront(History.ItemsAt(Recorded(lim, books, m, front, at), k), m.(key := k), front, last, at);
      }
    }
  }

  /** Nothing in the queues this publish flushes expires, and no write to this peer fails. */
  ghost predicate SmoothPublish<P>(p: P, store: Store, m: Message, targets: seq<Key>, clock: Clock, net: Net<P>) {
    forall n :: 0 <= n < |targets| ==>
      Smooth(p, QueueAt(ApplyAll(store, Published(m, targets[..n + 1])), targets[n]), targets[n], clock, net)
  }

  /** One target of an undisturbed publish. */
  lemma TargetReaches<P>(glob: Glob, keys: seq<Key>, l: Link, p: P, store: Store, m: Message, key: Key, clock: Clock, net: Net<P>)
    requires !l.closed
    requires Smooth(p, QueueAt(Apply(store, Add(key, m)), key), key, clock, net)
    ensures var l' := FlushLink(glob, keys, l, p, Apply(store, Add(key, m)), key, clock, net);
            if Receives(glob, keys, key)
            then Keeps(l, l') && m.id in l'.inflight && (m.id !in l.inflight ==> l'.inflight[m.id] == key)
            else l' == l
  {
    var q := Upsert(QueueAt(store, key), m);
    SmoothFlush(glob, keys, l, p, Apply(store, Add(key, m)), key, clock, net);
    AddTouchesOneKey(store, key, m, key);
    assert q[Find(QueueAt(store, key), m.id)] == m;
    assert m in q && m.id in Ids(q);
  }

  /** Still open, and what was in flight still is, under the same key. */
  ghost predicate Keeps(l: Link, l': Link) {
    !l'.closed && forall id :: id in l.inflight ==> id in l'.inflight && l'.inflight[id] == l.inflight[id]
  }

  /** How many targets come before the first one the connection receives. */
  function MissedTargets(glob: Glob, keys: seq<Key>, targets: seq<Key>): (n: nat)
    ensures n <= |targets| && (n < |targets| ==> Receives(glob, keys, targets[n]))
    ensures forall i :: 0 <= i < n ==> !Receives(glob, keys, targets[i])
  {
    if targets == [] || Receives(glob, keys, targets[0]) then 0 else 1 + MissedTargets(glob, keys, targets[1..])
  }

  /** An undisturbed publish leaves the id in flight on every open connection that receives one
      of the targets, recorded under the first of them unless it was in flight before, and does
      not touch the others. What was in flight stays so under the key it was sent for: a
      connection subscribed to several targets is sent the message once. */
  lemma {:induction false} PublishReaches<P>(glob: Glob, keys: seq<Key>, l: Link, p: P, store: Store, m: Message,
                                             targets: seq<Key>, clock: Clock, net: Net<P>)
    requires !l.closed && SmoothPublish(p, store, m, targets, clock, net)
    ensures var l', n := PublishLink(glob, keys, l, p, store, m, targets, clock, net), MissedTargets(glob, keys, targets);
            if n < |targets|
            then Keeps(l, l') && m.id in l'.inflight && (m.id !in l.inflight ==> l'.inflight[m.id] == targets[n])
            else l' == l
  {
    if targets != [] {
      var front, key := targets[..|targets| - 1], targets[|targets| - 1];
      assert targets == front + [key];
      SmoothFront(p, store, m, front, key, clock, net);
      PublishReaches(glob, keys, l, p, store, m, front, clock, net);
      PublishedSplit(store, m, front, key);
      PublishLinkStep(glob, keys, l, p, store, m, front, key, clock, net);
      var l0 := PublishLink(glob, keys, l, p, store, m, front, clock, net);
      TargetReaches(glob, keys, l0, p, ApplyAll(store, Published(m, front)), m.(key := key), key, clock, net);
      MissedInFront(glob, keys, front, key);
    }
  }

  lemma {:induction false} MissedInFront(glob: Glob, keys: seq<Key>, front: seq<Key>, key: Key)
    ensures var n, n' := MissedTargets(glob, keys, front), MissedTargets(glob, keys, front + [key]);
            if n < |front| then n' == n else n' == if Receives(glob, keys, key) then n else n + 1
  {
    var all := front + [key];
    if front == [] {
      assert all[1..] == [];
    } else {
      assert all[1..] == front[1..] + [key];
      MissedInFront(glob, keys, front[1..], key);
    }
  }

  lemma SmoothFront<P>(p: P, store: Store, m: Message, front: seq<Key>, key: Key, clock: Clock, net: Net<P>)
    requires SmoothPublish(p, store, m, front + [key], clock, net)
    ensures SmoothPublish(p, store, m, front, clock, net)
    ensures Smooth(p, QueueAt(ApplyAll(store, Published(m, front + [key])), key), key, clock, net)
  {
    var targets := front + [key];
    forall n | 0 <= n < |front|
      ensures Smooth(p, QueueAt(ApplyAll(store, Published(m, front[..n + 1])), front[n]), front[n], clock, net)
    {
      assert targets[..n + 1] == front[..n + 1] && targets[n] == front[n];
    }
    assert targets[..|front| + 1] == targets && targets[|front|] == key;
  }

  /** When exactly one ACK clears a message from every queue its connection receives: if the
      key it was sent for is the only target of the message that the connection receives. */
  lemma OneAckClearsExactlyWhen(glob: Glob, keys: seq<Key>, store: Store, m: Message, key: Key)
    requires GoodStore(store) && forall k :: !Has(QueueAt(store, k), m.id)
    requires key in Distinct([m.key] + m.keys) && Receives(glob, keys, key)
    ensures var targets := Distinct([m.key] + m.keys);
            var after := Apply(ApplyAll(store, Published(m, targets)), Delete(key, m.id));
            (forall k :: Receives(glob, keys, k) ==> !Has(QueueAt(after, k), m.id))
            <==> (forall k :: k in targets && Receives(glob, keys, k) ==> k == key)
  {
    var targets := Distinct([m.key] + m.keys);
    var posted := ApplyAll(store, Published(m, targets));
    DistinctIsASet([m.key] + m.keys);
    forall k ensures Has(QueueAt(Apply(posted, Delete(key, m.id)), k), m.id) <==> k in targets && k != key {
      QueuedAfterAck(store, m, targets, key, k);
    }
  }

  lemma QueuedAfterAck(store: Store, m: Message, targets: seq<Key>, key: Key, k: Key)
    requires GoodStore(store) && !Has(QueueAt(store, k), m.id) && NoDuplicates(targets)
    ensures Has(QueueAt(Apply(ApplyAll(store, Published(m, targets)), Delete(key, m.id)), k), m.id) <==> k in targets && k != key
  {
    var posted, q, mk := ApplyAll(store, Published(m, targets)), QueueAt(store, k), m.(key := k);
    PublishedQueue(store, m, targets, k);
    DeleteTouchesOneKey(posted, key, m.id, k);
    UpsertKeepsIdsDistinct(q, mk);
    WithoutKeepsIdsDistinct(QueueAt(posted, k), m.id);
    assert Upsert(q, mk)[Find(q, m.id)] == mk;
  }

  // ------------------------------------------------------------------ connect

  /** One of these subscription keys selects `k` for flushing. */
  ghost predicate Picked(glob: Glob, keys: seq<Key>, store: Store, k: Key) {
    exists p :: p in keys && Selects(glob, p, store, k)
  }

  lemma PickedStep(glob: Glob, keys: seq<Key>, p: Key, store: Store, k: Key)
    ensures Picked(glob, keys + [p], store, k) <==> Picked(glob, keys, store, k) || Selects(glob, p, store, k)
  {
    assert p in keys + [p];
    if q :| q in keys && Selects(glob, q, store, k) {
      assert q in keys + [p];
    }
  }

  /** The backlog task of `handleWs`; `order` is the order in which it flushed. */
  method Backlog(g: Goctopus, keys: seq<Key>, clock: Clock, net: Net<Client>) returns (order: seq<Key>)
    requires g.Indexed() && g.storage.Valid()
    modifies g.live
    ensures g.storage.Contents() == old(g.storage.Contents())
    ensures forall k :: k in order <==> exists p :: p in keys && Selects(g.glob, p, g.storage.Contents(), k)
    ensures forall c :: c in g.live ==>
              c.View() == FlushLinks(g.glob, c.keys, old(c.View()), c, g.storage.Contents(), order, clock, net)
  {
    ghost var store := g.storage.Contents();
    order := [];
    for i := 0 to |keys|
      invariant g.storage.Contents() == store
      invariant forall k :: k in order <==> Picked(g.glob, keys[..i], store, k)
      invariant forall c :: c in g.live ==> c.View() == FlushLinks(g.glob, c.keys, old(c.View()), c, store, order, clock, net)
    {
      assert keys[..i + 1] == keys[..i] + [keys[i]];
      var some := [keys[i]];
      if HasWildcard(keys[i]) {
        some := g.StorageKeysMatching(keys[i]);
      }
      forall k ensures Picked(g.glob, keys[..i + 1], store, k) <==> k in order || k in some {
        PickedStep(g.glob, keys[..i], keys[i], store, k);
      }
      label Before:
      FlushList(g, some, clock, net);
      assert g.storage.Contents() == store;
      forall c | c in g.live
        ensures c.View() == FlushLinks(g.glob, c.keys, old(c.View()), c, store, order + some, clock, net)
      {
        assert c.View() == FlushLinks(g.glob, c.keys, old@Before(c.View()), c, g.storage.Contents(), some, clock, net);
        FlushLinksConcat(g.glob, c.keys, old(c.View()), c, store, order, some, clock, net);
      }
      order := order + some;
    }
    assert keys[..|keys|] == keys;
  }

  method FlushList(g: Goctopus, order: seq<Key>, clock: Clock, net: Net<Client>)
    requires g.Indexed() && g.storage.Valid()
    modifies g.live
    ensures g.storage.Contents() == old(g.storage.Contents())
    ensures forall c :: c in g.live ==>
              c.View() == FlushLinks(g.glob, c.keys, old(c.View()), c, g.storage.Contents(), order, clock, net)
  {
    ghost var links := map c | c in g.live :: c.View();
    for i := 0 to |order|
      invariant g.storage.Contents() == old(g.storage.Contents()) && g.Passed(links, order[..i], clock, net)
    {
      assert order[..i + 1] == order[..i] + [order[i]];
      g.FlushNext(order[..i], order[i], clock, net, links);
    }
    assert order[..|order|] == order;
  }

  lemma {:induction false} FlushLinksConcat<P>(glob: Glob, keys: seq<Key>, l: Link, p: P, store: Store, a: seq<Key>, b: seq<Key>, clock: Clock, net: Net<P>)
    ensures FlushLinks(glob, keys, l, p, store, a + b, clock, net)
         == FlushLinks(glob, keys, FlushLinks(glob, keys, l, p, store, a, clock, net), p, store, b, clock, net)
  {
    if b == [] {
      assert a + b == a;
    } else {
      var front := b[..|b| - 1];
      assert a + b == (a + front) + [b[|b| - 1]];
      FlushLinksStep(glob, keys, l, p, store, a + front, b[|b| - 1], clock, net);
      FlushLinksConcat(glob, keys, l, p, store, a, front, clock, net);
    }
  }

  // ------------------------------------------------------------------- delete

  /** The optional id parameter of a DELETE request. */
  datatype IdParam = Missing | Malformed | Given(id: Uuid)

  /** Without a key everything goes, with a key its queue, with a key and an id one entry. An id
      without a key and an id that is no uuid are refused and change nothing. */
  method HandleDelete(g: Goctopus, key: Key, id: IdParam) returns (ok: bool)
    requires g.storage.Valid()
    modifies g.storage, g.storage.Arrays()
    ensures g.storage.Valid()
    ensures ok <==> id == Missing || (key != "" && id.Given?)
    ensures g.storage.Contents() ==
              if !ok then old(g.storage.Contents())
              else if key == "" then map[]
              else Apply(old(g.storage.Contents()), if id.Given? then Delete(key, id.id) else Drop(key))
  {
    if id != Missing && key == "" {
      return false;
    }
    if id.Malformed? {
      return false;
    }
    if key == "" {
      DeleteEverything(g);
    } else if id.Missing? {
      g.storage.DeleteQueue(key);
    } else {
      g.DeleteMsgById(key, id.id);
    }
    return true;
  }

  method DeleteEverything(g: Goctopus)
    requires g.storage.Valid()
    modifies g.storage
    ensures g.storage.Valid() && g.storage.Contents() == map[]
  {
    var keys := g.storage.GetKeys();
    for i := 0 to |keys|
      invariant g.storage.Valid()
      invariant forall k :: k in g.storage.Contents() ==> k in keys[i..]
    {
      assert keys[i..] == [keys[i]] + keys[i + 1..];
      g.storage.DeleteQueue(keys[i]);
    }
  }
}
