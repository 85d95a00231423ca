/** What a storage backend promises, as functions on values (src/storage.go:9-30): per-key
    queues, upsert by message id, deletion by id. The imperative back ends and the delivery
    protocol are both stated in terms of these functions. */
module Queues {
  import opened Messages

  type Queue = seq<Message>
  type Store = map<Key, Queue>

  /** The first position holding `id`, or the length of the queue. */
  function Find(q: Queue, id: Uuid): (i: nat)
    ensures i <= |q|
    ensures i < |q| ==> q[i].id == id
    ensures forall j :: 0 <= j < i ==> q[j].id != id
  {
    if q == [] then 0
    else if q[0].id == id then 0
    else 1 + Find(q[1..], id)
  }

  predicate Has(q: Queue, id: Uuid) {
    exists i :: 0 <= i < |q| && q[i].id == id
  }

  function Upsert(q: Queue, m: Message): Queue {
    var i := Find(q, m.id);
    if i < |q| then q[i := m] else q + [m]
  }

  /** `s` with position `i` closed up. */
  function Cut<T>(s: seq<T>, i: nat): (r: seq<T>)
    requires i < |s|
    ensures |r| == |s| - 1
  {
    seq(|s| - 1, j requires 0 <= j < |s| - 1 => s[if j < i then j else j + 1])
  }

  function Without(q: Queue, id: Uuid): Queue {
    var i := Find(q, id);
    if i < |q| then Cut(q, i) else q
  }

  ghost predicate DistinctIds(q: Queue) {
    forall i, j :: 0 <= i < j < |q| ==> q[i].id != q[j].id
  }

  // ------------------------------------------------------------ whole store

  function QueueAt(st: Store, key: Key): Queue {
    if key in st then st[key] else []
  }

  /** Absent keys stand for empty queues: an emptied key is removed. */
  function Put(st: Store, key: Key, q: Queue): Store {
    if q == [] then st - {key} else st[key := q]
  }

  datatype StoreOp =
    | Add(key: Key, m: Message)
    | Delete(key: Key, id: Uuid)
    | Drop(key: Key)

  function Apply(st: Store, op: StoreOp): Store {
    match op
    case Add(key, m) => Put(st, key, Upsert(QueueAt(st, key), m))
    case Delete(key, id) => Put(st, key, Without(QueueAt(st, key), id))
    case Drop(key) => st - {key}
  }

  function ApplyAll(st: Store, ops: seq<StoreOp>): Store {
    if ops == [] then st
    else Apply(ApplyAll(st, ops[..|ops| - 1]), ops[|ops| - 1])
  }

  /** No key keeps an empty queue and no queue holds an id twice. */
  ghost predicate GoodStore(st: Store) {
    forall k :: k in st ==> st[k] != [] && DistinctIds(st[k])
  }

  lemma UpsertKeepsIdsDistinct(q: Queue, m: Message)
    requires DistinctIds(q)
    ensures DistinctIds(Upsert(q, m))
    ensures forall x :: x in Upsert(q, m) <==> x == m || (x in q && x.id != m.id)
  {
    var i, r := Find(q, m.id), Upsert(q, m);
    assert r[i] == m;
    forall x | x in q && x.id != m.id ensures x in r {
      var j :| 0 <= j < |q| && q[j] == x;
      assert r[j] == x;
    }
  }

  lemma WithoutKeepsIdsDistinct(q: Queue, id: Uuid)
    requires DistinctIds(q)
    ensures DistinctIds(Without(q, id))
    ensures forall x :: x in Without(q, id) <==> x in q && x.id != id
  {
    var i, r := Find(q, id), Without(q, id);
    if i < |q| {
      forall x | x in q && x.id != id ensures x in r {
        var j :| 0 <= j < |q| && q[j] == x;
        assert r[if j < i then j else j - 1] == x;
      }
    }
  }

  lemma ApplyKeepsGood(st: Store, op: StoreOp)
    requires GoodStore(st)
    ensures GoodStore(Apply(st, op))
  {
    match op
    case Add(key, m) => UpsertKeepsIdsDistinct(QueueAt(st, key), m);
    case Delete(key, id) => WithoutKeepsIdsDistinct(QueueAt(st, key), id);
    case Drop(key) =>
  }

  /** Over any run from the empty store, ids stay unique and no key keeps an empty queue. */
  lemma {:induction false} RunKeepsGood(ops: seq<StoreOp>)
    ensures GoodStore(ApplyAll(map[], ops))
  {
    if ops != [] {
      RunKeepsGood(ops[..|ops| - 1]);
      ApplyKeepsGood(ApplyAll(map[], ops[..|ops| - 1]), ops[|ops| - 1]);
    }
  }

  // --------------------------------------- refinement of an ordered dictionary

  /** The reference: a dictionary by id together with the order of first insertion. */
  datatype Ordered = Ordered(order: seq<Uuid>, at: map<Uuid, Message>)

  function Listed(o: Ordered): (q: seq<Message>)
    requires forall id :: id in o.order ==> id in o.at
  {
    seq(|o.order|, i requires 0 <= i < |o.order| => o.at[o.order[i]])
  }

  function Insert(o: Ordered, m: Message): Ordered {
    Ordered(if m.id in o.at then o.order else o.order + [m.id], o.at[m.id := m])
  }

  function Omit<T(==)>(s: seq<T>, x: T): seq<T> {
    if s == [] then []
    else (if s[0] == x then [] else [s[0]]) + Omit(s[1..], x)
  }

  function Remove(o: Ordered, id: Uuid): Ordered {
    Ordered(Omit(o.order, id), o.at - {id})
  }

  /** The history of one key read as dictionary operations. */
  function Reference(ops: seq<StoreOp>, key: Key): Ordered {
    if ops == [] then Ordered([], map[])
    else
      var before := Reference(ops[..|ops| - 1], key);
      var op := ops[|ops| - 1];
      if op.key != key then before
      else match op
        case Add(_, m) => Insert(before, m)
        case Delete(_, id) => Remove(before, id)
        case Drop(_) => Ordered([], map[])
  }

  ghost predicate Represents(q: Queue, o: Ordered) {
    && |q| == |o.order|
    && NoDuplicates(o.order)
    && (forall i :: 0 <= i < |q| ==> q[i].id == o.order[i] && o.order[i] in o.at && o.at[o.order[i]] == q[i])
    && (forall id :: id in o.at ==> id in o.order)
  }

  lemma InsertRepresents(q: Queue, o: Ordered, m: Message)
    requires Represents(q, o)
    ensures Represents(Upsert(q, m), Insert(o, m))
  {
    var i := Find(q, m.id);
    if m.id in o.at {
      var j :| 0 <= j < |o.order| && o.order[j] == m.id;
      assert q[j].id == m.id;
    } else {
      assert i == |q|;
    }
  }

  lemma {:induction false} OmitAt<T>(s: seq<T>, x: T, i: nat)
    requires NoDuplicates(s) && i < |s| && s[i] == x
    ensures Omit(s, x) == Cut(s, i)
  {
    if i == 0 {
      OmitAbsent(s[1..], x);
      assert Cut(s, 0) == s[1..];
    } else {
      OmitAt(s[1..], x, i - 1);
      assert Cut(s, i) == [s[0]] + Cut(s[1..], i - 1);
    }
  }

  lemma {:induction false} OmitAbsent<T>(s: seq<T>, x: T)
    requires x !in s
    ensures Omit(s, x) == s
  {
    if s != [] {
      OmitAbsent(s[1..], x);
    }
  }

  lemma RemoveRepresents(q: Queue, o: Ordered, id: Uuid)
    requires Represents(q, o)
    ensures Represents(Without(q, id), Remove(o, id))
  {
    var i := Find(q, id);
    if i < |q| {
      OmitAt(o.order, id, i);
      CloseGap(q, o, i);
    } else {
      forall j | 0 <= j < |o.order| ensures o.order[j] != id {
        assert q[j].id != id;
      }
      OmitAbsent(o.order, id);
      assert o.at - {id} == o.at;
    }
  }

  lemma CloseGap(q: Queue, o: Ordered, i: nat)
    requires Represents(q, o) && i < |q|
    ensures Represents(Cut(q, i), Ordered(Cut(o.order, i), o.at - {o.order[i]}))
  {
    forall x | x in o.at && x != o.order[i] ensures x in Cut(o.order, i) {
      var j :| 0 <= j < |o.order| && o.order[j] == x;
      assert Cut(o.order, i)[if j < i then j else j - 1] == x;
    }
  }

  lemma StepRepresents(st: Store, o: Ordered, op: StoreOp)
    requires Represents(QueueAt(st, op.key), o)
    ensures Represents(QueueAt(Apply(st, op), op.key),
                       match op
                       case Add(_, m) => Insert(o, m)
                       case Delete(_, id) => Remove(o, id)
                       case Drop(_) => Ordered([], map[]))
  {
    match op
    case Add(_, m) => InsertRepresents(QueueAt(st, op.key), o, m);
    case Delete(_, id) => RemoveRepresents(QueueAt(st, op.key), o, id);
    case Drop(_) =>
  }

  lemma {:induction false} RunRepresents(ops: seq<StoreOp>, key: Key)
    ensures Represents(QueueAt(ApplyAll(map[], ops), key), Reference(ops, key))
  {
    if ops != [] {
      var before, op := ops[..|ops| - 1], ops[|ops| - 1];
      RunRepresents(before, key);
      if op.key == key {
        StepRepresents(ApplyAll(map[], before), Reference(before, key), op);
      }
    }
  }

  /** The queue of every key is, after any run, the listing of the ordered dictionary: an upsert
      keeps its place, a new id goes last, a deletion closes the gap. */
  lemma QueueIsOrderedDictionary(ops: seq<StoreOp>, key: Key)
    ensures forall id :: id in Reference(ops, key).order <==> id in Reference(ops, key).at
    ensures QueueAt(ApplyAll(map[], ops), key) == Listed(Reference(ops, key))
  {
    RunRepresents(ops, key);
  }

  // ------------------------------------------------------------ idempotence

  function IdsOf(q: Queue): seq<Uuid> {
    seq(|q|, i requires 0 <= i < |q| => q[i].id)
  }

  /** The storage side of one publish: the message under each of its targets. */
  function Published(m: Message, targets: seq<Key>): seq<StoreOp> {
    seq(|targets|, i requires 0 <= i < |targets| => Add(targets[i], m.(key := targets[i])))
  }

  lemma AddTouchesOneKey(st: Store, target: Key, m: Message, key: Key)
    ensures QueueAt(Apply(st, Add(target, m)), key)
         == if key == target then Upsert(QueueAt(st, key), m) else QueueAt(st, key)
  {
  }

  lemma DeleteTouchesOneKey(st: Store, target: Key, id: Uuid, key: Key)
    ensures QueueAt(Apply(st, Delete(target, id)), key)
         == if key == target then Without(QueueAt(st, key), id) else QueueAt(st, key)
  {
  }

  lemma PublishedSplit(st: Store, m: Message, front: seq<Key>, last: Key)
    ensures ApplyAll(st, Published(m, front + [last]))
         == Apply(ApplyAll(st, Published(m, front)), Add(last, m.(key := last)))
  {
    var ops := Published(m, front + [last]);
    assert ops[..|front|] == Published(m, front);
  }

  lemma {:induction false} PublishedQueue(st: Store, m: Message, targets: seq<Key>, key: Key)
    requires NoDuplicates(targets)
    ensures QueueAt(ApplyAll(st, Published(m, targets)), key)
         == if key in targets then Upsert(QueueAt(st, key), m.(key := key)) else QueueAt(st, key)
  {
    if targets != [] {
      var n := |targets| - 1;
      var front, last := targets[..n], targets[n];
      PublishedQueue(st, m, front, key);
      PublishedSplit(st, m, front, last);
      AddTouchesOneKey(ApplyAll(st, Published(m, front)), last, m.(key := last), key);
      assert targets == front + [last];
    } else {
      assert Published(m, targets) == [];
    }
  }

  /** Publishing again under the same id and targets adds no entry and moves none: every queue
      lists the same ids in the same order as after the first publish. */
  lemma RepublishAddsNoEntry(st: Store, m: Message, again: Message, targets: seq<Key>, key: Key)
    requires NoDuplicates(targets) && again.id == m.id
    ensures var once := ApplyAll(st, Published(m, targets));
            IdsOf(QueueAt(ApplyAll(once, Published(again, targets)), key)) == IdsOf(QueueAt(once, key))
  {
    var once := ApplyAll(st, Published(m, targets));
    PublishedQueue(st, m, targets, key);
    PublishedQueue(once, again, targets, key);
    if key in targets {
      var q, i := QueueAt(once, key), Find(QueueAt(st, key), m.id);
      assert q[i].id == m.id;
      assert Find(q, m.id) < |q|;
    }
  }
}
