/** The Redis back end (src/redis_storage.go) over an abstract server, a map of hashes with one
    field per message id, and its agreement with the in-memory store. Key expiry is off. */
module RedisStorages {
  import opened Messages
  import opened Queues

  /** A stored value; a poisoned one does not decode. */
  datatype Cell = Good(s: Stored) | Poison

  type Hash = map<Uuid, Cell>
  type Server = map<Key, Hash>

  function HashAt(db: Server, key: Key): Hash {
    if key in db then db[key] else map[]
  }

  /** Redis removes a hash with its last field. */
  function PutHash(db: Server, key: Key, h: Hash): Server {
    if h == map[] then db - {key} else db[key := h]
  }

  lemma PutTwice(db: Server, key: Key, h: Hash, h': Hash)
    ensures HashAt(PutHash(db, key, h), key) == h && PutHash(PutHash(db, key, h), key, h') == PutHash(db, key, h')
  {
  }

  function Perform(db: Server, op: StoreOp): Server {
    match op
    case Add(key, m) => PutHash(db, key, HashAt(db, key)[m.id := Good(Encode(m))])
    case Delete(key, id) => PutHash(db, key, HashAt(db, key) - {id})
    case Drop(key) => db - {key}
  }

  function PerformAll(db: Server, ops: seq<StoreOp>): Server {
    if ops == [] then db
    else Perform(PerformAll(db, ops[..|ops| - 1]), ops[|ops| - 1])
  }

  /** The fields that decode. */
  function Decodable(h: Hash): Hash {
    map id | id in h && h[id].Good? :: h[id]
  }

  /** The fields not read yet, and those that decoded. */
  function Unread(h: Hash, left: set<Uuid>): Hash {
    map id | id in h && (id in left || h[id].Good?) :: h[id]
  }

  /** Field names are message ids. */
  ghost predicate Keyed(h: Hash) {
    forall id :: id in h && h[id].Good? ==> h[id].s.id == id
  }

  /** The server keeps no empty hash. */
  ghost predicate Tidy(db: Server) {
    forall key :: key in db ==> db[key] != map[] && Keyed(db[key])
  }

  lemma {:induction false} RunIsTidy(ops: seq<StoreOp>)
    ensures Tidy(PerformAll(map[], ops))
  {
    if ops != [] {
      RunIsTidy(ops[..|ops| - 1]);
    }
  }

  ghost predicate ByDate(q: Queue) {
    forall i, j :: 0 <= i < j < |q| ==> q[i].date <= q[j].date
  }

  /** One message per decodable field, and nothing else. */
  ghost predicate Lists(q: Queue, h: Hash) {
    && DistinctIds(q)
    && forall m :: m in q <==> m.id in h && h[m.id].Good? && m == Decode(h[m.id].s)
  }

  /** The same, as far as the hash has been read. */
  ghost predicate ListsRead(q: Queue, h: Hash, left: set<Uuid>) {
    && DistinctIds(q)
    && forall m :: m in q <==> m.id in h && m.id !in left && h[m.id].Good? && m == Decode(h[m.id].s)
  }

  lemma ReadField(q: Queue, h: Hash, left: set<Uuid>, field: Uuid)
    requires Keyed(h) && ListsRead(q, h, left) && field in left && field in h
    ensures h[field].Good? ==> ListsRead(q + [Decode(h[field].s)], h, left - {field})
    ensures h[field].Poison? ==> ListsRead(q, h, left - {field})
    ensures h[field].Good? ==> Unread(h, left - {field}) == Unread(h, left)
    ensures h[field].Poison? ==> Unread(h, left - {field}) == Unread(h, left) - {field}
  {
    assert forall i :: 0 <= i < |q| ==> q[i] in q;
  }

  class RedisStorage {
    var db: Server

    constructor ()
      ensures db == map[]
    {
      db := map[];
    }

    method AddMessage(key: Key, m: Message)
      modifies this
      ensures db == Perform(old(db), Add(key, m))
    {
      db := PutHash(db, key, HashAt(db, key)[m.id := Good(Encode(m))]);
    }

    method DeleteMessage(key: Key, id: Uuid)
      modifies this
      ensures db == Perform(old(db), Delete(key, id))
    {
      db := PutHash(db, key, HashAt(db, key) - {id});
    }

    method DeleteQueue(key: Key)
      modifies this
      ensures db == Perform(old(db), Drop(key))
    {
      db := db - {key};
    }

    /** Reads every field in some order, drops those that do not decode, and sorts by date. */
    method GetQueue(key: Key) returns (queue: Queue)
      requires Tidy(db)
      modifies this
      ensures db == PutHash(old(db), key, Decodable(HashAt(old(db), key)))
      ensures forall k, id :: id in HashAt(db, k) <==> id in HashAt(old(db), k) && (k == key ==> HashAt(old(db), k)[id].Good?)
      ensures ByDate(queue) && Lists(queue, HashAt(old(db), key))
    {
      var vals := HashAt(db, key);
      ghost var was := db;
      queue := [];
      var left := vals.Keys;
      assert Unread(vals, left) == vals;
      while left != {}
        invariant left <= vals.Keys
        invariant ListsRead(queue, vals, left)
        invariant db == PutHash(was, key, Unread(vals, left))
        decreases |left|
      {
        var field :| field in left;
        ReadField(queue, vals, left, field);
        PutTwice(was, key, Unread(vals, left), Unread(vals, left - {field}));
        if vals[field].Poison? {
          db := PutHash(db, key, HashAt(db, key) - {field});
        } else {
          queue := queue + [Decode(vals[field].s)];
        }
        left := left - {field};
      }
      assert Unread(vals, {}) == Decodable(vals);
      queue := SortByDate(queue);
    }

    /** Stands for `sort.Slice`: any order by date will do. */
    static method SortByDate(q: Queue) returns (r: Queue)
      requires DistinctIds(q)
      ensures ByDate(r) && DistinctIds(r) && forall m :: m in r <==> m in q
    {
      r := SortedByDate(q);
      SortedIsByDate(q);
    }
  }

  function Slot(q: Queue, m: Message): (i: nat)
    ensures i <= |q|
  {
    if q == [] || m.date < q[0].date then 0 else 1 + Slot(q[1..], m)
  }

  function SortedByDate(q: Queue): Queue {
    if q == [] then []
    else
      var r, m := SortedByDate(q[..|q| - 1]), q[|q| - 1];
      r[..Slot(r, m)] + [m] + r[Slot(r, m)..]
  }

  lemma {:induction false} SlotSplits(q: Queue, m: Message)
    requires ByDate(q)
    ensures forall j :: 0 <= j < Slot(q, m) ==> q[j].date <= m.date
    ensures forall j :: Slot(q, m) <= j < |q| ==> m.date < q[j].date
  {
    if q != [] && !(m.date < q[0].date) {
      SlotSplits(q[1..], m);
      forall j | 0 <= j < Slot(q, m) ensures q[j].date <= m.date {
        assert j > 0 ==> q[j] == q[1..][j - 1];
      }
      forall j | Slot(q, m) <= j < |q| ensures m.date < q[j].date {
        assert q[j] == q[1..][j - 1];
      }
    }
  }

  lemma {:induction false} SortedIsByDate(q: Queue)
    requires DistinctIds(q)
    ensures var r := SortedByDate(q);
            ByDate(r) && DistinctIds(r) && forall m :: m in r <==> m in q
  {
    if q != [] {
      var p, m := q[..|q| - 1], q[|q| - 1];
      SortedIsByDate(p);
      assert q == p + [m];
      var r := SortedByDate(p);
      SlotSplits(r, m);
      forall x | x in r ensures x.id != m.id {
        assert x in p;
      }
      assert forall x :: x in q <==> x in r || x == m;
      InsertKeeps(r, m, Slot(r, m));
    }
  }

  lemma InsertKeeps(r: Queue, m: Message, k: nat)
    requires k <= |r| && ByDate(r) && DistinctIds(r) && forall x :: x in r ==> x.id != m.id
    requires forall j :: 0 <= j < k ==> r[j].date <= m.date
    requires forall j :: k <= j < |r| ==> m.date < r[j].date
    ensures var r' := r[..k] + [m] + r[k..];
            ByDate(r') && DistinctIds(r') && forall x :: x in r' <==> x in r || x == m
  {
    var a, b := r[..k], r[k..];
    assert r == a + b;
    InsertKeepsOrder(a, m, b);
  }

  lemma InsertKeepsOrder(a: Queue, m: Message, b: Queue)
    requires ByDate(a + b) && DistinctIds(a + b)
    requires forall x :: x in a ==> x.id != m.id && x.date <= m.date
    requires forall x :: x in b ==> x.id != m.id && m.date < x.date
    ensures ByDate(a + [m] + b) && DistinctIds(a + [m] + b)
  {
    var q, r := a + b, a + [m] + b;
    forall i, j | 0 <= i < j < |r| ensures r[i].date <= r[j].date && r[i].id != r[j].id {
      var i', j' := if i < |a| then i else i - 1, if j < |a| then j else j - 1;
      if i == |a| {
        assert r[j] in b;
      } else if j == |a| {
        assert r[i] in a;
      } else {
        assert r[i] == q[i'] && r[j] == q[j'];
      }
    }
  }

  // ---------------------------------------------------------------- agreement

  /** The same keys, and under each key the same messages by id, as far as they are stored. */
  ghost predicate Mirrors(st: Store, db: Server) {
    && GoodStore(st)
    && st.Keys == db.Keys
    && forall key :: key in st ==> MirrorsQueue(st[key], db[key])
  }

  ghost predicate MirrorsQueue(q: Queue, h: Hash) {
    && (forall m :: m in q ==> m.id in h && h[m.id] == Good(Encode(m)))
    && (forall id :: id in h ==> Has(q, id))
  }

  lemma AddMirrors(q: Queue, h: Hash, m: Message)
    requires DistinctIds(q) && MirrorsQueue(q, h)
    ensures MirrorsQueue(Upsert(q, m), h[m.id := Good(Encode(m))])
  {
    UpsertKeepsIdsDistinct(q, m);
    var r := Upsert(q, m);
    forall id | id in h && id != m.id ensures Has(r, id) {
      var i :| 0 <= i < |q| && q[i].id == id;
      assert q[i] in r;
    }
    assert m in r;
  }

  lemma DeleteMirrors(q: Queue, h: Hash, gone: Uuid)
    requires DistinctIds(q) && MirrorsQueue(q, h)
    ensures MirrorsQueue(Without(q, gone), h - {gone})
    ensures Without(q, gone) == [] <==> h - {gone} == map[]
  {
    WithoutKeepsIdsDistinct(q, gone);
    var r := Without(q, gone);
    forall id | id in h && id != gone ensures Has(r, id) {
      var i :| 0 <= i < |q| && q[i].id == id;
      assert q[i] in r;
    }
    if r != [] {
      assert r[0] in r;
      assert r[0].id in h - {gone};
    }
  }

  lemma OpMirrors(st: Store, db: Server, op: StoreOp)
    requires Mirrors(st, db)
    ensures Mirrors(Apply(st, op), Perform(db, op))
  {
    ApplyKeepsGood(st, op);
    var q, h := QueueAt(st, op.key), HashAt(db, op.key);
    assert MirrorsQueue(q, h);
    match op
    case Add(_, m) => AddMirrors(q, h, m);
    case Delete(_, id) => DeleteMirrors(q, h, id);
    case Drop(_) =>
  }

  /** After the same operations both back ends hold the same keys and the same messages. */
  lemma {:induction false} StoragesAgree(ops: seq<StoreOp>)
    ensures Mirrors(ApplyAll(map[], ops), PerformAll(map[], ops))
  {
    if ops != [] {
      var before := ops[..|ops| - 1];
      StoragesAgree(before);
      OpMirrors(ApplyAll(map[], before), PerformAll(map[], before), ops[|ops| - 1]);
    }
  }

  // ----------------------------------------------------------- order of reading

  ghost predicate StrictlyByDate(q: Queue) {
    forall i, j :: 0 <= i < j < |q| ==> q[i].date < q[j].date
  }

  function SlimQueue(q: Queue): (r: Queue) {
    seq(|q|, i requires 0 <= i < |q| => Slim(q[i]))
  }

  lemma SlimLists(q: Queue, h: Hash)
    requires DistinctIds(q) && MirrorsQueue(q, h)
    ensures Lists(SlimQueue(q), h)
  {
    var r := SlimQueue(q);
    forall m ensures m in r <==> m.id in h && h[m.id].Good? && m == Decode(h[m.id].s) {
      if m in r {
        var i :| 0 <= i < |r| && r[i] == m;
        assert q[i] in q;
        StoredRoundTrip(q[i]);
      }
      if m.id in h && h[m.id].Good? && m == Decode(h[m.id].s) {
        var i :| 0 <= i < |q| && q[i].id == m.id;
        assert q[i] in q;
        assert r[i] == m;
      }
    }
  }

  lemma SomeMember(q: Queue)
    ensures q == [] || q[0] in q
  {
  }

  /** Only one arrangement of strictly dated messages is in date order. */
  lemma {:induction false} DateOrderIsUnique(q: Queue, r: Queue)
    requires StrictlyByDate(q) && ByDate(r) && DistinctIds(q) && DistinctIds(r)
    requires forall m :: m in q <==> m in r
    ensures q == r
  {
    SomeMember(r);
    if q != [] {
      assert q[0] in r && (r != [] ==> r[0] in q);
      var i :| 0 <= i < |r| && r[i] == q[0];
      var j :| 0 <= j < |q| && q[j] == r[0];
      assert r[0].date <= r[i].date;
      assert j == 0;
      forall m ensures m in q[1..] <==> m in r[1..] {
        InTail(q, m);
        InTail(r, m);
      }
      DateOrderIsUnique(q[1..], r[1..]);
      assert q == [q[0]] + q[1..] && r == [r[0]] + r[1..];
    }
  }

  lemma InTail(q: Queue, m: Message)
    requires q != [] && DistinctIds(q)
    ensures m in q[1..] <==> m in q && m != q[0]
  {
    assert q == [q[0]] + q[1..];
    if m in q[1..] {
      var i :| 0 <= i < |q| - 1 && q[1..][i] == m;
      assert q[i + 1] == m;
    }
  }

  /** Two neighbours of the same date can be read either way round. */
  lemma Swapped(q: Queue, h: Hash, i: nat) returns (r: Queue)
    requires ByDate(q) && Lists(q, h) && i + 1 < |q| && q[i].date == q[i + 1].date
    ensures ByDate(r) && Lists(r, h) && r != q
  {
    r := q[i := q[i + 1]][i + 1 := q[i]];
    forall m ensures m in r <==> m in q {
      if m in q {
        var j :| 0 <= j < |q| && q[j] == m;
        assert r[if j == i then i + 1 else if j == i + 1 then i else j] == m;
      }
    }
    assert r[i] != q[i];
  }

  /** Redis reads a queue back in the order of the in-memory store, whatever order it ranges
      and sorts in, exactly when the dates of the queue strictly increase. */
  lemma ReadsInOrderExactlyWhen(ops: seq<StoreOp>, key: Key)
    ensures var q, h := QueueAt(ApplyAll(map[], ops), key), HashAt(PerformAll(map[], ops), key);
            (forall r :: ByDate(r) && Lists(r, h) ==> r == SlimQueue(q)) <==> StrictlyByDate(q)
  {
    StoragesAgree(ops);
    var q, h := QueueAt(ApplyAll(map[], ops), key), HashAt(PerformAll(map[], ops), key);
    assert MirrorsQueue(q, h) && DistinctIds(q);
    SlimLists(q, h);
    var s := SlimQueue(q);
    if StrictlyByDate(q) {
      forall r | ByDate(r) && Lists(r, h) ensures r == s {
        DateOrderIsUnique(s, r);
      }
    } else {
      SortedIsByDate(s);
      if SortedByDate(s) == s {
        var i := Tie(s);
        var _ := Swapped(s, h, i);
      } else {
        assert Lists(SortedByDate(s), h);
      }
    }
  }

  lemma {:induction false} Tie(q: Queue) returns (i: nat)
    requires ByDate(q) && !StrictlyByDate(q)
    ensures i + 1 < |q| && q[i].date == q[i + 1].date
  {
    var a, b :| 0 <= a < b < |q| && !(q[a].date < q[b].date);
    assert q[a].date <= q[a + 1].date && q[a + 1].date <= q[b].date;
    i := a;
  }

  /** The messages added under one key have distinct ids and strictly increasing dates. */
  ghost predicate Dated(ops: seq<StoreOp>, key: Key) {
    forall i, j :: 0 <= i < j < |ops| && ops[i].Add? && ops[j].Add? && ops[i].key == key && ops[j].key == key ==>
      ops[i].m.id != ops[j].m.id && ops[i].m.date < ops[j].m.date
  }

  ghost predicate AddedIn(q: Queue, ops: seq<StoreOp>, key: Key) {
    forall m :: m in q ==> Queues.Add(key, m) in ops
  }

  lemma DatedAppend(before: seq<StoreOp>, key: Key, m: Message, q: Queue)
    requires Dated(before + [Queues.Add(key, m)], key) && AddedIn(q, before, key) && StrictlyByDate(q)
    ensures Upsert(q, m) == q + [m] && StrictlyByDate(q + [m])
  {
    var ops := before + [Queues.Add(key, m)];
    forall x | x in q ensures x.id != m.id && x.date < m.date {
      var i :| 0 <= i < |before| && before[i] == Queues.Add(key, x);
      assert ops[i] == before[i] && ops[|before|] == Queues.Add(key, m);
    }
    assert forall i :: 0 <= i < |q| ==> q[i] in q;
  }

  lemma WithoutKeepsDates(q: Queue, id: Uuid)
    requires StrictlyByDate(q)
    ensures StrictlyByDate(Without(q, id)) && forall m :: m in Without(q, id) ==> m in q
  {
    var i, r := Find(q, id), Without(q, id);
    if i < |q| {
      assert forall j :: 0 <= j < |r| ==> r[j] == q[if j < i then j else j + 1];
    }
  }

  lemma {:induction false} DatedQueues(ops: seq<StoreOp>, key: Key)
    requires Dated(ops, key)
    ensures StrictlyByDate(QueueAt(ApplyAll(map[], ops), key)) && AddedIn(QueueAt(ApplyAll(map[], ops), key), ops, key)
  {
    if ops != [] {
      var before, op := ops[..|ops| - 1], ops[|ops| - 1];
      assert ops == before + [op];
      DatedQueues(before, key);
      var q := QueueAt(ApplyAll(map[], before), key);
      if op.key == key {
        match op
        case Add(_, m) => DatedAppend(before, key, m, q);
        case Delete(_, id) => WithoutKeepsDates(q, id);
        case Drop(_) =>
      }
    }
  }

  /** With fresh ids and advancing dates, Redis serves every queue first-in first-out. */
  lemma DatedPublishesReadInOrder(ops: seq<StoreOp>, key: Key, r: Queue)
    requires Dated(ops, key)
    requires ByDate(r) && Lists(r, HashAt(PerformAll(map[], ops), key))
    ensures r == SlimQueue(QueueAt(ApplyAll(map[], ops), key))
  {
    DatedQueues(ops, key);
    ReadsInOrderExactlyWhen(ops, key);
  }
}
