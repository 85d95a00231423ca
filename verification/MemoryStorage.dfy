/** The default storage back end (src/memory_storage.go): per key a slice over a backing array
    that upserts and deletions change in place. */
module MemoryStorages {
  import opened Messages
  import opened Queues

  /** A Go slice: the first `len` elements of a backing array. */
  datatype Slice = Slice(data: array<Message>, len: nat)

  class MemoryStorage {
    var storage: map<Key, Slice>

    ghost function Arrays(): set<array<Message>>
      reads this
    {
      set k | k in storage :: storage[k].data
    }

    /** Slices are in bounds, non-empty and never share a backing array. */
    ghost predicate Valid()
      reads this
    {
      && (forall k :: k in storage ==> 0 < storage[k].len <= storage[k].data.Length)
      && (forall k, l :: k in storage && l in storage && k != l ==> storage[k].data != storage[l].data)
    }

    ghost function Contents(): Store
      reads this, Arrays()
      requires Valid()
    {
      map k | k in storage :: storage[k].data[..storage[k].len]
    }

    constructor ()
      ensures Valid() && Contents() == map[] && Arrays() == {}
    {
      storage := map[];
    }

    /** The answer is a copy: later updates in place cannot reach it. */
    method GetQueue(key: Key) returns (out: array<Message>)
      requires Valid()
      ensures fresh(out) && out[..] == QueueAt(Contents(), key)
    {
      if key !in storage {
        out := new Message[0] (_ => Message(Uuid(0), "", [], "", "", 0, 0));
        return;
      }
      var src := storage[key];
      out := new Message[src.len] (i requires 0 <= i < src.len <= src.data.Length reads src.data => src.data[i]);
    }

    method DeleteQueue(key: Key)
      requires Valid()
      modifies this
      ensures Valid() && Arrays() <= old(Arrays())
      ensures Contents() == Apply(old(Contents()), Drop(key))
    {
      storage := storage - {key};
    }

    /** The search loop that both updates start with. */
    static method Position(s: Slice, id: Uuid) returns (i: nat)
      requires s.len <= s.data.Length
      ensures i == Find(s.data[..s.len], id)
    {
      ghost var q := s.data[..s.len];
      i := 0;
      while i < s.len && s.data[i].id != id
        invariant i <= s.len
        invariant forall j :: 0 <= j < i ==> q[j].id != id
      {
        i := i + 1;
      }
    }

    method AddMessage(key: Key, m: Message)
      requires Valid()
      modifies this, Arrays()
      ensures Valid() && fresh(Arrays() - old(Arrays()))
      ensures Contents() == Apply(old(Contents()), Add(key, m))
    {
      ghost var before := Contents();
      var queue;
      if key in storage {
        queue := UpsertSlice(storage[key], m);
      } else {
        queue := Singleton(m);
      }
      SetQueueOf(before, key, queue);
    }

    /** The queues of all keys but this one are the slices that `before` describes. */
    ghost predicate OthersAre(before: Store, key: Key)
      reads this, Arrays()
    {
      && (forall k :: k in before && k != key ==> k in storage)
      && (forall k :: k in storage && k != key ==>
            k in before && 0 < storage[k].len <= storage[k].data.Length && storage[k].data[..storage[k].len] == before[k])
      && (forall k, l :: k in storage && l in storage && k != l && k != key && l != key ==> storage[k].data != storage[l].data)
    }

    /** `m.storage[key] = queue`, or `delete(m.storage, key)` when nothing is left. */
    method SetQueueOf(ghost before: Store, key: Key, queue: Slice)
      requires OthersAre(before, key) && queue.len <= queue.data.Length
      requires forall k :: k in storage && k != key ==> storage[k].data != queue.data
      modifies this
      ensures Valid() && Arrays() <= old(Arrays()) + {queue.data}
      ensures Contents() == Put(before, key, queue.data[..queue.len])
    {
      if queue.len == 0 {
        storage := storage - {key};
        OneKeyDropped(before, key);
      } else {
        storage := storage[key := queue];
        OneKeyChanged(before, key, queue);
      }
    }

    /** Appending to the nil slice. */
    static method Singleton(m: Message) returns (r: Slice)
      ensures fresh(r.data) && r.len == r.data.Length == 1
      ensures r.data[..r.len] == Upsert([], m)
    {
      var data := new Message[1] (_ => m);
      r := Slice(data, 1);
    }

    /** The first element with the id of `m` is overwritten; without one, `m` is appended. */
    static method UpsertSlice(s: Slice, m: Message) returns (r: Slice)
      requires 0 < s.len <= s.data.Length
      modifies s.data
      ensures r.data == s.data || fresh(r.data)
      ensures 0 < r.len <= r.data.Length
      ensures r.data[..r.len] == Upsert(old(s.data[..s.len]), m)
    {
      r := s;
      var i := Position(s, m.id);
      if i < s.len {
        r.data[i] := m;
      } else {
        if r.len == r.data.Length {
          r := Grow(r);
        }
        r.data[r.len] := m;
        r := r.(len := r.len + 1);
      }
    }

    /** Out of capacity, `append` moves the elements to a larger array. */
    static method Grow(s: Slice) returns (r: Slice)
      requires 0 < s.len == s.data.Length
      ensures fresh(r.data) && r.len == s.len < r.data.Length
      ensures r.data[..r.len] == s.data[..]
    {
      var data := new Message[2 * s.len]
        (i requires 0 <= i && 0 < s.data.Length reads s.data => if i < s.data.Length then s.data[i] else s.data[0]);
      r := Slice(data, s.len);
    }

    method DeleteMessage(key: Key, id: Uuid)
      requires Valid()
      modifies this, Arrays()
      ensures Valid() && fresh(Arrays() - old(Arrays()))
      ensures Contents() == Apply(old(Contents()), Delete(key, id))
    {
      if key !in storage {
        return;
      }
      ghost var before := Contents();
      var queue := RemoveFromSlice(storage[key], id);
      SetQueueOf(before, key, queue);
    }

    /** The first element with that id, if there is one, is taken out. */
    static method RemoveFromSlice(s: Slice, id: Uuid) returns (r: Slice)
      requires 0 < s.len <= s.data.Length
      modifies s.data
      ensures r.data == s.data && r.len <= s.len
      ensures r.data[..r.len] == Without(old(s.data[..s.len]), id)
    {
      r := s;
      var i := Position(s, id);
      if i < s.len {
        ShiftDown(s, i);
        r := r.(len := s.len - 1);
      }
    }

    /** `append(queue[:i], queue[i+1:]...)` within the same backing array. */
    static method ShiftDown(s: Slice, i: nat)
      requires i < s.len <= s.data.Length
      modifies s.data
      ensures s.data[..s.len - 1] == Cut(old(s.data[..s.len]), i)
    {
      ghost var was := s.data[..s.len];
      for j := i + 1 to s.len
        invariant forall k :: 0 <= k < j - 1 ==> s.data[k] == was[if k < i then k else k + 1]
        invariant forall k :: j - 1 <= k < s.len ==> s.data[k] == was[k]
      {
        s.data[j - 1] := s.data[j];
      }
    }

    /** Writing one key's slice changes that key's queue and no other. */
    lemma OneKeyChanged(before: Store, key: Key, s: Slice)
      requires Valid() && OthersAre(before, key) && key in storage && storage[key] == s
      ensures Contents() == before[key := s.data[..s.len]]
    {
      assert Contents()[key] == s.data[..s.len];
    }

    lemma OneKeyDropped(before: Store, key: Key)
      requires Valid() && OthersAre(before, key) && key !in storage
      ensures Contents() == before - {key}
    {
      assert storage.Keys == before.Keys - {key};
    }

    method GetKeys() returns (keys: seq<Key>)
      requires Valid()
      ensures NoDuplicates(keys)
      ensures forall k :: k in keys <==> k in Contents()
    {
      keys := [];
      var left := storage.Keys;
      while left != {}
        invariant left <= storage.Keys && NoDuplicates(keys)
        invariant forall k :: k in keys <==> k in storage && k !in left
        decreases |left|
      {
        var k :| k in left;
        keys, left := keys + [k], left - {k};
      }
    }

    /** Any run of calls does to the contents what the functions on values say. */
    method Run(ops: seq<StoreOp>)
      requires Valid()
      modifies this, Arrays()
      ensures Valid() && fresh(Arrays() - old(Arrays()))
      ensures Contents() == ApplyAll(old(Contents()), ops)
    {
      for i := 0 to |ops|
        invariant Valid() && fresh(Arrays() - old(Arrays()))
        invariant Contents() == ApplyAll(old(Contents()), ops[..i])
      {
        assert ops[..i + 1][..i] == ops[..i];
        match ops[i]
        case Add(key, m) => AddMessage(key, m);
        case Delete(key, id) => DeleteMessage(key, id);
        case Drop(key) => DeleteQueue(key);
      }
      assert ops[..|ops|] == ops;
    }
  }

  /** A queue handed out before a run of updates still reads as it did when it was taken. */
  method SnapshotOutlivesUpdates(s: MemoryStorage, key: Key, ops: seq<StoreOp>) returns (out: array<Message>)
    requires s.Valid()
    modifies s, s.Arrays()
    ensures s.Valid() && s.Contents() == ApplyAll(old(s.Contents()), ops)
    ensures out[..] == QueueAt(old(s.Contents()), key)
  {
    out := s.GetQueue(key);
    s.Run(ops);
  }
}
