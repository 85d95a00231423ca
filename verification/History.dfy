/** The per-key history of recent messages (src/history.go): bounded in number and in age. */
module History {
  import opened Collections
  import opened Messages

  datatype Item = Item(m: Message, at: int)

  /** The limits; an age limit of 0 or less means none. */
  datatype Limits = Limits(size: int, ttl: int)

  predicate Aged(lim: Limits, it: Item, now: int) {
    lim.ttl > 0 && it.at < now - lim.ttl
  }

  function Pruned(lim: Limits, items: seq<Item>, now: int): seq<Item> {
    if items == [] || !Aged(lim, items[0], now) then items else Pruned(lim, items[1..], now)
  }

  type Books = map<Key, seq<Item>>

  function ItemsAt(books: Books, key: Key): seq<Item> {
    if key in books then books[key] else []
  }

  datatype Op = Add(key: Key, m: Message, at: int) | Get(key: Key, at: int) | Purge(at: int)

  function Apply(lim: Limits, books: Books, op: Op): Books {
    if lim.size <= 0 then books
    else match op
      case Add(key, m, at) => books[key := LastOf(Pruned(lim, ItemsAt(books, key), at) + [Item(m, at)], lim.size)]
      case Get(key, at) =>
        var items := Pruned(lim, ItemsAt(books, key), at);
        if items == [] then books - {key} else books[key := items]
      case Purge(at) =>
        if lim.ttl <= 0 then books
        else map k | k in books && Pruned(lim, books[k], at) != [] :: Pruned(lim, books[k], at)
  }

  class HistoryStore {
    const lim: Limits
    var byKey: Books

    constructor (size: int, ttl: int)
      ensures lim == Limits(size, ttl) && byKey == map[]
    {
      lim := Limits(size, ttl);
      byKey := map[];
    }

    method Prune(items: seq<Item>, now: int) returns (kept: seq<Item>)
      ensures kept == Pruned(lim, items, now)
    {
      if lim.ttl <= 0 {
        return items;
      }
      var cutoff := now - lim.ttl;
      var i := 0;
      while i < |items| && items[i].at < cutoff
        invariant i <= |items|
        invariant Pruned(lim, items[i..], now) == Pruned(lim, items, now)
      {
        assert items[i..][1..] == items[i + 1..];
        i := i + 1;
      }
      return items[i..];
    }

    method AddItem(key: Key, m: Message, now: int)
      modifies this
      ensures byKey == Apply(lim, old(byKey), Add(key, m, now))
    {
      if lim.size <= 0 {
        return;
      }
      var items := Prune(if key in byKey then byKey[key] else [], now);
      items := items + [Item(m, now)];
      if |items| > lim.size {
        items := items[|items| - lim.size..];
      }
      byKey := byKey[key := items];
    }

    method GetItems(key: Key, now: int) returns (out: seq<Message>)
      modifies this
      ensures byKey == Apply(lim, old(byKey), Get(key, now))
      ensures lim.size <= 0 ==> out == []
      ensures lim.size > 0 ==>
                var items := Pruned(lim, ItemsAt(old(byKey), key), now);
                |out| == |items| && forall i :: 0 <= i < |out| ==> out[i] == items[i].m
    {
      out := [];
      if lim.size <= 0 {
        return;
      }
      var items := Prune(if key in byKey then byKey[key] else [], now);
      if items == [] {
        byKey := byKey - {key};
        return;
      }
      byKey := byKey[key := items];
      for i := 0 to |items|
        invariant |out| == i && forall j :: 0 <= j < i ==> out[j] == items[j].m
      {
        out := out + [items[i].m];
      }
    }

    method PurgeAll(now: int)
      modifies this
      ensures byKey == Apply(lim, old(byKey), Purge(now))
    {
      if lim.size <= 0 || lim.ttl <= 0 {
        return;
      }
      ghost var was := byKey;
      var left := byKey.Keys;
      while left != {}
        invariant left <= was.Keys
        invariant forall k :: k in byKey <==> k in was && (k in left || Pruned(lim, was[k], now) != [])
        invariant forall k :: k in byKey ==> byKey[k] == if k in left then was[k] else Pruned(lim, was[k], now)
        decreases left
      {
        var k :| k in left;
        var kept := Prune(byKey[k], now);
        if kept == [] {
          byKey := byKey - {k};
        } else {
          byKey := byKey[k := kept];
        }
        left := left - {k};
      }
    }
  }

  // ------------------------------------------------------------- what it means

  function Run(lim: Limits, ops: seq<Op>): Books {
    if ops == [] then map[] else Apply(lim, Run(lim, ops[..|ops| - 1]), ops[|ops| - 1])
  }

  /** Everything ever added under the key; reads and purges play no part in it. */
  function Log(ops: seq<Op>, key: Key): seq<Item> {
    if ops == [] then []
    else
      var before, op := Log(ops[..|ops| - 1], key), ops[|ops| - 1];
      if op.Add? && op.key == key then before + [Item(op.m, op.at)] else before
  }

  ghost predicate InTime(ops: seq<Op>, now: int) {
    && (forall i, j :: 0 <= i <= j < |ops| ==> ops[i].at <= ops[j].at)
    && (forall i :: 0 <= i < |ops| ==> ops[i].at <= now)
  }

  /** Entry `i` of the log is no longer to be told: not among the last `size`, or added more than
      `ttl` before. */
  predicate Gone(lim: Limits, log: seq<Item>, i: int, now: int)
    requires 0 <= i < |log|
  {
    i < |log| - lim.size || (lim.ttl > 0 && now - log[i].at > lim.ttl)
  }

  ghost predicate Ordered(log: seq<Item>) {
    forall i, j :: 0 <= i <= j < |log| ==> log[i].at <= log[j].at
  }

  /** `items` is the end of the log, within the size, and all that is missing is gone. */
  ghost predicate Covers(lim: Limits, items: seq<Item>, log: seq<Item>, now: int) {
    && |items| <= |log| && items == log[|log| - |items|..]
    && (lim.size > 0 ==> |items| <= lim.size)
    && forall i :: 0 <= i < |log| - |items| ==> Gone(lim, log, i, now)
  }

  lemma {:induction false} PrunedIsSuffix(lim: Limits, items: seq<Item>, now: int) returns (k: nat)
    ensures k <= |items| && Pruned(lim, items, now) == items[k..]
    ensures forall i :: 0 <= i < k ==> Aged(lim, items[i], now)
    ensures k < |items| ==> !Aged(lim, items[k], now)
  {
    k := 0;
    if items != [] && Aged(lim, items[0], now) {
      k := PrunedIsSuffix(lim, items[1..], now);
      k := k + 1;
    }
  }

  /** Pruning keeps the cover, and on an ordered log leaves nothing that is gone. */
  lemma PrunedCovers(lim: Limits, items: seq<Item>, log: seq<Item>, earlier: int, now: int)
    requires Covers(lim, items, log, earlier) && Ordered(log) && earlier <= now
    ensures Covers(lim, Pruned(lim, items, now), log, now)
    ensures lim.size > 0 ==>
              forall i :: |log| - |Pruned(lim, items, now)| <= i < |log| ==> !Gone(lim, log, i, now)
  {
    var k := PrunedIsSuffix(lim, items, now);
    var d := |log| - |items|;
    assert items[k..] == log[d + k..];
    forall i | 0 <= i < d + k ensures Gone(lim, log, i, now) {
      if i >= d {
        assert items[i - d] == log[i];
      } else {
        assert Gone(lim, log, i, earlier);
      }
    }
    assert k < |items| ==> items[k] == log[d + k];
  }

  lemma AddCovers(lim: Limits, items: seq<Item>, log: seq<Item>, it: Item, now: int)
    requires Covers(lim, items, log, now) && lim.size > 0
    ensures Covers(lim, LastOf(items + [it], lim.size), log + [it], now)
  {
    var log', items' := log + [it], LastOf(items + [it], lim.size);
    var d := |log'| - |items'|;
    assert items' == log'[d..];
    forall i | 0 <= i < d ensures Gone(lim, log', i, now) {
      assert i < |log| ==> log'[i] == log[i];
      assert i < |log| - |items| ==> Gone(lim, log, i, now);
    }
  }

  /** One operation keeps the cover. */
  lemma StepCovers(lim: Limits, books: Books, op: Op, key: Key, log: seq<Item>)
    requires Covers(lim, ItemsAt(books, key), log, op.at) && Ordered(log) && lim.size > 0
    ensures Covers(lim, ItemsAt(Apply(lim, books, op), key),
                   if op.Add? && op.key == key then log + [Item(op.m, op.at)] else log, op.at)
  {
    PrunedCovers(lim, ItemsAt(books, key), log, op.at, op.at);
    if op.Add? && op.key == key {
      AddCovers(lim, Pruned(lim, ItemsAt(books, key), op.at), log, Item(op.m, op.at), op.at);
    }
  }

  lemma {:induction false} RunCovers(lim: Limits, ops: seq<Op>, key: Key, now: int)
    requires InTime(ops, now) && lim.size > 0
    ensures Covers(lim, ItemsAt(Run(lim, ops), key), Log(ops, key), now)
    ensures Ordered(Log(ops, key)) && forall i :: 0 <= i < |Log(ops, key)| ==> Log(ops, key)[i].at <= now
  {
    if ops != [] {
      var before, op := ops[..|ops| - 1], ops[|ops| - 1];
      RunCovers(lim, before, key, op.at);
      StepCovers(lim, Run(lim, before), op, key, Log(before, key));
      StillCovers(lim, ItemsAt(Run(lim, ops), key), Log(ops, key), op.at, now);
    }
  }

  lemma StillCovers(lim: Limits, items: seq<Item>, log: seq<Item>, earlier: int, now: int)
    requires Covers(lim, items, log, earlier) && earlier <= now
    ensures Covers(lim, items, log, now)
  {
    forall i | 0 <= i < |log| - |items| ensures Gone(lim, log, i, now) {
      assert Gone(lim, log, i, earlier);
    }
  }

  /** History equals its log. Whatever was added, read and purged before, a read of `key` at
      `now` tells exactly the end of the key's log that is both among the last `size` entries
      and not older than the age limit, in order. */
  lemma HistoryIsItsLog(lim: Limits, ops: seq<Op>, key: Key, now: int) returns (k: nat)
    requires InTime(ops, now) && lim.size > 0
    ensures k <= |Log(ops, key)|
    ensures Pruned(lim, ItemsAt(Run(lim, ops), key), now) == Log(ops, key)[k..]
    ensures forall i :: 0 <= i < |Log(ops, key)| ==> (i >= k <==> !Gone(lim, Log(ops, key), i, now))
  {
    RunCovers(lim, ops, key, now);
    var items := ItemsAt(Run(lim, ops), key);
    PrunedCovers(lim, items, Log(ops, key), now, now);
    k := |Log(ops, key)| - |Pruned(lim, items, now)|;
  }

  function Adds(ops: seq<Op>): seq<Op> {
    if ops == [] then []
    else
      var before := Adds(ops[..|ops| - 1]);
      if ops[|ops| - 1].Add? then before + [ops[|ops| - 1]] else before
  }

  lemma {:induction false} LogOfAdds(ops: seq<Op>, key: Key, now: int)
    requires InTime(ops, now)
    ensures Log(Adds(ops), key) == Log(ops, key)
    ensures InTime(Adds(ops), now) && forall op :: op in Adds(ops) ==> op in ops
  {
    if ops != [] {
      var before, last := ops[..|ops| - 1], ops[|ops| - 1];
      assert ops == before + [last];
      LogOfAdds(before, key, last.at);
      if last.Add? {
        assert Adds(ops)[..|Adds(ops)| - 1] == Adds(before);
      }
    }
  }

  /** Reads and purges in between never change a later answer. */
  lemma ReadsAndPurgesAreInvisible(lim: Limits, ops: seq<Op>, key: Key, now: int)
    requires InTime(ops, now) && lim.size > 0
    ensures Pruned(lim, ItemsAt(Run(lim, ops), key), now) == Pruned(lim, ItemsAt(Run(lim, Adds(ops)), key), now)
  {
    LogOfAdds(ops, key, now);
    var k := HistoryIsItsLog(lim, ops, key, now);
    var l := HistoryIsItsLog(lim, Adds(ops), key, now);
    if k < |Log(ops, key)| {
      assert !Gone(lim, Log(ops, key), k, now);
    }
    if l < |Log(ops, key)| {
      assert !Gone(lim, Log(ops, key), l, now);
    }
  }

  /** Purging bounds the map: right after a purge a key is present exactly if its latest message
      is still young enough. */
  lemma PurgeForgetsQuietKeys(lim: Limits, ops: seq<Op>, key: Key, now: int)
    requires InTime(ops, now) && lim.size > 0 && lim.ttl > 0
    ensures var log := Log(ops, key);
            key in Apply(lim, Run(lim, ops), Purge(now)) <==> log != [] && now - log[|log| - 1].at <= lim.ttl
  {
    var log := Log(ops, key);
    var k := HistoryIsItsLog(lim, ops, key, now);
    if log != [] {
      assert |log| - 1 >= k <==> !Gone(lim, log, |log| - 1, now);
    }
  }

  /** A new store that is put through these operations holds what the functions say. */
  method Replay(h: HistoryStore, ops: seq<Op>)
    requires h.byKey == map[]
    modifies h
    ensures h.byKey == Run(h.lim, ops)
  {
    for i := 0 to |ops|
      invariant h.byKey == Run(h.lim, ops[..i])
    {
      assert ops[..i + 1][..i] == ops[..i];
      match ops[i]
      case Add(key, m, at) => h.AddItem(key, m, at);
      case Get(key, at) => var _ := h.GetItems(key, at);
      case Purge(at) => h.PurgeAll(at);
    }
    assert ops[..|ops|] == ops;
  }

  /** Memory follows: right after an operation touched a key, at `now`, the store keeps of it
      exactly what a reader would be told, and no empty list. */
  lemma TouchedIsPruned(lim: Limits, ops: seq<Op>, op: Op, key: Key) returns (k: nat)
    requires InTime(ops + [op], op.at) && lim.size > 0 && (op.Purge? ==> lim.ttl > 0) && (!op.Purge? ==> op.key == key)
    ensures var log, books := Log(ops + [op], key), Run(lim, ops + [op]);
            && k <= |log| && ItemsAt(books, key) == log[k..] && (key in books ==> k < |log|)
            && forall i :: 0 <= i < |log| ==> (i < k <==> Gone(lim, log, i, op.at))
  {
    var all, now := ops + [op], op.at;
    assert all[..|ops|] == ops;
    k := HistoryIsItsLog(lim, all, key, now);
    var items, log := ItemsAt(Run(lim, all), key), Log(all, key);
    var was := Pruned(lim, ItemsAt(Run(lim, ops), key), now);
    forall i | 0 <= i < |ops| ensures ops[i].at <= now {
      assert all[i] == ops[i];
    }
    RunCovers(lim, ops, key, now);
    var i := HistoryIsItsLog(lim, ops, key, now);
    if i < |Log(ops, key)| {
      assert !Gone(lim, Log(ops, key), i, now);
    }
    assert !op.Add? ==> items == was;
    if op.Add? {
      AddedIsYoung(lim, was, Item(op.m, now), now);
    }
    assert Pruned(lim, items, now) == items;
  }

  lemma AddedIsYoung(lim: Limits, items: seq<Item>, it: Item, now: int)
    requires items != [] ==> !Aged(lim, items[0], now)
    requires it.at == now && lim.size > 0 && (forall i, j :: 0 <= i <= j < |items| ==> items[i].at <= items[j].at)
    ensures var kept := LastOf(items + [it], lim.size); Pruned(lim, kept, now) == kept
  {
  }

  /** History off: nothing is ever kept. */
  lemma {:induction false} SizeZeroKeepsNothing(lim: Limits, ops: seq<Op>)
    requires lim.size <= 0
    ensures Run(lim, ops) == map[]
  {
    if ops != [] {
      SizeZeroKeepsNothing(lim, ops[..|ops| - 1]);
    }
  }

  /** What a reader is told after any operations on a new store: the messages of the key's log,
      oldest first, from the first one that is neither pushed out by `size` later ones nor older
      than `ttl`; without a positive size, nothing. */
  method ReadAfter(h: HistoryStore, ops: seq<Op>, key: Key, now: int) returns (out: seq<Message>, ghost k: nat)
    requires h.byKey == map[] && InTime(ops, now)
    modifies h
    ensures h.lim.size <= 0 ==> out == []
    ensures h.lim.size > 0 ==>
              var log := Log(ops, key);
              && k <= |log| && |out| == |log| - k
              && (forall i :: 0 <= i < |out| ==> out[i] == log[k + i].m)
              && (forall i :: 0 <= i < |log| ==> (i < k <==> Gone(h.lim, log, i, now)))
  {
    Replay(h, ops);
    k := 0;
    if h.lim.size > 0 {
      k := HistoryIsItsLog(h.lim, ops, key, now);
    }
    out := h.GetItems(key, now);
  }
}
