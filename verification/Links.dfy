/** One websocket connection as the delivery engine sees it (src/client.go:26-132): which message
    ids are in flight, for which storage key, and whether the connection is closed. */
module Links {
  import opened Messages

  datatype Link = Link(closed: bool, inflight: map<Uuid, Key>)

  const OPEN := Link(false, map[])

  predicate CanMark(l: Link, id: Uuid) {
    !l.closed && id !in l.inflight
  }

  function Mark(l: Link, id: Uuid, key: Key): Link {
    if CanMark(l, id) then l.(inflight := l.inflight[id := key]) else l
  }

  /** Both `takeInflight` and `clearInflight` forget the id. */
  function Forget(l: Link, id: Uuid): Link {
    l.(inflight := l.inflight - {id})
  }

  function Shut(l: Link): Link {
    l.(closed := true)
  }

  /** The whole of one loop turn of a flush for one connection: mark, write, and on a failed
      write clear the mark and close. */
  function OfferOne(l: Link, id: Uuid, key: Key, ok: bool): Link {
    if !CanMark(l, id) then l
    else if ok then Mark(l, id, key)
    else Shut(Forget(Mark(l, id, key), id))
  }

  class Client {
    const keys: seq<Key>
    var inflight: map<Uuid, Key>
    var closed: bool

    function View(): Link
      reads this
    {
      Link(closed, inflight)
    }

    constructor (keys: seq<Key>)
      ensures View() == OPEN && this.keys == keys
    {
      this.keys := keys;
      inflight := map[];
      closed := false;
    }

    method MarkInflight(id: Uuid, key: Key) returns (marked: bool)
      modifies this
      ensures marked == old(CanMark(View(), id))
      ensures View() == Mark(old(View()), id, key)
      ensures closed == old(closed) && (marked <==> !closed && id !in old(inflight))
      ensures inflight == if marked then old(inflight)[id := key] else old(inflight)
    {
      if closed {
        return false;
      }
      if id in inflight {
        return false;
      }
      inflight := inflight[id := key];
      return true;
    }

    method TakeInflight(id: Uuid) returns (key: Key, ok: bool)
      modifies this
      ensures ok == old(id in inflight) && (ok ==> key == old(inflight)[id])
      ensures View() == Forget(old(View()), id)
      ensures closed == old(closed) && inflight == old(inflight) - {id}
    {
      key, ok := "", id in inflight;
      if ok {
        key := inflight[id];
        inflight := inflight - {id};
      }
    }

    method ClearInflight(id: Uuid)
      modifies this
      ensures View() == Forget(old(View()), id)
      ensures closed == old(closed) && inflight == old(inflight) - {id}
    {
      inflight := inflight - {id};
    }

    method Close()
      modifies this
      ensures View() == Shut(old(View()))
      ensures closed && inflight == old(inflight)
    {
      if closed {
        return;
      }
      closed := true;
    }
  }
}
