/** The de-duplication window of the client libraries (clients/go/goctopus.go:107-142; the
    JavaScript and Python clients repeat the algorithm). */
module Dedupe {
  import opened Collections

  /** A frame from the server: unreadable, or a message. */
  datatype Frame = Bad | Msg(id: string, payload: string)

  class Window {
    const limit: int
    var seen: set<string>
    var seenOrder: seq<string>

    /** `seen` is exactly the set of `seenOrder`, which has no duplicates and respects the limit. */
    ghost predicate Valid()
      reads this
    {
      && (forall x :: x in seen <==> x in seenOrder)
      && (forall i, j :: 0 <= i < j < |seenOrder| ==> seenOrder[i] != seenOrder[j])
      && |seenOrder| <= Capacity(limit)
    }

    constructor (limit: int)
      ensures this.limit == limit && seenOrder == [] && Valid()
    {
      this.limit := limit;
      seen, seenOrder := {}, [];
    }

    method MarkSeen(id: string) returns (isNew: bool)
      requires Valid()
      modifies this
      ensures Valid()
      ensures isNew == (id == "" || id !in old(seenOrder))
      ensures seenOrder == if id == "" || id in old(seenOrder) then old(seenOrder)
                           else LastOf(old(seenOrder) + [id], Capacity(limit))
      ensures id != "" && |old(seenOrder)| < limit ==> id in seenOrder && forall x :: x in old(seenOrder) ==> x in seenOrder
      ensures id != "" && 0 < limit <= |old(seenOrder)| ==>
                id in seenOrder && forall x :: x in old(seenOrder)[1..] ==> x in seenOrder
    {
      if id == "" {
        return true;
      }
      if id in seen {
        return false;
      }
      seen := seen + {id};
      seenOrder := seenOrder + [id];
      if |seenOrder| > limit {
        var oldest := seenOrder[0];
        assert forall x :: x in seenOrder <==> x == oldest || x in seenOrder[1..];
        seenOrder := seenOrder[1..];
        seen := seen - {oldest};
      }
      return true;
    }

    /** One session: acknowledge each message, then hand it over unless it was seen. `acks` says
        how many ACKs can be sent before the connection breaks. */
    method Session(frames: seq<Frame>, acks: nat) returns (acked: seq<string>, handed: seq<Frame>)
      requires Valid()
      modifies this
      ensures Valid()
      ensures exists n: nat :: n <= |frames| && acked == IdsOf(frames[..n]) && |acked| <= acks
                && (n < |frames| ==> |acked| == acks && frames[n].Msg?)
                && handed == Handed(old(seenOrder), frames[..n], Capacity(limit))
                && seenOrder == Remembered(old(seenOrder), frames[..n], Capacity(limit))
      ensures forall f :: f in handed ==> f.Msg? && f in frames && f.id in acked
    {
      acked, handed := [], [];
      var i := 0;
      while i < |frames|
        invariant 0 <= i <= |frames| && Valid() && acked == IdsOf(frames[..i]) && |acked| <= acks
        invariant handed == Handed(old(seenOrder), frames[..i], Capacity(limit))
        invariant seenOrder == Remembered(old(seenOrder), frames[..i], Capacity(limit))
        invariant forall f :: f in handed ==> f.Msg? && f in frames && f.id in acked
      {
        assert frames[..i + 1][..i] == frames[..i];
        if frames[i].Msg? {
          if |acked| == acks {
            return;
          }
          acked := acked + [frames[i].id];
          var isNew := MarkSeen(frames[i].id);
          if isNew {
            handed := handed + [frames[i]];
          }
        }
        i := i + 1;
      }
    }

    /** The sessions of a client, one after each connect; the window outlives them. */
    method Run(sessions: seq<seq<Frame>>, acks: seq<nat>) returns (handed: seq<Frame>)
      requires Valid() && |acks| == |sessions|
      modifies this
      ensures Valid()
      ensures exists ns: seq<nat> :: IsCut(sessions, ns)
                && handed == Handed(old(seenOrder), Joined(sessions, ns), Capacity(limit))
                && seenOrder == Remembered(old(seenOrder), Joined(sessions, ns), Capacity(limit))
      ensures old(seenOrder) == [] && limit >= 0 ==>
                seenOrder == LastOf(Named(handed), limit) && Spread(Named(handed), limit)
    {
      handed := [];
      ghost var ns: seq<nat> := [];
      for i := 0 to |sessions|
        invariant Valid() && IsCut(sessions[..i], ns)
        invariant handed == Handed(old(seenOrder), Joined(sessions[..i], ns), Capacity(limit))
        invariant seenOrder == Remembered(old(seenOrder), Joined(sessions[..i], ns), Capacity(limit))
      {
        ghost var before, window := Joined(sessions[..i], ns), seenOrder;
        var _, more := Session(sessions[i], acks[i]);
        ghost var n: nat :| n <= |sessions[i]| && more == Handed(window, sessions[i][..n], Capacity(limit))
          && seenOrder == Remembered(window, sessions[i][..n], Capacity(limit));
        SessionsJoin(old(seenOrder), before, sessions[i][..n], Capacity(limit));
        JoinedStep(sessions[..i], ns, sessions[i], n);
        assert sessions[..i + 1] == sessions[..i] + [sessions[i]];
        handed, ns := handed + more, ns + [n];
      }
      assert sessions[..|sessions|] == sessions;
      WindowIsLastHanded(Joined(sessions, ns), Capacity(limit));
      HandedAreSpread(Joined(sessions, ns), Capacity(limit));
    }

    /** A client that is shown these ids, whatever the sessions they come in. */
    method MarkAll(ids: seq<string>) returns (answers: seq<bool>)
      requires Valid() && seenOrder == [] && limit >= 0
      modifies this
      ensures Valid() && |answers| == |ids| && Discerning(ids, answers, limit)
    {
      answers := [];
      for i := 0 to |ids|
        invariant Valid() && |answers| == i && Judged(ids[..i], answers)
      {
        var isNew := MarkNext(ids[..i], answers, ids[i]);
        assert ids[..i + 1] == ids[..i] + [ids[i]];
        answers := answers + [isNew];
      }
      assert ids[..|ids|] == ids;
    }

    ghost predicate Judged(ids: seq<string>, answers: seq<bool>)
      requires |ids| == |answers|
      reads this
    {
      limit >= 0 && seenOrder == LastOf(NewOnes(ids, answers), limit) && Discerning(ids, answers, limit)
    }

    method MarkNext(ghost ids: seq<string>, ghost answers: seq<bool>, id: string) returns (isNew: bool)
      requires |ids| == |answers| && Valid() && Judged(ids, answers)
      modifies this
      ensures Valid() && Judged(ids + [id], answers + [isNew])
    {
      isNew := MarkSeen(id);
      NewOnesAppend(ids, answers, id, isNew);
      LastOfAppend(NewOnes(ids, answers), id, limit);
      DiscerningAppend(ids, answers, id, isNew, limit);
    }
  }

  // ------------------------------------------------------------ specification

  function Capacity(limit: int): nat {
    if limit < 0 then 0 else limit
  }

  /** The non-empty ids that were new. */
  function NewOnes(ids: seq<string>, answers: seq<bool>): seq<string>
    requires |ids| == |answers|
  {
    if ids == [] then []
    else
      var n := |ids| - 1;
      var before := NewOnes(ids[..n], answers[..n]);
      if answers[n] && ids[n] != "" then before + [ids[n]] else before
  }

  /** An id counts as new exactly if it is empty or not among the last `limit` ids that did. */
  ghost predicate Discerning(ids: seq<string>, answers: seq<bool>, limit: nat)
    requires |ids| == |answers|
  {
    forall i :: 0 <= i < |ids| ==>
      (answers[i] <==> ids[i] == "" || ids[i] !in LastOf(NewOnes(ids[..i], answers[..i]), limit))
  }

  lemma DiscerningAppend(ids: seq<string>, answers: seq<bool>, id: string, isNew: bool, limit: nat)
    requires |ids| == |answers| && Discerning(ids, answers, limit)
    requires isNew <==> id == "" || id !in LastOf(NewOnes(ids, answers), limit)
    ensures Discerning(ids + [id], answers + [isNew], limit)
  {
    var all, told := ids + [id], answers + [isNew];
    forall i | 0 <= i < |all|
      ensures told[i] <==> all[i] == "" || all[i] !in LastOf(NewOnes(all[..i], told[..i]), limit)
    {
      if i < |ids| {
        assert all[..i] == ids[..i] && told[..i] == answers[..i];
      } else {
        assert all[..i] == ids && told[..i] == answers;
      }
    }
  }

  lemma NewOnesAppend(ids: seq<string>, answers: seq<bool>, id: string, isNew: bool)
    requires |ids| == |answers|
    ensures NewOnes(ids + [id], answers + [isNew])
         == if isNew && id != "" then NewOnes(ids, answers) + [id] else NewOnes(ids, answers)
  {
    assert (ids + [id])[..|ids|] == ids && (answers + [isNew])[..|answers|] == answers;
  }

  function IdsOf(frames: seq<Frame>): seq<string> {
    if frames == [] then []
    else
      var before, f := IdsOf(frames[..|frames| - 1]), frames[|frames| - 1];
      if f.Msg? then before + [f.id] else before
  }

  /** The window after these frames. */
  function Remembered(window: seq<string>, frames: seq<Frame>, n: nat): seq<string> {
    if frames == [] then window
    else
      var before, f := Remembered(window, frames[..|frames| - 1], n), frames[|frames| - 1];
      if f.Bad? || f.id == "" || f.id in before then before else LastOf(before + [f.id], n)
  }

  /** The messages handed to the application. */
  function Handed(window: seq<string>, frames: seq<Frame>, n: nat): seq<Frame> {
    if frames == [] then []
    else
      var before, f := Handed(window, frames[..|frames| - 1], n), frames[|frames| - 1];
      if f.Bad? || (f.id != "" && f.id in Remembered(window, frames[..|frames| - 1], n)) then before
      else before + [f]
  }

  /** How far each session got. */
  ghost predicate IsCut(sessions: seq<seq<Frame>>, ns: seq<nat>) {
    |ns| == |sessions| && forall i :: 0 <= i < |ns| ==> ns[i] <= |sessions[i]|
  }

  /** Everything the sessions processed, in one sequence. */
  ghost function Joined(sessions: seq<seq<Frame>>, ns: seq<nat>): seq<Frame>
    requires IsCut(sessions, ns)
  {
    if sessions == [] then []
    else
      var k := |sessions| - 1;
      Joined(sessions[..k], ns[..k]) + sessions[k][..ns[k]]
  }

  lemma JoinedStep(sessions: seq<seq<Frame>>, ns: seq<nat>, session: seq<Frame>, n: nat)
    requires IsCut(sessions, ns) && n <= |session|
    ensures IsCut(sessions + [session], ns + [n])
    ensures Joined(sessions + [session], ns + [n]) == Joined(sessions, ns) + session[..n]
  {
    assert (sessions + [session])[..|sessions|] == sessions && (ns + [n])[..|ns|] == ns;
  }

  /** The non-empty ids among the messages handed over, in order. */
  function Named(handed: seq<Frame>): seq<string> {
    if handed == [] then []
    else
      var before, f := Named(handed[..|handed| - 1]), handed[|handed| - 1];
      if f.Msg? && f.id != "" then before + [f.id] else before
  }

  // ------------------------------------------------------------------ results

  /** One ACK for each readable frame, with its id, in the order of the frames. */
  lemma {:induction false} EveryMessageIsAcked(frames: seq<Frame>, i: nat)
    requires i < |frames|
    ensures frames[i].Msg? ==> |IdsOf(frames[..i])| < |IdsOf(frames)| && IdsOf(frames)[|IdsOf(frames[..i])|] == frames[i].id
    ensures frames[i].Bad? ==> IdsOf(frames[..i + 1]) == IdsOf(frames[..i])
    ensures |IdsOf(frames)| <= |frames|
  {
    assert frames[..i + 1][..i] == frames[..i];
    var n := |frames| - 1;
    if i < n {
      EveryMessageIsAcked(frames[..n], i);
      assert frames[..n][..i] == frames[..i];
    } else {
      AtMostOneEach(frames);
    }
  }

  lemma {:induction false} AtMostOneEach(frames: seq<Frame>)
    ensures |IdsOf(frames)| <= |frames|
  {
    if frames != [] {
      AtMostOneEach(frames[..|frames| - 1]);
    }
  }

  /** A session goes on where the one before it stopped: processing frames in two sessions is
      processing them in one. */
  lemma {:induction false} SessionsJoin(window: seq<string>, a: seq<Frame>, b: seq<Frame>, n: nat)
    ensures Remembered(window, a + b, n) == Remembered(Remembered(window, a, n), b, n)
    ensures Handed(window, a + b, n) == Handed(window, a, n) + Handed(Remembered(window, a, n), b, n)
  {
    if b == [] {
      assert a + b == a;
    } else {
      SessionsJoin(window, a, b[..|b| - 1], n);
      assert (a + b)[..|a + b| - 1] == a + b[..|b| - 1];
    }
  }

  /** Over all the sessions of a client, whatever they deliver again and however far each gets:
      the window is the last ids handed over, and any limit + 1 consecutive ones are distinct. */
  lemma LifetimeIsSpread(sessions: seq<seq<Frame>>, ns: seq<nat>, n: nat)
    requires IsCut(sessions, ns)
    ensures var all := Joined(sessions, ns);
            && Remembered([], all, n) == LastOf(Named(Handed([], all, n)), n)
            && Spread(Named(Handed([], all, n)), n)
  {
    WindowIsLastHanded(Joined(sessions, ns), n);
    HandedAreSpread(Joined(sessions, ns), n);
  }

  lemma LastOfAppend<T>(s: seq<T>, x: T, n: nat)
    ensures LastOf(LastOf(s, n) + [x], n) == LastOf(s + [x], n)
  {
  }

  lemma NamedAppend(handed: seq<Frame>, f: Frame)
    ensures Named(handed + [f]) == if f.Msg? && f.id != "" then Named(handed) + [f.id] else Named(handed)
  {
    assert (handed + [f])[..|handed|] == handed;
  }

  /** From an empty window on, under any redelivery pattern: the window holds exactly the last
      `n` ids handed over, and an id is handed over exactly when it is not among them. */
  lemma {:induction false} WindowIsLastHanded(frames: seq<Frame>, n: nat)
    ensures Remembered([], frames, n) == LastOf(Named(Handed([], frames, n)), n)
  {
    if frames != [] {
      var p, f := frames[..|frames| - 1], frames[|frames| - 1];
      WindowIsLastHanded(p, n);
      var w, h := Remembered([], p, n), Handed([], p, n);
      NamedAppend(h, f);
      if f.Msg? && (f.id == "" || f.id !in w) {
        assert Handed([], frames, n) == h + [f];
        LastOfAppend(Named(h), f.id, n);
      } else {
        assert Handed([], frames, n) == h;
      }
    }
  }

  /** No id occurs twice at a distance of `n` or less. */
  ghost predicate Spread(ids: seq<string>, n: nat) {
    forall i, j :: 0 <= i < j < |ids| && j - i <= n ==> ids[i] != ids[j]
  }

  lemma SpreadAppend(ids: seq<string>, id: string, n: nat)
    requires Spread(ids, n) && id !in LastOf(ids, n)
    ensures Spread(ids + [id], n)
  {
    var all := ids + [id];
    forall i, j | 0 <= i < j < |all| && j - i <= n ensures all[i] != all[j] {
      if j == |ids| {
        var last := LastOf(ids, n);
        assert last[i - (|ids| - |last|)] == ids[i];
      }
    }
  }

  /** Any limit + 1 consecutive non-empty ids handed to the application are pairwise distinct. */
  lemma {:induction false} HandedAreSpread(frames: seq<Frame>, n: nat)
    ensures Spread(Named(Handed([], frames, n)), n)
  {
    if frames != [] {
      var p, f := frames[..|frames| - 1], frames[|frames| - 1];
      HandedAreSpread(p, n);
      WindowIsLastHanded(p, n);
      var h := Handed([], p, n);
      NamedAppend(h, f);
      if f.Msg? && f.id != "" && f.id !in Remembered([], p, n) {
        SpreadAppend(Named(h), f.id, n);
      }
    }
  }

  /** When exactly the next message is handed over: if it has no id, or its id is not among the
      last `n` handed over. So a redelivery after `n` other ids is handed over again. */
  lemma HandedExactlyWhen(frames: seq<Frame>, id: string, payload: string, n: nat)
    ensures var before := Handed([], frames, n);
            Handed([], frames + [Msg(id, payload)], n)
            == if id == "" || id !in LastOf(Named(before), n) then before + [Msg(id, payload)] else before
  {
    assert (frames + [Msg(id, payload)])[..|frames|] == frames;
    WindowIsLastHanded(frames, n);
  }
}
