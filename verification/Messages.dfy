/** Messages, topics and the stored form of a message (src/message.go, src/topics.go).

    Instants and durations are whole nanoseconds. A payload is an opaque string. */
module Messages {

  type Key = string

  /** A 128-bit uuid; only its identity matters here. */
  datatype Uuid = Uuid(bits: nat)

  /** `expire` is the duration that the textual field parses to. */
  datatype Message = Message(
    id: Uuid,
    key: Key,
    keys: seq<Key>,
    messageId: string,
    value: string,
    expire: int,
    date: int)
  {
    predicate Expired(now: int) {
      expire < now - date
    }
  }

  /** Expiry is a matter of age: a message lives `expire` nanoseconds, the last one included,
      from whatever instant it dates. */
  lemma ExpiryIsAge(m: Message, now: int, shift: int)
    ensures m.Expired(now) <==> m.date + m.expire < now
    ensures m.(date := m.date + shift).Expired(now + shift) == m.Expired(now)
    ensures m.(date := now).Expired(now) <==> m.expire < 0
  {
  }

  // ---------------------------------------------------------------- topics

  /** The glob matcher `path.Match` lives outside the repository, so it is a parameter. */
  type Glob = (string, string) -> bool

  predicate HasWildcard(key: Key) {
    '*' in key || '?' in key || '[' in key
  }

  predicate KeyMatches(glob: Glob, pattern: Key, key: Key) {
    if !HasWildcard(pattern) then pattern == key else glob(pattern, key)
  }

  /** A message published to `key` goes to a connection registered under `keys`: the key is
      listed literally, or one of the wildcard keys matches it. */
  predicate Receives(glob: Glob, keys: seq<Key>, key: Key) {
    key in keys || exists p :: p in keys && HasWildcard(p) && KeyMatches(glob, p, key)
  }

  /** A backlog flush of `keys` reaches `key`: only matching counts, a literal
      occurrence of a key with wildcard characters does not. */
  predicate Covers(glob: Glob, keys: seq<Key>, key: Key) {
    exists p :: p in keys && KeyMatches(glob, p, key)
  }

  /** All that is known of `path.Match`: without one of its special characters a pattern matches
      itself only. */
  ghost predicate Literal(glob: Glob) {
    forall p, k :: !('*' in p || '?' in p || '[' in p || '\\' in p) ==> (glob(p, k) <==> p == k)
  }

  /** Matching is the glob, pattern first, but for a key whose only special character is the
      backslash: it matches itself, although as a pattern it would not. */
  lemma MatchingIsGlob(glob: Glob, p: Key, k: Key)
    ensures '*' in p || '?' in p || '[' in p ==> (KeyMatches(glob, p, k) <==> glob(p, k))
    ensures !('*' in p || '?' in p || '[' in p) ==> (KeyMatches(glob, p, k) <==> p == k)
    ensures Literal(glob) && '\\' !in p ==> (KeyMatches(glob, p, k) <==> glob(p, k))
  {
  }

  /** Whom a message and whom a backlog flush reaches, in terms of the glob alone. */
  lemma ReachingIsGlob(glob: Glob, keys: seq<Key>, key: Key)
    requires Literal(glob) && forall p :: p in keys ==> '\\' !in p
    ensures Receives(glob, keys, key) <==> key in keys || exists p :: p in keys && glob(p, key)
    ensures Covers(glob, keys, key) <==> exists p :: p in keys && glob(p, key)
  {
    forall p | p in keys ensures KeyMatches(glob, p, key) <==> glob(p, key) {
      MatchingIsGlob(glob, p, key);
    }
    if p :| p in keys && glob(p, key) && !HasWildcard(p) {
      assert p == key;
    }
  }

  lemma CoversImpliesReceives(glob: Glob, keys: seq<Key>, key: Key)
    requires Covers(glob, keys, key)
    ensures Receives(glob, keys, key)
  {
    var p :| p in keys && KeyMatches(glob, p, key);
    assert !HasWildcard(p) ==> p == key;
  }

  /** The two notions differ only for a key that looks like a pattern and does not match itself. */
  lemma ReceivesImpliesCovers(glob: Glob, keys: seq<Key>, key: Key)
    requires Receives(glob, keys, key) && KeyMatches(glob, key, key)
    ensures Covers(glob, keys, key)
  {
    if key !in keys {
      var p :| p in keys && HasWildcard(p) && KeyMatches(glob, p, key);
    }
  }

  // ------------------------------------------------------- fan-out targets

  /** First occurrences of the non-empty strings of `ks`, in order. */
  function Distinct(ks: seq<Key>): seq<Key> {
    if ks == [] then []
    else
      var before := Distinct(ks[..|ks| - 1]);
      var k := ks[|ks| - 1];
      if k != "" && k !in before then before + [k] else before
  }

  predicate NoDuplicates<T(==)>(s: seq<T>) {
    forall i, j :: 0 <= i < j < |s| ==> s[i] != s[j]
  }

  lemma {:induction false} DistinctIsASet(ks: seq<Key>)
    ensures NoDuplicates(Distinct(ks))
    ensures forall k :: k in Distinct(ks) <==> k != "" && k in ks
  {
    if ks != [] {
      var prefix, last := ks[..|ks| - 1], ks[|ks| - 1];
      DistinctIsASet(prefix);
      assert ks == prefix + [last];
    }
  }

  /** The fan-out set of a message: the single key plus any further keys, once each. */
  method Targets(m: Message) returns (out: seq<Key>)
    ensures out == Distinct([m.key] + m.keys)
    ensures NoDuplicates(out)
    ensures forall k :: k in out <==> k != "" && (k == m.key || k in m.keys)
  {
    var all := [m.key] + m.keys;
    var seen: set<Key> := {};
    out := [];
    for i := 0 to |all|
      invariant out == Distinct(all[..i])
      invariant forall k :: k in seen <==> k in out
    {
      assert all[..i + 1][..i] == all[..i];
      if all[i] != "" && all[i] !in seen {
        seen := seen + {all[i]};
        out := out + [all[i]];
      }
    }
    assert all[..|all|] == all;
    DistinctIsASet(all);
  }

  // ----------------------------------------------------------- stored form

  /** What persistent storage keeps of a message: its fan-out keys and the caller's
      message id are not part of it. */
  datatype Stored = Stored(id: Uuid, key: Key, value: string, expire: int, date: int)

  function Encode(m: Message): Stored {
    Stored(m.id, m.key, m.value, m.expire, m.date)
  }

  function Decode(s: Stored): Message {
    Message(s.id, s.key, [], "", s.value, s.expire, s.date)
  }

  /** The part of a message that survives a trip through persistent storage. */
  function Slim(m: Message): Message {
    m.(keys := [], messageId := "")
  }

  /** The round trip keeps everything delivery and expiry look at, and loses exactly the
      fan-out keys and the caller-supplied message id. */
  lemma StoredRoundTrip(m: Message)
    ensures Decode(Encode(m)) == Slim(m)
    ensures Decode(Encode(m)) == m <==> m.keys == [] && m.messageId == ""
    ensures forall now :: Decode(Encode(m)).Expired(now) == m.Expired(now)
  {
  }
}
