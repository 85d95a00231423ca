/** The token-bucket limiter (src/ratelimit.go). Token counts and instants are real numbers;
    instants are seconds on a clock that does not run backwards. */
module RateLimiters {
  import opened Collections

  datatype Bucket = Bucket(tokens: real, last: real)

  type Buckets = map<string, Bucket>

  /** `every` is the number of calls between purges. */
  datatype Params = Params(rate: real, burst: real, every: nat)

  ghost predicate Sane(p: Params) {
    p.rate > 0.0 && p.burst >= 1.0 && p.every > 0
  }

  function Grown(p: Params, b: Bucket, now: real): real {
    b.tokens + (now - b.last) * p.rate
  }

  function Refilled(p: Params, b: Bucket, now: real): real {
    var t := Grown(p, b, now);
    if t > p.burst then p.burst else t
  }

  /** The tokens an event of `key` finds. */
  function Found(p: Params, bs: Buckets, key: string, now: real): real {
    if key in bs then Refilled(p, bs[key], now) else p.burst
  }

  function Taken(p: Params, bs: Buckets, key: string, now: real): Buckets {
    var t := Found(p, bs, key, now);
    bs[key := Bucket(if t >= 1.0 then t - 1.0 else t, now)]
  }

  function Purged(p: Params, bs: Buckets, now: real): Buckets {
    map k | k in bs && Grown(p, bs[k], now) < p.burst :: bs[k]
  }

  class RateLimiter {
    const p: Params
    var buckets: Buckets
    var ops: nat

    constructor (rate: real, burst: int)
      ensures p == Params(rate, if burst as real < 1.0 then 1.0 else burst as real, 1024)
      ensures buckets == map[] && ops == 0
      ensures rate > 0.0 ==> Sane(p)
    {
      p := Params(rate, if burst as real < 1.0 then 1.0 else burst as real, 1024);
      buckets := map[];
      ops := 0;
    }

    method Allow(key: string, now: real) returns (ok: bool)
      requires p.every > 0
      modifies this
      ensures ops == old(ops) + 1
      ensures var bs := if ops % p.every == 0 then Purged(p, old(buckets), now) else old(buckets);
              ok == (Found(p, bs, key, now) >= 1.0) && buckets == Taken(p, bs, key, now)
    {
      ops := ops + 1;
      if ops % p.every == 0 {
        Purge(now);
      }
      var b: Bucket;
      if key !in buckets {
        b := Bucket(p.burst, now);
      } else {
        b := buckets[key];
        b := b.(tokens := b.tokens + (now - b.last) * p.rate);
        if b.tokens > p.burst {
          b := b.(tokens := p.burst);
        }
        b := b.(last := now);
      }
      ok := b.tokens >= 1.0;
      if ok {
        b := b.(tokens := b.tokens - 1.0);
      }
      buckets := buckets[key := b];
    }

    method Purge(now: real)
      modifies this`buckets
      ensures buckets == Purged(p, old(buckets), now)
    {
      var left := buckets.Keys;
      while left != {}
        invariant left <= old(buckets).Keys
        invariant buckets == map k | k in old(buckets) && (k in left || Grown(p, old(buckets)[k], now) < p.burst) :: old(buckets)[k]
        decreases left
      {
        var k :| k in left;
        if Grown(p, buckets[k], now) >= p.burst {
          buckets := buckets - {k};
        }
        left := left - {k};
      }
    }
  }

  // --------------------------------------------------------------------- runs

  datatype Event = Event(key: string, at: real)

  ghost predicate Chronological(evs: seq<Event>) {
    forall i, j :: 0 <= i <= j < |evs| ==> evs[i].at <= evs[j].at
  }

  /** The buckets after the first `n` calls; with purging, and without. */
  function Kept(p: Params, evs: seq<Event>, n: nat): Buckets
    requires n <= |evs| && p.every > 0
    decreases n, 0
  {
    if n == 0 then map[]
    else Taken(p, AtCall(p, evs, n - 1), evs[n - 1].key, evs[n - 1].at)
  }

  /** What call number `n` (counted from 0) works on, after its purge if it does one. */
  function AtCall(p: Params, evs: seq<Event>, n: nat): Buckets
    requires n < |evs| && p.every > 0
    decreases n, 1
  {
    var bs := Kept(p, evs, n);
    if (n + 1) % p.every == 0 then Purged(p, bs, evs[n].at) else bs
  }

  function Answer(p: Params, evs: seq<Event>, n: nat): bool
    requires n < |evs| && p.every > 0
  {
    Found(p, AtCall(p, evs, n), evs[n].key, evs[n].at) >= 1.0
  }

  function Full(p: Params, evs: seq<Event>, n: nat): Buckets
    requires n <= |evs|
  {
    if n == 0 then map[]
    else Taken(p, Full(p, evs, n - 1), evs[n - 1].key, evs[n - 1].at)
  }

  function FullAnswer(p: Params, evs: seq<Event>, n: nat): bool
    requires n < |evs|
  {
    Found(p, Full(p, evs, n), evs[n].key, evs[n].at) >= 1.0
  }

  /** A new limiter that serves a sequence of calls gives these answers and holds these buckets. */
  method Serve(rl: RateLimiter, evs: seq<Event>) returns (answers: seq<bool>)
    requires rl.p.every > 0 && rl.buckets == map[] && rl.ops == 0
    modifies rl
    ensures rl.buckets == Kept(rl.p, evs, |evs|)
    ensures |answers| == |evs| && forall n :: 0 <= n < |evs| ==> answers[n] == Answer(rl.p, evs, n)
  {
    answers := [];
    for n := 0 to |evs|
      invariant rl.ops == n && rl.buckets == Kept(rl.p, evs, n)
      invariant |answers| == n && forall i :: 0 <= i < n ==> answers[i] == Answer(rl.p, evs, i)
    {
      var ok := rl.Allow(evs[n].key, evs[n].at);
      answers := answers + [ok];
    }
  }

  // ------------------------------------------------------ purging is invisible

  /** A bucket missing on the left is full on the right, at `now` and ever after. */
  ghost predicate Simulates(p: Params, bs: Buckets, full: Buckets, now: real) {
    && (forall k :: k in bs ==> k in full && full[k] == bs[k])
    && (forall k :: k in full && k !in bs ==> Grown(p, full[k], now) >= p.burst)
  }

  lemma RefillGrows(p: Params, b: Bucket, now: real, later: real)
    requires p.rate > 0.0 && now <= later
    ensures Grown(p, b, now) <= Grown(p, b, later)
  {
    assert (later - now) * p.rate >= 0.0;
  }

  lemma SimulatesLater(p: Params, bs: Buckets, full: Buckets, now: real, later: real)
    requires Sane(p) && Simulates(p, bs, full, now) && now <= later
    ensures Simulates(p, bs, full, later)
    ensures Simulates(p, Purged(p, bs, later), full, later)
    ensures forall k :: Found(p, bs, k, later) == Found(p, full, k, later)
    ensures forall k :: Found(p, Purged(p, bs, later), k, later) == Found(p, full, k, later)
  {
    forall k | k in full && k !in bs ensures Grown(p, full[k], later) >= p.burst {
      RefillGrows(p, full[k], now, later);
    }
  }

  lemma TakenSimulates(p: Params, bs: Buckets, full: Buckets, key: string, now: real)
    requires Simulates(p, bs, full, now) && Found(p, bs, key, now) == Found(p, full, key, now)
    ensures Simulates(p, Taken(p, bs, key, now), Taken(p, full, key, now), now)
  {
  }

  lemma {:induction false} RunSimulates(p: Params, evs: seq<Event>, n: nat)
    requires Sane(p) && Chronological(evs) && n < |evs|
    ensures Simulates(p, AtCall(p, evs, n), Full(p, evs, n), evs[n].at)
    ensures forall k :: Found(p, AtCall(p, evs, n), k, evs[n].at) == Found(p, Full(p, evs, n), k, evs[n].at)
  {
    if n == 0 {
      SimulatesLater(p, map[], map[], evs[0].at, evs[0].at);
    } else {
      RunSimulates(p, evs, n - 1);
      TakenSimulates(p, AtCall(p, evs, n - 1), Full(p, evs, n - 1), evs[n - 1].key, evs[n - 1].at);
      SimulatesLater(p, Kept(p, evs, n), Full(p, evs, n), evs[n - 1].at, evs[n].at);
    }
  }

  /** For every sequence of calls on any keys, purging changes no answer. */
  lemma PurgingIsInvisible(p: Params, evs: seq<Event>, n: nat)
    requires Sane(p) && Chronological(evs) && n < |evs|
    ensures Answer(p, evs, n) == FullAnswer(p, evs, n)
  {
    RunSimulates(p, evs, n);
  }

  // ---------------------------------------------------------- the closed form

  /** How many calls for `key` numbered from `i` up to but not including `n` were allowed. */
  function Allowed(p: Params, evs: seq<Event>, key: string, i: nat, n: nat): nat
    requires n <= |evs| && p.every > 0
  {
    if n <= i then 0
    else Allowed(p, evs, key, i, n - 1) + (if evs[n - 1].key == key && Answer(p, evs, n - 1) then 1 else 0)
  }

  /** The bound that call `j` puts on the tokens left for its key at `now`, after `n` calls. */
  function Bound(p: Params, evs: seq<Event>, n: nat, now: real, j: nat): real
    requires j < n <= |evs| && p.every > 0
  {
    p.burst + Gained(p, evs[j].at, now) - Allowed(p, evs, evs[j].key, j, n) as real
  }

  function Gained(p: Params, from: real, to: real): real {
    p.rate * (to - from)
  }

  lemma GainedAdds(p: Params, from: real, mid: real, to: real)
    ensures Gained(p, from, to) == Gained(p, from, mid) + Gained(p, mid, to)
  {
  }

  lemma GainedIsPositive(p: Params, from: real, to: real)
    requires p.rate > 0.0 && from <= to
    ensures Gained(p, from, to) >= 0.0
  {
  }

  /** `tokens` is the least of `burst` and the bounds of the first `n` calls that count. */
  ghost predicate IsLeast(burst: real, n: nat, counts: nat -> bool, bound: nat -> real, tokens: real) {
    && tokens <= burst
    && (forall j: nat :: j < n && counts(j) ==> tokens <= bound(j))
    && (tokens == burst || exists j: nat :: j < n && counts(j) && tokens == bound(j))
  }

  function CountsFor(evs: seq<Event>, key: string): nat -> bool {
    (j: nat) => j < |evs| && evs[j].key == key
  }

  function BoundsAt(p: Params, evs: seq<Event>, n: nat, now: real): nat -> real
    requires n <= |evs| && p.every > 0
  {
    (j: nat) => if j < n then Bound(p, evs, n, now, j) else 0.0
  }

  /** A call that counts takes `a` tokens, and `g` are gained until the next instant. */
  lemma LeastStep(burst: real, n: nat, counts: nat -> bool, bound: nat -> real, bound': nat -> real,
                  tokens: real, a: real, g: real)
    requires IsLeast(burst, n, counts, bound, tokens) && counts(n)
    requires forall j: nat :: j < n && counts(j) ==> bound'(j) == bound(j) - a + g
    requires bound'(n) == burst - a + g
    ensures IsLeast(burst, n + 1, counts, bound', if tokens - a + g > burst then burst else tokens - a + g)
  {
    if j: nat :| j < n && counts(j) && tokens == bound(j) {
      assert tokens - a + g == bound'(j);
    }
  }

  lemma LeastKept(burst: real, n: nat, counts: nat -> bool, bound: nat -> real, bound': nat -> real, tokens: real)
    requires IsLeast(burst, n, counts, bound, tokens) && !counts(n)
    requires forall j: nat :: j < n && counts(j) ==> bound'(j) == bound(j)
    ensures IsLeast(burst, n + 1, counts, bound', tokens)
  {
    if j: nat :| j < n && counts(j) && tokens == bound(j) {
      assert tokens == bound'(j);
    }
  }

  lemma LeastAtLeastOne(burst: real, n: nat, counts: nat -> bool, bound: nat -> real, tokens: real)
    requires IsLeast(burst, n, counts, bound, tokens) && burst >= 1.0
    ensures tokens >= 1.0 <==> forall j: nat :: j < n && counts(j) ==> bound(j) >= 1.0
  {
  }

  /** One more call moves the bounds of the calls before it. */
  lemma BoundStep(p: Params, evs: seq<Event>, n: nat, now: real, j: nat)
    requires p.every > 0 && j < n < |evs|
    ensures evs[j].key == evs[n].key ==>
              Bound(p, evs, n + 1, now, j)
              == Bound(p, evs, n, evs[n].at, j) - (if Answer(p, evs, n) then 1.0 else 0.0) + Gained(p, evs[n].at, now)
    ensures evs[j].key != evs[n].key ==> Bound(p, evs, n + 1, now, j) == Bound(p, evs, n, now, j)
  {
    GainedAdds(p, evs[j].at, evs[n].at, now);
  }

  lemma BoundOwn(p: Params, evs: seq<Event>, n: nat, now: real)
    requires p.every > 0 && n < |evs|
    ensures Bound(p, evs, n + 1, now, n)
         == p.burst - (if Answer(p, evs, n) then 1.0 else 0.0) + Gained(p, evs[n].at, now)
  {
    assert Allowed(p, evs, evs[n].key, n, n) == 0;
  }

  lemma FoundAfterOwn(p: Params, bs: Buckets, key: string, at: real, now: real)
    ensures var t := Found(p, bs, key, at);
            var left := t - (if t >= 1.0 then 1.0 else 0.0) + Gained(p, at, now);
            Found(p, Taken(p, bs, key, at), key, now) == if left > p.burst then p.burst else left
  {
    var t := Found(p, bs, key, at);
    var b := Bucket(if t >= 1.0 then t - 1.0 else t, at);
    assert Taken(p, bs, key, at)[key] == b;
    assert Grown(p, b, now) == b.tokens + Gained(p, at, now);
  }

  lemma OwnCall(p: Params, evs: seq<Event>, n: nat, now: real, tokens: real)
    requires p.every > 0 && n < |evs| && Answer(p, evs, n) == (tokens >= 1.0)
    requires IsLeast(p.burst, n, CountsFor(evs, evs[n].key), BoundsAt(p, evs, n, evs[n].at), tokens)
    ensures var left := tokens - (if tokens >= 1.0 then 1.0 else 0.0) + Gained(p, evs[n].at, now);
            IsLeast(p.burst, n + 1, CountsFor(evs, evs[n].key), BoundsAt(p, evs, n + 1, now),
                    if left > p.burst then p.burst else left)
  {
    var counts, bound, bound' := CountsFor(evs, evs[n].key), BoundsAt(p, evs, n, evs[n].at), BoundsAt(p, evs, n + 1, now);
    var a, g := if tokens >= 1.0 then 1.0 else 0.0, Gained(p, evs[n].at, now);
    forall j: nat | j < n && counts(j) ensures bound'(j) == bound(j) - a + g {
      BoundStep(p, evs, n, now, j);
    }
    BoundOwn(p, evs, n, now);
    LeastStep(p.burst, n, counts, bound, bound', tokens, a, g);
  }

  lemma OtherCall(p: Params, evs: seq<Event>, key: string, n: nat, now: real, tokens: real)
    requires p.every > 0 && n < |evs| && evs[n].key != key
    requires IsLeast(p.burst, n, CountsFor(evs, key), BoundsAt(p, evs, n, now), tokens)
    ensures IsLeast(p.burst, n + 1, CountsFor(evs, key), BoundsAt(p, evs, n + 1, now), tokens)
  {
    var counts, bound, bound' := CountsFor(evs, key), BoundsAt(p, evs, n, now), BoundsAt(p, evs, n + 1, now);
    forall j: nat | j < n && counts(j) ensures bound'(j) == bound(j) {
      BoundStep(p, evs, n, now, j);
    }
    LeastKept(p.burst, n, counts, bound, bound', tokens);
  }

  /** The closed form: what any key has left at any later instant is the least of the burst and
      the bounds put on it by the calls for the key. */
  lemma {:induction false} TokensAreLeast(p: Params, evs: seq<Event>, key: string, n: nat, now: real)
    requires Sane(p) && Chronological(evs) && n <= |evs| && (n > 0 ==> evs[n - 1].at <= now)
    ensures IsLeast(p.burst, n, CountsFor(evs, key), BoundsAt(p, evs, n, now), Found(p, Full(p, evs, n), key, now))
  {
    if n > 0 {
      var m, bs := n - 1, Full(p, evs, n - 1);
      if evs[m].key != key {
        TokensAreLeast(p, evs, key, m, now);
        OtherCall(p, evs, key, m, now, Found(p, bs, key, now));
      } else {
        TokensAreLeast(p, evs, key, m, evs[m].at);
        PurgingIsInvisible(p, evs, m);
        OwnCall(p, evs, m, now, Found(p, bs, key, evs[m].at));
        FoundAfterOwn(p, bs, key, evs[m].at, now);
      }
    }
  }

  lemma AllowedByGain(p: Params, evs: seq<Event>, n: nat)
    requires Sane(p) && Chronological(evs) && n < |evs|
    ensures Answer(p, evs, n) <==>
              forall j: nat :: j < n && evs[j].key == evs[n].key ==>
                Allowed(p, evs, evs[n].key, j, n) as real + 1.0 <= p.burst + Gained(p, evs[j].at, evs[n].at)
  {
    var key, now := evs[n].key, evs[n].at;
    PurgingIsInvisible(p, evs, n);
    TokensAreLeast(p, evs, key, n, now);
    LeastAtLeastOne(p.burst, n, CountsFor(evs, key), BoundsAt(p, evs, n, now), Found(p, Full(p, evs, n), key, now));
    BoundsReadBack(p, evs, n);
  }

  /** The calls of its key allowed from call `j` on, with call `n` as one more, stay within the
      burst plus `rate` for every second in between. */
  predicate Within(p: Params, evs: seq<Event>, j: nat, n: nat)
    requires p.every > 0 && j < n < |evs|
  {
    Allowed(p, evs, evs[n].key, j, n) as real + 1.0 <= p.burst + p.rate * (evs[n].at - evs[j].at)
  }

  lemma WithinIsGain(p: Params, evs: seq<Event>, j: nat, n: nat)
    requires p.every > 0 && j < n < |evs|
    ensures Within(p, evs, j, n)
       <==> Allowed(p, evs, evs[n].key, j, n) as real + 1.0 <= p.burst + Gained(p, evs[j].at, evs[n].at)
  {
    var gained := p.rate * (evs[n].at - evs[j].at);
    assert gained == Gained(p, evs[j].at, evs[n].at);
    assert Within(p, evs, j, n) <==> Allowed(p, evs, evs[n].key, j, n) as real + 1.0 <= p.burst + gained;
  }

  /** When exactly a call is allowed, in terms of the log alone and of the limiter that purges:
      if it stays within the limit as seen from every earlier call of its key. */
  lemma AllowedExactlyWhen(p: Params, evs: seq<Event>, n: nat)
    requires Sane(p) && Chronological(evs) && n < |evs|
    ensures Answer(p, evs, n) <==> forall j: nat :: j < n && evs[j].key == evs[n].key ==> Within(p, evs, j, n)
  {
    AllowedByGain(p, evs, n);
    forall j: nat | j < n && evs[j].key == evs[n].key
      ensures Within(p, evs, j, n)
         <==> Allowed(p, evs, evs[n].key, j, n) as real + 1.0 <= p.burst + Gained(p, evs[j].at, evs[n].at)
    {
      WithinIsGain(p, evs, j, n);
    }
  }

  lemma BoundsReadBack(p: Params, evs: seq<Event>, n: nat)
    requires p.every > 0 && n < |evs|
    ensures (forall j: nat :: j < n && CountsFor(evs, evs[n].key)(j) ==> BoundsAt(p, evs, n, evs[n].at)(j) >= 1.0)
       <==> (forall j: nat :: j < n && evs[j].key == evs[n].key ==>
               Allowed(p, evs, evs[n].key, j, n) as real + 1.0 <= p.burst + Gained(p, evs[j].at, evs[n].at))
  {
    var key, now := evs[n].key, evs[n].at;
    forall j: nat | j < n && evs[j].key == key
      ensures CountsFor(evs, key)(j)
      ensures BoundsAt(p, evs, n, now)(j) == p.burst + Gained(p, evs[j].at, now) - Allowed(p, evs, key, j, n) as real
    {
    }
  }

  lemma {:induction false} WindowByGain(p: Params, evs: seq<Event>, i: nat, n: nat)
    requires Sane(p) && Chronological(evs) && i <= n < |evs|
    ensures Allowed(p, evs, evs[i].key, i, n + 1) as real <= p.burst + Gained(p, evs[i].at, evs[n].at)
  {
    GainedIsPositive(p, evs[i].at, evs[n].at);
    if n == i {
      assert Allowed(p, evs, evs[i].key, i, i) == 0;
    } else if evs[n].key == evs[i].key && Answer(p, evs, n) {
      AllowedByGain(p, evs, n);
    } else {
      WindowByGain(p, evs, i, n - 1);
      GainedAdds(p, evs[i].at, evs[n - 1].at, evs[n].at);
      GainedIsPositive(p, evs[n - 1].at, evs[n].at);
    }
  }

  /** Any window of calls, from call `i` of a key to call `n`, lets at most the burst plus what
      the rate adds in the meantime through. */
  lemma WindowIsBounded(p: Params, evs: seq<Event>, i: nat, n: nat)
    requires Sane(p) && Chronological(evs) && i <= n < |evs|
    ensures Allowed(p, evs, evs[i].key, i, n + 1) as real <= p.burst + p.rate * (evs[n].at - evs[i].at)
  {
    WindowByGain(p, evs, i, n);
  }

  // ---------------------------------------------------------------- memory

  lemma ModulusDrops(n: int, e: int)
    requires n > 0 && e > 0 && n % e != 0
    ensures (n - 1) % e == n % e - 1
  {
    var q, r := n / e, n % e;
    assert n - 1 == q * e + (r - 1);
    ModulusIsUnique(n - 1, e, q, r - 1);
  }

  lemma ModulusIsUnique(n: int, e: int, q: int, r: int)
    requires e > 0 && n == q * e + r && 0 <= r < e
    ensures n % e == r
  {
    var d := n / e - q;
    assert d * e == r - n % e;
    assert d >= 1 ==> d * e >= e;
    assert d <= -1 ==> d * e <= -e;
  }

  /** The number of calls up to and including the one that purged last; 0 if none has. */
  function LastPurge(p: Params, n: nat): (c: nat)
    requires p.every > 0
    ensures c <= n
  {
    if n == 0 || n % p.every == 0 then n else LastPurge(p, n - 1)
  }

  lemma {:induction false} PurgeIsNear(p: Params, n: nat)
    requires p.every > 0
    ensures n - LastPurge(p, n) == n % p.every
  {
    if n > 0 && n % p.every != 0 {
      ModulusDrops(n, p.every);
      PurgeIsNear(p, n - 1);
    }
  }

  /** The keys of calls `a` to `b`. */
  function KeysBetween(evs: seq<Event>, a: nat, b: nat): (keys: set<string>)
    requires b <= |evs|
    ensures |keys| <= if a <= b then b - a else 0
  {
    if b <= a then {} else KeysBetween(evs, a, b - 1) + {evs[b - 1].key}
  }

  lemma {:induction false} KeysOfCalls(evs: seq<Event>, a: nat, b: nat, i: nat)
    requires a <= i < b <= |evs|
    ensures evs[i].key in KeysBetween(evs, a, b)
  {
    if i < b - 1 {
      KeysOfCalls(evs, a, b - 1, i);
    }
  }

  /** The keys with a call before call `n` that is recent enough for the bucket not to have
      refilled by then: made less than burst / rate seconds before. */
  ghost function ActiveBefore(p: Params, evs: seq<Event>, n: nat): set<string>
    requires n < |evs|
  {
    set k | k in KeysBetween(evs, 0, n) && UsedSince(p, evs, n, k)
  }

  ghost predicate UsedSince(p: Params, evs: seq<Event>, n: nat, key: string)
    requires n < |evs|
  {
    exists i: nat :: i < n && evs[i].key == key && Gained(p, evs[i].at, evs[n].at) < p.burst
  }

  /** Every bucket dates from a call of its key and is not overdrawn. */
  ghost predicate Dated(evs: seq<Event>, n: nat, bs: Buckets)
    requires n <= |evs|
  {
    forall k :: k in bs ==> bs[k].tokens >= 0.0 && exists i: nat :: i < n && evs[i].key == k && evs[i].at == bs[k].last
  }

  lemma FoundIsPositive(p: Params, evs: seq<Event>, n: nat, bs: Buckets, key: string)
    requires Sane(p) && Chronological(evs) && n < |evs| && Dated(evs, n, bs)
    ensures Found(p, bs, key, evs[n].at) >= 0.0
  {
    if key in bs {
      var i: nat :| i < n && evs[i].key == key && evs[i].at == bs[key].last;
      GainedIsPositive(p, evs[i].at, evs[n].at);
      assert Grown(p, bs[key], evs[n].at) == bs[key].tokens + Gained(p, evs[i].at, evs[n].at);
    }
  }

  lemma {:induction false} KeptAreDated(p: Params, evs: seq<Event>, n: nat)
    requires Sane(p) && Chronological(evs) && n <= |evs|
    ensures Dated(evs, n, Kept(p, evs, n))
  {
    if n > 0 {
      KeptAreDated(p, evs, n - 1);
      var bs := AtCall(p, evs, n - 1);
      assert Dated(evs, n - 1, bs);
      FoundIsPositive(p, evs, n - 1, bs, evs[n - 1].key);
      assert Kept(p, evs, n)[evs[n - 1].key].last == evs[n - 1].at;
    }
  }

  /** Right after a purge every bucket was used less than burst / rate seconds before. */
  lemma PurgeLeavesActive(p: Params, evs: seq<Event>, n: nat)
    requires Sane(p) && Chronological(evs) && n < |evs| && (n + 1) % p.every == 0
    ensures AtCall(p, evs, n).Keys <= ActiveBefore(p, evs, n)
  {
    KeptAreDated(p, evs, n);
    var bs, now := Kept(p, evs, n), evs[n].at;
    forall k | k in bs && Grown(p, bs[k], now) < p.burst ensures k in ActiveBefore(p, evs, n) {
      var i: nat :| i < n && evs[i].key == k && evs[i].at == bs[k].last;
      assert Grown(p, bs[k], now) == bs[k].tokens + Gained(p, evs[i].at, now);
      KeysOfCalls(evs, 0, n, i);
    }
  }

  /** After a call that purges only active keys have a bucket. */
  lemma PurgingCall(p: Params, evs: seq<Event>, n: nat)
    requires Sane(p) && Chronological(evs) && n < |evs| && LastPurge(p, n + 1) == n + 1
    ensures Kept(p, evs, n + 1).Keys <= ActiveBefore(p, evs, n) + KeysBetween(evs, n, n + 1)
  {
    PurgeLeavesActive(p, evs, n);
    KeysOfCalls(evs, n, n + 1, n);
  }

  /** Any other call adds its own key. */
  lemma PlainCall(p: Params, evs: seq<Event>, n: nat)
    requires Sane(p) && n < |evs| && LastPurge(p, n + 1) != n + 1
    ensures LastPurge(p, n + 1) == LastPurge(p, n)
    ensures Kept(p, evs, n + 1).Keys == Kept(p, evs, n).Keys + {evs[n].key}
  {
  }

  /** A bound on the keys before a call that purges nothing is good for the call itself. */
  lemma KeysCarried(evs: seq<Event>, n: nat, from: nat, active: set<string>, kept: set<string>)
    requires from <= n < |evs| && kept <= active + KeysBetween(evs, from, n)
    ensures kept + {evs[n].key} <= active + KeysBetween(evs, from, n + 1)
  {
    assert KeysBetween(evs, from, n + 1) == KeysBetween(evs, from, n) + {evs[n].key};
  }

  lemma {:induction false} KeysUnpurged(p: Params, evs: seq<Event>, n: nat)
    requires Sane(p) && Chronological(evs) && n <= |evs| && LastPurge(p, n) == 0
    ensures Kept(p, evs, n).Keys <= KeysBetween(evs, 0, n)
  {
    if n > 0 {
      PlainCall(p, evs, n - 1);
      KeysUnpurged(p, evs, n - 1);
      KeysCarried(evs, n - 1, 0, {}, Kept(p, evs, n - 1).Keys);
    }
  }

  lemma {:induction false} KeysSincePurge(p: Params, evs: seq<Event>, n: nat, c: nat)
    requires Sane(p) && Chronological(evs) && n <= |evs| && LastPurge(p, n) == c + 1
    ensures Kept(p, evs, n).Keys <= ActiveBefore(p, evs, c) + KeysBetween(evs, c, n)
  {
    if c + 1 == n {
      PurgingCall(p, evs, c);
    } else {
      PlainCall(p, evs, n - 1);
      KeysSincePurge(p, evs, n - 1, c);
      KeysCarried(evs, n - 1, c, ActiveBefore(p, evs, c), Kept(p, evs, n - 1).Keys);
    }
  }

  /** The memory bound, before the first purge: one bucket per call at most ... */
  lemma MemoryBeforePurge(p: Params, evs: seq<Event>, n: nat)
    requires Sane(p) && Chronological(evs) && n <= |evs| && LastPurge(p, n) == 0
    ensures |Kept(p, evs, n)| <= n < p.every
  {
    KeysUnpurged(p, evs, n);
    SubsetSize(Kept(p, evs, n).Keys, KeysBetween(evs, 0, n));
    PurgeIsNear(p, n);
  }

  /** ... and after: never more buckets than keys were active at the latest purge, plus the
      purge interval. */
  lemma MemoryIsBounded(p: Params, evs: seq<Event>, n: nat, c: nat)
    requires Sane(p) && Chronological(evs) && n <= |evs| && LastPurge(p, n) == c + 1
    ensures |Kept(p, evs, n)| <= |ActiveBefore(p, evs, c)| + p.every
  {
    KeysSincePurge(p, evs, n, c);
    PurgeIsNear(p, n);
    SubsetSize(Kept(p, evs, n).Keys, ActiveBefore(p, evs, c) + KeysBetween(evs, c, n));
  }
}
