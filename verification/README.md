# Goctopus: verified model of the delivery engine

Goctopus is a websocket gateway: a backend posts messages under keys, clients subscribe to keys
or glob patterns, and every message is kept in a per-key queue until a subscribed client
acknowledges it or it expires. This project models that engine in Dafny and proves what it
guarantees: at-least-once delivery under every interleaving of its goroutines, a complete account
of why entries leave the queues, bounds on how often a message is written, order of first
deliveries, draining, and the exactness of the data structures underneath (queues, history,
token-bucket limiter, de-duplication window).

Where the source changes state in place the model does too. `MemoryStorage`, `Client`,
`Goctopus`, `RateLimiter`, `HistoryStore`, `RedisStorage` and `Window` are classes whose methods
follow the Go functions loop by loop and are proved against functions on values; the theorems
are then about those functions. The concurrent protocol is a state machine whose steps are the
critical sections of the server.

| file | content |
|---|---|
| `Messages.dfy` | messages, expiry, key matching, fan-out set, stored form |
| `Queues.dfy` | the storage contract on values, and an ordered dictionary it refines |
| `MemoryStorage.dfy`, `RedisStorage.dfy` | the two storage back ends and their agreement |
| `Links.dfy` | the in-flight state of one connection |
| `Flushes.dfy`, `Engine.dfy`, `Server.dfy` | flush, registry and pattern index, reconcile, sweep, ACK, publish, backlog, DELETE, each as one sequential call |
| `Protocol.dfy`, `Soundness.dfy` | the interleaved protocol and its basic invariant |
| `Requests.dfy` | what POST, DELETE, sweep, ACK and connections come to over whole runs, from the request to the write |
| `Wakeups.dfy`, `Flights.dfy`, `Ledger.dfy`, `Fifo.dfy`, `Liveness.dfy` | the main results over all runs |
| `Repeats.dfy`, `Resends.dfy` | when a message is written to a connection once more |
| `Refinement.dfy` | the uninterrupted flushes of the protocol are exactly the outcomes of the sequential one |
| `Races.dfy` | runs that contradict comments in the source, and an exact condition |
| `Drain.dfy`, `Rounds.dfy`, `Passes.dfy` | how many reconcile-and-ACK rounds empty the queues, rounds as runs of the protocol, and draining under every interleaving |
| `Locks.dfy` | lock order and absence of wait cycles |
| `RateLimiter.dfy`, `History.dfy`, `Dedupe.dfy` | limiter, history, client-side de-duplication |
| `Collections.dfy` | facts about finite sets and sequences |

## How the protocol is cut into steps

A goroutine is a list of jobs plus the stage of the flush it may be in. `sendMessages` is split
into: take the send lock; snapshot the registry; snapshot the queue; test a message for expiry;
then for each connection mark, write, and after a failed write clear and close. Anything else
may run between any two of these. Goroutines are never ordered, because a full work queue makes
the server start a fresh goroutine per task. A write may fail or succeed at any time, including
after another goroutine closed the connection. ACKs may name any id.

The state carries history that no step depends on: every add, every insertion and removal of a
queue entry with its cause, per-connection tallies of marks, writes, ACKs, failures and clears,
and which (connection, key, id) have been offered since the id was last added under the key.

## Premises

- One server instance with in-memory storage for the protocol results. The lossy Redis
  notifications are covered only as `Reflush` steps that may or may not happen.
- Published keys that contain wildcard characters but do not match themselves as a pattern are
  outside the delivery guarantee; `Races.BacklogReachesExactly` shows that this is the exact
  condition.
- The guarantee ends with `Stop`: runs are runs of a server that has not been stopped.
- The clock does not run backwards.
- Ids may be reused. Claims are per id; where fresh ids are needed the statement says `Fresh`.

## Where the code and its comments differ

The model follows the code.

- `src/client.go:195-196` says an ACK removes a message from every key of the connection. It
  removes one (key, id) entry: `Races.OneAckOneEntry`, `Ledger.AckRemovesOneEntry`. The
  comment is right exactly when the connection receives only one target of the message:
  `Servers.OneAckClearsExactlyWhen`. Otherwise `Drain.DrainsInRounds` counts the rounds.
- `src/engine.go:113-114` says re-flushing never produces duplicates for connected clients. It
  can through three channels: between the two halves of an ACK (`Races.ReflushCanDuplicate`);
  behind a queue snapshot taken before the ACK (`Races.OldSnapshotCanDuplicate`); and, without
  any race, from the queue of another target of the message, which the ACK does not touch
  (`Races.FanOutCanDuplicate`). `Resends.WrittenAgainExactlyWhen` is the exact condition for one
  more write, for every id. For ids added at most once under each key
  `Resends.DuplicateChannels` shows that there are no other channels, and
  `Resends.OneKeyHasTwoWindows` that an id with one key has the first two only.
  `Flights.WritesAreBounded` is the ceiling.
- `src/engine.go:484-486` says the sweeper never clobbers a message added concurrently. With a
  reused id it can: `Races.SweepCanRemoveTheLiving`, and only then:
  `Races.SweepRemovesExactlyWhen`. With fresh ids it cannot:
  `Ledger.SweepSparesTheLiving`.
- `src/topics.go:13-14` promises `path.Match` semantics. A key without `*`, `?` and `[` is compared
  literally, so a backslash in it does not escape: `Messages.MatchingIsGlob`.
- `README.md:131` says a message is re-sent if its ACK times out. The code has no such timer: as
  long as a write is not acknowledged the id is not written to that connection again, as
  `Flights.WritesAreBounded` says.

## Model

| member | source | states |
|---|---|---|
| Requests.PostedIsDelivered | src/engine.go:248-309 | With no task left, for every message posted in the run, every non-empty key of it and every open registered connection with that key or a pattern the glob matches with it: the id was written there and no write of it failed, or its entry under the key was removed, or it has outlived its lifetime in the queue |
| Requests.PostIsQueued | src/server.go:155-168 | Every POST of a run is added under each non-empty key of the message, carrying that key, or a task is still to add it |
| Requests.PostIsTakenExactlyWhen | src/message.go:70-72 | A POST is taken if and only if the message names a non-empty key, single or in the list |
| Requests.RequestsRemove | src/server.go:319-342 | What a DELETE of one message, of a key or of everything, a sweep of a message past its lifetime, or an ACK in flight for the key asks to remove is removed, unless added once more, by the time no task is left; until then a task is still to remove it |
| Requests.WrittenWasInTime | src/engine.go:284-287 | A message a flush writes was no older than its lifetime when that flush tested it |
| Requests.ConnectionIsItsHistory | src/client.go:242-264 | In every reachable state a connection is registered if and only if no unregister step of it came, and closed if and only if its own goroutines or a flush at the end of a failed write closed it |
| Requests.ClosedIsFinal | src/client.go:92-97 | Once closed, a connection stays closed and nothing is marked on it any more |
| Wakeups.NoLostWakeup | src/engine.go:253-309 | In every reachable state every unexpired queued message is, for every registered open connection that covers its key, already offered to it or bound to be offered by an unfinished task |
| Wakeups.ConnectIsServed | src/server.go:97-121 | A connection that registers comes with a task that is bound to offer it everything queued under the keys it covers |
| Wakeups.BoundAdvance | src/engine.go:265-308 | A goroutine that still owes a pair (message, connection) still owes it after any step of its own, or that step offered it |
| Flights.BooksBalance | src/client.go:92-121 | For every connection and id: marks = accepted ACKs + effective clears + (1 if in flight); marks = writes + failed writes + writes under way; clears never exceed failures; an open connection has no failure that is not being cleaned up |
| Flights.WritesAreBounded | src/engine.go:295-305 | An id is written to a connection at most once more than the connection acknowledged it, and marked at most once more than it was acknowledged or failed |
| Flights.AcceptsMarkExactlyWhen | src/client.go:92-103 | In every reachable state a connection accepts a mark of an id if and only if it is open and every mark of the id so far was taken back by an ACK or a clear |
| Repeats.WrittenIsHeldOrPending | src/client.go:211-215 | A message published once, to one key, that was written to a connection and is still queued is in flight there, or the second half of an ACK of that connection for it is still to run |
| Resends.WrittenAgainExactlyWhen | src/engine.go:111-154 | For every id that no task is still to publish, whatever its keys and however often it was published, on a connection no failed write is being cleaned up on: the tasks alone can write it once more if and only if it is marked with its write under way, or the connection is open, the id is not in flight, and it is ahead in the snapshot of some flush or queued unexpired under some key of the connection with a task bound to flush that queue |
| Resends.WrittenOnlyIf | src/engine.go:284-308 | The only-if half on every connection; only while the mark of a failed write of the id to this connection is being cleared may an id with several keys also get through by another of them |
| Resends.DuplicateChannels | src/engine.go:111-114 | An id added at most once under each key can be written again, apart from a write under way, only behind a flush snapshot that still has it ahead, or from a queue of the connection with the second half of its ACK pending or with nothing acknowledged for that key |
| Resends.OneKeyHasTwoWindows | src/engine.go:111-114 | If it was published to one key and written before: only behind such a snapshot, or while it is queued with the second half of an ACK pending |
| Flights.QuietMeansDelivered | src/engine.go:248-252 | With no task left, every unexpired queued message has been written without an error to every open connection that covers its key |
| Flights.OffersWereMarks | src/client.go:92-103 | Whatever counts as offered was really marked in flight on that connection at some time |
| Ledger.NothingVanishes | src/memory_storage.go:57-90 | For every key and id: entries ever created = entries ever removed + the entry there now |
| Ledger.EveryExitIsJustified | src/client.go:197-218 | Each removal was by an accepted ACK recorded for exactly that key on a connection subscribed to it, by a sweep that saw an expired copy of the id published there, or by an earlier DELETE request of the run that covers the entry; with honest clients an ACK removal means the id was written to that connection; and what was queued and is not has such a removal |
| Ledger.SweepSparesTheLiving | src/engine.go:487-498 | With fresh ids the sweeper removes exactly the message it saw expired, never a live one |
| Ledger.InflightIsSubscribed | src/engine.go:266-301 | Every in-flight entry belongs to a key its connection is subscribed to, exactly or by pattern |
| Ledger.AckRemovesOneEntry | src/client.go:211-215 | The deletion an ACK leads to, wherever in a run it happens: it answers an earlier ACK sent while the id was in flight for that key, removes that id from that queue only, keeps the order of the rest, and changes no connection |
| Fifo.NoOvertaking | src/engine.go:258-308 | With fresh ids, when a flush writes a message to a connection every single-target message added earlier under the key has been written to that connection, was found expired by this flush's own test of it, or had left the queue when the flush took its snapshot and is not queued now |
| Fifo.SnapshotOrder | src/engine.go:284-308 | When a flush writes a message, whatever is ahead in its queue snapshot, was alive when this flush tested it and was published under this key only has been written to that connection before |
| Fifo.WasTested | src/engine.go:284-287 | Every message a flush has gone past was put to its expiry test by the same flush |
| Fifo.RunIsChronological | src/memory_storage.go:57-90 | With fresh ids queues and flush snapshots list messages in the order of AddMessage, and no older queued message is missing from a snapshot that has a newer one |
| Liveness.TasksFinish | src/engine.go:193-219 | Without new requests the tasks of the pool take at most a number of steps computed from the state, however they are scheduled |
| Liveness.EventualDelivery | src/engine.go:248-252 | Once no goroutine can take a step, every unexpired queued message has been written to every open connection that covers its key |
| Liveness.TasksCanFinish | src/engine.go:193-219 | Every run can be completed by its tasks alone to a state with nothing left to do |
| Soundness.NeverStuck | src/engine.go:258-260 | As long as any goroutine has work left some goroutine can step |
| Soundness.RunStaysSound | src/engine.go:185-189 | In every reachable state no two flushes hold the same send lock, queues are non-empty with distinct ids, and snapshots are well-formed |
| Refinement.EveryFlushAlone | src/engine.go:253-309 | Every uninterrupted run of the flush steps, in whatever order the registry is ranged over and whatever each write does, leaves every connection as the sequential flush with these write outcomes does and changes nothing else |
| Refinement.FlushAlone | src/engine.go:253-309 | Conversely, for any outcome of the writes the protocol has an uninterrupted run that ends as the sequential flush does |
| Races.ReflushCanDuplicate | src/engine.go:111-114 | A reachable state in which a reconcile pass between the halves of an ACK wrote a once published, once acknowledged message a second time |
| Races.OldSnapshotCanDuplicate | src/engine.go:111-114 | A reachable state in which a reconcile pass wrote it a second time after the whole ACK, with the message queued nowhere |
| Races.FanOutCanDuplicate | src/engine.go:111-114 | A reachable state in which a reconcile pass from rest wrote a message for two keys of one connection a second time after its whole ACK |
| Races.OneAckOneEntry | src/client.go:195-215 | A reachable quiet state in which an acknowledged message for two keys of one connection is still queued under the second |
| Races.SweepCanRemoveTheLiving | src/engine.go:484-498 | A reachable state in which the sweeper removed an unexpired message with a reused id |
| Races.SweepRemovesExactlyWhen | src/engine.go:484-498 | For any two entries of the queue of a key and any instant: a run in which the sweeper, having seen the one, removes the other at that instant exists if and only if the two share an id and the one seen has expired |
| Races.BacklogReachesExactly | src/server.go:110-121 | The backlog of a key always reaches every connection the registry finds for it if and only if the key matches itself as a pattern |
| Drain.DrainsInRounds | src/engine.go:129-154 | An id that waits under n keys waits under at most n - r after r undisturbed rounds of flush-all and ACK-all, and under exactly that many with one connection |
| Drain.RoundShrinks | src/client.go:211-215 | Each round takes at least one key from every waiting id and adds none |
| Drain.PairsShrink | src/engine.go:129-154 | Each round strictly lowers the number of queue entries that have a matching connection, until none is left |
| Drain.EverythingDrains | src/engine.go:129-154 | As many rounds as the widest fan-out waits under keys leave nothing to deliver |
| Rounds.RoundIsARun | src/engine.go:129-154 | Every round is a run of the protocol: a reconcile step, the steps of its flushes, and the ACKs with their deletions lead to the store and the empty in-flight maps of the round |
| Passes.EveryPassDrains | src/engine.go:129-154 | However the flushes of a reconcile pass from rest, its good writes, the ACKs and their deletions interleave: at the next rest the queue entries with a matching connection are a strict subset of what they were, if there were any |
| Drain.AcksSettle | src/client.go:107-115 | Any sequence of ACKs removes exactly the entries whose id was in flight for that key on an acknowledging connection |
| Drain.AnotherRound | src/engine.go:129-154 | A next round exists from every state |
| Drain.RoundRests | src/client.go:107-115 | After a round nothing is in flight |
| Drain.PassIsFlushAll | src/engine.go:152-154 | The flush pass of the draining argument is an undisturbed reconcile pass |
| Locks.NoWaitCycle | src/engine.go:258-305 | In every reachable state of goroutines running the server's lock paths, no group of them has each member waiting for a lock that a member holds |
| Locks.NoDeadlock | src/engine.go:258-305 | A goroutine with work left can step, or a chain of waits leads from it to one that can |
| Locks.NoLockIsShared | src/engine.go:258-260 | In every reachable state no two goroutines hold the same lock |
| Locks.PathHoldsGuard | src/engine.go:258-309 | Every path but the two sections of removing a client holds its guard from its first action to its last: a flush its send lock over all snapshots, marks and writes |
| Locks.FlushTakesAll | src/engine.go:264-305 | Registry, storage, every in-flight map and every socket of a flush are gone to under their own mutexes |
| Locks.PathsAreDisciplined | src/metrics.go:81-101 | Every path, the nested one of the key gauge included, takes locks in the order send lock, registry or key-count lock, innermost lock, never two of one rank, and returns them |
| Links.Client.MarkInflight | src/client.go:92-103 | Marks exactly when the connection is open and the id is not in flight |
| Links.Client.TakeInflight | src/client.go:107-115 | Returns and forgets the recorded key |
| Links.Client.ClearInflight | src/client.go:117-121 | Forgets the id |
| Links.Client.Close | src/client.go:123-132 | Closes, and keeps the in-flight map |
| Flushes.SmoothFlush | src/engine.go:284-308 | A flush without expiry and failures puts in flight exactly the queued ids that were not |
| Flushes.FlushReaches | src/engine.go:284-308 | Whatever expires and fails: every message a flush comes to within its lifetime ends in flight on every receiver that is not closed then, nothing else gets in flight, a connection is closed only after a failed write, and nothing is taken back |
| Flushes.PassReaches | src/engine.go:152-154 | The same over all keys of a pass |
| Flushes.SelectionIsGlob | src/engine.go:129-150 | A pass flushes the literal subscription keys and the stored keys for which the glob of a subscribed pattern holds |
| Engine.Goctopus.Register | src/server.go:97-104 | Adding a connection, repeated keys included, keeps the index exact |
| Engine.Goctopus.RemoveClient | src/client.go:242-264 | Removing a connection keeps the index exact: no empty list, patterns are the wildcard keys |
| Engine.Goctopus.ClientsForKey | src/engine.go:314-334 | Through the index, exactly the registered connections with a key equal to or matching this one, once each |
| Engine.Goctopus.StorageKeysMatching | src/engine.go:340-353 | Exactly the stored keys that match the pattern, once each |
| Engine.Goctopus.SendMessages | src/engine.go:253-309 | A flush leaves every registered connection where going through the queue message by message leaves it, and touches neither registry nor storage |
| Engine.Goctopus.Reconcile | src/engine.go:129-154 | A reconcile pass flushes exactly the subscribed concrete keys and the stored keys matching a subscribed pattern |
| Engine.Goctopus.HandleAck | src/client.go:211-215 | Forgets the id and deletes it under the recorded key; an id not in flight changes nothing |
| Engine.Goctopus.SweepKey | src/engine.go:487-498 | Replaces the queue by its survivors and no other queue |
| Engine.SweepIsFilter | src/engine.go:487-498 | Deleting expired messages one by one by id is filtering: the living stay, in order |
| Engine.SweepKeepsExactly | src/message.go:106-109 | A queued message survives the sweep if and only if it is no older than its lifetime at the instant it is tested |
| Engine.SweepIsExact | src/engine.go:484-486 | Without interference nothing older than its lifetime when the sweep began remains and nothing within it at its end is gone |
| Servers.HandlePost | src/server.go:157-168 | Adds the message under every target once, records it in the history of the target, and flushes each target with the message in its queue |
| Servers.PostIsKept | src/server.go:157-164 | After a publish each non-empty key of the message holds it under that key, in the place of an earlier one of its id or last, and as the latest entry of its history, recorded at the instant of its turn; no other key changes |
| Servers.PublishReaches | src/server.go:155-168 | An undisturbed publish leaves the id in flight on every open connection that receives some target, under the first received target unless it was in flight before, keeps what was in flight, and does not touch the others |
| Servers.OneAckClearsExactlyWhen | src/client.go:195-215 | One ACK clears a freshly published message from every queue the connection receives if and only if the recorded key is the only target the connection receives |
| Servers.Backlog | src/server.go:110-121 | The backlog task flushes exactly the concrete keys and the stored keys its patterns match |
| Servers.HandleDelete | src/server.go:302-342 | The three deletion modes and the two refusals |
| Messages.Targets | src/message.go:24-38 | The fan-out set: each non-empty key of the message once, in order |
| Messages.ExpiryIsAge | src/message.go:106-109 | A message has expired if and only if more than its lifetime has passed since its date, whatever the date |
| Messages.MatchingIsGlob | src/topics.go:17-29 | With a wildcard character a key matches by the glob, pattern first; without one only itself, which is the glob again unless it contains a backslash |
| Messages.ReachingIsGlob | src/engine.go:314-334 | Whom a message reaches, and whom a backlog flush reaches, in terms of the glob alone |
| Messages.ReceivesImpliesCovers | src/topics.go:17-29 | A connection found for a key that matches itself is also one whose own backlog and reconcile passes reach the key |
| Queues.QueueIsOrderedDictionary | src/memory_storage.go:57-90 | After any run every queue lists an insertion-ordered dictionary: upserts keep their place, deletions close the gap |
| Queues.RunKeepsGood | src/memory_storage.go:57-90 | After any run no key keeps an empty queue and no queue holds an id twice |
| Queues.RepublishAddsNoEntry | src/server.go:155-168 | Publishing again under the same id and targets adds no entry and moves none |
| MemoryStorages.MemoryStorage.AddMessage | src/memory_storage.go:57-72 | Upsert in place or append, with growth; other queues untouched |
| MemoryStorages.MemoryStorage.DeleteMessage | src/memory_storage.go:74-90 | Deletion by shifting in place; an emptied key goes |
| MemoryStorages.MemoryStorage.DeleteQueue | src/memory_storage.go:50-55 | Drops one key |
| MemoryStorages.MemoryStorage.GetKeys | src/memory_storage.go:92-100 | Every key once |
| MemoryStorages.MemoryStorage.Run | src/memory_storage.go:50-90 | Any run of calls does to the contents what the functions on values say |
| MemoryStorages.SnapshotOutlivesUpdates | src/memory_storage.go:36-48 | A queue that was handed out still reads the same after any later updates in place |
| RedisStorages.RedisStorage.GetQueue | src/redis_storage.go:73-92 | One message per decodable field, sorted by date; undecodable fields are deleted |
| Messages.StoredRoundTrip | src/message.go:114-146 | The stored form keeps everything but the fan-out keys and the caller's id, and expires at the same instant |
| RedisStorages.StoragesAgree | src/redis_storage.go:98-118 | After the same operations both back ends hold the same keys and under each the same messages by id |
| RedisStorages.ReadsInOrderExactlyWhen | src/redis_storage.go:88-91 | Redis reads a queue in the order of the in-memory store, for every choice of hash order and sort, if and only if its dates strictly increase |
| RedisStorages.DatedPublishesReadInOrder | src/redis_storage.go:73-113 | With distinct ids and strictly increasing dates Redis serves queues in insertion order |
| RedisStorages.RunIsTidy | src/redis_storage.go:98-118 | The server never keeps an empty hash and every field is named by the id of its message |
| RateLimiters.RateLimiter.Allow | src/ratelimit.go:45-73 | One call: purge when due, refill, test, take |
| RateLimiters.RateLimiter.Purge | src/ratelimit.go:76-82 | Removes exactly the buckets that have refilled |
| RateLimiters.Serve | src/ratelimit.go:45-73 | A new limiter answers a sequence of calls as the log functions say |
| RateLimiters.PurgingIsInvisible | src/ratelimit.go:51-82 | For every sequence of calls the answers are those of a limiter that never purges |
| RateLimiters.TokensAreLeast | src/ratelimit.go:53-68 | The tokens a call finds are the least of the burst and, over the earlier calls of the key, burst + rate * time since - allowed since |
| RateLimiters.AllowedExactlyWhen | src/ratelimit.go:45-73 | A call is allowed if and only if for every earlier call of its key the allowed calls since, with this one, stay within burst + rate * seconds since |
| RateLimiters.WindowIsBounded | src/ratelimit.go:45-73 | Any window of a key's calls lets at most burst + rate * duration through |
| RateLimiters.PurgeLeavesActive | src/ratelimit.go:76-82 | After a purge every bucket was used less than burst / rate seconds before |
| RateLimiters.MemoryIsBounded | src/ratelimit.go:51-59 | After the first purge there are never more buckets than keys active at the latest purge plus the purge interval |
| RateLimiters.MemoryBeforePurge | src/ratelimit.go:51-59 | Before it at most one per call, and fewer than the purge interval |
| History.Replay | src/history.go:34-100 | A new store put through any operations holds what the log functions say |
| History.HistoryIsItsLog | src/history.go:34-100 | A read tells exactly the end of the key's log that is among the last size entries and not too old |
| History.ReadAfter | src/history.go:49-68 | After any operations on a new store a read returns the messages of the key's log, oldest first, from the first that is neither among more than size later ones nor older than ttl; with no positive size, nothing |
| History.TouchedIsPruned | src/history.go:34-87 | Right after an addition, a read or a purge the store holds of the key exactly what a reader would be told, and no empty list |
| History.ReadsAndPurgesAreInvisible | src/history.go:49-87 | Reads and purges in between never change a later answer |
| History.PurgeForgetsQuietKeys | src/history.go:72-87 | After a purge a key is present if and only if its latest message is young enough |
| History.HistoryStore.GetItems | src/history.go:49-68 | The answer and the pruned state, including forgetting an emptied key |
| History.HistoryStore.AddItem | src/history.go:34-47 | Prune, append, cut to size |
| History.HistoryStore.PurgeAll | src/history.go:72-87 | Prunes every key and forgets the emptied ones |
| Dedupe.Window.MarkSeen | clients/go/goctopus.go:127-142 | New exactly if empty or not remembered; the set stays the set of the duplicate-free, bounded list |
| Dedupe.Window.MarkAll | clients/go/goctopus.go:127-142 | For any sequence of ids from an empty window: an id counts as new if and only if it is empty or not among the last DedupeLimit non-empty ids that did |
| Dedupe.Window.Session | clients/go/goctopus.go:107-125 | Every readable message is acknowledged before it is handed over, and handed over unless remembered; whatever is handed over was acknowledged; the session ends with the first ACK that cannot be sent |
| Dedupe.EveryMessageIsAcked | clients/go/goctopus.go:112-121 | The ACKs of a session are the ids of its readable frames, one each, in order |
| Dedupe.Window.Run | clients/go/goctopus.go:64-125 | Over all sessions of a client, each as far as it gets, what is handed over and remembered is that of one sequence of frames; from an empty window with DedupeLimit of 0 or more, the window is the last DedupeLimit ids handed over and no id recurs within that many |
| Dedupe.SessionsJoin | clients/go/goctopus.go:93-142 | Processing frames in two sessions is processing them in one |
| Dedupe.LifetimeIsSpread | clients/go/goctopus.go:107-142 | Over all sessions the window is the last limit ids handed over, and any limit + 1 consecutive ones are distinct |
| Dedupe.WindowIsLastHanded | clients/go/goctopus.go:127-142 | Under any redelivery pattern the window is exactly the last limit non-empty ids handed over |
| Dedupe.HandedAreSpread | clients/go/goctopus.go:107-142 | Any limit + 1 consecutive non-empty ids handed over are pairwise distinct |
| Dedupe.HandedExactlyWhen | clients/go/goctopus.go:107-142 | A message is handed over if and only if it has no id or its id is not among the last limit handed over |

## Left out

- Websocket framing, upgrade, compression, ping and pong timing: a write is a step that succeeds or fails.
- The glob matcher `path.Match` and the FNV hash behind the send locks are parameters of the model; only `Messages.ReachingIsGlob` assumes something, that without special characters a pattern matches itself alone.
- HTTP routing, status codes, JSON, Basic Auth, origin checks, TLS, configuration, logging and metrics: single-branch plumbing. The JSON marshalling error of a flush cannot occur for the modelled message type.
- Storage errors of a remote back end inside the protocol: the in-memory back end returns none.
- Redis connections, SCAN cursors, pub/sub transport, key expiry, and delivery across several instances, which rests on lossy notifications.
- `SetQueue`: the engine never calls it, and it can store empty queues or repeated ids.
- The authorizer cache: backed by an outside service; its eviction is an easier copy of the limiter's.
- Reconnect delays and jitter in the client libraries; the JavaScript and Python copies of the de-duplication window.
- Floating-point rounding and clock jumps: the limiter uses reals, and its clock is non-decreasing in lock order.
- What happens after `Stop`: the worker pool may drop tasks then.
- The reconcile loop and the storage notifications in the protocol: a `Reflush` step may flush any keys, which allows more runs than the server has. The exact key set is proved for the sequential `Reconcile`. Sweeps may likewise start at any time and overlap.
- Token buckets, history lists, Redis hashes and the client's window are values in map or list fields rather than separately allocated objects; the in-memory queues are real arrays with in-place updates.
- `sort.Slice` is represented by its result: some arrangement by date. `ReadsInOrderExactlyWhen` quantifies over every such arrangement.
- Engine.Goctopus.SendMessages: one uninterrupted flush; the interleaved one is the protocol, whose uninterrupted runs are its outcomes by `Refinement.EveryFlushAlone`.
- Servers.HandlePost: the notification of other instances is not part of it.
- Resends.WrittenAgainExactlyWhen: its if half is not claimed while a failed write to the very connection is being cleaned up, the moment before it closes; which locks are held then decides, and what empties them.
- Rounds.RoundIsARun: one run for each round; what every interleaving of a pass does is `Passes.EveryPassDrains`, for passes that begin and end at rest.
- Locks.NoDeadlock: blocking on the network inside a write is not a lock; the write deadline of the server bounds it.
