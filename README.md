# learndb: positional fact lists over Redis lists

A chat bot keeps, for every topic, an ordered list of short facts in a Redis
list under the topic's key. Users read, insert and delete facts by a signed,
1-based, wrap-around index: `1` is the first fact, `-1` the last, and `0`, or
anything further back than the list is long, means `1`. The core is
`src/learndb.rs`:

- `wrap_index` resolves a user index against the current length.
- `get` reads one fact with `LLEN` and `LINDEX`.
- `add` inserts a fact before position `j`.
- `del` deletes the fact at position `j`.

Redis cannot insert or remove at a position, so `add` and `del` use a
placeholder, the sentinel. It is the empty string. `add` overwrites slot
`j-1` with it, runs `LINSERT BEFORE ""` to put the fact in front of it, then
writes the displaced fact back one slot later. `del` overwrites slot `j-1`
with the sentinel and runs `LREM 0 ""`.

This project models that layer in two modules.

- `Redis` (`redis.dfy`) works on lists of strings. Pure functions give the
  server semantics of `LINDEX`, `LSET`, `LINSERT BEFORE` and `LREM`:
  - negative offsets count from the tail;
  - `LINDEX` out of range replies nil;
  - `LSET` fails on a missing key or an out-of-range offset;
  - `LINSERT` uses the first occurrence of the pivot;
  - `LREM` removes all occurrences for count 0, the first n for count n, and
    the last n for count -n. That the first n are taken from the head is
    proved in `RemoveFirstTakesHead`, and that the last n are taken from the
    tail in `RemoveLastTakesTail`.

  The class `Connection` is the server's key space. It maps each key to a
  non-empty list, because Redis deletes a key whose list becomes empty. It has
  one method per command, and each method updates the map in place.
  `Connection.RPush` states the semantics of `RPUSH` itself: the value is
  appended and the new length is replied.
- `LearnDb` (`learndb.dfy`) holds `WrapIndex` and three specification
  functions:
  - `Read` for `get`;
  - `AddEffect` for `add`;
  - `DelEffect` for `del`.

  Each gives the reply and the topic's new list. `AddPipeline` and
  `DelPipeline` give the list after each transaction's queued commands. The
  class `LearnDB` holds the connection. Its methods issue the same Redis
  commands in the same order as the source, and each is proved to agree with
  its specification function. Lemmas then state the net effect as sequence
  splicing. That holds when the list does not already contain the sentinel,
  and two concrete lemmas show it fails when it does. `Clean()` says that no
  stored list contains the sentinel. It is preserved by every command the bot
  issues, as long as the added fact is not itself empty. A parsed command
  never has an empty fact: the add pattern ends in `(.+)`, and it is matched
  against the trimmed command (`src/learndb.rs:91`, `src/learndb.rs:96`).
  So `Clean()` holds after every command that `process_command` accepts.

Replies are a `Reply` datatype, not formatted text. The handlers take an
already-parsed topic, index and fact (`Command`).

Points where the code's behaviour is easy to mistake:

- Whether an insert appends is decided on the *raw* index, not on the
  resolved position (`src/learndb.rs:35`). On an empty topic, an index of 0 or below therefore
  takes the positional branch. There, `LINDEX` replies nil, reading nil as a
  `String` fails, and `add` reports an error before writing anything
  (`AddFailsOnEmptyTopic`).
- Delete does not remove only the placeholder it wrote. It uses `LREM 0`,
  which removes *every* empty string in the list (`DelPipeline`).
- A Redis transaction does not stop at a failing command. So when `del`
  resolves past the end, its `LSET` fails, but the queued `LREM 0 ""` still
  runs. With no sentinel in the list this changes nothing. Otherwise it strips
  every empty string (`DelFailsPastEnd`).
- `WrapIndex` takes the length as `nat`. Its only callers pass an `LLEN`
  reply.

## Model

| member | source | states |
|---|---|---|
| `Redis.Index` | src/learndb.rs:27 | LINDEX: a fact exactly when the offset is within the list; non-negative offsets from the head, negative ones from the tail |
| `Redis.Set` | src/learndb.rs:42 | LSET: fails with no-such-key on an empty list and out-of-range otherwise; on success the length is kept, the addressed slot holds the value and every other slot is unchanged |
| `Redis.FirstIndex` | src/learndb.rs:43 | the first occurrence of the pivot: -1 exactly when it is absent, otherwise a slot holding it with no earlier occurrence |
| `Redis.InsertBefore` | src/learndb.rs:43 | LINSERT BEFORE grows the list by one exactly when the pivot occurs |
| `Redis.RemoveAll` | src/learndb.rs:65 | LREM count 0: the result's multiset is the input's with every copy of the value removed; the value no longer occurs; a list without it is unchanged |
| `Redis.RemoveFirst` | src/learndb.rs:65 | LREM with positive count n removes min(n, occurrences) copies of the value and nothing else |
| `Redis.RemoveLast` | src/learndb.rs:65 | LREM with negative count -n removes min(n, occurrences) copies of the value and nothing else |
| `Redis.RemoveFirstTakesHead` | src/learndb.rs:65 | LREM with count n removes the copies from the head: when a prefix holds exactly n copies, the result is that prefix without them followed by the untouched rest |
| `Redis.RemoveLastTakesTail` | src/learndb.rs:65 | LREM with count -n removes the copies from the tail: when a suffix holds exactly n copies, the result is the untouched front followed by that suffix without them |
| `Redis.Rem` | src/learndb.rs:65 | LREM never lengthens the list, keeps every other value's count, and for count 0 leaves no copy of the value |
| `Redis.Connection.LLen` | src/learndb.rs:24 | LLEN replies the length of the key's list, 0 for a missing key |
| `Redis.Connection.LIndex` | src/learndb.rs:27 | LINDEX replies the element at the offset, nil exactly when out of range; changes nothing |
| `Redis.Connection.LSet` | src/learndb.rs:42 | LSET overwrites one slot, or replies the error and leaves the key space unchanged |
| `Redis.Connection.LInsertBefore` | src/learndb.rs:43 | LINSERT BEFORE inserts before the first pivot; replies the new length, 0 for a missing key, -1 for an absent pivot; other keys unchanged |
| `Redis.Connection.LRem` | src/learndb.rs:65 | LREM's new list and its reply, the number removed; other keys unchanged |
| `Redis.Connection.RPush` | src/learndb.rs:50 | RPUSH appends and replies the new length; other keys unchanged |
| `LearnDb.WrapIndex` | src/learndb.rs:9-11 | the position is at least 1; indices from 1 up are kept; -k maps to length + 1 - k for k up to the length; 0 and indices further back map to 1 |
| `LearnDb.Read` | src/learndb.rs:23-28 | get's triple: the resolved position, the length, and the fact at that position exactly when it is within the list |
| `LearnDb.AddPipeline` | src/learndb.rs:40-44 | add's three queued commands always lengthen the list by one |
| `LearnDb.DelPipeline` | src/learndb.rs:62-65 | del's queued commands leave no sentinel in the list |
| `LearnDb.AddPipelineSplices` | src/learndb.rs:39-46 | on a list without the sentinel, add's transaction at slot k yields `s[..k] + [fact] + s[k..]` |
| `LearnDb.DelPipelineSplices` | src/learndb.rs:61-67 | on a list without the sentinel, del's transaction at slot k yields `s[..k] + s[k+1..]` |
| `LearnDb.AddPipelineCollision` | src/learndb.rs:40-44 | with a sentinel already present, add inserts at the first sentinel instead of the target slot |
| `LearnDb.DelPipelineCollision` | src/learndb.rs:62-65 | with a sentinel already present, del removes it together with the target |
| `LearnDb.AddAppends` | src/learndb.rs:49-51 | with no index, or one at or past length + 1, add appends and reports (length + 1, length + 1); a large index behaves as no index |
| `LearnDb.AddFailsOnEmptyTopic` | src/learndb.rs:35-40 | on an empty topic, an index of 0 or below fails at the nil LINDEX and writes nothing |
| `LearnDb.AddInserts` | src/learndb.rs:35-47 | a positional add on a non-empty list without the sentinel resolves j within 1..length, puts the fact at position j and reports (j, length + 1) |
| `LearnDb.AddKeepsNoSentinel` | src/learndb.rs:32-54 | adding a non-empty fact to a list without the sentinel leaves it without the sentinel |
| `LearnDb.AddThenRead` | src/learndb.rs:32-54 | after a successful add to a list without the sentinel, the new length is length + 1 and get at the reported position returns the fact |
| `LearnDb.DelRemoves` | src/learndb.rs:57-67 | a delete resolving inside a list without the sentinel returns that fact and removes exactly it |
| `LearnDb.DelFailsPastEnd` | src/learndb.rs:62-65 | a delete resolving past the end fails; the list loses every sentinel, so a list without one is unchanged |
| `LearnDb.DelAgreesWithRead` | src/learndb.rs:57-67 | del succeeds exactly when get at the same index finds a fact, and returns that fact |
| `LearnDb.ColorsAppend` | src/learndb.rs:49-51 | two appends to an empty topic report (1, 1) then (2, 2) |
| `LearnDb.ColorsInsertFront` | src/learndb.rs:35-47 | inserting "green" at 1 into [red, blue] gives [green, red, blue] and reports (1, 3) |
| `LearnDb.ColorsRead` | src/learndb.rs:23-28 | index -1 on [green, red, blue] reads (3, 3, blue); an empty topic reads nothing |
| `LearnDb.ColorsDelete` | src/learndb.rs:57-67 | deleting index 2 of [green, red, blue] returns red and leaves [green, blue] |
| `LearnDb.AddReply` | src/learndb.rs:70-77 | an added reply exactly when add succeeds, carrying the resolved position and new length; otherwise the error |
| `LearnDb.DelReply` | src/learndb.rs:79-86 | a deleted reply exactly when del succeeds, echoing the user's raw index and the deleted fact; otherwise the error |
| `LearnDb.QueryReply` | src/learndb.rs:132-146 | Found exactly when a fact is present; EmptyTopic for the queried topic exactly when absent with length 0; TooFew for the queried topic and length exactly when absent with a non-zero length; GetFailed carrying the store error exactly on a store error |
| `LearnDb.LearnDB.Get` | src/learndb.rs:23-29 | get returns `Read` of the topic's current list and changes nothing |
| `LearnDb.LearnDB.Add` | src/learndb.rs:32-54 | add's reply and the topic's new list are `AddEffect` of the old list; other topics unchanged; `Clean()` preserved for a non-empty fact |
| `LearnDb.LearnDB.Del` | src/learndb.rs:57-68 | del's reply and the topic's new list are `DelEffect` of the old list; other topics unchanged; `Clean()` preserved |
| `LearnDb.LearnDB.LearnAdd` | src/learndb.rs:70-77 | the reply is `AddReply` of add's outcome, with add's effect on the store |
| `LearnDb.LearnDB.LearnDel` | src/learndb.rs:79-86 | the reply is `DelReply` of del's outcome, with del's effect on the store |
| `LearnDb.LearnDB.ProcessQuery` | src/learndb.rs:123-146 | index 1 by default; Found with the fact at the resolved position exactly when that position is within the list, EmptyTopic for the queried topic exactly when the topic is empty, TooFew(length) exactly when it is non-empty but shorter than the position; changes nothing |
| `LearnDb.LearnDB.ProcessCommand` | src/learndb.rs:98-113 | an add command behaves as learn_add, a delete command as learn_del, anything else gets no response and changes nothing; `Clean()` preserved when the added fact is non-empty |

## Left out

- `src/main.rs`: the chat connection, the event loop and message delivery are network I/O.
- `LearnDB::connect` (`src/learndb.rs:16-20`) only opens a Redis connection. The constructor takes a `Connection` instead.
- Connection or protocol failures of Redis calls are not modelled. The error replies model only the errors the commands themselves produce.
- The WATCH and optimistic retry of `redis::transaction`, and interleaving with other clients, are left out. Each transaction is one atomic step. So is the `LLEN` that precedes it, although in the source it runs outside the transaction.
- The regular expressions in `process_command` and `process_query` (`src/learndb.rs:89-129`) run on a library engine. The handlers receive the already-parsed `Command`, or the topic and optional index. The whitespace-to-`_` normalisation of the topic is omitted.
- An index too large for `isize` is not modelled. `add` would parse it to no index (`src/learndb.rs:101`). `del` would panic at the `unwrap` (`src/learndb.rs:109`), and so would a query at its `unwrap` (`src/learndb.rs:126`). Integers are unbounded here.
- The decoding of `del`'s three-reply EXEC result into a `String` is taken to yield the `LINDEX` reply. Apart from "nil is not a string", redis-rs value conversion is library behaviour.
- `format!` rendering: replies are the `Reply` datatype, not text.
- Concurrent inserts on one topic are not modelled, because each transaction is atomic here.
