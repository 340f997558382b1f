# SmartQueue core in Dafny

SmartQueue is a take-a-number queue. Customers take a ticket on a web page or on a
hardware number display (an Arduino on a serial line). Staff call the next customer,
and every view shows the number being served, the total issued and the waiting count.

This project models two parts of it:

- **The web's queue operations** (`src/services/queueService.ts`): `getQueueStatus`,
  `takeNumber` and `callNext`. They run over a store that holds one configuration row
  `(current_number, next_number)` and a table of tickets, each with a number and a
  status (waiting, serving, completed).
- **The reconciliation bridge** (`bridge.ts`): it keeps the hardware display in step with
  the store. It caches the last values it sent, and on every store change it writes only
  the `CALL`, `TAKE` and `QUEUE` lines whose field changed. A configuration update to
  `(0, 1)` is taken as a reset and answered with `RESET`. It answers the display's `REQ`
  with a full `STATE` line. A `Nguoi tiep theo:<n>` line from the display becomes a new
  waiting ticket n, with the next number moved to n + 1.

Files:

- `wrappers.dfy`: `Option`.
- `text.dfy` (module `Text`): the JavaScript string operations the bridge depends on.
  - `String.prototype.trim` over the ECMAScript whitespace set.
  - `parseInt` with no radix: leading whitespace, an optional sign, a `0x` prefix, then the longest digit run.
  - The decimal text of an integer in a template literal.
  - `split(':')[1]`.
- `queue_store.dfy` (module `QueueStore`):
  - the store's entities (from `src/types/queue.ts`);
  - its primitive updates, as functions on a `Snapshot` value;
  - a `Store` class whose methods perform those updates in place.
- `queue_service.dfy` (module `QueueService`):
  - `GetQueueStatus` is a function.
  - `TakeNumber` and `CallNext` are methods that update a `Store` step by step, just as the source makes successive store calls.
  - Each method is proved equal to a snapshot function (`TakeNumberEffect`, `CallNextEffect`), and the queue's properties are lemmas about those functions.
- `protocol.dfy` (module `Protocol`): the line protocol in both directions.
  - Rendering host commands, and a parser that reads them back.
  - The display's reaction to each command (`Apply` on a three-field `Display`). This is the reference the bridge's diffing is proved against.
  - Classifying the lines the display sends (`ParsePeerLine`).
- `bridge.dfy` (module `Bridge`):
  - the class `ArduinoBridge`: the readiness flag, the three cache fields, the store it works on, and the log of lines written to the port;
  - the handlers as methods;
  - the pure `Diff` of a sync, with its minimality, ordering, idempotence and convergence lemmas.
  - `syncStateToArduino` is written as one call per block (`SyncCurrent`, `SyncNext`, `SyncWaiting`), in the source's order.
- `scenarios.dfy` (module `Scenarios`): end-to-end scenarios on concrete stores, proved to end in the exact lines written to the display. Also idempotence and no-retry, stated for any bridge.

Each store call is one atomic step. A handler's awaited store reads and writes happen in
the order the source makes them.

Where the code's behaviour may surprise, the model follows the code:

- **`callNext` on an empty queue** returns without changing anything (`queueService.ts:65`); no error is raised.
- **`callNext` promotes the lowest-numbered waiting ticket** (`order by ticket_number`), not the oldest one.
- **`takeNumber` has no retry.** It reads, inserts and updates in three separate calls, and ignores a refused insert. It returns the number and advances the counter even when the insert was refused.

## Model

| member | source | states |
|---|---|---|
| QueueStore.Store.constructor | src/types/queue.ts:1-15 | the store holds the given configuration row (or none) and ticket table |
| QueueStore.CountStatus | bridge.ts:145-157 | the number of tickets with a status, never more than the table size |
| QueueStore.WaitingNumbers | src/services/queueService.ts:13-19 | the numbers of the waiting tickets; as many as the waiting count |
| QueueStore.WaitingNumbersMembers | src/services/queueService.ts:13-19 | x is listed exactly when some waiting ticket has number x |
| QueueStore.CountZeroIffNone | src/services/queueService.ts:57-65 | a status has count zero exactly when no ticket has it |
| QueueStore.CountAfterSetStatus | src/services/queueService.ts:73-89 | changing one ticket's status moves it from its old status count to its new one |
| QueueStore.WaitingAfterSetStatus | src/services/queueService.ts:73-89 | changing one ticket's status moves its number in or out of the waiting numbers, as a multiset |
| QueueStore.CompletingKeepsWaiting | src/services/queueService.ts:73-81 | completing a serving ticket leaves the waiting numbers unchanged |
| QueueStore.ServingRemovesWaiting | src/services/queueService.ts:83-89 | serving a waiting ticket removes exactly its number from the waiting numbers |
| QueueStore.CountAfterAppend | src/services/queueService.ts:38-43 | appending a ticket raises its status count by one and no other |
| QueueStore.WaitingNumbersAfterAppend | src/services/queueService.ts:38-43 | appending a waiting ticket appends its number to the waiting numbers |
| QueueStore.InsertTicket | src/services/queueService.ts:38-43 | the insert succeeds exactly when no non-completed ticket holds the number; then the ticket is appended as waiting, otherwise nothing changes |
| QueueStore.SetNextNumber | src/services/queueService.ts:45-51 | updating the configuration row by id changes only next_number, and changes nothing when the row is absent |
| QueueStore.SetCurrentNumber | src/services/queueService.ts:91-97 | the same for current_number |
| QueueStore.SetTicketStatus | src/services/queueService.ts:83-89 | updating a ticket by id changes that ticket's status and nothing else |
| QueueStore.Store.Insert | src/services/queueService.ts:38-43 | the in-place insert equals InsertTicket on the old contents, and reports whether it was accepted |
| QueueStore.Store.UpdateNextNumber | src/services/queueService.ts:45-51 | the in-place update equals SetNextNumber on the old contents |
| QueueStore.Store.UpdateCurrentNumber | src/services/queueService.ts:91-97 | the in-place update equals SetCurrentNumber on the old contents |
| QueueStore.Store.UpdateStatus | src/services/queueService.ts:74-89 | the in-place update equals SetTicketStatus on the old contents |
| QueueService.InsertAscending | src/services/queueService.ts:17 | inserting keeps all elements: one longer, same multiset plus x |
| QueueService.InsertAscendingSorted | src/services/queueService.ts:17 | inserting into an ascending sequence keeps it ascending |
| QueueService.SortAscending | src/services/queueService.ts:17 | `order by ticket_number ascending`: the result is ascending and a permutation of the input |
| QueueService.AscendingUnique | src/services/queueService.ts:17 | two ascending sequences with the same elements are equal, so the ordered list is determined by the waiting tickets |
| QueueService.NextToIssue | src/services/queueService.ts:36 | `next_number \|\| 1`: never 0; the row's value when present and nonzero; 1 when the row is absent or its next number is 0 |
| QueueService.CurrentOrZero | src/services/queueService.ts:22 | `current_number \|\| 0`: the row's current number when present, 0 when the row is absent |
| QueueService.GetQueueStatus | src/services/queueService.ts:6-27 | waiting is ascending and holds exactly the waiting tickets' numbers; totalQueue is its length and the waiting count; a missing row reads as current 0, next 1; next_number 0 reads as 1 |
| QueueService.StatusListsWaitingTickets | src/services/queueService.ts:13-19 | x is in the waiting list exactly when a waiting ticket has number x |
| QueueService.TakeNumberEffect | src/services/queueService.ts:29-54 | returns `next_number \|\| 1`; appends a waiting ticket with it unless a live ticket holds it; sets next_number to that number + 1 (no row: no update) |
| QueueService.TakeNumber | src/services/queueService.ts:29-54 | the method's new store and returned number are TakeNumberEffect of the old store |
| QueueService.Consecutive | src/services/queueService.ts:36-48 | the run from, from + 1, ..., with the given length |
| QueueService.TakeNumberKeepsNumbering | src/services/queueService.ts:36-53 | when every live ticket is below next_number, takeNumber returns next_number, its insert is accepted, and that invariant still holds |
| QueueService.TakeNumbers | src/services/queueService.ts:29-54 | k successive takeNumber calls return k numbers, the first being `next_number \|\| 1` |
| QueueService.TakeNumbersConsecutive | src/services/queueService.ts:36-53 | from any row whose next_number n0 is positive, k successive takeNumber calls return n0, ..., n0 + k - 1 and leave next_number = n0 + k with current unchanged |
| QueueService.TakeNumbersKeepNumbering | src/services/queueService.ts:36-53 | when every live ticket is below next_number, it still is after any number of takeNumber calls |
| QueueService.TakeNumbersAddWaiting | src/services/queueService.ts:38-43 | those calls append exactly the returned numbers to the waiting numbers; the waiting count grows by k |
| QueueService.TakeNumbersWithoutConfig | src/services/queueService.ts:30-36 | without a configuration row every call returns 1 and the row stays absent |
| QueueService.LowestWaiting | src/services/queueService.ts:57-63 | none exactly when no ticket waits; otherwise a waiting ticket whose number is least among the waiting ones |
| QueueService.OnlyServing | src/services/queueService.ts:67-71 | with a serving count of one, the serving ticket found is the only one |
| QueueService.FindStatus | src/services/queueService.ts:67-71 | an index with the status, or the table size when the count is zero |
| QueueService.FirstIndex | src/services/queueService.ts:67-71 | an index with the status, when one exists |
| QueueService.SingleServing | src/services/queueService.ts:67-71 | `maybeSingle`: a row exactly when one ticket is serving, and then it is the only serving ticket |
| QueueService.CallNextEffect | src/services/queueService.ts:56-98 | the ticket table keeps its size |
| QueueService.CallNext | src/services/queueService.ts:56-98 | the method's new store is CallNextEffect of the old store |
| QueueService.CallNextOnEmptyQueue | src/services/queueService.ts:57-65 | with no waiting ticket callNext leaves the store exactly as it was |
| QueueService.CallNextPromotesLowest | src/services/queueService.ts:57-97 | the lowest waiting ticket becomes serving; current_number becomes its number; next_number is unchanged; the single serving ticket is completed; every other ticket is unchanged |
| QueueService.CallNextSingleServing | src/services/queueService.ts:67-89 | if at most one ticket was serving, exactly one is serving afterwards |
| QueueService.CallNextRemovesPromoted | src/services/queueService.ts:83-89 | callNext removes exactly the promoted number from the waiting numbers |
| QueueService.PromotedIsHead | src/services/queueService.ts:57-63 | the promoted number is the head of getQueueStatus's waiting list |
| QueueService.CallNextWaitingMultiset | src/services/queueService.ts:56-98 | after callNext the waiting list has the elements of the old list's tail |
| QueueService.CallNextWaitingIsTail | src/services/queueService.ts:56-98 | after callNext the waiting list is exactly the old list without its head |
| QueueService.CallNextServesHead | src/services/queueService.ts:56-98 | seen through getQueueStatus, callNext makes the head of the waiting list current, leaves the tail waiting, and keeps the next number |
| Text.TrimStart | bridge.ts:90 | drops exactly a whitespace prefix, leaving a suffix that starts with a non-whitespace character |
| Text.TrimEnd | bridge.ts:90 | drops exactly a whitespace suffix, leaving a prefix that ends with a non-whitespace character |
| Text.Trim | bridge.ts:90 | the result neither starts nor ends with whitespace and is no longer than the input |
| Text.TrimPadded | bridge.ts:90 | trimming removes any whitespace padding around a core that neither starts nor ends with whitespace |
| Text.TrimStartPadded | bridge.ts:90 | the leading half of TrimPadded |
| Text.TrimEndPadded | bridge.ts:90 | the trailing half of TrimPadded |
| Text.IndexOf | bridge.ts:100 | the first occurrence of the separator, or the length when there is none |
| Text.SecondField | bridge.ts:100 | `split(':')[1]`: the text after the first separator up to the next one or the end; it contains no separator |
| Text.DigitRun | bridge.ts:100 | parseInt reads the longest prefix of digits of the radix |
| Text.IntToString | bridge.ts:173 | an integer's text is non-empty, starts with '-' exactly for negatives, and is otherwise digits |
| Text.NatToStringValue | bridge.ts:197 | the digits written for n have value n |
| Text.DecimalRoundTrip | bridge.ts:173 | the decimal text of any integer reads back as that integer |
| Text.ParseIntJs | bridge.ts:100 | parseInt gives a number only when the first non-space character is a digit, or a sign followed by a digit; a negative number only after '-' |
| Text.ParseIntJsUnsigned | bridge.ts:100 | parseInt of a digit string is its unsigned value |
| Text.ParseIntJsNegative | bridge.ts:100 | parseInt of '-' followed by digits is the negated value |
| Text.ParseIntJsRoundTrip | bridge.ts:100 | parseInt of any integer's decimal text is that integer |
| Protocol.Render | bridge.ts:173 | every command is written as a non-empty line |
| Protocol.RenderSingleLine | bridge.ts:76 | a command's line contains no '\n', so the terminator the port appends delimits exactly one line |
| Protocol.RenderAll | bridge.ts:76 | one line per command |
| Protocol.CallRoundTrip | bridge.ts:197 | a CALL line reads back as that CALL |
| Protocol.TakeRoundTrip | bridge.ts:205 | a TAKE line reads back as that TAKE |
| Protocol.QueueRoundTrip | bridge.ts:213 | a QUEUE line reads back as that QUEUE |
| Protocol.StateFieldsRoundTrip | bridge.ts:173 | the three `;`-separated fields of a STATE line read back as current, total, waiting |
| Protocol.StateRoundTrip | bridge.ts:173 | a STATE line reads back as that STATE |
| Protocol.RenderRoundTrip | bridge.ts:173 | every command line reads back as its command |
| Protocol.RenderInjective | bridge.ts:173 | distinct commands are written as distinct lines |
| Protocol.PeerReadsRendered | bridge.ts:76 | a display reading the lines written for some commands gets exactly those commands, in order |
| Protocol.Apply | bridge.ts:195-217 | on the display, CALL sets the current number, TAKE the total, QUEUE the waiting count, and nothing else changes |
| Protocol.ParsePeerLine | bridge.ts:89-113 | a line is a resync request exactly when it trims to REQ; a new ticket only when the trimmed line starts with the ticket prefix |
| Protocol.ResyncRequestPadded | bridge.ts:90-96 | REQ surrounded by any whitespace, such as a CRLF ending, is a resync request |
| Protocol.IntTextTrimmed | bridge.ts:100 | trimming an integer's text changes nothing |
| Protocol.TicketField | bridge.ts:100 | the text after the first ':' up to the next one, trimmed: it holds no ':' and no whitespace at either end |
| Protocol.TicketFieldOfPayload | bridge.ts:99-100 | for any payload after the ticket prefix, the field is the payload up to its first ':' (or its end), trimmed |
| Protocol.TicketFieldOf | bridge.ts:100 | the field after ':' in a ticket line is the ticket number's text |
| Protocol.TicketLineRoundTrip | bridge.ts:99-104 | a ticket line for any integer n, with any whitespace padding, is read as new ticket n |
| Protocol.ConfirmationLinesIgnored | bridge.ts:90-112 | a line whose trimmed text starts with one of the display's confirmation prefixes is informational only |
| Protocol.TrimTicketLine | bridge.ts:90-100 | trimming a ticket line keeps the prefix and the start of its payload |
| Protocol.MalformedTicketIgnored | bridge.ts:99-104 | a ticket line whose payload starts with a visible character that is neither a sign nor a digit (a ':' included) is dropped as informational |
| Bridge.Diff | bridge.ts:195-217 | a sync sends at most three commands |
| Bridge.DiffMinimal | bridge.ts:195-217 | CALL, TAKE (carrying next - 1) and QUEUE are each sent exactly when their field differs from the cache; nothing else is sent |
| Bridge.DiffOrdered | bridge.ts:195-217 | the commands of a sync come in the order CALL, TAKE, QUEUE, each at most once |
| Bridge.DiffApplied | bridge.ts:195-217 | after a sync's commands, each changed field shows its new value and every other field keeps what the display showed |
| Bridge.SyncConverges | bridge.ts:186-220 | when the display shows the cache, the lines of a sync bring it to the new values |
| Bridge.SyncIdempotent | bridge.ts:195-217 | a second sync to the values just cached sends nothing |
| Bridge.TransmitDiff | bridge.ts:195-217 | the lines a sync writes are Diff's commands rendered, or none when the port is not ready |
| Bridge.StateOf | bridge.ts:169-173 | the STATE command carries current, next - 1 and waiting, and sets any display to them |
| Bridge.ResetConverges | bridge.ts:246-251 | RESET brings any display to the values of the initial cache |
| Bridge.ResyncConverges | bridge.ts:159-184 | a STATE line brings any display, however stale, to the cached values |
| Bridge.PeerTicketEffect | bridge.ts:116-143 | a refused insert changes nothing; an accepted one appends waiting ticket n and sets next_number to n + 1, whatever it was |
| Bridge.PeerTicketQueued | bridge.ts:116-137 | an accepted display ticket is in the waiting list, the queue grows by one, and the current number is unchanged |
| Bridge.ArduinoBridge.constructor | bridge.ts:18-21 | a new bridge is not ready, has cache (0, 1, 0) and has written nothing |
| Bridge.ArduinoBridge.SendToArduino | bridge.ts:66-86 | the line is written exactly when the port is ready; otherwise it is dropped |
| Bridge.ArduinoBridge.GetWaitingCount | bridge.ts:145-157 | returns the number of waiting tickets |
| Bridge.ArduinoBridge.SyncStateToArduino | bridge.ts:186-220 | writes the CALL, TAKE and QUEUE lines whose field differs from the cache, in that order and only while ready; sets the cache to (current, next, waiting) either way |
| Bridge.ArduinoBridge.SyncCurrent | bridge.ts:195-201 | CALL is written only when current differs from the cache; the cache then holds current |
| Bridge.ArduinoBridge.SyncNext | bridge.ts:203-209 | TAKE next - 1 is written only when next differs from the cache; the cache then holds next |
| Bridge.ArduinoBridge.SyncWaiting | bridge.ts:211-217 | QUEUE is written only when the waiting count differs from the cache; the cache then holds it |
| Bridge.ArduinoBridge.SendCurrentStateToArduino | bridge.ts:159-184 | without a configuration row nothing changes; otherwise one STATE line, whatever the cache, which is then set to (current, next, waiting) |
| Bridge.IsResetSignature | bridge.ts:246 | an update is the reset signature exactly when its numbers are those of a fresh bridge's cache (current 0, next 1) |
| Bridge.ArduinoBridge.OnConfigUpdate | bridge.ts:237-256 | for (0, 1) exactly one RESET line and the cache (0, 1, 0); for anything else a sync |
| Bridge.ArduinoBridge.OnTicketsChange | bridge.ts:282-296 | re-reads the configuration row and syncs to it; without a row nothing changes |
| Bridge.ArduinoBridge.CreateTicketFromArduino | bridge.ts:116-143 | the store's new contents are PeerTicketEffect of the old contents |
| Bridge.ArduinoBridge.HandleArduinoMessage | bridge.ts:89-113 | REQ resends the full state and leaves the store alone; a parsed ticket line applies PeerTicketEffect and leaves the output and the cache alone; any other line changes nothing |
| Scenarios.StateLineOneThreeTwo | bridge.ts:173 | the STATE line for current 1, total 3, waiting 2, character for character |
| Scenarios.StateLineFourFiveZero | bridge.ts:173 | the STATE line for current 4, total 5, waiting 0 |
| Scenarios.QueueLineOne | bridge.ts:213 | the QUEUE line for a waiting count of 1 |
| Scenarios.CallNextAfterThreeTakes | src/services/queueService.ts:56-98 | after tickets 1, 2 and 3 are issued, callNext serves ticket 1 and makes 1 current |
| Scenarios.AnswerResync | bridge.ts:93-96 | a line that reads as REQ is answered by a resync of the cache, and the store is left unchanged |
| Scenarios.ResyncAnswer | bridge.ts:159-184 | on a ready bridge over a present row, that resync appends exactly one STATE line for the row and the waiting count |
| Scenarios.TakeThree | src/services/queueService.ts:29-54 | three takeNumber calls from next number 1 return 1, 2 and 3 and leave three waiting tickets |
| Scenarios.TakeThreeThenCall | src/services/queueService.ts:56-98 | calling next after those three serves ticket 1 |
| Scenarios.TakeThreeCallOneResync | bridge.ts:159-184 | three numbers taken and one called from a fresh queue: the display's REQ is then answered with `STATE current=1;total=3;waiting=2` |
| Scenarios.ResyncAfterOneCall | bridge.ts:89-97 | with 1 served and 2, 3 waiting, a REQ line is answered with exactly `STATE current=1;total=3;waiting=2` |
| Scenarios.StatusOfAscendingWaiting | src/services/queueService.ts:13-19 | when the stored waiting numbers are already ascending, the status lists them in store order |
| Scenarios.PeerSevenInserted | bridge.ts:116-137 | the display's ticket 7, sent while next number is 5, is appended and moves next number to 8 |
| Scenarios.PeerSevenQueued | src/services/queueService.ts:13-25 | ticket 7 then waits behind ticket 4 |
| Scenarios.PeerIssuesSeven | bridge.ts:99-104 | receiving the ticket line for 7 gives waiting list [4, 7] and next number 8 |
| Scenarios.OnlyWaitingChanged | bridge.ts:282-296 | with cache (3, 6, 2) and one waiting ticket left, a tickets event writes exactly `QUEUE 1` |
| Scenarios.DroppedThenRenotified | bridge.ts:186-220 | the update (4, 6) arriving while the port is down and again once it is open leaves nothing written and the cache at (4, 6) |
| Scenarios.DroppedChangeNeedsResync | bridge.ts:66-73 | a sync while the port is down is lost; the same update once ready writes nothing; only REQ brings the display up to date |
| Scenarios.ResetFromWeb | bridge.ts:246-251 | the reset signature writes exactly `RESET`, whatever the cache held, and leaves cache (0, 1, 0) |
| Scenarios.SyncTwice | bridge.ts:195-217 | a second sync to the same values with the store unchanged writes nothing more, and the cache holds those values |
| Scenarios.DroppedNotRetried | bridge.ts:66-73 | commands dropped while the port was down are never sent by a later sync to the same values |

## Left out

- Serial port lifecycle (`bridge.ts:23-64`): opening, retry and reconnect timers, the `error` and `close` events, raw data logging, the heartbeat and SIGINT. Readiness is the single flag `isReady`; the checks that the port exists and `port.isOpen` are folded into it.
- SendToArduino: a write is recorded as soon as it is handed to an open port. Asynchronous write errors and exceptions (`bridge.ts:75-85`) are not modelled. The `\n` the write appends is not stored in the output log; `RenderSingleLine` shows that each logged line is one protocol line.
- The store client and the realtime subscriptions (`bridge.ts:8-11`, `bridge.ts:223-308`, `src/services/queueService.ts:100-131`). The two handlers are the methods `OnConfigUpdate` and `OnTicketsChange`, called with the event's values.
- `initializeSystem` (`bridge.ts:317-340`) is not part of this model. It seeds the cache from the configuration row and then sends the full state, which is `SendCurrentStateToArduino`.
- Concurrency: the races between the separately awaited store calls of `takeNumber`, `callNext` and the handlers. Each store call is one atomic step, and each handler runs to completion.
- Timestamps (`created_at`, `served_at`, `completed_at`, `updated_at`), row ids and all console output. A ticket is identified by its position in the ticket table; tickets are never deleted in this core.
- The store is assumed to refuse an insert whose number a non-completed ticket holds; the database schema is not part of this model, so that rule is an assumption, not something read from the source.
- GetWaitingCount: does not model the store-error path that returns 0 (`bridge.ts:151-154`). Store reads always succeed. A failed configuration read in `sendCurrentStateToArduino` and the tickets handler is modelled only as an absent row.
- CreateTicketFromArduino: a failure of the configuration update after an accepted insert (`bridge.ts:137`) is not modelled; store writes other than a refused insert always succeed.
- JavaScript numbers are IEEE doubles, but here they are unbounded integers. Precision loss in `parseInt` of very long digit strings, and arithmetic on missing (`undefined`/`null`) fields, are not modelled. The configuration event's values are taken as integers.
- TakeNumbersConsecutive: stated from a positive next_number. From 0 the first call reads 1 (`NextToIssue`) and the numbering runs on from 2; a negative counter would skip 0, because `0 || 1` is 1.
- Strings hold one Unicode scalar value per element, where JavaScript indexes UTF-16 code units; the two differ only for characters outside the Basic Multilingual Plane, which the protocol lines do not use.
- LowestWaiting: among several waiting tickets with the same lowest number it picks the first in the table; the store's tie order is unspecified, so the contract promises only a lowest one.
- `resetQueue` is not part of this model; a reset is visible only through the bridge's `(0, 1)` detection. Also left out: the React pages and hooks, `authService.ts` and `api.ts`. They are UI, authentication and HTTP plumbing.
- The display's firmware is not part of this model. Its reaction to commands is the reference function `Apply`: each incremental command sets one field, STATE sets all three, and RESET clears them.
