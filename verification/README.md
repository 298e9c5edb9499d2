# Delivery engine of the chat server: model and proofs

This project models the message delivery engine of the goim chat server and proves what it promises.
A client's send is made idempotent, numbered within its chat and stored; a bounded queue feeds one
worker, which delivers to online recipients and schedules retries with exponential backoff for the
others until they acknowledge or are given up; and all of it survives restarts through two database
tables. The sliding-window connection limiter, the reassembly of input lines and the close/send
protocol of a connected user are modelled beside it.

## Layout

| file | contents |
|---|---|
| `Basics.dfy`, `Text.dfy`, `Records.dfy` | nested maps as maps on pairs, sums; ids and chat keys; messages, entries, rows, the two tables |
| `StoreSpec.dfy` | each store call as a function from state to state |
| `Store.dfy` | the store as an object with mutable maps, every method proved against `StoreSpec` |
| `StoreInvariants.dfy`, `Durability.dfy`, `Accounting.dfy`, `Halves.dfy` | what every call keeps; restarts, retry accounting, final states; statistics and the measure of remaining work; calls cut between memory and table |
| `Ledger.dfy`, `Listings.dfy` | rows and entries told by the calls that were made; which rows a query loads, in which order and where it is cut |
| `Backoff.dfy`, `Rounds.dfy`, `Schedule.dfy` | the delays; one delivery round; the schedule over whole runs of ticks and failures |
| `Queue.dfy`, `Delivery.dfy`, `Engine.dfy` | the queue under every interleaving; the worker object; the worker step by step among everything else |
| `Quiet.dfy`, `Prompt.dfy` | why offline retries end and after how many rounds at most; when an attempt is on time |
| `Logic.dfy`, `Sending.dfy`, `Replay.dfy`, `Content.dfy`, `Numbering.dfy`, `Service.dfy` | the service as a state machine over sends, events, store calls and restarts; its invariant; what senders are promised; what is on record, delivered and shown of a request; numbers when sends overlap; the service objects |
| `History.dfy`, `Limiter.dfy`, `Framing.dfy`, `Session.dfy` | history, connection limiter, line reassembly, closing a connected user |

## How it is modelled

*State.* The store's four maps are fields that methods reassign. The specification sees a nested map
as one map on pairs (`Flat`). Delivery entries are values inside the map, not pointers: the original
never lets an entry pointer leave its map. The database is a sequence of messages in insertion order,
unique on the server id and on (sender, client id), and a map of recipient rows, unique on (server
id, user), with their insertion order. A store is persistent or not for its whole life; both kinds are
modelled, since their branches differ.

*Steps.* One store call is one atomic step and reads the clock once; runs are arbitrary sequences of
calls with arbitrary arguments. A restart empties memory and keeps the tables. `Engine` cuts a round of
the worker into its store calls and a fetch into its query and one push for each id answered, so that
anything may happen between a tick's query and its pushes. `Numbering` cuts a send into taking a number
and saving, and `Halves` cuts the marking calls into the section under the lock and the statement on the
table. `ProcessSend` is one atomic step of the service that reads the clock once for each place where
the code does (`Times`); `RaceDuplicates`, `RaceRejectedByTable` and `RaceReplays` show what happens
when it is not atomic. In `Queue` and `Session` each locked section, channel operation and wait is a
step of its own.

*Assumptions about the environment.* Database operations succeed and compare keys exactly. Stored
times are exact. Rows asked for without an order come in primary-key order; rows tied on the retry
time or on the number come in any order, as does a walk over a map. There is no Redis client. The
service clock never goes back, and a restart takes the process into a later millisecond than its last
clock reading: ids are "prefix-millis-counter" and the counter restarts at zero, so without this two
ids can be equal (`ServerIdInjective` says exactly when). In the scheduling results the clock has
passed its first second. Who is online is an arbitrary input of each round.

*Sorting.* The library sort of the history is represented by insertion; the proofs use only that its
result is ascending and has the same elements. Its order of equal numbers is not fixed.

## What the proofs show about the code

* What is saved is what was sent (`OutcomeExactly`), and stays so: on record (`SentStays`), in what
  recipients are written (`SentArrives`) and in histories (`SentInHistory`), where receipts show
  (`ReceiptsShown`).
* The columns of a row can be read off the calls that were made: its times, its status as long as
  nothing writes it off, its retry time and its error text (`RowTimes`, `StatusTold`, `RowDueTold`,
  `RowTextTold`).
* Delivered and read are not final. A failed attempt at an entry whose memory counter is used up writes
  "dead" over whatever the row holds (`ReadCanBecomeDead`); `SettledRowChanges` gives the exact
  condition. What never happens is a return to pending.
* System events share one sender and an empty client id, so only the first ever reaches the message
  table (`EventStoredOnlyOnce`), and the recipients of the others are given up after a restart
  (`UnlistedEventGivenUp`).
* Two private conversations share a chat key exactly when they have the same unordered pair of names or
  when a colon in a name lets the separator move (`ChatKeyCollision`, `ChatKeyClash`).
* The two ways of computing a history give the same output exactly when the messages' numbers are
  distinct and every message carries the status that its row shows (`HistoryAgrees`); with distinct
  numbers alone they agree up to the status (`AgreeUpToStatus`). The numbers are distinct whenever the
  conversation was kept under one chat (`OneChatDistinct`), and a tie is reachable otherwise
  (`TieReachable`).
* After a lost race the second caller's id answers replays until the next restart and is unknown
  afterwards (`RaceReplays`).
* A thread can push an id long after the query that found it. A round may have failed the delivery in
  the meantime, and a failure asks for no due time, so an attempt can come before its time
  (`EarlyFailure`). `OnTimeExactly` says when an attempt is on time, and `PromptGivesUpLate` what holds
  when all are. For the same reason a unit of remaining work can cost one round and one more for each
  fetching thread (`OfflineGoesQuiet`), and does (`BoundAttained`).
* Overlapping sends of one chat can be stored out of order (`OutOfOrder`), but never under one number
  (`NumbersDistinct`).
* A full queue drops an id silently, and an entry that was sent on its first attempt has no retry time.
  So no result here says that a message is eventually delivered.
* `docs/doc/issue39_s2c_retry_dlq.md` says that a delivery is given up after exceeding the maximum number
  of retries; the code gives it up on reaching it. The model follows the code.

## Model

| member | source | states |
|---|---|---|
| Text.ServerIdInjective | internal/server/logic.go:23-30 | two server ids are the same text exactly when prefix, millisecond and counter all agree |
| Text.ChatKeySymmetric | internal/utils/helpers.go:3-8 | the private-chat key does not depend on who names whom first |
| Text.ChatKeyCollision | internal/utils/helpers.go:3-8 | for arbitrary names, exactly when two pairs share a key: the same pair, or one with the separator moved by a colon inside a name |
| Text.ChatKeyInjective | internal/utils/helpers.go:3-8 | on names without a colon a key belongs to one unordered pair |
| Text.ChatKeyClash | internal/utils/helpers.go:3-8 | a concrete clash of two different pairs when a name holds a colon |
| Text.ChatKeyForm | internal/utils/helpers.go:3-8 | the key names the user that comes first in a dictionary first, whoever sends |
| Text.ServerIdReadsBack | internal/server/logic.go:23-30 | an id reads back: prefix, then millisecond, then counter, both in decimal |
| Text.TrimExact | internal/server/logic.go:24-36 | trimming takes the longest runs of spaces off both ends and nothing else |
| Records.MaxSeqExact | internal/store/messages.go:24-32 | the base a chat's counter is recovered from bounds every stored number of the chat and, unless zero, is one of them |
| Store.InMemoryStore.constructor | internal/store/types.go:31-39 | a new store is empty |
| Store.InMemoryStore.NextSeq | internal/store/messages.go:17-36 | hands out the successor of the cached or stored counter, and moves only that counter |
| Store.InMemoryStore.SaveMessageWithRecipients | internal/store/messages.go:42-87 | refuses an empty id; else writes message and recipient rows where the unique keys allow, fills both message maps and adds missing entries |
| Store.InMemoryStore.GetMessageByClientID | internal/store/messages.go:89-114 | answers from memory, else from the table, and caches what the table answered |
| Store.InMemoryStore.GetMessageByServerID | internal/store/messages.go:116-141 | the same by server id; a message found nowhere has its pending rows marked dead |
| Store.InMemoryStore.SaveMessageUnsafe | internal/store/messages.go:143-151 | both indexes, the second only under a sender and client id |
| Store.InMemoryStore.SaveDelivery | internal/store/delivery.go:14-35 | adds entry and row unless they exist, nothing for empty names |
| Store.InMemoryStore.SaveDeliveryUnsafe | internal/store/delivery.go:37-44 | adds a fresh entry only where there is none |
| Store.InMemoryStore.GetRecipients | internal/store/delivery.go:46-94 | lists the pending recipients of memory, each once; if there are none, those of the table, which it caches |
| Store.InMemoryStore.MarkDeliverySent | internal/store/delivery.go:96-118 | counts one attempt in the entry and in the row, and changes nothing else |
| Store.InMemoryStore.MarkDeliveryAcked | internal/store/delivery.go:120-147 | sets the flag; raises the row to delivered only from pending |
| Store.InMemoryStore.MarkDeliveryRead | internal/store/delivery.go:149-174 | sets both flags and the row to read |
| Store.InMemoryStore.DeliveryStats | internal/store/delivery.go:176-219 | the nested loops count given-up, read, delivered and pending entries, in this order of precedence; with tables, the rows of each status |
| Store.InMemoryStore.MarkRecipientRowsDeadIfMessageMissing | internal/store/delivery.go:221-231 | only the message's pending rows become dead, with the reason or its default |
| Store.InMemoryStore.CountFailure | internal/store/retry.go:27-59 | the locked section: counts, and either kills at the limit or sets the next retry time |
| Store.InMemoryStore.CountRowFailure | internal/store/retry.go:64-94 | the table section: missing row, settled row, last failure, or a new retry time |
| Store.InMemoryStore.ScheduleRetry | internal/store/retry.go:12-101 | the whole failure path in both modes, with both results: dead, and row missing |
| Store.InMemoryStore.GetDueRetryServerMsgIDs | internal/store/retry.go:103-156 | for every order of walking the maps: ids with a pending due entry, each once, all unless cut; with tables, the due rows, loaded into memory |
| Store.InMemoryStore.RecoverPendingServerMsgIDs | internal/store/retry.go:158-204 | the ids of the oldest pending rows, in order of first appearance, which are loaded; in memory those of all unread deliveries, dead ones included |
| Store.InMemoryStore.ListPendingServerMsgIDsByUser | internal/store/retry.go:206-258 | the ids of the user's oldest pending rows, in order of first appearance, which are loaded; in memory those of unread deliveries, dead ones included |
| Store.DedupeStrings | internal/store/helpers.go:5-19 | the loop computes `Dedupe` |
| Durability.DedupeExact | internal/store/helpers.go:5-19 | `Dedupe` has no duplicates and exactly the non-empty elements |
| Listings.DedupeIds | internal/store/helpers.go:5-19 | and keeps first occurrences, in their order |
| StoreInvariants.ScheduleRetryEffect | internal/store/retry.go:28-94 | a failure rewrites its own entry and row, as stated, and no other |
| StoreInvariants.InitInv | internal/store/types.go:31-39 | a new store, with tables or without, satisfies the coupling invariant |
| StoreInvariants.StepKeeps | internal/store/retry.go:12-258 | every store call and every restart keeps the coupling of memory and tables; no row returns to pending; flags and counters only rise outside restarts |
| StoreInvariants.RunKeeps | internal/store/delivery.go:14-174 | the same over every run, restarts anywhere: each entry has a row, a settled entry has no pending row, the durable counter never lags |
| StoreInvariants.RunMonotone | internal/store/delivery.go:96-174 | between restarts acknowledged, read and dead are never taken back |
| Durability.StepEntry | internal/store/delivery.go:96-174 | an entry changes only by the call that names it, in that call's way, whatever else runs |
| Durability.StepRow | internal/store/retry.go:36-94 | a row changes only by the calls that name it, in those calls' way |
| Durability.LoadedExact | internal/store/retry.go:182-189 | for every limit: which pending rows a recovery loads and which it leaves behind; all are loaded when they fit in the limit or there is none, otherwise exactly `limit` |
| Durability.LoadedAreOldest | internal/store/retry.go:183-186 | every row left behind was inserted after every row loaded |
| Listings.LoginLoads | internal/store/retry.go:237-248 | for every limit, a login loads pending rows of its user, each once, in the order of insertion: all when they fit, otherwise exactly `limit`, and every row left out was inserted after every row loaded |
| Listings.RecoveryLoads | internal/store/retry.go:182-192 | the same for a recovery and all users |
| Listings.OldestUnique | internal/store/retry.go:183-240 | this determines which rows are loaded, and in which order |
| Listings.RecipientsInOrder | internal/store/delivery.go:77-86 | recipients answered by the table are in the order of their rows |
| Listings.RowsInOrder | internal/store/messages.go:52-60 | saving a message appends one row for each named recipient without one, in the order in which they are first named |
| Durability.RecoverIdsExact | internal/store/retry.go:182-203 | for every limit, a recovery returns exactly the ids of the rows it loads, each once |
| Durability.RecoverRestores | internal/store/retry.go:182-203 | it leaves a pending entry for every row it loads, touches no other entry and writes nothing |
| Durability.CrashThenRecover | internal/store/retry.go:158-204 | after a restart in any reachable state and for every limit, recovery rebuilds exactly one fresh entry per row it loads and returns exactly their ids |
| Durability.MemoryNeverKillsEarly | internal/store/retry.go:28-84 | whether a failure is final for a pending row depends on its durable counter alone, although memory decides first |
| Durability.RescheduleBound | internal/store/retry.go:64-94 | across any number of restarts a row is put back at most the limit less one times |
| Durability.EntryCountsAttempts | internal/store/delivery.go:96-104 | under every interleaving an entry's counter grows by exactly the number of attempts at it |
| Durability.RowCountsAttempts | internal/store/delivery.go:106-117 | the same for a row still pending, across restarts |
| Durability.DeadExactly | internal/store/retry.go:61-100 | for a stored message, when only failures mark a delivery, over every interleaving and restart its row is dead exactly when the attempts have used up the limit, and else pending |
| Durability.SettledRowChanges | internal/store/retry.go:38-40 | exactly which calls change the status of a row that has left pending |
| Durability.ReadCanBecomeDead | internal/store/retry.go:28-40 | for every limit, a run in which a read delivery ends as dead |
| StoreInvariants.MarkAckedRow | internal/store/delivery.go:135-138 | a receipt turns a pending row into a delivered one, leaves every other status, and changes no other row |
| Ledger.StatusTold | internal/store/delivery.go:120-174 | after any run, restarts included, in which nothing writes a row off: read if there was a read receipt, else delivered if it was pending and there was a receipt, else as before |
| Ledger.WrittenOffExactly | internal/store/retry.go:28-84 | a call turns a row dead exactly when it is a failure that uses up the limit of the entry or of the pending row, or a look-up that finds the message nowhere |
| Ledger.DeadHasCause | internal/store/retry.go:28-84 | every run that ends with a dead row has such a call |
| Ledger.RowTimes | internal/store/delivery.go:109-169 | after any run, restarts included, the three times of a row are those of the last read receipt, the last receipt and the last send |
| Ledger.RowDueTold | internal/store/retry.go:71-93 | a row pending after a run is due at its last failure plus the delay for the number of attempts by then |
| Ledger.RowTextTold | internal/store/delivery.go:109-114 | and shows the error text of its last attempt |
| Ledger.OrphanedRow | internal/store/delivery.go:221-231 | what a look-up that finds no message leaves in the rows of that message and in all others |
| Ledger.RunDeadUnscheduled | internal/store/retry.go:36-84 | over any run a dead row has no retry time |
| Ledger.FlagsTold | internal/store/delivery.go:120-158 | between restarts an entry is acknowledged, or read, exactly when there has been such a receipt |
| Ledger.EntryTold | internal/store/delivery.go:96-104 | it shows the time of the last send and the text of the last failure |
| Ledger.EntryDueTold | internal/store/retry.go:27-57 | the last failure has killed it exactly when the attempts by then had used up the limit, and otherwise set its retry time |
| Ledger.UnreadTold | internal/store/retry.go:159-228 | in memory mode the ids listed at a start or a login are those with a delivery for which there was no receipt, given up or not |
| Ledger.FoundHasCause | internal/store/retry.go:105-124 | in memory mode a tick finds only messages with a pending delivery that has failed and whose delay has passed |
| Ledger.DeadReported | internal/store/retry.go:28-84 | a failure reports a delivery as given up exactly when it leaves it given up |
| Ledger.KilledRow | internal/store/retry.go:36-40 | a row that memory kills shows the count of memory |
| Ledger.NewRow | internal/store/messages.go:56-58 | every row that a call adds is pending, without attempts, times or errors, and named by that call |
| Ledger.NewEntry | internal/store/delivery.go:37-44 | so is every entry, named by the call or brought back from a pending row |
| Ledger.InsertExact | internal/store/messages.go:49-51 | a message is appended to the table exactly when neither its id nor its sender and client id are there |
| Ledger.RunUnique | internal/store/messages.go:49-51 | whatever is saved, over any run, both stay unique |
| Durability.ScheduledStaysFindable | internal/store/retry.go:52-57 | an entry with a retry time keeps one, so while pending it is found once due, even if the queue dropped its id |
| Durability.ScheduledRowStaysFindable | internal/store/retry.go:90-92 | the same for the table, across restarts: a pending row with a retry time keeps one and is due from then on |
| Durability.DueIdsExact | internal/store/retry.go:134-155 | for every limit: exactly the ids of the rows answered, each once; all due ids when fewer than the limit are answered, otherwise none left out was due earlier |
| Durability.SettledNeverDue | internal/store/retry.go:105-124 | in memory mode a message with nothing pending is never found by a tick again |
| Accounting.ClassesPartition | internal/store/delivery.go:181-196 | the four counts add up to the number of entries |
| Accounting.PendingIsRecipients | internal/store/delivery.go:46-59 | the pending count is the total size of all recipient lists |
| Accounting.ClassMeaning | internal/store/delivery.go:186-195 | an entry counts as given up before read, as read before delivered, and as delivered before pending |
| Halves.HalvesMakeTheCall | internal/store/delivery.go:96-174 | with nothing in between, the locked section and the statement on the table are the call |
| Halves.HalvesCoupled | internal/store/delivery.go:96-174 | however the halves of attempts and receipts interleave, across restarts: each entry has its row, and memory and table agree fully whenever no call is under way |
| Halves.HalvesNeverKillEarly | internal/store/retry.go:27-68 | and memory still never kills a pending row before its durable counter would |
| Backoff.DelayShape | internal/store/retry.go:52-56 | delays start at the base, double until the seventh, and stay within base and 64 base |
| Backoff.TotalDelayClosed | internal/store/retry.go:86-90 | the sum of the first n delays in closed form |
| Backoff.FreshDiesAtLimit | internal/store/retry.go:30-56 | a fresh entry is dead after exactly the limit of failures, and until then due at its last attempt plus that delay |
| Backoff.GivingUpTakes | internal/store/retry.go:103-124 | an entry retried only when due is given up no earlier than the sum of its delays, in whole seconds |
| Backoff.DefaultDelays | internal/store/retry.go:16-21 | without configuration: five attempts, and delays of 2, 4, 8 and 16 seconds |
| Schedule.TicksKeepSchedule | internal/store/retry.go:103-155 | when every failure but the first follows a tick that found the delivery, with no other failure in between, each failure is counted when due, with tables or without, whatever else runs, restarts included |
| Schedule.GivenUpOnSchedule | internal/store/retry.go:27-100 | a new delivery whose failures are all counted when due is given up exactly after as many as the limit, and then at least the sum of its delays has passed |
| Schedule.GivenUpAfterDelays | internal/store/retry.go:27-155 | so it is when every failure but the first follows a tick of its own |
| Schedule.DefaultSchedule | internal/store/retry.go:16-21 | without configuration a delivery that fails when due is given up after five failures, at least thirty seconds after the first |
| Rounds.TargetsExact | internal/delivery/worker.go:88-99 | targets are the listed recipients and after them the direct recipient, nobody twice |
| Rounds.DeliveredExact | internal/delivery/worker.go:113-126 | exactly one delivery per reachable target, with the message's chat, sender, number, text and time |
| Rounds.DeliveredInOrder | internal/delivery/worker.go:101-126 | they are written in the order of the targets |
| Rounds.OnlineAttempt | internal/delivery/worker.go:113-127 | an attempt at somebody online is recorded as a send without error |
| Rounds.OfflineAttempt | internal/delivery/worker.go:102-111 | and at somebody offline as a failure with its text |
| Rounds.RoundExact | internal/delivery/worker.go:101-128 | a round leaves each target's entry and row as one attempt on the initial state would, and everything else alone |
| Rounds.RoundCountsOnce | internal/delivery/worker.go:101-128 | each target's entry gains exactly one attempt |
| Engine.RoundInterleaved | internal/delivery/worker.go:75-131 | with any receipts, queries, pushes, sends and logins between the attempts of a round, each target gets exactly one attempt and no other delivery gets any |
| Engine.DeliveryIsRun | internal/delivery/worker.go:75-131 | an undisturbed delivery of the worker object is a run of these steps and one round |
| Engine.EnqueueAgrees | internal/delivery/worker.go:35-54 | an undisturbed enqueue of the queue object is one here, followed by a drop when there is no room |
| Engine.DequeueAgrees | internal/delivery/worker.go:75-82 | an id stays in flight until its round ends, here as there |
| Engine.AnswersCovered | internal/delivery/worker.go:56-142 | whatever the store answers to a tick, recovery or login can be what a query takes |
| Quiet.FailureCosts | internal/store/retry.go:28-94 | a failure adds to nobody's remaining work, and at a live delivery it uses some up |
| Quiet.CostIsFailures | internal/store/retry.go:28-56 | the work left in a pending entry is the number of failures that settle it |
| Quiet.RowCostIsFailures | internal/store/retry.go:70-93 | and so is that in a pending row |
| Quiet.EveryStepPays | internal/delivery/worker.go:56-142 | with nobody online no step raises the potential, late pushes included, and a step that ends a round lowers it |
| Quiet.ReachableHoused | internal/store/messages.go:80-85 | in every reachable state of a store without tables, a message with deliveries is in memory |
| Quiet.OfflineGoesQuiet | internal/delivery/worker.go:56-142 | from every reachable state, with tables and restarts or without, the rounds that finish while nobody is online are at most the ids queued and held at the start, and for each unit of work lost one round and one late push by each fetching thread |
| Prompt.OnTimeExactly | internal/delivery/worker.go:133-142 | after any run an attempt is on time exactly when its id stems from a tick that found the delivery with no failure counted since, or the delay after the latest failure has passed, or there has been no failure |
| Prompt.PromptKeepsSchedule | internal/delivery/worker.go:133-142 | a run in which every attempt but the first has its id from such a tick counts every failure when due |
| Prompt.PromptGivesUpLate | internal/store/retry.go:27-100 | in such a run a new delivery is given up exactly after as many failures as the limit, and no earlier than its delays add up to |
| Prompt.EarlyFailure | internal/delivery/worker.go:133-142 | a run with one ticking thread in which the second failure comes before the time the first has set |
| Prompt.BoundAttained | internal/delivery/worker.go:133-142 | a run with one ticking thread and one unit of work in which two rounds finish |
| Prompt.RipeReachable | internal/store/retry.go:27-100 | the states of these two runs are reachable |
| Queue.RunPartition | internal/delivery/worker.go:35-54 | under every interleaving the in-flight set is the disjoint union of held, queued and processed ids; no duplicates, at most 1024 queued |
| Queue.StartPartition | internal/delivery/worker.go:24-33 | the partition holds in a new worker |
| Queue.FirstInFirstOut | internal/delivery/worker.go:47-76 | what was queued and pushed is what was taken, in order, followed by what is queued |
| Queue.EnqueueIsRun | internal/delivery/worker.go:35-54 | an undisturbed enqueue is a run of the machine |
| Queue.BatchIsRun | internal/delivery/worker.go:56-68 | an undisturbed batch of enqueues is a run of the machine |
| Queue.DequeueIsRun | internal/delivery/worker.go:75-82 | what a delivery does to the queue is a run of taking and finishing |
| Queue.BatchReaches | internal/delivery/worker.go:56-68 | after a batch every named id is in flight unless the queue is full, and nothing queued is displaced |
| Queue.BatchExact | internal/delivery/worker.go:56-68 | a batch puts behind what is queued the ids not in flight yet, each once, in order of first appearance, as far as there is room, and reserves just these |
| Delivery.RecipientsComplete | internal/store/delivery.go:46-94 | in a good state the answer lists, once each, exactly the recipients pending after caching |
| Delivery.Worker.EnqueueServerMsg | internal/delivery/worker.go:35-54 | refuses empty and in-flight ids, queues when there is room, else withdraws |
| Delivery.Worker.EnqueuePendingForUser | internal/delivery/worker.go:56-61 | queues the ids of the user's oldest pending rows, in order of first appearance; without tables those the store lists |
| Delivery.Worker.RecoverPendingDeliveries | internal/delivery/worker.go:63-68 | an undisturbed start-up leaves the id of every row it loads in flight, or the queue full; when the pending rows fit in the limit, that is every message with one; without tables the ids are those of all unread deliveries |
| Delivery.Worker.DeliverNext | internal/delivery/worker.go:75-131 | one round: the oldest id leaves the queue and the in-flight set, its targets are attempted, and what is written is stated |
| Delivery.Worker.RetryTick | internal/delivery/worker.go:133-142 | queues up to 500 due ids |
| Logic.FreshId | internal/server/logic.go:28-29 | the next id has never been given out, by this process or an earlier one |
| Sending.NextSeqAbove | internal/store/messages.go:24-35 | the next number is above every stored number of the chat |
| Sending.NumberAfterNumber | internal/store/messages.go:17-36 | the number after a number is its successor, and other chats are not affected |
| Sending.NumberAfterRestart | internal/store/messages.go:24-35 | after a restart a chat goes on with the successor of its greatest stored number, or with 1 |
| Sending.NextKeeps | internal/server/logic.go:32-68 | every send, event, store call and restart keeps the service invariant |
| Sending.RunKeepsAll | internal/server/logic.go:32-68 | the same over every run |
| Content.OutcomeExactly | internal/server/logic.go:32-68 | a send is refused exactly without a sender, answered exactly when one of its sender and client id is in memory or in the table, and otherwise saved with the sender, recipient, text and chat of the request |
| Content.UnnamedSendsDiffer | internal/server/logic.go:39-41 | sends without a client id at different clock readings are different sends |
| Content.SentStays | internal/server/logic.go:53-68 | after a saved send and any run, restarts included, the message under the acknowledged id has the acknowledged number and the sender, recipient, chat and text of the request, and after a restart the creation time of its row |
| Content.EventStays | internal/server/broadcast.go:11-31 | a system event keeps its text until a restart, and for good when no earlier event is in the table |
| Content.SentArrives | internal/delivery/worker.go:83-127 | whenever the worker comes to a saved message, the one addressed and everybody still waiting who can be reached is written to once, with the sender, chat, number and text that were sent |
| Content.SentInHistory | internal/store/history.go:17-52 | a saved private message is in the conversation of its two users, whoever asks, after any run |
| Content.ReceiptsShown | internal/store/history.go:31-37 | after any run in which nothing writes it off, a history shows a message as read after a read receipt of its recipient, else as delivered after another |
| Content.ConversationInOrder | internal/server/logic.go:45-51 | as long as no client names a chat, a conversation is under one key in both directions, and its numbers are distinct |
| Content.LookUpRemembers | internal/store/messages.go:104-113 | a look-up by client id does not change answers, and afterwards memory alone can give them |
| Content.LookUpByIdRemembers | internal/store/messages.go:128-140 | the same by server id |
| Replay.Idempotent | internal/server/logic.go:42-44 | after a saved send and anything else, restarts included, a send with the same sender and client id returns the first id and number and has no effect |
| Replay.OnePerClientId | internal/store/messages.go:143-151 | in every reachable state a sender's client id names one message, and both indexes hold the same messages |
| Replay.NumbersNeverRepeat | internal/store/messages.go:17-36 | with sends one after the other, in every reachable persistent state stored numbers of a chat rise strictly, restarts included, and the next is above them |
| Numbering.NumbersDistinct | internal/server/logic.go:52-64 | however numbering and saving of many senders interleave, and across restarts, no two messages on record share a number of their chat, and the next number is above all on record or under way |
| Numbering.OutOfOrder | internal/server/logic.go:52-64 | a run in which the second number is stored first |
| Numbering.StepsAreCalls | internal/store/messages.go:17-87 | every step of these interleavings is a store call |
| Replay.NumbersDense | internal/server/broadcast.go:7-29 | without a database the numbers of each chat are exactly 1..n, one message each |
| Replay.TieReachable | internal/server/logic.go:45-52 | two sends of one pair under chats of their own naming reach a history with a tie |
| Replay.OneChatDistinct | internal/store/history.go:17-23 | in every reachable state a conversation under one chat has distinct numbers |
| Replay.SavedStartsDeliveries | internal/store/messages.go:52-85 | a saved message starts one fresh delivery per named recipient and changes no earlier one |
| Replay.RaceDuplicates | internal/server/logic.go:42-64 | without a database, two overlapping sends leave two messages under one client id |
| Replay.RaceRejectedByTable | internal/server/logic.go:42-64 | with one, the table keeps the first and never knows the second id |
| Replay.RaceReplays | internal/store/messages.go:89-114 | after such a race a replay gets the second id until a restart, and the first afterwards |
| Replay.EventStoredOnlyOnce | internal/server/broadcast.go:11-19 | a system event reaches the table exactly when no earlier one has |
| Replay.UnlistedEventGivenUp | internal/store/messages.go:129-135 | after a restart, looking up a message that is not in the table leaves none of its rows pending |
| Service.LogicService.GenerateServerMsgID | internal/server/logic.go:23-30 | trims the prefix, defaults it, and counts |
| Service.LogicService.ProcessSend | internal/server/logic.go:32-68 | the three outcomes, the state after each, the client id filled in, and of a saved message the sender, recipient, chat and text, with a clock reading for each place that reads it |
| Service.LogicService.HandleDeliverAck | internal/server/logic.go:70-75 | a receipt marks its own delivery; an empty name or id does nothing |
| Service.LogicService.HandleReadAck | internal/server/logic.go:77-82 | the same for reading |
| Service.Server.BroadcastSystemEvent | internal/server/broadcast.go:7-32 | saves an event with the given text for everybody online but one and queues it under the returned id |
| Service.Server.HandleClientSend | internal/server/messages.go:28-59 | acknowledges with the id and number on record, and queues only what this call saved |
| History.FromMemory | internal/store/history.go:45-59 | for every order of the map: the newest messages of the pair up to the limit, ascending |
| History.ShownIsRecipients | internal/store/history.go:29-37 | in a conversation the other side of a message is its recipient, whoever asks |
| History.BothSides | internal/store/history.go:17-20 | a conversation is the messages between just these two, in both directions |
| History.FromTable | internal/store/history.go:17-42 | the query's rows, oldest first, each with the status of its recipient's row, or its own without one |
| History.GetC2CHistory | internal/store/history.go:10-43 | nothing for an unnamed side, else one of the two, with the recipient's status from the table |
| History.ReverseMessages | internal/store/helpers.go:21-25 | the in-place loop reverses the array |
| History.ReversedAnswers | internal/store/history.go:18-41 | reversing a descending limited query gives the newest messages ascending |
| History.AnswerUnique | internal/store/history.go:54-57 | with distinct numbers there is one such list |
| History.RowsAgree | internal/store/history.go:17-59 | before the status is looked up, both computations agree for every limit and every order exactly when the numbers are distinct |
| History.AgreeUpToStatus | internal/store/history.go:10-59 | with distinct numbers the two outputs differ at most in the status |
| History.HistoryAgrees | internal/store/history.go:10-59 | the two outputs are equal for every limit and every order exactly when the numbers are distinct and every message carries the status its row shows |
| Limiter.FilterInPlace | internal/server/conn_security.go:46-52 | filtering into the front of the same array keeps exactly the recent records in order |
| Limiter.ConnectionLimiter.AllowConnection | internal/server/conn_security.go:35-59 | admits as the limiter that forgets nothing would, with the reason; an empty or blacklisted address leaves no record |
| Limiter.RecordsSuffice | internal/server/conn_security.go:46-57 | the limiter forgets only accepts that no later window can contain |
| Limiter.WindowBound | internal/server/conn_security.go:42-58 | at most the limit is accepted in any window, wherever it ends |
| Limiter.RefusedExactlyWhenFull | internal/server/conn_security.go:53-58 | an address that is not blacklisted is refused exactly when its current window is full |
| Limiter.Refines | internal/server/conn_security.go:35-59 | after any run, with its pruned records: an address is admitted exactly when it is empty, or not blacklisted and admitted fewer than the limit in its current window |
| Limiter.Verdict | internal/server/conn_security.go:36-41 | an empty address is admitted and a blacklisted one refused, neither leaves a record |
| Framing.ReadRawLine | internal/server/conn.go:71-94 | the two loops compute the reading of one line, and where the reader stops |
| Framing.FramingIndependent | internal/server/conn.go:71-94 | however lines are cut into fragments: one result per line, by its length alone, ending at the start of what follows |
| Framing.UnfinishedFails | internal/server/conn.go:75-86 | a line whose last fragment never arrives is never delivered, not even in part |
| Framing.DeliveredIsOneFragment | internal/server/conn.go:89-91 | with a buffer larger than the limit a delivered line is one fragment, so no chunk is kept across reads |
| Session.StepKeeps | internal/session/session.go:51-125 | every step of a sender, the listener, Close or Logout keeps the invariant of lock, onces, flag and channel |
| Session.NeverPanics | internal/session/session.go:61-125 | under every interleaving the channel is closed at most once, after the flag, and no send or close meets a closed channel |
| Session.InOrder | internal/session/session.go:51-59 | the listener receives the accepted messages in order, none lost or invented |
| Session.NeverStuck | internal/session/session.go:104-125 | if some thread is not just waiting for a message, some thread can move |
| Session.RunsEnd | internal/session/session.go:51-125 | without new operations no run is longer than the effort at its start, overflow logouts and buffered messages included |
| Session.Completes | internal/session/session.go:61-109 | where such a run comes to rest every close and logout begun is complete, after a close no thread is left, and a listener that is left has taken every accepted message |
| Session.DoomedCloses | internal/session/session.go:51-125 | after a failed write or an overflow, wherever the run comes to rest, the user is closed and no thread is left |
| Session.SendAlone | internal/session/session.go:111-125 | an undisturbed run of the steps of a send has the effect of `SendMsg`: the message is accepted exactly when the user is open and there is room, and a logout is started exactly on overflow |
| Session.CloseAlone | internal/session/session.go:61-69 | an undisturbed run of the steps of a close has the effect of `Close`, whether it is the first or not |
| Session.LogoutAlone | internal/session/session.go:104-109 | an undisturbed run of the steps of a logout has the effect of `Logout`, whether it is the first or not |
| Session.Connection.SendMsg | internal/session/session.go:111-125 | drops after closing, buffers while there is room, else asks for a logout |
| Session.Connection.Close | internal/session/session.go:61-69 | sets the flag; however often it is called, the channel has been closed exactly once |
| Session.Connection.Logout | internal/session/session.go:104-109 | only the first call says farewell and closes |

## Left out

- Redis: the cached lists and their expiry in the store, and the online keys; there is no client in the model.
- GORM and MySQL: collations, column sizes, failing statements and migrations; the two tables stand for them.
- Interruption inside a call: a restart falls between store calls. Each call writes the tables at most once or in one transaction, and memory is lost anyway, so a restart inside a call has the effect of one before or after it; in `Load` a restart after a prefix of the rows likewise.
- Interleaving inside a store call: outside `Halves`, the section under the lock and the statement on the tables are one step, and so are a query and the loading of its rows.
- Delivery.Worker.DeliverNext: states the effect of a round that nothing interrupts; `DeliveryIsRun` ties it to the steps of `Engine`, where `RoundInterleaved` covers what comes in between.
- Delivery.Worker.RecoverPendingDeliveries: states the effect of a start-up that nothing interrupts, while the program has started the worker by then; `Engine` has the query and each push as steps among the worker's.
- Service.LogicService.ProcessSend: is one atomic step; what overlapping sends do is stated separately (`RaceDuplicates`, `RaceRejectedByTable`, `RaceReplays`, `NumbersDistinct`).
- Replay.NumbersNeverRepeat: is about sends that do not overlap; `NumbersDistinct` is about those that do.
- Quiet.OfflineGoesQuiet: without tables only ticks feed the queue, since a login is not offline and a recovery at start-up finds memory empty.
- Eventual delivery: not claimed, because a full queue drops ids and a first successful send sets no retry time.
- Nil pointers other than a missing request: the store's check for a missing message, and entries that are nil.
- The message type field, which is the same for every stored message.
- Heartbeat keys and statistics counters of a session; starting the heartbeat is one more short locked section.
- The buffered reader itself: which fragments it makes of the bytes, including its treatment of line ends and of a last line without one; the fragments are an arbitrary input.
- Reader chunks that share the reader's buffer: chunks are values, and `DeliveredIsOneFragment` says why this is harmless with the default buffer.
- The accept loop, deadlines, text decoding, JSON, passwords and the environment: input and output.
- Command parsing and dispatch, groups, renaming, the online map and the statistics text: easy members or text.
- `internal/dao`: not called by the delivery path.
- Overflow of counters and durations: numbers are unbounded.
