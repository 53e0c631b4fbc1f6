# Order platform: the write side, verified

A Dafny model of the write side of the order platform: users and orders, their transactional
outboxes, the publishing workers, the two event topics, the notification service that reads them,
its delivery loop, and the Telegram bot in front. The guarantees proved are those no single
function gives: what holds over every run of concurrent clients, crashes, failed and ambiguous
calls, repeated records and restarts.

`dafny verify dfyconfig.toml` checks the whole project.

## How the model is built

Every part appears twice. On **values**, a transaction, a handler or a loop body is a function from
tables to tables, and a run is a fold of such steps; theorems about runs are lemmas over these
functions. For each operation of the order and user services `OrderEffects` and `UserEffects` state,
in terms of the request alone, exactly when it takes effect and what it then leaves, and from that
where every cell of the tables comes from. On **state**, the services are classes with the tables as
fields, and their methods, with the loops of the program, are proved to leave exactly the tables the
functions give.

| files | part |
|---|---|
| `Prelude`, `Decimal`, `Events` | identifiers, decimal notation, event envelopes |
| `Money`, `Calendar`, `Orders`, `OrderRuns`, `OrderGuarantees`, `OrderEffects`, `OrderAudit`, `OrderAudience`, `OrderService` | orders |
| `Users`, `UserEffects`, `UserService`, `Paging` | users, link tokens, user pages |
| `Outbox`, `TopicOrder`, `OutboxDraining`, `OutboxWorker` | outbox, workers, topic |
| `Notifications`, `Dispatcher`, `Polling`, `NotificationService` | notification service |
| `Projection`, `NoticeRows`, `Pipeline`, `PipelineGuarantees` | everything from a commit to a notification, as one machine |
| `DrainedRecipients`, `SteadyDraining`, `StaleRecipient`, `LostRecords`, `DroppedFetch` | what its drained runs end in, and what it loses |
| `BotText`, `Bot`, `BotCommands`, `BotEdits`, `BotOrders`, `BotUsers`, `BotGuarantees`, `Conversations`, `BotService`, `Resp` | the bot and its draft store |

What the world decides is an input of a step: how a transaction ends (`Committed`, `Aborted`, or
`AckLost`, a commit that took effect although the client saw an error), whether a produce was
acknowledged, failed, or failed after the record was appended, what another service answered, the
clock, and fresh identifiers. A check that runs on an earlier read names the state it read: an
operation of `Orders` carries the index of that state in the run, so any number of other clients may
commit in between. Two operations overlap only through such reads, as each transaction is atomic.

Assumptions, all explicit in the lemmas that need them:

- Order in the topic (`Outbox.Disciplined`): rows of one aggregate carry increasing `created_at` in
  commit order, and a worker takes a batch only while no other holds one. docker-compose.yml runs
  one worker for each outbox; nothing in the code orders the stamps, which are start times of
  transactions. Without either, `TopicOrder.BatchKeepsPrefixesIff` says which batches keep the order and
  `QueryKeepsOrderIff` when every batch the query can answer with does; `SecondWorkerBreaksOrder` and
  `LateStampBreaksOrder` are runs that lose it. The safety results assume neither, and let a worker lock
  any free rows.
- Recipients follow users (`PipelineGuarantees.Steady`): the above for users, and every record of
  the users topic that is handed to `Process` is stored (`Calm`). Restarts, repeats and failed
  offset commits are allowed. Without the order, `DrainedRecipients.DrainedRecipientMatchesIff` says when
  a drained recipient row is the projection of its user's row, and `StaleRecipient` gives a run where it is
  not. Notification completeness assumes `CalmRun` for the orders topic.
- A topic is one log read in order, as each partition is; records of an aggregate share a partition.
- Event identifiers are fresh, and a database reads its own printed amounts back (`Money.WellRead`).
- The audit chain (`OrderAudit.HonestHistoryReplays`): the version each update of the order expects was
  read at or before the service's own read. For an update that takes effect this says no more than that
  the row the service read is the row it replaces (`ReadEarlierIff`, `ReadIsCurrentIff`), which the
  service could compare and does not; `GuessedVersionForgesOld` is a run where it fails.
- Telegram keeps updates in increasing order of identifier and returns those from the asked offset on.

## Where code and documentation part

- README.md of the repository says `-` keeps a field of an edited order. The date goes through text
  that holds minutes, so seconds are dropped (`BotGuarantees.DashKeepsDateIffWholeMinute`).
- It speaks of dead-letter topics for failing records. No code writes to them: the consumer passes
  such a record over. `LostRecords.RecordIsLostIff` says over whole runs exactly which records are lost:
  behind the committed offset, their event never processed. `LostStaysLost` says that only another copy of
  the event can undo it, `RestartRecovers` that a restart recovers all others. `Polling.FailedRecordIsLost` loses a record that fails,
  `DroppedFetch.DroppedRecordIsLost` one whose fetch carried an error.
- It says history audits an order. A history row of an update describes the row it replaced, and
  replays to the row it wrote, exactly under the conditions of `OrderAudit.OldIsCurrentIff` and
  `UpdateReplaysIff`.
- It says assigned performers are notified. An update's event names the performers of the service's
  earlier read: `OrderAudience.EventMissesPerformerIff` and `EventNamesRemovedIff` say exactly whom it
  misses and whom it names in vain at its commit, `EventCanMissAPerformer` gives a run.
- The event of a new user carries `telegram_id` while the INSERT leaves the column out. The two agree
  exactly when the field is nil, as `Service.Create` leaves it (`Projection.CreationProjectsIffUnbound`).
- The bot folds the case of logins that the users table keeps apart by their exact text, so a performer
  can be shadowed by another (`BotUsers.LoginNamesItsOwnerIff`, `LoginsCanFoldTogether`).
- A draft that names one performer twice reaches confirm but can never create its order
  (`BotGuarantees.RepeatedLoginNeverCreates`, `ConfirmedOrderIsCreatedIff`).
- A new order confirmed again after a lost answer or a failed delete is created again
  (`BotGuarantees.ConfirmedTwiceIsCreatedTwiceIff`); an edit is not (`ConfirmedOnce`).

## Model

| member | source | states |
|---|---|---|
| `Outbox.RunIsSafe` | internal/outbox/worker.go:40-70 | For any number of workers, whatever free rows they lock and however they fail: no row is in two open batches, each published row has its payload in the topic, each record is a committed row, and only the attempt that published a row is ever counted |
| `Outbox.NoCopyAfterMark` | internal/outbox/worker.go:65-69 | Once the mark of a row has committed, whatever any worker does later adds no copy of it |
| `Outbox.StepKeepsOrdered` | internal/outbox/worker.go:46-68 | One step of a disciplined run keeps published rows, open batches and the topic closed under "committed earlier for the same aggregate" |
| `Outbox.CopiesAreProduces` | internal/outbox/worker.go:60-69 | On every run of any number of workers the topic holds one copy of a row for each produce of it that got through, and the row is published if and only if a commit of its batch was durable, at most once |
| `Outbox.SendLeaves` | internal/outbox/worker.go:61-67 | A produce whose record arrived leaves it in the topic with the row unpublished, also when it is reported as failed or its mark fails; the batch goes on only behind an acknowledged and marked row |
| `TopicOrder.TopicIsPrefixOfOutbox` | internal/outbox/worker.go:40-70 | One worker, commit-ordered stamps: the records of an aggregate without their repeats are a prefix of its outbox rows, and its published rows are a prefix no longer than that |
| `TopicOrder.LogOrderedIffPrefixes` | internal/outbox/worker.go:46-61 | No record runs ahead of an earlier row of its aggregate if and only if, for every aggregate, the records without their repeats are a prefix of its outbox rows |
| `TopicOrder.BatchKeepsOrderIff` | internal/outbox/worker.go:60-68 | Producing a batch keeps the topic in that order if and only if the earlier rows of each row in it are in the topic or stand before it in the batch |
| `TopicOrder.BatchKeepsPrefixesIff` | internal/outbox/worker.go:60-68 | For any number of workers, the batch of any of them keeps those prefixes under the same condition and no other |
| `TopicOrder.QueryKeepsOrderIff` | internal/outbox/worker.go:46 | With no batch open, every answer of the query is in order if and only if no two unpublished rows of an aggregate can be turned round: the later one stamped no later and fewer than fifty unpublished rows older than it |
| `TopicOrder.SecondWorkerBreaksOrder` | internal/outbox/worker.go:46 | The run for two workers: a later row of an aggregate is in the topic without the earlier one |
| `TopicOrder.LateStampBreaksOrder` | internal/outbox/worker.go:46 | The run for one worker, where the later commit carries the earlier stamp |
| `OutboxDraining.CallPublishes` | internal/outbox/worker.go:40-70 | A call without failures publishes exactly its batch, counts one attempt for each of its rows, appends exactly their records in order and leaves no lock |
| `OutboxDraining.DrainsInCeilCalls` | internal/outbox/worker.go:46 | n unpublished rows are all published after k such calls, each with any answer of the query, if and only if k is at least ceil(n/50) |
| `OutboxDraining.CallsExist` | internal/outbox/worker.go:46 | Any number of such calls can be made: the query always has an answer |
| `OutboxWorker.OutboxDb.Process` | internal/outbox/worker.go:40-70 | The call goes through the steps of the machine, reports success exactly when every row was produced, marked and committed, marks its whole batch or none of it, and holds no lock afterwards |
| `OutboxWorker.OutboxDb.PublishAll` | internal/outbox/worker.go:60-68 | The produce loop sends the batch in order up to the first failure, which gives up the batch |
| `OutboxWorker.OutboxDb.Publish` | internal/outbox/worker.go:61-67 | A failed produce may still have appended the record; only an acknowledged and marked row moves the batch on |
| `OutboxWorker.OutboxDb.Lock` | internal/outbox/worker.go:46-59 | The rows the query answers with, at most fifty, distinct, unpublished and free, are scanned into the batch in their order and locked |
| `OutboxWorker.OutboxDb.Commit` | internal/outbox/worker.go:69 | A durable commit publishes exactly the batch and counts one attempt for each of its rows |
| `Orders.Insert` | internal/order/repository/postgres.go:141 | A row added to the performers of an order keeps their ascending order |
| `Orders.InsertAll` | internal/order/repository/postgres.go:101-105 | The performers inserted for a new order are exactly those named, in ascending order |
| `OrderRuns.CloseKeepsGood` | internal/order/repository/postgres.go:155-181 | A transaction that appends its history row and event and leaves its own order consistent disturbs no other order |
| `OrderRuns.StatusOpKeepsGood` | internal/order/app/service.go:74-87 | The transition check on a stale read is made sound by the version guard |
| `OrderRuns.ApplyKeepsGood` | internal/order/app/service.go:27-101 | Each operation of each client keeps versions, history, outbox and performers consistent, whatever state it read |
| `OrderRuns.RunIsGood` | internal/order/app/service.go:27-101 | Every state of every run is consistent; rows stay, versions do not fall, and an unchanged version is an unchanged row |
| `OrderGuarantees.VersionCountsWrites` | migrations/orders/000001_init.up.sql:6 | An order's version is 1 plus its committed updates and status changes, and history and outbox agree row by row |
| `OrderGuarantees.VersionConsumedOnce` | internal/order/repository/postgres.go:111-117 | Two writes of an order that both take effect expected different, increasing versions |
| `OrderGuarantees.TerminalStatusAbsorbs` | internal/order/domain/order.go:51-53 | In every interleaving an order has at most one status change, recorded as from PLANNED to its present status, and a terminal status never changes |
| `OrderGuarantees.NoWriteSince` | internal/order/repository/postgres.go:111-117 | If the version read is still the version, the row is the row that was read and nothing was written to the order in between |
| `OrderAudit.ReadIsCurrentIff` | internal/order/app/service.go:54-73 | The row an update's service read is the row it replaces if and only if the version it read is the version the client expects |
| `OrderAudit.OldIsCurrentIff` | internal/order/app/service.go:63-69 | The history row of an update describes the row it replaced if and only if location, amount and comment of the two rows agree |
| `OrderAudit.ReadEarlierIff` | internal/order/repository/postgres.go:111 | Of an update that takes effect, its expected version was read at or before the service's read if and only if that read shows it |
| `OrderAudit.AuditIsCurrent` | internal/order/app/service.go:54-73 | Then the Old values of its history row describe the row just before its commit, although they were computed on an earlier read |
| `OrderAudit.UpdateReplaysIff` | internal/order/app/service.go:63-69 | An update's history row replays to the row it wrote if and only if each field it leaves as the service read it is still so in the row it replaces |
| `OrderAudit.HistoryReplays` | internal/order/repository/postgres.go:109-120 | From any state on, if each update of the order since then meets the condition of `UpdateReplaysIff`, replaying the New values of its later history rows gives the current location, amount in its column's form, and comment |
| `OrderAudit.HonestHistoryReplays` | internal/order/repository/postgres.go:109-120 | So it does when each update of the order since then expects a version read at or before the service's own read, whatever clients of other orders do |
| `OrderAudit.GuessedVersionForgesOld` | internal/order/app/service.go:64-69 | With a guessed version an update commits with an Old value that had already been replaced |
| `OrderGuarantees.EventsRebuildPerformers` | internal/order/repository/postgres.go:133-154 | Folding an order's events in commit order gives exactly its performers, for every interleaving of assignments |
| `OrderAudience.EventsNameTheirAudience` | internal/order/repository/postgres.go:95-154 | Each operation that takes effect adds one event that names exactly the given performers, the changed one, or those the service read, with its history row beside it |
| `OrderAudience.EventHasItsOperation` | internal/order/repository/postgres.go:163-181 | Every event in an outbox was written by one operation of the run and names exactly its audience |
| `OrderAudience.FirstTouchExplains` | internal/order/repository/postgres.go:133-154 | Whether a performer was assigned at a state shows in the first history row about that performer since |
| `OrderAudience.EventMissesPerformerIff` | internal/order/repository/postgres.go:109-132 | An update or status change misses a performer of its commit if and only if the first history row about that performer since the service's read is an assignment |
| `OrderAudience.EventNamesRemovedIff` | internal/order/repository/postgres.go:109-132 | It names a performer who is removed at its commit if and only if the first such row is an unassignment |
| `OrderAudience.EventNamesPerformersAtCommit` | internal/order/repository/postgres.go:109-132 | If no assignment of the order was committed since the read, the event names exactly the performers at the commit |
| `OrderAudience.EventCanMissAPerformer` | internal/order/repository/postgres.go:109-120 | A run in which an update's event leaves out a performer assigned at its commit |
| `OrderEffects.CreateTakesEffectIff` | internal/order/app/service.go:27-38 | A new order is stored if and only if it has a date, a place, a customer and a positive, storable amount, its id is new, its performers are active and named once each, and the transaction is durable |
| `OrderEffects.CreateStores` | internal/order/repository/postgres.go:95-108 | What is then stored is the request as a PLANNED order at version 1 by its creator, with exactly its performers and a history row; no other order changes |
| `OrderEffects.UpdateTakesEffectIff` | internal/order/app/service.go:54-73 | An update takes effect if and only if the order was there at the read, the request is complete and storable, its version is the current one, and the transaction is durable |
| `OrderEffects.UpdateStores` | internal/order/repository/postgres.go:109-120 | It then writes seven fields of the request, its author and the next version into that row, and nothing else; status, creator and performers stay |
| `OrderEffects.StatusTakesEffectIff` | internal/order/app/service.go:74-87 | A status change takes effect if and only if the row read is PLANNED at the version expected, the next status is COMPLETED or CANCELLED, that version is still current, and the transaction is durable |
| `OrderEffects.StatusStores` | internal/order/repository/postgres.go:121-132 | It then writes the status asked for, its author and the next version into that row, which was PLANNED, and a history row that says so; performers and other orders stay |
| `OrderEffects.AssignTakesEffectIff` | internal/order/app/service.go:88-101 | An assignment takes effect if and only if the order was there at the read, the performer to add is active and not yet there, the one to remove is there, and the transaction is durable |
| `OrderEffects.AssignStores` | internal/order/repository/postgres.go:133-154 | That order then gains or loses exactly that performer; no other performers and no row of an order change |
| `OrderEffects.EventIsWritten` | internal/order/repository/postgres.go:163-181 | Each operation that takes effect appends exactly its event, under its id and type, to the right order and with the right recipients, beside one history row; a refused one appends neither |
| `OrderEffects.SuccessIsTrue` | internal/order/app/service.go:27-101 | A client is told of success if and only if the operation took effect and its commit was acknowledged; an error reported for an operation that took effect is a lost acknowledgement |
| `OrderEffects.RefusalTells` | internal/order/app/service.go:27-101 | Which refusals are NotFound, Validation and Conflict, for each operation, in terms of the order read and the order now |
| `OrderEffects.CellIsLastWritten` | internal/order/app/service.go:27-101 | In every state of every run each cell of an order holds what the last operation that took effect and writes its column was asked to write |
| `OrderEffects.PerformsIffLastPut` | internal/order/app/service.go:27-101 | Someone performs an order if and only if the last operation about them that took effect put them there, and they were an active performer when it asked |
| `OrderService.Repository.Read` | internal/order/repository/postgres.go:70-94 | The row with its performers in order, or nothing |
| `OrderService.Repository.Finish` | internal/order/repository/postgres.go:155-181 | History row, event and commit: all of the transaction or none of it |
| `OrderService.Repository.Create` | internal/order/repository/postgres.go:95-108 | Row, performers, history and event of a new order at version 1, or no change |
| `OrderService.Repository.InsertPerformers` | internal/order/repository/postgres.go:101-105 | The inserts succeed exactly when no performer is named twice |
| `OrderService.Repository.Update` | internal/order/repository/postgres.go:109-120 | Only the row at the expected version is rewritten, its version raised; otherwise a conflict and no change |
| `OrderService.Repository.Status` | internal/order/repository/postgres.go:121-132 | Only the row at the expected version gets the status, with Old and New recorded |
| `OrderService.Repository.Assign` | internal/order/repository/postgres.go:133-154 | One performer row is added or removed; a repeat or a missing row is an error and no change |
| `OrderService.Service.Create` | internal/order/app/service.go:27-38 | Validation, the check of every performer, then the insert, on the tables as other clients left them |
| `OrderService.Service.Update` | internal/order/app/service.go:54-73 | Read, check, fill the changes, then the guarded write on tables other clients may have moved; the answer is the stored order |
| `OrderService.Service.ChangeStatus` | internal/order/app/service.go:74-87 | Transition and version are checked on the read, the write is guarded again; the answer is the stored order |
| `OrderService.Service.Assign` | internal/order/app/service.go:88-101 | Only an active performer is assigned, removal needs no such check; the answer is the stored order |
| `OrderService.ChangesOfCompared` | internal/order/app/service.go:63-68 | The loop over the three fields records exactly the fields whose text differs |
| `Money.RenderDenotes` | internal/order/repository/postgres.go:73 | The printed amount denotes the stored one, with two places behind the full stop, so different amounts print differently |
| `Money.StoredIsWellRead` | migrations/orders/000001_init.up.sql:3 | Every amount read back from the column meets what the lemmas assume of amounts in requests |
| `Users.RunIsWellKept` | migrations/users/000001_init.up.sql:10 | On every run a Telegram id belongs to at most one user, tokens belong to users, and used tokens were used before they expired |
| `Users.SpentStaysSpent` | internal/user/repository/postgres.go:142 | A used token is never touched again by any run |
| `Users.TokenRedeemedOnce` | internal/user/repository/postgres.go:135-170 | Of all redemptions of a token in a run at most one takes effect |
| `UserEffects.CreateStores` | internal/user/app/service.go:81-96 | A user is stored if and only if login and name are well formed, id and login are free and the transaction durable; then active, unbound, and with exactly the permissions of the role |
| `UserEffects.PermissionsStore` | internal/user/app/service.go:115-123 | Setting permissions takes effect if and only if the user exists, every code is known, none repeats and the transaction is durable; the user then holds exactly the listed codes, and nothing else changes |
| `UserEffects.BindStores` | internal/user/app/service.go:153-161 | A binding takes effect if and only if the Telegram id is not zero and nobody else holds it, the user exists and the transaction is durable; then that user alone gets it |
| `UserEffects.LinkStores` | internal/user/app/service.go:33-54 | A link is made if and only if its user exists, its token is new, it lives 60 to 86400 seconds, 900 by default, and the transaction is durable; then it ends that long from now |
| `UserEffects.RedeemStores` | internal/user/repository/postgres.go:135-170 | A redemption takes effect if and only if its link is there, unused and not over, its user exists, the Telegram id is not zero and nobody else holds it, and the transaction is durable; then user and link change and nothing else |
| `UserEffects.LinkBindsIff` | internal/user/repository/postgres.go:142 | On every run a link made at t0 and not redeemed since can be redeemed exactly while the time is before t0 plus its length, by an id that is free, and then binds the user it was made for |
| `UserEffects.CellIsLastWritten` | internal/user/app/service.go:81-161 | In every state of every run each cell of a user holds what the last operation that took effect and writes its column was asked to write |
| `UserEffects.HoldsPermissionIff` | internal/user/repository/postgres.go:92-111 | A user holds a permission if and only if the last list set for that user, or the role at creation if none was, grants it |
| `UserEffects.LoginsAreUnique` | migrations/users/000001_init.up.sql:5 | On every run logins match their pattern and no two users share one |
| `UserEffects.EventIsWritten` | internal/user/repository/postgres.go:183-201 | Each operation that takes effect appends exactly its event, under its id and type, with exactly the columns it changed; a link and a refused request append none |
| `UserEffects.SuccessIsTrue` | internal/user/repository/postgres.go:183-201 | A client is told of success if and only if the operation took effect and its commit was acknowledged |
| `UserEffects.RefusalTells` | internal/user/app/service.go:33-161 | Which refusals are Validation, NotFound and Conflict, for each operation, in terms of the request and the tables |
| `UserService.Repository.Create` | internal/user/repository/postgres.go:75-88 | User, permissions and event together, or nothing |
| `UserService.Repository.InsertPermissions` | internal/user/repository/postgres.go:81-85 | The inserts succeed exactly when no code repeats, and store exactly the codes |
| `UserService.Repository.SetPermissions` | internal/user/repository/postgres.go:92-111 | The permissions are replaced as a whole with one event, or nothing changes |
| `UserService.Repository.SetActive` | internal/user/repository/postgres.go:112-118 | The flag and an event of the matching type |
| `UserService.Repository.BindTelegram` | internal/user/repository/postgres.go:122-124 | The binding and its event, unless the id belongs to another user |
| `UserService.Repository.Mutate` | internal/user/repository/postgres.go:171-201 | An UPDATE of one existing row and one event, or no change |
| `UserService.Repository.RedeemTelegramLink` | internal/user/repository/postgres.go:135-170 | The statements of the redemption leave what the transaction of the model leaves, and name the bound user |
| `UserService.Repository.CreateTelegramLink` | internal/user/repository/postgres.go:125-134 | One token row for an existing user, users and outbox untouched |
| `UserService.Service.Create` | internal/user/app/service.go:81-96 | A malformed login or an empty name is refused before the store is asked; the answer is the new user as requested |
| `UserService.Service.CreateTelegramLink` | internal/user/app/service.go:33-54 | Fifteen minutes by default; a link lives at least a minute and at most a day from now; the answer is the token and the stored end of its life |
| `UserService.Service.RedeemTelegramLink` | internal/user/app/service.go:56-66 | The zero id is refused before the store is asked; a Telegram id bound to another user spends no token; the answer is the bound user |
| `UserService.Service.BindTelegram` | internal/user/app/service.go:153-161 | The zero id is refused before the store is asked; the answer is the stored user |
| `UserService.Service.Permissions` | internal/user/app/service.go:115-123 | Nothing is written if one code is unknown; the answer is the stored user |
| `Paging.TextOrder` | internal/user/repository/postgres.go:56 | Comparing the text of two ids is comparing the ids, so cursor and sort agree |
| `Paging.TextIsHyphenated` | internal/user/repository/postgres.go:56 | The text of an id has 36 characters, hyphens at places 8, 13, 18 and 23 and nowhere else |
| `Paging.List` | internal/user/repository/postgres.go:52-74 | The rows behind the token in order of id, up to the limit, which is 50 unless 1 to 100 was asked for |
| `Paging.ListUsers` | internal/user/transport/grpc.go:37-47 | The page and the id of its last row as token, none for an empty page |
| `Paging.PagesCover` | internal/user/repository/postgres.go:52-74 | The first n pages are the first users in order, and the next token lies exactly behind them |
| `Paging.WalkListsEveryUserOnce` | internal/user/transport/grpc.go:37-47 | For every page size, following tokens from the empty one ends after ceil(n/limit) non-empty pages and lists every user once, in order |
| `Events.TypesAreDisjoint` | internal/notification/service.go:53-57 | No event type takes both routes of the consumer |
| `Notifications.ExactlyOnceEffect` | internal/notification/service.go:33-62 | For every sequence of deliveries with repeats, rollbacks, garbage and lost acks, the three tables are those of applying each successfully committed event once, in order of first commit |
| `Notifications.ReplayIsNoOp` | internal/notification/service.go:46-52 | Redelivering processed events in any order and number changes nothing |
| `Notifications.TopicsCommute` | internal/notification/service.go:53-120 | Every interleaving of the user and order streams leads to the same tables |
| `Notifications.AddNoticesExactly` | internal/notification/service.go:97-120 | Earlier rows stay in place; exactly the named recipients have a row, one each, new ones pending |
| `Notifications.BecomesProcessedIff` | internal/notification/service.go:33-120 | A new event becomes processed if and only if it has an id and a type, its data decodes to what the type needs, and the transaction is durable |
| `Notifications.UserEventWrites` | internal/notification/service.go:64-95 | A user event moves the row of its user alone: each column it carries is set, null clears it, a missing one stays |
| `Notifications.OrderEventWrites` | internal/notification/service.go:97-120 | An order event adds one untried pending notification for each recipient it names that has none, and changes nothing else |
| `NotificationService.Service.Process` | internal/notification/service.go:33-62 | The statements and their rollback leave what the machine's delivery leaves, and success is reported exactly when it should |
| `NotificationService.Service.SyncRecipient` | internal/notification/service.go:64-95 | Absent leaves telegram_id alone, null clears it, a number sets it; is_active likewise; anything else is an error |
| `NotificationService.Service.CreateNotifications` | internal/notification/service.go:97-120 | The loop adds a row for each named recipient that has none |
| `NotificationService.Service.Dispatch` | internal/notification/service.go:122-143 | One round is a snapshot of at most fifty deliverable rows and their attempts in order, with the consumer's records between them, ended early by a mark that fails |
| `NotificationService.Service.SendBatch` | internal/notification/service.go:128-142 | The loop over the snapshot while the consumer works beside it; it stops behind the first mark that fails and succeeds exactly when there is none |
| `NotificationService.Service.SendNext` | internal/notification/service.go:134-140 | A refused send is recorded and skipped; an accepted one is marked, or its ack is lost |
| `NotificationService.Consumer.Poll` | cmd/notification-service/main.go:51-66 | A fetch with an error is dropped whole; a failed record is passed over; the offset is committed behind each success |
| `Polling.LastSuccessCovers` | cmd/notification-service/main.go:57-65 | The offset passes a record of a fetch if and only if it was committed behind that record or a later one |
| `Polling.ProcessedIff` | internal/notification/service.go:33-62 | After a fetch an event is processed if and only if it was before or a delivery of it succeeded |
| `Polling.FetchLosesRecordIff` | cmd/notification-service/main.go:57-65 | After one fetch a record is lost, its offset passed and its event unprocessed, if and only if its event was not processed before, no delivery of it succeeds, and a record at its place or later commits its offset |
| `Polling.FailedRecordIsLost` | cmd/notification-service/main.go:58-61 | A rolled-back record followed by one that succeeds is lost |
| `Dispatcher.DeliveriesAreAccounted` | internal/notification/service.go:122-143 | On every run a row's successful sends are 1 if SENT plus its lost acks, sends go only to chats bound and active in their snapshot, and batches hold pending rows in order |
| `Dispatcher.SentIsFinal` | internal/notification/service.go:138 | SENT is never left, and no row is removed or readdressed |
| `Dispatcher.TargetsFromIff` | internal/notification/service.go:123 | A row is offered for delivery if and only if it is pending and its recipient active and bound, and then with that chat |
| `Dispatcher.AttemptsAreCounted` | internal/notification/service.go:135-138 | On every run a row counts exactly the attempts stored in it, is SENT if and only if the last of them was a mark, and carries an error if and only if it was a refusal |
| `Dispatcher.UnmarkedEndsRound` | internal/notification/service.go:134-141 | A refused row is skipped; behind an accepted one whose mark is not acknowledged nothing is sent before the next snapshot |
| `Dispatcher.RoundsDeliver` | internal/notification/service.go:122-143 | Without arrivals and failures k rounds deliver exactly the first 50k deliverable rows |
| `Dispatcher.DrainsInCeilRounds` | internal/notification/service.go:123 | n deliverable rows are drained after k such rounds if and only if k is at least ceil(n/50) |
| `Projection.OperationHasEffect` | internal/user/repository/postgres.go:75-201 | Every user operation changes no row and emits nothing, or touches one user and emits one event that carries exactly the change of that user's projection |
| `Projection.CreationProjectsIffUnbound` | internal/user/repository/postgres.go:75-88 | The event of a new user projects the stored row if and only if its telegram_id is nil |
| `Projection.ConsumeKeepsInStep` | internal/notification/service.go:64-95 | Processing the next event of a user moves that recipient row to the projection after it and leaves the others at their point of the past |
| `Projection.CommitKeepsInStep` | internal/user/repository/postgres.go:183-201 | A commit not yet consumed leaves every recipient row at its point of the past |
| `NoticeRows.ConsumeKeeps` | internal/notification/service.go:97-120 | Processing an order event keeps every notification justified by a processed event and every named recipient notified |
| `Pipeline.RunKeepsBase` | internal/notification/service.go:33-143 | Every state of the whole machine keeps outboxes safe, identifiers apart, tables recorded by their outboxes, sends accounted and notifications exact |
| `Pipeline.TrailIsOfOperations` | internal/order/app/service.go:27-101 | The order database of the machine goes through the states of its order operations, so what is proved of those runs holds in it |
| `PipelineGuarantees.NoticeComesFromMutation` | internal/notification/service.go:97-120 | Every notification was made for a committed order mutation whose event names its recipient |
| `PipelineGuarantees.NoticeComesFromOperation` | internal/notification/service.go:97-120 | That mutation is an order operation of the run that took effect, and the recipient belongs to its audience |
| `PipelineGuarantees.ProcessedEventHasItsNotices` | migrations/notifications/000002_notification_delivery.up.sql:2 | Every processed order event has exactly one notification for each recipient it names |
| `PipelineGuarantees.CalmRunStaysBehind` | cmd/notification-service/main.go:51-66 | While no record is passed over, every record before the read position was processed, over restarts and repeats |
| `PipelineGuarantees.DrainedOrdersAreNotified` | internal/notification/service.go:97-120 | Then, once outbox and topic are drained, every committed order event has notified everyone it names |
| `PipelineGuarantees.RecipientsFollowUsers` | internal/notification/service.go:64-95 | In every state of a steady run each recipient row is the projection of that user's row after some prefix of the committed mutations |
| `DrainedRecipients.ReplayIsLastCarried` | internal/notification/service.go:64-95 | Processing a log leaves each user the telegram_id and is_active that the first copies of its events carry last |
| `DrainedRecipients.TableIsLastCarried` | internal/user/repository/postgres.go:75-201 | Each user's row projects to the values its committed events carry last |
| `DrainedRecipients.DrainedRecipientMatchesIff` | internal/notification/service.go:64-95 | For any number of workers and any stamps: once outbox and topic are drained and no record was passed over, a user has a recipient row if and only if it has a row, and the one projects the other if and only if the values last in the topic are the values last in the outbox |
| `DrainedRecipients.RecipientsCatchUp` | internal/notification/service.go:64-95 | Once outbox and topic of a steady run are drained each recipient row is the projection of the current row, and users without a row have none |
| `SteadyDraining.SteadyRunCanCatchUp` | internal/outbox/worker.go:40-70 | Every steady run can be continued, by calls of the worker and reads of the consumer alone, to a drained one in which every recipient row is the projection of the current row |
| `LostRecords.CommittedIff` | cmd/notification-service/main.go:51-66 | On every run, with restarts, dropped fetches and repeats, the committed offset is behind a record if and only if a record at its place or later was processed with its offset stored |
| `LostRecords.ProcessedIff` | internal/notification/service.go:33-62 | On every run an event is processed if and only if some delivery of a record with it, from either topic, was stored |
| `LostRecords.RecordIsLostIff` | cmd/notification-service/main.go:51-66 | On every run a record is lost, behind the committed offset with its event unprocessed, if and only if a record at its place or later committed its offset and no delivery of its event was ever stored |
| `LostRecords.LostStaysLost` | cmd/notification-service/main.go:51-66 | However the run goes on, restarts included, a lost record stays lost if and only if no other copy of its event, later in the topic or in the other one, is stored |
| `LostRecords.RestartRecovers` | cmd/notification-service/main.go:51-66 | From every state a restart and reading the topic to its end process the event of every record that is not lost |
| `DroppedFetch.DroppedRecordIsLost` | cmd/notification-service/main.go:53-56 | The run: a fetch with an error is dropped, the next record commits, and the dropped one is lost although no call failed |
| `StaleRecipient.DrainedRecipientCanBeStale` | internal/outbox/worker.go:46 | The run: with stamps out of commit order and no failure it drains into a recipient row that is not the projection of the user's row |
| `Bot.AnswerLowersMeasure` | internal/bot/service.go:120-177 | Every accepted answer brings a dialogue one step nearer to confirm, from 8, 7 or 3, and keeps what the answers so far guarantee |
| `Bot.DraftsAreSensible` | internal/bot/service.go:120-177 | In every reachable state an edit draft and an order draft past its date hold a date that parses, and an order draft a non-blank location, amount, name and phone once asked for |
| `Bot.MessageMovesOneStep` | internal/bot/service.go:62-177 | A message leaves the draft exactly as it was, moves it by one accepted answer, or removes it by /cancel or a successful /confirm; refused input and failed stores change nothing |
| `Bot.DraftEndsIff` | internal/bot/service.go:62-67 | A stored draft ends if and only if the store answers and the message is /cancel, or /confirm at confirm from a permitted sender behind a call that succeeded |
| `BotCommands.OpensIff` | internal/bot/service.go:68-104 | With no draft open, exactly a permitted sender's calls of /neworder, /newuser and /editorder with an id open one, each its own, the last as what was read of the order |
| `BotCommands.EditOrderOpens` | internal/bot/service.go:251-266 | The call, alone or addressed to the bot by name, and the id of a printable order open its edit |
| `Bot.ConfirmedOrderIsValid` | internal/bot/service.go:383-401 | The order a draft asks for passes every check of the order service but those on the zero date and the amount |
| `BotEdits.EditIsItsAnswers` | internal/bot/service.go:268-317 | While an edit is open its draft is what was read with the accepted answers applied, whatever rejected messages and failed saves came between |
| `BotEdits.EditTakesIff` | internal/bot/service.go:268-317 | An edit takes every answer before confirm but a first one that is neither '-' nor a date |
| `BotOrders.AnswerIsHeld` | internal/bot/service.go:120-177 | A new order takes an answer if and only if it is not empty, the first a date, the seventh with the users listed, the eighth naming performers; it goes to the field it was asked for and no other |
| `BotEdits.AnswersAreTaken` | internal/bot/service.go:268-317 | While the store answers, up to seven trimmed answers of an edit, a date that parses or '-' first, are all taken, one step each |
| `BotEdits.SevenAnswers` | internal/bot/service.go:275-312 | At confirm each field of an edit is its answer or, for '-', what the order held |
| `BotOrders.OrderIsItsAnswers` | internal/bot/service.go:120-177 | Whatever refused messages and failed saves come between, the draft of a new order is its accepted answers, each in its own field, and its performers are those the eighth named |
| `BotOrders.NewOrderReachesConfirm` | internal/bot/service.go:106-177 | /neworder of a permitted user and eight takable answers reach confirm with each answer in its field, nothing for '-', and the performers the last one names |
| `BotUsers.NewUserReachesConfirm` | internal/bot/service.go:179-217 | /newuser of a permitted user, a login, a name and a role reach confirm with each in its field |
| `BotUsers.ConfirmedUserIsCreatedIff` | internal/bot/service.go:219-241 | A confirmed user is created if and only if the login is well formed and free, the name not blank and the transaction durable, and then has that login, name and role |
| `BotOrders.RepeatedLoginReachesConfirm` | internal/bot/service.go:162-171 | A performer's login written twice reaches confirm too, with that performer twice |
| `BotText.SplitJoins` | internal/bot/service.go:373 | The parts of a list hold no comma and join to the list again |
| `BotText.TrimCutsSpace` | internal/bot/service.go:63 | Trimming cuts white space at both ends, only that and all of it |
| `BotText.FoldsTogetherIff` | internal/bot/service.go:369 | Two ASCII characters fold together if and only if they are the same or the two cases of a letter |
| `BotText.FoldingIsExact` | internal/bot/service.go:369-374 | Folding into ASCII decides every comparison with a login or role name, whatever is done to other letters; logins are ASCII (internal/user/domain/user.go:38) |
| `BotText.ResolvedArePerformers` | internal/bot/service.go:358-381 | '-' names nobody; another list is accepted exactly when the users could be listed and each login, trimmed and folded, is that of an active performer, and becomes their ids in the order written |
| `BotUsers.LoginIsPlain` | internal/user/domain/user.go:38 | A login that matches the pattern is ASCII without white space or commas, no command and not '-', so it can be typed into a list as it is |
| `BotUsers.LoginNamesItsOwnerIff` | internal/bot/service.go:366-374 | Typing an active performer's login names that performer if and only if no active performer listed later has a login that differs only in case |
| `BotUsers.LoginsCanFoldTogether` | internal/bot/service.go:369 | The run: "Ann" and "ann" are both stored, and "Ann" does not name its owner |
| `BotGuarantees.SameVersionIffNoWrite` | internal/order/repository/postgres.go:109-132 | An order's version is the same at two moments if and only if no update or status change was committed between them |
| `BotGuarantees.EditCanBeCompleted` | internal/bot/service.go:251-317 | Every printable order can be edited: any seven such answers reach confirm, as exactly those answers |
| `BotGuarantees.NoLostUpdate` | internal/bot/service.go:251-336 | If a confirmed edit takes effect nothing was written to the order since the dialogue read it, each text answered '-' is unchanged, the date is then kept to the minute, and every other field is its answer |
| `BotGuarantees.DashKeepsDateIffWholeMinute` | internal/bot/service.go:282-289 | A '-' for the date keeps the stored date if and only if that is a whole minute |
| `BotGuarantees.ConfirmTakesEffectIff` | internal/bot/service.go:319-336 | A confirmed edit takes effect if and only if nothing was written to the order since, the order is valid, its amount storable and the transaction durable |
| `BotGuarantees.ConfirmedOnce` | internal/bot/service.go:328-334 | A second /confirm of the same edit, after a lost answer or a failed delete, changes nothing |
| `BotGuarantees.ConfirmedOrderIsCreatedIff` | internal/bot/service.go:383-401 | A confirmed order is created if and only if its date is not zero, its amount positive and storable, its performers active and named once each, its id new and the transaction durable |
| `BotGuarantees.AnswersBecomeTheOrder` | internal/bot/service.go:120-177 | If the /confirm of a new order takes effect, whatever messages led to it, the one row added holds the eight accepted answers, each in its column, PLANNED at version 1 by the sender, with the performers the eighth named |
| `BotGuarantees.RepeatedLoginNeverCreates` | internal/bot/service.go:162-171 | No /confirm of the draft with a repeated login ever creates an order |
| `BotGuarantees.ConfirmedTwiceIsCreatedTwiceIff` | internal/bot/service.go:392-399 | A second /confirm of a created order draft creates a second order if and only if its performers are still active and the transaction is durable; the draft is still there if the first success was not reported or its delete failed (`UnreportedConfirmKeepsDraft`) |
| `Conversations.DialoguesAreSeparate` | internal/bot/draft.go:53 | A user's draft depends on that user's messages and the lapses of that user's drafts alone |
| `Conversations.NoUpdateIsSkipped` | internal/bot/service.go:31-60 | Over lost replies and restarts, the updates handled, repeats left out, are the oldest of the queue in order, and the next offset lies behind handled updates only |
| `Conversations.OneLifeHandlesOnce` | internal/bot/service.go:49-57 | A bot that does not restart handles each update exactly once |
| `Conversations.CatchesUpInCeilPolls` | internal/bot/service.go:31-60 | From every state n waiting updates are all handled after k served polls of up to c updates if and only if k is at least ceil(n/c) |
| `BotService.Service.Run` | internal/bot/service.go:31-60 | The loop applies the updates of all replies that arrive, in order, and ends at the offset behind the last |
| `BotService.Service.HandleReply` | internal/bot/service.go:49-57 | The offset moves past ignored updates too |
| `BotService.Service.Handle` | internal/bot/service.go:62-104 | /cancel first, then the open dialogue, then commands; other users' drafts stay as they are |
| `BotService.Service.StartEditDraft` | internal/bot/service.go:251-266 | The draft captures the order's fields as text and its version |
| `BotService.Service.HandleDraft` | internal/bot/service.go:120-177 | The steps of an order dialogue leave the store as the dialogue on values says |
| `BotService.Service.HandleUserDraft` | internal/bot/service.go:190-217 | The steps of a user dialogue leave the store as the dialogue on values says |
| `BotService.Service.HandleEditDraft` | internal/bot/service.go:268-317 | The steps of an edit leave the store as the dialogue on values says |
| `BotService.Service.ConfirmDraft` | internal/bot/service.go:319-336 | The draft is deleted only behind a successful call |
| `BotService.Service.ResolvePerformers` | internal/bot/service.go:358-381 | The map and the slice are filled as the specification of a performer list says, the last user of a login winning |
| `BotService.DraftStore.Save` | internal/bot/draft.go:39-46 | A durable save replaces one user's draft and no other |
| `BotService.DraftStore.Delete` | internal/bot/draft.go:48-51 | A durable delete removes one user's draft and no other |
| `Calendar.ParseFormat` | internal/bot/service.go:261 | A printed date reads back as the same instant cut to the minute |
| `Calendar.ParseIff` | internal/bot/service.go:138 | A text reads as a date if and only if it spells it: fixed digits, one or more spaces, an hour of one or two digits, and a day of the calendar |
| `Calendar.ExampleIsRead` | internal/bot/service.go:117 | The example the bot gives reads as 25 September 2026, half past two: the day comes first |
| `Calendar.LeapsAre` | internal/bot/service.go:138 | Of the first n years n/4 - n/100 + n/400 have a 29 February |
| `Calendar.MonthLengths` | internal/bot/service.go:138 | The twelve months of a year have the lengths of the calendar |
| `Decimal.ValueOfDigits` | internal/bot/draft.go:68-70 | The decimal digits of a number denote it |
| `Resp.BuildRequest` | internal/bot/draft.go:67-71 | The builder loop prints the request of its whole list of values |
| `Resp.PingIsPrinted` | internal/bot/draft.go:67-71 | A request of one value is printed byte for byte as the protocol asks |
| `Resp.RequestRoundTrip` | internal/bot/draft.go:67-71 | A parser of arrays of bulk strings recovers every list of values from its request, whatever bytes the values hold and whatever follows |
| `Resp.RequestsArePrefixFree` | internal/bot/draft.go:67-71 | No request is a prefix of the request of another list |

## Left out

- Calendar.Format: years above 9999, which a protobuf timestamp cannot hold, are not printed; such an order opens no edit.
- BotText.Lower: letters beyond ASCII that do not fold into ASCII stay as they are; `BotText.FoldingIsExact` shows that no comparison with a login or role can tell.
- BotService.DraftStore.Save: when the thirty minutes of a draft end is an input of the turn that comes after (`Conversations.Turn`), not a clock in the store.
- Bot.Confirm: whether the called service succeeded is an input; what the call did is in `Orders`, and `BotGuarantees` joins the two.
- Orders.UpdateTx: when the version is stale and the amount unreadable, the model reports the conflict and the database the amount; neither changes anything.
- Orders.CreateTx: `created_at` and `updated_at` are not kept, and a version is unbounded where the column holds 64 bits.
- Users.CreateOp: login and name come trimmed, and the length of the password is checked before it; a refused request changes nothing.
- Users.UpdateNameTx: the name comes trimmed and not blank, and Users.PasswordTx gets a hash whose password was checked; a refused request changes nothing.
- Users.RedeemTx: a token is its digest, and the refusal of an empty token comes before it.
- OutboxWorker.OutboxDb.Lock: which free rows the query answers with is an input; `Outbox.LegalBatch` says what it answers when no other worker interferes.
- Dispatcher.Targets: rows are taken in table order; how equal `created_at` are ordered is not modelled.
- Pipeline.Step: one dispatcher and one consumer, as one process runs them; a topic is one partition.
- JSON text, UUID generation, clocks and randomness are inputs or datatypes.
- SQL, Kafka, Redis, Telegram and gRPC clients are tables, logs and outcomes; dialling and time-outs are failed calls.
- Reads that fail, access checks of Get and List, and mapping errors to gRPC codes change no table.
- Interleaving inside the methods of the classes: it is modelled by the machines, by the `later` tables of the order service and by the arrivals of the delivery loop; a service's answer is read right behind its own write.
- Paging of orders: its cursor compares ids while the sort is by date first, so a walk does not cover the list.
- Reading Redis replies: a single read may return part of a long reply.
- Starvation of the dispatcher by fifty recipients that always refuse, and loss of records that are passed over.
- Uniqueness of chats across recipients, which lags behind the users table.
- The attempts of a failed produce: its counting is rolled back with the batch.
- JWT, argon2, base64, metrics, health endpoints, configuration, generated code and message texts.
