# SubmitSnap, modelled and proved

SubmitSnap is a form backend. Its Rust service keeps most of its logic in small state machines over
database tables, each SQL statement or transaction one atomic step, with several workers and requests
interleaving. This project models those machines in Dafny and proves what the service promises of
them. `dafny verify dfyconfig.toml` checks everything.

How the model is built:

- A table is a map, the database clock a nondecreasing integer, an id or token a number. Generated ids
  (UUIDs, secrets) are fresh: a `minted` set remembers every id handed out, so none is reused.
- A machine is a `State`, a `Step` datatype, `Apply` for one step and `Run` for a sequence of them. A
  step that is not possible in a state leaves it alone, so a statement about every `seq<Step>` is a
  statement about every interleaving, with workers stopping between any two statements.
- What the source updates in place is a class. Its methods follow the source statement by statement and
  are proved against the machine; the two workers, the reaper and an upload do so while everybody else
  takes arbitrary steps between any two of theirs.
- Fields that only record history (`settlements`, `owedBy`, `trail`, `places`, `lost`, `chains`) are read
  by no step; they let a property say what happened.
- Parsers of addresses and dates, the JSON printer, Unicode white space and lower-casing are parameters.

Modules:

| module | what it holds |
|---|---|
| Common, Ordering, Strings, Json | failure datatypes, `ORDER BY ... LIMIT`, trimming and case, JSON values |
| Outbox, Deliveries, DeliveryOrder | the two leased queues, their repositories, when a delivery is claimed |
| Dispatch, DispatchSafety, Settling, Tenancy, Dispatcher | at-least-once dispatch, its safety over every run, settling, where deliveries go, the worker |
| Uploads, Attachments, Reaping, Retention, Claiming, UploadService | bucket and ledger, attachments, the reaper, what keeps an upload, claiming, uploading |
| Streaming | chunked inspection of an upload |
| Sessions | refresh-token rotation and replay |
| Export, Csv | the paged export and its CSV form |
| Organizations, Administration, Lockout | membership, administrators, the sign-in lock |
| Validation, Submitting | definition and payload checks, which definitions can be submitted |
| Like, Disposition | search patterns, download headers |

Five places where what the comments and names suggest does not hold, each with a lemma that shows it and
one that says exactly when it does hold:

- "Delivered" is not final: a failure recorded after its lease overwrites it
  (`Deliveries.LateFailureReopensDelivered`). It is final exactly when no claim on the row is left
  (`Deliveries.DeliveredForGoodExactly`).
- An attachment can lose its object when a claim lands inside a reaper pass
  (`Claiming.LateClaimLosesTheFile`), and exactly then (`Attachments.SeversExactly`,
  `Attachments.WholeUnlessSevered`).
- An accepted definition is not always submittable (`Submitting.AcceptedButNotSubmittable`,
  `Submitting.AcceptedButNotUploadable`), and exactly when it is (`Submitting.SubmittableExactly`).
- The account search is not case-insensitive (`Like.CapitalFindsNothing`, `Like.IgnoresCaseExactly`).
- The last active administrator can be disabled once the verification setting has been changed
  (`Administration.SwitchingLosesTheAdministrator`): exactly by a pending administrator's disabling or
  deletion of the only active one (`Administration.LosesExactly`, `Administration.AdministeredUnlessLost`),
  and never with the setting fixed (`Administration.AnAdministratorRemains`).

## Model

| member | source | states |
|---|---|---|
| Outbox.ClaimTakesTheEarliest | src/shared/outbox.rs:63-85 | A claim takes only due events, as many as fit the limit, and never a later one while leaving an earlier one behind. |
| Outbox.AheadOnlyShrinks | src/shared/outbox.rs:63-122 | No statement of any worker puts an owed event in front of a due one; a claim takes away what it claimed. |
| Outbox.SettledStaysSettled | src/shared/outbox.rs:87-122 | Once dispatched, an event is never owed or claimed again, not even after a stale reschedule, which leaves `dispatched_at` set. |
| Outbox.LeaseExcludes | src/shared/outbox.rs:57-85 | A leased event is claimed by nobody while its lease runs, unless it is put back. |
| Outbox.ClaimLeases | src/shared/outbox.rs:144-145 | A claimed event is out of every worker's reach for 120 seconds. |
| Outbox.DueInTime | src/shared/outbox.rs:57-85 | A leased or put-back event that nobody claims or writes to is due again once its time has passed. |
| Outbox.ClaimingLeases | src/shared/outbox.rs:63-85 | A claim adds one attempt to each event it takes and puts it out of reach for 120 seconds; every other row stays as it is. |
| Outbox.SettlingEndsTheDebt | src/shared/outbox.rs:87-96 | Settling an event ends the debt: its row is dispatched now, is not owed any more, and no other row changes. |
| Outbox.PuttingBackWaits | src/shared/outbox.rs:98-122 | Putting back leaves an event owed if it was, out of reach for 5 seconds to an hour, no shorter for more attempts, and changes nothing else. |
| Outbox.WaitsAddUp | src/shared/outbox.rs:134-142 | The first five waits of an event put back add up to 4355 seconds. |
| Outbox.AcceptedIsDue | src/modules/form/repository.rs:214-258 | A new event is due at once, unattempted, under an id of its own. |
| Outbox.OutboxRepository.ClaimDue | src/shared/outbox.rs:63-85 | The table after the claim, and exactly the claimed rows as the claim left them. |
| Outbox.OutboxRepository.MarkDispatched | src/shared/outbox.rs:87-96 | Settling writes `dispatched_at` of that row, whatever its state, and nothing else; the event is not owed afterwards. |
| Outbox.OutboxRepository.Reschedule | src/shared/outbox.rs:101-122 | Rescheduling moves `available_at` of that row by the delay, and nothing else. |
| Deliveries.AttemptsAreBounded | src/modules/webhook/repository.rs:212-285 | In every run, late records included, a delivery is attempted at most 6 times plus once per manual redelivery and once per lapsed lease. |
| Deliveries.BoundIsAttained | src/modules/webhook/model.rs:15-20 | The bound is tight: for any numbers of redeliveries and lapses a run meets it exactly. |
| Deliveries.LapseMeansLeaseExpired | src/modules/webhook/repository.rs:212-237 | A lapse is counted exactly when a claim takes a row whose 120-second lease ran out with nothing written. |
| Deliveries.DeliveredForGoodExactly | src/modules/webhook/repository.rs:239-285 | In a state that keeps the accounting, a delivered row stays delivered through every continuation without a redelivery or removal of it exactly when no worker still holds a claim on it, however old. |
| Deliveries.LateFailureReopensDelivered | src/modules/webhook/delivery.rs:136-173 | A concrete run from the empty table: a lease runs out, a second worker delivers, the first records its failure, and the delivered row is waiting to be sent again. |
| Deliveries.ReplyDecides | src/modules/webhook/delivery.rs:80-134 | A recorded answer from 200 to 299 leaves the row delivered now with that status; any other answer, or none, leaves it failed from the sixth attempt on and otherwise pending, to be sent 10 seconds to two hours later; no other row changes. |
| Deliveries.ClaimingLeases | src/modules/webhook/repository.rs:212-237 | A claim changes due rows only: one attempt more, out of reach for two minutes, and the claim carries the new attempt number. |
| Deliveries.RequestsOnDeliveries | src/modules/webhook/repository.rs:347-364 | A redelivery makes its row due at once with attempts and last answer kept; a removal takes just the rows it names. |
| Deliveries.WaitsAddUp | src/modules/webhook/model.rs:85-93 | The five waits between the six attempts of a failing delivery add up to 9370 seconds. |
| Deliveries.WorkKeepsAddresses | src/modules/webhook/repository.rs:212-364 | No delivery statement adds, removes or re-addresses a row. |
| Deliveries.RunKeepsInv | src/modules/webhook/repository.rs:212-363 | Every run keeps the accounting: each claim number is unique, only numbers below 6 reopen a row, each claim is paid for by one event that made the row available. |
| Deliveries.WebhookDeliverer.ClaimDueDeliveries | src/modules/webhook/repository.rs:212-237 | Leases the due page and returns it in order, each row with its new attempt number. |
| Deliveries.WebhookDeliverer.MarkDelivered | src/modules/webhook/repository.rs:239-251 | Marks the row delivered without looking at its status. |
| Deliveries.WebhookDeliverer.RecordFailure | src/modules/webhook/delivery.rs:136-173 | Reopens or gives up by the claim's own number; gives up exactly from the sixth on. |
| Deliveries.WebhookDeliverer.Deliver | src/modules/webhook/delivery.rs:80-134 | An answer from 200 to 299 delivers the row, any other answer or none fails it, for good from the sixth attempt on and otherwise until later; an unrecorded outcome leaves the row to its lease. |
| Deliveries.WebhookDeliverer.RunOnce | src/modules/webhook/delivery.rs:67-78 | One batch, with anything happening between its deliveries, is a run of the machine in which each claimed delivery is answered for once, in order; it keeps the accounting. |
| DeliveryOrder.NoDeliveryStarves | src/modules/webhook/repository.rs:212-237 | A due delivery nobody holds, with n pending ones in front of it, is claimed by the ((n + k) / limit + 1)-th claim pass whatever else happens, k counting the rows that overtake it, unless it is redelivered itself or removed. |
| DeliveryOrder.OvertakesExactly | src/modules/webhook/repository.rs:223-229 | A step puts a row in front of a due one exactly when it enqueues or requeues a row with a smaller id at the very instant the other became due, and then just that row. |
| DeliveryOrder.NoDeliveryStarvesLater | src/modules/webhook/repository.rs:212-237 | From any later instant on nothing overtakes, and the bound is n / limit + 1 passes. |
| DispatchSafety.NoWorkIsLost | src/dispatcher/mod.rs:56-161 | In every interleaving, a submission that exists and had a destination when accepted has its event, and the event is still owed or one worker read its form at some step, fanned out at a later one to exactly the enabled endpoints then matching, and settled after that; each of those endpoints that still exists has its delivery row, and mail is queued to every address read. |
| DispatchSafety.OwedExactlyWhenDestined | src/modules/form/repository.rs:214-258 | A submission is owed, through exactly one event, exactly when mail was asked for or an enabled endpoint of the organization takes submissions of that form. |
| DispatchSafety.NeverDeliveredTwice | migrations/0018_idempotent_webhook_fanout.sql:1-10 | In every reachable state an endpoint and a submission share at most one delivery row. |
| DispatchSafety.FanOutKeepsKeys | src/modules/webhook/repository.rs:185-208 | The fan-out can run again or twice at once: it adds only missing rows, so the unique index is never violated. |
| DispatchSafety.FannedOutToAll | src/modules/webhook/repository.rs:185-208 | After a fan-out there is a row for every endpoint that matched, whoever inserted it. |
| DispatchSafety.OutboxRefines | src/dispatcher/mod.rs:56-88 | Seen from the outbox, every run of the whole system is a run of the outbox machine, so its laws carry over. |
| DispatchSafety.NoEventStarves | src/dispatcher/mod.rs:54-88 | In the whole system, a due event with n owed events ahead of it that no worker holds is claimed by the (n / limit + 1)-th claim pass unless its organization is deleted; only one that is held may instead be settled or put back, by its holder. |
| DispatchSafety.UnheldIsLeftAlone | src/dispatcher/mod.rs:54-88 | Over every run, nothing writes to the outbox row of an event nobody holds until a claim takes it or its organization is deleted. |
| DispatchSafety.AcceptedIsUnheld | src/modules/form/repository.rs:214-258 | The event of a submission just accepted is due and held by nobody. |
| DispatchSafety.SettledForGood | src/shared/outbox.rs:87-122 | A settled event never becomes owed again in any run of the whole system. |
| Settling.HandledForGood | src/dispatcher/mod.rs:54-88 | In every interleaving an event with a settlement on record is not owed, and no claim pass of any continuation takes it again. |
| Settling.SettleEndsTheEvent | src/dispatcher/mod.rs:62-66 | A dispatch that reached its end settles its own event: dispatched now, not owed, recorded, and no other row changes. |
| Settling.PutBackKeepsTheEvent | src/dispatcher/mod.rs:67-85 | A dispatch that broke off leaves its event owed and not due for a while. |
| Settling.FailingAndStopping | src/dispatcher/mod.rs:62-85 | An error leaves the worker with its event to put back by its own attempts; a worker that stops changes nothing and leaves its events to the lease. |
| Settling.ReadDecides | src/dispatcher/mod.rs:96-114 | A dispatch goes on with the submission and the form as they are now, and has nothing to do exactly when either is gone. |
| Settling.ClaimHandsOver | src/dispatcher/mod.rs:54-62 | A worker gets exactly the events its claim took, with the attempts the claim counted, and starts on one with its submission. |
| Tenancy.FanOutReaches | src/modules/webhook/repository.rs:185-208 | A row a fan-out adds goes to an existing enabled endpoint of the submission's organization, for all its forms or this one, and says so. |
| Tenancy.FanOutReachesAll | src/modules/webhook/repository.rs:185-208 | When the fan-out goes on to mail, every such endpoint has a row for the submission, and rows that were there are as they were. |
| Tenancy.DeliveriesStayInside | migrations/0016_create_webhooks.sql:28-48 | In every interleaving a delivery, its endpoint and its submission, while it has one, belong to one organization. |
| Tenancy.FormDeletionTakes | migrations/0016_create_webhooks.sql:1-48 | A deleted form goes with exactly its submissions, its endpoints and their deliveries. |
| Tenancy.OrganizationDeletionTakes | migrations/0015_create_outbox.sql:1-20 | A deleted organization takes its forms, submissions, endpoints and events, and no others of the first, second and last kind. |
| DispatchSafety.RunKeepsInv | src/dispatcher/mod.rs:56-161 | Every step of every actor keeps the keys, the one event per owed submission, honoured settlements and truthful workers. |
| Dispatcher.Dispatcher.EnqueueEmails | src/dispatcher/mod.rs:147-161 | One push per address and no other step of this worker; all of them and done, or some and then the failure; a job is queued for each address pushed. |
| Dispatcher.Dispatcher.NotificationSource | src/dispatcher/mod.rs:96-114 | One read, or one failure; no source exactly when the read left nothing to deliver, which may then settle. |
| Dispatcher.Dispatcher.FanOutWebhooks | src/dispatcher/mod.rs:122-145 | The one step taken is a fan-out with a fresh id for exactly each endpoint that takes this submission and has no row, each of the submission's organization, enabled and for its form, or a failure; it goes on to mail only after the fan-out. |
| Dispatcher.Dispatcher.DispatchSubmission | src/dispatcher/mod.rs:96-120 | Its steps are a read, then the fan-out, then one push per address, ended by the first failure; it succeeds exactly with nothing left to do. |
| Dispatcher.Dispatcher.Handle | src/dispatcher/mod.rs:62-85 | Begins the event, dispatches it, and then settles exactly when the dispatch succeeded and puts back when it did not. |
| Dispatcher.Dispatcher.RunOnce | src/dispatcher/mod.rs:54-88 | With anything happening in between, its own steps are one claim and then every claimed event seen through exactly once, unless a settling statement itself fails. |
| Uploads.NoObjectLeaks | src/modules/form/service.rs:526-617 | Over every interleaving, reapers stopping anywhere, an object has a ledger row, or an upload between writing and recording it, or was knowingly given up on. |
| Uploads.NothingLeaksWhenCleanupsSucceed | src/modules/form/service.rs:577-607 | With no form deletion, no dying request and every cleanup succeeding, every object has a row or an upload between finish and insert. |
| Uploads.LostOnlyKnowingly | src/modules/form/service.rs:601-609 | What is given up on: an object whose cleanup failed or whose request died, and the objects of a deleted form. |
| Uploads.RunKeepsInv | src/modules/form/repository.rs:423-517 | Keys stay unique, references stay valid and listed rows stay the ones listed, in every run. |
| Uploads.ReapKeepsNoLeak | src/modules/form/service.rs:678-692 | Deleting the object before the row is what makes a stopped or failed pass safe. |
| Attachments.AttachmentsAreExclusive | src/modules/form/service.rs:477-518 | In every run no two live submissions, and no two fields of one, name the same object. |
| Attachments.RunKeepsHolds | src/modules/form/service.rs:992-1046 | Every `files` entry names a recorded object whose row, while it exists, agrees on form, field, file and submission, and every claimed row is listed by its submission. |
| Attachments.SeversExactly | src/modules/form/service.rs:669-695 | While every attachment is whole, a step breaks one if and only if a reaper deletes the object of a row claimed since it was listed, or a submission claims a row whose object is already gone. |
| Attachments.WholeUnlessSevered | src/modules/form/service.rs:669-695 | Over runs: all attachments are whole throughout exactly when no step severs one. |
| Attachments.ClaimCountsEveryAnswer | src/modules/form/service.rs:503-514 | The claim updates exactly as many rows as there are answers, so the count check cannot fail. |
| Claiming.FileAnswersAreDistinct | src/modules/form/validation.rs:155-167 | The unique keys of an accepted definition give file answers with distinct fields. |
| Claiming.AnswersComeFromFields | src/modules/form/service.rs:991-1008 | The file answers are exactly the text answers of file fields. |
| Claiming.CheckFileReferences | src/modules/form/service.rs:1014-1046 | Accepts exactly when each answer names an unclaimed upload for its field; otherwise the first bad reference is named with the true reason. |
| Claiming.LockedIsEnough | src/modules/form/repository.rs:442-466 | The rows locked by form and key lose nothing an answer could claim. |
| Claiming.SubmissionDesk.InsertClaimingFiles | src/modules/form/service.rs:477-518 | All or nothing; succeeds exactly when the form is still there and every reference checks out, otherwise nothing changes and the first bad reference is the reason, or the missing form; never a claim by another submission. |
| Claiming.LateClaimLosesTheFile | src/modules/form/service.rs:669-695 | A concrete run in which a claim inside a reaper pass leaves a submission naming an object that is gone. |
| Reaping.AtomicPass | src/modules/form/service.rs:669-695 | An uninterrupted pass removes, for each listed upload whose object could be deleted, object and row, and nothing else. |
| Reaping.AtomicPassSparesClaims | src/modules/form/service.rs:669-695 | Such a pass collects only expired unclaimed uploads and leaves whole attachments whole. |
| Reaping.WholeWhenPassesAreAtomic | src/modules/form/service.rs:477-518 | With each reaper pass as one step, from any state whose attachments are whole and whose recorded objects are there, every attachment keeps its object and an agreeing row. |
| Reaping.WholeFromTheStart | src/modules/form/service.rs:477-518 | The same in every state reachable from the empty stores. |
| Reaping.RoundShrinksBacklog | src/modules/form/repository.rs:489-508 | A pass takes `limit` of the uploads that had expired by any earlier time, because later ones sort behind them. |
| Reaping.RoundIsAPass | src/modules/form/service.rs:669-695 | A draining round is a run of the machine: time passes, then an uninterrupted pass whose deletions all succeed. |
| Reaping.QuietTableDrains | src/modules/form/service.rs:669-695 | Over a quiet table n expired uploads are all collected within n / limit passes rounded up, however many more expire meanwhile. |
| Retention.UploadsLiveTheirTime | src/modules/form/service.rs:669-695 | In every interleaving, reapers stopping and resuming anywhere, an upload just recorded keeps its row and its object until its time to live is over, unless its form is deleted. |
| Retention.ClaimTakes | src/modules/form/repository.rs:468-487 | A claim marks exactly the named unclaimed uploads as the submission's. |
| Retention.DeletionHandsBack | migrations/0019_file_uploads.sql:31-34 | A deleted submission's uploads, and no others, are unclaimed again. |
| Retention.FormDeletionTakes | migrations/0019_file_uploads.sql:18-36 | A deleted form takes exactly its submissions and its uploads' rows; the objects stay behind, given up on. |
| Retention.DyingLeaves | src/modules/form/service.rs:574-610 | A request that dies between completing an object and recording it leaves the object behind, given up on. |
| Reaping.UploadReaper.CollectOne | src/modules/form/service.rs:678-692 | The object first; a failed deletion leaves the row for the next pass. |
| Reaping.UploadReaper.ReapAbandonedUploads | src/modules/form/service.rs:669-695 | With anything in between, a pass is exactly the listing and one delete-then-forget per listed upload, and returns how many it collected. |
| Streaming.SniffingTheHeadIsEnough | src/shared/sniff.rs:24-58 | Sixteen bytes decide a signature as the whole file would. |
| Streaming.DisguisesAreCaught | src/shared/sniff.rs:24-108 | A file that starts with a known signature agrees exactly with the declared types that signature allows, whatever follows. |
| Streaming.WebpIsCaught | src/shared/sniff.rs:24-58 | The same for the one signature in two parts. |
| Streaming.UploadWriter.Write | src/shared/storage.rs:201-221 | A chunk is taken exactly when the running total stays within the limit and the bucket takes it; otherwise nothing is written. |
| Streaming.StreamUpload | src/modules/form/service.rs:1049-1106 | For every way of cutting the bytes up, accepted exactly when the whole fits the limit and agrees with the declared type, and then exactly those bytes were written; every refusal is deserved. |
| Validation.WildcardTakesItsKind | src/modules/form/validation.rs:108-117 | An entry with a star for its subtype accepts exactly its kind and the types under it, any other entry exactly itself. |
| UploadService.UploadDesk.Upload | src/modules/form/service.rs:526-617 | With anything happening between its statements: it writes exactly when field, accept list, limit and contents admit the upload, and then its own steps are the write and the insert, undone when the insert fails; accepted uploads have object and row, refused ones no record and, unless a cleanup fails or the write is reported failed after all, no object. |
| UploadService.AdmittedExactly | src/modules/form/service.rs:544-561 | With unique keys: a size and a declared type pass exactly when the form has a file field of that name, the size is within its maximum and the ceiling, and its list, if any, takes the type. |
| Sessions.FamilyIsOneChain | src/modules/session/repository.rs:30-143 | In every reachable state a session's tokens form one `replaced_by` chain, all but the tail used, and each replacement expires no later than the session. |
| Sessions.OneUnusedToken | src/modules/session/repository.rs:69-143 | A session has exactly one unused token. |
| Sessions.RotatedAtMostOnce | src/modules/session/repository.rs:65-143 | Over any run a token is exchanged at most once. |
| Sessions.RedeemsExactly | src/modules/session/repository.rs:69-143 | A token is exchanged exactly when it is known, unused and unexpired and its session is live, and the replacement is new and not already over; it is called a reuse exactly when it is known and used. |
| Sessions.RotationIssues | src/modules/session/repository.rs:112-143 | The replacement lasts as long as asked but no longer than the session; the presented token is used up; no other token or session changes. |
| Sessions.TokensExpire | src/modules/session/repository.rs:104-110 | Once a token's own expiry has passed it is never exchanged, however long its session lasts. |
| Sessions.OneWinner | src/modules/session/repository.rs:65-143 | Of any number of redemptions of one token the first rotates it and every other is a reuse. |
| Sessions.ReplayEndsTheFamily | src/modules/auth/service.rs:129-141 | After a used token is replayed and the reuse path has revoked, no token of the family rotates and the session authenticates nobody, whatever happens before and after; other sessions and all tokens are as they were. |
| Sessions.RotationCannotExtend | src/modules/session/repository.rs:96-117 | Once a session's original expiry has passed, nothing in its family is exchanged and it authenticates nobody, however often it was rotated. |
| Sessions.OverNeverRotates | src/modules/session/repository.rs:96-168 | A revoked, expired or removed session stays over. |
| Sessions.RevocationsEnd | src/modules/session/repository.rs:161-194 | Revoking one, all or all other sessions, or deleting the account, ends exactly those sessions. |
| Sessions.SignedOutForGood | src/modules/session/repository.rs:170-194 | After signing out everywhere, or everywhere else, no token of the sessions ended is exchanged and none of them authenticates, in any continuation. |
| Sessions.RunKeepsInv | src/modules/session/repository.rs:30-194 | Every step keeps each token in its place in its session's chain. |
| Sessions.SessionRepository.CreateSession | src/modules/session/repository.rs:30-63 | Session and first token together, or nothing when an expiry is not in the future. |
| Sessions.SessionRepository.RefreshToken | src/modules/session/repository.rs:69-143 | Exchanges exactly a known, unused, unexpired token of a live session; a used one is a reuse, looked for first; a rotation inserts the clamped replacement and marks the old token. |
| Sessions.SessionRepository.RevokeSession | src/modules/session/repository.rs:161-168 | Revokes that session only, once. |
| Sessions.AuthService.RefreshSession | src/modules/auth/service.rs:94-146 | Tokens are issued exactly on a rotation for an account that may act, hence only for an unused and unexpired token; a reuse revokes the family; a rotation stands even when the account is disabled. |
| Sessions.AuthService.Authenticate | src/modules/auth/service.rs:174-186 | Succeeds exactly for a live session of that user whose account is not disabled. |
| Export.RowsAscend | src/modules/form/repository.rs:333-356 | Emitted rows strictly increase in (created_at, id) whatever the table does, so none is emitted twice. |
| Export.StableRowsAreEmitted | src/modules/form/service.rs:847-866 | A row present at every read of a completed export is emitted. |
| Export.RowsWereRead | src/modules/form/service.rs:847-866 | Every emitted row is as some read saw it. |
| Export.FixedTableReads | src/modules/form/service.rs:847-884 | Over a fixed table of n rows the loop ends after n / limit reads rounded up, and one more, with n rows. |
| Export.StreamExport | src/modules/form/service.rs:831-888 | For every batch size the JSON text is the joined rows in brackets, the CSV text the header and the lines. |
| Export.JoinedReads | src/modules/form/service.rs:866-880 | In the JSON text every row stands at its place, one comma before the next, and there is nothing else. |
| Export.CsvExportReadsBack | src/modules/form/service.rs:835-886 | What a CSV export sent parses back to the header and the rows' cells. |
| Csv.CsvRow | src/modules/form/export.rs:11-35 | The loop prints the line of the row's cells. |
| Csv.CsvHeader | src/modules/form/export.rs:37-46 | The loop prints the line of the fixed names and the columns. |
| Csv.CellsSay | src/modules/form/export.rs:11-84 | The first three cells are id, timestamp and status; under each column the answer as text, true or false, nothing for none, and JSON otherwise. |
| Csv.CellComesBack | src/modules/form/export.rs:86-94 | Any cell text, escaped, is read back by an RFC 4180 parser without touching what follows. |
| Csv.FileComesBack | src/modules/form/export.rs:11-46 | Header and rows parse back to exactly the header's cells and each row's id, timestamp, status and rendered answers in column order. |
| Like.EscapeIsEscapeEach | src/modules/identity/repository.rs:43-50 | Three passes of replacement equal one escape per character. |
| Like.LikeContainsIsContains | src/modules/identity/repository.rs:43-50 | SQL `LIKE` accepts a text against the pattern exactly when the term is a contiguous part of it; the pattern is never malformed. |
| Like.SearchFilterMeans | src/modules/identity/repository.rs:25-38 | No filter exactly when there is no term or only blanks; otherwise the trimmed term, literally. |
| Like.IgnoresCaseExactly | src/modules/identity/dto.rs:193-194 | The documented case-insensitive match on addresses holds exactly for terms that lower-casing leaves alone and for those no address has in any case. |
| Like.CapitalFindsNothing | src/modules/identity/repository.rs:83-83 | A capitalised beginning of an address that does not find it. |
| Strings.TrimTrims | src/modules/identity/repository.rs:31-35 | Trimming cuts only white space and all of it at both ends; nothing is left exactly of a blank text. |
| Strings.NormalizesAway | src/modules/identity/model.rs:50-52 | Case and surrounding blanks of an address make no difference, and a normalised address stays as it is. |
| Lockout.WindowBound | src/modules/identity/service.rs:132-195 | In any half-open window no longer than the lock at most the configured number of wrong passwords is compared, unless something clears the count within it. |
| Lockout.SpanBound | src/modules/identity/service.rs:132-221 | Over any span T at most that number per lock duration, rounded up. |
| Lockout.BurstIsAllowed | src/modules/identity/repository.rs:226-249 | The bound is reached: that many guesses at one instant are all compared. |
| Lockout.LocksAtTheLimit | src/modules/identity/repository.rs:224-250 | From a cleared count or a lock that has run out, each of the first `limit` wrong passwords is compared, and the lock comes into force with the last of them, not before, for the lock duration. |
| Lockout.AnswersExactly | src/modules/identity/service.rs:132-221 | Success exactly for the right password of an account neither locked nor disabled and verified where required; each other answer in exactly its case. |
| Lockout.AttemptsCount | src/modules/identity/service.rs:172-216 | A success clears count and lock, a compared wrong password adds one, counting anew after a lock has run out, and every other attempt changes nothing. |
| Lockout.IdentityService.VerifyCredentials | src/modules/identity/service.rs:132-221 | Success exactly when the address is known, the password right, and the account neither locked nor disabled and verified where required; the account's new counters for every case, and other accounts untouched. |
| Organizations.EveryOrganizationHasAnOwner | migrations/0012_prevent_orphaned_organizations.sql:5-33 | In every reachable state every organization has an owner. |
| Organizations.LastOwnerRuleIsExact | src/modules/organization/service.rs:484-499 | A command that passes every other check goes through if and only if every organization still has an owner afterwards. |
| Organizations.OwnersAreUntouchable | src/modules/organization/model.rs:23-34 | In a run in which no owner of an organization acts and no account is deleted, its owners stay the same whatever anybody else attempts. |
| Organizations.ChangesAreAuthorised | src/modules/organization/service.rs:64-87 | A role changes only by leaving, by account deletion, or at the hands of a manager who reaches both the old and the new role. |
| Organizations.PassesExactly | src/modules/organization/service.rs:64-87 | Which commands get as far as the last-owner rule: an owner may give, change or take any role, an admin any but the owner's, a member only leave. |
| Organizations.RolesAfter | src/modules/organization/service.rs:258-428 | What a command that goes through makes of anybody's role in any organization, and of the accounts. |
| Organizations.OrganizationService.CreateOrganization | src/modules/organization/repository.rs:33-61 | An organization and its first owner come together. |
| Organizations.OrganizationService.DeleteOrganization | src/modules/organization/service.rs:209-236 | Only an owner deletes it. |
| Organizations.OrganizationService.EnsureAnotherOwner | src/modules/organization/service.rs:484-499 | Holds exactly when two different members are owners, that is when no owner is the only one. |
| Organizations.OrganizationService.AddMemberTo | src/modules/organization/service.rs:258-319 | Refused or carried out as the rules decide, in the service's order, and whether a membership was created. |
| Organizations.OrganizationService.SetMemberRole | src/modules/organization/service.rs:321-375 | Refused or carried out as the rules decide. |
| Organizations.OrganizationService.Remove | src/modules/organization/service.rs:378-428 | Refused or carried out as the rules decide; leaving needs no standing. |
| Administration.AnAdministratorRemains | src/modules/identity/administration.rs:329-341 | With the verification setting fixed, once an active administrator exists one exists in every later state. |
| Administration.StepKeepsNoPendingSession | src/modules/identity/repository.rs:289-303 | No pending account ever holds a session. |
| Administration.DisabledAreLockedOut | src/modules/identity/administration.rs:64-98 | In every run, whatever is attempted, an account that has been disabled holds no session, authenticates nobody and administers nothing until an administrator enables it again. |
| Administration.GatedExactly | src/modules/auth/extractor.rs:22-37 | An administrative command is turned away at once exactly when its actor is not signed in or disabled, or lacks the role. |
| Administration.SignsInExactly | src/modules/identity/service.rs:157-205 | Signing in takes an account that is not disabled, and a verified one where required. |
| Administration.StepDownRefusedExactly | src/modules/identity/administration.rs:107-121 | Giving up the role is refused exactly when no active administrator would be left. |
| Administration.LosesExactly | src/modules/identity/administration.rs:64-98 | Whatever the verification setting did: a command leaves no active administrator exactly when it is a disabling or a deletion that goes through and its target is the only one. |
| Administration.LoserIsPending | src/modules/identity/administration.rs:329-341 | The actor of such a command is an administrator signed in while still pending. |
| Administration.AdministeredUnlessLost | src/modules/identity/administration.rs:329-341 | Over runs: an active administrator exists throughout exactly when no command of the run loses the last one. |
| Administration.SwitchingLosesTheAdministrator | src/modules/identity/service.rs:203-205 | A concrete run in which switching verification off lets a pending administrator disable the only active one. |
| Administration.IdentityAdministration.SetAccountStatus | src/modules/identity/administration.rs:64-98 | Never targets the caller; disabling also ends the account's sessions. |
| Administration.IdentityAdministration.EnsureAnAdminRemains | src/modules/identity/administration.rs:329-341 | Refuses exactly the only active administrator. |
| Administration.IdentityAdministration.SetAccountRoles | src/modules/identity/administration.rs:107-131 | Replaces the roles, or refuses for the first reason that applies. |
| Administration.IdentityAdministration.Delete | src/modules/identity/administration.rs:213-232 | Removes another account when the confirmation, trimmed and lower-cased, is its address, or refuses for the first reason that applies. |
| Validation.ValidateSchema | src/modules/form/validation.rs:142-187 | Accepts exactly the valid definitions; otherwise every broken field is named, no other is, and every problem is true. |
| Validation.ValidateFieldRules | src/modules/form/validation.rs:189-238 | No problem exactly when the type-specific settings make sense. |
| Validation.CheckValue | src/modules/form/validation.rs:277-373 | No problem exactly when the value is acceptable, then stored unless null; every problem is true of the value. |
| Validation.ValidateSubmission | src/modules/form/validation.rs:243-274 | Accepts exactly the conforming payloads and stores them minus reserved keys and nulls; otherwise every offending key is reported, no other is, and every problem is true. |
| Validation.AnswersValidateToThemselves | src/modules/form/validation.rs:238-274 | Stored answers validate again, to the same answers. |
| Validation.StoredAnswersFit | src/modules/form/validation.rs:240-373 | Every stored answer is one its field allows, stored under a field's key, and every required field has one. |
| Submitting.SubmittableExactly | src/modules/form/validation.rs:140-141 | For any upload ceiling and any limit on the length of an answer: an accepted definition can be submitted, files included, exactly when each required field can be answered: bounds that leave room, also for the lengths addresses have, an option that is not blank, an accept list some declared type can match. |
| Submitting.UploadableExactly | src/modules/form/service.rs:1110-1136 | Some request gets a file into a file field exactly when the field has no accept list or one with an entry that is not blank, has no parameter and fits in a header. |
| Submitting.AcceptedButNotSubmittable | src/modules/form/validation.rs:301-309 | Two definitions that are accepted and can never be submitted: a required text with a minimum length above the default maximum, and one with a maximum of zero. |
| Submitting.AcceptedButNotUploadable | src/modules/form/validation.rs:189-238 | Two more: a required file whose accept list is empty, and one whose only entry has a parameter. |
| Disposition.HeaderReadsBack | src/modules/form/handler.rs:40-62 | Every filename's header parses under RFC 6266 into one printable quoted `filename` without quotes or backslashes and one `filename*` that decodes to the filename's UTF-8 bytes, and those to the filename. |
| Disposition.QuotedIsSafe | src/modules/form/handler.rs:41-48 | The quoted form keeps every printable ASCII character but quotes and backslashes, and has nothing else. |
| Ordering.FirstN | src/shared/outbox.rs:73-77 | What `ORDER BY ... LIMIT` promises: as many rows as fit, in order, nothing earlier left behind. |
| Ordering.FirstNIsUnique | src/shared/outbox.rs:73-77 | That promise leaves no choice of page. |

## Left out

- Error texts (`last_error`, validation messages) and their truncation; problems are modelled as what they say and of which field.
- The order of rows in an `UPDATE ... RETURNING`; the outbox claim returns a map, the delivery claim the sorted page.
- Several clocks: `NOW()` (transaction start) and the application clock are one nondecreasing clock.
- `FOR UPDATE` and `SKIP LOCKED` beyond the atomicity of the enclosing statement or transaction; a claim that skips rows another transaction has locked is taken as happening after it.
- Outbox events of a kind or payload this version cannot read.
- Uploads.Abandoned orders ties in `created_at` by id, where the query leaves them open.
- UploadService.UploadDesk.Upload: finding the published form, the rate limit and the cleaning of the file name come before it and are not modelled.
- Sessions: a token is identified by its hash, and `last_used_at`, user agents and addresses are not kept.
- Organizations and Administration take an account deletion, a membership transaction and an administrative operation each as one step; overlaps the code does not lock against are not modelled.
- Administration: the organization trigger's refusal of a deletion is a parameter there; the trigger itself is in Organizations.
- Lockout: parallel attempts on one account, which the code does not serialise.
- Export: joining the column list from past answers, and the channel the text is sent through.
- Validation: JSON numbers are reals; titles, help texts and placeholders beyond the title check.
- Submitting.SubmittableExactly: the address grammar is a parameter, of which is assumed that addresses have exactly the lengths from a shortest to a longest; a limit on the characters of each answer stands for the limit on the bytes of the whole request.
- Form deletion and organization deletion give up the uploads they cascade over; nothing in the source collects those objects.
- SMTP, Redis, S3, HTTP and Postgres themselves, cryptography and token generation, rate limiting, audit events, configuration, routing and DTOs.
