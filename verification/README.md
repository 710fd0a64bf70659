# FinMatrix: verified models of the accounting core

FinMatrix is a multi-tenant accounting backend. This project models its small state machines and
its exact arithmetic in Dafny 4.11 and proves what they keep, for every input and every run.

Check it with `dafny verify dfyconfig.toml`.

Money is an integer in units of 0.0001, the scale of `decimal(18,4)`; credit exposure alone uses
exact reals, because tax makes more than four decimals. A table is a map or a sequence, a
transaction a step of a state machine or a method that commits or leaves everything as it was.
Code that changes stored rows or fields is a class whose methods are proved against functions of
the old state; the theorems are about those functions. Every lemma switches Dafny's automatic
induction off, so each proof is the one written down.

| file | what it models |
|---|---|
| `DocumentSequences.dfy` | number allocation from a locked counter, under concurrent transactions and numbers typed by hand |
| `RowLocks.dfy` | the counter rows and the company row that requests lock one after another |
| `References.dfy` | printed document numbers, the highest in use, the numbering of old receipts |
| `PartyCodes.dfy` | customer and vendor IDs, the peek, the migration that numbers and seeds |
| `Idempotency.dfy` | the reservation of a request key, the run, the unawaited completion, replay |
| `Posting.dfy` | the posting engine: three loops over a journal entry's lines |
| `LedgerTriggers.dfy` | the two deferred triggers that demand balanced entries at commit |
| `EntryLife.dfy` | one journal entry, posted and voided by transactions that run at once |
| `Accounts.dfy`, `ChartShape.dfy` | the life of the chart of accounts; its parents and its system numbers |
| `RunningBalances.dfy` | the rebuild of the ledger's running balances |
| `ReceiptRepair.dfy` | moving legacy remainders from 1100 to 2400, and the control-account check |
| `Apportionment.dfy` | spreading an invoice's posted cost over its items and their lines |
| `Calendar.dfy`, `Statements.dfy` | ISO date arithmetic, and statements chained by it |
| `AuditDiff.dfy`, `AuditTrail.dfy` | canonical audit values, and the buffered, collapsed audit rows |
| `LikeSearch.dfy` | search terms as LIKE patterns |
| `DocumentStatus.dfy` | the displayed status in the application, in SQL and as a filter |
| `CreditControl.dfy` | credit exposure, the advance a sale needs, the owner's override |
| `Text.dfy`, `Options.dfy` | strings and option types the others use |

## Where the code and its own account of itself part

Each of these is proved, together with the exact condition under which it happens.

- A bill can be stored or renumbered with a typed number that the counter does not know of, and bill
  numbers have no unique index: the counter later gives the number again exactly when it was typed
  above `last_value` and the bill still carries it
  (`DocumentSequences.TakenNumberCollidesExactlyWhen`, `TypedNumberCollides`).
- A request that has posted holds the company row, and one that then takes a receipt, order or memo
  number can wait for a request that has the counter and is about to post: a settlement that spends an
  advance and takes money, or a delivery approval with cash collected, against a plain receipt. Requests
  can come to wait for each other exactly when two of them take the two rows in opposite orders
  (`RowLocks.StuckExactlyWhen`, `RequestsDeadlockExactlyWhen`, `SettlementMeetsReceipt`).
- A draft is read without a lock, so two postings at once write its lines to the ledger twice, and a
  void and a posting at once can leave lines of a void entry standing; ledger and status agree exactly
  when no commit relies on a status changed under it (`EntryLife.LedgerFollowsStatus`,
  `FollowsExactlyWhen`, `PostedTwice`).
- The application accepts an entry whose sides differ by 0.0001; the commit refuses exactly those
  (`Posting.ToleranceIsRefusedAtCommit`, `LedgerTriggers.PostedEntryCommits`).
- A draft whose lines do not balance cannot be voided, although the service lets drafts be voided
  (`LedgerTriggers.LeavingDraftCommits`).
- A line moved to another entry escapes the triggers on the entry it left, and nothing else does
  (`LedgerTriggers.MoveEscapes`, `TriggersMissOnlyVacated`).
- A draft can be posted by one transaction while another edits its lines, each passing its own check;
  the books balance afterwards exactly when the edit left the lines balanced
  (`LedgerTriggers.BothCommit`, `PostedWhileEdited`). No service edits the lines of a stored draft, so
  this is a boundary of the triggers alone.
- The rows of one entry share `created_at` and have random ids: an account that one entry moves twice
  the same way shows figures a rebuild changes whenever the ids fall the other way round
  (`RunningBalances.PostedEntryMustSort`).
- Parents of accounts can form a loop, exactly by an edit that puts an account under its own
  descendant (`ChartShape.ParentsStayLoopFree`; `Accounts.ParentLoopReachable` is an instance).
- A missing system number can be taken by an account of another type, exactly by a create or a
  renumbering that says so (`ChartShape.SystemNumbersStayTyped`;
  `Accounts.WrongTypeCanTakeSystemNumber` is an instance).
- The edit form locks an account with sub-accounts against renumbering, the server does not
  (`Accounts.StructureGate`).
- The backfill's residue window is partitioned by line, so it always holds one row: an item on k
  lines is charged its cost plus the shares of lines 2 to k, against the header's claim of exact
  totals (`Apportionment.LinesOvershoot`, `LinesTieExactlyWhen`).
- The first item's share of a posting can be negative, exactly when the others' rounded shares exceed
  the posting (`Apportionment.NegativeShareExactlyWhen`, `EqualWeightsSign`).
- The receipt migration pads with `LPAD`, which also cuts: the ten-thousandth receipt of a year
  takes the number of the thousandth (`References.ReceiptsUnique`, `FreshReceiptsUnique`).
- The party-code migration looks for the highest code of up to nine digits, so a longer code in its
  way is given out again (`PartyCodes.NumberingIsUnique`).
- Years 0 to 99 are read as 1900 to 1999 by the date helpers (`Calendar.YearsBelowHundredMove`).
- The SQL filter allows for a NULL balance and the rule for the shown status answers for it otherwise;
  they part there alone (`DocumentStatus.FilterAgrees`). Invoice and bill balances are NOT NULL, so no
  stored row shows it.
- An excess below half of 0.0001 is refused while asking for an advance of zero
  (`CreditControl.RequiredAdvanceNearlySettles`).
- The subledger check has no answer for a company without account 1100 or 2400, and the default chart
  does not hold 2400; the repair script stops there (`ReceiptRepair.AdvancesRepair.RunCompany`).
- A document created first and deleted last in one transaction is recorded as a create that shows
  nothing (`AuditTrail.CollapsedRow`, `CreatedAndDeleted`).
- A replay is the original response except for an undefined body, which comes back as null, and a
  status of 0, which comes back as the default (`Idempotency.ReplayIsExact`); a lost completion write
  blocks the key for good (`Idempotency.LostWriteSticks`).

## Model

| member | source | states |
|---|---|---|
| `DocumentSequences.CommittedNumbersUnbroken` | src/common/utils/sequence.util.ts:46-86 | in every interleaving, the numbers given to committed transactions are the unbroken run from the seed plus one to `last_value` |
| `DocumentSequences.NeverIssuedAgain` | src/common/utils/sequence.util.ts:17-23 | later runs only append larger numbers, so none is issued twice even after its document is deleted |
| `DocumentSequences.NumbersStartAtOne` | src/common/utils/sequence.util.ts:63-85 | in a series that starts with nothing and whose numbers nobody types, the committed numbers are 1, 2, 3 and so on to `last_value` |
| `DocumentSequences.CommitGives` | src/common/utils/sequence.util.ts:17-23 | a commit appends the numbers taken to the history and leaves the row at the last of them, and free |
| `DocumentSequences.CommitStores` | src/common/utils/sequence.util.ts:17-23 | a commit stores each document under the number it took or was typed with, and leaves the others alone |
| `DocumentSequences.DeletionGivesNothingBack` | src/common/utils/sequence.util.ts:17-23 | a deleted document is gone and gives no number back |
| `DocumentSequences.TakenNumberCollidesExactlyWhen` | src/modules/bills/bills.service.ts:362-366 | a number a live transaction holds was never committed and is held by no other, and a stored document carries it exactly when one typed above the counter of its time still does |
| `DocumentSequences.AheadWasTyped` | src/modules/bills/bills.service.ts:457-457 | such a document stood at the start, or a commit of the run typed its number above the `last_value` readable just before |
| `DocumentSequences.TypedNumberCollides` | src/modules/bills/entities/bill.entity.ts:7-8 | after any last number, a bill typed with the next one and a bill numbered after it carry the same |
| `DocumentSequences.TakenNumberIsFresh` | src/common/utils/sequence.util.ts:46-86 | in series whose numbers nobody types, a number a live transaction holds is on no document |
| `DocumentSequences.AbortGivesNumbersBack` | src/common/utils/sequence.util.ts:20-23 | an abort leaves row, documents and history alone, and the next bump gives its first number again; where the row was not committed yet, the next to insert it does so exactly when both read the same seed |
| `DocumentSequences.WaitingEnds` | src/common/utils/sequence.util.ts:20-23 | a transaction waits only for one that can go on or commit, after which it no longer waits for it |
| `DocumentSequences.PrintedNumbersDiffer` | src/common/utils/sequence.util.ts:88-97 | the printed numbers of a series' commits differ from one another and from every number of another series or year |
| `DocumentSequences.MigrationStarts` | src/database/migrations/1787320000000-QaFixesSchema.ts:189-203 | seeding leaves a state from which the above hold, whatever row and documents it finds |
| `DocumentSequences.MigrationSeedIs` | src/database/migrations/1787320000000-QaFixesSchema.ts:189-203 | seeding leaves the row at or above the one it finds and every document, and no higher |
| `DocumentSequences.SequenceTable.UpdateReturning` | src/common/utils/sequence.util.ts:52-61 | the UPDATE counts the visible row up under its lock and returns it, or returns nothing when there is none |
| `DocumentSequences.SequenceTable.InsertOnConflict` | src/common/utils/sequence.util.ts:69-85 | the INSERT makes the row from the seed read at its start, or counts up the row that came first |
| `DocumentSequences.SequenceTable.InsertFirst` | src/common/utils/sequence.util.ts:69-85 | without a row the first number is 1 where no document stood when the INSERT started, else one more than the highest on one; with a row made meanwhile, one more than its value |
| `DocumentSequences.SequenceTable.NextDocumentSequence` | src/common/utils/sequence.util.ts:46-86 | the returned number is the row's plus one, or that of `InsertFirst`, and the one just taken, whatever other transactions run between the missed UPDATE and the INSERT; only documents typed ahead of the counter can carry it |
| `RowLocks.DeadlockExactlyWhen` | src/common/utils/sequence.util.ts:18-23 | two transactions can come to wait for each other, whatever runs beside them, exactly when their lists of rows share some and do not begin with the same shared one |
| `RowLocks.RequestsDeadlockExactlyWhen` | src/modules/journal-entries/posting.service.ts:80-92 | two requests can exactly when one takes, after it has posted, a number of a counter the other takes before it posts |
| `RowLocks.StuckExactlyWhen` | src/modules/deliveries/delivery-ledger.service.ts:562-745 | requests running together, each any number of times, can all be left waiting exactly when two of them can wait for each other |
| `RowLocks.SettlementMeetsReceipt` | src/modules/payments/payments.service.ts:622-687 | reachable: a settlement that has posted its advances asks for the receipt counter, a receipt of the year holds it and asks for the company row |
| `RowLocks.EndReleases` | src/common/utils/sequence.util.ts:18-23 | a transaction that ends keeps no one waiting |
| `RowLocks.LocksAreKept` | src/common/utils/sequence.util.ts:18-19 | until it ends a transaction has exactly what it took, whatever anyone does |
| `References.RefInjective` | src/common/utils/reference-generator.util.ts:21-27 | a printed number tells its series, its year and its place |
| `References.RefShape` | src/common/utils/reference-generator.util.ts:21-27 | a printed number is its series, its year and its place in four digits or as many as it needs |
| `References.TailReadsBack` | src/common/utils/sequence.util.ts:73-76 | the trailing digits of a printed number read back as its place |
| `References.RefInYear` | src/common/utils/sequence.util.ts:68-78 | the pattern of a series and year matches exactly that series' numbers of that year |
| `References.InYearExactlyWhen` | src/common/utils/sequence.util.ts:68-68 | the pattern asks for the stem and at least one digit after it, and nothing else |
| `References.AboveTopIsFree` | src/common/utils/sequence.util.ts:63-78 | past the highest number in use no document has the printed number |
| `References.TopIs` | src/common/utils/sequence.util.ts:73-76 | the highest number is a stored one that no other exceeds, and 0 stands for none |
| `References.SeededIs` | src/database/migrations/1787320000000-QaFixesSchema.ts:190-202 | seeding never sets the counter back, takes it past every stored number and no further |
| `References.SeededNextIsFree` | src/database/migrations/1787320000000-QaFixesSchema.ts:190-202 | whichever number a seeded series gives next, no document has it |
| `References.LpadSpares` | src/database/migrations/1787320000000-QaFixesSchema.ts:76-77 | `LPAD` to four prints a number whole exactly while it is below 10,000 |
| `References.PrintsCut` | src/database/migrations/1787320000000-QaFixesSchema.ts:76-77 | any number prints as the series' number for its leading four digits |
| `References.ReceiptsUnique` | src/database/migrations/1787320000000-QaFixesSchema.ts:55-81 | the receipts, some numbered already, end up with different numbers exactly when no place is cut to a number a receipt holds or another place of the year is cut to |
| `References.FreshReceiptsUnique` | src/database/migrations/1787320000000-QaFixesSchema.ts:55-81 | receipts without numbers get different ones exactly when no year has ten thousand |
| `PartyCodes.FormatInjective` | src/common/utils/party-code.util.ts:73-75 | no two numbers and no two kinds share a code |
| `PartyCodes.FormatShape` | src/common/utils/party-code.util.ts:72-75 | a code is `C-` or `V-` and four digits, or as many as the number needs |
| `PartyCodes.TailReadsBack` | src/common/utils/party-code.util.ts:91-96 | the numeric tail of a code reads back as its number |
| `PartyCodes.FormatInSeries` | src/common/utils/party-code.util.ts:98-100 | a generated code has the shape the counter is seeded from exactly up to nine digits |
| `PartyCodes.HighestIs` | src/common/utils/party-code.util.ts:90-96 | the number looked for is on a held code of the series and none is above it |
| `PartyCodes.AboveHighestIsFree` | src/common/utils/party-code.util.ts:119-129 | past the highest code in use every code is free, until ten digits |
| `PartyCodes.PartySeries.Bump` | src/common/utils/party-code.util.ts:102-130 | a bump gives the number after the counter, or after the highest code when there is no counter, or, on conflict, after the counter another create made meanwhile, and stores it |
| `PartyCodes.CountedUp` | src/common/utils/party-code.util.ts:102-130 | the counter the UPDATE finds is counted up, where it finds none the one another create made since, if any |
| `PartyCodes.SeriesGoesOn` | src/common/utils/party-code.util.ts:102-130 | the series goes on from its counter, without one from the highest code held, with none held from nothing |
| `PartyCodes.NextCodeIs` | src/common/utils/party-code.util.ts:149-164 | a create is refused exactly when the ten thousand codes after the base are all held, and else given the first that is not |
| `PartyCodes.FirstCode` | src/common/utils/party-code.util.ts:72-75 | the first customer is `C-0001`, the first vendor `V-0001` |
| `PartyCodes.PartySeries.NextPartyCode` | src/common/utils/party-code.util.ts:149-164 | the result is the first free code of the next ten thousand, raced or not, the counter stands at it, and the refusal comes only when all are taken |
| `PartyCodes.PartySeries.PeekNextPartyCode` | src/common/utils/party-code.util.ts:171-190 | the peek shows the code the next create is given, or the 10,001st when none is free |
| `PartyCodes.PartySeries.PeekThenNext` | src/common/utils/party-code.util.ts:166-170 | with no write in between the create gets the code shown, and fails only in a company of ten thousand parties |
| `PartyCodes.TakenNeedsParties` | src/common/utils/party-code.util.ts:154-159 | to have a range of codes taken a company must hold as many parties |
| `PartyCodes.RequestDoes` | src/common/utils/party-code.util.ts:145-244 | what a create, a typed create, a renumbering and a deletion each do to the codes and the counter |
| `PartyCodes.NeverGivenTwice` | src/common/utils/party-code.util.ts:145-164 | over any run of creates, renumberings and deletes the series never gives out a code twice |
| `PartyCodes.IssuedGrows` | src/common/utils/party-code.util.ts:145-164 | that history grows by exactly each code the series gives |
| `PartyCodes.CodesStayUnique` | src/common/utils/party-code.util.ts:228-244 | codes stay unique over any such run |
| `PartyCodes.NumberingIsUnique` | src/database/migrations/1790000000000-PartyCodesLedgerHistory.ts:37-58 | numbering gives each blank party the code of its place after the highest and keeps the others; they stay different exactly when no party holds the code of a number past nine digits within the places |
| `PartyCodes.NumberingGoesOn` | src/database/migrations/1790000000000-PartyCodesLedgerHistory.ts:44-49 | numbering goes on from the highest code of the series, or from nothing |
| `PartyCodes.NumberingCollides` | src/database/migrations/1790000000000-PartyCodesLedgerHistory.ts:44-58 | that can happen: the last nine-digit code, the first ten-digit one and a blank party |
| `PartyCodes.SeededIs` | src/database/migrations/1790000000000-PartyCodesLedgerHistory.ts:64-73 | seeding never sets the counter back, takes it past every code of the series and no further |
| `PartyCodes.SeededNextIsFree` | src/database/migrations/1790000000000-PartyCodesLedgerHistory.ts:64-73 | after seeding the next code is the very next number, free at the first attempt |
| `PartyCodes.PartySeries.Migrate` | src/database/migrations/1790000000000-PartyCodesLedgerHistory.ts:37-73 | one table's migration is that numbering followed by that seeding |
| `Idempotency.NeverPostsTwice` | src/common/interceptors/idempotency.interceptor.ts:49-106 | in every interleaving one handler run is live at a time, at most one ever succeeds, none starts after a success, and each replay repeats that success |
| `Idempotency.CompletedIsForever` | src/common/interceptors/idempotency.interceptor.ts:89-98 | once the completion lands, no handler starts and every answer is a replay |
| `Idempotency.RetryGetsTheAnswer` | src/common/interceptors/idempotency.interceptor.ts:49-98 | once its completion lands, every later answer is the first one: its status, or 201 for 0, and its body, or null for an undefined one |
| `Idempotency.FailureFreesKey` | src/common/interceptors/idempotency.interceptor.ts:99-105 | after the release of a failed run the key is free again |
| `Idempotency.LostWriteSticks` | src/common/interceptors/idempotency.interceptor.ts:89-105 | when a trailing write is lost the record stays pending and no handler runs under the key again |
| `Idempotency.Interceptor.Reserve` | src/common/interceptors/idempotency.interceptor.ts:64-86 | the insert reserves the key or is refused, and a refusal leads to a second lookup |
| `Idempotency.Interceptor.RunHandler` | src/common/interceptors/idempotency.interceptor.ts:88-106 | the reserved branch answers once and then, unless the write is lost, completes the record with that answer or releases it |
| `Idempotency.Interceptor.Intercept` | src/common/interceptors/idempotency.interceptor.ts:32-107 | a request gets one answer, and its handler runs exactly when it reserved the key; a success leaves the record completed with it and a failure none, unless the write is lost; a completed record is replayed, a pending one refused |
| `Idempotency.Interceptor.InterceptTwice` | src/common/interceptors/idempotency.interceptor.ts:32-107 | a retry after a success is answered with that very response, whatever others attempt in between; after a failure the retry's own handler runs |
| `Posting.PostingMoves` | src/modules/journal-entries/posting.service.ts:284-349 | posting keeps every balance equal to its rows and moves the two totals by the lines' |
| `Posting.CommitKeepsSound` | src/modules/journal-entries/posting.service.ts:102-223 | a committed posting keeps balances, row ownership and equal sides |
| `Posting.PostedExactlyWhen` | src/modules/journal-entries/posting.service.ts:102-182 | an entry is posted exactly when it has two lines, an open period, one-sided lines on active accounts and sides within 0.0001; each refusal names what fails |
| `Posting.ReversalRestoresBalances` | src/modules/journal-entries/posting.service.ts:357-366 | posting an entry and then its reversal puts every balance back |
| `Posting.PostedBalance` | src/modules/journal-entries/posting.service.ts:303-317 | each balance moves by the sum of its lines and nothing else of an account changes |
| `Posting.PostedRows` | src/modules/journal-entries/posting.service.ts:319-348 | the ledger grows by one row per line, carrying the balance after it |
| `Posting.PostingService.AggregateDeltas` | src/modules/journal-entries/posting.service.ts:290-296 | the first loop sums the signed lines per account |
| `Posting.PostingService.ApplyDeltas` | src/modules/journal-entries/posting.service.ts:298-317 | the second loop moves each account once by its delta, in any order |
| `Posting.PostingService.WriteRows` | src/modules/journal-entries/posting.service.ts:319-348 | the third loop appends the rows of posting line by line |
| `Posting.PostingService.ApplyPosting` | src/modules/journal-entries/posting.service.ts:284-349 | the three loops together equal posting the lines one at a time |
| `Posting.PostingService.PostEntry` | src/modules/journal-entries/posting.service.ts:102-223 | a posted entry has that effect or, refused with the first failing check, none |
| `LedgerTriggers.TriggersMissOnlyVacated` | src/database/migrations/1783800000000-LedgerIntegrityConstraints.ts:102-161 | from balanced books, tables balance after a transaction exactly when its commit is accepted and every entry a line was moved away from balances too |
| `LedgerTriggers.TriggersSuffice` | src/database/migrations/1783800000000-LedgerIntegrityConstraints.ts:102-161 | without moves between entries the commit is accepted exactly when every non-draft entry balances, untouched ones included |
| `LedgerTriggers.BooksStayBalanced` | src/database/migrations/1783800000000-LedgerIntegrityConstraints.ts:102-161 | over any number of such transactions the books stay balanced |
| `LedgerTriggers.StatementsKeepConstraints` | src/database/migrations/1783800000000-LedgerIntegrityConstraints.ts:40-57 | any statements keep line ids unique, lines owned by stored entries and one-sided |
| `LedgerTriggers.StatementDoes` | src/database/migrations/1783800000000-LedgerIntegrityConstraints.ts:40-57 | what each statement changes in the two tables, and exactly when it is refused |
| `LedgerTriggers.StatementQueues` | src/database/migrations/1783800000000-LedgerIntegrityConstraints.ts:140-161 | for which entries each statement queues a check |
| `LedgerTriggers.MoveEscapes` | src/database/migrations/1783800000000-LedgerIntegrityConstraints.ts:110-114 | moving one line of a posted entry under a draft is accepted and unbalances the entry it left |
| `LedgerTriggers.PostedEntryCommits` | src/database/migrations/1783800000000-LedgerIntegrityConstraints.ts:124-133 | a new posted entry survives its commit exactly when its sides are equal |
| `LedgerTriggers.LeavingDraftCommits` | src/database/migrations/1783800000000-LedgerIntegrityConstraints.ts:151-161 | posting or voiding a draft commits exactly when its lines balance |
| `LedgerTriggers.DraftEditsCommit` | src/database/migrations/1783800000000-LedgerIntegrityConstraints.ts:116-122 | edits of a draft's own lines alone are accepted at commit, whatever they leave |
| `LedgerTriggers.BothCommit` | src/database/migrations/1783800000000-LedgerIntegrityConstraints.ts:140-161 | a draft posted while another transaction edits its lines: both commits are accepted, and the books balance afterwards exactly when the edit left the lines balanced |
| `LedgerTriggers.PostedWhileEdited` | src/database/migrations/1783800000000-LedgerIntegrityConstraints.ts:140-161 | the same against any other transaction without moves whose commit is accepted and that leaves the entry a draft |
| `LedgerTriggers.PostedWhileLineAdded` | src/database/migrations/1783800000000-LedgerIntegrityConstraints.ts:119-122 | adding any one line to the draft meanwhile is accepted and unbalances the posted entry |
| `LedgerTriggers.Transaction.AssertEntryBalanced` | src/database/migrations/1783800000000-LedgerIntegrityConstraints.ts:110-136 | the trigger raises exactly for a stored non-draft entry with unequal sides |
| `LedgerTriggers.Transaction.Commit` | src/database/migrations/1783800000000-LedgerIntegrityConstraints.ts:140-161 | the commit is refused exactly when one of the queued checks raises |
| `EntryLife.LedgerFollowsStatus` | src/modules/journal-entries/posting.service.ts:225-282 | over any interleaving of posts and voids, the ledger holds the entry as often as its status says, once more for each second posting and each void that missed a posting, once less for each second reversal |
| `EntryLife.FollowsExactlyWhen` | src/modules/journal-entries/journal-entries.service.ts:110-168 | ledger and status agree in every state of a run exactly when no commit relies on a status that was changed in one of these ways since |
| `EntryLife.SerialNeverMisses` | src/modules/journal-entries/journal-entries.service.ts:110-168 | transactions on an entry that come one after the other never do |
| `EntryLife.SerialStatus` | src/modules/journal-entries/posting.service.ts:231-247 | one after the other, an entry goes from draft to posted to void or from draft to void, never back, and is posted once at most |
| `EntryLife.PostedThenVoided` | src/modules/journal-entries/journal-entries.service.ts:105-168 | a posted entry can be voided, and then every balance is what it was |
| `EntryLife.BalanceCountsCopies` | src/modules/journal-entries/posting.service.ts:284-320 | each balance moves by the entry's lines as often as the ledger holds the entry, besides what other postings move |
| `EntryLife.RunKeepsSound` | src/modules/journal-entries/posting.service.ts:284-348 | the books stay sound all the while, so no balance check notices |
| `EntryLife.PostedTwice` | src/modules/journal-entries/posting.service.ts:231-276 | two postings of any draft at once put its lines into the ledger twice |
| `EntryLife.OnlyCommitsWrite` | src/modules/journal-entries/posting.service.ts:225-282 | reading and giving up change neither the entry nor the books; a commit leaves the status it stands for |
| `Accounts.ChartStaysSound` | src/modules/accounts/accounts.service.ts:210-606 | over any run balances equal the signed sums of their rows under the current types, no row loses its account, sides agree, and a system account is never retyped, renumbered, deleted or switched off |
| `Accounts.CreatePostsOpening` | src/modules/accounts/accounts.service.ts:238-301 | a created account has what was asked for and stands at its opening balance, posted against equity, unless the period is closed; the other accounts stay as they were |
| `Accounts.CreateRefused` | src/modules/accounts/accounts.service.ts:215-236 | a create is refused at once for a kind its type does not have, a number in use or a missing parent, in this order |
| `Accounts.AcceptedEdit` | src/modules/accounts/accounts.service.ts:457-487 | an accepted edit gives the account the flag, number, type, kind and parent asked for and changes nothing else; a parent that no longer fits is let go |
| `Accounts.EditAcceptedExactlyWhen` | src/modules/accounts/accounts.service.ts:379-487 | an edit is accepted exactly when none of the rules forbids it |
| `Accounts.EditRefusalExplained` | src/modules/accounts/accounts.service.ts:379-487 | each refusal of an edit names a rule the edit breaks |
| `Accounts.ToggleExactlyWhen` | src/modules/accounts/accounts.service.ts:489-525 | a toggle switches the account over, unless it is active and required or not at zero |
| `Accounts.DeleteExactlyWhen` | src/modules/accounts/accounts.service.ts:571-606 | a deletion takes the account and nothing else, unless it is a system account, has rows or is a parent |
| `Accounts.SystemAccountIs` | src/modules/accounts/accounts.service.ts:308-344 | the account under a system number is the one that has it, switched on, or a new one of the defined type and kind, or none |
| `Accounts.StepIs` | src/modules/accounts/accounts.service.ts:210-606 | a request leaves what its operation gives or, refused, the books as they were |
| `Accounts.DefinitionsFit` | src/modules/accounts/accounts.constants.ts:238-300 | each lazy system account is a required one and of a kind its type has |
| `ChartShape.ReparentLoopFree` | src/modules/accounts/accounts.service.ts:358-487 | from parents without a loop, a new parent closes one exactly when it is the account or below it |
| `ChartShape.StepLoopFree` | src/modules/accounts/accounts.service.ts:210-606 | every operation keeps parents without a loop, except exactly an accepted edit that puts an account under its own descendant |
| `ChartShape.ParentsStayLoopFree` | src/modules/accounts/accounts.service.ts:210-606 | over any run every state is free of loops exactly when no such edit occurs |
| `Accounts.ParentLoopReachable` | src/modules/accounts/accounts.service.ts:358-487 | an instance: two accounts become each other's parents |
| `ChartShape.StepWellTyped` | src/modules/accounts/accounts.service.ts:210-487 | every operation keeps system numbers on accounts of the defined type and kind, except exactly an accepted create or renumbering into one under another |
| `ChartShape.SystemNumbersStayTyped` | src/modules/accounts/accounts.service.ts:210-606 | over any run they stay so in every state exactly when no such request occurs |
| `ChartShape.PostingFindsDefinedType` | src/modules/accounts/accounts.service.ts:308-344 | after such a run the account found or made for a system number has its defined type and kind |
| `Accounts.WrongTypeCanTakeSystemNumber` | src/modules/accounts/accounts.service.ts:308-344 | an instance: an asset takes 2400 and is then the account found under it |
| `Accounts.AccountingEquation` | src/modules/accounts/accounts.service.ts:608-628 | in sound books the chart's totals obey the accounting equation |
| `Accounts.AccountsService.CreateAccount` | src/modules/accounts/accounts.service.ts:210-301 | the account and its opening entry land together or not at all |
| `Accounts.AccountsService.GetOrCreateSystemAccount` | src/modules/accounts/accounts.service.ts:308-344 | the account found is switched on, or made from its definition, or the number is not defined |
| `Accounts.AccountsService.UpdateAccount` | src/modules/accounts/accounts.service.ts:358-487 | the edit is applied whole or refused with the first failing check |
| `Accounts.AccountsService.ToggleAccount` | src/modules/accounts/accounts.service.ts:495-520 | the account is switched over unless it is required or holds a balance |
| `Accounts.AccountsService.DeleteAccount` | src/modules/accounts/accounts.service.ts:571-606 | the account goes unless it is a system account, has ledger rows or has sub-accounts |
| `Accounts.AccountsService.Summarize` | src/modules/accounts/accounts.service.ts:608-628 | the loop's totals per type, which in sound books satisfy the equation |
| `RunningBalances.RebuiltSteps` | src/database/lib/ledger-repair.ts:225-241 | consecutive rows of an account differ by exactly the later row's signed movement |
| `RunningBalances.RebuiltEndsAtBalance` | src/database/lib/ledger-repair.ts:220-224 | an account's last row carries the account's balance |
| `RunningBalances.RebuiltIsRunning` | src/database/lib/ledger-repair.ts:217-250 | the rebuilt figures step by the movements and end at the balances |
| `RunningBalances.OnlyRunningFigures` | src/database/lib/ledger-repair.ts:220-241 | no other figures have both properties |
| `RunningBalances.GeneralLedger.Rebuild` | src/database/lib/ledger-repair.ts:254-266 | only drifting rows are written, yet afterwards every row carries its rebuilt figure and none drifts |
| `RunningBalances.GeneralLedger.RebuildTwice` | src/database/lib/ledger-repair.ts:243-266 | a second rebuild writes nothing |
| `RunningBalances.PostedRowMustSortLast` | src/database/lib/ledger-repair.ts:225-241 | a posting leaves no drift exactly when its row sorts after every other row of its account |
| `RunningBalances.PostedEntryMustSort` | src/database/lib/ledger-repair.ts:220-236 | an entry leaves no drift when its rows sort in the order they were posted, and if it moves each account one way only then |
| `RunningBalances.OutOfOrderCanCancel` | src/database/lib/ledger-repair.ts:220-236 | an entry that moves an account both ways can be out of order without a drift |
| `ReceiptRepair.OneReceipt` | src/database/lib/ledger-repair.ts:99-169 | one receipt's transaction: both balances, both types, the receipts and the subledger figures afterwards |
| `ReceiptRepair.RepairMoves` | src/database/repair-customer-advances.ts:223-244 | 1100 and 2400 move by one total, each by its own normal side |
| `ReceiptRepair.BothRiseTogether` | src/database/lib/ledger-repair.ts:91-94 | with 1100 an asset and 2400 a liability both rise by the same total |
| `ReceiptRepair.DifferenceDropsBySlivers` | src/database/lib/ledger-repair.ts:42-54 | the difference drops by 0.0001 for each receipt whose remainder is exactly the tolerance, and by nothing else |
| `ReceiptRepair.RepairCompletes` | src/database/repair-customer-advances.ts:223-244 | no remainder above the tolerance is left exactly when there was none or the period is open and 1100 active |
| `ReceiptRepair.RepairTwice` | src/database/lib/ledger-repair.ts:96-98 | a second run changes nothing |
| `ReceiptRepair.RepairKeepsSound` | src/database/lib/ledger-repair.ts:139-163 | the books stay sound throughout |
| `ReceiptRepair.AdvancesRepair.ReclassifyLegacyReceipt` | src/database/lib/ledger-repair.ts:99-169 | the amount moved, nothing for a marked receipt, or the refusal with nothing changed |
| `ReceiptRepair.AdvancesRepair.RepairAll` | src/database/repair-customer-advances.ts:223-244 | the loop is the repair of the whole list and counts the receipts it moved |
| `ReceiptRepair.RunSettles` | src/database/repair-customer-advances.ts:157-247 | after a run no customer balance is wrong, nothing is found any more if posting works, and a second run changes nothing |
| `ReceiptRepair.RecomputedAgree` | src/database/lib/ledger-repair.ts:193-215 | after the recomputation every balance is open invoices less open credit memos, one that was is left alone, and the others are counted |
| `ReceiptRepair.BalancesAddUp` | src/database/lib/ledger-repair.ts:28-54 | when the company's totals are those of its customers, the balances after a run add up to what the check expects of 1100 and what is still held inside it |
| `ReceiptRepair.RunChecks` | src/database/lib/ledger-repair.ts:22-54 | over a run the check's two account figures move by what was moved, and its difference by the slivers alone |
| `ReceiptRepair.MovedAre` | src/database/repair-customer-advances.ts:223-244 | the receipts moved are those unmarked with more than 0.0001 unapplied |
| `ReceiptRepair.AdvancesRepair.RecomputeCustomerBalances` | src/database/lib/ledger-repair.ts:193-215 | every stored balance plus open credit memos is open invoices afterwards, a balance for which that held is untouched, and the others are counted |
| `ReceiptRepair.AdvancesRepair.RunCompany` | src/database/repair-customer-advances.ts:157-254 | a company without findings is passed over, a check without an answer ends the run before anything is written, a missing owner only lists; otherwise receipts and balances are repaired and the second difference is the first less the slivers |
| `Apportionment.ItemsTieToPosting` | src/database/migrations/1789930000000-BackfillInventoryCost.ts:98-135 | the items' costs add up to exactly what the invoice posted |
| `Apportionment.ItemsNearProportion` | src/database/migrations/1789930000000-BackfillInventoryCost.ts:114-135 | every item but the first is within half a unit of its proportion, the first within (n - 1) / 2 units |
| `Apportionment.NoNegativeShare` | src/database/migrations/1789930000000-BackfillInventoryCost.ts:114-135 | no share is negative once twice the posting reaches n (n - 1) units |
| `Apportionment.NegativeShareExactlyWhen` | src/database/migrations/1789930000000-BackfillInventoryCost.ts:127-135 | a share is negative exactly when the item ranks first and the others' shares exceed the posting |
| `Apportionment.EqualWeightsSign` | src/database/migrations/1789930000000-BackfillInventoryCost.ts:114-135 | over n equal weights the first share is negative exactly when the posting modulo n is at least n / 2 and, with the quotient, at most n - 2 |
| `Apportionment.NegativeShareReachable` | src/database/migrations/1789930000000-BackfillInventoryCost.ts:127-135 | an instance: two units over four equal items cost the first one minus one unit |
| `Apportionment.LinesOvershoot` | src/database/migrations/1789930000000-BackfillInventoryCost.ts:136-160 | as written, an item's lines add up to its cost plus the rounded shares of every line but the first |
| `Apportionment.LinesTieExactlyWhen` | src/database/migrations/1789930000000-BackfillInventoryCost.ts:154-160 | for a cost of either sign, the lines tie exactly when every later line's share rounds to nothing |
| `Apportionment.LinesTiedPerItem` | src/database/migrations/1789930000000-BackfillInventoryCost.ts:136-138 | with the residue taken per invoice and item the lines always tie |
| `Apportionment.InvoiceMissesBySurplus` | src/database/migrations/1789930000000-BackfillInventoryCost.ts:18-22 | the invoice's lines miss its posting by exactly the surplus |
| `Apportionment.OneLinePerItemTies` | src/database/migrations/1789930000000-BackfillInventoryCost.ts:18-22 | with each item on one line the lines add up to the posting |
| `Apportionment.TwoLinesOvercharge` | src/database/migrations/1789930000000-BackfillInventoryCost.ts:154-160 | one item on two equal lines is charged half as much again |
| `Apportionment.WeightIs` | src/database/migrations/1789930000000-BackfillInventoryCost.ts:100-100 | an item's weight is quantity out times unit cost, a zero cost counting as 1, and never below zero |
| `Apportionment.UnitCostNear` | src/database/migrations/1789930000000-BackfillInventoryCost.ts:163-166 | a line's unit cost times its quantity is within half a quantity of its cost |
| `Apportionment.WriteCosts` | src/database/migrations/1789930000000-BackfillInventoryCost.ts:161-168 | the costs of an item's lines are written in place, with their basis |
| `Apportionment.WriteCostsAgain` | src/database/migrations/1789930000000-BackfillInventoryCost.ts:145-145 | a second run writes what is there already |
| `Calendar.YearStartFormula` | src/common/utils/business-date.util.ts:55-55 | the closed form behind `Date.UTC` counts the years since 1970 |
| `Calendar.UtcDayIsDay` | src/common/utils/business-date.util.ts:53-56 | `Date.UTC` of a calendar date is its day number, for years below 100 that of 1900 years later |
| `Calendar.MonthsStart` | src/common/utils/business-date.util.ts:53-56 | the months start after 0, 31, 59, 90 days and so on, a day later from March in a leap year |
| `Calendar.DaysAreCounted` | src/common/utils/business-date.util.ts:53-56 | day numbers count calendar days |
| `Calendar.DateOfIsDate` | src/common/utils/business-date.util.ts:53-56 | every day number has a valid date, whose day number it is |
| `Calendar.AddDaysIsCalendar` | src/common/utils/business-date.util.ts:53-56 | adding days reaches the calendar date that many days on |
| `Calendar.BetweenIsCalendar` | src/common/utils/business-date.util.ts:70-76 | the days between two dates are the calendar days |
| `Calendar.AddAndBetweenUndo` | src/common/utils/business-date.util.ts:53-76 | adding days and counting days undo each other, both ways |
| `Calendar.AddDaysAdds` | src/common/utils/business-date.util.ts:53-56 | adding days in two steps is adding their sum |
| `Calendar.StringOrderIsSpanSign` | src/common/utils/business-date.util.ts:58-76 | string order is the sign of the day count |
| `Calendar.StringOrderIsDateOrder` | src/common/utils/statement.util.ts:17-18 | date strings order as the calendar does |
| `Calendar.YearsBelowHundredMove` | src/common/utils/business-date.util.ts:53-56 | adding no days gives a date string back exactly from the year 100 on |
| `Calendar.AddDaysKeepsShape` | src/common/utils/business-date.util.ts:53-56 | the result is a four-digit-year date exactly when the day reached lies in years 0 to 9999 |
| `Statements.StatementBalances` | src/common/utils/statement.util.ts:20-33 | opening is the sum dated before the period, closing that plus the sum inside it |
| `Statements.EventEnters` | src/common/utils/statement.util.ts:20-33 | an event before the period enters both balances, one inside it the closing balance, a later one neither |
| `Statements.ClosingIsUpTo` | src/common/utils/statement.util.ts:16-18 | the closing balance is everything up to the end, wherever the period starts |
| `Statements.ClosingCarriesOver` | src/common/utils/statement.util.ts:20-33 | the closing balance is the opening balance of the period starting the day after, as `addDaysIso` names it |
| `Statements.ChainIsOnePeriod` | src/common/utils/statement.util.ts:20-33 | a chain of periods agrees with one long period |
| `Statements.StatementAnyOrder` | src/common/utils/statement.util.ts:20-33 | the order of the events does not matter |
| `AuditDiff.NormalizeAuditValue` | src/common/audit/audit-diff.util.ts:10-32 | the recursion with its loop over sorted keys computes the normal form |
| `AuditDiff.NormalizeTwice` | src/common/audit/audit-diff.util.ts:10-32 | normalizing is idempotent |
| `AuditDiff.AlikeIsNormal` | src/common/audit/audit-diff.util.ts:1-9 | two values have one normal form exactly when they are alike up to white space, key order and empty parts |
| `AuditDiff.PrintUnique` | src/common/audit/audit-diff.util.ts:40-43 | a printed value is read off the front of a JSON text in one way only |
| `AuditDiff.SameIsAlike` | src/common/audit/audit-diff.util.ts:35-44 | the comparison of JSON texts answers yes exactly for values that read the same, numeric columns as numbers |
| `AuditDiff.AlikeInside` | src/common/audit/audit-diff.util.ts:22-30 | what reads the same reads the same at any depth |
| `AuditDiff.SpaceIsInvisible` | src/common/audit/audit-diff.util.ts:13-14 | white space around a string makes no difference |
| `AuditDiff.KeyOrderIsInvisible` | src/common/audit/audit-diff.util.ts:25-28 | nor does the order of keys |
| `AuditDiff.BlankPartIsInvisible` | src/common/audit/audit-diff.util.ts:26-29 | nor does an object part with nothing in it |
| `AuditDiff.CopyReadsTheSame` | src/common/audit/financial-audit.subscriber.ts:279-281 | the copy a snapshot keeps of a JSON column reads as the column |
| `AuditDiff.CopyIsJson` | src/common/audit/financial-audit.subscriber.ts:277-278 | the copy has nothing undefined in it, and a value without it is copied as it is |
| `AuditTrail.Collapse` | src/common/audit/financial-audit.subscriber.ts:243-261 | the loop gives one row per resource in order of first appearance, each summing up that resource's rows |
| `AuditTrail.OneRowEach` | src/common/audit/financial-audit.subscriber.ts:112-115 | every resource a transaction touched has exactly one row, and no other has any |
| `AuditTrail.CollapsedRow` | src/common/audit/financial-audit.subscriber.ts:238-242 | with create only first and delete only last, the row has the first before-image, the last after-image and the action create, else delete, else void, else update |
| `AuditTrail.CreatedAndDeleted` | src/common/audit/financial-audit.subscriber.ts:252-258 | a document created and deleted in one transaction leaves a create without images |
| `AuditTrail.UnrecordedUpdate` | src/common/audit/financial-audit.subscriber.ts:287-303 | an update goes unrecorded exactly when every column, side effects aside, reads the same before and after |
| `AuditTrail.ColumnAtIs` | src/common/audit/financial-audit.subscriber.ts:291-301 | a compared value is the image's column of that name, or undefined |
| `AuditTrail.IsMeaningful` | src/common/audit/financial-audit.subscriber.ts:291-303 | the loop finds a column that differs exactly when there is one |
| `AuditTrail.TrailIsDeserved` | src/common/audit/financial-audit.subscriber.ts:151-201 | in any interleaving the trail holds, per commit, the record of that transaction's own rows and nothing else |
| `AuditTrail.RolledBackLeavesNothing` | src/common/audit/financial-audit.subscriber.ts:157-160 | a transaction that rolls back leaves the trail as if its writes had not been watched |
| `AuditTrail.SnapshotIsImage` | src/common/audit/financial-audit.subscriber.ts:263-285 | an image has the entity's own columns in their order, null for nothing, a date's text, a named object's copy, and no arrays or relations |
| `AuditTrail.RowForTells` | src/common/audit/financial-audit.subscriber.ts:171-187 | a row's before-image is of the old state and its after-image of the new; which document and whose comes from the new state, else the old, else the actor |
| `AuditTrail.SaveVoidsExactlyWhen` | src/common/audit/financial-audit.subscriber.ts:132-142 | a save is a void exactly when the status says void and did not |
| `AuditTrail.RecordedExactlyWhen` | src/common/audit/financial-audit.subscriber.ts:208-228 | of the collapsed rows those with a company are recorded, but for an update of a watched record that changed nothing besides side effects |
| `AuditTrail.RecordedAlone` | src/common/audit/financial-audit.subscriber.ts:189-194 | a change on its own is recorded as it is or not at all |
| `AuditTrail.FinancialAuditSubscriber.Capture` | src/common/audit/financial-audit.subscriber.ts:162-201 | a watched write is buffered under its query runner, or written at once outside a transaction |
| `AuditTrail.FinancialAuditSubscriber.Flush` | src/common/audit/financial-audit.subscriber.ts:208-228 | a flush adds the collapsed rows that have a company and changed something |
| `AuditTrail.FinancialAuditSubscriber.AfterTransactionCommit` | src/common/audit/financial-audit.subscriber.ts:151-155 | a commit flushes and clears the runner's buffer |
| `AuditTrail.FinancialAuditSubscriber.AfterTransactionRollback` | src/common/audit/financial-audit.subscriber.ts:157-160 | a rollback clears it |
| `AuditTrail.FinancialAuditSubscriber.AfterUpdate` | src/common/audit/financial-audit.subscriber.ts:132-142 | an update is a void when the status becomes void |
| `AuditTrail.FinancialAuditSubscriber.InsertAndCommit` | src/common/audit/financial-audit.subscriber.ts:128-155 | a created document ends in the trail with its new state alone |
| `AuditTrail.FinancialAuditSubscriber.UpdateAndCommit` | src/common/audit/financial-audit.subscriber.ts:132-155 | a saved one with both states, as a void or, if something changed, as an update |
| `AuditTrail.FinancialAuditSubscriber.RemoveAndCommit` | src/common/audit/financial-audit.subscriber.ts:144-155 | a removed one with its old state alone |
| `LikeSearch.SearchIsLiteral` | src/common/utils/like.util.ts:9-14 | a string matches the search pattern exactly when the trimmed term occurs in it, character for character |
| `LikeSearch.FoldedSearchIsLiteral` | src/common/utils/like.util.ts:1-8 | the same with case folded on both sides |
| `LikeSearch.SearchIsAccepted` | src/common/utils/like.util.ts:9-14 | no pattern ends in an escape with nothing to take |
| `LikeSearch.SearchesDiffer` | src/common/utils/like.util.ts:13-14 | two terms find the same strings exactly when they are one term once trimmed |
| `DocumentStatus.SqlTwinAgrees` | src/common/utils/document-status.util.ts:16-45 | the application's rule and its SQL twin give one status, NULL balances included |
| `DocumentStatus.OverdueExactlyWhen` | src/common/utils/document-status.util.ts:16-35 | a document is shown overdue exactly when stored so, or open, owing and past its date, and else as stored |
| `DocumentStatus.OwedNext` | src/common/utils/document-status.util.ts:106-107 | what documents owe is the sum of their balances, a missing one owing nothing |
| `DocumentStatus.FilterAgrees` | src/common/utils/document-status.util.ts:53-76 | the filter lists a document under exactly the status it shows, unless it is open, past its date and its balance NULL; then no tab lists it |
| `DocumentStatus.TabIsStatus` | src/common/utils/document-status.util.ts:47-76 | a tab lists as many documents as show its status and they owe what those owe |
| `DocumentStatus.DocumentListSummary` | src/common/utils/document-status.util.ts:94-127 | over the grouped rows in any order: all documents counted, each status with its count and balance, and the two totals |
| `DocumentStatus.SummaryIsTabs` | src/common/utils/document-status.util.ts:89-93 | the summary's counts and balances are those of the filtered lists |
| `CreditControl.ApplyingKeepsExposure` | src/common/utils/credit-control.util.ts:65-105 | applying part of a receipt leaves the exposure unchanged exactly when the invoice counts and the receipt still held that part, or neither counted |
| `CreditControl.OwnOrderCountsOnce` | src/common/utils/credit-control.util.ts:79-84 | invoicing what an order has shipped leaves the exposure as it was |
| `CreditControl.GrossValue` | src/common/utils/credit-control.util.ts:188-192 | the application's tax-inclusive value is the one SQL multiplies out |
| `CreditControl.NothingButTheSale` | src/common/utils/credit-control.util.ts:105-105 | a customer with nothing is exposed by the sale alone |
| `CreditControl.InvoiceRaises` | src/common/utils/credit-control.util.ts:65-67 | an invoice raises the exposure by its balance unless draft or void |
| `CreditControl.DeliveryRaises` | src/common/utils/credit-control.util.ts:68-78 | a delivery raises it by its goods while on the road, but for one prepaid without a receipt |
| `CreditControl.OrderRaises` | src/common/utils/credit-control.util.ts:79-84 | an order raises it by what it has shipped, unless its own or counted by deliveries |
| `CreditControl.ReceiptLowers` | src/common/utils/credit-control.util.ts:85-90 | a receipt lowers it by what it still holds |
| `CreditControl.MemoLowers` | src/common/utils/credit-control.util.ts:91-93 | a credit memo lowers it by its balance unless void |
| `CreditControl.GoodsAreWorth` | src/common/utils/credit-control.util.ts:68-84 | goods count at quantity times price with tax, ordered quantities first |
| `CreditControl.LimitBinds` | src/common/utils/credit-control.util.ts:105-121 | a limit binds only above zero, and the excess is the exposure past it |
| `CreditControl.AdvanceSettles` | src/common/utils/credit-control.util.ts:105-107 | an advance brings the sale within the limit exactly when it covers the excess |
| `CreditControl.RequiredAdvanceNearlySettles` | src/common/utils/credit-control.util.ts:107-122 | the advance asked for leaves at most 0.00005, nothing exactly when the excess has no or a rounded-up fifth decimal, and is zero for a refused sale exactly below half a unit |
| `CreditControl.RequiredAdvanceIsLeast` | src/common/utils/credit-control.util.ts:41-43 | with four decimals it settles the sale and no smaller advance does |
| `CreditControl.CreditDesk.EnforceCreditLimit` | src/common/utils/credit-control.util.ts:130-185 | a sale goes ahead exactly when within the limit or with the owner's reason, which leaves one audit event; each refusal names its cause |

## Left out

- One key at a time: each protocol is modelled for one company and series, one idempotency key, one company's books; rows of other keys are untouched by every statement modelled.
- Isolation: a statement sees what was committed when it started, as READ COMMITTED gives it; the repair and the audit classes run their transactions one after another.
- Widths: the 32-bit counter and its casts, the 20 characters of a party code and the range of `Date` (8.64e15 ms) are not modelled; numbers are unbounded.
- Calendar.AddDaysIsCalendar: stated from the year 100 on, since earlier years are read as 19xx, and only for fields made of digits.
- Statements.ClosingCarriesOver: stated for events dated in years 0 to 9999 and a period end from the year 100 on, for the same reason.
- Apportionment.ItemsNearProportion: weights are integers; the intermediate casts of SQL's numeric division are taken as exact.
- AuditDiff.SameIsAlike: a string or number is one token of the JSON text, so the escaping inside strings, NaN and negative zero are not modelled; nor is the moving of integer-like keys to the front, which depends on the set of keys alone.
- AuditTrail.FinancialAuditSubscriber.Capture: the table of watched entities is a parameter; nested transactions and failures of the audit write are left out.
- LikeSearch.FoldedSearchIsLiteral: case is folded character by character, by any folding that leaves the three special characters alone.
- ReceiptRepair.AdvancesRepair.RunCompany: the search for suspects and the rebuild of running balances (`RunningBalances`) enter as whether the company is to be looked at; 2400 is made only with the definition it has.
- CreditControl.CreditDesk.EnforceCreditLimit: the wording of the refusal is left out, and SQL's numeric division is taken as exact.
- DocumentSequences.TakenNumberCollidesExactlyWhen: a document carries a number by its place in the series; a typed spelling such as BILL-2026-42 counts as carrying 42, although the counter prints BILL-2026-0042.
- LedgerTriggers.PostedWhileEdited: two transactions at once, one of them posting; wider interleavings of statements are left out.
- RowLocks.RequestsDeadlockExactlyWhen: the counter rows and the company row only. Rows one request alone touches (its invoice, customer, stock or delivery) are left out: two requests on the same ones can wait for each other in further ways, and so can drafts posted by hand, which update accounts without the company row.
- EntryLife.LedgerFollowsStatus: the period lock, the reconciliation check and the checks of the lines can refuse a post or a void besides, which is an abort here; a void that finds its own values stored already sends no update, here it counts as one.
- RunningBalances.PostedEntryMustSort: an entry that moves one account both ways can leave no drift out of order too, when its rows happen to cancel (`RunningBalances.OutOfOrderCanCancel`); that case has one direction only.
- Idempotency.NeverPostsTwice: the request's path and method play no part, as in the code; requests without a key pass straight through and are left out.
- Accounts.ChartStaysSound: uses of an account outside the ledger enter as a count; an opening balance has at most four decimals.
- Party-code validation and journal references: single expressions.
- Repairs of receipts with fixed ids, schema-only migrations, invite codes, time zones, controllers, guards, mail and document drawing.
