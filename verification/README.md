# Verified model of the fernbank ledger

A Dafny model of the parts of fernbank whose correctness depends on more than one function: moving money under
optimistic concurrency, running each request at most once, rotating refresh tokens on both sides of the
backend-for-frontend, and the codecs, paging and notification feed around them. `dafny verify dfyconfig.toml`
checks everything.

## What is modelled

**Money movement** (`Monetary`, `Ledger`, `Concurrency`, `SerialEquivalence`, `RetryBound`, `Aliasing`, `CallsAlone`, `StaleDeposits`, `Executors`,
`OptimisticRetry`, `Reconciliation`, `SerialForm`, `CallAnswers`). A bank is a committed database plus any number of running calls. One event is one
step of one call: read the account rows, read the paying row, read the receiving row, or commit if the versions of the
rows it writes are unchanged, with rollback and a new attempt if not. Accounts may be opened, and their status changed,
between any two steps. All statements quantify over every event list, hence every interleaving. `Executors` has the same
operations as methods on mutable rows inside a transaction that hands out one object per row.
A row is written, and its version checked, only if its balance changed, as a dirty-checking persistence layer does. That
matters in one case: a deposit to or a withdrawal from the SYSTEM clearing account itself (which can be opened by a
request, as account type is not restricted there) has one row on both sides and leaves it as it was. Such a call keeps every
ledger invariant, but its returned balance may be stale. `RunReplays` says exactly when a run is serial: when no such call
returned a stale balance. From the caller's side the exception is deposits to a SYSTEM account: a withdrawal from one never
commits (`SerialUnlessOnClearing`), and each such deposit can return a stale balance (`StaleReceipt`). The database itself is
that of the replay even then (`StateReplays`). The status of an account is only known to have been ACTIVE when
it was read.

**At most once** (`Idempotency`, `Scheduling`, `ExactlyOnce`, `ScheduledRunner`,
`LogLedger`, `ScheduledSteps`). Each call of a history carries its own
operation, because the compared payload does not determine it: deposits and withdrawals share one request record, so a
withdrawal under the key and body of a deposit gets the deposit's receipt (`Scheduling.SecondRequest`); freezing an account
compares a body without the account id.
The scheduled-transfer machine drives real transfers through it, and its runs mix batches, client requests, new
schedules, account openings and status changes. `LogLedger` and `ScheduledSteps` repeat the exactly-once result beside the
step-interleaved bank, where every attempt is a call like any other.

**Refresh tokens** (`TokenFamilies`, `AuthenticationService`, `TokenCache`, `AccessTokenCacheService`). A token's raw
value, its id and its place in issue order are one number, and a family is named by its first token. `refresh` throws an
unchecked exception inside its transaction right after revoking the family, and nothing exempts that exception from
rollback. The architecture decision on sessions (docs/adr/0004-jwt-vs-server-sessions.md) promises that the family stays
revoked. The parameter `keepWrites` says which of the two happens; the chain results hold for both, and
`ReuseEndsFamily` says exactly when the promise is met. The cache is a state machine whose events are the JavaScript
turns: a caller asks, the backend rotates, the answer is stored, the lock is removed. Tokens may be signed out or revoked at the
backend at any moment, as they are on logout just before `invalidate`.

**Codecs** (`Numerals`, `MoneyCodec`, `AccountNumber`, `Iban`, `StatementExport`). Strings are sequences of characters.
The CSV reader follows section 2 of RFC 4180 with a line feed ending each record, and takes as text data every character
but comma, quote, line feed and carriage return.

**Statements and notifications** (`Statement`, `NotificationFeed`, `FeedPages`, `NotificationPoller`). Paging is proved against a log
that grows between pages by entries newer than the last entry of the first page, and against an upper time bound that may move with the
clock, as it does when a request leaves it out. A description is optional in the schema and in every request, but the
statement collects descriptions into a map that admits no null, so a page is refused exactly when one of its
transactions has none.

## Model

| member | source | states |
|---|---|---|
| `SerialEquivalence.RunReplays` | backend/src/main/java/com/mel/fernbank/ledger/banking/TransferExecutor.java:43-95 | For every run of any interleaved calls, exactly: replaying the committed calls one at a time in commit order gives the run's database and every caller's receipt if no call that pays one account from itself returned a balance that was stale when it committed, and otherwise cannot be done at all. |
| `SerialEquivalence.StateReplays` | backend/src/main/java/com/mel/fernbank/ledger/banking/DepositWithdrawExecutor.java:43-125 | The database of every run, stale receipts included, is that of the committed calls run one at a time in commit order, except exactly when a call that pays one account from itself would overflow there. |
| `Aliasing.SerialUnlessOnClearing` | backend/src/main/java/com/mel/fernbank/ledger/banking/DepositWithdrawExecutor.java:43-125 | With a condition known before the calls: the replay gives the run's database and receipts in every run in which no call deposits to a SYSTEM account; withdrawals from one need no exception. |
| `Aliasing.AliasedExactly` | backend/src/main/java/com/mel/fernbank/ledger/banking/DepositWithdrawExecutor.java:43-60 | In every run a committed call has one account on both sides exactly when it names a SYSTEM account, and then it is a deposit. |
| `StaleDeposits.StaleReceipt` | backend/src/main/java/com/mel/fernbank/ledger/banking/DepositWithdrawExecutor.java:117-125 | The guard on deposits is needed for each of them: from every sound start, for every SYSTEM account with a row and every positive amount the row can take, in some run this deposit returns and no replay in commit order gives what the calls returned. |
| `CallsAlone.AloneIsSerial` | backend/src/main/java/com/mel/fernbank/ledger/banking/TransferExecutor.java:43-95 | The one-at-a-time form is the step machine itself left alone: a call whose serial form succeeds takes five steps to that database and receipt. |
| `Aliasing.ClearingNeverPositive` | backend/src/main/java/com/mel/fernbank/ledger/banking/DepositWithdrawExecutor.java:56-57 | In a sound ledger a clearing balance is never above zero: it owes what the customers of its currency hold. |
| `Aliasing.WithdrawalFromClearingRefused` | backend/src/main/java/com/mel/fernbank/ledger/banking/DepositWithdrawExecutor.java:71-77 | Hence a withdrawal from a clearing account never passes its funds check, in any interleaving. |
| `SerialForm.TransferAnswer` | backend/src/main/java/com/mel/fernbank/ledger/banking/TransferExecutor.java:43-95 | A transfer alone, by conditions on the database and the call: each error in the order the source finds it, or the two rows written, the two entries posted and the receipt. |
| `SerialForm.DepositAnswer` | backend/src/main/java/com/mel/fernbank/ledger/banking/DepositWithdrawExecutor.java:43-60 | A deposit alone, in the same way; the clearing account pays, below zero if need be. |
| `SerialForm.WithdrawAnswer` | backend/src/main/java/com/mel/fernbank/ledger/banking/DepositWithdrawExecutor.java:62-91 | A withdrawal alone, in the same way; the receipt shows the customer's balance. |
| `SerialForm.OpeningDepositAnswer` | backend/src/main/java/com/mel/fernbank/ledger/banking/DepositWithdrawExecutor.java:97-115 | The first deposit in a currency also creates its clearing account, SYSTEM and ACTIVE, which then owes the amount. |
| `SerialForm.OpeningWithdrawAnswer` | backend/src/main/java/com/mel/fernbank/ledger/banking/DepositWithdrawExecutor.java:97-115 | The first withdrawal in a currency likewise. |
| `SerialForm.ReceiptShowsBalances` | backend/src/main/java/com/mel/fernbank/ledger/banking/DepositWithdrawExecutor.java:79-90 | On success the receipt carries the transaction just posted, names the call's accounts and shows their balances as they now are. |
| `CallAnswers.PayersWereActive` | backend/src/main/java/com/mel/fernbank/ledger/banking/TransferExecutor.java:61-63 | In every run, each committed transfer and withdrawal saw its paying account ACTIVE. |
| `CallAnswers.ReadsCurrentStatus` | backend/src/main/java/com/mel/fernbank/ledger/banking/DepositWithdrawExecutor.java:65-68 | The status that is seen is the account's own at the moment of the first read. |
| `CallAnswers.ReceiptsAreCurrent` | backend/src/main/java/com/mel/fernbank/ledger/banking/TransferExecutor.java:88-94 | In every run, what a commit between two rows returns names its transaction and accounts, with the balances their rows have right after it. |
| `CallAnswers.CommitEnds` | backend/src/main/java/com/mel/fernbank/ledger/banking/OptimisticRetryTemplate.java:16-24 | A commit step throws if its clearing account has been created meanwhile, begins again or gives up after 50 attempts if one of its changed rows has another version, and returns otherwise. |
| `CallAnswers.AloneFailsAsSerial` | backend/src/main/java/com/mel/fernbank/ledger/banking/TransferExecutor.java:44-72 | Left alone, a call that its serial form refuses throws that error within five steps and leaves no trace. |
| `CallAnswers.OperatorsAnswer` | backend/src/main/java/com/mel/fernbank/ledger/banking/OpenAccountService.java:36-47 | Opening an account gives an ACTIVE account with an empty row unless id or clearing currency is taken; a status change changes that alone. |
| `SerialEquivalence.LedgerAlwaysHolds` | backend/src/main/java/com/mel/fernbank/ledger/banking/DepositWithdrawExecutor.java:43-125 | After every run, aborted calls and aliased sides included: each balance row equals the sum of its entries, every customer balance is at least zero, each transaction is two entries of one currency summing to zero, each currency totals zero, and the old ledger is a prefix of the new. |
| `SerialEquivalence.RunReachable` | backend/src/main/java/com/mel/fernbank/ledger/banking/TransferExecutor.java:43-95 | The inductive invariant: the ledger invariants, what each running call may still rely on, and one log entry for each returned call and only those. |
| `SerialEquivalence.CommitIsSerial` | backend/src/main/java/com/mel/fernbank/ledger/domain/AccountBalance.java:30-32 | A commit that passes its version check does to the database, and returns, what the whole call would do if run alone at that moment, except exactly when both its sides are one account whose balance is no longer the one it returns. |
| `SerialEquivalence.ReturnMeansCommit` | backend/src/main/java/com/mel/fernbank/ledger/banking/TransferExecutor.java:88-94 | A step returns a receipt only if it commits. |
| `LogLedger.NextPosted` | backend/src/main/java/com/mel/fernbank/ledger/banking/TransferExecutor.java:73-76 | Every event keeps this: the k-th committed call since the start is the k-th ledger transaction, which holds that call's two entries. |
| `Concurrency.CommitLands` | backend/src/main/java/com/mel/fernbank/ledger/domain/AccountBalance.java:30-32 | If the version check passes, both rows still are the ones the attempt read, whatever ran in between; with one account on both sides no row is written and only its existence and currency are known. |
| `Concurrency.PhaseGrows` | backend/src/main/java/com/mel/fernbank/ledger/banking/TransferExecutor.java:56-86 | Nothing another call or an operator does breaks what a running call relies on. |
| `Concurrency.AdvanceGrows` | backend/src/main/java/com/mel/fernbank/ledger/banking/TransferExecutor.java:65-86 | A step leaves accounts, clearing index and log as they were or longer, and raises a row version only with a logged commit that wrote it. |
| `Concurrency.NextSound` | backend/src/main/java/com/mel/fernbank/ledger/banking/DepositWithdrawExecutor.java:43-125 | Every event keeps the four ledger invariants. |
| `Ledger.ApplyEffect` | backend/src/main/java/com/mel/fernbank/ledger/banking/TransferExecutor.java:78-86 | A commit moves exactly the debited and credited units and leaves every other row unchanged. |
| `Ledger.ApplyVersions` | backend/src/main/java/com/mel/fernbank/ledger/domain/AccountBalance.java:30-36 | A commit raises by one the version of each written row and of no other; a row on both sides is not written. |
| `Ledger.ApplyBalanced` | backend/src/main/java/com/mel/fernbank/ledger/banking/TransferExecutor.java:73-86 | A commit keeps balance = sum of entries. |
| `Ledger.ApplySolvent` | backend/src/main/java/com/mel/fernbank/ledger/banking/TransferExecutor.java:65-71 | A commit keeps customer balances non-negative. |
| `Ledger.ApplySound` | backend/src/main/java/com/mel/fernbank/ledger/banking/DepositWithdrawExecutor.java:43-91 | A commit keeps typing, double entry, balance sums and solvency together. |
| `Ledger.CurrencyTotalsZero` | backend/src/main/java/com/mel/fernbank/ledger/domain/Money.java:42-62 | Two cancelling entries a transaction make every currency total zero, for any number of leading transactions. |
| `RetryBound.ExhaustionNeedsRivals` | backend/src/main/java/com/mel/fernbank/ledger/banking/OptimisticRetryTemplate.java:11-25 | A call that ran out of its 50 attempts met at least 50 commits by other calls on its own balance rows while it ran; with fewer it commits or ends in a domain error. |
| `RetryBound.LostAttemptCharged` | backend/src/main/java/com/mel/fernbank/ledger/banking/OptimisticRetryTemplate.java:16-22 | Each lost attempt is charged to a commit of another call logged during that attempt, distinct from those already charged. |
| `RetryBound.LostRowWasWritten` | backend/src/main/java/com/mel/fernbank/ledger/domain/AccountBalance.java:30-32 | The row that fails the version check was written by a commit since the attempt began. |
| `RetryBound.OwnStepsBounded` | backend/src/main/java/com/mel/fernbank/ledger/banking/OptimisticRetryTemplate.java:14-25 | However it is scheduled, a call takes at most five steps an attempt and so at most 250 in all. |
| `OptimisticRetry.Execute` | backend/src/main/java/com/mel/fernbank/ledger/banking/OptimisticRetryTemplate.java:14-25 | Returns the result of the first attempt that does something other than lose its version check; fails with the lock error exactly when all 50 lose it, after exactly 50. |
| `Executors.TransferExecutor.Transfer` | backend/src/main/java/com/mel/fernbank/ledger/banking/TransferExecutor.java:43-95 | Run alone on live objects, changes the database and returns exactly what the serial form says, every error case included. |
| `Executors.TransferExecutor.MoveFunds` | backend/src/main/java/com/mel/fernbank/ledger/banking/TransferExecutor.java:65-94 | The balance part of a transfer agrees with the movement function. |
| `Executors.DepositWithdrawExecutor.Deposit` | backend/src/main/java/com/mel/fernbank/ledger/banking/DepositWithdrawExecutor.java:43-60 | As for transfers, with the clearing account found or created, and with both sides one managed object when they are one account. |
| `Executors.DepositWithdrawExecutor.Withdraw` | backend/src/main/java/com/mel/fernbank/ledger/banking/DepositWithdrawExecutor.java:62-91 | As above for a withdrawal. |
| `Executors.DepositWithdrawExecutor.GetOrCreateCashClearing` | backend/src/main/java/com/mel/fernbank/ledger/banking/DepositWithdrawExecutor.java:97-115 | Finds the clearing account of the currency, or registers one with a zero balance for insertion. |
| `Executors.PersistenceContext.FindBalance` | backend/src/main/java/com/mel/fernbank/ledger/domain/AccountBalance.java:28-32 | A row found twice in a transaction is one object; the first find loads the committed balance and version. |
| `Executors.PersistenceContext.Flush` | backend/src/main/java/com/mel/fernbank/ledger/domain/AccountBalance.java:30-32 | Gives the rows to write, or nothing exactly when some changed row no longer has the version that was loaded. |
| `Executors.PersistenceContext.Commit` | backend/src/main/java/com/mel/fernbank/ledger/banking/TransferExecutor.java:43 | Writes everything or nothing. |
| `Executors.CommitAgrees` | backend/src/main/java/com/mel/fernbank/ledger/domain/AccountBalance.java:30-36 | Flushing the managed rows of a movement decides and writes what the commit step of the state machine does. |
| `Reconciliation.Reconcile` | backend/src/main/java/com/mel/fernbank/ledger/banking/ReconciliationService.java:40-67 | Reports each currency whose entries do not cancel and each row that is not its entry sum, each once and nothing else; the report is empty exactly on a healthy ledger. |
| `Reconciliation.NothingWrongIsHealthy` | backend/src/main/java/com/mel/fernbank/ledger/banking/ReconciliationService.java:44-64 | Healthy (an independent statement over all currencies and rows) holds exactly when there is nothing to report. |
| `Reconciliation.AlwaysHealthy` | backend/src/main/java/com/mel/fernbank/ledger/banking/ReconciliationService.java:40-67 | No run of the interleaved bank makes the audit report anything. |
| `Reconciliation.CorruptedRowReported` | backend/src/main/java/com/mel/fernbank/ledger/banking/ReconciliationService.java:56-64 | Changing the units of any one row of a healthy ledger produces exactly that one discrepancy. |
| `Idempotency.AtMostOnce` | backend/src/main/java/com/mel/fernbank/ledger/idempotency/IdempotencyGuard.java:36-57 | In every history of non-overlapping calls inside the window, each with an operation of its own, a key has taken effect once if it has a record and never otherwise; failed operations leave it free. |
| `Idempotency.FirstCall` | backend/src/main/java/com/mel/fernbank/ledger/idempotency/IdempotencyGuard.java:51-56 | A first call under a free key is told its operation's own result or error; a result is kept for 24 hours, an error not. |
| `Idempotency.LaterCall` | backend/src/main/java/com/mel/fernbank/ledger/idempotency/IdempotencyGuard.java:40-49 | After a success, a later call with the key runs its own operation exactly when the record has expired; before that it changes nothing and, whatever operation it stands for, repeats the first result if the payload is the same and conflicts otherwise. |
| `Scheduling.SecondRequest` | backend/src/main/java/com/mel/fernbank/ledger/banking/DepositWithdrawService.java:31-85 | Under a used key a second money request gets the first receipt and moves nothing exactly when it looks the same, which includes a withdrawal after a deposit of that amount; otherwise it conflicts. |
| `Idempotency.ExpiredCall` | backend/src/main/java/com/mel/fernbank/ledger/domain/IdempotencyRecord.java:16-22 | Past expiry the operation takes effect again and the unique constraint then fails the call, so the caller is told it failed. |
| `Idempotency.OtherKeysUntouched` | backend/src/main/java/com/mel/fernbank/ledger/idempotency/IdempotencyGuard.java:51-56 | A call leaves every other user's and key's record alone; a failed operation leaves its own key alone too. |
| `Idempotency.RecordsStay` | backend/src/main/java/com/mel/fernbank/ledger/idempotency/IdempotencyGuard.java:52-55 | Once written, a record is never changed. |
| `Idempotency.IdempotencyGuard.Execute` | backend/src/main/java/com/mel/fernbank/ledger/idempotency/IdempotencyGuard.java:36-57 | The guard as a method over its record table does what the table function says. |
| `Idempotency.IdempotencyGuard.LookUp` | backend/src/main/java/com/mel/fernbank/ledger/idempotency/IdempotencyGuard.java:40-49 | Answers exactly for a live key, with what guarding any operation would answer, and changes nothing. |
| `Idempotency.IdempotencyGuard.Save` | backend/src/main/java/com/mel/fernbank/ledger/idempotency/IdempotencyGuard.java:51-56 | Keeps the world and, if the operation succeeded under a free key, its record. |
| `Scheduling.TerminalStays` | backend/src/main/java/com/mel/fernbank/ledger/domain/ScheduledTransfer.java:133-147 | EXECUTED and FAILED are absorbing in every run. |
| `Scheduling.AttemptsCount` | backend/src/main/java/com/mel/fernbank/ledger/banking/ScheduledTransferRunner.java:43-76 | In every run a pending transfer's attempt count is the number of batches that were due; FAILED holds exactly at three; none is executed before its due time. |
| `Scheduling.TerminalWithinThree` | backend/src/main/java/com/mel/fernbank/ledger/banking/ScheduledTransferRunner.java:55-57 | Every due transfer is EXECUTED or FAILED after three committed batches. |
| `Scheduling.EventEach` | backend/src/main/java/com/mel/fernbank/ledger/banking/ScheduledTransferRunner.java:39-78 | An event either leaves a scheduled transfer alone or tries it exactly once from the state it had, in a batch it was due in. |
| `Scheduling.TryOutcome` | backend/src/main/java/com/mel/fernbank/ledger/banking/ScheduledTransferRunner.java:44-75 | One attempt under a free key: executed exactly when that transfer succeeds on the books as they are and fewer than 50 tries lose their version check; otherwise attempt and error are recorded, and the third one fails it. |
| `Scheduling.TryRecorded` | backend/src/main/java/com/mel/fernbank/ledger/banking/ScheduledTransferRunner.java:44-57 | An attempt that finds a live record moves nothing: executed if the record is of this very transfer, a recorded conflict otherwise. |
| `ExactlyOnce.ScheduledPostsOnce` | backend/src/main/java/com/mel/fernbank/ledger/banking/ScheduledTransferRunner.java:43-54 | In every run, a scheduled transfer whose key no client used has posted exactly one ledger transaction if EXECUTED, which takes its amount from its source and gives it to its destination and is below the step-up threshold, and none otherwise. |
| `ScheduledSteps.PostsOnceInterleaved` | backend/src/main/java/com/mel/fernbank/ledger/banking/ScheduledTransferRunner.java:39-78 | The same beside the step-interleaved bank, with the steps of scheduled, client and other calls in any order: exactly one commit, which moves the amount from source to destination, if EXECUTED; otherwise none, but for the commit of the attempt in progress that the runner has not been told of yet. |
| `ScheduledSteps.AttemptBeginAnswer` | backend/src/main/java/com/mel/fernbank/ledger/banking/ScheduledTransferRunner.java:44-52 | How an attempt begins: a live record answers at once; without one, a transfer of the amount from source to destination without step-up begins. |
| `ScheduledSteps.AttemptEndAnswer` | backend/src/main/java/com/mel/fernbank/ledger/banking/ScheduledTransferRunner.java:53-57 | How it ends: with the call's error recorded, or executed and its receipt kept for 24 hours. |
| `ScheduledSteps.ClientAnswer` | backend/src/main/java/com/mel/fernbank/ledger/banking/TransferService.java:42-75 | A client's call begins unless its key has a live record, and its result is kept for 24 hours if its key has none. |
| `ScheduledSteps.NextAnswer` | backend/src/main/java/com/mel/fernbank/ledger/banking/ScheduledTransferRunner.java:41-57 | When each event of that machine does something: a batch takes exactly the pending transfers that are due, each once, and attempts and client calls begin and end with their calls. |
| `ScheduledSteps.ScheduleAnswer` | backend/src/main/java/com/mel/fernbank/ledger/domain/ScheduledTransfer.java:69-83 | A transfer is scheduled under a new id only, pending and untried. |
| `ScheduledSteps.RunHolds` | backend/src/main/java/com/mel/fernbank/ledger/banking/TransferService.java:42-75 | The invariant of those runs: each call belongs to a client or a transfer, the batch holds pending transfers once each, and a transfer has a record exactly if EXECUTED. |
| `ScheduledSteps.TerminalStaysInterleaved` | backend/src/main/java/com/mel/fernbank/ledger/domain/ScheduledTransfer.java:133-147 | EXECUTED and FAILED are absorbing there too. |
| `ScheduledSteps.RunCounted` | backend/src/main/java/com/mel/fernbank/ledger/banking/ScheduledTransferRunner.java:55-57 | FAILED holds there exactly at three attempts. |
| `ExactlyOnce.RunConsistent` | backend/src/main/java/com/mel/fernbank/ledger/banking/TransferService.java:42-50 | In every run the journal has at most one posting per scheduled key, matching the idempotency records and the statuses. |
| `ExactlyOnce.RunMatched` | backend/src/main/java/com/mel/fernbank/ledger/banking/TransferService.java:47-75 | In every run the postings and the ledger transactions correspond one to one, amounts and accounts included. |
| `ScheduledRunner.ScheduledTransferRunner.ExecuteDueTransfers` | backend/src/main/java/com/mel/fernbank/ledger/banking/ScheduledTransferRunner.java:39-78 | The runner's loop over live entities does what the batch function says for the transfers its query returns. |
| `ScheduledRunner.ScheduledTransferRunner.FindDue` | backend/src/main/java/com/mel/fernbank/ledger/banking/ScheduledTransferRunner.java:41-42 | Exactly the pending transfers whose time has come, each once. |
| `ScheduledRunner.ScheduledTransferRunner.Attempt` | backend/src/main/java/com/mel/fernbank/ledger/banking/ScheduledTransferRunner.java:44-75 | One try: executed, or an attempt recorded and, at the third, failed. |
| `ScheduledRunner.ScheduledTransfer.MarkExecuted` | backend/src/main/java/com/mel/fernbank/ledger/domain/ScheduledTransfer.java:133-136 | Status and execution time change, nothing else. |
| `ScheduledRunner.ScheduledTransfer.RecordFailedAttempt` | backend/src/main/java/com/mel/fernbank/ledger/domain/ScheduledTransfer.java:138-141 | Count and reason change, nothing else. |
| `ScheduledRunner.ScheduledTransfer.MarkFailed` | backend/src/main/java/com/mel/fernbank/ledger/domain/ScheduledTransfer.java:143-147 | Status, time and reason change, nothing else. |
| `ScheduledRunner.TransferService.Transfer` | backend/src/main/java/com/mel/fernbank/ledger/banking/TransferService.java:35-76 | Looks the key up, runs the retry loop over the attempts, of which any number may lose their version check, and saves the result; together they do what guarding the retried call says. |
| `Scheduling.PostIs` | backend/src/main/java/com/mel/fernbank/ledger/banking/TransferService.java:47-75 | The retried operation comes to what the call does alone, unless all 50 attempts are lost; then to the lock error with nothing posted. |
| `TokenFamilies.RunChained` | backend/src/main/java/com/mel/fernbank/ledger/auth/AuthenticationService.java:129-172 | Every sequential run of sign-in, refresh, sign-out and session revocation leaves each family one replaced-by chain in issue order, with kept or rolled-back writes. |
| `TokenFamilies.AliveIsLast` | backend/src/main/java/com/mel/fernbank/ledger/auth/AuthenticationService.java:150-153 | At most one token of a family is unrevoked, and it is the last issued. |
| `TokenFamilies.HeadLeadsToAll` | backend/src/main/java/com/mel/fernbank/ledger/domain/RefreshToken.java:87-90 | The replaced-by links lead from a family's first token to every token of it: one chain, no cycle, no branch. |
| `TokenFamilies.DeadStaysDead` | backend/src/main/java/com/mel/fernbank/ledger/auth/AuthenticationService.java:129-172 | A family with no unrevoked token never gets one again. |
| `TokenFamilies.ReuseEndsFamily` | backend/src/main/java/com/mel/fernbank/ledger/auth/AuthenticationService.java:134-145 | Presenting a revoked token is refused always, and ends its family exactly when the writes are kept or the family was already ended. |
| `TokenFamilies.RefreshAnswer` | backend/src/main/java/com/mel/fernbank/ledger/auth/AuthenticationService.java:129-150 | A refresh succeeds exactly for a known, unrevoked, unexpired token of a known user; which error comes otherwise; and no failure but a kept reuse changes anything. |
| `TokenFamilies.ReuseEffect` | backend/src/main/java/com/mel/fernbank/ledger/auth/AuthenticationService.java:201-207 | Reuse with its writes kept revokes every unrevoked token of the family and nothing else. |
| `TokenFamilies.RolledBackReuse` | backend/src/main/java/com/mel/fernbank/ledger/auth/AuthenticationService.java:129-145 | A concrete run in which, with the writes rolled back, the successor of a reused token still refreshes. |
| `TokenFamilies.RotationEffect` | backend/src/main/java/com/mel/fernbank/ledger/auth/TokenIssuer.java:103-112 | A successful refresh revokes the presented token in favour of a new one of its family and user, with the given expiry, and touches no other token. |
| `TokenFamilies.LoginEffect` | backend/src/main/java/com/mel/fernbank/ledger/auth/TokenIssuer.java:49-53 | A sign-in adds one unrevoked token of the user, alone in its family. |
| `TokenFamilies.SignOutEffect` | backend/src/main/java/com/mel/fernbank/ledger/auth/AuthenticationService.java:161-172 | A sign-out ends the token presented and touches no other. |
| `TokenFamilies.EndSessionEffect` | backend/src/main/java/com/mel/fernbank/ledger/auth/SessionService.java:28-37 | Ending a session does that to a token of the given user and is refused for any other. |
| `AuthenticationService.TokenStore.Refresh` | backend/src/main/java/com/mel/fernbank/ledger/auth/AuthenticationService.java:129-159 | The method over live token objects does what the rotation function says, error cases included. |
| `AuthenticationService.TokenStore.RevokeFamily` | backend/src/main/java/com/mel/fernbank/ledger/auth/AuthenticationService.java:201-207 | The loop revokes exactly the unrevoked tokens of the family. |
| `AuthenticationService.TokenStore.Logout` | backend/src/main/java/com/mel/fernbank/ledger/auth/AuthenticationService.java:161-172 | Revokes the presented token if it is known and unrevoked. |
| `AuthenticationService.TokenStore.RevokeSession` | backend/src/main/java/com/mel/fernbank/ledger/auth/SessionService.java:28-37 | Revokes a token of that user, or reports that there is none. |
| `AuthenticationService.TokenStore.IssueRefreshToken` | backend/src/main/java/com/mel/fernbank/ledger/auth/TokenIssuer.java:103-112 | Adds one token to the given family. |
| `AuthenticationService.TokenStore.IssueTokenPair` | backend/src/main/java/com/mel/fernbank/ledger/auth/TokenIssuer.java:49-53 | Adds one token that opens a new family. |
| `TokenCache.NeverReused` | bff/src/session/access-token-cache.service.ts:35-62 | In every honest run, while nobody signs a session out at the backend, each refresh call handled for it carries its current token, so reuse detection is never triggered. |
| `TokenCache.ReusedOnlyWhenEnded` | bff/src/session/access-token-cache.service.ts:99-122 | With sign-outs and session revocations at any moment: a refresh call of an honest run is taken for a reuse exactly when its family has no unrevoked token left, so reuse detection never ends a live session. |
| `TokenCache.FirstRefresh` | bff/src/session/access-token-cache.service.ts:35-62 | Honest runs from a good world exist: from the empty world, which is good, a user signs in and a forced refresh sends a call. |
| `TokenCache.RunGood` | bff/src/session/access-token-cache.service.ts:99-122 | The invariant of honest runs: single flight, and tokens in flight and in the cache current or of an ended family, unless a newer one is on its way. |
| `TokenCache.OneRefreshAtATime` | bff/src/session/access-token-cache.service.ts:99-122 | In every run without an invalidation of a locked session, whatever cookies are presented, a session has at most one refresh in flight and is locked exactly while it has one. |
| `TokenCache.StepSingle` | bff/src/session/access-token-cache.service.ts:94-122 | Every event keeps single flight, except exactly the invalidation of a session whose refresh is in flight. |
| `TokenCache.LockedCallersJoin` | bff/src/session/access-token-cache.service.ts:103-106 | A caller that needs a token while the session is locked waits for that same refresh and sends none. |
| `TokenCache.ResolveAnswer` | bff/src/session/access-token-cache.service.ts:35-51 | A caller gets the cached access token exactly when it is valid for longer than the skew; otherwise it waits for the refresh in flight or a new one that carries the cached refresh token, or else the cookie's. |
| `TokenCache.ForceAnswer` | bff/src/session/access-token-cache.service.ts:53-62 | A forced refresh drops the cached token and never answers from the cache. |
| `TokenCache.ThenEffect` | bff/src/session/access-token-cache.service.ts:109-117 | The refreshed pair becomes the session's entry and what everyone who waits is given. |
| `TokenCache.BackendEffect` | backend/src/main/java/com/mel/fernbank/ledger/auth/AuthenticationService.java:129-159 | A refresh call that carries a usable token is rotated, any other is rejected; the cache is untouched. |
| `TokenCache.FinallyEffect` | bff/src/session/access-token-cache.service.ts:118 | The clean-up removes the session's lock and settles the promise with the stored entry or the failure. |
| `TokenCache.SignInEffect` | bff/src/session/access-token-cache.service.ts:82-88 | A sign-in opens a family and seeds the session's entry with its pair. |
| `TokenCache.CacheEffects` | bff/src/session/access-token-cache.service.ts:64-97 | Elevation replaces access token and expiry only, sweeping drops exactly the unlocked entries ten minutes past expiry, invalidating forgets the session. |
| `TokenCache.OutcomeStays` | bff/src/session/access-token-cache.service.ts:108-121 | What a refresh resolved to never changes in any run, so all who wait for it get the same entry. |
| `TokenCache.InvalidateInFlightUnsafe` | bff/src/session/access-token-cache.service.ts:94-97 | The guard on `invalidate` is exact: from every good state in which the session has a current token, invalidating it while its refresh is in flight can be followed, by honest events only, by a refresh the backend takes for a reuse although the family still has an unrevoked token. |
| `AccessTokenCacheService.Service.RefreshWithLock` | bff/src/session/access-token-cache.service.ts:99-122 | The two maps after the call are those of the state machine, and the flight to await is the one in the lock. |
| `AccessTokenCacheService.Service.ResolveAccessToken` | bff/src/session/access-token-cache.service.ts:35-51 | Refines the resolve step: a fresh entry is returned, otherwise the known token is refreshed. |
| `AccessTokenCacheService.Service.ForceRefresh` | bff/src/session/access-token-cache.service.ts:53-62 | Refines the forced refresh: the entry is dropped, its token kept. |
| `AccessTokenCacheService.Service.Sweep` | bff/src/session/access-token-cache.service.ts:143-158 | The loop drops exactly the entries long expired whose session is not locked. |
| `AccessTokenCacheService.Service.OverwriteElevated` | bff/src/session/access-token-cache.service.ts:64-80 | Replaces the access token only, or fails when there is no entry. |
| `AccessTokenCacheService.Service.Invalidate` | bff/src/session/access-token-cache.service.ts:94-97 | Drops the entry and the lock. |
| `MoneyCodec.RoundTrip` | backend/src/main/java/com/mel/fernbank/ledger/api/dto/MoneyCodec.java:12-25 | For every 64-bit amount and every number of fraction digits an `int` can hold, negative ones included, parsing the printed decimal gives the amount back. |
| `MoneyCodec.MoneyRoundTrip` | backend/src/main/java/com/mel/fernbank/ledger/api/dto/MoneyCodec.java:12-25 | The same through the two public methods, currency included. |
| `MoneyCodec.AcceptsExactly` | backend/src/main/java/com/mel/fernbank/ledger/api/dto/MoneyCodec.java:12-18 | A string is accepted with result u exactly when it is a decimal numeral, with exponent and scale an `int` can hold, whose digits before and after the point, with sign and power of ten, times 10^d are the 64-bit integer u. |
| `MoneyCodec.RefusalExactly` | backend/src/main/java/com/mel/fernbank/ledger/api/dto/MoneyCodec.java:15-16 | A numeral is refused as inexact exactly when it is not whole in minor units, and as out of range exactly when it does not fit 64 bits. |
| `MoneyCodec.MeaningIsValue` | backend/src/main/java/com/mel/fernbank/ledger/api/dto/MoneyCodec.java:27-33 | The decimal that is read is worth what the numeral stands for: sign, digits, point and exponent. |
| `MoneyCodec.PrintedPlainly` | backend/src/main/java/com/mel/fernbank/ledger/api/dto/MoneyCodec.java:24 | Amounts are printed with a minus sign or none, no exponent, exactly d digits behind the point, and no zero in front but a single one. |
| `MoneyCodec.CurrencyAnswer` | backend/src/main/java/com/mel/fernbank/ledger/api/dto/MoneyCodec.java:35-37 | An unknown currency is refused first; the currency itself is never changed. |
| `MoneyCodec.ParseInvertsText` | backend/src/main/java/com/mel/fernbank/ledger/api/dto/MoneyCodec.java:27-33 | A string is read as a literal exactly when it is that literal's text: sign, digits, point and exponent, in one way only. |
| `MoneyCodec.PrintThenParse` | backend/src/main/java/com/mel/fernbank/ledger/api/dto/MoneyCodec.java:20-25 | What is printed is read as exactly the decimal that was printed, scale and leading zeros included. |
| `MoneyCodec.RescaleMeans` | backend/src/main/java/com/mel/fernbank/ledger/api/dto/MoneyCodec.java:15-16 | Scaling without rounding succeeds exactly on values that are whole in minor units. |
| `AccountNumber.SingleErrorCaught` | backend/src/main/java/com/mel/fernbank/ledger/banking/AccountNumberGenerator.java:35-44 | Changing any one of the 18 digits of a valid number makes it invalid. |
| `AccountNumber.SwapCaught` | backend/src/main/java/com/mel/fernbank/ledger/banking/AccountNumberGenerator.java:35-44 | Swapping any two unequal digits of a valid number, however far apart, makes it invalid. |
| `AccountNumber.CheckDigitsUnique` | backend/src/main/java/com/mel/fernbank/ledger/banking/AccountNumberGenerator.java:46-50 | Of the check digits 02 to 98, exactly the computed pair makes a number valid, for every 16-digit BBAN. |
| `AccountNumber.CheckDigitsRange` | backend/src/main/java/com/mel/fernbank/ledger/banking/AccountNumberGenerator.java:48-49 | The computed check digits are two digits between 02 and 98. |
| `AccountNumber.CandidatePasses` | backend/src/main/java/com/mel/fernbank/ledger/banking/AccountNumberGenerator.java:25-26 | Every candidate number is FB, two check digits and the given BBAN, and passes the check. |
| `AccountNumber.ValidMeans` | backend/src/main/java/com/mel/fernbank/ledger/banking/AccountNumberGenerator.java:39-43 | A well-formed number is valid exactly when BBAN, country code as digits and check digits, read as one numeral, leave 1 modulo 97. |
| `AccountNumber.LetterValues` | backend/src/main/java/com/mel/fernbank/ledger/banking/AccountNumberGenerator.java:63-64 | Letters count from A as 10 to Z as 35, in either case, as two digits each. |
| `AccountNumber.Generate` | backend/src/main/java/com/mel/fernbank/ledger/banking/AccountNumberGenerator.java:23-33 | Returns the first of five candidates that is not taken, well-formed and valid; fails exactly when all five are taken. |
| `AccountNumber.ToNumericString` | backend/src/main/java/com/mel/fernbank/ledger/banking/AccountNumberGenerator.java:60-70 | The loop expands letters to their two-digit values. |
| `Iban.ToNumericString` | frontend/src/lib/validation/iban.ts:5-15 | The client's loop, through upper case and character codes, gives the same string as the server's. |
| `Iban.ClientMatchesServer` | frontend/src/lib/validation/iban.ts:17-33 | For every string, the client accepts exactly what the server accepts and whose characters from the third on are digits. |
| `Iban.ValidatorsAgree` | frontend/src/lib/validation/iban.ts:17-33 | On alphanumeric country codes followed by digits the two give the same answer, and neither raises an error. |
| `StatementExport.CsvReadsBack` | backend/src/main/java/com/mel/fernbank/ledger/api/export/StatementExportService.java:30-44 | A reader following section 2 of RFC 4180 recovers the header and all rows exactly when every description with a carriage return also has a comma, quote or line feed; otherwise it can read nothing. |
| `StatementExport.CsvRecords` | backend/src/main/java/com/mel/fernbank/ledger/api/export/StatementExportService.java:32-41 | What the reader gets: the four titles, then for each row its time, its description or nothing, its amount and its currency. |
| `StatementExport.NoReturnsReadBack` | backend/src/main/java/com/mel/fernbank/ledger/api/export/StatementExportService.java:144-152 | In particular all rows are recovered when no description has a carriage return, whatever else it holds. |
| `StatementExport.BareReturnUnreadable` | backend/src/main/java/com/mel/fernbank/ledger/api/export/StatementExportService.java:148-151 | A concrete description for which the file cannot be read. |
| `StatementExport.FieldReadsBack` | backend/src/main/java/com/mel/fernbank/ledger/api/export/StatementExportService.java:144-152 | An escaped description is read back as it was, a missing one as empty. |
| `StatementExport.AmountIsPlain` | backend/src/main/java/com/mel/fernbank/ledger/api/dto/MoneyCodec.java:24 | Printed amounts need no quotes in any currency. |
| `StatementExport.ToCsv` | backend/src/main/java/com/mel/fernbank/ledger/api/export/StatementExportService.java:30-44 | The builder loop writes the header and one line per row. |
| `StatementExport.Paginate` | backend/src/main/java/com/mel/fernbank/ledger/api/export/StatementExportService.java:136-142 | The pages joined are the rows; every page but the last is full and none is empty. |
| `Statement.PagesAreFullStatement` | backend/src/main/java/com/mel/fernbank/ledger/banking/GetStatementService.java:33-62 | Following `nextCursor` to the end gives, in order, the full statement of the moment the first page was asked for, each row with the id, transaction, time, amount and description of its entry, although newer entries were appended and the upper bound moved between pages. |
| `Statement.EachEntryOnce` | backend/src/main/java/com/mel/fernbank/ledger/banking/GetStatementService.java:33-49 | The pages show each entry of the account between the bounds at the first page once, with its own fields and description, newest first, and nothing else. |
| `Statement.PageRows` | backend/src/main/java/com/mel/fernbank/ledger/banking/GetStatementService.java:58-74 | A page holds the rows of the first entries of its listing: their ids, transactions, times, amounts and descriptions. |
| `Statement.ExportRows` | backend/src/main/java/com/mel/fernbank/ledger/banking/GetStatementService.java:48-56 | An export holds the rows of every entry in range once, newest first, and at most 10,000. |
| `Statement.PagingEnds` | backend/src/main/java/com/mel/fernbank/ledger/banking/GetStatementService.java:41-43 | No more pages are asked for than the snapshot fills, and the last of them is exactly the one without a cursor. |
| `Statement.PageIsStretch` | backend/src/main/java/com/mel/fernbank/ledger/repository/LedgerEntryRepository.java:19-22 | Page k is the k-th stretch of the snapshot, with its cursor and `hasNext`. |
| `Statement.RestOfListing` | backend/src/main/java/com/mel/fernbank/ledger/repository/LedgerEntryRepository.java:19-20 | A keyset query on the grown log gives exactly what followed the cursor in the snapshot. |
| `Statement.ListingOrdered` | backend/src/main/java/com/mel/fernbank/ledger/repository/LedgerEntryRepository.java:19-22 | The query gives the matching entries, newest first with the id deciding ties. |
| `Statement.CursorRoundTrip` | backend/src/main/java/com/mel/fernbank/ledger/banking/GetStatementService.java:77-91 | A cursor is read as the position it was made from. |
| `Statement.CursorAnswer` | backend/src/main/java/com/mel/fernbank/ledger/banking/GetStatementService.java:77-86 | Missing and blank cursors mean the first page; any other is read exactly if it is a time and an id with a bar between them, and refused otherwise. |
| `Statement.PageRefused` | backend/src/main/java/com/mel/fernbank/ledger/banking/GetStatementService.java:58-65 | A page is refused for its contents exactly when one of its entries belongs to a transaction without a description. |
| `Statement.FullStatementRefused` | backend/src/main/java/com/mel/fernbank/ledger/banking/GetStatementService.java:49-56 | An export is refused exactly when it has more than 10,000 rows or such an entry. |
| `Statement.UndescribedDepositRefused` | backend/src/main/java/com/mel/fernbank/ledger/banking/GetStatementService.java:59-65 | One deposit without a description makes its account's statement unavailable. |
| `NotificationFeed.FeedIsSubsequence` | bff/src/notifications/notification-poller.service.ts:83-111 | From the baseline on, in every run, what is sent for an account is an oldest-first selection, without repetition, of what was appended after the baseline. |
| `NotificationFeed.AllArrivalsSent` | bff/src/notifications/notification-poller.service.ts:98-107 | After a run that ends with a visit it is all of it, in order, exactly when no visit found more than five unseen entries; the log is in listing order. |
| `FeedPages.PageIsRecent` | backend/src/main/java/com/mel/fernbank/ledger/repository/LedgerEntryRepository.java:19-20 | If an account's entries become visible in listing order, the page of the statement query is the newest end of the log the feed reads. |
| `FeedPages.FeedLogRows` | bff/src/notifications/notification-poller.service.ts:91-97 | The log the feed reads has the account's own entries with their fields and descriptions. |
| `FeedPages.SentAreNewer` | bff/src/notifications/notification-poller.service.ts:98-107 | Whatever the order of arrival, a poll sends exactly the entries of the page that are listed before the last seen one, so a late entry with an older time is not sent while the last seen one is on the page. |
| `NotificationFeed.VisitSkipsNothing` | bff/src/notifications/notification-poller.service.ts:91-107 | One visit sends all that arrived since the last exactly when at most five entries did. |
| `NotificationFeed.VisitSends` | bff/src/notifications/notification-poller.service.ts:98-107 | A visit sends the entries after the last seen one, oldest first, but no more than the newest five. |
| `NotificationFeed.FirstVisitIsBaseline` | bff/src/notifications/notification-poller.service.ts:100-107 | The first visit that finds entries sends nothing and becomes the baseline. |
| `NotificationFeed.SeedIsBaseline` | bff/src/notifications/notification-poller.service.ts:63-81 | Seeding with the newest entry makes that entry the baseline. |
| `NotificationFeed.SilentBeforeBaseline` | bff/src/notifications/notification-poller.service.ts:99-101 | Before its baseline nothing is ever sent for an account. |
| `NotificationFeed.PollIsRun` | bff/src/notifications/notification-poller.service.ts:83-111 | A poll that fails part-way is a run of visits to the accounts it reached. |
| `NotificationPoller.PollerState.RunPoll` | bff/src/notifications/notification-poller.service.ts:83-111 | The loop over accounts, stopped by a failing request, does what the poll function says. |
| `NotificationPoller.PollerState.VisitAccount` | bff/src/notifications/notification-poller.service.ts:98-107 | The emission loop and the remembered id are those of the visit function. |
| `NotificationPoller.PollerState.SeedLastSeen` | bff/src/notifications/notification-poller.service.ts:63-81 | Exactly the accounts that answer with an entry get it as last seen. |
| `NotificationPoller.TakeUntilId` | bff/src/notifications/notification-poller.service.ts:138-148 | The entries before the one with the given id, all of them if it is absent. |

## Left out

- Controllers, mappers, HTTP, cookies, logging, metrics, audit records, PDF drawing and all user interface code: no hard property.
- Cryptography and randomness: hashes are injective, ids and tokens fresh, and the random BBANs a parameter of `Generate`.
- Database internals: a commit is atomic with a version check and an exception is a full rollback; deadlocks and lock waits are not modelled. Transaction ids count commits.
- Executors.DepositWithdrawExecutor.GetOrCreateCashClearing: the insert is part of the commit, so the second lookup after a violated constraint is not modelled. A second concurrent creation fails its call with a duplicate, which is not retried.
- Account status is not part of the serial-equivalence claim: the replay is given the status that was seen.
- The debit in `transfer` and `withdraw`, written inline in the source, and `adjustBalance` are the two methods `TakeFrom` and `GiveTo`.
- Backoff times between attempts, and the interruption of a sleeping thread.
- The sum of entries that overflows 64 bits in the audit query.
- Overlapping calls with one idempotency key, and a crash between an effect and its record: no claim. What happens after a record has expired is stated by `LaterCall` and `ExpiredCall`.
- Storing a response as text and reading it back is taken to be the identity, also where a key is used for operations with different result types; comparing payload hashes is comparing payloads.
- Client calls and attempts are atomic events in `Scheduling` and `ExactlyOnce`; in `ScheduledSteps` they are taken apart. The bound of three batches is stated for the atomic machine only.
- ScheduledRunner.TransferService.Transfer: the attempts that the retry loop runs are the serial function, not the executor objects.
- Scheduled batches that overlap or whose own transaction fails to commit, and the checks made when a transfer is scheduled.
- Concurrent refreshes of one token at the backend: the family results are about sequential runs.
- That a presented cookie is current, or of an ended family, when the cache has no entry is a hypothesis of `NeverReused` and `ReusedOnlyWhenEnded` (`Honest`), as is that a failed refresh did not rotate.
- Step-up tokens, multi-factor challenges, password change, and the listing of sessions.
- Letters and digits outside ASCII in amounts and account numbers, a null account number (answered false), and the drawing of random digits.
- Statement.CursorRoundTrip: the base64 layer of a cursor is left out, and times and UUIDs are natural numbers written in decimal.
- Page sizes below one. Entries that become visible with an older timestamp than ones already shown are outside the growth hypothesis of `Paging` and the order of arrival of the feed.
- Encoding a CSV file as bytes; that timestamps and currency codes hold no separators is a hypothesis (`PlainRow`).
- Subscribing to and leaving the notification stream, overlapping polls, and polls that run before seeding has ended. An account list that cannot be fetched is an empty one.
- Daily limits, lockouts, payees and the dashboard: they would only add easy members.
