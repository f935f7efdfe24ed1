# A verified model of the DecentGPU back end

DecentGPU lets users run Python jobs on other people's machines. This project models the connected
parts of its Rust back end and proves what they promise, for every input, every run and every
interleaving:

* **Ledger** (`Pricing`, `Ledger`, `Sums`, `LedgerTransactions`, `LedgerAccounting`,
  `LedgerDiscipline`, `LedgerLateAccounts`). Compute Unit balances, reservations and the transaction log.
  `Ledger.ComputeUnitLedger` is the imperative ledger, proved against the effect of each operation;
  `LedgerTransactions` runs any number of transactions statement by statement, with row locks held to
  the end, CHECK-constraint failures, rollbacks, lost connections and lost replies to COMMIT;
  `LedgerAccounting` says what the columns mean over whole runs and how far they are from the
  documented "moves balance to reserved"; `LedgerDiscipline` says what concurrent callers must keep to
  for that; `LedgerLateAccounts` says what the lock order is worth when accounts are opened meanwhile.
* **Chunked transfer** (`Framing`, `Transfer`, `TransferProtocol`, `TransferBytes`). Length-prefixed
  frames, the two loops as methods, the protocol they form over two FIFO channels with timeouts, broken
  streams, disk errors and altered data, and the same over byte streams that deliver frames in pieces.
* **Matcher** (`Matcher`). Filter, score, stable sort and truncate, against a declarative top three.
* **Jobs table and logs** (`JobStore`, `LogReplay`, `Worker`). The repository over live tables, storing
  and replaying a finished job's output, and the worker's queue and executor loop.
* **Job handlers** (`JobApi`). Creating a job from a form and cancelling one, with others at work on
  the table between the read and the update.
* **Job protocol** (`JobProtocol`, `JobSafety`, `JobTheorems`, `JobLoss`, `JobProgress`,
  `JobLife`, `JobCounterexamples`, `Scheduler`). The scheduler with its two in-memory maps, the API, the P2P task that applies results, and the workers.
  Every SQL statement, message and local update between two awaits is one step, and all actors
  interleave freely. Each SQL statement may run, be refused, or run with its answer lost. `Scheduler`
  is the scheduler as a program with loops and mutable maps; at every await the others may take any
  steps, and its `Valid` says that everything so far is a run of the protocol, so the theorems about
  runs hold of the program. Each handler also says what it gets done, in every case and in calm, that
  is while every statement runs and nobody else acts.

A run is a sequence of actions; an action that is not enabled when its turn comes does nothing, so a
statement about every sequence is a statement about every schedule. Times, hash-map orders, execution
results and message fates are inputs that a theorem quantifies over.

Where the code and its own comments disagree, the model follows the code:

* `reserve` is documented as moving balance to reserved (`crates/decentgpu-master/src/credits/engine.rs:105`),
  but it raises `cu_reserved` only, while `settle` and `refund_full` add to `cu_balance`.
  `LedgerAccounting.AvailableAsDocumented` gives the exact condition under which the two agree and
  `LedgerAccounting.DocumentedOverdraft` a run in which they do not.
* `handle_worker_offline` lists the rows of the nil UUID
  (`crates/decentgpu-master/src/scheduler/mod.rs:270`), so it never touches a real user's job. The
  theorems cover both; `JobCounterexamples.NilHirerMisattributes` shows what nil-hirer jobs lose.
* `settle` is documented to lock in UUID order (`crates/decentgpu-master/src/credits/engine.rs:181`). It
  does for accounts that exist; `LedgerLateAccounts.LateAccountsDeadlock` says when opening an account
  meanwhile can still lead to a deadlock.
* `cancel_job` is documented as cancelling a pending job; it also cancels an assigned one.
* The log query asks for times strictly after 0, so a report stored at time 0 loses its first line
  (`LogReplay.ReplayAtTimeZero`).
* "Returns total bytes transferred" (`crates/decentgpu-common/src/transfer.rs:58`) means acknowledged, not
  kept: the receiver answers before it keeps a chunk, so a sender can return Ok although the receiver
  failed and wrote nothing. `TransferProtocol.OkIsKeptOnlyOfNothing` says exactly when Ok means kept, and
  `TransferProtocol.OkMeansWritten` that a failing receiver is the only obstacle.
* An empty file sends no frame at all, so its receiver waits until it times out
  (`TransferProtocol.FaultFreeTransfer`).

## Model

| member | source | states |
|---|---|---|
| Pricing.PriceRoundsUp | crates/decentgpu-master/src/credits/engine.rs:41-46 | the price is the least integer not below secs × multiplier / 360 |
| Pricing.PriceByBackend | crates/decentgpu-common/src/types.rs:70-78 | a price in hours is 10 units an hour, times 1, 5, 3 or 4 for cpu, cuda, metal and rocm, rounded up |
| Pricing.PayoutRoundsDown | crates/decentgpu-master/src/credits/engine.rs:176 | payout is 85% of the charge short by less than one unit, so fee and payout are both non-negative |
| Pricing.ChargeWithinReservation | crates/decentgpu-master/src/credits/engine.rs:173-175 | a settled charge lies between 0 and the reservation, so the refund is never negative |
| Pricing.ChargeIsPriceWithinReservation | crates/decentgpu-master/src/credits/engine.rs:173-175 | the charge is secs × multiplier / 360 rounded up, or the whole reservation if that is less |
| Pricing.ChargeIsUnique | crates/decentgpu-master/src/credits/engine.rs:173-175 | only one amount is that |
| Pricing.PayoutTruncates | crates/decentgpu-master/src/credits/engine.rs:176 | the payout is 85 hundredths of any charge, the fraction dropped toward zero |
| Ledger.ComputeUnitLedger.Initialize | crates/decentgpu-master/src/credits/engine.rs:51-60 | a new user gets a zero row, an existing one keeps theirs |
| Ledger.ComputeUnitLedger.Allocate | crates/decentgpu-master/src/credits/engine.rs:65-103 | adds the amount to the balance, logs it and answers the new balance; NotFound without an account, Database outside BIGINT, and then nothing changes |
| Ledger.ComputeUnitLedger.Reserve | crates/decentgpu-master/src/credits/engine.rs:108-158 | raises the reserved column only, and logs a debit; refuses when balance minus reserved is less, naming both numbers |
| Ledger.ComputeUnitLedger.Settle | crates/decentgpu-master/src/credits/engine.rs:164-257 | with the one right charge and payout: the hirer gets back what was not charged, the reservation goes, the worker is paid, and both are logged; or, when a column would leave its range, nothing changes |
| Ledger.ComputeUnitLedger.RefundFull | crates/decentgpu-master/src/credits/engine.rs:260-294 | returns and releases the whole reservation and logs it, or changes nothing |
| Ledger.EffectInNumbers | crates/decentgpu-master/src/credits/engine.rs:65-294 | what each operation does to rows, log and answer, in plain numbers; the concurrent results are about this effect |
| Ledger.SettlementBetweenTwo | crates/decentgpu-master/src/credits/engine.rs:206-228 | between two accounts: the hirer's balance rises by reservation minus charge, the worker's by 85% of the charge, the reserved column falls by the reservation, nobody else's account changes |
| Ledger.EffectKeepsAccounts | crates/decentgpu-master/src/credits/engine.rs:65-294 | no operation adds or removes an account |
| LedgerTransactions.ProgramMeansEffect | crates/decentgpu-master/src/credits/engine.rs:65-294 | running an operation's SQL statements one by one, alone, has exactly the operation's effect and answer |
| LedgerTransactions.Serializable | crates/decentgpu-master/src/credits/engine.rs:65-294 | for every interleaving of any number of transactions, the committed tables are those of running the finished ones one at a time in the order they ended; each answered caller got the answer of that serial run, and a caller whose COMMIT reply was lost got a database error for an operation that succeeded |
| LedgerTransactions.LostConnectionLeavesNothing | crates/decentgpu-master/src/credits/engine.rs:178-256 | a transaction whose connection dies before the commit leaves the tables and the other transactions as they were and frees its locks, whenever that happens |
| LedgerTransactions.LostAnswerChangesNothing | crates/decentgpu-master/src/credits/engine.rs:254-256 | a commit whose answer is lost does all that an answered one does, but the caller is told of a database error |
| LedgerTransactions.NoOverspending | crates/decentgpu-master/src/credits/engine.rs:108-158 | no interleaving takes an account out of 0 ≤ reserved ≤ balance |
| LedgerTransactions.LocksAscend | crates/decentgpu-master/src/credits/engine.rs:181-204 | in every operation a row locked later has a higher UUID than all rows locked before |
| LedgerTransactions.WaitersHoldLess | crates/decentgpu-master/src/credits/engine.rs:181-204 | a transaction that waits for a row holds only lower rows |
| LedgerTransactions.LockedRowsDecide | crates/decentgpu-master/src/credits/engine.rs:65-294 | what a transaction has done so far depends on no row but those it has locked |
| LedgerTransactions.NoWaitCycle | crates/decentgpu-master/src/credits/engine.rs:163-204 | in no reachable state does a chain of waiting transactions, of any length, return to its start |
| LedgerTransactions.SomeoneSteps | crates/decentgpu-master/src/credits/engine.rs:163-204 | while transactions are running, one of them can step, and that step leaves less work |
| LedgerTransactions.EveryoneFinishes | crates/decentgpu-master/src/credits/engine.rs:163-204 | from every reachable state all running transactions can end, with no new transaction and no lost connection or reply |
| LedgerLateAccounts.CycleNeedsMissedRow | crates/decentgpu-master/src/credits/engine.rs:181-204 | with accounts opened at any moment, every cycle of waiting transactions has a member that waits for a row it had looked for before the row existed |
| LedgerLateAccounts.MissedRowDeadlocks | crates/decentgpu-master/src/credits/engine.rs:51-60 | for any two settlements between the same two users there is a run, in which the lower account is opened after one of them looked for it, that ends with each waiting for the other |
| LedgerLateAccounts.LateAccountsDeadlock | crates/decentgpu-master/src/credits/engine.rs:163-204 | accounts opened meanwhile can lead to a cycle among given operations if and only if one of them is a settlement between two different users |
| LedgerAccounting.Accounting | crates/decentgpu-master/src/credits/engine.rs:65-294 | in every run of proper uses `cu_reserved` is the sum of open reservations, `cu_balance` the sum of log rows other than debits, 0 ≤ reserved ≤ balance; the documented balance is the full log sum, available exceeds it by exactly the closed reservations, and documented balances + reserved + fees + unpaid payouts = allocated |
| LedgerAccounting.AvailableAsDocumented | crates/decentgpu-master/src/credits/engine.rs:105-158 | coded available balance equals the documented balance if and only if the user has closed no reservation of positive amount |
| LedgerAccounting.DocumentedOverdraft | crates/decentgpu-master/src/credits/engine.rs:105-158 | a run after which the coded row reads 10 with 10 reserved while the documented ledger would hold -10 |
| LedgerAccounting.RefundFailsOnlyByOverflow | crates/decentgpu-master/src/credits/engine.rs:260-294 | refunding an open reservation fails if and only if the balance would leave BIGINT |
| LedgerAccounting.SettleFailsOnlyByOverflow | crates/decentgpu-master/src/credits/engine.rs:164-257 | settling an open reservation fails if and only if one of the two new balances would leave BIGINT |
| LedgerDiscipline.ConcurrentAccounting | crates/decentgpu-master/src/credits/engine.rs:65-294 | if every settlement and refund begins only after its reservation was answered with success, with the same hirer, job and amount, and after all other attempts to close it had no effect, then in every interleaving the finished operations are a run of proper uses and the tables are what that run leaves, so all accounting equations hold of them |
| LedgerDiscipline.BeginIsBacked | crates/decentgpu-master/src/credits/engine.rs:164-257 | a closing transaction that may begin finds its reservation open, whatever else has ended or is running |
| Framing.FrameRoundTrip | crates/decentgpu-common/src/transfer.rs:22-51 | a frame followed by anything reads back as its payload if and only if the payload is at most 512 MiB |
| Framing.BigEndianInNumbers | crates/decentgpu-common/src/transfer.rs:26-28 | the four length bytes, most significant first, add up to the length |
| Framing.FramesRoundTrip | crates/decentgpu-common/src/transfer.rs:22-51 | decoding a concatenation of frames returns exactly their payloads with nothing left over |
| Framing.LaterBytesKeepMessages | crates/decentgpu-common/src/transfer.rs:38-51 | bytes that arrive later never change a message already decoded |
| Framing.PartialStream | crates/decentgpu-common/src/transfer.rs:38-51 | whatever part of a stream has arrived, what is decoded is a prefix of what was sent |
| Framing.Stream.WriteLengthPrefixed | crates/decentgpu-common/src/transfer.rs:22-33 | appends four bytes that say the length, most significant first, and then the payload |
| Framing.Stream.ReadLengthPrefixed | crates/decentgpu-common/src/transfer.rs:38-51 | succeeds if and only if four bytes and the announced number, at most 512 MiB, are there, and takes exactly those |
| Transfer.CutIsChunk | crates/decentgpu-common/src/transfer.rs:72-76 | cutting 64 KiB off what remains gives the next chunk of the file, with its offset and `is_last` |
| Transfer.ChunksInNumbers | crates/decentgpu-common/src/transfer.rs:72-91 | chunk i is bytes 65536·i to 65536·(i+1) or the end of the file, says so in offset and `is_last`, carries its hash, and the chunks reach the end |
| Transfer.SendFileChunked | crates/decentgpu-common/src/transfer.rs:59-118 | succeeds if and only if every chunk is acknowledged, having sent exactly the file's chunks; otherwise it stopped right after the first chunk that was not |
| Transfer.ReceiveFileChunked | crates/decentgpu-common/src/transfer.rs:124-187 | succeeds if and only if all frames up to the first last chunk are intact, all answers could be written and the disk took the file, which is then exactly their bytes; a failing disk leaves nothing or a prefix of them; every acknowledgement says whether its chunk was intact |
| Transfer.ChunksReassemble | crates/decentgpu-common/src/transfer.rs:72-187 | the chunks of a file put together are the file |
| Transfer.LoopsCompose | crates/decentgpu-common/src/transfer.rs:72-187 | what a complete sender sends makes the receiver finish, and only for a non-empty file |
| TransferProtocol.TransferSafety | crates/decentgpu-common/src/transfer.rs:72-114 | in every interleaving with failures at any moment, if the data the channel puts in collides with no chunk: one chunk or ACK outstanding at most; the acknowledged bytes are a prefix of the file and the receiver has kept all but at most the last chunk of them; a sender's Ok means all bytes were acknowledged; a receiver's Ok means the original was written, and its failure leaves at most a prefix |
| TransferProtocol.SenderCanAlwaysFail | crates/decentgpu-common/src/transfer.rs:91-114 | in every run a sender that has not returned can fail, and nothing else changes |
| TransferProtocol.ReceiverCanAlwaysFail | crates/decentgpu-common/src/transfer.rs:124-177 | in every run a receiver that is not writing the file can fail, and loses only the chunk it has just acknowledged |
| TransferProtocol.WriteCanAlwaysFail | crates/decentgpu-common/src/transfer.rs:185-187 | a failing write leaves the file untouched or with any prefix |
| TransferProtocol.EndsAreForGood | crates/decentgpu-common/src/transfer.rs:59-187 | a side that has returned does nothing more, whatever happens next |
| TransferProtocol.AcknowledgedButLost | crates/decentgpu-common/src/transfer.rs:157-177 | for every file that is not empty there is a run without any alteration in which the sender returns Ok while the receiver has failed after its last ACK, without the last chunk and without writing anything |
| TransferProtocol.OkIsKeptOnlyOfNothing | crates/decentgpu-common/src/transfer.rs:91-118 | in all runs the sender's Ok means that the receiver has kept the whole file if and only if the file is empty; in one run it does if and only if nothing acknowledged is unkept |
| TransferProtocol.OkMeansWritten | crates/decentgpu-common/src/transfer.rs:91-187 | if the receiver itself never fails, then after the sender's Ok it ends having written exactly the file |
| TransferProtocol.TamperingIsAllOrNothing | crates/decentgpu-common/src/transfer.rs:152-175 | if altered data that collides with no chunk is the only trouble, a transfer at rest has delivered the original and told both sides, or written nothing and failed on both |
| TransferProtocol.AlteredTransferEnds | crates/decentgpu-common/src/transfer.rs:67-187 | and every such run goes on, by steps of the two processes alone, to one of those two ends |
| TransferProtocol.IntegrityNeedsNoCollision | crates/decentgpu-common/src/transfer.rs:152-175 | against arbitrary alterations the receiver acknowledges only the file's own bytes in all runs if and only if no data collides with a chunk of the file |
| TransferProtocol.EveryStepCounts | crates/decentgpu-common/src/transfer.rs:67-187 | on a fault-free stream each effective step uses up exactly one of 5·chunks + 2 |
| TransferProtocol.FaultFreeTransfer | crates/decentgpu-common/src/transfer.rs:67-187 | a fault-free transfer at rest has sent each chunk once and in order and returned n on both sides; for an empty file the receiver is left waiting |
| TransferProtocol.FaultFreeTransferEnds | crates/decentgpu-common/src/transfer.rs:67-187 | from every fault-free state such a state of rest is reached |
| TransferProtocol.EveryRunIsShort | crates/decentgpu-common/src/transfer.rs:67-187 | no run, however it fails and whatever is altered, takes more than 5·chunks + 2 steps besides the alterations |
| TransferProtocol.TransferEnds | crates/decentgpu-common/src/transfer.rs:67-187 | every run, whatever failed and was altered in it, comes to rest when the processes go on |
| TransferBytes.BytesRefineMessages | crates/decentgpu-common/src/transfer.rs:22-51 | every run over framed byte streams, delivered in pieces of any size, is a run over messages by the same steps |
| TransferBytes.ByteTransferSafety | crates/decentgpu-common/src/transfer.rs:22-187 | so the safety of the transfer holds over byte streams |
| Matcher.BestVramMeaning | crates/decentgpu-master/src/scheduler/matcher.rs:104-112 | the VRAM scored against is the least that still fits, and 0 when none fits |
| Matcher.ScoreInUnitInterval | crates/decentgpu-master/src/scheduler/matcher.rs:62-67 | scores lie in [0, 1] |
| Matcher.FullScore | crates/decentgpu-master/src/scheduler/matcher.rs:62-67 | a worker scores 1 if and only if it is full in uptime, jobs and resource fit, so the three weights sum to one and each matters |
| Matcher.UptimeIsWorth | crates/decentgpu-master/src/scheduler/matcher.rs:62 | within 0 to 100 a rise of uptime by d raises the score by 0.004·d |
| Matcher.UptimeIsBounded | crates/decentgpu-master/src/scheduler/matcher.rs:62 | an uptime outside 0 to 100 counts as the nearer end |
| Matcher.JobsAreWorth | crates/decentgpu-master/src/scheduler/matcher.rs:63 | a completed job is worth 0.3 over the largest count |
| Matcher.FitIsWorth | crates/decentgpu-master/src/scheduler/matcher.rs:99-121 | with uptime and jobs at nothing a worker scores 0.3 for a CPU job, and for a GPU job 0.3 less 0.6 for each unit its GPU's use is away from 0.7, but not less than 0 |
| Matcher.CloserFitScoresHigher | crates/decentgpu-master/src/scheduler/matcher.rs:94-121 | a GPU whose use would come closer to 70% never scores lower, and the resource score is 1 if and only if the use is exactly 70% |
| Matcher.SortSorts | crates/decentgpu-master/src/scheduler/matcher.rs:72 | the sort permutes its input into descending scores with ties in candidate order |
| Matcher.SelectWorkers | crates/decentgpu-master/src/scheduler/matcher.rs:32-75 | returns at most three idle workers that suit the job: for a GPU job with a GPU of the right backend and a GPU with enough memory; if one that suits is left out, three were returned; the selection is the declarative top three |
| Matcher.EligibleSuits | crates/decentgpu-master/src/scheduler/matcher.rs:46-60 | the hard filters let exactly those workers through |
| Matcher.SelectionIsTopThree | crates/decentgpu-master/src/scheduler/matcher.rs:32-75 | the selection is eligible, at most three, ranked with ties in candidate order, full unless nobody eligible is left out, and outranks everybody left out |
| Matcher.TopThreeIsUnique | crates/decentgpu-master/src/scheduler/matcher.rs:32-75 | only one selection meets that description |
| Matcher.BestComesFirst | crates/decentgpu-master/src/scheduler/matcher.rs:32-75 | the first selected worker is eligible and of maximal score; nothing is selected if and only if nobody is eligible |
| Matcher.SelectionIsMonotone | crates/decentgpu-master/src/scheduler/matcher.rs:36-74 | a selected worker whose uptime or completed jobs rise stays selected, although the normalising maximum may change |
| JobStore.JobRepository.Create | crates/decentgpu-master/src/db/jobs.rs:42-69 | inserts one pending row, every column as given or empty, and touches no other; a taken id is refused |
| JobStore.JobRepository.TransitionStatus | crates/decentgpu-master/src/db/jobs.rs:74-115 | compare-and-set on the status: column by column, given values replace old ones, `assigned_at`, `started_at` and `finished_at` are set by status; otherwise Conflict and no change |
| JobStore.JobRepository.ListByHirer | crates/decentgpu-master/src/db/jobs.rs:134-157 | of all the hirer's rows, each once and newest first, exactly those after the offset, up to the limit |
| JobStore.JobRepository.AppendLog | crates/decentgpu-master/src/db/jobs.rs:160-179 | adds one log row |
| JobStore.JobRepository.GetLogsSince | crates/decentgpu-master/src/db/jobs.rs:182-206 | of all the job's rows strictly after the given time, each as often as stored and by time, exactly the first ones up to the limit |
| JobStore.PageInNumbers | crates/decentgpu-master/src/db/jobs.rs:149-150 | a page has min(limit, rows after the offset) rows, and row i of it is row offset + i |
| LogReplay.StoreOutput | crates/decentgpu-master/src/p2p/handler.rs:455-463 | stores one row per non-empty line whose append succeeds, in order, timed by the line's index in the output; a failed append does not stop the others |
| LogReplay.Broadcast | crates/decentgpu-master/src/p2p/handler.rs:479-500 | announces the same lines, the i-th at now + i with a line end added, and then the new status |
| LogReplay.HandleJobCompleted | crates/decentgpu-master/src/p2p/handler.rs:427-503 | stores all the output, as INFO or ERROR, before it changes the status; an assigned row becomes completed, or failed with the message, column by column; then broadcasts; whatever became of the appends and of the status change |
| LogReplay.StoredRowsMeaning | crates/decentgpu-master/src/p2p/handler.rs:455-463 | stored rows carry the non-empty lines in order at strictly rising times |
| LogReplay.RowsInNumbers | crates/decentgpu-master/src/p2p/handler.rs:455-463 | the stored rows are exactly one at now + i for each kept non-empty line i |
| LogReplay.JoinedLinesComeBack | crates/decentgpu-worker/src/main.rs:151-172 | splitting what the worker joined gives exactly the lines of each collected text, also of one with line feeds inside |
| LogReplay.LinesConcat | crates/decentgpu-worker/src/main.rs:163-172 | a text that ends in a line feed splits into its own lines, whatever follows it |
| LogReplay.PlainTextsAreLines | crates/decentgpu-worker/src/main.rs:151-172 | a text without line feeds comes back as one line, but for a carriage return at its end |
| LogReplay.OneLineText | crates/decentgpu-worker/src/main.rs:163-172 | a text without line feeds is one line, and loses one carriage return at its end exactly when a line feed follows |
| LogReplay.ReplayIsReport | crates/decentgpu-master/src/db/jobs.rs:182-206 | a replay of one report made at a positive time is that report, whatever the order of insertion and whatever rows other jobs have |
| LogReplay.ReplayGivesOutput | crates/decentgpu-master/src/p2p/handler.rs:455-495 | reading the log back gives all the non-empty output lines whose append succeeded, in order, or the first 10,000 of them |
| LogReplay.ReplayAtTimeZero | crates/decentgpu-master/src/db/jobs.rs:192-195 | at time 0 the replay gives the output without its first line, or the first 10,000 of that |
| Worker.WorkerNode.Receive | crates/decentgpu-worker/src/p2p/handler.rs:283-298 | queues the assignment, or turns it away exactly when 32 are waiting |
| Worker.WorkerNode.Execute | crates/decentgpu-worker/src/main.rs:51-183 | the results of a queue are those of its assignments in order, whatever happens in each execution |
| Worker.WorkerNode.SendResults | crates/decentgpu-worker/src/p2p/handler.rs:101-129 | with a master known, every result is sent once and in order, with its job, success and output, and an error message exactly for failures; without one they are dropped |
| Worker.OneResultPerAssignment | crates/decentgpu-worker/src/main.rs:51-183 | the jobs of the results are those of the assignments with a spec, one each, in queue order |
| Worker.EachResultIsRight | crates/decentgpu-worker/src/main.rs:51-183 | the result in an assignment's place has its job, succeeds only for code that ran and ended well, and has the text that its outcome calls for |
| Worker.SuccessOnlyAfterGoodRun | crates/decentgpu-worker/src/p2p/handler.rs:101-129 | a message of success is sent for a job if and only if some run of it ended well |
| Worker.OutputIsSeen | crates/decentgpu-worker/src/main.rs:163-172 | the non-empty lines of the reported output are those of each emitted text, whatever line feeds are in it, followed by the error's if the run failed with one |
| Worker.ReplayShowsRun | crates/decentgpu-worker/src/main.rs:151-172 | end to end: the lines of everything a worker's run emitted, or the first 10,000 of them, are what a replay of the job's log returns once all of it is stored |
| JobApi.ReadForm | crates/decentgpu-master/src/api/jobs.rs:91-133 | fails if and only if one of the five known fields cannot be read; otherwise the last field of each name decides, and a malformed number counts as absent |
| JobApi.LastFieldWins | crates/decentgpu-master/src/api/jobs.rs:97-133 | of several fields of one name the last one decides, whatever stands around it |
| JobApi.NoSuchField | crates/decentgpu-master/src/api/jobs.rs:91-95 | a field that does not occur has no value |
| JobApi.RowInWords | crates/decentgpu-master/src/api/jobs.rs:135-152 | a form is accepted if and only if the five known fields can be read, the backend is one of four names or absent, and there is code; the row has that backend, CPU if absent, and 512 MB and 3600 s for missing or malformed limits |
| JobApi.Api.CreateJob | crates/decentgpu-master/src/api/jobs.rs:86-154 | exactly determined by the form and the fate of the insert: a refused form leaves no trace, an accepted one adds exactly its pending row unless the insert fails |
| JobApi.Api.BuildAndEnqueue | crates/decentgpu-master/src/api/jobs.rs:173-231 | the job is handed to the scheduler exactly once whether or not its image could be built, and not at all if a built image cannot be read |
| JobApi.EnqueuedRequestIsRowRequest | crates/decentgpu-master/src/api/jobs.rs:142-229 | the request sent along with a new job is the one the scheduler later computes from its row |
| JobProtocol.RequestInNumbers | crates/decentgpu-master/src/scheduler/mod.rs:179-184 | a job asks for its row's backend and memory limit, 512 MB if none, a negative one read as unsigned |
| JobApi.Api.CancelJob | crates/decentgpu-master/src/api/jobs.rs:298-323 | exactly determined by the rows, what others do between the read and the update, and the fate of both statements: which refusal, Done with the row cancelled column by column, Conflict when the status has changed, or a database error |
| JobApi.OthersProgress | crates/decentgpu-master/src/api/jobs.rs:298-323 | whatever others do meanwhile, no job disappears or changes hands, and finished ones stay as they are |
| JobSafety.StepFollows | crates/decentgpu-master/src/db/jobs.rs:74-115 | no action of any actor moves a row except along pending→assigned, pending→cancelled, assigned→completed/failed/cancelled and, by the offline reset only, failed→pending; only an assignment changes the worker |
| JobSafety.StepKeepsInv | crates/decentgpu-master/src/scheduler/mod.rs:83-292 | every step of every actor keeps the invariant that all the theorems below rest on |
| JobTheorems.RowsAreSound | crates/decentgpu-master/src/db/jobs.rs:74-115 | in every reachable state an assigned or completed row has a worker and `assigned_at`, and a terminal row has `finished_at` |
| JobTheorems.RowStep | crates/decentgpu-master/src/db/jobs.rs:74-115 | between any two consecutive states of a run a row moves only along the arrows |
| JobTheorems.FinishedForGood | crates/decentgpu-master/src/api/jobs.rs:298-323 | a completed or cancelled row never changes again, whatever cancellation, result or reset is under way |
| JobTheorems.FailedForGood | crates/decentgpu-master/src/scheduler/mod.rs:268-292 | a failed row of a real user never changes again; one of the nil hirer only through the offline reset |
| JobTheorems.NoLostJob | crates/decentgpu-master/src/scheduler/mod.rs:168-187 | an enqueued job whose row is pending is in the scheduler's `pending` map if and only if it was not given up after a failed read |
| JobTheorems.NoLostJobWhileReadsSucceed | crates/decentgpu-master/src/scheduler/mod.rs:239-266 | while reads succeed every enqueued job whose row is pending is in the map, under all interleavings |
| JobTheorems.DispatchCounts | crates/decentgpu-master/src/scheduler/mod.rs:190-237 | Assigns sent ≤ assignments won ≤ 1 + resets, with equality to the resets while pending; a real user's job is never reset |
| JobTheorems.DispatchedAtMostOnce | crates/decentgpu-master/src/scheduler/mod.rs:190-237 | a real user's job is sent to at most one worker, at most once |
| JobTheorems.AssignGoesToBest | crates/decentgpu-master/src/scheduler/mod.rs:190-205 | an Assign goes to a worker that is online, idle, untried, eligible for the job's own request, and of maximal score among all such workers |
| JobTheorems.TriedOnce | crates/decentgpu-master/src/scheduler/mod.rs:235-236 | a tried list never holds a worker twice |
| JobTheorems.CompletedByNamedPeer | crates/decentgpu-master/src/p2p/handler.rs:465-477 | a real user's completed row names the one peer ever sent the job, and that peer reported its success |
| JobTheorems.CompletedWithoutReset | crates/decentgpu-master/src/p2p/handler.rs:465-477 | the same for any hirer's job that was never reset |
| JobCounterexamples.FailedReadLosesJob | crates/decentgpu-master/src/scheduler/mod.rs:244-247 | a run in which one failed read leaves a pending job outside the map |
| JobLoss.LostForGood | crates/decentgpu-master/src/scheduler/mod.rs:239-266 | a real user's job given up that way never returns to the map and is never dispatched again in any continuation; its pending row can only ever become cancelled |
| JobLoss.StepKeepsAgenda | crates/decentgpu-master/src/scheduler/mod.rs:168-187 | the scheduler's loops work only on jobs that are in the map, and on each once |
| JobLife.OthersInWords | crates/decentgpu-master/src/api/jobs.rs:298-323 | when each step of the API, the P2P task and the workers can be taken, and what it does to rows, queues and messages, in plain words |
| JobLife.EveryJobCanEnd | crates/decentgpu-master/src/scheduler/mod.rs:190-237 | from every reachable idle state, every new job can be brought to its end, completed or failed as its run goes, by a suiting worker if one is online and those online are free |
| JobLife.EveryJobCanBeCancelled | crates/decentgpu-master/src/api/jobs.rs:298-323 | from every reachable state a user can have a pending or assigned job of his cancelled |
| JobLife.QueuesAreBounded | crates/decentgpu-worker/src/p2p/mod.rs:175 | no worker's queue ever holds more than 32 jobs |
| JobProgress.LoopLooksAtAll | crates/decentgpu-master/src/scheduler/mod.rs:168-187 | whatever fails and whoever interferes, a loop reads the row of every cached job, and a pending one it tries, on a retry if it is older than 30 s |
| JobProgress.CalmLoopServes | crates/decentgpu-master/src/scheduler/mod.rs:168-237 | if meanwhile nothing fails and nobody else acts, every cached pending job for which an untried idle worker suits is assigned and sent to such a worker |
| JobProgress.CalmLoopDropsAll | crates/decentgpu-master/src/scheduler/mod.rs:175-178 | jobs that are no longer pending are dropped from the map, and their rows stay |
| JobProgress.CalmRetrySparesAll | crates/decentgpu-master/src/scheduler/mod.rs:253-256 | a retry leaves pending jobs of 30 s or less as they are |
| JobProgress.CalmOfflineServes | crates/decentgpu-master/src/scheduler/mod.rs:268-292 | up to 1000 rows of nobody: each that the leaving worker held is pending again with that worker as tried; all other rows stay |
| JobCounterexamples.NilHirerMisattributes | crates/decentgpu-master/src/scheduler/mod.rs:268-292 | a run in which a nil-hirer job is dispatched twice and its completed row names a worker that reported nothing |
| JobCounterexamples.PromisesByHirer | crates/decentgpu-master/src/scheduler/mod.rs:268-292 | in all runs a hirer's completed jobs are rightly attributed, and his jobs dispatched at most once, if and only if the hirer is not the nil UUID |
| Scheduler.JobScheduler.constructor | crates/decentgpu-master/src/scheduler/mod.rs:62-80 | a new scheduler over an empty table is the start of a run |
| Scheduler.JobScheduler.RunLoop | crates/decentgpu-master/src/scheduler/mod.rs:83-164 | the event loop stays a run of the protocol and answers every event once and in order, a look for a command being answered by taking one or by finding the channel empty; a real user's job has been sent at most once, and with successful reads no pending job is missing from the map |
| Scheduler.JobScheduler.OnCommand | crates/decentgpu-master/src/scheduler/mod.rs:91-98 | takes a command exactly when there is one; its job is tried, and in calm assigned and sent if an idle worker suits |
| Scheduler.JobScheduler.OnOnline | crates/decentgpu-master/src/scheduler/mod.rs:103-113 | a worker that registers is in `online` afterwards; every cached job is looked at, and in calm every pending one that an untried idle worker suits is assigned and sent, and the others that are not pending dropped |
| Scheduler.JobScheduler.OnOffline | crates/decentgpu-master/src/scheduler/mod.rs:114-118 | a worker that leaves is gone from `online`; in calm the jobs of nobody that it held are pending again, and no other row changes |
| Scheduler.JobScheduler.OnHeartbeat | crates/decentgpu-master/src/scheduler/mod.rs:119-150 | the exact new `online` map; an unknown idle worker sets off the same as a registration, any other heartbeat nothing |
| Scheduler.JobScheduler.OnRetryTick | crates/decentgpu-master/src/scheduler/mod.rs:159-162 | every cached job is looked at; in calm every pending one older than 30 s that an untried idle worker suits is assigned and sent, and younger ones stay |
| Scheduler.JobScheduler.Candidates | crates/decentgpu-master/src/scheduler/mod.rs:191-195 | the online workers not yet tried, each once |
| Scheduler.JobScheduler.TryAssignOne | crates/decentgpu-master/src/scheduler/mod.rs:190-237 | from a job to be matched, protocol steps lead to the next job; the map changes at most by one tried worker of this job |
| Scheduler.JobScheduler.TryAssignPending | crates/decentgpu-master/src/scheduler/mod.rs:168-187 | the whole loop over the pending jobs is a sequence of protocol steps, with others' steps at every await; it looks at every cached job, and in calm assigns and sends every pending one that an untried idle worker suits and drops the others that are not pending |
| Scheduler.JobScheduler.RetryStalePending | crates/decentgpu-master/src/scheduler/mod.rs:239-266 | the same for the retry loop with its age test, which leaves jobs of 30 s or less as they are |
| Scheduler.JobScheduler.HandleWorkerOffline | crates/decentgpu-master/src/scheduler/mod.rs:268-292 | the same for the rows listed when a worker leaves; in calm the jobs of nobody that it held are pending again, and no other row changes |
| Scheduler.OthersIgnoreScheduler | crates/decentgpu-master/src/scheduler/mod.rs:44-58 | no step of the API, the P2P task or a worker depends on or changes the scheduler's own state |

## Left out

- Liveness of jobs in every run: it is false, since a job whose assignment cannot be built, or that a worker turns away, stays `assigned`. What the scheduler gets done when nothing fails meanwhile is in `JobProgress`, and that every job can be brought to its end in `JobLife`.
- Rounding of `f64`: prices, payouts, uptimes and scores are exact numbers, and NaN is excluded.
- SHA-256: any function. Where integrity depends on it, the theorem asks that the data the channel puts in collide with no chunk of the file.
- Alterations of anything but a chunk's data, that is of offsets, last flags, hashes and ACKs: nothing in the protocol checks those.
- The byte encoding of protobuf messages and of JSON: any encoding whose decoding inverts it and whose chunks and ACKs fit into a frame. `transfer_id` is copied and never checked, so it is not modelled.
- libp2p (swarm, rendezvous, relay, gossip, reconnecting): a message is on its way, arrives or is lost. Acceptance answers are not modelled, since the master does nothing with them.
- A restart of the master, which forgets the scheduler's maps and the commands in its channel.
- Capacities of the master's channels, and the priority of `biased` in the scheduler's `select!`: events come in any order.
- The API handlers and the P2P task as programs that are runs of the protocol: they are proved against the table, with its other users in between, and their steps are actions of the protocol; only the scheduler is proved to be a run of it.
- The rest of `api/jobs.rs`: multipart framing, file writes, image builds, uploads and downloads. In the protocol a created job may be enqueued at any later time or never, and a cancellation reads first and compares-and-sets later.
- Ledger: `initialize` runs before the concurrent transactions of `LedgerTransactions`, so the set of accounts is fixed there; `LedgerLateAccounts` adds it, but sees only the locks; foreign keys of the log table; `get_balance`; the callers of the ledger, apart from what `LedgerAccounting.Use` asks of them.
- Execution itself (Docker, `python3`, temporary directories, GPU detection): an arbitrary list of lines, success flag and error. The clamps on duration and memory only reach that call.
- Worker.WorkerNode.Execute: drains the queue it finds; assignments that arrive meanwhile are the next call's.
- Jobs with more than one report: each report replays in order, but two reports mix by time.
- The terminal WebSocket: replay, status check and subscription can miss or repeat lines, so it delivers no line exactly once.
- `update_cu_price`, `insert_file`, the admin queries, authentication, the frontend, deployment files and the unused `JobState` and `JobContext`.
