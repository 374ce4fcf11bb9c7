# A verified model of the rental platform's protocols and algorithms

The project models, in Dafny, the parts of the platform whose correctness cannot be
read off one function body, and proves what they promise.

| files | what they model |
|---|---|
| `Savepoints.dfy`, `Adapters.dfy` | `Db.transaction`: PostgreSQL's session rules (with the aborted state), callbacks as program trees, the two drivers as classes |
| `Pool.dfy`, `Interleaving.dfy` | many call stacks over one connection pool, interleaved at every statement; the callbacks' refinement carried over to every interleaving |
| `Idempotency.dfy`, `KeyReuse.dfy`, `IdempotencyStore.dfy` | the idempotency-key protocol: a step system of concurrent dispatches, lost statements, dying processes and expiry sweeps; the record table as a class |
| `Migrator.dfy`, `MigrationOrder.dfy` | the migration runner: loading, one run, runs one after another, any number of runs that crash, fail and race, and when the directory's order is kept |
| `Field.dfy`, `Bytes.dfy`, `Algebras.dfy`, `Polynomial.dfy`, `ShiftRegister.dfy`, `ReedSolomon.dfy`, `QrBits.dfy`, `QrGrid.dfy`, `QrMatrix.dfy`, `QrSymbol.dfy` | the QR encoder: arithmetic, tables, generator, division loop, bit stream, zigzag placement, and the finished symbol cell by cell |
| `Routing.dfy` | route matching |
| `RateLimit.dfy` | fixed-window rate limiting with its sweep |
| `NumberText.dfy`, `Digest.dfy`, `Uuid.dfy`, `Money.dfy`, `Html.dfy` | string digests, UUIDv7, amounts, HTML escaping |
| `Wrappers.dfy`, `Arithmetic.dfy`, `Sets.dfy` | shared helpers |

Code that updates state is a class or a method over arrays, proved against functions of
the old state; the theorems are lemmas about those functions and about all runs.

## What the proofs found

- **Commit on resolve.** `sql.ts` lines 23-26 promise that `transaction` commits when the
  callback resolves. PostgreSQL answers COMMIT of an aborted transaction by rolling back
  without an error, so a callback that swallows a refused statement outside a nested
  `transaction` resolves with its work gone (`SwallowedRefusalLosesWork`). The promise is
  proved for every callback that lets a refused statement reach a `transaction` boundary
  (`Disciplined`, a test of the callback's shape; it may not swallow the refusal of a
  SAVEPOINT unless none occurs), retries of statements that fail once included, and the
  exact condition for all callbacks is `CommitsOnResolveIff`.
- **Depth counter.** Inside a transaction, `ctx.depth` (and PGlite's `depth`) is raised
  before SAVEPOINT is sent, outside the `try`; every refused SAVEPOINT leaves it one higher,
  and no other statement does (`DepthAfter`, `DepthRestoredIff`, `SwallowedRefusalLeaks`).
  The refinement holds all the same, since names only have to be newer than the open ones.
- **A refused BEGIN.** `postgres.ts` sends BEGIN inside the `try`, `pglite.ts` sets its
  counter and sends BEGIN before it. The two drivers agree in everything exactly when BEGIN
  is accepted (`BeginDecides`, `RunOnBoth`); when it is refused, PGlite's counter stays at 1
  and every later call is refused its SAVEPOINT on an idle session (`StuckForever`).
- **Idempotency keys.** Mutual exclusion of handlers and a single success per key hold in
  every interleaving except after an expiry sweep of a live row or a lost completion, and
  in every reachable state those two do open the door (`ExclusionLostIff`,
  `RepetitionIff`). An INSERT that is carried out but whose answer is lost leaves a row
  that no clean-up ever reaches (`LostAnswerLeavesRow`); so does a process that dies between
  the claim and the clean-up (`DeathLeavesRow`), and from then on the key is refused until a
  sweep takes the row (`OnlyASweepFrees`). "The same request" means the same
  user, route pattern, key and body: path parameters and the query are not part of it.
- **Migrations.** A runner still at work on a list that the directory has since outgrown
  can take effect out of order (`StaleRunnerReorders`). The directory's order is kept, whatever
  happens next, if and only if what every live runner can still bring into effect by itself,
  its list up to the first recorded file, goes on as the directory does (`OrderKeptIff`);
  then a prefix of the directory is in effect at every moment (`AlwaysAPrefix`, `GrowingRuns`).
- **QR error correction.** The generator is held lowest coefficient first, so a division
  step clears a nonzero word only for degrees whose root exponents add up to a multiple of
  255, which 16 is not (`ClearedIff`, `SixteenWords`); what the loop does keep is proved
  (`RootsKeepValue`, `ByteEcIsLinear`, `ByteEcNext`), and it is enough to notice any one wrong
  codeword (`OneWrongCodeword`). The generator has exactly the roots it should.
- **Rate limit.** The limit is exact in every run if and only if the window and the lag
  between the clocks are no longer than the sweep's horizon and one clock step
  (`LimitHoldsIff`). The lag includes the delay between the reading of a request's date
  (`router.ts` line 163) and its upsert: with the application dating the sweep, window and
  delay together must be at most the horizon and a millisecond. The route with a window of one day,
  which is the horizon, goes above its limit as soon as that delay can reach two
  milliseconds (`DayWindowOverruns`).
- **Route parameters.** A pattern that repeats a parameter name keeps the last value; the
  path can be rebuilt exactly when the repeated values agree (`FillInverts`). Declaration
  order matters exactly when two different routes tie (`OrderMattersOnTies`).
- **UUIDv7.** The time comes back exactly when it lies in the 48-bit range; outside it
  comes back reduced (`TimestampReads`).

## Model

| member | source | states |
|---|---|---|
| Savepoints.OwnSavepointIsNewest | src/server/db/postgres.ts:105-114 | However many released-over or rolled-back savepoints with reused names lie above, the name of an open nested call resolves to its own savepoint |
| Savepoints.RunRefines | src/server/db/postgres.ts:105-155 | For every callback tree and every pattern of refusals (of writes, queries, SAVEPOINT and RELEASE, depending on the data and on the number of statements sent), running through savepoints gives the outcome and data of snapshot-and-restore, and the session is aborted exactly where the meaning says so |
| Savepoints.NestedRefines | src/server/db/postgres.ts:105-119 | A nested call refines `Tx` of its body at any depth, stale savepoints included |
| Savepoints.OutermostMeaning | src/server/db/postgres.ts:134-155 | All five ends of an outermost call: BEGIN refused, thrown, committed, silently rolled back, commit refused; the session is at rest afterwards |
| Savepoints.DisciplinedIsPlain | src/server/db/sql.ts:22-28 | For callbacks that let refused statements reach a `transaction` boundary, the meaning with the aborted state is plain snapshot-and-restore |
| Savepoints.PromiseKept | src/server/db/sql.ts:22-28 | Commit on resolve, roll back on throw, nested calls joining the outer one, for every disciplined callback |
| Savepoints.CommitsOnResolveIff | src/server/db/sql.ts:23-26 | A call that resolved has committed its work exactly when the session was not aborted at COMMIT or there was no work |
| Savepoints.SwallowedRefusalLosesWork | src/server/db/postgres.ts:140-144 | A concrete callback that resolves and commits nothing although the interface promises its write |
| Savepoints.DepthAfter | src/server/db/postgres.ts:106-118 | After any callback the depth counter is higher by exactly the number of its nested calls whose SAVEPOINT was refused |
| Savepoints.DepthRestoredIff | src/server/db/postgres.ts:106-118 | The counter is back where it was exactly when no SAVEPOINT was refused |
| Savepoints.DisciplinedOpens | src/server/db/postgres.ts:106-108 | Which never happens to a disciplined callback unless the server refuses one in a healthy transaction |
| Savepoints.SwallowedRefusalLeaks | src/server/db/postgres.ts:106-108 | A concrete callback after which the counter is too high, whatever else the server refuses, once BEGIN was accepted |
| Savepoints.BeginDecides | src/server/db/pglite.ts:76-87 | BEGIN inside or before the `try`: same outcome and session always; same statements, and the counter back at zero, exactly when BEGIN is accepted |
| Savepoints.StuckForever | src/server/db/pglite.ts:60-77 | After a refused BEGIN on PGlite no later call, however many there are, gets to its callback: each is refused its SAVEPOINT, changes nothing and raises the counter |
| Savepoints.RetryCommits | src/server/db/sql.ts:96-99 | A write refused once and repeated after a nested rollback is committed |
| Adapters.PostgresDb.Transaction | src/server/db/postgres.ts:134-155 | Outermost or nested by the stored context; sends exactly the specified statements and restores the context |
| Adapters.PostgresDb.NestedCall | src/server/db/postgres.ts:105-119 | The nested call over a mutable context: statements, outcome and depth equal the specification's |
| Adapters.PostgresDb.Settle | src/server/db/postgres.ts:111-118 | RELEASE, or ROLLBACK TO after a failure (a failing RELEASE included), and the counter lowered in every case |
| Adapters.PostgresDb.OutermostCall | src/server/db/postgres.ts:138-154 | BEGIN, callback, COMMIT or ROLLBACK, with a refused BEGIN rolled back too; for disciplined callbacks outcome and committed data are the promised ones |
| Adapters.PostgresDb.Send | src/server/db/postgres.ts:125-132 | A statement goes to the stored context's connection if there is a context, else to one the pool lends, and to no other |
| Adapters.PostgresDb.Callback | src/server/db/postgres.ts:125-132 | The statements of a callback reach the transaction's own connection in the specified order, and the pool's connection is left alone |
| Adapters.PgliteDb.Transaction | src/server/db/pglite.ts:58-88 | The same two cases by the depth counter |
| Adapters.PgliteDb.NestedBranch | src/server/db/pglite.ts:60-74 | The nested branch equals the same specification |
| Adapters.PgliteDb.OutermostBranch | src/server/db/pglite.ts:76-87 | Sends what the specification with BEGIN before the `try` says; the counter is reset exactly when BEGIN is accepted; outcome and data are the promised ones for disciplined callbacks |
| Adapters.RunOnBoth | src/server/db/pglite.ts:58-88 | From equal connections both adapters end with the same outcome, data and session; they send the same statements, and PGlite resets its counter, exactly when BEGIN is accepted |
| Pool.PoolIsSafe | src/server/db/postgres.ts:134-155 | In every interleaving open transactions never share a client, free and held clients make up the pool, and each client was taken as often as it was released, once more while it is held |
| Pool.GiveBackFrees | src/server/db/postgres.ts:151-153 | In every interleaving a task that has finished and gives back is outside again, the pool has exactly its client more, and that client was released as often as it was taken |
| Pool.ConnectLends | src/server/db/postgres.ts:138-139 | In every interleaving a waiting task gets any free client, which leaves the pool, and nobody else is touched |
| Pool.DirectSends | src/server/db/postgres.ts:125-132 | Outside any transaction a statement is sent once, on a free client that stays in the pool |
| Pool.NobodyInsideAllFree | src/server/db/postgres.ts:134-155 | In every interleaving, when no task is inside a transaction the whole pool is free |
| Pool.NobodyInBetween | src/server/db/postgres.ts:134-155 | In every interleaving, from a BEGIN to the end of its transaction a connection is sent statements of that task only |
| Pool.LogsAreBracketed | src/server/db/postgres.ts:121-155 | In every interleaving each client's log is complete well-bracketed transactions of one task each, then exactly the open brackets of its holder |
| Pool.HoldersCoverTheRest | src/server/db/postgres.ts:138-153 | Every client that is not free is held by a task inside a transaction |
| Pool.MovesAreLocal | src/server/db/postgres.ts:125-132 | Every statement a task sends inside its transaction fits the open bracket of its own client |
| Pool.RunKeepsInv | src/server/db/postgres.ts:64-64 | The invariant behind these theorems holds after every run |
| Interleaving.FutureIsKept | src/server/db/postgres.ts:134-155 | A call executed one statement at a time comes, from every point, to what `Outermost` says |
| Interleaving.EveryStepCounts | src/server/db/postgres.ts:134-155 | Whatever the server answers, every step brings a call nearer to its end |
| Interleaving.AdvanceFollows | src/server/db/postgres.ts:105-155 | Every statement a callback's execution sends is the move the pool's automaton makes, savepoint names included |
| Interleaving.EndsAsAlone | src/server/db/postgres.ts:134-155 | In every interleaving, with every connection refused what it may be refused independently of the others, a call that is over left its connection, its stretch of the log and its outcome as if it had run alone |
| Interleaving.PromiseKeptTogether | src/server/db/sql.ts:22-28 | In every interleaving, with refusals of each connection's own, a disciplined callback's call commits on resolve and rolls back on throw |
| Interleaving.EveryCallGivesBack | src/server/db/postgres.ts:134-155 | From every state of every interleaving, whatever the server answers, a call ends after finitely many steps of its own and gives its connection back: free, at rest, as `Outermost` leaves it, no other connection touched |
| Interleaving.WholeCall | src/server/db/postgres.ts:134-155 | From a task outside any transaction and a free connection, a call runs its callback as `Outermost` says and leaves tasks and pool as they were |
| Idempotency.RunKeepsInv | src/server/api/idempotency.ts:60-152 | The protocol's invariant holds after every run, with sweeps, lost statements and dying processes anywhere |
| KeyReuse.FreeKeyProceeds | db/migrations/0006_api_support.sql:32-32 | In every reachable state a request that differs from every row in its user, its route pattern or its key gets to its handler with a new row that holds these three and its body |
| KeyReuse.DifferentKeysNeverMeet | db/migrations/0006_api_support.sql:32-32 | So dispatches that differ in user, route pattern or key never refuse each other |
| KeyReuse.TakenKeyTells | src/server/api/idempotency.ts:73-125 | In every reachable state a request that shares all three with a row is told a mismatch for another body, that row's stored response once completed, a conflict before, and changes nothing |
| KeyReuse.LongKeyIsRejected | src/server/api/idempotency.ts:67-69 | A key of more than 200 characters is rejected before anything is sent |
| KeyReuse.SuccessIsReplayed | src/server/api/router.ts:347-355 | After a handler's 2xx response is stored, every later request with user, route pattern, key and body is replayed it, in every continuation in which no sweep takes the row |
| KeyReuse.FailureFreesKey | src/server/api/router.ts:347-365 | After any other response, or a throw, the next request with the key gets to its handler |
| Idempotency.HandlersExclude | src/server/api/router.ts:321-341 | Two handlers run at once for requests of one user, route pattern and key only if the sweep took one of their rows |
| Idempotency.NewcomerRunsIff | src/server/api/router.ts:321-341 | In every reachable state, while one handler runs a second dispatch gets to its own exactly when the slot is free, and it is free only after a sweep of the first one's row |
| Idempotency.ExclusionLostIff | src/server/api/router.ts:321-341 | With nobody else holding the slot, a second handler can start exactly when the first one's row was swept |
| Idempotency.NewcomerAfterSweep | src/server/api/idempotency.ts:149-152 | From every reachable state, sweeping a running handler's row lets the next dispatch run beside it |
| Idempotency.OneSuccess | src/server/api/router.ts:347-353 | A second success, or a handler still running after one, needs a swept row or a lost completion |
| Idempotency.RepetitionIff | src/server/api/router.ts:347-353 | After a success, with nobody else holding the slot, a second one is possible exactly when the row was swept, or its completion lost and the row cleaned up |
| Idempotency.RepetitionAfterLoss | src/server/api/router.ts:349-365 | From every reachable state, a completion that fails without effect lets the next dispatch succeed again |
| Idempotency.OneFreshAnswer | src/server/api/router.ts:347-355 | At most one caller per key is given a fresh success unless a row was swept, even when completions are lost |
| Idempotency.ReplaysAreHonest | src/server/api/idempotency.ts:103-121 | A replay carries the stored 2xx status and body of another dispatch with the same user, scope, key and body |
| Idempotency.CompletedHasStatus | src/server/api/idempotency.ts:112-121 | A completed row always has a status in the 200 range and a body |
| Idempotency.InProgressIsOwned | src/server/api/router.ts:356-365 | An in-progress row has exactly one owner; it is at work, or its clean-up failed, the answer to its INSERT was lost, or its process died |
| Idempotency.RefusedLeavesNoRow | src/server/api/router.ts:320-332 | A request answered before its handler, or whose process died before it, has inserted no row unless the answer to its INSERT was lost |
| Idempotency.LostAnswerLeavesRow | src/server/api/idempotency.ts:73-82 | A reachable state with a row in progress, no dispatch at work and no clean-up ever tried |
| Idempotency.DeathLeavesRow | src/server/api/router.ts:321-365 | In every reachable state, a process that dies in its handler leaves its row in progress, with no clean-up tried and no answer lost |
| Idempotency.OnlyASweepFrees | src/server/api/idempotency.ts:96-125 | In every continuation in which no sweep takes it, a row left behind refuses every request with its key: a conflict for the same body, a mismatch for another |
| Idempotency.SweepFrees | src/server/api/idempotency.ts:149-152 | Once a sweep takes it, the next request with the key gets to its handler |
| Idempotency.RetriesAreCharged | src/server/api/idempotency.ts:96-101 | Each recursive retry is charged to a different row that has gone, so there are at most as many as deletions |
| Idempotency.LateStepsAreHarmless | src/server/api/idempotency.ts:128-147 | No statement of one dispatch, however late, changes a row of another, and only a sweep removes a completed row |
| Idempotency.SweepLetsTwoRun | src/server/api/idempotency.ts:149-152 | A reachable state in which two handlers run for one key after a sweep |
| Idempotency.LostCompletionRepeats | src/server/api/router.ts:356-365 | A reachable state in which a failed completion lets a second handler succeed for one key |
| IdempotencyStore.RecordTable.InsertRecord | db/migrations/0006_api_support.sql:15-35 | The unique index: the INSERT is refused exactly when the slot is taken, else a fresh id in progress |
| IdempotencyStore.RecordTable.CompleteIdempotent | src/server/api/idempotency.ts:128-139 | The UPDATE by id without a state condition; consistency kept |
| IdempotencyStore.RecordTable.AbandonIdempotent | src/server/api/idempotency.ts:145-147 | Deletes the row only while it is in progress; consistency kept |
| IdempotencyStore.RecordTable.ReadRecord | src/server/api/idempotency.ts:103-125 | Conflict on another hash, replay exactly for a completed row with a status, conflict otherwise |
| IdempotencyStore.RecordTable.BeginIdempotent | src/server/api/idempotency.ts:60-126 | With any statements of others before and after its SELECT, and INSERT or SELECT failing at any attempt: a fresh in-progress row of its own user, scope, key and body, at once when no row has the first three; or what such a row tells; or failed; other rows untouched |
| IdempotencyStore.VanishedRowIsRetried | src/server/api/idempotency.ts:96-101 | When the row that refused the INSERT is gone by the SELECT, the request starts again and gets through |
| IdempotencyStore.CompletedMeanwhile | src/server/api/idempotency.ts:103-121 | When it is completed by the SELECT, the request is told what was stored |
| IdempotencyStore.RecordTable.Dispatch | src/server/api/router.ts:320-367 | Claim, handle, complete or abandon, clean up: what is answered in each case, what becomes of the claimed row, and that rows of others stay |
| Migrator.LoadedInOrder | src/server/db/migrator.ts:36-36 | Whatever order the directory is listed in, the filter and the sort give its `.sql` files in text order |
| Migrator.LoadMigrations | src/server/db/migrator.ts:35-54 | Exactly the directory's `.sql` files, in text order, with contents and checksums; a bad name is reported exactly when there is one, a repeated number only when there is one |
| Migrator.WellNamedIff | src/server/db/migrator.ts:33-33 | The names the pattern admits are exactly those put together from four digits, an underscore, one or more small letters, digits or underscores, and the ending |
| Migrator.BeforeIff | src/server/db/migrator.ts:36-36 | The order of the sort: the smaller character at the first place where two names part, a name before its continuations |
| Migrator.OrderIsNumeric | src/server/db/migrator.ts:33-36 | For well-formed names, text order agrees with the order of the four-digit numbers |
| Migrator.Database.Transaction | src/server/db/migrator.ts:104-110 | Script and INSERT take effect together or not at all; refused exactly when the script fails on the texts in effect before it or the name is in the table |
| Migrator.Database.Migrate | src/server/db/migrator.ts:77-118 | A run by loops and transactions, dying anywhere, equals `RunOnce`; refused as modified, with nothing applied, exactly when some file, wherever in the list, is in the table with another checksum; success adds exactly the files not in the table, in order, and reports their names |
| Migrator.AtMostOnce | src/server/db/migrator.ts:56-63 | With any runners and directories every file takes effect at most once and the table records exactly those that did |
| Migrator.LoserLeavesNoTrace | src/server/db/migrator.ts:104-110 | In every interleaving, leaving out the commits of runners that came second or whose scripts failed leaves the database as it is |
| MigrationOrder.OrderKeptIff | src/server/db/migrator.ts:84-112 | From every tidy state, the files in effect stay in the directory's order in every continuation, whatever is refused, exactly when every live runner's list, up to its first recorded file, goes on as the directory does; runners that start later make no difference |
| MigrationOrder.ReachedIsTidy | src/server/db/migrator.ts:104-110 | Every state that an execution reaches is tidy |
| MigrationOrder.AlwaysAPrefix | src/server/db/migrator.ts:84-112 | When the live runners are in step with every directory that is read, all races, failures and crashes leave in effect a prefix of the directory read last, or all of it and more of a longer one |
| MigrationOrder.QuietIsInStep | src/server/db/migrator.ts:84-112 | Which covers every directory that begins with what is in effect, read while nobody is at work |
| Migrator.PrefixOfOneList | src/server/db/migrator.ts:84-112 | When all directories are initial parts of one list, what is in effect is a prefix of it |
| MigrationOrder.StaleRunnerReorders | src/server/db/migrator.ts:84-112 | A runner left on an outgrown list applies its file before one that sorts earlier |
| Migrator.GrowingRuns | src/server/db/migrator.ts:71-118 | After any runs one after another, each possibly dying or failing anywhere, over a directory that only gains files after those in effect: a prefix of the directory |
| Migrator.SameAsFreshBuild | src/server/db/migrator.ts:71-76 | After any runs or interleavings over any directories, the database equals the one a single clean run over the files in effect builds |
| Migrator.RunOnceIsAnExecution | src/server/db/migrator.ts:77-118 | One call of `migrate` is an execution of the step system, so the theorems apply to it |
| Migrator.EditedAppliesNothing | src/server/db/migrator.ts:91-100 | A runner that starts on a directory with any file whose checksum in the table is another might as well never have started: in every interleaving the database is the one without it |
| Migrator.CrashedAppliesNothing | src/server/db/migrator.ts:71-76 | So might a runner that crashed never go on: in every continuation the database is the one without it |
| Migrator.SecondRunIsIdle | src/server/db/migrator.ts:102-117 | After a successful run another applies nothing |
| Migrator.InOrderIff | src/server/db/migrator.ts:102-112 | A successful run ends in the list's order exactly when what was applied before is where the list begins |
| Field.EveryNonzeroIsAPower | src/ui/two-factor.tsx:59-66 | The doublings of one reach every nonzero element |
| Field.TimesAdd | src/ui/two-factor.tsx:64-68 | Multiplication by repeated doubling distributes over exclusive or on both sides |
| Field.TimesComm | src/ui/two-factor.tsx:68-68 | It commutes |
| Field.TimesAssoc | src/ui/two-factor.tsx:68-68 | It is associative |
| Bytes.BytesAreAField | src/ui/two-factor.tsx:61-66 | Bytes with exclusive or and doubling modulo 0x11d obey all the laws; doubling has order exactly 255 |
| Bytes.DoubleIsShift | src/ui/two-factor.tsx:64-65 | Doubling is a shift by one place, combined with 0x1d when a one falls off |
| Algebras.FieldIsGood | src/ui/two-factor.tsx:68-68 | Repeated doubling gives a commutative domain in which every element is its own negative |
| ReedSolomon.BuildTables | src/ui/two-factor.tsx:59-67 | EXP holds the powers at all 512 places and LOG inverts them on every nonzero byte |
| ReedSolomon.MulIsTimes | src/ui/two-factor.tsx:68-68 | The table `mul` equals multiplication by repeated doubling for all operands |
| ReedSolomon.MakeGenerator | src/ui/two-factor.tsx:71-79 | The loops compute the product of the factors x + power |
| ReedSolomon.ErrorCorrection | src/ui/two-factor.tsx:81-89 | The in-place loop, skipping zero factors, computes `EcWords` |
| ReedSolomon.TableWords | src/ui/two-factor.tsx:59-89 | Tables, generator and division together give the words that repeated doubling would |
| ShiftRegister.EcNext | src/ui/two-factor.tsx:81-89 | In every such field, one more data word moves the error-correction words one place down and adds the generator times the word that leaves plus the new one |
| ShiftRegister.EcOfLastOne | src/ui/two-factor.tsx:81-89 | A single one in the last place gives the generator without its first coefficient |
| ShiftRegister.OneWrongWord | src/ui/two-factor.tsx:81-89 | One wrong data word, wherever it is, gives other error-correction words |
| Polynomial.GeneratorRoots | src/ui/two-factor.tsx:71-79 | In every such field the generator of degree n vanishes at the first n powers and nowhere else |
| Polynomial.EvalNext | src/ui/two-factor.tsx:73-78 | One round multiplies the value at every point by x + e |
| QrMatrix.ByteGeneratorRoots | src/ui/two-factor.tsx:71-79 | For bytes and every degree: the roots are exactly the first n powers of two |
| QrMatrix.ByteGeneratorEnds | src/ui/two-factor.tsx:71-79 | For bytes and every degree: the generator is monic and its constant term is the product of the roots |
| QrMatrix.ByteEcIsLinear | src/ui/two-factor.tsx:81-89 | ec(a xor b) = ec(a) xor ec(b) for equal lengths and every degree |
| QrMatrix.ByteEcNext | src/ui/two-factor.tsx:81-89 | The shift-register law for bytes and every degree, and zeros without data |
| QrMatrix.OneWrongCodeword | src/ui/two-factor.tsx:81-89 | For bytes and every degree but zero, any one wrong codeword changes the error-correction words |
| Polynomial.RootsKeepValue | src/ui/two-factor.tsx:82-88 | Read lowest word first, the loop keeps the value at every root of the generator |
| Polynomial.StepClearsIff | src/ui/two-factor.tsx:82-88 | A step clears its starting word exactly when that word is zero or the generator starts with one |
| QrMatrix.ClearedIff | src/ui/two-factor.tsx:70-88 | For bytes and every degree, a step clears a nonzero word exactly when the exponents of the generator's roots add up to a multiple of 255 |
| QrMatrix.SixteenWords | src/ui/two-factor.tsx:70-70 | For the encoder's 16 words they do not |
| QrBits.Codewords | src/ui/two-factor.tsx:39-56 | For up to 134 bytes: 136 codewords holding mode, length, payload, terminator and alternating padding |
| QrSymbol.CodewordValues | src/ui/two-factor.tsx:39-56 | The codewords as numbers: 64 plus the length's high half, every byte split over two codewords, a zero half, 0xec and 0x11 in turn |
| QrBits.BitStream | src/ui/two-factor.tsx:40-50 | The pushes give the message and its four terminator bits |
| QrBits.FillOctet | src/ui/two-factor.tsx:50-50 | Pads with zeros to a whole number of bytes, fewer than eight of them |
| QrBits.ParseEncoded | src/ui/two-factor.tsx:44-56 | Reading mode, length and payload returns the bytes, whatever follows the codewords |
| QrGrid.VisitedOnce | src/ui/two-factor.tsx:143-156 | The zigzag comes to every free cell at exactly one moment |
| QrSymbol.PathMoves | src/ui/two-factor.tsx:143-156 | The zigzag as moves: from the lower right corner left, then up or down and right, turning round at the ends, past column 6 |
| QrSymbol.DataShown | src/ui/two-factor.tsx:134-156 | The free cell after n others shows bit n of the codewords, highest first, zeros after the last, turned over where row and column add up to an even number |
| QrGrid.FreeCells | src/ui/two-factor.tsx:91-132 | The path meets 1383 free cells, enough for all 152 codewords |
| QrGrid.ReadGivesBits | src/ui/two-factor.tsx:135-156 | Reading along the path and unmasking gives the codeword bits in order |
| QrGrid.ReadBack | src/ui/two-factor.tsx:39-156 | A symbol whose free cells hold the codewords reads back as the data |
| QrMatrix.SetFinder | src/ui/two-factor.tsx:93-106 | Draws one clipped finder with its border and nothing else |
| QrMatrix.DrawPatterns | src/ui/two-factor.tsx:107-132 | Every cell after the function patterns: finders, alignment, timing, dark module, reserved areas, the rest empty |
| QrSymbol.FinderShown | src/ui/two-factor.tsx:93-109 | Every finder of the finished symbol by its rings, border included |
| QrSymbol.AlignmentShown | src/ui/two-factor.tsx:111-116 | The alignment pattern of the finished symbol by its rings |
| QrSymbol.TimingShown | src/ui/two-factor.tsx:118-122 | The timing patterns alternate and the dark module is dark |
| QrSymbol.FormatShown | src/ui/two-factor.tsx:158-167 | Both copies of the fifteen bits of 0b111011111000100 are where they belong |
| QrMatrix.PlaceCell | src/ui/two-factor.tsx:148-153 | One cell of the path: a free one takes the next bit, masked; others and the bit counter stay |
| QrMatrix.PlaceData | src/ui/two-factor.tsx:134-156 | Every cell after the placement |
| QrMatrix.SetFormat | src/ui/two-factor.tsx:158-167 | The two copies of the format bits and no other cell |
| QrMatrix.FormatSparesData | src/ui/two-factor.tsx:161-167 | Format bits overwrite no data cell, and the dark module stays dark |
| QrMatrix.NoCellEmpty | src/ui/two-factor.tsx:134-169 | No cell of the finished matrix is null |
| QrMatrix.Encode | src/ui/two-factor.tsx:32-170 | Null exactly above 134 bytes; otherwise the symbol reads back as exactly the bytes, and each of its cells is given |
| Routing.SegmentsOfPath | src/server/api/router.ts:74-78 | A path built from plain parts, with any query string, is taken apart into those parts |
| Routing.PiecesJoin | src/server/api/router.ts:76-78 | A slash anywhere separates pieces, and empty ones do not count |
| Routing.SpecificityCounts | src/server/api/router.ts:105-111 | Specificity is the number of places that hold a literal |
| Routing.LiteralBeatsParameter | src/server/api/router.ts:81-84 | Of two routes that fit, the one is never answered whose literals are literals of the other too, when the other has one more |
| Routing.LiteralRouteAnswers | src/server/api/router.ts:81-84 | A route that is the path itself is the answer, unless another route of the method has the same segments |
| Routing.Router.Create | src/server/api/router.ts:60-68 | The constructor refuses exactly the tables in which two routes have the same method and the same path |
| Routing.Router.MatchOne | src/server/api/router.ts:92-108 | The inner loop: whether the pattern fits, its parameters, and how many of its places hold a literal |
| Routing.Router.Match | src/server/api/router.ts:74-119 | The fitting route of the method with most literal segments, first on a tie, each parameter from the last place of its name; null exactly when no route of any method fits; refusal exactly when only others do |
| Routing.OneRightAnswer | src/server/api/router.ts:111-119 | What `Match` promises leaves exactly one answer to every request |
| Routing.OrderMattersOnTies | src/server/api/router.ts:81-84 | Permuting the table never changes the answer, route and parameters or either refusal, exactly when no two different routes tie at the top |
| Routing.FillInverts | src/server/api/router.ts:92-103 | Filling the pattern with the parameters gives the decoded path back exactly when repeated names agree |
| Routing.FilledPathBinds | src/server/api/router.ts:92-103 | A path filled with encoded values fits the pattern and has those values as parameters |
| Routing.BuiltPathIsMatched | src/server/api/router.ts:74-119 | The path a client builds from a route and its values is matched, and when that route is the winner, with those values |
| RateLimit.CounterTable.CheckRateLimit | src/server/api/rate-limit.ts:42-70 | The upsert of one counter, and allowed, remaining and reset time by the count after it and the window containing now |
| RateLimit.CounterTable.PruneRateLimitCounters | src/server/services/retention-service.ts:433-436 | A window stays exactly when it began no earlier than the horizon, with its count, as in the sweeps of the runs below; the number reported is that of the windows that went |
| RateLimit.SweepIsUnseen | src/server/services/retention-service.ts:431-436 | What a sweep takes can never be read again: every request that may follow finds the count it would have found |
| RateLimit.ExactlyTheLimit | src/server/api/rate-limit.ts:42-70 | In every run with sweeps at any time, exactly min(limit, requests) are let through per bucket and window |
| RateLimit.AtMostTwiceTheLimit | src/server/api/rate-limit.ts:51-52 | At most twice the limit in any stretch as long as the window |
| RateLimit.TwiceIsReached | src/server/api/rate-limit.ts:51-52 | That bound is reached: two bursts around a window's end |
| RateLimit.LimitHoldsIff | src/server/api/rate-limit.ts:42-86 | The limit is exact in all runs exactly when window and clock lag are no longer than horizon and clock step, or the limit is zero |
| RateLimit.LimitHoldsByApplication | src/server/api/router.ts:163-163 | With the application dating the sweep, and upserts up to a delay later than the reading of `now`: exactly when window and delay together are at most the horizon and a millisecond, or the limit is zero |
| RateLimit.LimitHoldsByDatabase | src/server/api/rate-limit.ts:80-86 | With the database dating the sweep in microseconds: exactly when window and delay together are at most the horizon and a microsecond, or the limit is zero |
| RateLimit.DayWindowOverruns | src/server/api/routes/verification.ts:71-71 | A window of 24 hours, swept at a horizon of 24 hours: the limit is exact exactly when the delay is at most a millisecond; with two, a concrete run lets one request too many through |
| RateLimit.OverrunSucceeds | src/server/api/rate-limit.ts:80-86 | With a longer window, a burst, a sweep and one request more exceed the limit |
| Digest.AsciiDigest | src/ui/dispute-actions.tsx:75-82 | The loop with its signed and unsigned 32-bit wraps equals the folded rounds, in hexadecimal |
| Digest.DigestsDiffer | src/ui/ticket-form.tsx:17-24 | Texts of any length that differ in one code unit have different digests |
| Digest.DigestGrows | src/ui/dispute-actions.tsx:75-82 | The empty text has the digest 811c9dc5, and one unit more combines it by exclusive or and multiplies by 16777619 modulo 2^32 |
| Digest.DigestShape | src/ui/dispute-actions.tsx:70-82 | The digest is always eight ASCII hexadecimal digits |
| Digest.HashForBucket | src/server/api/router.ts:378-382 | The loop with its signed wraps equals the folded rounds, in base 36 |
| Digest.BucketsDiffer | src/server/api/router.ts:374-382 | Tokens that differ in one code unit get different bucket names |
| Digest.BucketIsBase31 | src/server/api/router.ts:374-382 | The bucket is the token read as a number in base 31, modulo 2^32, in base 36 |
| Uuid.Uuidv7 | src/lib/id.ts:15-34 | The byte array filled in place is the time's low six bytes and the masked random bytes, as dashed hexadecimal |
| Uuid.TimestampReads | src/lib/id.ts:37-40 | The time comes back modulo 2^48, and unchanged exactly when it is in range |
| Uuid.RandomReads | src/lib/id.ts:28-33 | Every random byte reads back from its own place, the first and third without the bits of version and variant |
| Uuid.EarlierIsBefore | src/lib/id.ts:6-14 | An earlier time gives a smaller string, whatever the random bytes |
| Uuid.VersionAndVariant | src/lib/id.ts:29-33 | 36 characters, dashes in place, version digit 7, variant digit 8, 9, a or b (sections 4.1, 4.2 and 5.7 of RFC 9562) |
| Uuid.SameIdIff | src/lib/id.ts:19-30 | Two ids agree exactly when the times agree in 48 bits and the random bytes in the 74 bits left to them, byte by byte |
| Money.FormatReads | src/ui/booking-panel.tsx:490-495 | For every integer the text reads back as the amount and has a sign, a first group of one to three digits, groups of three, a comma and two digits |
| Html.OnePass | src/server/delivery/email-template.ts:36-43 | The five replacements in sequence equal one map over the characters, to the five named entities |
| Html.UnescapeInverts | src/server/delivery/email-template.ts:36-43 | Decoding the five entities gives the text back |
| Html.NothingRaw | src/server/delivery/email-template.ts:36-43 | No raw `<`, `>`, `"` or `'` remains |

## Left out

- React components, hooks, styles and translations; only the named functions of the `.tsx` files are modelled.
- SHA-256 and the request hash are injective functions of their input; argon2, HMAC and the quality of random bytes are not modelled.
- SQL text, networking and JSON: statements are steps on tables, a migration script is an opaque effect that may fail.
- `decodeURIComponent` is a total function parameter: a malformed escape, which makes `match` throw, is not modelled.
- Concurrent nested transactions inside one task, and concurrent outermost calls on the PGlite adapter, whose counter is documented as serial-only.
- Savepoints.Step: the database is the sequence of statements in effect, so locks, isolation levels and broken connections are not modelled; ROLLBACK and a legal ROLLBACK TO are never refused.
- Interleaving.EndsAsAlone: what other transactions commit is seen only when a call starts, as the data its connection is shown; how the server merges concurrent work is not modelled.
- Idempotency.HandlersExclude: rate limiting, authentication, authorization and validation are one step that may reject before the key is claimed.
- IdempotencyStore.RecordTable.Dispatch: a process that dies is a step of `Idempotency` only, and other dispatches appear as arbitrary lists of statements between its own; their full interleaving is in `Idempotency`.
- Migrator.LoadMigrations: the file system is a listing and a map from names to contents; progress callbacks and the list of files already applied are left out.
- QrMatrix.Encode: UTF-8 encoding of the text is left out, the input is its bytes; error correction is not claimed to conform to section 7.5 of ISO/IEC 18004:2015 (the code uses one block of 16 words), nor that a scanner reads the symbol.
- RateLimit.ExactlyTheLimit: limit and window belong to the bucket name, and a sweep is dated at most a bounded lag later than any request whose upsert follows it (the delay before the upsert included).
- RateLimit.CounterTable.PruneRateLimitCounters: the horizon is a parameter; both call sites use 24 hours.
- Money.FormatReads: inputs that are not the decimal text of an integer are not considered.
- Digest.DigestsDiffer: texts that differ in more than one code unit may collide, as with any 32-bit digest.
- Pricing, the booking state machine, completion, RBAC tables, OpenAPI output and database validation: finite tables or one-branch facts.
- The listing wizard's autosave, and `humanReference`.
