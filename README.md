# Record ingestion: a Dafny model

This project models the ingestion core of a small banking back end. Two CSV files are parsed into records: customers and accounts. Each file is cut into jobs of consecutive records. A chunk worker runs each job: it scans the file with a running 1-based counter and checks every in-range record with a fixed sequence of validators. Each accepted record is inserted into a database. The customer file is ingested first because an account is accepted only when its customer id is already committed.

The model has these parts:

- **Validators and codes** (`AccountMethods`, `CustomerMethods`, `AccountTypes`):
  - the account-number pattern `0\d{21}`;
  - the account-type check;
  - balance ≤ limit;
  - the national-id check, which decrypts and then matches `[0-9]{10}`;
  - the birth-year check (after 1995);
  - the one-character code under which an account type is stored.
- **Job partition** (`Scheduling`): the loop of `readAccountFile` and `readCustomerFile` that gives job *i* the records `i*K+1 … i*K+K`. It is a method on a `Scheduler` object whose job list grows. Lemmas prove that the ranges are ascending, adjacent and pairwise disjoint, and that together they cover exactly `[1, N*K]`.
- **Domain objects** (`AccountsImpl`, `CustomersImpl`): classes whose fields the setters overwrite. A validating `Create` method succeeds exactly when its checks pass and otherwise reports the first failing check.
- **The sink** (`Sink`): the database behind the shared JDBC connection, seen as:
  - the set of committed customer ids;
  - the inserted customer rows;
  - the inserted account rows;
  - a fault oracle that says when a statement throws `SQLException`.
- **The three chunk workers**:
  - `AccountCsvThread`;
  - `CustomerCsvThread` of package `Threads`, which encrypts the national id before validating and storing it;
  - `UtilityCustomerCsvThread` (the `CustomerCsvThread` of package `utility`), which validates and stores column 6 as it stands.

  Each worker is an imperative `Execute` method with the source's `continue`/`break` loop. It is proved equal to a functional scan, `Chunk.ScanFrom`. The properties are stated against a reference description (`Chunk.Accepted`): the rows of the accepted records of the job's window, in source order, up to the first record that throws. A chunk always writes a prefix of those rows. When it finishes normally it writes all of them, and with a sink that never fails the result is exact.
- **The run** (`Pipeline`): jobs are executed one after another; customers first, then accounts. All the jobs of an N×K partition finish iff one scan over records 1 to N·K finishes, and when all of them finish they leave the database that scan leaves. When a job aborts, the later jobs still run from the state it left, while the single scan would have stopped.

External pieces are parameters:

- The CSV file is an `Option<seq<Record>>`. `None` means the file cannot be opened (`IOException`).
- Jasypt's text encryptor is a `Crypto.Cipher` with an encryption function and a partial decryption. Lemmas that need decryption to invert encryption say so with `RoundTrips(c)`.
- `Integer.parseInt` and `LocalDate.parse` are written out as partial functions (`JavaLib.ParseInt`, `JavaLib.ParseDate`) over ASCII digits. Java's 32-bit `int` is modelled by `JavaLib.Int32`.

Notable behaviours of the code, which the model keeps:

- **Unknown account type.** A type token that names no variant ends the chunk. `AccountType.valueOf` throws `IllegalArgumentException`, which the handler at `Threads/AccountCsvThread.java:127` does not catch (`AccountCsvThread.UnknownTypeAborts`). The `validateAccountType` check after it can never fail.
- **Balance limit.** The account worker checks the balance against column 4 of the record and stores that value as the limit (`AccountCsvThread.AccountVerdictAccept`). Only the `AccountsImpl` constructor uses the constant 10000.
- **Persistence errors.** The `SQLException` handler sits outside the record loop. The first statement that throws therefore ends the rest of the chunk; the worker does not go on with the next record (`Chunk.ScanWritesAccepted`).
- **Malformed fields.** `NumberFormatException`, `DateTimeParseException` and `IndexOutOfBoundsException` are not caught, so a malformed number or date, or a missing column, ends the chunk as well. `Chunk.Caught` lists the two exceptions the workers do catch.
- **National-id unit tests.** `CustomerMethodTest.java` and `CustomertMethodTest.java` pass a plaintext id to `validateCustomerNationalID`, which decrypts its argument. An undecryptable argument makes the validator throw (`CustomerMethods.ValidateNationalId` returns `None`).

## Model

| member | source | states |
|---|---|---|
| JavaLib.Int32 | src/main/java/utility/AccountMethods.java:62-64 | Java `int` arithmetic: the result is in the 32-bit range, congruent to the exact value modulo 2^32, and equal to it when it fits |
| JavaLib.MatchesDigitsIff | src/main/java/utility/AccountMethods.java:125 | a string matches `\d{n}` (whole-string match) iff it has length n and every character is an ASCII digit |
| JavaLib.ParseInt | src/main/java/Threads/AccountCsvThread.java:90 | `Integer.parseInt` yields only values in the 32-bit range; anything else is a NumberFormatException (None) |
| JavaLib.ParseIntOfToString | src/main/java/Threads/AccountCsvThread.java:90 | parsing the decimal form of any `int` gives that `int` back |
| JavaLib.ParseDate | src/main/java/Threads/AccountCsvThread.java:114 | `LocalDate.parse` accepts only real calendar dates (month lengths, leap years) with a 4-digit year |
| JavaLib.ParseDateOfFormat | src/main/java/Threads/AccountCsvThread.java:114 | parsing the ISO `YYYY-MM-DD` form of any calendar date gives that date back |
| AccountTypes.Code | src/main/java/model/AccountType.java:37-39 | `toString` yields a one-character code between '1' and '3' |
| AccountTypes.CodeValues | src/main/java/model/AccountType.java:13-17 | SAVINGS, RECURRINGDEPOSIT and FIXEDDEPOSITACCOUNT have the codes "1", "2" and "3" |
| AccountTypes.CodeInjective | src/main/java/model/AccountType.java:13-17 | two variants have the same code iff they are the same variant, so the stored code identifies the type |
| AccountTypes.ValueOf | src/main/java/Threads/AccountCsvThread.java:80 | `valueOf` returns only the constant whose name is the token |
| AccountTypes.ValueOfIff | src/main/java/Threads/AccountCsvThread.java:80 | `valueOf(s)` is variant t iff s is t's name; every other token throws |
| AccountMethods.ValidAccountNumberIff | src/main/java/utility/AccountMethods.java:123-126 | an account number is valid iff it has 22 characters, starts with '0' and the other 21 are ASCII digits |
| AccountMethods.ValidAccountNumber | src/main/java/utility/AccountMethods.java:123-126 | `validateAccountNumber`: the whole string matches `0\d{21}`; its closed form is `ValidAccountNumberIff` |
| AccountMethods.AccountNumberExamples | src/test/AccountMethodsTest.java:27 | the tested number "0440888451237986539873" is valid |
| AccountMethods.AccountNumberLeadingDigit | src/test/AccountMethodsTest.java:36 | the tested number "1440888451237986539873" is invalid |
| AccountMethods.ValidAccountTypeIff | src/main/java/utility/AccountMethods.java:134-137 | the type check holds for each of the three variants and fails for `null` |
| AccountMethods.ValidAccountType | src/main/java/utility/AccountMethods.java:134-137 | `validateAccountType`: the reference is one of the three constants, `null` fails; `ValidAccountTypeIff` proves every variant passes |
| AccountMethods.ValidAccountBalance | src/main/java/utility/AccountMethods.java:147-149 | `validateAccountBalance`: balance ≤ limit, equality passing, as `AccountBalanceExamples` checks |
| AccountMethods.AccountBalanceExamples | src/main/java/utility/AccountMethods.java:147-149 | balance 200 under limit 1000 passes, 1200 fails, and a balance equal to the limit passes |
| AccountMethods.ReadAccountFile | src/main/java/utility/AccountMethods.java:56-74 | the account jobs registered are exactly [1,5] and [6,10], as jobs 1 and 2 |
| Scheduling.Jobs | src/main/java/utility/AccountMethods.java:60-65 | the loop registers one job per iteration: max(n, 0) jobs |
| Scheduling.JobFor | src/main/java/utility/AccountMethods.java:62-65 | the job of iteration i: ordinal i+1, start `i*K+1` and end `start+K-1` in 32-bit arithmetic; `JobRange` gives the exact values without overflow |
| Scheduling.Scheduler.constructor | src/main/java/utility/AccountMethods.java:54 | a new scheduler has no jobs |
| Scheduling.Scheduler.ScheduleJob | src/main/java/utility/AccountMethods.java:74 | scheduling appends the job and keeps the earlier ones |
| Scheduling.ScheduleChunks | src/main/java/utility/AccountMethods.java:60-78 | after the loop the scheduler holds its earlier jobs followed by the jobs 0..n-1 of the formula, with 32-bit arithmetic |
| Scheduling.JobsAt | src/main/java/utility/AccountMethods.java:60-65 | job i of the list is the job the i-th iteration builds |
| Scheduling.JobRange | src/main/java/utility/AccountMethods.java:60-65 | without overflow, job i is ordinal i+1 with start i*K+1 and end i*K+K, so it holds exactly K records |
| Scheduling.JobsAdjacent | src/main/java/utility/AccountMethods.java:62-64 | each job ends right before the next one starts |
| Scheduling.JobsAscending | src/main/java/utility/AccountMethods.java:62-64 | the ranges are strictly ascending in registration order |
| Scheduling.JobsCover | src/main/java/utility/AccountMethods.java:56-64 | a record number lies in some job iff it is between 1 and N*K |
| Scheduling.JobsDisjoint | src/main/java/utility/AccountMethods.java:56-64 | no record number lies in two different jobs |
| Scheduling.DefaultJobs | src/main/java/utility/AccountMethods.java:56-58 | with 2 jobs of 5 records the ranges are [1,5] and [6,10] |
| CustomerMethods.ValidateNationalId | src/main/java/utility/CustomerMethods.java:107-113 | the validator throws iff the argument cannot be decrypted, and accepts iff its plaintext is exactly ten ASCII digits |
| CustomerMethods.TenDigits | src/main/java/utility/CustomerMethods.java:112 | the whole-string match of `[0-9]{10}`, equal to "ten ASCII digits" by `JavaLib.MatchesDigitsIff` |
| CustomerMethods.ValidateEncryptedId | src/main/java/Threads/CustomerCsvThread.java:101-103 | when decryption inverts encryption, an encrypted id passes iff the plaintext is ten ASCII digits |
| CustomerMethods.BirthDateOnlyYear | src/main/java/utility/CustomerMethods.java:121-123 | only the year decides: born in 1996 or later passes, 1995 fails; the tested dates 2015-10-12 and 1700-10-12 pass and fail |
| CustomerMethods.ValidBirthDate | src/main/java/utility/CustomerMethods.java:121-123 | `validateCustomerBirthDate`: the year is after 1995; `BirthDateOnlyYear` proves month and day never matter |
| CustomerMethods.ReadCustomerFile | src/main/java/utility/CustomerMethods.java:44-62 | the customer jobs registered are exactly [1,5] and [6,10], as jobs 1 and 2 |
| AccountsImpl.Account.Create | src/main/java/model/AccountsImpl.java:50-71 | construction succeeds iff the number is valid and balance ≤ 10000; an invalid number fails first whatever the balance; on success every field holds its argument |
| AccountsImpl.Account.GetAccountLimit | src/main/java/model/AccountsImpl.java:111-113 | the limit is always 10000 |
| AccountsImpl.Account.ToString | src/main/java/model/AccountsImpl.java:139-142 | the text of an account is its number |
| AccountsImpl.HighBalance | src/main/java/model/AccountsImpl.java:79-82 | the predicate `getPredicateAccountBalance` returns: balance strictly above 1000, an account at exactly 1000 excluded |
| AccountsImpl.Account.SetAccountNumber | src/main/java/model/AccountsImpl.java:89-91 | only the number changes, and it is not validated |
| AccountsImpl.Account.SetAccountType | src/main/java/model/AccountsImpl.java:98-100 | only the type changes |
| AccountsImpl.Account.SetAccountCustomerId | src/main/java/model/AccountsImpl.java:107-109 | only the customer id changes |
| AccountsImpl.Account.SetAccountOpenDate | src/main/java/model/AccountsImpl.java:120-122 | only the open date changes |
| AccountsImpl.Account.SetAccountBalance | src/main/java/model/AccountsImpl.java:129-131 | only the balance changes; a balance above 10000 is stored and the construction invariant is lost |
| CustomersImpl.Customer.Create | src/main/java/model/CustomersImpl.java:51-72 | construction succeeds iff the national id and the birth date pass; the id is checked first (or its decryption throws); on success every field holds its argument |
| CustomersImpl.Customer.ToString | src/main/java/model/CustomersImpl.java:151-155 | the text is the name, one space, then the surname |
| CustomersImpl.Customer.SetCustomerId | src/main/java/model/CustomersImpl.java:81-83 | only the id changes |
| CustomersImpl.Customer.SetCustomerName | src/main/java/model/CustomersImpl.java:91-93 | only the name changes |
| CustomersImpl.Customer.SetCustomerSurName | src/main/java/model/CustomersImpl.java:101-103 | only the surname changes |
| CustomersImpl.Customer.SetCustomerAddress | src/main/java/model/CustomersImpl.java:111-113 | only the address changes |
| CustomersImpl.Customer.SetCustomerZipCode | src/main/java/model/CustomersImpl.java:121-123 | only the zip code changes |
| CustomersImpl.Customer.SetCustomerNationalId | src/main/java/model/CustomersImpl.java:130-132 | only the national id changes, and it is not validated |
| CustomersImpl.Customer.SetCustomerBirthDate | src/main/java/model/CustomersImpl.java:138-140 | only the birth date changes; a year up to 1995 is stored and the customer is then valid under no cipher |
| Sink.QueryCustomerId | src/main/java/repository/DatabaseMethods.java:80-89 | the existence query throws exactly when the fault oracle says so, and otherwise answers whether the id is committed |
| Sink.InsertCustomer | src/main/java/repository/DatabaseMethods.java:46-71 | the customer insert either throws, or appends the row and commits its id, leaving the accounts alone |
| Sink.InsertAccount | src/main/java/repository/DatabaseMethods.java:102-126 | the account insert either throws, or appends the row, leaving the customers and their ids alone |
| Sink.Store.constructor | src/main/java/repository/DatabaseMethods.java:51 | the store starts from the given database state and fault oracle |
| Sink.Store.CustomerIdIsExist | src/main/java/repository/DatabaseMethods.java:80-89 | the answer is the query's, and the state is unchanged |
| Sink.Store.WriteCustomer | src/main/java/repository/DatabaseMethods.java:46-71 | success iff the insert does not throw; the new state is the insert's, or the old state on failure |
| Sink.Store.WriteAccount | src/main/java/repository/DatabaseMethods.java:102-126 | success iff the insert does not throw; the new state is the insert's, or the old state on failure |
| Chunk.Field | src/main/java/Threads/AccountCsvThread.java:70 | `record.get(k)` throws iff the record has no column k, and otherwise gives column k |
| Chunk.IntField | src/main/java/Threads/AccountCsvThread.java:90 | reading an int column succeeds iff the column exists and parses, and gives the parsed value |
| Chunk.DateField | src/main/java/Threads/AccountCsvThread.java:114 | reading a date column succeeds iff the column exists and parses, and gives the parsed date |
| Chunk.ScanFrom | src/main/java/Threads/AccountCsvThread.java:60-121 | the reference loop: from record index i, skip records numbered below start, stop after end, and run the step on each other record until one throws; each worker's `Execute` is proved equal to it |
| Chunk.RunChunk | src/main/java/Threads/AccountCsvThread.java:53-134 | a whole chunk: an unopenable file aborts with IOException before any record, otherwise `ScanFrom` from the first record |
| Chunk.WindowAt | src/main/java/Threads/AccountCsvThread.java:60-69 | a job's window is exactly the records numbered from max(start, 1) to min(end, length), in order |
| Chunk.WindowBound | src/main/java/Threads/AccountCsvThread.java:60-69 | a job handles at most end − start + 1 records |
| Chunk.Accepted | src/main/java/Threads/AccountCsvThread.java:61-121 | at most one row per record of the window |
| Chunk.ScanWritesAccepted | src/main/java/Threads/AccountCsvThread.java:53-133 | for any worker that agrees with a verdict except for sink faults: a chunk writes a prefix of the accepted rows of its window, in source order; a chunk that finishes normally wrote all of them and met no throwing record |
| Chunk.ScanWithoutFaults | src/main/java/Threads/AccountCsvThread.java:60-121 | with a sink that never fails, a chunk writes exactly the accepted rows and ends with the exception of the first throwing record, if any |
| Chunk.ChunksCompose | src/main/java/Threads/AccountCsvThread.java:60-69 | running [a, b] and then [b+1, c] from the state the first left is the same as running [a, c], when the first finishes |
| AccountCsvThread.ReadHead | src/main/java/Threads/AccountCsvThread.java:70-90 | the head is read only when the number is valid; it carries column 1, the type that column 2 names, and column 3 parsed |
| AccountCsvThread.ReadTail | src/main/java/Threads/AccountCsvThread.java:102-118 | a row is built only when limit and balance parse, balance ≤ limit and the date parses; the row holds the number, the type's code, the customer id, the limit from column 4, the date and the balance |
| AccountCsvThread.AccountStep | src/main/java/Threads/AccountCsvThread.java:70-118 | the reference loop body: read the head, query the customer (throw, skip or go on), read the tail, insert; `ProcessRecord` is proved equal to it and `AccountVerdictAccept` gives its closed form |
| AccountCsvThread.ProcessRecord | src/main/java/Threads/AccountCsvThread.java:70-118 | one pass of the loop body takes exactly the step of the reference function; when it throws the database is unchanged |
| AccountCsvThread.Execute | src/main/java/Threads/AccountCsvThread.java:45-134 | the worker's final database and outcome are those of the reference scan of its job's range |
| AccountCsvThread.AccountVerdictAccept | src/main/java/Threads/AccountCsvThread.java:70-118 | a record is accepted iff the number is valid, the type names a variant, the customer is committed, balance ≤ limit (column 4) and every field read parses; the row is (col1, code of col2, col3, col4, col5 as a date, col6) |
| AccountCsvThread.InvalidNumberSkips | src/main/java/Threads/AccountCsvThread.java:72-78 | an invalid number skips the record without reading other columns and without querying, whatever the sink does |
| AccountCsvThread.UnknownTypeAborts | src/main/java/Threads/AccountCsvThread.java:80 | a type token that names no variant ends the chunk with an exception the worker does not catch |
| AccountCsvThread.UnknownCustomerSkips | src/main/java/Threads/AccountCsvThread.java:92-99 | an uncommitted customer skips the record before limit, balance or date is read |
| AccountCsvThread.OverLimitSkips | src/main/java/Threads/AccountCsvThread.java:105-112 | a balance above the record's limit skips the record before the open date is parsed |
| AccountCsvThread.AccountStepRefines | src/main/java/Threads/AccountCsvThread.java:70-133 | the worker's step is the verdict's step, except that the query or the insert may throw |
| AccountCsvThread.AccountStepClean | src/main/java/Threads/AccountCsvThread.java:70-118 | with a sink that never fails, the step is exactly the verdict's |
| AccountCsvThread.AccountChunkWrites | src/main/java/Threads/AccountCsvThread.java:60-133 | an account chunk leaves customers and ids alone and appends to the accounts a prefix of its accepted rows, at most one per in-range record; all of them when it finishes |
| AccountCsvThread.AcceptedAccountsValid | src/main/java/Threads/AccountCsvThread.java:72-118 | every writable account row has a valid number, a committed customer, balance ≤ its limit and a type code among "1", "2", "3" |
| AccountCsvThread.AccountChunkWithoutFaults | src/main/java/Threads/AccountCsvThread.java:60-121 | with a sink that never fails, an account chunk appends exactly its accepted rows |
| CustomerRecords.ReadCustomerHead | src/main/java/Threads/CustomerCsvThread.java:85-95 | columns 1 to 6 are read iff the record has them and columns 1 and 5 parse; the head holds them unchanged |
| CustomerRecords.CheckCustomer | src/main/java/Threads/CustomerCsvThread.java:103-124 | a row is built only when the id passes the validator and the date parses with a year after 1995; a failing id skips and an undecryptable one throws, before the date is read |
| CustomerRecords.CustomerStep | src/main/java/Threads/CustomerCsvThread.java:121-136 | the reference loop body after a record is read and checked: skip, insert (which may throw), or end with the exception, as `CustomerStepRefines` relates to the verdict |
| CustomerRecords.CustomerStepRefines | src/main/java/Threads/CustomerCsvThread.java:121-136 | the step is the verdict's step except that the insert may throw; with a sink that never fails it is exactly the verdict's |
| CustomerRecords.CustomerChunkWrites | src/main/java/Threads/CustomerCsvThread.java:72-136 | a customer chunk leaves the accounts alone, appends a prefix of its accepted rows in source order and commits their ids; all of them when it finishes |
| CustomerRecords.CustomerChunkWithoutFaults | src/main/java/Threads/CustomerCsvThread.java:72-130 | with a sink that never fails, a customer chunk appends exactly its accepted rows |
| CustomerCsvThread.ProcessRecord | src/main/java/Threads/CustomerCsvThread.java:85-124 | one pass of the loop body takes exactly the step of the reference function; when it throws the database is unchanged |
| CustomerCsvThread.ReadCustomer | src/main/java/Threads/CustomerCsvThread.java:85-124 | read columns 1 to 6, encrypt column 6, validate that ciphertext and the birth date; its closed form is `CustomerAccept` |
| CustomerCsvThread.Execute | src/main/java/Threads/CustomerCsvThread.java:53-138 | the worker's final database and outcome are those of the reference scan of its job's range |
| CustomerCsvThread.CustomerAccept | src/main/java/Threads/CustomerCsvThread.java:85-124 | when decryption inverts encryption, a record is accepted iff its columns parse, the plaintext id is ten ASCII digits and the birth year is after 1995; the row holds columns 1–5 unchanged, the encrypted id and the date |
| CustomerCsvThread.IdCheckedBeforeDate | src/main/java/Threads/CustomerCsvThread.java:103-111 | a plaintext id that is not ten digits skips the record whatever column 7 holds, even when it is missing |
| CustomerCsvThread.NoDecryptionFailure | src/main/java/Threads/CustomerCsvThread.java:101-103 | the validator never throws on an id this worker has just encrypted |
| CustomerCsvThread.AcceptedRowEncrypted | src/main/java/Threads/CustomerCsvThread.java:101-124 | an accepted record's stored id is the encryption of a ten-digit plaintext and its birth year is after 1995 |
| CustomerCsvThread.StoresCiphertext | src/main/java/Threads/CustomerCsvThread.java:101-118 | an accepted record stores `encrypt(col6)`; when encryption changes every string, the stored id differs from column 6 |
| CustomerCsvThread.AcceptedCustomersEncrypted | src/main/java/Threads/CustomerCsvThread.java:101-124 | every row this worker can write stores the encryption of a ten-digit id, rather than column 6, and a birth year after 1995 |
| UtilityCustomerCsvThread.ProcessRecord | src/main/java/utility/CustomerCsvThread.java:88-121 | one pass of the loop body takes exactly the step of the reference function; when it throws the database is unchanged |
| UtilityCustomerCsvThread.ReadRawCustomer | src/main/java/utility/CustomerCsvThread.java:88-121 | read columns 1 to 6, validate column 6 as it stands and the birth date; its closed form is `RawCustomerAccept` |
| UtilityCustomerCsvThread.Execute | src/main/java/utility/CustomerCsvThread.java:50-133 | the worker's final database and outcome are those of the reference scan of its job's range |
| UtilityCustomerCsvThread.RawCustomerAccept | src/main/java/utility/CustomerCsvThread.java:88-121 | a record is accepted iff its columns parse, column 6 decrypts to ten ASCII digits and the birth year is after 1995; the row holds columns 1–6 unchanged and the date |
| UtilityCustomerCsvThread.UndecryptableIdAborts | src/main/java/utility/CustomerCsvThread.java:98-100 | a column 6 that cannot be decrypted ends the chunk with an exception the worker does not catch |
| UtilityCustomerCsvThread.RawIdCheckedBeforeDate | src/main/java/utility/CustomerCsvThread.java:100-108 | a column 6 the validator rejects skips the record before column 7 is read |
| UtilityCustomerCsvThread.RawOnCiphertext | src/main/java/utility/CustomerCsvThread.java:98-121 | when decryption inverts encryption, on a record whose column 6 is any ciphertext y of the plaintext id, this worker skips, throws or accepts exactly as the encrypting worker does on the plaintext record, and an accepted row is that worker's row with y as its id |
| UtilityCustomerCsvThread.AcceptedRawCustomersValid | src/main/java/utility/CustomerCsvThread.java:100-121 | every row this worker can write has an id the validator accepts and a birth year after 1995 |
| Pipeline.PrefixFinishes | src/main/java/Threads/AccountCsvThread.java:64-69 | a scan that finishes over [a, c] also finishes over any shorter [a, b] |
| Pipeline.RunJobs | src/main/java/utility/AccountMethods.java:60-84 | the scheduled jobs run one after another, each from the state the previous one left, collecting their outcomes |
| Pipeline.JobsAsOneScan | src/main/java/utility/AccountMethods.java:60-64 | the N jobs of K records all finish iff one scan of records 1..N*K finishes, and then they leave the same database |
| Pipeline.Ingest | src/main/java/Main.java:36-44 | `main`: the two customer jobs over the customer file, then the two account jobs over the account file from the state they left |
| Pipeline.IngestSeparatesTables | src/main/java/Main.java:36-44 | the customer stage never writes accounts, and the account stage never writes customers or their ids |
| Pipeline.IngestWithoutFaults | src/main/java/Main.java:36-44 | with a sink that never fails and every job finishing, the run inserts exactly the accepted customers of records 1–10, then exactly the accepted accounts of records 1–10, checked against the ids committed before plus the customers just inserted |

## Left out

- Quartz scheduling, the 60-second sleep and `shutdown(true)` in `readAccountFile` and `readCustomerFile` are concurrency and wall-clock time. The model runs the jobs of a stage one after the other (`Pipeline.RunJobs`). It does not model two jobs of one stage interleaving on the shared connection.
- `MonitoringThread` only logs job lifecycle events, so it is not modelled.
- Logging and `System.out` output are not modelled.
- `ConfigLoader` and the encryption password are folded into the given `Cipher`.
- Jasypt's random salt, which gives one plaintext many ciphertexts, is not modelled: encryption is a function, so each plaintext has one ciphertext. `UtilityCustomerCsvThread.RawOnCiphertext` is stated for every ciphertext of the plaintext, so it does not rely on this.
- The fault oracle is a function of the database state and the statement. A statement that fails once fails again when repeated on an unchanged database, so a transient failure that goes away on retry is not modelled. No proved property depends on this.
- The JDBC connection, `SingleTon` and the SQL strings become the `Sink` state and its fault oracle; the SQL text and the table schema are not modelled. A duplicate key, for example, is one of the faults the oracle may report.
- `Integer.parseInt`: the model accepts only ASCII digits with an optional sign, not the other Unicode digits Java also accepts.
- `LocalDate.parse`: the model accepts only `YYYY-MM-DD` with an unsigned four-digit year, 0000–9999. Java also accepts signed years: '-' followed by four or more digits, or '+' followed by five or more. A record with such a date makes the model's chunk end with `DateTimeParseException`, where Java parses it (a customer born in year -2000 is then skipped by the birth-date check).
- A `null` account number or date given to a constructor or validator (a `NullPointerException` in Java) is not modelled; strings and dates are never null here. `null` is modelled only for the account-type check (`ValidAccountType(None)`).
- The no-argument `CustomersImpl()` constructor and the getters are not separate members: the getters return fields, which the `Create` and setter contracts state.
- The report writers, `Main2`, `Main3` and the report query re-use the validated constructors and serialise output. They are not part of this model.
- The workers' `currentIndex` is an `int` that would wrap after 2^31 records; the model's counter is unbounded.
- `AccountTypes.ValueOf` (and so `ReadHead`) is whole-string and case-sensitive, as `Enum.valueOf` is. A `null` token is not modelled.
- `Scheduling.ScheduleChunks`: the job names and triggers built for each job are not modelled; only the kind, the ordinal and the range are.
- `CustomerCsvThread.AcceptedCustomersEncrypted`: its ciphertext property assumes decryption inverts encryption (`RoundTrips`). For an arbitrary cipher, only the weaker validator-level statement of `CustomerRecords.CheckCustomer` holds.
