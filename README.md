# Workload execution engine of the driver benchmarks

The repository benchmarks database drivers against ScyllaDB. Each benchmark variant
reads a configuration. A pool of workers then processes the primary keys (pks)
`0 .. tasks-1`:

- Inserts writes the row `(pk, 2*pk, 3*pk)`.
- Selects reads the row back and checks it.
- Mixed does the insert and then the select of the same pk.

The variants share this logic but differ in three ways:

- how the configuration is read;
- how the pks are split into batches among the workers;
- what happens when a row check fails.

This project models that shared engine, variant by variant, on an abstract table
`map<int, (int, int)>` that stands in for the database. It says what each variant
computes, proves it, and proves the properties the code relies on.

- **Configuration** (`config_common.dfy`, `cpp_config.dfy`, `scylla_cpp_config.dfy`,
  `cassandra_cpp_config.dfy`, `cdrs_tokio_config.dfy`, `rust_basic_config.dfy`,
  `gocql_config.dfy`, `java_config.dfy`).
  - The C++ argument loops are imperative methods proved equal to a recursive reference
    parser. Lemmas about that parser cover defaults, help, a missing value, an unknown
    flag, an invalid workload and last-wins.
  - The Rust readers start from the options that getopts produced (`parsed_options.dfy`).
  - The Go reader starts from the values the flag package produced.
  - The Java constructor is a class whose fields the option handling overwrites.
  - All variants share one batch-size rule (`Batching.DeriveBatchSize`), with C's truncating
    division (`numeric.dfy`). Address lists are split as C++ and Rust split them and as
    Java's `String.split` does (`text.dfy`, `java_addresses.dfy`).
- **Per-pk executor** (`executor.dfy`): the insert/select step and the ascending pk loop of a
  batch, which stops at the first correctness fault. A fault is a missing row or a wrong row.
- **Batch allocation.**
  - `task_cursor.dfy`: a `Cursor` class for the shared counter, for fetch-and-add (returns
    the old value) and add-and-get (returns the new value).
  - `worker_pool.dfy`: a pool of workers driven by an arbitrary schedule of atomic pulls.
  - `async_main.dfy`: the static partition of the asynchronous Java benchmark.
  - `stride_main.dfy`: the semaphore-gated stride loop of the basic Rust benchmark.
- **Benchmark mains.**
  - `fetch_add_mains.dfy`: scylla-rust-driver, cassandra-cpp and cdrs-tokio.
  - `post_add_mains.dfy`: gocql, java-driver-3.x and java-driver-4.x.
  - `async_main.dfy`: java-driver-3.x-async.
  - `stride_main.dfy`: the basic Rust benchmark.
  - `callback_engine.dfy`: the C++ callback state machine. It is an `Engine` class over an
    `array` of per-worker records. Every callback is an atomic step, chosen by a schedule.
    A ghost ownership map gives each pending pk exactly one worker. A work measure shows
    that the main thread's wait loop ends. The result is that every pk of `[0, tasks)`
    is done exactly once, whatever the schedule.
  - `benchmark.dfy`: the verdict type these modules share.

Provisioning (DROP/CREATE KEYSPACE and TABLE) empties the table. A later pre-population
fills it for a Selects run.

## Model

| member | source | states |
|---|---|---|
| Workloads.FromName | benchmarks/basic/cpp/source/config.hpp:58-72 | a workload name is accepted exactly when it is "inserts", "selects" or "mixed", and the workload returned is the one so spelled |
| Workloads.NameRoundTrip | benchmarks/basic/cassandra-cpp/source/src/config.rs:69-80 | each workload is recognised from its own name and from no other string |
| Workloads.FromConstantName | benchmarks/basic/java-driver-3.x-async/source/src/main/java/Config.java:46-49 | `Workload.valueOf` succeeds exactly on the constant names "Inserts", "Selects", "Mixed" |
| Workloads.ConstantNamesAreCaseSensitive | benchmarks/basic/java-driver-3.x-async/source/src/main/java/Config.java:48 | the Java constant names and the lower-case command-line names are disjoint: neither reader accepts the other's spelling |
| Batching.DeriveBatchSize | benchmarks/basic/cpp/source/config.hpp:98-102 | the rule divides by zero exactly when concurrency is 0 and tasks <= -256; otherwise the batch size is at least 1 |
| Batching.BatchSizeBounds | benchmarks/basic/cpp/source/config.hpp:98-102 | for tasks >= 0 and concurrency > 0 the batch size lies in [1, 256] |
| Batching.EnoughBatchesForWorkers | benchmarks/basic/cpp/source/config.hpp:100-101 | the shrunk batch size leaves ceil(tasks / batch_size) >= min(concurrency, tasks) batches, so every worker can get work |
| Batching.BatchSizeExample | benchmarks/basic/gocql/source/config.go:72-84 | 1000 tasks over 10 workers give batches of 100; the defaults give 256; 100 tasks over 1000 workers give 1 |
| Numeric.TruncDiv | benchmarks/basic/cpp/source/config.hpp:100-101 | integer division truncates toward zero: the remainder has the dividend's sign and is smaller than the divisor in magnitude |
| Numeric.Max | benchmarks/basic/gocql/source/config.go:74-80 | the result is one of the arguments and at least both |
| Numeric.Min | benchmarks/basic/gocql/source/main.go:142-147 | the result is one of the arguments and at most both |
| Numeric.StrToLL | benchmarks/basic/cpp/source/config.hpp:80 | `strtoll` always yields a value inside the int64 range (it saturates) |
| Numeric.StrToLLRoundTrip | benchmarks/basic/cpp/source/config.hpp:87-88 | every int64 written in canonical decimal reads back as itself |
| Numeric.ParseDecimal | benchmarks/basic/cassandra-cpp/source/src/config.rs:82-83 | a strict parse only ever yields a value inside the requested bounds |
| Numeric.ParseDecimalRoundTrip | benchmarks/basic/java-driver-3.x-async/source/src/main/java/Config.java:51-57 | every canonical decimal within the bounds parses back to its value |
| Numeric.ParseDecimalOutOfRange | benchmarks/basic/java-driver-3.x-async/source/src/main/java/Config.java:51-53 | a canonical decimal outside the bounds is rejected |
| Numeric.NonNumericText | benchmarks/basic/cpp/source/config.hpp:80 | text that is not a number is a parse error for the strict parse but reads as 0 for `strtoll` |
| Text.Split | benchmarks/basic/scylla-cpp-driver/source/config.hpp:48-56 | the split has one more segment than the text has separators, and no segment contains the separator |
| Text.JoinSplit | benchmarks/basic/scylla-cpp-driver/source/config.hpp:47-58 | joining the segments with the separator reproduces the input |
| Text.SplitJoin | benchmarks/basic/cassandra-cpp/source/src/config.rs:67 | splitting a join of separator-free segments gives those segments back |
| Text.DropTrailingEmpty | benchmarks/basic/java-driver-3.x-async/source/src/main/java/Config.java:43 | the result is a prefix of the list that ends in a non-empty segment, and only empty segments were removed |
| Text.JavaSplitIsTrimmedSplit | benchmarks/basic/java-driver-3.x-async/source/src/main/java/Config.java:43 | Java's split is the full split up to its last non-empty segment |
| ParsedOptions.GetString | benchmarks/basic/cassandra-cpp/source/src/config.rs:65 | an absent option gives the default and a present one its value |
| ParsedOptions.GetInt | benchmarks/basic/cassandra-cpp/source/src/config.rs:82-83 | an absent number gives the default; a present one gives exactly the int64 value its text spells when it parses, and otherwise an error naming the text |
| ParsedOptions.GetIntRoundTrip | benchmarks/basic/cdrs-tokio/source/src/config.rs:80-81 | a number written on the command line reads back as that number |
| CppConfig.ReadConfig | benchmarks/basic/cpp/source/config.hpp:24-103 | the argument index loop and the batch-size step yield exactly the reference parse: a config, help, or the error that exits |
| CppConfig.NoArguments | benchmarks/basic/cpp/source/config.hpp:25-29 | with no arguments the config is "scylla", Mixed, 1,000,000 tasks, concurrency 256, batch size 256, prepare on |
| CppConfig.PrefixComposes | benchmarks/basic/cpp/source/config.hpp:31-96 | a prefix that parses leaves the index exactly at its end, so the loop continues from there with the fields the prefix set |
| CppConfig.HelpStopsParsing | benchmarks/basic/cpp/source/config.hpp:33-36 | `-h`/`--help` in flag position ends in Help, whatever follows it |
| CppConfig.MissingValue | benchmarks/basic/cpp/source/config.hpp:45-48 | a value-taking flag in last position is an error naming the flag |
| CppConfig.UnknownFlag | benchmarks/basic/cpp/source/config.hpp:94-95 | an unknown flag with a value after it is an error naming it; in last position it is reported as a missing value |
| CppConfig.InvalidWorkloadName | benchmarks/basic/cpp/source/config.hpp:58-72 | a workload value other than the three names is an error naming that value |
| CppConfig.TrailingOptionWins | benchmarks/basic/cpp/source/config.hpp:51-92 | a later option replaces the field an earlier one set and changes no other field |
| CppConfig.NoPrepareFlag | benchmarks/basic/cpp/source/config.hpp:39-43 | `-n` sets no_prepare and nothing else |
| CppConfig.RepeatedTasks | benchmarks/basic/cpp/source/config.hpp:79-84 | of two `-t` options the second decides the task count |
| CppConfig.ConfigBatchSize | benchmarks/basic/cpp/source/config.hpp:98-102 | a parsed config with tasks >= 0 and concurrency > 0 has a batch size in [1, 256] |
| ScyllaCppConfig.SplitNodes | benchmarks/basic/scylla-cpp-driver/source/config.hpp:48-56 | the character loop yields the full ','-split: one segment more than commas, empty ones kept, joining back to the value |
| ScyllaCppConfig.ReadConfig | benchmarks/basic/scylla-cpp-driver/source/config.hpp:26-110 | the loop and the batch-size step yield exactly the reference parse, which is never Help |
| ScyllaCppConfig.NeverHelp | benchmarks/basic/scylla-cpp-driver/source/config.hpp:33-103 | there is no help flag: no argument vector yields Help |
| ScyllaCppConfig.NoArguments | benchmarks/basic/scylla-cpp-driver/source/config.hpp:27-31 | with no arguments the config is ["127.0.0.1"], Inserts, 1,000,000 tasks, concurrency 1024, batch size 256, prepare on |
| ScyllaCppConfig.PrefixComposes | benchmarks/basic/scylla-cpp-driver/source/config.hpp:33-103 | a prefix that parses leaves the index exactly at its end |
| ScyllaCppConfig.NodesOption | benchmarks/basic/scylla-cpp-driver/source/config.hpp:47-62 | `--nodes v` replaces the node list by the segments of v (commas + 1 of them, joining back to v) and changes nothing else |
| ScyllaCppConfig.TrailingEmptySegmentKept | benchmarks/basic/scylla-cpp-driver/source/config.hpp:48-56 | "a," gives ["a", ""] |
| ScyllaCppConfig.MissingValue | benchmarks/basic/scylla-cpp-driver/source/config.hpp:41-44 | any flag other than `-d` in last position is an error naming it |
| ScyllaCppConfig.UnknownFlag | benchmarks/basic/scylla-cpp-driver/source/config.hpp:101-102 | an unknown flag, `-h` included, is an error naming it |
| ScyllaCppConfig.InvalidWorkloadName | benchmarks/basic/scylla-cpp-driver/source/config.hpp:65-79 | a workload value other than the three names is an error naming that value |
| ScyllaCppConfig.DontPrepareOneSlot | benchmarks/basic/scylla-cpp-driver/source/config.hpp:35-39 | `-d` sets dont_prepare and consumes one slot, so the next argument is read as a flag |
| CassandraCppConfig.HelpGivesNoConfig | benchmarks/basic/cassandra-cpp/source/src/config.rs:60-63 | a help request yields no configuration (not an error), whatever else is given |
| CassandraCppConfig.NoOptionsDefaults | benchmarks/basic/cassandra-cpp/source/src/config.rs:65-91 | with no options the config is ["scylla"], Inserts, 1,000,000 tasks, concurrency 1024, batch size 256, dont_prepare false |
| CassandraCppConfig.ReadSucceeds | benchmarks/basic/cassandra-cpp/source/src/config.rs:60-100 | a config is produced exactly when there is no help request, the workload is one of the three names, both numbers parse and the batch-size rule does not divide by zero |
| CassandraCppConfig.ReadFields | benchmarks/basic/cassandra-cpp/source/src/config.rs:65-100 | a produced config has a non-empty node list joining back to the option, the named workload, dont_prepare iff the flag is present, the derived batch size, and the defaults for absent numbers |
| CassandraCppConfig.InvalidWorkloadFirst | benchmarks/basic/cassandra-cpp/source/src/config.rs:69-80 | an invalid workload is reported, naming it, before either number is examined |
| CassandraCppConfig.InvalidTasks | benchmarks/basic/cassandra-cpp/source/src/config.rs:82 | an unparsable task count is an error naming the text |
| CassandraCppConfig.ReadBatchSize | benchmarks/basic/cassandra-cpp/source/src/config.rs:87-91 | with tasks >= 0 and concurrency > 0 the batch size lies in [1, 256] |
| CdrsTokioConfig.HelpGivesNoConfig | benchmarks/basic/cdrs-tokio/source/src/config.rs:60-63 | a help request yields no configuration, whatever else is given |
| CdrsTokioConfig.NoOptionsDefaults | benchmarks/basic/cdrs-tokio/source/src/config.rs:65-89 | with no options the config is "scylla:9042", Inserts, 1,000,000 tasks, concurrency 256, batch size 256, no_prepare false |
| CdrsTokioConfig.ReadSucceeds | benchmarks/basic/cdrs-tokio/source/src/config.rs:60-98 | a config is produced exactly when there is no help request, the workload is valid, both numbers parse and the rule does not divide by zero |
| CdrsTokioConfig.ReadFields | benchmarks/basic/cdrs-tokio/source/src/config.rs:65-98 | a produced config keeps the address text unsplit, has the named workload, no_prepare iff the flag is present and the derived batch size |
| CdrsTokioConfig.InvalidWorkloadFirst | benchmarks/basic/cdrs-tokio/source/src/config.rs:67-78 | an invalid workload is reported, naming it, before the numbers |
| CdrsTokioConfig.ReadBatchSize | benchmarks/basic/cdrs-tokio/source/src/config.rs:85-89 | with tasks >= 0 and concurrency > 0 the batch size lies in [1, 256] |
| RustBasicConfig.HelpGivesNoConfig | benchmarks/basic/rust/source/src/main.rs:237-240 | a help request yields no configuration |
| RustBasicConfig.NoOptionsDefaults | benchmarks/basic/rust/source/src/main.rs:242-268 | with no options the config is "scylla:9042", Mixed, 1,000,000 tasks, concurrency 256, no_prepare false |
| RustBasicConfig.ReadConfigSucceeds | benchmarks/basic/rust/source/src/main.rs:237-268 | a config is produced exactly when there is no help request, the workload is valid and both numbers parse; each field is then the option's value or its default |
| RustBasicConfig.InvalidWorkloadName | benchmarks/basic/rust/source/src/main.rs:244-255 | an invalid workload name is an error naming it |
| GocqlConfig.ReadConfig | benchmarks/basic/gocql/source/config.go:59-87 | a config is produced exactly when the workload string is valid and the rule does not divide by zero; an invalid name panics with the workload error; the config holds the flag values and the derived batch size |
| GocqlConfig.DefaultFlagsConfig | benchmarks/basic/gocql/source/config.go:25-57 | the declared defaults name a Mixed run of 1,000,000 tasks at concurrency 256 with batches of 256 |
| JavaConfig.Config.constructor | benchmarks/basic/java-driver-3.x-async/source/src/main/java/Config.java:19-23 | the fields start at ["127.0.0.1"], Inserts, 1,000,000, 1024, false |
| JavaConfig.Config.ApplyCommandLine | benchmarks/basic/java-driver-3.x-async/source/src/main/java/Config.java:33-64 | the try block leaves exactly the fields the option reference describes, or the exception that escapes it |
| JavaConfig.ParseFailureKeepsDefaults | benchmarks/basic/java-driver-3.x-async/source/src/main/java/Config.java:59-64 | after a caught ParseException every field keeps its default |
| JavaConfig.NoOptionsDefaults | benchmarks/basic/java-driver-3.x-async/source/src/main/java/Config.java:19-58 | with no options the defaults stand |
| JavaConfig.DontPrepareIffPresent | benchmarks/basic/java-driver-3.x-async/source/src/main/java/Config.java:37-39 | dont_prepare is true exactly when the option is present |
| JavaConfig.NodesAreJavaSplit | benchmarks/basic/java-driver-3.x-async/source/src/main/java/Config.java:41-44 | the node list is the ','-split of the option with trailing empty segments dropped, or the text itself when it has no ',' |
| JavaConfig.JavaSplitExamples | benchmarks/basic/java-driver-3.x-async/source/src/main/java/Config.java:43 | "a,b,," gives ["a", "b"] and "," gives no node at all |
| JavaConfig.WorkloadIsCaseSensitive | benchmarks/basic/java-driver-3.x-async/source/src/main/java/Config.java:46-49 | a lower-case workload name throws; an exact constant name selects that workload |
| JavaConfig.TasksBeyondInt32 | benchmarks/basic/java-driver-3.x-async/source/src/main/java/Config.java:51-53 | a task count above the 32-bit range throws NumberFormatException although the field is a long |
| JavaAddresses.ParseAddresses | benchmarks/basic/java-driver-4.x/source/src/main/java/MainClass.java:146-160 | the loop yields exactly the reference conversion: the addresses in order, or the first exception |
| JavaAddresses.ParseAllThrowsOnward | benchmarks/basic/java-driver-4.x/source/src/main/java/MainClass.java:148-158 | once an address throws, the whole conversion throws that exception |
| JavaAddresses.ParseAllSucceeds | benchmarks/basic/java-driver-4.x/source/src/main/java/MainClass.java:146-160 | the conversion succeeds exactly when every address converts, and then gives one socket address per input, in order |
| JavaAddresses.ParseAllFirstError | benchmarks/basic/java-driver-4.x/source/src/main/java/MainClass.java:148-158 | a failed conversion reports the exception of the first address that does not convert |
| JavaAddresses.HostPortRoundTrip | benchmarks/basic/java-driver-4.x/source/src/main/java/MainClass.java:150-153 | "host:port" with a colon-free host and a port in 0..65535 converts back to that host and port |
| JavaAddresses.DefaultPort | benchmarks/basic/java-driver-4.x/source/src/main/java/MainClass.java:154-156 | an address without ':' keeps its whole text as host and gets port 9042 |
| JavaAddresses.TrailingColonThrows | benchmarks/basic/java-driver-4.x/source/src/main/java/MainClass.java:151-152 | "host:" has no part 1 after Java's split, so indexing it throws |
| JavaAddresses.PortAboveRangeThrows | benchmarks/basic/java-driver-4.x/source/src/main/java/MainClass.java:152 | a port that parses as an int but exceeds 65535 is rejected by the socket address |
| Executor.Fill | benchmarks/basic/scylla-rust-driver/source/src/main.rs:71-76 | every pk of the range holds its expected row and every other pk is untouched |
| Executor.Step | benchmarks/basic/scylla-rust-driver/source/src/main.rs:70-91 | inserting workloads write (2pk, 3pk) and never fault; a Selects step changes nothing and faults exactly when the row is missing or different, reporting what it found |
| Executor.RunRangeInserting | benchmarks/basic/scylla-rust-driver/source/src/main.rs:70-77 | the pk loop of an inserting workload never faults and fills exactly its range |
| Executor.RunRangeSelecting | benchmarks/basic/scylla-rust-driver/source/src/main.rs:78-90 | the Selects pk loop leaves the table alone and faults exactly when some pk is not canonical, at the least such pk |
| Executor.RunRangeSplit | benchmarks/basic/scylla-rust-driver/source/src/main.rs:70 | running [lo, mid) then, unless it faulted, [mid, hi) is running [lo, hi) |
| Executor.RunBatch | benchmarks/basic/cdrs-tokio/source/src/main.rs:83-109 | the `for pk in start..end` loop computes the reference pk loop of its batch |
| Executor.MixedNeverFaults | benchmarks/basic/scylla-rust-driver/source/src/main.rs:71-90 | under Mixed each select finds the row its own insert wrote |
| Executor.InsertThenSelect | benchmarks/basic/scylla-rust-driver/source/src/main.rs:136-180 | selects over a range after inserts over it find every row |
| Executor.FillCommutes | benchmarks/basic/scylla-rust-driver/source/src/main.rs:70-77 | insert batches commute, so their interleaving does not matter |
| Executor.FillAdjacent | benchmarks/basic/scylla-rust-driver/source/src/main.rs:70-77 | filling [lo, mid) and then [mid, hi) fills [lo, hi) |
| Benchmark.Conclude | benchmarks/basic/scylla-rust-driver/source/src/main.rs:97-99 | the run faults exactly when a worker met a fault, reporting that fault; otherwise it finishes with the table |
| Benchmark.SelectsPassIffCanonical | benchmarks/basic/scylla-rust-driver/source/src/main.rs:78-99 | a concurrent Selects pass never aborts, finishes exactly when its range holds its rows, and then leaves the table as it was |
| Benchmark.SequentialPassAllowed | benchmarks/basic/scylla-rust-driver/source/src/main.rs:70-91 | one ascending pass over the range is among the outcomes a concurrent pass allows |
| TaskCursor.Pull | benchmarks/basic/scylla-rust-driver/source/src/main.rs:59-68 | a pull hands out nothing exactly when its start reaches tasks; otherwise a non-empty batch at the old counter (fetch-and-add) or the new one (add-and-get), at most batch_size long, full unless it ends at tasks |
| TaskCursor.ContiguousDisjoint | benchmarks/basic/cpp/source/main.cpp:161-170 | batches handed out one after the other are pairwise disjoint |
| TaskCursor.ContiguousCovers | benchmarks/basic/cpp/source/main.cpp:161-170 | the handed-out batches cover exactly [origin, where they end) |
| TaskCursor.UniqueBatch | benchmarks/basic/scylla-rust-driver/source/src/main.rs:59-70 | each pk between the origin and the end lies in exactly one batch |
| TaskCursor.Cursor.constructor | benchmarks/basic/scylla-rust-driver/source/src/main.rs:44 | the counter starts at 0 with nothing handed out |
| TaskCursor.Cursor.NextBatch | benchmarks/basic/gocql/source/main.go:51-57 | one atomic pull advances the counter by the batch size, hands out exactly the reference pull, and keeps the handed-out batches contiguous up to the counter |
| WorkerPool.ClaimOwnership | benchmarks/basic/scylla-rust-driver/source/src/main.rs:59-70 | a batch pulled past every pending pk becomes the pulling worker's alone, keeping exactly one owner per pending pk |
| WorkerPool.IdleOwnership | benchmarks/basic/scylla-rust-driver/source/src/main.rs:62-65 | a worker that is not inside a batch can stop without changing anyone's pending pks |
| WorkerPool.AdvanceOwnership | benchmarks/basic/scylla-rust-driver/source/src/main.rs:70 | finishing the current pk releases that pk alone, which was pending and pulled |
| WorkerPool.FailOwnership | benchmarks/basic/scylla-rust-driver/source/src/main.rs:90 | a worker that fails releases the rest of its batch and nothing else |
| WorkerPool.PullStep | benchmarks/basic/scylla-rust-driver/source/src/main.rs:59-70 | a pull that hands out a batch extends the batches at their end and keeps the pool invariant: every pulled pk done, owned by one worker, or abandoned by a failed one |
| WorkerPool.ExhaustStep | benchmarks/basic/scylla-rust-driver/source/src/main.rs:62-65 | a worker whose pull hands out nothing stops, keeping the pool invariant |
| WorkerPool.AdvanceStep | benchmarks/basic/scylla-rust-driver/source/src/main.rs:70-91 | a pk that did not fault becomes done (written, or found canonical under Selects) and its worker moves on, keeping the pool invariant |
| WorkerPool.AdvanceWorkers | benchmarks/basic/scylla-rust-driver/source/src/main.rs:70-91 | a worker that finished a canonical pk has all pks before its position canonical |
| WorkerPool.AdvanceWritten | benchmarks/basic/scylla-rust-driver/source/src/main.rs:71-90 | the table after one more pk is the table with exactly the done pks written (inserting workloads), or unchanged with all done pks canonical (Selects) |
| WorkerPool.FailStep | benchmarks/basic/scylla-rust-driver/source/src/main.rs:78-90 | a worker whose select finds a bad row fails with the fault of that pk, the first bad pk of its batch, keeping the pool invariant |
| WorkerPool.FailedPass | benchmarks/basic/scylla-rust-driver/source/src/main.rs:97-99 | a failed worker's fault is one a pass may report: a pk of [origin, tasks) without its row, the first such pk of a batch that was handed out |
| WorkerPool.CompletePass | benchmarks/basic/scylla-rust-driver/source/src/main.rs:97-99 | when every worker ran out of work and the batches reach tasks, every pk of [origin, tasks) was written (or found canonical) and the pass finishes |
| WorkerPool.Spawned | benchmarks/basic/scylla-rust-driver/source/src/main.rs:50-57 | freshly spawned workers have pulled nothing and own nothing |
| WorkerPool.Pull | benchmarks/basic/scylla-rust-driver/source/src/main.rs:59-68 | an idle worker's pull advances the counter by the batch size and either stops the worker on an exhausted cursor or hands it a batch, keeping the pool invariant |
| WorkerPool.Work | benchmarks/basic/scylla-rust-driver/source/src/main.rs:70-91 | a busy worker's step runs its current pk and fails, goes on, or returns to pulling, keeping the invariant and lowering its remaining work |
| WorkerPool.Turn | benchmarks/basic/scylla-rust-driver/source/src/main.rs:58-93 | one step of a worker keeps the invariant, changes no other worker, and lowers (cursor budget, worker's work) lexicographically |
| WorkerPool.Drive | benchmarks/basic/scylla-rust-driver/source/src/main.rs:58-93 | a worker left to run on its own stops, having run out of work or failed |
| WorkerPool.Interleave | benchmarks/basic/scylla-rust-driver/source/src/main.rs:50-95 | any schedule of worker steps keeps the pool invariant; under first-failure join (gocql main.go lines 63-76) it stops at the first failure |
| WorkerPool.Drain | benchmarks/basic/scylla-rust-driver/source/src/main.rs:50-95 | the workers still running run to the end; without an early stop every worker has stopped |
| WorkerPool.JoinInOrder | benchmarks/basic/scylla-rust-driver/source/src/main.rs:97-99 | the handles (or Java futures) are examined in spawn order and the first failed one is reported; none is reported exactly when no worker failed |
| WorkerPool.RunPool | benchmarks/basic/scylla-rust-driver/source/src/main.rs:43-99 | for any interleaving, inserting workloads write exactly [origin, tasks); a Selects pass leaves the table alone and finishes exactly when [origin, tasks) is canonical, and otherwise reports a bad pk, the first of its batch; the batches are contiguous and, without a fault, end at tasks |
| FetchAddMains.FetchAddAborts | benchmarks/basic/scylla-rust-driver/source/src/main.rs:43 | a run aborts exactly when concurrency is negative (the vector capacity conversion) |
| FetchAddMains.FetchAddSequentialAllowed | benchmarks/basic/scylla-rust-driver/source/src/main.rs:50-99 | one worker passing over [0, tasks) in order is one of the runs allowed |
| FetchAddMains.FetchAddBenchmark | benchmarks/basic/scylla-rust-driver/source/src/main.rs:29-99 | for any interleaving of both pools, `main` ends with a verdict the fetch-and-add relation allows: provisioning, pre-population, then a concurrent pass over [0, tasks) (cdrs-tokio `main.rs` lines 42-116 is the same run) |
| FetchAddMains.PreparedSelectsPass | benchmarks/basic/scylla-rust-driver/source/src/main.rs:39-41 | a prepared Selects run finishes, with every pk of [0, tasks) written (likewise cdrs-tokio, `main.rs` lines 52-54) |
| FetchAddMains.WritingRunsFillEveryPk | benchmarks/basic/scylla-rust-driver/source/src/main.rs:50-95 | Inserts and Mixed runs write exactly the rows of [0, tasks) |
| FetchAddMains.UnpreparedSelects | benchmarks/basic/scylla-rust-driver/source/src/main.rs:78-99 | a Selects run on an existing table passes exactly when [0, tasks) is canonical, and leaves it alone; otherwise it reports some pk of [0, tasks) without its row, with what the select found |
| FetchAddMains.CassandraQueueSize | benchmarks/basic/cassandra-cpp/source/src/main.rs:27 | the queue size is max(2048, 2 * concurrency), defined exactly when 2 * concurrency fits a u32 |
| FetchAddMains.CassandraCppBenchmark | benchmarks/basic/cassandra-cpp/source/src/main.rs:27-102 | an unrepresentable queue size aborts; otherwise the run ends as the shared fetch-and-add relation allows |
| FetchAddMains.QueueSizeAdmitsRun | benchmarks/basic/cassandra-cpp/source/src/main.rs:46 | when the queue size is accepted, the later vector capacity conversion cannot abort |
| PostAddMains.GoNeverAborts | benchmarks/basic/gocql/source/main.go:43-84 | a gocql run never aborts: no goroutine means nothing is done |
| PostAddMains.GoBenchmark | benchmarks/basic/gocql/source/main.go:28-84 | for any interleaving of both pools, with the first panic ending the process, `main` ends with a verdict the relation allows over [batch_size, tasks) |
| PostAddMains.GoSkipsFirstBatch | benchmarks/basic/gocql/source/main.go:51-57 | as written, an inserting run writes [batch_size, tasks) and no pk below the batch size |
| PostAddMains.GoMissesPkZero | benchmarks/basic/gocql/source/main.go:51 | 1000 inserts at batch size 100 leave pk 0 unwritten |
| PostAddMains.GoPreparedSelectsPass | benchmarks/basic/gocql/source/main.go:121-134 | pre-population skips the same first batch the selects skip, so a prepared Selects run still passes |
| PostAddMains.GoPreAddFillsEveryPk | benchmarks/basic/gocql/source/main.go:51-57 | with a fetch-and-add cursor every pk of [0, tasks) is written and read |
| PostAddMains.JavaAborts | benchmarks/basic/java-driver-4.x/source/src/main/java/MainClass.java:56 | the run aborts exactly when concurrency <= 0 (a fixed pool of no threads) |
| PostAddMains.JavaBenchmark | benchmarks/basic/java-driver-4.x/source/src/main/java/MainClass.java:44-99 | for any interleaving, with the futures checked in submission order, the java-driver-4.x `main` ends with a verdict the relation allows over [batch_size, tasks) (java-driver-3.x `MainClass.java` lines 30-84 is the same run) |
| PostAddMains.JavaSkipsFirstBatch | benchmarks/basic/java-driver-4.x/source/src/main/java/MainClass.java:69-76 | as written, an inserting run leaves every pk below the batch size unwritten (java-driver-3.x lines 55-62 likewise) |
| PostAddMains.JavaPreAddFillsEveryPk | benchmarks/basic/java-driver-4.x/source/src/main/java/MainClass.java:69-76 | with a fetch-and-add cursor an inserting run writes every pk of [0, tasks) |
| PostAddMains.JavaUnpreparedSelectsFault | benchmarks/basic/java-driver-4.x/source/src/main/java/MainClass.java:44-52 | since provisioning runs even under dont_prepare, such a Selects run finds the table empty and faults with a missing row, at some pk of [batch_size, tasks) |
| AsyncMain.PartitionRanges | benchmarks/basic/java-driver-3.x-async/source/src/main/java/MainClass.java:47-53 | the loop yields one range per worker, as the reference partition says |
| AsyncMain.PartitionShape | benchmarks/basic/java-driver-3.x-async/source/src/main/java/MainClass.java:47-53 | the ranges are chained from 0 to tasks; the first c-1 hold tasks/c pks and the last tasks/c + tasks mod c |
| AsyncMain.ChainsAreOnePass | benchmarks/basic/java-driver-3.x-async/source/src/main/java/MainClass.java:98-102 | chained `execute` ranges do what one ascending pass over their span does |
| AsyncMain.PartitionIsOnePass | benchmarks/basic/java-driver-3.x-async/source/src/main/java/MainClass.java:47-56 | the partition of tasks >= 0 is one pass over [0, tasks) |
| AsyncMain.InsertingChainsNeverFault | benchmarks/basic/java-driver-3.x-async/source/src/main/java/MainClass.java:105-107 | insert-only chains never fault |
| AsyncMain.RunAll | benchmarks/basic/java-driver-3.x-async/source/src/main/java/MainClass.java:55-57 | awaiting the futures in order reports the fault of the first failed range, and otherwise leaves the chained table |
| AsyncMain.PrepareSelectsBenchmark | benchmarks/basic/java-driver-3.x-async/source/src/main/java/MainClass.java:75-96 | the workload is switched to Inserts for an insert run over the partition and then restored |
| AsyncMain.AsyncBenchmark | benchmarks/basic/java-driver-3.x-async/source/src/main/java/MainClass.java:27-57 | `main` ends with the reference verdict and leaves the configuration as it was read |
| AsyncMain.AsyncPreparedSelectsPass | benchmarks/basic/java-driver-3.x-async/source/src/main/java/MainClass.java:29-35 | a prepared Selects run passes over every pk of [0, tasks) |
| AsyncMain.AsyncWritesEveryPk | benchmarks/basic/java-driver-3.x-async/source/src/main/java/MainClass.java:105-107 | Inserts and Mixed runs write exactly the rows of [0, tasks) |
| AsyncMain.AsyncUnpreparedSelectsFault | benchmarks/basic/java-driver-3.x-async/source/src/main/java/MainClass.java:27 | provisioning runs even under dont_prepare, so such a Selects run faults on pk 0 |
| StrideMain.NumStridesExact | benchmarks/basic/rust/source/src/main.rs:68 | the loop runs ceil(tasks / 256) times |
| StrideMain.SpawnedContiguous | benchmarks/basic/rust/source/src/main.rs:60-113 | the spawned batches are non-empty, ascending and contiguous from 0, so disjoint; they cover exactly [0, limit), where limit is tasks if clamped and the next multiple of 256 otherwise |
| StrideMain.ClampedCoversTasks | benchmarks/basic/rust/source/src/main.rs:82-83 | the timed loop spawns ceil(tasks / 256) batches covering exactly [0, tasks) |
| StrideMain.SameBatches | benchmarks/basic/rust/source/src/main.rs:85-111 | the order in which tasks finish changes neither the pks covered nor the faults met |
| StrideMain.FinishTask | benchmarks/basic/rust/source/src/main.rs:85-111 | an ending task adds its batch's effect: the rows it wrote, or the fault it panicked on |
| StrideMain.Acquire | benchmarks/basic/rust/source/src/main.rs:80 | an acquire blocks forever exactly when no permit is free and no task is in flight; otherwise it takes one permit, after ending one task in flight if needed |
| StrideMain.SpawnLoop | benchmarks/basic/rust/source/src/main.rs:57-114 | every batch is spawned, in order, with at most `concurrency` in flight; with no permits the first acquire blocks |
| StrideMain.DrainLoop | benchmarks/basic/rust/source/src/main.rs:116-118 | acquiring all permits waits until every task in flight has ended |
| StrideMain.StrideLoop | benchmarks/basic/rust/source/src/main.rs:57-118 | for any completion order the loop ends with its specification: inserts fill [0, limit), selects record the faults of the bad batches |
| StrideMain.AllTasksEnded | benchmarks/basic/rust/source/src/main.rs:116-118 | once every spawned task has ended, in whatever order, the result is the specification's |
| StrideMain.SelectFaultsSound | benchmarks/basic/rust/source/src/main.rs:94-106 | every reported fault is the select of a pk in [0, limit) that does not hold its row |
| StrideMain.SelectFaultsExactlyBadRows | benchmarks/basic/rust/source/src/main.rs:94-106 | no task panics exactly when [0, limit) holds its rows |
| StrideMain.RustBasicBenchmark | benchmarks/basic/rust/source/src/main.rs:43-118 | `main` ends with the reference outcome for any completion order |
| StrideMain.PrepopOverrun | benchmarks/basic/rust/source/src/main.rs:175-176 | as written, pre-population for 1000 tasks writes pks 1000-1023 as well |
| StrideMain.ClampedPrepopExact | benchmarks/basic/rust/source/src/main.rs:175-176 | with the end clamped, pre-population writes exactly [0, tasks) |
| StrideMain.PreparedSelectsPass | benchmarks/basic/rust/source/src/main.rs:53-55 | a prepared Selects run panics on nothing, and leaves the rows of [0, ceil(tasks/256)*256) |
| StrideMain.FaultsAreNotFatal | benchmarks/basic/rust/source/src/main.rs:106-110 | a bad row panics only its own task: the run still ends and reports the fault |
| CallbackEngine.ExhaustStep | benchmarks/basic/cpp/source/main.cpp:163-167 | an exhausting worker frees one permit, keeps the invariant and lowers the work |
| CallbackEngine.NewBatchOwnership | benchmarks/basic/cpp/source/main.cpp:161-170 | the batch pulled at the cursor is fresh and becomes the one worker's own, keeping exactly one owner per pending pk |
| CallbackEngine.NewBatchStep | benchmarks/basic/cpp/source/main.cpp:160-170 | pulling a batch keeps the invariant and the work; the worker then has a pk to do |
| CallbackEngine.IssueStep | benchmarks/basic/cpp/source/main.cpp:173-189 | issuing the request of the workload makes every started worker wait for a callback |
| CallbackEngine.TakePermitStep | benchmarks/basic/cpp/source/main.cpp:241 | while a worker has not started a permit is free, and taking it lowers the work |
| CallbackEngine.WaitStep | benchmarks/basic/cpp/source/main.cpp:246-248 | a wait-loop acquire keeps the invariant and lowers the work |
| CallbackEngine.PkDoneCore | benchmarks/basic/cpp/source/main.cpp:152 | finishing the current pk moves it to done, keeps ownership unique and lowers the work |
| CallbackEngine.FinishInsertStep | benchmarks/basic/cpp/source/main.cpp:105-109 | an Inserts insert callback writes the row, marks the pk done and leaves its worker ready |
| CallbackEngine.InsertThenSelectStep | benchmarks/basic/cpp/source/main.cpp:112-116 | a Mixed insert callback writes the row and issues the select of the same pk |
| CallbackEngine.FinishSelectStep | benchmarks/basic/cpp/source/main.cpp:151-153 | a select that found its row marks the pk done |
| CallbackEngine.FaultStep | benchmarks/basic/cpp/source/main.cpp:142-145 | a select that finds a bad row can only occur in a Selects run, and it names a bad pk |
| CallbackEngine.Engine.constructor | benchmarks/basic/cpp/source/main.cpp:220-222 | the records start at (0, 0), the semaphore at `concurrency` permits, the cursor at 0 |
| CallbackEngine.Engine.Exhaust | benchmarks/basic/cpp/source/main.cpp:163-167 | a worker whose pull reaches tasks advances the cursor, frees one permit and stops; nothing else changes; the invariant holds and the work drops |
| CallbackEngine.Engine.NewBatch | benchmarks/basic/cpp/source/main.cpp:169-170 | the cursor advances and the worker takes [start, min(start + batch_size, tasks)) as its own; nothing else changes; it has a pk to do |
| CallbackEngine.Engine.Issue | benchmarks/basic/cpp/source/main.cpp:173-189 | the request of the workload is issued for the current pk and the worker awaits its callback; nothing else changes |
| CallbackEngine.Engine.RunConcurrentTask | benchmarks/basic/cpp/source/main.cpp:156-190 | pulling only when the batch is used up, then issuing, keeps the invariant and never raises the work |
| CallbackEngine.Engine.TakePermit | benchmarks/basic/cpp/source/main.cpp:241 | the start loop's acquire takes a free permit for the next worker; nothing else changes |
| CallbackEngine.Engine.StartNext | benchmarks/basic/cpp/source/main.cpp:227-243 | one start-loop iteration starts one more worker and lowers the work |
| CallbackEngine.Engine.WaitNext | benchmarks/basic/cpp/source/main.cpp:246-248 | one wait-loop iteration takes a permit and lowers the work; nothing else changes |
| CallbackEngine.Engine.FinishInsert | benchmarks/basic/cpp/source/main.cpp:105-107 | an Inserts callback writes the row of the pk, marks it done and advances cur_pk; nothing else changes |
| CallbackEngine.Engine.InsertThenSelect | benchmarks/basic/cpp/source/main.cpp:112-116 | a Mixed callback writes the row and issues the select of the same pk; nothing else changes |
| CallbackEngine.Engine.InsertCallback | benchmarks/basic/cpp/source/main.cpp:99-117 | the insert callback keeps the invariant and lowers the work |
| CallbackEngine.Engine.FinishSelect | benchmarks/basic/cpp/source/main.cpp:151-153 | a select that found its row marks the pk done and advances cur_pk; nothing else changes |
| CallbackEngine.Engine.SelectCallback | benchmarks/basic/cpp/source/main.cpp:119-154 | a good row lowers the work; a missing or wrong row records the fault and leaves the table |
| CallbackEngine.Engine.Callback | benchmarks/basic/cpp/source/main.cpp:99-154 | the callback of a worker awaiting a reply keeps the invariant and lowers the work, unless it records a fault |
| CallbackEngine.Engine.Step | benchmarks/basic/cpp/source/main.cpp:227-248 | one step of any interleaving (a start-loop or wait-loop acquire, or a callback) keeps the invariant and lowers the work unless it records a fault |
| CallbackEngine.Engine.FindAwaiting | benchmarks/basic/cpp/source/main.cpp:246-248 | when every worker has started and no permit is free, some worker awaits a callback |
| CallbackEngine.Engine.NoDeadlock | benchmarks/basic/cpp/source/main.cpp:246-248 | while the main thread is blocked, some worker still waits for a callback |
| CallbackEngine.Engine.Completed | benchmarks/basic/cpp/source/main.cpp:245-248 | once the wait loop has all its permits, every pk of [0, tasks) is done: written for inserting workloads, canonical for Selects |
| CallbackEngine.Engine.FaultReported | benchmarks/basic/cpp/source/main.cpp:128-131 | a reported fault comes from a Selects run, which left the table alone, and names a bad pk |
| CallbackEngine.Engine.Execute | benchmarks/basic/cpp/source/main.cpp:227-248 | for any interleaving, without a fault [0, tasks) is done exactly once and the table is filled (or canonical for Selects); a fault names a bad pk |
| CallbackEngine.SelectsFinishIffCanonical | benchmarks/basic/cpp/source/main.cpp:119-154 | a Selects run finishes exactly when [0, tasks) holds its rows, and leaves the table alone |
| CallbackEngine.RunWorkers | benchmarks/basic/cpp/source/main.cpp:219-248 | a negative concurrency aborts (the vector); otherwise any interleaving ends as the engine allows |
| CallbackEngine.RunConfig.constructor | benchmarks/basic/cpp/source/main.cpp:199 | the run fields are the parsed configuration's |
| CallbackEngine.PrepareSelectsBenchmark | benchmarks/basic/cpp/source/main.cpp:278-327 | pre-population fills [0, tasks) at concurrency max(1024, concurrency) and restores Selects and the original concurrency |
| CallbackEngine.CppBenchmark | benchmarks/basic/cpp/source/main.cpp:207-248 | `main` ends as the engine allows on the provisioned and pre-populated table, and the configuration is restored |
| CallbackEngine.PreparedSelectsPass | benchmarks/basic/cpp/source/main.cpp:215-217 | a prepared Selects run finishes with every pk of [0, tasks) written |
| CallbackEngine.WritingRunsFillEveryPk | benchmarks/basic/cpp/source/main.cpp:173-181 | Inserts and Mixed runs finish with exactly the rows of [0, tasks) written |

## Left out

- Driver and session calls are left out: connecting, preparing statements, DDL, schema agreement, executing requests and decoding rows. Provisioning is modelled as emptying the table. A row read is a lookup in the table. A failed request (as opposed to a failed row check) is not modelled.
- Threads, tokio tasks, goroutines, Java executors and futures are not modelled as such. They are replaced by schedules of atomic steps. In the worker pools one step is one cursor pull, or the insert and select of one pk: the cursor is the only shared state and batches have distinct pks, so finer interleavings are equivalent. How `main` learns of a failure follows each source: the Rust handles and the Java futures are examined in spawn order (`WorkerPool.JoinInOrder`), a gocql panic ends the process at once. In the C++ engine one step is one callback; the stride loop chooses which task ends.
- Timing, clocks, sleeps and progress output are left out, including the `f32` progress percentage of the basic Rust benchmark.
- The option lexers (getopts, Go's `flag`, commons-cli) are left out. The Rust readers start from a map of parsed options, Go from the bound flag values, and Java from the lexer's result or its ParseException.
- 64-bit wrap-around is not modelled: integers are unbounded, so `i += 256`, `2 * pk` and the cursor's `fetch_add` never overflow.
- Java's `(int) config.concurrency` cast and int-overflowing pool sizes are not modelled.
- CallbackEngine.CppBenchmark: main.cpp reads `node_addresses` and `dont_prepare`, which come from the scylla-cpp-driver configuration. The C++ engine is therefore driven by `ScyllaCppConfig.Config`. The DataStax C++ reader (`CppConfig`) is modelled on its own.
- The C++ I/O queue size and cluster setup (main.cpp connect) are outside this model.
- PostAddMains.JavaBenchmark: java-driver-3.x/4.x `Config.java` is not part of this model, so their batch size is a parameter `>= 1`.
- PostAddMains.GoBenchmark: main.go reads `config.cuncurrency` while config.go declares the field `concurency`. The model takes both to be the same field. The flag is also spelled `-concurency` on the command line.
- JavaConfig.Config.ApplyCommandLine: numbers are read as ASCII digits `0`-`9` only, whereas Java's `Integer.parseInt` also accepts other Unicode decimal digits (Arabic-Indic digits, for instance). Such option text is treated as malformed here, and so is such a port in `JavaAddresses.ParseAddresses`.
- StrideMain.Acquire: a task ends only when the loop needs its permit or in the final drain. Earlier completion changes nothing observable, because the effects of the batches commute.
- CallbackEngine.Engine.Execute: which bad pk is reported depends on the schedule. The contract states only that it is a pk of [0, tasks) without its row.
- benchmarks/inserts and the scripts are not part of this model. They hold fixed-count insert loops and plotting.

## Findings

| source | as written | input that shows it | evidently intended | confidence | as-written member | corrected member |
|---|---|---|---|---|---|---|
| benchmarks/basic/gocql/source/main.go:51 | `atomic.AddInt64` returns the value after the add, so the first batch starts at batchSize and pks [0, batchSize) are never inserted or selected | tasks 1000, concurrency 10 (batch size 100): pk 0 is never written | every pk of [0, tasks) processed, as with fetch-and-add | not executed | PostAddMains.GoMissesPkZero | PostAddMains.GoPreAddFillsEveryPk |
| benchmarks/basic/java-driver-4.x/source/src/main/java/MainClass.java:69 | `addAndGet` returns the value after the add, so pks [0, batch_size) are skipped (java-driver-3.x line 55 likewise) | any inserting run with concurrency > 0: pk 0 is never written | every pk of [0, tasks) processed | not executed | PostAddMains.JavaSkipsFirstBatch | PostAddMains.JavaPreAddFillsEveryPk |
| benchmarks/basic/rust/source/src/main.rs:176 | the pre-population batch ends at `begin + batch_size` without clamping, so pks up to the next multiple of 256 are inserted | tasks 1000: pks 1000 to 1023 are written | `min(begin + batch_size, tasks)`, as the timed loop does | not executed | StrideMain.PrepopOverrun | StrideMain.ClampedPrepopExact |
