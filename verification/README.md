# Verified model of karet-worker

karet-worker takes jobs off a Redis stream, reads CSV and NDJSON files from a
lake bucket, evaluates a pipeline's mapping expressions, and writes Parquet to
a warehouse bucket, one numbered version per table and run. This project models
the parts where a mistake loses data or corrupts a table, and proves what they
promise. `dafny verify dfyconfig.toml` checks all of it.

## How it is put together

**Tables** (`Paths`, `Manifest`, `TableProtocol`, `TableSafety`, `VacuumSafety`,
`TableTheorems`, `TableStore`, `TableRun`, `JobRun`). `TableProtocol` is a state
machine whose steps are single object-store requests: uploads, the manifest PUT,
the pointer flip, each delete of a vacuum, and the end of a run, which can come
anywhere. The next run then reuses the dead run's version number on top of what
it left. `TableTheorems` holds snapshot isolation, time travel over the last ten
versions, and what a vacuum leaves, over every run of that machine.
`TableStore.Table` is the code that makes the requests, with fields it updates
in place. What becomes of each request is given to it (`Replies`: confirmed, or
failed with or without effect), and its methods say what they do for any answers,
by protocol steps alone. `TableRun` runs a whole job on one table that way.
`JobRun` is a job over all tables of a config, from the manifests it reads to the
lists it publishes.

**The bucket** (`Warehouse`, `WarehouseNesting`, `WarehouseShelter`,
`WarehouseLoss`, `TableShadow`, `TableIds`). Tables
are places in one flat space of keys: an upload goes where its partition key says,
and a vacuum lists and deletes by bare prefix. `Warehouse` proves that each table
of a tidy warehouse goes through a run of `TableProtocol` (paused while others make
requests, hence `TableShadow`) and restates its theorems there;
`WarehouseNesting` that nothing less than tidy makes it one. `WarehouseLoss` says
exactly when a published version can be lost, and `WarehouseShelter` has the tables
that lie inside another and never meet it.

**Queue** (`Queue`, `QueueDelivery`, `QueueAttempts`, `QueueFencing`,
`QueueLeases`, `QueueSingle`, `QueueCollision`, `QueueSweep`, `QueueEntries`,
`QueueStatus`, `QueueCall`, `QueueWorker`). The state is the stream, the group cursor,
the pending list, the delayed set, the per-pipeline lock, the live hashes, and any
number of handlers, each between two round trips. `QueueStatus` says what a status in
a live hash is worth. `QueueWorker.Worker` is `handle_claimed` as a program: between its requests
everyone else may take any steps. When its process dies, which of its requests are
lost and what `execute_job` comes back with are given to it (`QueueCall.Call`); it
takes only steps of `Queue`, and how it ends follows from what it was given.

**Both** (`LeasedPublish`, `LeasedWarehouse`, `LeasedRun`). Handlers run the publish protocol on
one shared table, and then on all the tables of one bucket. While leases are young
each table goes through a run of `TableProtocol`, and no version is published by
two runs.

**Parsing and validation** (`CsvLine`, `Dimensions`, `JsonPath`, `Config`,
`Validation`, `SoundConfig`, `Evaluator`, `Ingest`, `Routing`, `Http`) and
**debouncing** (`Debounce`). `SoundConfig` says which configs are valid without a
word about errors or checks. `Text` has the strings, decimal numbers and key order
they share.

## What is assumed

- A GET of an object fails only when the key is absent. `read_current` takes any
  error on the pointer to mean "never published" (src/manifest.rs:141-142), so
  versions only grow if this holds.
- A request has no effect once the run that sent it is over.
- A process dies with its heartbeat. A panic in `execute_job` that leaves the
  heartbeat task renewing (src/queue.rs:645-691) is a handler that stays inside
  `execute_job` and only renews from then on, which the runs of `Queue` include.
- Tidiness, wherever a table is taken on its own: its id has no slash, and its
  full prefix (job prefix and id) and those of the other tables do not begin one
  another. The code does not see to this. `WarehouseNesting.ProtocolIffTidy` says
  that it is exactly what is needed; `TableIds` gives the check a caller can make.
- One run at a time writes a table. `LeasedPublish` and `LeasedWarehouse` prove this
  of handlers whose last lock or renewal is no older than the lock's TTL, when a job
  prefix belongs to one pipeline, and under the fencing assumption.
- Fencing assumption, needed when `max_attempts` is two or more: two handlers of one
  job are never both between the increment of its attempts (src/queue.rs:547) and
  the lock's answer or the undo (src/queue.rs:577-595). Only fencing, mutual
  exclusion and their composition with publishing use it.
- Distinct dates have distinct texts without a slash, and a column holds cells of
  one type.
- The stream is not trimmed, live hashes do not expire, and HINCRBY succeeds or
  the handler stops: the fallback to attempt 1 (src/queue.rs:549-552) is outside
  the model. A job id names one message.
- Time is one clock, read in milliseconds. A handler that puts its job off reads
  it some time after the request before, however long.
- Version numbers stay below 2^64.

## What turned out not to hold

- **Orphan sweep.** The sweep reads the stream first and judges live hashes
  later. A job enqueued in between is missing from its list, and only the
  ten-minute grace protects it. No run abandons a job if and only if the delay
  from stamp to enqueue and the delay from stream read to cutoff together stay
  under the grace (`QueueSweep.SweepIsSoundIff`; the race is `SweepRace`).
- **Fences.** An attempt given back after a busy lock can be handed out again
  while another delivery still holds the same number. Two handlers then share a
  fence and both renew (`QueueCollision.FencesCollide`, a run in which the
  reclaimer waits out its idle time before each delivery). No run has two such
  handlers if and only if `max_attempts` is at most one
  (`QueueCollision.NeverCollidesIff`); the default is three (src/queue.rs:74).
- **Validation.** A `where` predicate may name a value column its dimension does
  not have, and a record filter is not validated at all. Both pass `validate`
  and fail in every file (`Ingest.ValidationGaps`); `Ingest.MappingCompilesIff`
  says exactly when a mapping of a valid config compiles.
- **Table ids with a slash.** `upload_partitions_async` splits the partition key
  at its first slash, so uploads of such a table land outside the table
  (`Paths.LandsInTableIff`: exactly when the id has a slash), perhaps on another
  table's file (`WarehouseNesting.SlashOverwrites`), and the version it publishes
  names objects that do not exist (`WarehouseNesting.SlashPublishesNothing`).
  Validation accepts any unused id (`TableIds.AnyIdIsValid`).
- **Tables inside tables.** A vacuum deletes whatever no version of its own table
  names below its prefix, another table's pointer included. With tables `a` and
  `a/b` (`TableIds.SlashReaches`), or job prefixes `p/` (with a table `q`) and `p/q/`,
  both of which the HTTP check accepts (`TableIds.PrefixesNest`), the outer table's
  vacuum leaves the inner one unpublished (`WarehouseLoss.VacuumLosesTable`). Under
  `p/q/` a table `_manifests` turns it round: its vacuum deletes the outer table's
  manifests (`WarehouseLoss.VacuumTakesManifest`). No run loses, changes or fails to
  deliver a version in the window of any table if and only if no id has a slash and
  every full prefix that begins another's shelters it, that is, the rest of the other
  goes on below `_manifests/` (`WarehouseLoss.NothingLostIff`). In every run every
  table goes through a run of the publish protocol, foreign keys and all, if and
  only if no id has a slash and no full prefix begins another at all
  (`WarehouseNesting.ProtocolIffTidy`); for the tables of one config that is: if and
  only if no id has a slash (`TableIds.TidyIffSlashFree`).
- **Carriage returns.** `split_csv_line` strips them from the end of the last
  field even when it is quoted (`CsvLine.CsvRoundTrip`: lossless if and only if
  the last field does not end in one).

## Model

| member | source | states |
|---|---|---|
| Text.LessDecides | src/manifest.rs:99 | the first characters that differ decide the order of keys, and a key comes before its extensions |
| Text.DecHasNoLeadingZero | src/manifest.rs:75-77 | a number is written without leading zeros |
| Text.ParsesNumerals | src/manifest.rs:205-210 | what parses as a version is a numeral that fits in 64 bits, with a plus sign in front or without |
| Text.ParsesSigned | src/dimension.rs:244-250 | what parses as a priority is a numeral that fits, with one sign or none |
| Paths.DecodeInvertsEncode | src/pipeline.rs:203-214 | `urldecode` undoes `encode_segment` on every byte string |
| Paths.EncodeSegment | src/pipeline.rs:203-214 | the loop computes the encoding the round trip is about |
| Paths.UrlDecode | src/http.rs:334-364 | the loop computes the decoding the round trip is about, malformed escapes and `+` included |
| Paths.SegmentValue | src/pipeline.rs:218-242 | fails exactly on cells that cannot be rendered; otherwise the text that `ReadRendered` reads back, dates included |
| Paths.ReadRendered | src/pipeline.rs:218-242 | a rendered cell of a known type reads back as itself |
| Paths.ProducePartitions | src/pipeline.rs:280-346 | succeeds iff every key column exists, has no null and is renderable; one output per group, under its own hive path |
| Paths.GroupKey | src/pipeline.rs:315-345 | the segments joined, or none, give the key `table/k=v/.../mapping.parquet`; fails iff a cell cannot be rendered |
| Paths.FileKeyReadsBack | src/pipeline.rs:317-345 | version, partition tuple and mapping can be read off the key of any file |
| Paths.FileKeysDistinct | src/pipeline.rs:317-345 | two files with one key have the same version, tuple and mapping |
| Paths.FileKeyTellsMapping | src/pipeline.rs:274-280 | mappings sharing a table never write one another's keys, whatever the types of their tuples |
| Paths.KeyVersionOf | src/manifest.rs:70-72 | the version spliced into a key can be read back from its prefix |
| Paths.LandsInTableIff | src/job.rs:424-429 | an upload lands under its own table exactly when the table id has no slash, whatever the partition |
| Paths.RecordedIs | src/job.rs:424-429 | the key recorded for any upload, table ids with a slash included |
| Paths.EncodedByteIs | src/pipeline.rs:203-214 | a byte in `[A-Za-z0-9._-]` stands for itself, any other is `%` and two upper-case digits; with `EncodedAppend` that is the whole encoding |
| Paths.EncodedAppend | src/pipeline.rs:203-214 | the encoding of two texts in a row is their encodings in a row |
| Paths.EncodedIsItself | src/pipeline.rs:203-214 | a value is its own segment iff it has such characters only |
| Paths.EscapeDecodes | src/http.rs:334-364 | an escape decodes to its byte, each digit in either case |
| Paths.OthersDecode | src/http.rs:334-364 | a percent sign without an escape stays, `+` is a space, any other byte is itself |
| Paths.QueryTextDecodes | src/http.rs:334-364 | words escaped and joined by `+` decode to the words joined by spaces |
| Manifest.ManifestVersionOf | src/manifest.rs:205-210 | the name of a manifest parses back to its version |
| Manifest.ManifestKeysDiffer | src/manifest.rs:75-77 | versions have different manifest keys |
| Manifest.ApplyMappingWritesContent | src/manifest.rs:88-101 | exactly the other mappings' files and the new ones, strictly sorted |
| Manifest.SortedUnique | src/manifest.rs:99 | a strictly sorted list is determined by its members |
| Manifest.VersionsToDropCounts | src/manifest.rs:104-109 | a version is dropped iff more than `retain` entries of the list lie from it to current, repeated ones counted |
| Manifest.UnreferencedKeys | src/manifest.rs:116-128 | exactly the keys that are no manifest, not the pointer, and named by no retained manifest |
| TableSafety.ReadsCurrent | src/manifest.rs:132-157 | in every state that keeps the invariant, reading the current version succeeds and gives it |
| TableSafety.UploadKeeps | src/job.rs:415-446 | an upload under the next version overwrites nothing a published version needs |
| TableSafety.AcceptKeeps | src/job.rs:344-353 | folding a mapping's entries in keeps the list sorted, present in the store, and free of other mappings' keys |
| TableSafety.PutManifestKeeps | src/manifest.rs:179-180 | writing a manifest, over a dead run's too, keeps the invariant |
| TableSafety.FlipKeeps | src/manifest.rs:181-183 | the flip publishes a complete version, one above the last |
| TableSafety.DeleteKeeps | src/manifest.rs:228-234 | deleting a target, or failing to, keeps every version in the window |
| VacuumSafety.DroppedBelowWindow | src/manifest.rs:211-213 | the manifests dropped are exactly those listed from below the window |
| VacuumSafety.StartVacuumKeeps | src/manifest.rs:193-227 | no target of a vacuum is needed by a version in the window |
| VacuumSafety.VacuumExact | src/manifest.rs:193-236 | without its targets, the store has exactly the surviving keys |
| TableTheorems.EventKeeps | src/manifest.rs:132-236 | every single request keeps the invariant, and moves the current version by at most one |
| TableTheorems.Reachable | src/manifest.rs:132-236 | every state of every run keeps the invariant |
| TableTheorems.PointerMonotone | src/manifest.rs:159-184 | the pointer never goes back, and one request moves it by at most one |
| TableTheorems.TimeTravel | src/manifest.rs:193-236 | every version in the window has its manifest and all its files, byte for byte as when the manifest was built; for a table on its own |
| TableTheorems.SnapshotIsolation | src/manifest.rs:130-184 | in every state a reader finds no pointer, or a complete version as its run built it; for a table on its own |
| TableTheorems.NeverReenters | src/manifest.rs:103-109 | a version that left the window does not come back |
| TableTheorems.FlipsDiffer | src/job.rs:145-160 | of two flips the later publishes the higher version |
| TableTheorems.VacuumLeavesExactly | src/manifest.rs:199-235 | when all deletes succeed, what is left is the pointer, the window's manifests and the files they name; for a table on its own |
| Warehouse.RequestMirrors | src/job.rs:145-446 | every request on a slash-free table, made with no more knowledge than the code has, is a step of the publish protocol on what is under its prefix |
| Warehouse.OthersUntouched | src/manifest.rs:199-235 | a request leaves what is under any other prefix as it was, unless one prefix begins the other |
| Warehouse.TableShadows | src/job.rs:145-446 | in a tidy warehouse every table goes through a run of the publish protocol made of its own requests |
| Warehouse.TableReadable | src/manifest.rs:132-157 | for every table of a tidy warehouse, in every state the current version can be read, or there is none |
| Warehouse.TableTimeTravel | src/manifest.rs:193-236 | for every table of a tidy warehouse, every version in the window reads back byte for byte as its run built it, whatever all tables did since |
| Warehouse.TableVacuum | src/manifest.rs:199-235 | for every table of a tidy warehouse, a vacuum whose deletes succeed leaves under its prefix exactly what survives |
| WarehouseNesting.SlashPublishesNothing | src/job.rs:424-446 | a table with a slash publishes a version whose file does not exist |
| WarehouseNesting.SlashOverwrites | src/job.rs:424-429 | without partition columns, an upload of table `a/b`, mapping `m`, is the object of table `a`, mapping `b/m` |
| WarehouseNesting.SlashNotProtocol | src/job.rs:424-446 | a run after which such a table is in no state of the publish protocol |
| WarehouseNesting.NestedNotProtocol | src/manifest.rs:199-203 | an inner table's upload puts an outer table in no state of the publish protocol |
| WarehouseNesting.ProtocolIffTidy | src/s3.rs:28-44 | in every run every table goes through a run of the publish protocol iff no id has a slash and no full prefix begins another |
| WarehouseLoss.PointerIsTarget | src/manifest.rs:199-227 | the vacuum of an outer table is to delete an inner table's pointer unless a retained version names it |
| WarehouseLoss.VacuumLosesTable | src/manifest.rs:193-236 | a run in which an inner table's published version is gone, only the outer table having made requests since |
| WarehouseLoss.VacuumTakesManifest | src/manifest.rs:193-236 | a run in which an outer table's current version can no longer be read, only the table among its manifests having made requests since |
| WarehouseLoss.HarmlessKeeps | src/manifest.rs:130-236 | among harmless tables, from any state to any later one, every table stays whole over its window, gets no older, and its versions do not change |
| WarehouseLoss.NothingLostIff | src/manifest.rs:130-236 | no run loses, changes or fails to deliver a version in the window of any table iff no id has a slash and every prefix within another is sheltered below its manifests (job prefixes end in a slash, as the HTTP check demands) |
| WarehouseShelter.CanWithout | src/manifest.rs:199-227 | a run reads, lists and deletes nothing that lies two levels below its table's manifests |
| WarehouseShelter.OthersOwnUntouched | src/manifest.rs:193-236 | requests of tables outside, or sheltered, leave what is a table's own as it was |
| WarehouseShelter.OwnShadow | src/job.rs:145-446 | among harmless tables what is a table's own goes through a run of the publish protocol |
| TableIds.AnyIdIsValid | src/config.rs:527-563 | a table of a valid config may take any unused id, one with a slash included, and the config stays valid |
| TableIds.TidyIffSlashFree | src/job.rs:424-429 | the tables of one config under one job prefix are tidy iff no id has a slash |
| TableIds.TidyTogether | src/http.rs:220-253 | tidy tables under several job prefixes are tidy together when no prefix begins another |
| TableIds.SlashReaches | src/manifest.rs:199-203 | a table `a` and a table `a/b` of one config are an outer and an inner one |
| TableIds.PrefixesNest | src/http.rs:220-253 | a job prefix inside a table of another job prefix is accepted, and that table's vacuums reach it |
| TableStore.Table.BeginRun | src/job.rs:145-160 | a run starts one above the current version, from its files or, clean, from none; it fails iff a GET goes unanswered, and then nothing has happened |
| TableStore.Table.PutPartition | src/job.rs:424-443 | for any answer: stored iff it took effect, reported iff confirmed; the key it is recorded under is where it went |
| TableStore.Table.UploadPartitions | src/job.rs:415-446 | succeeds iff every PUT is confirmed, and then the entries name exactly the objects uploaded, byte for byte, with their sizes; in any case nothing but this mapping's files of this version changes |
| TableStore.Table.Publish | src/manifest.rs:161-184 | manifest, then pointer: reports success iff both are confirmed; the table has exactly this manifest and the bytes under its keys as one version more iff the manifest was confirmed and the flip took effect, otherwise its old version |
| TableStore.Table.ReadRetained | src/manifest.rs:215-223 | all the retained manifests, iff every GET is answered |
| TableStore.Table.DeleteTargets | src/manifest.rs:225-235 | for any answers: exactly the targets whose deletes took effect are gone; counts the confirmed ones |
| TableStore.Table.Vacuum | src/manifest.rs:193-236 | never deletes a surviving key; when every request is confirmed nothing else is left |
| TableStore.Table.PlanVacuum | src/manifest.rs:199-227 | lists and reads; for any answers, the targets of the protocol's vacuum or an abort |
| JobRun.BeginPublishes | src/job.rs:145-160 | every table starts one above the version read, from the files read or, clean, from none; otherwise the error of an unreadable manifest and no run |
| JobRun.UploadOutputs | src/job.rs:415-446 | one PUT after another up to the first that fails; the entries of all outputs iff none does |
| JobRun.RunMappings | src/job.rs:244-354 | each table's list is exact and it is touched iff a mapping won it something; errors, wins and skips add up to the mappings |
| JobRun.RunMapping | src/job.rs:244-354 | one turn keeps every table's list exact, whether it wins, fails or is skipped |
| JobRun.WinFolds | src/job.rs:344-351 | the list holds exactly the new files of the mappings that won and the previous files of the others |
| JobRun.FreshKeys | src/job.rs:144-160 | a mapping's new keys are in no other entry of the list |
| JobRun.OrderIrrelevant | src/job.rs:244-354 | the list is determined by what the run started from and which mappings won |
| JobRun.OrderOfMappings | src/job.rs:244-354 | two loops over the same mappings in any two orders, the same ones winning, end with equal lists and marks for every table |
| JobRun.NoWinNoChange | src/job.rs:356-362 | a table no mapping won anything for keeps its list |
| JobRun.PartitionedWins | src/job.rs:415-446 | the entries of a mapping have distinct keys, all its own, under the run's version |
| JobRun.RunJob | src/job.rs:145-354 | from the manifests read to the lists to publish: an unreadable manifest stops the job; otherwise the mappings that win are those whose PUTs are all confirmed, and each table's list has a file iff a winner wrote it or the old list had it, the run is not clean, and no winner replaced it; version one up; without a win on a table of a non-clean run the list is the old one |
| JobRun.TableMadeFrom | src/job.rs:145-354 | the same of one table, given its start and the winners |
| TableRun.UploadMapping | src/job.rs:344-353 | uploads one mapping's outputs, each byte for byte under its own key, and folds exactly their entries in, or leaves the list as it was |
| TableRun.StaysStored | src/job.rs:415-446 | another mapping's uploads overwrite none of a mapping's files of the same run |
| TableRun.FoldMappings | src/job.rs:244-354 | exactly the mappings whose PUTs are all confirmed win; the store holds every winner's output, and the list is exact |
| TableRun.RunTable | src/job.rs:145-394 | for any answers and any cancel flag: which mappings win, whether there is one version more, and its list (exactly the winners' outputs and the previous files of the rest, with the bytes of both); with every answer a confirmation all mappings win, the version is published and reported, and nothing is left but the window |
| TableRun.PublishesRun | src/job.rs:356-394 | what is published carries every output of the winners and the previous files of the others, byte for byte |
| TableRun.PublishAndVacuum | src/job.rs:359-394 | reports success iff manifest and pointer are confirmed; one version more iff they arrive, with the bytes the store had under its keys; with every answer a confirmation nothing is left but the window |
| TableRun.AllWell | src/job.rs:145-394 | with every answer a confirmation every mapping wins and the version is published |
| Queue.FenceInjective | src/queue.rs:263-268 | two fences are equal iff job and attempt are |
| QueueDelivery.EffectFacts | src/queue.rs:498-797 | an entry is acked only into the delayed set or after a terminal status |
| QueueDelivery.StepConserves | src/queue.rs:482-495 | every step, a crash anywhere included, keeps every unfinished job |
| QueueDelivery.JobsAreConserved | src/queue.rs:193-224 | at every later moment an enqueued job is undelivered, pending or delayed, or its live hash has had a terminal status |
| QueueDelivery.FinishedWasMarked | src/queue.rs:419-443 | a job counted as finished had a terminal status in its live hash |
| QueueAttempts.EffectPays | src/queue.rs:545-595 | an attempt counted is spent on an entry, held by one handler, or given back |
| QueueAttempts.ApplyPays | src/queue.rs:545-612 | entries and held attempts together never exceed the attempts field, nor entries and chances to enter the limit |
| QueueAttempts.BoundedExecution | src/queue.rs:545-595 | no run enters `execute_job` for one job more than `max_attempts` times |
| QueueFencing.NewFence | src/queue.rs:577-578 | a fence that is handed out is nobody else's |
| QueueFencing.StepKeepsFences | src/queue.rs:249-313 | every step keeps fences unique and below the attempts field |
| QueueFencing.OneFencePerLock | src/queue.rs:249-313 | at most one handler's fence is the value of a lock, under the fencing assumption |
| QueueFencing.AttemptsRise | src/queue.rs:545-578 | the attempts at which a job takes its lock strictly increase |
| QueueLeases.LostLeaseStaysLost | src/queue.rs:249-313 | once lost, a lease is never renewed or released by its old holder, and a renewal cancels it |
| QueueLeases.ReleaseFrees | src/queue.rs:249-254 | at the end of a run and before a retry the lock is given up if it is still the handler's, and left alone if it is not |
| QueueLeases.OtherLeaseHeld | src/queue.rs:249-313 | nobody else's step touches the lock of a handler with a young lease |
| QueueLeases.MutualExclusion | src/queue.rs:577-691 | at most one handler per pipeline with a young lease is inside `execute_job`, under the fencing assumption |
| QueueSingle.BoundedLocks | src/queue.rs:545-595 | no run takes the lock for one job more than `max_attempts` times, however deliveries overlap |
| QueueSingle.OneInside | src/queue.rs:545-691 | with one attempt no two handlers of a job are ever inside `execute_job`, no assumption made |
| QueueSingle.SingleExcludes | src/queue.rs:577-691 | with one attempt young leases exclude one another, no assumption made |
| QueueSingle.SingleFence | src/queue.rs:249-313 | with one attempt at most one handler's fence is the value of a lock, no assumption made |
| QueueCollision.FencesCollide | src/queue.rs:547-595 | from two attempts on, two handlers of a job end up with one fence, both executing with leases renewed this moment; every reclaim waits out the idle time |
| QueueCollision.NeverCollidesIff | src/queue.rs:547-595 | no run has two handlers of a pipeline executing with young leases iff `max_attempts` is at most one |
| QueueSweep.AlwaysSpared | src/queue.rs:991-1077 | within the grace period no sweep of any run marks a job |
| QueueSweep.SweepRace | src/queue.rs:991-1077 | beyond it, a job still waiting on the stream is abandoned |
| QueueSweep.SweepIsSoundIff | src/queue.rs:984-1077 | no run abandons a job iff the two delays together stay under the grace period |
| QueueEntries.EntriesAreSent | src/queue.rs:876-886 | a message stands on the stream or in the delayed set no more often than it was enqueued or put off, whatever is redelivered |
| QueueEntries.WaitsItsTime | src/queue.rs:876-886 | a job put off waits in the delayed set until its time has come |
| QueueEntries.LeavesPending | src/queue.rs:460-527 | only an ack that arrives, or putting the job off, takes an entry off the pending list; a lost ack or a crash leaves it to be delivered again |
| QueueEntries.NeverDeliveredAgain | src/queue.rs:482-495 | an entry whose handler put its job off or acked it starts no other handler |
| QueueStatus.StatusIsTrue | src/queue.rs:419-797 | what a status stands for has happened to the job: completed means a handler of its came back clean from `execute_job`, failed means refused, given up, failed or unreadable at the last attempt |
| QueueStatus.RedeliveryGuard | src/queue.rs:537-543 | a delivery that reads a terminal status never does anything to the job again but ack its entry |
| QueueCall.Story | src/queue.rs:498-797 | where a call stands, or how it ended, tells what it has seen and done; an ack means its final status was written: completed iff the job ran and came back clean |
| QueueCall.CourseCameBack | src/queue.rs:692-792 | the status a run ends with is completed iff it came back clean, failed iff with errors or a bad config; retried only for an unreadable config, dropped only on a lost lock |
| QueueCall.CourseDies | src/queue.rs:498-797 | a call dies at the first turn its process dies, and at no other |
| QueueCall.BackoffDoubles | src/queue.rs:181-186 | thirty seconds, doubled at each attempt, never more than ten minutes |
| QueueWorker.Worker.HandleClaimed | src/queue.rs:498-797 | whatever happens between its requests it takes only steps of the machine; acked only with its final status written to the live hash (completed iff it ran and came back clean), or after a terminal status it read; deferred only without having run or on an unreadable config; stopped only by its lost lock; dead exactly when its process is to die |
| QueueWorker.Worker.CountAndLock | src/queue.rs:545-612 | only steps of the machine, as planned for the call, ending as `finish_job` does, deferred, or stopped by its lost lock |
| QueueWorker.Worker.Execute | src/queue.rs:620-792 | a run that comes back clean ends the job completed, one with errors or a bad config failed, one with an unreadable config is retried while attempts are left; nothing else |
| QueueWorker.Worker.RetryJob | src/queue.rs:741-776 | only steps of the machine; with attempts left it ends deferred or dead, otherwise as `finish_job` does |
| QueueWorker.Worker.FinishJob | src/queue.rs:393-474 | it ends at a fence check that found another holder, acked with exactly this status written to the live hash, or dead |
| QueueWorker.Worker.FenceCheck | src/queue.rs:402-417 | goes on iff the lock was free or this attempt's at the moment of the GET; otherwise the handler is over |
| LeasedPublish.OneWriter | src/queue.rs:577-691 | while leases are young a table has one writer; with one attempt whatever overlaps |
| LeasedPublish.TableProjection | src/job.rs:145-394 | whatever handlers do, the table goes through a run of the publish protocol, each request made by a writer |
| LeasedPublish.LeasedTimeTravel | src/manifest.rs:193-236 | every version in the window reads back as the handler that built it left it |
| LeasedPublish.LeasedIsolation | src/manifest.rs:132-157 | in every state the current version can be read, or there is none |
| LeasedPublish.NoVersionTwice | src/job.rs:359-394 | no version of a table is published by two runs |
| LeasedWarehouse.TableView | src/job.rs:145-446 | in a tidy warehouse shared by handlers of many jobs, each table goes through a run of LeasedPublish, event by event |
| LeasedWarehouse.LeasedTableReadable | src/manifest.rs:132-157 | there, in every state every table's current version can be read, or there is none |
| LeasedWarehouse.LeasedTableTimeTravel | src/manifest.rs:193-236 | there, every version in the window reads back as the handler that built it left it, whatever handlers did to this or any other table |
| LeasedWarehouse.NoTableVersionTwice | src/job.rs:359-394 | there, no version of a table is published by two runs |
| LeasedRun.SomeRunPublishes | src/job.rs:145-394 | the assumptions of LeasedWarehouse can be met, whatever the tables: a run in which a handler takes its job through the queue and publishes the first version of its table |
| LeasedRun.SomeTablePublishes | src/job.rs:145-394 | so can those of LeasedPublish |
| Debounce.Debouncer.DebounceEvent | src/queue.rs:1085-1105 | sets the firing time and, if none is alive, the batch marker |
| Debounce.Debouncer.PopDue | src/queue.rs:1108-1114 | pops the earliest due slugs, at most ten, all if there are fewer, and their markers |
| Debounce.Debouncer.EarliestDue | src/queue.rs:1109 | due slugs only, none left that was due earlier, all of them if ten suffice |
| Debounce.DebounceWindow | src/queue.rs:1085-1105 | a slug is scheduled iff it has uploads no pop returned, at the earlier of 5 s after the last and 30 s after the start, which is the first of them iff the last came within two minutes of it |
| Debounce.PopsAreEarned | src/queue.rs:1108-1114 | two pops of a slug have an upload between them, and a pop comes only once its window has run out |
| CsvLine.SplitCsvLine | src/dimension.rs:263-281 | the loop computes the split the round trip is about |
| CsvLine.SplitsAsWritten | src/dimension.rs:263-281 | a written line, fields quoted or bare, splits into its fields, carriage returns at the end gone |
| CsvLine.CsvRoundTrip | src/dimension.rs:263-281 | nothing is lost iff the last field does not end in a carriage return |
| CsvLine.FieldsAreSeparated | src/dimension.rs:263-281 | any line has one field more than it has commas with an even number of quotes before them |
| Dimensions.IndexKeys | src/dimension.rs:89-103 | succeeds iff all keys differ, and then gives every key's row; otherwise names a repeated key |
| Dimensions.New | src/dimension.rs:60-113 | succeeds iff there are at most a million rows and, for exact matching, no two patterns are the same key, alike in lower case where case is ignored; which error otherwise |
| Dimensions.FindRow | src/dimension.rs:135-151 | the row a linear scan settles on: the first match, or for keywords the first of highest priority |
| Dimensions.Lookup | src/dimension.rs:128-161 | the value of the row a scan of the rows as given settles on, by equality or containment, in lower case where case is ignored; `on_miss` iff no row matches |
| Dimensions.ScanIsFunction | src/dimension.rs:128-161 | the scan determines the result |
| Dimensions.SomeoneWins | src/dimension.rs:140-151 | if a row matches, there is a row the scan settles on |
| Dimensions.BuildInlineRegistry | src/dimension.rs:166-186 | succeeds iff every inline dimension compiles, and has the last one of each id |
| Dimensions.FindColumns | src/dimension.rs:212-233 | where each wanted column is, or the first that is missing |
| Dimensions.RowsFromCsv | src/dimension.rs:190-260 | the rows of the lines with a key, up to the cap, or failure; which error and when |
| Dimensions.RecordReadsBack | src/dimension.rs:239-252 | a record written on one line of a reference file reads back as its row, priority included; too short for its key it is no row, and values it is too short for are missing |
| Dimensions.DistinctIffNoClash | src/dimension.rs:89-103 | keys differ iff no two patterns are alike, or alike in lower case if case is ignored |
| Dimensions.MatchesIffHits | src/dimension.rs:128-151 | the compiled row matches the folded input iff the row as given meets the input as given: equal for exact mode, contained in it for keywords |
| Dimensions.WinsIffBest | src/dimension.rs:135-151 | the row found is the best of the rows as given |
| Dimensions.RowsOfParts | src/dimension.rs:235-258 | rows come in the order of the lines |
| JsonPath.CompilePath | src/json_source.rs:22-61 | the loop computes the steps the round trip is about, or the code's errors |
| JsonPath.PathRoundTrip | src/json_source.rs:22-61 | steps survive printing and compiling iff there is one and all are well-formed |
| JsonPath.CompilesWellFormed | src/json_source.rs:22-61 | whatever compiles gives well-formed steps, at least one |
| JsonPath.PathNormalForm | src/json_source.rs:22-61 | a path that compiles has a printed form that compiles to the same steps |
| JsonPath.Resolve | src/json_source.rs:65-74 | the loop follows the steps one by one |
| JsonPath.ResolveComposes | src/json_source.rs:65-74 | following two paths in turn is following their concatenation |
| JsonPath.ParseRecords | src/json_source.rs:146-158 | records in order; records and skipped lines add up to the lines that are not blank |
| JsonPath.RecordsOfParts | src/json_source.rs:146-158 | records come in the order of the lines |
| JsonPath.RecordOfLine | src/json_source.rs:146-158 | a line holds a record iff something is left of it once trimmed, and that parses |
| JsonPath.ResolvesIffFits | src/json_source.rs:65-74 | a path leads somewhere iff every key on the way is a member and every index is below the length of the array reached |
| JsonPath.ReplacedReadsBack | src/json_source.rs:65-74 | what is put at a path is what the path leads to |
| JsonPath.ReplacedKeepsOthers | src/json_source.rs:65-74 | paths that part from it lead where they did before |
| Validation.Validate | src/config.rs:248-524 | succeeds iff no problem exists; otherwise reports every problem and nothing else |
| Validation.CheckIds | src/config.rs:527-563 | reports exactly the empty, repeated and unnamed |
| Validation.VisitDimensions | src/config.rs:320-344 | reports exactly the references to undeclared dimensions and value columns |
| Validation.VisitWhere | src/config.rs:349-374 | reports exactly the undeclared dimensions and output columns, not value columns |
| Validation.CheckMappings | src/config.rs:299-420 | reports exactly the problems of all mappings |
| Validation.CheckPartitionKeys | src/config.rs:439-462 | reports exactly the repeated, unknown and float-capable keys |
| Validation.CheckNesting | src/config.rs:505-517 | reports exactly the pairs of overlapping prefixes |
| SoundConfig.ValidIffSound | src/config.rs:248-524 | validation accepts exactly the sound configs: ids given and unique, every reference and column there at any depth, output columns in the table, keys columns without floats, prefixes relative folders that do not begin one another |
| SoundConfig.NodesAre | src/config.rs:566-629 | the walk visits everything that occurs in an expression, and nothing else |
| Evaluator.CompileFindsFirstFault | src/evaluator.rs:37-195 | compilation fails with the error of the first faulty node the walk meets, and only then |
| Evaluator.CompilesIff | src/evaluator.rs:171-182 | an expression compiles iff every dimension reference in it resolves |
| Ingest.LoadRows | src/job.rs:217-231 | the rows of all CSV files of a dimension, in order; fails iff one of them cannot be read or has no rows to give |
| Ingest.LoadMatcher | src/job.rs:217-234 | succeeds iff the listing, the files and the rows allow it, and is compiled from exactly those rows |
| Ingest.LoadRegistry | src/job.rs:202-235 | succeeds iff every dimension can be loaded; with distinct ids every one gets its matcher, from its own rows |
| Ingest.LoadedIsComplete | src/job.rs:202-235 | a registry loaded for a valid config has every dimension and its columns |
| Ingest.ColumnsCompile | src/pipeline.rs:140-145 | every column expression of a valid config compiles, at any depth |
| Ingest.FilterCompilesIff | src/pipeline.rs:149-153 | a `where` of a valid config compiles iff the value columns it names exist; nothing else can fail |
| Ingest.MappingCompilesIff | src/pipeline.rs:125-153 | a mapping of a valid config compiles iff the record filter does and its `where` names existing value columns |
| Ingest.ValidationGaps | src/config.rs:349-374 | a valid config whose `where` and record filter do not compile |
| Ingest.ValidMappingIds | src/config.rs:269-276 | a valid config's mappings have distinct ids |
| Ingest.ValidPartitionKeys | src/config.rs:431-462 | a valid table has at most two partition keys, distinct, declared and without floats |
| Ingest.OtherFilesPassed | src/job.rs:217-231 | a file whose name does not end in `.csv` is passed over |
| Ingest.CsvFileAdds | src/job.rs:217-231 | one that does adds its rows behind the others', or spoils them |
| Routing.CandidateKeys | src/job.rs:164-178 | exactly the keys listed under a source's prefix whose names end as its format has it, each once |
| Routing.PrefixesDisjoint | src/config.rs:484-517 | a key has at most one prefix of a valid config |
| Routing.FilesGoHome | src/job.rs:254-266 | every file a mapping gets resolves to its own source, was listed by it and has its extension |
| Routing.FilesGoOnce | src/job.rs:254-266 | no file goes to two sources |
| Routing.AcceptsByName | src/config.rs:48-53 | a CSV source reads `.csv` files, a JSON source `.json`, `.jsonl` and `.ndjson` |
| Routing.FilesInOrder | src/job.rs:254-258 | files keep the order they were downloaded in |
| Http.ValidatePipelinePrefix | src/http.rs:220-253 | accepts exactly the paths of good segments with a trailing slash, short enough, told by segments and by characters |
| Http.MatchKey | src/http.rs:89-98 | exactly the slugs of the nonempty prefixes the key begins with, sorted, each once |
| Http.ValidIffFolder | src/http.rs:220-253 | the same said of the characters: at most 512, harmless, a slash at the end, and between two slashes never nothing, one dot, or two |

## Left out

- Polars (reading CSV, evaluating expressions, grouping, deduplicating, Parquet): what a mapping produces is a parameter, and Parquet bytes are opaque.
- Text of floats: its formatting is library code, and validation keeps floats out of partition keys. A date is its text.
- The text of JSON documents, UTF-8 decoding, `trim`, `lines` and `to_lowercase`: parameters or done before the modelled code starts.
- Typed column builders of the JSON reader: each value is converted on its own.
- Listing pagination, retries inside the S3 client, Postgres, HTTP routes, health, authentication, progress and pub/sub.
- Assertions on output columns, header checks, environment checks: each is settled by reading it.
- Stream trimming and the expiry of live hashes: with them the sweep and delivery say less.
- That a run fenced out never publishes, that a terminal status is never overwritten, that a finished job has its database row: the code does not keep these.
- How long anything takes: deliveries, retries and renewals may be delayed without bound, and no liveness is claimed.
- Debounce.Debouncer.DebounceEvent: one step here, while the code sends two commands; events of one slug that interleave are not covered.
- Validation.Validate: does not fix the order of the errors, and messages are structured values instead of text.
- Queue: handlers are program counters in the state machine; `QueueWorker` ties them to the code. The consumer, mover and reclaimer loops are single steps, and the reclaimer may take any pending entry at any time, whatever its idle time.
- JobRun.RunMappings, JobRun.RunMapping, JobRun.RunJob: PUTs there are confirmed or not, and leave nothing to look at; `TableRun` has them against a store, for one table.
- TableStore.Table.PutPartition, TableStore.Table.UploadPartitions, TableRun.UploadMapping, TableRun.RunTable: for tables without a slash in their id; uploads of the others leave the table, and `WarehouseNesting` says what becomes of them.
- Paths.UrlDecode: bytes in, bytes out; the lossy conversion to UTF-8 that follows is left out.
- Dimensions.RowsFromCsv: takes lines; UTF-8 and the split into lines come before, so a field with a line break, or a line of white space only, does not survive the file.
- Dimensions.RecordReadsBack: for the same reason, a record on one line.
- Warehouse: one run at a time per table, and a GET or listing sees the bucket as it is; `LeasedWarehouse` has the handlers.
- QueueFencing.OneFencePerLock, QueueFencing.AttemptsRise, QueueLeases.MutualExclusion: under the fencing assumption, which the code does not keep; `QueueSingle` and `QueueCollision` say when it is not needed.
