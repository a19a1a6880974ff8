# Verified model of ragledger's core

ragledger records how documents become index points (sources, parses, chunks, embeddings, bindings) and
reconciles that record with what a vector index really holds. This Dafny project models the parts on which
its guarantees rest and proves them for all inputs, all runs and all reachable states.

- **Reconciliation.** The sort-merge join over possibly missing and duplicate keys, the three closing levels
  over shrinking leftovers, and the external-sort path that spills sorted runs and merges them back. The two
  paths are the same function of the points as they read back from a spill; they agree exactly when no
  expected point has an empty payload projection.
- **Canonical JSON** (sections 3.2.2 and 3.2.3 of RFC 8785). Printer, reader, exact decimal numbers, UTF-16
  key order. Reading undoes printing; text identity is document identity.
- **The leased job queue.** A step system with a clock, several workers, crashes, retries and cancellation.
  There is no fencing token: mutual exclusion, single handler effects and final statuses are each proved equivalent
  to a guard the code does not check, and derived from a timing assumption; a concrete run breaks all three.
- **Structure-aware chunkers.** Greedy packing with offsets, splitting and overlap, over whole documents.
- **Snapshots.** The streaming writer, the reader with one line of lookahead, and checkpoint resumption.
- **The stage cache.** Builds that share a cache against builds without one.
- **Recognizers.** The license expression automaton against its grammar; the Luhn and MOD 97 checks.

To verify it: `dafny verify dfyconfig.toml`.

## Modules

| files | component |
|---|---|
| `Ordering`, `StableSort` | lexicographic order, stable sort by rank, merging of runs |
| `MergeJoin`, `Matching`, `Spill`, `Engine`, `Report`, `ReconcileLaws` | the join, the levels, run-file records, the external-sort path, suggestions and ratios |
| `Decimal`, `Utf16`, `Canonical`, `CanonicalRoundTrip`, `CanonicalOrder`, `CanonicalNormal`, `CanonicalIdentity`, `CanonicalEncoder`, `CanonicalLaws` | canonical JSON |
| `JobQueue`, `JobProtocol`, `JobLaws` | the job table with one worker's loop, the step system, and what they promise a job |
| `Tokenizer`, `Chunks`, `Packing`, `Chunkers`, `Candidates`, `ChunkGuarantees`, `ChunkContents`, `TokenLimit` | the chunkers |
| `Snapshot`, `SnapshotProofs`, `SnapshotNormalized`, `SnapshotLaws` | the snapshot format |
| `JsonDict`, `CandidateJson`, `StageKeys`, `StageCaching`, `Builds`, `CacheTransparency`, `StaleBuild`, `BuildLaws` | dicts with fixed names, and the stage cache |
| `Spdx`, `Checksums` | the recognizers |

## What enters as a parameter

- Unicode NFC is a function `nfc` on strings; the canonical-JSON laws hold for every such function. The hash is
  a function on strings, taken to be free of collisions only where a lemma says so (`CollisionFree`, `Injective`).
- A float is its sign and the decimal text Python's `repr` gives for it; the model starts from that text.
- Pydantic's record readers, parsers, chunkers and embedding providers are functions; adapters depend on their
  name and version, on what their configuration holds, and on their input, a provider also on which attempt it is. Parse limits and sandboxing are fixed.
- Finding classifiers, the personal-data block and the payload projection are functions.
- Time enters as the argument of each lease and of the clock step; handler behaviour as a function or a choice of step.
- Run files, the cache directory and snapshot files are sequences of records, a map, and text.

## Where code and documentation disagree

The model follows the code.

- The chunk-size documentation calls the token limit hard (`src/ragledger/pipeline/chunkers/base.py:213`). Two things
  take a candidate beyond it: the hybrid chunker adds an item to the overlap tail without checking the size again, and
  a table header is put before the text of a chunk that continues a table. Limit plus overlap plus header is the exact
  bound; over documents without table headers the limit is hard exactly when no overlap is configured:
  `YieldedTokens`, `LimitExceeded`, `HeadersExceedLimit` and `LimitHardIff`.
- Object members are sorted by raw key and then printed under normalized names, so names that are not in NFC can be
  printed out of RFC 8785 order: `PrintedNamesAscend` and `NormalizationCanDisorder`.
- Integers are printed in full and floats in the RFC's shortest form, so from twenty-two digits on an integer and
  the float of the same value have different texts: `WideIntegerSplits`.
- The small and the big reconciliation path are documented as equivalent; an empty payload projection comes back from
  a spill as none: `PathsAgree`.
- Cache presence is documented never to change a build's output; keys are taken over normalized text while stages see
  the text as it is. A build can record the vector of another text that normalizes alike, and a chunk that ends where
  that text does: `ChunkTransparentIff`, `EmbedTransparentIff`, `CacheShowsIff` and `ChunkRecordsAgreeIff`.
- A snapshot is documented to replay the points it was written from. The writer normalizes every string, so a point with a
  string that is not in NFC comes back as another point, and two points can come back as one: `SnapshotRestoredIff`,
  `AngstromChanges` and `AngstromCollides`.
- The running status is flushed inside the handler's transaction and committed only as the status that replaces it, so no
  committed row is ever running; the row invariant says so.
- The module documentation says that two workers can never lease the same row; after a lease expires a second worker
  leases it while the first may still be at work: `ExclusionIffNoLateTakeover` and `StalledWorkerMisbehaves`.
- The module documentation says that cancellation covers queued jobs only; the code also flags leased and running ones.
- A handler is documented to poll for cancellation between units of work. The flush that marks its job running holds the row's
  lock, and a cancel locks the row it reads (`src/ragledger/server/api/pipeline_routes.py:97-105`), so no request made
  while the handler is at work can be seen by it: `FlagKeptAtWork`.

## Model

| member | source | states |
|---|---|---|
| `MergeJoin.StreamMergeJoin` | src/ragledger/reconcile/matching.py:337-425 | the three loops over the two iterators, with their group scans, compute the recursive join for every pair of streams, sorted or not |
| `MergeJoin.JoinAtKey` | src/ragledger/reconcile/matching.py:348-420 | on sorted streams, at every key held by m expected and n observed items: exactly the first min(m, n) of each are paired, in order; the rest are leftovers, once each and in order; a side reports a duplicate group exactly when it has two or more items and the other side has one |
| `MergeJoin.JoinNoKey` | src/ragledger/reconcile/matching.py:375-382 | items without a key are never paired: all of them are leftovers, in order |
| `MergeJoin.JoinPairsAgree` | src/ragledger/reconcile/matching.py:392-410 | the two points of every pair have the same, present key, on any streams |
| `MergeJoin.JoinConserves` | src/ragledger/reconcile/matching.py:372-425 | each side is, as a multiset, its paired items plus its leftovers, on any streams |
| `MergeJoin.JoinMap` | src/ragledger/reconcile/matching.py:337-425 | the join looks at nothing but keys: it commutes with every change of the expected items that keeps their keys |
| `Matching.MatchAllLevels` | src/ragledger/reconcile/matching.py:446-465 | the loop over the closing levels is the recursion of rounds in which each level gets what the one before left over |
| `Matching.RoundAtKey` | src/ragledger/reconcile/matching.py:446-463 | the per-key pairing law holds in the order of the unsorted pools, because sorting is stable |
| `Matching.RoundCloses` | src/ragledger/reconcile/matching.py:446-465 | what a round leaves over on the two sides shares no key of its level |
| `Matching.RunConserves` | src/ragledger/reconcile/matching.py:440-476 | over any list of levels: expected is matched plus missing, observed is matched plus orphans, as multisets |
| `Matching.RunCloses` | src/ragledger/reconcile/matching.py:446-465 | after the run no missing and orphan point share a present key of any level that was run |
| `Matching.RunPairs` | src/ragledger/reconcile/matching.py:304-313 | a matched pair shares the key of the level it is labelled with, has that level's confidence, and shares the key of no earlier level |
| `Matching.RunMembers` | src/ragledger/reconcile/matching.py:440-476 | nothing is invented: matched, missing and orphan points come from the inputs |
| `StableSort.SortCharacterized` | src/ragledger/reconcile/matching.py:447-448 | a sequence is the stable sort of another exactly when it is sorted and keeps, for every rank, the items of that rank in order |
| `StableSort.MergeIsSort` | src/ragledger/reconcile/engine.py:229-234 | merging sorted runs, the earliest run first among equals, is the stable sort of the runs laid end to end |
| `StableSort.ExternalSort` | src/ragledger/reconcile/engine.py:184-204 | cutting a stream into chunks, sorting each and merging them back is sorting the stream, whatever the cuts |
| `Engine.RunWriter.constructor` | src/ragledger/reconcile/engine.py:168-182 | a new writer has taken nothing |
| `Engine.RunWriter.Add` | src/ragledger/reconcile/engine.py:184-187 | the writer has taken one more item, its buffer is never fuller than the chunk size allows, and every run is a spilled, sorted chunk |
| `Engine.RunWriter.Flush` | src/ragledger/reconcile/engine.py:189-199 | the buffer is emptied into a run and nothing taken is lost or reordered |
| `Engine.RunWriter.Finish` | src/ragledger/reconcile/engine.py:201-203 | the runs hold everything taken, in sorted chunks of at most the chunk size |
| `Engine.MergeSpilled` | src/ragledger/reconcile/engine.py:221-234 | reading the spilled runs back through the merge gives the stable sort of what was spilled, for every chunk size |
| `Spill.SpillReads` | src/ragledger/reconcile/matching.py:516-575 | reading back the dict of an expected point gives the point, except that an empty payload projection comes back as none |
| `Engine.RespillKeepsKeys` | src/ragledger/reconcile/matching.py:247-258 | that loss changes no key at any level, and losing twice is losing once |
| `Engine.ReconcileBigData` | src/ragledger/reconcile/engine.py:293-395 | spilling, merging, joining and spilling the leftovers again gives, for every chunk size, the outcome of the in-memory levels on the points as they read back from a spill |
| `Engine.RunRespilled` | src/ragledger/reconcile/engine.py:293-395 | that outcome is the in-memory outcome, in the same order, with every expected point as it reads back |
| `Engine.PathsAgree` | src/ragledger/reconcile/matching.py:537-539 | the two paths agree exactly when no expected point carries an empty payload projection, which a spill turns into none |
| `Report.RelocationSuggestions` | src/ragledger/reconcile/matching.py:479-507 | each of the two suggestion maps lists, under each id, the ids it was paired with at the suggestion levels, in order, and has no other entry |
| `Report.MatchWithSuggestions` | src/ragledger/reconcile/matching.py:433-476 | the outcome of the closing levels, with suggestion maps for exactly what it leaves missing and orphaned |
| `Report.ReconcileWithSuggestions` | src/ragledger/reconcile/engine.py:293-407 | the same of the external-sort path, for every chunk size, on the points as they read back |
| `Report.SuggestionsMirror` | src/ragledger/reconcile/matching.py:495-498 | the two maps are transposes: a candidate is listed as often from either side |
| `Report.SuggestionsUnresolved` | src/ragledger/reconcile/matching.py:479-488 | a suggestion joins a missing and an orphan point that share lineage or content but no identity key |
| `Report.OutcomeCounts` | src/ragledger/reconcile/engine.py:594-606 | matched plus missing counts everything expected, matched plus orphans everything observed |
| `Report.FinalizeRatios` | src/ragledger/reconcile/engine.py:536-606 | the counters of the finalizing loops give the five ratios of the outcome |
| `Report.RatiosWithinUnit` | src/ragledger/reconcile/report.py:61-66 | for all inputs and all finding classifiers every ratio is absent or within zero and one; missing and orphan ratios complement what was matched |
| `Report.RatiosCount` | src/ragledger/reconcile/engine.py:536-606 | each ratio times its denominator is the size of a set of positions: observed points not found unverifiable, expected ones missing, observed ones orphaned, matched ones found stale in one of three ways, and, of the matched ones with a non-empty access list, those without one of three violations; a ratio is absent exactly where there is nothing to divide by |
| `ReconcileLaws.RoundByField` | src/ragledger/reconcile/matching.py:247-272 | every level compares the field it is named after (point id, embedding id, chunk id, source version, expected payload hash with payload hash): the per-key law of pairing, leftovers and duplicate groups holds of the points with each value of that field |
| `ReconcileLaws.ThreeRounds` | src/ragledger/reconcile/matching.py:440-476 | the outcome is a round by point id, one by embedding id over what it leaves and one by chunk id over what that leaves, with pairs and duplicates listed in this order |
| `ReconcileLaws.NothingClosable` | src/ragledger/reconcile/matching.py:446-465 | no missing point and orphan point have the same point id, the same embedding id or the same chunk id |
| `ReconcileLaws.PairFields` | src/ragledger/reconcile/matching.py:64-99 | a pair is a point-id match exactly if the point ids agree; an embedding-id match agrees on the embedding id, a chunk-id match on the chunk id and not on the embedding id; all are high |
| `ReconcileLaws.DuplicateFields` | src/ragledger/reconcile/matching.py:394-418 | every duplicate group reported holds two or more points of its side, all with its key as the value of the field its closing level names |
| `ReconcileLaws.RelocationsRelated` | src/ragledger/reconcile/matching.py:479-507 | a point listed with a binding in either map is that of a missing and an orphan point with one source version or one payload hash; and of any two such points at least one is listed |
| `ReconcileLaws.RoundOrdered` | src/ragledger/reconcile/matching.py:275-301 | a round pairs and leaves over in the order of its level's keys: present ones ascending by code point, none after a missing one |
| `ReconcileLaws.LeftoversOrdered` | src/ragledger/reconcile/matching.py:275-301 | missing and orphan points are listed by ascending chunk id, those without one last |
| `Ordering.LexLtIs` | src/ragledger/reconcile/matching.py:275-301 | one key is before another exactly when it begins it or is smaller where they first differ |
| `CanonicalRoundTrip.RoundTrip` | src/ragledger/core/canonical.py:81-131 | reading the canonical text of any value without NaN or infinity returns what the value denotes: exact numbers, wide integers marked, normalized strings, members in order |
| `CanonicalRoundTrip.TextIdentifies` | src/ragledger/core/canonical.py:66-78 | equal canonical texts denote the same document |
| `CanonicalIdentity.IntegerPrintsAsFloat` | src/ragledger/core/canonical.py:86-87 | a positive integer prints as the float of the same value exactly up to twenty-one digits |
| `CanonicalIdentity.TextIffDenotes` | src/ragledger/core/canonical.py:66-78 | texts are equal exactly when the documents denote the same |
| `CanonicalIdentity.PrintAfterRead` | src/ragledger/core/canonical.py:66-78 | printing what was read gives the text back |
| `CanonicalIdentity.WideIntegerSplits` | src/ragledger/core/canonical.py:86-89 | an integer and a float of the same value are the same number, and denote and print the same exactly up to twenty-one digits |
| `CanonicalOrder.InsertionOrderIrrelevant` | src/ragledger/core/canonical.py:99-105 | dicts with the same members have the same text, whatever their insertion order |
| `CanonicalIdentity.PrintedNamesAscend` | src/ragledger/core/canonical.py:99-105 | the names read from an object's text ascend by UTF-16 code units exactly when normalization keeps the order of the raw keys |
| `CanonicalIdentity.PrintedNormalNamesAscend` | src/ragledger/core/canonical.py:99-105 | keys already in NFC are printed in strictly ascending order |
| `CanonicalIdentity.NormalizationCanDisorder` | src/ragledger/core/canonical.py:101-109 | two distinct keys, one of them not in NFC, whose names are printed out of order |
| `CanonicalEncoder.EncodeStringParts` | src/ragledger/core/canonical.py:108-119 | the loop over the normalized characters gives the quoted, escaped string |
| `CanonicalEncoder.EncodeObject` | src/ragledger/core/canonical.py:99-105 | sorting, encoding and joining member by member gives the object's text, or nothing exactly where a member holds NaN or infinity |
| `CanonicalEncoder.TextPrintable` | src/ragledger/core/canonical.py:108-119 | canonical text holds no control character, so no raw line break |
| `Utf16.Utf16CodeUnits` | src/ragledger/core/canonical.py:179-196 | the loop gives the surrogate-pair encoding of every character in order |
| `Utf16.UnitsInjective` | src/ragledger/core/canonical.py:179-196 | different strings have different code units |
| `Utf16.UnitsOfCharacter` | src/ragledger/core/canonical.py:179-196 | a character up to U+FFFF is its own unit; any other is a high and then a low surrogate, from which its code point is computed back |
| `Utf16.UnitsBelow` | src/ragledger/core/canonical.py:179-196 | every unit has sixteen bits |
| `Utf16.UnitOrder` | src/ragledger/core/canonical.py:99-106 | strings compare by units as their first different characters do: by code point, except that U+E000 to U+FFFF come after everything above |
| `CanonicalLaws.PrintedInUnitOrder` | src/ragledger/core/canonical.py:99-106 | of any two names printed, the earlier one is before the later one in that order, for keys in normal form |
| `CanonicalLaws.EmojiPrintedFirst` | src/ragledger/core/canonical.py:99-106 | the text of an object with a halfwidth letter and an emoji as names: the emoji, of greater code point, first |
| `CanonicalLaws.TextForms` | src/ragledger/core/canonical.py:81-106 | literals, arrays and objects, without white space, arrays in their order |
| `CanonicalLaws.EscapeLength` | src/ragledger/core/canonical.py:108-119 | a quote, a backslash and five named control characters are escaped in two characters, the other control characters in six, and every other character stands for itself |
| `Decimal.SignificantValue` | src/ragledger/core/canonical.py:134-161 | extracting digits and point keeps the exact value of the decimal text, and leaves no zero at either end |
| `Decimal.FormatRoundTrip` | src/ragledger/core/canonical.py:164-176 | all four rendering cases read back to the digits and point they were given |
| `Decimal.NormalUnique` | src/ragledger/core/canonical.py:134-161 | normalized digits and point are determined by the value |
| `Decimal.RenderingIdentifiesValue` | src/ragledger/core/canonical.py:134-176 | two non-zero decimal texts render alike exactly when they denote the same number |
| `CanonicalLaws.ExponentIffOutside` | src/ragledger/core/canonical.py:164-176 | a number is written with an exponent exactly if its value is below 0.000001 or at least 1e21 |
| `CanonicalLaws.ExponentShape` | src/ragledger/core/canonical.py:164-176 | with an exponent: one digit, a point and further digits only if there are any, the letter, a plus sign exactly from one on and a minus sign below, and no leading zero |
| `CanonicalLaws.PlainShape` | src/ragledger/core/canonical.py:164-176 | without one: a leading zero exactly below one and only before the point, and no point or zero at the end of a fraction |
| `CanonicalLaws.NumberSamples` | src/ragledger/core/canonical.py:164-176 | the texts of 1e-7, 0.000001, 1e20, 1e21 and 1.5e23 |
| `JobQueue.JobTable.EnqueueJob` | src/ragledger/server/jobs.py:118-137 | one queued row is appended and no other changes |
| `JobQueue.JobTable.RequestCancel` | src/ragledger/server/jobs.py:87-102 | by the status of its row: queued becomes cancelled, leased or running is flagged and keeps everything else, and of an ended one nothing changes; the three answers accordingly |
| `JobQueue.JobTable.LeaseNextJob` | src/ragledger/server/jobs.py:140-176 | the row leased is a leasable one no other leasable row is older than, and only it changes; none is leased exactly when none is leasable |
| `JobQueue.RunUsesWeight` | src/ragledger/server/jobs.py:194-268 | leasing a job and settling it, however its handler ended, uses up at least one of the runs it had left |
| `JobQueue.JobTable.RunPendingJobs` | src/ragledger/server/jobs.py:179-238 | the loop ends for every handler behaviour; the table is what a log of executions makes of it, each of an oldest leasable job and ended as its handler says; executions plus runs left never exceed the runs there were; without a limit every leasable job ends terminal; other rows and all cancel flags are untouched |
| `JobLaws.SettlePolicy` | src/ragledger/server/jobs.py:194-268 | after a missing handler or a permanent error a job is failed, after a success completed, after an observed cancellation cancelled, at any attempt count; after a transient error it is queued exactly below three attempts and failed otherwise; the error is kept up to 2048 characters, the lease is given up, and nothing else changes |
| `JobLaws.LeasableWhen` | src/ragledger/server/jobs.py:154-166 | queued jobs can be leased, ended ones never, held ones exactly when their lease is over |
| `JobLaws.StepRow` | src/ragledger/server/jobs.py:87-268 | what each step of the several workers does to a row, by step; every other row stays as it is |
| `JobLaws.RunCounts` | src/ragledger/server/jobs.py:140-248 | over every run the two counters of a row count the leases taken from an expired holder and the handler runs whose writes were committed |
| `JobLaws.DrainedRow` | src/ragledger/server/jobs.py:194-268 | over a call, each row is what its own executions made of it; all but the last ended with transient errors below the limit |
| `JobLaws.EmptiedRow` | src/ragledger/server/jobs.py:179-268 | when the queue is emptied, every job that could be leased was run until an ending that is not retried, which decides its status and last error |
| `JobLaws.RunOnce` | src/ragledger/server/jobs.py:225-236 | a job whose handler never ends with a transient error is run exactly once, and has the status and the error of that run |
| `JobLaws.RunThrice` | src/ragledger/server/jobs.py:250-268 | a job whose handler always ends with a transient error is run until its third attempt, once if it is past that, and then fails with its handler's error |
| `JobProtocol.RunKeepsTable` | src/ragledger/server/jobs.py:87-268 | in every committed state of every run a row has an owner and an expiry exactly while leased, a queued row is below the attempt limit, and attempts exceed the limit by at most the takeovers |
| `JobProtocol.InitTable` | src/ragledger/server/jobs.py:87-268 | the same from an empty table, for every run |
| `JobProtocol.RunAdvancesRows` | src/ragledger/server/jobs.py:87-102 | a cancel request is never lost and attempts never decrease, over any run |
| `JobProtocol.RunCountsAttempts` | src/ragledger/server/jobs.py:154-176 | over any run a row's attempts count exactly the leases of its job |
| `JobProtocol.StartsBounded` | src/ragledger/server/jobs.py:194-216 | with any number of workers, handlers start on a job at most MAX_ATTEMPTS times plus once per takeover of an expired lease |
| `JobProtocol.FlagKeptAtWork` | src/ragledger/server/jobs.py:105-115 | while a handler is at work its job's cancel flag does not change, since a cancel waits for the row lock: a handler can only see a request made before it started |
| `JobProtocol.RunOneTransaction` | src/ragledger/server/jobs.py:209-216 | at most one open handler transaction per job at any time, even with expired leases |
| `JobProtocol.RunKeepsSound` | src/ragledger/server/jobs.py:140-248 | a run in which no lease takes over the job of a late worker keeps one worker per job, handler writes exactly once for completed jobs, and terminal rows unchanged; late is past the lease, in flight and without the row lock |
| `JobProtocol.OverlapIffLate` | src/ragledger/server/jobs.py:154-176 | while exclusion holds, a lease overlaps work in flight exactly when the job's holder is late: leased and not started, or rolled back, past its expiry; a handler at work past its lease is safe |
| `JobProtocol.ExclusionIffNoLateTakeover` | src/ragledger/server/jobs.py:154-176 | mutual exclusion holds throughout a run exactly when no lease takes over the job of a late worker |
| `JobProtocol.TimelyNoTakeover` | src/ragledger/server/jobs.py:140-176 | if nobody is late when a lease is taken, there is no such takeover |
| `JobProtocol.EffectsStepIff` | src/ragledger/server/jobs.py:209-236 | a step keeps handler writes exactly once per completed job unless it settles a job whose row is already completed, the check line 214 does not make |
| `JobProtocol.EffectsIffNeverResettled` | src/ragledger/server/jobs.py:209-248 | handler writes are exactly once per completed job throughout a run exactly when no completed job is settled again |
| `JobProtocol.StatusStepIff` | src/ragledger/server/jobs.py:209-268 | a step keeps terminal statuses unless it settles an ended job with another status |
| `JobProtocol.FinalIffNeverRevived` | src/ragledger/server/jobs.py:209-268 | no terminal status changes in a run exactly when no ended job is settled with another status; then each lasts to the end |
| `JobProtocol.TimelyRuns` | src/ragledger/server/jobs.py:140-248 | under the timing of TimelyNoTakeover, from the empty table: one worker per job between lease and commit, handler writes visible exactly for completed jobs, terminal rows final |
| `JobProtocol.StalledWorkerMisbehaves` | src/ragledger/server/jobs.py:209-248 | a run with a stalled worker, after which a handler's writes can be committed twice or a completed job can return to the queue |
| `Tokenizer.CountJoin` | src/ragledger/pipeline/chunkers/base.py:66-72 | joining texts with the separator adds their token counts |
| `Tokenizer.TokenGroup` | src/ragledger/pipeline/chunkers/base.py:379-381 | the text from one token to another holds exactly the tokens between |
| `Tokenizer.SpaceCharacters` | src/ragledger/pipeline/chunkers/base.py:66-72 | white space is the twenty-nine characters of `str.isspace` |
| `Tokenizer.TokenIsRun` | src/ragledger/pipeline/chunkers/base.py:66-72 | each token is a longest run of characters that are not white space |
| `Tokenizer.TokenAround` | src/ragledger/pipeline/chunkers/base.py:66-72 | every character that is not white space is in a token |
| `Chunks.PlaceLinked` | src/ragledger/pipeline/chunkers/base.py:342-355 | every element lies in the document text at its offsets, one separator after the one before |
| `Chunks.LinkedSlice` | src/ragledger/pipeline/chunkers/base.py:329-336 | cutting the document text from the first part's start to the last part's end gives the joined texts |
| `Chunks.PiecesOk` | src/ragledger/pipeline/chunkers/base.py:358-391 | each piece of a split element is a stretch of the document inside it, with at most the limit of tokens and at least one |
| `Chunks.PiecesTokens` | src/ragledger/pipeline/chunkers/base.py:358-391 | the pieces' tokens are the element's tokens, at their places, each once |
| `Chunkers.PositionElements` | src/ragledger/pipeline/chunkers/base.py:342-351 | the cursor loop places the elements two characters apart from zero |
| `Chunkers.SplitOversized` | src/ragledger/pipeline/chunkers/base.py:374-391 | the loop over token groups gives those pieces, or the element itself if it has no token |
| `Chunkers.GroupByHeadingPath` | src/ragledger/pipeline/chunkers/base.py:438-453 | the loop gives the sections |
| `Chunkers.SectionsPartition` | src/ragledger/pipeline/chunkers/base.py:438-453 | sections are the elements in order, each under one heading path, neighbours under different ones |
| `Candidates.SectionsUnique` | src/ragledger/pipeline/chunkers/base.py:438-453 | no other cut of the elements into such sections exists |
| `Chunkers.TakeOverlapTail` | src/ragledger/pipeline/chunkers/hybrid.py:98-112 | the backward loop gives the overlap tail |
| `Packing.TailCost` | src/ragledger/pipeline/chunkers/hybrid.py:98-112 | the overlap tail is within the overlap budget |
| `Packing.TailLongest` | src/ragledger/pipeline/chunkers/hybrid.py:98-112 | no longer suffix is |
| `Packing.TailIsSuffix` | src/ragledger/pipeline/chunkers/hybrid.py:98-112 | what is repeated is the end of the group, and nothing without a positive overlap |
| `Candidates.PagesCover` | src/ragledger/pipeline/chunkers/base.py:405-424 | a candidate has a page range exactly when some element has a page; both ends are pages of its elements, and all lie between |
| `Candidates.StripTrims` | src/ragledger/pipeline/chunkers/base.py:413-418 | the stripping that decides on a repeated header takes off all white space at either end and nothing else |
| `Candidates.HierarchicalChunks` | src/ragledger/pipeline/chunkers/hierarchical.py:53-90 | the nested loops yield the numbered candidates of the document's chunks without overlap; under the fail policy, those of the elements before the first oversized one, and the error names that one |
| `Candidates.HybridChunks` | src/ragledger/pipeline/chunkers/hybrid.py:50-88 | the same with overlap; with overlap zero this is what the hierarchical chunker yields |
| `ChunkGuarantees.CandidateText` | src/ragledger/pipeline/chunkers/base.py:394-435 | the k-th candidate has ordinal k and one heading path; its text is exactly the document cut at its locator offsets if its first part is no table, has no header or is its header up to outer white space, and otherwise the header, one line end and that cut; the cut has at most limit plus overlap tokens; ids, page range and caption are those of its elements |
| `Chunkers.DocumentCovered` | src/ragledger/pipeline/chunkers/hybrid.py:62-88 | dropping what chunks repeat leaves the document's elements, oversized ones in pieces, in order |
| `ChunkGuarantees.DocumentChained` | src/ragledger/pipeline/chunkers/hybrid.py:79-88 | a chunk repeats exactly the overlap tail of the one before it under the same heading, nothing next to a split piece or in a new section, and always adds a part; the first part it adds no longer fitted into the chunk before |
| `ChunkGuarantees.NewPartsAdvance` | src/ragledger/pipeline/chunkers/hybrid.py:79-88 | every part a chunk adds starts after every part of the chunk before |
| `ChunkGuarantees.HierarchicalPartition` | src/ragledger/pipeline/chunkers/hierarchical.py:61-90 | hierarchical chunks laid end to end are the document's elements and pieces, and their tokens are the document's tokens, each once |
| `ChunkContents.YieldMadeOf` | src/ragledger/pipeline/chunkers/hierarchical.py:61-90 | every chunk holds whole elements within the limit, or one piece of an element beyond it; under the fail policy there are no pieces |
| `ChunkContents.PiecesFull` | src/ragledger/pipeline/chunkers/base.py:374-391 | every piece but the last of a split element has exactly the limit of tokens |
| `ChunkContents.FailureIsFirst` | src/ragledger/pipeline/chunkers/hierarchical.py:70-77 | the fail policy fails exactly if some element exceeds the limit, and names the first that does with its tokens |
| `TokenLimit.CandidateTokens` | src/ragledger/pipeline/chunkers/base.py:410-417 | a candidate has the tokens of its parts and of the table header it repeats |
| `TokenLimit.YieldedTokens` | src/ragledger/pipeline/chunkers/base.py:394-417 | every candidate yielded has at most limit plus overlap tokens besides the header it repeats |
| `TokenLimit.LimitExceeded` | src/ragledger/pipeline/chunkers/hybrid.py:79-85 | for any number of repeated tokens up to the overlap and any number of header tokens, a document with a candidate that exceeds the limit by both, so the bound is attained |
| `TokenLimit.HeadersExceedLimit` | src/ragledger/pipeline/chunkers/base.py:411-417 | for every limit and overlap, zero included, some document exceeds the limit |
| `TokenLimit.LimitHardIff` | src/ragledger/pipeline/chunkers/base.py:209-231 | over documents without table headers no candidate exceeds the limit: true exactly when no overlap is configured |
| `Snapshot.WriteSnapshot` | src/ragledger/connectors/ndjson.py:139-196 | writes header, points and trailer lines with the point count and the hash of the point lines, or fails exactly where a record has no canonical text |
| `Snapshot.SnapshotReader.constructor` | src/ragledger/connectors/ndjson.py:249-268 | a reader over the text, nothing read |
| `Snapshot.SnapshotReader.Open` | src/ragledger/connectors/ndjson.py:249-268 | the header of the first line or the error, with all further lines still ahead |
| `Snapshot.SnapshotReader.TakeLine` | src/ragledger/connectors/ndjson.py:300-307 | with one line of lookahead: the next line, and whether it is the last |
| `Snapshot.SnapshotReader.Points` | src/ragledger/connectors/ndjson.py:282-319 | one pass over the lines ahead, stopping at the first invalid point, duplicate or mismatch; a second pass is refused; the trailer is set exactly on success |
| `SnapshotProofs.WrittenLines` | src/ragledger/connectors/ndjson.py:170-196 | the text written falls apart into exactly the header, point and trailer lines |
| `SnapshotProofs.RoundTrip` | src/ragledger/connectors/ndjson.py:282-353 | for every sequence of points the reader yields what the written lines read back as, in order, up to the first that does not read back or, where duplicates are checked, the first repeated key; else it accepts the trailer |
| `SnapshotProofs.RereadIsNormalized` | src/ragledger/core/canonical.py:108-110 | what comes back for a point is the point with every string normalized: its dump holds what the written line denotes |
| `SnapshotProofs.ReplayIsIdentityIff` | src/ragledger/connectors/ndjson.py:297-318 | the points yielded are the points written exactly when each reads back as it was and, where duplicates are checked, no two share scope and id |
| `SnapshotProofs.RestoresIffNormal` | src/ragledger/core/canonical.py:108-110 | a written point comes back as it was exactly when every string and name in it is in normal form |
| `SnapshotProofs.SnapshotRestoredIff` | src/ragledger/connectors/ndjson.py:170-196 | a written snapshot yields exactly the written points and is accepted: exactly when all points are in normal form |
| `SnapshotNormalized.IdsComeBackNormalized` | src/ragledger/connectors/ndjson.py:170-177 | a snapshot of points that are ids yields the normalized ids and is accepted |
| `SnapshotNormalized.AngstromChanges` | src/ragledger/core/canonical.py:108-110 | a point that comes back as another one |
| `SnapshotNormalized.AngstromCollides` | src/ragledger/connectors/ndjson.py:310-317 | two different points that the duplicate check takes for one |
| `CanonicalNormal.NormalIffOwnContent` | src/ragledger/core/canonical.py:101-110 | a document denotes its own content exactly when every string and every name in it is in normal form |
| `Snapshot.FramingInjective` | src/ragledger/connectors/ndjson.py:177-181 | lines ended by their only newline are recovered from the text they join to |
| `SnapshotProofs.SameHashSamePoints` | src/ragledger/connectors/ndjson.py:340-353 | two accepted snapshots with the same content hash have the same point lines and yield the same points |
| `SnapshotProofs.IteratePoints` | src/ragledger/connectors/ndjson.py:449-458 | the skipping loop replays what follows the first point with the checkpoint's key, counts all points, and ends as the reader does |
| `SnapshotProofs.ResumeAfter` | src/ragledger/connectors/ndjson.py:437-446 | with distinct ids, resuming from a point replays exactly those after it |
| `SnapshotProofs.ResumeLosslessIff` | src/ragledger/connectors/ndjson.py:437-446 | resuming loses and repeats nothing, from every point, exactly when ids are distinct |
| `SnapshotLaws.ResumesAfterFirst` | src/ragledger/connectors/ndjson.py:437-446 | a replay resumes after the first point with the checkpoint's id, and replays nothing if none has it |
| `SnapshotLaws.TrailerSays` | src/ragledger/connectors/ndjson.py:139-196 | the trailer counts the points and hashes their lines laid end to end; completeness and counts are the caller's, and complete without counts by default |
| `SnapshotLaws.TrailerRecord` | src/ragledger/connectors/ndjson.py:122-132 | the trailer line carries each field under its own name, and a count only if there is one |
| `SnapshotLaws.FinalizeSays` | src/ragledger/connectors/ndjson.py:340-353 | a trailer is accepted exactly if it reads, its count is right and its hash is right; the error is of the first of these that fails |
| `SnapshotLaws.DuplicateIs` | src/ragledger/connectors/ndjson.py:310-317 | a point is a duplicate exactly of an earlier point with the same scope and the same id |
| `SnapshotLaws.FreshIs` | src/ragledger/connectors/ndjson.py:310-317 | no key repeats exactly if no two points share both scope and id |
| `StageKeys.KeyIdentifies` | src/ragledger/pipeline/cache.py:25-41 | equal stage keys come from the same stage, input hash, adapter and configuration hash |
| `StageKeys.ConfigIdentifies` | src/ragledger/pipeline/build.py:316-318 | equal configuration hashes come from configurations that denote the same, of adapters whose names and versions do |
| `StageKeys.TextHashIdentifies` | src/ragledger/core/hashing.py:68-80 | equal text hashes of normal texts come from equal texts |
| `StageKeys.FoldEndings` | src/ragledger/core/hashing.py:50-65 | before a text is hashed, a carriage return becomes a line feed, together with the line feed after it if there is one, and nothing else changes |
| `BuildLaws.ConfigHashesWrittenOut` | src/ragledger/pipeline/build.py:316-318 | a parser's and a chunker's configuration hash are of a dict of name, version and configuration under the given member names |
| `BuildLaws.StageKeyWrittenOut` | src/ragledger/pipeline/cache.py:25-41 | a stage key is the hash of a dict of the five parts under the given member names |
| `BuildLaws.EmbeddingHashWrittenOut` | src/ragledger/pipeline/build.py:590-599 | an embedding configuration hash is of a dict of the provider's five fields and the normalization |
| `StageCaching.PutParsed` | src/ragledger/pipeline/build.py:322-332 | storing a parse keeps every entry equal to what its stage computes |
| `StageCaching.PutChunked` | src/ragledger/pipeline/build.py:458-476 | so does storing chunks |
| `StageCaching.PutEmbedded` | src/ragledger/pipeline/build.py:609-622 | so does storing an embedding |
| `StageCaching.ParseStageSound` | src/ragledger/pipeline/build.py:319-332 | over a sound cache, in normal form, the cached parse gives what the parser gives, and the cache stays sound |
| `StageCaching.ChunkStageSound` | src/ragledger/pipeline/build.py:450-476 | so does the cached chunk stage, through the dumped candidates; an error is not cached |
| `StageCaching.EmbedStageSound` | src/ragledger/pipeline/build.py:601-622 | so does the cached embedding stage; a failure is not cached |
| `CandidateJson.CandidateReads` | src/ragledger/pipeline/build.py:186-205 | a candidate reads back from its dump as it was, absent locator fields included |
| `CandidateJson.CandidatesReload` | src/ragledger/pipeline/build.py:186-205 | so storing candidates this way loses none, as the cached chunk stage needs |
| `CacheTransparency.ChunkKeyCollidesIff` | src/ragledger/pipeline/build.py:450-457 | two documents share a chunk key exactly when they denote the same after normalization |
| `CacheTransparency.EmbedKeyCollidesIff` | src/ragledger/pipeline/build.py:602-608 | two texts share an embedding key exactly when normalization and line-ending folding make them equal |
| `CacheTransparency.ChunkTransparentIff` | src/ragledger/pipeline/build.py:450-476 | after a build of one document the cached chunk stage gives every chunker's own chunks for another: exactly when normalization does not merge the two |
| `CacheTransparency.EmbedTransparentIff` | src/ragledger/pipeline/build.py:601-622 | after a build of one text the cached embedding stage gives every provider's own embedding for another: exactly when normalization and folding do not merge the two |
| `StaleBuild.CacheShowsIff` | src/ragledger/pipeline/build.py:319-622 | two one-source builds over one cache with a provider that tells the two texts apart: the second records other than it does alone exactly when normalization and folding merge two different texts, and then it records the hash of the first one's vector |
| `StaleBuild.ChunkRecordsAgreeIff` | src/ragledger/pipeline/build.py:495-524 | of two documents that normalization merges, the chunk record made over the cache is the one made alone exactly when the texts agree in length, which the locator records, and in tokens |
| `StaleBuild.SampleIsHierarchical` | src/ragledger/pipeline/chunkers/hierarchical.py:53-90 | the chunks of these builds are what the hierarchical chunker yields, for every limit the element fits |
| `StaleBuild.ComposedLetterShows` | src/ragledger/core/hashing.py:50-65 | a letter written decomposed and composed: chunk record and vector hash both come from the other text |
| `StaleBuild.AngstromShows` | src/ragledger/core/hashing.py:50-65 | the Angstrom sign and its letter: the chunk records agree, the vector hash is the other text's |
| `StageCaching.OutcomeReads` | src/ragledger/pipeline/build.py:325-332 | a stored parse outcome reads back as it was |
| `Builds.StageCache.constructor` | src/ragledger/pipeline/cache.py:58-61 | an empty cache, nothing counted |
| `Builds.StageCache.Get` | src/ragledger/pipeline/cache.py:70-76 | the entry under the key, counted as a hit, or none, counted as a miss |
| `Builds.StageCache.Put` | src/ragledger/pipeline/cache.py:78-82 | the entry replaces or extends, no other changes |
| `Builds.CachedParse` | src/ragledger/pipeline/build.py:319-332 | on any cache: the stored outcome read back, or the parser's, whose dump is then stored |
| `Builds.CachedChunk` | src/ragledger/pipeline/build.py:450-476 | on any cache: the stored candidates read back, or the chunker's, whose dump is then stored |
| `Builds.CachedEmbed` | src/ragledger/pipeline/build.py:601-622 | on any cache: the stored vector with its usage, or the provider's, stored only if there is one |
| `Builds.EmbedWithRetry` | src/ragledger/pipeline/build.py:643-658 | the first of two attempts that answers; unavailable exactly when both are |
| `Builds.ProcessSource` | src/ragledger/pipeline/build.py:258-476 | on any cache: a source's chunk and embedding records, or a raise, and the cache left behind |
| `Builds.Build` | src/ragledger/pipeline/build.py:661-675 | on any cache: the records of all sources up to a raise, and the cache left behind |
| `Builds.BuildSound` | src/ragledger/pipeline/cache.py:50-56 | over a sound cache a build in normal form records, or raises, as it does without a cache, and leaves the cache sound |
| `Builds.BuildAll` | src/ragledger/pipeline/cache.py:50-56 | every sequence of builds over one cache, in normal form: each gives the records it gives without a cache |
| `BuildLaws.SourceRecorded` | src/ragledger/pipeline/build.py:450-539 | a source's records are those of its candidates, in order: one chunk record each, and one embedding record exactly if there is a provider, the text is not blocked and the provider answers it; the chunk record names the source, the locator, the configuration hashes of its parser and its chunker, the hash of the candidate's text, and the hash and tokens of the text embedded for it |
| `BuildLaws.BuildRecorded` | src/ragledger/pipeline/build.py:661-675 | a build's records are those of its sources, in order |
| `BuildLaws.RecordedChunk` | src/ragledger/pipeline/build.py:446-539 | every chunk record of a build is that of a candidate of one of its sources |
| `BuildLaws.RecordedEmbedding` | src/ragledger/pipeline/build.py:580-640 | every embedding record of a build is of the answer to the text whose hash its chunk records as contextualized, within two attempts |
| `BuildLaws.ConfigHashesApart` | src/ragledger/pipeline/build.py:316-318 | no parser's configuration hash is a chunker's |
| `BuildLaws.RecordsIdentify` | src/ragledger/pipeline/build.py:446-539 | between records of any two builds: equal parser configuration hashes come from parsers and configurations that denote the same, equal chunker configuration hashes from such chunkers, no parser hash is a chunker hash, and raw and contextualized hashes are equal exactly for equal normal texts of their own kind |
| `BuildLaws.ParserConfigChanges` | src/ragledger/pipeline/build.py:316-318 | changing only the parser configuration changes the parser configuration hash of every record and the chunker configuration hash of none |
| `BuildLaws.EmbeddedHashIsKeyed` | src/ragledger/pipeline/build.py:600-607 | two embedding records of one provider have equal text hashes exactly when their texts share a cache key |
| `BuildLaws.EmbeddingConfigIdentifies` | src/ragledger/pipeline/build.py:590-599 | equal embedding configuration hashes come from one provider and one normalization |
| `Spdx.ValidateSpdxExpression` | src/ragledger/governance/license.py:103-141 | the one-pass loop accepts exactly NOASSERTION and the token lists the grammar derives |
| `Spdx.AcceptsIffDerives` | src/ragledger/governance/license.py:117-141 | the depth and operand automaton accepts exactly the derivable lists, none of them empty |
| `Spdx.ReadsExpression` | src/ragledger/governance/license.py:119-141 | reading a derived expression takes the automaton from expecting an operand to not, at the same depth, whatever follows |
| `Spdx.FindExpression` | src/ragledger/governance/license.py:119-141 | wherever the automaton expects an operand and goes on to accept, a derivation of the longest expression there can be built |
| `Spdx.LicenseIs` | src/ragledger/governance/license.py:137-139 | a license is a known identifier or one with a plus sign after it |
| `Spdx.SingleDerives` | src/ragledger/governance/license.py:135-141 | a single token is an expression exactly if it is a license |
| `Spdx.DerivesClosed` | src/ragledger/governance/license.py:119-134 | expressions joined by AND, OR or WITH, or put in parentheses, are expressions |
| `Checksums.LuhnValid` | src/ragledger/governance/pii.py:99-108 | the loop from the right decides whether the Luhn total is a multiple of ten |
| `Checksums.LuhnCatchesChange` | src/ragledger/governance/pii.py:99-108 | changing a digit changes the check digit sum modulo ten, always |
| `Checksums.LuhnCatchesSwap` | src/ragledger/governance/pii.py:99-108 | swapping neighbours goes unnoticed exactly for equal digits and for 0 with 9 |
| `Checksums.LuhnCheckDigit` | src/ragledger/governance/pii.py:99-108 | exactly one last digit makes a payload valid: what the sum of its digits lacks to a multiple of ten, with the last digit and then every second one doubled and replaced by its digit sum |
| `Checksums.ValidateIban` | src/ragledger/governance/pii.py:138-147 | valid exactly if, without spaces and in upper case, there are 15 to 34 letters and digits whose rearranged number is 1 modulo 97 |
| `Checksums.Mod97CatchesChange` | src/ragledger/governance/pii.py:142-145 | changing a digit to a digit or a letter to a letter changes the remainder, always |
| `Checksums.Mod97CatchesSwap` | src/ragledger/governance/pii.py:142-145 | swapping neighbours goes unnoticed exactly for equal characters and for 1 with B, 2 with M and 3 with X |
| `Checksums.IbanCatchesChange` | src/ragledger/governance/pii.py:138-147 | of two numbers that differ in one character of the same kind at most one is valid |
| `Checksums.IbanCatchesSwap` | src/ragledger/governance/pii.py:138-147 | swapping neighbours of a number goes unnoticed exactly for equal characters and the three alike-spelled pairs; for the fourth and fifth, which become the two ends, exactly for equal characters and, with a digit and a letter, under a stated congruence |
| `Checksums.IbanCheckDigits` | src/ragledger/governance/pii.py:138-147 | two check digits are valid exactly when they complete to 98, modulo 97, the number of account, country and two zeros |
| `Checksums.Base36Counts` | src/ragledger/governance/pii.py:144-144 | digits count as themselves, A to Z as 10 to 35, and nothing else counts |
| `Checksums.CleanedBy` | src/ragledger/governance/pii.py:139-139 | cleaning drops spaces, turns lower-case letters into upper case and keeps the rest, in order |

## Left out

- Engine.ReconcileBigData: the join hands its leftovers to the next writers after the round instead of during it; deleting run files is not modelled, and observed points are taken to read back as they were written.
- Candidates.HybridChunks: generators are run to their end, so interleaving with the consumer is not modelled; the size configuration enters parsed, with a positive limit.
- JobQueue.JobTable.RunPendingJobs: one worker and a fixed clock, so no lease expires during the call.
- Snapshot.SnapshotReader.Points: compression, decoding and their errors are not modelled; validation of a record is a function that gives a point back from what its dump holds.
- Builds.CachedParse: of an outcome only the status and the document are modelled.
- Builds.ProcessSource: a record's own id, which is a hash of fields it has, is not modelled; parse records, assertions, artifacts and warnings are not modelled.
- Builds.Build: only chunk and embedding records are modelled, before their final sort by id; tombstones, assertions, artifacts, warnings and measured durations are not.
- Checksums.ValidateIban: knows ASCII letters and digits only.
- Spdx.ValidateSpdxExpression: starts from the stripped expression and its tokens; the regular expression that cuts tokens is not modelled.
- Strings are sequences of Unicode scalar values; Python strings with lone surrogates are not modelled.
- Point ids and their keys enter as canonical text.
- Empty-candidate filtering, contextualization templates, size-configuration checks and the line-based chunker: each is settled by one reading.
- The finding classifiers, severities, policy verdicts and remediation plans: case tables.
- Deleting job rows, the started and completed time stamps of jobs, which no decision depends on, and the finalizers run after a cancellation.
- The search behind `repr` of a float, IEEE 754 rounding, NFC tables and SHA-256 itself.
- Live connectors, document parsers, discovery, manifests, signing, encryption, server routes, authentication, the command line and HTML reports.
- Regular-expression scanning, masking and the other identifier validators.
