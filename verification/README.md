# Egress guard: a verified model

This project models the stateful core of an egress firewall that decides which process may reach which host, and proves
what the program's parts promise each other. Every property is for all inputs, all runs or all interleavings.

- **Decision log** (`SegmentNames`, `RotatingLog`, `RotatingLogSafety`, `RotatingLogBounds`, `SegmentLists`, `Pruning`,
  `LogWriter`): a storage protocol whose steps are single renames, creates, writes and removes. Crashes, background
  compressions and the next append may fall between any two of them. History is exactly-once and in order.
- **Prompt coalescer** (`Coalescing`, `CoalescingHistory`, `Coalescer`, `Persisting`): many goroutines, a mutex released around
  the prompt, waiters on a group, expiry times and a burst cache, as a state machine over lock sections; every answer is traced
  to the prompt it was given to, and what is stored is compared with what was asked.
- **Derived indexes** (`Entries`, `JoinedFlows`, `Concurrency`, `ConcurrencyIndex`, `LastSeen`, `Calibrations`): each agrees with the naive
  definition it stands for, with the exact condition where it does not.
- **Drift baseline** (`Identities`, `Rejections`, `Points`, `OrderedReals`, `Scales`, `Neighbours`, `Baselines`,
  `BaselineStats`, `LogOrder`, `CloudTables`, `BaselineViews`, `BaselineObjects`, `Judgements`, `Snapshots`): the fold from log to stable pairs,
  provenance and clouds, when the order of the log can be seen in it, robust scales, nearest-neighbour distance, and the snapshot round trip.
- **Catalog and ratify loop** (`Catalogs`, `Ratifying`, `RatifyLoop`): an order-sensitive scan with an order-independent
  verdict, and decisions whose denials stick over whole runs.
- **Codecs and logs as state** (`Bytes`, `ClientHello`, `Bridge`, `ReviewQueue`, `LruCache`): a ClientHello parser against a
  general serializer, a frame codec over streams, a queue rebuilt from its records, and a concurrent LRU cache.
- `Text`, `Options`, `Permutations`, `Actions` are shared vocabulary.

State the program changes in place is a class whose methods are proved against functions of the old state; what those
functions mean is proved as lemmas. Clock readings, the file system's contents, notifier answers, address checks and
hash functions are parameters; the platform's logarithm, sine, cosine and square root are arbitrary functions.

Where code and stated intent part, the code is kept and the exact condition proved:

- History is exactly-once if and only if no second saw more than 10^6 rotations (`ExactlyOnceHistory`); names beyond
  six digits are written but never listed.
- Pruning leaves the newest of the listed segments if and only if no deleted archive with a plain twin is older than a deleted one
  without (`PrunedListingIsSuffixIff`), and, when records differ, the same decides whether the history is a suffix of the old one
  (`PrunedHistoryIsSuffixIff`; `TwinLeavesHole` is the witness, `RepeatHidesHole` shows why records must differ).
- The concurrency index is naive counting if and only if at most one timed row of the subject covers the instant and none of its
  rows opens after it (`IndexedIsNaiveIff`).
- The identities and hosts of a baseline do not depend on the order of the log if and only if each one a stable pair shows is
  the only one of some stable pair (`OrderInvisibleIff`); separators inside a field can break this (`SeparatorUnsettles`).
- A snapshot is judged alike in staleness if and only if its watermark is a whole second (`LoadStaleIff`), and what a reloaded hashed
  pair names leads to another bucket (`RebucketedIff`).
- The review queue is rebuilt if and only if no identity has a path or hash (`ReplayIsLiveIff`).
- Nearest-neighbour distance can grow with fewer than five points, exactly when the new one is further than the mean
  (`FewPointsCanGrow`).
- A replayed burst answer drops the notifier's error, so it decides as the prompted call did if and only if that call did not fail
  while naming an allowing action (`ReplayWasAsked`).
- A waiter stores its own process and host under an answer given about the leader's: what is stored is what was asked if and only
  if identity and normalized host are the same (`StoresWhatWasAskedIff`; `WaiterStoresUnasked` is a run where they are not).
- Evidence may be set again on an approved row with any confidence: the row's confidence is valid if and only if the last accepted
  evidence carried a valid one (`ApprovedConfidenceIff`; `ApprovedCanLoseConfidence` is the witness).
- Memory moves before the queue's file does: after a failing append the file still rebuilds the queue if and only if the operation
  repeats what the row says (`FailedAppendIff`).

Check everything with `dafny verify dfyconfig.toml`.

## Model

| member | source | states |
|---|---|---|
| RotatingLogSafety.ExactlyOnceHistory | internal/decisionlog/rotate.go:46-129 | After any interleaving of writes, rotations, single compression steps, failed background work, crashes and reopens, reading the history gives exactly the completed appends, once each and in order, if and only if every rotation number in use has at most six digits |
| RotatingLogSafety.HistoryIsWritten | internal/decisionlog/history.go:12-33 | In every invariant state the history is what was written exactly when no sequence number overflowed |
| RotatingLogSafety.RunInv | internal/decisionlog/rotate.go:46-129 | Every legal run of protocol steps keeps the directory invariant |
| RotatingLogSafety.StepInv | internal/decisionlog/rotate.go:77-113 | Each single file-system step, a crash included, keeps the invariant |
| RotatingLogSafety.FreshIsNewest | internal/decisionlog/segment.go:22-37 | The name a rotation picks is unused and later than every segment there is |
| RotatingLogBounds.LiveFileBounded | internal/decisionlog/decisionlog.go:133-158 | Over every run the live file stays within MaxBytes unless a single record is larger |
| RotatingLogBounds.RotatesIff | internal/decisionlog/decisionlog.go:147-151 | In every invariant state a record rotates the live file exactly when the limit is positive, the file holds something, and what it holds, the record and its newline exceed the limit; otherwise it is appended |
| RotatingLogBounds.SegmentsAreFull | internal/decisionlog/decisionlog.go:133-158 | Over every run each segment together with the record whose rotation closed it exceeds the limit, and without a positive limit nothing rotates |
| RotatingLogBounds.CloseWaitsForCompression | internal/decisionlog/decisionlog.go:161-172 | Over every run from a first start, crashes included, in which no compression and no reopening of the live file failed: when Close has waited, every listed segment is an archive |
| RotatingLogBounds.ProbeIsSafe | internal/decisionlog/segment.go:39-48 | Probing plain, archive and temporary one after the other never reports a used name free, however a compression moves the segment meanwhile |
| RotatingLogBounds.BackwardClockReorders | internal/decisionlog/segment.go:18-20 | Why the clock must run forward: from an empty directory, two writes, one step of the clock backwards and a third are legal but for that one step, and the history read back is not what was written |
| Pruning.PruneKeepsNewest | internal/decisionlog/rotate.go:131-148 | The newest segments stay listed and hold what they held; exactly max of them are left if and only if no deleted archive still has its plain file beside it, and then the history is a suffix of the old one |
| Pruning.PrunedListingIsSuffixIff | internal/decisionlog/rotate.go:131-148 | For every directory: the segments listed after a prune are the newest of those before if and only if no deleted archive with a plain twin is older than a deleted one without |
| Pruning.PrunedHistoryIsSuffixIff | internal/decisionlog/rotate.go:131-148 | The same condition decides whether the history read after a prune is a suffix of the one before, for segments a crash can leave whose records differ |
| Pruning.SoundSegmentsAgree | internal/decisionlog/rotate.go:77-113 | Every invariant state of the protocol has such segments: none empty, a twin holding what its archive holds |
| Pruning.TwinLeavesHole | internal/decisionlog/rotate.go:131-148 | With such a twin, pruning two old archives brings the first back and loses the second |
| Pruning.RepeatHidesHole | internal/decisionlog/rotate.go:131-148 | Why the records must differ: with a repeated record the listing has a hole and the history is a suffix all the same |
| SegmentNames.StampRoundTrip | internal/decisionlog/segment.go:18-20 | Formatting then parsing a UTC second gives it back |
| SegmentNames.ParseThenFormat | internal/decisionlog/segment.go:78-99 | A stamp that parses is the one the program writes for that second |
| SegmentNames.StampLayout | internal/decisionlog/segment.go:18-20 | The sixteen characters of a stamp |
| SegmentNames.StampOrder | internal/decisionlog/segment.go:50-76 | Stamps compare as strings exactly as the seconds they name |
| SegmentNames.SegmentKeyInverts | internal/decisionlog/segment.go:78-99 | Plain and compressed segment names are recognised exactly below 10^6 rotations in one second |
| SegmentNames.TemporaryIsNoSegment | internal/decisionlog/segment.go:78-99 | A half-written archive is never taken for a segment |
| SegmentNames.NamesAreDistinct | internal/decisionlog/segment.go:18-20 | Different segments have different file names |
| SegmentNames.SuffixOrder | internal/decisionlog/segment.go:50-76 | Sorting recognised names as strings puts them in rotation order |
| RotatingLog.WriteIsRun | internal/decisionlog/decisionlog.go:133-158 | One undisturbed Write is a legal run of the protocol, with this result |
| LogWriter.RefusedIsRun | internal/decisionlog/rotate.go:46-75 | So is a Write that fails at its rename, its reopening or its append: what it leaves is a state of the protocol |
| LogWriter.AfterWriteInv | internal/decisionlog/decisionlog.go:133-158 | A Write that completes keeps the protocol invariant |
| LogWriter.AfterWriteIs | internal/decisionlog/decisionlog.go:133-158 | A completed Write puts the record behind the live file's others, or alone when they would not fit together |
| LogWriter.AfterRefusedKept | internal/decisionlog/decisionlog.go:133-158 | So does one that fails, and it leaves a segment without a compression only when the new live file could not be opened |
| LogWriter.Writer.OpenWithOptions | internal/decisionlog/rotate.go:30-44 | Opening whatever a crash left restores the invariant, whichever compressions fail; if none does, every segment is an archive |
| LogWriter.Writer.Write | internal/decisionlog/decisionlog.go:133-158 | A Write does exactly its protocol run and records the line, at the end of the live file or alone in a new one when that would outgrow the limit; or it fails and leaves what that failure leaves; with no open file it changes nothing |
| LogWriter.Writer.RotateLocked | internal/decisionlog/rotate.go:46-75 | Rotation renames the live file to a fresh name, opens a new one and starts one compression; when the rename or the reopening fails it leaves the file, or the lack of one, as it then is |
| LogWriter.Writer.Advance | internal/decisionlog/rotate.go:77-113 | One file-system step of a background compression is a step of the protocol and changes no history |
| LogWriter.Writer.Abandon | internal/decisionlog/rotate.go:64-70 | A compression that fails drops its temporary file and changes no history |
| LogWriter.Writer.Close | internal/decisionlog/decisionlog.go:161-172 | Close refuses further writes and waits for every compression; the history is unchanged, and all is archived if no compression ever failed |
| LogWriter.Writer.NextSegmentName | internal/decisionlog/segment.go:22-37 | The loop finds the first free sequence number, and ends |
| LogWriter.Writer.SegmentExists | internal/decisionlog/segment.go:39-48 | A name is taken when any of its three files exists |
| LogWriter.Writer.GroupByKey | internal/decisionlog/segment.go:50-76 | One file per segment, the archive preferred |
| LogWriter.Writer.FindSegments | internal/decisionlog/segment.go:50-76 | The listing is the preferred file of every recognised segment, in rotation order |
| LogWriter.Writer.ReadHistory | internal/decisionlog/history.go:12-33 | The reading loop yields the history of the directory |
| LogWriter.Writer.ReadSegment | internal/decisionlog/history.go:35-54 | Reading a listed file yields its segment's content |
| LogWriter.Writer.CompressSegment | internal/decisionlog/rotate.go:77-113 | Compression end to end turns the plain file into an archive of the same records; each failure leaves the directory as that failure does |
| LogWriter.AttemptedKeeps | internal/decisionlog/rotate.go:77-113 | However far a compression gets, every segment is still listed with the records it had |
| LogWriter.Writer.SweepUncompressed | internal/decisionlog/rotate.go:115-129 | Sweeping compresses the leftover segments up to the first failure; it changes no history, and succeeds exactly when each of them compresses |
| LogWriter.Writer.PruneSegments | internal/decisionlog/rotate.go:131-148 | Pruning removes the listed files of the oldest segments and nothing else |
| Coalescing.AlwaysWasAsked | internal/prompt/coalesce.go:101-168 | Whatever the interleaving, an Always action is returned only if the user was asked about that very domain and answered it |
| Coalescing.GroupAgrees | internal/prompt/coalesce.go:101-168 | All members of a group asked about one domain and return one answer, action and error alike |
| Coalescing.PromptsSpaced | internal/prompt/coalesce.go:149-167 | Two group prompts for one domain start at least a window apart |
| Coalescing.NoStrandedWaiter | internal/prompt/coalesce.go:149-167 | A waiter's group has its answer, or exactly one call is still asking for it |
| Coalescing.BurstTrigger | internal/prompt/coalesce.go:114-147 | The user is asked about a burst exactly when a process not in one has more than the allowed number of domains in the window |
| Coalescing.JoinsIff | internal/prompt/coalesce.go:149-158 | A call that asks for no burst joins a group exactly when one for its domain started less than a window ago, and else opens one |
| CoalescingHistory.ReplayWasAsked | internal/prompt/coalesce.go:101-168 | Over every run: a replayed answer was given to one finished burst prompt of the same process less than a window before, and decides as that call did if and only if its notifier did not fail while naming an allowing action |
| CoalescingHistory.ReplayedIff | internal/prompt/coalesce.go:101-146 | Over every run: a call is answered from the cache, without a prompt, exactly when the burst answer stored last for its process is less than a window old, and then by that answer in its single form |
| CoalescingHistory.GroupWasAsked | internal/prompt/coalesce.go:149-168 | Over every run: every member of a group returns the answer to the one prompt of that group, about the same domain |
| CoalescingHistory.RunTold | internal/prompt/coalesce.go:101-168 | Over every run each returned, stored or shared answer traces back to a recorded prompt |
| Persisting.StoresWhatWasAskedIff | internal/prompt/prompt.go:114-160 | Over every run: what a call stores is the fact the user was shown if and only if it asks with the identity and the normalized host of the call that prompted |
| Persisting.WaiterStoresUnasked | internal/prompt/coalesce.go:149-167 | A run in which the waiter does not: with one prompt, about the leader, it stores an authorization for its own process |
| Persisting.SameFactIff | internal/prompt/ratify.go:16-51 | Two requests answered alike yield the same fact exactly for equal identities and equal normalized hosts |
| Coalescing.RunInv | internal/prompt/coalesce.go:101-168 | Every interleaving of lock sections and inner returns keeps the coalescer's invariant |
| Coalescer.Coalescer.EnterSection | internal/prompt/coalesce.go:101-158 | The critical section at the head of Notify does the protocol's Enter step to its tables |
| Coalescer.Coalescer.UpdateHistory | internal/prompt/coalesce.go:114-133 | The process history keeps the recent entries and gains the domain once |
| Coalescer.Coalescer.StoreSection | internal/prompt/coalesce.go:137-146 | A burst answer is stored only in its burst-safe form |
| Coalescer.Coalescer.Publish | internal/prompt/coalesce.go:160-167 | A group's answer is set once |
| Concurrency.IndexedIsNaive | internal/decisionlog/concurrency.go:84-112 | With at most one timed flow under the excluded id, the index counts what naive interval counting counts |
| Concurrency.IndexedIsNaiveIff | internal/decisionlog/concurrency.go:84-112 | For every log, the index agrees with naive counting exactly when at most one timed row of the subject covers the instant, and if one does, no timed row of the subject opens later |
| Concurrency.ClampUnreachable | internal/decisionlog/concurrency.go:91-111 | The final clamp never acts, repeated connection ids included |
| Concurrency.RepeatedIdCountsOne | internal/decisionlog/concurrency.go:84-112 | Two overlapping flows under one id: the index leaves out only one of them |
| Concurrency.OneRow | internal/decisionlog/concurrency.go:32-54 | A row is company from its decision until as many milliseconds later as it lasted, or at that instant alone |
| Concurrency.WeightIsCover | internal/decisionlog/concurrency.go:32-80 | Adding opens and taking away closes up to an instant counts the intervals over it |
| Concurrency.WeightPermutes | internal/decisionlog/concurrency.go:55-60 | No order of equal events changes that |
| Concurrency.PrefixIsWeight | internal/decisionlog/concurrency.go:61-79 | A prefix sum at the searched position is that weight |
| ConcurrencyIndex.CollectRows | internal/decisionlog/concurrency.go:32-54 | The first loop collects the events of the timed rows and counts the instants |
| ConcurrencyIndex.Index.Build | internal/decisionlog/concurrency.go:32-80 | Sorted events, prefix sums, own events and instants of the whole log |
| ConcurrencyIndex.Index.FillPrefix | internal/decisionlog/concurrency.go:61-79 | Prefix sums, and each connection's last opening and closing event |
| ConcurrencyIndex.Index.CountThrough | internal/decisionlog/concurrency.go:88-90 | Binary search finds the number of events at or before an instant |
| ConcurrencyIndex.Index.At | internal/decisionlog/concurrency.go:84-112 | The query returns the index's count, never negative, and the naive count for a unique id |
| LastSeen.AdvanceRefines | internal/daemon/lastseen.go:35-43 | One advance, evicting any oldest pair, keeps the bounded map a refinement of the running maximum |
| LastSeen.RunRefines | internal/daemon/lastseen.go:35-69 | So after any sequence of advances: held values are true maxima, dropped pairs are no newer than held ones |
| LastSeen.HeldAnswersAgree | internal/daemon/lastseen.go:28-32 | A held pair answers as the unbounded memory would; a pair not held is no newer than any held one |
| LastSeen.TimedIs | internal/daemon/lastseen.go:73-84 | Pairs without a time are not seeded |
| LastSeen.EvictRefines | internal/daemon/lastseen.go:58-69 | Eviction keeps the refinement, also when the key had been evicted before |
| LastSeen.LastSeen.Advance | internal/daemon/lastseen.go:35-43 | Advance does this to the map and its history |
| LastSeen.LastSeen.EvictLocked | internal/daemon/lastseen.go:58-69 | Exactly one oldest pair goes when there is one too many |
| LastSeen.LastSeen.AdvanceEntry | internal/daemon/lastseen.go:47-56 | Only entries that teach the baseline advance anything |
| LastSeen.LastSeen.Seed | internal/daemon/lastseen.go:73-84 | Seeding is advancing every dated pair, never backwards |
| Entries.JoinKeepsDecisions | internal/decisionlog/join.go:14-31 | Joining keeps every decision once and in order |
| Entries.JoinMakesRows | internal/decisionlog/join.go:14-31 | Each row is a decision with at most a flow of the same connection |
| JoinedFlows.JoinedFlowIs | internal/decisionlog/join.go:14-31 | A decision's row holds the last flow of its connection before another decision opens the connection again, and none when there is none or the connection has no name |
| Entries.JoinInvertsFlatten | cmd/drift-calibrate/main.go:73-79 | Flattening rows and joining again gives them back |
| Entries.PrefixRejoins | cmd/drift-calibrate/main.go:71-79 | Any prefix of a joined log survives flattening and joining |
| Entries.JoinEntries | internal/decisionlog/join.go:14-31 | The loop with its row index computes the join |
| Identities.BucketsAreDistinct | internal/drift/drift.go:471-481 | Different identities or hosts have different buckets when the identity fields hold no separator |
| Identities.SameBucketIff | internal/drift/drift.go:471-481 | One bucket is one process and one host in any letter case, when the identity fields hold no separator |
| Identities.LearnedAs | internal/drift/drift.go:459-469 | A record is learned under the last name of its path, which itself counts only when absolute and hashed |
| Rejections.Store.Open | internal/rejected/rejected.go:37-55 | A readable file is read; a corrupt one is set aside whole, and the store starts empty and marked |
| Rejections.BucketRejectedTogether | internal/rejected/rejected.go:122-147 | A bucket is rejected as a whole or not at all |
| Rejections.RejectsLike | internal/rejected/rejected.go:122-147 | Disowning what one record shows disowns the same name, hash, team and host in any case, wherever the executable lies |
| Rejections.LaterWins | internal/rejected/rejected.go:84-99 | Of several records of one pair the last stands |
| Rejections.Store.Reload | internal/rejected/rejected.go:75-101 | Reloading reads every record under its normalized key, the later one winning; a corrupt file is an error and changes nothing |
| Rejections.Store.Reject | internal/rejected/rejected.go:103-112 | The file gains exactly this rejection, even when the process's copy was out of date; a corrupt file is left alone |
| Rejections.Store.Restore | internal/rejected/rejected.go:113-121 | Every spelling of the host is gone from the file, and nothing else; a corrupt file is left alone |
| Rejections.Store.Flush | internal/rejected/rejected.go:165-198 | What is written reads back as what was held |
| Rejections.Store.Contains | internal/rejected/rejected.go:122-127 | Membership in any letter case of the host |
| Baselines.StableIffSpread | internal/drift/drift.go:159-166 | A pair is stable exactly when its first and last time are on different UTC days, and was then seen at least twice |
| Baselines.SameLessonsSameStable | internal/drift/drift.go:119-168 | Logs that teach the same entries agree on every stable pair |
| Baselines.SameLessonsSameProvenance | internal/drift/learned.go:19-32 | And on first time, last time and count of every pair |
| Baselines.PermutedLessons | internal/drift/drift.go:119-168 | Permuting a log changes no lesson |
| Baselines.DenialsTeachNothing | internal/drift/drift.go:193-195 | Adding or removing denials, flows or rejected entries anywhere changes no lesson |
| Baselines.StaleIffFurther | internal/drift/drift.go:339-350 | A baseline is stale for a log exactly when the log reaches further than the watermark |
| Baselines.FreshForOwnLog | internal/drift/drift.go:339-350 | No log, nor any part of it, is stale for its own watermark |
| Baselines.RejectedTeachesNothing | internal/drift/drift.go:142-145 | No entry in the bucket of a rejected entry teaches |
| Baselines.StablePairShowsBoth | internal/drift/drift.go:159-166 | Any entry of a stable pair shows a stable identity and a stable host |
| BaselineStats.StatsShowStable | internal/drift/drift.go:159-162 | Two days in the pair's table is stability |
| BaselineStats.StatsStep | internal/drift/drift.go:134-157 | One more taught entry keeps the day table right |
| BaselineStats.FrequentAreStable | internal/drift/drift.go:159-166 | The sets taken from the table are the stable pairs, identities and hosts |
| BaselineStats.ObservedStep | internal/drift/learned.go:19-32 | One more observation keeps every pair's provenance right |
| CloudTables.TablesHold | internal/drift/cloud.go:27-47 | After walking the log each cloud is the newest 512 of its pair's points, with the pair's latest time and name |
| CloudTables.PooledIsUnique | internal/drift/cloud.go:69-75 | The pooled scale is the same however the map of clouds is walked |
| Points.PointIff | internal/drift/point.go:43-60 | Which rows have a point |
| Points.UpGrows | internal/drift/point.go:43-75 | More bytes sent: the first coordinate and the ratio grow, nothing else moves |
| Points.DownGrows | internal/drift/point.go:43-75 | More bytes received: the second coordinate grows and the ratio falls |
| Points.DurationGrows | internal/drift/point.go:43-75 | A longer connection: the fourth grows |
| Points.GapGrows | internal/drift/point.go:43-75 | A longer gap: the eighth grows; no predecessor counts as an hour ago |
| Points.CompanyGrows | internal/drift/point.go:43-75 | More company: the ninth grows |
| Points.KeyboardIs | internal/drift/point.go:43-75 | The seventh says whether the user was there, and is a half when nobody knows |
| Points.ClockIs | internal/drift/point.go:43-75 | The fifth and sixth are sine and cosine of the minute of the local day |
| Baselines.NewestSnoc | internal/drift/cloud.go:42-45 | Truncating a cloud at every step is truncating it once |
| BaselineViews.StablePairsHaveProvenance | internal/drift/learned.go:19-32 | A built baseline's pair is stable exactly when its provenance spans two days, with count at least 2 |
| BaselineViews.OrderAndDenialsIrrelevant | internal/drift/drift.go:119-187 | Two built baselines whose logs teach the same agree on every pair's stability and provenance |
| BaselineViews.OrderAndDenialsKeepSets | internal/drift/drift.go:159-187 | The stable pairs, identities and hosts are the same for every order of the log and among any denials, when the log is settled, as one without separators in its fields is |
| BaselineViews.OrderAndDenialsClassifyAlike | internal/drift/drift.go:213-267 | Then both baselines classify every connection alike, under any catalog |
| LogOrder.OrderInvisibleIff | internal/drift/drift.go:159-166 | For every log: the identities (or hosts) of its baseline are the same in every order and among any denials if and only if each one shown by a stable pair is the only one of some stable pair |
| LogOrder.SettledKeepsSet | internal/drift/drift.go:159-166 | One direction, for one pair of logs |
| LogOrder.CleanIsSettled | internal/drift/drift.go:471-481 | Logs whose fields hold no separator meet the condition |
| LogOrder.SeparatorUnsettles | internal/drift/drift.go:471-481 | Two entries with a separator in their fields do not: they share a bucket but not an identity |
| BaselineViews.RejectedIsNowhere | internal/drift/drift.go:142-145 | The bucket of a rejected pair is in no view: pairs, points, last times, metadata, provenance |
| BaselineViews.FreshWhenBuilt | internal/drift/drift.go:339-350 | A baseline just built is never stale for its own log |
| Judgements.StaleIffLater | internal/drift/drift.go:339-350 | Stale exactly when the log holds an accepted record later than every one the baseline was built from |
| BaselineObjects.Baseline.Build | internal/drift/drift.go:119-187 | Both walks together yield a baseline with its declarative meaning |
| BaselineObjects.Baseline.CountDays | internal/drift/drift.go:134-157 | The first walk: the days of every pair and the watermark |
| BaselineObjects.Baseline.StablePairs | internal/drift/drift.go:159-166 | The pairs with enough days, their identities and hosts |
| BaselineObjects.Baseline.BuildClouds | internal/drift/drift.go:168-185 | The second walk: clouds, pooled scale and provenance |
| BaselineObjects.Clouds.Add | internal/drift/cloud.go:27-47 | One row's effect on points, last time and metadata, truncation included |
| BaselineObjects.Clouds.Finish | internal/drift/cloud.go:69-75 | The pooled scale over all clouds |
| BaselineObjects.Baseline.ObserveLearned | internal/drift/learned.go:19-32 | Minimum, maximum and count updated in place |
| BaselineObjects.Baseline.IsStale | internal/drift/drift.go:339-350 | The loop decides staleness |
| BaselineObjects.Baseline.CloudFor | internal/drift/cloud.go:77-83 | The pair's cloud and its shrunken scale |
| BaselineObjects.Baseline.LastSeenFor | internal/drift/cloud.go:85-90 | The pair's last time or the zero time |
| BaselineObjects.Baseline.ScoreAgainst | internal/drift/drift.go:285-292 | The score of a completed connection against its pair's cloud, or unscored |
| BaselineObjects.Baseline.Classify | internal/drift/drift.go:213-267 | Known pair, catalog fact or drift, with reason and rank, the record's identity, host and time, and never yet a score |
| Judgements.KnownIff | internal/drift/drift.go:213-267 | For a baseline built from a log: a connection is known exactly when two accepted records of its pair, not disowned, lie on different UTC days, or the catalog authorizes it; an unstable pair the catalog denies is drift of rank 4 |
| Judgements.DriftReasonIff | internal/drift/drift.go:254-266 | Otherwise it is a new process, a new host or a new pairing exactly when its process is in no pair seen on two days, or its host in none and in no catalog entry, or both are known apart |
| Judgements.RanksOrder | internal/drift/drift.go:239-266 | Ranks order denials before new processes, these before new hosts and these before new pairings |
| Judgements.ComparedWith | internal/drift/cloud.go:77-90 | What a connection is compared with: the last 512 points of its own pair, and the time of the pair's last row |
| Judgements.CloudGrows | internal/drift/cloud.go:27-47 | A row adds its point to its own pair's points, last, when it teaches; no other row adds any |
| Judgements.CloudKeepsLast | internal/drift/cloud.go:42-45 | A cloud keeps at most 512 points, and of more the last |
| Judgements.PredecessorIs | internal/drift/cloud.go:34-41 | A gap counts from the pair's latest accepted row before |
| Snapshots.LoadJudgesAlike | internal/drift/drift.go:353-426 | A baseline saved and loaded classifies alike and has the same cloud and scale for every pair |
| Snapshots.LoadScoresAlike | internal/drift/drift.go:285-292 | It gives every completed connection the same possible scores |
| Snapshots.LoadLastSeen | internal/drift/drift.go:428-437 | Last times come back to the second: unchanged exactly when whole |
| Snapshots.LoadLearned | internal/drift/learned.go:34-71 | A pair's provenance comes back but for path and hash, unless another pair differs from it in these alone; so does the name of its cloud |
| Snapshots.LoadStaleIff | internal/drift/drift.go:353-356 | Staleness is judged alike for all logs exactly when the watermark was a whole second |
| Snapshots.FractionLooksStale | internal/drift/drift.go:339-350 | A reloaded baseline calls its own log stale exactly when the log's newest time has a fraction of a second |
| Snapshots.WholeLog | internal/drift/drift.go:134-171 | Whole-second logs have whole-second watermarks and last times |
| Snapshots.RebucketedIff | internal/drift/learned.go:64-71 | What a reloaded pair names leads back to its old bucket exactly when the identity had no path or hash |
| Snapshots.Save | internal/drift/drift.go:353-381 | What the snapshot holds |
| Snapshots.LoadBaseline | internal/drift/drift.go:384-426 | A missing or foreign-schema snapshot is absent; any other is restored with its pooled scale recomputed |
| OrderedReals.MedianPermutes | internal/drift/scale.go:54-65 | The median does not depend on order |
| OrderedReals.MedianReflects | internal/drift/scale.go:54-65 | The median of mirrored values is the mirrored median, so of two middle values it is their mean |
| OrderedReals.MedianSplits | internal/drift/scale.go:54-65 | At least half of the values are no greater, and at least half no smaller |
| OrderedReals.MajorityHoldsMedian | internal/drift/scale.go:54-65 | Where more than half of the values lie, the median lies |
| OrderedReals.HalfMovesMedian | internal/drift/scale.go:54-65 | Half is too many: one of two values replaced moves the median anywhere |
| Scales.TamperedMedian | internal/drift/scale.go:42-65 | Replacing fewer than half of the values keeps median and deviation within the range of the others |
| Scales.TamperedScale | internal/drift/scale.go:24-40 | The scale then stays between its floor and the greatest of floor, pooled scale and honest spread, for every cloud size |
| Scales.ScaleAboveFloor | internal/drift/scale.go:13-22 | A scale is never below its positive floor |
| Scales.MorePointsTrustedMore | internal/drift/scale.go:24-40 | Of two clouds with one spread the larger has a scale no further from it, and strictly closer whenever the pooled spread differs |
| Scales.EmptyCloudScale | internal/drift/scale.go:24-40 | Without points the scale is exactly the floored pooled one |
| Scales.HalfwayAtTen | internal/drift/scale.go:24-40 | The scale is half way between own and pooled spread at exactly ten points |
| Scales.PooledScalePermutes | internal/drift/scale.go:68-81 | The pooled scale ignores the order of clouds |
| Scales.PooledIs | internal/drift/scale.go:68-81 | The pooled scale is the floored spread of all points of all clouds together |
| Scales.MadReflects | internal/drift/scale.go:42-52 | The deviation does not change when the values are mirrored or moved |
| Scales.MadSplits | internal/drift/scale.go:42-52 | At least half of the values are within it of the median, and at least half no nearer |
| Scales.MedianOf | internal/drift/scale.go:54-65 | The median of an array |
| Scales.MadAlong | internal/drift/scale.go:42-52 | The deviation loop, overwriting its array in place |
| Scales.ComputeScale | internal/drift/scale.go:24-40 | The shrunken scale, dimension by dimension |
| Scales.ComputePooledScale | internal/drift/scale.go:68-81 | The pooled scale over all points |
| Neighbours.OrderIrrelevant | internal/drift/knn.go:36-60 | Neither the order of the cloud nor the sort's tie order changes the distance |
| Neighbours.NoNearerChoice | internal/drift/knn.go:42-52 | The distance is over five points, or all of fewer, and no choice of that many is nearer on average |
| Neighbours.MorePointsNoFurther | internal/drift/knn.go:28-61 | Adding points to a cloud of at least five never increases the distance |
| Neighbours.FewPointsCanGrow | internal/drift/knn.go:42-52 | Below five, one more point increases it exactly when it is further than the mean so far |
| Neighbours.ScorePoint | internal/drift/knn.go:28-97 | The mean of the min(5, n) smallest scaled distances, a nearest point, and the dominant dimensions against it |
| Neighbours.DominantAgainst | internal/drift/knn.go:72-97 | The loop picks up to two differently named dimensions, each with the greatest share of the names left, and none without a share |
| Neighbours.DominantTies | internal/drift/knn.go:81-96 | However the sort leaves ties, as many dimensions are shown, with the same shares |
| Neighbours.TypicalIffSame | internal/drift/drift.go:303-309 | None is shown exactly when the connection coincides with its nearest predecessor |
| Neighbours.OneNameIff | internal/drift/knn.go:84-96 | One alone is shown exactly when the points differ only under that name |
| Neighbours.NamesShared | internal/drift/point.go:27-32 | Only the two coordinates of the hour share a name |
| Neighbours.ComputeDistance | internal/drift/knn.go:63-70 | The scaled distance loop |
| Neighbours.DistanceMoves | internal/drift/knn.go:63-70 | The distance is the root of a sum that is zero between a point and itself and moves with each coordinate by its squared scaled difference |
| Calibrations.ReplayIsCloudGeometry | cmd/drift-calibrate/main.go:89-124 | The replay's point for an accepted connection is the one a baseline over the whole log puts in its pair's cloud: for every log without rejections, and for every log without separators in its fields otherwise |
| Calibrations.RejectionsKeepPrevious | cmd/drift-calibrate/main.go:95-124 | Ignoring rejections when tracking predecessors changes nothing for a pair that is not rejected |
| Calibrations.DenialsMoveNothing | cmd/drift-calibrate/main.go:112-124 | A denial moves no predecessor |
| Calibrations.EveryOutcomeCounts | cmd/drift-calibrate/main.go:57-62 | Distances and infinities add up to all outcomes exactly when everything was scored |
| Calibrations.MeasuredAt | cmd/drift-calibrate/main.go:104-134 | Each held-out row is scored against the trained baseline with its own predecessor and concurrency |
| Calibrations.ScoresForEntries | cmd/drift-calibrate/main.go:70-136 | Training on the prefix and replaying the rest, every connection counted once |
| Calibrations.ScoreRow | cmd/drift-calibrate/main.go:104-124 | One held-out row: measured, then its pair's predecessor if accepted |
| Catalogs.VerdictIsGreatest | internal/catalog/catalog.go:184-223 | A lookup's verdict is the strongest opinion of any entry |
| Catalogs.VerdictIs | internal/catalog/catalog.go:184-223 | Field by field: a lookup denies if an entry about the process, or about its changed binary, denies the host; else authorizes if one that is pinned expects it; else explains if any about the process does; else tolerates a changed binary's; else knows nothing |
| Catalogs.OpinionIs | internal/catalog/catalog.go:324-364 | The same of one entry |
| Catalogs.StrangerUnaffected | internal/catalog/catalog.go:324-350 | A process that lacks a team, bundle, name, path or hash an entry names, and is not its changed binary, is judged as without the entry |
| Catalogs.KindredAffected | internal/catalog/catalog.go:324-358 | One that has everything the entry names is denied, or known at least as well as the entry says, on every host the entry lists |
| Catalogs.SpeaksIff | internal/catalog/catalog.go:324-364 | An entry can change some verdict on a process exactly when it identifies it, or is of its changed binary, and lists a host |
| Catalogs.VerdictOfMembers | internal/catalog/catalog.go:184-223 | It depends only on which entries there are: order and repetition do not matter |
| Catalogs.VerdictOfMerge | internal/catalog/catalog.go:166-180 | A merge takes the stronger verdict of the two |
| Catalogs.MergedNever | internal/catalog/catalog.go:149-162 | Merged layers deny exactly when some layer denies |
| Catalogs.VerdictNormalizes | internal/catalog/catalog.go:433-435 | Case, blanks and a final dot do not change the answer |
| Catalogs.SameHostIff | internal/catalog/catalog.go:433-435 | Two spellings are one host exactly when, without outer blanks and at most one final dot, they differ only in the case of letters |
| Catalogs.DecliningLosesNothing | internal/catalog/catalog.go:294-308 | When AddIfAbsent declines, every query is answered as if it had added |
| Catalogs.SameFactIsAsStrong | internal/catalog/catalog.go:389-431 | The asymmetric comparison accepts only facts that say no more than the one there is |
| Catalogs.SameHostsIsNotSymmetric | internal/catalog/catalog.go:417-431 | The comparison is not symmetric |
| Catalogs.ValidIff | internal/catalog/catalog.go:445-496 | Which entries are valid, whatever the order of the checks |
| Catalogs.ValidEntryIsAlive | internal/catalog/catalog.go:445-484 | A valid entry describes the process it names, decides if it claims high confidence, and can be loaded back |
| Catalogs.Catalog.Lookup | internal/catalog/catalog.go:184-223 | The verdict and an entry that holds it, and each flag of the match by what the entries name of the process and list of hosts |
| Catalogs.Consider | internal/catalog/catalog.go:190-215 | What the scan does with one entry |
| Catalogs.Catalog.HasHost | internal/catalog/catalog.go:227-244 | Whether any entry names the host |
| Catalogs.Catalog.Add | internal/catalog/catalog.go:281-290 | Valid entries are appended and the issue time cleared; others change nothing |
| Catalogs.Catalog.AddIfAbsent | internal/catalog/catalog.go:294-308 | Appends unless the same fact is there; either way every verdict is as if appended |
| Catalogs.Catalog.Merge | internal/catalog/catalog.go:166-180 | Appends the other's entries, itself included, and combines verdicts |
| Catalogs.LoadLayerFile | internal/catalog/catalog.go:118-145 | A layer loads exactly when every entry is valid and of that layer |
| Catalogs.LoadLayers | internal/catalog/catalog.go:149-162 | Missing layers are empty, a bad one stops the start |
| Ratifying.RatifiesWhoAsked | internal/daemon/decision.go:284-404 | The identity that gets ratified is the identity that was decided, with or without a baseline |
| Ratifying.DecidedAs | internal/daemon/decision.go:284-297 | The identity decided: last name of the path, signature, and path and hash only together |
| Ratifying.ClassifiedAsLearned | internal/daemon/decision.go:371-404 | The classification names a process as the baseline would learn it from its record |
| Ratifying.RatifiableIff | internal/prompt/ratify.go:16-37 | Exactly which identities can be ratified |
| Ratifying.RatifiedFact | internal/prompt/ratify.go:16-51 | The stored fact names this process and this host, and claims high confidence only with a signature |
| Ratifying.RatifiedOpinion | internal/prompt/ratify.go:16-51 | What the ratified entry says about the process it was asked for |
| Ratifying.RatifyIs | internal/cli/ratifywriter.go:26-60 | A fact is stored exactly when the user's file is sound, the fact valid, and the file holds it already or can be replaced; file and memory then gain it unless it was there |
| Ratifying.DenialIsSticky | internal/daemon/decision.go:186-247 | After a stored deny-always, whatever is added, merged, answered or restarted, every later decision that reaches the catalog refuses without asking |
| Ratifying.AllowanceHolds | internal/daemon/decision.go:186-247 | After a stored allow-always on a pinned identity, every later such decision is the silent catalog fact unless somebody denied it since |
| Ratifying.NextIsSilent | internal/daemon/decision.go:186-247 | The very next connection is silent |
| Ratifying.UnpinnedStillAsks | internal/prompt/prompt.go:144-160 | Without a pin an allow-always makes no decision silent |
| Ratifying.NothingPassesUnchecked | internal/daemon/decision.go:186-247 | Whatever passes has passed the address check and is not denied by list; off the lists it also needs the catalog's fact, its grace, or the user's word |
| Ratifying.PassesIff | internal/daemon/decision.go:186-247 | Off the lists a connection passes exactly when its address is bound, no entry denies it, and the catalog authorizes it, or tolerates it with a pending record, or the user allows it once, always or as asked |
| Ratifying.AsksIff | internal/daemon/decision.go:198-246 | The user is asked exactly when allowing and denying would have different outcomes |
| Ratifying.AnswerDecides | internal/prompt/prompt.go:114-133 | Each possible answer decides the very connection that asked: three of them pass it if its address is bound, two and any failure refuse it |
| Ratifying.AnswerAndNextAgree | internal/daemon/decision.go:186-247 | A stored answer decides this connection as it decides the next: a denial refuses both, a pinned allowance passes each exactly when its address is bound |
| Ratifying.RunKeeps | internal/catalog/catalog.go:166-308 | Verdicts only grow over a run, in memory and on disk |
| Ratifying.DiskStaysSound | internal/cli/ratifywriter.go:26-60 | Ratifying never spoils the user's catalog file |
| Ratifying.StartIffSystemSound | internal/cli/daemon.go:368-373 | Then only the shipped layers can stop a start |
| RatifyLoop.RatifyWriter.Ratify | internal/cli/ratifywriter.go:26-60 | Disk first, then the live catalog; on error neither changes |
| RatifyLoop.CoreDecider.Decide | internal/prompt/prompt.go:114-160 | Allowed exactly for the answers allow, allow once and allow always; and an answer of always is persisted |
| RatifyLoop.Daemon.DecideBranch | internal/daemon/decision.go:186-247 | One decision is one step of a run, with its outcome |
| RatifyLoop.Daemon.DecideUnlisted | internal/daemon/decision.go:198-246 | The catalog, if there is one, and the prompt |
| RatifyLoop.Daemon.BindDest | internal/daemon/decision.go:430-443 | A refusal exactly when an address check is configured and fails or does not match, and for which of the two reasons |
| ClientHello.HelloParses | internal/tlsparse/clienthello.go:26-128 | Every hello that fits is understood, whatever its other fields and whatever follows its record |
| ClientHello.HelloLayout | internal/tlsparse/clienthello.go:26-62 | The bytes of the record and handshake headers the parser understands |
| ClientHello.BodyLayout | internal/tlsparse/clienthello.go:63-105 | Of the body |
| ClientHello.NameLayout | internal/tlsparse/clienthello.go:83-128 | And of the extension that holds the name |
| ClientHello.ParsedIsHello | internal/tlsparse/clienthello.go:26-128 | Only hellos holding the name yield it |
| ClientHello.PrefixIsTruncated | internal/tlsparse/clienthello.go:31-40 | Every strict prefix of a record is truncated |
| ClientHello.LaterBytesIgnored | internal/tlsparse/clienthello.go:37-41 | Bytes after the record change nothing |
| ClientHello.BuilderRoundTrip | internal/tlsparse/clienthello.go:136-166 | The parser returns the builder's name for 1 to 16323 bytes, no name for none, and oversize beyond |
| ClientHello.ParseSNI | internal/tlsparse/clienthello.go:26-105 | The cursor loops compute the parse of the record |
| ClientHello.ParseSniBytes | internal/tlsparse/clienthello.go:107-128 | And of the server name list |
| ClientHello.BuildClientHello | internal/tlsparse/clienthello.go:136-166 | The builder's bytes |
| Bridge.RequestRoundTrip | internal/nebridge/protocol.go:46-101 | A decoded frame is the request that was encoded, its address in 16-byte form, and the rest is untouched |
| Bridge.AddressArrives | internal/nebridge/protocol.go:46-101 | A 4-byte address arrives as ten zeros, two 255 and its bytes, a 16-byte one as it is |
| Bridge.RequestLayout | internal/nebridge/protocol.go:46-72 | Where each field of a request lies, byte by byte |
| Bridge.RequestIsCanonical | internal/nebridge/protocol.go:75-101 | Whatever decodes is the frame of what it decodes to |
| Bridge.RequestPrefixShort | internal/nebridge/protocol.go:75-101 | A strict prefix of a frame is an error |
| Bridge.RequestStream | internal/nebridge/protocol.go:46-101 | A stream of frames decodes to exactly its requests, in order, every byte consumed |
| Bridge.RequestStreamIsFrames | internal/nebridge/protocol.go:75-101 | Only streams of frames are accepted |
| Bridge.ResponseRoundTrip | internal/nebridge/protocol.go:104-164 | The same for responses |
| Bridge.ResponseLayout | internal/nebridge/protocol.go:104-134 | And of a response |
| Bridge.RefusedFor | internal/nebridge/protocol.go:75-164 | What is reported of bytes that decode to nothing |
| Bridge.ResponseIsCanonical | internal/nebridge/protocol.go:137-164 | Whatever decodes is the frame of what it decodes to |
| Bridge.ResponsePrefixShort | internal/nebridge/protocol.go:137-164 | A strict prefix of a response frame is an error |
| Bridge.ResponseStream | internal/nebridge/protocol.go:104-164 | A stream of response frames decodes to exactly its responses |
| Bridge.To16Twice | internal/nebridge/protocol.go:47-50 | The 16-byte form is its own 16-byte form |
| Bridge.EncodeRequest | internal/nebridge/protocol.go:46-72 | Writes the frame of an encodable request and nothing otherwise |
| Bridge.FillHeader | internal/nebridge/protocol.go:58-64 | The header array filled in place |
| Bridge.ReadRequest | internal/nebridge/protocol.go:75-101 | Reads what the decoder reads, leaving what follows |
| Bridge.EncodeResponse | internal/nebridge/protocol.go:104-134 | Writes the frame of a valid response and nothing otherwise |
| Bridge.ReadResponse | internal/nebridge/protocol.go:137-164 | Reads what the decoder reads, leaving what follows |
| ReviewQueue.ReplayIsLiveIff | internal/reviewqueue/store.go:41-98 | Over every run, replaying the file rebuilds the live queue exactly when no row's identity has a path or a hash |
| ReviewQueue.LogRebuilds | internal/reviewqueue/store.go:74-98 | Before encoding, the records always rebuild the queue |
| ReviewQueue.FailedAppendIff | internal/reviewqueue/store.go:100-110 | When an append fails, the log still rebuilds the live rows if and only if the operation was refused or says again what the row says; a report never does |
| ReviewQueue.RowsHold | internal/reviewqueue/reviewqueue.go:85-99 | A row's events are exactly its reports, its counters summarise them, and it is not approved without evidence |
| ReviewQueue.RowEvidence | internal/reviewqueue/approve.go:11-35 | Over every run a row's evidence and confidence are those of the last accepted call |
| ReviewQueue.ApprovedConfidenceIff | internal/reviewqueue/approve.go:11-83 | Over every run an approved row has evidence, and its confidence is valid if and only if the last accepted evidence carried a valid one |
| ReviewQueue.ApprovedCanLoseConfidence | internal/reviewqueue/approve.go:11-35 | Any approved row can lose a valid confidence by one more call |
| ReviewQueue.RowStatus | internal/reviewqueue/approve.go:38-105 | Over every run a row's status is the last ruling on it |
| ReviewQueue.NoObjectionIff | internal/reviewqueue/approve.go:38-72 | A row can be approved exactly when it was reported, its last evidence is good, its verdict is one and its identity is sound |
| ReviewQueue.CountsAreReports | internal/reviewqueue/reviewqueue.go:85-99 | Counts add up to the number of reports |
| ReviewQueue.ApprovedFactAnswers | internal/reviewqueue/approve.go:51-72 | An approved row's entry answers for the very identity and host reported |
| ReviewQueue.DistinctUUIDs | internal/reviewqueue/reviewqueue.go:50-56 | Different installs of a row, never more than its reports |
| ReviewQueue.Queue.Open | internal/reviewqueue/store.go:41-72 | Replays every record, counting the lines that do not parse |
| ReviewQueue.Queue.ReplayOne | internal/reviewqueue/store.go:74-98 | The effect of one record |
| ReviewQueue.Queue.Ingest | internal/reviewqueue/reviewqueue.go:79-99 | One report in memory and, if it can be written, in the file |
| ReviewQueue.Queue.SetEvidence | internal/reviewqueue/approve.go:11-35 | Evidence on a known row, never empty; a failing append is reported, with memory moved all the same |
| ReviewQueue.Queue.Approve | internal/reviewqueue/approve.go:38-83 | The only way into a catalog, with every objection in order; when only the append fails the fact is added and returned beside the error |
| ReviewQueue.Queue.Reject | internal/reviewqueue/approve.go:86-105 | A known row rejected in memory and, if it can be written, in the file |
| LruCache.CacheIsRecent | internal/signature/cache.go:42-79 | After any interleaving of locked sections the cache holds the most recently used keys, in order of last use |
| LruCache.CacheIsBounded | internal/signature/cache.go:72-77 | Each once, and no more than fit |
| LruCache.AnswersAreTrue | internal/signature/cache.go:59-70 | Every section that answers gives what the computation would, under any interleaving and concurrent misses |
| LruCache.UseKeepsRecent | internal/daemon/decision.go:308-338 | One more use keeps the cache the front of the recency order |
| LruCache.Cache.Find | internal/signature/cache.go:51-58 | The lookup section over list and index |
| LruCache.Cache.Store | internal/signature/cache.go:61-79 | The fill section: first come wins, one too many goes |
| LruCache.Cache.MoveToFront | internal/signature/cache.go:52-54 | The element moves, the rest keeps its order |
| LruCache.Cache.RemoveOldest | internal/daemon/decision.go:330-337 | The last element leaves list and index together |

## Left out

- ExactlyOnceHistory: rotations are stamped by a clock that does not run backwards (`BackwardClockReorders` shows why), and nothing is pruned.
- PrunedHistoryIsSuffixIff: for directories with repeated records only the listing has an exact condition (`PrunedListingIsSuffixIff`); one on their histories would compare the records themselves.
- OpenWithOptions: a failing open or stat, the option defaults and the directory creation are left out.
- Write: a record cut short by a full disk is not modelled; an append completes, or fails with nothing written. A crash falls between file-system operations.
- RotateLocked: a failing choice of name changes nothing, as a failing rename whose file opens again does, and is not distinguished from it.
- ReadHistory: a reader sees one directory, not one that changes while it reads.
- PruneSegments: pruning is modelled and proved on its own, with removals that succeed, and is not part of the exactly-once protocol, whose default keeps all segments; a goroutine that compresses and then prunes interleaves only its compression.
- Encodings (JSON, TOML, gzip) are lossless functions of the fields they keep; SHA-256 and code signatures are opaque values.
- ToLower: lower-casing is that of ASCII; Unicode case folding and invalid UTF-8 in records are not modelled.
- TrimSpace: blanks are the ASCII ones.
- Floating point: distances, medians and scales are real numbers, so the not-a-number and infinity filter of a point has nothing to do.
- ScorePoint: a scale given to it is positive, which `ScaleAboveFloor` proves of every scale the baseline uses.
- Classify: the destination address is copied through and not repeated in the result; sorting a window's drift by rank and time is left out as easy.
- Snapshots.Save: the order of the lists in the file is not modelled, only what they hold; years outside 0 to 9999 do not occur.
- Clouds, Baseline: a missing baseline object, whose queries answer with an empty cloud, is not modelled.
- Learned: listing provenance newest first, and the listing since a time, are left out as easy.
- Rejections.Store.Open: a failing rename of the corrupt file is left out, and so is the digest of the set; a baseline takes its digest as a value.
- Index: a flow's end is its opening plus its duration in unbounded integers; overflow of durations is not modelled.
- Ratifying: the allowlist, the exemptions, the outcome of the address check and the pending store are answers from outside.
- CoreDecider.Decide: answers are stored through the catalog writer; the older path, which adds allowlist patterns when no catalog writer is configured, is left out, and a prompt that times out is one that fails.
- RatifyWriter.Ratify: creating the directory and writing the temporary file succeed or fail together.
- Queue: an append that fails leaves no partial line. The burst flag, a function of the events that is not stored, and the sorted listing are left out.
- Cache: the container list is a sequence of elements, not a chain of pointers; the key of an executable is given.
- Bridge.Writer, Bridge.Reader: a write is complete; a read fails only when the stream ends.
- Coalescer: contexts and cancellation are left out, and so is the counter of inner calls.
- The explainer, telemetry, idle probe, persistence attribution, packet filter and menu bar: platform plumbing with nothing to prove.
