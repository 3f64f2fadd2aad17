# OBoard verification

A Dafny model of eight parts of OBoard whose guarantees span many steps: the restore commit protocol
and the version gate of backups, the bounded subscription tracker, the risk scores, the packing of
review jobs, the agent link, the changeset lifecycle, the provider router, and the delivery hints.

Objects the program updates in place are classes; loops are loops with invariants; what a method
computes is tied to a function of its inputs or of the old state, and the guarantees are lemmas about
those functions over all inputs, all runs or all interleavings. `dafny verify dfyconfig.toml`
verifies the whole project.

| module | models |
|---|---|
| `Restore` | applying a pending restore under faults and crashes |
| `Version` | the version gate and prerelease ordering |
| `Subscription`, `SubscriptionLog`, `SubscriptionUpper`, `SubscriptionNovel` | the bounded tracker, and the full log it stands for |
| `RiskScore`, `RiskEvaluate`, `RiskIntervals` | activity sweep, evaluation, nested score intervals |
| `RiskActivity`, `RiskBaseline` | minute aggregation, baseline and policy adaptation |
| `Packing` | greedy packing of synthesis jobs |
| `Framing`, `PendingTable` | wire frames and padding; concurrent requests on a session |
| `ChangesetChecks`, `Changeset`, `ChangesetAgain`, `ChangesetService` | checks, lifecycle state machine, when it can run again, and the service calls |
| `Breaker`, `Router` | circuit breakers and failover |
| `Hints` | merged delivery hints |
| `Common` | shared helpers |

Where the code differs from what its comments or its purpose suggest, the code is modelled and the
difference is a lemma:

- A subscription policy may have a merge window longer than its history. Then the tracker forgets a
  source that is still requesting (`SubscriptionLog.LongMergeWindowForgets`); the bounded state equals
  the log exactly when the window is no longer than the history
  (`SubscriptionLog.RefinesIffMergeWithinHistory`).
- The upper candidate bound misses a source that is new and repeats in time when candidates live
  longer than the history (`SubscriptionUpper.LongLifetimeMisses`); it misses none exactly when they do
  not (`SubscriptionUpper.UpperBoundIffLifetimeWithinHistory`).
- Every start of a pending restore keeps, at one of its two paths, what could be recovered before it
  (`Restore.Disk.ApplyPendingRestore`), and only that is safe: any other contents at those paths stand
  at the rollback path beside an existing destination, and a start that dies after clearing it loses
  them (`Restore.StartDropsDatabase`, and `Restore.StartDropsTree` when a tree is staged). So an
  original can be lost by two starts (`Restore.TwoStartsDropOriginal`).
- Prerelease comparison is not antisymmetric: `01` and `1` each compare greater than the other
  (`Version.LeadingZeroContradicts`, exact condition in `Version.AntisymmetricUnlessClash`). Signed
  numbers and numbers beyond the machine are ordered unlike SemVer 2.0.0; the identifiers ordered like
  it are exactly the plain ones (`Version.PlainIsExact`).
- Comparing base revisions reads a missing key as the empty string, so an empty resolved revision can
  hide a changed resource set (`ChangesetChecks.EmptyRevisionHidesChange`, exact condition in
  `ChangesetChecks.MatchIsEquality`).
- The changeset store's update does not compare the status it replaces. Two overlapping approvals can
  call the same handler twice (`ChangesetAgain.OverlappingApprovalsRunTwice`). The exact condition is
  `ChangesetAgain.RunsAgainIffClaimable`: before anybody found the changeset expired, it can be claimed
  again iff its row is not closed or somebody who read it has yet to write a validation or approval;
  afterwards, iff somebody already passed the checks and the row is approved, awaits approval under a
  hash, or somebody has yet to write.
- A succeeded changeset can be overwritten, by a caller that read the row earlier
  (`ChangesetAgain.SuccessLastsIffUnthreatened`, the exact condition) and by any validation after the
  expiry, which is tested before the status (`ChangesetAgain.LateValidationExpires`).
- The frame writer accepts payloads the reader refuses; the round trip holds exactly up to 1 MiB
  (`Framing.FrameRoundTrip`). Padding is described as random but is written as zeros, and every short
  padded frame has 130 bytes on the wire, not 128 (`Framing.PaddedLength`).
- The reason a merged hint keeps depends on the order of the notes exactly when two different reasons
  tie for the highest priority (`Hints.ReasonDependsOnOrderIffTied`); the declared reasons never tie.

Assumptions: renames are atomic and existence queries are truthful; staged, live and rollback paths
are distinct; a copy of the staged tree left by an earlier start has no name the staged tree lacks,
which every start preserves; SHA-256 of an encoded plan is injective; the expiry of a changeset never
changes, and the clock it is compared with does not run backwards; scores are exact rationals; and
mutex-protected sections are atomic.

## Model

| member | source | states |
|---|---|---|
| `Restore.Disk.CopyFile` | internal/backup/backup.go:1249-1265 | creates the target exclusively with the source's bytes, or fails leaving at most a partial new file; nothing else changes |
| `Restore.Disk.CopyTree` | internal/backup/backup.go:1219-1247 | success leaves the union of what was there and the source; failure never adds a name the source does not have |
| `Restore.Disk.RollbackPath` | internal/backup/backup.go:1204-1212 | success puts back exactly what was set aside, or removes the destination when nothing was |
| `Restore.Disk.ReplaceFile` | internal/backup/backup.go:1142-1170 | the staged database is live, or the failed call left the live one untouched unless only its rollback copy existed; what could be recovered before stays at one of its two paths even if the process dies |
| `Restore.Disk.ReplaceTree` | internal/backup/backup.go:1172-1202 | the same for the ACME tree; with no staged tree nothing changes |
| `Restore.Disk.ReplaceBoth` | internal/backup/backup.go:457-467 | both replaced, or after a completed rollback both as before; staged contents and originals always survive |
| `Restore.Disk.ApplyPendingRestore` | internal/backup/backup.go:441-474 | at whatever step a fault or crash falls, the record survives with everything it needs or the restore is complete; a restore reported applied has removed the record and both staged copies; a pending one met without faults is applied and leaves no rollback copy either; an error without crash or rollback failure is all or nothing; while the record is there, what could be recovered before this start is still at one of its two paths, and without a staged tree both ACME paths are untouched |
| `Restore.RestoreThroughFaults` | internal/backup/backup.go:441-474 | after any number of starts cut anywhere, one start without faults ends with staged database and tree in place, no pending record, and, if it is the one that applied them, no staged or rollback copy |
| `Restore.StartDropsDatabase` | internal/backup/backup.go:1142-1160 | for any pending restore, contents at the database's two paths other than the recoverable ones are lost by a start that dies after clearing the rollback path, with the record still pending |
| `Restore.StartDropsTree` | internal/backup/backup.go:1172-1192 | the same for the ACME tree whenever one is staged |
| `Restore.TwoStartsDropOriginal` | internal/backup/backup.go:1142-1170 | from any pending restore with a database, two starts that die after replacing it leave the original at neither path with the record still pending |
| `Version.ComparePrerelease` | internal/backup/backup.go:1088-1120 | the loop compares the dot-separated identifiers as the specification does |
| `Version.SplitMeans` | internal/backup/backup.go:1089-1090 | the parts hold no separator and join to the string again |
| `Version.AtoiMeans` | internal/backup/backup.go:1094-1104 | every digit string, plain or signed, has its decimal value within 64 bits and no value beyond |
| `Version.TextLessMeans` | internal/backup/backup.go:1105-1110 | text is less iff it is a proper prefix or has the lower character at the first difference |
| `Version.ParseVersion` | internal/backup/backup.go:1045-1065 | parses exactly the versions the specification parses, whose meaning is `ParseReads` |
| `Version.ParseReads` | internal/backup/backup.go:1045-1065 | for all numbers within 64 bits, `a.b.c` with any prerelease and any build part reads as the core `a, b, c` and that prerelease |
| `Version.CompatibleVersion` | internal/backup/backup.go:1036-1086 | equals the specified compatibility for all strings, development versions included |
| `Version.TrimMeans` | internal/backup/backup.go:1037-1038 | trimming takes exactly the white space off both ends |
| `Version.CoreOrder` | internal/backup/backup.go:1071-1075 | for all cores, the comparison is the lexicographic order of the three numbers |
| `Version.ReleasesCompatible` | internal/backup/backup.go:1036-1086 | for all numbers within 64 bits, with or without the leading `v`, release `a.b.c` may be restored into `x.y.z` iff it is lexicographically at most it |
| `Version.DevelopmentVersions` | internal/backup/backup.go:1036-1044 | any version goes into a development version; a development version goes into nothing else but itself |
| `Version.CompareIsPrecedence` | internal/backup/backup.go:1088-1120 | on canonical fitting numbers and text that does not read as a number, comparison is the field order of section 11 of SemVer 2.0.0, zero only on equality |
| `Version.PlainIsExact` | internal/backup/backup.go:1094-1112 | those identifiers are exactly the ones ordered as SemVer 2.0.0 orders them against each of them |
| `Version.CompareIsTotalOrder` | internal/backup/backup.go:1088-1120 | antisymmetric, transitive, zero only on equality |
| `Version.LeadingZeroContradicts` | internal/backup/backup.go:1094-1112 | the input on which antisymmetry fails |
| `Version.AntisymmetricUnlessClash` | internal/backup/backup.go:1094-1112 | for all lists, antisymmetry holds iff the first differing identifiers are not two spellings of one number |
| `Version.CompatibleIsPrecedence` | internal/backup/backup.go:1036-1086 | a plain version may be restored iff the target is at least the source in SemVer 2.0.0 precedence |
| `Version.CompatibleIsPreorder` | internal/backup/backup.go:1036-1086 | compatibility is total and transitive on plain versions |
| `Subscription.Tracker.Observe` | internal/auditactivity/subscription.go:89-175 | an observation is refused iff the policy is out of bounds, the identity untrusted, the time missing or earlier than the last, a field missing or too long, or a counter full; a refused one changes nothing; an accepted one moves the whole state as the step function says |
| `Subscription.Tracker.CandidateBounds` | internal/auditactivity/subscription.go:179-202 | refuses as the source does; counts proven and possible candidates, saturating when capacity was lost |
| `SubscriptionLog.RunSound` | internal/auditactivity/subscription.go:105-173 | after every run the state respects its budgets, its gap horizon covers every gap of the current epoch, no recent logical update is forgotten outside a gap, and every novel entry is proven new by the log |
| `SubscriptionUpper.EntriesLogged` | internal/auditactivity/subscription.go:116-173 | after every run each entry was last seen at a request of its own source in the current epoch |
| `SubscriptionLog.NoveltySound` | internal/auditactivity/subscription.go:113-173 | an entry is created as novel only if the epoch is a full history old, no gap fell inside it and the source had no logical update inside it, whatever capacity was lost |
| `SubscriptionLog.CandidateBoundsSound` | internal/auditactivity/subscription.go:179-202 | every source counted by the lower bound is proven new and repeated by the log; the bounds are ordered and within the source budget |
| `SubscriptionNovel.NoveltyIffProven` | internal/auditactivity/subscription.go:159-173 | over all runs, an observation after the zero time that creates an entry marks it new iff the log proves it: the epoch is a full history old, no gap fell inside it and the source had no logical update inside it |
| `SubscriptionNovel.LowerBoundExact` | internal/auditactivity/subscription.go:179-202 | over all runs, the lower bound counts exactly the sources whose standing entry the log proves new and repeated in time |
| `SubscriptionNovel.KnownIffLate` | internal/auditactivity/subscription.go:164-170 | over all runs, an entry is known iff its source made a logical update a whole candidate lifetime after the entry was created |
| `SubscriptionNovel.MergedIffRecentlyUpdated` | internal/auditactivity/subscription.go:121-144 | over all runs, a usable request is merged as a retry iff the log of its epoch has a logical update with the same source, representation and revision inside the merge window |
| `SubscriptionUpper.UpperBoundSound` | internal/auditactivity/subscription.go:177-202 | with a lifetime within the history, after every run each source the log shows new and repeated within its lifetime is counted by the upper bound, or the bound is saturated |
| `SubscriptionUpper.LongLifetimeMisses` | internal/auditactivity/subscription.go:116-120 | for every policy with a longer lifetime, a run whose upper bound misses such a source |
| `SubscriptionUpper.UpperBoundIffLifetimeWithinHistory` | internal/auditactivity/subscription.go:177-202 | the upper bound is sound over all runs iff the lifetime is within the history |
| `SubscriptionLog.BoundedStateRefinesLog` | internal/auditactivity/subscription.go:105-174 | without capacity events the seen map is exactly the sources requesting inside the history, with their latest times |
| `SubscriptionLog.LongMergeWindowForgets` | internal/auditactivity/subscription.go:116-144 | for every policy with a longer merge window, a run that forgets a live source |
| `SubscriptionLog.RefinesIffMergeWithinHistory` | internal/auditactivity/subscription.go:30-35 | the refinement holds over all runs iff the merge window is within the history |
| `RiskScore.NormalizedMonotone` | internal/auditrisk/model.go:134-142 | a higher count never normalizes lower |
| `RiskScore.NormalizedLinear` | internal/auditrisk/model.go:134-142 | zero up to the start, one from the end of the gap on, and equal steps in between |
| `RiskScore.HalfUp` | internal/auditrisk/model.go:143-148 | the nearest percentage, halves up |
| `RiskScore.CountMinutes` | internal/auditrisk/model.go:174-184 | counts the minutes reaching a threshold |
| `RiskScore.Activity` | internal/auditrisk/model.go:171-192 | the sweep's best value and the first threshold attaining it |
| `RiskScore.SweepIsSubsetMaximum` | internal/auditrisk/model.go:171-192 | the sweep equals the maximum over all non-empty sets of minutes of normalized fewest sources times normalized size |
| `RiskScore.EvidenceIsWitness` | internal/auditrisk/model.go:171-192 | evidence exists iff the score is positive, and is the least threshold attaining it with its exact number of minutes |
| `RiskScore.ActivityMonotone` | internal/auditrisk/model.go:171-192 | more sources, or a lower start with the same gap, never lower the value |
| `RiskEvaluate.ActivityBounds` | internal/auditrisk/model.go:193-200 | exact interval and rounded score from lower and upper counts |
| `RiskEvaluate.ContributionsMean` | internal/auditrisk/model.go:193-200 | the lower bound and its contribution come from the lower counts, the upper ones from the upper counts |
| `RiskEvaluate.ValidateMinutes` | internal/auditrisk/model.go:201-208 | accepts exactly aligned, ordered, in-capacity minutes |
| `RiskEvaluate.FindUnmet` | internal/auditrisk/model.go:247-252 | the first essential dimension that is not satisfied |
| `RiskEvaluate.FirstUnmetMeans` | internal/auditrisk/model.go:247-252 | none iff all are satisfied; otherwise unsatisfied with all earlier ones satisfied |
| `RiskEvaluate.EvaluateResources` | internal/auditrisk/model.go:287-326 | rejects invalid or repeated dimensions; otherwise the specified resource score |
| `RiskEvaluate.UsageLinear` | internal/auditrisk/model.go:287-326 | a measured dimension counts zero up to its start, one from full on, and in between its share of the way |
| `RiskEvaluate.MaxUsageAttained` | internal/auditrisk/model.go:287-326 | the largest usage is that of a measured dimension |
| `RiskEvaluate.ResourceUpperMeans` | internal/auditrisk/model.go:287-326 | the upper bound equals the lower once request rate, connections and traffic rate are all measured, and is the maximum before |
| `RiskIntervals.MaxUsageCovers` | internal/auditrisk/model.go:287-326 | and no measured dimension uses more |
| `RiskEvaluate.CheckInputs` | internal/auditrisk/model.go:218-246 | the first input error in the source's order |
| `RiskEvaluate.InputsAccepted` | internal/auditrisk/model.go:218-246 | an evaluation succeeds iff policy, identity, versions, dimensions, both windows, novelty and resources are within the stated limits |
| `RiskEvaluate.Evaluate` | internal/auditrisk/model.go:218-286 | the specified snapshot or error for every input |
| `RiskEvaluate.SnapshotMeans` | internal/auditrisk/model.go:218-286 | thirty whole minutes; no behaviour score iff an essential dimension fails, with the first failure as reason; stale iff scored on evidence that is not fresh; never eligible for automatic action |
| `RiskEvaluate.ExposureIsHalfway` | internal/auditrisk/model.go:253-285 | exposure is halfway between the normalized number of new sources and that number weighted by the activity after the update |
| `RiskEvaluate.ScoreMeans` | internal/auditrisk/model.go:149-170 | both bounds rounded, complete iff equal before rounding, and only then a level: medium from 40, high from 70, very high from 90 |
| `RiskEvaluate.AttentionIsLarger` | internal/auditrisk/model.go:253-285 | attention is the larger of activity and exposure at both ends |
| `RiskIntervals.EvaluationNested` | internal/auditrisk/model.go:253-285 | narrowing any range, or regaining history or support, gives activity, exposure and attention intervals inside the wider ones, all within 0..100 and ordered |
| `RiskIntervals.UnsupportedIsWidest` | internal/auditrisk/model.go:253-265 | unsupported collection yields the whole interval |
| `RiskIntervals.ResourceNested` | internal/auditrisk/model.go:287-326 | measuring more dimensions never leaves the earlier interval |
| `RiskActivity.MergeRows` | internal/auditrisk/activity.go:34-51 | merges rows per source with capacity and saturating counters, rejecting any invalid row |
| `RiskActivity.CountSlices` | internal/auditrisk/activity.go:52-63 | per slice the number of qualifying sources active in it |
| `RiskActivity.ThirdLargest` | internal/auditrisk/activity.go:64-72 | the third largest count with multiplicity |
| `RiskActivity.ThirdLargestMeans` | internal/auditrisk/activity.go:64-72 | at least three positions have that count or more, at most two have more |
| `RiskActivity.AggregateMinute` | internal/auditrisk/activity.go:25-81 | every error case, and otherwise the aggregation of the merged rows |
| `RiskActivity.MergeIsRestriction` | internal/auditrisk/activity.go:34-51 | merging keeps whole sources only, all of them or as many as the capacity |
| `RiskActivity.FirstSourcesKept` | internal/auditrisk/activity.go:34-51 | the kept sources are the ones that appeared first |
| `RiskActivity.ExactWithinCapacity` | internal/auditrisk/activity.go:25-81 | when the sources fit, the result is the true third largest count over all of them |
| `RiskActivity.CountsFromRows` | internal/auditrisk/activity.go:52-63 | those counts in terms of the rows: sources with enough bytes and slices over all their rows, active in the slice |
| `RiskActivity.LowerBoundSound` | internal/auditrisk/activity.go:73-81 | under overflow the lower bound never exceeds the uncapped value |
| `RiskActivity.UpperBoundSound` | internal/auditrisk/activity.go:73-81 | the upper bound reaches the uncapped value or saturates the activity scale |
| `RiskActivity.WindowUpperSound` | internal/auditrisk/activity.go:73-81 | over any window, the activity of the reported upper counts is at least that of the uncapped counts |
| `RiskActivity.RangeIsEvaluable` | internal/auditrisk/activity.go:73-81 | the range always meets the bounds the evaluation demands |
| `RiskActivity.OrderIndependent` | internal/auditrisk/activity.go:25-81 | permuting rows changes nothing when the sources fit |
| `RiskBaseline.FindBucket` | internal/auditrisk/activity.go:129-137 | the least bucket whose cumulative count reaches the target |
| `RiskBaseline.MergeDays` | internal/auditrisk/activity.go:103-127 | sums the acceptable days, skipping overflowed ones, with exact day and minute counts |
| `RiskBaseline.SummarizeBaseline` | internal/auditrisk/activity.go:98-139 | errors exactly on too many or unacceptable days; otherwise the 95th percentile bucket of the merged histogram |
| `RiskBaseline.MergedTotal` | internal/auditrisk/activity.go:103-127 | no active minute is lost or counted twice |
| `RiskBaseline.MergedBucket` | internal/auditrisk/activity.go:103-127 | each bucket is the sum of that bucket over the days that did not overflow |
| `RiskBaseline.ValidDaysIsCount` | internal/auditrisk/activity.go:103-127 | valid days are the days with activity that did not overflow |
| `RiskBaseline.Q95Unique` | internal/auditrisk/activity.go:129-137 | the percentile is determined by the histogram |
| `RiskBaseline.Q95Means` | internal/auditrisk/activity.go:129-137 | for any minutes with that histogram, the least number of sources that at least 95 in 100 minutes do not exceed |
| `RiskBaseline.AdaptedIsRaised` | internal/auditrisk/activity.go:143-157 | adaptation succeeds iff the policy is valid, gives a valid policy with the same gap, and starts above the baseline unless limited |
| `RiskBaseline.AdaptationIsLeast` | internal/auditrisk/activity.go:143-157 | limited iff a usable baseline moves the scale beyond the capacity; otherwise the start is the larger of the configured one and one above the baseline; without a usable baseline, or limited, the policy is unchanged |
| `RiskBaseline.AdaptationNeverRaises` | internal/auditrisk/activity.go:143-157 | under the adapted policy the same inputs are accepted and no activity, exposure or attention bound rises |
| `Packing.SynthesisInputs` | internal/auditreview/service.go:364-393 | all outputs in order, no empty job, every multi-part job fits, and no job could have taken the next part |
| `Packing.PackIsGreedy` | internal/auditreview/service.go:364-393 | the loop's state is a greedy packing of every prefix |
| `Packing.GreedyIsMinimal` | internal/auditreview/service.go:364-393 | no contiguous packing has fewer jobs when size is monotone |
| `Packing.StaysAhead` | internal/auditreview/service.go:364-393 | after any number of jobs the greedy packing covers at least as much as any other |
| `Packing.StageShrinksIffPairFits` | internal/auditreview/service.go:296-347 | a synthesis stage has fewer jobs than parts iff some two neighbours fit together |
| `Packing.JobBytesMonotone` | internal/auditreview/service.go:364-393 | the encoded job size is monotone in its parts |
| `Packing.JobBytesIsLength` | internal/auditreview/service.go:364-393 | the counted size is the length of the text with the parts joined by commas |
| `Framing.Wire.Send` | internal/agentlink/agentlink.go:91-102 | appends header and payload as specified |
| `Framing.Wire.Fetch` | internal/agentlink/agentlink.go:106-124 | consumes exactly the frame it returns; only the header of an oversized one; everything on a short read |
| `Framing.WrittenHeader` | internal/agentlink/agentlink.go:91-102 | type and flags first, then the length modulo 2^32 with the highest byte first, then the payload |
| `Framing.FrameRoundTrip` | internal/agentlink/agentlink.go:91-124 | a written frame is read back, whatever follows, iff its payload is at most 1 MiB |
| `Framing.StreamRoundTrip` | internal/agentlink/agentlink.go:91-124 | any concatenation of such frames reads back as exactly those frames |
| `Framing.PaddingRoundTrip` | internal/agentlink/agentlink.go:127-154 | padding succeeds exactly within its limits, writes its length in network order and then zeros, and stripping undoes it |
| `Framing.PaddedRoundTrip` | internal/agentlink/session.go:112-125 | the receiver recovers type and payload of a padded frame iff the payload is at most 1 MiB |
| `Framing.PaddedLength` | internal/agentlink/session.go:112-125 | every padded frame has at least 128 bytes, and all short ones the same length |
| `PendingTable.Session.RegisterRequest` | internal/agentlink/session.go:50-56 | an ID no request ever had, a channel nobody has signalled or can be signalling, every other request undisturbed, and the invariant kept |
| `PendingTable.Session.TakeEntry` | internal/agentlink/client.go:185-188 | claims the entry of a response so that nothing else can, drops a response nobody waits for, and keeps the invariant |
| `PendingTable.Session.SendResponse` | internal/agentlink/client.go:189-192 | from the invariant alone: any claimed response can be sent, the send neither blocks nor meets a closed channel, and its caller finds exactly this response |
| `PendingTable.Session.DrainTable` | internal/agentlink/session.go:144-149 | closes each registered channel once, none of them closed or sent to before, empties the table and keeps the invariant |
| `PendingTable.Session.ReceiveResponse` | internal/agentlink/session.go:85-91 | the received response carries the caller's own ID and was the only one |
| `PendingTable.StepKeeps` | internal/agentlink/session.go:50-151 | every step keeps at most one right to signal per channel |
| `PendingTable.RunIsSafe` | internal/agentlink/session.go:50-151 | in every interleaving a channel gets at most one send or close, no send blocks or follows a close, nothing closes twice, and a caller receives only its own response |
| `PendingTable.DuplicateIsDropped` | internal/agentlink/client.go:185-193 | a second response for a request changes nothing |
| `PendingTable.ClosedIffPendingAtDrain` | internal/agentlink/session.go:79-94 | in every run a channel is closed iff its request was registered when the table was drained, and such a channel never held a response |
| `PendingTable.ExactlyOneOutcome` | internal/agentlink/session.go:50-151 | in every run each request is exactly one of registered, in flight, sent and closed, or none of them iff its caller gave up while it was registered |
| `PendingTable.DrainedOnce` | internal/agentlink/session.go:140-151 | in every run the table is drained at most once, and only after a shutdown began |
| `ChangesetChecks.CompareRevisions` | internal/automation/service.go:1164-1174 | passes exactly when sizes agree and each current revision reads the same in the expected map |
| `ChangesetChecks.MatchIsEquality` | internal/automation/service.go:1146-1174 | the maps are equal iff the comparison passes and no current revision is empty |
| `ChangesetChecks.EmptyRevisionHidesChange` | internal/automation/service.go:1164-1174 | for any maps, a key replaced by one with an empty revision passes unnoticed |
| `ChangesetChecks.InspectOperations` | internal/automation/service.go:1020-1073 | succeeds iff every operation is authorised at its recorded risk class, executable, valid and resolvable, each condition spelled out, and none resolve a resource differently; returns the union of what they resolved |
| `ChangesetChecks.ValidateOperations` | internal/automation/service.go:1005-1018 | passes iff the base revisions decode, the inspection succeeds and the resolved revisions match them |
| `ChangesetChecks.DecodesMeans` | internal/automation/service.go:1146-1163 | revisions decode iff no key and no revision is blank |
| `ChangesetChecks.HashDeterminesPlan` | internal/automation/service.go:1090-1110 | two plans have the same digest iff base revisions, capability, input, resource references and risk class of every operation in order are the same |
| `ChangesetChecks.CurrentMeansResolved` | internal/automation/service.go:1005-1018 | a passed validation means base revisions equal the union of the resolved ones iff none of those is empty |
| `ChangesetChecks.PoliciesAllowAutomatic` | internal/automation/service.go:917-941 | refused iff some policy denies or cannot be read; automatic iff every operation is preapproved, risk 4 only by explicit policy and never for OAuth |
| `Changeset.HandlersRunTheValidatedPlan` | internal/automation/service.go:254-362 | in every interleaving, handlers run operations equal in capability, input, references and risk class to those of a plan that passed validation against current revisions, which was preapproved operation by operation or approved for its digest by an identified interactive administrator or operator; at the check every operation was inspected and accepted, none of one policy lookup per operation refused, and base revisions were the resolved ones unless one was empty; they run in order, each after all earlier succeeded |
| `Changeset.HandlersRunAtMostOnce` | internal/automation/service.go:240-413 | without stale validation or approval writes there is at most one claim, so no handler runs twice; a succeeded changeset ran every handler successfully |
| `ChangesetAgain.RunsAgainIffClaimable` | internal/automation/service.go:240-413 | the exact condition, after any run of the stored plan under a clock that does not run backwards: a further claim and a further call of the first handler are possible iff, before an expiry was found, the row is not closed or somebody has yet to write a validation or approval, and after it, somebody already passed the checks and the row is or can become approved |
| `ChangesetAgain.LateRunClaimsNothing` | internal/automation/service.go:334-338 | once every look finds the changeset expired, nothing is ever claimed unless somebody had passed the checks and the row can be approved |
| `ChangesetAgain.SettledStays` | internal/automation/service.go:240-413 | a closed row that nobody has yet to write is never claimed again in any continuation |
| `Changeset.SequentialRunsOnce` | internal/automation/service.go:240-413 | with validations and approvals one after another and applies interleaved in any way, there is at most one claim and no handler runs twice |
| `ChangesetAgain.StaleApprovalRunsAgain` | internal/store/automation.go:356-372 | in time, an approval still to be written re-arms the changeset whatever its status has become: with every check made, its first handler is called once more |
| `ChangesetAgain.OverlappingApprovalsRunTwice` | internal/automation/service.go:288-321 | for every created plan, two overlapping approvals have a run, in time throughout, calling the first handler twice |
| `ChangesetAgain.SuccessLastsIffUnthreatened` | internal/automation/service.go:240-413 | a validation after the expiry can expire any succeeded row; short of one, it stays succeeded in every continuation iff no earlier reader can still write |
| `ChangesetService.Service.CheckBeforeClaim` | internal/automation/service.go:334-352 | with one inspection and one lookup per operation, passes exactly the copies that may be claimed; stores the row as expired when it is, as superseded when the revisions moved, and nothing on refusal |
| `ChangesetService.Service.RunHandlers` | internal/automation/service.go:367-395 | calls handlers in order until one is missing, fails or cannot be recorded |
| `ChangesetService.Service.Apply` | internal/automation/service.go:323-413 | is a run of lifecycle steps; idempotent after success; no call without a claim; success means every handler of the loaded plan succeeded once; a handler that stops the run leaves the row failed |
| `ChangesetService.Service.Approve` | internal/automation/service.go:288-321 | applies iff an authorised operator approves a row awaiting approval, and records the approval against its hash |
| `ChangesetService.Service.Validate` | internal/automation/service.go:240-286 | succeeds exactly for an unexpired open row whose plan is current and not refused, and records the hash of that plan; applies at once iff every operation is preapproved, otherwise waits; a failure changes nothing but an expiry |
| `Breaker.StateIsLog` | internal/aiprovider/router.go:184-228 | in every run a breaker is determined by the log: failures since the last success, a deadline iff at least three, half open iff a probe is out, half open implies open |
| `Breaker.AdmitsIffClosedOrFirstProbe` | internal/aiprovider/router.go:184-199 | admitted iff closed, or 30 seconds past the last failure with no probe out |
| `Breaker.OneProbeUntilRecorded` | internal/aiprovider/router.go:184-213 | after a probe nothing is admitted until something is recorded |
| `Breaker.OtherEndpointsUntouched` | internal/aiprovider/router.go:184-228 | no event changes another endpoint's breaker |
| `Router.SortIsStable` | internal/aiprovider/router.go:57-58 | a permutation ordered by priority that keeps configured order among equals |
| `Router.Router.BreakerAllows` | internal/aiprovider/router.go:184-199 | answers and updates as the log says |
| `Router.Router.RecordSuccess` | internal/aiprovider/router.go:201-205 | forgets the endpoint's failures |
| `Router.Router.RecordNonRetryable` | internal/aiprovider/router.go:207-213 | ends a probe without counting a failure |
| `Router.Router.RecordFailure` | internal/aiprovider/router.go:215-228 | counts a failure and from the third on sets the deadline |
| `Router.Router.TryEndpoint` | internal/aiprovider/router.go:85-123 | at least one and at most the configured attempts, stopping at the first reply not worth retrying, each reported to the breaker |
| `Router.WithinBudget` | internal/aiprovider/router.go:62-124 | the calls never exceed the sum of max(1, retries + 1) over the endpoints |
| `Router.BudgetSpent` | internal/aiprovider/router.go:62-124 | and reach that sum when every endpoint is tried to the end |
| `Router.SkippedIff` | internal/aiprovider/router.go:62-84 | an endpoint is passed over, without a call, iff it is disabled or a formal audit finds it unready for the model it would use: its own, else the request's, else the provider's |
| `Router.Router.Complete` | internal/aiprovider/router.go:56-132 | under any interference on the breakers: endpoints in order, only eligible and admitted ones called, every call reported with its reply, an answer carries the exact number of calls, and giving up means every eligible endpoint was refused or exhausted |
| `Hints.FoldMeans` | internal/controller/access_sync_hints.go:68-95 | a server is pending iff noted, with the first strongest reason, its priority, and force iff any note forces |
| `Hints.PriorityOrder` | internal/controller/access_sync_hints.go:23-36 | revocations before reconnects before deadlines before changes before everything else |
| `Hints.ForceMatchesReason` | internal/controller/access_sync_hints.go:42-44 | the merged force is that of the kept reason, for all strings |
| `Hints.OrderIndependent` | internal/controller/access_sync_hints.go:79-94 | priority and force never depend on note order; the reason does not without a tie |
| `Hints.ReasonDependsOnOrderIffTied` | internal/controller/access_sync_hints.go:88-91 | some reordering keeps another reason iff two different reasons tie for the highest priority |
| `Hints.DeclaredReasonsOrderIndependent` | internal/controller/access_sync_hints.go:13-36 | with declared reasons the merged hints are the same for every order |
| `Hints.HintSet.AddNotes` | internal/controller/access_sync_hints.go:68-95 | one note per positive ID, nothing else |
| `Hints.HintSet.Drain` | internal/controller/access_sync_hints.go:99-118 | empties the set and returns exactly the pending hints, strictly ordered by priority, then ID |
| `Hints.DrainUnique` | internal/controller/access_sync_hints.go:111-116 | that output is determined by the pending hints |
| `Hints.NotedComesOutOfNextDrain` | internal/controller/access_sync_hints.go:54-118 | in every interleaving a noted positive ID comes out of the next drain exactly once, merged from the notes since the previous drain |
| `Hints.DrainedNotRepeated` | internal/controller/access_sync_hints.go:99-118 | and out of no later drain unless noted again |

## Left out

- Restore: parsing and path validation of the pending record (a record is valid or invalid), file modes and syncs, and a rename that reports success without taking effect.
- Changeset: only one changeset row is modelled; drafts, workflows, idempotency keys, authorisation of callers, results of operations and the apply observer are not.
- Changeset: the resource filter of an approval policy is a verdict of the policy store's answer, and JSON encoding errors are an input.
- PendingTable: nothing is claimed about what a caller does with the nil response of a closed channel. IDs are unbounded, without 64-bit wrap-around.
- Breaker: nothing is claimed about eventual re-admission; a call that finds no client for its endpoint leaves a probe out until the next record. A deadline equal to the zero time is not modelled.
- Router: which model a call carries, audit capability profiles and the retry delay's length are inputs or omitted.
- Framing: deadlines, TLS, authentication frames and message dispatch.
- RiskScore.HalfUp: rounds a negative value down where the source truncates it; no score is negative.
- RiskScore: rational arithmetic is modelled with `real`, which is exact like the source's rationals.
- Packing: prompts, model calls and the storage of review stages; job size is a function of the parts, and the JSON size is modelled as an envelope plus the encoded parts.
- Intelligence percentiles, remote backup storage, archive formats, encryption, the access lifecycle scheduler, the HTTP API, the command-line programs and the web UI.
