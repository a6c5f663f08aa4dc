# Verification of the log delivery and access cores

This project models the parts of NexusLog that promise something over time, and proves those
promises for every input and every run. `dafny verify dfyconfig.toml` checks the whole project.

| files | what they model |
|---|---|
| `Text.dfy`, `Numerals.dfy` | strings, splitting and joining, number texts, runs of state machines |
| `PullV2.dfy`, `PullV2Runs.dfy`, `PullV2Service.dfy`, `PullV2Exact.dfy`, `PullV2Answers.dfy` | the agent's per-source pull delivery: sequence numbers, pending batches, acknowledgements, checkpoints |
| `Normalize.dfy`, `LateLines.dfy`, `PullV1.dfy`, `PullV1Index.dfy`, `PullV1Runs.dfy`, `PullV1Paging.dfy`, `PullV1Session.dfy`, `PullV1Commits.dfy`, `PullV1Service.dfy`, `PullV1Reach.dfy`, `PullV1Restart.dfy`, `PullV1Breaks.dfy`, `PullV1Idle.dfy`, `PullV1Checkpoints.dfy`, `Landings.dfy`, `LateChains.dfy`, `GroupedRuns.dfy`, `SplitBatches.dfy`, `SplitFurther.dfy`, `PullV1Exact.dfy`, `LineKinds.dfy`, `Fingerprints.dfy` | the agent's first pull interface: multiline grouping, duplicate index, paging, scoped cursors |
| `RateLimit.dfy`, `RateLimitRuns.dfy`, `RateLimiter.dfy`, `RateLimitExact.dfy` | the sliding-window limiter of the authentication endpoints |
| `Sessions.dfy`, `AuthRepository.dfy` | refresh-token families with rotation and replay revocation |
| `Scan.dfy`, `Scanner.dfy` | the incremental file reader and the round-robin scan |
| `Audit.dfy`, `AuditSources.dfy`, `AuditFetch.dfy`, `AuditPages.dfy`, `AuditExact.dfy` | merged audit paging in the console, direct and cached, from servers that cap a page |
| `Glob.dfy`, `GlobExpand.dfy`, `GlobWalk.dfy` | path patterns with `**` and their expansion |
| `Wal.dfy`, `WalExact.dfy` | the write-ahead buffer |
| `Pipeline.dfy`, `PipelineWorker.dfy`, `PipelineAgent.dfy`, `PipelineRestart.dfy` | the sending pipeline with its disk cache, retries and restarts |
| `RuleText.dfy` | printing and parsing of alert rule descriptions |

Each core has two layers. Values and functions say what one operation does and what a run is;
lemmas about them hold for all runs. Where the source updates objects, arrays or maps in place,
a class or method with the source's loops is proved to do exactly what the functions say.
A run carries its history (everything appended, acknowledged, saved or evicted) beside the
state, so that a promise about the past can be stated. Operations under one lock, and database
transactions, are single steps, so a run covers every interleaving of them.

So that the functions which say what an operation does are not taken on trust, each operation has
a lemma, mostly named after it with `IsExact`, that says what it answers and leaves behind without
them: places in a buffer, rows of a table, characters of a text, and constants as they are.

Where a natural promise is not kept by the code, the code is modelled as it is and a lemma says
exactly when it is kept, mostly with another that builds an input or a run which breaks it:
acknowledgements after explicit cursors (`AckLosesNothingIff` in version 2, `OwnAckIff` in
version 1), the shared scope of an empty path and `*` (`CollidingAckIff`), claims above a batch
(`ClaimIsSafeIff`), clients that are handed back the empty cursor (`SessionIsExactIff`), cursors
from before a restart (`AlwaysWellIff`), checkpoints past dropped records (`SavedCoversIff`,
with a run of 20000 records in `SavedPastDropped`), batches that are split (`SplitIff`), different
records with one fingerprint (`FingerprintIff`, `BarsCollide`), windows of an evicted key (`WindowBound`), audit pages beyond the servers' caps (`DirectRightIff`,
`CachedRightIff`), lines cut at the end of a growing file (`GrowthKeepsLinesIff`), escaped
letters in a pattern's base (`WalkIsCompleteIff`), lines too long for the scanner
(`OverflowStaysOpenIff`), cache identifiers drawn twice (`StoreLosesIff`, `RemoveLosesIff`), a
restart with several workers (`AlwaysSafeIff`), and texts that do not read back (`RoundTripIff`).

A merged audit page should not depend on whether it is fetched at once or through the cache. The
servers answer at most 200 rows, so beyond them it does; the model has the caps and says which
pages are right.

The source's comments call the pipeline's delivery at-least-once. The model follows the code, in
which two batches cached in the same nanosecond share an identifier, so that the second replaces
the first, and in which a worker that is done saves a checkpoint past the records of another that
is not, so that a restart does not read those again.

## Model

| member | source | states |
|---|---|---|
| `PullV2Service.Service.constructor` | agents/collector-agent/internal/pullv2/service.go:94-106 | A new service is empty and buffers at most the given number of records per source, 10000 if that is not positive. |
| `PullV2Service.Service.Append` | agents/collector-agent/internal/pullv2/service.go:108-140 | Appending changes the service exactly as the append step says: nothing for a blank source, an empty list or a full buffer; otherwise the records are numbered on from the source's last number, get their default id and time, and go to the end of its buffer. |
| `PullV2Service.Service.Pull` | agents/collector-agent/internal/pullv2/service.go:142-217 | A pull returns the first records after its cursor, up to the limit, remembers them as a pending batch ending at the last one, and says whether records remain; a blank source or unreadable cursor changes nothing. |
| `PullV2Service.Service.Ack` | agents/collector-agent/internal/pullv2/service.go:219-276 | An acknowledgement addresses a pending batch whose cursor must agree if given; a nack only drops the batch; otherwise each file's latest offset is saved, at most once per file and none after a failure, and only if all succeed the cursor is committed, the buffer pruned and the batch dropped. |
| `PullV2Exact.AppendIsExact` | agents/collector-agent/internal/pullv2/service.go:108-140 | An append is refused exactly when the records would not fit; otherwise the source's buffer is the old one followed by each record as it came, numbered one by one from the last number, with a missing id, time or attribute filled in; no other source, cursor or batch changes. |
| `PullV2Exact.DefaultIdsDiffer` | agents/collector-agent/internal/pullv2/service.go:128-131 | No two records of a source are given the same default id. |
| `PullV2Answers.PullIsExact` | agents/collector-agent/internal/pullv2/service.go:142-217 | For every cursor that can be read: the answer holds the records after the start, one by one in buffer order, as many as are there or the limit allows; the batch remembered for the acknowledgement is exactly these, with the number of the last one, which is also the next cursor; has_more says whether more remain; an answer without records hands back the start and remembers nothing. |
| `PullV2Exact.CursorIsRead` | agents/collector-agent/internal/pullv2/service.go:291-301 | An empty cursor stands for the committed one, a blank one for 0, and any other for the number that it is, written in decimal with white space around and perhaps a sign and zeros in front, up to the largest 64-bit one; everything else is unreadable. |
| `Numerals.ParsesIff` | agents/collector-agent/internal/pullv2/service.go:291-301 | A text is parsed as a number exactly when it is that number in decimal, perhaps with a sign and zeros in front, within 64 bits. |
| `PullV2Exact.AckIsExact` | agents/collector-agent/internal/pullv2/service.go:219-289 | An acknowledgement that names no pending batch or disagrees with its cursor changes nothing and says which; a nack only drops the batch; a failed save changes nothing; and otherwise the batch is dropped, its number committed, and exactly the source's records up to it leave the buffer. Each save is for the offset of a record of the batch, and without a failure every record's file has one that reaches it. |
| `PullV2Service.PruneCommitted` | agents/collector-agent/internal/pullv2/service.go:278-289 | Compacting the slice within its own backing array gives exactly the records numbered after the cursor. |
| `PullV2Service.Service.LatestOffsets` | agents/collector-agent/internal/pullv2/service.go:246-254 | Each file with a positive offset in the batch is mapped to its largest one, and no other file is. |
| `PullV2Service.Service.SaveAll` | agents/collector-agent/internal/pullv2/service.go:256-264 | The saver gets one call per file until a call fails; without a failure every file was saved. |
| `Text.CursorRoundTrip` | agents/collector-agent/internal/pullv2/service.go:291-301 | A cursor printed by the service is read back as the same number. |
| `PullV2Runs.RunShape` | agents/collector-agent/internal/pullv2/service.go:108-289 | In every run, with any cursors and any order of acknowledgements, each source's buffer is the contiguous numbers after the highest one ever acknowledged, within the limit and above committed, and every pending batch is a nonempty contiguous run ending at its cursor. |
| `PullV2Runs.NothingIsLost` | agents/collector-agent/internal/pullv2/service.go:108-289 | In every run whose pulls use the empty cursor, each number ever given belongs to one record that is still buffered or was in an accepted batch. |
| `PullV2Answers.AckedWasSent` | agents/collector-agent/internal/pullv2/service.go:142-276 | In every run, whatever its cursors, each record that an acknowledgement removed was in the answer of an earlier pull of that source. |
| `PullV2Answers.EmptyCursorRedelivers` | agents/collector-agent/internal/pullv2/service.go:157-189 | In every reachable state an empty-cursor pull answers with the oldest buffered records, each as it was appended, as many as the limit (200 if none is asked for) allows, so again and again until they are acknowledged; has_more holds exactly when more are buffered. |
| `PullV2Runs.AckLosesNothingIff` | agents/collector-agent/internal/pullv2/service.go:266-268 | An accepted acknowledgement loses nothing exactly when its batch starts no later than the oldest buffered record of its source. |
| `PullV2Runs.ExplicitCursorLoses` | agents/collector-agent/internal/pullv2/service.go:154-160 | With two records buffered, pulling from just past the oldest and acknowledging that batch loses the oldest. |
| `PullV2Runs.TwoBuffered` | agents/collector-agent/internal/pullv2/service.go:108-140 | The state in which that happens is reached by one append to a new service. |
| `PullV2Runs.CheckpointsNeverRunAhead` | agents/collector-agent/internal/pullv2/service.go:246-268 | With empty-cursor pulls and a file's records buffered in increasing offset order, whenever an offset was handed to the saver for the file, every buffered record of it up to that offset was in a batch named by a non-nack acknowledgement. |
| `PullV2Runs.FailedSaveChangesNothing` | agents/collector-agent/internal/pullv2/service.go:256-268 | A failed save leaves the whole service as it was, so the acknowledgement can be repeated; an accepted one has saved an offset at least that of every record of the batch, and no save failed. |
| `Normalize.NormalizeBatch` | agents/collector-agent/internal/pullapi/normalize.go:46-80 | The grouping loop gives one record for each maximal run of lines that join, each record being the finalised merge of its run's bodies, originals, latest time and worst severity. |
| `Normalize.AppendsWhenJoins` | agents/collector-agent/internal/pullapi/normalize.go:453-475 | Whether a line is appended to the growing record can be told from the lines alone: same source as the run's first line, compatible instances, and a continuation of the previous line. |
| `Normalize.Extremes` | agents/collector-agent/internal/pullapi/normalize.go:490-495 | A merged record carries the latest time of its lines and the severity of the first line of the highest severity. |
| `Normalize.GroupedPartitions` | agents/collector-agent/internal/pullapi/normalize.go:59-80 | The accepted lines fall into contiguous same-source runs, one per record; each record counts its lines, starts at its first line's offset and ends at its last line's. |
| `Normalize.LinesAreCounted` | agents/collector-agent/internal/pullapi/normalize.go:477-482 | The records' line counts add up to the number of accepted lines. |
| `Normalize.LastLineOfAppended` | agents/collector-agent/internal/pullapi/normalize.go:533-541 | The last nonempty line of a record is that of the text appended last. |
| `LineKinds.ContinuesIff` | agents/collector-agent/internal/pullapi/normalize.go:453-564 | A line continues the previous one exactly when it is not blank and begins like a stack trace, or both are npm error lines, or it is indented and the previous line names an error or the record has several lines already; the words are written out. |
| `PullV1Service.Service.AddRecords` | agents/collector-agent/internal/pullapi/service.go:229-270 | Adding a batch is: group the lines, then for each record merge it as a late continuation, count it into a recent duplicate, or append and index it; afterwards drop the oldest beyond 20000 and rebuild the index. |
| `PullV1Service.Service.TryAppendContinuation` | agents/collector-agent/internal/pullapi/service.go:272-292 | The record goes to the last buffered record it continues, whose text, fingerprint and index entry change; without one nothing changes. |
| `PullV1Service.Service.TryMergeDuplicate` | agents/collector-agent/internal/pullapi/service.go:362-395 | A record whose fingerprint was indexed within the window only raises the duplicate count of the indexed record and renews its entry. |
| `PullV1Service.Service.RebuildRecentCache` | agents/collector-agent/internal/pullapi/service.go:406-415 | The rebuilt index maps each fingerprint to the last buffered record carrying it. |
| `PullV1Index.AddKeepsSound` | agents/collector-agent/internal/pullapi/service.go:229-415 | At the end of every call the sequence numbers strictly increase, every index entry points to a buffered record with exactly that fingerprint, and every record has one. |
| `PullV1Index.LookupSucceeds` | agents/collector-agent/internal/pullapi/service.go:397-404 | The lookup by sequence number of an index entry never fails, and finds a record with that fingerprint. |
| `PullV1Index.OneFingerprintEach` | agents/collector-agent/internal/pullapi/service.go:257-257 | No two fingerprints point to one record. |
| `PullV1Index.DuplicateFound` | agents/collector-agent/internal/pullapi/service.go:366-377 | A duplicate is found exactly when its fingerprint is indexed and was seen within the window; the missing-record branch is never taken. |
| `PullV1Index.AddConserves` | agents/collector-agent/internal/pullapi/service.go:247-264 | After any batch every accepted line is in a buffered, evicted or merged duplicate record, and every normalised record is an occurrence of a buffered or evicted record or a late continuation, each once. |
| `PullV1Exact.ContinuesOnlyItsOwn` | agents/collector-agent/internal/pullapi/service.go:272-323 | A late continuation goes to the last buffered record that it continues: of the same source, with an instance that agrees, not newer, and older by at most ten seconds. |
| `PullV1Exact.ContinuationIsExact` | agents/collector-agent/internal/pullapi/service.go:325-353 | Its text and original text become the end of that record's, which takes its offset, the later time and the lines of both, and keeps its number, source, service and instance; no other record changes, and no number is drawn. |
| `Fingerprints.FingerprintIff` | agents/collector-agent/internal/pullapi/normalize.go:566-596 | With a digest that tells texts apart and no bar in source, service, instance and severity, two records have one fingerprint exactly when these four are the same trimmed and their texts have the same nonblank lines, trimmed. |
| `Fingerprints.BarsCollide` | agents/collector-agent/internal/pullapi/normalize.go:571-579 | With a bar it is not so: a source x|y with service z and a source x with service y|z have one fingerprint. |
| `Fingerprints.DuplicateIff` | agents/collector-agent/internal/pullapi/service.go:362-395 | Then a record that is not a late continuation is counted as a duplicate exactly when an indexed record seen within the window has the same lines, source, service, instance and severity, and only into such a record. |
| `Fingerprints.OnlyRepeatsAreDropped` | agents/collector-agent/internal/pullapi/service.go:229-415 | So in every run, for every record of every batch added: only repetitions of a buffered record are dropped, and no line is lost for a different one. |
| `SplitBatches.SplitIff` | agents/collector-agent/internal/pullapi/service.go:272-323 | Two batches leave the records that their lines would have left in one batch: always, and with the same index and numbers, when the second starts a run of its own; and when all of it joins the last run of the first, exactly when that run is duplicated, merged late or buffered alike with and without the second batch's lines, is not counted as a duplicate, and each record of the second batch in turn continues the record the run went to. Buffers that do not overflow; a record is alike up to white space at the ends of its text. |
| `SplitBatches.OneLineIff` | agents/collector-agent/internal/pullapi/service.go:325-353 | For one line that joins a run which is buffered as a new record, that is exactly when the line is in time, not older than the run and not newer by more than the window, and continues the run even after its leading white space is trimmed. |
| `SplitFurther.SplitStateIff` | agents/collector-agent/internal/pullapi/service.go:272-415 | A split inside the last run leaves alike records, the same index and the same next number exactly when, besides, no fingerprint that the run's record has while the second batch is merged into it is still indexed for an older record. |
| `SplitFurther.BatchAlike` | agents/collector-agent/internal/pullapi/service.go:229-270 | Then every later batch, one that overflows the buffer included, leaves alike records, the same index and the same next number again. |
| `SplitFurther.SplitGoesOn` | agents/collector-agent/internal/pullapi/service.go:229-270 | With more runs after the lines that join: these find exactly what the part that joins has left, in one batch and in two, so under that condition such a split leaves the same too. |
| `SplitBatches.IndentedLineSplits` | agents/collector-agent/internal/pullapi/normalize.go:471-473 | An indented line after an error header, neither of a stack trace nor of npm, joins it in one batch and not in the next, so a fresh service is left with different records. |
| `SplitBatches.IndentedExample` | agents/collector-agent/internal/pullapi/normalize.go:498-503 | Such lines are "Error" and " x". |
| `LateLines.LateMergeIsBatchMerge` | agents/collector-agent/internal/pullapi/service.go:325-353 | Once it is merged, the record of a run of lines makes of the buffered record the record of both runs' lines, with the same counts, offsets, time, severity, original text and fingerprint; only white space in the text, where the two meet, can differ. |
| `LateLines.RepetitionsAreCounted` | agents/collector-agent/internal/pullapi/service.go:378-393 | After any number of duplicates a record's count is that of all occurrences, its first and last times are those of the first and last occurrence, and nothing but its duplicate information has changed. |
| `LateLines.CleanTrim` | agents/collector-agent/internal/pullapi/normalize.go:585-596 | The lines the fingerprint sees do not depend on white space at the ends of the text. |
| `PullV1Runs.RunKeeps` | agents/collector-agent/internal/pullapi/service.go:229-504 | Both hold in every reachable state, whatever is pulled and acknowledged in between. |
| `PullV1Runs.CommitsNeverMoveBack` | agents/collector-agent/internal/pullapi/service.go:469-484 | In any run no scope's committed cursor ever decreases. |
| `PullV1Service.Service.Pull` | agents/collector-agent/internal/pullapi/service.go:506-593 | One attempt of a pull, with cursor and limits normalised, gives the outcome and pending batch of the pull step and changes nothing else. |
| `PullV1Service.Service.Select` | agents/collector-agent/internal/pullapi/service.go:532-550 | The selection loop takes the longest run of matching records after the cursor that fits both limits, a first record of any size included. |
| `PullV1Service.Service.Ack` | agents/collector-agent/internal/pullapi/service.go:453-504 | An acknowledgement removes its batch even if the claimed cursor cannot be read; it raises the scope's cursor to the larger of batch and claim, saves each source's largest positive offset, and reports whether a save succeeded. |
| `PullV1.ReadLimits` | agents/collector-agent/internal/pullapi/service.go:684-708 | Negative limits or timeouts are refused; otherwise the limits are positive and at most the maxima. |
| `PullV1Exact.LimitsAreRead` | agents/collector-agent/internal/pullapi/service.go:684-708 | A negative limit or timeout is refused; a limit of 0 stands for 200 records and a mebibyte; any other is used as it is up to 1000 records and five mebibytes, which stand for larger ones. |
| `PullV1Exact.CursorIsRead` | agents/collector-agent/internal/pullapi/service.go:724-733 | A blank cursor stands for the committed one, any other for the number that it is in decimal; everything else is unreadable. |
| `PullV1Exact.VerdictIsRead` | agents/collector-agent/internal/pullapi/service.go:710-722 | An acknowledgement must name a batch and say ack, or nack with a reason, in whatever letters. |
| `PullV1Exact.MatchesIff` | agents/collector-agent/internal/pullapi/service.go:785-800 | A path asks for a record when it has no part between its commas that is not blank, or when one of these is the record's path, or as a pattern matches it. |
| `PullV1Exact.BytesAreCounted` | agents/collector-agent/internal/pullapi/service.go:532-550 | The bytes that a page's limit counts are those of the texts in UTF-8: one to four for a character, and for a text those of its parts. |
| `PullV1Exact.AckIsExact` | agents/collector-agent/internal/pullapi/service.go:453-504 | An invalid or unknown acknowledgement changes nothing; any other removes its batch and changes no cursor but that of the batch's path, which becomes the largest of itself, the batch's number and the claim, and stays as it is after a nack or a claim that cannot be read. |
| `PullV1Exact.AckedWasSent` | agents/collector-agent/internal/pullapi/service.go:425-504 | In every run each record that counts as acknowledged for a path was in the answer of an earlier pull of that path. |
| `PullV1Paging.PullIsExact` | agents/collector-agent/internal/pullapi/service.go:521-592 | A page is the longest prefix, within the record and byte limits, of the matching records after the cursor, never empty while there is one; has_more holds exactly when matching records follow it; a cursor past all of them starts again at the beginning; and when there is nothing the answer hands back the cursor of the request, an empty one included. |
| `PullV1Paging.RunGrew` | agents/collector-agent/internal/pullapi/service.go:247-258 | Without overflow a later buffer holds the same records in the same places, perhaps edited, followed by newly numbered ones. |
| `PullV1Session.SessionIsExactIff` | agents/collector-agent/internal/pullapi/service.go:425-593 | A client that feeds each cursor it is handed into its next pull of a path, interleaved with any pulls, acknowledgements and additions that do not overflow the buffer, has after every pull received exactly the matching records after its start and up to where it has got to, in order, none skipped and none repeated, if and only if the scope's committed cursor passed no matching record between its first pull and the last one it made with the empty cursor, which an answer without records hands back; nothing that arrives later is before its start. |
| `PullV1Session.SessionIsExact` | agents/collector-agent/internal/pullapi/service.go:506-593 | A client whose first cursor is a number, one that was issued or any once a matching record is buffered, and that feeds each cursor into its next pull, is always exact. |
| `PullV1Idle.IdleClientMisses` | agents/collector-agent/internal/pullapi/service.go:425-437 | For any path that matches a source, a run in which it is not: the client pulls a new service with the empty cursor and is handed it back, another client of the path is sent a record and acknowledges it, and the first one's next pull, with the empty cursor, is answered with nothing. |
| `PullV1Restart.AlwaysWellIff` | agents/collector-agent/internal/pullapi/service.go:525-536 | A client that begins with a number is sure to be sent every matching record that arrives later, up to its current cursor, exactly when the number is at most the last one drawn or a matching record is buffered; otherwise its stale cursor is not reset, and a run is built in which it misses the first record. |
| `PullV1Commits.NothingIsSkipped` | agents/collector-agent/internal/pullapi/service.go:469-484 | In every run of clients that pull with the empty cursor, claim no more than they were given and do not ask for the path "*", every buffered record matching a path at or below the path's committed cursor was in an acknowledged batch of that path. |
| `PullV1Commits.CommittedIsIssued` | agents/collector-agent/internal/pullapi/service.go:481-484 | In such a run every committed cursor is at most the last number drawn. |
| `PullV1Breaks.ClaimIsSafeIff` | agents/collector-agent/internal/pullapi/service.go:471-484 | Claims of n for batches whose own cursor is m keep that promise in every state that such clients bring about exactly when n is at most m; for any larger n a run is built that ends in a skipped record. |
| `PullV1Commits.ScopesCollideIff` | agents/collector-agent/internal/pullapi/service.go:777-783 | Two different paths share a scope exactly when one is empty and the other is "*". |
| `PullV1Breaks.CollidingAckIff` | agents/collector-agent/internal/pullapi/service.go:469-484 | In any run: when two paths share a scope, an acknowledgement for the one keeps the promise to the other exactly when no buffered record that the other matches lies in the interval the cursor moves over. |
| `PullV1Breaks.CollisionSkips` | agents/collector-agent/internal/pullapi/service.go:777-783 | Where it does not, for either of the two paths: one record that both match, pulled and acknowledged for one of them in a fresh service, is at or below the other's cursor and was never in a batch of it. |
| `PullV1Breaks.StarSkips` | agents/collector-agent/internal/pullapi/service.go:777-783 | A fresh service that buffers a record "*" does not match and then one it does, and serves and commits a pull for "*", has put the first record below the cursor of the client that pulls everything, acknowledged by no one. |
| `PullV1Breaks.OwnAckIff` | agents/collector-agent/internal/pullapi/service.go:469-484 | In any run, with explicit cursors and any claims: an acknowledgement keeps the promise to its batch's own path exactly when the batch holds every buffered matching record that the committed cursor moves over. |
| `PullV1Breaks.ExplicitSkips` | agents/collector-agent/internal/pullapi/service.go:521-536 | Where it does not: of two buffered records the client pulls from just past the first and acknowledges that page, and the first is at or below the committed cursor, acknowledged by no one. |
| `PullV1Checkpoints.SavedCoversIff` | agents/collector-agent/internal/pullapi/service.go:469-500 | When careful clients acknowledge a batch, the offset saved for a source covers only acknowledged records exactly when overflow dropped none of that source's records up to it unacknowledged; records later in the buffer are later in their file. |
| `PullV1Checkpoints.SavedPastDropped` | agents/collector-agent/internal/pullapi/service.go:260-264 | A run in which it dropped one: a line of a source, enough others to fill the 20000, and one more line of that source, which is pulled and acknowledged; the saved offset covers the first line, which nobody acknowledged. |
| `RateLimiter.Limiter.Allow` | services/api-service/internal/handler/auth_rate_limit.go:253-291 | A request with an active rule sweeps, makes room for a new key, drops times outside the window, and admits it or denies it with the time until the oldest one leaves, at least a second; a rule without limit or window always admits. |
| `RateLimiter.Limiter.CleanupAt` | services/api-service/internal/handler/auth_rate_limit.go:293-311 | A sweep, at most once per interval, leaves each key the times within the widest window and removes keys without any. |
| `RateLimiter.Limiter.EnsureCapacity` | services/api-service/internal/handler/auth_rate_limit.go:425-449 | When a new key meets a full table, empty keys go, and of the others one whose last admission is the oldest. |
| `RateLimiter.Configure` | services/api-service/internal/handler/auth_rate_limit.go:79-114 | The sweep looks back as far as the widest window, an hour without one, and its interval is half of that or a minute, whichever is longer. |
| `RateLimiter.RetryAfterSeconds` | services/api-service/internal/handler/auth_rate_limit.go:417-423 | The reported seconds cover the duration, and one second less would not, above the minimum of one. |
| `RateLimitExact.AllowIsExact` | services/api-service/internal/handler/auth_rate_limit.go:253-291 | With the times after the window's start taken from the key's own: a request is admitted exactly when they are fewer than the limit, and then they and the present one are kept; otherwise they are kept as they are, and the wait is until the first of them leaves the window, at least a second. |
| `RateLimitExact.SweepIsExact` | services/api-service/internal/handler/auth_rate_limit.go:293-311 | A sweep that is due keeps for every key exactly its times within the widest window and no key without one; one that is not due changes nothing. |
| `RateLimitExact.RoomIsExact` | services/api-service/internal/handler/auth_rate_limit.go:425-449 | A table that is not full, or has the key, stays as it is; otherwise the keys without times go and, of those with, exactly one, whose last time no other's precedes. |
| `RateLimit.DecidesOnHistory` | services/api-service/internal/handler/auth_rate_limit.go:271-290 | Deciding on the remembered times is deciding on the whole history of admissions. |
| `RateLimit.StepKeepsGood` | services/api-service/internal/handler/auth_rate_limit.go:253-311 | Pruning, sweeping and eviction keep what is remembered as good as the history since the key's last eviction. |
| `RateLimitRuns.RefinesFullHistory` | services/api-service/internal/handler/auth_rate_limit.go:253-311 | In every run with one rule per key, for a key that is not evicted, a request is admitted exactly when fewer than the limit of all earlier requests for it were admitted in the window before it. |
| `RateLimitRuns.WindowBound` | services/api-service/internal/handler/auth_rate_limit.go:253-311 | In every run, wherever a window of the rule's length starts, it holds at most the limit of a key's admissions for each stretch between the key's evictions, so at most the limit times one more than their number. |
| `RateLimitRuns.WindowNeverOverfull` | services/api-service/internal/handler/auth_rate_limit.go:253-291 | So for a key that is not evicted no window of the rule's length ever holds more admissions than the limit. |
| `RateLimitRuns.EvictionOverfills` | services/api-service/internal/handler/auth_rate_limit.go:425-449 | Eviction does let a window hold more: with a table of one key and a limit of one, two keys that take turns are admitted every time. |
| `RateLimitRuns.TableStaysBounded` | services/api-service/internal/handler/auth_rate_limit.go:425-449 | The table never holds more keys than its maximum. |
| `RateLimitRuns.DenialBlocks` | services/api-service/internal/handler/auth_rate_limit.go:279-286 | A denial reports the time until the oldest admission leaves the window, at least a second, and leaves the key full until then. |
| `RateLimitRuns.RetryingEarlyIsDenied` | services/api-service/internal/handler/auth_rate_limit.go:279-286 | After a denial every request for the key before its oldest admission leaves the window is denied too, while the key is not evicted. |
| `RateLimitRuns.RetryAfterIsHonoured` | services/api-service/internal/handler/auth_rate_limit.go:279-290 | After a denial, further denials of the key and the reported wait, the next request for it is admitted. |
| `AuthRepository.Repository.CreateUserSession` | services/api-service/internal/repository/auth_repository.go:510-550 | A new session is the first row of its own family; an id or token already in the table is refused without change. |
| `AuthRepository.Repository.RotateSessionByRefreshToken` | services/api-service/internal/repository/auth_repository.go:552-663 | Rotation inserts a successor and revokes the presented row, refuses an unknown or unusable token, and revokes the family of a token that was already replaced, each as one step on the table. |
| `AuthRepository.Repository.RevokeSessionByRefreshToken` | services/api-service/internal/repository/auth_repository.go:665-685 | Logout revokes the active row of the token, and reports an invalid token exactly when there is none. |
| `AuthRepository.Repository.RevokeActiveSessionsByUserID` | services/api-service/internal/repository/auth_repository.go:687-697 | All active rows of the user, and no others, are revoked. |
| `Sessions.FamiliesAreChains` | services/api-service/internal/repository/auth_repository.go:510-697 | In every run each family's rows form one chain linked by replaced-by, from the row that carries the family's id to the one issued last; all but the last are revoked, and all belong to one tenant and user. |
| `Sessions.OneLiveHead` | services/api-service/internal/repository/auth_repository.go:648-655 | A family has at most one active row, the last of its chain. |
| `Sessions.DeadFamiliesStayDead` | services/api-service/internal/repository/auth_repository.go:591-603 | A family without an active row never has one again. |
| `Sessions.ReplayRevokesFamily` | services/api-service/internal/repository/auth_repository.go:591-603 | Rotating with a token that was already replaced fails, and leaves the family without an active row exactly when its user is active or it had none. |
| `Sessions.TokensRotateOnce` | services/api-service/internal/repository/auth_repository.go:552-663 | Over a whole run no refresh token is exchanged successfully twice. |
| `Sessions.RotationGrantedIff` | services/api-service/internal/repository/auth_repository.go:591-662 | A rotation is granted exactly to the active, unexpired token of an active user with a positive lifetime and an unused successor; the successor is then active, in the same family, and expires the original lifetime after now. |
| `Sessions.StepKeepsUnique` | storage/postgresql/migrations/000012_mvp_auth_session_and_security.up.sql:7-23 | No statement ever gives two rows the same token. |
| `Sessions.LogoutIsExact` | services/api-service/internal/repository/auth_repository.go:665-685 | After a logout exactly the active rows with its tenant and token are revoked and nothing else of any row is changed; it succeeds exactly when there was one. |
| `Sessions.RevokeUserIsExact` | services/api-service/internal/repository/auth_repository.go:687-697 | After a user's sessions are revoked no row of that tenant and user is active, and nothing else of any row is changed. |
| `Sessions.CreateIsExact` | services/api-service/internal/repository/auth_repository.go:510-550 | A session whose id and token are new is one more row, active, with what was asked for, in the family that its id names; any other is refused without change. |
| `Sessions.RotateIsExact` | services/api-service/internal/repository/auth_repository.go:552-663 | For the row that carries the presented token: an unusable one is refused, and when it was replaced exactly the active rows of its tenant and family are revoked; without a lifetime or with a token already in use nothing changes; otherwise the row is revoked and replaced by a new active one of its family, user and tenant, and all others stay. |
| `Sessions.UnknownIsRefused` | services/api-service/internal/repository/auth_repository.go:579-589 | A token that no row of the tenant carries is refused without change. |
| `Sessions.LoggedOutStaysOut` | services/api-service/internal/repository/auth_repository.go:665-685 | Over a whole run no token that was logged out is exchanged again. |
| `Sessions.RevokedUserStaysOut` | services/api-service/internal/repository/auth_repository.go:687-697 | Nor any token a user had when the user's sessions were revoked. |
| `Scanner.ReadFileIncremental` | agents/collector-agent/internal/collector/collector.go:342-423 | A read of a readable file returns the lines from exactly its offset, or from the first byte when the file is shorter than that, at most the maximum and fewer only at the end of the file, with the offset of the last one's end; a file that cannot be read, a negative offset or a maximum of none gives nothing and leaves the offset. |
| `Scanner.FileScanner.LoadOffset` | agents/collector-agent/internal/collector/collector.go:325-340 | A known offset is used; otherwise the checkpoint, which is remembered, or zero when it cannot be loaded. |
| `Scanner.FileScanner.ScanIncremental` | agents/collector-agent/internal/collector/collector.go:232-287 | A scan terminates with at most a batch of records; each path's records are exactly its lines from its old to its new offset; a short batch means every path was at its end or unreadable; no path with unread data is passed over when the batch is larger than the limit times the other paths; and every path with unread data is read or comes sooner in the next scan. |
| `Scanner.ScanStartsOver` | agents/collector-agent/internal/collector/collector.go:362-420 | In every scan, a file shorter than its stored offset gives exactly its lines from the first byte, any other exactly those from its offset, each up to the new offset; with room left in the batch every listed file that is not empty and not at its offset is read to its end. |
| `Scanner.NothingToReadIff` | agents/collector-agent/internal/collector/collector.go:362-420 | A path is at its end exactly when it cannot be read, or the file is empty, or its length is the stored offset; so a file that has shrunk is not. |
| `Scanner.NoneIsStarved` | agents/collector-agent/internal/collector/collector.go:175-206 | Whatever the batch size, while the path list stays the same, a path with unread data is read in one of as many handed-over scans as there are paths. |
| `Scanner.FileScanner.SplitCritical` | agents/collector-agent/internal/collector/collector.go:510-530 | The critical lines and the others are each kept in their order. |
| `Scanner.PartsAreTheBatch` | agents/collector-agent/internal/collector/collector.go:510-530 | Together the two parts hold each line as often as the batch does. |
| `Scanner.HandedOver` | agents/collector-agent/internal/collector/collector.go:510-530 | What is handed over is the critical part, if there is one, and then the other, if there is one. |
| `Scanner.KeepsOrder` | agents/collector-agent/internal/collector/collector.go:510-530 | A part holds exactly the lines at the places where the test holds, in their order. |
| `Scanner.FileScanner.ScanAndEmit` | agents/collector-agent/internal/collector/collector.go:204-228 | Critical lines go first; the offsets advance exactly when everything was handed over. |
| `Scanner.ScansAreGapFree` | agents/collector-agent/internal/collector/collector.go:204-228 | Over any number of handed-over scans of unchanged files, each path's records are exactly its lines from the first offset to the last, however they were cut into reads. |
| `Scanner.EmptyScanIsDrained` | agents/collector-agent/internal/collector/collector.go:281-284 | A scan that brings nothing has found every path at its end or unreadable. |
| `Scan.LinesAreTheBytes` | agents/collector-agent/internal/collector/collector.go:375-412 | The lines between two offsets, terminators included, concatenate to exactly the bytes between them; each ends at the first newline, and only the last of the file can lack one; the record is the line without trailing carriage returns and newlines. |
| `Scan.LinesSplit` | agents/collector-agent/internal/collector/collector.go:371-420 | Reading in two steps gives the records of reading at once. |
| `Scan.GrowthKeepsLinesIff` | agents/collector-agent/internal/collector/collector.go:375-420 | Reading a file to its end and the rest after it has grown gives the records of the grown file exactly when the first read did not stop inside a line. |
| `Scan.CutLine` | agents/collector-agent/internal/collector/collector.go:375-420 | Where it did: a one-byte line that has grown comes out as two records instead of one. |
| `Audit.SortedIsStable` | apps/frontend-console/src/api/audit.ts:272-276 | The sort puts items newest first and keeps the order of items of one time. |
| `Audit.StableSortIsUnique` | apps/frontend-console/src/api/audit.ts:672-672 | There is only one such order. |
| `Audit.SortIsMerge` | apps/frontend-console/src/api/audit.ts:672-672 | Sorting the concatenation of two sorted sources is merging them, the first source first on equal times. |
| `Audit.PageOfPrefixes` | apps/frontend-console/src/api/audit.ts:672-682 | Sorting the first items of each source, as many as the page's end, and slicing gives the page of the two complete sources. |
| `AuditSources.SourceCache.Touch` | apps/frontend-console/src/api/audit.ts:309-320 | A cached entry is returned and becomes the most recent; nothing else changes. |
| `AuditSources.SourceCache.Set` | apps/frontend-console/src/api/audit.ts:322-338 | The entry is stored as the most recent and the oldest go beyond 24; the others are unchanged. |
| `AuditFetch.FetchPages` | apps/frontend-console/src/api/audit.ts:521-553 | From an API that caps its pages and from any faithful cache, the loaded items are exactly the first ones of the source, as many capped pages as are wanted or were cached, whichever is more; the total is right, and the cache stays faithful even when a request fails. |
| `AuditFetch.FetchWindow` | apps/frontend-console/src/api/audit.ts:442-483 | The same for the source that is only asked for a first page of growing size: exactly the first items up to the end of the page that is wanted or was cached, as far as the cap lets that grow; the total is that of the source up to where it counts. |
| `AuditFetch.LoadFiltered` | apps/frontend-console/src/api/audit.ts:574-587 | Reading all pages and filtering them gives the matching items of the whole source, in order, whatever the cap on a page is. |
| `AuditFetch.FetchFiltered` | apps/frontend-console/src/api/audit.ts:555-603 | From the cache or newly loaded, the result is all matching items of the source with their number, whatever the cap. |
| `AuditFetch.Combine` | apps/frontend-console/src/api/audit.ts:699-719 | Merging sorts what the loaders gave, slices it and adds the totals; a source that failed counts as empty, and only if both failed there is no page. |
| `AuditExact.NextPageIff` | apps/frontend-console/src/api/audit.ts:672-719 | Of two complete sources a page holds the items at its places in the sorted whole, the total counts both, and there is a next page exactly when the page after it holds an item. |
| `AuditExact.CombinedIs` | apps/frontend-console/src/api/audit.ts:699-719 | A fetch fails exactly when both sources did; with one answer its page is that of this one's items and total alone, with two that of both sorted together. |
| `AuditExact.ApplicationIs` | apps/frontend-console/src/api/audit.ts:555-603 | The application's items are what its source has, and where the console filters, exactly those that match, in their order. |
| `AuditExact.FilterKeepsOrder` | apps/frontend-console/src/api/audit.ts:584-587 | What a filter leaves are exactly the items at the places where it holds, in their order. |
| `AuditExact.AnswerIsRead` | apps/frontend-console/src/api/audit.ts:485-519 | A missing total is the number of items, and without word of a next page there is one exactly when the total goes beyond the pages asked for. |
| `AuditExact.AtLeastOneIs` | apps/frontend-console/src/api/audit.ts:290-298 | A page and a page size are used as they are asked for, but at least 1. |
| `AuditExact.NewestAreKept` | apps/frontend-console/src/api/audit.ts:322-338 | Of the cached keys the last 24 stay, in their order. |
| `AuditFetch.FetchSlidingWindow` | apps/frontend-console/src/api/audit.ts:650-684 | From capped servers the direct fetch merges exactly the first items of each source that one request gives, or all matching ones of a list it filters itself; when no request is cut short it is the page of the two complete sources, with their total unless the log query stopped counting. |
| `AuditFetch.FetchBoundedWindow` | apps/frontend-console/src/api/audit.ts:686-720 | The cached fetch merges exactly what the pages loaded now or before and the grown window give, and keeps the caches faithful; it is the page of the two complete sources when the log query is not cut short and the API's pages are not, or are not needed, or enough of them were cached. |
| `AuditPages.SufficeIff` | apps/frontend-console/src/api/audit.ts:672-682 | The first a and b items of two sources give the page of any two complete sources exactly when both reach the end of the page. |
| `AuditPages.DirectRightIff` | services/data-services/audit-api/internal/service/audit_service.go:100-106 | So the direct fetch is right for all sources exactly when the page ends within the row cap of the log query and, unless the list is filtered on the client, within that of the API. |
| `AuditPages.CachedRightIff` | services/data-services/query-api/internal/service/service.go:20-25 | The cached fetch, whatever its caches hold, is right for all sources exactly when the page ends within the row cap of the log query and either the list is filtered on the client, or the page size is within the cap of the API, or the capped pages that were cached reach the end of the page. |
| `AuditPages.BeyondTheCap` | services/data-services/audit-api/internal/service/audit_service.go:100-106 | With 210 application items, ten to a page and the servers' cap of 200, the direct fetch has none of the ten items of page 21, and the cached one has them. |
| `AuditPages.FetchesDisagree` | apps/frontend-console/src/api/audit.ts:650-720 | On that input the two fetches, from fresh caches, return pages of no and of ten items. |
| `GlobExpand.Match` | agents/collector-agent/internal/pathmatch/pathmatch.go:152-179 | The recursive matcher with its loops computes the matching function, errors included. |
| `Glob.MatchMeansAligns` | agents/collector-agent/internal/pathmatch/pathmatch.go:152-179 | When the answer is not an error, it is true exactly when the path's segments can be cut so that each pattern segment stands for one segment it matches and each ** for any number of segments. |
| `Glob.ErrorsAreMalformed` | agents/collector-agent/internal/pathmatch/pathmatch.go:174-177 | An error comes only from a malformed pattern segment tried on a segment of the path. |
| `Glob.StarsCollapse` | agents/collector-agent/internal/pathmatch/pathmatch.go:156-159 | A run of ** gives the same answer as one, errors included. |
| `GlobExpand.SplitPathJoins` | agents/collector-agent/internal/pathmatch/pathmatch.go:181-188 | The segments of a path hold no slash and join to the trimmed path. |
| `GlobExpand.TrimsOnlySlashes` | agents/collector-agent/internal/pathmatch/pathmatch.go:181-188 | What is trimmed off a path are slashes at its two ends, and nothing else. |
| `GlobExpand.MatchRecursiveMeansAligns` | agents/collector-agent/internal/pathmatch/pathmatch.go:143-150 | On whole paths: an absolute pattern matches only absolute paths, and otherwise the alignment decides. |
| `GlobExpand.RecursiveBaseDir` | agents/collector-agent/internal/pathmatch/pathmatch.go:106-141 | The base is the longest run of leading segments without a wildcard. |
| `GlobExpand.WalkIsCompleteIff` | agents/collector-agent/internal/pathmatch/pathmatch.go:63-97 | Every matching path lies below the base exactly when nothing matches at all or every base segment is matched only by itself. |
| `GlobExpand.NoEscapesIsComplete` | agents/collector-agent/internal/pathmatch/pathmatch.go:63-97 | So a pattern without a backslash before its first wildcard misses nothing. |
| `GlobExpand.EscapeIsMissed` | agents/collector-agent/internal/pathmatch/pathmatch.go:122-129 | With an escaped letter in the base it does: the match lies elsewhere. |
| `GlobWalk.Walk` | agents/collector-agent/internal/pathmatch/pathmatch.go:79-97 | The recursive walk passes over directories that cannot be read and comes to the other files in order, keeping those that match, until one meets a malformed segment. |
| `GlobWalk.Expand` | agents/collector-agent/internal/pathmatch/pathmatch.go:63-103 | The expansion is the sorted list of the files the walk can reach below the base that match; there are none without a base, and it fails exactly when the base cannot be looked up or one of the files meets a malformed segment. |
| `GlobWalk.SortIsUnique` | agents/collector-agent/internal/pathmatch/pathmatch.go:102-102 | There is only one sorted list of the same paths. |
| `GlobWalk.NotAfterIff` | agents/collector-agent/internal/pathmatch/pathmatch.go:102-102 | One path sorts before another exactly when it is a prefix of it or has the smaller character where they first differ. |
| `GlobWalk.PrintedReadsBack` | agents/collector-agent/internal/pathmatch/pathmatch.go:79-97 | The path of a file that the walk comes to is split into the names that led there. |
| `GlobWalk.ReachedOnce` | agents/collector-agent/internal/pathmatch/pathmatch.go:79-97 | The walk comes to no file twice. |
| `GlobWalk.FilesAtIff` | agents/collector-agent/internal/pathmatch/pathmatch.go:63-79 | What the walk can reach below the base is exactly what can be reached from the root and has a path that begins with the base. |
| `GlobWalk.ExpansionMissesNothing` | agents/collector-agent/internal/pathmatch/pathmatch.go:79-103 | When matches lie below the base, the files found are exactly those that can be reached from the root and match. |
| `Wal.WalBuffer.Write` | agents/collector-agent/internal/retry/wal_buffer.go:127-148 | A write appends one line per record and then thins the file if it is over its size. |
| `Wal.WalBuffer.TruncateIfOverflow` | agents/collector-agent/internal/retry/wal_buffer.go:150-192 | An oversized file is closed, read and rewritten with its critical records; if reading fails it stays closed. |
| `Wal.WalBuffer.ReadAllRecords` | agents/collector-agent/internal/retry/wal_buffer.go:194-214 | Reading returns the decodable lines up to the first one too long for the scanner. |
| `Wal.WalBuffer.ReadPending` | agents/collector-agent/internal/retry/wal_buffer.go:216-229 | The pending records, or an error when the file is closed or a line is too long. |
| `Wal.WalBuffer.Ack` | agents/collector-agent/internal/retry/wal_buffer.go:231-250 | An acknowledgement empties an open file. |
| `Wal.ReadAllOfEncode` | agents/collector-agent/internal/retry/wal_buffer.go:194-214 | Reading back what was written gives the records, exactly when every line fits the scanner. |
| `WalExact.ReadAllIs` | agents/collector-agent/internal/retry/wal_buffer.go:194-214 | Reading gives the records of the lines that are not empty and can be decoded, in order, up to the first line that is too long, and succeeds exactly when there is none. |
| `WalExact.SurvivesIff` | agents/collector-agent/internal/retry/wal_buffer.go:168-174 | A record survives an overflow exactly when its priority, trimmed and in whatever letters, is critical. |
| `WalExact.CriticalKeepsOrder` | agents/collector-agent/internal/retry/wal_buffer.go:168-174 | The records that survive are exactly those at the places of critical ones, in their order. |
| `WalExact.OpenIsExact` | agents/collector-agent/internal/retry/wal_buffer.go:216-250 | An acknowledgement leaves an open file empty and open, and what is pending is what can be read of the file, or an error. |
| `WalExact.ClosedIsExact` | agents/collector-agent/internal/retry/wal_buffer.go:127-250 | A closed file takes no record and no acknowledgement, and has pending nothing when its size is 0 and otherwise an error. |
| `Wal.RunKeeps` | agents/collector-agent/internal/retry/wal_buffer.go:127-250 | In every run whose lines fit the scanner, ReadPending gives the records written since the last acknowledgement, in order: from some point on all of them, before it the critical ones; and the believed size is the file's. |
| `Wal.ThinnedAgain` | agents/collector-agent/internal/retry/wal_buffer.go:168-174 | What is pending always has the same critical records as what was written. |
| `Wal.WritesAreBounded` | agents/collector-agent/internal/retry/wal_buffer.go:127-192 | In such a run every write succeeds and leaves the file within its size or only critical records pending. |
| `Wal.OverflowStaysOpenIff` | agents/collector-agent/internal/retry/wal_buffer.go:151-166 | An overflow leaves the buffer open exactly when every pending line fits the scanner. |
| `Wal.LongRecordCloses` | agents/collector-agent/internal/retry/wal_buffer.go:127-166 | A record whose line does not fit, written to a fresh file often enough to exceed any size limit, leaves the buffer closed and over its size. |
| `Wal.ClosedStaysClosed` | agents/collector-agent/internal/retry/wal_buffer.go:151-166 | Once it is closed over its size, every write, read and acknowledgement fails without change. |
| `Pipeline.NothingIsLost` | agents/collector-agent/internal/pipeline/pipeline.go:85-201 | In every interleaving of workers and the replay loop with fresh identifiers, every batch that passed the plugins is with a worker, sent or cached, and every saved checkpoint is the largest offset of some sent batch for its source. |
| `Pipeline.LatestIsLargest` | agents/collector-agent/internal/pipeline/pipeline.go:136-145 | The offsets a worker collects for a batch are, for each source, the largest its records carry. |
| `Pipeline.CheckpointOffsetIs` | agents/collector-agent/internal/pipeline/pipeline.go:155-165 | A record's offset is the number its metadata carries when that is not negative, in decimal and within 64 bits, and otherwise the length of its data. |
| `PipelineAgent.TakeIsStep` | agents/collector-agent/internal/pipeline/pipeline.go:85-112 | A worker that takes a batch, whatever the others have, makes a Process step. |
| `PipelineAgent.SendIsStep` | agents/collector-agent/internal/pipeline/pipeline.go:136-150 | What a worker does with a batch it could send, while others have theirs and the replay is anywhere, is a Send step: the batch is delivered and its latest offsets are saved for the sources the store accepts. |
| `PipelineAgent.StoreIsStep` | agents/collector-agent/internal/pipeline/pipeline.go:117-133 | What it does with one it could not is a Store step, also between a resend and the removal of its file. |
| `PipelineAgent.LoadIsStep` | agents/collector-agent/internal/pipeline/pipeline.go:168-177 | Listing the cache is a Load step. |
| `PipelineAgent.ResendIsStep` | agents/collector-agent/internal/pipeline/pipeline.go:190-193 | Sending the next listed batch again is a Resend step, whatever its file holds by now. |
| `PipelineAgent.SkipIsStep` | agents/collector-agent/internal/pipeline/pipeline.go:190-196 | One that could not be sent is a Skip. |
| `PipelineAgent.RemoveIsStep` | agents/collector-agent/internal/pipeline/pipeline.go:197-199 | Deleting the file of the batch sent last is a Remove step, and a Skip when it cannot be deleted. |
| `PipelineAgent.Execute` | agents/collector-agent/internal/pipeline/pipeline.go:64-201 | Any sequence of taking, finishing, reloading, resending and removing, in which any number of workers and the replay overlap, with distinct identifiers, run by the code on its cache, broker and checkpoint store, leaves every batch delivered, cached or with a worker, and every saved checkpoint the largest offset of a delivered batch. |
| `Pipeline.FilesStayUntilSent` | agents/collector-agent/internal/pipeline/pipeline.go:190-199 | In every such run a cache file disappears or is replaced only after its batch was sent. |
| `Pipeline.PlacedAlways` | agents/collector-agent/internal/pipeline/pipeline.go:117-133 | Whatever the identifiers, no batch is both with a worker and cached, or cached twice. |
| `Pipeline.StoreLosesIff` | agents/collector-agent/internal/pipeline/pipeline.go:124-131 | Caching a batch loses another one exactly when its identifier is that of a cached batch which was not sent. |
| `Pipeline.StoreLoses` | agents/collector-agent/internal/pipeline/pipeline.go:124-131 | A run from the start in which it does: two workers give up and draw one identifier. |
| `Pipeline.RemoveLosesIff` | agents/collector-agent/internal/pipeline/pipeline.go:197-199 | Removing the file of a resent batch loses another one exactly when the file meanwhile holds a batch which was not sent. |
| `Pipeline.RemoveLoses` | agents/collector-agent/internal/pipeline/pipeline.go:190-199 | A run from the start in which it does: while a batch is sent again, another worker gives up and draws its identifier. |
| `PipelineRestart.RestartLosesNothingIff` | agents/collector-agent/internal/pipeline/pipeline.go:135-150 | After a restart in any such run every batch was sent, is cached or is read again from its files, whichever saved checkpoints were flushed, exactly when every record with a worker is ahead of all checkpoints saved for its source. |
| `PipelineRestart.OneWorkerIsSafe` | agents/collector-agent/internal/pipeline/pipeline.go:76-80 | With one worker and batches in the order of their files that is always so. |
| `PipelineRestart.ReverseLoses` | agents/collector-agent/internal/pipeline/pipeline.go:76-80 | With two it is not: the second batch of a file is sent and its checkpoint saved while the first is still with its worker. |
| `PipelineRestart.AlwaysSafeIff` | agents/collector-agent/internal/pipeline/pipeline.go:49-80 | So a restart is safe at the end of every run of batches in order exactly when there is one worker; the default is four. |
| `PipelineWorker.Do` | agents/collector-agent/internal/retry/retry.go:58-83 | The retry loop ends at the first attempt that succeeds, finds the context ended, sees it end while waiting, or is not allowed any more; the batch is delivered once if an attempt succeeds and not otherwise. |
| `PipelineWorker.SentIff` | agents/collector-agent/internal/retry/retry.go:58-83 | Success is reported exactly when some allowed attempt succeeds before the context ends. |
| `PipelineWorker.SendsIff` | agents/collector-agent/internal/retry/retry.go:58-83 | A batch is sent exactly when some attempt succeeds after all before it failed, with the context not ended, and is one of at most one more than the retries, or of any number when these are unlimited. |
| `PipelineWorker.ExhaustedIs` | agents/collector-agent/internal/retry/retry.go:58-83 | Giving up takes the first attempt and all retries, each of which failed, and there is a limit. |
| `PipelineWorker.LatestOffsets` | agents/collector-agent/internal/pipeline/pipeline.go:136-145 | Each source of the batch is mapped to the largest offset its records carry, and no other source is. |
| `PipelineWorker.SaveAll` | agents/collector-agent/internal/pipeline/pipeline.go:146-150 | Exactly these offsets are saved, for the sources the store accepts, in whatever order the map is gone through. |
| `PipelineWorker.ProcessBatch` | agents/collector-agent/internal/pipeline/pipeline.go:105-153 | A batch that could be sent is delivered, leaves the cache alone and has its largest offsets saved; one that could not is cached whole and saves nothing. |
| `PipelineWorker.SendAgain` | agents/collector-agent/internal/pipeline/pipeline.go:190-196 | A cached batch is delivered once if it can be sent again, and otherwise not. |
| `PipelineWorker.ReplayOne` | agents/collector-agent/internal/pipeline/pipeline.go:190-199 | And then its file goes, if it can be deleted; otherwise nothing changes. |
| `PipelineWorker.ReplayCache` | agents/collector-agent/internal/pipeline/pipeline.go:167-201 | The batches delivered are those of the listed files that can be sent and before which the context has not ended, all of these and no others, in listing order and whole; a file is gone afterwards exactly when its batch was one of them and it could be removed. |
| `PipelineWorker.ReplayLeaves` | agents/collector-agent/internal/pipeline/pipeline.go:167-201 | So every other file is left as it was. |
| `PipelineWorker.ReplayEmpties` | agents/collector-agent/internal/retry/retry.go:131-165 | And one replay empties the cache when every file is listed, can be sent and can be removed. |
| `RuleText.ComposeDescription` | apps/frontend-console/src/utils/alertRulePrefill.ts:118-142 | The lines pushed in order are the composed text. |
| `RuleText.ParseDescription` | apps/frontend-console/src/utils/alertRulePrefill.ts:144-175 | The scanning loop computes the parse. |
| `RuleText.NormalizeLabels` | apps/frontend-console/src/utils/alertRulePrefill.ts:114-116 | Labels come out trimmed, nonempty and distinct. |
| `RuleText.ParsedIsClean` | apps/frontend-console/src/utils/alertRulePrefill.ts:155-174 | A parsed owner holds no newline, a parsed label no newline and no comma of either kind. |
| `RuleText.SplitCommasIs` | apps/frontend-console/src/utils/alertRulePrefill.ts:169-169 | A list of labels is cut at every comma, ASCII or full-width, and nowhere else. |
| `RuleText.LabelsReadBack` | apps/frontend-console/src/utils/alertRulePrefill.ts:134-136 | Splitting a printed label list and normalising it gives the list. |
| `RuleText.RejoinedIff` | apps/frontend-console/src/utils/alertRulePrefill.ts:150-173 | Cutting a text into lines and joining them gives it back exactly when it has no carriage return before a newline. |
| `RuleText.RoundTripIff` | apps/frontend-console/src/utils/alertRulePrefill.ts:118-175 | Parsing a composed description gives back the trimmed body, trimmed owner and normalised labels exactly when: with neither owner nor labels, the body does not start with the header; otherwise, the owner and labels have no newline, the labels no comma of either kind, and the body no carriage return before a newline. |
| `RuleText.OwnerIsCut` | apps/frontend-console/src/utils/alertRulePrefill.ts:118-175 | An owner of two lines does not read back, whatever body and labels are. |

## Left out

- Integer width: sequence numbers, offsets and times are unbounded. A counter that wraps after 2^63 records, and Go's saturating time differences, are not modelled; cursors and offsets read from text are range-checked as 64-bit.
- Strings are sequences of Unicode scalar values. Bytes that are not valid UTF-8 and unpaired UTF-16 surrogates are not modelled; lengths in bytes are those of the UTF-8 encoding.
- HTTP handlers, JSON, gzip, Kafka, Elasticsearch, the SQL driver, file-system calls and watchers: a file is a byte sequence that reads or does not, a statement is an update of a table, a request an answer that may be a failure.
- Batch and session identifiers, clocks, the digest of a text and path matching of one segment are parameters. One Append of the second pull service reads the clock once.
- Failures inside the write-ahead buffer other than a line too long for the scanner: writing, syncing and re-creating the file succeed. The back-off delays are left out, and so is floating point.
- PipelineWorker.Do: a failed attempt delivers nothing; a broker that delivers and still reports a failure only adds deliveries.
- Failing cache writes in the pipeline and a plugin chain that fails: each drops batches that the code does not keep either.
- PipelineRestart.RestartLosesNothingIff: a file that is rotated, so that its offsets start again, is not modelled.
- PullV1Service.Service.Pull: one attempt. The loop that waits for new records until the timeout repeats it and is not modelled.
- PullV1Service.Service.AddRecords: starts from accepted lines. Unwrapping of Docker envelopes, compose prefixes, level and time detection, metadata, attributes and container names are left out; a record's source path equals its source and is one field.
- SplitFurther.SplitGoesOn: one direction; what the lines after the joining part add could by chance make up for a difference. They start a run both after the whole run and after the joining part alone.
- AuthRepository.Repository.RotateSessionByRefreshToken: the row's creation time comes from the database's clock as a parameter. Deleting sessions or users, and the login service above the repository, are not modelled.
- Scanner.FileScanner.ScanIncremental: the files do not change during one scan, and the resolved paths are given. Level, time and label metadata of records are left out.
- Scanner.FileScanner.ScanAndEmit: how many batches the channel still takes before the collector is stopped is a parameter.
- AuditFetch.FetchSlidingWindow: the servers are lists that do not change, behind their caps on rows and on counted hits; the result window of 10000 hits is beyond what one answer gives.
- AuditFetch.FetchBoundedWindow: two fetches at the same time, which could overwrite each other's cache entries, are not modelled. Every item's date parses, since sorting by an invalid date has no defined order, and sources answer with their total.
- GlobWalk.Expand: paths that begin or end in white space, which the matcher trims, a base that is a link to a directory, directories that can be listed but not searched, and cleaning of paths are left out.
- Wal.WalBuffer.Write: the encoding of a record is any that has no newline, is not empty, does not end in a carriage return and decodes to the record.
- RuleText.RoundTripIff: prefilling of rules from logs and anomalies, and the guessing of notification channels, are left out.
- The priority buffer, the checkpoint file store, syslog intake, IP ranking, anomaly statistics and the console's stores are left out; they would add members that are easy to prove.
