# Verified models of newapi-monitor's accounting core

newapi-monitor collects facts from an API gateway, keeps them in SQLite and publishes cost and profit
ledgers. These Dafny modules model the logic whose mistakes would be silent: what is attributed to
whom, what a scheduled rate change may touch, what a cache may still serve, and when a report may
print a profit. SQL tables are maps, a transaction is one step that either yields the next tables or
changes nothing, and `now` is an input. SHA-256 and HMAC are the field lists they cover, that is,
injective. Money and ratios are exact: integers with rational units in the ledger, `real` where the
service uses floats. Where the service updates tables or fields step by step, a class or a method
with loops does the same and is proved equal to a function or to a property of the tables; the
theorems about whole runs are about those functions.

| file | subject |
|---|---|
| `Basics.dfy` | optional values, results, number bounds and a few helpers, shared by the others |
| `Money.dfy` | rounding, unit conversion, corrected cost, error bounds |
| `Ledger.dfy`, `LedgerHistory.dfy`, `LedgerTheorems.dfy`, `LedgerStore.dfy` | the immutable hourly ledger: publication of an hour, revisions, heads, manifest |
| `LedgerMeaning.dfy`, `LedgerManifests.dfy`, `LedgerAdmission.dfy` | what its rows and manifests say about the facts, and exactly which facts can be published |
| `ReportFigures.dfy`, `ReportViews.dfy`, `ReportSums.dfy`, `ReportMeaning.dfy`, `ReportOverflow.dfy`, `ReportBuilder.dfy` | the report over the ledger: its figures, its views, what they say about the rows, when it fails, the pass that builds it |
| `Evidence.dfy`, `EvidenceMeaning.dfy`, `EvidenceCheckpoint.dfy`, `UnitText.dfy`, `SourceBindings.dfy`, `BindingMeaning.dfy`, `DirtyQueue.dfy` | what feeds the ledger: paged evidence and its checkpoints, source bindings, wake-ups |
| `RatePatch.dfy`, `Activation.dfy`, `ActivationInvariants.dfy`, `ActivationTheorems.dfy`, `ActivationMeaning.dfy`, `ActivationOvertaken.dfy`, `ActivationSettled.dfy`, `ActivationDesk.dfy` | approved rate changes: schedule, cancel, apply, conflict, rollback, and what a recharge repair does to them |
| `UsageCacheProtocol.dfy`, `CacheLifetimes.dfy`, `CacheOrder.dfy`, `KeyGate.dfy`, `LocalCache.dfy` | the two-level usage cache |
| `FirstTokenHistogram.dfy` | the validity test of stored latency counters |
| `BillBuckets.dfy`, `BillMeaning.dfy`, `RechargeTerms.dfy`, `RechargeHour.dfy` | bill buckets of a window, and the recharge price over a bucket or an hour |
| `RejectPages.dfy`, `RejectMeaning.dfy`, `ArchiveAudit.dfy` | seek pagination, and the archive chain audit |

Six promises hold only under a condition; each is stated as an if-and-only-if, with a run or an
input that breaks it where the condition fails.

- The cache does not keep "never serve an older version than before" for every timing
  (`monitor/cache.go:65-66`, `570-571`). A deletion computes its bypass deadline once and
  uses it again after waiting; its mark can replace a longer one set by a failed remote write, and
  an older remote record becomes readable. It holds exactly when the longest ttl plus the time a
  deletion may take stays within the ten-minute bypass (`UsageCacheProtocol.MonotoneIff`).
- The dirty queue loses no wake-up exactly when at most one worker serves an hour: generations restart
  at 1 after a delete, so with two workers one can delete a mark it never saw (`DirtyQueue.NeverLosesIff`).
  A worker may fail after any step. A change here is one whose producer marks the hour in its own
  transaction; the roll-up scan (`monitor/channel_economics.go:665-770`) marks a limited number of hours
  per pass, so the hours it has not reached are not covered.
- A waiting rate change keeps its domain's latest version as its base exactly when no repair of a past
  recharge ratio of that domain is carried out meanwhile. Saves wait for the slot
  (`monitor/channel_finance.go:707-715`); the repair does not read it
  (`monitor/finance_recharge_guarded.go:219`, `monitor/finance_recharge_recovery.go:282`), and the worker then
  ends the change by a conflict (`ActivationOvertaken.BaseIsLatestIff`, `BaseCanBeOvertaken`).
- A cost checkpoint reads back exactly when its control fields are valid, its request count is right and no
  dimension text or unit is over its limit; the save itself checks neither
  (`EvidenceCheckpoint.CheckpointRoundTrip`, and for any merged scan `SavedScanReadsBack`).
- A reconciled latency group describes one traffic because the site table has one row per key: then it
  passes exactly when the users have latencies that together are the site's. With two site rows it can
  pass although no latencies fit both sides (`FirstTokenHistogram.ReconcilesIffUsersShareTraffic`,
  `TwoSiteRowsMislead`).
- Following the page cursors yields every row exactly when every row a cursor is made of has texts within
  the cursor's limits; such a row can be listed but not continued from (`RejectPages.WalkIsComplete`).

## Model

| member | source | states |
|---|---|---|
| Money.Rounded | monitor/channel_economics.go:102-115 | a successful rounding is in int64 and is the nearest integer, halves upwards, stated without division |
| Money.RoundedIffRepresentable | monitor/channel_economics.go:102-115 | rounding yields the nearest integer exactly when the value is non-negative and that integer fits int64 |
| Money.Subtract | monitor/channel_economics.go:160-168 | a difference is exact, and is refused exactly for a negative subtrahend or a result outside int64 |
| Money.SignedIsOdd | monitor/channel_economics.go:131-140 | converting the negated units fails or succeeds alike and gives the negated amount, for every int64 but the smallest |
| Money.MoreUnitsCostMore | monitor/channel_economics.go:117-140 | signed conversion is monotone over all units, positive and negative |
| Money.SplitErrorBound | monitor/channel_economics.go:117-129 | for any split of an hour's units over n channels the published costs sum to within n/2 micro-USD of the exact cost |
| Money.CorrectedErrorBound | monitor/channel_economics.go:142-158 | a corrected cost, rounded twice, is within 1/2 + paid/(2 credit) of exact |
| LedgerHistory.RowOfIsGenuine | monitor/channel_economics.go:481-541 | every figure of a published row follows from what its source hash covers |
| LedgerHistory.SameSourceSameRow | monitor/channel_economics.go:516-541 | equal source hashes mean equal rows, so skipping an unchanged channel loses nothing |
| LedgerHistory.SupersededIsZero | monitor/channel_economics.go:499-541 | a row marked superseded_empty is zero in every amount and claims no known figure |
| LedgerHistory.PublishRowKeepsInv | monitor/channel_economics.go:527-562 | publishing a channel keeps: rows stored under their own identity, heads pointing at stored rows, an unbroken and unique chain of revisions per channel, profit = revenue - corrected cost where known |
| LedgerHistory.PublishRowEffect | monitor/channel_economics.go:527-562 | afterwards the head shows the wanted row, no other head moved, nothing stored changed |
| LedgerHistory.PublishRowsEffect | monitor/channel_economics.go:481-563 | after all channels every listed head shows the freshly computed row and only their heads moved |
| LedgerHistory.AttributedIsExact | monitor/channel_economics.go:367-412 | each channel's accumulator holds exactly the charge units and requests of the evidence whose source has a confirmed allocation to it, with owners that still match where the mapping came from tokens; channel 0 holds exactly the rest |
| LedgerHistory.AttributedTraces | monitor/channel_economics.go:383-412 | its hashes and mapping parts are those of exactly that evidence, each part naming the binding it was charged under; only channel 0 is marked unallocated |
| LedgerHistory.AccumulatedTotals | monitor/channel_economics.go:367-459 | attribution, earlier channels and local rows together neither lose nor invent charge units or requests |
| LedgerTheorems.PublishHourKeepsInv | monitor/channel_economics.go:304-575 | a publication keeps all of the above, and every current manifest still describes its heads |
| LedgerTheorems.HistoryInv | monitor/channel_economics.go:304-575 | the ledger invariant holds after every sequence of attempts on any domains, epochs and hours |
| LedgerTheorems.NothingIsRewritten | monitor/channel_economics.go:527-562 | any longer history contains every publication and manifest of a shorter one, unchanged |
| LedgerTheorems.HourChannels | monitor/channel_economics.go:413-459 | the channels with a current head are those with evidence, those with local facts and those ever published for the hour |
| LedgerTheorems.HeadsFollowFacts | monitor/channel_economics.go:413-563 | every current head is the row computed from the present facts alone, whatever was published and mapped before |
| LedgerTheorems.HeadsAddUpToEvidence | monitor/channel_economics.go:367-563 | after any history the heads of the hour sum to exactly the evidence, in total and channel by channel: to the units and requests whose binding names the channel, channel 0 to all others |
| LedgerTheorems.ReportCheckHolds | monitor/channel_economics_report.go:493-511 | in every history the manifest's row count and set equal those of the rows the report joins |
| LedgerTheorems.JoinIsChildren | monitor/channel_economics_current_query.go:17-23 | the join of current heads with the manifest's epoch is the manifest's child set, one row per channel |
| LedgerTheorems.ScanIsExact | monitor/channel_economics.go:213-239 | the scan admits a profit exactly when every row that counts is complete and no two finance versions disagree |
| LedgerTheorems.ManifestVerdict | monitor/channel_economics.go:241-302 | after a publication profit is known exactly when nothing unallocated was refunded, local facts are verified and every head is complete or superseded; a version conflict cannot occur |
| LedgerTheorems.RepeatChangesNothing | monitor/channel_economics.go:527-563 | publishing unchanged facts again succeeds and adds neither revision nor manifest |
| LedgerMeaning.HeadsSayTheFacts | monitor/channel_economics.go:367-563 | after any history each current row of the hour says what the facts say: units and requests bound to its channel, revenue of exactly 2 micro-USD per quota unit, costs at the hour's unit and recharge terms to the nearest micro-USD, the one coverage its facts call for, the profit of a complete row, and a source that covers just these |
| LedgerManifests.HistoryChain | monitor/channel_economics.go:241-302 | over every history the manifests of an hour are numbered without gaps, each naming the one it replaces, and the head is the last |
| LedgerManifests.ManifestSaysTheFacts | monitor/channel_economics.go:206-302 | the current manifest carries epoch, hashes, unit, status and refund of the facts, lists exactly the current heads, and reports the reason of the lowest channel that is neither complete nor superseded, else the rows' finance version |
| LedgerAdmission.AttributedIff | monitor/channel_economics.go:395-404 | evidence can be attributed exactly when no channel's units or requests leave int64 |
| LedgerAdmission.PublishesIff | monitor/channel_economics.go:304-575 | after any history an hour is published exactly when it is aligned, its account epoch stands, its cost is verified and matched, unit and finance are readable, nothing is negative and every amount fits: a missing head, a taken identity or a lost manifest never stops it |
| LedgerAdmission.HourGetsRows | monitor/channel_economics.go:413-459 | then exactly the channels with evidence, with local facts or with a row before have a current row |
| LedgerStore.AttributeEvidence | monitor/channel_economics.go:367-412 | the loop over evidence rows computes the attribution that AttributedIsExact describes, or fails on an int64 overflow |
| LedgerStore.AddLocals | monitor/channel_economics.go:449-456 | the loop over local rows adds each channel's facts, and refuses exactly when a figure is negative |
| LedgerStore.Store.PublishOne | monitor/channel_economics.go:527-562 | the table updates for one channel leave exactly the specified tables |
| LedgerStore.Store.PublishManifestRow | monitor/channel_economics.go:241-302 | the manifest step keeps an unchanged manifest or appends the next revision and repoints |
| LedgerStore.Store.Publish | monitor/channel_economics.go:318-575 | the transaction publishes the hour or leaves all tables as they were, and keeps the ledger invariant |
| ReportFigures.AddRowKeepsSound | monitor/channel_economics_report.go:173-206 | adding a stored row keeps: profit is paired revenue minus paired cost, and with nothing missing the paired figures are the whole figures |
| ReportFigures.SoundViewsArePaired | monitor/channel_economics_report.go:253-305 | a view of such an aggregate that shows a profit shows revenue and corrected cost, and profit is their difference |
| ReportFigures.AbsorbedIsMerged | monitor/channel_economics_report.go:680-718 | adding rows to an aggregate adds what they come to on their own, so hours add up to domains and domains to the site |
| ReportSums.AbsorbedAddsUp | monitor/channel_economics_report.go:173-206 | adding rows up gives in every figure the sum of one field over them: corrected cost over the rows that know it, paired figures and profit over the rows that know a profit |
| ReportSums.AbsorbedFlags | monitor/channel_economics_report.go:518-523 | the corrected cost of some rows is complete exactly when every one that is not superseded has it, and present exactly when some row has it |
| ReportSums.AbsorbedIff | monitor/channel_economics_report.go:165-206 | rows can be added exactly when no such sum leaves int64 on the way |
| ReportBuilder.AbsorbRows | monitor/channel_economics_report.go:512-566 | the row loop gives hour, domain and every channel the aggregate of their own rows, whose figures ReportSums.AbsorbedAddsUp gives, and their statuses; it fails exactly on an int64 overflow among them |
| ReportBuilder.AddVerifiedRows | monitor/channel_economics_report.go:596-616 | a day's loop, which skips the flags, gives what the flagged addition gives, because the hour was verified |
| ReportBuilder.AddToDay | monitor/channel_economics_report.go:585-622 | a day holds the aggregate of the rows of its verified hours, over all domains, whose figures are their sums, and its figures are known exactly while all its hours were verified |
| ReportBuilder.Builder.FinishDomain | monitor/channel_economics_report.go:624-665 | totals, channels and hours of the domain are those specified for the hours read |
| ReportBuilder.Builder.BuildDomain | monitor/channel_economics_report.go:470-670 | the whole pass over a domain's hours gives the specified view, with one hour view per manifest when the report is for one domain, and adds the hours to their days |
| ReportViews.HourProfitIff | monitor/channel_economics_report.go:493-622 | an hour shows a profit exactly when its manifest is complete and matches its rows, each row is complete or superseded and no refund of the hour lacks an owner |
| ReportViews.DomainProfitIff | monitor/channel_economics_report.go:253-305 | a domain shows a profit exactly when no hour is missing, all are verified and no refund of the range lacks an owner; then it is revenue minus corrected cost, both shown |
| ReportViews.ChannelProfitIff | monitor/channel_economics_report.go:636-665 | a channel shows a profit exactly when its whole domain does, even if its own rows are complete |
| ReportViews.DayProfitIff | monitor/channel_economics_report.go:724-750 | a day shows a profit exactly when every expected hour of every domain is there and verified and no refund of that day lacks an owner |
| ReportViews.SiteProfitIff | monitor/channel_economics_report.go:671-753 | the site shows a profit exactly when every domain is complete and there is no refund without an owner; such a refund lowers revenue once and blocks the profit |
| ReportMeaning.HourMeans | monitor/channel_economics_report.go:493-622 | an hour's view shows the sums over its rows, and each of revenue, upstream cost, corrected cost and profit exactly when manifest, rows and refunds allow it |
| ReportMeaning.DomainMeans | monitor/channel_economics_report.go:253-305 | the same for a domain over all rows of its hours: revenue exactly when every hour is there with a matching manifest, none lacks local revenue or verified facts and no refund lacks an owner; upstream cost when none lacks it; corrected cost when no versions conflict and every row knows it |
| ReportMeaning.ChannelMeans | monitor/channel_economics_report.go:636-665 | the same for a channel: sums over its own rows, shown under the reasons of its domain and of its own rows |
| ReportMeaning.DayMeans | monitor/channel_economics_report.go:585-622 | a day shows the sums over the rows of its proven hours, of all domains, in China Standard Time; what is shown depends on every hour of the range that falls on it |
| ReportMeaning.SiteMeans | monitor/channel_economics_report.go:671-753 | the site shows the sums over all rows of all domains, its revenue lowered once by the refunds without an owner |
| ReportMeaning.ReportOfSays | monitor/channel_economics_report.go:331-754 | all levels together, with the hours expected, published, verified, unknown and missing at each |
| ReportBuilder.SumRefunds | monitor/channel_economics_report.go:427-443 | records and quota of the non-zero facts are summed, their hours are the refund hours, and it fails exactly on an int64 overflow |
| ReportBuilder.BuildReport | monitor/channel_economics_report.go:331-754 | the report equals the specified one at hour, channel, domain, day and site level, says at every level the sums of the rows of that level exactly where its hours, manifests and rows allow, takes 2 micro-USD per refunded quota unit from the whole site only, and fails exactly when one of its additions leaves int64 |
| ReportOverflow.SumOverflowsIff | monitor/channel_economics_report.go:524-716 | the additions fail exactly when a sum over the rows of a domain, a channel, an hour or a day, taken in order, or over the first domains leaves int64 |
| ReportBuilder.ReportFailsIff | monitor/channel_economics_report.go:427-722 | with refunds: exactly when also their own sums, their value or the revenue they are taken from leave int64 or are negative where they must not be |
| ReportBuilder.ReportProfits | monitor/channel_economics_report.go:253-754 | wherever that report shows a profit it shows revenue and corrected cost and their difference is the profit; for a domain, a day and the site it shows one exactly when that level is complete |
| ReportBuilder.LedgerHourIsReportable | monitor/channel_economics_report.go:493-530 | in every history of the ledger the rows the report reads keep the row invariant and match their manifest |
| Evidence.BuildPage | monitor/channel_cost_contract.go:493-588 | the loop over a page's items computes the rows per dimension that EvidenceMeaning.BuiltSays describes, or fails |
| Evidence.BuildsIff | monitor/channel_cost_contract.go:531-566 | a build fails exactly on an inexact item of the hour or a sum beyond int64 |
| Evidence.BuiltSummarizes | monitor/channel_cost_contract.go:531-588 | a build's rows hold per dimension the joined figures of its items, and its totals the hour's quota and count; EvidenceMeaning.BuiltSays says which sums these are |
| Evidence.Merge | monitor/channel_cost_contract.go:624-655 | the merge loop joins rows into the target, or fails |
| Evidence.MergedJoins | monitor/channel_cost_contract.go:624-655 | merging rows of one context whose sums fit succeeds and joins figures dimension by dimension |
| Evidence.PagingDoesNotMatter | monitor/channel_cost_contract.go:493-655 | if one pass over all items succeeds, any cut into pages merged in any order gives the same rows, totals, times and content hash |
| EvidenceMeaning.BuiltSays | monitor/channel_cost_contract.go:531-588 | a built page has a row for exactly the dimensions of the hour's items, with their number, the sums of their quota, prompt and completion tokens, and the times of the first and the last; the rows' quotas and requests add up to the hour's |
| EvidenceMeaning.RowsAddUp | monitor/channel_cost_contract.go:531-588 | rows that say what the items say add up to the hour in requests, charge units and tokens, in any order |
| EvidenceMeaning.BuildsExactlyWhen | monitor/channel_cost_contract.go:531-566 | a page is refused exactly for an item of the hour without exact non-negative numbers or a token, for an hour's charge units or for a dimension's tokens beyond int64 |
| EvidenceMeaning.MergedSays | monitor/channel_cost_contract.go:624-655 | rows merged from any pages say what all items of the pages say, and add up to them |
| EvidenceMeaning.MergesExactlyWhen | monitor/channel_cost_contract.go:624-655 | rows of distinct dimensions merge exactly when each has the context of the row kept for its dimension, nothing negative and no sum beyond int64 |
| EvidenceMeaning.ContentHashIff | monitor/channel_cost_contract.go:590-614 | content hashes agree exactly for the same dimensions with the same context and figures: only the time of the fetch is not covered |
| EvidenceCheckpoint.Decode | monitor/channel_cost_contract.go:657-706 | the decode loop accepts or rejects a stored checkpoint as specified; rows may differ in their unit |
| EvidenceCheckpoint.CheckpointRoundTrip | monitor/channel_cost_contract.go:657-706 | a saved checkpoint decodes to the same map exactly when control fields are valid, the count matches and all texts and units fit |
| EvidenceCheckpoint.SavedScanReadsBack | monitor/channel_cost_contract.go:749-786 | what was merged from any pages and saved decodes to that merge exactly when control fields are valid, the stored count is the number of items read, and texts and unit fit: no other check of the reader can fail |
| EvidenceCheckpoint.DecodesExactlyWhen | monitor/channel_cost_contract.go:657-706 | a checkpoint is read exactly when its control fields are in range and its rows, at most 2048, are each of this hour, reader and a dimension of its own, count something, lie inside the hour, fit the columns, carry their own hash and add up to the stored count; what is read is what was stored |
| UnitText.ValidUnitIff | monitor/channel_cost_contract.go:720-723 | a text is a valid billing unit exactly when it is how a positive rational in lowest terms is printed, in at most 80 characters |
| SourceBindings.LookupIsUnique | monitor/channel_cost_contract.go:1495-1504 | at most one confirmed binding covers a source at an hour |
| SourceBindings.AtMostOneOpen | monitor/channel_cost_contract.go:1404-1418 | a source has at most one open confirmed binding |
| SourceBindings.SaveKeepsInv | monitor/channel_cost_contract.go:1368-1393 | a save keeps confirmed intervals of one source pairwise disjoint |
| SourceBindings.SaveResolvesOnlyOpenHours | monitor/channel_cost_contract.go:1368-1393 | a save resolves exactly the hours it covers, all unresolved before, and changes no other hour or source |
| SourceBindings.ReplaceKeepsInv | monitor/channel_cost_contract.go:1397-1461 | closing the open row and appending its successor keeps intervals disjoint |
| SourceBindings.ReplaceChangesNoEarlierHour | monitor/channel_cost_contract.go:1397-1461 | from its start the new row is the binding at every hour; before it, and for other sources, every hour keeps its binding |
| SourceBindings.RunKeepsInv | monitor/channel_cost_contract.go:1344-1461 | over any run of saves and replacements the confirmed intervals of one source stay pairwise disjoint |
| SourceBindings.BoundHoursStayBound | monitor/channel_cost_contract.go:1344-1504 | an hour once bound keeps its binding through any longer run that makes no replacement starting at or before it |
| SourceBindings.BindingStore.Save | monitor/channel_cost_contract.go:1368-1393 | the table gains the row exactly when it is valid, new and meets no confirmed interval |
| SourceBindings.BindingStore.Replace | monitor/channel_cost_contract.go:1397-1461 | the optimistic-lock replacement yields the specified table or changes nothing |
| SourceBindings.BindingStore.Lookup | monitor/channel_cost_contract.go:1495-1504 | the query for the latest covering row finds the binding |
| BindingMeaning.LookupSays | monitor/channel_cost_contract.go:1495-1504 | the binding found at an hour is the confirmed row whose half-open interval holds the hour, none exactly when there is no such row |
| BindingMeaning.SavesExactlyWhen | monitor/channel_cost_contract.go:1344-1393 | a row can be saved exactly when it is well formed and new and, if confirmed, none of its hours is bound |
| BindingMeaning.ReplacesExactlyWhen | monitor/channel_cost_contract.go:1397-1461 | a replacement is accepted exactly when the row is open and confirmed, the caller has seen the present open row with its start, the new one starts after it or corrects one not yet begun, and nothing confirmed reaches past its start: a stale token is refused; it leaves the old row closed or corrected and the new one, nothing else |
| DirtyQueue.RunKeepsInv | monitor/channel_economics.go:887-923 | with one worker, which may fail after any step, a mark whose generation is still the noted one belongs to facts already read |
| DirtyQueue.NeverLosesIff | monitor/channel_economics.go:621-633 | no change that was marked in its own transaction is ever left unpublished and unmarked, in any interleaving and with failures at any point, exactly with at most one worker |
| DirtyQueue.TwoWorkersLose | monitor/channel_economics.go:621-633 | a run of two workers that loses a wake-up |
| DirtyQueue.OnePassCatchesUp | monitor/channel_economics.go:887-923 | an undisturbed pass publishes the current facts and clears the mark |
| DirtyQueue.GenerationCountsWakes | monitor/channel_economics.go:621-632 | a mark's generation is the number of changes and wake-ups since the mark was last deleted |
| RatePatch.BuiltIsFaithful | monitor/channel_cost_decision.go:131-162 | a built patch has one change per matching row, in order, keeps name and discount, and makes multiplier times discount the proposed value |
| RatePatch.BuiltPatchFits | monitor/channel_cost_decision.go:123-162 | a built patch matches the table it came from, names no row twice and holds trimmed names |
| RatePatch.BuildsExactlyWhen | monitor/channel_cost_decision.go:123-162 | a patch is built exactly for a positive value with at least one matching row, each with a positive discount (0 standing for 1) and a multiplier in range |
| RatePatch.WantedAre | monitor/channel_cost_decision.go:131-141 | the matching rows are those of the proposal's channel and upstream group, names compared trimmed, each once |
| RatePatch.TrimIs | monitor/channel_cost_decision.go:131-141 | trimming takes all white space off both ends of a name and nothing else |
| RatePatch.RateTable.ApplyPatch | monitor/channel_cost_decision.go:539-572 | all rows are compared before the first write: the patch is written whole exactly when every row matches, else nothing changes |
| RatePatch.WrittenIsExact | monitor/channel_cost_decision.go:555-571 | the writes set exactly the patch rows and leave every other row |
| RatePatch.RollbackRestores | monitor/channel_cost_decision.go:164-170 | after an applied patch its reverse matches, and applying it restores every row to its normalized values |
| RatePatch.ReverseUndoesIff | monitor/channel_cost_decision.go:164-205 | on a snapshot the reversed patch undoes the patch exactly when the snapshot held the before-rows |
| RatePatch.SnapshotFollowsRows | monitor/channel_finance.go:626-704 | freezing the rows after the writes gives the snapshot the patch predicts |
| ActivationInvariants.DecideKeepsInv | monitor/channel_cost_decision.go:298-429 | approving, rejecting or scheduling a rollback keeps slots, waiting tasks and proposal statuses in step |
| ActivationInvariants.CancelKeepsInv | monitor/channel_cost_decision.go:468-502 | cancelling keeps them in step |
| ActivationInvariants.MarkConflictKeepsInv | monitor/channel_cost_decision.go:520-537 | ending a waiting task by a conflict keeps them in step |
| ActivationInvariants.CommitKeepsInv | monitor/channel_cost_decision.go:689-748 | applying a task keeps them in step |
| ActivationInvariants.RunKeepsInv | monitor/channel_cost_decision.go:298-780 | the invariant holds after every run, with saves, recharge repairs and arbitrary changes of rates and settings in between |
| ActivationTheorems.SlotsAreWaitingTasks | monitor/channel_cost_contract.go:264-269 | in every run a domain's slot names a task exactly when that task waits for that domain |
| ActivationTheorems.StatusSaysWhatWaits | monitor/channel_cost_decision.go:381-429 | a proposal is scheduled exactly while an approval waits for it, rollback_scheduled exactly while a rollback does, never two |
| ActivationTheorems.WaitingCanBeCancelled | monitor/channel_cost_decision.go:468-502 | cancelling succeeds exactly for waiting or already cancelled tasks: the status mismatches are unreachable |
| ActivationTheorems.ApplyOutcome | monitor/channel_cost_decision.go:616-780 | the worker applies exactly the approvable due task; orphan slots, slot mismatches and failures after the first write do not occur |
| ActivationTheorems.ApplyIsAtomic | monitor/channel_cost_decision.go:657-734 | an applied task changes exactly the patch rows, appends exactly version base+1 and leaves the approved target; any other outcome changes no rate and no version |
| ActivationTheorems.DueSlotIsReleased | monitor/channel_cost_decision.go:608-748 | unless the site settings are missing, one run releases the due slot and no other |
| ActivationTheorems.VersionsAreAppendOnly | monitor/channel_finance.go:707-737 | every domain's history of versions is a prefix of any later one |
| ActivationOvertaken.OnlyRepairsDisturb | monitor/channel_finance.go:707-715 | no step but a recharge repair adds a version to the domain of a waiting task or changes the task, and no step but a decision starts one |
| ActivationOvertaken.BaseIsLatestIff | monitor/channel_cost_decision.go:657-663 | a waiting task's base is its domain's latest version exactly when no repair of that domain was carried out since it was scheduled |
| ActivationOvertaken.BaseCanBeOvertaken | monitor/finance_recharge_guarded.go:214-221 | a run of a save, an approval and a repair after which the waiting task's base is stale |
| ActivationOvertaken.OvertakenIsRefused | monitor/channel_cost_decision.go:657-663 | an overtaken task, once due, is ended by a conflict and changes no rate and no version |
| ActivationTheorems.DecisionOnlySchedules | monitor/channel_cost_decision.go:298-429 | a decision changes no rate and no version, and what it schedules takes effect at the next whole hour after it |
| ActivationTheorems.DecisionRepeats | monitor/channel_cost_decision.go:300-315 | the same request sent again, also after the hour has passed, succeeds and changes nothing |
| ActivationTheorems.CancelUndoesSchedule | monitor/channel_cost_decision.go:468-502 | cancelling what was just scheduled restores proposals, slots, rates and versions |
| ActivationMeaning.ApplySays | monitor/channel_cost_decision.go:601-748 | after any run, an applied approval leaves its proposal applied and an applied rollback leaves it rolled_back, both at the version just appended, with the task done, its slot free and the event recorded; a refused task leaves its proposal conflicted and itself failed; nothing else in the queue moves, and otherwise nothing at all |
| ActivationMeaning.AppliesExactlyWhen | monitor/channel_cost_decision.go:616-690 | the worker applies a due task exactly when domain, account and key stand, no version was added, the settings are frozen as planned, the patch can be read back and every row reads as before |
| ActivationMeaning.RetriesExactlyWhen | monitor/channel_cost_decision.go:664-671 | it waits exactly when these stand and the site settings are missing |
| ActivationMeaning.ApplyReprices | monitor/channel_cost_decision.go:683-734 | an applied task writes exactly its rows, appends exactly its target as the next version, and leaves the settings frozen as the target; any other run leaves all prices |
| ActivationMeaning.DecidesExactlyWhen | monitor/channel_cost_decision.go:270-429 | a decision is accepted exactly when it repeats one under its key, or is new, well formed, in the expected status, and, unless it rejects, made for the next whole hour on fresh evidence and digest, the base version, a standing account, rows of the domain, an unused key and a free slot |
| ActivationMeaning.DecideSays | monitor/channel_cost_decision.go:316-429 | a repetition changes nothing, a rejection only the proposal, and any other decision schedules: the proposal waits, a task with plan, base, frozen settings and patched target takes the domain's slot, and no price moves |
| ActivationMeaning.CancelSays | monitor/channel_cost_decision.go:468-502 | in every run exactly waiting and cancelled tasks can be cancelled; a waiting one gives its proposal back pending or applied, ends cancelled and frees its slot |
| ActivationMeaning.SaveSays | monitor/channel_finance.go:626-737 | a manual save is refused exactly while a task waits; else it replaces the rows of the domain's channels and the settings, and adds a version exactly when the last one is not already that snapshot |
| ActivationSettled.SettledApply | monitor/channel_cost_decision.go:616-690 | if rates change only through saves and activations, a due task is applied exactly when account, key and permission stand, its patch decodes and no recharge repair has overtaken it |
| ActivationSettled.RollbackAimsAtOriginal | monitor/channel_cost_decision.go:346-409 | there a scheduled rollback targets the very snapshot its approval was planned on |
| ActivationSettled.ApplyThenRollback | monitor/channel_cost_decision.go:539-572 | approve, apply, roll back, apply: every row reads as before, rows outside the patch are untouched |
| ActivationDesk.Desk.Decide | monitor/channel_cost_decision.go:298-429 | the decision transaction leaves exactly the specified tables, and repeats answer without change |
| ActivationDesk.Desk.Cancel | monitor/channel_cost_decision.go:468-502 | the cancel transaction leaves exactly the specified tables |
| ActivationDesk.Desk.MarkConflict | monitor/channel_cost_decision.go:520-537 | the conflict transaction leaves exactly the specified tables |
| ActivationDesk.Desk.WriteTask | monitor/channel_cost_decision.go:683-748 | the writes of an approvable task, step by step, give the tables that ActivationMeaning.ApplySays and ApplyReprices describe, or fail |
| ActivationDesk.Desk.ApplyDue | monitor/channel_cost_decision.go:601-780 | one run of the worker, with rollback and the recovery transaction, gives the specified tables and outcome, whose statuses ActivationMeaning.ApplySays gives |
| UsageCacheProtocol.OutsideKeepsInv | monitor/cache.go:324-350 | reads outside the gate, the clock, evictions and deletions keep: an older remote record is bypassed for as long as it lives |
| UsageCacheProtocol.HoldingKeepsInv | monitor/cache.go:351-402 | every step of the holder of the gate keeps it, with remote calls that may fail with or without effect |
| UsageCacheProtocol.ServesAtLeastTop | monitor/cache.go:439-473 | then no step serves less than what was served before |
| UsageCacheProtocol.OldRecordIsReachable | monitor/cache.go:572-634 | a run in which a late deletion shortens a bypass and an older remote record becomes readable |
| UsageCacheProtocol.MonotoneIff | monitor/cache.go:324-634 | served versions never go down, over all interleavings, exactly when the longest ttl plus the deletion window is within the bypass |
| CacheLifetimes.CachedIsBacked | monitor/cache.go:324-473 | over any run every cached record, local or remote, holds an answer the source gave and lives no longer than the fill it goes back to; a local copy of a remote record does not outlive it, nor a minute |
| CacheLifetimes.ServedIsAlive | monitor/cache.go:324-473 | whatever is handed out was the source's version when it was asked for; from a cache only while the fill behind it is alive, at most the longest ttl |
| CacheOrder.NobodyLeavesUnanswered | monitor/cache.go:343-402 | in any run whoever leaves the gate, unless to delete, was since handed a fresh local or remote record, asked the source, or failed |
| CacheOrder.MarksBeforeWaiting | monitor/cache.go:572-593 | in any run a deletion empties the local tier, reads the clock and sets its mark, each once and in this order, before it waits for the gate or gives up |
| CacheOrder.DeletionEmptiesLocal | monitor/cache.go:594-634 | while a deletion holds the gate nothing is filled, and from its removal until it leaves the local tier stays empty |
| KeyGate.RunInv | monitor/cache.go:651-686 | in every interleaving all callers of a key share its gate, whose count is their number and whose slot is full exactly while one is inside |
| KeyGate.MutualExclusion | monitor/cache.go:651-686 | at most one caller is inside per key |
| KeyGate.MapHoldsKeysInUse | monitor/cache.go:679-686 | a key has a gate exactly while somebody uses it, so the map does not grow |
| KeyGate.OwnGateInMap | monitor/cache.go:679-686 | a caller always finds its own gate under its key, so the guard of the removal never decides |
| KeyGate.OnlyTheHolderBlocks | monitor/cache.go:667-677 | releasing never blocks, and a waiter can enter exactly when nobody else is inside for its key |
| LocalCache.BoundedByteCache.constructor | monitor/cache.go:754-767 | a new cache is empty and consistent |
| LocalCache.BoundedByteCache.Get | monitor/cache.go:769-788 | returns the entry's value exactly while fresh and moves it to the front; drops an entry past its stale deadline |
| LocalCache.BoundedByteCache.GetStaleWithDeadline | monitor/cache.go:797-811 | returns value and deadline exactly until the stale deadline |
| LocalCache.BoundedByteCache.PutWithDeadlines | monitor/cache.go:830-852 | an accepted entry survives, and the survivors are exactly the longest most-recent prefix within both bounds |
| LocalCache.BoundedByteCache.RemoveElement | monitor/cache.go:862-870 | map, list and byte count lose exactly that entry |
| LocalCache.BoundedByteCache.Delete | monitor/cache.go:854-860 | the key is gone, everything else stays in order |
| LocalCache.LongestFitIsUnique | monitor/cache.go:843-852 | there is only one such prefix, so eviction has one right answer |
| LocalCache.FrontSurvives | monitor/cache.go:834-852 | an entry that fits on its own is never evicted by its own insertion |
| FirstTokenHistogram.ValidIffRealizable | monitor/capacity_coverage.go:67-87 | the long test accepts a row exactly when some multiset of positive latencies produces it |
| FirstTokenHistogram.JoinKeepsValid | monitor/capacity_coverage.go:67-87 | adding counters and joining maxima keeps rows valid |
| FirstTokenHistogram.ReconcilesIffUsersShareTraffic | monitor/capacity_coverage.go:93-133 | with one site row per key a group passes exactly when every user row has latencies of its own that together are latencies of the site row |
| FirstTokenHistogram.TwoSiteRowsMislead | monitor/capacity_coverage.go:93-133 | with two site rows a group can pass although no latencies are the traffic of both sides |
| FirstTokenHistogram.ReconciledJoinIsRealizable | monitor/capacity_coverage.go:93-133 | the joined row of a reconciled group is again one that real samples produce |
| RechargeTerms.MeaningIsExact | monitor/channel_management.go:472-478 | the meaning of an answer determines the answer, up to equal ratios being the same terms |
| RechargeTerms.SelectAt | monitor/channel_management.go:480-489 | the scan finds the version in force at the start |
| RechargeTerms.TermsForBucket | monitor/channel_management.go:480-512 | on a sorted history the answer is complete exactly when every instant of the bucket has a valid version of one ratio, and otherwise names why not |
| RechargeTerms.AgreedForHour | monitor/channel_economics_pricing.go:15-42 | the hour's terms, from a point lookup and the changes inside the hour, agree with that answer over the full history |
| RechargeHour.FinanceForHour | monitor/channel_economics_pricing.go:15-42 | in terms of the stored rows: known exactly when one ratio of paid over credit held through the hour, then with the terms and in any case the version of the row in force at its start; it fails exactly for a bad hour, more than 5000 changes or terms in force that cannot be read or are not positive |
| BillBuckets.CoveredOnce | monitor/channel_management.go:681-689 | no instant is in two accepted buckets |
| BillBuckets.TilesIffFull | monitor/channel_management.go:771-772 | disjoint buckets inside a window cover every second exactly when their lengths sum to the window |
| BillBuckets.AddBucket | monitor/channel_management.go:681-719 | one bucket is taken exactly when it lies in the window, after the buckets before it and with a valid amount; else the domain's integrity names the flaw; either way the aggregate still says what it says about the buckets so far, and the domain is intact exactly while all were faultless |
| BillBuckets.PriceBucket | monitor/channel_management.go:724-752 | adjusted cost, status and the known and unresolved parts are those of the recharge terms of each accepted bucket, whose price BillMeaning.PriceIs gives |
| BillBuckets.Accumulate | monitor/channel_management.go:640-753 | the pass over all rows keeps that for every domain at once |
| BillBuckets.Project | monitor/channel_management.go:625-791 | all published metrics of an intact domain (requests, tokens, cost, hours, completeness, adjusted cost, status and breakdown) are those of its buckets in scope; any other domain publishes none; a domain is intact exactly when its buckets lie in the window, do not overlap and have amounts that can be |
| BillBuckets.CompleteIffTiled | monitor/channel_management.go:439-449 | over a non-empty window of closed whole hours, a domain with intact integrity is complete exactly when its accepted buckets tile the window, pairwise disjoint and inside it, and none is provisional |
| BillMeaning.ScopeIs | monitor/channel_management.go:628-667 | the buckets in scope are exactly the domain's real bills from its own enabled provider that reach into the window, hourly ones only inside it |
| BillMeaning.PriceKind | monitor/channel_management.go:724-745 | a bucket has no price to find when it bills nothing, an unresolved one when no one ratio held over it, and that is for a change inside it exactly when terms were in force at its start |
| BillMeaning.PriceIs | monitor/channel_management.go:458-470 | a price times credit is the cost times paid, by the terms in force at the bucket's start, and is the cost times the ratio that held over it |
| BillMeaning.AdjustedSays | monitor/channel_management.go:724-791 | an intact domain's adjusted cost is the sum of its converted buckets, available exactly when all are resolved and some was converted or nothing was billed; the breakdown and the status say the rest |
| BillMeaning.OneRatioConverts | monitor/channel_management.go:458-470 | where one ratio of paid over credit held over all buckets, the adjusted cost is the bill times that ratio: at 1 paid for 10 credited, 100 cost 10 |
| RejectPages.SeekIsBefore | monitor/alerts_query.go:367-384 | the five-part seek condition is the page order |
| RejectPages.Shape | monitor/alerts_query.go:440-476 | rows are cut to the limit, users named once each, and the cursor is the last shown row exactly when more follow |
| RejectPages.NextCursorIsAccepted | monitor/alerts_query.go:103-148 | a cursor is accepted later, over its own range, exactly when its texts fit |
| RejectPages.WalkIsComplete | monitor/alerts_query.go:364-476 | following the cursors over a fixed store gives every aggregated row once, in order, exactly when each page-ending row fits a cursor |
| RejectPages.GroupingConserves | monitor/alerts_query.go:386-413 | every statistic over grouped rows equals the sum over the visible samples |
| RejectPages.PartsAddUp | monitor/alerts_query.go:393-413 | the five unknown-customer parts sum to the unknown-customer count |
| RejectPages.SuppressionLosesNoFact | monitor/alerts_query.go:302-336 | whatever the filter asks for and the overlap rule hides is shown by a direct row of the same fact |
| RejectPages.FactIsCountedOnce | monitor/alerts_query.go:265-362 | the rows of a fact add up to the direct lane's count where that lane decides and tells it, and to both lanes' counts everywhere else |
| RejectMeaning.RowsSay | monitor/alerts_query.go:264-362 | each row adds up the shown samples of its key, and lies in the range, counts something and is of the user and the reason that were asked for |
| RejectMeaning.StatisticsSay | monitor/alerts_query.go:386-413 | every statistic counts the shown samples it is named after |
| RejectMeaning.CursorAcceptedIff | monitor/alerts_query.go:103-148 | a cursor is accepted exactly when a page of this filter, over a range with the same start and no later end, could have handed it out |
| RejectMeaning.CompareIsBytewise | monitor/alerts_query.go:367-384 | text order is byte order: a proper prefix, or smaller where the texts first differ |
| RejectMeaning.NormalForm | monitor/alerts_query.go:227-243 | a normal form is the text between its outer spaces, separators as underscores, capitals lowered |
| RejectMeaning.CodeIs | monitor/alerts_query.go:177-200 | the code of a reason is the head of the list of spellings its normal form is in, or the normal form |
| ArchiveAudit.GroupByPredecessor | dev/ecs_acceptance_archive_audit.py:44-46 | each batch is listed once under the predecessor it names |
| ArchiveAudit.Walk | dev/ecs_acceptance_archive_audit.py:47-53 | the worklist never meets a batch twice and reaches exactly what hangs off a root |
| ArchiveAudit.CheckChain | dev/ecs_acceptance_archive_audit.py:40-55 | a group passes exactly when its batches can be listed once each, first without and each later one naming its predecessor; the cycle error is unreachable |

## Left out

- HTTP handlers, JSON and SQL plumbing, logging, timeouts, busy retries, retry backoff amounts and audit text fields.
- Binary floats: ratios and prices are exact, so the 1e-9 tolerances, float rounding of a new multiplier and display ratios are not modelled.
- Hash and HMAC collisions, hex and base64; the encoded size limits of patches, checkpoints and cursors; UTF-8 validity.
- Sub2 and other providers: one provider's publication; its own reconciliation adapters and the token-owner lookup are inputs.
- The ledger's blank-status fallbacks: stored rows always carry a status. Completeness flags, daily per-domain cost tables and channel names of the report.
- Rows of the report keep the order of the query; the report's aggregates are values inside one builder object, so aliasing of aggregate pointers does not arise.
- Stale-if-error reads: the stale deadline is in `LocalCache.dfy` only, the protocol of one key has no stale reads; corrupt remote records count as expired ones; a payload always fits the local tier unless it is over the size limit; bypass marks are not evicted by other keys.
- Single flight of identical requests (`monitor/cache.go:688-736`), the back-off clock of the remote client and its statistics.
- Several hours in one dirty queue: rows are independent, so one hour is modelled. The due time of a row is not.
- Other writers of activation tables: retries after a busy database leave the slot for the next run and only count attempts; the economics hours that an applied task marks dirty are not part of its tables here; the one-time import of legacy versions at start-up, before any task, is not a step.
- Recharge repairs: the reviewed plan, its hashes and the money checks before the rows are appended are outside; a repair is any non-empty list of versions that ends with the current snapshot again.
- The roll-up scan of the dirty queue, which compares facts with publications and marks what it finds, a limited number of hours per pass.
- Provider-specific bill rules, result entries for domains without rows, and windows that mix granularities.
- Capacity series, alert thresholds, cooldowns, configuration, mail, backups and the browser pages: they would only add easy members.
