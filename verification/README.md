# Verified models of the repository's algorithmic cores

Each Dafny file models one source file. Three source files have more than one: the ledger (the file
itself, and many processes writing it), the workflow sanitizer (its patterns, its scan and rewriter, and
laws of what is written in a text) and the treasury (its limits, and its gates). Methods follow the source's loops and updates and are proved against specification
functions; lemmas then prove what those functions guarantee. `dafny verify dfyconfig.toml` checks
everything.

## What is modelled

- `Ledger.dfy` — the hash-chained, append-only ledger file. A file is a sequence of tokens: a newline,
  the whole JSON text of a line, or a strict prefix of it that a crash left. Digests and signatures are
  free terms, so equal digests come from equal inputs. The main results: the last hash commits to the
  whole history; the only selections of an accepted file's lines that are accepted are its prefixes;
  the runs of `bootstrap`, `append` and crashes that leave a file `verify` accepts are exactly the runs
  in which no line was torn; a torn line is the verdict for ever after. Row by row such a file stores the
  type, id, time and payload that its completed calls were given (`RowsCarryCalls`). An event changed, an
  event changed with its hash, and a line taken out are each reported at their place, with their own reason.
- `LedgerLock.dfy` — any number of processes on one ledger, each file operation and each reading of the
  clock a step, all interleavings, with processes killed at any point. As long as no cleanup of a stale
  lock runs while somebody is inside, there is at most one holder and the file is what the calls produce
  one after another in acquire order, through every abandoned lock and its recovery. The condition cannot
  be relaxed: any unsafe cleanup leads on to two processes inside (`UnsafeCleanupAdmitsTwo`), which does
  happen (`StaleLockAdmitsTwo`). It is met by the runs in which neither a lock file nor a modification
  time that a process has read and not yet compared with the clock outlives the staleness bound
  (`FreshRunsCleanSafely`). Fresh lock files alone are not enough: the file is looked at before the clock
  is read, and a run in which no lock file ever gets too old ends with two processes inside
  (`FreshLocksAdmitTwo`).
- `Patterns.dfy` — the patterns lines are matched against, each with the texts it matches and what it reads:
  a group's value with or without quotes, a group in braces, the name of a job.
- `Workflow.dfy` — the indentation-aware scan and rewriter for duplicated concurrency groups. The
  offenses are characterised without the state machine, the bottom-up splices are proved to be one
  simultaneous deletion, and the texts one pass does not clean are described line by line.
- `WorkflowLaws.dfy` — how groups are quoted and how deep lines are indented changes neither the offenses nor
  the lines deleted (`RespellingChangesNothing`); an offense names the job its key lies in.
- `Ranking.dfy` — nDCG at k over an arbitrary positive, strictly decreasing discount. It lies in 0..1
  and equals 1 exactly for the ideal grades in the ideal order when the pool covers the top keys. For any
  one discount and any pool, `NdcgBoundIff` says exactly when the bound holds for all judgments; for a pool
  of distinct keys, which is what the evaluation passes, the condition is the same under every discount:
  the pool covers the top keys (`DistinctPoolBoundIff`). `GainDoubles` fixes the gain itself, and
  `TwoItemNdcg` spells the metric out for two items in the wrong order.
- `Treasury.dfy` — transfer limits under asynchronous interleaving: the segments of `plan` and `execute`
  between awaits are atomic, everything else interleaves.
- `TreasuryGates.dfy` — over the same runs, every amount sent, counted or recorded is traced back to the call
  that began it: that call was confirmed and within both caps, and a decision on it passed the velocity gate
  and, above the threshold, the approval gate. Each call is counted and recorded at most once.
- `Dedupe.dfy` — near-duplicate removal and cross-source linking.
- `Sse.dfy` — the buffered event-stream splitter, for every cutting of the text into chunks.
- `Fetch.dfy` — split-and-retry fetching, batching and scan counters, for every behaviour of the remote. The
  whole scan is that of consecutive full batches and a last one, names every address given, and every
  result is justified by the fetch of its own chunk.
- `Store.dfy` — the findings table, its full-text index kept by triggers, sightings and foreign keys.
- `EventMerge.dfy` — merging of parallel search completions, for every completion order.
- `Simulation.dfy` — the fee simulation and its chains, in exact arithmetic.
- `MergeController.dfy` — the merge state machine with its checkpoints and pushes.
- `Score.dfy` — engagement normalisation, the item score and the sorted order.
- `Options.dfy` — the option type.

## Where code and documentation disagree

The models follow the code.

- `fixWorkflow` is documented to remove all duplicate child blocks (`src/devops/workflow-sanitize.ts:152-156`).
  One pass need not: `OnePassMayNotSuffice` and `SecondGroupTakesOver` give texts, `OnePassSufficesIff`
  the exact condition for all texts, and `SanitizedIsClean` shows that repeated passes end in a clean
  text. A pass may also delete the very line the workflow-level group is read from
  (`SupplyMayBeDeleted`); what the group is then, `FixParent` says.
- The daily cap of `TreasuryEdge` is checked before and committed after several awaits.
  `ConcurrentUseIsBounded` gives the bound that holds with k calls in flight, `LimitIsReached` shows that
  it is exact under every pair of positive caps, and `DailyCapHoldsIff` says for which k and caps the
  daily cap itself holds.
- The daily total and the metrics records agree at quiescence exactly when no transferred amount was
  waiting for its record at the last reset (`QuiescentTotalIsRecorded`, `CompensationAcrossMidnight`).
- `append` on a file with no readable line calls `bootstrap`, which cannot take the lock its caller
  holds: the call times out and leaves the file unchanged (`Ledger.AuthoritativeLedger.Append`).
- `dedupe_items` is documented for lists sorted by score. Nothing here needs that.
- A removed near-duplicate need not resemble any kept item (`RemovedMayResembleNothingKept`, three titles
  at the default threshold); it is joined to one by a chain. `RemovedResembleKeptIff` says exactly when
  every removed item does.
- The merged search results keep the same body for an event in every completion order exactly when the
  responses of least index agree on it (`EntryIsDeterminedIff`).
- `remove_topic` fails when a finding of another topic was last sighted by one of the topic's runs.

## Model

| member | source | states |
|---|---|---|
| Ledger.AuthoritativeLedger.AcquireLock | src/ledger/AuthoritativeLedger.ts:141-193 | the lock is obtained exactly when there is no lock file or the one there is older than the staleness bound; otherwise it stays as it was |
| Ledger.AuthoritativeLedger.ReadLastLine | src/ledger/AuthoritativeLedger.ts:216-230 | returns the last row that parses, skipping blank and torn rows after it |
| Ledger.AuthoritativeLedger.Bootstrap | src/ledger/AuthoritativeLedger.ts:260-286 | without the lock nothing changes; with it the file becomes the serial result of the call, the lock is released and the line written or found is returned; it writes exactly when forced or when no row can be read back, and then one row that stores what it was given |
| Ledger.AuthoritativeLedger.Append | src/ledger/AuthoritativeLedger.ts:288-318 | unknown type and held lock change nothing; with no readable line the nested bootstrap times out on the caller's own lock and the file stays, unless that lock has become stale meanwhile; otherwise the line returned is the last row of the file and stores the type, id, time and payload given |
| Ledger.AuthoritativeLedger.Verify | src/ledger/AuthoritativeLedger.ts:320-408 | valid with the number of rows exactly when every row is in order; otherwise the first bad row, its reason and the line count the source reports |
| Ledger.VerdictIsUnique | src/ledger/AuthoritativeLedger.ts:320-408 | a file has only one verdict |
| Ledger.AppendAddsOneRow | src/ledger/AuthoritativeLedger.ts:232-236 | whatever the file holds, even a torn tail, appending adds one row of its own and leaves the others |
| Ledger.ReadsBackWhatItAppends | src/ledger/AuthoritativeLedger.ts:216-236 | the line just appended is the one read back |
| Ledger.ChainedIsAccepted | src/ledger/AuthoritativeLedger.ts:331-407 | the scan accepts exactly the files whose lines are each signed, hashed over their own event and chained to the line above from the genesis anchor |
| Ledger.HeadCommitsToHistory | src/ledger/AuthoritativeLedger.ts:308-312 | two chains under one key with the same last hash are equal line by line |
| Ledger.SameHeadSameFile | src/ledger/AuthoritativeLedger.ts:320-408 | two accepted files under one key whose last hashes agree are the same |
| Ledger.HashesAreDistinct | src/ledger/AuthoritativeLedger.ts:386-405 | all hashes of an accepted file differ |
| Ledger.OnlyPrefixesVerify | src/ledger/AuthoritativeLedger.ts:346-405 | a file made of an accepted file's lines by deleting, duplicating or reordering is accepted if and only if it is a prefix |
| Ledger.ForeignKeyRejected | src/ledger/AuthoritativeLedger.ts:396-404 | under another key the first line already fails with a signature mismatch |
| Ledger.AlteredEventIsReported | src/ledger/AuthoritativeLedger.ts:346-394 | an event of an accepted file changed by itself is reported at its line, as a hash mismatch unless its type is not allowed there |
| Ledger.RehashedEventIsReported | src/ledger/AuthoritativeLedger.ts:396-404 | an event changed together with its hash is reported at its line as a signature mismatch |
| Ledger.DeletedLineIsReported | src/ledger/AuthoritativeLedger.ts:346-376 | a line taken out is reported at its place as a broken chain, or for the first line as a wrong type or anchor |
| Ledger.OpRows | src/ledger/AuthoritativeLedger.ts:232-244 | what a completed call and a crash at each stage of the write do to the rows `verify` reads |
| Ledger.OpExtendsAcceptedFile | src/ledger/AuthoritativeLedger.ts:260-318 | any operation that tears no line keeps the file accepted and adds a line exactly when it completed a write |
| Ledger.ReachableFilesVerify | src/ledger/AuthoritativeLedger.ts:260-408 | every run from the empty file without a torn line ends in an accepted file with one line per completed write |
| Ledger.RowsGrow | src/ledger/AuthoritativeLedger.ts:232-236 | over any run the rows of the file only grow at the end |
| Ledger.TornLineIsReportedForever | src/ledger/AuthoritativeLedger.ts:332-344 | the first torn line is the verdict after every continuation of the run |
| Ledger.VerifiesIffNeverTorn | src/ledger/AuthoritativeLedger.ts:320-408 | a run's file is accepted if and only if the run tore no line |
| Ledger.LastLineIsLast | src/ledger/AuthoritativeLedger.ts:216-230 | what is read back is the last row that parses, and nothing exactly when none does |
| Ledger.LineIsThatOfCall | src/ledger/AuthoritativeLedger.ts:260-318 | a bootstrap writes when forced or when nothing can be read back, an append when its type is known and something can; the line has the schema, the call's type, id, time and payload, is signed, and links to the last line or to genesis |
| Ledger.RowsCarryCalls | src/ledger/AuthoritativeLedger.ts:260-318 | after any run that tore no line, the k-th row stores what the k-th completed call was given, and there are no other rows |
| LedgerLock.NextKeepsInv | src/ledger/AuthoritativeLedger.ts:141-318 | every step, kill and tick keeps the protocol invariant, unless it is a cleanup while somebody is inside: one owner, the file serial up to the owner's progress, other locks abandoned ones |
| LedgerLock.OwnerKilled | src/ledger/AuthoritativeLedger.ts:232-236 | a killed owner leaves its lock, and in the file the part of its write that a crash of the serial call leaves |
| LedgerLock.AtMostOneHolder | src/ledger/AuthoritativeLedger.ts:141-193 | from any start, also one with an abandoned lock, and in every interleaving with kills in which no cleanup runs while somebody is inside, at most one process is between acquire and release |
| LedgerLock.InterleavingIsSerial | src/ledger/AuthoritativeLedger.ts:260-318 | whenever nobody holds the lock the file is that of the calls run, or crashed, one after another in acquire order; a lock file is there only if one was there at the start or a process was killed |
| LedgerLock.SharedLedgerVerifiesIff | src/ledger/AuthoritativeLedger.ts:260-408 | a ledger many processes write from empty is accepted at rest if and only if no kill tore a line, and then has one line per completed write |
| LedgerLock.SharedLedgerVerifies | src/ledger/AuthoritativeLedger.ts:260-408 | so it is accepted when no process was killed inside a line |
| LedgerLock.SharedRowsCarryCalls | src/ledger/AuthoritativeLedger.ts:260-318 | at rest, and if no kill tore a line, the rows of a shared ledger store what the calls completed in acquire order were given |
| LedgerLock.TenAttempts | src/ledger/AuthoritativeLedger.ts:164-180 | against a lock that stays, a call fails ten attempts and gives up, having changed nothing else |
| LedgerLock.OnlyMakerTouches | src/ledger/AuthoritativeLedger.ts:164-176 | a lock file that stays is touched by nobody but its maker, who sets its modification time when it writes into it |
| LedgerLock.FreshRunsCleanSafely | src/ledger/AuthoritativeLedger.ts:149-162 | in runs in which neither a lock file nor a modification time read and not yet compared with the clock outlives the staleness bound no cleanup is unsafe |
| LedgerLock.FreshLocksAdmitTwo | src/ledger/AuthoritativeLedger.ts:149-180 | with fresh lock files alone, and no kill, two processes can be inside: a lock is looked at, released and taken again before its age is computed |
| LedgerLock.StaleLockIsRecovered | src/ledger/AuthoritativeLedger.ts:149-180 | in any state in which nobody holds a stale lock, whatever the others are waiting for, the next call that starts removes and takes it safely, leaving the file and the other processes alone |
| LedgerLock.UnsafeCleanupAdmitsTwo | src/ledger/AuthoritativeLedger.ts:149-180 | every cleanup while somebody is inside can be continued, safely, to two processes inside |
| LedgerLock.StaleLockAdmitsTwo | src/ledger/AuthoritativeLedger.ts:149-176 | two processes that both see a stale lock do enter both |
| Workflow.ParentConcurrencyGroup | src/devops/workflow-sanitize.ts:60-76 | the early-returning loop computes the workflow-level group |
| Workflow.FoundStays | src/devops/workflow-sanitize.ts:63-74 | once a line supplies the workflow-level group, later lines do not change it |
| Workflow.ConcurrencyKeyLineOf | src/devops/workflow-sanitize.ts:142-150 | the backward search for the key line, with its fallback |
| Workflow.AnalyzeWorkflow | src/devops/workflow-sanitize.ts:87-140 | the line machine's offenses, in order |
| Workflow.MachineState | src/devops/workflow-sanitize.ts:93-138 | on any text left by a deletion that spares job lines, the machine is in a child block exactly when a block opened above is still open over the remaining lines |
| Workflow.CleanIffNoDuplicate | src/devops/workflow-sanitize.ts:87-140 | the machine reports nothing if and only if no remaining key duplicates the group |
| Workflow.BackTracksToOpener | src/devops/workflow-sanitize.ts:133-150 | the back-tracked key is the one that opened the block the group line is in |
| Workflow.ReportsInOrder | src/devops/workflow-sanitize.ts:98-139 | after every prefix the offenses are in line order, on keys above the open block, and mention exactly the duplicating keys |
| Workflow.ReportedExactly | src/devops/workflow-sanitize.ts:87-140 | the offenses mention a line if and only if it is a key that duplicates the workflow-level group |
| Workflow.EndOfBlock | src/devops/workflow-sanitize.ts:165-179 | the scan over a block, stepping back from a trailing blank line, ends at the first blank or shallow line |
| Workflow.BlocksAreDisjoint | src/devops/workflow-sanitize.ts:163-181 | the deleted blocks do not overlap |
| Workflow.CutsAreOneDeletion | src/devops/workflow-sanitize.ts:162-181 | the splices from the last block upwards equal one simultaneous deletion of the lines the blocks cover |
| Workflow.AscendingSortsToReverse | src/devops/workflow-sanitize.ts:163 | sorting the offenses by line, last first, reverses them |
| Workflow.DeleteBlocks | src/devops/workflow-sanitize.ts:161-182 | the splice loop performs the cuts |
| Workflow.FixWorkflow | src/devops/workflow-sanitize.ts:157-183 | returns the offenses found and the text without the lines their blocks cover |
| Workflow.RemovedLines | src/devops/workflow-sanitize.ts:164-181 | a deleted line is a duplicating key or lies in the unbroken run of deeper, non-blank lines under one |
| Workflow.DuplicatesAreRemoved | src/devops/workflow-sanitize.ts:157-183 | every duplicating key goes, and its group line with it when nothing blank or shallow lies between |
| Workflow.RemovedIffDoomed | src/devops/workflow-sanitize.ts:157-183 | a line is deleted if and only if, read off the text, it is a duplicating key or in the unbroken run under one |
| Workflow.FixKeepsProtected | src/devops/workflow-sanitize.ts:167-181 | every blank line and every line of indent up to 4 that is not a concurrency key is kept, in order |
| Workflow.FixKeepsParent | src/devops/workflow-sanitize.ts:60-76 | a pass leaves the workflow-level group alone unless the line that supplies it is, or is under, a duplicating key |
| Workflow.ParentScanOf | src/devops/workflow-sanitize.ts:60-76 | on any text left by a deletion that spares the lines of indent 0, the group is what the first staying line that offers one offers |
| Workflow.FixParent | src/devops/workflow-sanitize.ts:60-76 | after a pass the group is that of the next supplier among the lines that stay, and there is none without one |
| Workflow.ShallowSupplySurvives | src/devops/workflow-sanitize.ts:60-76 | that line survives when its indent is below 4 |
| Workflow.SupplyMayBeDeleted | src/devops/workflow-sanitize.ts:60-76 | a text whose group is supplied from inside a job loses it in a pass |
| Workflow.OnePassSufficesIff | src/devops/workflow-sanitize.ts:152-183 | for every text, the fixed text has no offense unless the next supplier names a group that a staying one-line key names, or that a staying opener takes over, all lines between that would close it being doomed |
| Workflow.OnePassSufficesIffNoTakeover | src/devops/workflow-sanitize.ts:152-183 | where the supplier stays, one pass suffices if and only if no staying opener takes over a line naming the group |
| Workflow.SeparatedKeysNeedOnePass | src/devops/workflow-sanitize.ts:152-183 | one pass suffices when any two job keys have another closing line between them |
| Workflow.OnePassMayNotSuffice | src/devops/workflow-sanitize.ts:152-183 | a text whose fixed form still has an offense |
| Workflow.SecondGroupTakesOver | src/devops/workflow-sanitize.ts:60-76 | with separated keys but a doomed supplier one pass can still fail |
| Workflow.FixShrinks | src/devops/workflow-sanitize.ts:164-181 | a pass that finds an offense deletes at least one line |
| Workflow.SanitizedIsClean | src/devops/workflow-sanitize.ts:152-183 | repeated passes end in a text without offenses that has kept every protected line |
| Patterns.GroupValueIff | src/devops/workflow-sanitize.ts:48-58 | a line names a group value exactly when it is `group:`, padding and a non-empty text, and the value is that text or what one pair of equal quotes around it encloses |
| Patterns.SpelledGroupNames | src/devops/workflow-sanitize.ts:48-58 | with any padding, a value written as it is or in either quotes is the value named |
| Patterns.FlowGroupNeedsPlace | src/devops/workflow-sanitize.ts:78-81 | a text in braces names no group exactly when nowhere in it `group:` is followed by something other than a delimiter |
| Patterns.FlowGroupReadsBody | src/devops/workflow-sanitize.ts:78-81 | the first such place decides: what stands there up to the next comma or brace, trimmed and without quotes at its ends |
| Patterns.SpelledFlowNames | src/devops/workflow-sanitize.ts:78-81 | in braces too, a value written as it is or in either quotes, with any padding, is the value named |
| Patterns.JobNameIff | src/devops/workflow-sanitize.ts:101 | a job line is a name, a colon and nothing but spaces |
| WorkflowLaws.RespellingChangesNothing | src/devops/workflow-sanitize.ts:87-183 | writing any group with or without quotes, or with other padding, and indenting any line deeper than a job's keys more or less, changes neither the workflow-level group, nor the offenses, nor which lines a pass deletes |
| WorkflowLaws.OffenseNamesItsJob | src/devops/workflow-sanitize.ts:98-139 | an offense names the workflow-level group, and the job of the last job line above its key |
| WorkflowLaws.CommentsAreSilent | src/devops/workflow-sanitize.ts:98-139 | comments and blank lines below the top level change no state and report nothing |
| Ranking.GainGrows | scripts/evaluate_search_quality.py:184 | the gain grows strictly with the grade and is non-negative from 0 on |
| Ranking.GainDoubles | scripts/evaluate_search_quality.py:184 | the gain of grade 0 is 0, and that of any grade is one more than twice the gain of the grade below |
| Ranking.TakeLength | scripts/evaluate_search_quality.py:177 | k items are taken, or all when there are fewer; a negative k leaves off as many at the end |
| Ranking.DcgLoop | scripts/evaluate_search_quality.py:181-185 | the accumulating loop computes the discounted gain |
| Ranking.NdcgAtK | scripts/evaluate_search_quality.py:171-196 | the metric, with its two zero cases |
| Ranking.SortingSorts | scripts/evaluate_search_quality.py:189-192 | the ideal order is a descending permutation of the grades |
| Ranking.BestGradesGainMost | scripts/evaluate_search_quality.py:189-193 | no selection of m grades gains more than the m best |
| Ranking.WeightedByParts | scripts/evaluate_search_quality.py:181-185 | summation by parts for the discounted sum |
| Ranking.DominatedDcg | scripts/evaluate_search_quality.py:181-196 | grades whose prefixes gain less have a smaller discounted gain, and an equal one only when all grades agree |
| Ranking.SortingMaximisesDcg | scripts/evaluate_search_quality.py:189-196 | any order has at most the discounted gain of the descending one, with equality exactly for descending orders |
| Ranking.JudgedSelection | scripts/evaluate_search_quality.py:187-192 | top items whose keys the pool covers, counting repeats, select their grades from it |
| Ranking.DistinctKeysAreCovered | scripts/evaluate_search_quality.py:187-192 | distinct judged keys are covered |
| Ranking.IdealDominates | scripts/evaluate_search_quality.py:187-193 | the ideal grades dominate the actual ones |
| Ranking.NdcgIsNormalised | scripts/evaluate_search_quality.py:171-196 | the metric lies in 0..1, and is 1 if and only if the top items carry the ideal grades in the ideal order |
| Ranking.DominatedLevels | scripts/evaluate_search_quality.py:181-185 | where the places that reach each grade weigh no more in one list than in another, neither does its discounted gain |
| Ranking.IdealLevel | scripts/evaluate_search_quality.py:187-193 | in the ideal grades the places that reach a grade weigh what the first places do, one for each candidate that reaches it |
| Ranking.NdcgBoundIff | scripts/evaluate_search_quality.py:171-196 | for a non-empty pool and any one discount the metric stays within 1 for all non-negative judgments if and only if no set of keys weighs more in the ranking than its pool items could at the first places |
| Ranking.DistinctPoolBoundIff | scripts/evaluate_search_quality.py:171-196 | for a pool of distinct keys and any one discount the bound holds for all non-negative judgments if and only if the pool covers the top keys |
| Ranking.AllDiscountsBoundIff | scripts/evaluate_search_quality.py:171-196 | for a non-empty pool the bound holds for all discounts and non-negative judgments together if and only if no key is ranked more often than the pool has it |
| Ranking.RepeatedKeyExceedsOne | scripts/evaluate_search_quality.py:187-196 | a key ranked twice and judged once lifts the metric above 1 under every discount |
| Ranking.TwoItemNdcg | scripts/evaluate_search_quality.py:171-196 | for two items in the wrong order the metric is the quotient of the two weighted sums of powers of two less one, spelled out |
| Treasury.CheckedCallKeepsLimit | src/finance/TreasuryEdge.ts:163-167 | a call adds to the exposure at most what its own check against both caps left |
| Treasury.StepKeepsLimit | src/finance/TreasuryEdge.ts:158-247 | every segment of `plan` and `execute` keeps the exposure within the limit for k calls in flight |
| Treasury.StepMovesCall | src/finance/TreasuryEdge.ts:201-245 | every segment after the check takes one call out or to another stage, and moves exactly its unrecorded amount between the daily total, the calls and the records |
| Treasury.StepBalances | src/finance/TreasuryEdge.ts:158-247 | only a day change can disturb the balance of daily total, calls and records, by what the calls had not recorded |
| Treasury.ConcurrentUseIsBounded | src/finance/TreasuryEdge.ts:158-247 | in every interleaving, across day changes, used plus approved stays within the daily cap and k - 1 transfers of the largest size both caps allow |
| Treasury.SequentialUseRespectsCap | src/finance/TreasuryEdge.ts:166-234 | calls one after another never exceed the daily cap |
| Treasury.FillDay | src/finance/TreasuryEdge.ts:158-247 | transfers one after another can use up any amount within the daily cap |
| Treasury.LimitIsReached | src/finance/TreasuryEdge.ts:166-234 | for every k and every pair of positive caps some run with at most k calls in flight uses exactly the limit |
| Treasury.DailyCapHoldsIff | src/finance/TreasuryEdge.ts:166-234 | all runs with at most k calls in flight stay within the daily cap if and only if k is 1, or no positive amount passes the checks |
| Treasury.BurstOvershoots | src/finance/TreasuryEdge.ts:166-234 | k calls checked before any commits use k times the transfer cap |
| Treasury.LedgerBalances | src/finance/TreasuryEdge.ts:161-245 | in every run the daily total, the recorded successes and the amounts in flight differ exactly by what strayed over the last reset |
| Treasury.QuiescentTotalIsRecorded | src/finance/TreasuryEdge.ts:161-245 | at rest the daily total is the sum of successful records if and only if nothing strayed |
| Treasury.CompensationAcrossMidnight | src/finance/TreasuryEdge.ts:234-245 | a run in which it does stray |
| TreasuryGates.UsedPassedItsGates | src/finance/TreasuryEdge.ts:158-247 | in every run the daily total is the sum of the amounts of distinct calls, each confirmed, within both caps when it began, and let through both gates by a decision on it |
| TreasuryGates.RecordsPassedTheirGates | src/finance/TreasuryEdge.ts:201-245 | every record is that of a call of its own that passed its gates, with its amount, and says whether the provider accepted that transfer |
| TreasuryGates.SentPassedItsGates | src/finance/TreasuryEdge.ts:198-201 | a call that has been sent passed both caps and both gates |
| TreasuryGates.RefusedVelocityMovesNothing | src/finance/TreasuryEdge.ts:169-172 | in a run whose velocity gate refuses everything nothing is sent, counted or recorded |
| TreasuryGates.UnapprovedStaysUnderThreshold | src/finance/TreasuryEdge.ts:174-176 | in a run without approvals no amount above the threshold is sent, counted or recorded |
| TreasuryGates.PassingCallIsSent | src/finance/TreasuryEdge.ts:178-201 | in any run a decision sends the call exactly when it was confirmed, began within both caps and passes both gates, and ends it otherwise |
| Dedupe.JaccardIsSymmetric | scripts/lib/dedupe.py:39-45 | the similarity is symmetric |
| Dedupe.JaccardIsShare | scripts/lib/dedupe.py:39-45 | it is the share of the union that both have: 1 for equal non-empty sets only, 0 for disjoint ones only, empty ones among them |
| Dedupe.SameGramsAreSimilar | scripts/lib/dedupe.py:121-145 | reaching the threshold is enough: at 1 the near-duplicates are the items with the same grams |
| Dedupe.FindDuplicates | scripts/lib/dedupe.py:121-145 | all pairs at or above the threshold, once each, in lexicographic order |
| Dedupe.MarkLosers | scripts/lib/dedupe.py:167-175 | an index is marked exactly when some pair makes it the loser |
| Dedupe.LosersAreBeaten | scripts/lib/dedupe.py:164-175 | the marked items are exactly those with a better near-duplicate, by score and then index |
| Dedupe.DedupeItems | scripts/lib/dedupe.py:148-178 | keeps the unbeaten items |
| Dedupe.KeptIffUnbeaten | scripts/lib/dedupe.py:164-178 | an index is kept if and only if no better item is similar to it |
| Dedupe.KeptInOrder | scripts/lib/dedupe.py:178 | the kept items stay in their order |
| Dedupe.KeptAreDistant | scripts/lib/dedupe.py:148-178 | kept items are pairwise below the threshold |
| Dedupe.RemovalIsIdempotent | scripts/lib/dedupe.py:148-178 | removing again changes nothing |
| Dedupe.BestIsKept | scripts/lib/dedupe.py:167-178 | a non-empty list has a best item, and it is kept |
| Dedupe.EveryItemLeadsToKept | scripts/lib/dedupe.py:167-178 | a chain of near-duplicates, each better than the one before, leads from every item to a kept one |
| Dedupe.RemovedResembleKeptIff | scripts/lib/dedupe.py:164-178 | every removed item resembles a kept one if and only if every beaten item is beaten by an unbeaten one |
| Dedupe.TransitiveSimilarityReachesKept | scripts/lib/dedupe.py:164-178 | which holds where similarity is transitive on the list |
| Dedupe.SliceTrigrams | scripts/lib/dedupe.py:31-36 | the n-grams of a stretch of a text are those that start in it |
| Dedupe.RemovedMayResembleNothingKept | scripts/lib/dedupe.py:121-178 | three titles, at the default threshold, of which the removed last one resembles no kept one |
| Dedupe.HybridIsSymmetric | scripts/lib/dedupe.py:114-118 | the hybrid similarity is symmetric |
| Dedupe.RelatedIff | scripts/lib/dedupe.py:114-118 | items of different kinds are related as soon as one of the two similarities reaches the threshold |
| Dedupe.AddedExtends | scripts/lib/dedupe.py:287-290 | adding an id keeps the references an extension of what they were, by exactly the ids linked, without new repeats |
| Dedupe.CrossSourceLink | scripts/lib/dedupe.py:253-290 | every item's references become those of visiting all pairs in order |
| Dedupe.LinksAreExact | scripts/lib/dedupe.py:278-290 | an item keeps the references it had and gains exactly the ids of similar items of other kinds, without repeats; when those are there already nothing changes |
| Dedupe.LinkingIsIdempotent | scripts/lib/dedupe.py:253-290 | linking again changes nothing |
| Dedupe.LinksAreMutual | scripts/lib/dedupe.py:284-290 | every id an item gains is that of an item of another kind whose references hold the first one's id |
| Sse.ParseSseChunk | scripts/lib/openai_reddit.py:57-76 | the data lines of a piece, joined, stripped and decoded; blank, `[DONE]` and undecodable data give nothing |
| Sse.EventDecodesValues | scripts/lib/openai_reddit.py:57-76 | the event of any lines is what their data values decode to, stripped each, in order and one to a line; other lines do not matter |
| Sse.PiecesAreTheCut | scripts/lib/openai_reddit.py:85-86 | the pieces are the one reading that joins back to the text and breaks at the first possible places |
| Sse.LaterTextExtendsRest | scripts/lib/openai_reddit.py:83-86 | later text changes only what follows the last blank line |
| Sse.BlankPieceHasNoEvent | scripts/lib/openai_reddit.py:90-93 | skipping a blank tail loses no event |
| Sse.SplitOnce | scripts/lib/openai_reddit.py:86 | one split takes the first finished piece off and shrinks the buffer |
| Sse.DrainBuffer | scripts/lib/openai_reddit.py:85-89 | the inner loop takes all finished pieces and leaves the rest |
| Sse.ParseChunks | scripts/lib/openai_reddit.py:81-94 | for every cutting into chunks the events are those of the pieces of the whole text |
| Sse.LinesRebuildText | scripts/lib/openai_reddit.py:83 | splitting into lines with their ends loses no character |
| Sse.FirstLineEndsOnce | scripts/lib/openai_reddit.py:83 | a line ends at its first line end, a carriage return and the newline after it being one |
| Sse.ParseSseStreamRaw | scripts/lib/openai_reddit.py:79-94 | the events of a stream are those of its pieces |
| Fetch.BlockchainInfoClient.FetchWithFallback | untitled20 (1).py:212-226 | the recursion returns the data and error of the split-and-retry fetch and makes its calls, in its order |
| Fetch.LeavesSettleChunk | untitled20 (1).py:212-226 | the requests that were not split again partition the chunk in order, and a failed one names one address |
| Fetch.CallsCountLeaves | untitled20 (1).py:217-226 | m requests that were not split again take 2m - 1 calls |
| Fetch.CallsAreBounded | untitled20 (1).py:217-226 | n addresses take at most 2n - 1 calls, whatever the remote answers |
| Fetch.OneBadAddress | untitled20 (1).py:217-226 | when only one address fails, its chunk of n distinct addresses takes at most two calls more for each halving of n, and every other chunk one call |
| Fetch.ErrorIffLeafFailed | untitled20 (1).py:217-226 | a chunk reports an error if and only if one of its leaves failed |
| Fetch.DataComesFromLeaves | untitled20 (1).py:222-225 | a figure is kept exactly for the addresses some leaf served, and it is a served one |
| Fetch.FirstErrorIsReported | untitled20 (1).py:217-226 | the error a chunk reports is that of the first leaf that failed |
| Fetch.LastFigureIsKept | untitled20 (1).py:222-225 | of several figures for an address that of the last leaf is kept |
| Fetch.UniqueKeepsFirsts | untitled20 (1).py:246 | each distinct address once, by first occurrence |
| Fetch.ChunksRebuild | untitled20 (1).py:275-277 | the chunks concatenate to the input |
| Fetch.BlockchainInfoClient.ChunkBalances | untitled20 (1).py:251-261 | one result per address of the chunk, in its order |
| Fetch.BlockchainInfoClient.Process | untitled20 (1).py:245-261 | the results of a batch, chunk by chunk |
| Fetch.BlockchainInfoClient.IterBalances | untitled20 (1).py:229-243 | full batches of the threshold size, then the remainder; the results name, batch after batch, the distinct addresses of each |
| Fetch.BatchNamesEachAddressOnce | untitled20 (1).py:245-261 | a batch yields exactly one result per distinct address, in first-occurrence order |
| Fetch.ScanIsJustified | untitled20 (1).py:250-261 | every result is that of a place in a chunk, and is a figure served in the fetch this chunk was given, an error if a leaf of that fetch failed, or a zero only if none did |
| Fetch.ScanNamesEveryAddress | untitled20 (1).py:229-261 | the addresses split into consecutive batches, all but the last full and the last not empty; the results name the distinct addresses of each, batch after batch, so an address is named if and only if it was given |
| Fetch.WholeScanIsJustified | untitled20 (1).py:229-261 | every result of the whole scan is justified by the fetch of its own chunk, at the call number that fetch had |
| Fetch.ScanAllIsClean | untitled20 (1).py:251-261 | no result carries both an error and a balance |
| Fetch.ScanSummary.Observe | untitled20 (1).py:324-339 | exactly one class counter moves with the total |
| Fetch.ResultStream.Offer | untitled20 (1).py:401-415 | a row is written exactly for a funded result at or above the minimum |
| Fetch.Consume | untitled20 (1).py:513-524 | every class counter is the number of results of its class, they partition the total, the sum is that of the hits, and on clean results the funded count is the number of rows written |
| Fetch.HitsAreCounted | untitled20 (1).py:324-339 | rows and hits agree if and only if no hit carried an error |
| Fetch.ClassesByFigures | untitled20 (1).py:122-135 | the class of a result by its figures: a hit holds value at or above the minimum, a drained address was used, an empty one never |
| Fetch.HitTotalIsAll | untitled20 (1).py:324-339 | where no balance is negative and the minimum is at most one satoshi, the total of the hits is that of all known balances |
| Store.PostingsCount | scripts/store.py:97-112 | the postings of a row count each of its terms |
| Store.InsertKeepsIndex | scripts/store.py:97-100 | the insert trigger keeps the index equal to the table |
| Store.DeleteKeepsIndex | scripts/store.py:102-105 | so does the delete trigger |
| Store.UpdateKeepsIndex | scripts/store.py:107-112 | and the update trigger |
| Store.IndexAnswersAsScan | scripts/store.py:407-423 | a one-term query on the index answers as a scan of all rows, and no posting is stale |
| Store.PeakIsMaximum | scripts/store.py:332-345 | the stored engagement is the largest figure seen, a missing one counting as zero |
| Store.PeakOfSeveral | scripts/store.py:332-345 | a finding seen again holds the largest of its figures, or 0 when it first came without one and none is larger |
| Store.SightAllKeepsSound | scripts/store.py:309-378 | a batch keeps URLs unique, every sighting counted and the engagement at its peak |
| Store.BatchKeepsFirstTexts | scripts/store.py:309-378 | after a batch every row has the texts it had, or those of the first finding of the batch with its URL, column by column, and the topic of the batch |
| Store.SightingMovesToRun | scripts/store.py:332-345 | the row a finding is about belongs to the run of the batch from then on, and no other row changes |
| Store.CompleteBatchIsStored | scripts/store.py:309-378 | a batch with resolving keys and figures never raises |
| Store.Database.AddTopic | scripts/store.py:181-206 | a new name gets a new id, a known one keeps its own |
| Store.Database.RecordRun | scripts/store.py:265-291 | a run is recorded exactly when its topic exists |
| Store.Database.StoreFindings | scripts/store.py:309-378 | a batch is stored whole, with the counts of new and updated findings, or not at all |
| Store.Database.StoreOne | scripts/store.py:320-367 | one finding: skipped, seen again, inserted or raising |
| Store.Database.UpdateFinding | scripts/store.py:426-435 | fails and changes nothing exactly when the new URL belongs to another finding |
| Store.Database.DismissFinding | scripts/store.py:448-450 | only the dismissed mark changes |
| Store.Database.DeleteFinding | scripts/store.py:438-445 | the finding and its sightings go, the rest stays |
| Store.Database.RemoveTopic | scripts/store.py:209-227 | fails and changes nothing exactly when a finding of another topic points at one of the topic's runs; otherwise its findings, runs and name go |
| Store.BorrowedAfterDeletion | scripts/store.py:221-222 | what is left points at the topic's runs exactly when a finding of another topic did |
| EventMerge.EventPool.RunQueriesParallel | scripts/lib/polymarket.py:154-182 | the shared dictionary after the completions in the order they arrive |
| EventMerge.MergingAll | scripts/lib/polymarket.py:172-180 | the dictionary holds, for every id, a contributed entry of least query index, and nothing else |
| EventMerge.MergeIsConfluent | scripts/lib/polymarket.py:165-180 | every completion order finds the same ids and keeps the same index for each |
| EventMerge.KeptIndexIsLeast | scripts/lib/polymarket.py:177-180 | from an empty pool the index kept is the least that returned the event |
| EventMerge.SecondPassOnlyAdds | scripts/lib/polymarket.py:211-225 | later-numbered queries leave every event already found as it was |
| EventMerge.FirstPassIsFinal | scripts/lib/polymarket.py:211-225 | so the second pass leaves whatever the first pass of a search found |
| EventMerge.MergeAllKeeps | scripts/lib/polymarket.py:165-180 | what is kept for an id is the first event with it of the first response that improves its index |
| EventMerge.EntryIsDeterminedIff | scripts/lib/polymarket.py:165-180 | every completion order keeps the same entry for an id if and only if the responses of least improving index agree on their first event with it |
| EventMerge.BodyDependsOnOrder | scripts/lib/polymarket.py:177-180 | which body is kept can depend on the order |
| Simulation.SimulatePipeline | src/lib/atomic-simulation.ts:59-145 | approved exactly when all the checks hold; the reason of the first that fails, with a non-positive amount first of all; the rounded fee, net and gas |
| Simulation.ReasonsGiven | src/lib/atomic-simulation.ts:33-121 | with these thresholds and schedules only four reasons are ever given: the gas threshold, the half-fee, the gas-above-amount and the negative-net checks never decide |
| Simulation.ReasonIff | src/lib/atomic-simulation.ts:88-121 | each of the four reasons is given exactly when its own check fails and those before it do not: the sign of the amount, the share of the fee, the last cent, the safety limit |
| Simulation.BankWireAmounts | src/lib/atomic-simulation.ts:33-50 | a bank wire is approved from 300, 500, 750 or 1500 dollars on, by action, up to the safety limit |
| Simulation.ApprovedIsAnInterval | src/lib/atomic-simulation.ts:33-121 | for each action and provider the approved amounts are exactly those from a least amount up to the safety limit, or none |
| Simulation.LargerAmountsStayApproved | src/lib/atomic-simulation.ts:88-121 | approval is upward closed below the safety limit |
| Simulation.RoundedIsClose | src/lib/atomic-simulation.ts:138-156 | the sum of n rounded nets is within half a cent times n of the exact sum |
| Simulation.SimulateSettlementChain | src/lib/atomic-simulation.ts:147-165 | stops after the first request that is not approved; the total is the sum of the rounded nets and within half a cent per step of the exact one |
| MergeController.Controller.Transition | orchestrator/fsm/controller.py:47-50 | moves exactly along the table, otherwise raises and stays |
| MergeController.Controller.ResumeMerging | orchestrator/fsm/controller.py:114-117 | resumes exactly from the suspended and degraded states |
| MergeController.Controller.AttemptRemoteMerge | orchestrator/fsm/controller.py:119-162 | one attempt, with its checkpoint given to the commit on every path that opened it, also when the commit raises |
| MergeController.Controller.TryPush | orchestrator/fsm/controller.py:129-159 | the state, journal and outcome of the try block under every push and every raise |
| MergeController.AttemptLeads | orchestrator/fsm/controller.py:119-162 | an attempt that may start adds to the journal, ends with its commit, and leaves the state and outcome that belong to its push: a lockout suspends, a rejection degrades, a success is final, an attempt cut short stays in merging |
| MergeController.RunsEndAsRecorded | orchestrator/fsm/controller.py:119-162 | in every run a suspended, degraded or finished controller is one whose last committed outcome says so |
| MergeController.StepKeepsInv | orchestrator/fsm/controller.py:114-162 | every call keeps the trail on the table and the journal well bracketed |
| MergeController.RunsAreSafe | orchestrator/fsm/types.py:16-21 | in every run states follow the table, every checkpoint is committed once before the next opens, and at most one push succeeds |
| MergeController.SuccessIsFinal | orchestrator/fsm/types.py:16-21 | after a successful push no call changes anything |
| Score.NormalizeTo100 | scripts/lib/score.py:87-117 | the figures are mapped onto 0..100 in their own order, linearly, least to 0 and greatest to 100, or all to 50 when they agree |
| Score.ScoreItems | scripts/lib/score.py:120-182 | every item gets the score of its normalised figure, within 0..100 |
| Score.ScoreIsMonotone | scripts/lib/score.py:145-180 | a higher relevance never lowers the score |
| Score.WeightsAreShares | scripts/lib/score.py:9-18 | each part alone at its maximum earns its own weight, 45, 25 and 30 or 60, 20 and 20, and together they earn 100 |
| Score.ScoreInHundredths | scripts/lib/score.py:144-180 | for relevances in whole percent the score is a weighted sum in whole hundredths, less what a missing figure and an uncertain date cost, rounded down and kept within 0..100 |
| Score.SortItemsIsStable | scripts/lib/score.py:724-757 | the sorted list is a permutation in the order of the four-part key, equal keys keeping their order |
| Score.SortedByFourKeys | scripts/lib/score.py:740-757 | down the list scores fall; among equal scores dates fall, then priorities rise, then texts rise |
| Score.PlaceIsCount | scripts/lib/score.py:740-757 | an item stands where as many items precede it as come before it in that order |
| Score.HigherScoreNeverMovesDown | scripts/lib/score.py:740-757 | a higher score, all else fixed, never moves an item down |
| Score.NormalisedIsUnique | scripts/lib/score.py:87-117 | the figures determine their normalised form |
| Score.RaisingChangesOneScore | scripts/lib/score.py:120-182 | raising the relevance of one item leaves every figure and every other item's score as it was, and never lowers its own |
| Score.HigherRelevanceNeverMovesDown | scripts/lib/score.py:120-182 | scoring a source again with the relevance of one item raised changes no other score and never moves that item down the list sorted with the other sources' items |

## Left out

- Real SHA-256, HMAC and HKDF, the environment key and its derivation: digests and signatures are free terms, keys are numbers.
- The JSON codec of ledger lines, including sorting of object keys: a whole line parses to itself, a strict prefix of it does not parse.
- Ledger.AuthoritativeLedger.ReadLastLine: does not model rows of foreign JSON, which the calls never write; the source would return them as lines.
- Ledger.AuthoritativeLedger.Verify: does not model rows of foreign JSON, on which the source may raise.
- Ledger.AuthoritativeLedger.AcquireLock: does not model other processes changing the lock during its attempts; `LedgerLock` does, step by step.
- The shape check of ledger event types: every known type has that shape, so it only chooses the error message.
- fsync, `verifyOrExit17`, reading all lines, and failing file operations of the ledger other than a crash inside a write.
- Workflow texts with carriage returns or Unicode line separators: the rewriter's own pattern does not match such lines; texts are sequences of parsed lines, and tabs count as two columns before a line is modelled.
- Workflow.AnalyzeWorkflow: does not model the file name and the kind of an offense, which are constants of a call.
- The raw text of a workflow line beyond its indentation and trimmed text: lines are kept or deleted whole.
- The discount 1/log2(i + 1) itself and floating point: any positive, strictly decreasing discount, exact reals.
- The remaining search metrics (jaccard, retention, precision, coverage) and the building of ranked lists: they would only add easy members.
- The velocity window, the approval callback, idempotency keys, the HTTP and payment clients: the gates answer arbitrarily, the provider accepts, refuses or is missing.
- Negative transfer amounts: the code does not reject them; the treasury limits are stated for runs without them.
- Text normalisation, n-grams and word splitting of near-duplicates: an item carries its grams and words.
- JSON decoding of stream events: a parameter that may answer anything.
- The thread pool of the balance client: each call is answered by an arbitrary function of its number and addresses, and the chunks are numbered in order.
- Balance tiers, CSV and JSON lines output, prints and timing of the scanner.
- Store.Database.AddTopic: does not model the query and schedule columns, which a repeated call overwrites.
- SQL execution, the stemming tokenizer, ranking and multi-term queries of the store; timestamps, relevance and source columns; run statistics.
- Store.Database.UpdateFinding: does not model changes of ids, foreign keys and counters through the generic field update, which no caller in the repository makes.
- The network side, text ranking and final order of merged search events.
- Simulation.SimulatePipeline: does not model slippage, the profitability score and the proof hash, on which neither approval nor the totals depend; nor provider strings that name a member inherited from the object prototype, such as "constructor": the table lookup finds that member, the fees are not numbers, and no fee check fails (`src/lib/atomic-simulation.ts:61`).
- Simulation.ApprovedIsAnInterval: does not cover those provider strings, for which every positive amount up to the safety limit is approved.
- The logarithmic engagement formulas and the other sources' weights and penalties of the scorer: figures arrive on their own scale, weights are parameters of the score.
- Git, patch export, redaction, the checkpoint store and the audit log of the merge controller: each succeeds or raises arbitrarily.
