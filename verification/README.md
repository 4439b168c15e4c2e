# Verification of testkit's decision-making cores

A Dafny model of the parts of testkit that decide something, and proofs about them:

- **The case scheduler** (`DispatchModel`, `DispatchQueue`, `DispatchWorld`, `DispatchSteps`, `DispatchModes`,
  `DispatchOrder`, `DispatchRuns`, `DispatchTheorems`, `DispatchLanes`, `DispatchVerdicts`, `DispatchCaps`,
  `DispatchSchedule`). `Queue` is the class with
  its arrays, window, taken bits and cursors; each method is proved to do to `State()` what a function of
  `DispatchModel` says. A `World` is that state with the tickets that are out, the log of those issued, and the place
  of each case; a behaviour is any interleaving of claims, completions and a stop. The theorems hold in every world of
  every behaviour; `DispatchSchedule` adds time to a behaviour and bounds when it ends.
- **The order of a plan** (`PlanOrder`).
- **The `.ctl` statement reader** (`CtlTables`, `CtlAutomaton`, `CtlSegments`, `CtlNormal`, `CtlFiles`, `CtlReader`) and the client's
  output (`CtlClient`).
- **The misspelling check and the failing-helper closure** (`EditDistance`, `CaseCheck`).
- **The JDK hash table, the category map and the summary tree** (`JavaHashtable`, `CategoryMap`, `SummaryTree`), and
  what the last two say together of a run's cases (`SummaryRun`).
- **Three protocols**: the settle of an HA side (`HaSettle`), the wait for a checkpoint (`CheckpointWait`), and the
  restart workload with its oracle (`RestartWorkload`).

`Prelude` has the sequence facts they share. `dafny verify dfyconfig.toml` checks the project.

## Assumptions

- Dispatch: the cases given to a queue are distinct, each slot has one worker and its own name, a ticket is completed
  once, and lanes and policies are set before the first claim. A `Case` carries its directory beside its path
  (`CaseAt` computes it). A headroom policy reads a meter that may answer anything to each question.
- In a behaviour with time a slot runs a case for as long as the case takes, whatever it runs beside, and claims again
  as soon as it is done; completing and claiming take no time.
- Time is a number that does not go back and advances by a poll when a loop sleeps; csb, statdump and the clients are
  arbitrary answers supplied to the state machines. In the checkpoint wait the clock is read twice a turn: behind the
  reading, and at the end. The counters of checkpoints are what began and ended less what was missed, and no more was
  missed than there was; a checkpoint that fails counts a start and no end.
- Numbers are unbounded integers, but for the 32-bit wrap of `String.hashCode`. The hash table's threshold is the
  exact floor of three quarters, which the original's 32-bit float gives at every size it can represent exactly.
- Bytes of `.ctl` files are 8-bit numbers; names and paths are strings of characters.
- In the restart workload a move whose row is not there changes nothing. An applier that fails on it instead shows in
  the fail counter, which makes the run missed, so the theorems on the table are then not needed.

## What the proofs found

- With lanes on and one worker to a slot the general retry queue is never used: the fallback for a departed owner is
  not reached (`NoGeneralRetry`).
- The comment on `damerau` says that every distance past 2 is reported as 3. For strings of lengths m and n that is so
  exactly when m and n are more than one apart or neither is past 3 (`PastTwoIsThree`); "aaaa" and "bbbb" give 4
  (`PastTwoIsNotThree`). The reports of misspellings do not depend on it (`OneIsOneEdit`).
- Reading a statement again is the identity when a semicolon ended it (`Reread`), and for the last statement of a file
  without one exactly when reading it does not end on a slash or dash the reader still holds (`RereadUnfinished`):
  "a/ " is read as "a/", and that as "a" (`SlashLost`). So a file read, written and read again gives the same
  statements exactly when none of them ends so (`NormaliseTwice`).
- The byte behind a slash or dash that opens no comment, and the one behind a closing single quote, open nothing: "/'" and
  "''" followed by a double quote start no string (`NextIsSegments`, where a statement is defined by its segments and not
  by the tables).
- White space behind a closing single quote is not folded: the byte right behind the quote is copied (`NormalForm`,
  `SpacesBehindQuote`).
- A settled HA side has its master as N1 exactly when the master is one of the two nodes the side knows
  (`FollowsMaster`), and its standby as N2 exactly when the two are these nodes (`RolesFollow`). The runner makes a
  side with two database nodes and a client; a reading that lists the client too is covered (`PairFollows`).
- What the success of a checkpoint wait is worth depends on its baseline: in every continuation it leaves none running
  exactly when the baseline is not ahead of what the counters have lost by now (`TrustedExactly`). With the gap as the
  stored offset, the watcher up, and some reading made in the wait that shows none running and nothing more lost, that
  is always so (`DoneAtGap`). That the checkpoint waited for ends in the wait is not enough: another that runs when
  the wait gives up is taken for a gap too (`AnotherRuns`). With a wait that has nothing to wait for, or such a
  reading, an offset past the gap hides a checkpoint running at the baseline (`StaleOffset`). One under the gap makes
  the wait take a gap whatever runs (`BelowTaken`), so that what runs when it gives up can be taken for one
  (`LateOffset`); only a wait that looks once is safe then (`OffsetExactly`). If a running checkpoint may outlast the
  wait, no stored offset is safe (`NoneWithout`).
- A watcher re-armed whose next reading fails keeps the old baseline, where the comment says it is taken again, and
  success can then come with a checkpoint running; this can happen exactly when more than one unreadable reading is
  allowed (`RearmedUnread`).
- The restart oracle sees a second INSERT always and a second move never (`HeldExactly`).
- The sums of a run are those of its cases exactly when no case's path names `Summary`, the key the tables keep for
  themselves, or goes on below another case's directory; otherwise they are less (`CountedExactly`, `RunSummary`).
- A path that goes on below an earlier case's directory by the name `Summary` leads `build` to a level that is nil:
  there is no category map exactly then (`Build`).

## Model

| member | source | states |
|---|---|---|
| DispatchModel.LastCases | internal/dispatch/dispatch.go:131-136 | the last place of the cases segment, or that there is none |
| DispatchModel.DirOfCase | internal/dispatch/dispatch.go:128-136 | every case of a cases directory is of that directory, whatever stands above it |
| DispatchQueue.Queue.constructor | internal/dispatch/dispatch.go:139-152 | a new queue has every case waiting, nothing out and no lanes |
| DispatchQueue.Queue.Assign | internal/dispatch/dispatch.go:161-171 | lanes by directory turn affinity on, the taken bits deciding what waits from then on; nothing else changes; the cursors stay sound if no lane was scanned |
| DispatchQueue.Queue.Affinity | internal/dispatch/dispatch.go:181-185 | affinity without lanes, the taken bits deciding what waits from then on |
| DispatchQueue.Queue.Policy | internal/dispatch/dispatch.go:229-233 | sets the hard and the soft rule, nothing else |
| DispatchQueue.Queue.Admit | internal/dispatch/policy.go:64-71 | the loops of the policies decide what the rules mean, conjunction, heavy count and headroom |
| DispatchQueue.Queue.ScanPolicy | internal/dispatch/dispatch.go:270-284 | finds the first waiting case both rules admit, or none |
| DispatchQueue.Queue.Admissible | internal/dispatch/dispatch.go:245-266 | both rules first, then the hard one, then anything when nothing runs |
| DispatchQueue.Queue.Take | internal/dispatch/dispatch.go:287-294 | shifting the window up removes that case and keeps the others in order; the prefix before the window stays |
| DispatchQueue.Queue.StopRunning | internal/dispatch/dispatch.go:301-308 | drops the first entry of a case from the running list, if it is there |
| DispatchQueue.Queue.FindInLane | internal/dispatch/dispatch.go:400-404 | the cursor gives the case a scan from the start would give |
| DispatchQueue.Queue.Scan | internal/dispatch/dispatch.go:400-420 | the first untaken case of the lane, its directory owned and the rest of it kept for the slot |
| DispatchQueue.Queue.TakeAt | internal/dispatch/dispatch.go:405-416 | taking a case takes its whole directory out of the waiting cases and keeps the rest in order |
| DispatchQueue.Queue.HoldRest | internal/dispatch/dispatch.go:408-415 | the untaken cases of the directory behind a position are kept, in order, and marked |
| DispatchQueue.Queue.Enqueue | internal/dispatch/dispatch.go:446-469 | a retry goes to its owner's list, or to the general queue, once |
| DispatchQueue.Queue.ClaimHeld | internal/dispatch/dispatch.go:336-343 | the first kept case, with its retry number |
| DispatchQueue.Queue.FindRetry | internal/dispatch/dispatch.go:372-376 | the first retry the claimant's lane may take |
| DispatchQueue.Queue.ClaimRetry | internal/dispatch/dispatch.go:377-380 | hands out that retry and takes it off the queue |
| DispatchQueue.Queue.TakeWindow | internal/dispatch/dispatch.go:344-354 | what lanes off gives of the first pass: the admissible case, or nothing |
| DispatchQueue.Queue.ClaimWindow | internal/dispatch/dispatch.go:344-384 | a claim with lanes off |
| DispatchQueue.Queue.TakeLane | internal/dispatch/dispatch.go:355-358 | what lanes on gives of the first pass |
| DispatchQueue.Queue.ClaimLane | internal/dispatch/dispatch.go:355-384 | a claim with lanes on |
| DispatchQueue.Queue.ClaimQuiet | internal/dispatch/dispatch.go:359-384 | a retry when nothing is out, or the slot departs |
| DispatchQueue.Queue.ClaimOnce | internal/dispatch/dispatch.go:329-385 | one claim under the lock: the whole new state and the answer |
| DispatchQueue.Queue.Complete | internal/dispatch/dispatch.go:428-444 | one completion: the whole new state, and whether the case is tried again |
| DispatchQueue.Queue.Stop | internal/dispatch/dispatch.go:524-528 | stops the queue, nothing else |
| DispatchQueue.Queue.AllTaken | internal/dispatch/dispatch.go:488-493 | every bit is taken exactly when no case waits |
| DispatchQueue.Queue.Drained | internal/dispatch/dispatch.go:476-494 | stopped, or nothing for a newcomer to claim: no case waits and no retry is in the general queue; a slot may still keep cases |
| DispatchQueue.Queue.Finished | internal/dispatch/dispatch.go:497-520 | stopped, or drained, nothing kept for any slot, and nothing out |
| DispatchRuns.StepInv | internal/dispatch/dispatch.go:329-469 | every claim, completion and stop keeps the invariant of the scheduler |
| DispatchRuns.Invariant | internal/dispatch/dispatch.go:66-469 | the invariant holds in every world of every behaviour |
| DispatchTheorems.EachCaseInOnePlace | internal/dispatch/dispatch.go:66-128 | each case is waiting, kept for one slot, queued for a retry, running on one slot or settled, and only one of these; no list has a case twice; inFlight counts the tickets out |
| DispatchTheorems.TicketsNumbered | internal/dispatch/dispatch.go:56-64 | the tickets of a case are numbered 0, 1, 2, ... with no gap, and none past the retries allowed |
| DispatchTheorems.TicketsBounded | internal/dispatch/dispatch.go:428-444 | at most cases times (maxRetry + 1) tickets are issued in any run |
| DispatchTheorems.NothingStranded | internal/dispatch/dispatch.go:359-384 | once every slot was told there is no more the queue is finished and every case was tried and is settled |
| DispatchTheorems.NoDeadlock | internal/dispatch/dispatch.go:317-325 | no claimant waits while no ticket is out |
| DispatchTheorems.WindowClaim | internal/dispatch/dispatch.go:344-384 | with lanes off a claim takes the admissible case or leaves the first pass alone, and a retry comes with none waiting and none out |
| DispatchTheorems.QuietRetries | internal/dispatch/dispatch.go:344-382 | with lanes off a retry is issued with nothing out and every case tried |
| DispatchTheorems.FirstPassFirst | internal/dispatch/dispatch.go:344-382 | with lanes off no first attempt follows a retry, and a retry runs alone |
| DispatchTheorems.DirectoryOnOneSlot | internal/dispatch/dispatch.go:400-420 | with lanes on the tickets of a directory go to one slot and its first attempts come in corpus order |
| DispatchTheorems.DirectoryExhausted | internal/dispatch/dispatch.go:336-358 | a slot given a new directory has settled every case of those it had |
| DispatchTheorems.NoGeneralRetry | internal/dispatch/dispatch.go:446-469 | with lanes on no retry reaches the general queue |
| DispatchTheorems.RulesHeld | internal/dispatch/dispatch.go:245-284 | the hard rule is crossed only with no ticket out, the soft one only when no waiting case meets both |
| DispatchTheorems.WaitsOnlyRefused | internal/dispatch/dispatch.go:344-354 | a claimant is told to wait exactly when lanes are off, a ticket is out, cases wait, and neither both rules nor the hard one admit any of them |
| DispatchLanes.ServedFromItsLane | internal/dispatch/dispatch.go:386-420 | with lanes on every ticket, retries included, goes to a slot that takes any lane or the lane of the case's directory, the fast one where none is named |
| DispatchLanes.HandedFromItsLane | internal/dispatch/dispatch.go:355-358 | with lanes on a slot with nothing kept is handed the first waiting case of its lane in that sense, and told there is no more exactly when none waits |
| DispatchVerdicts.FinishSettles | internal/dispatch/dispatch.go:428-444 | the end of a ticket settles its case exactly when it passed, dumped core or was the last attempt allowed; otherwise the case is kept or queued |
| DispatchVerdicts.DecidedForGood | internal/dispatch/dispatch.go:428-444 | after such an end no ticket of the case is issued any more |
| DispatchVerdicts.TriedAgain | internal/dispatch/dispatch.go:428-469 | after any other failure the case waits until a further ticket of it is issued |
| DispatchVerdicts.SettledMeans | internal/dispatch/dispatch.go:428-444 | a case is settled exactly when such an end came |
| DispatchVerdicts.AllDecided | internal/dispatch/dispatch.go:359-384 | once every slot was told there is no more, each case's last ticket ended so |
| DispatchVerdicts.FinishedExactly | internal/dispatch/dispatch.go:497-520 | a run is finished exactly when it was stopped or every case is settled |
| DispatchVerdicts.DrainedExactly | internal/dispatch/dispatch.go:476-494 | it is drained exactly when it was stopped or no case is unclaimed or in the general retry queue |
| DispatchVerdicts.StoppedForGood | internal/dispatch/dispatch.go:329-335 | after a stop no ticket is issued and every claimant is told there is no more |
| DispatchTheorems.DrainedForNewcomer | internal/dispatch/dispatch.go:471-494 | a slot with nothing kept that takes any lane is turned away exactly when the queue is drained, or no case waits and some run, retries queued or not |
| DispatchCaps.CapsAdmit | internal/dispatch/policy.go:119-130 | a rule with a heavy cap in it refuses a heavy case past the cap |
| DispatchCaps.HeavyCapHolds | internal/dispatch/policy.go:86-130 | with a heavy cap in the hard rule never more than max heavy cases hold a ticket, or one if max is less, retries included |
| DispatchCaps.PoliciesMean | internal/dispatch/policy.go:64-175 | what each policy lets start: the number of heavy cases that run, and the gauge's percentage, written out |
| DispatchCaps.HeadroomHolds | internal/dispatch/dispatch.go:245-266 | a hard rule that asks for headroom starts a case beside others only when the gauge read it |
| DispatchCaps.FirstAttemptsInOrder | internal/dispatch/dispatch.go:245-294 | with no policy and no lanes first attempts are issued in the queue's order |
| DispatchCaps.NoneIdle | internal/dispatch/dispatch.go:344-354 | with no policy and no lanes a claim is given the first waiting case at once |
| DispatchSchedule.NextIsSpent | internal/dispatch/dispatch.go:317-354 | in a run in time a slot's next event is due when its tickets have taken their time: no slot idles |
| DispatchSchedule.NothingLost | internal/dispatch/dispatch.go:287-294 | the time of the first attempts and of what waits is that of the corpus |
| DispatchSchedule.ListSchedulingBound | internal/plan/plan.go:3-10 | with no policy and no lanes, in any order of the queue, m slots have every first attempt over by (total + (m - 1) * longest) / m |
| PlanOrder.Order | internal/plan/plan.go:165-187 | a permutation of the cases, in the plan's order, or as they came when there is no plan |
| PlanOrder.OrderDetermined | internal/plan/plan.go:163-187 | the order depends on which cases there are and not on how they came |
| PlanOrder.LongestFirst | internal/plan/plan.go:156-162 | unmeasured cases come first, then the durations do not increase, and cases alike come in the order of their names |
| PlanOrder.BeforeExactly | internal/plan/plan.go:171-185 | names are in the order of their first different character, a prefix first |
| PlanOrder.SoonerTotal | internal/plan/plan.go:171-185 | of two different cases exactly one is sooner |
| PlanOrder.SoonerTransitive | internal/plan/plan.go:171-185 | sooner is transitive |
| CtlAutomaton.NextMeans | internal/ctl/parse.go:66-129 | the next statement is what the scan had written when it first accepted, or at the end of the input |
| CtlAutomaton.AfterRereads | internal/ctl/tables.go:57-85 | how the scan of a statement stands to the scan of what it has written so far, state by state |
| CtlAutomaton.Reread | internal/ctl/parse.go:66-129 | a statement ended by a semicolon, read again, is that statement and nothing behind it |
| CtlSegments.NextIsSegments | internal/ctl/tables.go:9-85 | the next statement of any input without the tables: the bytes taken are plain bytes, white space, comments, strings with their escapes, and a slash or dash with the byte behind it, the last and no other a plain semicolon; it is what these keep, comments and white space as one space; else the rest of the input, so far as it is kept |
| CtlSegments.EndedIsClosed | internal/ctl/parse.go:66-129 | a semicolon ended a statement exactly when its bytes are such segments |
| CtlNormal.StatementShape | internal/ctl/parse.go:63-129 | a statement is no longer than the bytes it took, does not start with white space, and ends in a semicolon unless the input ended |
| CtlNormal.NormalForm | internal/ctl/tables.go:57-85 | in a statement no comment is left, and white space outside strings is one space between two other bytes, but right behind a closing quote |
| CtlFiles.NormaliseTwice | internal/ctl/parse.go:132-142 | reading a file, joining its statements and reading those gives the same statements exactly when no statement ends on a byte the reader still holds |
| CtlFiles.RereadUnfinished | internal/ctl/parse.go:63-95 | exactly when a last statement without a semicolon is read again as itself |
| CtlFiles.SlashLost | internal/ctl/parse.go:63-95 | the input on which it is not |
| CtlFiles.SpacesBehindQuote | internal/ctl/tables.go:57-85 | two spaces behind a closing quote stay two |
| CtlReader.Reader.FillLine | internal/ctl/parse.go:46-60 | the bytes up to a newline, the buffer's size or the end |
| CtlReader.Reader.LineOfOffset | internal/ctl/parse.go:38-61 | the line count is the number of the read that holds the last byte a statement took |
| CtlReader.Reader.ReadRaw | internal/ctl/parse.go:43-61 | a read goes on where the last one stopped and counts, at the end too |
| CtlReader.Reader.ScanLine | internal/ctl/parse.go:97-127 | the scan over the buffer is the pass over the same bytes |
| CtlReader.Reader.Next | internal/ctl/parse.go:66-129 | the buffered reader's next statement, from where it stopped, is that of one pass over the rest of the input |
| CtlReader.Reader.Switch | internal/ctl/parse.go:99-122 | the switch on the action does one step of the automaton |
| CtlReader.Statements | internal/ctl/parse.go:132-142 | the statements do not depend on the lines the input is cut into |
| CtlClient.UnwrapWrapped | internal/ctl/client.go:154-167 | the chunk can be read back from what is shown |
| CtlClient.WrapInjective | internal/ctl/client.go:154-167 | no two chunks are shown alike |
| CtlClient.MarkersWrapped | internal/ctl/client.go:136-150 | wrapping makes no ready marker and breaks none |
| CtlClient.Wrap | internal/ctl/client.go:157-167 | the loop shows the chunk with a bar before it and before each line behind a newline that is not its last byte |
| CtlClient.Client.Send | internal/ctl/client.go:93-104 | a statement sent sets what is expected |
| CtlClient.Client.Account | internal/ctl/client.go:139-150 | the loop takes off as many as there are markers, and the client is ready if that passes zero |
| CtlClient.Client.ReadOutput | internal/ctl/client.go:112-151 | a read shows the chunk up to a NUL and accounts for the markers of the raw chunk |
| EditDistance.DistanceIsLeastCost | internal/casecheck/casecheck.go:278-309 | the recurrence is the least cost of an alignment by insertions, deletions, substitutions and swaps of neighbours |
| EditDistance.FillRow | internal/casecheck/casecheck.go:293-304 | a row filled in place from the two above it is the next row of the recurrence |
| EditDistance.Damerau | internal/casecheck/casecheck.go:280-309 | the three rolling rows give the distance, and 3 where the lengths are more than one apart |
| EditDistance.LengthsApart | internal/casecheck/casecheck.go:284-286 | lengths more than one apart are a distance past 1 |
| EditDistance.OneIsOneEdit | internal/casecheck/casecheck.go:237-252 | 1 is reported exactly when one insertion, deletion, substitution or swap of neighbours turns one string into the other |
| EditDistance.PastTwoIsThree | internal/casecheck/casecheck.go:278-286 | the lengths for which every distance past 2 is reported as 3: more than one apart, or both at most 3 |
| EditDistance.PastTwoIsNotThree | internal/casecheck/casecheck.go:278-286 | a distance past 2 that is not |
| CaseCheck.Pass | internal/casecheck/casecheck.go:162-176 | one pass over the helpers, in any order, adds only helpers the closure has, and something unless it is closed |
| CaseCheck.FailingHelpers | internal/casecheck/casecheck.go:156-177 | the loop ends with the least set that has the failing helpers and every helper that calls one |
| CaseCheck.LeastIsOne | internal/casecheck/casecheck.go:156-177 | there is one such set, whatever the order |
| CaseCheck.LeastIsReachable | internal/casecheck/casecheck.go:156-177 | a helper is in it exactly when a chain of calls leads from it to one that fails |
| CaseCheck.TyposAre | internal/casecheck/casecheck.go:237-252 | a word is reported exactly when it has five letters or more, is defined nowhere and is one edit from a verdict |
| CaseCheck.Misspelt | internal/casecheck/casecheck.go:237-252 | one report for each word of five letters or more, defined nowhere, one edit from a verdict, in the order of the words and with the first such verdict |
| JavaHashtable.ComputeHash | internal/result/jhashtable.go:33-40 | the loop over code units is the 32-bit polynomial hash |
| JavaHashtable.HashIsPolynomial | internal/result/jhashtable.go:33-40 | the hash is the sum of the code units times powers of 31, modulo 2 to the 32 |
| JavaHashtable.UnitsDecode | internal/result/jhashtable.go:36 | a character's code units give it back |
| JavaHashtable.TopDown | internal/result/jhashtable.go:85-94 | the order of iteration goes from the top bucket down |
| JavaHashtable.Table.constructor | internal/result/jhashtable.go:29-31 | an empty table of eleven buckets |
| JavaHashtable.Table.Get | internal/result/jhashtable.go:46-54 | the value last put, or none |
| JavaHashtable.Table.Put | internal/result/jhashtable.go:56-70 | the map gains the pair; the size grows only for a new key past the threshold; the pair stands where its key stood or at the head of its bucket, and nothing else moves but by the rehash |
| JavaHashtable.Table.Rehash | internal/result/jhashtable.go:72-83 | the map is kept, the size doubles and one, and each new bucket is the old order of iteration restricted to it, reversed |
| JavaHashtable.Table.Keys | internal/result/jhashtable.go:85-94 | each key once, in the order of iteration |
| JavaHashtable.Grown | internal/result/jhashtable.go:64-76 | sizes are 12 * 2^k - 1 with thresholds 9 * 2^k - 1, and a rehash always makes room |
| JavaHashtable.RehashKeeps | internal/result/jhashtable.go:77-82 | what a rehash leaves is sorted by bucket and holds the same pairs |
| JavaHashtable.MoveAll | internal/result/jhashtable.go:77-82 | the loop that moves the entries reverses each bucket's share of the old order |
| SummaryTree.Records.Walk | internal/result/sql.go:576-646 | the walk with one shared path does what the model of it says, the path it leaves included |
| SummaryTree.TruePaths | internal/result/sql.go:572-646 | whatever the shared path holds before, every level's summary has its own true path |
| SummaryTree.SummaryCounts | internal/result/sql.go:585-596 | a summary's numbers are how many cases it holds, how many of them ran and passed, how many ran and did not, and the time of those that ran |
| SummaryTree.SummaryOnlyInside | internal/result/sql.go:613-616 | a level gets a summary exactly when it is a directory of cases or its directory has the run's name in it |
| SummaryTree.AllCounted | internal/result/sql.go:580-603 | of any tree and any order of the tables: a summary holds every case below it once when no directory of cases has cases below it and no child named as the table's own key has any; otherwise fewer |
| SummaryTree.ReportComplete | internal/result/sql.go:933-949 | the report lists each case of the summary that ran, once, however the tables of children iterate |
| SummaryTree.Report.Walk | internal/result/sql.go:933-949 | the walk over the summaries appends the cases it lists |
| SummaryTree.TokensOfDir | internal/result/sql.go:597-612 | splitting a directory at its slashes undoes joining its path |
| CategoryMap.RecordPlaced | internal/result/sql.go:222-236 | recording a case keeps every level where its path is |
| CategoryMap.RecordAll | internal/result/sql.go:222-237 | recording a case adds it and loses none |
| CategoryMap.Build | internal/result/sql.go:202-239 | the map of a run has its levels at their paths, the first case of each file once, and cases on no other path; there is none exactly when a path goes on below an earlier case's directory by the table's own key |
| SummaryRun.CountedExactly | internal/result/sql.go:576-634 | all cases of a map are counted exactly when no path to cases passes a directory of cases or the table's own key |
| SummaryRun.TallyPermutes | internal/result/sql.go:585-596 | the numbers do not depend on the order of the cases |
| SummaryRun.RunSummary | internal/result/sql.go:572-646 | of a run's cases: the root's summary has the run's directory, the numbers of its cases and a report of as many as passed and failed; these are the numbers of the first case of each file, with a report of each that ran once, when no path hides another; otherwise the total is less |
| HaSettle.HaRoles | internal/perf/cluster.go:333-354 | the loop sorts the database nodes of a cluster by role, in order |
| HaSettle.Side.SwapRoles | internal/perf/cluster.go:369-380 | the names change places, the pair follows, the offset is forgotten |
| HaSettle.Side.StartDown | internal/perf/cluster.go:305-318 | one reading starts exactly the nodes due for the first time, unless a start fails |
| HaSettle.Side.Look | internal/perf/cluster.go:287-319 | one reading: the end it calls for, or what is remembered of it |
| HaSettle.Side.Settle | internal/perf/cluster.go:278-328 | the loop ends in time, its starts and its end are those the readings make, and the side follows the master or is left as it was |
| HaSettle.StartedOnce | internal/perf/cluster.go:271-277 | a node is started once at most, down in two readings running with one active node and its container live, and is never that active node |
| HaSettle.DueIsStarted | internal/perf/cluster.go:305-318 | a node due in a turn the loop got past has been started |
| HaSettle.EndsMean | internal/perf/cluster.go:287-304 | the loop ends calm at the first settled reading, and in an error for two active nodes only when two readings in a row that could be completed show two |
| HaSettle.SettledMeans | internal/perf/cluster.go:297-303 | a reading settles exactly when it calls one database node active and one standby, both registered |
| HaSettle.StartsMean | internal/perf/cluster.go:305-318 | a node is started only in a reading that shows one active node and it down and live, as the one before showed it down |
| HaSettle.DownMeans | internal/perf/cluster.go:339-351 | a node is down when csb says nothing, or unknown, of its role |
| HaSettle.EndsInTime | internal/perf/cluster.go:320-327 | the loop goes on only within the bound and uncancelled, and times out only past it |
| HaSettle.RunDetermined | internal/perf/cluster.go:278-328 | the readings decide how many turns a settle takes, what it starts and how it ends |
| HaSettle.FollowsMaster | internal/perf/cluster.go:297-302 | N1 is the master afterwards exactly when the master is N1 or N2 |
| HaSettle.RolesFollow | internal/perf/cluster.go:297-302 | N1 is the active node and N2 the standby exactly when these are the side's two nodes |
| HaSettle.PairFollows | internal/perf/cluster.go:297-302 | on a side of two database nodes, whatever else is listed, N1 is the active node and N2 the standby |
| CheckpointWait.Wait | internal/perf/fixture.go:421-547 | the wait ends in time, as a run of its turns ends, with that outcome and that offset |
| CheckpointWait.OneRun | internal/perf/fixture.go:421-547 | the readings make one run, so one outcome and one offset |
| CheckpointWait.WaitRunning | internal/perf/fixture.go:476-495 | the wait for a checkpoint running at the baseline, and the offset taken of one that does not end |
| CheckpointWait.WaitEnded | internal/perf/fixture.go:499-546 | the wait for the checkpoint asked for |
| CheckpointWait.Judge | internal/perf/fixture.go:505-539 | what one reading does: shrink, move the baseline, ask again, give up or succeed |
| CheckpointWait.UnreadableExactly | internal/perf/fixture.go:515-534 | the wait ends as unreadable exactly when, since the last clean reading or the request that began it, as many readings as allowed could not be read and this is one; a readable one behind a watcher re-armed does not interrupt the count |
| CheckpointWait.UnreadExactly | internal/perf/fixture.go:447-452 | only a first reading that cannot be read ends the wait with a checkpoint asked for and not waited for |
| CheckpointWait.BoundHeld | internal/perf/fixture.go:541-546 | the wait goes on only within the bound and gives up as not ended only past it |
| CheckpointWait.AskedAgain | internal/perf/fixture.go:515-540 | exactly when a request goes out again |
| CheckpointWait.ErrorMeans | internal/perf/fixture.go:444-540 | a wait ends in an error only when a reading, a request or a sleep failed, and always when a reading did |
| CheckpointWait.IdleSeen | internal/perf/fixture.go:509-514 | once a reading of the wait showed none running its success can be believed, whatever ran at the baseline before |
| CheckpointWait.DoneSinceBase | internal/perf/fixture.go:566-568 | success with the watcher up since the baseline: one has begun and one has ended since, and one runs now only if one ran then |
| CheckpointWait.BaseIdle | internal/perf/fixture.go:459-495 | with the watcher up one runs at the baseline only if the stored offset was past the gap or a gap was taken |
| CheckpointWait.TrustedExactly | internal/perf/fixture.go:499-539 | of a wait that has asked, its watcher up since the baseline: success is true in every continuation exactly when the baseline is not ahead of what the counters have lost by now |
| CheckpointWait.TakenExactly | internal/perf/fixture.go:474-495 | a gap is taken exactly when every readable reading made while the wait for a running checkpoint lasts is ahead of the offset known at the first |
| CheckpointWait.BelowTaken | internal/perf/fixture.go:474-495 | with the stored offset under the gap one is always taken |
| CheckpointWait.DoneAtGap | internal/perf/fixture.go:392-410 | with the gap stored, the watcher up, and a reading in the wait that shows none running and nothing more lost: success leaves none running, one begun since ended, and the offset as it was |
| CheckpointWait.OffsetExactly | internal/perf/fixture.go:392-410 | over all histories whose wait has nothing to wait for or sees it end, a stored offset is safe exactly when it is the gap, or is under it and the wait looks only once |
| CheckpointWait.StaleOffset | internal/perf/fixture.go:459-466 | for every offset past the gap such a history on which success comes with one running |
| CheckpointWait.LateOffset | internal/perf/fixture.go:484-495 | for every offset under the gap, when the wait looks again, such a history on which success comes with one running |
| CheckpointWait.AnotherRuns | internal/perf/fixture.go:474-495 | with the gap stored and the checkpoint waited for over in the wait, success can still come with one running, exactly when the wait looks twice |
| CheckpointWait.NoneWithout | internal/perf/fixture.go:484-495 | with nothing asked of the history no stored offset is safe |
| CheckpointWait.OffsetLearned | internal/perf/fixture.go:459-466 | success leaves an offset no more than the gap and what runs |
| CheckpointWait.RearmedUnread | internal/perf/fixture.go:509-528 | a watcher re-armed and then not read leaves a stale baseline, and success with one running that did not run at it; possible exactly when more than one unreadable reading is allowed |
| RestartWorkload.KeysAre | internal/haapply/restart.go:29-42 | the keys in numbers |
| RestartWorkload.KeysApartExactly | internal/haapply/restart.go:32-37 | no fresh or moved key of any client is another's exactly while keys go no further than the shift |
| RestartWorkload.UnmovedExactly | internal/haapply/restart.go:39-42 | the query tells fresh keys from moved ones exactly while keys stay under the shift |
| RestartWorkload.WithinCaps | internal/haapply/cmd.go:622-628 | within the caps the keys are apart and fit the column |
| RestartWorkload.RestartScript | internal/haapply/restart.go:60-72 | a client's script: each key inserted, then moved |
| RestartWorkload.OnceIsSchedule | internal/haapply/restart.go:19-27 | any interleaving of the scripts has each operation once, each key's insert first |
| RestartWorkload.KeyIs | internal/haapply/restart.go:19-27 | where a key is, by how often it was inserted and whether it was moved, when nothing was refused |
| RestartWorkload.NothingRefused | internal/haapply/restart.go:119-123 | without a second insert nothing is refused, whatever is moved again |
| RestartWorkload.AppliedOnce | internal/haapply/restart.go:19-42 | any interleaving applied once leaves clients times iterations rows, all moved |
| RestartWorkload.AtTheEnd | internal/haapply/restart.go:39-42 | with nothing refused the table is the moved keys and each key inserted again, which are the unmoved ones |
| RestartWorkload.SlaveTable | internal/haapply/restart.go:126-143 | a second insert is a refusal or rows too many, as many as are unmoved |
| RestartWorkload.VerdictsExactly | internal/haapply/restart.go:126-143 | what each verdict asks for: an applier that failed or a refusal is missed, a stalled slave says nothing, and held or inconclusive is what is left |
| RestartWorkload.NeverHeld | internal/haapply/restart.go:133-143 | a run in which an INSERT was applied again is never held, and missed when the log is whole |
| RestartWorkload.HeldExactly | internal/haapply/restart.go:126-143 | of a slave that caught up held says that no INSERT was applied again, and missed is never said without cause |

## Left out

- Namespaces, mounts, signals, cgroups and `/proc`: effects on a kernel that has no model here.
- Running commands, SSH, csb, csql, statdump and the logs: their answers are arbitrary inputs.
- The action `copyInputAndInsertWS`: the table never has it.
- Goroutines and wall-clock sleeps: a claim, a completion and a stop are atomic steps, as the queue's mutex makes them;
  the loop of `ClaimFor` that sleeps on an answer to wait is the repetition of such steps.
- Command lines, usage, status pages, ledgers, CSV, JSON and XML text: formatting.
- `NextCompound`, `Classify` and the other small parsers: single loops that would only add easy members.
- The transaction index and the warnings of `readOutput`, and `readError`: they do not touch what is expected.
- `ReadHelpers` up to the closure, and `commandWords`: regular expressions over shell text; the calls and the words are
  inputs.
- Floating-point statistics of `internal/perf/judge.go`, and the validation of manifests and configuration.
- `Record` and `Continue` of `internal/plan`: one assignment to a map each.
- `sort.SliceStable`: Order sorts by insertion; the order it must meet has one result, so any sort gives it.
- HaSettle.Side.Settle: `csb node start` answers yes or no for each name and turn; its own time limit is part of that answer.
- HaSettle.RoleOf: folds the case of ASCII letters only.
- CheckpointWait.Wait: the notes are not modelled but for the offset taken, which the state keeps; deadlines are numbers of the configuration.
- SummaryTree.Records.Walk: `siteRunTimes`, `catPath` and the name of the last summary are left out. The tables of a level and of a summary's children iterate in any order, which a put may change as a whole.
- CategoryMap.Build: the map is a value and not a tree updated in place; the names on a case's path are inputs, non-empty and without a slash, since `cutCases` and the split are text. A level below a directory of cases that the table's own key replaces stays in the map, where nothing reads it.
- DispatchQueue.Queue.Assign: called after a lane was scanned it can leave a cursor past an untaken case of its new lane; the methods that claim ask for cursors that are not.
- CtlClient.Client.Send: the write to the client and its failure are not modelled.
- CtlClient.Client.ReadOutput: the header line, the transaction index and the read itself are not modelled; the chunk is an input.
- DispatchSchedule.ListSchedulingBound: bounds the first attempts; retries run alone behind them.
- DispatchTheorems.EachCaseInOnePlace: a queue given a case twice is not covered.
- DispatchTheorems.NothingStranded: asks that every case with lanes on has a slot whose lane may take it, and that the run was not stopped.
