# A Dafny model of the cluster agent's protocols, parsers and loops

The cluster agent builds images, runs one-shot jobs and serves a control stream inside a Kubernetes cluster.
This project models the parts of it whose correctness is an argument about interleavings, index arithmetic or
round trips, and proves that argument. Shared-state protocols are state machines whose steps are the critical
sections, database calls and channel operations of the source, taken by any number of goroutines in any order;
the theorems speak about every state of every run. The in-place code itself is written as classes and methods
with loops, proved against the functions the machines use.

| module | what it is about |
|---|---|
| `DrainTracker` | the in-flight work tracker: begin, end, drain, hold, release |
| `BuildRows` | the build-row table, the transaction that closes open rows, the startup retry loop |
| `Lifecycle` | whole lives of the agent over crashes and restarts, on top of the two above |
| `Tokens` | single-use tokens, and the handlers that spend them or start work |
| `BuildSlots` | the cap on concurrent builds |
| `Correlation` | request/response correlation on the control stream, with replies, timeouts and disconnects |
| `Backoff` | the reconnect schedule in 64-bit arithmetic and the reconnect loop |
| `Datastore` | the self-healing database loop with faults between any two steps |
| `Dotenv` | the dotenv reader against a printer |
| `DiffScan` | the diff scan of the leak check |
| `GitDiff` | git diffs, the lines git shows for them, and the new files they make |
| `DiffFiles` | the scan of rendered diffs, line by line and file by file |
| `DiffExact` | when the scan is exact |
| `Baseline` | the leak check's baseline file and its pass/fail ratchet |
| `Paths` | lexical resolution of manifest references inside a clone |
| `OneShot` | how the outcome of a one-shot run is decided |
| `Dsn` | PostgreSQL connection strings against a reader of them |
| `Schema` | grouping of schema rows into tables |
| `ImageRefs` | the image output argument against a CSV reader, and cache references |
| `GoStrings`, `TextLines`, `Decimals`, `PythonDigits`, `Options` | string operations, lines as Python cuts them, numerals, the digits Python knows, and optional values the others share |

Conventions: an operation the source leaves to a library enters either as a small explicit definition
(`filepath.Clean`, `strings.Split`, `str.splitlines`, a channel) or as a choice the environment makes (whether
a query works, whether its answer arrives, which snapshot a poll reads, what the clock says). Integers are
unbounded except in `Backoff`, where the 64-bit product is wrapped explicitly. A raw token stands for its hash.

Some properties one would expect hold only under a condition, and are stated with it:

- `str.splitlines` also breaks lines inside their text, and the pieces behind such a break reach the diff scan
  as lines of their own. File by file, the scan hands on exactly the added lines that are not skipped if and only
  if (a) every file that is not skipped and adds lines has both names shown plainly and unbroken, the new one
  without trailing white space, (b) every other file that adds lines is read under a name that is not scanned,
  which for a quoted name is the name as shown, and (c) none of those added lines is broken (`FileExactIff`,
  `ScanDiffExactIff`). This supposes that the pieces behind the breaks of all other lines are harmless: none in
  a file header looks like a header line, none below it starts with `+`, a space or `diff --git` or is a hunk
  header in decimal digits of any script, and those in the lines of an unscanned file hand nothing on by
  themselves and leave the scan neither in a header nor on a path that is scanned. The supposition about the
  lines of hunks is exact: a deleted or context text that breaks it spoils some scanned file (`HarmlessTextIff`,
  `DeletedLineHidesToken`, `DeletedLineMovesNumber`), and one that breaks the last part makes some unscanned
  file hand something on (`UnscannedTextIff`).
- The workdir guard is the containment test if and only if the workdir is neither `/` nor `.`
  (`GuardIsContainmentIff`).
- A written baseline loads back if and only if its keys are well formed (`BaselineRoundTripIff`).
- References of one repository share the cache reference if and only if the tag holds no colon and no slash
  (`CacheRefIsSharedIff`); a single image reference reads back if and only if it holds no line feed
  (`OutputArgRoundTripIff`).
- A row of the token table is spent at most once in every run. A token value is, if and only if it is never made
  twice (`SingleUseIffFresh`), and an upload can mark a pull token or the other way round if and only if a value
  was made as both (`CrossesIffMixed`). The agent draws token values at random, so that none is made twice.

The signature by which the datastore tells targets apart joins its parts with a separator byte. It identifies
every target that can be addressed at all, whatever its host (`SignatureIdentifies`): an admin Secret with that
byte in its name cannot be asked for, and a port with it cannot be dialled, so the model lets such a target fail
where the code does.

The comment above `resolveOneShotOutcome` describes a window after a signal-coded exit; the code measures the
window from the entry of the function, and the model follows the code. The comment above `shutdown` says a
clean drain leaves every build row closed by its own build; `Build` has exits that leave its row busy, so the
model claims only that the process writes nothing more and that the next reconcile closes such rows.

## Model

| member | source | states |
|---|---|---|
| DrainTracker.RunKeepsInv | drain/drain.go:40-103 | in every state of every run the count is the number of end functions handed out and not yet called; a pending idle channel means draining with work in flight; no channel is closed twice |
| DrainTracker.NoBeginAfterDrain | drain/drain.go:40-52 | after a drain has started no begin succeeds, whatever holds and releases follow |
| DrainTracker.CleanDrainIsFinal | drain/drain.go:67-88 | after a drain has returned 0 nothing runs for the rest of the run |
| DrainTracker.WaitingDrainWakesIffIdle | drain/drain.go:54-88 | no lost wake-up: a waiting drain can wake exactly when nothing is in flight |
| DrainTracker.SecondEndIsNoOp | drain/drain.go:50-62 | calling an end function again changes nothing |
| DrainTracker.RunOnlyDrains | drain/drain.go:67-103 | once draining, the flag stays, the count never rises and no unit is added |
| DrainTracker.FlagsMean | drain/drain.go:64-103 | the flags are the history: held exactly while the last hold is not released, draining exactly from the first drain on |
| DrainTracker.RunningMeans | drain/drain.go:40-62 | a unit runs exactly from a begin that was not refused to the first call of its end function, and the count is the number of such units |
| DrainTracker.DrainReturns | drain/drain.go:67-88 | a drain returns 0 at once exactly when nothing runs, 0 when woken, and at its timeout the number of units running at that moment |
| DrainTracker.EndFunc.Call | drain/drain.go:50-62 | only the first call of an end function finishes the unit; it closes the idle channel when it was the last |
| DrainTracker.Tracker.Begin | drain/drain.go:40-52 | refuses exactly when draining or held, with the matching error and no change; otherwise one more running unit with a fresh end function |
| DrainTracker.Tracker.Finish | drain/drain.go:54-62 | one unit less; the channel is closed and forgotten exactly at zero |
| DrainTracker.Tracker.StartDrain | drain/drain.go:67-81 | draining from now on; nothing to wait for exactly when idle, else the one open channel, shared by all drains |
| DrainTracker.Tracker.Hold | drain/drain.go:91-95 | begins are refused from now on; nothing else changes |
| DrainTracker.Tracker.Release | drain/drain.go:99-103 | the hold is lifted; a drain is not |
| BuildRows.CloseAllCloses | datastore/buildkit_jobs.go:98-136 | a reconcile leaves no open row, keeps terminal rows as they are, adds exactly one error line to each row it closes, and is idempotent |
| BuildRows.Table.Create | datastore/buildkit_jobs.go:50-64 | a pending row appears exactly when the store is ready and the job id is free; an existing row is never overwritten |
| BuildRows.Table.UpdateStatus | datastore/buildkit_jobs.go:67-87 | the status of that one row changes and nothing else |
| BuildRows.Table.FailNonTerminal | datastore/buildkit_jobs.go:98-136 | the transaction with its loop does to the table what `CloseAll` says or nothing, and reports the number of rows closed |
| BuildRows.ReconcileUntilDone | lifecycle.go:110-125 | the retry loop ends, releases exactly once, at the end of the first attempt that worked or ran out of time |
| Lifecycle.RunKeepsInv | main.go:60-103 | the invariant of all runs over crashes and restarts: before its release a process has nothing running and owns no row and no pod |
| Lifecycle.CleanupSparesOwnWork | main.go:64-86 | no row the startup reconcile changes and no pod the sweep deletes belongs to the current process |
| Lifecycle.ReleaseIsOrderly | main.go:69-86 | release comes after the sweep has ended and the reconcile worked or gave up; if it worked, no open row exists at that moment |
| Lifecycle.ReleasedOncePerProcess | lifecycle.go:110-125 | two releases in a run are releases of two processes |
| Lifecycle.NoOrphanWhileWorking | main.go:83-86 | while a process that reconciled accepts work, every open row is its own |
| Lifecycle.SettledForEver | datastore/buildkit_jobs.go:98-136 | a terminal row of a dead process never changes again, in any later process |
| Lifecycle.OrphanHistory | lifecycle.go:57-125 | the whole history of a row left open by a dead process: as it was until the first reconcile that commits or the first close after a drain that ran out of time, failed by that step with its reason as one more error line, and unchanged ever after |
| Lifecycle.FirstCloseMeans | lifecycle.go:57-105 | the reason in that history is that of the earliest closing step, and absent exactly when there is none |
| Lifecycle.CleanDrainFreezesOwnWork | lifecycle.go:57-72 | after a clean drain the process changes no row and no pod of its own |
| Lifecycle.ShutdownClosesEverything | lifecycle.go:57-72 | the close after a drain that ran out of time fails every pending or busy row, those of the running builds included, with the shutdown reason as one more error line, and touches no other row |
| Lifecycle.RowHistory | datastore/buildkit_jobs.go:50-136 | every row at every moment of every run is what the creations, status changes and closes of the steps so far make of it |
| Lifecycle.PodHistory | main.go:64-78 | every pod at every moment is there exactly when its last creation was followed by no deletion that worked |
| Lifecycle.SweepRemovesOrphans | main.go:64-78 | a sweep that lists the pods and deletes all it listed leaves only pods of the current process |
| Lifecycle.AcceptsWorkIff | main.go:60-103 | a running process accepts work exactly from its release until it is told to stop |
| Lifecycle.StartupCompletes | lifecycle.go:107-125 | startup cannot get stuck: with or without a pod listing, and whether the reconcile worked or gave up, the release can follow and lifts the hold |
| Lifecycle.ShutdownCompletes | lifecycle.go:57-72 | shutdown cannot get stuck: it drains at once when idle, and otherwise may time out with the number of running units and close the rows |
| Tokens.RunKeepsInv | webhook/cli_deploy_handler.go:74-200 | the invariant of all interleavings of handlers, token creations, expiry sweeps and tracker calls |
| Tokens.SingleUse | datastore/upload_tokens.go:260-275 | at any two moments of a run no row has let two handlers through, no handler has passed twice, and each passed with a row of its own token |
| Tokens.SingleUseIffFresh | datastore/upload_tokens.go:260-275 | for every history of creations: all runs with it let each token value through at most once if and only if no value was made twice |
| Tokens.CrossesIffMixed | datastore/upload_tokens.go:203-275 | for every history of creations: some run with it lets a handler mark a row of a purpose it may not spend if and only if a token value was made both for uploads and for pulls |
| Tokens.Crossing | datastore/upload_tokens.go:260-284 | the run behind it: for any history that mixes, the mark goes to the later row of the value after the earlier one was checked and swept |
| Tokens.AllSpent | datastore/upload_tokens.go:83-275 | for any history of creations there is a run in which every row is spent once |
| Tokens.EndExactlyOnce | agentstream/instructions/vcs_build.go:136-209 | every upload, VCS build and one-shot run that began calls its end function exactly once, exactly when its work is over, on every path; the tracker counts exactly the others |
| Tokens.RefusalSpendsNothing | webhook/cli_deploy_handler.go:70-85 | a handler refused by hold or drain changes no row, takes no further step and never passes |
| Tokens.WhatChangesRows | webhook/cli_pull_handler.go:31-54 | rows change only by creation, sweep, or the mark of a handler past its checks, which touches nothing but the used flag of its own token |
| Tokens.HandIsJustified | webhook/cli_pull_handler.go:31-54 | in every run a handler holds a row only after looking it up under its own token and for a purpose it may spend, and reaches the mark only after finding that row unused and not expired |
| Tokens.TokenLasts | datastore/upload_tokens.go:83-284 | as long as no sweep comes after its expiry a created row stays as it was made, and is used exactly if a handler with its token reached the mark since |
| Tokens.SweepMeans | datastore/upload_tokens.go:278-284 | a token is left after a sweep exactly when it had not expired, and then unchanged |
| Tokens.Table.Create | datastore/upload_tokens.go:83-162 | a new unused row exactly when the token's hash is free |
| Tokens.Table.Mark | datastore/upload_tokens.go:257-275 | succeeds exactly on an unused row, which it marks; nothing else changes |
| Tokens.Table.DeleteExpired | datastore/upload_tokens.go:278-284 | exactly the rows with an expiry before now go |
| Tokens.ReceiveUpload | webhook/cli_deploy_handler.go:90-200 | hands off exactly when the token is spendable and everything worked; the token is used up exactly when it was spendable and found |
| Tokens.HandlePull | webhook/cli_pull_handler.go:31-54 | a download passes the token check exactly for an unexpired, unused pull token whose update is answered; the table changes only in the used flag of that token, and only when the update is sent |
| Tokens.HandleUpload | webhook/cli_deploy_handler.go:70-200 | a refusal touches neither tracker nor table; a hand-off leaves one running end function more; every other way out leaves the count as it was |
| BuildSlots.CapHolds | buildkitclient/ephemeral.go:208-237 | in every state of every run the counter is the number of holders, the k-th holder was admitted under a limit of at least k, and the count never exceeds the largest limit among the holders |
| BuildSlots.PollAdmitsIff | buildkitclient/ephemeral.go:208-223 | a poll admits exactly when fewer builds hold a slot than its own limit, and throws nobody out |
| BuildSlots.LeavingLeaves | buildkitclient/ephemeral.go:216-230 | a release takes exactly that build out of the holders and the count down by one; giving up takes it out of the waiters and changes nothing else |
| BuildSlots.Slots.TryAcquire | buildkitclient/ephemeral.go:210-216 | one turn of the acquire loop keeps counter and staircase |
| BuildSlots.Slots.Release | buildkitclient/ephemeral.go:226-230 | one holder leaves, wherever it stands, and the staircase stays |
| Correlation.RunKeepsInv | agentstream/agent.go:384-399 | in every reachable state no channel is closed twice, and a buffered or returned reply carries the tag of its call |
| Correlation.NoLostWaiter | agentstream/agent.go:605-626 | a waiting call whose tag is missing from the map can receive: its reply is buffered or its channel is closed |
| Correlation.CleanupReleasesEveryCall | agentstream/agent.go:391-399 | every call stored before a disconnect cleanup began is, once the cleanup is over, no longer stuck, and stays so |
| Correlation.OutcomeIsFinal | agentstream/agent.go:533-543 | a call returns at most once, and a reply it returns is its own |
| Correlation.ReplyRoundTrip | agentstream/agent.go:533-538 | from every state with a waiting call, a reply to its tag can arrive, be loaded and sent, and the call then returns exactly that reply, payload included |
| Correlation.ReplyReachesCaller | agentstream/agent.go:533-538 | over any run: a reply sent to a waiting call with an open, empty channel makes it able to receive, and whatever runs in between its receive returns exactly that reply |
| Correlation.OutcomeHasCause | agentstream/agent.go:605-626 | every outcome has its cause earlier in the run: a reply that arrived for it, a close of its entry by a cleanup, a failed send, or the end of its context |
| Correlation.SecondReplyIsDropped | agentstream/agent.go:535-542 | a second reply finds the channel full, leaves the first in it and takes the entry out of the map |
| Correlation.NothingIsStuck | agentstream/agent.go:391-399 | a waiting call may always be given up, and a cleanup that began always has a next step |
| Correlation.GoneIsForgotten | agentstream/agent.go:605-611 | a call that has returned leaves no entry behind in the map, in every state of every run |
| Backoff.NextBackoffIsSchedule | agentstream/retry.go:137-155 | for every attempt number the wrapped 64-bit computation is min(1 s times 2^(n-1), 30 s) |
| Backoff.ScheduleShape | agentstream/retry.go:131-136 | the delay never falls with the attempt, lies between 1 s and 30 s and reaches the cap exactly from the sixth attempt |
| Backoff.FullJitter | agentstream/retry.go:165-173 | a wait within [0, limit] |
| Backoff.FullJitterReaches | agentstream/retry.go:165-173 | every wait in [0, limit] is returned for some state of the random source |
| Backoff.ReconnectBackoff.Next | agentstream/retry.go:189-192 | one attempt more, and a wait drawn evenly from 0 to the schedule of that attempt |
| Backoff.ReconnectBackoff.ConnectionEnded | agentstream/retry.go:195-199 | the schedule starts again exactly after a connection that was up 60 s |
| Backoff.StreakCounts | agentstream/retry.go:157-159 | the number the schedule is read at counts the disconnects since the last stream that stayed up 60 s |
| Backoff.ReconnectLoop | agentstream/agent.go:296-335 | over any number of turns each wait is what the turn draws from [0, schedule of the streak], the loop ends exactly at a clean end, and of all connections ever had only the current one is open |
| Datastore.RunKeepsInv | datastore/database.go:248-439 | in every reachable state a connection is open exactly when it is installed or in the hand of the pass, the stored signature is that of the handle's target, every connection was opened to an addressable target, and the delay stays within 2 s and 30 s |
| Datastore.FaultFreePassHeals | datastore/database.go:328-439 | one pass without faults on an addressable target either keeps a live handle of the same signature or ends live on the target with the Secret recording that host and the role's password |
| Datastore.ReconnectHeals | datastore/database.go:401-439 | a pass that reconnects ends live and with the Secret recorded, whatever the Secret and the role's password were |
| Datastore.SignatureIdentifies | datastore/database.go:181-185 | equal signatures mean equal targets, for all addressable targets with any host |
| Datastore.AlwaysHeals | datastore/database.go:328-439 | from every reachable state between passes, after any history of faults and changes, one pass without faults ends live on the current target, for every addressable target with any host; if it reconnected, the Secret records that host and the role's current password |
| Datastore.PassOutcome | datastore/database.go:271-439 | what one pass does for every pattern of faults: the stored password is tried first and if it works neither role nor Secret changes; otherwise the role gets the fresh password and the Secret records it, each unless a fault comes before; a handle on the current target is installed exactly when everything needed worked; and the delay is reset or doubled up to 30 s |
| GoStrings.TrimSpaceMeans | datastore/database.go:636-642 | password and host of the Secret lose the white space at both ends and nothing else |
| Datastore.CloseLeavesNothingOpen | datastore/database.go:248-267 | closing the store leaves no connection open and nothing installed |
| Datastore.AnyTroubleIsReachable | datastore/database.go:328-439 | the healing results are not empty: for any two targets, any Secret and any role password a reachable state has a dead handle on the other target |
| Datastore.Store.ReconcileOnce | datastore/database.go:328-393 | the pass in place does what the small steps do, for every pattern of faults |
| Datastore.Store.ReconcileLoopPass | datastore/database.go:271-304 | one turn of the loop: the pass, then the delay reset on success and doubled up to the cap on error |
| Datastore.Store.ConnectTo | datastore/database.go:401-439 | in place, for every pattern of faults: the pass goes on from its result exactly as the small steps do, of which `PassOutcome` says what they reach |
| Datastore.Store.Provision | datastore/provision.go:20-100 | the role's password is set and the Secret written in this order, each of which may fail |
| Datastore.Store.OpenGorm | datastore/database.go:526-554 | a connection that fails its ping is closed again |
| Datastore.Store.InstallHandle | datastore/database.go:387-393 | the new handle is installed with its signature and the old one closed |
| Datastore.Store.CloseGorm | datastore/provision.go:109-116 | closes that one connection |
| Dotenv.ParseDotenv | agentstream/instructions/dotenv.go:34-96 | every byte sequence is read to its end inside its bounds, with the last-wins map of its entries |
| Dotenv.ReadLine | agentstream/instructions/dotenv.go:39-94 | one turn of the loop reads one line: a blank, a comment, a line without a pair, or an entry |
| Dotenv.ReadValue | agentstream/instructions/dotenv.go:76-90 | the value after the equals sign, quoted or bare, and the start of the next line |
| Dotenv.DecodeDotenvValue | agentstream/instructions/dotenv.go:101-156 | the decoded value and the index behind it, for the three forms |
| Dotenv.DecodeQuoted | agentstream/instructions/dotenv.go:101-156 | the escape loop of double quotes |
| Dotenv.LastWinsMeans | agentstream/instructions/dotenv.go:91-96 | the map holds exactly the keys that occur, each with its last value |
| Dotenv.TrimSpaceIs | agentstream/instructions/dotenv.go:68 | white space of any kind around a key with solid ends is trimmed from both ends, and nothing else |
| Dotenv.TrimSpaceMeans | agentstream/instructions/dotenv.go:68 | every byte string is white space runes, the trimmed key, and white space runes, and the trimmed key neither starts nor ends with one |
| Dotenv.EscapesMean | agentstream/instructions/dotenv.go:117-131 | a backslash before n, r and t means newline, return and tab, and before every other byte that byte |
| Dotenv.UnclosedTakesAll | agentstream/instructions/dotenv.go:107-148 | a quoted value that is never closed takes everything to the end of the input, a last lone backslash included |
| Dotenv.EntriesOfPrint | agentstream/instructions/dotenv.go:34-156 | round trip: a document of pairs in double-quoted, single-quoted or bare form, the keys with any white space around them, with any comments, blank lines and junk lines between, reads back as its pairs |
| Dotenv.QuoteMeans | agentstream/instructions/dotenv.go:101-156 | every byte string has a double-quoted form that means it |
| Dotenv.DocumentRoundTrip | agentstream/instructions/dotenv.go:34-156 | for arbitrary value bytes the double-quoted document reads back as its pairs |
| DiffScan.ScanDiff | scripts/leakcheck.py:459-530 | the loop over path, line number and three flags yields the findings of the line scanner on exactly the requests the specification lists, in order (`ScannedInBlocks` says what that is) |
| DiffScan.HeaderTurn | scripts/leakcheck.py:494-519 | one turn inside a file header |
| DiffScan.ScannedInBlocks | scripts/leakcheck.py:524-530 | for every scanner the findings are one block per request, in order, each what the scanner returns for the path, line number and text of that request |
| DiffScan.ScannedEcho | scripts/leakcheck.py:524-530 | a scanner that reports what it is handed reports exactly the requests |
| DiffScan.RequestsHavePaths | scripts/leakcheck.py:500-526 | on every input nothing is handed on without a path or under a path that is skipped |
| DiffScan.StripMeans | scripts/leakcheck.py:499-509 | stripping takes the white space off both ends and nothing else |
| GitDiff.AddedSits | scripts/leakcheck.py:514-529 | the text of every added line stands at its number in the new file |
| DiffFiles.SplitLinesOfText | scripts/leakcheck.py:485 | Python cuts the text of a diff line by line, each line into its own pieces, for any text |
| DiffFiles.ScriptScan | scripts/leakcheck.py:513-529 | the requests of a rendered script are its added lines with their numbers, including lines that look like headers, when the pieces behind breaks are neutral |
| DiffFiles.UnscannedScript | scripts/leakcheck.py:513-529 | nothing is handed on below the header of a file that is not scanned, when the pieces behind breaks are contained |
| DiffFiles.FilelessIsContained | scripts/leakcheck.py:486-492 | pieces of which none starts a file are contained |
| DiffFiles.FileHeaderScan | scripts/leakcheck.py:486-519 | whatever came before, the scan reaches the first hunk of a file with the path it has read and nothing handed on |
| DiffExact.ReadsNameIff | scripts/leakcheck.py:495-512 | a file is read under its own name if and only if both names are shown plainly and unbroken and the new one does not end in white space |
| DiffExact.FileExactIff | scripts/leakcheck.py:486-529 | for one file with any names and any text, pieces behind breaks being harmless: exactly what should be handed on is, if and only if the names fit and no wanted line is broken |
| DiffExact.FilesAreIndependent | scripts/leakcheck.py:486-492 | the scan of any diff is the scans of its files in order, with no condition on names or text |
| DiffExact.ScanDiffExactIff | scripts/leakcheck.py:459-530 | for every list of file diffs with fitting names and harmless pieces, the scan hands on exactly the added lines of the files not skipped, with true path and number, if and only if none of them is broken |
| DiffExact.FindingsAreExact | scripts/leakcheck.py:459-530 | under those conditions the findings are the scanner's on exactly the added lines of the files not skipped, block after block, each called with its path, its number in the new file and its text |
| DiffExact.HarmlessTextIff | scripts/leakcheck.py:485-529 | a text in deleted or context lines leaves every wanted file exact if and only if no piece behind its breaks starts with a plus, a space or a file header or is a hunk header |
| DiffExact.DeletedLineHidesToken | scripts/leakcheck.py:485-492 | a deleted line with a form feed before a file header hides the added line behind it |
| DiffExact.DeletedLineMovesNumber | scripts/leakcheck.py:456-523 | a deleted line with a form feed and a hunk header in it, in decimal digits of any script, gives the added line behind it the number in that header |
| DiffExact.UnscannedTextIff | scripts/leakcheck.py:485-529 | a text in the lines of files that are not scanned never makes one hand anything on if and only if its pieces hand nothing on by themselves and leave the scan outside headers and scanned paths |
| PythonDigits.AsciiNumber | scripts/leakcheck.py:456-522 | the digits git prints are among those Python reads, with their own value |
| DiffExact.QuotedNameIsMissed | scripts/leakcheck.py:507-510 | a file whose old name is shown quoted is not scanned, whatever it adds |
| Baseline.LoadBaseline | scripts/leakcheck.py:536-549 | the loop yields the set the lines denote, or the failure of the first malformed line |
| Baseline.LoadMeans | scripts/leakcheck.py:536-549 | loading fails exactly if some line that is not ignored has not three fields; otherwise a key is loaded exactly if some such line is its three fields |
| Baseline.IgnoredMeans | scripts/leakcheck.py:543-544 | a line is ignored exactly when it is white space up to its end or up to a number sign |
| Baseline.BaselineRoundTripIff | scripts/leakcheck.py:536-556 | loading what was written, keys in any order, gives the same set if and only if every key is well formed |
| Baseline.RescanAfterUpdateIff | scripts/leakcheck.py:643-685 | after an update the same findings pass if and only if all keys are well formed |
| Baseline.ExitCodes | scripts/leakcheck.py:640-697 | the exit code in every mode: a scan passes exactly when no finding is a credential and the path, kind and token of each are together in the baseline, and an update exactly on a full tree without a credential |
| Baseline.RatchetNeverOpens | scripts/leakcheck.py:640-697 | corollary of the exit codes: in every mode and for every baseline a credential forces failure, without update so does an unlisted key, and the file changes only in an update that passes |
| Paths.CleanDenotes | agentstream/instructions/vcs_fetch_source.go:570-571 | cleaning keeps the location, is idempotent, and is equal for two paths exactly when their locations are |
| Paths.GuardAcceptsIff | agentstream/instructions/vcs_fetch_source.go:566-576 | for every workdir: an absolute path is refused; a relative one is accepted exactly when the workdir's components are a prefix of the result's and the workdir has a component or is the result; the result is the cleaned path |
| Paths.GuardIsContainmentIff | agentstream/instructions/vcs_fetch_source.go:572-574 | the string-prefix test is the component test for all relative paths if and only if the workdir has a component |
| Paths.RelDenotes | agentstream/instructions/vcs_fetch_source.go:581-587 | following the relative path from the base leads to the target |
| Paths.RelExists | agentstream/instructions/vcs_fetch_source.go:581-587 | a relative path exists between rooted paths and from a workdir to what is inside it |
| Paths.ResolveRefIsDirect | agentstream/instructions/vcs_fetch_source.go:518-522 | resolving a reference through the relative path equals cleaning it against the manifest's directory, and is accepted exactly inside the workdir |
| Paths.MixedRootsResolve | agentstream/instructions/vcs_fetch_source.go:566-587 | the fallback of the relative path: a rooted manifest directory under a relative workdir is refused, and a relative one under a rooted workdir is taken as written |
| Paths.BuildPathsAreDirect | agentstream/instructions/vcs_fetch_source.go:373-392 | source directory and Dockerfile resolve to the written-out path, inside the workdir, with no `..` left below a rooted workdir |
| OneShot.ResolveOutcome | agentstream/instructions/run_oneshot_job.go:465-509 | the loop ends for every context with a deadline, at the first poll that may stop, with the classification of the last snapshot read |
| OneShot.OutcomeIsJustified | agentstream/instructions/run_oneshot_job.go:366-413 | success exactly with success evidence and no deadline evidence, code 0 exactly for success, 124 for a timeout, the exit code or else 1 for a failure, and an outcome without evidence only when the context ended |
| OneShot.StopsIff | agentstream/instructions/run_oneshot_job.go:465-509 | a poll ends the loop exactly on a deadline, an exit code below 128, one from 128 on after 10 s, an aggregate signal without an exit code, or the end of the context |
| OneShot.CleanExitReturnsAtOnce | agentstream/instructions/run_oneshot_job.go:474-477 | a clean exit returns with no further poll and its own code |
| OneShot.SignalExitIsTimeoutIff | agentstream/instructions/run_oneshot_job.go:478-492 | under observations that are not retracted a signal-coded exit is timeout/124 if and only if the deadline condition is read before the window or the context ends, and its own code otherwise |
| Dsn.TwoReplacementsEscape | sqlwrapper/pool.go:103-107 | the two sequential replacements are one per-character escape |
| Dsn.DsnRoundTrip | sqlwrapper/pool.go:109-123 | for all strings and every port a reader of keyword/value connection strings returns exactly the six settings, the database being postgres exactly when none is named |
| Schema.ScanSchemaRows | sqlwrapper/schema.go:223-275 | the loop with its order list and map yields the tables in first-appearance order with their columns, or an error exactly when a row or the result set failed |
| Schema.Order | sqlwrapper/schema.go:246-255 | the keys are exactly those that occur, without repetition |
| Schema.OrderIsFirstAppearance | sqlwrapper/schema.go:246-255 | tables come out in the order of their first rows |
| Schema.GroupingIsLossless | sqlwrapper/schema.go:223-275 | the columns of all tables are a permutation of the rows, each with its table, and equal to the rows when these are grouped |
| Schema.EntryIsRow | sqlwrapper/schema.go:246-264 | each entry is its row, field by field, and a column is nullable exactly when the row says YES |
| ImageRefs.OutputArgRoundTripIff | buildkitclient/client.go:102-107 | for every non-empty list of references without commas and quotes, CSV parsing gives three fields and the name list splits back, if and only if it is not a single reference with a line feed |
| ImageRefs.TargetImageRefs | buildkitclient/client.go:66-72 | one reference per tag, in order |
| ImageRefs.CacheRefIsSharedIff | buildkitclient/client.go:66-86 | a reference made for a repository maps to its cache reference if and only if the tag holds no colon and no slash |
| ImageRefs.CacheRefIsIdempotent | buildkitclient/client.go:80-86 | the cache reference of a cache reference is itself |

## Left out

- Kubernetes, gRPC, Harbor, Git, BuildKit and SQL driver internals: only success, failure and result of a call enter, as choices of the environment.
- Cryptography, TLS and certificates, CSR minting; token hashes are taken as injective and fresh tokens as never repeated.
- Pod and Job specifications, RBAC, list handlers, request proxying, DNS01: single-branch facts.
- Tarball extraction, symlinks and file permissions; `Paths` is the lexical algebra only.
- The VCS workdir cache and its TTL janitor, the heartbeat counter and `validateDotenvValues`: nothing is claimed about them.
- The MySQL connection string, which a library formats, and the connection pool's eviction.
- The credential and address patterns of the leak check and its reading of files in other encodings: the line scanner is a parameter.
- The decoding of git's output, which turns carriage returns into line feeds before the scan; the scan is modelled for any text.
- `int` overflow of the reconnect attempt counter after 2^63 disconnects.
- Correlation and Lifecycle are steps on values: the shared map, channels and goroutines are not objects, only their atomic operations are.
- Crashes inside the token machine: a crash ends the process, and whole-process restarts are the subject of `Lifecycle`.
- Datastore.RunKeepsInv: a single reconcile loop; an `Initialize` racing `Close` is not modelled, a failed driver open opens nothing, and an identifier that provisioning rejects counts as a fault.
- Datastore.AlwaysHeals: for a database name and user without the separator byte, as the identifier check before every pass demands (datastore/database.go:350-355).
- DiffExact.ScanDiffExactIff: names follow git's quoting of control characters. That the pieces behind the breaks of header lines are harmless is shown sufficient, not necessary: an unlucky piece there may still do no harm.
- PythonDigits.AsciiNumber: the decimal digits are those of Unicode 15.0; a Python with a later table knows more. The limit Python sets on the length of a numeral it converts is not modelled.
- Paths.RelDenotes: `filepath.Rel` between relative paths where it reports an error is modelled as that error and nothing is claimed of it.
- Tokens.HandlePull: ends at the mark; reading the archive's name from the token and streaming the archive are not modelled.
- OneShot.ResolveOutcome: how a snapshot is read from the Job and the pod is a parameter.
- Backoff.ReconnectLoop: the stream manager starts with a connection, as it does after bootstrap.
