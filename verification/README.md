# What the deterministic code around a voice agent keeps

The voice agent of this repository takes orders and reservations on the phone. Around
its language model stands code that has to be right whatever the model, the guest, the
printer, GitHub or the disk do. This project models that code and proves what it keeps.
Texts that are recognised, searches, servers, disks and printers are inputs: they may
answer anything. Digests are their keys.

| file | what it models |
|---|---|
| ItemMatching, ItemTexts | the judge's greedy pairing of expected with booked positions, against all pairings, and when two texts count as the same |
| Recorder, RecorderRuns | the monitor of the eval runs with its undo, against a reading of the trace without undo |
| Graphs, Relationships, PlanContents | the planner of issue links: search, edges, fixpoint, and what a plan contains |
| Publish | the swap of several files with backups and roll-back, every file operation failing |
| LinkStacks, LinkPlans | chains of pull requests and their forks |
| PrintLog, PrintBridge | the bounded log of printed slips and the bridge, over restarts and lost saves |
| KeysMarker, DecisionIssue, DecisionRuns, DecisionTexts | the issue of open decisions: marker, text, writes, days |
| CallLog, CallDirectory | IDs of the call log, the two cuts of its file, the directory that follows an ID |
| PendingRows, PendingRuns | voice measurements on their way to main |
| Consent, ConfirmGate | what has to be said before a yes books anything |
| TakenCart, CartRuns | the order the model keeps between turns, and the draft that waits under it |
| Allergies, KitchenNotes | the caller's allergies on the notes for the kitchen |
| PickupScript, PickupSteps, PickupSound, PickupCall | the order dialogue of the stand-in model as a phase machine |
| PickupRuns, PickupPromises, PickupParts, PickupCases | whole calls of it: what is drafted and confirmed, what becomes of each part of a sentence |
| PickupLines, PickupOrders, PickupPlaces, PickupQuestions | where each line of an order and each question comes from, read off the events |

Where the code updates fields or loops, the model is a class or a method with a loop,
proved against functions; where it computes, the model is functions. A run is a sequence
of events, and the main results hold for every one.

What is proved not to hold, each with the inputs for which it fails and the exact
condition under which it holds:

- The judge is optimal only while no earlier expected position is wider than a later one
  it competes with. With notes on some positions only, a correct booking can be reported.
- Running the directory of the call log twice changes something exactly when a minute
  holds two equal reviewed rows.
- A partial run keeps the sections of the failed sources of the decision issue exactly when
  each of them has an entry; one that somebody emptied by hand drops out.
- A slip is answered as failed although it was printed: it needs a restart that lost the
  print, or as many other orders since as the log keeps. While neither happens, the answer is
  ok exactly when the order was printed in this revision or a newer one.
- The check of an order's options lets lines through that no draft can take: exactly those
  with an open mandatory group that offers nothing.
- The order dialogue loses what is to be spoken at a step (the question about an unclear
  part, also one held back behind an allergy, the word that a dish is sold out) exactly when,
  with the parts or the answer of that step in place, the zone check, the lookup of the guest
  or the draft is due: those calls speak nothing.
- The order dialogue ends in an exception exactly on a sentence in the phase of the mandatory
  choices when none is open, as behind a zone check that is refused right after the last one.
- A measurement can be read behind its kit exactly when the header of the waiting file was
  whole; taken under a cut one it cannot be read.
- With two pull requests of one branch the walk up a chain need not end.

## Model

| member | source | states |
|---|---|---|
| ItemMatching.CompareItems | evals/judge.py:633-649 | The loop that removes from the list of booked positions reports exactly what the greedy pairing of `OptionsFirst` leaves over, and nothing when nothing is left; `ItemTexts.MatchesIff` says what matches |
| ItemMatching.SortIsStable | evals/judge.py:633-641 | The processing order holds every position once, those with options first, otherwise as written |
| ItemTexts.MatchesIff | evals/judge.py:612-630 | An expected and a booked position match exactly when the numbers agree letter by letter up to case, the quantities are equal, the options that are named are the booked ones as often, and a written note has the same words in the same order up to case, whatever the blanks |
| ItemTexts.SameTextIff | evals/judge.py:624-630 | Two notes are the same exactly when both are the same words up to case, laid out with blanks around and between them |
| ItemTexts.CaseOfANumber | evals/judge.py:612-614 | The case of one letter of a number, on either side, changes no match |
| ItemTexts.UnseenInANote | evals/judge.py:624-630 | The case of one letter of a note, or one more blank in front, behind or beside a blank, on either side, changes no match |
| ItemMatching.GreedyAssigns | evals/judge.py:633-649 | The run is a one-to-one assignment under `Matches`: missing plus assigned are all expected positions, assigned plus left over are all booked ones |
| ItemMatching.NoReportMeansMatchable | evals/judge.py:612-649 | No report means a complete one-to-one pairing exists, whatever the processing order |
| ItemMatching.SortKeepsAssignment | evals/judge.py:633-649 | Sorting the expected positions loses no assignment and changes no booked position in it |
| ItemMatching.Exchange | evals/judge.py:612-649 | The exchange step: any assignment can be turned into one that gives the first position the greedy choice, without assigning fewer, on a narrow-first order |
| ItemMatching.FewestMissing | evals/judge.py:633-649 | On a narrow-first order no assignment at all leaves fewer positions missing than the greedy run |
| ItemMatching.WideFirstLoses | evals/judge.py:612-649 | On every other order there are booked positions that pair off completely and are still reported |
| ItemMatching.AcceptsAllMatchableIffNarrowFirst | evals/judge.py:612-649 | Every pairable booking is accepted if and only if the processing order is narrow-first |
| ItemMatching.FewestMissingIffNarrowFirst | evals/judge.py:612-649 | The fewest positions are missing for every booking and every assignment if and only if the processing order is narrow-first |
| ItemMatching.UniformNotesAreNarrowFirst | evals/judge.py:633-649 | "Options first" is narrow-first when all expected positions name a note or none does |
| ItemMatching.MixedNotesCounterexample | evals/judge.py:612-649 | Two positions, a note on the second only: pairable and reported |
| Recorder.RecordingLLM.NextTurn | evals/recorder.py:119-148 | One turn of the recorder with its undo keeps the notes equal to the reading of the trace, with what the open answer would count noted ahead |
| Recorder.RecordingLLM.IsALateYes | evals/recorder.py:277-302 | A late yes is judged by the draft before a cart of the same answer, puts that cart aside and notes one refused attempt; anything else changes nothing |
| Recorder.RecordingLLM.LateYesGotAResult | evals/recorder.py:243-257 | A result to a late yes takes the attempt back and counts an unconfirmed booking, or drops the draft of a cart set aside |
| Recorder.RecordingLLM.Retract | evals/recorder.py:259-275 | A call that failed leaves the notes as before it, plus one refused attempt if it was a violation |
| Recorder.RecordingLLM.ObserveResult | evals/recorder.py:188-241 | A result settles the call before it and changes facts, draft and notes as the trace reading says |
| RecorderRuns.NotesAreTheTrace | evals/recorder.py:188-338 | Over every legal run `confirms` is the number of bookings that went through and `last_confirm` the last one, `unconfirmed` holds the sentence before each booking without consent, `guessed` in order each drafted position whose dish no earlier search delivered, and each failed call that would break a rule is one refused attempt |
| RecorderRuns.SearchedIff | evals/recorder.py:237-241 | A dish counts as searched exactly when some ok result of `search_menu` or `get_item_details` had it |
| RecorderRuns.GuessedIff | evals/recorder.py:310-325 | A position is held as guessed exactly when a draft of an order that did not fail had it and no search before that draft delivered it, with the sentence the guest said before |
| RecorderRuns.HeardSoFar | evals/recorder.py:188-201 | The sentences kept are those of the guest, in number and at the end |
| RecorderRuns.ReadbackIs | evals/recorder.py:211-235 | The sentence to read out is that of the last ok draft, and none once something was booked |
| RecorderRuns.LateYesIff | evals/recorder.py:277-302 | A `confirm` is a late yes exactly when it answers a yes while a draft waits that was not what was said last |
| RecorderRuns.OrderHeld | evals/recorder.py:167-235 | The order the recorder holds is the last one an exchange brought: a booked order empties it, a draft or a changed `cart` that stands replaces it |
| RecorderRuns.LateYesCountedOnce | evals/recorder.py:243-302 | A late yes is counted once: unconfirmed if it booked, refused if not |
| RecorderRuns.DraftWaits | evals/recorder.py:167-241 | The recorder holds a draft exactly when one went through and nothing took it away since, with the number of guest sentences at that moment |
| RecorderRuns.DraftHeard | evals/recorder.py:150-241 | It counts as read out exactly when some exchange read it out and none since said or dropped anything |
| RecorderRuns.HeardAfterDraft | evals/recorder.py:188-338 | What counts as read out was read out after the draft went through |
| RecorderRuns.ReadbackOfTheDraft | evals/recorder.py:188-241 | While a draft waits, the sentence to read out is the one of its result |
| RecorderRuns.UnmarkedConfirm | evals/recorder.py:304-338 | A confirm is not marked if and only if it answers a yes, changes no order, and comes behind a waiting draft that was read out last |
| Graphs.Reaches | scripts/project_relationships.py:141-151 | The stack search ends and returns true exactly when a path exists |
| Graphs.NoNewCycle | scripts/project_relationships.py:141-151 | An edge whose target does not reach its source closes no cycle |
| Relationships.ParseTasks | scripts/project_relationships.py:67-108 | A document is taken exactly when all rows are readable and names, issues and prerequisites are unambiguous; then the result is one entry per row with the group of the last heading |
| Relationships.MakePlan | scripts/project_relationships.py:154-220 | The nested loops over packages and their wishes plan exactly the decisions of `PlanAll`, wish after wish; the rows of PlanContents say which edges those are |
| PlanContents.EachRowOnce | scripts/project_relationships.py:67-108 | The packages of a document are its rows in order, each with its own name, issue, dependencies and waivers and the group of the last heading before it |
| PlanContents.WantedIff | scripts/project_relationships.py:179-195 | An edge is wanted exactly when some package has an issue that was not dropped and stands under that group, or needs a package with that issue and does not waive it |
| PlanContents.ReportedIff | scripts/project_relationships.py:196-214 | A wanted edge is reported as missing, other parent or unfinished exactly when an issue is unknown, when the issue has another parent, or when the new blocker was dropped or is open while what it blocks is closed |
| PlanContents.PlannedIff | scripts/project_relationships.py:196-220 | An edge is planned exactly when it is wanted, new, nothing of that speaks against it, and in the graphs as planned its target does not lead back; if it does, exactly that is reported |
| Relationships.OnlyAdds | scripts/project_relationships.py:154-220 | No edge is removed |
| Relationships.ClosesNoCycle | scripts/project_relationships.py:179-220 | Every cycle of the final parent or blocked-by graph was in the initial one |
| Relationships.EveryWishSettled | scripts/project_relationships.py:179-220 | Every wanted edge is present, planned or reported |
| Relationships.TasksWantOneParent | scripts/project_relationships.py:67-108 | Packages as they are parsed want at most one parent for each issue |
| Relationships.AtMostOneParent | scripts/project_relationships.py:179-220 | An issue with at most one parent before has at most one after |
| Relationships.PlanningAgain | scripts/project_relationships.py:154-220 | Planning again on the changed issues changes nothing and reports the same findings |
| Publish.Stage | scripts/kasse_to_csv.py:160-178 | Probing and staging touch nothing but the files beside the targets, which hold the new texts on success |
| Publish.SwapOne | scripts/kasse_to_csv.py:185-192 | One swap, broken off at any step, leaves the target new with its backup, or as before |
| Publish.RollBack | scripts/kasse_to_csv.py:193-211 | Roll-back restores every swapped target but those it names, and those have their backup |
| Publish.PublishAll | scripts/kasse_to_csv.py:150-225 | Every file operation may fail: a normal return has all targets new and names exactly the backups still there, an error has all as before; with a partial error all targets it does not name are as before, and of a named one the old bytes are in the backup. Each name costs one failed operation beside the one that stopped the swap, so a single failure never ends partially. At every moment before the last swap all old bytes are in the folder. No copy stays beside its place unless removing it failed as well |
| Publish.NamedAsBeforeIff | scripts/kasse_to_csv.py:189-212 | Of the named targets exactly those are as before all the same that had no old file and never got to their place, or whose new text stands there and is the old one |
| Publish.NeverThere | scripts/kasse_to_csv.py:189-212 | Such a target: a new file whose copy is still beside its place |
| LinkStacks.WalkUp | scripts/link_stacks.py:36-59 | With distinct heads the walk ends, at the top or at the fork it reports |
| LinkStacks.Plan | scripts/link_stacks.py:36-59 | The plan is the walk from every pull request whose base is no head |
| LinkStacks.ChainsMeet | scripts/link_stacks.py:36-59 | Two chains that meet have the same bottom and meet at the same height |
| LinkStacks.ChainDistinct | scripts/link_stacks.py:36-59 | No pull request is visited twice |
| LinkStacks.ChainsAreDisjoint | scripts/link_stacks.py:36-59 | Chains of different bottoms are disjoint |
| LinkStacks.NoChainEntersACircle | scripts/link_stacks.py:36-59 | No chain enters a circle of mutual bases |
| LinkStacks.EndlessIffAHeadComesBack | scripts/link_stacks.py:36-59 | Without distinct heads the walk is endless exactly when a head comes back on it |
| LinkPlans.LinkedIff | scripts/link_stacks.py:36-59 | A list of numbers is planned exactly when it is that of a walk, from a pull request based on none of the others up through the only one on top of each, of at least two that are not all in one and the same stack |
| LinkPlans.ReportedForks | scripts/link_stacks.py:46-52 | Every fork that is reported is the end of such a walk, with the numbers of all that is on top, in order |
| LinkPlans.ForksAreReported | scripts/link_stacks.py:46-52 | And every walk that ends below several pull requests is reported so |
| LinkStacks.TwoPullRequestsOfOneBranch | scripts/link_stacks.py:36-59 | Three pull requests for which it is endless |
| PrintLog.PrintedLog.Record | printbridge/state.py:39-50 | A record drops the older entry of the order, adds the new one at the end, evicts from the front and replaces the file in one step, or keeps the old file |
| PrintLog.PrintedLog.WasPrinted | printbridge/state.py:35-37 | The answer is yes exactly when a kept entry of the order has this revision or a newer one; an order that is not kept counts as printed in negative revisions only |
| PrintLog.BoundedRefines | printbridge/state.py:39-44 | Recording into the bounded log gives what is kept of the longer history |
| PrintLog.RecentIsLast | printbridge/state.py:39-44 | The unbounded log holds each order with its last recorded revision, behind it exactly the orders recorded since |
| PrintLog.KeptOrForgotten | printbridge/state.py:35-44 | The bounded log answers with the last recorded revision exactly while fewer than `keep` other orders were recorded since |
| PrintLog.NeverRecorded | printbridge/state.py:35-44 | An order that was never recorded is not in the log |
| PrintBridge.RunOnce | printbridge/bridge.py:51-104 | One pass prints, records and acknowledges ticket by ticket as the reference does, and reports lost acknowledgements |
| PrintBridge.OneAckEach | printbridge/bridge.py:51-104 | Every ticket gets exactly one acknowledgement, in order and under its own id: ok exactly when its slip or a newer one is known or leaves the printer now |
| PrintBridge.OneSlipEach | printbridge/bridge.py:69-104 | The slips are those of the tickets that are not known and print, in order, each with its order and revision |
| PrintBridge.RunKeepsHistory | printbridge/bridge.py:51-104 | Over every run with restarts and failed saves, log and file are what the bounded log keeps of the two histories |
| PrintBridge.RememberedUntil | printbridge/bridge.py:51-104 | A printed slip is remembered until a restart loses it or `keep` other orders were printed |
| PrintBridge.NoSecondSlip | printbridge/bridge.py:51-104 | A slip of an order that is not newer than an earlier one needs a restart that lost the earlier one, or `keep` other orders in between |
| PrintBridge.AckTellsTheTruth | printbridge/bridge.py:51-104 | An ok for a revision from 0 on is sent only for an order that was printed in it, now or before, or in a newer one |
| PrintBridge.OkIffPrintedOrKept | printbridge/bridge.py:51-104 | An ok is sent if and only if the slip leaves the printer now, or the last record of the order that the bridge still knows is not older and fewer than `keep` other orders were recorded since |
| PrintBridge.FailedAckNeedsALoss | printbridge/bridge.py:51-104 | A failure for a revision that was printed before, itself or a newer one, needs a restart that lost that print or `keep` other orders printed since |
| PrintBridge.OkIffPrinted | printbridge/bridge.py:51-104 | While no such print is lost or pushed out, an ok is sent exactly when there was one |
| PrintBridge.FailedThoughPrinted | printbridge/bridge.py:79-100 | Every printed ticket whose save failed is answered as failed behind a restart when the printer fails |
| PrintBridge.ServeNeverDecreases | printbridge/state.py:35-44 | An order that is kept behind a ticket is kept in no older revision than before |
| KeysMarker.OnlyTheLastMarker | scripts/decision_issue.py:41-45 | Whatever stands in front, the pattern anchored to the end matches at the marker only |
| KeysMarker.SplitJoin | scripts/decision_issue.py:102-104 | Splitting at the commas gives back the keys that were joined |
| KeysMarker.KeysReadBack | scripts/decision_issue.py:102-135 | The keys that are written are the keys that are read, whatever titles and other markers the text holds |
| DecisionIssue.RenderBody | scripts/decision_issue.py:112-135 | The text built line by line is the text of the open findings followed by the kept sections, with all their keys |
| DecisionIssue.SectionsReadBack | scripts/decision_issue.py:107-135 | Of the sections that are written exactly those with an entry are read back, in order |
| DecisionIssue.AllReadBackIffFilled | scripts/decision_issue.py:107-135 | All of them are read back exactly when each has an entry |
| DecisionIssue.Tracker.Apply | scripts/decision_issue.py:250-296 | A run that breaks off leaves a prefix of its writes done, the mention always before the text |
| DecisionRuns.StoredWasMentioned | scripts/decision_issue.py:138-296 | Over every sequence of full, partial and broken-off runs and of edits of text and marker by hand, every key stored as reported was mentioned before or typed in by hand |
| DecisionRuns.MentionedOnce | scripts/decision_issue.py:138-296 | A finding that stays open is not mentioned again, unless the run that mentioned it broke off behind the mention |
| DecisionRuns.RepeatedIffBrokenOff | scripts/decision_issue.py:138-296 | The next run that reports a key repeats the mention if and only if the text did not follow the mention |
| DecisionRuns.ShowsWhatIsOpen | scripts/decision_issue.py:112-223 | Behind a complete run the text shows exactly the reported findings and, on a partial run, behind them the sections of the failed sources that have an entry; all reported keys are stored |
| DecisionTexts.KeysIff | scripts/decision_issue.py:84-99 | The keys of a run are those of the headings and identities of its entries, whatever their texts |
| DecisionTexts.RunShows | scripts/decision_issue.py:112-223 | Behind a complete run the text shows one section for each finding with entries, in order and item by item, and behind them on a partial run of an open issue the sections of the failed sources that have an entry |
| DecisionTexts.RunStores | scripts/decision_issue.py:112-223 | And it stores exactly the keys of the entries and, on such a run, all that were stored |
| DecisionRuns.PartialNeverCloses | scripts/decision_issue.py:186-223 | A partial run, broken off anywhere, leaves an open issue open and forgets no key |
| DecisionRuns.PartialKeepsUnknown | scripts/decision_issue.py:186-223 | Broken off anywhere, it leaves the sections of the failed sources as they were when each has an entry |
| DecisionRuns.PartialKeepsUnknownIffFilled | scripts/decision_issue.py:186-223 | A complete partial run leaves the sections of the failed sources as they were if and only if each of them has an entry |
| DecisionRuns.FullRunsSettle | scripts/decision_issue.py:138-183 | Unchanged findings: the second run writes nothing exactly when the issue existed, else one silent update; the third writes nothing |
| DecisionRuns.PartialRunsSettle | scripts/decision_issue.py:186-223 | Unchanged findings on an open issue: the second partial run mentions nobody and writes nothing exactly when every section left alone has an entry, the third writes nothing |
| DecisionRuns.EmptiedSectionIsLost | scripts/decision_issue.py:127-128 | A section that somebody emptied by hand, whatever its heading, is lost on a partial run |
| CallLog.WithOrdinals | scripts/call_log.py:416-437 | The counters of the loop give each call its place in its hour and its content its place in its minute |
| CallLog.CaseIdsDiffer | scripts/call_log.py:416-437 | No two rows share an ID |
| CallLog.HourIsNumberedThrough | scripts/call_log.py:416-437 | The ordinals of an hour are exactly 0 to n - 1 |
| CallLog.OldIdsShared | scripts/call_log.py:416-437 | Two rows share their old ID exactly when minute and content are equal |
| CallLog.Coarsen | scripts/call_log.py:880-889 | The loop takes the minute out of every call and leaves every other line as it is |
| CallLog.CoarsenedAt | scripts/call_log.py:880-889 | Every line stays, and of a call only its minute goes |
| CallLog.PurgedAt | scripts/call_log.py:866-877 | The purge keeps exactly the calls that are not before the deadline, in order |
| CallLog.CoarsenedTwice | scripts/call_log.py:880-889 | Coarsening twice is coarsening once |
| CallLog.PurgedTwice | scripts/call_log.py:866-877 | Of two deadlines only the later counts |
| CallLog.CutsCommute | scripts/call_log.py:866-889 | The order of the two cuts does not matter |
| CallLog.PurgeKeepsIds | scripts/call_log.py:507-513 | Numbering the purged file gives every remaining call the ID it had |
| CallLog.CoarsenKeepsIds | scripts/call_log.py:507-513 | Numbering the coarsened file gives every call the ID it had |
| CallDirectory.Directory.Remap | scripts/call_log.py:525-555 | Exactly the movable rows that are the first of their old ID move; each takes the record to its new ID with date and fingerprint, and nothing else changes |
| CallDirectory.MovedRowIs | scripts/call_log.py:525-556 | A moved row stands under its new ID, names the old one, and has the record that was known or, reviewed without one, its own date and content |
| CallDirectory.NoRecordIsLost | scripts/call_log.py:525-555 | While no new ID is taken, every record keeps date and fingerprint, under its ID or the one that names it |
| CallDirectory.RerunMovesIffTwins | scripts/call_log.py:525-555 | Running again on the same rows moves something exactly when a minute holds equal reviewed rows that were not moved before |
| CallDirectory.RerunChangesNothing | scripts/call_log.py:525-555 | Without two equal rows in a minute the second run changes nothing |
| CallDirectory.ForgottenWithItsRow | scripts/call_log.py:840-877 | The directory forgets exactly the IDs that the purge takes out of the file |
| CallDirectory.CaseFollowsItsRow | scripts/call_log.py:525-555 | A known or reviewed case is found again from the file without minutes and without old calls |
| PendingRows.CsvFile.AppendRow | scripts/readme_assets.py:705-721 | A row is appended behind a header and behind a cut line of its own; every state on disk on the way is one a killed writer may leave |
| PendingRows.AppendedIsReadIffHeader | scripts/readme_assets.py:705-721 | An appended row can be read exactly when the header was whole |
| PendingRows.KilledWriterLosesNothing | scripts/readme_assets.py:705-721 | A killed writer loses no row that was there |
| PendingRows.RecordedOnce | scripts/readme_assets.py:811-822 | A recorded measurement is one row, recording it again changes nothing, and no other measurement is touched |
| PendingRows.CsvFile.RecordAll | scripts/readme_assets.py:2661-2662 | The loop over all waiting rows: behind a whole header the history then holds them and what it held, and nothing else |
| PendingRows.Unique | scripts/readme_assets.py:560-569 | The loop with its seen set keeps the first row of each measurement |
| PendingRows.UniqueKeepsOne | scripts/readme_assets.py:560-569 | Every measurement stays exactly once |
| PendingRows.Pending | scripts/readme_assets.py:2551-2586 | The listing is the waiting rows that the history lacks, each once |
| PendingRows.ListedKeys | scripts/readme_assets.py:2551-2586 | The listed measurements are exactly the waiting ones without the recorded ones |
| PendingRows.PrunedExactly | scripts/readme_assets.py:2601-2632 | Pruning takes out all merged rows and nothing else, and keeps lines that do not parse |
| PendingRuns.StepKeeps | scripts/readme_assets.py:2601-2663 | No append, record, merge, drop, fetch, prune or kill loses a measurement that waits or is on main |
| PendingRuns.MeasurementIsNeverLost | scripts/readme_assets.py:2736-2752 | A measurement taken on main while the header of the waiting file is whole waits or is on main after every sequence of them |
| PendingRuns.ListedAgain | scripts/readme_assets.py:2601-2663 | What is not on main is listed on every branch that has not recorded it |
| PendingRuns.WaitingReachesMain | scripts/readme_assets.py:2601-2663 | Record all, merge, fetch, prune: main holds every measurement and nothing waits |
| Consent.NeutralStart | api/agent/consent.py:186-192 | The loop accepts exactly polite words followed by at most one whole lead-in |
| Consent.ReadOut | api/agent/consent.py:244-285 | The scan is true exactly when the sentence is a neutral lead, the words of the draft without a gap and a closing question |
| Consent.OwnSentenceReadsOut | api/agent/consent.py:250-285 | The draft's own sentence reads it out exactly when it has words and asks for the yes |
| ConfirmGate.Conversation.NoteSaid | api/agent/guards.py:170-196 | A sentence of the core makes exactly the dishes it names known and sets the read-back as heard exactly when it reads it out |
| ConfirmGate.HeardMeansReadOut | api/agent/guards.py:170-196 | Whatever the tools do, heard means that the last sentence read this draft out |
| ConfirmGate.ConfirmNeedsAReadOutDraft | api/agent/guards.py:164-196 | Whatever the model answers, a confirm passes only in the turn of a yes, for the draft pending when the turn began, which the sentence before read out |
| ConfirmGate.ConfirmedSentenceWasHeard | api/agent/guards.py:638-657 | The sentence the guest said yes to is the sentence of the draft that is confirmed, also when it was made again inside the turn |
| ConfirmGate.HeardIff | api/agent/guards.py:170-196 | Heard is exactly what was read out last and not touched since |
| ConfirmGate.ConfirmIff | api/agent/guards.py:638-657 | A confirm passes if and only if the guest's sentence of this turn is a yes behind the sentence that read out the draft it names, which waited then and waits now |
| ConfirmGate.RereadIff | api/agent/guards.py:608-636 | The core puts a draft's sentence itself exactly when a confirm that is refused comes on a yes while a draft waits, of an order or of a table, that was not read out last |
| ConfirmGate.OtherCallIff | api/agent/guards.py:423-468 | Every other call passes exactly when no word rule finds a fault that concerns it and all dishes of an order were found without doubt or named |
| ConfirmGate.RereadThenYes | api/agent/guards.py:608-636 | After the core put the draft's question itself, the next yes books it exactly when the read-back has words and asks |
| ConfirmGate.DraftedDishesWereNamed | api/agent/guards.py:660-671 | A draft that passes holds only dishes a search found without doubt or the guest heard by name |
| TakenCart.FitsIffCompletable | api/agent/guards.py:391-413 | Further choices can make a line one that a draft takes if and only if the check of the options lets it through and every mandatory group still open offers something |
| TakenCart.NothingToChoose | api/agent/guards.py:391-413 | A dish with a mandatory group that offers nothing passes the check and can never be drafted |
| TakenCart.Core.TakeCart | api/agent/guards.py:336-374 | The loops over the lines take the order exactly when every line is free of allergies, known, to be had and fits its options; otherwise the first rule that some line breaks is named, the order stays, and no draft waits behind the attempt. Taken, it stands as sent without a draft, unless it is the order that stands or the booked one sent again: then nothing changes |
| TakenCart.PendingOrderIsTheCart | api/agent/state.py:482-529 | Over every call that the team has not taken over, the order that waits for its yes is the order in the state, and all its dishes are known |
| TakenCart.YesBooksTheDraft | api/agent/state.py:624-630 | On every call, also one handed to the team, a yes books the order that was drafted and still waits, or changes nothing |
| TakenCart.SameOrderIff | api/agent/state.py:508-528 | Two orders are the same exactly when their lines can be paired off, each pair with the same dish, quantity and note and the same options as often |
| CartRuns.DraftWaitsIff | api/agent/state.py:482-606 | On every call a draft waits exactly when it was made and every event since left it: a `cart` of the same acceptable lines, a draft of unknown dishes, or the handover |
| CartRuns.OrderKept | api/agent/state.py:482-530 | On every call the order in the state is the last one an event left: a changed `cart` that was taken, an order that was drafted, none behind a booked one, the draft handed to the team |
| CartRuns.KnownFromSearches | api/agent/state.py:655-663 | The dishes known are those the searches gave before a handover, and of each the last one says what was seen |
| TakenCart.HandedStays | api/agent/loop.py:1143-1160 | Behind a handover no event books anything or changes the order any more |
| Allergies.ListedNames | api/agent/allergies.py:390-395 | A shared list names each of its ingredients |
| Allergies.NoteSaysExactly | api/agent/allergies.py:344-387 | In every length fallback the note names with the reason an ingredient exactly when the caller consented and one of their own allergies has it, and without it exactly when some allergy has it that is not both the caller's own and consented to |
| Allergies.ReasonNeedsAYes | api/agent/allergies.py:357-366 | Some part of the note gives the reason if and only if the caller consented and one of the allergies is their own |
| Allergies.OneAllergyReads | api/agent/allergies.py:344-387 | The wording for one allergy in every fallback, with the reason and without |
| Allergies.TwoAllergiesRead | api/agent/allergies.py:344-387 | The wording for the caller's own allergy after the yes beside someone else's |
| Allergies.NoteNamesEvery | api/agent/allergies.py:344-387 | In every length fallback the text holds every ingredient |
| KitchenNotes.WriteNotes | api/agent/allergies.py:306-334 | The loop over the lines writes exactly the noted draft |
| KitchenNotes.EveryAllergyReachesTheKitchen | api/agent/allergies.py:306-334 | Every read allergy is named on each line of its dish, on the order when no line has it, and on a table, unless that note is no text |
| KitchenNotes.LineNoteIs | api/agent/allergies.py:318-332 | A line gets the note for exactly the allergies that were read with its dish, in the wording the consent allows |
| KitchenNotes.OrderNoteIs | api/agent/allergies.py:333-335 | The order gets the note for exactly the read allergies whose dish is on no line |
| KitchenNotes.TableNoteIs | api/agent/allergies.py:314-317 | A table gets the note for all of them |
| KitchenNotes.NothingElseChanges | api/agent/allergies.py:306-334 | Dishes, order and lines without an allergy of their own stay as they are |
| KitchenNotes.SharedIsShortest | api/agent/allergies.py:344-395 | The shared notice is never longer than single notices |
| KitchenNotes.NoteFitsIffShortestFits | api/agent/allergies.py:344-387 | A note with allergies fits its field exactly when their shortest wording fits |
| KitchenNotes.OrderFitsIff | api/agent/allergies.py:282-303 | `fits` refuses an order exactly when the allergies of one of its notes are too many for the field |
| KitchenNotes.TableFitsIff | api/agent/allergies.py:282-334 | A table goes to the team exactly when all its allergies together are too many for its one, shorter field |
| PickupScript.WishedIsOk | sim/scripted_order.py:552-592 | A wish never drops the question of a mandatory group that it does not answer |
| PickupCall.Dialogue.Next | sim/scripted_order.py:731-813 | Each tool is called exactly when it is due where the call stands, the first missing thing is asked for otherwise; what was to be spoken is spoken or carried along if and only if none is due whose call speaks nothing |
| PickupSteps.NextIsSound | sim/scripted_order.py:731-813 | Wherever the next step may be taken, it keeps everything a call has to keep: questions are about lines of the cart, suggestions are open exactly while the guest chooses, nothing is open beside a read-back, every mandatory group is chosen or asked for |
| PickupCall.Dialogue.Take | sim/scripted_order.py:509-527 | One part becomes a line with its wish, the sentence that it is sold out, the set of suggestions, or its own sentence; PickupLines says what that line holds |
| PickupCall.Dialogue.TakeAll | sim/scripted_order.py:409-429 | The loop over the parts: clear ones are lines, sold out ones sentences, the first unclear one is the open question, all others are asked later |
| PickupCall.Dialogue.TakePositions | sim/scripted_order.py:409-433 | Every part of a sentence has its place: a line, the open question, held back behind an allergy, asked later, or to be spoken |
| PickupCall.Dialogue.OnSearch | sim/scripted_order.py:398-452 | Every search result puts its parts in their places and takes the next step from there; a correction swaps one line for a clear dish or starts the order again. The call stays sound |
| PickupCall.Dialogue.OnSearchFailed | sim/scripted_order.py:474-505 | A search without result puts the open question back with its suggestions, or starts a corrected order again with the reason; without a turn what was carried along is handed to the caller and kept no longer |
| PickupCall.Dialogue.AnswerChoice | sim/scripted_order.py:176-237 | An answer takes one suggestion with the wish of the question, names one that is sold out and offers the rest, rejects all, or searches and keeps the suggestions for a search that fails; parts asked for later stay |
| PickupCall.Dialogue.AnswerAllergy | sim/scripted_order.py:632-664 | The question stays until the ingredient is named; with the last one the question held back is to be spoken, and the next step says exactly when it is heard |
| PickupCall.Dialogue.AnswerOption | sim/scripted_order.py:711-729 | One option closes the first open group of the first line that has one; without any open group the machine breaks |
| PickupCall.Dialogue.OnCustomer | sim/scripted_order.py:165-246 | A sentence answers the first open question: the stored address, an allergy, a group, else what the phase asks for. The call stays sound |
| PickupCall.Dialogue.OnReadback | sim/scripted_order.py:292-313 | Only a yes confirms, and only the order that was read out; a correction keeps the other lines, any other answer gives the order up |
| PickupCall.Dialogue.OnOrderRefused | sim/scripted_order.py:271-280 | A refusal takes back the delivery, the stored address or the phase, and may leave the phase of the choices behind |
| PickupSound.EventIsSound | sim/scripted_order.py:99-835 | Whatever the guest says and the tools answer, every event that can take place keeps the call sound, and the caller waits for the answer to exactly the turn that was taken |
| PickupRuns.Run | sim/scripted_order.py:99-835 | The object goes along with any sequence of events up to the first that cannot take place; the log it leaves is a run, each turn and standing the ones the script took |
| PickupRuns.EventsAnswer | sim/scripted_order.py:99-835 | On every run a tool answers the very call that was made last: a drafted order a draft, a booking a confirmation, an accepted address the one that was checked |
| PickupPromises.DraftsAreComplete | sim/scripted_order.py:731-835 | On every run each draft is complete (dishes a search gave and that are to be had, mandatory choices made, phone, name or agreed address), is a delivery exactly when one is wanted, to the stored address agreed to or else the checked one, and leaves no allergy, group, suggestion, later part or held question open |
| PickupPromises.ConfirmsWhatWasReadOut | sim/scripted_order.py:287-303 | On every run each confirmation is a yes to an order that was drafted and read out, and the cart still holds exactly what that draft was made of |
| PickupLines.StepMovesOrder | sim/scripted_order.py:363-592 | Every step: each part or suggestion that is to be had and named comes in with the dish and quantity said and the note and option of its wish; a correction swaps its line; an answer changes the note or adds the option of the line it is about; giving up empties the order; every other line stays as it is |
| PickupOrders.EveryStepMovesOrder | sim/scripted_order.py:363-592 | On every run each step does so |
| PickupOrders.LinesAsSaid | sim/scripted_order.py:529-550 | On every run each line has the dish and quantity of the part that was found, of the suggestion that was chosen or of the correction it came from, and has stayed since; a correction without a quantity keeps that of the line it replaces |
| PickupOrders.NotesAsSaid | sim/scripted_order.py:552-664 | On every run the note of each line is what was said of it last: with its wish, in the answer about an allergy or a group, or for the line it replaces |
| PickupOrders.OptionsAsSaid | sim/scripted_order.py:552-729 | On every run the options of each line are those chosen for it since it came, by its wish, the answer about a group or to a mandatory choice, each once and in order |
| PickupOrders.DraftsAsSaid | sim/scripted_order.py:815-835 | On every run each drafted line has the dish, the quantity, the note and the options that were said of it up to then |
| PickupPlaces.PartsHaveTheirPlaces | sim/scripted_order.py:409-433 | With several parts in one result the first that is not clear is asked about now, all further ones later in order; spoken is what was carried along, what the search says, what is out today in order, and that question, which is held back while one about a line is open |
| PickupQuestions.EveryStepMovesQuestions | sim/scripted_order.py:552-709 | On every run a question about a line is open exactly when it was and this was not its answer, or when a wish of this event leaves it open |
| PickupQuestions.EventLeadsTo | sim/scripted_order.py:165-313 | The phase behind every event, read off the event and what was open |
| PickupQuestions.EveryTurnAsks | sim/scripted_order.py:731-813 | On every run, wherever the script speaks and goes on, it asks exactly for the first thing that is missing, behind what is to be spoken and no question twice |
| PickupPromises.BreaksIff | sim/scripted_order.py:711-729 | The script breaks exactly on a sentence in the phase of the mandatory choices with no stored address, allergy or group asked for and no choice open |
| PickupPromises.BreaksBehindARefusal | sim/scripted_order.py:271-280 | On every run that needs a tool that refused something in that phase |
| PickupParts.NoPartDropsOut | sim/scripted_order.py:129-132 | On every run all unclear parts that had to wait are searched in the order they were said, up to those that still wait: none is left out |
| PickupParts.LostIffCallIsDue | sim/scripted_order.py:731-813 | On every run what is to be spoken at a step is lost if and only if, with the parts or the answer of that step in place, the zone check, the lookup or the draft is due |
| PickupParts.CarriedComesFirst | sim/scripted_order.py:435-505 | What was carried along to a search is the first thing to be spoken behind it, or goes to the caller |
| PickupParts.HeldUntilAnswered | sim/scripted_order.py:632-672 | A question held back waits while an allergy or a group is open, and is to be spoken with the answer that closes the last one |
| PickupCases.LostAtZoneCheck | sim/scripted_order.py:409-436 | Every run: said in one breath with a new address, what is sold out or unclear is neither spoken nor kept |
| PickupCases.LostWord | sim/scripted_order.py:409-436 | Such a sentence: one dish that is to be had and one the menu does not know |
| PickupCases.LostBehindAllergy | sim/scripted_order.py:632-664 | Every run: the question held back behind an allergy is lost at the zone check that the answer leads to |
| PickupCases.HeldWord | sim/scripted_order.py:409-433 | Such a sentence: a dish with an allergy that names no ingredient, and one the menu does not know |
| PickupCases.LostAtDraftOrLookup | sim/scripted_order.py:731-813 | Every run: of a part asked for later, behind "das wars" with name and phone known, what the search says is lost at the draft, or at the lookup when it is to be delivered |
| PickupCases.LostLater | sim/scripted_order.py:409-436 | Such a sentence: a dish that is to be had, one with several hits, and a third one |
| PickupCases.RefusedZoneBreaksTheCall | sim/scripted_order.py:271-280 | Every run: a mandatory choice, a refused zone check and one more sentence break the script |

## Left out

- Recognition of words and sentences (yes, allergies, dishes, card numbers, addresses, quantities, wishes): its results are inputs. Letters are folded and trimmed for ASCII only where a text is compared or capitalised; blanks are the space, the tab and the line ends.
- JSON, CSV quoting, HTTP, GraphQL, file locks and digests: values, sequences, arbitrary failures and keys stand for them. The key of a finding is the pair of heading and identity; headings that hold a separator are not told apart from that.
- Recorder: the logs of calls and results beside the counters, and the parsing of the state. A refused attempt is a multiset entry, since the source takes the first equal one back.
- Recorder.RecordingLLM.NextTurn: requires that each call not read out by the core gets its result next, which is the contract of the loop that calls it.
- RecorderRuns: the rows that read the draft off the trace take an ok result to belong to the call before it (`OwnResults`), as the tools of the core answer.
- Relationships: findings are one list, not grouped by reason; GitHub's node ids are taken to be distinct; links in texts are left out.
- Publish: only failures of file operations, no interrupt from the keyboard during a roll-back.
- Decision issue: lines are headings, items, blanks or other text, and titles are one line each; labels at GitHub and the exit code are left out.
- DecisionRuns.PartialKeepsUnknown: requires that no failed source owns a heading that another source reports.
- Call log: the drafts of eval cases, the reports and the fingerprint's digest; a row's content stands for its fingerprint.
- Pending rows: one waiting file instead of one for each worktree; a line cut inside its last field counts as cut.
- PendingRuns.MeasurementIsNeverLost: speaks of measurements taken on main; one recorded on a branch is lost with the branch.
- Confirm gate: guest details, phone numbers, the question for allergens and the wording of refusals; when a read-back counts as a question is an input.
- Taken cart: the form check of a line, and the labels shown to the model.
- Allergies: reading an allergy from a sentence and asking for its ingredient.
- PickupScript: the wording of questions, the number of a dish in a sentence, the quantity and the note that a text gives; the carried wish and a correction are inputs as understood.
- PickupCall.Dialogue.OnCustomer: which tool result or guest sentence comes next is the contract of the caller, kept in `awaiting`.
- The ladder of failed understanding, the ledger of reviews, charts, reports, database, printers and telephony: easy or outside these rules.
