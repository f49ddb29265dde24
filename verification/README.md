# Verified models of the fleet, the sheet scanner, the shared tables and the text transformations

A Dafny model of the parts of this repository that have to be right on every input and in every run:

- **The fleet agent** (`fleet/`). A controller that must survive a crash between any two steps. It reads a
  desired state, looks at its containers, plans and acts, and writes its memory to disk before every step
  that cannot be taken back. `FleetPlan` computes the plan as the loops do and ties it to one specification,
  `Decided`; `PlanMeaning` says in the containers' and the memory's own terms, without that specification, what a plan
  does; `FleetState` is the memory file; `FleetHost` is everything outside, where any awaited call may
  answer anything and the agent may die on it, before or after the call took effect; `FleetAgent` is the
  agent itself; `FleetRuns` is every run of ticks, crashes and fresh agents.
- **The sheet scanner** (`segment/`). Separable sliding-window morphology over a byte array, a flood fill with
  an explicit stack, merging boxes to a fixpoint and the reading order, up to the whole of one segmentation.
- **The shared tables** (`data/`). The claim protocol of the Reddit workers, leases, the choice of the one copy
  of a listing that is alerted, and refresh-token families. A statement, or a transaction, is one atomic step.
- **The text transformations** (`text/`). The spec cascade and the save validator, with their rules by name in
  `SpecRules`; the TOML writer together with a TOML reader; the two spellings of the part-number label pattern under
  an ordered backtracker, with its texts in `LabelGrammar` and `LabelLongest`; the family split, and the base32 decoder.
- **The reporting calendar** (`report/`). Ten-character dates, the day numbers behind them, months, and the window
  before a window.

`Base.dfy` holds optional values, stable sorting, letters and blanks, and decimal numerals. Run `dafny verify dfyconfig.toml` here.

## How the outside is modelled

The world the agent acts on is recorded beside it: every start under the stamp that was on disk when Docker was
called, every removed record of a start, and, for one worker that is arbitrary (the *focus*), its restarts after a
crash, the stop the ERP has not answered and the container frozen by its hold. What it judges by, the lease the ERP
showed and what an observation showed, it learns from its own answers. `FleetHost.Host.calls` lists everything Docker and
the ERP were asked, for every worker, and beside each run the epoch that the disk reserved at that moment. `FleetWorld.Sound` is what every run
keeps; `FleetWorld.Keeps` is what a memory must not forget for that; `FleetHost.Host.Inv` says both of the
world and the disk and holds at every crash point. A crash loses the RAM and nothing else.

Assumed: the clock does not run back; saves are atomic and may fail; people may start, stop and remove
containers at any time, but nobody else *creates* a container for the focus; no second agent for the host runs
on another daemon. The cached desired state, the ERP's answers, the image allow-list, the jitter draws and what
Docker shows are arbitrary. Times are reals, as JavaScript's numbers are not integers.

## What does not hold, and exactly when it does

- *Removing a stopped container never loses the newest start it showed.* The guard of the removal compares with
  the record in RAM, not with the one on disk, and any failed save leaves RAM ahead: that of an earlier start, or
  that of an earlier removal in the same tick. Then the save is skipped and a crash loses the start.
  `FleetAgent.Agent.ApplyRemove` and `FleetSteps.RemovalKeepsStart` give the exact condition: the disk covered
  the start, or RAM did not cover the newest start the containers show. `FleetRuns.RemovalsCanLoseStart` is a tick
  with two removals, the first one's save failing, after which the next agent runs a worker inside the stagger;
  `FleetRuns.Run` proves that no start is lost while no save has failed.
- *The recorded stop names the current lease.* An older stop that was never confirmed keeps its own identity:
  `FleetSteps.StopNamesLease` is the exact condition, `FleetRuns.OldLeaseIsConfirmed` two releases of one worker
  after which the ERP will be told the first lease.
- *Requeueing concerns failed posts.* The statement does not look at the status: `Claims.OnlyRequeueReopens`
  says that a requeue, and nothing else, reopens any settled post, `Claims.RequeueRevivesNotified` and
  `Claims.RequeueBreaksExclusion` give the inputs.
- *The head of a split part number has the first characters of the key.* The split counts with `\s`, the key drops
  ASCII blanks only, and an upper case may have more characters than its letter. `PartNumber.KeySplitsExactlyWhen`
  says for every string when it holds; a non-breaking space moves the split (`PartNumber.NbspMovesTheSplit`).
- *The TOML writer quotes every key that is not bare.* Python's `$` also stands before a final newline, so the key
  `"a\n"` is written bare. `TomlLimits.WritableExactly` says for which data the document reads back, and that
  for all other data it does not read at all.
- *A date moved by days or months is a date, and the one asked for.* Below the year 100 a JavaScript date takes a year
  for one of the twentieth century, and past 9999 a text has another shape. `Calendar.AddDaysMoves`,
  `Calendar.AddMonthsIsDate`, `Calendar.AddMonthsBack`, `Calendar.TrailingYearLength` and `Calendar.PreviousIsEqual`
  are the exact conditions; `Calendar.ShortYearMoves` is January of the year 100, one month before which is December 1999.
- *The fifteen-minute ceiling of the retry backoff* never takes effect (`Claims.CeilingIsNeverReached`).

## Model

| member | source | states |
|---|---|---|
| `FleetTypes.WorkerIdRoundTrip` | apps/fleet-agent/src/plan.ts:153-164 | a worker id and a positive number name each other, so the loop over numbers and the loop over containers see the same workers |
| `FleetTypes.Names` | apps/fleet-agent/src/plan.ts:149-164 | the container name and the worker id as they are written, and the ids that no index is read from |
| `FleetPlan.EffectiveLastStart` | apps/fleet-agent/src/plan.ts:212-219 | the fold over the containers finds the last start the stagger is measured from |
| `FleetPlan.LastStartIsNewest` | apps/fleet-agent/src/plan.ts:208-219 | that last start is no earlier than the remembered one and any shown start that is not in the future, and is itself one of them |
| `FleetPlan.Index` | apps/fleet-agent/src/plan.ts:258-272 | the map holds exactly the assigned ids with one container, the set exactly those with more |
| `FleetPlan.SortedExtras` | apps/fleet-agent/src/plan.ts:274-276 | the containers numbered above the count, each once, in the order of their numbers |
| `FleetPlan.PlanExtras` | apps/fleet-agent/src/plan.ts:274-290 | above the count, only stopped and unheld containers are removed, and the holds found there are kept |
| `FleetPlan.PlanRelease` | apps/fleet-agent/src/plan.ts:304-327 | the release's own replacement is served first, then the workers already stopped for one |
| `FleetPlan.PlanWorker` | apps/fleet-agent/src/plan.ts:347-397 | one worker is waited for, held, run, restarted or put off as an outage, each in exactly its case |
| `FleetPlan.PlanWorkers` | apps/fleet-agent/src/plan.ts:347-397 | the loop over the counted workers serves the queue in order and puts every licence outage off |
| `FleetPlan.PlanOutages` | apps/fleet-agent/src/plan.ts:399-410 | recovered outages come before the host's one probe, and both after everyone else |
| `FleetPlan.Plan` | apps/fleet-agent/src/plan.ts:239-413 | the whole pass, with its pushes and its `started` flag, gives the removals, the first of the queue when the stagger allows, and the new holds: `Decided`, whose meaning `PlanMeaning` states independently |
| `PlanMeaning.StartIsTheFirstWish` | apps/fleet-agent/src/plan.ts:239-413 | an action that ends in a login is planned if and only if the state is authoritative, the stagger has passed since every start known of, and it is the first wish in the order release, stopped for a release, missing or exited worker by number, recovered outage, the one probe; which workers wish what, with ports, delays, limits and flags, is said in terms of containers and memory alone |
| `PlanMeaning.RemovesExactly` | apps/fleet-agent/src/plan.ts:274-290 | a container is removed if and only if it is the only one of its id, numbered above the count, stopped, of another image, waits for no person and is not being replaced, with the ERP at hand, its image allowed and the state authoritative |
| `PlanMeaning.RemovesAreInOrder` | apps/fleet-agent/src/plan.ts:274-290 | removals come in the order of the workers' numbers |
| `PlanMeaning.HoldsExactly` | apps/fleet-agent/src/plan.ts:222-290 | a hold is new if and only if the worker's one container was stopped by a person, that is at exit 0 or 143 at or after the agent's start and more than five seconds before its own stop mark if there is one, or has reached the crash limit, and is not remembered yet; and it says which |
| `PlanMeaning.WaitingIsLeftAlone` | apps/fleet-agent/src/plan.ts:222-237 | a container that waits for a person, by exit 78, by a remembered hold on it or by a person's stop, is never acted on |
| `PlanGuarantees.ActionsAreJustified` | apps/fleet-agent/src/plan.ts:239-413 | for every input each action of the plan has its reason: a running container is touched only by the release's own replacement; an exited one comes back only unheld and once the delay its exit asks for has passed, a licence outage once its wait has; the restart is counted if and only if the exit was a crash, and then the window is below the limit |
| `PlanGuarantees.OneStart` | apps/fleet-agent/src/plan.ts:292-302 | a plan has at most one action that ends in a login, it comes last, and only when the stagger has passed since every known start |
| `PlanGuarantees.OneActionPerWorker` | apps/fleet-agent/src/plan.ts:239-413 | no plan acts twice on one worker id |
| `PlanGuarantees.BlindOnlyStarts` | apps/fleet-agent/src/plan.ts:304-345 | offline, or on a disallowed image, starts happen only in containers whose exit left no ticket or reservation spent |
| `PlanGuarantees.DuplicatesUntouched` | apps/fleet-agent/src/plan.ts:258-272 | an id with two containers is never acted on, given that the ids being restarted have none |
| `PlanGuarantees.HeldUntouched` | apps/fleet-agent/src/plan.ts:222-237 | a stopped container with a hold is never acted on |
| `PlanGuarantees.CrashLimitHolds` | apps/fleet-agent/src/plan.ts:361-396 | at the crash limit the worker is left alone and the hold is there to be remembered |
| `PlanGuarantees.OutageIsLast` | apps/fleet-agent/src/plan.ts:399-410 | a licence outage is retried only when no other worker wanted the tick's start |
| `PlanGuarantees.OutageDelayBounds` | apps/fleet-agent/src/plan.ts:189-191 | every wait lies in [5 min, 75 min) |
| `PlanGuarantees.OutageDelayGrows` | apps/fleet-agent/src/plan.ts:189-191 | below the cap one more attempt waits strictly longer, whatever the two jitters |
| `FleetState.KeepEntries` | apps/fleet-agent/src/state.ts:78-86 | the loader's loop keeps exactly the entries that read |
| `FleetState.LoadMemory` | apps/fleet-agent/src/state.ts:69-115 | any file at all gives a memory; what cannot be read is dropped entry by entry |
| `FleetState.SavedIsLoaded` | apps/fleet-agent/src/state.ts:69-119 | loading what was saved gives the same memory, so a crash loses nothing that was written |
| `FleetState.StopIsRead` | apps/fleet-agent/src/state.ts:78-84 | a pending stop is read if and only if the file names it by two whole numbers and a flag, and confirmed only by the value true |
| `FleetState.HoldIsRead` | apps/fleet-agent/src/state.ts:85-92 | a hold is read if and only if it names a container and one of the two reasons |
| `FleetState.RetryIsRead` | apps/fleet-agent/src/state.ts:93-100 | an outage record is read if and only if it has a whole, not negative number of attempts and a jitter in [0, 1) |
| `FleetState.TimesAreRead` | apps/fleet-agent/src/state.ts:59-115 | the times are read where they are numbers, each as often as it is there |
| `FleetOutage.TrackIsStable` | apps/fleet-agent/src/agent.ts:248-269 | on the same containers a second pass changes nothing, whatever it draws: a wait's jitter is drawn once |
| `FleetOutage.OutageIsRecorded` | apps/fleet-agent/src/agent.ts:248-269 | after a pass every container stopped by a licence outage has its record |
| `FleetOutage.OneContainer` | apps/fleet-agent/src/agent.ts:248-269 | what one container does to its worker's record, in exits and minutes: opened at exit 74, closed by a run of more than 15 minutes, started anew only after a retry; a running worker alone ends the outage |
| `FleetWorld.StartIsSound` | apps/fleet-agent/src/agent.ts:297-302 | a start under a stamp that is on disk and clear of every earlier one keeps the spacing and the crash windows |
| `FleetWorld.StopIsKept` | apps/fleet-agent/src/agent.ts:361-382 | a leased worker may be stopped when the disk holds its stop unconfirmed: the stop is open from there, and stays named |
| `FleetWorld.RemoveIsSound` | apps/fleet-agent/src/agent.ts:329-340 | removing a record of a start keeps the spacing for all later starts |
| `FleetWorld.WindowFull` | apps/fleet-agent/src/plan.ts:198-200 | when a window holds k counted restarts, the memory's recent list has at least k |
| `FleetWorld.CountStaysLimited` | apps/fleet-agent/src/plan.ts:361-396 | one more stamp allowed by the memory's list leaves no window above the limit, although lists are pruned |
| `FleetSteps.StampedKeepsCounted` | apps/fleet-agent/src/agent.ts:400-416 | stamping and pruning forget no counted restart still in the window |
| `FleetSteps.StampedLists` | apps/fleet-agent/src/agent.ts:400-416 | a stamped start leaves in each list the times of the last half hour as often as they were, and the stamp once more in the lists its flags name; nothing else changes but the last start |
| `FleetSteps.StopNamesLease` | apps/fleet-agent/src/agent.ts:361-373 | the recorded stop names the current lease if and only if no unconfirmed stop with another lease was remembered |
| `FleetSteps.StopIsRecorded` | apps/fleet-agent/src/agent.ts:361-373 | an unconfirmed stop stays, told to restart; otherwise the lease held is recorded, and none without a lease; other workers' stops stay |
| `FleetSteps.RunTakesTheReservation` | apps/fleet-agent/src/agent.ts:342-373 | the run after a stop takes the epoch of the lease then stopped; without a stop to restart there is none to take |
| `FleetSteps.OlderStopKeepsItsLease` | apps/fleet-agent/src/agent.ts:361-373 | a worker stopped under one lease and, unanswered, again under another is still recorded under the first |
| `FleetSteps.PassedIsNewest` | apps/fleet-agent/src/plan.ts:212-219 | RAM lacks the start passed to a removal exactly when it lacks the newest one shown, and then they are one |
| `FleetSteps.RemovalKeepsStart` | apps/fleet-agent/src/agent.ts:329-340 | a container's start is on disk at `docker rm` if and only if the disk covered it before, or RAM did not cover the newest start the plan saw |
| `FleetSteps.PlanIsReady` | apps/fleet-agent/src/plan.ts:239-413 | every planned action finds, in the world and the memory it was planned on, all that its execution relies on |
| `FleetSteps.HoldsAreApart` | apps/fleet-agent/src/agent.ts:168-172 | a worker whose hold is decided this tick is left alone by the same plan |
| `FleetSteps.CountedIsCrash` | apps/fleet-agent/src/plan.ts:347-397 | a planned restart is counted exactly when its worker shows as stopped by a crash, whatever the plan's own flag says |
| `FleetSteps.ObservedIsConsistent` | apps/fleet-agent/src/agent.ts:121-128 | a confirmed, unanswered stop shows no container |
| `FleetHost.Host.Save` | apps/fleet-agent/src/state.ts:37-44 | at every crash point the file is the old one or holds all of the new memory; a save that says it failed left the old one |
| `FleetHost.Host.Observe` | apps/fleet-agent/src/agent.ts:121-128 | the outside's own record after an observation: a container held on disk is frozen from the first one that shows it stopped to the first that does not; the newest start shown and whether the worker crashed |
| `FleetAgent.TidyHeld` | apps/fleet-agent/src/agent.ts:230-245 | a hold stays if and only if a container of the worker with that id shows as stopped |
| `FleetAgent.TidyStops` | apps/fleet-agent/src/agent.ts:230-245 | a stop mark stays if and only if some container of the worker shows as stopped |
| `FleetAgent.Prune` | apps/fleet-agent/src/agent.ts:400-416 | every list keeps exactly its times inside the window |
| `FleetAgent.Agent.Tidy` | apps/fleet-agent/src/agent.ts:230-245 | the memory changes in holds and stop marks only, and what is recorded of a frozen worker stays |
| `FleetAgent.Agent.TrackOutages` | apps/fleet-agent/src/agent.ts:248-269 | the records are those of one pass, and every outage shown is recorded |
| `FleetAgent.Agent.SettlePending` | apps/fleet-agent/src/agent.ts:275-292 | afterwards no confirmed stop is remembered for a worker that shows a container; the ERP is told of exactly the stops that nothing will follow and whose worker shows no container |
| `FleetAgent.Agent.NoteRestart` | apps/fleet-agent/src/agent.ts:275-292 | a stop keeps its restart flag if and only if it had it, this host assigns the id and the state is authoritative; no other stop changes |
| `FleetAgent.Agent.Confirm` | apps/fleet-agent/src/agent.ts:275-292 | a confirmation the ERP took leaves no record of that stop, one it did not take changes nothing |
| `FleetAgent.Agent.Acknowledge` | apps/fleet-agent/src/agent.ts:384-393 | true only when the ERP has answered, and then the focus's stop is no longer open; a stale answer drops the stop |
| `FleetAgent.Agent.StampStart` | apps/fleet-agent/src/agent.ts:400-416 | when it says so, the stamp is on disk, clear of every earlier start, and a counted restart is in the list on disk and within the limit |
| `FleetAgent.Agent.ApplyStart` | apps/fleet-agent/src/agent.ts:297-302 | a start that succeeds is one login more, under the stamp made for it, and asks for nothing else; it is asked for unless a save has failed |
| `FleetAgent.Agent.RunWorker` | apps/fleet-agent/src/agent.ts:342-359 | a ticket, then the run it is for: both carry the epoch of the worker's pending stop if that is to restart, and none otherwise; a success is one login more, and no stop is remembered for the worker |
| `FleetAgent.Agent.ApplyRun` | apps/fleet-agent/src/agent.ts:303-313 | an open stop is answered before the worker is run again; the calls of a success are the stop told, the image, the ticket and the run, in that order |
| `FleetAgent.Agent.RecordStop` | apps/fleet-agent/src/agent.ts:361-373 | the stop is on disk, unconfirmed, before Docker is asked, with the mark of the present moment, and only this worker's records change; for a leased worker it names the lease unless an older, unanswered stop names another |
| `FleetAgent.Agent.Stop` | apps/fleet-agent/src/agent.ts:361-382 | when it succeeds the worker's containers are gone and its stop has been answered: the container is stopped first, then the ERP told |
| `FleetAgent.Agent.ApplyReplace` | apps/fleet-agent/src/agent.ts:314-328 | no replacement is run before the ERP has answered the stop; the calls of a success are the image, the stop, its answer, the ticket and the run, in that order, and it is exactly one login more |
| `FleetAgent.Agent.RecordNewest` | apps/fleet-agent/src/agent.ts:329-338 | the start passed is on disk, or RAM covered it already, or the save failed |
| `FleetAgent.Agent.ApplyRemove` | apps/fleet-agent/src/agent.ts:329-340 | a removal changes the remembered last start only; after it the newest start shown is on record if and only if the disk covered it before or RAM did not cover the newest the plan saw, and otherwise it is lost |
| `FleetAgent.Agent.Apply` | apps/fleet-agent/src/agent.ts:294-340 | an action that ends in a login makes exactly one, counts an outage's attempt, and changes no hold; a success made exactly its action's calls |
| `FleetAgent.Agent.ApplyAll` | apps/fleet-agent/src/agent.ts:174-196 | unless a save has failed, every planned action is asked for, in turn, whatever became of the ones before |
| `FleetAgent.Agent.RememberHolds` | apps/fleet-agent/src/agent.ts:168-172 | the new holds join the old ones, and are on disk unless a save has failed |
| `FleetAgent.Agent.Prepare` | apps/fleet-agent/src/agent.ts:144-146 | before the plan the holds and marks are tidied, the outages tracked, and then, with the ERP at hand and no other agent, the pending stops settled; nothing else changes |
| `FleetAgent.Agent.Act` | apps/fleet-agent/src/agent.ts:167-196 | a tick that gets through remembers exactly the plan's new holds beside the old ones; an agent that only observes makes no login and asks nothing, any other asks for every planned action in turn unless a save has failed |
| `FleetAgent.Agent.PlanAndAct` | apps/fleet-agent/src/agent.ts:148-196 | the plan is made from the memory as it is and from what was observed; beside another agent for the host, or without an authoritative state, no login is made and nothing asked |
| `FleetAgent.Agent.Tick` | apps/fleet-agent/src/agent.ts:81-203 | a whole tick keeps the invariant at every crash point, whatever the outside answers; it tidies, tracks, settles, plans and then asks for every planned action; refused, or out of reach without a cached answer, it asks nothing of anybody |
| `FleetAgent.RefusedAsksNothing` | apps/fleet-agent/src/agent.ts:105-119 | a refusal, or no answer and no cache, leaves an observer without a call |
| `FleetRuns.Run` | apps/fleet-agent/src/agent.ts:54-203 | every run of ticks, failed saves, crashes and restarts: starts a stagger apart, no start without its stamp on disk, no window with more restarts of a crashed worker than the limit, no leased worker stopped without its stop on disk, open stops named there and no run before their answer, every run right after a ticket for the epoch that the stop on disk reserved, no held container touched from the first observation that shows it stopped, with the hold on disk, to the first that does not |
| `FleetRuns.RemovalsCanLoseStart` | apps/fleet-agent/src/agent.ts:329-340 | a plan with two removals, the first save failing: the second loses the newest start, and the next agent's plan runs a worker inside the stagger |
| `FleetRuns.OldLeaseIsConfirmed` | apps/fleet-agent/src/agent.ts:361-373 | two releases of one worker under two leases, the first unanswered: both plans stop it, and the record names the first lease |
| `Morph.CountSlide` | packages/shared/src/ramSheetSegment.ts:301-322 | moving the window one step changes the running count by the two ends only |
| `Morph.Line` | packages/shared/src/ramSheetSegment.ts:296-325 | one line of the sliding window writes what the direct count says, and no other line |
| `Morph.Separable` | packages/shared/src/ramSheetSegment.ts:289-326 | rows then columns equal the square window, for every size and radius, outside empty for dilate and set for erode |
| `Morph.Apply` | packages/shared/src/ramSheetSegment.ts:279-326 | both passes over the arrays compute the square-window definition |
| `Morph.Adjunction` | packages/shared/src/ramSheetSegment.ts:279-326 | dilation of a fits in b if and only if a fits in the erosion of b |
| `Morph.CloseContains` | packages/shared/src/ramSheetSegment.ts:84 | the close contains its input |
| `Morph.CloseMonotone` | packages/shared/src/ramSheetSegment.ts:84 | the close of a smaller mask is smaller |
| `Morph.CloseIdempotent` | packages/shared/src/ramSheetSegment.ts:84 | closing twice is closing once |
| `Connectivity.ClassesAgree` | packages/shared/src/ramSheetSegment.ts:328-359 | two connectivity classes that share a pixel are one |
| `Connectivity.NeighbourCases` | packages/shared/src/ramSheetSegment.ts:346-351 | the four index tests reach exactly the pixels next to this one, never across a row's end |
| `Components.RoomLeft` | packages/shared/src/ramSheetSegment.ts:331-333 | the stack of w*h entries never overflows |
| `Components.FloodFill` | packages/shared/src/ramSheetSegment.ts:336-356 | one flood marks exactly one class and draws its tight box and its area |
| `Components.Find` | packages/shared/src/ramSheetSegment.ts:328-359 | one component per class, in scan order, each with its tight box; the areas add up to the set pixels |
| `Components.InSomeClass` | packages/shared/src/ramSheetSegment.ts:328-359 | every set pixel lies in some component |
| `Components.InOneClass` | packages/shared/src/ramSheetSegment.ts:328-359 | and in no second one |
| `Components.SharedIsJoined` | packages/shared/src/ramSheetSegment.ts:328-359 | two set pixels share a component if and only if a path of set pixels joins them |
| `Boxes.MergeAligned` | packages/shared/src/ramSheetSegment.ts:361-385 | it ends; the outputs are the hulls of a partition of the inputs, each grown by merges of two boxes that should be one and by no other, and no two of them should |
| `Boxes.StackedMerge` | packages/shared/src/ramSheetSegment.ts:387-400 | one above the other, two boxes are one stick if and only if their columns overlap by more than 0.6 of the narrower and the gap is below half, or so many halves, of the shortest side |
| `Boxes.SideBySideMerge` | packages/shared/src/ramSheetSegment.ts:387-410 | side by side, if and only if both are wider than tall, their rows overlap by more than 0.6 of the lower and the gap is below as much |
| `Boxes.PortraitsStayApart` | packages/shared/src/ramSheetSegment.ts:402-409 | beside another, a box that is not wider than tall is never merged, however small the gap |
| `Boxes.CrossingMerge` | packages/shared/src/ramSheetSegment.ts:387-390 | two boxes that share a pixel are one |
| `Boxes.SheetExamples` | packages/shared/src/ramSheetSegment.ts:387-410 | two portrait sticks side by side stay two, the halves of a lying or a standing one are one |
| `Boxes.MergeIsSymmetric` | packages/shared/src/ramSheetSegment.ts:387-410 | wanting to merge does not depend on the order of the two |
| `Boxes.ApartIsDisjoint` | packages/shared/src/ramSheetSegment.ts:387-410 | boxes left unmerged share no pixel |
| `Boxes.InsideItsHull` | packages/shared/src/ramSheetSegment.ts:361-385 | every input lies inside the output of exactly one group |
| `Boxes.ReadingOrder` | packages/shared/src/ramSheetSegment.ts:416-434 | a rearrangement of the boxes, read row by row: each box stands in the first row open at its turn that it overlaps by half of the smaller height, and opens a row if and only if it fits none; rows ascend by top, each goes left to right |
| `Boxes.HalfIsShared` | packages/shared/src/ramSheetSegment.ts:420-422 | a box is of a row if and only if they share half of the lower height, or more |
| `Sorting.SortIsStable` | packages/shared/src/ramSheetSegment.ts:417-433 | boxes that sort alike keep their order |
| `Boxes.RowsAreGrouped` | packages/shared/src/ramSheetSegment.ts:419-430 | the rows found are exactly those: every box after a row's first overlapped the row's extent so far by half, every box that opens a row fitted no row then open |
| `Boxes.PlacedOnce` | packages/shared/src/ramSheetSegment.ts:419-430 | and no box is in two of them |
| `Boxes.ReadingOrderIsByRows` | packages/shared/src/ramSheetSegment.ts:416-434 | the rows' extents are tight and their tops ascend as they were found, so that sorting them again changes nothing |
| `Sheet.SegmentMask` | packages/shared/src/ramSheetSegment.ts:84-101 | the components of the closed mask, the boxes of the big ones merged as far as two should be, the thirty largest read row by row: they share no pixel, each is reached on every side by a big component inside it, and short of the cap no set pixel of a big component is lost |
| `Sheet.BigIsAShare` | packages/shared/src/ramSheetSegment.ts:86-90 | a component counts from 0.004 of the page and 0.03 of its short side on |
| `Sheet.CappedIsLargest` | packages/shared/src/ramSheetSegment.ts:92-97 | thirty boxes are kept when there are more, and none of the others is larger than one of them |
| `Claims.PostTable.InsertNewPosts` | trackers/reddit/src/claims.ts:148-165 | known rows are untouched, and exactly the ids this call was first to record come back, each once |
| `Claims.PickRows` | trackers/reddit/src/claims.ts:177-185 | as many open rows as the limit allows, those due longest first |
| `Claims.PostTable.ClaimPosts` | trackers/reddit/src/claims.ts:168-189 | only unlocked rows that are due and not under a standing claim are marked |
| `Claims.PostTable.Perform` | trackers/reddit/src/claims.ts:148-389 | every statement on the posts is a step the runs allow, and leaves the table they go on from; what each step stores is said by `Claims.ReportStores` and `Claims.OtherStepsStore` |
| `Claims.ReportStores` | trackers/reddit/src/claims.ts:192-338 | the status, verdict, attempts and due time that each report leaves on the one row its holder reports on: a sent post is notified with no attempts, a copy a duplicate, the fifth failure failed; every other row stays |
| `Claims.OtherStepsStore` | trackers/reddit/src/claims.ts:148-389 | what claims, insertions, requeues and releases leave on each row |
| `Claims.OpenExactly` | trackers/reddit/src/claims.ts:177-184 | a row is open if and only if it waits for that stage, is due, and is unclaimed or claimed more than five minutes ago |
| `Claims.RequeueFollowsVerdict` | trackers/reddit/src/claims.ts:192-355 | once evaluated, and in every run until it is judged again, a post is requeued to the stage its verdict names, with all its attempts |
| `Claims.ReportDecides` | trackers/reddit/src/claims.ts:192-338 | a report reaches only a row its worker still holds, changes no other and frees it; from then on the post is due for a stage exactly when its outcome brings it back: a target at its old time, a deferred one after its wait, a failed stage below the fifth failure after thirty seconds doubled per attempt, the rest never |
| `Claims.FreeRowsStay` | trackers/reddit/src/claims.ts:168-389 | in every run a row nobody holds changes only when it is claimed or requeued: late and repeated reports do nothing |
| `Claims.ClaimedRowStays` | trackers/reddit/src/claims.ts:168-389 | in every possible run, while a claim stands only its holder changes the row, a requeue aside |
| `Claims.RequeuedIsDue` | trackers/reddit/src/claims.ts:344-355 | a requeued post is due at once for the stage its verdict names and for no other, and its former holder's reports no longer reach it |
| `Claims.PostTable.ReleaseAllClaims` | trackers/reddit/src/claims.ts:386-387 | exactly this worker's marks on posts go |
| `Claims.RunsStayOrderly` | trackers/reddit/src/claims.ts:148-389 | whatever callers do, a queued post has fewer than five attempts and only queued posts are claimed |
| `Claims.NeverTwoAtWork` | trackers/reddit/src/claims.ts:168-389 | with holders in time and only failed posts requeued, no two workers ever have one post in hand |
| `Claims.OnlyRequeueReopens` | trackers/reddit/src/claims.ts:344-355 | a settled or parked row changes if and only if the step is a requeue of that post |
| `Claims.VerdictsAreFinal` | trackers/reddit/src/claims.ts:192-275 | where only failed posts are requeued, rejected, notified and duplicate rows never change again in any run, however late a holder is |
| `Claims.RequeueRevivesNotified` | trackers/reddit/src/claims.ts:344-355 | a notified post requeued is due for alerting again |
| `Claims.RequeueBreaksExclusion` | trackers/reddit/src/claims.ts:344-355 | a held post requeued is handed to a second worker |
| `Claims.OverrunBreaksExclusion` | trackers/reddit/src/claims.ts:168-189 | a holder that outlives its claim can find a second worker beside it |
| `Claims.CeilingIsNeverReached` | trackers/reddit/src/claims.ts:322-338 | in every reachable table the wait doubles exactly and stays below eight minutes, and the post is parked if and only if this was the fifth failure |
| `Leases.LeaseTable.Perform` | trackers/reddit/src/claims.ts:361-389 | every statement on the leases is a step of the runs, and answers yes exactly when its worker then believes it holds the lease |
| `Leases.KeptUntilItLapses` | trackers/reddit/src/claims.ts:361-375 | in every run, until the moment it was taken for no call of another worker takes a lease away, and it is free for the holder alone; the moment after, for everyone |
| `Leases.TakenForItsTime` | trackers/reddit/src/claims.ts:361-375 | a lease is taken if and only if nobody else's runs on, and then for exactly the time asked: till then, in every run in which it neither renews nor gives up, nobody else takes it, and after it anybody may |
| `Leases.GivingUpFrees` | trackers/reddit/src/claims.ts:378-389 | giving a lease up, or all of them, frees exactly what the worker held and no other's |
| `Leases.LeaseTable.ReleaseAllLeases` | trackers/reddit/src/claims.ts:388 | exactly the worker's leases go |
| `Leases.OneHolder` | trackers/reddit/src/claims.ts:361-380 | at most one worker at a time believes it holds a lease, whatever lifetimes are asked for |
| `Dedup.WordsAreRuns` | trackers/reddit/src/dedup.ts:39-41 | the words of a text are exactly its maximal runs of letters and digits |
| `Dedup.CutWant` | trackers/reddit/src/dedup.ts:35 | what stays of a title is everything before the first "[w]" |
| `Dedup.StripTags` | trackers/reddit/src/dedup.ts:36 | no closed bracket pair is left, and a text without one bracket or the other is unchanged |
| `Dedup.TagsBecomeBlanks` | trackers/reddit/src/dedup.ts:36 | the text before a tag stays, the tag up to its first closing bracket is one blank, and what follows is stripped likewise |
| `Dedup.Jaccard` | trackers/reddit/src/dedup.ts:43-48 | the counting loop decides the ratio of the intersection to the union |
| `Dedup.IsSameListing` | trackers/reddit/src/dedup.ts:57-77 | the early exits decide the comparison |
| `Dedup.CopiesExactly` | trackers/reddit/src/dedup.ts:12-108 | two posts are copies if and only if they have one named author, lie at most 72 hours apart, are at odds neither in their counts nor in their makers, and share 0.6 of their title words and half of those with digits, or, in two subreddits, 0.8 of the words of two bodies of 80 characters |
| `Dedup.SwapTitle` | trackers/reddit/src/dedup.ts:30-37 | of a swap title only the words between the tag and the want count |
| `Dedup.SameListingIsSymmetric` | trackers/reddit/src/dedup.ts:57-93 | being copies does not depend on which post is asked |
| `Dedup.PrefilterLosesNothing` | trackers/reddit/src/dedup.ts:126-134 | the query's author and window clauses lose no copy |
| `Dedup.Siblings` | trackers/reddit/src/dedup.ts:127-135 | exactly the selected rows, in the order of time and id |
| `Dedup.FindAlertedCopy` | trackers/reddit/src/dedup.ts:122-144 | none if and only if no copy was alerted and none comes before; otherwise the first alerted copy, or the first of all copies |
| `Dedup.LetThroughIsFirst` | trackers/reddit/src/dedup.ts:114-144 | the post let through was posted before each of its copies, ids deciding at one moment |
| `Dedup.SentSilencesCopies` | trackers/reddit/src/dedup.ts:114-144 | once the holder of a post has reported it sent, every copy of it finds an alerted one, in every run in which only failed posts are requeued |
| `Dedup.AtMostOneIsLetThrough` | trackers/reddit/src/dedup.ts:114-144 | of two copies in one snapshot at most one is let through |
| `Dedup.SomeoneIsLetThrough` | trackers/reddit/src/dedup.ts:114-144 | among copies without an alerted one some copy is always let through |
| `RefreshTokens.Store.Serve` | apps/backend/src/auth.ts:174-232 | every request is a step of the runs, and a presentation answers as the rotation does; what a step changes is said by `RefreshTokens.RevokesExactly` |
| `RefreshTokens.AcceptedExactlyWhen` | apps/backend/src/auth.ts:193-222 | a token is accepted if and only if it is live, not expired and its user active; refused, it changes the rows only when it had been used before |
| `RefreshTokens.AcceptedOnce` | apps/backend/src/auth.ts:193-222 | a token accepted once is refused in every continuation, and presenting it again leaves its family dead |
| `RefreshTokens.Store.RevokeFamily` | apps/backend/src/auth.ts:224-227 | exactly the family's tokens are revoked |
| `RefreshTokens.Store.RevokeUserRefreshTokens` | apps/backend/src/auth.ts:229-232 | exactly the user's tokens are revoked |
| `RefreshTokens.LoginIsAccepted` | apps/backend/src/auth.ts:174-232 | in every run that neither presents it nor ends its session, a login's token is accepted for an active user exactly until its fourteen days are over |
| `RefreshTokens.SuccessorIsAccepted` | apps/backend/src/auth.ts:160-232 | the successor of an accepted token belongs to the same user and family and, left alone in a run, is accepted for an active user exactly until fourteen days after the rotation |
| `RefreshTokens.SessionGoesOn` | apps/backend/src/auth.ts:160-232 | a session whose active user comes back within fourteen days each time never ends, whatever others do meanwhile |
| `RefreshTokens.RevokesExactly` | apps/backend/src/auth.ts:193-232 | every request revokes exactly the tokens it uses up, logs out, finds stolen or whose user's sessions it ends, and adds no row but a login's and a successor's |
| `RefreshTokens.RunsKeepOneLive` | apps/backend/src/auth.ts:174-232 | in every run each family has at most one token that is not revoked |
| `RefreshTokens.RotationHandsOn` | apps/backend/src/auth.ts:193-222 | a rotation takes liveness from the token presented and gives it to exactly its successor, touching no other family |
| `RefreshTokens.ReuseKills` | apps/backend/src/auth.ts:216 | a revoked token presented leaves its family without a live token |
| `RefreshTokens.DeadForever` | apps/backend/src/auth.ts:174-232 | a dead family stays dead in every continuation |
| `RefreshTokens.TheftEndsFamily` | apps/backend/src/auth.ts:193-222 | after a reuse no token of that family is ever accepted again |
| `SpecCascade.FindRankLimit` | packages/shared/src/specCascade.ts:143-152 | the loop finds the tighter of the two limits, the form's on a tie |
| `SpecCascade.RanksReadAsSpelled` | packages/shared/src/specCascade.ts:107-123 | the rank pattern takes exactly the spellings of count, stack, dual and width, and reads their numbers |
| `SpecCascade.CascadePatch` | packages/shared/src/specCascade.ts:197-246 | the patch written step by step breaks no rule of the save on what changed, and taken again changes nothing more |
| `SpecCascade.PatchedLineSaves` | packages/shared/src/specCascade.ts:197-282 | for all strings the patched line breaks no rule judged on what changed |
| `SpecCascade.CascadeIsIdempotent` | packages/shared/src/specCascade.ts:197-246 | applied to its own result the cascade adds nothing |
| `SpecCascade.OfferedPicksAreKept` | packages/shared/src/specCascade.ts:173-246 | a pick in a filtered select is kept if and only if the select offers it |
| `SpecCascade.OnlyPeersAreSettled` | packages/shared/src/specCascade.ts:197-246 | generation and interface, and the other category's fields, are never touched |
| `SpecCascade.OtherEditsAreLeftAlone` | packages/shared/src/specCascade.ts:191-196 | an edit of other fields leaves a conflict that was there before alone |
| `SpecRules.RefusedExactly` | packages/shared/src/specCascade.ts:29-282 | by the names on the labels: for which lines, and for which of the rules on generation, device, rank and bay, a save is refused |
| `SpecRules.RankRefusal` | packages/shared/src/specCascade.ts:143-275 | how a rank is refused and the label it is said not to fit |
| `SpecRules.MemoryFills` | packages/shared/src/specCascade.ts:197-241 | what any patch makes of a memory line, by name: a CAMM from before DDR5 goes, a form set anew decides the device, else the device the form, and then a rank that does not fit goes |
| `SpecRules.DriveFills` | packages/shared/src/specCascade.ts:61-74 | of a drive a bay that does not plug into the bus goes, and a line just made SAS gets the 2.5" bay when it has none |
| `SpecRules.ValueIsRead` | packages/shared/src/specCascade.ts:103-104 | a value is read without the blanks around it and in upper case |
| `Toml.Emit` | trackers/facebook/rs_worker/entry.py:728-739 | the recursive writer appends exactly the table's lines |
| `TomlLimits.TomlDumps` | trackers/facebook/rs_worker/entry.py:724-741 | the text written reads back as the data without its Nones when every kept key and string is writable, and otherwise does not read |
| `Toml.SampleDocument` | trackers/facebook/rs_worker/entry.py:700-741 | one document in full: scalars first, tables under their headers, None left out |
| `TomlRoundTrip.ValueReads` | trackers/facebook/rs_worker/entry.py:707-721 | every value on a line reads back, at any nesting of arrays and inline tables, whatever follows it |
| `TomlRoundTrip.KeyReads` | trackers/facebook/rs_worker/entry.py:700-704 | a bare or quoted key reads back |
| `TomlDocument.TableRuns` | trackers/facebook/rs_worker/entry.py:728-739 | read where its header can be opened, a table's lines fill exactly that table: no key moves into another |
| `TomlDocument.RoundTrip` | trackers/facebook/rs_worker/entry.py:724-741 | reading what was written gives the data without its Nones |
| `TomlLimits.ValueFails` | trackers/facebook/rs_worker/entry.py:707-721 | a value that holds an unwritable key or string does not read |
| `TomlLimits.WritableExactly` | trackers/facebook/rs_worker/entry.py:700-741 | the document reads back if every kept key and string is writable, and otherwise not at all |
| `TomlLimits.NewlineKeyBreaks` | trackers/facebook/rs_worker/entry.py:700-704 | the key "a\n" does not survive |
| `PartNumber.SpellingsMatchAlike` | packages/shared/src/partNumberCanon.ts:42-58 | in every string the template and its linear rewrite match the same leading label, of the same length |
| `LabelGrammar.EndsAreLang` | packages/shared/src/partNumberCanon.ts:42-58 | the ends the backtracker finds for a pattern are exactly those of the pattern's texts |
| `LabelGrammar.LabelIsTaken` | packages/shared/src/partNumberCanon.ts:42-82 | what is taken off the front is a label in words: blanks, P/N, S/N or PART with NO or NUMBER, and a separator; nothing is taken if and only if none stands there |
| `LabelGrammar.TemplateIs` | packages/shared/src/partNumberCanon.ts:42-44 | the template's texts are exactly those labels |
| `LabelLongest.LinearIs` | packages/shared/src/partNumberCanon.ts:42-58 | the linear spelling has exactly the same texts |
| `LabelLongest.LongestIsTaken` | packages/shared/src/partNumberCanon.ts:42-82 | and it is the longest label there |
| `LabelGrammar.KeyIsByCharacter` | packages/shared/src/partNumberCanon.ts:60-82 | the key drops ASCII blanks, underscores and dashes and takes every other character in upper case |
| `LabelGrammar.CountedCodes` | packages/shared/src/ramPartDecode.ts:671-680 | the characters the split does not count, by code point |
| `PartNumber.LettersAgree` | packages/shared/src/partNumberCanon.ts:42-58 | the P/N and S/N alternatives find the same first match |
| `PartNumber.PartsAgree` | packages/shared/src/partNumberCanon.ts:42-58 | so does the PART alternative, though the template tries more ends |
| `PartNumber.EndsCut` | packages/shared/src/partNumberCanon.ts:60-82 | in a string cut short the backtracker finds the same ends, as far as they go |
| `PartNumber.LabelOfHead` | packages/shared/src/partNumberCanon.ts:80-82 | a head that holds the label has the same label |
| `PartNumber.SplitFamily` | packages/shared/src/ramPartDecode.ts:671-680 | the pieces concatenate to the input, and the head ends with the last character its count takes, or with the string |
| `PartNumber.FamilyEndsOnce` | packages/shared/src/ramPartDecode.ts:671-680 | there is one such end |
| `PartNumber.KeySplitsExactlyWhen` | packages/shared/src/ramPartDecode.ts:666-680 | for every string and upper case, the head's key is the first characters of the whole key, where that has as many, if and only if no character of the head is a blank for the count alone or has more than one character in upper case; with too few counted characters, if and only if these, the blanks for the count alone and the growth in upper case come to no more |
| `PartNumber.NbspMovesTheSplit` | packages/shared/src/ramPartDecode.ts:677 | with a non-breaking space in the head its key is not the first two characters |
| `Base32.Base32Bytes` | packages/shared/src/facebookPool.ts:245-261 | sixteen bits of accumulator decode what was pasted, key or link, as the unbounded decoding of section 6 of RFC 4648, null included |
| `Base32.AccumulatorHolds` | packages/shared/src/facebookPool.ts:253-254 | the mask keeps every pending bit |
| `Base32.DecodeEncode` | packages/shared/src/facebookPool.ts:245-261 | decoding the unpadded encoding of any non-empty bytes gives them back |
| `Base32.ValueIsPlace` | packages/shared/src/facebookPool.ts:251 | a character's value is its place in the alphabet |
| `Base32.DecodedIsNumber` | packages/shared/src/facebookPool.ts:245-261 | the bytes are, as one number to base 256, the key to base 32 without the bits left over |
| `Base32.SecretOfLink` | packages/shared/src/facebookPool.ts:232-236 | of a link in whatever case the secret runs to the next parameter, the fragment or the end |
| `Base32.SeparatorCodes` | packages/shared/src/facebookPool.ts:236-241 | what is dropped from a pasted key, by code point |
| `Base32.SpacingIsIgnored` | packages/shared/src/facebookPool.ts:230-261 | blanks, dashes and padding put anywhere into a key, and letters in either case, decode to the same bytes |
| `Base32.LinkIsRead` | packages/shared/src/facebookPool.ts:232-239 | so does the first secret parameter of an otpauth link, once its escapes are undone |
| `Base32.OtherLinksAreRefused` | packages/shared/src/facebookPool.ts:225-239 | a link without a secret, or whose first one is malformed, decodes to null, whatever follows |
| `Calendar.DayOfDate` | packages/shared/src/reporting.ts:35-41 | every day number is the day of a civil date, by the leap-year rule |
| `Calendar.DateOfDay` | packages/shared/src/reporting.ts:35-41 | and of one only: dates and day numbers are in bijection |
| `Calendar.MonthTable` | packages/shared/src/reporting.ts:35-41 | the lengths of the months and the days before them, with the leap-year rule |
| `Calendar.LeapDay` | packages/shared/src/reporting.ts:35-47 | 29 February 2024 is day 19782, read and written |
| `Calendar.IsoIsOrdinary` | packages/shared/src/reporting.ts:43-47 | the round-trip test takes exactly the texts of real dates of the years 100 to 9999: February 30 is refused, and so is a year below 100 |
| `Calendar.TextsCompareAsDays` | apps/backend/src/lib/reporting-window.ts:43 | comparing two dates as texts compares their days |
| `Calendar.AddDaysMoves` | packages/shared/src/reporting.ts:58-65 | a date moved by days is a date exactly while it stays in those years, and then it is that many days away |
| `Calendar.AddDaysTwice` | packages/shared/src/reporting.ts:58-60 | two moves are one |
| `Calendar.AddMonthsClamps` | packages/shared/src/reporting.ts:75-82 | where the month reached lies in the years 0 to 9999, the result is its same day or its last day; a year below 100 comes out in the twentieth century |
| `Calendar.AddMonthsIsDate` | packages/shared/src/reporting.ts:75-82 | the result is a date if and only if the month reached lies in the years 0 to 9999, and it lies in that month if and only if the year is 100 to 9999 |
| `Calendar.ShortYearMoves` | packages/shared/src/reporting.ts:75-82 | one month before 15 January 100 comes out as 15 December 1999 |
| `Calendar.AddMonthsBack` | packages/shared/src/reporting.ts:75-82 | for every date and every number of months, going back undoes it if and only if the month reached lies in the years 100 to 9999 and the day was not clamped |
| `Calendar.TrailingYearLength` | packages/shared/src/reporting.ts:84-87 | the trailing year always begins with a date, and has 365 or 366 days if and only if today is past the year 100 |
| `Calendar.PreviousIsEqual` | packages/shared/src/reporting.ts:108-113 | the window before has the same length and ends the day before, exactly while it does not reach below the year 100 |
| `Calendar.WindowIsTakenExactlyWhen` | apps/backend/src/lib/reporting-window.ts:41-63 | two texts make a window if and only if they are dates, in order, of at most 1100 days |

## Left out

- FleetAgent.Agent.Tick: reports, notes, log lines, errors, the keepalive timer and the daemon's identity are not modelled; they decide nothing the plan reads.
- FleetAgent.Agent.ApplyAll: of an action that fails it states the first call, not those made before the failure; once a save has failed it does not say which actions were asked for.
- FleetHost.Host.Run: only the agent creates containers for the focus; a container a person creates for the same id during a handoff is outside what the code promises.
- FleetRuns.Run: it states safety at every crash point; that a wanted worker is eventually started is not stated, since every outside call may fail forever.
- FleetState.LoadMemory: parsing JSON text is not part of this model; the file is a JSON value, or unreadable.
- FleetSteps.RemovalKeepsStart: a start lost after a failed save is admitted by the run's contract, because the code allows it.
- Boxes.StackedMerge: the ratios are exact; a division rounded in floating point at the very threshold is not modelled.
- Sheet.SegmentMask: the colour thresholds of `buildMask`, `clearBorder`, the page fractions and the `maybeMerged` flag are left out; the mask is arbitrary and the boxes are in pixels.
- `findRamStickInPhoto`, `padSheetBox`, `padStickBox`: thresholds and clamping, easy members beside the shared algorithms.
- Claims.ReportDecides: the record of the sent alert messages is a second table and is left out; verdict texts are too.
- Claims.PostTable.ReleaseAllClaims: the subreddits' marks go in the same way and are not modelled; the leases of the same shutdown are those of `Leases.LeaseTable.ReleaseAllLeases`.
- Subreddit claims follow the same claim query as posts and would repeat it.
- Dedup.FindAlertedCopy: ids compare as strings of characters; a database collation that orders them otherwise is not modelled. Lower case and body length are those of ASCII text.
- Dedup.AtMostOneIsLetThrough: it concerns one snapshot; a copy that becomes a target while another is being sent is not excluded by the code.
- RefreshTokens.Store.Serve: hashing and randomness are fresh abstract values; the row lock is the atomicity of the step; access tokens are left out.
- SpecCascade.CascadePatch: trimming and upper case are those of ASCII, and fields no rule reads are left out.
- SpecCascade.PatchedLineSaves: the wording of the refusals is left out; which rule and which mark they name is kept.
- TomlLimits.TomlDumps: floats, the TypeError for other values and the 64-bit range of TOML integers are left out; integers are unbounded.
- TomlDocument.RoundTrip: the reader covers the constructs the writer emits; literal and multi-line strings, dates, dotted keys and arrays of tables are refused. Lone surrogates cannot be written down as characters here.
- PartNumber.SpellingsMatchAlike: its blanks are those of the patterns' own class, which is ASCII; letters match in the two cases of ASCII.
- PartNumber.SplitFamily: a character is one index here; beyond sixteen bits the source counts two. The upper case is any function of one character.
- Base32.Base32Bytes: `decodeURIComponent` and `toUpperCase` are parameters; of the second only what it does to ASCII is used.
- `rankOf`, `ramPartFill`, `reconcileRamScan`, the maker tables of `decodeExact`, `render_config`, `resolve_env_refs`: tables and record filling with easy members.
- The heartbeat registry and the message composer of the alert sender are not part of this model.
- Calendar.WindowIsTakenExactlyWhen: today's date, the bucket sizes and the presets other than the trailing year are left out.
- Telegram, Docker, Postgres, the HTTP layer and the web interfaces are replaced by arbitrary answers or left out.
