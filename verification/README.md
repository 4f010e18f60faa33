# A model of the hub's decisions

The hub watches hosts, raises alerts, notifies people, and starts and stops cloud resources on a weekly schedule. This
project models the part of it that decides *when to act* and *what survives a crash*, and proves what each part is for.

| file | what it models |
|---|---|
| `Calendar`, `Zone`, `Schedule`, `Timeline`, `Week` | dates; off windows: the wall clock across a change of offset, the merged four-day list, the two questions asked of it, and what a run of minute ticks acts on |
| `Actions`, `ActionRuns`, `Visits` | start and stop actions: write-ahead rows, one call each, schedules, catch-up; at most once; and what a schedule row is acted on over whole runs |
| `Deliveries`, `Dispatcher`, `Pipeline`, `Wiring` | delivery rows, the bounded queue, the retry loop, held rows and the boot replay; at least once |
| `Notify`, `Owed`, `Routing` | who is owed what, over re-routing, and who exactly is written to |
| `QuietHours`, `Holding` | quiet hours, and how long they hold a row over runs of the whole pipeline |
| `Reminders`, `Pacing` | reminders, and how far apart they are over runs of the whole pipeline |
| `Journal`, `Alerts`, `Evaluation`, `AlertRuns` | the alert machine, one evaluation, and the log it is rebuilt from |
| `Guardrails`, `Writers` | budget and orphan guardrails, and the one journal they share with the schedules |
| `Rollup`, `Extremes`, `Figures` | the incremental three-level rollup against a batch one, what its columns keep, and what every figure is |
| `Retention`, `Necessity`, `Losses` | what purges leave of the rollup: exactly which runs they cost nothing, and two they do |
| `Stamps` | timestamps as text, and what comparing the text makes of time |
| `Inventory` | the inventory sweep and the orphan marks |

Tables are maps, instants are integers in nanoseconds from the Unix epoch, floating-point figures are reals. Code that
updates state is a class or a method with the source's loops, proved against a specification function; what the source
promises is then proved of that function. Protocols are state machines over their steps, with a crash possible between any
two; `Wiring` and the last section of `ActionRuns` show that the hub's own loops are runs of those steps.

Common hypotheses: a store write succeeds or the hub dies there; the clock does not go back; booting (replay, interruption,
catch-up) is one step; the order of a Go map is arbitrary, so where the source ranges over one the model picks elements in
any order; hosts and journal entries are not deleted while something about them is under way.

## What turned out otherwise

* `internal/hub/guardrails/schedule.go:124-136` says that snapping a skipped minute to the next full hour always reaches the
  first instant of the new offset. It does exactly when the skipped stretch ends on that hour (`Zone.GapSnapExact`); Lord
  Howe Island's half-hour change overshoots by thirty minutes (`Zone.HalfHourGapOvershoots`).
* The four-day list can make the hub act although nothing is due: when the timeline has been off without a break since before
  the local midnight two days ago, whether or not that stretch ever began, or on without a break since just before a listed
  window that a skipped hour swallowed whole (`Timeline.Misfires`). A tick with nothing due does nothing exactly outside
  those instants (`Timeline.SilentTickExact`), and runs of minute ticks are exact if and only if the schedule has none
  (`Timeline.TicksExactIff`). The settings page accepts lists that have some: every day (`Week.AlwaysOffMisfires`, stopped
  again each day although it has no boundary at all), Friday to Monday (`Week.LongWeekendMisfires`), and a window inside the
  hour skipped in spring (`Week.SkippedWindowMisfires`). The evenings-and-weekends preset has none (`Week.PresetNeverMisfires`).
* `LastBoundary` and `Off` agree exactly unless a listed window opens and closes at one instant that no listed window reaches,
  with none opened since (`Timeline.LastBoundaryAgreesWithOff`).
* Reminders keep their interval exactly when it is no longer than delivery rows are kept, thirty days
  (`Reminders.SpacingExact`); the settings page allows a week.
* The budget says nothing new on the same figures exactly when no resource has cost rows on both sides of the share line
  (`Guardrails.BudgetSettlesExactly`); the cost table's primary key rules that out within a month.
* `internal/hub/store/store.go:141` has timestamps sort as text. They do exactly when they lie in different seconds or the
  earlier one's fraction is not the beginning of the later one's (`Stamps.TextOrderExact`): a whole second sorts after every
  fraction of it (`Stamps.TextOrderFails`). Where a column is compared with a whole second, as the bounds of rollup windows
  are, what was dated within the second after the bound counts as before it (`Stamps.BeforeWholeSecond`).
* A purge can cost the rollup what was in it. The next call starts from a level's newest window and writes it anew from the
  rows still there: it comes out as it was, whatever was in it, if and only if the cut does not fall between its rows
  (`Retention.WindowExact`), and over whole runs exactly when the dates clear every call (`Necessity.RetentionExact`). With
  the settings as they come, a fleet that falls silent for a day is enough: the last ten-minute row is written anew from
  the samples the purge had not reached yet (`Losses.DefaultsLose`). With hours kept for one day, which the settings page
  allows, the last day's row is written from fewer hours each hour (`Losses.DayIsEaten`).

## Model

| member | source | states |
|---|---|---|
| Zone.ClockIsEarliest | internal/hub/guardrails/schedule.go:152-169 | in any zone with one change (an hour forward on the hour, or up to six hours back, away from midnight) a wall-clock minute becomes the first instant of its day reading at least that; so a repeated hour gives one boundary, whichever instant time.Date picks |
| Zone.EarliestIsLeast | internal/hub/guardrails/schedule.go:138-142 | the instant meant by a reading: its wall clock reads at least that and no earlier instant's does |
| Zone.GapSnapExact | internal/hub/guardrails/schedule.go:130-136 | for any forward change, the snap reaches the first instant of the new offset if and only if the gap ends on the hour after the minute asked for |
| Zone.HalfHourGapOvershoots | internal/hub/guardrails/schedule.go:158-160 | a zone in which it does not |
| Schedule.MinutesRoundTrip | internal/hub/guardrails/schedule.go:76-86 | "HH:MM" is read back as written, "24:00" only as an end, and nothing but a written time is read |
| Schedule.ParseWindows | internal/hub/guardrails/schedule.go:42-59 | refuses at the first bad window, and otherwise returns the same windows with their days sorted |
| Schedule.Merge | internal/hub/guardrails/schedule.go:171-183 | strictly separated blocks covering and touching exactly what the input does, each beginning where an interval of it begins and ending where one ends |
| Schedule.MergeOrderFree | internal/hub/guardrails/schedule.go:120-121 | the result depends only on which intervals there are, so a sort that is free to swap equal starts changes nothing |
| Schedule.Intervals | internal/hub/guardrails/schedule.go:95-122 | the one list of separated blocks that covers and touches exactly what the windows opening from two local days before to one after do, opening where one opens and closing where one closes |
| Schedule.ViewIsUnique | internal/hub/guardrails/schedule.go:92-122 | windows, zone and local day leave no choice in that list, empty blocks included |
| Schedule.Off | internal/hub/guardrails/schedule.go:196-203 | true if and only if the instant lies in the unbounded union of every day's windows; in a zone of one offset, if and only if less than a window's length has passed since its time of day on one of its days of a week counted from Monday 5 January 2026 |
| Schedule.OffIsWeekly | internal/hub/guardrails/schedule.go:95-116 | in a zone of one offset the timeline is that of the week, over and over: what day of the week an instant is, when windows open and how long they last, by arithmetic from one Monday |
| Schedule.WrittenTimes | internal/hub/guardrails/schedule.go:61-86 | a window written "HH:MM" to "HH:MM" is accepted if and only if it has days, all from 1 to 7, and only its end is "24:00"; it opens and closes at those minutes |
| Schedule.LastBoundary | internal/hub/guardrails/schedule.go:207-219 | the latest start or end at or before the instant in that list, and whether there is one |
| Schedule.LatestIsLatest | internal/hub/guardrails/schedule.go:207-219 | of any list: nothing at or before the instant is later, a start is told from an end, and a start wins over its own block's end only when that is not later |
| Schedule.ZeroIsYearOne | internal/hub/guardrails/schedule.go:207-209 | the instant no boundary is before is 1 January of year 1 |
| Schedule.SameWindowsSameTimeline | internal/hub/guardrails/schedule.go:29-32 | sorting days changes nothing a window list means |
| Timeline.LastBoundaryReads | internal/hub/guardrails/schedule.go:207-219 | what LastBoundary returns is the last change of the four-day view, and nothing when there is none, if and only if no listed window vanished, unreached by any, with none opened since |
| Timeline.LastBoundaryAgreesWithOff | internal/hub/guardrails/schedule.go:196-219 | Off equals (ok and off) of LastBoundary under exactly the same condition on the windows |
| Timeline.LastBoundaryExact | internal/hub/guardrails/schedule.go:95-122 | it is the unbounded timeline's last boundary if and only if a listed window makes that boundary and none has vanished since |
| Timeline.RecentBoundaryIsExact | internal/hub/guardrails/schedule.go:92-98 | so for every start since two local days ago and every end since yesterday's midnight, if and only if none has vanished since |
| Timeline.SilentTickExact | internal/hub/guardrails_hub.go:235-237 | a tick at which nothing is due does nothing, whatever the row remembers, if and only if the timeline has not been off since before the midnight two days ago, nor on since a listed window vanished |
| Timeline.TicksAreExact | internal/hub/guardrails_hub.go:199-275 | minute ticks of any row once visited, or with nothing due, act on every later boundary, once, in order, the right way, within a minute, and never in between, as long as none of them falls on an instant that misfires |
| Timeline.TicksExactIff | internal/hub/guardrails_hub.go:199-275 | and that holds of every run of ticks of every such row if and only if the schedule misfires at no instant, timelines without a boundary included |
| Timeline.MisfireShows | internal/hub/guardrails_hub.go:229-237 | at every instant that does, one tick of a row with nothing due acts, on a stop that is no boundary |
| Week.CoversWholeWeek | internal/hub/guardrails/schedule.go:226-237 | its 10080 samples are all off if and only if every instant of every week is |
| Week.WeekdayIsOff | internal/hub/guardrails/schedule.go:99-107 | an all-day window of weekday k is off exactly on the k-th day of every week counted from Monday 5 January 2026, in any fixed zone |
| Calendar.Landmarks | internal/hub/guardrails/schedule.go:221-226 | which instants the epoch, time.Time's zero value and Monday 5 January 2026 are |
| Calendar.MonthsFollow | internal/hub/guardrails/budget.go:45-48 | the first of a month and its length give the first of the next, over the end of a year too |
| Calendar.MonthLengths | internal/hub/guardrails/budget.go:45-48 | the day before the first of the next month is the 31st, 30th, 29th or 28th as the calendar has it |
| Week.PresetNeverMisfires | internal/hub/guardrails/schedule.go:22-27 | the evenings-and-weekends preset misfires at no instant of any fixed zone |
| Week.AlwaysOffMisfires | internal/hub/server/api_guardrails.go:314-367 | a list accepted for a schedule, off every day and all day: no boundary ever, and a stop every day |
| Week.LongWeekendMisfires | internal/hub/server/api_guardrails.go:314-367 | another, off from Friday to Monday: on Monday the stop of Friday midnight is acted on again as Saturday's |
| Week.SkippedWindowMisfires | internal/hub/guardrails/schedule.go:108-116 | a window inside the hour skipped in spring: for half a day LastBoundary says off, Off says on, and the hub may stop the resource |
| Week.Repeats | internal/hub/guardrails/schedule.go:221-225 | a fixed zone's timeline is the UTC one shifted, and repeats weekly |
| Week.OnMinuteWithinAWeek | internal/hub/guardrails/schedule.go:221-225 | windows that leave anything out leave a whole minute out of every seven days |
| Actions.ActionTable.StartAzureAction | internal/hub/store/azure_actions.go:54-72 | a pending row under an id above every other, with the fields asked for, or a refusal exactly when one is in flight for the resource; at most one stays in flight per resource |
| Actions.ActionTable.MarkAzureActionRunning | internal/hub/store/azure_actions.go:81-84 | pending becomes running and nothing else changes |
| Actions.ActionTable.FinishAzureAction | internal/hub/store/azure_actions.go:86-93 | the row is closed with its outcome, whatever its state was |
| Actions.ActionTable.InterruptAzureActions | internal/hub/store/azure_actions.go:95-108 | exactly the pending and running rows become interrupted, dated now; every other row and every other field stays |
| Actions.DoResponse | internal/hub/azure/client.go:188-211 | as many attempts as it takes to one that is a 2xx, not worth retrying, last, or not followed by a full wait; each wait is the server's, or one second, five, twenty-five |
| Actions.Backoff | internal/hub/azure/client.go:66-74 | one second times five to the attempt before |
| Actions.OneMayHaveActed | internal/hub/azure/actions.go:178-184 | under the action policy an attempt is followed by another if and only if it was turned away with a 429 and waited out with one left, so at most one request may have acted |
| Actions.ReadsGoOn | internal/hub/azure/client.go:161-166 | under the reads' policy an attempt is followed by another if and only if it was a 429, a 5xx, an answer missing while the hub runs, or a token that may yet be had, waited out with one left |
| Actions.ReadPolicyActsTwice | internal/hub/azure/client.go:161-166 | the reads' policy would repeat a request that may have acted |
| Actions.ScheduleHub.UpsertAzureSchedule | internal/hub/store/azure_schedules.go:24-36 | an edit keeps last_boundary and last_applied_at |
| Actions.ScheduleHub.MarkScheduleBoundary | internal/hub/store/azure_schedules.go:97-103 | only the two marks of that row change |
| Actions.ScheduleHub.StartActionFrom | internal/hub/azure_action.go:29-56 | a row and a call if and only if the integration is on, the resource is listed, not gone, a site or a virtual machine, and nothing is pending or running for it; the row has the fields asked for |
| Actions.ScheduleHub.RunSchedule | internal/hub/guardrails_hub.go:218-273 | one schedule as the list had it: leaves it, marks a boundary too old, or marks and then acts, journalling a refusal |
| Actions.ScheduleHub.RunSchedules | internal/hub/guardrails_hub.go:210-275 | all rows of one reading of the table, in its order: a new action row is a stop where the listed windows turn off and a start where they turn on, on a boundary not seen before and not older than the limit; what each row remembers afterwards; nothing when the integration is off |
| Actions.ScheduleHub.ApplySchedules | internal/hub/guardrails_hub.go:196-199 | the minute tick: the same with no limit |
| Actions.ScheduleHub.CatchUpSchedules | internal/hub/guardrails_hub.go:201-203 | the catch-up at boot: the same for boundaries at most twelve hours old, older ones marked only |
| Actions.RanAllAsks | internal/hub/guardrails_hub.go:235-261 | every action row a pass adds is what a schedule it listed asked for, and no other row changes |
| Actions.RanAllAnswers | internal/hub/guardrails_hub.go:253-273 | every boundary a pass acts on leaves its resource in use, by that action or one running already, or a failure in the journal when it cannot be acted on |
| Actions.RanAllRemembers | internal/hub/guardrails_hub.go:235-251 | a pass marks exactly the boundaries not seen before, too old ones included, and touches no other row |
| Actions.ScheduleHub.RunAction | internal/hub/azure_action.go:58-122 | runs, calls, reads back and closes one row: succeeded if and only if the last answer was a 2xx and the operation ended well; the journal says failed of a scheduled action's resource exactly when the row does |
| Actions.ScheduleHub.JournalScheduleFailure | internal/hub/guardrails_hub.go:162-178 | said once until resolved |
| Actions.ScheduleHub.JournalScheduleResolved | internal/hub/guardrails_hub.go:180-194 | said once, and only after a failure |
| Actions.NotedAlternates | internal/hub/guardrails_hub.go:162-194 | the schedule journal alternates, and says failed exactly when the last outcome was |
| Actions.NotedSays | internal/hub/guardrails_hub.go:162-194 | noting an outcome says it of that resource, adds an entry only when the journal said otherwise, and changes no other history |
| Visits.RowActsExactly | internal/hub/guardrails_hub.go:196-275 | over any stretch of any run, an unedited row visited every minute is acted on exactly at its timeline's boundaries, each once, in order, the right way and within a minute, however people act by hand, other rows change, or the hub dies in between |
| Visits.RowsStopAndStart | internal/hub/guardrails_hub.go:253-261 | and the action rows it causes stop its resource exactly where its timeline turns off, and start it exactly where its timeline turns on |
| Visits.VisitCatchesUp | internal/hub/guardrails_hub.go:235-251 | any visit leaves a row caught up, whatever it remembered and however old the boundary was |
| Visits.OthersLeaveIt | internal/hub/store/azure_schedules.go:24-36 | no step but its own visit changes what an unedited row remembers or has acted on |
| ActionRuns.NextKeeps | internal/hub/azure_action.go:124-138 | every step of passes over one reading of the table, edits and deletions in the middle of them, actions by hand, attempts and crashes keeps the invariant, changes no closed row and sends nothing more for one |
| ActionRuns.RunsKeepInv | internal/hub/guardrails_hub.go:235-261 | at every point of every run: one action in flight per resource, at most one request per row that may have acted, strictly increasing boundaries per life of a schedule row |
| ActionRuns.AtMostOnce | internal/hub/guardrails_hub.go:245-261 | over every run with crashes, one boundary of one schedule row is behind at most one action row and at most one request that may have acted |
| ActionRuns.VerbTellsTheWay | internal/hub/guardrails_hub.go:253-261 | over every run, an action row a schedule caused is a stop if and only if its boundary turns off, and a start otherwise, of the resource decided on |
| ActionRuns.IssueAnswers | internal/hub/guardrails_hub.go:253-272 | a decision that is issued gets a row if and only if its resource can be acted on and nothing is pending or running for it |
| ActionRuns.CrashInterrupts | internal/hub/store/azure_actions.go:95-108 | over every run, what was pending or running at a crash is interrupted from then on, dated by the crash, and nothing else is |
| ActionRuns.InterruptedStays | internal/hub/azure_action.go:124-138 | an interrupted row never changes and is never sent again |
| ActionRuns.CatchUpIsRecent | internal/hub/guardrails_hub.go:201-244 | catch-up acts on nothing older than twelve hours, nothing is acted on early, and later decisions are on later boundaries |
| ActionRuns.RunScheduleIsSteps | internal/hub/guardrails_hub.go:245-273 | one row of runSchedules' list is a decision step and an issue step of that machine |
| ActionRuns.RunSchedulesLeads | internal/hub/guardrails_hub.go:210-275 | and all of runSchedules, from reading the table to its last row, is a run of that machine's steps |
| ActionRuns.DoResponseIsSteps | internal/hub/azure/client.go:192-211 | doResponse is as many attempt steps as it made |
| ActionRuns.RunActionLeads | internal/hub/azure_action.go:58-122 | and all of runAction, from its row to its outcome, is a run of that machine's steps |
| Deliveries.DeliveryTable.AddDelivery | internal/hub/store/deliveries.go:72-91 | one new row, held or pending, under the next row id |
| Deliveries.DeliveryTable.MarkDeliverySent | internal/hub/store/deliveries.go:128-131 | the row is sent with its attempts, nothing else changes |
| Deliveries.DeliveryTable.MarkDeliveryFailed | internal/hub/store/deliveries.go:133-136 | the row is failed with its reason, nothing else changes |
| Deliveries.DeliveryTable.ReleaseDelivery | internal/hub/store/deliveries.go:99-103 | only a held row turns pending |
| Deliveries.DeliveryTable.PurgeDeliveries | internal/hub/store/deliveries.go:205-210 | exactly the settled rows untouched for that long go |
| Deliveries.DeliveryTable.LastReminder | internal/hub/store/deliveries.go:105-122 | the latest reminder row of the event, if any |
| Deliveries.StateIds | internal/hub/store/deliveries.go:93-97 | exactly the rows in a state, in id order |
| Dispatcher.Dispatcher.VictimIndex | internal/hub/notify/dispatcher.go:124-140 | the oldest reminder, else the oldest fired, else the oldest |
| Dispatcher.VictimIsAffordable | internal/hub/notify/dispatcher.go:124-140 | a fired is given up only when no reminder waits, a recovery only when nothing else does, and always the oldest of its kind |
| Dispatcher.Dispatcher.Enqueue | internal/hub/notify/dispatcher.go:96-122 | the queue after a batch, and a failed row for every job it gave up |
| Dispatcher.FailAllFails | internal/hub/notify/dispatcher.go:111-117 | the row of a job given up is failed, unsent, as the queue was full; every other row stays |
| Dispatcher.Dispatcher.PopJob | internal/hub/notify/dispatcher.go:153-162 | the oldest job, and the rest as it was |
| Dispatcher.QueueConserves | internal/hub/notify/dispatcher.go:99-162 | over every interleaving of Enqueue and pop: the bound holds, arrival order is kept, every job is popped, waiting or dropped exactly once, and every drop was affordable |
| Dispatcher.BatchEnters | internal/hub/notify/dispatcher.go:102-109 | a batch is its jobs entering one by one |
| Dispatcher.Dispatcher.Backoff | internal/hub/notify/dispatcher.go:87-94 | base times factor to the attempt before |
| Dispatcher.Dispatcher.Deliver | internal/hub/notify/dispatcher.go:189-218 | sends until one is accepted, refused, the last allowed, or not waited out, and only until then; delivered as soon as a send is accepted after retryable ones waited out; the row records exactly the sends made and how they ended; an interrupted wait records nothing |
| Dispatcher.WorkedCounts | internal/hub/notify/dispatcher.go:195-212 | every send but the last failed retryably and was followed by a full wait; there are at most as many as allowed; given up if and only if the last was refused or the last allowed, interrupted if and only if it was not waited out with one left |
| Dispatcher.SettlesOneWay | internal/hub/notify/dispatcher.go:195-212 | answers and waits leave one number of sends and one outcome |
| Dispatcher.TotalWait | internal/hub/notify/dispatcher.go:87-94 | the waits of n sends add up to base times (factor to the n-1, less one) over (factor less one) |
| Pipeline.NextKeeps | internal/hub/notify.go:161-195 | every step, crash included, keeps one live job per pending row, the queue bound and the bound on sends; rows only move forward |
| Pipeline.RunsKeepInv | internal/hub/notify/dispatcher.go:96-184 | so at every point of every run |
| Pipeline.AtLeastOnceBounded | internal/hub/notify.go:161-167 | a sent row was accepted at least once, and no row more often than once plus the crashes it lived through |
| Pipeline.RowsOnlyAdvance | internal/hub/store/deliveries.go:99-136 | held to pending to sent or failed, or held to failed; a settled row stays |
| Pipeline.OwedRowsRemain | internal/hub/store/deliveries.go:205-210 | a row not settled is never lost, and while pending it has exactly one live job |
| Pipeline.CrashRebuilds | internal/hub/notify.go:168-195 | the boot replay leaves each pending row of an enabled channel exactly one job, and no other |
| Wiring.AnnounceLeads | internal/hub/notify.go:27-65 | notify and notifyGuardrails are runs of the pipeline's steps |
| Wiring.RemindLeads | internal/hub/reminders.go:42-52 | so is remind |
| Wiring.ReleaseHeldLeads | internal/hub/reminders.go:155-189 | so is releaseHeld |
| Wiring.EnqueueLeads | internal/hub/notify/dispatcher.go:99-122 | so is Enqueue |
| Wiring.BootLeads | internal/hub/notify.go:168-195 | a crash and the replay at the next boot are too, down to the rows of what the queue gives up |
| Wiring.DeliverLeads | internal/hub/notify/dispatcher.go:189-218 | deliver, from the first send to the row, is a path of the pipeline's steps that takes the very answers of the sends, one step each, and then settles |
| Wiring.WorkLeads | internal/hub/notify/dispatcher.go:164-218 | and so is the worker's turn: the oldest job taken, and delivered from its first send on |
| Notify.NormalizeRoute | internal/hub/notify/channel.go:64-86 | the same channels in the hub's order, each once; an unknown one refused; every channel stays every channel |
| Notify.Routed | internal/hub/notify/channel.go:88-101 | exactly the enabled channels the route or the fired before names |
| Notify.RouteChannels | internal/hub/notify/channel.go:93-101 | the same, in the order of the enabled channels |
| Notify.LastFired | internal/hub/store/deliveries.go:217-229 | the key's latest fired entry before another, or none |
| Notify.QuietNow | internal/hub/reminders.go:18-28 | true if and only if the windows parse, are not empty, and the unbounded timeline is off |
| Notify.Hub.AddRows | internal/hub/notify.go:50-62 | one row per channel, held with no job or pending with one |
| Notify.Hub.NotifyAlertEvents | internal/hub/notify.go:27-65 | rows for every entry in turn, each seeing the rows before it, then the queue |
| Notify.Hub.NotifyGuardrailEvents | internal/hub/notify.go:111-142 | the same for guardrails |
| Notify.Hub.ReleaseHeld | internal/hub/reminders.go:155-189 | held rows oldest first: given up, left, or released with a job |
| Notify.Hub.ReplayPendingDeliveries | internal/hub/notify.go:168-195 | pending rows oldest first: a job each, or failed when the channel is off |
| Notify.Hub.Remind | internal/hub/reminders.go:42-138 | reminders of every fired alert and guardrail that is due, alerts first, each kind in whatever order its map gives, quiet channels skipped |
| Owed.NotifyReaches | internal/hub/notify.go:36-64 | every enabled channel a notice is owed through, by route or by the fired it ends, gets its row; earlier rows stay |
| Owed.ResolvedEndsItsFired | internal/hub/store/deliveries.go:212-229 | in an alternating journal the fired a resolved looks up is the key's entry just before it |
| Owed.AlertEndIsHeard | internal/hub/notify.go:41-64 | a channel with a row of the fired, still enabled, gets a row of the matching resolved, over any re-routing |
| Owed.GuardrailEndIsHeard | internal/hub/notify.go:121-139 | the same for guardrails |
| Owed.FailingKeepsRows | internal/hub/notify/dispatcher.go:111-117 | a full queue fails rows but removes none |
| Routing.AlertRowsExactly | internal/hub/notify.go:27-79 | the rows a batch of alert entries adds: only to enabled channels its own entry goes to (the rule's route, the offline setting for rule 0, everywhere for a deleted rule, or where its fired went), of its kind, held if and only if the channel is in quiet hours and the alert is not the offline one; and every enabled channel an entry goes to has its row |
| Routing.GuardrailRowsExactly | internal/hub/notify.go:111-142 | the same for guardrail entries and their one route |
| Routing.QuietIsWeekly | internal/hub/reminders.go:18-28 | in a zone of one offset quiet hours are hours of the week, when every window parses |
| Routing.AlertRemindedExactly | internal/hub/reminders.go:54-103 | one tick repeats an alert through a channel if and only if its entry is its key's last and a fired one, its host is not muted, its rule's interval has passed since it fired or was last repeated, and the channel is enabled, routed or already told, and not quiet unless the alert is the offline one |
| Routing.GuardrailRemindedExactly | internal/hub/reminders.go:105-138 | the same for a guardrail and the one interval |
| QuietHours.QuietInput | internal/hub/server/api_notify.go:287-309 | accepts if and only if every channel is known, every window parses and none leaves nothing of the week |
| QuietHours.ReleaseDecides | internal/hub/reminders.go:163-183 | a release pass decides each held row on its own and touches no other |
| QuietHours.ReleaseJobs | internal/hub/reminders.go:175-182 | and exactly the rows set free have a job, one each |
| Holding.BoundedHold | internal/hub/reminders.go:155-189 | over runs of the whole pipeline, for a row held under accepted quiet hours on a channel that stays on, the first minute tick outside them comes within seven days; the row stays as it is until then and is released there, with one job, unless the hub dies in that very pass before it gets to the row |
| Holding.HeldUntilReached | internal/hub/reminders.go:155-189 | and in general it stays as it is up to the first tick outside quiet hours whose pass gets to it, and is released there |
| Holding.HeldStays | internal/hub/reminders.go:163-183 | a step of the pipeline touches a held row if and only if it releases it or gives it up |
| Holding.PassLeads | internal/hub/reminders.go:155-183 | a release pass, cut short or not, is a run of the pipeline's steps |
| Reminders.AlertTick | internal/hub/reminders.go:54-103 | a tick of remind, in any order of its map, is for one fired alert a due round dated now or nothing at all |
| Reminders.GuardrailTick | internal/hub/reminders.go:105-138 | the same for one fired guardrail |
| Reminders.PurgingRests | internal/hub/hub.go:249-251 | the hourly purge only takes reminders untouched for thirty days |
| Pacing.RunsAreSpaced | internal/hub/reminders.go:140-148 | over any run of the whole pipeline with crashes, purges and quiet hours, the first round comes at least the interval after the firing and any two are at least that far apart |
| Pacing.StepRests | internal/hub/reminders.go:140-148 | every step of the pipeline but creating a reminder of an event leaves the event's reminders, up to settling them and purging what was untouched for thirty days |
| Pacing.RecallLeads | internal/hub/reminders.go:42-52 | reminding of one entry is a run of the pipeline's steps |
| Pacing.RecallIsRound | internal/hub/reminders.go:42-103 | reminding of one entry is a due round of it dated now, or adds nothing |
| Reminders.SpacingExact | internal/hub/reminders.go:140-148 | and that holds of every run if and only if the interval is at most thirty days and a nanosecond |
| Alerts.Machine.Observe | internal/hub/alerts/machine.go:65-105 | the reported change and the new cell; no other cell changes |
| Alerts.Machine.StateOf | internal/hub/alerts/machine.go:50-57 | the key's state, ok for a key never seen |
| Alerts.Machine.Restore | internal/hub/alerts/machine.go:40-48 | the named keys fire and no other key changes |
| Alerts.MetricValue | internal/hub/alerts/evaluate.go:20-65 | the metric's value, read off the sample's own fields: for disks and temperatures a reading none exceeds; none when it was not collected |
| Alerts.WorstDiskIsWorst | internal/hub/alerts/evaluate.go:34-44 | the disk reading is the largest there is, and missing exactly when no disk has a size |
| Alerts.Applicable | internal/hub/alerts/evaluate.go:100-117 | one rule per metric |
| Alerts.ChosenIsMostSpecific | internal/hub/alerts/evaluate.go:100-117 | a metric has a rule exactly when some rule applies, and a host's own rule wins |
| Alerts.ChosenGoverns | internal/hub/alerts/evaluate.go:100-117 | the rule chosen for a metric is the first of the host's own, or the first global one when it has none |
| Evaluation.Evaluate | internal/hub/alerts/evaluate.go:67-98 | every unmuted host by its status, and by each rule governing it the value its metric reads in a fresh sample: ok fires over the threshold, at once or after the duration, and firing resolves at or under it; no other key changes or says anything; entries carry that value and this instant; in whatever order rules come |
| Evaluation.EvaluatedJudges | internal/hub/alerts/evaluate.go:71-98 | the same of any evaluation that observes each key as it should, as the runs of AlertRuns are made of |
| AlertRuns.Restart | internal/hub/hub.go:85-99 | a new machine fires for exactly the keys whose last entry is fired; restoring it is the restart step of the runs |
| AlertRuns.LogsAlternate | internal/hub/hub.go:223-236 | over every run with restarts anywhere, between observing and writing included, each key's log alternates from fired, and agrees with the machine once nothing waits |
| AlertRuns.OnlyHeardMatters | internal/hub/alerts/evaluate.go:71-98 | a key's cell and events are a function of what was observed of it |
| AlertRuns.SilenceIsInert | internal/hub/alerts/evaluate.go:83-91 | so evaluations that observe nothing of a key change nothing of it |
| AlertRuns.SilentSampleIsNotHeard | internal/hub/alerts/evaluate.go:83-91 | no sample, one older than two intervals, or an uncollected metric observes nothing |
| AlertRuns.FiresExactly | internal/hub/alerts/machine.go:68-105 | a key fires exactly when breached and every observation since at least the rule's duration ago was; it resolves at the first that is not |
| Guardrails.Transitions | internal/hub/guardrails/budget.go:111-125 | an entry for each want against its key's state |
| Guardrails.SettlesExactly | internal/hub/guardrails/budget.go:111-125 | once journaled, wants ask for nothing more if and only if none contradicts another |
| Guardrails.ProjectionIsRuleOfThree | internal/hub/guardrails/budget.go:34-58 | known exactly from the fifth of the figures' own month, and then the rule of three over the days that month has |
| Guardrails.Budget | internal/hub/guardrails/budget.go:68-109 | the transitions of every threshold, the projection, every billed resource, and what lapsed, the map read in any order; each entry says what its figures say and carries the figure |
| Guardrails.BudgetTells | internal/hub/guardrails/budget.go:70-125 | a threshold entry fires if and only if that percentage is reached and carries what was spent; a projection carries itself; a share fires if and only if it is over the line and carries its percentage; what lapsed resolves with nought |
| Guardrails.BudgetSays | internal/hub/guardrails/budget.go:68-109 | after a run the journal says of thresholds and shares what the figures say, and nothing fires for what is no longer billed or budgeted |
| Guardrails.BudgetSettlesExactly | internal/hub/guardrails/budget.go:68-125 | the same figures again say nothing new, if and only if no resource is on both sides of the share line |
| Guardrails.BudgetRunsAlternate | internal/hub/guardrails/budget.go:111-125 | with distinct thresholds and resources every history alternates over any run |
| Guardrails.ProjectionMoves | internal/hub/guardrails/budget.go:75-85 | after a run with a budget the projection fires if and only if it is known and above 105 %, or at 95 % and more when it fired before |
| Guardrails.Hysteresis | internal/hub/guardrails/budget.go:75-85 | between a projection's fired and its next resolved it went from above 105 % to below 95 % or became unknown, and was at 95 % or more in between |
| Guardrails.Orphans | internal/hub/guardrails/orphans.go:19-35 | one want per resource of the sweep and per firing key it no longer names |
| Guardrails.OrphansSettle | internal/hub/guardrails/orphans.go:19-35 | after a sweep the journal says orphan exactly where the sweep does, unverified counting as no; saying it again says nothing; histories alternate |
| Writers.JournalAlternates | internal/hub/guardrails_hub.go:142-160 | over every run of cost evaluations, sweeps and schedule outcomes inserting side by side, entry by entry, with crashes, every history of the one journal alternates |
| Writers.StepKeeps | internal/hub/guardrails_hub.go:22-96 | what an evaluation has read stays true of its own keys until its last entry is in, whatever the other writers insert |
| Writers.EndIsHeard | internal/hub/notify.go:121-139 | so over any such run a channel with a row of a guardrail's fired, still enabled, gets a row of the matching resolved |
| Rollup.AggregateStep | internal/hub/store/retention.go:45-70 | from the newest window of the level, or the oldest source row, every complete window rewritten |
| Rollup.SampleStore.Aggregate | internal/hub/store/retention.go:33-43 | each level from the one below, the finest first |
| Rollup.SampleStore.Purge | internal/hub/store/retention.go:93-107 | each table keeps exactly the rows no older than it is kept, the days all of theirs |
| Rollup.SampleStore.RollUp | internal/hub/hub.go:239-246 | the hourly call: roll up, then purge |
| Rollup.StepKeepsFull | internal/hub/store/retention.go:45-70 | a level equal to the batch result stays so when nothing dated before the last complete window changed and no row went |
| Rollup.IncrementalIsBatch | internal/hub/store/retention.go:33-43 | over any run of calls and samples, however late the samples within the ten minutes last complete at the call before, the three tables are those of one call at the end |
| Rollup.StepExact | internal/hub/store/retention.go:46-68 | after late samples or a purge a step still agrees with the batch over the source rows that are left if and only if no written window lost all its rows and none below the newest would come out differently |
| Extremes.ExtremesAreExact | internal/hub/store/retention.go:77-83 | after every call of such a run, at every level, minima and maxima are those of the raw samples under the window |
| Extremes.RollupOrdered | internal/hub/store/retention.go:77-83 | minimum <= average <= maximum in every row of every level over every run of samples, calls and purges, late samples included, all known or none |
| Extremes.LatestIsNewest | internal/hub/store/retention.go:84-88 | disks and temperatures are those of the newest row of the window that has any |
| Figures.FiguresAreExact | internal/hub/store/retention.go:72-92 | after every call of such a run: exactly the complete windows of ten minutes, an hour, a day with something in them, and in every column the mean, the smallest, the largest or the newest list of the values of the level below, at ten minutes of the raw samples' own fields |
| Figures.StepTells | internal/hub/store/retention.go:72-92 | from any tables, a row one step leaves is what it was, or says in every column what the rows of the level below say |
| Retention.RetainedIsBatch | internal/hub/hub.go:239-248 | over any run of samples, calls and purges whose every call finds the windows it writes untouched by purges, or wholly gone once summarised, the tables are what the purges leave of one batch over everything that ever arrived |
| Retention.StepLeft | internal/hub/store/retention.go:45-70 | one step over what purges left of a level and its source is what they would leave of the step if and only if every window it writes comes out as it would have |
| Retention.WindowExact | internal/hub/store/retention.go:72-106 | what a cut leaves of a window, if anything, summarises as the whole did, whatever the rows, if and only if the cut does not fall after the first and at or before the last row the window can have |
| Retention.CallLeft | internal/hub/store/retention.go:33-70 | a call over what purges left is what they would leave of the call if and only if every window of all three levels comes out as it would have |
| Necessity.RetentionExact | internal/hub/hub.go:239-246 | for all samples of a run with given dates, the tables are at every moment what the purges leave of those never purged, if and only if the dates clear every call: each condition is needed, and some samples show it |
| Losses.DefaultsLose | internal/hub/store/retention.go:13-19 | with the default settings, events in which a silent day and the hourly calls leave the last ten-minute row without its minimum, where a batch keeps it |
| Losses.DayIsEaten | internal/hub/server/api_settings.go:34-37 | with hours kept for one day, events in which the second hourly call writes the last day without the night's minimum |
| Stamps.TextOrderExact | internal/hub/store/store.go:141-142 | text order is time order if and only if the seconds differ or the earlier fraction does not begin the later one; otherwise it is the opposite order |
| Stamps.FractionIsTrimmed | internal/hub/store/store.go:142 | the text's fraction is its nine digits without their trailing zeros |
| Stamps.DigitsReadBack | internal/hub/store/store.go:142 | and those digits, read back, are the nanoseconds |
| Stamps.TextOrderFails | internal/hub/store/store.go:141-142 | two pairs of instants in one second whose texts are in the opposite order |
| Stamps.BeforeWholeSecond | internal/hub/store/retention.go:73-90 | compared as text, before a whole second is everything before it and all of the second it begins but its first instant |
| Stamps.WindowByText | internal/hub/store/retention.go:73-90 | a window between whole seconds holds exactly the samples filed in it, a fraction filing a sample one second back, and no two are filed as one |
| Inventory.InventoryTable.ReplaceAzureInventory | internal/hub/store/azure.go:55-111 | a resource listed is as last listed, alive, first_seen kept; one not listed goes if and only if it is alive, not seen since, and its group is one covered, whatever the case of its letters; every other row stays |
| Inventory.LowerIsCaseBlind | internal/hub/store/azure.go:98-104 | group names compare without regard to the case of ASCII letters, and with regard to everything else |
| Inventory.LiveIsLastView | internal/hub/azure_sync.go:112-139 | over any run of sweeps, failed ones included, a resource is live exactly when the last successful sweep of its group saw it, as it saw it, and first_seen is the first sighting |
| Inventory.OtherGroupsUntouched | internal/hub/store/azure.go:96-98 | a sweep leaves every resource of a group it does not cover as it was |
| Inventory.InventoryTable.SetAzureOrphans | internal/hub/store/azure.go:158-214 | every row's marks after a pass: the reason given, dated by the pass unless it was the same before; none for a live row without one; a deleted row keeps its last; nothing else changes |
| Inventory.SinceIsFirstFound | internal/hub/store/azure.go:163-166 | orphan_since is when the current reason was first found, however often it was found again |

## Left out

- HTTP, ARM, SMTP, Teams and webhook calls, tokens, OAuth, password hashing, TLS, server-sent events and the web page: I/O. A send, an attempt or a sweep is an arbitrary answer.
- JSON: window lists and settings are taken decoded; a list that does not decode is one that does not parse.
- SQL text: statements are modelled by what they do to the table. The partial unique index on actions in flight and the primary keys of the sample tables are taken from the migrations.
- time.Date, by its documentation: some instant carrying the reading when there is one, and either candidate otherwise (`Zone.pick`). Zones with more than one change, changes touching a midnight and gaps that are not one whole hour are outside `Zone.ClockIsEarliest`; `Zone.GapSnapExact` covers any forward gap.
- Holding.BoundedHold: for zones of a fixed offset in whole minutes, because across a change of offset the week in question can be an hour longer or shorter.
- What Azure reports of an accepted operation, the state read back and the text of an error are parameters of `Actions.ScheduleHub.RunAction`.
- Timeline.LastBoundaryReads: holds, with all that rests on it, for instants whose four days lie after the year 1, where time.Time's zero value stands for no boundary.
- Resource ids are taken normalised, as the settings page stores them, and group names as ASCII: SQLite's lower() and Go's ToLower differ beyond it.
- Deliveries.StateIds and the class methods that use it take one instant per call, where the dispatcher reads the clock per row.
- The dispatcher's mutex and wake channel: Enqueue is the two steps it is, entering under the lock and then closing rows; the routines of the hub are a multiset of jobs not handed over yet, which allows more interleavings than they have.
- Messages: a job carries its row, its channel and its kind. The text, the link and the threshold in it are left out.
- Pacing.RunsAreSpaced: the rows of one event's reminder round are written with nothing in between; the worker may in fact settle other rows meanwhile.
- Evaluation.Evaluate: host and rule ids are distinct, as primary keys are. Rules removed while firing and a host's own rule taking over a firing global one are not promised anything.
- Guardrails.BudgetRunsAlternate: budget entries only; `Writers` has all three writers of the journal. A schedule outcome is read and written there in one step, so two outcomes of one resource at the same moment are not captured.
- An average of averages is not claimed to be the raw average.
- Necessity.RetentionExact: for runs without samples older than the ten minutes complete at the call before, as `Rollup.IncrementalIsBatch` is.
- Stored timestamps are compared as instants everywhere but in `Stamps`, where the texts of whole seconds are taken to sort as time does (years 0 to 9999). In `Rollup` the instant of a raw sample is the one its text is filed under (`Stamps.Filed`); what is not captured is the order of samples within one second, a purge's cut within one second, and that the source starts from the window its oldest sample is dated in, so that one dated in the first second of that window, but not on it, is in no window it writes.
- Strict rejection of samples not newer than a host's last one, container samples, retention settings, users, sessions, login limits, the agent and its buffer, provisioning and deletion: thin beside the above.
