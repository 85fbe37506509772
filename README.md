# Thekedar ledger: a verified model

A thekedar (a labour contractor) keeps one monthly record per worker per
month. A record holds:

- daily attendance entries, each with a presence, the day's wages and an optional advance;
- running totals (`currentWages`, `currentAdvance`) of the entries not yet settled;
- the balance carried in from earlier settlements (`prevWages`, `prevAdvance`);
- the list of settlements and the day settled up to (`lastSettlementDate`).

Settling up to a day nets the unsettled window against the carried balance. The
net becomes either wages owed to the worker or an advance owed by the worker,
never both. Cash handed over on the settlement day re-splits what is left. At
the month's rollover every active worker lets go of its current record; the
next record is created from the previous one, which is closed at its last day
and whose balance is carried forward.

The model has these parts:

- `Utility`: the window sum of `calculateAmounts`.
- `Settlements`: the settlement arithmetic.
- `Attendance`: the entries.
- `Ledgers`: the record's mutable fields as one value, with the invariant that
  ties the running totals to the entries and the carried balance to the latest
  settlement.
- `MonthlyRecords`: a class `MonthlyRecord` whose handlers change the record in
  place and keep that invariant.
- `Calendar`: the calendar view.
- `Batching` and `AttendanceBatch`: the batched attendance. The handlers work on
  record objects and are proved to do what a value-level account of the
  request (`AttendAll`, over the records' states) says.
- `Workers`, `WorkerListing` and `WorkerDeletion`: the worker handlers.
- `Thekedars`: the month rollover.
- `RecordCreation`: record creation.

"Today" (year, month index, day, weekday index, length of the month) is always
a parameter. Error answers are `Result` values carrying an `ApiError`.

## Model

Source paths are relative to the repository root.

| member | source | states |
|---|---|---|
| Common.StatusOf | src/controllers/monthlyRecord.controller.js:513-540 | every refusal a handler answers with is reported as 400, 404 or 500: exactly the not-found refusals as 404 (as at :91, :161, :354 and :448 of the same file), and exactly a worker without a current record as 500 (the failure at :921-923); the per-item failures of the batched handlers are rejection reasons inside a 200 answer, not statuses |
| Utility.CalculateAmounts | src/utils/utility.js:98-112 | the loop's two accumulators are the wage sum and the advance sum over exactly the entries whose day lies in (lastSettlementDate, todayDate] |
| Utility.SumIsTotalOfWindowEntries | src/utils/utility.js:104-105 | the window sum equals the plain sum over the entries the range test keeps |
| Utility.InWindowOnlyMembers | src/utils/utility.js:104 | the entries kept by the range test are exactly the entries with lastSettlementDate < day <= todayDate |
| Utility.EmptyWindow | src/utils/utility.js:99-104 | when todayDate <= lastSettlementDate both sums are 0, whatever the entries |
| Utility.WindowSplit | src/utils/utility.js:104 | for a <= b <= c the sums over (a, c] are the sums over (a, b] plus those over (b, c] |
| Utility.SumConcat | src/utils/utility.js:102-110 | the sums over two lists laid end to end add up |
| Utility.SumSingle | src/utils/utility.js:104-108 | a single entry contributes its amount exactly when its day is in the window |
| Utility.SumWithout | src/utils/utility.js:102-110 | taking one entry out of a list removes exactly its in-window amount from the sum |
| Utility.SumPermutation | src/utils/utility.js:102-110 | the sums do not depend on the order of the entries |
| Utility.NoAdvanceNoAdvanceSum | src/utils/utility.js:106-108 | entries without an advance add nothing to the advance sum |
| Utility.FindDay | src/controllers/monthlyRecord.controller.js:349-351 | the index found holds an entry for the day, and no earlier entry is for that day |
| Utility.WithoutDayDropsOne | src/controllers/monthlyRecord.controller.js:464-466 | with one entry per day, filtering out an entry's day drops exactly that entry and keeps the rest in order |
| Utility.RemoveDay | src/controllers/monthlyRecord.controller.js:457-466 | filtering out the day shortens the list by one and lowers each sum by the removed entry's in-window amount |
| Utility.WithoutOtherDays | src/controllers/monthlyRecord.controller.js:464-466 | filtering out a day no entry has leaves the list unchanged |
| Batching.MakeBatches | src/controllers/worker.controller.js:396-404 | the groups laid end to end give back the input in order; every group holds 1 to 10 items, and only the last may hold fewer than 10 |
| Batching.FlattenAppend | src/controllers/worker.controller.js:406-415 | laying out one more group appends its items |
| Batching.FlattenMember | src/controllers/monthlyRecord.controller.js:313-322 | every item of every group is among the items handled |
| Batching.FlattenConcat | src/controllers/monthlyRecord.controller.js:303-322 | laying out two runs of groups lays out their items one after the other |
| Batching.CloseGroup | src/controllers/monthlyRecord.controller.js:303-311 | closing a group of 1 to 10 items after full groups keeps the grouping well formed and appends its items |
| Settlements.NewSettlement | src/controllers/monthlyRecord.controller.js:561-584 | a positive net becomes wages occurred and transferred, a negative net becomes advance; the net is preserved, nothing is taken yet, and never both wages and advance |
| Settlements.NewSettlementInjective | src/controllers/monthlyRecord.controller.js:561-584 | two nets give the same settlement exactly when they are equal |
| Settlements.Adjust | src/controllers/monthlyRecord.controller.js:666-702 | the cash given is added to amountTaken, the occurred amounts and the day stay, the result stays well formed, and the new carried balance is what it transfers |
| Settlements.AdjustLowersBalance | src/controllers/monthlyRecord.controller.js:666-690 | the transferred net drops by exactly the cash given, and the carry is never both wages and advance |
| Settlements.AdjustInInstalments | src/controllers/monthlyRecord.controller.js:666-702 | cash given in two instalments ends where giving the sum at once ends |
| Settlements.PayInFull | src/controllers/monthlyRecord.controller.js:666-689 | a worker owed 1000 who is handed 400 and then 600 ends with nothing carried either way |
| Settlements.FindSettlement | src/controllers/monthlyRecord.controller.js:655-664 | the settlement found is in the list and on the day; none found means none is on that day |
| Settlements.LatestSettlement | src/controllers/monthlyRecord.controller.js:21-30 | with days increasing, looking up the latest day finds the latest settlement, and filtering that day out drops only it |
| Settlements.EarlierSettlementsKept | src/controllers/monthlyRecord.controller.js:692-694 | filtering out a day later than every settlement's day changes nothing |
| Settlements.AppendSettlement | src/controllers/monthlyRecord.controller.js:586-592 | appending a settlement after the latest one, inside the month, keeps the list ordered and well formed |
| Settlements.ReplaceLatest | src/controllers/monthlyRecord.controller.js:692-702 | replacing the latest settlement by a well-formed one on the same day keeps the list well formed |
| Attendance.PurposeOr | src/controllers/monthlyRecord.controller.js:207-215 | the purpose is the one given, trimmed, when it is not blank, and "General Work" when none or a blank one is given; it is never empty |
| Attendance.AdvanceFrom | src/controllers/monthlyRecord.controller.js:207-215 | an advance is recorded exactly when a non-zero amount is given, with that amount and its purpose |
| Attendance.UpdatedEntry | src/controllers/monthlyRecord.controller.js:363-403 | each given field replaces the stored one (a given non-empty presence is stored trimmed; an empty one changes nothing; a given advance amount stores an advance of that amount with the given purpose trimmed, or "General Work"), the day stays, and the others are kept (without an amount the stored advance, purpose included) |
| Attendance.UpdatedEntryWf | src/controllers/monthlyRecord.controller.js:363-403 | an update whose presence is valid once trimmed, with non-negative amounts, leaves a well-formed entry |
| Attendance.AdvanceIncrement | src/controllers/monthlyRecord.controller.js:385-398 | the running advance moves by the new amount minus the old advance |
| Attendance.AppendEntry | src/controllers/monthlyRecord.controller.js:218-219 | appending an entry for a new day keeps one entry per day, and each sum grows by the entry's in-window amount |
| Attendance.RemoveEntry | src/controllers/monthlyRecord.controller.js:457-466 | removing an entry keeps the list well formed, leaves no entry for its day, and lowers each sum by its in-window amount |
| Attendance.RemoveFromTotals | src/controllers/monthlyRecord.controller.js:457-466 | removing the entry for an unsettled day keeps the running totals equal to the window sums once its amounts are subtracted |
| Attendance.DropEntry | src/controllers/monthlyRecord.controller.js:404-407 | the list without one entry is well formed and has no entry for that entry's day |
| Attendance.LeftDayPastMonthEnd | src/controllers/monthlyRecord.controller.js:179-184 | the check as written accepts day 31 for a record of a 30-day month, an entry no window of that month counts |
| Attendance.LeftDayCounted | src/controllers/monthlyRecord.controller.js:179-219 | under the corrected check the new entry's amounts join the running totals, which stay equal to the window sums |
| Attendance.SingleAfterSettlement | src/controllers/monthlyRecord.controller.js:252-280 | the checks as written accept today's attendance on a record already settled up to today, which breaks the running totals |
| Attendance.SingleCounted | src/controllers/monthlyRecord.controller.js:252-280 | under the corrected checks the batch entry's amounts join the running totals, which stay equal to the window sums |
| Ledgers.LastDayOf | src/controllers/monthlyRecord.controller.js:179 | the day settled up to, 0 when there is no settlement |
| Ledgers.FreshLedger | src/controllers/monthlyRecord.controller.js:108-125 | a record with no entries, no settlement, zero totals and a carried balance satisfies the record invariant |
| Ledgers.SettleResponseOf | src/controllers/monthlyRecord.controller.js:542-560 | the response carries the balance brought in, the window sums over (last settlement, dayDate], the net, and the totals left after the settled sums are taken off |
| Ledgers.SettleKeepsLedger | src/controllers/monthlyRecord.controller.js:542-592 | settling inside the month after the boundary keeps the invariant, moves the boundary to dayDate and keeps the entries; the new carried net is the old net plus the window's net, and the running totals are the sums after dayDate |
| Ledgers.MonthEndClearsTotals | src/controllers/monthlyRecord.controller.js:36-70 | settling at the month's last day leaves zero running totals, and the net is the carried net plus the running totals, as settlePreviousMonth computes it |
| Ledgers.ApplySettle | src/controllers/monthlyRecord.controller.js:542-592 | the handler's branching steps produce exactly the settled record and its response |
| Ledgers.SameSettlements | src/controllers/monthlyRecord.controller.js:404-466 | changing only the entries and totals, consistently, keeps the invariant |
| Ledgers.AddKeepsLedger | src/controllers/monthlyRecord.controller.js:207-219 | adding a well-formed entry for a new, unsettled day keeps the invariant |
| Ledgers.ApplyAdd | src/controllers/monthlyRecord.controller.js:207-219 | the handler's steps append the entry and add its wages and advance to the totals |
| Ledgers.DeleteKeepsLedger | src/controllers/monthlyRecord.controller.js:457-466 | deleting the entry for an unsettled day keeps the invariant, drops exactly that entry and leaves no entry for the day |
| Ledgers.ApplyDelete | src/controllers/monthlyRecord.controller.js:457-466 | the handler's guarded subtractions and filter remove the entry and its amounts |
| Ledgers.ReplacedIsDeleteThenAdd | src/controllers/monthlyRecord.controller.js:404-407 | replacing an entry is deleting it and appending the new one |
| Ledgers.UpdateKeepsLedger | src/controllers/monthlyRecord.controller.js:374-407 | replacing an unsettled day's entry by a well-formed one for the same day keeps the invariant; the other entries keep their order and the new one goes last |
| Ledgers.ApplyUpdate | src/controllers/monthlyRecord.controller.js:349-407 | the handler's delta updates of the totals and its filter-then-push give the replacement of the old entry by the rebuilt one |
| Ledgers.AdjustKeepsLedger | src/controllers/monthlyRecord.controller.js:666-702 | cash given against the latest settlement keeps the invariant and lowers the carried net by exactly the cash given |
| MonthlyRecords.SettleRefusal | src/controllers/monthlyRecord.controller.js:525-540 | settling is refused, with the right error in order, unless a day is given with last < day <= numberOfDays and day <= today |
| MonthlyRecords.LeftDayRefusal | src/controllers/monthlyRecord.controller.js:171-194 | adding is refused unless the presence is valid once trimmed, the day is open (corrected: inside the month) and has no entry, each with its own error |
| MonthlyRecords.SingleRefusal | src/controllers/monthlyRecord.controller.js:252-259 | today's entry is refused when one exists and (corrected) when today is settled or outside the month |
| MonthlyRecords.DeleteRefusal | src/controllers/monthlyRecord.controller.js:436-455 | deleting is refused for a settled day or another month's record, and when no entry exists |
| MonthlyRecords.UpdateRefusal | src/controllers/monthlyRecord.controller.js:342-372 | updating is refused as deleting is, and also for a non-empty presence that is not valid once trimmed |
| MonthlyRecords.AdjustRefusal | src/controllers/monthlyRecord.controller.js:613-653 | cash is refused without a day or an amount, without a settlement, and unless the day is the latest settlement's, performed today |
| MonthlyRecords.MonthlyRecord.constructor | src/controllers/monthlyRecord.controller.js:119-125 | a new record of the month with nothing entered and the carried balance satisfies the invariant |
| MonthlyRecords.MonthlyRecord.SettleAccount | src/controllers/monthlyRecord.controller.js:512-599 | a refusal answers its error and changes nothing; otherwise the answer is the settle response and the record becomes the settled record; the invariant is kept |
| MonthlyRecords.MonthlyRecord.SettlePreviousMonth | src/controllers/monthlyRecord.controller.js:17-82 | afterwards the record is settled up to its last day; an already closed month is unchanged and answers its stored balance and final settlement, so closing is idempotent |
| MonthlyRecords.MonthlyRecord.AddAttendanceForLeftDays | src/controllers/monthlyRecord.controller.js:153-225 | a refusal changes nothing; otherwise exactly the new entry, with the trimmed presence, is added and its amounts join the totals; the invariant is kept |
| MonthlyRecords.MonthlyRecord.AddAttendanceSingle | src/controllers/monthlyRecord.controller.js:227-290 | as above for today's entry of a batch item, whose presence is valid once trimmed |
| MonthlyRecords.MonthlyRecord.UpdateAttendance | src/controllers/monthlyRecord.controller.js:329-414 | a refusal changes nothing; otherwise the entry is replaced by its update and the totals move by the difference; the invariant is kept |
| MonthlyRecords.MonthlyRecord.DeleteAttendance | src/controllers/monthlyRecord.controller.js:416-470 | a refusal changes nothing; otherwise exactly that entry and its amounts are removed; the invariant is kept |
| MonthlyRecords.MonthlyRecord.AdjustGivenAmountOnSettlement | src/controllers/monthlyRecord.controller.js:601-716 | a refusal changes nothing; otherwise the latest settlement is replaced (not added) by its adjustment, which is the answer; the invariant is kept |
| MonthlyRecords.MonthlyRecord.CheckForSettlement | src/controllers/monthlyRecord.controller.js:798-828 | a settlement is reported exactly when the latest was performed today; it is the latest kept, covering from day 1 when it is the month's only settlement and otherwise from the day of the one kept before it, up to its own day |
| MonthlyRecords.DeletableRecords | src/controllers/monthlyRecord.controller.js:905-940 | the ids kept are exactly the requested ids other than the current and previous record; a null current id or nothing left is refused |
| MonthlyRecords.Unprotected | src/controllers/monthlyRecord.controller.js:921-924 | an id is kept exactly when it is neither the current nor the previous record id |
| Calendar.WeekdayOf | src/controllers/monthlyRecord.controller.js:887 | a weekday index between 0 and 6 |
| Calendar.StepDays | src/controllers/monthlyRecord.controller.js:887 | stepping forward stays a weekday index |
| Calendar.WeekdayByCounting | src/controllers/monthlyRecord.controller.js:887 | the formula (dayDate + dayIndex - 1) % 7 names the weekday reached by counting days forward from the month's first |
| Calendar.LastEntryOn | src/controllers/monthlyRecord.controller.js:871-873 | a day's slot holds an entry exactly when the day has one, and that entry is for the day |
| Calendar.LastSettlementOn | src/controllers/monthlyRecord.controller.js:875-891 | a settlement is attached exactly when one is on that day |
| Calendar.EventOn | src/controllers/monthlyRecord.controller.js:869-891 | a day has an event exactly when it has an entry or a settlement; the event carries both, and a settlement-only day gets the computed weekday |
| Calendar.LayoutUpTo | src/controllers/monthlyRecord.controller.js:893 | the events kept are in strictly increasing day order, each the event of its day, and none is missing |
| Calendar.LayoutIsTheEventDays | src/controllers/monthlyRecord.controller.js:869-893 | the calendar holds one event for a day of the month exactly when that day has an entry or a settlement |
| Calendar.PlaceEntryStep | src/controllers/monthlyRecord.controller.js:871-873 | placing one more entry turns each slot into the event of the longer entry list |
| Calendar.AttachSettlementStep | src/controllers/monthlyRecord.controller.js:875-891 | attaching one more settlement turns each slot into the event of the longer settlement list |
| Calendar.PlaceEntries | src/controllers/monthlyRecord.controller.js:869-873 | after the first loop, each day's slot holds the event of the entries alone |
| Calendar.AttachSettlements | src/controllers/monthlyRecord.controller.js:875-891 | after the second loop, each day's slot holds the full event |
| Calendar.FilledSlots | src/controllers/monthlyRecord.controller.js:893 | the filter keeps the filled slots in day order |
| Calendar.CalendarEvents | src/controllers/monthlyRecord.controller.js:869-893 | the events returned are the month's layout |
| AttendanceBatch.HasDayAppend | src/controllers/monthlyRecord.controller.js:279 | appending keeps every day that had an entry and adds the new one's |
| AttendanceBatch.AttendState | src/controllers/monthlyRecord.controller.js:251-283 | an item succeeds on its record's state exactly when addAttendenceSingle refuses nothing (corrected checks, see ## Findings), and the state then gains exactly today's entry for it (the trimmed presence it is given, the item's wages and advance); a refused item answers the refusal and leaves the state as it was |
| AttendanceBatch.AttendItem | src/controllers/monthlyRecord.controller.js:242-245 | an item whose record is missing answers RecordNotFound and changes nothing; otherwise its own record answers it as AttendState says, and no other record's state changes |
| AttendanceBatch.AttendAll | src/controllers/monthlyRecord.controller.js:313-322 | one outcome per item, and the same records afterwards |
| AttendanceBatch.AttendAllConcat | src/controllers/monthlyRecord.controller.js:313-322 | two runs of items in turn are the first run, then the second on the states the first left |
| AttendanceBatch.AttendAllOutcomes | src/controllers/monthlyRecord.controller.js:292-327 | every outcome is RecordNotFound exactly for a missing record, the worker's id on success, and otherwise AttendanceExists or InvalidDayDate; a success leaves today's entry in its record whatever later items do |
| AttendanceBatch.AttendAllDistinct | src/controllers/monthlyRecord.controller.js:313-322 | when the items name distinct records, each item's outcome and its record's final state are what that record alone gave it before the request, and records no item names are untouched |
| AttendanceBatch.AttendRecord | src/controllers/monthlyRecord.controller.js:227-290 | the item succeeds exactly when addAttendenceSingle's checks (corrected checks, see ## Findings) pass on its record; the record then gains exactly today's entry for the item; a refusal changes nothing; the record stays valid |
| AttendanceBatch.AttendOne | src/controllers/monthlyRecord.controller.js:227-245 | the outcome and the records' new states are those AttendItem gives on the states before the call; every record stays valid |
| AttendanceBatch.AttendGroup | src/controllers/monthlyRecord.controller.js:313-322 | the outcomes and the records' new states are those of the group's items taken in turn |
| AttendanceBatch.AttendBatches | src/controllers/monthlyRecord.controller.js:313-322 | the outcomes and the records' new states are those of the groups' items laid end to end and taken in turn |
| AttendanceBatch.CreateAttendance | src/controllers/monthlyRecord.controller.js:292-327 | a presence not valid once trimmed refuses the request and changes nothing; otherwise the answer and the records' new states are those of the items taken in turn with the trimmed presence: RecordNotFound exactly for a missing record, and a success leaves today's entry in its record; when the items name distinct records, each succeeds exactly when its record refused nothing before the request (corrected checks, see ## Findings), that record gains exactly the item's entry, and records no item names are untouched |
| Common.TrimStart | src/controllers/worker.controller.js:19 | leading whitespace (every character JavaScript's `trim` removes: tab, line feed, vertical tab, form feed, carriage return, space, the byte order mark, the line and paragraph separators and Unicode's space separators) is removed and nothing else |
| Common.TrimEnd | src/controllers/worker.controller.js:19 | trailing whitespace is removed and nothing else |
| Common.Trim | src/controllers/worker.controller.js:19 | the trimmed name is empty exactly when the name is blank, and otherwise starts and ends with a visible character |
| Common.TrimIdempotent | src/controllers/worker.controller.js:19 | trimming twice is trimming once |
| Common.TrimKeeps | src/controllers/worker.controller.js:19 | a string that is empty or starts and ends with a visible character is its own trim |
| Common.PresencesTrimmed | src/controllers/monthlyRecord.controller.js:262 | each presence word is its own trim, so storing the checked presence trimmed again stores the same word |
| Workers.WorkerRefusal | src/controllers/worker.controller.js:19-29 | a worker is refused for a blank name, an unknown role or missing or zero wages, in that order |
| Workers.ShiftedPrevious | src/controllers/worker.controller.js:251-254 | the previous record id becomes the current record when there is one, else it is kept |
| Workers.ShiftTwice | src/controllers/thekedar.controller.js:254-272 | letting go of the current record twice is letting go once |
| Workers.Worker.constructor | src/controllers/worker.controller.js:33-43 | a new worker is active and points at no record |
| Workers.Worker.ShiftRecords | src/controllers/worker.controller.js:251-255 | the current record id is cleared and the previous one shifted; the status is kept |
| Workers.Worker.ToggleActiveStatus | src/controllers/worker.controller.js:227-260 | the same status is refused and changes nothing; otherwise the record ids shift and the new status is set |
| Workers.CreateWorker | src/controllers/worker.controller.js:16-67 | a refusal creates nothing; otherwise a fresh active worker points at a fresh valid empty record of this month; its name is stored trimmed, as the worker schema's `trim` option (src/models/worker.model.js:4-8) stores it |
| WorkerListing.HighestDay | src/controllers/worker.controller.js:106-117 | the highest entry day, 0 without entries: not below any entry's day, and an entry's day unless 0 |
| WorkerListing.SummaryOf | src/controllers/worker.controller.js:97-117 | the boundary (0 when never settled) and the highest entry day |
| WorkerListing.CurrentRecord | src/controllers/worker.controller.js:87-93 | the lookup finds a record exactly when the current id names a stored one |
| WorkerListing.ReadyMeansUnsettledEntry | src/controllers/worker.controller.js:133-149 | ready for settlement exactly when some entry lies after the boundary and the boundary is before today |
| WorkerListing.MarkedMeansEntryFromToday | src/controllers/worker.controller.js:150-156 | marked today exactly when some entry is for today or later |
| WorkerListing.ListingOf | src/controllers/worker.controller.js:118-156 | the row carries the current record's summary and both flags; without a record neither flag holds |
| WorkerListing.AllWorkers | src/controllers/worker.controller.js:69-173 | the rows are exactly those of the thekedar's workers with the requested status |
| WorkerListing.FromDay | src/controllers/worker.controller.js:462-467 | the entries kept are exactly those from the day on |
| WorkerListing.PendingSize | src/controllers/worker.controller.js:458-473 | without a record the size is 1; with one it is 0 exactly when every entry is before today |
| WorkerListing.CurrentEntries | src/controllers/worker.controller.js:436-450 | the entries of the current record, when the lookup finds one |
| WorkerListing.NeedsAttendance | src/controllers/worker.controller.js:427-480 | an active worker of the thekedar with a current record none of whose entries is for today or later |
| WorkerListing.WorkersForAttendance | src/controllers/worker.controller.js:423-494 | the workers listed are exactly the collection's workers that need attendance |
| WorkerListing.NeedsAttendanceUnlessMarked | src/controllers/worker.controller.js:150-156 | an active worker with a record needs attendance exactly when its row is not marked today; one without a record never does |
| WorkerDeletion.Remaining | src/controllers/worker.controller.js:366-390 | the workers left are those not named or not the thekedar's |
| WorkerDeletion.Deleted | src/controllers/worker.controller.js:366-390 | the workers removed are exactly the named workers of the thekedar |
| WorkerDeletion.KeptRecords | src/controllers/worker.controller.js:378-382 | the records left are exactly those of workers not deleted |
| WorkerDeletion.Outcomes | src/controllers/worker.controller.js:406-415 | each id is answered in order: deleted when it names a worker of the thekedar not deleted by an earlier id, not found otherwise |
| WorkerDeletion.RemainingConcat | src/controllers/worker.controller.js:406-415 | deleting two runs of ids in turn is deleting them together |
| WorkerDeletion.KeptRecordsConcat | src/controllers/worker.controller.js:406-415 | two rounds of record deletion are one round for both sets of workers |
| WorkerDeletion.OutcomesConcat | src/controllers/worker.controller.js:406-415 | the answers for two runs are those for the first and then those for the second against what the first left |
| WorkerDeletion.Directory.constructor | src/controllers/worker.controller.js:366-390 | the stored workers and records as given |
| WorkerDeletion.Directory.DeleteOneWorker | src/controllers/worker.controller.js:366-390 | a worker of the thekedar is deleted with all its records; any other id is not found and changes nothing |
| WorkerDeletion.Directory.DeleteGroup | src/controllers/worker.controller.js:406-415 | a group's ids are answered in order and their workers and records deleted |
| WorkerDeletion.Directory.DeleteWorkerMultiple | src/controllers/worker.controller.js:391-420 | an empty list is refused and changes nothing; otherwise every id is answered in order and exactly the named workers of the thekedar and their records are deleted |
| Thekedars.MonthAdvance | src/controllers/thekedar.controller.js:242-251 | an advance is detected exactly for a later month of the same year or a later year, and the date to set is today's month |
| Thekedars.MonthAdvanceIsLaterMonth | src/controllers/thekedar.controller.js:242-251 | with month indices 0 to 11 an advance is exactly a later month |
| Thekedars.WaitingForRecord | src/controllers/thekedar.controller.js:281-299 | the answer lists exactly the active workers of the thekedar without a current record |
| Thekedars.Thekedar.constructor | src/controllers/thekedar.controller.js:41-50 | a new thekedar runs in the current month |
| Thekedars.Thekedar.NewMonthArrival | src/controllers/thekedar.controller.js:232-308 | without an advance nothing changes; with one every active worker of the thekedar lets go of its current record, no other worker changes, the running date becomes today's month, and every such worker is in the answer |
| RecordCreation.CreationRefusal | src/controllers/monthlyRecord.controller.js:88-114 | creation is refused for a missing worker, a worker with a current record, and a previous record that is not found, in that order |
| RecordCreation.CreateMonthlyRecord | src/controllers/monthlyRecord.controller.js:84-151 | a refusal changes nothing; otherwise the worker points at a valid record of this month and at no previous record: a new empty one, the previous one reused for the same month, or a new one carrying the balance of the previous one closed at its last day, whose final settlement is the answer |

## Left out

- Persistence and HTTP are not modelled. Lookups (`findById`, the aggregation
  `$lookup`) become parameters: the worker, the previous record, a map of
  records. Saving is the in-place update.
- Ids of created documents are parameters.
- `Promise.allSettled` in the batched handlers is modelled as handling the
  items one after another. Only per-item isolation is kept; interleavings are
  not modelled.
- The calendar (`src/nep_dates/index.js`) reads data files. "Today" and a
  day's weekday name are parameters, so `getCurrentNepaliDate` and
  `getDayIndex` are not part of this model.
- The coercions of request fields (`Number`, `isNaN`, `typeof`, string ids)
  are not modelled; amounts are integers.
- MonthlyRecords.MonthlyRecord.AddAttendanceForLeftDays: requires non-negative wages and advance; the source only rejects non-numbers, and the running-total invariant needs amounts that are not negative.
- MonthlyRecords.MonthlyRecord.AddAttendanceSingle: requires non-negative wages and advance, for the same reason.
- MonthlyRecords.MonthlyRecord.UpdateAttendance: requires non-negative new wages and advance, for the same reason.
- MonthlyRecords.MonthlyRecord.AdjustGivenAmountOnSettlement: requires a non-negative given amount; the source only rejects a falsy one. An adjustment touches no running total, but a settlement's amount taken must not be negative for the settlement to be well formed, and in the advance branch (src/controllers/monthlyRecord.controller.js:684-689) a negative amount can make the carried advance negative.
- AttendanceBatch.CreateAttendance: requires non-negative wages and advance for every item, for the same reason; so do AttendanceBatch.AttendBatches, AttendanceBatch.AttendGroup, AttendanceBatch.AttendOne and AttendanceBatch.AttendRecord.
- AttendanceBatch.CreateAttendance: requires that distinct record ids name distinct record objects, as distinct documents are; the same holds of the helpers it calls.
- Settlement fields a settlement document lacks (`wagesOccured` of an advance
  settlement, `amountTaken` of a new one) are read as 0.
- `isMonthChanged` is imported by the thekedar controller but not defined in
  the utility file; it is not part of this model.
- Authentication, tokens, e-mail, OTP, the site and payment handlers, routes,
  server start-up and the schema files are not modelled, except the worker
  schema's `trim` option on the name, which Workers.CreateWorker applies.
- The worker schema file (src/models/worker.model.js) does not match how the
  controllers use a worker: it marks `currentRecordId` as required (:48-52)
  and declares no `previousRecordId`. Read literally, creating a worker with
  no current record (src/controllers/worker.controller.js:41) and saving a
  toggled worker (:255-257) would fail validation, and `previousRecordId`
  would never be stored for src/controllers/thekedar.controller.js:262-266
  and src/controllers/monthlyRecord.controller.js:108-113 to read. The model
  follows the controllers, so Workers.CreateWorker and
  Workers.Worker.ToggleActiveStatus model their success paths, and it takes
  only the name's `trim` option from that file.
- `updateWorker` is not modelled, so a worker's name, role and wages are
  constants.
- `getAllWorkers` also projects `numberOfDays` and the worker's fields; only
  the summary and the two flags are modelled.
- deleteOneWorker's failure on an id that is not an ObjectId is not modelled;
  such an id answers "not found" like any unknown id.
- The branch of `getCalendarEvents` for a record that does not exist
  (answering an empty month) is not modelled.
- Calendar.CalendarEvents requires the record invariant (entries and
  settlements inside the month). The source would write outside its slot
  array otherwise.
- Deletion sees only which thekedar owns each worker and which worker owns
  each record (`WorkerDeletion.Directory`), not the documents themselves.
- Thekedars.Thekedar.NewMonthArrival answers `isInitialCall: true` whatever
  happened, as the source does; the flag is modelled as written.
- Common.StatusOf maps each model error to its status class; the error
  messages are not modelled.
- The future check of `settleAccount` is modelled as the code applies it, to
  every settlement day.

## Findings

| source | as written | input that shows it | evidently intended | confidence | as-written member | corrected member |
|---|---|---|---|---|---|---|
| src/controllers/monthlyRecord.controller.js:179-184 | the day check compares the day only with today and the last settlement, never with the record's own number of days | for a record of a 30-day month still open when today is day 31 of a longer current month, the day test lets day 31 through, and no settlement window of the record counts such an entry; the entry is added only if the day-name lookup at :197-199 then answers for day 31 of the record's month, which the calendar code src/nep_dates/index.js:95-105 refuses, so the test alone does not keep the day out | the day must also lie inside the record's month | not executed | Attendance.LeftDayOpenAsWritten, shown by Attendance.LeftDayPastMonthEnd | Attendance.LeftDayOpen, with Attendance.LeftDayCounted |
| src/controllers/monthlyRecord.controller.js:252-259 | only an existing entry for today is refused; the last settlement day and the month length are never checked | a record settled up to today (day 5) with no entry for day 5 accepts the entry, and the running wages then no longer equal the window sum after the settlement | today must lie after the last settlement and inside the month | not executed | Attendance.SingleDayOpenAsWritten, shown by Attendance.SingleAfterSettlement | Attendance.SingleDayOpen, with Attendance.SingleCounted |
