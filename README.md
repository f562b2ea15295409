# MediMate medication schedule — Dafny model

MediMate is a medication reminder web application. Its logic core comes in four parts:

- **Occurrence resolution** (`getMedicationsForDate`). From the medications, the taken-log and the temporary reschedules, it computes the dose items due on a date. The rules are daily, custom-weekly and cyclical. The result is sorted by effective time.
- **The medication store** (`useMedications`). It holds the medications, the three-level taken-log, the temporary reschedules and the date of the last daily reset.
- **The notification engine** (`useNotificationScheduler`). A reconciliation pass cancels all pending timers. For each of today's doses it then sets a pre-dose reminder timer or a missed-dose timer, or it shows a missed-dose alert at once. A set of shown keys keeps a notification from being shown twice, and that set is cleared once a day.
- **The medication form and the dose card.** The form has validation rules, the dosage menu, and the payload a submission hands to the store. The card has the taken toggle, the past-due test behind the reschedule button, and the unit label.

Modules:

| Module | What it holds |
|---|---|
| `Common` | `Option`, a specified `Filter`, and distinctness lemmas. |
| `Clock` | Day numbers (day 0 = 1970-01-01) and "HH:MM" times with their parse/format pair. The code-point order of times agrees with chronological order. Also weekdays and millisecond instants. |
| `Types` | The records of `src/lib/types.ts`. |
| `Sorting` | The stable sort `Array.prototype.sort`: an insertion sort specified on sequences and carried out in place on an array. |
| `Resolver` | `getMedicationsForDate`. |
| `Store` | The store: pure updates, plus the class `MedicationStore` that applies them to its four fields. |
| `Scheduler` | The notification engine: pure pass functions, plus the class `NotificationScheduler` with the pending timers, the shown keys and the notification log. |
| `Form` | The form schema, `generateDosageOptions` and `handleFormSubmit`. |
| `Card` | The decision logic of `MedicationCard`. |

Parameters stand in for the environment:

- The wall clock (`now` in ms, `today`, `nowTime`).
- Fresh ids and ISO timestamps.
- The user's answer to the permission prompt.
- The taken-log as read from storage when a timer fires.

## Model

| member | source | states |
|---|---|---|
| Clock.ParseTime | src/components/medication-form.tsx:64 | A time parses to a minute of the day exactly when it matches `^([01]\d\|2[0-3]):([0-5]\d)$`; the minute is below 1440 |
| Clock.FormatTime | src/components/medication-form.tsx:64 | Formatting a minute of the day gives a well-formed time that parses back to that minute |
| Clock.ParseThenFormat | src/components/medication-form.tsx:64 | Every well-formed time is the formatting of the minute it parses to (the two are inverse) |
| Clock.LexLeTotal | src/hooks/use-medications.ts:238 | The text order used by the sort compares every pair of times |
| Clock.LexLeTransitive | src/hooks/use-medications.ts:238 | The text order used by the sort is transitive |
| Clock.LexOrderIsChronological | src/hooks/use-medications.ts:238 | On well-formed times, ordering by text (`localeCompare`) is ordering by minute of the day |
| Clock.WeekdayOf | src/hooks/use-medications.ts:168 | Day 0 (1970-01-01) is a Thursday |
| Clock.WeekdaySuccessor | src/hooks/use-medications.ts:168 | The day after any date has the next weekday (Sunday then Monday); with day 0 a Thursday this fixes the weekday of every date |
| Clock.WeekdayPeriodic | src/hooks/use-medications.ts:168 | Dates seven days apart have the same weekday |
| Clock.WeekdayWithinAWeek | src/hooks/use-medications.ts:168 | Every weekday occurs within any seven consecutive days |
| Types.DoseInstant | src/hooks/useNotificationScheduler.ts:73 | A dose has an instant exactly when its effective time is well formed, and that instant falls within the dose's own day |
| Types.DoseInstantReadsEffectiveTime | src/hooks/useNotificationScheduler.ts:73 | The dose instant is a whole minute of the dose's date, and that minute formats back to the effective "HH:MM" time |
| Types.TakenStatus | src/hooks/use-medications.ts:225 | Definition: the `taken` flag of the entry at medication, date and original time, false when any level is missing; see Resolver.ResolveIntake |
| Sorting.SortBySorted | src/hooks/use-medications.ts:238 | With a total preorder the sort's result is ordered |
| Sorting.SortBy | src/hooks/use-medications.ts:238 | The sort's result is a permutation of its input |
| Sorting.SortStable | src/hooks/use-medications.ts:238 | Elements with equal keys keep their relative order (the sort is stable) |
| Sorting.SortInPlace | src/hooks/use-medications.ts:238 | The in-place array sort leaves the array holding the stable sort of its old contents |
| Sorting.InsertAt | src/hooks/use-medications.ts:238 | One insertion step puts the element where the sequence-level insertion puts it and leaves the rest of the array alone |
| Resolver.FindCycleDay | src/hooks/use-medications.ts:191 | `find` by day number: `None` exactly when no entry has that number; otherwise an entry of the pattern with that number |
| Resolver.FindCycleDayFirst | src/hooks/use-medications.ts:191 | The entry found is the first one with that number |
| Resolver.RuleByKind | src/hooks/use-medications.ts:177-180 | A daily rule yields its own intake list on every date; a weekly rule yields the list of the date's weekday, or nothing when the weekday is absent |
| Resolver.NominalIntakes | src/hooks/use-medications.ts:177-196 | Definition of the intakes a rule prescribes on a date; see RuleByKind, DailyEveryDay, WeeklyRepeats, CyclicalIncomplete, CyclicalBeforeStart and CyclicalDay |
| Resolver.DailyEveryDay | src/hooks/use-medications.ts:177-178 | A daily rule yields the same intakes on any two dates |
| Resolver.WeeklyRepeats | src/hooks/use-medications.ts:179-180 | A weekly rule repeats every seven days and yields nothing for an absent weekday |
| Resolver.CyclicalIncomplete | src/hooks/use-medications.ts:181 | A cyclical rule with a missing pattern, start date or length, or a length of 0 or less, yields nothing |
| Resolver.CyclicalBeforeStart | src/hooks/use-medications.ts:187-189 | A cyclical rule yields nothing before its start date |
| Resolver.CyclicalPeriodic | src/hooks/use-medications.ts:187-191 | From the start date on, dates `d` and `d + cycleLength` yield the same intakes |
| Resolver.CyclicalDay | src/hooks/use-medications.ts:187-194 | On day `j` of any repetition of the cycle, the rule yields the intakes of the entry numbered `j + 1`, or nothing when there is none |
| Resolver.CyclicalStartDay | src/hooks/use-medications.ts:189-194 | On the start date the rule yields the entry numbered 1, wherever it sits in the pattern |
| Resolver.CycleEntriesOutOfRangeUnused | src/hooks/use-medications.ts:190-191 | Entries numbered outside 1..cycleLength are never used: removing one changes nothing |
| Resolver.FindCycleDayIgnoresOtherDays | src/hooks/use-medications.ts:191 | Removing an entry with another number does not change the lookup |
| Resolver.CycleLookupIgnoresOrder | src/hooks/use-medications.ts:191 | When day numbers are distinct, the lookup goes by the `day` field and not by position: any reordering gives the same result |
| Resolver.FindReschedule | src/hooks/use-medications.ts:212-217 | `None` exactly when no reschedule matches on all four fields; otherwise a matching reschedule from the list |
| Resolver.FirstApplicable | src/hooks/use-medications.ts:212-217 | The reschedule found is the first matching one |
| Resolver.ResolveIntake | src/hooks/use-medications.ts:212-234 | The item keeps the medication, the date and the original time as `scheduledTime`. `isTaken` is the log entry for the original time, false when any level is missing. `isRescheduled` holds iff some reschedule matches, and then the effective time is the first match's `newTime`; otherwise the intake is unchanged |
| Resolver.TakenIgnoresReschedules | src/hooks/use-medications.ts:225 | The taken state and `scheduledTime` do not depend on reschedules |
| Resolver.RescheduleOnlyOnItsOwnDay | src/hooks/use-medications.ts:212-223 | A reschedule for this slot that was made on another day leaves the item unchanged and unflagged |
| Resolver.TimeLeTotalPreorder | src/hooks/use-medications.ts:238 | The sort's comparator on effective times is a total preorder |
| Resolver.MedicationsForDate | src/hooks/use-medications.ts:161-241 | The day's list is sorted by effective time and is a permutation of the medication-then-intake list; items with equal times keep that order |
| Resolver.UnsortedSound | src/hooks/use-medications.ts:172-236 | Every item accumulated resolves a nominal intake of a listed medication on that date |
| Resolver.Unsorted | src/hooks/use-medications.ts:172-236 | Definition of the accumulated list, medication by medication and intake by intake; see UnsortedSound, UnsortedComplete and UnsortedLength |
| Resolver.UnsortedComplete | src/hooks/use-medications.ts:172-236 | Every nominal intake of every medication yields its resolved item |
| Resolver.ItemsForDateMembership | src/hooks/use-medications.ts:161-241 | An item is on the day's list exactly when it resolves one nominal intake of one medication on that date |
| Resolver.ItemsBelongToDate | src/hooks/use-medications.ts:227-234 | Every item on the list is dated that day and belongs to a listed medication |
| Resolver.UnsortedLength | src/hooks/use-medications.ts:172-236 | The accumulated list has one item per nominal intake |
| Resolver.ItemCount | src/hooks/use-medications.ts:161-241 | The day's list has one item per nominal intake across all medications |
| Resolver.GetMedicationsForDate | src/hooks/use-medications.ts:161-241 | The loops that accumulate items, followed by the in-place sort, compute exactly the specified day's list |
| Store.Spread | src/hooks/use-medications.ts:94 | Object spread: a missing key keeps the old value, an `undefined` key erases it, a present key replaces it |
| Store.NewMedication | src/hooks/use-medications.ts:81-88 | A new record carries the payload's fields, the fresh id, and both timestamps set to now |
| Store.Merge | src/hooks/use-medications.ts:94 | An edit spreads the payload over the record; id and creation time stay, and the update time becomes now |
| Store.UpdateById | src/hooks/use-medications.ts:91-97 | Update keeps the list length, ids and creation times; it changes only the elements with the id, each to its merge |
| Store.IdsStayUnique | src/hooks/use-medications.ts:81-97 | Adding under a fresh id and updating both keep ids pairwise distinct |
| Store.WithoutMedication | src/hooks/use-medications.ts:100 | Deletion keeps exactly the medications with other ids and keeps ids distinct |
| Store.WithoutOwner | src/hooks/use-medications.ts:106 | Deletion keeps exactly the reschedules of other medications |
| Store.DeleteRemovesOnlyItsItems | src/hooks/use-medications.ts:99-107 | After deletion no item of the deleted medication appears on any date |
| Store.DeleteKeepsOtherItems | src/hooks/use-medications.ts:99-107 | Every other medication's resolved item is unchanged by the deletion: its taken state and reschedule survive removing the deleted id's log branch and reschedules |
| Store.DeleteKeepsOtherMedicationItems | src/hooks/use-medications.ts:99-107 | Every other medication's items for a date resolve exactly as before the deletion, in the same order |
| Store.DeleteFiltersUnsorted | src/hooks/use-medications.ts:99-107 | Before sorting, the day's list after a deletion is the old list with the deleted medication's items taken out and every other item kept in order |
| Store.MarkTaken | src/hooks/use-medications.ts:109-120 | Marking sets the occurrence's entry to taken at the given time and leaves every other entry unchanged |
| Store.UnmarkTaken | src/hooks/use-medications.ts:122-131 | Unmarking turns an existing entry into "not taken" with no actual time, changes nothing when there is no entry, and leaves other entries unchanged |
| Store.ActualTime | src/hooks/use-medications.ts:116 | The recorded time is the given one when it is non-empty, and the clock time otherwise |
| Store.MarkUnmarkToggle | src/hooks/use-medications.ts:109-131 | After a mark the occurrence is taken, after an unmark it is not, and an unmark before a mark is erased by the mark |
| Store.MarkedDoseShowsTaken | src/hooks/use-medications.ts:109-120 | Once an occurrence is marked, the day's list shows that dose as taken |
| Store.ReplaceReschedule | src/hooks/use-medications.ts:137-144 | The new reschedule comes last, after exactly the earlier reschedules of other slots |
| Store.OneReschedulePerSlot | src/hooks/use-medications.ts:143 | After insertion the slot has exactly one reschedule, the last one |
| Store.RescheduleTakesEffect | src/hooks/use-medications.ts:137-144 | A reschedule made today for one of today's doses shows on today's list at the new time, flagged, with the original `scheduledTime` |
| Store.AppliedOn | src/hooks/use-medications.ts:74 | The reset keeps exactly the reschedules made today |
| Store.ResetIdempotent | src/hooks/use-medications.ts:70-78 | Filtering for today's reschedules twice is the same as filtering once |
| Store.ResetKeepsTodaysList | src/hooks/use-medications.ts:70-78 | The daily reset does not change today's list |
| Store.MedicationStore.Load | src/hooks/use-medications.ts:21-44 | Each field starts as the stored value, or as the empty default when nothing is stored |
| Store.MedicationStore.DailyReset | src/hooks/use-medications.ts:70-78 | On a new day only today's reschedules survive and the reset date becomes today; a second run on the same day changes nothing |
| Store.MedicationStore.AddMedication | src/hooks/use-medications.ts:81-89 | The new record is appended; distinct ids stay distinct; nothing else changes |
| Store.MedicationStore.UpdateMedication | src/hooks/use-medications.ts:91-97 | Only the elements with the id are merged with the payload; distinct ids stay distinct; nothing else changes |
| Store.MedicationStore.DeleteMedication | src/hooks/use-medications.ts:99-107 | No medication, log branch or reschedule with the id remains; everything else is kept |
| Store.MedicationStore.MarkAsTaken | src/hooks/use-medications.ts:109-120 | The log becomes its marked version; nothing else changes |
| Store.MedicationStore.UnmarkAsTaken | src/hooks/use-medications.ts:122-131 | The log becomes its unmarked version; nothing else changes |
| Store.MedicationStore.GetTakenStatus | src/hooks/use-medications.ts:133-135 | True exactly when the log holds an entry for the slot and that entry says taken |
| Store.MedicationStore.AddTemporaryReschedule | src/hooks/use-medications.ts:137-144 | The move, stamped with today, replaces earlier moves of the same slot; nothing else changes |
| Scheduler.AlertOf | src/hooks/useNotificationScheduler.ts:9 | A notification is tagged with its key, which uses the original time; the text shows the effective time |
| Scheduler.KindsHaveDistinctKeys | src/hooks/useNotificationScheduler.ts:9 | A dose's pre-dose and missed-dose keys differ, and both use the original time |
| Scheduler.NoPermissionNoEffect | src/hooks/useNotificationScheduler.ts:47-53 | Without granted permission a reconciliation only cancels timers: nothing is scheduled, shown or forgotten |
| Scheduler.PassAppendsAlerts | src/hooks/useNotificationScheduler.ts:58-128 | A pass only appends to the timers and to the notifications shown |
| Scheduler.Step | src/hooks/useNotificationScheduler.ts:59-127 | Definition of one item's turn in the pass; see the Pass lemmas |
| Scheduler.Pass | src/hooks/useNotificationScheduler.ts:58-128 | Definition of the pass as the items in order; see the Pass lemmas |
| Scheduler.Reconciled | src/hooks/useNotificationScheduler.ts:47-58 | Definition of a reconciliation: timers cleared, then a pass when permission is granted; see NoPermissionNoEffect and ReconcileLeavesOnlyFreshTimers |
| Scheduler.PassTimersAreJustified | src/hooks/useNotificationScheduler.ts:73-127 | Every timer a pass sets belongs to an untaken dose of today. Its delay is strictly positive: the dose instant minus 10 minutes minus now, or plus 1 minute minus now |
| Scheduler.ReconcileLeavesOnlyFreshTimers | src/hooks/useNotificationScheduler.ts:47-49 | After a reconciliation every pending timer was set by that pass |
| Scheduler.PassAlertsAreOverdue | src/hooks/useNotificationScheduler.ts:99-108 | Every notification a pass shows at once is the missed-dose alert of an untaken dose of today that is more than a minute overdue |
| Scheduler.PassKeyChanges | src/hooks/useNotificationScheduler.ts:67-108 | A key a pass adds to the shown set is a missed-dose key whose notification it showed; a shown key no taken item owns stays shown |
| Scheduler.PassAlertsEveryOverdueDose | src/hooks/useNotificationScheduler.ts:99-108 | Every untaken dose of today more than a minute overdue whose missed-dose key was not shown gets a missed-dose notification in the pass |
| Scheduler.PassSetsPreDoseTimers | src/hooks/useNotificationScheduler.ts:76-95 | Every untaken dose of today whose reminder instant (10 minutes before) is ahead and whose pre-dose key is not shown gets its reminder timer with that delay |
| Scheduler.PassSetsMissedTimers | src/hooks/useNotificationScheduler.ts:99-126 | Every untaken dose of today whose grace minute is ahead and whose missed-dose key is not shown gets its missed-dose timer with that delay, unless a dose with the same key was notified at once in the pass |
| Scheduler.PassAlertsAreFresh | src/hooks/useNotificationScheduler.ts:99-108 | For consistent items, each notification a pass shows has a key not shown before the pass, and that key is shown afterwards |
| Scheduler.PassAlertKeysDistinct | src/hooks/useNotificationScheduler.ts:99-108 | For consistent items, the notifications one pass shows have pairwise different keys |
| Scheduler.PassTimersAreFresh | src/hooks/useNotificationScheduler.ts:76-126 | For consistent items, every timer a pass sets is for a key that was not shown before the pass |
| Scheduler.PassSettles | src/hooks/useNotificationScheduler.ts:58-128 | After a pass, taken doses have neither key in the shown set, and overdue untaken doses have their missed-dose key in it |
| Scheduler.PassOnSettledIsQuiet | src/hooks/useNotificationScheduler.ts:58-128 | A pass over settled keys shows nothing and changes no key |
| Scheduler.ReconcileIdempotent | src/hooks/useNotificationScheduler.ts:47-133 | Reconciling again with the same items at the same instant shows no notification twice and leaves the shown keys as they were |
| Scheduler.ResolvedItemsAreConsistent | src/hooks/useNotificationScheduler.ts:64 | The day's list meets the consistency condition: each item's taken state is the log entry of its own key |
| Scheduler.Fire | src/hooks/useNotificationScheduler.ts:81-93 | A firing shows its notification exactly when the live log does not record the dose as taken and the key is not shown; it then adds the key |
| Scheduler.FiringNeverRepeats | src/hooks/useNotificationScheduler.ts:81-93 | Timers firing in any sequence never show two notifications with the same key, never show an already-shown key, and never show one for a dose the live log records as taken |
| Scheduler.NotificationScheduler.constructor | src/hooks/useNotificationScheduler.ts:17-19 | The permission starts at "default", with no timers and no shown keys |
| Scheduler.NotificationScheduler.RequestPermission | src/hooks/useNotificationScheduler.ts:22-37 | A browser that has already granted permission keeps it; otherwise the user's answer is recorded |
| Scheduler.NotificationScheduler.Reconcile | src/hooks/useNotificationScheduler.ts:47-133 | The loop over the items leaves the state the reconciliation function specifies |
| Scheduler.NotificationScheduler.FireTimer | src/hooks/useNotificationScheduler.ts:112-123 | The timer leaves the pending list and its firing is applied |
| Scheduler.NotificationScheduler.Shutdown | src/hooks/useNotificationScheduler.ts:130-132 | Every pending timer is cancelled |
| Scheduler.NotificationScheduler.ResetShown | src/hooks/useNotificationScheduler.ts:136-148 | On a new day the shown keys are cleared, and otherwise they are kept; the stored date becomes today |
| Form.TrimStart | src/components/medication-form.tsx:68 | Leading white space is removed and nothing more |
| Form.TrimEnd | src/components/medication-form.tsx:68 | Trailing white space is removed and nothing more |
| Form.TrimmedEmpty | src/components/medication-form.tsx:68 | A string trims to "" exactly when all its characters are white space |
| Form.CustomUnitNeedsText | src/components/medication-form.tsx:63-71 | With unit `custom` an intake is valid exactly when its time is well formed, its dosage is at least 0.01, and its label has a non-white-space character |
| Form.ValidIntake | src/components/medication-form.tsx:63-71 | Definition of the intake rule; see CustomUnitNeedsText and CustomLabelIgnored |
| Form.ValidCycleDay | src/components/medication-form.tsx:73-76 | Definition of the cycle-day rule: day at least 1 and at least one valid intake |
| Form.CustomLabelIgnored | src/components/medication-form.tsx:66-68 | With any other unit the custom label does not affect validity |
| Form.PaletteColorsValid | src/components/medication-form.tsx:57-61 | Every palette colour passes the `#` plus six hex digits rule |
| Form.NewFormNeedsOnlyAName | src/components/medication-form.tsx:78-114 | A fresh form (first swatch, one 08:00 dose of one pill) is accepted exactly when its name has 2 to 100 characters |
| Form.FieldsValid | src/components/medication-form.tsx:78-97 | Definition of the field rules; see NewFormNeedsOnlyAName |
| Form.FrequencyComplete | src/components/medication-form.tsx:98-114 | Definition of the per-frequency completeness rules; see NewFormNeedsOnlyAName |
| Form.ValidForm | src/components/medication-form.tsx:78-114 | Definition of an accepted form; see NewFormNeedsOnlyAName |
| Form.SortedMenu | src/components/medication-form.tsx:45-53 | The menu holds exactly the base values and the current value, strictly increasing, so each appears once |
| Form.GenerateDosageOptions | src/components/medication-form.tsx:43-54 | The menu holds exactly the twelve base amounts plus the current one, each once, in increasing order |
| Form.Carry | src/components/medication-form.tsx:297-308 | An optional form value becomes a key that is always written, and an empty value erases the field |
| Form.HandleFormSubmit | src/components/medication-form.tsx:288-311 | The conditional assignments build the specified payload |
| Form.EditReplacesOnlyTheChosenRule | src/components/medication-form.tsx:288-311 | An edit replaces the chosen kind's rule fields and notes, and keeps the stored fields of the other kinds |
| Form.EditSchedulesAsNew | src/components/medication-form.tsx:288-311 | An edited record is scheduled exactly like a new record made from the same submission |
| Form.DailySubmissionEveryDay | src/components/medication-form.tsx:98-101 | An accepted daily submission yields its non-empty list of valid intakes on every date |
| Form.CyclicalSubmissionFollowsPattern | src/components/medication-form.tsx:102-105 | An accepted cyclical submission gives a usable rule: from the start date, day `j` yields the entry numbered `j + 1` |
| Form.WeeklySubmissionEveryWeek | src/components/medication-form.tsx:106-114 | An accepted weekly submission has some dose in every run of seven consecutive days |
| Card.ToggleTaken | src/components/medication-card.tsx:22-28 | The button unmarks exactly when the item is taken, always for the item's medication, date and original time |
| Card.ToggleFlips | src/components/medication-card.tsx:22-28 | Pressing the button flips the dose's taken state and leaves every other slot alone; pressing it again restores the state |
| Card.ApplyToggle | src/components/medication-card.tsx:22-28 | Definition of the store call the button makes; see ToggleFlips |
| Card.RescheduleShownWhenPastDue | src/components/medication-card.tsx:101 | The reschedule button shows exactly for past-due doses: today's, untaken, and with a well-formed time |
| Card.IsPastDue | src/components/medication-card.tsx:33-42 | Definition of past due; see MissedDoseIsPastDue and RescheduleClearsPastDue |
| Card.ShowsReschedule | src/components/medication-card.tsx:101 | Definition of when the reschedule button shows; see RescheduleShownWhenPastDue |
| Card.MissedDoseIsPastDue | src/components/medication-card.tsx:30-42 | A dose the notifier reports as missed is past due on its card; during the grace minute a dose is past due but not reported |
| Card.RescheduleClearsPastDue | src/components/medication-card.tsx:30-42 | Moving a dose of today to a time not yet reached takes it out of the past-due state and keeps its original slot |
| Card.UnitText | src/components/medication-card.tsx:71 | A non-empty custom label for the custom unit, the unit name otherwise |
| Card.UnitLabel | src/components/medication-card.tsx:71 | No suffix for a dosage of at most 1 or for ml/mg/g; "patches" for patch; an "s" for the other units, custom labels included |

## Left out

- Store.NewMedication: one `now` stamps both `createdAt` and `updatedAt`; the source reads the clock twice (src/hooks/use-medications.ts:85-86), so the two stamps can differ by a millisecond.
- Store.DeleteFiltersUnsorted: proved for the list before sorting; that the sorted day's list after a deletion is the old sorted list filtered is not proved (it would need stable sorting to commute with filtering).
- Storage and JSON. This covers localStorage, JSON parse/stringify and the write-back effects (`src/hooks/use-medications.ts:46-68`). The load takes the stored values as parameters. A JSON parse error during load is not modelled.
- React machinery (state hooks, effect ordering and batching). How the load effect interleaves with the reset effect on first render is not modelled.
- The browser Notification API, `setTimeout` and `clearTimeout`. Timers are pending records, and showing a notification appends to a log.
- The permission check inside `showNotification` is not modelled separately: timers exist only after a pass run with permission granted.
- Clock reads inside the pass. `isFuture` and `isPast` read the clock again; the model uses the one `now` of the pass.
- Calendar libraries and time zones. date-fns parsing and formatting, `differenceInCalendarDays` and DST are not modelled. Dates are day numbers, and every day is 86 400 000 ms long.
- Start-date conversions. The form's date-string-to-ISO conversion and the UTC/local shift of the cycle start date are not modelled.
- Date validity. The `Date.parse` check on `cycleStartDate` is replaced by an optional day number.
- Time strings. Time text that is not exactly "HH:MM" has no instant: the notifier and the card ignore it. date-fns also accepts some other forms, such as one-digit hours.
- `localeCompare` is modelled as code-point order. For well-formed "HH:MM" times the two agree, and the model proves that this order is chronological.
- Length checks count characters, not UTF-16 code units (name 2–100, notes ≤ 500).
- Number coercion. `Number(...)`, `isNaN` and `String(v)` are not modelled: dosages are reals, the dosage menu takes `Option<real>`, and labels are not rendered.
- Fractional numbers. A non-integer cycle length or cycle day number is not modelled.
- uuid generation and ISO timestamps are parameters.
- Unused fields and code. The optional `icon` field of a medication is not modelled. The unused `activeReschedulesForMedOnDate` filter and its `find` are dead code.
- The unit and frequency enums. Zod's membership checks on `unit` and `frequencyType` are guaranteed by the datatypes.
- The edit form's default values (`src/components/medication-form.tsx:242-258`) and all JSX rendering.
- The notification key is a record of its four parts, not the `${...}-${...}` string. Two different records can give the same string, so two keys that differ in the model could collide as strings when an id or a time contains "-".
- Pages and layout. The page that prompts for the new time of a reschedule, the add/edit pages, the layout and the header are outside this model.
