# Medicine reminder engine — a verified model

This project models the engine of a console medicine-reminder application
(`src/core`): four record stores and the operations that run over them.

- **Medicines.** Each is one line `username,name,dosage,quantity,times,start,end,expiry`, with dose times written `HH:mm;` each.
- **Reminders.** One line `username,medicine,HH:mm,date,taken` per dose slot.
- **Notifications.** `username,message,TYPE,processed`.
- **Dose history.** `username,medicine,date HH:mm:ss`.

The engine's operations:

- **Schedule generation** expands a medicine's dose times over its date window. It skips slots that already have a reminder.
- **Due scan and missed scan** turn untaken reminders into notifications.
- **Notification helpers.** Due and refill alerts are not raised again while one is pending. Missed-dose alerts always are.
- **Notification processing.** A refill tops the stock up. An expired medicine is removed. A due dose is either taken (reminder marked, history entry, one unit of stock) or copied as a missed dose. Then the notification is marked processed.
- **Whole-file rewrites** set a flag or a quantity on matching records.

Each store is a class whose `records` (or, for the history, `lines`) the methods reassign. Every method is proved equal to a function on the old contents, and the properties are lemmas about those functions.

Further modelling choices:

- Dates are day numbers and times are minutes of the day.
- Java's `int` is `Int32`, with `Wrap32` where the source adds.
- `String.split`, `String.join`, `trim` and `replace(target, "")` are modelled as Java defines them (module `Strings`).
- "Now", "today", the user's menu answers and the entered amounts are parameters.
- The Java static methods that touch several stores take the store objects as parameters.

Modules:

- `Lang`: Option, Int32, Filter, First.
- `Strings` and `Clock`: text forms.
- `DoseHistories` and `DoseHistoryManager`.
- `Notifications`.
- `NotificationDedup`: the three `add*Notification` helpers.
- `Medicines`.
- `Reminders`.
- `ReminderManager`: the scans.
- `NotificationManager`: processing.

The code is followed where its behaviour differs from the application's description:

- The due test is strictly before now.
- De-duplication ignores processed alerts.
- Stock updates do not clamp at zero.
- A refill alert is raised for any quantity ≤ 0, with no date-window check, even when no record matched.
- Removing a medicine leaves its reminders.
- Processing marks a notification processed even when its handler did nothing.

## Model

| member | source | states |
|---|---|---|
| Lang.Wrap32 | src/core/NotificationManager.java:228 | the result is a Java `int` equal to the sum modulo 2^32, and the sum itself when it is in range |
| Lang.First | src/core/NotificationManager.java:129-133 | `findFirst`: None exactly when no element passes; otherwise the element at the first passing index |
| Lang.FilterMembers | src/core/Medicine.java:60-72 | a read loop that collects the records passing a test keeps exactly those records |
| Lang.FilterAppend | src/core/Notification.java:48-54 | collecting over a concatenation is the concatenation of the collections, so store order is kept |
| Lang.FilterKeepsAll | src/core/Medicine.java:139-184 | a filter drops something exactly when some element fails the test |
| Lang.FilterDistinct | src/core/Reminder.java:116-134 | a filter of a sequence without repeats has no repeats |
| Strings.JoinPieces | src/core/Notification.java:70-74 | joining the split pieces with the separator gives the line back |
| Strings.SplitJoin | src/core/Notification.java:31 | `join(",", fields).split(",")` gives back comma-free fields whose last one is not empty |
| Strings.SplitToNothing | src/core/NotificationManager.java:300 | `split(":")` returns no piece exactly for a non-empty run of colons |
| Strings.NatTextRoundTrip | src/core/Medicine.java:41 | a decimal numeral reads back as the number |
| Strings.IntTextRoundTrip | src/core/Medicine.java:61-70 | `Integer.parseInt(String.valueOf(q)) == q` for every `int` |
| Strings.BoolTextRoundTrip | src/core/Notification.java:31-51 | `Boolean.parseBoolean(String.valueOf(b)) == b` |
| Clock.SlotOrderIsTimeOrder | src/core/Reminder.java:73 | ordering slots by date and then time is the order of their instants |
| Clock.TimeTextRoundTrip | src/core/Reminder.java:35-56 | an `HH:mm` time reads back as the same minute |
| Clock.SlotTextRoundTrip | src/core/ReminderManager.java:96-98 | the `date HH:mm` text of a slot reads back as the slot |
| Clock.StampTextRoundTrip | src/core/DoseHistory.java:44-55 | a history timestamp reads back without its sub-second part |
| DoseHistories.CsvRoundTrip | src/core/DoseHistory.java:44-58 | `fromCSV(toCSV(h))` is h truncated to the second, for comma-free names |
| DoseHistories.CommaInNameIsRejected | src/core/DoseHistory.java:50-58 | a comma in a name gives more than three fields, so `fromCSV` returns null |
| DoseHistoryManager.ReadHistorySound | src/core/DoseHistoryManager.java:37-51 | every entry returned is the user's (and the medicine's) and is parsed from some line of the file |
| DoseHistoryManager.ReadHistoryFailurePersists | src/core/DoseHistoryManager.java:42-47 | once a line throws, the whole query fails |
| DoseHistoryManager.ByMedicineRefinesByUser | src/core/DoseHistoryManager.java:55-69 | the by-medicine query fails exactly when the by-user query does, and otherwise returns the by-user result filtered by medicine, in order |
| DoseHistoryManager.AddThenRead | src/core/DoseHistoryManager.java:26-51 | after adding h, the user's history is the old one followed by h truncated to the second |
| DoseHistoryManager.HistoryFile.AddDoseHistory | src/core/DoseHistoryManager.java:26-33 | exactly one line, `toCSV(h)`, is appended |
| DoseHistoryManager.HistoryFile.GetDoseHistoryByUser | src/core/DoseHistoryManager.java:37-52 | the result is the reading of the file for the user |
| DoseHistoryManager.HistoryFile.GetDoseHistoryByMedicine | src/core/DoseHistoryManager.java:55-70 | the result is the reading of the file for the user and medicine |
| Notifications.CodecRoundTrip | src/core/Notification.java:31-51 | a record with comma-free user name and message reads back as written |
| Notifications.MarkProcessed | src/core/Notification.java:62-81 | every record with that user and message is processed, whatever its type; nothing else, nor the count or order, changes |
| Notifications.MarkProcessedIdempotent | src/core/Notification.java:71-72 | marking twice is marking once |
| Notifications.MarkLineAgrees | src/core/Notification.java:69-74 | the line rewrite (`data[3] = "true"`) is the record rewrite, on comma-free records |
| Notifications.NotificationFile.AddNotification | src/core/Notification.java:27-39 | exactly one record is appended at the end |
| Notifications.NotificationFile.GetUserNotifications | src/core/Notification.java:42-59 | the result is the user's records in store order |
| Notifications.NotificationFile.MarkNotificationAsProcessed | src/core/Notification.java:62-81 | the store becomes `MarkProcessed` of the old store |
| NotificationDedup.AddDue | src/core/NotificationManager.java:316-330 | the old alerts are kept, and a pending due alert is appended exactly when none with that user and message is pending; a processed one does not block it |
| NotificationDedup.AddRefill | src/core/NotificationManager.java:332-345 | a pending refill alert is appended exactly when no pending alert of any type has that user and message |
| NotificationDedup.AddMissed | src/core/NotificationManager.java:347-350 | exactly one pending missed-dose alert is appended, always |
| NotificationDedup.AnyPendingIsPending | src/core/NotificationManager.java:317-320 | the test over the user's list answers as the test over the whole store |
| NotificationDedup.AddMedicineTimeNotification | src/core/NotificationManager.java:316-330 | the store becomes `AddDue` of the old store |
| NotificationDedup.AddRefillNotification | src/core/NotificationManager.java:332-345 | the store becomes `AddRefill` of the old store |
| NotificationDedup.AddMissedDoseNotification | src/core/NotificationManager.java:347-350 | the store becomes `AddMissed` of the old store |
| NotificationDedup.AddDueAllPending | src/core/ReminderManager.java:92-102 | after a due scan, every message of the scan has a pending due alert |
| NotificationDedup.DueScanIdempotent | src/core/ReminderManager.java:88-103 | running the due scan a second time with no processing in between appends nothing |
| NotificationDedup.ProcessedDueIsRaisedAgain | src/core/NotificationManager.java:316-329 | once its alert is processed, the same due message is appended again |
| NotificationDedup.ProcessedRefillIsRaisedAgain | src/core/NotificationManager.java:332-344 | once its alert is processed, the same refill message is appended again |
| NotificationDedup.AddDueKeepsDeduplicated | src/core/NotificationManager.java:316-329 | raising a due alert keeps at most one pending due alert and one pending refill alert per user and message |
| NotificationDedup.AddRefillKeepsDeduplicated | src/core/NotificationManager.java:332-344 | raising a refill alert keeps that invariant |
| NotificationDedup.AddMissedKeepsDeduplicated | src/core/NotificationManager.java:347-350 | a missed-dose alert keeps that invariant |
| NotificationDedup.MarkProcessedKeepsDeduplicated | src/core/Notification.java:62-81 | marking processed keeps that invariant |
| NotificationDedup.AddDueAllKeepsDeduplicated | src/core/ReminderManager.java:88-103 | a whole due scan keeps that invariant |
| Medicines.TimesRoundTrip | src/core/Medicine.java:37-67 | a non-empty list of dose times written `HH:mm;` each and split on `;` reads back as the same list |
| Medicines.NoTimesUnreadable | src/core/Medicine.java:37-67 | a medicine with no dose time is written with an empty field that no longer reads back |
| Medicines.CodecRoundTrip | src/core/Medicine.java:40-70 | a medicine with comma-free text fields and at least one dose time reads back as written |
| Medicines.Restocked | src/core/Medicine.java:81-136 | every record matching user and name holds the new quantity as given (no clamping); all other fields and records are unchanged, with the same count and order |
| Medicines.RestockedUserView | src/core/Medicine.java:81-136 | the user sees the same number of medicines, and those with the name hold the new quantity |
| Medicines.Removed | src/core/Medicine.java:139-185 | exactly the records not matching user and name remain, in order; something is dropped exactly when some record matched |
| Medicines.RemoveIdempotent | src/core/Medicine.java:139-185 | removing twice removes nothing more |
| Medicines.MedicineFile.AddMedicine | src/core/Medicine.java:32-51 | exactly one record is appended |
| Medicines.MedicineFile.GetUserMedicines | src/core/Medicine.java:54-78 | the result is the user's records in store order |
| Medicines.MedicineFile.UpdateMedicineStock | src/core/Medicine.java:81-136 | the store becomes `Restocked`; when the new quantity is ≤ 0, a refill alert goes through the refill helper even if nothing matched |
| Medicines.MedicineFile.RemoveMedicine | src/core/Medicine.java:139-185 | the store becomes `Removed`; the result is true exactly when some record matched; reminders are not touched |
| Reminders.CodecRoundTrip | src/core/Reminder.java:35-57 | a reminder with comma-free names reads back as written |
| Reminders.MarkTaken | src/core/Reminder.java:194-228 | every reminder matching user, medicine, date and time is taken; nothing else, nor the count or order, changes |
| Reminders.MarkTakenUnmatched | src/core/Reminder.java:217-226 | with no match, the store is as it was |
| Reminders.MarkTakenIdempotent | src/core/Reminder.java:194-228 | marking twice is marking once |
| Reminders.MarkLineAgrees | src/core/Reminder.java:201-210 | the line rewrite is the record rewrite, on comma-free records |
| Reminders.DayRunMembers | src/core/Reminder.java:117-136 | one dose time proposes an untaken reminder for each date from start to end inclusive, and nothing else |
| Reminders.CandidatesCount | src/core/Reminder.java:116-137 | the proposals number |times| × (days in the window), and none when start > end |
| Reminders.CandidatesMembers | src/core/Reminder.java:116-137 | the proposals are exactly the untaken reminders at a dose time and a date of the window |
| Reminders.CandidatesDistinct | src/core/Reminder.java:116-137 | with distinct dose times, no proposal repeats |
| Reminders.Generate | src/core/Reminder.java:84-181 | the report is "not found" exactly when no medicine record matches user and name, and then the reminders are unchanged; otherwise the old reminders are kept and `added` new ones follow |
| Reminders.GenerateCount | src/core/Reminder.java:112-137 | added + skipped = |times| × (days in the window) of the first matching medicine |
| Reminders.GenerateMembers | src/core/Reminder.java:105-134 | the appended reminders are exactly the proposals whose slot has no existing reminder of the medicine |
| Reminders.GenerateIdempotent | src/core/Reminder.java:105-134 | generating again with the same medicines appends nothing |
| Reminders.GenerateNoDuplicates | src/core/Reminder.java:105-134 | with distinct dose times, generation adds no reminder for a slot that already has one and no two for the same slot |
| Reminders.RepeatedTimeDuplicates | src/core/Reminder.java:107-129 | a dose time listed twice gives two identical reminders, because the existing-slot set is not updated during the loop |
| Reminders.SortBySlot | src/core/ReminderManager.java:26-29 | the array ends sorted by date and then time, as a permutation of its old contents |
| Reminders.SortedReminders | src/core/Reminder.java:73 | the result is sorted by date and then time and is a permutation of the input |
| Reminders.ReminderFile.AddReminder | src/core/Reminder.java:31-44 | exactly one record is appended |
| Reminders.ReminderFile.GetRemindersByMedicine | src/core/Reminder.java:47-65 | the result is the records matching user and medicine, in store order |
| Reminders.ReminderFile.MarkReminderAsTaken | src/core/Reminder.java:194-228 | the store becomes `MarkTaken`; the result is true exactly when some record matched |
| Reminders.ReminderFile.GetNextDoseDateTime | src/core/Reminder.java:68-81 | None exactly when every reminder of the medicine is taken; otherwise the slot of an untaken one, no later than any untaken one |
| Reminders.ReminderFile.GenerateMedicineSchedule | src/core/Reminder.java:84-181 | the store and the added/skipped report are `Generate` of the old store and the medicines |
| ReminderManager.DueScanMembers | src/core/ReminderManager.java:88-103 | a due message is produced exactly for an untaken reminder of one of the user's medicines whose slot is strictly before now |
| ReminderManager.NotDueAtItsOwnTime | src/core/ReminderManager.java:95 | a reminder scheduled exactly at now is not due |
| ReminderManager.MissedScanMembers | src/core/ReminderManager.java:70-85 | a missed message is produced exactly for an untaken reminder of one of the user's medicines dated strictly before today |
| ReminderManager.AddMissedAll | src/core/ReminderManager.java:74-84 | the missed scan appends one pending missed-dose alert per message, in order, and keeps the old alerts |
| ReminderManager.MissedScansConcatenate | src/core/ReminderManager.java:81 | two missed scans append what one scan over the messages twice over would, so every missed alert is raised twice |
| ReminderManager.AddMissedAllKeepsDeduplicated | src/core/ReminderManager.java:70-85 | the missed scan keeps the de-duplication invariant |
| ReminderManager.CheckDueReminders | src/core/ReminderManager.java:88-103 | the notification store becomes the old store with `AddDue` applied for each due message, over the user's medicines in store order and each one's reminders in store order |
| ReminderManager.CheckMissedDoses | src/core/ReminderManager.java:70-85 | the notification store becomes the old store followed by one missed-dose alert per missed message, in scan order |
| ReminderManager.ViewReminders | src/core/ReminderManager.java:20-29 | the shown list is the medicine's reminders sorted by date and then time |
| NotificationManager.DueMessageRoundTrip | src/core/NotificationManager.java:171-184 | a due message built by the due scan reads back as the medicine name and slot, when `" due at "` does not start inside the name |
| NotificationManager.RefillNameRoundTrip | src/core/NotificationManager.java:128 | the name read from a refill alert is the medicine's, for a name without surrounding blanks or the prefix |
| NotificationManager.ExpiredNameMissing | src/core/NotificationManager.java:300 | taking the expired medicine's name throws exactly for a non-empty run of colons |
| NotificationManager.UserMedicine | src/core/NotificationManager.java:225-227 | the medicine found is the user's and has the name; none is found exactly when the user has no medicine of that name |
| NotificationManager.AdjustStockNeverNegative | src/core/NotificationManager.java:224-239 | the stock adjustment never makes a quantity negative |
| NotificationManager.TakenDoseStock | src/core/NotificationManager.java:224-239 | a taken dose sets every record of the medicine to the user's first such record's quantity minus one (in `int` arithmetic, so the lowest `int` wraps to the highest) when that is ≥ 0; it changes nothing when the result would be negative or the user has no such medicine |
| NotificationManager.HandlersAppend | src/core/NotificationManager.java:117-220 | the handlers only append notifications |
| NotificationManager.ProcessMarksProcessed | src/core/NotificationManager.java:96-114 | unless a handler throws, every record with the notification's user and message ends processed (the missed-dose copy included), and no earlier record loses its flag |
| NotificationManager.ProcessAbortsOnlyOnColons | src/core/NotificationManager.java:299-311 | processing throws, and nothing is marked, exactly for a confirmed expired-medicine alert whose message is a run of colons |
| NotificationManager.UnreadableDueChangesNothing | src/core/NotificationManager.java:170-220 | a due alert whose message does not read back changes no reminder, history or stock, and is still marked processed |
| NotificationManager.TakenDose | src/core/NotificationManager.java:194-206 | taking a dose marks the reminder taken, appends one history entry at now that then reads back, and never makes stock negative |
| NotificationManager.TakenDoseIsNoLongerDue | src/core/NotificationManager.java:194-200 | after the dose of a scan's due alert is taken, the reminders of that slot are due no more |
| NotificationManager.ProcessKeepsDeduplicated | src/core/NotificationManager.java:96-114 | processing keeps at most one pending due alert and one pending refill alert per user and message |
| NotificationManager.FindUserMedicine | src/core/NotificationManager.java:225-237 | the search over the user's medicines finds `UserMedicine` |
| NotificationManager.UpdateMedicineStock | src/core/NotificationManager.java:224-239 | the stores become `AdjustStock`: old + delta is written only when it is ≥ 0, through the public stock update |
| NotificationManager.HandleRefill | src/core/NotificationManager.java:117-141 | option 1 sets the medicine named after the prefix to its current stock (0 when absent) plus the amount |
| NotificationManager.RemoveExpiredMedicine | src/core/NotificationManager.java:299-311 | throws exactly when no name can be read; otherwise removes the named medicine when the user has it |
| NotificationManager.HandleExpiredMedicine | src/core/NotificationManager.java:143-153 | the medicines become `ExpiredOutcome` of the old ones |
| NotificationManager.HandleMedicineTimeNotification | src/core/NotificationManager.java:170-220 | the four stores become `DueOutcome` of the old ones |
| NotificationManager.ProcessNotification | src/core/NotificationManager.java:96-114 | the four stores become `Process` of the old ones, or stay unchanged when a handler throws |

## Left out

- File input and output. Each file is a sequence of records (the dose history a sequence of lines). The record codecs and their round trips relate the two. Nothing models the `IOException` paths or `ensureFileExists`.
- A line that fails to parse while a medicine, reminder or notification file is read. Such a line throws in the source. The model keeps records rather than lines, and it matches the source only for records whose written line reads back: comma-free text fields, and at least one dose time for a medicine. The `CodecRoundTrip` lemmas and `Medicines.NoTimesUnreadable` state where that boundary is. The dose-history reader does model lines and their failures.
- Records whose line does not read back are accepted by the stores without a validity check. Two kinds behave differently from the source:
  - A medicine with no dose time. The source's `getUserMedicines` then throws for that user, and `generateMedicineSchedule` stops with a date/time error.
  - A comma in a text field. The source splits such a line into the wrong fields, so its comparisons, such as the mark-processed test, never match it.
- Reminders.Generate: for a matching medicine with no dose time it reports zero added and zero skipped. The source stops with a date/time error when it parses that medicine's empty times field.
- Calendar dates. A date is a day number and is written as its decimal numeral, not as `yyyy-MM-dd`. The round trips hold for this form.
- The console. Menus, printing, `readIntInput` and `processNotifications`/`displayNotificationTable`/`processSelectedNotification` are not modelled. The user's answers are parameters.
- NotificationManager.ProcessNotification: a missed-dose alert is only displayed. The nested display and selection that can process another notification from there is not modelled.
- `showRefillNotifications`, `refillMedicine` and `recordMissedDose` are left out: none is on the engine's path. `Reminder.parseTimes` is left out because it is unused.
- The missed-dose display filter against "now minus two days" is left out: it is presentation only.
- Reminders.ReminderFile.GenerateMedicineSchedule: every append is counted as added. The source does not count an append whose write fails.
- ReminderManager.ViewReminders: states sorted order and permutation, not that equal slots keep store order as Java's stable `List.sort` does.
- Reminders.SortBySlot: the sort `viewReminders` uses is proved to sort and permute, but not to be stable. For `getNextDoseDateTime` this changes nothing, because tied reminders share one slot.
