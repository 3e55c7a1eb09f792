# SafeKeep warranty tracker — a Dafny model of its core

SafeKeep is a mobile app for keeping track of product warranties. Each
tracked item has a purchase date and a warranty length in months. From
these the app derives:

- an expiration date;
- the whole days remaining;
- a status: active, expiring (30 days or fewer left) or expired.

The app also schedules a reminder 30 days before expiry, keeps local
accounts with a salted base64 password "hash", and exports and backs up the
item list.

This project models the logic behind those features:

- `calendar.dfy`: JavaScript `Date` arithmetic without time zones: ECMAScript DayFromYear/MakeDay, `setMonth` with day rollover, `setDate(getDate() - k)`.
- `warranty.dfy`: the status calculator, with its colour and text.
- `storage.dfy`: the persisted item list (a class over the stored slot).
- `notifications.dfy`: the notification centre, as a map from notification id to reminder, plus the stored enabled switch (a class).
- `base64.dfy`, `auth.dfy`: the e-mail and password validators, the password hash, and signup and login against a user store (a class).
- `auth_hook.dfy`: the `useAuth` state machine (a class).
- `warranty_items.dfy`: the `useWarrantyItems` hook: status enrichment, loading and deletion.
- `backup.dfy`: CSV quoting and rows, the HTML export's status and day cells, creating a backup, and the shape check on restore.
- `receipts.dfy`: the e-mail receipt picker: the selection toggle and the suggested items.
- `dashboard.dfy`: the dashboard's counting loop and chart data.
- `home.dfy`: the home screen's three status groups and its sections.
- `text.dfy`, `types.dfy`, `wrappers.dfy`: shared helpers: decimal text, the records, and `Option`/`Outcome`.

## How the outside world is handled

The clock, generated ids, what storage and the operating system return,
and whether a call throws are all parameters:

- `now`: the current time.
- `newId`: a generated id.
- `readOk`, `writeOk`, `osOk`: whether a storage read, a storage write or an operating-system call succeeded.
- `osId`: the id the notification centre hands out, if any.
- `CallOutcome`, `Fetch`, `Picked`: what an awaited call produced.

Timestamps are integer milliseconds. A `Date` is its civil decomposition:
year, 0-based month, day, and milliseconds into the day.
`Calendar.TimeOfInjective` proves that a timestamp has only one such
decomposition.

`calculateItemWarrantyStatus` is imported by `app/dashboard.tsx` and
`hooks/useWarrantyItems.ts`, but `utils/warrantyUtils.ts` does not define
it. It is therefore the parameter `warrantyOf`. When `warrantyOf` is the
status calculator (`WarrantyItems.CalculatorWarranty`), the enrichment
agrees with `calculateWarrantyStatus` (`WarrantyItems.ItemWithStatusIsCalculated`).

Reminders: the code schedules a single reminder, 30 days ahead of expiry,
and lets the operating system pick its id.

E-mail case: `signup` looks the new e-mail up as typed but saves it lower-cased, and `login` looks it up as typed. The user store is therefore a map keyed by the exact e-mail string.

## Model

| member | source | states |
|---|---|---|
| Calendar.AddMonths | utils/warrantyUtils.ts:6-7 | `setMonth(getMonth() + n)`: the result's timestamp is ECMAScript MakeDay(year, month + n, day), keeping the time of day |
| Calendar.AddMonthsKeepsDay | utils/warrantyUtils.ts:6-7 | when the day exists in the target month, the year is carried and the month is (month + n) mod 12 |
| Calendar.AddMonthsRollsOver | utils/warrantyUtils.ts:6-7 | when the target month is too short, the surplus days spill into the following month |
| Calendar.AddMonthsJanuary31 | utils/warrantyUtils.ts:6-7 | 31 January 2023 plus one month is 3 March 2023 |
| Calendar.AddMonthsZero | utils/warrantyUtils.ts:6-7 | adding no months gives back the date |
| Calendar.TimeOfInjective | utils/warrantyUtils.ts:5-7 | two valid civil dates with the same timestamp are equal |
| Calendar.DayFromNextYear | utils/warrantyUtils.ts:6-7 | the closed-form DayFromYear advances by 366 days exactly in leap years and by 365 otherwise |
| Calendar.SubtractDaysTime | utils/notifications.ts:70-71 | `setDate(getDate() - k)` lands exactly k × 86 400 000 ms earlier, across month and year boundaries |
| Warranty.CeilDays | utils/warrantyUtils.ts:10-11 | `Math.ceil(ms / 86400000)`: the least whole day count covering the span |
| Warranty.Classify | utils/warrantyUtils.ts:15-22 | expired iff days ≤ 0; expiring iff 0 < days ≤ 30; active iff days > 30 |
| Warranty.CalculateWarrantyStatus | utils/warrantyUtils.ts:4-30 | the expiration is purchase date + warranty months; the day count is the rounded-up gap to `now`; each status holds iff its threshold does; `isActive` iff not expired |
| Warranty.DaysRemainingMonotone | utils/warrantyUtils.ts:9-22 | as `now` grows, the days remaining never increase and the status only moves from active to expiring to expired |
| Warranty.DaysRemainingNextDay | utils/warrantyUtils.ts:9-11 | one day later, exactly one day fewer remains |
| Warranty.ScenarioExpiring | utils/warrantyUtils.ts:4-30 | bought 2024-01-01 with 12 months: on 2024-12-15 it expires 2025-01-01 with 17 days left, expiring |
| Warranty.ScenarioExpired | utils/warrantyUtils.ts:4-30 | the same item on 2025-02-01 has −31 days and is expired and inactive |
| Warranty.StatusColorInjective | utils/warrantyUtils.ts:40-51 | the three statuses get three different colours |
| Warranty.StatusColor | utils/warrantyUtils.ts:40-51 | a seven-character `#` hex colour per status; the three differ (`StatusColorInjective`) |
| Warranty.StatusTextInjective | utils/warrantyUtils.ts:53-61 | the text names both the status and the day count: equal texts of consistent records mean equal status and days |
| Warranty.StatusText | utils/warrantyUtils.ts:53-61 | expired: "Expired " + the magnitude of the day count + " days ago"; expiring: "Expires in " + the signed count + " days"; active: the signed count + " days remaining"; a consistent record's text never holds a minus sign, starts with a digit iff active, and "Expired …" and "Expires in …" differ at their seventh character |
| Storage.IndexOfId | utils/storage.ts:42 | `findIndex` by id: the first position with that id, or none when no item has it |
| Storage.RemoveId | utils/storage.ts:57 | the filter keeps exactly the items with a different id |
| Storage.RemoveIdAppend | utils/storage.ts:57 | removal works piece by piece, so survivors keep their order |
| Storage.DeleteTwiceOrAbsent | utils/storage.ts:54-64 | deleting twice is deleting once; deleting an absent id changes nothing |
| Storage.SaveKeepsDuplicateIds | utils/storage.ts:7-17 | saving never checks ids: two saves with one id leave two entries |
| Storage.ItemStore.GetItems | utils/storage.ts:19-37 | the stored list, or the empty list when nothing is stored, it does not parse, or the read fails |
| Storage.ItemStore.Read | utils/storage.ts:19-37 | what `getItems` hands back: the stored list when the read succeeds, the empty list when it throws |
| Storage.ItemStore.SaveItem | utils/storage.ts:7-17 | the new list is the list read plus the new item at the end |
| Storage.ItemStore.UpdateItem | utils/storage.ts:39-52 | only the first item with that id is replaced; with no match nothing is written |
| Storage.ItemStore.DeleteItem | utils/storage.ts:54-64 | the stored list becomes the list read with every item of that id removed |
| Notifications.TriggerTime | utils/notifications.ts:69-71 | the reminder fires exactly 30 days before expiration |
| Notifications.DueTrigger | utils/notifications.ts:63-77 | a trigger is produced iff notifications are enabled and the trigger is strictly after `now` |
| Notifications.TriggerScenario | utils/notifications.ts:69-71 | expiry 2025-01-01 gives a reminder on 2024-12-02 |
| Notifications.CancelKey | utils/notifications.ts:11 | cancelling one id removes that id only |
| Notifications.NotificationCentre.GetNotificationsEnabled | utils/notifications.ts:132-140 | a missing value or a failed read means enabled; otherwise the stored value |
| Notifications.NotificationCentre.ScheduleWarrantyNotification | utils/notifications.ts:57-99 | an id comes back iff enabled, due and the centre call succeeds; then the new reminder (trigger, item id, product name) is filed under that fresh id and every other entry is kept; otherwise nothing changes |
| Notifications.NotificationCentre.CancelNotification | utils/notifications.ts:101-108 | removes that id when the call succeeds; an error is swallowed and changes nothing |
| Notifications.NotificationCentre.CancelAllNotifications | utils/notifications.ts:110-117 | empties the centre when the call succeeds; an error is swallowed |
| Notifications.NotificationCentre.SetNotificationsEnabled | utils/notifications.ts:119-130 | the switch is stored; switching off clears every reminder; a failed write changes nothing |
| Notifications.NotificationCentre.CancelWarrantyNotification | utils/notifications.ts:8-17 | as written: cancels the notification whose id is the item id, and rethrows a failure |
| Notifications.CancelKeyKeepsItemReminder | utils/notifications.ts:8-17 | as written, as the edit screen (app/edit-item/[id].tsx, line 117) calls it: a reminder filed under another id survives the cancel by item id |
| Notifications.EditLeavesDuplicateReminder | utils/notifications.ts:8-94 | as written: the edit screen's cancel by item id, then a schedule whose id the system picks, leaves an already scheduled item with two reminders |
| Notifications.CancelForItem | utils/notifications.ts:8-17 | corrected: cancels every reminder that carries the item id and keeps the rest unchanged |
| Notifications.RescheduleKeepsOnePerItem | utils/notifications.ts:8-99 | corrected: cancel-then-schedule leaves exactly one reminder for the item and at most one per item overall |
| Notifications.NotificationCentre.CancelItemNotifications | utils/notifications.ts:8-17 | corrected cancellation as a state change on the centre |
| Notifications.NotificationCentre.RescheduleWarrantyNotification | utils/notifications.ts:8-99 | corrected edit flow: preserves at most one reminder per item; after a successful cancel the centre is the old one without the item's reminders, plus the new reminder under the returned id when one is scheduled, other items' reminders untouched; a failed cancel changes nothing |
| Base64.Encode | utils/auth.ts:17 | `btoa`: 4 characters for every 3 bytes or part thereof |
| Base64.DecodeEncode | utils/auth.ts:17 | decoding the encoding gives back the bytes |
| Base64.EncodeInjective | utils/auth.ts:17 | different byte strings have different encodings |
| Base64.EncodeTestVectors | utils/auth.ts:17 | the encodings of "", "f", "fo", …, "foobar" from section 10 of RFC 4648 |
| Auth.ValidateEmailMatchesPattern | utils/auth.ts:24-27 | the validator accepts exactly the strings matching `^[^\s@]+@[^\s@]+\.[^\s@]+$` |
| Auth.ValidateEmail | utils/auth.ts:24-27 | accepted iff some `@` splits the string into a non-empty local part and a domain with an inner dot, neither holding white space or another `@` |
| Auth.ValidEmailMatches | utils/auth.ts:24-27 | everything accepted matches the regular expression |
| Auth.MatchesIsValidEmail | utils/auth.ts:24-27 | everything the regular expression matches is accepted |
| Auth.Utf16Length | utils/auth.ts:30 | `length` counts UTF-16 units: between one and two per code point |
| Auth.ValidatePassword | utils/auth.ts:29-34 | valid iff at least 6 UTF-16 units; the message is present iff invalid |
| Auth.HashPassword | utils/auth.ts:15-18 | a hash exists iff every code point is at most 0xFF; otherwise `btoa` throws |
| Auth.VerifyPassword | utils/auth.ts:20-22 | the check throws exactly where hashing the candidate throws |
| Auth.VerifyOwnHash | utils/auth.ts:20-22 | a password verifies against its own hash |
| Auth.HashInjective | utils/auth.ts:15-18 | equal hashes come from equal passwords |
| Auth.VerifyOtherPassword | utils/auth.ts:20-22 | no other password verifies against a hash |
| Auth.Lower | utils/auth.ts:65 | `toLowerCase` on ASCII letters, length-preserving |
| Auth.SignupCheck | utils/auth.ts:40-60 | the first failing check, in order: e-mail, password length, confirmation, existing account; none iff all pass |
| Auth.LoginCheck | utils/auth.ts:95-109 | in order: invalid e-mail, unknown account, missing hash or wrong password, a throw from hashing, acceptance |
| Auth.UserStore.Signup | utils/auth.ts:36-89 | a failed check changes nothing; a throw from the look-up changes nothing; otherwise the user is saved under the lower-cased e-mail, saved again with its hash, made current and its items migrated; a throw at any of these steps (the hash included) returns the generic error and leaves exactly the writes made before it; success iff nothing throws |
| Auth.UserStore.Login | utils/auth.ts:91-131 | an invalid e-mail or a refusal changes nothing, as does a throw from the look-up; on acceptance only `lastLoginAt` changes, the hash is kept, the record is saved and becomes current and the items are migrated; a throw at a step returns the generic error and leaves the writes made before it; login never stores a hash, so `SaveHash` names no step of it and acts as no fault |
| Auth.UserStore.IsAuthenticated | utils/auth.ts:143-151 | true iff a current user is stored and the read succeeds |
| Auth.UserStore.Logout | utils/auth.ts:133-141 | clears the current user, or fails and changes nothing |
| Auth.SignupThenLogin | utils/auth.ts:36-131 | after a successful signup with a lower-case e-mail, logging in with the same password is accepted |
| AuthHook.AuthState.constructor | hooks/useAuth.ts:19-23 | starts with no user, not authenticated, loading |
| AuthHook.AuthState.Reload | hooks/useAuth.ts:26-42 | load and refresh: the fetched user or, after an error, none; authentication matches the user; loading ends |
| AuthHook.AuthState.BeginRequest | hooks/useAuth.ts:48 | loading starts and the user is untouched |
| AuthHook.AuthState.Login | hooks/useAuth.ts:47-66 | a success with a user installs it; anything else keeps the user; loading ends on every path; a throw returns the hook's error |
| AuthHook.AuthState.Signup | hooks/useAuth.ts:68-87 | the same for signup, with its own error message |
| AuthHook.AuthState.Logout | hooks/useAuth.ts:89-100 | signed out on success; untouched when the logout throws |
| AuthHook.InstalledUser | hooks/useAuth.ts:51-56 | a user is installed iff the call returned success with a user |
| AuthHook.HandlerResult | hooks/useAuth.ts:60-64 | the call's own result, or a failure with the hook's message after a throw |
| AuthHook.StoreLoginInstalls | hooks/useAuth.ts:51 | a successful store login always carries a user, so the hook installs it |
| WarrantyItems.ItemWithStatusOf | hooks/useWarrantyItems.ts:36-51 | the item is copied unchanged; `isActive` iff not expired; the status and days come from the status function; the expiration uses month addition |
| WarrantyItems.ItemWithStatusIsCalculated | hooks/useWarrantyItems.ts:36-51 | with the calculator plugged in, the enriched status equals `calculateWarrantyStatus` and is consistent |
| WarrantyItems.ItemsWithStatusKeepsItems | hooks/useWarrantyItems.ts:53-55 | the enriched list has the items' length and order |
| WarrantyItems.ItemsWithStatus | hooks/useWarrantyItems.ts:53-55 | one enriched entry per item, in item order, each the enrichment of that item |
| WarrantyItems.WarrantyItemsState.LoadItems | hooks/useWarrantyItems.ts:11-22 | the items are what the store returns; loading is false afterwards on every path |
| WarrantyItems.WarrantyItemsState.DeleteItem | hooks/useWarrantyItems.ts:24-34 | after deleting and reloading, the items are the stored list without that id |
| Dashboard.CalculateAnalytics | app/dashboard.tsx:29-57 | each counter is the number of items with that status, and the three add up to the item count |
| Dashboard.CountStatus | app/dashboard.tsx:35-48 | the number of items with a status, at most the item count; the loop's counters equal it (`CalculateAnalytics`) |
| Dashboard.CountsAddUp | app/dashboard.tsx:35-48 | every item has exactly one of the three statuses |
| Dashboard.PieData | app/dashboard.tsx:63-85 | a slice is present iff its count is positive, in the order active, expiring, expired |
| Dashboard.BarDataOf | app/dashboard.tsx:87-99 | the labels, counts and colours in the fixed order active, expiring, expired |
| Home.OfStatus | app/index.tsx:16-18 | a group is never longer than the list; its exact membership is `GroupMembers` and its order `OfStatusAppend` |
| Home.GroupMembers | app/index.tsx:16-18 | an item is in the group for `s` iff its status is `s`, so it lands in exactly one group |
| Home.OfStatusAppend | app/index.tsx:16-18 | filtering works piece by piece, so each group keeps the items' relative order |
| Home.GroupsPartition | app/index.tsx:16-18 | the three groups together hold each item as often as the list does |
| Home.GroupSizesAddUp | app/index.tsx:16-18 | the group sizes sum to the item count |
| Home.GroupSizesAreCounts | app/index.tsx:16-18 | a group's size equals the dashboard's counter for that status |
| Home.Sections | app/index.tsx:80-117 | the sections run expiring, active, expired; each is present iff its group is non-empty and holds that group |
| Home.HomeScreen | app/index.tsx:38-73 | corrected screen over the enriched items: the empty state iff there are no items; otherwise the item count, the three group sizes and the sections |
| Home.OfStatusAsWritten | app/index.tsx:16-18 | as written, over plain items: the filter throws iff the list is not empty |
| Home.HomeScreenAsWritten | app/index.tsx:14-18 | as written: rendering throws iff any item is tracked, and shows the empty state otherwise |
| Home.AsWrittenThrowsOnAnyItem | app/index.tsx:14-18 | for any single item the screen as written throws, while the corrected screen lists exactly that item |
| Home.SectionsShowEveryItemOnce | app/index.tsx:80-117 | the sections show every item exactly once |
| Backup.QuoteField | utils/backup.ts:37 | a quoted cell starts and ends with `"` and is as long as the text plus its quotes plus 2 |
| Backup.QuoteRoundTrip | utils/backup.ts:37 | un-doubling the quoted cell gives back the text |
| Backup.QuoteFieldInjective | utils/backup.ts:40 | different texts give different quoted cells |
| Backup.RowDays | utils/backup.ts:26-30 | the row's day count is the rounded-up gap from `now` to purchase date + warranty months |
| Backup.ExportStatus | utils/backup.ts:32-34 | the status cell is the calculator's classification of the day count, under its exported name |
| Backup.ExportAgreesWithCalculator | utils/backup.ts:24-34 | an export row has the calculator's day count and status for the same item |
| Backup.PdfStatusOf | utils/backup.ts:96-104 | the HTML status matches the CSV status, and each colour appears exactly for its threshold band |
| Backup.PdfDaysCellShape | utils/backup.ts:113 | "N days" when N > 0, "\|N\| days ago" otherwise |
| Backup.PdfDaysCell | utils/backup.ts:113 | the cell is non-empty and its last character tells the sides apart: "s" ahead of expiry, "o" ("ago") otherwise |
| Backup.PdfDaysCellInjective | utils/backup.ts:113 | different day counts give different cells |
| Backup.CsvCellsReadBack | utils/backup.ts:13-45 | each of the 8 cells holds the value its header names, and the texts read back from their quoted cells |
| Backup.CsvCells | utils/backup.ts:36-45 | one cell per header |
| Backup.CsvContent | utils/backup.ts:48 | the header line, then, when there are items, a newline and every item's line in item order joined by newlines |
| Backup.CsvItemLines | utils/backup.ts:24-46 | one line per item, in item order, each the item's cells joined by commas |
| Backup.CsvContentAppend | utils/backup.ts:24-48 | exporting one more item appends a newline and that item's line to the text |
| Backup.CreateBackup | utils/backup.ts:183-204 | the backup carries the items, the date and version "1.0.0"; a failed write throws |
| Backup.BackupJson | utils/backup.ts:194 | the written object has exactly the keys `items`, `exportDate`, `version`: `items` holds each item's JSON in order, `exportDate` the date's, `version` the version string |
| Backup.BackupItemsReadBack | utils/backup.ts:194 | when items are read the way they are written, the `items` array of a backup reads back as its items |
| Backup.RestoreFromBackup | utils/backup.ts:206-234 | cancel gives null; a file is accepted iff it has an `items` array, and is then returned unchanged |
| Backup.CreatedBackupRestores | utils/backup.ts:183-226 | a backup written by the app passes the restore check |
| Receipts.Toggle | components/EmailReceiptParser.tsx:69-75 | toggling flips the id's membership and no other id's |
| Receipts.ToggleNoDuplicates | components/EmailReceiptParser.tsx:69-75 | the selection stays duplicate-free |
| Receipts.ToggleTwiceAbsent | components/EmailReceiptParser.tsx:69-75 | selecting then deselecting an unselected id restores the selection exactly |
| Receipts.Suggest | components/EmailReceiptParser.tsx:80-89 | id and price copied; an empty or missing name becomes "Unknown Product" or "Unknown Store"; a missing or zero length becomes 12; the date falls back to the receipt's; source "email" |
| Receipts.Suggestions | components/EmailReceiptParser.tsx:78-89 | every suggestion belongs to a selected receipt |
| Receipts.SuggestionsFollowReceipts | components/EmailReceiptParser.tsx:78-81 | the suggestions' ids are the selected receipts' ids, in receipt order |
| Receipts.SuggestionsAllOrNone | components/EmailReceiptParser.tsx:78-79 | selecting all receipts suggests all; selecting none suggests none |
| Receipts.ReceiptPicker.ToggleItem | components/EmailReceiptParser.tsx:69-75 | the toggle applied to the picker's selection, which stays duplicate-free |
| Receipts.ReceiptPicker.AddSelectedItems | components/EmailReceiptParser.tsx:77-94 | hands over the suggestions for the selection, in receipt order, and clears the selection |
| Receipts.ReceiptPicker.ShowReceipts | components/EmailReceiptParser.tsx:57 | shows the receipts the scan found |
| Text.DecimalRoundTrip | utils/warrantyUtils.ts:55-59 | the decimal text of a number reads back to the number |
| Text.IntToStringInjective | utils/warrantyUtils.ts:55-59 | different integers have different texts |
| Text.JoinAppend | utils/backup.ts:48 | joining one more part appends the separator and that part |

## Left out

- User interface: rendering, navigation, alerts, forms, the camera and barcode scanner, and the screens that only lay out data.
- Notification permissions, the Android channel and the notification handler (utils/notifications.ts:19-55). These are foreign library calls.
- The reminder's title and body text, and the `sound` flag (utils/notifications.ts:82-87). The model keeps the trigger and the data fields.
- Floating-point values: prices, `totalValue` on the dashboard, `toFixed`, and `confidence: 0.8`.
- Time zones and daylight saving. Local time is taken as UTC.
- The year range of JavaScript dates.
- `toLocaleDateString`, `toISOString().split('T')` and date formatting. In the CSV these cells are given as parameters (`dateCell`, `priceCell`).
- `JSON.parse`, `JSON.stringify` and file I/O. The parsed value and the outcome of the read or write are parameters.
- The HTML page around the export's cells: the static markup and the summary line.
- `shareExportFile`, `exportToCSV`'s file name, and the cloud backup stubs (utils/backup.ts:237-271). The cloud stubs always throw.
- `migrateLocalItemsToUser`, `getUserByEmail`, `saveUser`, `setCurrentUser` and `getCurrentUser` are not part of this model. The user store stands for them as a map and a current-user slot, and whether each call throws is the `fault` parameter; what the migration does to the items is not modelled.
- The demo connect flow and mock receipts in the receipt picker. `ShowReceipts` stands for loading the found receipts.
- The grey default of `getStatusColor`. It cannot be reached with the three statuses.
- A `warrantyLength` that is not a whole number, or is NaN.
- AsyncStorage write failures in the item store. The read failure that `getItems` turns into an empty list is modelled.
- Auth.Lower: lower-cases ASCII letters only. JavaScript's `toLowerCase` also maps non-ASCII letters, which needs Unicode case tables the model does not include.
- The dashboard's `switch` ignores any status string outside the three. The model's `Status` type has only the three.

## Findings

| source | as written | input that shows it | evidently intended | confidence | as-written member | corrected member |
|---|---|---|---|---|---|---|
| utils/notifications.ts:8-17 | the edit screen (app/edit-item/[id].tsx, lines 116-127), on a change of purchase date or warranty length, calls `cancelWarrantyNotification(item.id)`. That cancels the notification whose id is the item id. But `scheduleWarrantyNotification` passes no identifier, so its reminder is filed under an id the operating system generates. The old reminder therefore survives, and the item then has two. | a centre holding reminder `n1` for item `item1`; edit the item, and the new reminder gets id `n2`. Both `n1` and `n2` are live for `item1`. | cancel the item's reminders by the item id in their data, then schedule once, so that each item keeps at most one reminder | medium, not executed | Notifications.EditLeavesDuplicateReminder | Notifications.RescheduleKeepsOnePerItem |
| app/index.tsx:16-18 | the home screen takes `items` from `useWarrantyItems`. Those are plain `Item` records (hooks/useWarrantyItems.ts:8), which have no `status` field. Each filter reads `item.status.status`, a property of `undefined`, so it throws a `TypeError` at the first item. | any list with one item: the screen as written throws, while the enriched screen lists the item | filter the hook's `itemsWithStatus`, the enriched items, so each item lands in the section for its status | high, not executed | Home.AsWrittenThrowsOnAnyItem | Home.SectionsShowEveryItemOnce |
