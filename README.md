# Delivery reminders and purchase history, modelled in Dafny

This project models the core of the `purchase_enhancements` Frappe app:

- The delivery-reminder lifecycle kept by `ReminderManager`:
  - receipt processing, which closes, updates or creates one "Delivery Reminder" per purchase-order line;
  - priority tiers;
  - the escalation sweep;
  - closing on purchase-order cancellation;
  - retention cleanup;
  - the daily digest's recipient list;
  - consolidated notifications per order owner;
  - the settings gates of the entrypoints;
  - the invalidation of the purchase-history cache.
- The read-through cache of `get_item_project_history`.

## Layout

- `text.dfy` (module `Text`): the Python string operations the code relies on. These are `str.split`, `str.strip` (Python's whitespace set) and the decimal rendering of an integer in an f-string. `Join` is not used by the code; it is the inverse that the split round-trip lemmas are stated with.
- `settings.dfy` (module `EnhancementSettings`): the "Purchase Enhancement Settings" document.
  - `settings.get(key, default)` on the dictionary form uses the default only when the key is absent, so an `Option` field holds `None` for an absent key.
  - Attribute access with `or` also replaces a present 0 by the default.
- `purchase_history.dfy` (module `PurchaseHistory`): the endpoint.
  - The framework cache is a class `Cache` over a `map`.
  - `Lookup` is the call as a function of the cache entries.
  - `GetItemProjectHistory` is the endpoint as a method. It enriches the fetched rows in place in a loop, as the source does.
- `reminder_model.dfy` (module `ReminderModel`): the reminder record, the table as `map<nat, Reminder>`, and each operation as a function on the table, with lemmas.
  - Names are issued from a counter.
  - Dates are integer day numbers and `today` is a parameter.
  - Quantities are `real`.
- `notifications.dfy` (module `Notifications`): recipient parsing, the digest, and the grouping of new reminders by the owner of their purchase order, with the grouping loops as methods.
- `reminder_manager.dfy` (module `ReminderService`): class `ReminderManager` with fields `settings`, `reminders` and `nextName`.
  - Each loop of the source is a method whose `ensures` ties the new table to the specification function in `ReminderModel`.
  - The module also holds the cache-invalidation key and its agreement with the endpoint's key.

## Model

| member | source | states |
|---|---|---|
| Text.IntToString | purchase_enhancements/api.py:20 | the decimal form of an int is non-empty, starts with `-` exactly for negatives, and holds only `-` and digits |
| Text.IntToStringInjective | purchase_enhancements/api.py:20 | distinct integers render differently |
| Text.Strip | purchase_enhancements/reminder_service.py:131 | the result has no whitespace at either end, is empty exactly when the input is all whitespace, and holds only input characters |
| Text.StripIsTrimmedSlice | purchase_enhancements/reminder_service.py:131 | the result is the input with a whitespace-only prefix and a whitespace-only suffix cut off |
| Text.Split | purchase_enhancements/reminder_service.py:131 | splitting yields at least one part and no part contains the separator |
| Text.JoinSplit | purchase_enhancements/reminder_service.py:131 | joining the parts of a split with the separator gives back the string |
| Text.SplitJoin | purchase_enhancements/reminder_service.py:131 | splitting the join of separator-free parts gives back the parts |
| EnhancementSettings.HistoryFallbackLimit | purchase_enhancements/api.py:18 | `max_history_items or 5` is never 0 |
| PurchaseHistory.Cache.GetValue | purchase_enhancements/api.py:21 | the cache answers with the stored value exactly when the key is present |
| PurchaseHistory.Cache.SetValue | purchase_enhancements/api.py:43 | storing changes only that key |
| PurchaseHistory.Cache.DeleteValue | purchase_enhancements/reminder_service.py:233 | deleting removes only that key |
| PurchaseHistory.HistoryCacheKey | purchase_enhancements/api.py:20 | the key starts with `item_history_` and ends with `_` followed by the decimal limit |
| PurchaseHistory.KeyCollision | purchase_enhancements/api.py:20 | item "A_B" with project "C" and item "A" with project "B_C" share one cache key |
| PurchaseHistory.KeyDeterminesLimit | purchase_enhancements/api.py:20 | for fixed item, project and company, two keys are equal exactly when their limits are |
| PurchaseHistory.KeyFixesLimit | purchase_enhancements/api.py:20 | whatever the other parts, equal keys were built with equal limits |
| PurchaseHistory.EffectiveLimit | purchase_enhancements/api.py:18 | the limit is the caller's if nonzero, else `max_history_items` if nonzero, else 5; it is never 0 |
| PurchaseHistory.Query | purchase_enhancements/api.py:26-37 | the query returns a prefix of the matching rows (newest first), and has `limit` rows unless fewer match |
| PurchaseHistory.Enrich | purchase_enhancements/api.py:40-41 | a row gains `pending_qty = qty - received_qty` and status Completed exactly when that is <= 0; no other field changes |
| PurchaseHistory.Lookup | purchase_enhancements/api.py:10-44 | a call changes at most its own key, and whatever it stores is what it returns |
| PurchaseHistory.LookupGuarded | purchase_enhancements/api.py:10-15 | an empty item, project or company, or the feature switched off, returns `[]` and leaves the cache alone |
| PurchaseHistory.LookupHit | purchase_enhancements/api.py:21-24 | a non-empty cached value is returned unchanged and the cache is left alone |
| PurchaseHistory.LookupMiss | purchase_enhancements/api.py:23-44 | on a miss (key absent or an empty list cached) the first `limit` matching rows are returned and stored under the key, each with `pending_qty = qty - received_qty`, status Completed when that is <= 0 and Pending otherwise, and no other field changed |
| PurchaseHistory.LookupRepeat | purchase_enhancements/api.py:20-44 | repeating a call right away gives the same response and cache |
| PurchaseHistory.GetItemProjectHistory | purchase_enhancements/api.py:5-44 | the endpoint's response and the cache afterwards are those of `Lookup` |
| ReminderModel.CalculatePriority | purchase_enhancements/reminder_service.py:217-223 | the first tier whose threshold the percentage pending reaches, for any thresholds: Critical exactly when it reaches the critical one, High exactly when below critical and reaching high, Medium exactly when below both and reaching medium, Low otherwise |
| ReminderModel.PriorityCountsThresholds | purchase_enhancements/reminder_service.py:217-223 | with ordered thresholds the tier is the number of thresholds reached |
| ReminderModel.PriorityZeroOrderedDividesByOne | purchase_enhancements/reminder_service.py:218 | a missing or zero ordered quantity divides by 1 |
| ReminderModel.PercentMonotone | purchase_enhancements/reminder_service.py:219 | for a non-negative ordered quantity the percentage grows with the pending quantity |
| ReminderModel.PriorityMonotone | purchase_enhancements/reminder_service.py:217-223 | for a non-negative ordered quantity the priority never drops when the pending quantity grows, whatever the thresholds |
| ReminderModel.FindExistingReminder | purchase_enhancements/reminder_service.py:214-215 | none exactly when the line has no Open reminder; otherwise an Open reminder of that line (the least name) |
| ReminderModel.NewReminder | purchase_enhancements/reminder_service.py:69-85 | a created reminder is Open, level First, auto-created, for the receipt line's order, order line, supplier and item, with the given pending quantity and its priority, triggered by the receipt, expected on the schedule date or else today + 7, follow-up today + days (so not yet overdue when the interval is non-negative) |
| ReminderModel.WithPending | purchase_enhancements/reminder_service.py:90 | only the pending quantity (and `modified`) changes |
| ReminderModel.WithClosed | purchase_enhancements/reminder_service.py:95 | only the status, now Closed (and `modified`), changes |
| ReminderModel.ProcessLine | purchase_enhancements/reminder_service.py:45-63 | unlinked lines are skipped; pending <= 0 closes the Open reminder or changes nothing; pending > 0 updates only its pending qty or creates exactly one new reminder |
| ReminderModel.ProcessLines | purchase_enhancements/reminder_service.py:43-64 | the name counter advances by the number of queued reminders, which carry the consecutive new names in order |
| ReminderModel.ProcessLineKeepsNamesIssued | purchase_enhancements/reminder_service.py:69-87 | a line keeps every stored name below the next one to issue |
| ReminderModel.ProcessLineKeepsAtMostOneOpen | purchase_enhancements/reminder_service.py:52-63 | since only Open reminders are looked up, a line never gives a purchase-order line a second Open reminder |
| ReminderModel.ProcessLineKeepsClosed | purchase_enhancements/reminder_service.py:52-63 | a Closed reminder is neither reopened nor written |
| ReminderModel.ProcessLineOtherLine | purchase_enhancements/reminder_service.py:45-63 | a line leaves the Open reminders of other purchase-order lines as they were |
| ReminderModel.ProcessLineReflectsPending | purchase_enhancements/reminder_service.py:48-63 | after a line, its purchase-order line has an Open reminder exactly when something is pending, carrying that quantity |
| ReminderModel.ProcessLinesInvariants | purchase_enhancements/reminder_service.py:43-64 | a whole receipt keeps names issued, keeps at most one Open reminder per line, loses no record and never touches a Closed one |
| ReminderModel.ProcessLinesAddsQueuedNames | purchase_enhancements/reminder_service.py:58-63 | the table afterwards holds the old names plus exactly the queued ones |
| ReminderModel.ProcessLinesQueuesNewReminders | purchase_enhancements/reminder_service.py:61-85 | every queued reminder is new, Open, level First, auto-created, positive pending, triggered by the receipt, follow-up today + days |
| ReminderModel.ProcessLinesReflectsPending | purchase_enhancements/reminder_service.py:45-63 | after a receipt, each linked line has an Open reminder exactly when its last mention has something pending, carrying that quantity |
| ReminderModel.NextLevel | purchase_enhancements/reminder_service.py:114-116 | First becomes Second and every other level becomes Final, so the level rises unless it is already Final |
| ReminderModel.Escalated | purchase_enhancements/reminder_service.py:114-120 | an escalated reminder gets the next level, Critical, follow-up today + days and `modified` today; status and all other fields are kept |
| ReminderModel.EscalatedTable | purchase_enhancements/reminder_service.py:106-121 | exactly the Open, past-due reminders change, each to the next level, Critical, follow-up today + days, `modified` today; nothing else changes |
| ReminderModel.EscalationKeepsAtMostOneOpen | purchase_enhancements/reminder_service.py:112-121 | escalation keeps at most one Open reminder per line |
| ReminderModel.EscalationIdempotentSameDay | purchase_enhancements/reminder_service.py:106-121 | with a non-negative interval a second sweep the same day changes nothing |
| ReminderModel.EscalationReachesFinal | purchase_enhancements/reminder_service.py:114-118 | two escalations reach Final |
| ReminderModel.CleanedTable | purchase_enhancements/reminder_service.py:161-176 | archiving changes nothing; otherwise exactly the Closed reminders last written before the cutoff are deleted and the rest are kept unchanged |
| ReminderModel.CleanupKeepsOpenAndRecent | purchase_enhancements/reminder_service.py:164-167 | an Open or recently written reminder survives cleanup unchanged |
| ReminderModel.CleanupIdempotent | purchase_enhancements/reminder_service.py:157-176 | a second cleanup the same day changes nothing |
| ReminderModel.CleanupKeepsAtMostOneOpen | purchase_enhancements/reminder_service.py:157-176 | cleanup keeps at most one Open reminder per line |
| ReminderModel.ClosedForOrder | purchase_enhancements/reminder_service.py:225-228 | exactly the Open reminders of the order are closed, all others are unchanged, none of the order stays Open |
| ReminderModel.CancellationKeepsAtMostOneOpen | purchase_enhancements/reminder_service.py:225-228 | cancellation keeps at most one Open reminder per line |
| ReminderModel.CancellationIdempotent | purchase_enhancements/reminder_service.py:225-228 | cancelling an order twice is the same as once |
| Notifications.NonBlankStripped | purchase_enhancements/reminder_service.py:131 | every kept entry is non-empty and stripped |
| Notifications.NonBlankStrippedMembers | purchase_enhancements/reminder_service.py:131 | an entry is kept exactly when it is the non-empty stripped form of some part |
| Notifications.NonBlankStrippedAppend | purchase_enhancements/reminder_service.py:131 | the filter keeps the order of the parts: on a concatenation it is the concatenation of the results |
| Notifications.NonBlankStrippedSingle | purchase_enhancements/reminder_service.py:131 | one part gives its stripped form, or nothing when it is blank |
| Notifications.NonBlankStrippedEmpty | purchase_enhancements/reminder_service.py:131 | nothing is kept exactly when every part is blank |
| Notifications.ParseRecipients | purchase_enhancements/reminder_service.py:131 | each recipient is non-empty, stripped and has no comma, and the recipients are exactly the non-empty stripped comma-separated parts |
| Notifications.ParseRecipientsOfEntries | purchase_enhancements/reminder_service.py:131 | comma-free entries (padded or blank ones included) written comma-separated parse to those entries stripped, blank ones dropped, in order |
| Notifications.ParseRecipientsOfJoin | purchase_enhancements/reminder_service.py:131 | clean addresses written comma-separated parse back to themselves |
| Notifications.ParseRecipientsExample | purchase_enhancements/reminder_service.py:131 | the setting `a@x, b@y` gives the recipients `a@x` and `b@y` |
| Notifications.ParseRecipientsEmpty | purchase_enhancements/reminder_service.py:131-133 | there are no recipients exactly when the setting holds only commas and whitespace |
| Notifications.DailyDigest | purchase_enhancements/reminder_service.py:131-155 | a digest goes out exactly when there is a recipient and an Open reminder, to those recipients, with the Open and Open-Critical counts |
| Notifications.DigestCounts | purchase_enhancements/reminder_service.py:135-139 | a digest counts at least one Open reminder and no more Critical than Open ones |
| Notifications.Owners | purchase_enhancements/reminder_service.py:185-190 | the owners, each once, are exactly the owners of the queued reminders |
| Notifications.GroupOf | purchase_enhancements/reminder_service.py:185-190 | an owner's list holds exactly the queued reminders of that owner |
| Notifications.GroupOfHead | purchase_enhancements/reminder_service.py:186-190 | an owner's list starts with that owner's first queued reminder |
| Notifications.Consolidated | purchase_enhancements/reminder_service.py:192-204 | one notification per owner, each with the given subject and listing exactly that owner's new reminders |
| Notifications.ConsolidatedListsEachOnce | purchase_enhancements/reminder_service.py:185-204 | each queued reminder is listed in a notification for its owner and in no notification for anyone else |
| Notifications.ConsolidatedLinksFirst | purchase_enhancements/reminder_service.py:201 | each notification links to its owner's first queued reminder |
| Notifications.OwnersGroupsSnoc | purchase_enhancements/reminder_service.py:185-190 | one more queued reminder appends its owner to the owners if not yet there and appends itself to that owner's list only: owners in first-appearance order, each list in queue order |
| Notifications.GroupByOwner | purchase_enhancements/reminder_service.py:185-190 | the dictionary loop yields `Owners` and each owner's `GroupOf`, whose order `OwnersGroupsSnoc` fixes |
| Notifications.SendConsolidatedNotifications | purchase_enhancements/reminder_service.py:181-204 | the notifications sent are one per owner as `Consolidated` describes |
| ReminderService.InvalidationKey | purchase_enhancements/reminder_service.py:232 | the key written out at that line is the endpoint's key format with limit `max_history_items` (default 5), and unless that is 0 it is the key the endpoint caches a call with that limit under |
| ReminderService.InvalidationMatchesLookup | purchase_enhancements/reminder_service.py:232 | for the same item, project and company, the invalidation key is the endpoint's key exactly when the endpoint's limit equals `settings.get('max_history_items', 5)` |
| ReminderService.OtherLimitsSurvive | purchase_enhancements/reminder_service.py:231-233 | an entry cached under any other limit survives invalidation |
| ReminderService.ZeroMaxHistoryItemsNeverInvalidates | purchase_enhancements/reminder_service.py:232 | with `max_history_items` 0 no cached entry is ever invalidated |
| ReminderService.ZeroLimitInvalidated | purchase_enhancements/reminder_service.py:231-233 | a call passing limit 0 for an order line is invalidated when `max_history_items` is absent or nonzero |
| ReminderService.OmittedLimitInvalidated | purchase_enhancements/reminder_service.py:231-233 | a call that leaves `limit` at its default 5 (api.py line 5) is invalidated exactly when `max_history_items` is absent or 5 |
| ReminderService.ReminderManager.CreateReminder | purchase_enhancements/reminder_service.py:69-87 | inserts `NewReminder` under a fresh name and nothing else |
| ReminderService.ReminderManager.UpdateReminder | purchase_enhancements/reminder_service.py:89-90 | writes only that reminder's pending quantity |
| ReminderService.ReminderManager.CloseReminder | purchase_enhancements/reminder_service.py:94-95 | writes only that reminder's status Closed |
| ReminderService.ReminderManager.ProcessDocument | purchase_enhancements/reminder_service.py:43-66 | the table becomes `ProcessLines` of the receipt, one notification per owner of the new reminders, at most one Open per line kept, Closed reminders untouched |
| ReminderService.ReminderManager.EscalateOverdue | purchase_enhancements/reminder_service.py:101-121 | the table becomes `EscalatedTable` |
| ReminderService.ReminderManager.CleanupClosed | purchase_enhancements/reminder_service.py:157-176 | the table becomes `CleanedTable` |
| ReminderService.ReminderManager.CloseRemindersForPo | purchase_enhancements/reminder_service.py:225-228 | the table becomes `ClosedForOrder` |
| ReminderService.ReminderManager.ClearCacheForPo | purchase_enhancements/reminder_service.py:230-233 | exactly the invalidation keys of the order's lines are removed from the cache |
| ReminderService.ReminderManager.UpdateRemindersForReceipt | purchase_enhancements/reminder_service.py:14-17 | a no-op unless `enable_auto_reminders`, otherwise receipt processing |
| ReminderService.ReminderManager.EscalateOverdueReminders | purchase_enhancements/reminder_service.py:27-30 | a no-op unless `auto_escalate_enabled`, otherwise the escalation sweep |
| ReminderService.ReminderManager.SendDailyReminderDigest | purchase_enhancements/reminder_service.py:32-35 | no digest unless `send_daily_digest`, otherwise the daily digest |
| ReminderService.ReminderManager.CleanupClosedReminders | purchase_enhancements/reminder_service.py:37-40 | a no-op unless `auto_cleanup_enabled`, otherwise cleanup |

## Left out

- Framework storage, mail, notification inserts, comments and `log_error` are left out.
  - Reminders live in a `map` from name to record.
  - New names come from a counter. The framework's naming series is not modelled.
  - `frappe.sendmail`, the Notification Log insert, `add_comment` and `log_error` are represented only by the values they would carry (recipients, subject, counts, owner, linked reminder, listed reminders).
  - HTML bodies and links are not built.
- Database lookups are inputs.
  - The ordered quantity and the received total over submitted receipts (the SQL sum in `_get_total_received_qty`) are fields of `ReceiptLine`. The order's supplier and schedule date are fields too.
  - An ordered quantity of 0 stands for missing or zero. Both `or 0` and `or 1` treat those alike.
  - The order owner is a function parameter.
- Dates: `nowdate` and `add_days` become an integer `today` and integer addition. Calendar arithmetic is not modelled.
- Quantities are exact `real`s. `flt` rounding and floating-point division are not modelled.
- `ReminderModel.FindExistingReminder` picks the least name among the Open reminders of the line. The database returns an unspecified one. While at most one Open reminder per line exists (preserved by every operation), the two agree.
- Each write (`set_value`, `save`, `insert`) sets `modified` to `today`, the framework's default.
- Every operation is modelled as atomic and run one after another. Two receipts for the same purchase-order line processed concurrently could each miss the other's reminder in the lookup (reminder_service.py line 52) and each create an Open one (line 61); "at most one Open reminder per line" is proved for sequential runs only.
- Settings keys present with the value `None` are not modelled: an `Option` field cannot say "present but None". What such a key does in the source depends on the key:
  - `digest_recipients` makes `.split` raise, and a priority threshold makes its comparison raise.
  - `cleanup_after_days` makes `-cleanup_days` raise (reminder_service.py line 162).
  - `max_history_items` raises nothing. `_clear_cache_for_po` renders it into the key as `..._None`, while the endpoint caches under `None or 5`, so the cache is silently never invalidated.
- A failing call of the endpoint is modelled as `Fails`, and only for a negative limit. Its exception handler calls `traceback.format_exc()` although `api.py` never imports `traceback`, so the handler itself raises `NameError` after logging; the error dictionary it means to return is never returned. Other database failures are not modelled.
- The cache's time-to-live (`history_cache_duration`) is left out. Eviction by time is external to the code.
- The endpoint's `limit` parameter is an int after `cint`. Non-numeric strings becoming 0 is not modelled.
- A project of `None` rendering as "None" in a key is not modelled. Names are strings.
- Python's `str.strip` is modelled with Python's whitespace set for `str`, character by character. No Unicode normalisation is done.
- Permissions (`ignore_permissions`) and the commented-out archival field have no effect on the model.
- Static entrypoints build a fresh `ReminderManager` each time. Here they are methods of one manager whose `settings` is constant.
- `handle_po_cancellation` and `clear_item_history_cache` are plain calls of `CloseRemindersForPo` and `ClearCacheForPo`, so they have no separate members.
