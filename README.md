# Local notification bookkeeping of the SignalOne Android SDK, in Dafny

This project models the part of the SDK that keeps track of notifications
on the device. Its data is the `notification` table of `OneSignal.db`, one
row per notification received. Around that table sit:

- **the store** (`OneSignalDbHelper`, module `Store`): the schema; the
  forward-only migrations from version 1 to 3, each statement swallowing its
  own failure; the wipe-and-recreate on downgrade; the open loop with at most
  five attempts and a growing back-off; and the "recent, uninteracted" row
  predicate that the other components share;
- **the restorer** (`NotificationRestorer`, module `Restorer`): once per
  process, it sweeps stale rows and then replays the newest 49 matching rows
  not already in the shade, one restore request each with 200 ms pacing.
  It then refreshes the badge;
- **the limit enforcer** (`NotificationLimitManager`, module
  `LimitManager`): before `k` notifications are shown, it cancels the
  oldest, aiming to keep the shade within the platform ceiling of 49. The
  standard path reaches that aim only when the non-summary entries have
  distinct post times. It works from the shade listing (a `TreeMap` keyed
  by post time) or, as a fallback, from the store in insertion order;
- **the summary reconciler** (`NotificationSummaryManager`, module
  `SummaryManager`): after a child of a group is opened or dismissed, it
  cancels and marks the summary when no child is left, re-shows the lone
  child when one is left, and refreshes the summary when two or more are
  left;
- **the badge counter** (`BadgeCountUpdater`, module `BadgeCounter`): a
  meta-data setting resolved once, and the count handed to the launcher. The
  count is the non-summary shade entries, or the matching store rows capped
  at 49;
- **the push status** (`UserStatePush`, module `UserStatePush`): the
  `notification_types` value computed from three dependency values.

These modules support the rest:

- `Wrappers`: `Option`.
- `Seqs`: filter, reverse, take and map on sequences, with their lemmas.
- `Platform`: the inputs from the OS (`Env`) and the `Os` object that
  records what the engine asks of the platform: cancellations, enqueued
  restore work, summary refreshes, applied badge counts and sleeps.

The Java code keeps its state in statics: `restored`, `badgesEnabled` and
the database. These become fields of classes (`Restorer.Restorer`,
`BadgeCounter.Badges`, `Store.Db`) whose methods say in `modifies` what they
change. Each method's `ensures` ties the new state to a function of the old
state. The lemmas then prove the intended properties about those functions.

Take a group S with children A, B and C, dismissed in the order C, B, A.
When C goes, two children are left and S is refreshed. When B goes, one
child is left: the code re-shows A, issues no cancel for S and leaves its
row unconsumed. Only when A goes, with no child left, is S cancelled and
marked dismissed. The `SummaryManager.GroupLifecycle*` lemmas state each
step.

## Model

| member | source | states |
|---|---|---|
| Store.BackoffTotal | signalone/src/main/java/com/signalone/OneSignalDbHelper.java:98-109 | the back-off after n failures adds up to 200·n·(n+1) ms |
| Store.OpenWithRetries | signalone/src/main/java/com/signalone/OneSignalDbHelper.java:98-109 | opening succeeds iff fewer than 5 attempts fail; it makes failures+1 attempts, or 5 when all fail, with sleeps of 400, 800, … ms between them, never more than 4000 ms in total |
| Store.WorstCaseBackoff | signalone/src/main/java/com/signalone/OneSignalDbHelper.java:111-122 | five failures sleep 400, 800, 1200 and 1600 ms, 4000 ms in all, before the fifth is rethrown |
| Store.ExecPreservesWellFormed | signalone/src/main/java/com/signalone/OneSignalDbHelper.java:177-183 | one migration statement, failing or not, keeps the table well formed (rows in `_ID` order, absent columns NULL) |
| Store.ExecAllPreservesWellFormed | signalone/src/main/java/com/signalone/OneSignalDbHelper.java:143-149 | a whole migration plan keeps the table well formed |
| Store.ExecAllSchema | signalone/src/main/java/com/signalone/OneSignalDbHelper.java:133-141 | each failure is swallowed on its own: afterwards a column is present iff it was before or its own statement did not throw; an index is present iff it was before or its statement did not throw while its column was there (SQLite refuses an index on a missing column); no table is added or removed |
| Store.ExecAllKeepsRows | signalone/src/main/java/com/signalone/OneSignalDbHelper.java:152-158 | a plan without the backfill does not touch the rows |
| Store.BackfillAfterUpgrade | signalone/src/main/java/com/signalone/OneSignalDbHelper.java:162-175 | after an upgrade from a version below 3, every row has `expire_time = created_time + 259200`, unless that backfill or the column it needs failed |
| Store.UpgradeWithoutExpireColumn | signalone/src/main/java/com/signalone/OneSignalDbHelper.java:162-175 | from version 2, when adding `expire_time` fails, neither the column nor its index exists afterwards and the rows are unchanged |
| Store.UpgradeNeverCreatesCollapseIdIndex | signalone/src/main/java/com/signalone/OneSignalDbHelper.java:150-157 | although the step from version 1 is described as adding the collapse-id "field and index", no upgrade creates the collapse-id index (the step creates the group-id index); only `onCreate` has it |
| Store.UpgradeOrder | signalone/src/main/java/com/signalone/OneSignalDbHelper.java:143-149 | from version 1 both steps run, v1→v2 first; from 2 only v2→v3; from 3 nothing |
| Store.RecentUninteractedWhere | signalone/src/main/java/com/signalone/OneSignalDbHelper.java:217-233 | a row matches iff it was created after now − 604800 s, is neither dismissed, opened nor a summary, and, with the TTL preference on, expires after now |
| Store.Db.SafeExecSql | signalone/src/main/java/com/signalone/OneSignalDbHelper.java:177-183 | a statement either takes effect or, when SQLite throws (among others because the column an index or backfill needs is missing), leaves the database as it was |
| Store.Db.UpgradeFromV1ToV2 | signalone/src/main/java/com/signalone/OneSignalDbHelper.java:152-158 | adds `collapse_id` and then the group index, each independently |
| Store.Db.UpgradeFromV2ToV3 | signalone/src/main/java/com/signalone/OneSignalDbHelper.java:162-175 | adds `expire_time`, backfills it, then adds its index; each failure is swallowed on its own, and the backfill and the index take effect only when the column is there |
| Store.Db.OnUpgrade | signalone/src/main/java/com/signalone/OneSignalDbHelper.java:133-149 | the database afterwards is the upgrade plan for `oldVersion` run statement by statement; no failure escapes |
| Store.Db.OnCreate | signalone/src/main/java/com/signalone/OneSignalDbHelper.java:124-130 | creates the one table with every column, no rows, and exactly the six indexes |
| Store.Db.DropTable | signalone/src/main/java/com/signalone/OneSignalDbHelper.java:199 | `DROP TABLE IF EXISTS`: the table is gone, and with the notification table go its columns, indexes and rows |
| Store.Db.OnDowngrade | signalone/src/main/java/com/signalone/OneSignalDbHelper.java:186-206 | every table not named `sqlite_…` is dropped and the schema recreated: only SQLite's own tables and a fresh, empty notification table remain |
| LimitManager.IsGroupSummary | signalone/src/main/java/com/signalone/NotificationLimitManager.java:119-121 | an entry is a group summary iff it carries FLAG_GROUP_SUMMARY; the bit test `(flags & FLAG_GROUP_SUMMARY) != 0` is abstracted as the entry's `isSummary` field |
| LimitManager.DecimalString | signalone/src/main/java/com/signalone/NotificationLimitManager.java:95 | `Integer.toString` of a non-negative int is a non-empty string of digits |
| LimitManager.DecimalRoundTrip | signalone/src/main/java/com/signalone/NotificationLimitManager.java:95 | reading the decimal string of n back gives n |
| LimitManager.DecimalValueAppend | signalone/src/main/java/com/signalone/NotificationLimitManager.java:95 | concatenating digit strings multiplies the first value by a power of ten and adds the second |
| LimitManager.FallbackLimitValue | signalone/src/main/java/com/signalone/NotificationLimitManager.java:95 | the fallback LIMIT `"49" + k` is 49·10^d + k, where d is the digit count of k, so never below 490 + k (not 49 + k) |
| LimitManager.FallbackLimitOfOne | signalone/src/main/java/com/signalone/NotificationLimitManager.java:95 | for k = 1 the LIMIT is "491", that is 491 rows |
| LimitManager.PutFacts | signalone/src/main/java/com/signalone/NotificationLimitManager.java:69 | `TreeMap.put` keeps the map sorted by key, replaces the entry of an existing key, grows by one exactly when the key is new, and keeps every other entry |
| LimitManager.WhenMap | signalone/src/main/java/com/signalone/NotificationLimitManager.java:65-70 | the map built over the shade holds its keys in ascending `when` order, each once |
| LimitManager.WhenMapLastWins | signalone/src/main/java/com/signalone/NotificationLimitManager.java:66-70 | the map holds (when, id) iff the last non-summary shade entry posted at `when` has that id: a later equal `when` replaces an earlier one |
| LimitManager.WhenMapKeys | signalone/src/main/java/com/signalone/NotificationLimitManager.java:66-69 | the keys are exactly the `when`s of non-summary entries; summaries never enter the map |
| LimitManager.WhenMapSize | signalone/src/main/java/com/signalone/NotificationLimitManager.java:65-70 | with distinct `when`s the map has one entry per non-summary shade entry |
| LimitManager.CancelFirst | signalone/src/main/java/com/signalone/NotificationLimitManager.java:103-109 | the cancel loop of both paths: the ids of the first `notifsToClear` items, in order, stopping at the end of the items |
| LimitManager.ClearOldestOverLimitStandard | signalone/src/main/java/com/signalone/NotificationLimitManager.java:55-78 | cancels, in ascending `when` order, the first `|active| − 49 + k` map entries, none when that is below 1 |
| LimitManager.StandardCancelsAreLastPosted | signalone/src/main/java/com/signalone/NotificationLimitManager.java:66-77 | every id the standard path cancels is a non-summary entry, the last one posted at its instant |
| LimitManager.StandardCancelsOldestFirst | signalone/src/main/java/com/signalone/NotificationLimitManager.java:59-77 | at most max(0, overflow) entries are cancelled, in ascending `when`, and every map entry it keeps is newer than every one it cancels |
| LimitManager.StandardVisibleBound | signalone/src/main/java/com/signalone/NotificationLimitManager.java:59-77 | with distinct `when`s and 0 ≤ k ≤ 49, the non-summary entries left after the cancels plus the k new ones number at most 49, whatever share of the shade is group summaries |
| LimitManager.StandardCapacity | signalone/src/main/java/com/signalone/NotificationLimitManager.java:59-77 | with distinct `when`s and enough non-summary entries, exactly the overflow is cancelled, so the shade plus k new ones holds 49 |
| LimitManager.WhenMapOneInstant | signalone/src/main/java/com/signalone/NotificationLimitManager.java:69 | entries all posted at one instant collapse into one key, holding the id of the last |
| LimitManager.EqualWhenShortfall | signalone/src/main/java/com/signalone/NotificationLimitManager.java:65-77 | 50 entries posted at the same instant with k = 1: the overflow is 2 but only one id is cancelled, which leaves 50 |
| LimitManager.ClearOldestOverLimitFallback | signalone/src/main/java/com/signalone/NotificationLimitManager.java:81-116 | when the database opens, cancels the platform ids of the LIMIT-capped matching rows in `_ID` order, as many as the cursor count − 49 + k and none when that is below 1; when it does not open, logs and cancels nothing |
| LimitManager.FallbackCancelsProperties | signalone/src/main/java/com/signalone/NotificationLimitManager.java:98-109 | the fallback cancels a prefix of the matching rows, oldest first; when no more rows match than the LIMIT and k ≤ 49, it cancels exactly max(0, matches + k − 49) |
| LimitManager.ClearOldestOverLimit | signalone/src/main/java/com/signalone/NotificationLimitManager.java:40-50 | from M on, with a shade listing, the standard path; before M, or when listing the shade throws, the fallback with the same k |
| BadgeCounter.ResolveBadgeSetting | signalone/src/main/java/com/signalone/BadgeCountUpdater.java:55-67 | the setting is disabled iff the meta-data lookup throws or the value is "DISABLE"; a missing bundle or any other value enables it |
| BadgeCounter.SettingResolvedOnce | signalone/src/main/java/com/signalone/BadgeCountUpdater.java:51-53 | once the cache leaves −1 it is never re-read: later reads return it whatever the meta-data says |
| BadgeCounter.CountNonSummary | signalone/src/main/java/com/signalone/BadgeCountUpdater.java:91-96 | the running count is at most the shade size, and equals it iff no entry is a group summary |
| BadgeCounter.CountNonSummaryIsFilter | signalone/src/main/java/com/signalone/BadgeCountUpdater.java:87-98 | the standard count is the number of active notifications that are not group summaries |
| BadgeCounter.FallbackCountIsCappedCardinality | signalone/src/main/java/com/signalone/BadgeCountUpdater.java:101-116 | the fallback count is min(number of distinct matching rows, 49) |
| BadgeCounter.Badges.constructor | signalone/src/main/java/com/signalone/BadgeCountUpdater.java:49 | the cache starts unresolved (−1) |
| BadgeCounter.Badges.AreBadgeSettingsEnabled | signalone/src/main/java/com/signalone/BadgeCountUpdater.java:51-70 | reads the meta-data only while the cache is −1, and answers whether the cached setting is 1 |
| BadgeCounter.Badges.AreBadgesEnabled | signalone/src/main/java/com/signalone/BadgeCountUpdater.java:72-74 | the setting is enabled and the platform permits notifications |
| BadgeCounter.Badges.UpdateCount | signalone/src/main/java/com/signalone/BadgeCountUpdater.java:119-128 | nothing when the setting is disabled; otherwise the count is applied, and a launcher that throws is ignored |
| BadgeCounter.Badges.UpdateStandard | signalone/src/main/java/com/signalone/BadgeCountUpdater.java:87-99 | applies the non-summary count of the shade; a listing that throws escapes and applies nothing |
| BadgeCounter.Badges.UpdateFallback | signalone/src/main/java/com/signalone/BadgeCountUpdater.java:101-117 | applies the count of matching store rows, capped at 49 |
| BadgeCounter.Badges.Update | signalone/src/main/java/com/signalone/BadgeCountUpdater.java:76-84 | nothing unless the setting and notifications are enabled; then the standard count from M on and the store count before; reports the exception it lets escape |
| Restorer.Requests | signalone/src/main/java/com/signalone/NotificationRestorer.java:249-260 | one request per row, in order, each with `json_payload = full_data`, `android_notif_id`, `restoring = true` and `timestamp = created_time` |
| Restorer.ShowNotificationsFromCursor | signalone/src/main/java/com/signalone/NotificationRestorer.java:222-247 | nothing for an empty cursor; otherwise one request per row in cursor order, to the extender service when there is one, each followed by a sleep of `delay` only when `delay > 0`, after the last row too |
| Restorer.SkipVisibleNotifications | signalone/src/main/java/com/signalone/NotificationRestorer.java:189-214 | from M on, with a listing that is neither empty nor throwing, the selection is narrowed by `android_notification_id NOT IN` the shade ids; otherwise it is unchanged; a row matches the result iff it matches the input and is not in the shade |
| Restorer.RestoreRowsMatch | signalone/src/main/java/com/signalone/NotificationRestorer.java:164-173 | the query returns min(matching rows, 49) rows, each a matching row of the store |
| Restorer.RestoreRowsNewestFirst | signalone/src/main/java/com/signalone/NotificationRestorer.java:171-172 | they come in descending `_ID` order, and every matching row left out is older than every row returned |
| Restorer.SweptWellFormed | signalone/src/main/java/com/signalone/NotificationRestorer.java:133-152 | the sweep only removes rows, so the store stays well formed |
| Restorer.DeleteOldNotificationsFromDb | signalone/src/main/java/com/signalone/NotificationRestorer.java:133-152 | the sweep commits only when the database opens and the sweep does not throw; otherwise the rows stay as they were |
| Restorer.QueryAndRestoreNotificationsAndBadgeCount | signalone/src/main/java/com/signalone/NotificationRestorer.java:154-182 | when the database opens: the newest 49 matching rows are replayed with 200 ms pacing, then the badge is updated from the same rows; a database that does not open does nothing |
| Restorer.Restorer.constructor | signalone/src/main/java/com/signalone/NotificationRestorer.java:101 | a process starts with `restored` false |
| Restorer.Restorer.Restore | signalone/src/main/java/com/signalone/NotificationRestorer.java:114-131 | with notifications disabled nothing happens and `restored` is untouched; after the first restore every later call is a no-op; a first call sets `restored`, sweeps, then replays and counts whatever the sweep's outcome, leaving the badge cache resolved from the meta-data when the database opens |
| SummaryManager.GetSummaryNotificationId | signalone/src/main/java/com/signalone/NotificationSummaryManager.java:155-185 | None iff the group has no uninteracted summary; otherwise the platform id of the first one in storage order |
| SummaryManager.MarkConsumedEffect | signalone/src/main/java/com/signalone/NotificationSummaryManager.java:76-81 | the update sets `dismissed`, or else `opened`, on exactly the rows with the summary's platform id, changes no other column or row, and keeps the store well formed |
| SummaryManager.ReconcileWithoutSummary | signalone/src/main/java/com/signalone/NotificationSummaryManager.java:64-108 | without an uninteracted summary, reconciliation changes nothing, whatever the number of children |
| SummaryManager.ReconcileNoChildLeft | signalone/src/main/java/com/signalone/NotificationSummaryManager.java:64-83 | no child left: the summary id is cancelled and marked, nothing else is asked, and the summary no longer counts as uninteracted |
| SummaryManager.ReconcileLoneChild | signalone/src/main/java/com/signalone/NotificationSummaryManager.java:88-95 | one child left: that child alone is re-shown without pacing (when the database opens); nothing is cancelled, refreshed or written |
| SummaryManager.ReconcileSeveralChildren | signalone/src/main/java/com/signalone/NotificationSummaryManager.java:101-119 | two or more children: one restoring refresh of the group's summary, stamped with the creation time of the newest remaining child; nothing cancelled or written |
| SummaryManager.GroupLifecycleRows | signalone/src/main/java/com/signalone/NotificationSummaryManager.java:76-81 | dismissing C, B, A and then S each marks just that row |
| SummaryManager.GroupLifecycleAfterC | signalone/src/main/java/com/signalone/NotificationSummaryManager.java:101-119 | after C is dismissed, S is refreshed with B's creation time |
| SummaryManager.GroupLifecycleAfterB | signalone/src/main/java/com/signalone/NotificationSummaryManager.java:88-95 | after B, A is re-shown and S is neither cancelled nor marked |
| SummaryManager.GroupLifecycleAfterA | signalone/src/main/java/com/signalone/NotificationSummaryManager.java:64-83 | after A, S is cancelled and marked dismissed |
| SummaryManager.RestoreSummary | signalone/src/main/java/com/signalone/NotificationSummaryManager.java:124-153 | re-shows the group's uninteracted children with delay 0; a database that does not open does nothing |
| SummaryManager.UpdateSummaryNotificationAfterChildRemoved | signalone/src/main/java/com/signalone/NotificationSummaryManager.java:34-122 | the rows, cancellations, re-shows and refreshes are those of the reconciliation of the group, and nothing sleeps |
| SummaryManager.DismissedGroup | signalone/src/main/java/com/signalone/NotificationSummaryManager.java:16-26 | None when no row has the dismissed platform id; otherwise the group of the first row that has it, exactly |
| SummaryManager.UpdatePossibleDependentSummaryOnDismiss | signalone/src/main/java/com/signalone/NotificationSummaryManager.java:15-31 | no row or a NULL group: nothing; otherwise the group is reconciled as a dismissal |
| UserStatePush.NotificationTypes | signalone/src/main/java/com/signalone/UserStatePush.java:23-37 | the result is the subscribable status itself or one of the three status codes |
| UserStatePush.NotificationTypesPriority | signalone/src/main/java/com/signalone/UserStatePush.java:23-37 | a subscribable status (default 1) below UNSUBSCRIBE is returned whatever the other values; then a denied permission gives NO_PERMISSION whatever the preference; then an opted-out user gives UNSUBSCRIBE, else SUBSCRIBED |
| UserStatePush.DefaultsSubscribe | signalone/src/main/java/com/signalone/UserStatePush.java:24-36 | with no dependency value stored, the device is SUBSCRIBED when UNSUBSCRIBE is at most 1 |
| UserStatePush.IsSubscribedIff | signalone/src/main/java/com/signalone/UserStatePush.java:39-41 | subscribed iff the status is not below UNSUBSCRIBE, permission is granted and the user has not opted out (for codes where only SUBSCRIBED is positive) |
| UserStatePush.PushState.AddDependFields | signalone/src/main/java/com/signalone/UserStatePush.java:17-21 | puts `notification_types` with the computed value and changes no other key |

## Left out

- Threads, `synchronized`, `asyncRestore` and the delayed restore kick-off (JobScheduler and AlarmManager): the model is sequential, so the race on `restored` is not captured.
- Logging: every `SignalOne.Log` call and `printStackTrace`.
- Sleeps are recorded as values in `Os.sleeps`, not as time. The back-off sleeps of the open loop are returned in `OpenOutcome` and are not added to `Os.sleeps`.
- The clock, the TTL preference, the platform version, whether notifications are enabled, whether an extender service exists, and the badge meta-data are parameters (`Env`). The shade listing is one snapshot per operation: `None` when `getActiveNotifications` throws.
- A database open either succeeds after `openFailures` failures or fails for good, the same way for every open in one operation.
- SQL text, cursors and index statements are not modelled as strings. Predicates are functions over records, and queries are filter, reverse and take over the rows in `_ID` order. A query without ORDER BY returns storage order.
- Foreign calls are recorded as outputs of `Os`: `SignalOne.cancelNotification` and `NotificationManager.cancel` in `cancelled`; `enqueueWork` of the extender or restore service in `enqueued`; `GenerateNotification.updateSummaryNotification` in `summaryUpdates` (its payload is just `grp`, so only the group is kept); `ShortcutBadger` in `badgeCounts`.
- `NotificationBundleProcessor.deleteOldNotifications` is not part of this model. Its criterion is the parameter `Env.sweepKeeps`, and its failure is `Env.sweepFails`.
- Restorer.ShowNotificationsFromCursor, Restorer.QueryAndRestoreNotificationsAndBadgeCount, SummaryManager.RestoreSummary: every enqueue and every row read is taken to succeed. An exception part-way through the replay skips the rest of the replay and, for the restorer, the badge update (NotificationRestorer.java:174-177, 228-246; NotificationSummaryManager.java:146-148); that abort is not modelled.
- Queries and cancellations are taken not to throw. The model therefore does not capture a failure part-way through a cancel loop: a standard path that throws after some cancels, and then falls back, is not modelled. The try/catch around reconciliation, and the null returned by `getSummaryNotificationId` on an error, have no case to catch.
- LimitManager.ClearOldestOverLimit: `k` is a natural number. A negative `k`, which would put a minus sign into the fallback's LIMIT string, is not modelled.
- The `JSONException` around `syncValues.put` and the summary payload cannot arise for these values, and is left out.
- `UserState`, the base class of `UserStatePush`, is not part of this model. Its `PUSH_STATUS_*` constants are parameters (`PushStatusCodes`), and `dependValues` values are taken to be stored with their natural type; org.json's coercion of strings (`optInt` of a numeric string, `optBoolean` of "true"/"false") is not modelled.
- Columns the engine never reads (`title`, `message`) are not kept in a row. Integer widths (`int` ids, `long` times) are unbounded here, because no computation in the core approaches them.
