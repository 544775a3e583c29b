/** The Android side of the engine. What the engine asks of the platform is
    recorded in an `Os` object (cancellations, enqueued restore work, summary
    refreshes, badge counts, pacing sleeps); what the platform tells the
    engine (the clock, the shade, preferences, whether an open or a sweep
    fails) is an `Env` value passed in. */
module Platform {
  import opened Wrappers
  import opened Store

  /** One entry of the shade as `getActiveNotifications` reports it: its
      platform id, its `when` and whether it has FLAG_GROUP_SUMMARY. */
  datatype ActiveNotif = ActiveNotif(id: int, when: int, isSummary: bool)

  /** Where restore work is enqueued: the app's NotificationExtenderService
      when it declares one, RestoreJobService otherwise. */
  datatype Service = ExtenderService | RestoreJobService

  /** A restore work item: the service it goes to and the intent extras
      `json_payload`, `android_notif_id`, `restoring` and `timestamp`. */
  datatype RestoreRequest = RestoreRequest(
    service: Service, jsonPayload: string, androidNotifId: int, restoring: bool, timestamp: int)

  /** A summary refresh: a generation job with payload {"grp": group},
      `restoring` and `shownTimeStamp`. */
  datatype SummaryJob = SummaryJob(group: string, restoring: bool, shownTimeStamp: int)

  /** The result of reading the app's meta-data for "com.onesignal.BadgeCount":
      the lookup throws, there is no meta-data bundle, or the bundle holds
      this (possibly missing) string. */
  datatype MetaData = MetaDataThrows | NoBundle | Bundle(badgeCount: Option<string>)

  /** What the platform answers during one operation. */
  datatype Env = Env(
    nowMillis: nat,                   // System.currentTimeMillis()
    ttlFilter: bool,                  // the restore TTL-filter preference (default true)
    notificationsEnabled: bool,       // OSUtils.areNotificationsEnabled
    atLeastM: bool,                   // Build.VERSION.SDK_INT >= M
    shade: Option<seq<ActiveNotif>>,  // getActiveNotifications; None when it throws
    openFailures: nat,                // failed attempts before each database open succeeds
    sweepKeeps: Record -> bool,       // rows that deleteOldNotifications keeps
    sweepFails: bool,                 // the sweep's transaction throws
    useExtender: bool,                // NotificationExtenderService.getIntent != null
    badgeMeta: MetaData,
    badgeApplyOk: bool)               // the launcher accepts the badge count

  /** The requests the engine has made of the platform, oldest first. */
  class Os {
    var cancelled: seq<int>
    var enqueued: seq<RestoreRequest>
    var summaryUpdates: seq<SummaryJob>
    var badgeCounts: seq<int>
    var sleeps: seq<nat>

    constructor ()
      ensures cancelled == [] && enqueued == [] && summaryUpdates == []
      ensures badgeCounts == [] && sleeps == []
    {
      cancelled, enqueued, summaryUpdates, badgeCounts, sleeps := [], [], [], [], [];
    }
  }
}
