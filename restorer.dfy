/** The restorer (NotificationRestorer): once per process, after stale rows
    are swept, replay the newest recent, uninteracted rows that are not
    already in the shade, one restore request each, then refresh the badge. */
module Restorer {
  import opened Wrappers
  import opened Seqs
  import opened Store
  import opened Platform
  import opened LimitManager
  import opened BadgeCounter

  /** Pacing between replayed notifications, against the platform's enqueue-rate shedding. */
  const DELAY_BETWEEN_NOTIFICATION_RESTORES_MS := 200

  /** Restore work goes to the app's extender service when it declares one. */
  function ServiceFor(useExtender: bool): Service {
    if useExtender then ExtenderService else RestoreJobService
  }

  /** `addRestoreExtras`: the four extras read from the cursor row. */
  function RestoreExtras(service: Service, r: Record): RestoreRequest {
    RestoreRequest(service, r.fullData, r.androidId, true, r.created)
  }

  /** The requests a replay of `cursor` enqueues: one per row, in cursor
      order, each carrying that row's payload, platform id and creation time
      and `restoring` set. */
  function Requests(cursor: seq<Record>, service: Service): (q: seq<RestoreRequest>)
    ensures |q| == |cursor|
    ensures forall i :: 0 <= i < |cursor| ==>
      && q[i].service == service
      && q[i].jsonPayload == cursor[i].fullData
      && q[i].androidNotifId == cursor[i].androidId
      && q[i].restoring
      && q[i].timestamp == cursor[i].created
  {
    seq(|cursor|, i requires 0 <= i < |cursor| => RestoreExtras(service, cursor[i]))
  }

  /** `showNotificationsFromCursor`: nothing for an empty cursor; otherwise
      one request per row in cursor order, each followed by a sleep of
      `delay` ms when `delay` is positive (the last one included). */
  method ShowNotificationsFromCursor(cursor: seq<Record>, delay: int, useExtender: bool, os: Os)
    modifies os`enqueued, os`sleeps
    ensures os.enqueued == old(os.enqueued) + Requests(cursor, ServiceFor(useExtender))
    ensures os.sleeps == old(os.sleeps) + (if delay > 0 then Repeat(delay as nat, |cursor|) else [])
  {
    if |cursor| == 0 {
      return;
    }
    var service := ServiceFor(useExtender);
    var i := 0;
    while true
      invariant 0 <= i < |cursor|
      invariant os.enqueued == old(os.enqueued) + Requests(cursor[..i], service)
      invariant os.sleeps == old(os.sleeps) + (if delay > 0 then Repeat(delay as nat, i) else [])
      decreases |cursor| - i
    {
      os.enqueued := os.enqueued + [RestoreExtras(service, cursor[i])];
      if delay > 0 {
        os.sleeps := os.sleeps + [delay as nat];
      }
      assert Requests(cursor[..i + 1], service) == Requests(cursor[..i], service) + [RestoreExtras(service, cursor[i])];
      i := i + 1;
      if i >= |cursor| {
        break;
      }
    }
    assert cursor[..i] == cursor;
  }

  /** The platform ids of the shade entries, in shade order. */
  function ShadeIds(active: seq<ActiveNotif>): (ids: seq<int>)
    ensures |ids| == |active| && forall i :: 0 <= i < |active| ==> ids[i] == active[i].id
  {
    seq(|active|, i requires 0 <= i < |active| => active[i].id)
  }

  /** `skipVisibleNotifications`: from M on, a shade listing that is neither
      empty nor throwing narrows the selection by `android_notification_id
      NOT IN (ids)`; otherwise the selection is unchanged. */
  method SkipVisibleNotifications(w: Where, atLeastM: bool, shade: Option<seq<ActiveNotif>>) returns (w': Where)
    ensures w' == if atLeastM && shade.Some? && |shade.value| > 0
      then w.(excludedIds := w.excludedIds + ShadeIds(shade.value)) else w
    ensures forall r :: Matches(w', r) <==>
      Matches(w, r) && (atLeastM && shade.Some? ==> forall i :: 0 <= i < |shade.value| ==> r.androidId != shade.value[i].id)
  {
    if !atLeastM || shade.None? {
      return w;
    }
    var activeNotifs := shade.value;
    if |activeNotifs| == 0 {
      return w;
    }
    var activeNotifIds: seq<int> := [];
    for i := 0 to |activeNotifs|
      invariant activeNotifIds == ShadeIds(activeNotifs[..i])
    {
      activeNotifIds := activeNotifIds + [activeNotifs[i].id];
    }
    assert activeNotifs[..|activeNotifs|] == activeNotifs;
    w' := w.(excludedIds := w.excludedIds + activeNotifIds);
    forall r ensures Matches(w', r) <==>
      Matches(w, r) && forall i :: 0 <= i < |activeNotifs| ==> r.androidId != activeNotifs[i].id
    {
      if r.androidId in activeNotifIds {
        var i :| 0 <= i < |activeNotifIds| && activeNotifIds[i] == r.androidId;
        assert r.androidId == activeNotifs[i].id;
      }
    }
  }

  /** The selection the restorer queries with. */
  function RestoreWhere(env: Env): Where {
    var w := RecentUninteractedWhere(env.nowMillis, env.ttlFilter);
    if env.atLeastM && env.shade.Some? && |env.shade.value| > 0
    then w.(excludedIds := w.excludedIds + ShadeIds(env.shade.value)) else w
  }

  /** The rows a restore query returns: matching rows, `_ID DESC`, LIMIT 49. */
  function RestoreRows(rows: seq<Record>, w: Where): seq<Record> {
    Take(Reverse(Select(rows, w)), MAX_NUMBER_OF_NOTIFICATIONS)
  }

  /** The replayed rows are matching rows of the store, as many as match up
      to 49. */
  lemma RestoreRowsMatch(rows: seq<Record>, w: Where)
    ensures |RestoreRows(rows, w)| == Min(|Select(rows, w)|, MAX_NUMBER_OF_NOTIFICATIONS)
    ensures forall r :: r in RestoreRows(rows, w) ==> r in rows && Matches(w, r)
  {
    var sel := Select(rows, w);
    var rev := Reverse(sel);
    var out := RestoreRows(rows, w);
    assert out == rev[..|out|];
    forall r | r in out ensures r in sel {
      var i :| 0 <= i < |out| && out[i] == r;
      assert r == sel[|sel| - 1 - i];
    }
  }

  /** The replayed rows are the newest matching ones: they come newest
      first, and every matching row left out is older than all of them. */
  lemma RestoreRowsNewestFirst(rows: seq<Record>, w: Where)
    requires StrictlyIncreasing(rows, RowIdOf)
    ensures forall i, j :: 0 <= i < j < |RestoreRows(rows, w)| ==>
      RestoreRows(rows, w)[i].rowId > RestoreRows(rows, w)[j].rowId
    ensures forall r, q :: r in rows && Matches(w, r) && r !in RestoreRows(rows, w) && q in RestoreRows(rows, w) ==>
      r.rowId < q.rowId
  {
    var sel := Select(rows, w);
    FilterIsSubsequence(rows, (r: Record) => Matches(w, r), RowIdOf);
    NewestPrefix(sel, MAX_NUMBER_OF_NOTIFICATIONS, RowIdOf);
  }

  /** The database opens with retries under `env`. */
  predicate Opens(env: Env) { env.openFailures < DB_OPEN_RETRY_MAX }

  /** The rows left by `deleteOldNotificationsFromDb`: the sweep's
      transaction commits only when the database opens and the sweep does not
      throw; a failure is logged and the rows stay as they were. */
  function Swept(rows: seq<Record>, env: Env): seq<Record> {
    if Opens(env) && !env.sweepFails then Filter(rows, env.sweepKeeps) else rows
  }

  /** The sweep only removes rows, so the store stays well formed. */
  lemma SweptWellFormed(s: DbState, env: Env)
    requires WellFormed(s)
    ensures WellFormed(s.(rows := Swept(s.rows, env)))
    ensures forall r :: r in Swept(s.rows, env) ==> r in s.rows
  {
    FilterIsSubsequence(s.rows, env.sweepKeeps, RowIdOf);
  }

  method DeleteOldNotificationsFromDb(db: Db, env: Env)
    requires db.Valid()
    modifies db`rows
    ensures db.Valid()
    ensures db.rows == Swept(old(db.rows), env)
  {
    SweptWellFormed(db.State(), env);
    var handle := OpenWithRetries(env.openFailures);
    if !handle.success {
      return;
    }
    if env.sweepFails {
      // the transaction is never marked successful, so it rolls back
      return;
    }
    db.rows := Filter(db.rows, env.sweepKeeps);
  }

  /** `queryAndRestoreNotificationsAndBadgeCount`: replay the query's rows
      with the 200 ms pacing, then refresh the badge from the same database.
      A database that will not open is logged and nothing happens. */
  method QueryAndRestoreNotificationsAndBadgeCount(db: Db, w: Where, badges: Badges, env: Env, os: Os)
    requires badges.Valid()
    modifies badges, os`enqueued, os`sleeps, os`badgeCounts
    ensures badges.Valid()
    ensures os.enqueued == old(os.enqueued) +
      (if Opens(env) then Requests(RestoreRows(db.rows, w), ServiceFor(env.useExtender)) else [])
    ensures os.sleeps == old(os.sleeps) +
      (if Opens(env) then Repeat(DELAY_BETWEEN_NOTIFICATION_RESTORES_MS, |RestoreRows(db.rows, w)|) else [])
    ensures os.badgeCounts == old(os.badgeCounts) +
      (if Opens(env) then BadgeApplied(old(badges.badgesEnabled), db.rows, env) else [])
    ensures badges.badgesEnabled == if Opens(env) then CachedSetting(old(badges.badgesEnabled), env.badgeMeta) else old(badges.badgesEnabled)
  {
    var handle := OpenWithRetries(env.openFailures);
    if !handle.success {
      return;
    }
    var cursor := Take(Reverse(Select(db.rows, w)), MAX_NUMBER_OF_NOTIFICATIONS);
    ShowNotificationsFromCursor(cursor, DELAY_BETWEEN_NOTIFICATION_RESTORES_MS, env.useExtender, os);
    // an exception from the badge update is caught and logged here
    var _ := badges.Update(db.rows, env, os);
  }

  class Restorer {
    /** Set at the first restore with notifications enabled; never reset
        within the process. */
    var restored: bool

    constructor ()
      ensures !restored
    {
      restored := false;
    }

    /** `restore`. */
    method Restore(db: Db, badges: Badges, env: Env, os: Os)
      requires db.Valid() && badges.Valid()
      modifies this, db`rows, badges, os`enqueued, os`sleeps, os`badgeCounts
      ensures db.Valid() && badges.Valid()
      ensures restored == (old(restored) || env.notificationsEnabled)
      ensures !env.notificationsEnabled || old(restored) ==>
        && db.rows == old(db.rows) && badges.badgesEnabled == old(badges.badgesEnabled)
        && os.enqueued == old(os.enqueued) && os.sleeps == old(os.sleeps) && os.badgeCounts == old(os.badgeCounts)
      ensures env.notificationsEnabled && !old(restored) ==>
        && db.rows == Swept(old(db.rows), env)
        && os.enqueued == old(os.enqueued) +
          (if Opens(env) then Requests(RestoreRows(db.rows, RestoreWhere(env)), ServiceFor(env.useExtender)) else [])
        && os.sleeps == old(os.sleeps) +
          (if Opens(env) then Repeat(DELAY_BETWEEN_NOTIFICATION_RESTORES_MS, |RestoreRows(db.rows, RestoreWhere(env))|) else [])
        && os.badgeCounts == old(os.badgeCounts) +
          (if Opens(env) then BadgeApplied(old(badges.badgesEnabled), db.rows, env) else [])
        && badges.badgesEnabled ==
          (if Opens(env) then CachedSetting(old(badges.badgesEnabled), env.badgeMeta) else old(badges.badgesEnabled))
    {
      if !env.notificationsEnabled {
        return;
      }
      if restored {
        return;
      }
      restored := true;
      DeleteOldNotificationsFromDb(db, env);
      var dbQuerySelection := RecentUninteractedWhere(env.nowMillis, env.ttlFilter);
      dbQuerySelection := SkipVisibleNotifications(dbQuerySelection, env.atLeastM, env.shade);
      QueryAndRestoreNotificationsAndBadgeCount(db, dbQuerySelection, badges, env, os);
    }
  }
}
