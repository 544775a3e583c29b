/** The summary reconciler (NotificationSummaryManager): after a child of a
    group is opened or dismissed, bring the group's summary in line with the
    number of uninteracted children left — zero, one, or two and more. */
module SummaryManager {
  import opened Wrappers
  import opened Seqs
  import opened Store
  import opened Platform
  import opened Restorer

  /** A child of `group` still waiting for the user. */
  predicate IsUninteractedChild(group: string, r: Record) {
    r.group == Some(group) && !r.isDismissed && !r.isOpened && !r.isSummary
  }

  /** The summary of `group`, while the user has not acted on it. */
  predicate IsUninteractedSummary(group: string, r: Record) {
    r.group == Some(group) && !r.isDismissed && !r.isOpened && r.isSummary
  }

  /** The uninteracted children of `group`, in storage order (the query of
      `restoreSummary`, which has no ORDER BY). */
  function ChildRows(rows: seq<Record>, group: string): seq<Record> {
    Filter(rows, ChildOf(group))
  }

  /** `IsUninteractedChild` of `group`, as a filter predicate. */
  function ChildOf(group: string): Record -> bool {
    (r: Record) => IsUninteractedChild(group, r)
  }

  lemma ChildRowsCons(x: Record, t: seq<Record>, group: string)
    ensures ChildRows([x] + t, group) == (if IsUninteractedChild(group, x) then [x] else []) + ChildRows(t, group)
  {
    assert ([x] + t)[1..] == t;
  }

  /** The same children newest first (`_ID DESC`), as the reconciler counts them. */
  function GroupChildren(rows: seq<Record>, group: string): seq<Record> {
    Reverse(ChildRows(rows, group))
  }

  /** `getSummaryNotificationId`: the platform id of the first uninteracted
      summary row of the group in storage order, or None when there is none. */
  function GetSummaryNotificationId(rows: seq<Record>, group: string): (id: Option<int>)
    ensures id.None? <==> forall i :: 0 <= i < |rows| ==> !IsUninteractedSummary(group, rows[i])
    ensures id.Some? ==>
      exists i :: (0 <= i < |rows| && IsUninteractedSummary(group, rows[i]) && rows[i].androidId == id.value
        && forall j :: 0 <= j < i ==> !IsUninteractedSummary(group, rows[j]))
  {
    if rows == [] then None
    else if IsUninteractedSummary(group, rows[0]) then Some(rows[0].androidId)
    else
      var rest := GetSummaryNotificationId(rows[1..], group);
      assert forall i :: 0 <= i < |rows[1..]| ==> rows[1..][i] == rows[i + 1];
      rest
  }

  /** A row once the user has acted on it: `dismissed` or else `opened` set to 1. */
  function Consumed(r: Record, dismissed: bool): Record {
    if dismissed then r.(isDismissed := true) else r.(isOpened := true)
  }

  /** The UPDATE of the zero branch: every row with platform id `androidId` consumed. */
  function MarkConsumed(rows: seq<Record>, androidId: int, dismissed: bool): seq<Record> {
    seq(|rows|, i requires 0 <= i < |rows| => if rows[i].androidId == androidId then Consumed(rows[i], dismissed) else rows[i])
  }

  /** Marking touches exactly the rows with that platform id: they leave the
      uninteracted state with the right flag set, all other rows and all other
      columns stay as they were, so the store stays well formed. */
  lemma MarkConsumedEffect(s: DbState, androidId: int, dismissed: bool)
    requires WellFormed(s)
    ensures var m := MarkConsumed(s.rows, androidId, dismissed);
      && |m| == |s.rows|
      && (forall i :: 0 <= i < |m| && s.rows[i].androidId != androidId ==> m[i] == s.rows[i])
      && (forall i :: 0 <= i < |m| && s.rows[i].androidId == androidId ==>
            && (if dismissed then m[i].isDismissed else m[i].isOpened)
            && m[i].(isDismissed := s.rows[i].isDismissed, isOpened := s.rows[i].isOpened) == s.rows[i])
      && WellFormed(s.(rows := m))
  {
    var m := MarkConsumed(s.rows, androidId, dismissed);
    assert forall i :: 0 <= i < |m| ==> m[i].rowId == s.rows[i].rowId && m[i].expire == s.rows[i].expire && m[i].collapse == s.rows[i].collapse;
    forall r | r in m ensures r.expire.None? || ExpireTimeColumn in s.columns
      ensures r.collapse.None? || CollapseIdColumn in s.columns
    {
      var i :| 0 <= i < |m| && m[i] == r;
      assert s.rows[i] in s.rows;
    }
  }

  /** What one reconciliation does: the rows afterwards, and what it asks of
      the platform (cancellations, re-shown children, summary refreshes). */
  datatype Reconciled = Reconciled(rows: seq<Record>, cancelled: seq<int>, reshown: seq<RestoreRequest>, refreshed: seq<SummaryJob>)

  /** `internalUpdateSummaryNotificationAfterChildRemoved` as a value. */
  function Reconcile(rows: seq<Record>, group: string, dismissed: bool, env: Env): Reconciled {
    var children := GroupChildren(rows, group);
    var summary := GetSummaryNotificationId(rows, group);
    if summary.None? then Reconciled(rows, [], [], [])
    else if |children| == 0 then Reconciled(MarkConsumed(rows, summary.value, dismissed), [summary.value], [], [])
    else if |children| == 1 then
      Reconciled(rows, [], if Opens(env) then Requests(ChildRows(rows, group), ServiceFor(env.useExtender)) else [], [])
    else Reconciled(rows, [], [], [SummaryJob(group, true, children[0].created)])
  }

  /** Without an uninteracted summary in the group, nothing happens, whatever
      the number of children. */
  lemma ReconcileWithoutSummary(rows: seq<Record>, group: string, dismissed: bool, env: Env)
    requires forall r :: r in rows ==> !IsUninteractedSummary(group, r)
    ensures Reconcile(rows, group, dismissed, env) == Reconciled(rows, [], [], [])
  {
    assert GetSummaryNotificationId(rows, group).None?;
  }

  /** No child left: the group's first uninteracted summary is cancelled and
      every row with its platform id is consumed, that row included, so the
      summary is no longer reported. */
  lemma ReconcileNoChildLeft(rows: seq<Record>, group: string, dismissed: bool, env: Env)
    requires forall r :: r in rows ==> !IsUninteractedChild(group, r)
    requires exists r :: r in rows && IsUninteractedSummary(group, r)
    ensures var out := Reconcile(rows, group, dismissed, env);
      var id := GetSummaryNotificationId(rows, group);
      && id.Some?
      && out.cancelled == [id.value] && out.reshown == [] && out.refreshed == []
      && out.rows == MarkConsumed(rows, id.value, dismissed)
      && forall r :: r in out.rows && r.androidId == id.value ==> !IsUninteractedSummary(group, r) && !IsUninteractedChild(group, r)
  {
    var id := GetSummaryNotificationId(rows, group);
    SummaryFound(rows, group);
    FilterNone(rows, ChildOf(group));
    var m := MarkConsumed(rows, id.value, dismissed);
    forall r | r in m && r.androidId == id.value
      ensures !IsUninteractedSummary(group, r) && !IsUninteractedChild(group, r)
    {
      var i :| 0 <= i < |m| && m[i] == r;
      assert rows[i].androidId == id.value;
    }
  }

  /** One child left: that child is re-shown (one restore request, with no
      pacing) when the database opens; nothing is cancelled and no row
      changes. The summary itself is left as it is. */
  lemma ReconcileLoneChild(rows: seq<Record>, group: string, dismissed: bool, env: Env, child: Record)
    requires ChildRows(rows, group) == [child]
    requires exists r :: r in rows && IsUninteractedSummary(group, r)
    ensures var out := Reconcile(rows, group, dismissed, env);
      && out.rows == rows && out.cancelled == [] && out.refreshed == []
      && out.reshown == if Opens(env) then [RestoreExtras(ServiceFor(env.useExtender), child)] else []
  {
    SummaryFound(rows, group);
  }

  /** Two or more children left: the summary is refreshed once, restoring,
      stamped with the creation time of the newest remaining child; nothing
      is cancelled and no row changes. */
  lemma ReconcileSeveralChildren(rows: seq<Record>, group: string, dismissed: bool, env: Env)
    requires StrictlyIncreasing(rows, RowIdOf)
    requires |ChildRows(rows, group)| >= 2
    requires exists r :: r in rows && IsUninteractedSummary(group, r)
    ensures var out := Reconcile(rows, group, dismissed, env);
      && out.rows == rows && out.cancelled == [] && out.reshown == []
      && exists newest ::
        && newest in rows && IsUninteractedChild(group, newest)
        && (forall c :: c in rows && IsUninteractedChild(group, c) ==> c.rowId <= newest.rowId)
        && out.refreshed == [SummaryJob(group, true, newest.created)]
  {
    SummaryFound(rows, group);
    NewestChild(rows, group);
  }

  /** An uninteracted summary in the store is found. */
  lemma SummaryFound(rows: seq<Record>, group: string)
    requires exists r :: r in rows && IsUninteractedSummary(group, r)
    ensures GetSummaryNotificationId(rows, group).Some?
  {
    var r0 :| r0 in rows && IsUninteractedSummary(group, r0);
    var i0 :| 0 <= i0 < |rows| && rows[i0] == r0;
  }

  /** The first of the children newest first is the uninteracted child with
      the largest row id. */
  lemma NewestChild(rows: seq<Record>, group: string)
    requires StrictlyIncreasing(rows, RowIdOf) && ChildRows(rows, group) != []
    ensures var newest := GroupChildren(rows, group)[0];
      && newest in rows && IsUninteractedChild(group, newest)
      && forall c :: c in rows && IsUninteractedChild(group, c) ==> c.rowId <= newest.rowId
  {
    var kids := ChildRows(rows, group);
    FilterLastIsMax(rows, ChildOf(group), RowIdOf);
    assert GroupChildren(rows, group)[0] == kids[|kids| - 1];
  }

  // A group "g" with summary S and children A, B, C, all uninteracted,
  // dismissed one child at a time: C, then B, then A.
  function ScenarioS(): Record { Record(1, "s", 10, Some("g"), None, true, false, false, "{}", 100, None) }
  function ScenarioA(): Record { Record(2, "a", 11, Some("g"), None, false, false, false, "{a}", 101, None) }
  function ScenarioB(): Record { Record(3, "b", 12, Some("g"), None, false, false, false, "{b}", 102, None) }
  function ScenarioC(): Record { Record(4, "c", 13, Some("g"), None, false, false, false, "{c}", 103, None) }

  /** Each dismissal consumes just the dismissed row. */
  lemma GroupLifecycleRows()
    ensures var (s, a, b, c) := (ScenarioS(), ScenarioA(), ScenarioB(), ScenarioC());
      && MarkConsumed([s, a, b, c], c.androidId, true) == [s, a, b, Consumed(c, true)]
      && MarkConsumed([s, a, b, Consumed(c, true)], b.androidId, true) == [s, a, Consumed(b, true), Consumed(c, true)]
      && MarkConsumed([s, a, Consumed(b, true), Consumed(c, true)], a.androidId, true)
        == [s, Consumed(a, true), Consumed(b, true), Consumed(c, true)]
      && MarkConsumed([s, Consumed(a, true), Consumed(b, true), Consumed(c, true)], s.androidId, true)
        == [Consumed(s, true), Consumed(a, true), Consumed(b, true), Consumed(c, true)]
  {
  }

  /** After C: two children left; the summary is refreshed with B's creation time. */
  lemma GroupLifecycleAfterC(env: Env)
    ensures var rows := [ScenarioS(), ScenarioA(), ScenarioB(), Consumed(ScenarioC(), true)];
      Reconcile(rows, "g", true, env) == Reconciled(rows, [], [], [SummaryJob("g", true, ScenarioB().created)])
  {
    var (s, a, b, c') := (ScenarioS(), ScenarioA(), ScenarioB(), Consumed(ScenarioC(), true));
    ChildRowsCons(c', [], "g");
    ChildRowsCons(b, [c'], "g");
    ChildRowsCons(a, [b, c'], "g");
    ChildRowsCons(s, [a, b, c'], "g");
  }

  /** After B: one child left; A is re-shown and S is neither cancelled nor marked. */
  lemma GroupLifecycleAfterB(env: Env)
    requires Opens(env)
    ensures var rows := [ScenarioS(), ScenarioA(), Consumed(ScenarioB(), true), Consumed(ScenarioC(), true)];
      Reconcile(rows, "g", true, env) == Reconciled(rows, [], [RestoreExtras(ServiceFor(env.useExtender), ScenarioA())], [])
  {
    var (s, a, b', c') := (ScenarioS(), ScenarioA(), Consumed(ScenarioB(), true), Consumed(ScenarioC(), true));
    ChildRowsCons(c', [], "g");
    ChildRowsCons(b', [c'], "g");
    ChildRowsCons(a, [b', c'], "g");
    ChildRowsCons(s, [a, b', c'], "g");
  }

  /** After A: no child left and S still uninteracted, so S is cancelled and
      marked dismissed. */
  lemma GroupLifecycleAfterA(env: Env)
    ensures var rows := [ScenarioS(), Consumed(ScenarioA(), true), Consumed(ScenarioB(), true), Consumed(ScenarioC(), true)];
      Reconcile(rows, "g", true, env) == Reconciled(MarkConsumed(rows, ScenarioS().androidId, true), [ScenarioS().androidId], [], [])
  {
    var (s, a', b', c') := (ScenarioS(), Consumed(ScenarioA(), true), Consumed(ScenarioB(), true), Consumed(ScenarioC(), true));
    ChildRowsCons(c', [], "g");
    ChildRowsCons(b', [c'], "g");
    ChildRowsCons(a', [b', c'], "g");
    ChildRowsCons(s, [a', b', c'], "g");
  }

  /** `restoreSummary`: re-show the group's uninteracted children with no
      pacing; a database that will not open is logged. */
  method RestoreSummary(db: Db, group: string, env: Env, os: Os)
    modifies os`enqueued, os`sleeps
    ensures os.enqueued == old(os.enqueued) +
      (if Opens(env) then Requests(ChildRows(db.rows, group), ServiceFor(env.useExtender)) else [])
    ensures os.sleeps == old(os.sleeps)
  {
    var handle := OpenWithRetries(env.openFailures);
    if !handle.success {
      return;
    }
    var cursor := ChildRows(db.rows, group);
    ShowNotificationsFromCursor(cursor, 0, env.useExtender, os);
  }

  /** `updateSummaryNotificationAfterChildRemoved` with its internal variant. */
  method UpdateSummaryNotificationAfterChildRemoved(db: Db, group: string, dismissed: bool, env: Env, os: Os)
    requires db.Valid()
    modifies db`rows, os`cancelled, os`enqueued, os`sleeps, os`summaryUpdates
    ensures db.Valid()
    ensures var out := Reconcile(old(db.rows), group, dismissed, env);
      && db.rows == out.rows
      && os.cancelled == old(os.cancelled) + out.cancelled
      && os.enqueued == old(os.enqueued) + out.reshown
      && os.summaryUpdates == old(os.summaryUpdates) + out.refreshed
      && os.sleeps == old(os.sleeps)
  {
    var cursor := GroupChildren(db.rows, group);
    var notifsInGroup := |cursor|;
    if notifsInGroup == 0 {
      var androidNotifId := GetSummaryNotificationId(db.rows, group);
      if androidNotifId.None? {
        return;
      }
      os.cancelled := os.cancelled + [androidNotifId.value];
      MarkConsumedEffect(db.State(), androidNotifId.value, dismissed);
      db.rows := MarkConsumed(db.rows, androidNotifId.value, dismissed);
      return;
    }
    if notifsInGroup == 1 {
      var androidNotifId := GetSummaryNotificationId(db.rows, group);
      if androidNotifId.None? {
        return;
      }
      RestoreSummary(db, group, env, os);
      return;
    }
    var datetime := cursor[0].created;
    var androidNotifId := GetSummaryNotificationId(db.rows, group);
    if androidNotifId.None? {
      return;
    }
    os.summaryUpdates := os.summaryUpdates + [SummaryJob(group, true, datetime)];
  }

  /** The group a dismissed platform id belongs to: that of the first row
      with the id, None when there is no such row or its group is NULL. */
  function DismissedGroup(rows: seq<Record>, androidId: int): (g: Option<string>)
    ensures g.Some? ==>
      exists i :: (0 <= i < |rows| && rows[i].androidId == androidId && rows[i].group == g
        && forall j :: 0 <= j < i ==> rows[j].androidId != androidId)
    ensures (forall i :: 0 <= i < |rows| ==> rows[i].androidId != androidId) ==> g.None?
    ensures forall i ::
      (0 <= i < |rows| && rows[i].androidId == androidId
       && forall j :: 0 <= j < i ==> rows[j].androidId != androidId)
      ==> g == rows[i].group
  {
    if rows == [] then None
    else if rows[0].androidId == androidId then rows[0].group
    else
      var rest := DismissedGroup(rows[1..], androidId);
      assert forall i :: 0 <= i < |rows[1..]| ==> rows[1..][i] == rows[i + 1];
      rest
  }

  /** `updatePossibleDependentSummaryOnDismiss`: reconcile the dismissed
      notification's group, as a dismissal; nothing without a row or a group. */
  method UpdatePossibleDependentSummaryOnDismiss(db: Db, androidNotificationId: int, env: Env, os: Os)
    requires db.Valid()
    modifies db`rows, os`cancelled, os`enqueued, os`sleeps, os`summaryUpdates
    ensures db.Valid()
    ensures var g := DismissedGroup(old(db.rows), androidNotificationId);
      var out := if g.Some? then Reconcile(old(db.rows), g.value, true, env) else Reconciled(old(db.rows), [], [], []);
      && db.rows == out.rows
      && os.cancelled == old(os.cancelled) + out.cancelled
      && os.enqueued == old(os.enqueued) + out.reshown
      && os.summaryUpdates == old(os.summaryUpdates) + out.refreshed
      && os.sleeps == old(os.sleeps)
  {
    var group := DismissedGroup(db.rows, androidNotificationId);
    if group.Some? {
      UpdateSummaryNotificationAfterChildRemoved(db, group.value, true, env, os);
    }
  }
}
