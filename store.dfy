/** The notification store (OneSignalDbHelper): the single `notification`
    table, its schema and forward-only migrations, the downgrade wipe, the
    bounded open-retry loop and the "recent, uninteracted" row predicate that
    every other component reuses. */
module Store {
  import opened Wrappers
  import opened Seqs

  const DATABASE_VERSION := 3
  const DB_OPEN_RETRY_MAX := 5
  const DB_OPEN_RETRY_BACKOFF := 400
  /** Seconds added to `created_time` when a row has no expire time of its own (72 hours). */
  const DEFAULT_TTL_IF_NOT_IN_PAYLOAD := 259200
  /** Rows created more than a week ago are never considered recent. */
  const ONE_WEEK_SECONDS := 604800
  const NOTIFICATION_TABLE := "notification"

  /** One row of the notification table. Columns the engine never reads
      (`title`, `message`) are not kept. */
  datatype Record = Record(
    rowId: int,
    notificationId: string,
    androidId: int,
    group: Option<string>,
    collapse: Option<string>,
    isSummary: bool,
    isOpened: bool,
    isDismissed: bool,
    fullData: string,
    created: int,
    expire: Option<int>)

  function RowIdOf(r: Record): int { r.rowId }

  datatype Column =
    | IdColumn | NotificationIdColumn | AndroidNotificationIdColumn | GroupIdColumn
    | CollapseIdColumn | IsSummaryColumn | OpenedColumn | DismissedColumn | TitleColumn
    | MessageColumn | FullDataColumn | CreatedTimeColumn | ExpireTimeColumn

  datatype Index =
    | NotificationIdIndex | AndroidNotificationIdIndex | GroupIdIndex
    | CollapseIdIndex | CreatedTimeIndex | ExpireTimeIndex

  /** The column each index is built on. */
  function IndexedColumn(i: Index): Column {
    match i
    case NotificationIdIndex => NotificationIdColumn
    case AndroidNotificationIdIndex => AndroidNotificationIdColumn
    case GroupIdIndex => GroupIdColumn
    case CollapseIdIndex => CollapseIdColumn
    case CreatedTimeIndex => CreatedTimeColumn
    case ExpireTimeIndex => ExpireTimeColumn
  }

  /** The columns of the CREATE TABLE statement of the current schema. */
  const ALL_COLUMNS: set<Column> := {
    IdColumn, NotificationIdColumn, AndroidNotificationIdColumn, GroupIdColumn,
    CollapseIdColumn, IsSummaryColumn, OpenedColumn, DismissedColumn, TitleColumn,
    MessageColumn, FullDataColumn, CreatedTimeColumn, ExpireTimeColumn }

  /** The index statements run after CREATE TABLE, in this order. */
  const INDEX_ENTRIES: seq<Index> := [
    NotificationIdIndex, AndroidNotificationIdIndex, GroupIdIndex,
    CollapseIdIndex, CreatedTimeIndex, ExpireTimeIndex ]

  /** The whole database as a value: the names listed in `sqlite_master`,
      and the columns, indexes and rows of the notification table. */
  datatype DbState = DbState(tables: set<string>, columns: set<Column>, indexes: set<Index>, rows: seq<Record>)

  /** Rows are kept in insertion (`_ID`) order; a table that does not exist
      has nothing in it; a column that does not exist reads as NULL; an
      index exists only on a column that does. */
  ghost predicate WellFormed(s: DbState) {
    && StrictlyIncreasing(s.rows, RowIdOf)
    && (NOTIFICATION_TABLE !in s.tables ==> s.columns == {} && s.indexes == {} && s.rows == [])
    && (ExpireTimeColumn !in s.columns ==> forall r :: r in s.rows ==> r.expire.None?)
    && (CollapseIdColumn !in s.columns ==> forall r :: r in s.rows ==> r.collapse.None?)
    && (forall i :: i in s.indexes ==> IndexedColumn(i) in s.columns)
  }

  /** SQLite's own tables, which the downgrade wipe leaves alone. */
  predicate IsInternalTable(name: string) {
    |name| >= 7 && name[..7] == "sqlite_"
  }

  // ---------------------------------------------------------------------
  // Migrations

  /** The statements the migrations run. */
  datatype Statement =
    | AddColumn(column: Column)
    | CreateIndex(index: Index)
    | BackfillExpireTime

  /** Whether SQLite accepts `st` in state `s`; `failing` names the statements
      the environment makes throw for reasons of its own (a full disk, say). */
  predicate Succeeds(s: DbState, st: Statement, failing: set<Statement>) {
    && st !in failing
    && NOTIFICATION_TABLE in s.tables
    && match st
       case AddColumn(c) => c !in s.columns
       case CreateIndex(i) => IndexedColumn(i) in s.columns
       case BackfillExpireTime => ExpireTimeColumn in s.columns
  }

  function Backfilled(r: Record): Record {
    r.(expire := Some(r.created + DEFAULT_TTL_IF_NOT_IN_PAYLOAD))
  }

  /** The effect of one `safeExecSQL`: a statement that throws changes nothing. */
  function Exec(s: DbState, st: Statement, failing: set<Statement>): DbState {
    if !Succeeds(s, st, failing) then s
    else match st
      case AddColumn(c) => s.(columns := s.columns + {c})
      case CreateIndex(i) => s.(indexes := s.indexes + {i})
      case BackfillExpireTime => s.(rows := Map(s.rows, Backfilled))
  }

  /** The statements of `plan` run one after the other. */
  function ExecAll(s: DbState, plan: seq<Statement>, failing: set<Statement>): DbState
    decreases |plan|
  {
    if plan == [] then s else ExecAll(Exec(s, plan[0], failing), plan[1..], failing)
  }

  /** Version 1 to 2: the `collapse_id` column and the group index. */
  const V1_TO_V2: seq<Statement> := [AddColumn(CollapseIdColumn), CreateIndex(GroupIdIndex)]
  /** Version 2 to 3: the `expire_time` column, its backfill and its index. */
  const V2_TO_V3: seq<Statement> := [AddColumn(ExpireTimeColumn), BackfillExpireTime, CreateIndex(ExpireTimeIndex)]

  /** The steps an upgrade from `oldVersion` runs, in order. */
  function UpgradePlan(oldVersion: int): seq<Statement> {
    (if oldVersion < 2 then V1_TO_V2 else []) + (if oldVersion < 3 then V2_TO_V3 else [])
  }

  lemma ExecPreservesWellFormed(s: DbState, st: Statement, failing: set<Statement>)
    requires WellFormed(s)
    ensures WellFormed(Exec(s, st, failing))
  {
    if Succeeds(s, st, failing) && st == BackfillExpireTime {
      var rows' := Map(s.rows, Backfilled);
      assert forall i :: 0 <= i < |rows'| ==> rows'[i].rowId == s.rows[i].rowId;
    }
  }

  lemma {:induction false} ExecAllPreservesWellFormed(s: DbState, plan: seq<Statement>, failing: set<Statement>)
    requires WellFormed(s)
    ensures WellFormed(ExecAll(s, plan, failing))
    decreases |plan|
  {
    if plan != [] {
      ExecPreservesWellFormed(s, plan[0], failing);
      ExecAllPreservesWellFormed(Exec(s, plan[0], failing), plan[1..], failing);
    }
  }

  lemma {:induction false} ExecAllAppend(s: DbState, a: seq<Statement>, b: seq<Statement>, failing: set<Statement>)
    ensures ExecAll(s, a + b, failing) == ExecAll(ExecAll(s, a, failing), b, failing)
    decreases |a|
  {
    if a == [] {
      assert a + b == b;
    } else {
      assert (a + b)[1..] == a[1..] + b;
      ExecAllAppend(Exec(s, a[0], failing), a[1..], b, failing);
    }
  }

  /** The columns a plan adds, unless the statement adding one throws. */
  ghost function AddedColumns(plan: seq<Statement>, failing: set<Statement>): set<Column> {
    set st | st in plan && st.AddColumn? && st !in failing :: st.column
  }

  /** Statement `k` of `plan` creates index `i` without throwing: the
      column it is built on was there from the start (`cols`) or was added
      by an earlier statement of the plan that did not throw. */
  ghost predicate CreatesIndex(cols: set<Column>, plan: seq<Statement>, failing: set<Statement>, i: Index) {
    exists k :: 0 <= k < |plan| && plan[k] == CreateIndex(i) && plan[k] !in failing
      && IndexedColumn(i) in cols + AddedColumns(plan[..k], failing)
  }

  lemma AddedColumnsAppend(a: seq<Statement>, b: seq<Statement>, failing: set<Statement>)
    ensures AddedColumns(a + b, failing) == AddedColumns(a, failing) + AddedColumns(b, failing)
  {
  }

  /** Every statement fails or succeeds on its own: whatever else throws, a
      column whose own statement does not throw is there afterwards, an index
      is there exactly when it was before or its statement did not throw
      and found its column, and the set of tables is untouched. */
  lemma {:induction false} ExecAllSchema(s: DbState, plan: seq<Statement>, failing: set<Statement>)
    requires NOTIFICATION_TABLE in s.tables
    ensures ExecAll(s, plan, failing).tables == s.tables
    ensures ExecAll(s, plan, failing).columns == s.columns + AddedColumns(plan, failing)
    ensures forall i :: i in ExecAll(s, plan, failing).indexes <==>
      i in s.indexes || CreatesIndex(s.columns, plan, failing, i)
    decreases |plan|
  {
    if plan != [] {
      var st, rest := plan[0], plan[1..];
      var s1 := Exec(s, st, failing);
      ExecAllSchema(s1, rest, failing);
      assert plan == [st] + rest;
      AddedColumnsAppend([st], rest, failing);
      assert s1.columns == s.columns + AddedColumns([st], failing);
      forall i ensures CreatesIndex(s.columns, plan, failing, i) <==>
        (st == CreateIndex(i) && st !in failing && IndexedColumn(i) in s.columns) || CreatesIndex(s1.columns, rest, failing, i)
      {
        CreatesIndexCons(s.columns, st, rest, failing, i);
      }
    }
  }

  /** Peeling the first statement off a plan: the index is created by that
      statement, or by a later one once that statement's column is added. */
  lemma CreatesIndexCons(cols: set<Column>, st: Statement, rest: seq<Statement>, failing: set<Statement>, i: Index)
    ensures CreatesIndex(cols, [st] + rest, failing, i) <==>
      (st == CreateIndex(i) && st !in failing && IndexedColumn(i) in cols)
      || CreatesIndex(cols + AddedColumns([st], failing), rest, failing, i)
  {
    var plan := [st] + rest;
    var cols1 := cols + AddedColumns([st], failing);
    assert plan[..0] == [];
    if CreatesIndex(cols1, rest, failing, i) {
      var k :| 0 <= k < |rest| && rest[k] == CreateIndex(i) && rest[k] !in failing
        && IndexedColumn(i) in cols1 + AddedColumns(rest[..k], failing);
      assert plan[..k + 1] == [st] + rest[..k];
      AddedColumnsAppend([st], rest[..k], failing);
      assert plan[k + 1] == rest[k];
    }
    if CreatesIndex(cols, plan, failing, i) {
      var k :| 0 <= k < |plan| && plan[k] == CreateIndex(i) && plan[k] !in failing
        && IndexedColumn(i) in cols + AddedColumns(plan[..k], failing);
      if k > 0 {
        assert plan[..k] == [st] + rest[..k - 1];
        AddedColumnsAppend([st], rest[..k - 1], failing);
        assert rest[k - 1] == plan[k];
      }
    }
  }

  /** A plan without a backfill leaves the rows alone. */
  lemma {:induction false} ExecAllKeepsRows(s: DbState, plan: seq<Statement>, failing: set<Statement>)
    requires BackfillExpireTime !in plan
    ensures ExecAll(s, plan, failing).rows == s.rows
    decreases |plan|
  {
    if plan != [] {
      ExecAllKeepsRows(Exec(s, plan[0], failing), plan[1..], failing);
    }
  }

  /** After an upgrade from a version before 3, every existing row expires
      72 hours after it was created, unless the backfill itself, or the column
      it needs, failed. */
  lemma BackfillAfterUpgrade(s: DbState, oldVersion: int, failing: set<Statement>)
    requires WellFormed(s) && NOTIFICATION_TABLE in s.tables
    requires oldVersion < 3
    requires BackfillExpireTime !in failing
    requires ExpireTimeColumn in s.columns || AddColumn(ExpireTimeColumn) !in failing
    ensures ExecAll(s, UpgradePlan(oldVersion), failing).rows == Map(s.rows, Backfilled)
    ensures forall r :: r in ExecAll(s, UpgradePlan(oldVersion), failing).rows ==>
              r.expire == Some(r.created + DEFAULT_TTL_IF_NOT_IN_PAYLOAD)
  {
    var first := if oldVersion < 2 then V1_TO_V2 else [];
    assert UpgradePlan(oldVersion) == first + V2_TO_V3;
    ExecAllAppend(s, first, V2_TO_V3, failing);
    var s1 := ExecAll(s, first, failing);
    ExecAllKeepsRows(s, first, failing);
    ExecAllSchema(s, first, failing);
    assert ExpireTimeColumn in s1.columns <==> ExpireTimeColumn in s.columns;
    var s2 := Exec(s1, AddColumn(ExpireTimeColumn), failing);
    assert ExpireTimeColumn in s2.columns && s2.rows == s.rows && NOTIFICATION_TABLE in s2.tables;
    var s3 := Exec(s2, BackfillExpireTime, failing);
    assert s3.rows == Map(s.rows, Backfilled);
    var s4 := Exec(s3, CreateIndex(ExpireTimeIndex), failing);
    assert V2_TO_V3[1..][1..][1..] == [];
    assert ExecAll(s1, V2_TO_V3, failing) == s4;
  }

  /** An upgrade from version 1 runs both steps, version 1 to 2 first; an
      upgrade from the current version runs nothing. */
  lemma UpgradeOrder()
    ensures UpgradePlan(1) == V1_TO_V2 + V2_TO_V3
    ensures UpgradePlan(2) == V2_TO_V3
    ensures UpgradePlan(DATABASE_VERSION) == []
  {
  }

  /** From version 2 with the `expire_time` column failing to be added,
      neither the backfill nor the index can take effect: SQLite refuses
      both for want of the column, and the rows stay as they were. */
  lemma UpgradeWithoutExpireColumn(s: DbState)
    requires WellFormed(s) && NOTIFICATION_TABLE in s.tables && ExpireTimeColumn !in s.columns
    ensures var after := ExecAll(s, UpgradePlan(2), {AddColumn(ExpireTimeColumn)});
      && ExpireTimeColumn !in after.columns && ExpireTimeIndex !in after.indexes && after.rows == s.rows
  {
    var failing := {AddColumn(ExpireTimeColumn)};
    var plan := UpgradePlan(2);
    assert plan == V2_TO_V3;
    ExecAllSchema(s, plan, failing);
    assert AddedColumns(plan, failing) == {};
    assert !CreatesIndex(s.columns, plan, failing, ExpireTimeIndex) by {
      forall k | 0 <= k < |plan| && plan[k] == CreateIndex(ExpireTimeIndex)
        ensures IndexedColumn(ExpireTimeIndex) !in s.columns + AddedColumns(plan[..k], failing)
      {
        assert k == 2;
        assert AddedColumns(plan[..k], failing) == {};
      }
    }
    var s1 := Exec(s, plan[0], failing);
    var s2 := Exec(s1, plan[1], failing);
    assert s1 == s && s2 == s;
    assert plan[1..][1..] == [plan[2]];
    assert ExecAll(s, plan, failing).rows == Exec(s2, plan[2], failing).rows;
  }

  /** No upgrade step creates the `collapse_id` index, so an upgraded table
      has it only if it had it before; `onCreate` builds it, so a migrated
      database and a fresh one differ by that index. */
  lemma UpgradeNeverCreatesCollapseIdIndex(s: DbState, oldVersion: int, failing: set<Statement>)
    requires NOTIFICATION_TABLE in s.tables
    ensures CollapseIdIndex in ExecAll(s, UpgradePlan(oldVersion), failing).indexes <==> CollapseIdIndex in s.indexes
    ensures CollapseIdIndex in set i | i in INDEX_ENTRIES
  {
    var plan := UpgradePlan(oldVersion);
    ExecAllSchema(s, plan, failing);
    assert forall k :: 0 <= k < |plan| ==> plan[k] != CreateIndex(CollapseIdIndex);
    assert INDEX_ENTRIES[3] == CollapseIdIndex;
  }

  // ---------------------------------------------------------------------
  // Opening with retries

  /** What one call to open the database did: whether it got a handle, how
      many attempts it made and the back-off sleeps (in ms) between them. */
  datatype OpenOutcome = OpenOutcome(success: bool, attempts: nat, sleeps: seq<nat>)

  function Sum(s: seq<nat>): nat {
    if s == [] then 0 else s[0] + Sum(s[1..])
  }

  /** The back-off sleeps after the first `n` failed attempts: n × 400 ms after attempt n. */
  function Backoff(n: nat): (r: seq<nat>)
    ensures |r| == n
    ensures forall i :: 0 <= i < n ==> r[i] == (i + 1) * DB_OPEN_RETRY_BACKOFF
  {
    seq(n, i => (i + 1) * DB_OPEN_RETRY_BACKOFF)
  }

  /** The total back-off after `n` failures is 200·n·(n+1) ms. */
  lemma {:induction false} BackoffTotal(n: nat)
    ensures Sum(Backoff(n)) == 200 * n * (n + 1)
  {
    if n > 0 {
      BackoffTotal(n - 1);
      SumSnoc(Backoff(n - 1), n * DB_OPEN_RETRY_BACKOFF);
      assert Backoff(n) == Backoff(n - 1) + [n * DB_OPEN_RETRY_BACKOFF];
    }
  }

  lemma {:induction false} SumSnoc(s: seq<nat>, x: nat)
    ensures Sum(s + [x]) == Sum(s) + x
  {
    if s != [] {
      assert (s + [x])[1..] == s[1..] + [x];
      SumSnoc(s[1..], x);
    }
  }

  /** `getWritableDbWithRetries` / `getReadableDbWithRetries` (the two are the
      same loop). The platform's open fails `failuresBeforeSuccess` times in a
      row and then succeeds. At most five attempts are made; after failed
      attempt n < 5 the loop sleeps n × 400 ms; the fifth failure is rethrown. */
  method OpenWithRetries(failuresBeforeSuccess: nat) returns (o: OpenOutcome)
    ensures o.success <==> failuresBeforeSuccess < DB_OPEN_RETRY_MAX
    ensures o.attempts == if o.success then failuresBeforeSuccess + 1 else DB_OPEN_RETRY_MAX
    ensures o.sleeps == Backoff(o.attempts - 1)
    ensures Sum(o.sleeps) <= 4000
  {
    var count := 0;
    var sleeps: seq<nat> := [];
    while true
      invariant 0 <= count < DB_OPEN_RETRY_MAX && count <= failuresBeforeSuccess
      invariant sleeps == Backoff(count)
      decreases DB_OPEN_RETRY_MAX - count
    {
      if count >= failuresBeforeSuccess {
        // this attempt gets a handle
        o := OpenOutcome(true, count + 1, sleeps);
        break;
      }
      count := count + 1;
      if count >= DB_OPEN_RETRY_MAX {
        o := OpenOutcome(false, count, sleeps);
        break;
      }
      sleeps := sleeps + [count * DB_OPEN_RETRY_BACKOFF];
    }
    BackoffTotal(o.attempts - 1);
  }

  /** The worst case: five failures, four sleeps of 400, 800, 1200 and 1600 ms. */
  lemma WorstCaseBackoff()
    ensures Backoff(DB_OPEN_RETRY_MAX - 1) == [400, 800, 1200, 1600]
    ensures Sum(Backoff(DB_OPEN_RETRY_MAX - 1)) == 4000
  {
    BackoffTotal(4);
  }

  // ---------------------------------------------------------------------
  // The "recent, uninteracted" selection

  /** A WHERE clause over the table: `created_time > createdAfter`, not
      dismissed, opened or a summary; `expire_time > t` when `expireAfter` is
      Some(t) (a NULL expire time never passes); and the platform id not among
      `excludedIds`. */
  datatype Where = Where(createdAfter: int, expireAfter: Option<int>, excludedIds: seq<int>)

  predicate Matches(w: Where, r: Record) {
    && r.created > w.createdAfter
    && !r.isDismissed && !r.isOpened && !r.isSummary
    && (w.expireAfter.Some? ==> r.expire.Some? && r.expire.value > w.expireAfter.value)
    && r.androidId !in w.excludedIds
  }

  /** The current time in whole seconds, from a millisecond clock. */
  function NowSeconds(nowMillis: nat): int { nowMillis / 1000 }

  /** `recentUninteractedWithNotificationsWhere`: created within the last
      week, uninteracted, not a summary and, when the TTL preference is on,
      not yet expired. */
  function RecentUninteractedWhere(nowMillis: nat, useTtl: bool): (w: Where)
    ensures forall r {:trigger Matches(w, r)} :: Matches(w, r) <==>
      && r.created > NowSeconds(nowMillis) - ONE_WEEK_SECONDS
      && !r.isDismissed && !r.isOpened && !r.isSummary
      && (useTtl ==> r.expire.Some? && r.expire.value > NowSeconds(nowMillis))
  {
    var now := NowSeconds(nowMillis);
    Where(now - ONE_WEEK_SECONDS, if useTtl then Some(now) else None, [])
  }

  /** The rows a query with WHERE clause `w` returns, in `_ID` order. */
  function Select(rows: seq<Record>, w: Where): seq<Record> {
    Filter(rows, (r: Record) => Matches(w, r))
  }

  // ---------------------------------------------------------------------
  // The database handle

  class Db {
    var tables: set<string>
    var columns: set<Column>
    var indexes: set<Index>
    var rows: seq<Record>

    function State(): DbState
      reads this
    {
      DbState(tables, columns, indexes, rows)
    }

    ghost predicate Valid()
      reads this
    {
      WellFormed(State())
    }

    constructor (s: DbState)
      requires WellFormed(s)
      ensures Valid() && State() == s
    {
      tables, columns, indexes, rows := s.tables, s.columns, s.indexes, s.rows;
    }

    /** `safeExecSQL`: runs one statement; an exception from it is swallowed. */
    method SafeExecSql(st: Statement, failing: set<Statement>)
      requires Valid()
      modifies this
      ensures Valid()
      ensures State() == Exec(old(State()), st, failing)
    {
      ExecPreservesWellFormed(State(), st, failing);
      if Succeeds(State(), st, failing) {
        match st
        case AddColumn(c) => columns := columns + {c};
        case CreateIndex(i) => indexes := indexes + {i};
        case BackfillExpireTime => rows := Map(rows, Backfilled);
      }
    }

    method UpgradeFromV1ToV2(failing: set<Statement>)
      requires Valid()
      modifies this
      ensures Valid()
      ensures State() == ExecAll(old(State()), V1_TO_V2, failing)
    {
      SafeExecSql(AddColumn(CollapseIdColumn), failing);
      SafeExecSql(CreateIndex(GroupIdIndex), failing);
      assert V1_TO_V2[1..][1..] == [];
    }

    method UpgradeFromV2ToV3(failing: set<Statement>)
      requires Valid()
      modifies this
      ensures Valid()
      ensures State() == ExecAll(old(State()), V2_TO_V3, failing)
    {
      SafeExecSql(AddColumn(ExpireTimeColumn), failing);
      SafeExecSql(BackfillExpireTime, failing);
      SafeExecSql(CreateIndex(ExpireTimeIndex), failing);
      assert V2_TO_V3[1..][1..][1..] == [];
    }

    /** `onUpgrade` with `internalOnUpgrade`: the version 1 to 2 step when
        `oldVersion < 2`, then the version 2 to 3 step when `oldVersion < 3`.
        Every statement swallows its own failure, so nothing escapes. */
    method OnUpgrade(oldVersion: int, newVersion: int, failing: set<Statement>)
      requires Valid()
      modifies this
      ensures Valid()
      ensures State() == ExecAll(old(State()), UpgradePlan(oldVersion), failing)
    {
      ghost var s0 := State();
      if oldVersion < 2 {
        UpgradeFromV1ToV2(failing);
      }
      ghost var s1 := State();
      assert s1 == ExecAll(s0, if oldVersion < 2 then V1_TO_V2 else [], failing);
      if oldVersion < 3 {
        UpgradeFromV2ToV3(failing);
      }
      assert State() == ExecAll(s1, if oldVersion < 3 then V2_TO_V3 else [], failing);
      ExecAllAppend(s0, if oldVersion < 2 then V1_TO_V2 else [], if oldVersion < 3 then V2_TO_V3 else [], failing);
    }

    /** `onCreate`: the table with every column, then the six indexes. The
        framework calls it only on a database without the table. */
    method OnCreate()
      requires Valid() && NOTIFICATION_TABLE !in tables
      modifies this
      ensures Valid()
      ensures tables == old(tables) + {NOTIFICATION_TABLE}
      ensures columns == ALL_COLUMNS && rows == []
      ensures indexes == set i | i in INDEX_ENTRIES
    {
      tables := tables + {NOTIFICATION_TABLE};
      columns := ALL_COLUMNS;
      rows := [];
      indexes := {};
      for k := 0 to |INDEX_ENTRIES|
        invariant tables == old(tables) + {NOTIFICATION_TABLE}
        invariant columns == ALL_COLUMNS && rows == []
        invariant indexes == set i | i in INDEX_ENTRIES[..k]
      {
        indexes := indexes + {INDEX_ENTRIES[k]};
        assert INDEX_ENTRIES[..k + 1] == INDEX_ENTRIES[..k] + [INDEX_ENTRIES[k]];
      }
      assert INDEX_ENTRIES[..|INDEX_ENTRIES|] == INDEX_ENTRIES;
    }

    /** `DROP TABLE IF EXISTS name`. */
    method DropTable(name: string)
      requires Valid()
      modifies this
      ensures Valid()
      ensures tables == old(tables) - {name}
      ensures name == NOTIFICATION_TABLE ==> columns == {} && indexes == {} && rows == []
      ensures name != NOTIFICATION_TABLE ==> columns == old(columns) && indexes == old(indexes) && rows == old(rows)
    {
      tables := tables - {name};
      if name == NOTIFICATION_TABLE {
        columns, indexes, rows := {}, {}, [];
      }
    }

    /** `onDowngrade`: lists the tables of `sqlite_master`, drops every one
        whose name does not start with `sqlite_`, then recreates the schema.
        Whatever rows there were are gone. */
    method OnDowngrade(oldVersion: int, newVersion: int)
      requires Valid()
      modifies this
      ensures Valid()
      ensures tables == (set t | t in old(tables) && IsInternalTable(t)) + {NOTIFICATION_TABLE}
      ensures columns == ALL_COLUMNS && indexes == (set i | i in INDEX_ENTRIES)
      ensures rows == []
    {
      var master := tables;
      // the cursor over sqlite_master, read into a list
      var names: seq<string> := [];
      var unread := master;
      while unread != {}
        invariant unread <= master
        invariant forall t :: t in names <==> t in master && t !in unread
        decreases unread
      {
        var t :| t in unread;
        names := names + [t];
        unread := unread - {t};
      }
      for j := 0 to |names|
        invariant Valid()
        invariant tables == master - (set t | t in names[..j] && !IsInternalTable(t))
      {
        var name := names[j];
        assert names[..j + 1] == names[..j] + [name];
        if !IsInternalTable(name) {
          DropTable(name);
        }
      }
      assert names[..|names|] == names;
      assert tables == set t | t in master && IsInternalTable(t);
      assert NOTIFICATION_TABLE[..7][0] != "sqlite_"[0];
      OnCreate();
    }
  }
}
