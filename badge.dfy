/** The badge counter (BadgeCountUpdater): a process-wide, resolve-once
    badge setting, and the count of unread notifications handed to the
    launcher, taken from the shade when the platform can list it and from
    the store otherwise. */
module BadgeCounter {
  import opened Wrappers
  import opened Seqs
  import opened Store
  import opened Platform
  import opened LimitManager

  const UNRESOLVED := -1
  const DISABLED := 0
  const ENABLED := 1

  /** What one meta-data lookup resolves the setting to: disabled when the
      lookup throws or the value is "DISABLE", enabled otherwise (including a
      missing bundle or a missing value). */
  function ResolveBadgeSetting(meta: MetaData): (r: int)
    ensures r == DISABLED || r == ENABLED
    ensures r == DISABLED <==> meta == MetaDataThrows || meta == Bundle(Some("DISABLE"))
  {
    match meta
    case MetaDataThrows => DISABLED
    case NoBundle => ENABLED
    case Bundle(v) => if v == Some("DISABLE") then DISABLED else ENABLED
  }

  /** The cache after a read of the setting: resolved from `meta` on the
      first read only. */
  function CachedSetting(cache: int, meta: MetaData): int {
    if cache == UNRESOLVED then ResolveBadgeSetting(meta) else cache
  }

  /** Once the cache has left UNRESOLVED, later reads ignore the meta-data. */
  lemma SettingResolvedOnce(cache: int, first: MetaData, later: MetaData)
    ensures CachedSetting(cache, first) != UNRESOLVED
    ensures cache != UNRESOLVED ==> CachedSetting(cache, first) == cache
    ensures CachedSetting(CachedSetting(cache, first), later) == CachedSetting(cache, first)
  {
  }

  /** The `runningCount` of `updateStandard`: the shade entries that are not
      group summaries. */
  function CountNonSummary(shade: seq<ActiveNotif>): (n: nat)
    ensures n <= |shade|
    ensures n == |shade| <==> forall i :: 0 <= i < |shade| ==> !shade[i].isSummary
  {
    if shade == [] then 0
    else CountNonSummary(shade[..|shade| - 1]) + (if shade[|shade| - 1].isSummary then 0 else 1)
  }

  /** The standard count is the number of non-summary entries of the shade. */
  lemma {:induction false} CountNonSummaryIsFilter(shade: seq<ActiveNotif>)
    ensures CountNonSummary(shade) == |Filter(shade, NotGroupSummary)|
  {
    if shade != [] {
      var init, last := shade[..|shade| - 1], shade[|shade| - 1];
      CountNonSummaryIsFilter(init);
      assert shade == init + [last];
      FilterAppend(init, [last], NotGroupSummary);
      assert [last][1..] == [];
    }
  }

  /** The `updateFallback` count: the matching rows of the store, at most 49 of them. */
  function FallbackCount(rows: seq<Record>, nowMillis: nat, useTtl: bool): nat {
    |Take(Select(rows, RecentUninteractedWhere(nowMillis, useTtl)), MAX_NUMBER_OF_NOTIFICATIONS)|
  }

  /** The fallback count is the number of distinct store rows the "recent,
      uninteracted" predicate admits, capped at 49. */
  lemma FallbackCountIsCappedCardinality(rows: seq<Record>, nowMillis: nat, useTtl: bool)
    requires StrictlyIncreasing(rows, RowIdOf)
    ensures FallbackCount(rows, nowMillis, useTtl) ==
      Min(|set r | r in rows && Matches(RecentUninteractedWhere(nowMillis, useTtl), r)|, MAX_NUMBER_OF_NOTIFICATIONS)
  {
    var w := RecentUninteractedWhere(nowMillis, useTtl);
    var sel := Select(rows, w);
    FilterIsSubsequence(rows, (r: Record) => Matches(w, r), RowIdOf);
    DistinctCardinality(sel, RowIdOf);
    assert (set r | r in sel) == (set r | r in rows && Matches(w, r));
  }

  /** The count `update` hands on, or None when `getActiveNotifications` throws. */
  function BadgeCountFor(rows: seq<Record>, env: Env): Option<int> {
    if env.atLeastM then
      (if env.shade.None? then None else Some(CountNonSummary(env.shade.value)))
    else Some(FallbackCount(rows, env.nowMillis, env.ttlFilter))
  }

  /** The counts `update` gets applied, starting from the cache value `cache`. */
  function BadgeApplied(cache: int, rows: seq<Record>, env: Env): seq<int> {
    var setting := CachedSetting(cache, env.badgeMeta);
    var count := BadgeCountFor(rows, env);
    if setting == ENABLED && env.notificationsEnabled && count.Some? && env.badgeApplyOk
    then [count.value] else []
  }

  class Badges {
    /** The meta-data cache: UNRESOLVED until first read, then DISABLED or ENABLED. */
    var badgesEnabled: int

    ghost predicate Valid()
      reads this
    {
      badgesEnabled == UNRESOLVED || badgesEnabled == DISABLED || badgesEnabled == ENABLED
    }

    constructor ()
      ensures Valid() && badgesEnabled == UNRESOLVED
    {
      badgesEnabled := UNRESOLVED;
    }

    /** `areBadgeSettingsEnabled`: reads the meta-data only while unresolved. */
    method AreBadgeSettingsEnabled(meta: MetaData) returns (enabled: bool)
      requires Valid()
      modifies this
      ensures Valid()
      ensures badgesEnabled == CachedSetting(old(badgesEnabled), meta)
      ensures enabled <==> badgesEnabled == ENABLED
    {
      if badgesEnabled != UNRESOLVED {
        return badgesEnabled == ENABLED;
      }
      badgesEnabled := ResolveBadgeSetting(meta);
      enabled := badgesEnabled == ENABLED;
    }

    /** `areBadgesEnabled`: the setting, and the platform permits notifications. */
    method AreBadgesEnabled(meta: MetaData, notificationsEnabled: bool) returns (enabled: bool)
      requires Valid()
      modifies this
      ensures Valid()
      ensures badgesEnabled == CachedSetting(old(badgesEnabled), meta)
      ensures enabled <==> badgesEnabled == ENABLED && notificationsEnabled
    {
      enabled := AreBadgeSettingsEnabled(meta);
      enabled := enabled && notificationsEnabled;
    }

    /** `updateCount`: nothing when the setting is disabled; a launcher that
        refuses the count is ignored. */
    method UpdateCount(count: int, meta: MetaData, applyOk: bool, os: Os)
      requires Valid()
      modifies this, os`badgeCounts
      ensures Valid()
      ensures badgesEnabled == CachedSetting(old(badgesEnabled), meta)
      ensures os.badgeCounts == old(os.badgeCounts) + (if badgesEnabled == ENABLED && applyOk then [count] else [])
    {
      var enabled := AreBadgeSettingsEnabled(meta);
      if !enabled {
        return;
      }
      if applyOk {
        os.badgeCounts := os.badgeCounts + [count];
      }
    }

    /** `updateStandard`: counts the non-summary entries of the shade. When
        `getActiveNotifications` throws (`shade` is None) the exception
        propagates: `threw` is set and nothing is applied. */
    method UpdateStandard(shade: Option<seq<ActiveNotif>>, meta: MetaData, applyOk: bool, os: Os)
      returns (threw: bool)
      requires Valid()
      modifies this, os`badgeCounts
      ensures Valid()
      ensures threw <==> shade.None?
      ensures threw ==> badgesEnabled == old(badgesEnabled) && os.badgeCounts == old(os.badgeCounts)
      ensures !threw ==> badgesEnabled == CachedSetting(old(badgesEnabled), meta)
      ensures !threw ==>
        os.badgeCounts == old(os.badgeCounts) +
          (if badgesEnabled == ENABLED && applyOk then [CountNonSummary(shade.value)] else [])
    {
      if shade.None? {
        return true;
      }
      var active := shade.value;
      var runningCount := 0;
      for i := 0 to |active|
        invariant runningCount == CountNonSummary(active[..i])
      {
        assert active[..i + 1][..i] == active[..i];
        if IsGroupSummary(active[i]) {
          continue;
        }
        runningCount := runningCount + 1;
      }
      assert active[..|active|] == active;
      UpdateCount(runningCount, meta, applyOk, os);
      threw := false;
    }

    /** `updateFallback`: counts the store rows of the "recent, uninteracted"
        predicate, at most 49. */
    method UpdateFallback(rows: seq<Record>, env: Env, os: Os)
      requires Valid()
      modifies this, os`badgeCounts
      ensures Valid()
      ensures badgesEnabled == CachedSetting(old(badgesEnabled), env.badgeMeta)
      ensures os.badgeCounts == old(os.badgeCounts) +
        (if badgesEnabled == ENABLED && env.badgeApplyOk then [FallbackCount(rows, env.nowMillis, env.ttlFilter)] else [])
    {
      var cursor := Take(Select(rows, RecentUninteractedWhere(env.nowMillis, env.ttlFilter)), MAX_NUMBER_OF_NOTIFICATIONS);
      UpdateCount(|cursor|, env.badgeMeta, env.badgeApplyOk, os);
    }

    /** `update`: nothing unless badges are enabled; then the standard count
        from M on, the store fallback before. `threw` reports the exception
        `updateStandard` lets escape. */
    method Update(rows: seq<Record>, env: Env, os: Os) returns (threw: bool)
      requires Valid()
      modifies this, os`badgeCounts
      ensures Valid()
      ensures badgesEnabled == CachedSetting(old(badgesEnabled), env.badgeMeta)
      ensures os.badgeCounts == old(os.badgeCounts) + BadgeApplied(old(badgesEnabled), rows, env)
      ensures threw <==> badgesEnabled == ENABLED && env.notificationsEnabled && BadgeCountFor(rows, env).None?
    {
      var enabled := AreBadgesEnabled(env.badgeMeta, env.notificationsEnabled);
      if !enabled {
        return false;
      }
      if env.atLeastM {
        threw := UpdateStandard(env.shade, env.badgeMeta, env.badgeApplyOk, os);
      } else {
        UpdateFallback(rows, env, os);
        threw := false;
      }
    }
  }
}
