/** The limit enforcer (NotificationLimitManager): before `k` new
    notifications are shown, cancel the oldest ones, aiming to keep the
    shade within the platform's ceiling of 49. The standard path reaches
    that aim only when the non-summary entries have distinct `when`s. */
module LimitManager {
  import opened Wrappers
  import opened Seqs
  import opened Store
  import opened Platform

  /** The platform refuses a package's 50th notification. */
  const MAX_NUMBER_OF_NOTIFICATIONS := 49
  const MAX_NUMBER_OF_NOTIFICATIONS_STR := "49"

  /** `isGroupSummary`: the entry carries FLAG_GROUP_SUMMARY. */
  predicate IsGroupSummary(a: ActiveNotif) { a.isSummary }

  predicate NotGroupSummary(a: ActiveNotif) { !IsGroupSummary(a) }

  // ---------------------------------------------------------------------
  // Decimal strings, for the fallback's LIMIT clause

  predicate IsDigits(s: string) {
    forall i :: 0 <= i < |s| ==> '0' <= s[i] <= '9'
  }

  function DigitChar(d: nat): (c: char)
    requires d < 10
    ensures '0' <= c <= '9' && c as int - '0' as int == d
  {
    ('0' as int + d) as char
  }

  /** `Integer.toString` of a non-negative int. */
  function DecimalString(n: nat): (s: string)
    ensures |s| >= 1 && IsDigits(s)
    decreases n
  {
    if n < 10 then [DigitChar(n)] else DecimalString(n / 10) + [DigitChar(n % 10)]
  }

  /** The number a string of digits denotes, as SQLite reads a LIMIT. */
  function DecimalValue(s: string): nat
    requires IsDigits(s)
    decreases |s|
  {
    if s == [] then 0 else DecimalValue(s[..|s| - 1]) * 10 + (s[|s| - 1] as int - '0' as int)
  }

  function Pow10(n: nat): (p: nat)
    ensures p >= 1
  {
    if n == 0 then 1 else 10 * Pow10(n - 1)
  }

  lemma {:induction false} DecimalRoundTrip(n: nat)
    ensures DecimalValue(DecimalString(n)) == n
    decreases n
  {
    if n >= 10 {
      DecimalRoundTrip(n / 10);
      var s := DecimalString(n);
      assert s[..|s| - 1] == DecimalString(n / 10);
    }
  }

  /** Writing digits after a number multiplies it by a power of ten. */
  lemma {:induction false} DecimalValueAppend(a: string, b: string)
    requires IsDigits(a) && IsDigits(b)
    ensures IsDigits(a + b)
    ensures DecimalValue(a + b) == DecimalValue(a) * Pow10(|b|) + DecimalValue(b)
    decreases |b|
  {
    var ab := a + b;
    assert IsDigits(ab) by {
      forall i | 0 <= i < |ab| ensures '0' <= ab[i] <= '9' {
        if i < |a| { assert ab[i] == a[i]; } else { assert ab[i] == b[i - |a|]; }
      }
    }
    if b == [] {
      assert ab == a;
    } else {
      var b' := b[..|b| - 1];
      var d := b[|b| - 1] as int - '0' as int;
      assert IsDigits(b');
      DecimalValueAppend(a, b');
      assert ab[..|ab| - 1] == a + b';
      assert ab[|ab| - 1] == b[|b| - 1];
      var x, p, y := DecimalValue(a), Pow10(|b'|), DecimalValue(b');
      assert DecimalValue(ab) == (x * p + y) * 10 + d;
      assert DecimalValue(b) == y * 10 + d;
      assert Pow10(|b|) == 10 * p;
      Distribute(x, p, y, d);
    }
  }

  lemma Distribute(x: int, p: int, y: int, d: int)
    ensures (x * p + y) * 10 + d == x * (10 * p) + (y * 10 + d)
  {
  }

  /** The fallback's LIMIT: the text "49" followed by the digits of `k`. */
  function FallbackLimitString(k: nat): string {
    MAX_NUMBER_OF_NOTIFICATIONS_STR + DecimalString(k)
  }

  function FallbackLimit(k: nat): nat {
    assert IsDigits(MAX_NUMBER_OF_NOTIFICATIONS_STR);
    DecimalValueAppend(MAX_NUMBER_OF_NOTIFICATIONS_STR, DecimalString(k));
    DecimalValue(FallbackLimitString(k))
  }

  /** The LIMIT is 49·10^d + k, where d is the number of digits of `k` — not
      49 + k — and so never below 490 + k. */
  lemma FallbackLimitValue(k: nat)
    ensures FallbackLimit(k) == MAX_NUMBER_OF_NOTIFICATIONS * Pow10(|DecimalString(k)|) + k
    ensures FallbackLimit(k) >= 10 * MAX_NUMBER_OF_NOTIFICATIONS + k
  {
    var d := DecimalString(k);
    assert IsDigits(MAX_NUMBER_OF_NOTIFICATIONS_STR);
    DecimalValueAppend(MAX_NUMBER_OF_NOTIFICATIONS_STR, d);
    DecimalRoundTrip(k);
    assert DecimalValue(MAX_NUMBER_OF_NOTIFICATIONS_STR) == 49 by {
      assert MAX_NUMBER_OF_NOTIFICATIONS_STR[..1] == "4";
      assert "4"[..0] == [];
    }
    assert Pow10(|d|) >= 10 by {
      assert Pow10(|d|) == 10 * Pow10(|d| - 1);
    }
  }

  /** For k = 1 the query asks for 491 rows. */
  lemma FallbackLimitOfOne()
    ensures FallbackLimitString(1) == "491"
    ensures FallbackLimit(1) == 491
  {
    FallbackLimitValue(1);
    assert DecimalString(1) == "1";
  }

  // ---------------------------------------------------------------------
  // The standard path: the shade as the platform reports it

  /** One entry of the `TreeMap<Long, Integer>`: a `when` and a platform id. */
  datatype Entry = Entry(when: int, id: int)

  function IdOf(e: Entry): int { e.id }

  /** A TreeMap's entries, in ascending key order, each key once. */
  ghost predicate SortedByWhen(m: seq<Entry>) {
    forall i, j :: 0 <= i < j < |m| ==> m[i].when < m[j].when
  }

  predicate HasKey(m: seq<Entry>, when: int) {
    exists i :: 0 <= i < |m| && m[i].when == when
  }

  /** `TreeMap.put`: the entry for `when` is replaced, or added in key order. */
  function Put(m: seq<Entry>, when: int, id: int): (r: seq<Entry>)
    ensures |r| <= |m| + 1
    ensures forall e :: e in r ==> e in m || e == Entry(when, id)
  {
    if m == [] then [Entry(when, id)]
    else if when < m[0].when then [Entry(when, id)] + m
    else if when == m[0].when then [Entry(when, id)] + m[1..]
    else [m[0]] + Put(m[1..], when, id)
  }

  /** In a sorted map every entry after the first has a larger key. */
  lemma AfterFirst(m: seq<Entry>)
    requires SortedByWhen(m) && m != []
    ensures SortedByWhen(m[1..])
    ensures forall e :: e in m[1..] ==> m[0].when < e.when
  {
    forall e | e in m[1..] ensures m[0].when < e.when {
      var i :| 0 <= i < |m[1..]| && m[1..][i] == e;
      assert m[i + 1] == e;
    }
  }

  /** `Put` keeps a map sorted. */
  lemma {:induction false} PutSorted(m: seq<Entry>, when: int, id: int)
    requires SortedByWhen(m)
    ensures SortedByWhen(Put(m, when, id))
  {
    if m != [] && when > m[0].when {
      AfterFirst(m);
      PutSorted(m[1..], when, id);
      var t := Put(m[1..], when, id);
      forall j | 0 <= j < |t| ensures m[0].when < t[j].when {
        assert t[j] in t;
      }
    } else if m != [] && when == m[0].when {
      AfterFirst(m);
    }
  }

  /** On a sorted map, `Put` keeps the entries of the other keys and holds the
      new one, and nothing else. */
  lemma {:induction false} PutMembers(m: seq<Entry>, when: int, id: int)
    requires SortedByWhen(m)
    ensures forall e :: e in Put(m, when, id) <==> (e in m && e.when != when) || e == Entry(when, id)
  {
    if m != [] {
      AfterFirst(m);
      if when > m[0].when {
        PutMembers(m[1..], when, id);
        assert m == [m[0]] + m[1..];
      } else if when < m[0].when {
        assert forall e :: e in m ==> e == m[0] || e in m[1..];
      }
    }
  }

  lemma HasKeyMember(m: seq<Entry>, w: int)
    ensures HasKey(m, w) <==> exists e :: e in m && e.when == w
  {
    if HasKey(m, w) {
      var i :| 0 <= i < |m| && m[i].when == w;
      assert m[i] in m;
    }
  }

  /** On a sorted map, `Put` grows by one exactly when its key is new. */
  lemma {:induction false} PutSize(m: seq<Entry>, when: int, id: int)
    requires SortedByWhen(m)
    ensures |Put(m, when, id)| == if HasKey(m, when) then |m| else |m| + 1
  {
    HasKeyMember(m, when);
    if m != [] {
      AfterFirst(m);
      HasKeyMember(m[1..], when);
      if when > m[0].when {
        PutSize(m[1..], when, id);
        assert forall e :: e in m ==> e == m[0] || e in m[1..];
      } else if when < m[0].when {
        assert forall e :: e in m ==> e == m[0] || e in m[1..];
      }
    }
  }

  /** The three facts about `Put` on a sorted map. */
  lemma PutFacts(m: seq<Entry>, when: int, id: int)
    requires SortedByWhen(m)
    ensures SortedByWhen(Put(m, when, id))
    ensures forall e :: e in Put(m, when, id) <==> (e in m && e.when != when) || e == Entry(when, id)
    ensures forall w :: HasKey(Put(m, when, id), w) <==> HasKey(m, w) || w == when
    ensures |Put(m, when, id)| == if HasKey(m, when) then |m| else |m| + 1
  {
    PutSorted(m, when, id);
    PutMembers(m, when, id);
    PutSize(m, when, id);
    forall w ensures HasKey(Put(m, when, id), w) <==> HasKey(m, w) || w == when {
      HasKeyMember(m, w);
      HasKeyMember(Put(m, when, id), w);
    }
  }

  /** The TreeMap of `clearOldestOverLimitStandard`, `when` to platform id
      over the non-summary entries, filled in shade order: a later entry with
      the same `when` replaces an earlier one. */
  function WhenMap(shade: seq<ActiveNotif>): (m: seq<Entry>)
    ensures SortedByWhen(m)
  {
    if shade == [] then []
    else
      var m := WhenMap(shade[..|shade| - 1]);
      var a := shade[|shade| - 1];
      if IsGroupSummary(a) then m
      else
        PutSorted(m, a.when, a.id);
        Put(m, a.when, a.id)
  }

  /** Entry `i` of the shade is non-summary with `when` w. */
  ghost predicate NonSummaryAt(shade: seq<ActiveNotif>, i: int, w: int) {
    0 <= i < |shade| && !shade[i].isSummary && shade[i].when == w
  }

  /** The position of the last non-summary entry with `when` w, if any. */
  function LastIndexFor(shade: seq<ActiveNotif>, w: int): (r: Option<nat>)
    ensures r.Some? ==> NonSummaryAt(shade, r.value, w)
    ensures r.Some? ==> forall j :: r.value < j < |shade| ==> !NonSummaryAt(shade, j, w)
    ensures r.None? ==> forall j :: 0 <= j < |shade| ==> !NonSummaryAt(shade, j, w)
  {
    if shade == [] then None
    else
      var last := shade[|shade| - 1];
      if !last.isSummary && last.when == w then Some(|shade| - 1)
      else
        assert forall j :: 0 <= j < |shade| - 1 ==>
          (NonSummaryAt(shade[..|shade| - 1], j, w) <==> NonSummaryAt(shade, j, w));
        assert !NonSummaryAt(shade, |shade| - 1, w);
        LastIndexFor(shade[..|shade| - 1], w)
  }

  /** The map holds (w, id) exactly when the last non-summary entry with
      `when` w has id `id`: a later put replaces an earlier one. */
  lemma {:induction false} WhenMapLastWins(shade: seq<ActiveNotif>, e: Entry)
    ensures e in WhenMap(shade) <==>
      LastIndexFor(shade, e.when).Some? && shade[LastIndexFor(shade, e.when).value].id == e.id
  {
    if shade != [] {
      var init, last := shade[..|shade| - 1], shade[|shade| - 1];
      WhenMapLastWins(init, e);
      if !last.isSummary {
        PutFacts(WhenMap(init), last.when, last.id);
      }
      var li := LastIndexFor(init, e.when);
      if li.Some? {
        assert init[li.value] == shade[li.value];
      }
    }
  }

  /** The keys of the map are the `when`s of the non-summary entries. */
  lemma {:induction false} WhenMapKeys(shade: seq<ActiveNotif>, w: int)
    ensures HasKey(WhenMap(shade), w) <==> LastIndexFor(shade, w).Some?
    ensures HasKey(WhenMap(shade), w) <==> exists i :: NonSummaryAt(shade, i, w)
  {
    if shade != [] {
      var init, last := shade[..|shade| - 1], shade[|shade| - 1];
      WhenMapKeys(init, w);
      if !last.isSummary {
        PutFacts(WhenMap(init), last.when, last.id);
      }
    }
    var r := LastIndexFor(shade, w);
    if r.Some? {
      assert NonSummaryAt(shade, r.value, w);
    }
  }

  /** No two non-summary entries of the shade share a `when`. */
  ghost predicate DistinctWhens(shade: seq<ActiveNotif>) {
    forall i, j :: 0 <= i < j < |shade| && !shade[i].isSummary && !shade[j].isSummary ==>
      shade[i].when != shade[j].when
  }

  /** With pairwise distinct `when`s, every non-summary entry has its own key. */
  lemma {:induction false} WhenMapSize(shade: seq<ActiveNotif>)
    requires DistinctWhens(shade)
    ensures |WhenMap(shade)| == |Filter(shade, NotGroupSummary)|
  {
    if shade != [] {
      var init, last := shade[..|shade| - 1], shade[|shade| - 1];
      assert forall i :: 0 <= i < |init| ==> init[i] == shade[i];
      WhenMapSize(init);
      assert shade == init + [last];
      FilterAppend(init, [last], NotGroupSummary);
      assert [last][1..] == [];
      if !last.isSummary {
        WhenMapKeys(init, last.when);
        assert !exists i :: NonSummaryAt(init, i, last.when);
        PutFacts(WhenMap(init), last.when, last.id);
      }
    }
  }

  /** The entries the standard path cancels, oldest `when` first: as many as
      the overflow |shade| − 49 + k, when it is positive. */
  function StandardCancelEntries(shade: seq<ActiveNotif>, k: int): seq<Entry> {
    var toClear := |shade| - MAX_NUMBER_OF_NOTIFICATIONS + k;
    if toClear < 1 then [] else Take(WhenMap(shade), toClear)
  }

  /** The ids the standard path cancels, in order. */
  function StandardCancels(shade: seq<ActiveNotif>, k: int): seq<int> {
    Map(StandardCancelEntries(shade, k), IdOf)
  }

  /** The cancel loop both paths share: cancel the id of each item in turn,
      stopping once `notifsToClear` has counted down to 0. */
  method CancelFirst<T>(items: seq<T>, id: T -> int, notifsToClear: int, os: Os)
    requires notifsToClear >= 1
    modifies os`cancelled
    ensures os.cancelled == old(os.cancelled) + Map(Take(items, notifsToClear), id)
  {
    var left := notifsToClear;
    var n := 0;
    while n < |items|
      invariant 0 <= n <= |items| && n < notifsToClear
      invariant left == notifsToClear - n
      invariant os.cancelled == old(os.cancelled) + Map(items[..n], id)
    {
      os.cancelled := os.cancelled + [id(items[n])];
      assert items[..n + 1] == items[..n] + [items[n]];
      MapSnoc(items[..n], items[n], id);
      n := n + 1;
      left := left - 1;
      if left <= 0 {
        break;
      }
    }
    assert items[..n] == Take(items, notifsToClear);
  }

  /** `clearOldestOverLimitStandard`, over a shade listing that did not throw. */
  method ClearOldestOverLimitStandard(active: seq<ActiveNotif>, k: int, os: Os)
    modifies os`cancelled
    ensures os.cancelled == old(os.cancelled) + StandardCancels(active, k)
  {
    var notifsToClear := |active| - MAX_NUMBER_OF_NOTIFICATIONS + k;
    if notifsToClear < 1 {
      return;
    }
    var activeNotifIds: seq<Entry> := [];
    for i := 0 to |active|
      invariant activeNotifIds == WhenMap(active[..i])
    {
      assert active[..i + 1][..i] == active[..i];
      if IsGroupSummary(active[i]) {
        continue;
      }
      activeNotifIds := Put(activeNotifIds, active[i].when, active[i].id);
    }
    assert active[..|active|] == active;
    // the TreeMap's values in ascending key order
    CancelFirst(activeNotifIds, IdOf, notifsToClear, os);
  }

  /** The standard path cancels only the last non-summary entry posted at
      each of the cancelled instants. */
  lemma StandardCancelsAreLastPosted(shade: seq<ActiveNotif>, k: int)
    ensures forall c :: c in StandardCancelEntries(shade, k) ==>
      LastIndexFor(shade, c.when).Some? && shade[LastIndexFor(shade, c.when).value].id == c.id
  {
    forall c | c in StandardCancelEntries(shade, k)
      ensures LastIndexFor(shade, c.when).Some? && shade[LastIndexFor(shade, c.when).value].id == c.id
    {
      WhenMapLastWins(shade, c);
    }
  }

  /** The standard path cancels oldest `when` first: what it cancels is in
      ascending order, at most the overflow, and every entry it leaves in the
      map is newer than every entry it cancels. */
  lemma StandardCancelsOldestFirst(shade: seq<ActiveNotif>, k: int)
    ensures |StandardCancelEntries(shade, k)| <= Max0(|shade| - MAX_NUMBER_OF_NOTIFICATIONS + k)
    ensures SortedByWhen(StandardCancelEntries(shade, k))
    ensures forall e, c :: e in WhenMap(shade) && e !in StandardCancelEntries(shade, k) && c in StandardCancelEntries(shade, k) ==>
      c.when < e.when
  {
    var entries := StandardCancelEntries(shade, k);
    var m := WhenMap(shade);
    assert entries == m[..|entries|];
    forall e, c | e in m && e !in entries && c in entries ensures c.when < e.when {
      var p :| 0 <= p < |m| && m[p] == e;
      var q :| 0 <= q < |entries| && entries[q] == c;
      assert m[q] == c;
    }
  }

  function Max0(n: int): nat { if n < 0 then 0 else n }

  /** The capacity bound: when the non-summary entries have distinct `when`s
      and there are at least as many of them as the overflow, exactly the
      overflow is cancelled, so the shade holds 49 − k once it is done. */
  lemma StandardCapacity(shade: seq<ActiveNotif>, k: int)
    requires DistinctWhens(shade)
    requires |shade| - MAX_NUMBER_OF_NOTIFICATIONS + k >= 1
    requires |Filter(shade, NotGroupSummary)| >= |shade| - MAX_NUMBER_OF_NOTIFICATIONS + k
    ensures |shade| - |StandardCancels(shade, k)| + k == MAX_NUMBER_OF_NOTIFICATIONS
  {
    WhenMapSize(shade);
  }

  /** The general capacity bound: with distinct `when`s and 0 <= k <= 49,
      the non-summary entries left after the cancels, plus the k new ones,
      never exceed 49, however many of the entries are group summaries. */
  lemma StandardVisibleBound(shade: seq<ActiveNotif>, k: int)
    requires DistinctWhens(shade)
    requires 0 <= k <= MAX_NUMBER_OF_NOTIFICATIONS
    ensures |Filter(shade, NotGroupSummary)| - |StandardCancels(shade, k)| + k <= MAX_NUMBER_OF_NOTIFICATIONS
  {
    WhenMapSize(shade);
  }

  /** Entries that all share one `when` collapse into one key. */
  lemma {:induction false} WhenMapOneInstant(shade: seq<ActiveNotif>, w: int)
    requires shade != []
    requires forall i :: 0 <= i < |shade| ==> shade[i].when == w && !shade[i].isSummary
    ensures WhenMap(shade) == [Entry(w, shade[|shade| - 1].id)]
  {
    var init := shade[..|shade| - 1];
    if init != [] {
      WhenMapOneInstant(init, w);
    }
  }

  /** Fifty non-summary entries posted at the same instant, room for one
      more: the overflow is two, yet one entry is cancelled, and the new
      notification makes fifty. */
  lemma EqualWhenShortfall()
    ensures var shade := seq(50, i => ActiveNotif(i, 0, false));
      && |shade| - MAX_NUMBER_OF_NOTIFICATIONS + 1 == 2
      && StandardCancels(shade, 1) == [49]
      && |shade| - |StandardCancels(shade, 1)| + 1 == 50
  {
    var shade := seq(50, i => ActiveNotif(i, 0, false));
    WhenMapOneInstant(shade, 0);
  }

  // ---------------------------------------------------------------------
  // The fallback path: the store

  function AndroidIdOf(r: Record): int { r.androidId }

  /** The rows of the fallback query: the matching rows, oldest first, LIMIT "49" + k. */
  function FallbackCursor(rows: seq<Record>, nowMillis: nat, useTtl: bool, k: nat): seq<Record> {
    Take(Select(rows, RecentUninteractedWhere(nowMillis, useTtl)), FallbackLimit(k))
  }

  /** The ids the fallback path cancels: of the query's rows, as many as
      their count exceeds 49 − k. */
  function FallbackCancels(rows: seq<Record>, nowMillis: nat, useTtl: bool, k: nat): seq<int> {
    var cursor := FallbackCursor(rows, nowMillis, useTtl, k);
    var toClear := |cursor| - MAX_NUMBER_OF_NOTIFICATIONS + k;
    if toClear < 1 then [] else Map(Take(cursor, toClear), AndroidIdOf)
  }

  /** `clearOldestOverLimitFallback`: a database that will not open is logged
      and nothing is cancelled. */
  method ClearOldestOverLimitFallback(db: Db, k: nat, env: Env, os: Os)
    modifies os`cancelled
    ensures os.cancelled == old(os.cancelled) +
      (if env.openFailures < DB_OPEN_RETRY_MAX then FallbackCancels(db.rows, env.nowMillis, env.ttlFilter, k) else [])
  {
    var handle := OpenWithRetries(env.openFailures);
    if !handle.success {
      return;
    }
    var cursor := FallbackCursor(db.rows, env.nowMillis, env.ttlFilter, k);
    var notifsToClear := |cursor| - MAX_NUMBER_OF_NOTIFICATIONS + k;
    if notifsToClear < 1 {
      return;
    }
    CancelFirst(cursor, AndroidIdOf, notifsToClear, os);
  }

  /** The fallback cancels the oldest matching rows, never more than the
      overflow; when no more than LIMIT rows match and k ≤ 49, what stays is
      at most 49 − k of them. */
  lemma FallbackCancelsProperties(rows: seq<Record>, nowMillis: nat, useTtl: bool, k: nat)
    ensures var sel := Select(rows, RecentUninteractedWhere(nowMillis, useTtl));
      FallbackCancels(rows, nowMillis, useTtl, k) == Map(sel[..|FallbackCancels(rows, nowMillis, useTtl, k)|], AndroidIdOf)
    ensures var sel := Select(rows, RecentUninteractedWhere(nowMillis, useTtl));
      k <= MAX_NUMBER_OF_NOTIFICATIONS && |sel| <= FallbackLimit(k) ==>
        |FallbackCancels(rows, nowMillis, useTtl, k)| ==
          if |sel| + k <= MAX_NUMBER_OF_NOTIFICATIONS then 0 else |sel| + k - MAX_NUMBER_OF_NOTIFICATIONS
  {
    var sel := Select(rows, RecentUninteractedWhere(nowMillis, useTtl));
    var cursor := FallbackCursor(rows, nowMillis, useTtl, k);
    var r := FallbackCancels(rows, nowMillis, useTtl, k);
    assert cursor == sel[..|cursor|];
    if |cursor| - MAX_NUMBER_OF_NOTIFICATIONS + k >= 1 {
      var t := Take(cursor, |cursor| - MAX_NUMBER_OF_NOTIFICATIONS + k);
      assert t == sel[..|t|];
    }
  }

  // ---------------------------------------------------------------------
  // The entry point

  /** The ids `clearOldestOverLimit` cancels: the standard path from M on
      while the shade can be listed, the store fallback otherwise (a listing
      that throws falls back with the same k). */
  ghost function LimitCancels(db: DbState, k: nat, env: Env): seq<int> {
    if env.atLeastM && env.shade.Some? then StandardCancels(env.shade.value, k)
    else if env.openFailures < DB_OPEN_RETRY_MAX then FallbackCancels(db.rows, env.nowMillis, env.ttlFilter, k)
    else []
  }

  method ClearOldestOverLimit(db: Db, k: nat, env: Env, os: Os)
    modifies os`cancelled
    ensures os.cancelled == old(os.cancelled) + LimitCancels(db.State(), k, env)
  {
    if env.atLeastM && env.shade.Some? {
      ClearOldestOverLimitStandard(env.shade.value, k, os);
    } else {
      ClearOldestOverLimitFallback(db, k, env, os);
    }
  }
}
