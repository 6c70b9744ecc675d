/** Usage totals with a per-file cache, and the weekly quota window (frontend/usage.py). Times are in
    seconds; the local clock differs from the epoch by a fixed offset. */
module Usage {
  import opened Schema

  // ---- the weekly window ----

  const HOUR := 3600
  const DAY := 86400
  const WEEK := 604800
  const SESSION_WINDOW := 18000
  const WEEK_RESET_WEEKDAY := 3  // Thursday, counting from Monday
  const WEEK_RESET_HOUR := 6

  /** Monday is 0; day 0 of the epoch was a Thursday. */
  function Weekday(day: int): int { (day + 3) % 7 }

  /** The most recent reset at or before a local time. */
  function LocalReset(local: int): int {
    var today := local / DAY;
    var candidate := today * DAY + WEEK_RESET_HOUR * HOUR - ((Weekday(today) - WEEK_RESET_WEEKDAY) % 7) * DAY;
    if candidate > local then candidate - 7 * DAY else candidate
  }

  function WeekWindowStart(now: int, utcOffset: int): int {
    LocalReset(now + utcOffset) - utcOffset
  }

  /** A Thursday, 06:00. Day 0 of the epoch was a Thursday. */
  ghost predicate IsReset(local: int) {
    (local / 86400) % 7 == 0 && local % 86400 == 6 * 3600
  }

  lemma ResetsAreWeekly(local: int)
    ensures IsReset(local) <==> (local - WEEK_RESET_HOUR * HOUR) % WEEK == 0
  {
    var day, second := local / DAY, local % DAY;
    assert local == day * DAY + second;
    var week, weekday := day / 7, day % 7;
    assert day == week * 7 + weekday;
    assert local - WEEK_RESET_HOUR * HOUR == week * WEEK + (weekday * DAY + second - WEEK_RESET_HOUR * HOUR);
    assert -WEEK < weekday * DAY + second - WEEK_RESET_HOUR * HOUR < WEEK;
  }

  lemma LocalResetIsLatest(local: int)
    ensures IsReset(LocalReset(local))
    ensures LocalReset(local) <= local < LocalReset(local) + WEEK
  {
    var today := local / DAY;
    var back := (Weekday(today) - WEEK_RESET_WEEKDAY) % 7;
    var r := LocalReset(local);
    assert local == today * DAY + local % DAY;
    assert (today - back) % 7 == 0;
    assert r == (today - back) * DAY + WEEK_RESET_HOUR * HOUR || r == (today - back - 7) * DAY + WEEK_RESET_HOUR * HOUR;
    assert r % DAY == WEEK_RESET_HOUR * HOUR;
    assert r / DAY == today - back || r / DAY == today - back - 7;
  }

  /** For every time the window starts at the one Thursday 06:00 that is at most a week back. */
  lemma WeekWindowIsUnique(now: int, utcOffset: int, start: int)
    ensures start == WeekWindowStart(now, utcOffset)
            <==> IsReset(start + utcOffset) && start <= now < start + 7 * 86400
  {
    var a, b := start + utcOffset, LocalReset(now + utcOffset);
    LocalResetIsLatest(now + utcOffset);
    ResetsAreWeekly(a);
    ResetsAreWeekly(b);
    if IsReset(a) && start <= now < start + WEEK {
      WeeksApart(a - WEEK_RESET_HOUR * HOUR, b - WEEK_RESET_HOUR * HOUR);
      WeeksApart(b - WEEK_RESET_HOUR * HOUR, a - WEEK_RESET_HOUR * HOUR);
    }
  }

  lemma WeeksApart(a: int, b: int)
    requires a % WEEK == 0 && b % WEEK == 0
    ensures a < b ==> a + WEEK <= b
  {
    assert a == (a / WEEK) * WEEK && b == (b / WEEK) * WEEK;
  }

  /** The window never moves backwards, and within one week does not move at all. */
  lemma WeekWindowIsMonotone(now: int, later: int, utcOffset: int)
    requires now <= later
    ensures WeekWindowStart(now, utcOffset) <= WeekWindowStart(later, utcOffset)
    ensures later < WeekWindowStart(now, utcOffset) + 7 * 86400 ==>
              WeekWindowStart(later, utcOffset) == WeekWindowStart(now, utcOffset)
  {
    var a, b := LocalReset(now + utcOffset), LocalReset(later + utcOffset);
    LocalResetIsLatest(now + utcOffset);
    LocalResetIsLatest(later + utcOffset);
    ResetsAreWeekly(a);
    ResetsAreWeekly(b);
    WeeksApart(a - WEEK_RESET_HOUR * HOUR, b - WEEK_RESET_HOUR * HOUR);
    WeeksApart(b - WEEK_RESET_HOUR * HOUR, a - WEEK_RESET_HOUR * HOUR);
  }

  // ---- sums ----

  /** One usage-bearing transcript line. Its cost is an opaque amount. */
  datatype Entry = Entry(ts: int, cost: real, tokens: int)

  function Since(es: seq<Entry>, cutoff: int): seq<Entry> {
    if es == [] then []
    else Since(es[..|es| - 1], cutoff) + if es[|es| - 1].ts >= cutoff then [es[|es| - 1]] else []
  }

  function CostOf(es: seq<Entry>): real {
    if es == [] then 0.0 else CostOf(es[..|es| - 1]) + es[|es| - 1].cost
  }

  function TokensOf(es: seq<Entry>): int {
    if es == [] then 0 else TokensOf(es[..|es| - 1]) + es[|es| - 1].tokens
  }

  datatype Totals = Totals(sessionCost: real, sessionTokens: int, weekCost: real, weekTokens: int)

  function TotalsSince(es: seq<Entry>, sessionCutoff: int, weekCutoff: int): Totals {
    var session, week := Since(es, sessionCutoff), Since(es, weekCutoff);
    Totals(CostOf(session), TokensOf(session), CostOf(week), TokensOf(week))
  }

  /** The totals of a body of entries at a given time: a trailing five hours, and the quota week. */
  function TotalsAt(es: seq<Entry>, now: int, utcOffset: int): Totals {
    TotalsSince(es, now - SESSION_WINDOW, WeekWindowStart(now, utcOffset))
  }

  lemma SinceSnoc(es: seq<Entry>, e: Entry, cutoff: int)
    ensures Since(es + [e], cutoff) == if e.ts >= cutoff then Since(es, cutoff) + [e] else Since(es, cutoff)
  {
    assert (es + [e])[..|es|] == es;
    assert Since(es, cutoff) + [] == Since(es, cutoff);
  }

  lemma SumsSnoc(es: seq<Entry>, e: Entry)
    ensures CostOf(es + [e]) == CostOf(es) + e.cost && TokensOf(es + [e]) == TokensOf(es) + e.tokens
  {
    assert (es + [e])[..|es|] == es;
  }

  function AddToWeek(t: Totals, e: Entry, cutoff: int): Totals {
    if e.ts >= cutoff then t.(weekCost := t.weekCost + e.cost, weekTokens := t.weekTokens + e.tokens) else t
  }

  function AddToSession(t: Totals, e: Entry, cutoff: int): Totals {
    if e.ts >= cutoff then t.(sessionCost := t.sessionCost + e.cost, sessionTokens := t.sessionTokens + e.tokens) else t
  }

  lemma TotalsSnoc(es: seq<Entry>, e: Entry, sessionCutoff: int, weekCutoff: int)
    ensures TotalsSince(es + [e], sessionCutoff, weekCutoff)
            == AddToSession(AddToWeek(TotalsSince(es, sessionCutoff, weekCutoff), e, weekCutoff), e, sessionCutoff)
  {
    SinceSnoc(es, e, sessionCutoff);
    SinceSnoc(es, e, weekCutoff);
    SumsSnoc(Since(es, sessionCutoff), e);
    SumsSnoc(Since(es, weekCutoff), e);
  }

  /** `at` lists, in order, the positions of exactly the entries no older than the cutoff. */
  ghost predicate Selects(at: seq<nat>, es: seq<Entry>, cutoff: int) {
    && (forall i, j :: 0 <= i < j < |at| ==> at[i] < at[j])
    && (forall k: nat :: k in at <==> k < |es| && es[k].ts >= cutoff)
  }

  lemma SelectsSnoc(at: seq<nat>, es: seq<Entry>, e: Entry, cutoff: int)
    requires Selects(at, es, cutoff)
    ensures Selects(if e.ts >= cutoff then at + [|es|] else at, es + [e], cutoff)
  {
    if e.ts >= cutoff {
      var at' := at + [|es|];
      forall i, j | 0 <= i < j < |at'| ensures at'[i] < at'[j] {
        assert at[i] in at;
      }
    }
  }

  /** `picked` holds the entries at those positions. */
  ghost predicate Picks(at: seq<nat>, es: seq<Entry>, picked: seq<Entry>) {
    |picked| == |at| && forall i :: 0 <= i < |at| ==> at[i] < |es| && picked[i] == es[at[i]]
  }

  lemma PicksSnoc(at: seq<nat>, es: seq<Entry>, picked: seq<Entry>, e: Entry)
    requires Picks(at, es, picked)
    ensures Picks(at, es + [e], picked) && Picks(at + [|es|], es + [e], picked + [e])
  {
  }

  lemma SelectionSnoc(at: seq<nat>, es: seq<Entry>, e: Entry, cutoff: int)
    requires Selects(at, es, cutoff) && Picks(at, es, Since(es, cutoff))
    ensures var at' := if e.ts >= cutoff then at + [|es|] else at;
            Selects(at', es + [e], cutoff) && Picks(at', es + [e], Since(es + [e], cutoff))
  {
    SelectsSnoc(at, es, e, cutoff);
    PicksSnoc(at, es, Since(es, cutoff), e);
    SinceSnoc(es, e, cutoff);
  }

  /** Windowing picks exactly the entries no older than the cutoff, each once and in order. */
  lemma {:induction false} SinceSelects(es: seq<Entry>, cutoff: int) returns (at: seq<nat>)
    ensures Selects(at, es, cutoff) && Picks(at, es, Since(es, cutoff))
  {
    if es == [] {
      at := [];
    } else {
      var p, e := es[..|es| - 1], es[|es| - 1];
      assert es == p + [e];
      at := SinceSelects(p, cutoff);
      SelectionSnoc(at, p, e, cutoff);
      if e.ts >= cutoff { at := at + [|p|]; }
    }
  }

  // ---- what the totals are ----

  function CostAt(es: seq<Entry>, at: seq<nat>): real
    requires forall i :: 0 <= i < |at| ==> at[i] < |es|
  {
    if at == [] then 0.0 else CostAt(es, at[..|at| - 1]) + es[at[|at| - 1]].cost
  }

  function TokensAt(es: seq<Entry>, at: seq<nat>): int
    requires forall i :: 0 <= i < |at| ==> at[i] < |es|
  {
    if at == [] then 0 else TokensAt(es, at[..|at| - 1]) + es[at[|at| - 1]].tokens
  }

  lemma {:induction false} SumsOfPicked(es: seq<Entry>, at: seq<nat>, picked: seq<Entry>)
    requires Picks(at, es, picked)
    ensures CostOf(picked) == CostAt(es, at) && TokensOf(picked) == TokensAt(es, at)
  {
    if at != [] { SumsOfPicked(es, at[..|at| - 1], picked[..|picked| - 1]); }
  }

  /** The totals over the entries at the given positions. */
  ghost predicate SumsAt(t: Totals, es: seq<Entry>, session: seq<nat>, week: seq<nat>) {
    && (forall i :: 0 <= i < |session| ==> session[i] < |es|) && (forall i :: 0 <= i < |week| ==> week[i] < |es|)
    && t.sessionCost == CostAt(es, session) && t.sessionTokens == TokensAt(es, session)
    && t.weekCost == CostAt(es, week) && t.weekTokens == TokensAt(es, week)
  }

  /** The session's totals are over the entries of the last five hours; the week's over those since a
      Thursday 06:00, local time, that is less than a week back. */
  ghost predicate TotalsFor(t: Totals, es: seq<Entry>, now: int, utcOffset: int) {
    exists session, week, start ::
      && IsReset(start + utcOffset) && start <= now < start + 7 * 86400
      && Selects(session, es, now - 5 * 3600) && Selects(week, es, start)
      && SumsAt(t, es, session, week)
  }

  lemma TotalsAreWindowed(es: seq<Entry>, now: int, utcOffset: int)
    ensures TotalsFor(TotalsAt(es, now, utcOffset), es, now, utcOffset)
  {
    var start := WeekWindowStart(now, utcOffset);
    var session := SinceSelects(es, now - 5 * 3600);
    var week := SinceSelects(es, start);
    WeekWindowIsUnique(now, utcOffset, start);
    SumsOfPicked(es, session, Since(es, now - 5 * 3600));
    SumsOfPicked(es, week, Since(es, start));
    assert SumsAt(TotalsAt(es, now, utcOffset), es, session, week);
  }

  // ---- the cache ----

  datatype FileUsage = FileUsage(mtime: int, size: nat, entries: seq<Entry>)

  type Cache = map<string, FileUsage>

  datatype Stat = Stat(mtime: int, size: nat)

  /** One listed file: what stat said, if it succeeded, and what a scan right after it would read. */
  datatype Listed = Listed(path: string, stat: Option<Stat>, scanned: seq<Entry>)

  predicate Hit(cache: Cache, f: Listed) {
    f.stat.Some? && f.path in cache
    && cache[f.path].mtime == f.stat.value.mtime && cache[f.path].size == f.stat.value.size
  }

  function UsageFor(cache: Cache, f: Listed): FileUsage
    requires f.stat.Some?
  {
    if Hit(cache, f) then cache[f.path] else FileUsage(f.stat.value.mtime, f.stat.value.size, f.scanned)
  }

  /** Every entry a refresh counts, in listing order. */
  function Counted(cache: Cache, files: seq<Listed>): seq<Entry> {
    if files == [] then []
    else
      var f := files[|files| - 1];
      Counted(cache, files[..|files| - 1]) + if f.stat.Some? then UsageFor(cache, f).entries else []
  }

  function FreshCache(cache: Cache, files: seq<Listed>): Cache {
    if files == [] then map[]
    else
      var before, f := FreshCache(cache, files[..|files| - 1]), files[|files| - 1];
      if f.stat.Some? then before[f.path := UsageFor(cache, f)] else before
  }

  /** A file is read again exactly if it is new or its mtime or size is not the cached one. */
  lemma RereadIffStatChanged(cache: Cache, f: Listed)
    requires f.stat.Some?
    ensures var u := UsageFor(cache, f);
            && u.mtime == f.stat.value.mtime && u.size == f.stat.value.size
            && if f.path in cache && cache[f.path].mtime == u.mtime && cache[f.path].size == u.size
               then u.entries == cache[f.path].entries else u.entries == f.scanned
  {
  }

  ghost predicate StattedAt(files: seq<Listed>, i: int, p: string) {
    0 <= i < |files| && files[i].path == p && files[i].stat.Some?
  }

  /** The cache keeps exactly the files listed and statted this time. */
  lemma {:induction false} CacheHoldsStattedFiles(cache: Cache, files: seq<Listed>, p: string)
    ensures p in FreshCache(cache, files) <==> exists i :: StattedAt(files, i, p)
  {
    if files != [] {
      var n := |files| - 1;
      CacheHoldsStattedFiles(cache, files[..n], p);
      if StattedAt(files, n, p) {
        assert p in FreshCache(cache, files);
      } else {
        forall i ensures StattedAt(files, i, p) <==> StattedAt(files[..n], i, p) {}
      }
    }
  }

  class UsageTracker {
    var fileCache: Cache
    var sessionCost: real
    var sessionTokens: int
    var weekCost: real
    var weekTokens: int

    function Published(): Totals
      reads this
    {
      Totals(sessionCost, sessionTokens, weekCost, weekTokens)
    }

    constructor ()
      ensures fileCache == map[] && Published() == Totals(0.0, 0, 0.0, 0)
    {
      fileCache, sessionCost, sessionTokens, weekCost, weekTokens := map[], 0.0, 0, 0.0, 0;
    }

    /** One rescan; a missing projects directory (no listing) leaves everything as it was. */
    method Refresh(listing: Option<seq<Listed>>, now: int, utcOffset: int)
      modifies this
      ensures listing.None? ==> fileCache == old(fileCache) && Published() == old(Published())
      ensures listing.Some? ==>
                && fileCache == FreshCache(old(fileCache), listing.value)
                && Published() == TotalsAt(Counted(old(fileCache), listing.value), now, utcOffset)
                && TotalsFor(Published(), Counted(old(fileCache), listing.value), now, utcOffset)
    {
      if listing.None? { return; }
      var sessionCutoff, weekCutoff := now - SESSION_WINDOW, WeekWindowStart(now, utcOffset);
      var freshCache, t := Rescan(listing.value, sessionCutoff, weekCutoff);
      TotalsAreWindowed(Counted(fileCache, listing.value), now, utcOffset);
      fileCache := freshCache;
      sessionCost, sessionTokens, weekCost, weekTokens := t.sessionCost, t.sessionTokens, t.weekCost, t.weekTokens;
    }

    /** The loop over the files; the previous cache stays in place until all of them are done. */
    method Rescan(files: seq<Listed>, sessionCutoff: int, weekCutoff: int) returns (freshCache: Cache, t: Totals)
      ensures freshCache == FreshCache(fileCache, files)
      ensures t == TotalsSince(Counted(fileCache, files), sessionCutoff, weekCutoff)
    {
      t := Totals(0.0, 0, 0.0, 0);
      freshCache := map[];
      for i := 0 to |files|
        invariant freshCache == FreshCache(fileCache, files[..i])
        invariant t == TotalsSince(Counted(fileCache, files[..i]), sessionCutoff, weekCutoff)
      {
        assert files[..i + 1][..i] == files[..i];
        var f := files[i];
        if f.stat.Some? {
          var usage := UsageFor(fileCache, f);
          freshCache := freshCache[f.path := usage];
          t := AddEntries(t, usage.entries, sessionCutoff, weekCutoff, Counted(fileCache, files[..i]));
        } else {
          assert Counted(fileCache, files[..i]) + [] == Counted(fileCache, files[..i]);
        }
      }
      assert files[..|files|] == files;
    }

    /** The inner loop of a refresh; `counted` is what the totals so far are made of. */
    static method AddEntries(
      before: Totals, entries: seq<Entry>, sessionCutoff: int, weekCutoff: int, ghost counted: seq<Entry>)
      returns (t: Totals)
      requires before == TotalsSince(counted, sessionCutoff, weekCutoff)
      ensures t == TotalsSince(counted + entries, sessionCutoff, weekCutoff)
    {
      t := before;
      assert counted + entries[..0] == counted;
      for i := 0 to |entries|
        invariant t == TotalsSince(counted + entries[..i], sessionCutoff, weekCutoff)
      {
        var e := entries[i];
        TotalsSnoc(counted + entries[..i], e, sessionCutoff, weekCutoff);
        assert counted + entries[..i + 1] == counted + entries[..i] + [e];
        t := AddToWeek(t, e, weekCutoff);
        t := AddToSession(t, e, sessionCutoff);
      }
      assert entries[..|entries|] == entries;
    }
  }

  // ---- append-only files that grow while being scanned ----

  /** What each file contains, and its mtime, at every instant; and the entries a scan makes of a content. */
  datatype Disk = Disk(content: (string, int) -> seq<int>, mtime: (string, int) -> int, parse: seq<int> -> seq<Entry>)

  ghost predicate AppendOnly(disk: Disk) {
    forall p, s, t :: s <= t ==> disk.content(p, s) <= disk.content(p, t)
  }

  /** When a file was statted, and when the scan (made or spared) read it. */
  datatype Instants = Instants(statAt: int, readAt: int)

  ghost predicate Truthful(disk: Disk, f: Listed, at: Instants) {
    && at.statAt <= at.readAt
    && (f.stat.Some? ==> f.stat.value == Stat(disk.mtime(f.path, at.statAt), |disk.content(f.path, at.statAt)|))
    && f.scanned == disk.parse(disk.content(f.path, at.readAt))
  }

  /** One refresh: its listing, every file of it looked at between `begun` and `ended`. */
  datatype Round = Round(files: seq<Listed>, at: seq<Instants>, begun: int, ended: int)

  ghost predicate TruthfulRound(disk: Disk, r: Round) {
    && |r.at| == |r.files| && r.begun <= r.ended
    && (forall i :: 0 <= i < |r.files| ==>
          Truthful(disk, r.files[i], r.at[i]) && r.begun <= r.at[i].statAt && r.at[i].readAt <= r.ended)
  }

  ghost predicate TruthfulRun(disk: Disk, rounds: seq<Round>) {
    && (forall k :: 0 <= k < |rounds| ==> TruthfulRound(disk, rounds[k]))
    && (forall j, k :: 0 <= j < k < |rounds| ==> rounds[j].ended <= rounds[k].begun)
  }

  function CacheAfter(rounds: seq<Round>): Cache {
    if rounds == [] then map[] else FreshCache(CacheAfter(rounds[..|rounds| - 1]), rounds[|rounds| - 1].files)
  }

  /** A cached record: its size is the file's at some instant, its entries those of a content read no earlier. */
  ghost predicate Recorded(disk: Disk, p: string, u: FileUsage, at: Instants, now: int) {
    at.statAt <= at.readAt <= now
    && u.size == |disk.content(p, at.statAt)|
    && u.entries == disk.parse(disk.content(p, at.readAt))
  }

  ghost predicate SoundCache(disk: Disk, cache: Cache, now: int) {
    forall p :: p in cache ==> exists at :: Recorded(disk, p, cache[p], at, now)
  }

  /** A hit holds exactly the entries of the version just statted, even if the file grew between the
      earlier stat and the earlier read: had it grown, its size would differ now. */
  lemma HitIsCurrent(disk: Disk, cache: Cache, f: Listed, at: Instants, now: int)
    requires AppendOnly(disk) && SoundCache(disk, cache, now)
    requires Truthful(disk, f, at) && now <= at.statAt && Hit(cache, f)
    ensures UsageFor(cache, f).entries == disk.parse(disk.content(f.path, at.statAt))
  {
    var was :| Recorded(disk, f.path, cache[f.path], was, now);
    var a, b := disk.content(f.path, was.statAt), disk.content(f.path, was.readAt);
    var c := disk.content(f.path, at.statAt);
    assert a <= b && b <= c && |a| == |c|;
    assert b == c;
  }

  /** The version of a listed file whose entries a refresh counts. */
  function VersionOf(cache: Cache, f: Listed, at: Instants): int {
    if Hit(cache, f) then at.statAt else at.readAt
  }

  /** The entries of the given versions, scanned afresh without any cache. */
  function Rescanned(disk: Disk, files: seq<Listed>, versions: seq<int>): seq<Entry>
    requires |versions| == |files|
  {
    if files == [] then []
    else
      var n := |files| - 1;
      Rescanned(disk, files[..n], versions[..n])
      + if files[n].stat.Some? then disk.parse(disk.content(files[n].path, versions[n])) else []
  }

  lemma {:induction false} CountedIsRescanned(disk: Disk, cache: Cache, files: seq<Listed>, at: seq<Instants>, now: int)
    requires AppendOnly(disk) && SoundCache(disk, cache, now) && |at| == |files|
    requires forall i :: 0 <= i < |files| ==> Truthful(disk, files[i], at[i]) && now <= at[i].statAt
    ensures Counted(cache, files) == Rescanned(disk, files, Versions(cache, files, at))
  {
    if files != [] {
      var n := |files| - 1;
      CountedIsRescanned(disk, cache, files[..n], at[..n], now);
      assert Versions(cache, files, at)[..n] == Versions(cache, files[..n], at[..n]);
      if Hit(cache, files[n]) { HitIsCurrent(disk, cache, files[n], at[n], now); }
    }
  }

  function Versions(cache: Cache, files: seq<Listed>, at: seq<Instants>): seq<int>
    requires |at| == |files|
  {
    seq(|files|, i requires 0 <= i < |files| => VersionOf(cache, files[i], at[i]))
  }

  lemma {:induction false} FreshCacheIsSound(
    disk: Disk, cache: Cache, files: seq<Listed>, at: seq<Instants>, now: int, later: int)
    requires SoundCache(disk, cache, now) && |at| == |files|
    requires forall i :: 0 <= i < |files| ==>
               Truthful(disk, files[i], at[i]) && now <= at[i].statAt && at[i].readAt <= later
    ensures SoundCache(disk, FreshCache(cache, files), later)
  {
    if files != [] {
      var n := |files| - 1;
      FreshCacheIsSound(disk, cache, files[..n], at[..n], now, later);
      var before, f := FreshCache(cache, files[..n]), files[n];
      if f.stat.Some? {
        if Hit(cache, f) {
          var was :| Recorded(disk, f.path, cache[f.path], was, now);
          assert Recorded(disk, f.path, UsageFor(cache, f), was, later);
        } else {
          assert Recorded(disk, f.path, UsageFor(cache, f), at[n], later);
        }
        forall p | p in FreshCache(cache, files)
          ensures exists w :: Recorded(disk, p, FreshCache(cache, files)[p], w, later)
        {
          if p != f.path {
            var w :| Recorded(disk, p, before[p], w, later);
            assert Recorded(disk, p, FreshCache(cache, files)[p], w, later);
          }
        }
      }
    }
  }

  lemma {:induction false} CacheStaysSound(disk: Disk, rounds: seq<Round>, start: int)
    requires AppendOnly(disk) && TruthfulRun(disk, rounds) && forall k :: 0 <= k < |rounds| ==> start <= rounds[k].begun
    ensures SoundCache(disk, CacheAfter(rounds), if rounds == [] then start else rounds[|rounds| - 1].ended)
  {
    if rounds != [] {
      var n := |rounds| - 1;
      CacheStaysSound(disk, rounds[..n], start);
      var r := rounds[n];
      var now := if n == 0 then start else rounds[n - 1].ended;
      FreshCacheIsSound(disk, CacheAfter(rounds[..n]), r.files, r.at, now, r.ended);
    }
  }

  /** Cache refinement under the stat/read race: over any run of refreshes of append-only files, what each
      refresh counts is what an uncached rescan would, of versions of the files between the refresh's own
      stat and read of each: the statted one on a hit, the one read on a miss; and what it publishes are the
      two windows' totals of that. */
  lemma RefreshesMatchUncachedRescans(disk: Disk, rounds: seq<Round>, k: nat, now: int, utcOffset: int)
    returns (versions: seq<int>)
    requires AppendOnly(disk) && TruthfulRun(disk, rounds) && k < |rounds|
    ensures |versions| == |rounds[k].files| && |rounds[k].at| == |versions|
    ensures forall i :: 0 <= i < |versions| ==> rounds[k].at[i].statAt <= versions[i] <= rounds[k].at[i].readAt
    ensures Counted(CacheAfter(rounds[..k]), rounds[k].files) == Rescanned(disk, rounds[k].files, versions)
    ensures TotalsFor(TotalsAt(Counted(CacheAfter(rounds[..k]), rounds[k].files), now, utcOffset),
                      Rescanned(disk, rounds[k].files, versions), now, utcOffset)
  {
    var r, cache := rounds[k], CacheAfter(rounds[..k]);
    CacheStaysSound(disk, rounds[..k], rounds[0].begun);
    var now0 := if k == 0 then rounds[0].begun else rounds[k - 1].ended;
    CountedIsRescanned(disk, cache, r.files, r.at, now0);
    versions := Versions(cache, r.files, r.at);
    TotalsAreWindowed(Counted(cache, r.files), now, utcOffset);
  }
}
