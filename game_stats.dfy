/**
 * The visitor counter hook: a stored row with a "fake" count that grows by
 * one for every 30 minutes since its last increase, never past 40, and a
 * "real" count of completed visits. Database reads are parameters, the
 * database writes are returned as values, and elapsed time is whole
 * milliseconds.
 */
module GameStats {
  import opened Wrappers

  /** Thirty minutes, in milliseconds. */
  const IncrementPeriodMs: int := 1800000

  /** The fake count is never raised past this. */
  const FakeCap: int := 40

  /** The stored statistics row; the time of the last fake increase in milliseconds. */
  datatype Stats = Stats(fakeCount: int, realCount: int, lastFakeIncrementMs: int)

  /** The update fetchStats writes back: the new fake count and the time it was computed. */
  datatype FakeUpdate = FakeUpdate(fakeCount: int, lastFakeIncrementMs: int)

  function Min(a: int, b: int): int
  {
    if a <= b then a else b
  }

  /**
   * How many fake increments are due after elapsedMs: none before thirty
   * minutes or at the cap, otherwise one per whole thirty minutes, cut off
   * at the cap. Whenever the guard lets a computation through, at least
   * one increment is due.
   */
  function IncrementsNeeded(fakeCount: int, elapsedMs: int): (n: int)
    ensures n >= 0
    ensures n == 0 <==> elapsedMs < IncrementPeriodMs || fakeCount >= FakeCap
    ensures n > 0 ==> fakeCount + n <= FakeCap && n * IncrementPeriodMs <= elapsedMs
    ensures n > 0 ==> n == FakeCap - fakeCount || n == elapsedMs / IncrementPeriodMs
  {
    if elapsedMs >= IncrementPeriodMs && fakeCount < FakeCap then
      Min(elapsedMs / IncrementPeriodMs, FakeCap - fakeCount)
    else
      0
  }

  /**
   * The statistics the hook keeps after reading row at time nowMs: the fake
   * count raised by the increments due. The local copy keeps the row's old
   * last-increment time, though the database gets the new one.
   */
  function FetchedStats(row: Stats, nowMs: int): (s: Stats)
    ensures s.realCount == row.realCount && s.lastFakeIncrementMs == row.lastFakeIncrementMs
    ensures row.fakeCount <= s.fakeCount
    ensures s.fakeCount <= FakeCap || s.fakeCount == row.fakeCount
    ensures s.fakeCount > row.fakeCount <==>
      nowMs - row.lastFakeIncrementMs >= IncrementPeriodMs && row.fakeCount < FakeCap
  {
    var n := IncrementsNeeded(row.fakeCount, nowMs - row.lastFakeIncrementMs);
    if n > 0 then row.(fakeCount := row.fakeCount + n) else row
  }

  /** The count the page shows: fake plus real, or 0 before any statistics arrived. */
  function TotalVisibleCount(stats: Option<Stats>): (n: int)
    ensures stats.None? ==> n == 0
  {
    if stats.Some? then stats.value.fakeCount + stats.value.realCount else 0
  }

  /** The shown total after a fetch grows by exactly the fake increments due. */
  lemma TotalAfterFetch(row: Stats, nowMs: int)
    ensures TotalVisibleCount(Some(FetchedStats(row, nowMs))) ==
      TotalVisibleCount(Some(row)) + IncrementsNeeded(row.fakeCount, nowMs - row.lastFakeIncrementMs)
  {
  }

  class StatsHook {
    var stats: Option<Stats>
    var loading: bool

    constructor()
      ensures stats == None && loading
    {
      stats := None;
      loading := true;
    }

    /**
     * fetchStats with the query's answer (None for an error or no row) and
     * the current time; returns the update written to the database, if any.
     * A failed query leaves the statistics as they were.
     */
    method FetchStats(query: Option<Stats>, nowMs: int) returns (written: Option<FakeUpdate>)
      modifies this
      ensures !loading
      ensures query.None? ==> stats == old(stats) && written == None
      ensures query.Some? ==> stats == Some(FetchedStats(query.value, nowMs))
      ensures written.Some? <==>
        query.Some? && IncrementsNeeded(query.value.fakeCount, nowMs - query.value.lastFakeIncrementMs) > 0
      ensures written.Some? ==> written.value == FakeUpdate(stats.value.fakeCount, nowMs)
    {
      written := None;
      if query.Some? {
        var data := query.value;
        var minutesGuard := nowMs - data.lastFakeIncrementMs >= IncrementPeriodMs && data.fakeCount < FakeCap;
        if minutesGuard {
          var n := IncrementsNeeded(data.fakeCount, nowMs - data.lastFakeIncrementMs);
          if n > 0 {
            var newFakeCount := data.fakeCount + n;
            written := Some(FakeUpdate(newFakeCount, nowMs));
            stats := Some(data.(fakeCount := newFakeCount));
          } else {
            // the hook's fallback for no increment due: unreachable, since
            // the guard above already implies at least one
            assert false;
          }
        } else {
          stats := Some(data);
        }
      }
      loading := false;
    }

    /**
     * incrementRealCount with the re-read row (None when nothing came
     * back); returns the real count written to the database, if any. The
     * database gets the re-read count plus one, the local copy its own
     * count plus one.
     */
    method IncrementRealCount(query: Option<Stats>) returns (written: Option<int>)
      modifies this
      ensures loading == old(loading)
      ensures old(stats).None? || query.None? ==> stats == old(stats) && written == None
      ensures old(stats).Some? && query.Some? ==>
        && stats == Some(old(stats).value.(realCount := old(stats).value.realCount + 1))
        && written == Some(query.value.realCount + 1)
      ensures TotalVisibleCount(stats) == old(TotalVisibleCount(stats)) + (if written.Some? then 1 else 0)
    {
      written := None;
      if stats.None? {
        return;
      }
      if query.Some? {
        written := Some(query.value.realCount + 1);
        stats := Some(stats.value.(realCount := stats.value.realCount + 1));
      }
    }
  }
}
