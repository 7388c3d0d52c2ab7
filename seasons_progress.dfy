/**
 * The multi-season crawl checkpoint: a single JSON file listing the seasons
 * already crawled. The file is the state of a `SeasonsProgressFile` (absent
 * or holding a record); the clock is a parameter.
 */
module SeasonsProgress {
  import opened JsText

  /** The fields of the seasons progress file; each may be absent. */
  datatype SeasonsRecord = SeasonsRecord(
    completedSeasons: Option<seq<string>>,
    startedAt: Option<string>,
    lastUpdated: Option<string>)

  /** `{ lastUpdated: now, ...progress }`. */
  function Overlay(now: string, progress: SeasonsRecord): (r: SeasonsRecord)
    ensures r.completedSeasons == progress.completedSeasons && r.startedAt == progress.startedAt
    ensures r.lastUpdated == if progress.lastUpdated.Some? then progress.lastUpdated else Some(now)
  {
    progress.(lastUpdated := if progress.lastUpdated.Some? then progress.lastUpdated else Some(now))
  }

  /** The record `markSeasonCompleted` starts from when there is no file. */
  function Fresh(now: string): SeasonsRecord {
    SeasonsRecord(Some([]), Some(now), None)
  }

  /** What `getCrawlStats` reports. */
  datatype CrawlStats = CrawlStats(total: nat, completed: nat, remaining: int, completedSeasons: seq<string>)

  /** `getRemainingSeasons`: the seasons of `all` not completed, in order. */
  function RemainingSeasons(progress: Option<SeasonsRecord>, all: seq<string>): (r: seq<string>)
    ensures progress.None? || progress.value.completedSeasons.None? ==> r == all
    ensures forall s :: s in r <==>
              (s in all && !(progress.Some? && progress.value.completedSeasons.Some? && s in progress.value.completedSeasons.value))
  {
    if progress.None? || progress.value.completedSeasons.None? then all
    else Exclude(all, progress.value.completedSeasons.value)
  }

  /**
   * `getCrawlStats` as written: `remaining` is the length of `all` minus the
   * length of the completed list, whatever that list holds.
   */
  function CrawlStatsAsWritten(progress: Option<SeasonsRecord>, all: seq<string>): (r: CrawlStats)
    ensures r.total == |all|
    ensures progress.None? ==> r == CrawlStats(|all|, 0, |all|, [])
    ensures r.completed + r.remaining == r.total
    ensures progress.Some? ==>
              r.completedSeasons == (if progress.value.completedSeasons.Some? then progress.value.completedSeasons.value else [])
              && r.completed == |r.completedSeasons|
  {
    if progress.None? then CrawlStats(|all|, 0, |all|, [])
    else
      var completed := if progress.value.completedSeasons.Some? then progress.value.completedSeasons.value else [];
      CrawlStats(|all|, |completed|, |all| - |completed|, completed)
  }

  /**
   * A season completed in an earlier, longer run is counted although it is
   * not among the seasons asked for now: with seasons A and B asked for and
   * A, C and D completed, one season is still to crawl but the statistics
   * report -1.
   */
  lemma CrawlStatsAsWrittenGoesNegative()
    ensures var progress := Some(SeasonsRecord(Some(["A", "C", "D"]), None, None));
            var all := ["A", "B"];
            CrawlStatsAsWritten(progress, all).remaining == -1
            && RemainingSeasons(progress, all) == ["B"]
  {
    var completed := ["A", "C", "D"];
    assert "B" !in completed;
    assert Exclude(["B"], completed) == ["B"];
    assert Exclude(["A", "B"], completed) == Exclude(["B"], completed);
  }

  /**
   * The statistics as they are evidently meant: the completed count is the
   * number of asked-for seasons already done and `remaining` is the length
   * of the remaining list.
   */
  function CrawlStatsFor(progress: Option<SeasonsRecord>, all: seq<string>): (r: CrawlStats)
    ensures r.total == |all|
    ensures progress.None? ==> r == CrawlStats(|all|, 0, |all|, [])
    ensures r.remaining == |RemainingSeasons(progress, all)|
    ensures 0 <= r.remaining <= r.total && r.completed + r.remaining == r.total
  {
    var remaining := RemainingSeasons(progress, all);
    var completed := if progress.Some? && progress.value.completedSeasons.Some? then progress.value.completedSeasons.value else [];
    CrawlStats(|all|, |all| - |remaining|, |remaining|, completed)
  }

  /** When every completed season is one asked for, both versions agree. */
  lemma {:induction false} CrawlStatsAgree(progress: Option<SeasonsRecord>, all: seq<string>)
    requires progress.Some? && progress.value.completedSeasons.Some?
    requires NoDuplicates(progress.value.completedSeasons.value) && NoDuplicates(all)
    requires forall s :: s in progress.value.completedSeasons.value ==> s in all
    ensures CrawlStatsAsWritten(progress, all) == CrawlStatsFor(progress, all)
  {
    var completed := progress.value.completedSeasons.value;
    ExcludeCount(all, completed);
  }

  /**
   * Without duplicates, filtering out a list of seasons that all occur
   * removes exactly as many as it lists.
   */
  lemma {:induction false} ExcludeCount(all: seq<string>, completed: seq<string>)
    requires NoDuplicates(all) && NoDuplicates(completed)
    requires forall s :: s in completed ==> s in all
    ensures |Exclude(all, completed)| == |all| - |completed|
    decreases |all|
  {
    if all == [] {
      assert |completed| == 0 || completed[0] in completed;
    } else if all[0] in completed {
      var i :| 0 <= i < |completed| && completed[i] == all[0];
      var rest := completed[..i] + completed[i + 1..];
      RemoveAt(completed, i);
      forall s | s in rest ensures s in all[1..] {
        assert s in completed && s != all[0];
      }
      forall s | s in all[1..] ensures (s in completed <==> s in rest) {
        assert s != all[0];
      }
      ExcludeSameMembers(all[1..], completed, rest);
      ExcludeCount(all[1..], rest);
    } else {
      forall s | s in completed ensures s in all[1..] {
      }
      ExcludeCount(all[1..], completed);
    }
  }

  /** Removing the element at `i` from a list without duplicates removes exactly that value. */
  lemma RemoveAt(xs: seq<string>, i: nat)
    requires NoDuplicates(xs) && i < |xs|
    ensures var rest := xs[..i] + xs[i + 1..];
            && |rest| == |xs| - 1 && NoDuplicates(rest)
            && forall s :: s in rest <==> s in xs && s != xs[i]
  {
    var rest := xs[..i] + xs[i + 1..];
    assert xs == xs[..i] + [xs[i]] + xs[i + 1..];
    forall x, y | 0 <= x < y < |rest| ensures rest[x] != rest[y] {
      var x' := if x < i then x else x + 1;
      var y' := if y < i then y else y + 1;
      assert rest[x] == xs[x'] && rest[y] == xs[y'];
    }
  }

  /** The filter depends only on which elements the excluded list holds. */
  lemma {:induction false} ExcludeSameMembers(xs: seq<string>, a: seq<string>, b: seq<string>)
    requires forall s :: s in xs ==> (s in a <==> s in b)
    ensures Exclude(xs, a) == Exclude(xs, b)
  {
    if xs != [] {
      ExcludeSameMembers(xs[1..], a, b);
    }
  }

  class SeasonsProgressFile {
    /** The file's record, or none when there is no file. */
    var file: Option<SeasonsRecord>

    constructor()
      ensures file.None?
    {
      file := None;
    }

    /** `saveSeasonsProgress(progress)` at time `now`. */
    method SaveSeasonsProgress(progress: SeasonsRecord, now: string)
      modifies this
      ensures file == Some(Overlay(now, progress))
    {
      file := Some(Overlay(now, progress));
    }

    /** `clearSeasonsProgress()`: afterwards nothing loads. */
    method ClearSeasonsProgress()
      modifies this
      ensures file.None?
    {
      file := None;
    }

    /**
     * `markSeasonCompleted(season)` at time `now`: the season is appended
     * when absent, starting from a fresh record stamped `now` when there is
     * no file. A stored record without a list makes the source throw; then
     * `ok` is false and nothing is written.
     */
    method MarkSeasonCompleted(season: string, now: string) returns (ok: bool)
      modifies this
      ensures ok <==> old(file).None? || old(file).value.completedSeasons.Some?
      ensures !ok ==> file == old(file)
      ensures ok ==> var before := if old(file).Some? then old(file).value else Fresh(now);
                     file == Some(Overlay(now, before.(completedSeasons := Some(AppendAbsent(before.completedSeasons.value, season)))))
      ensures ok ==> file.Some? && file.value.completedSeasons.Some? && season in file.value.completedSeasons.value
      ensures ok && old(file).Some? ==> file.value.startedAt == old(file).value.startedAt
      ensures ok && old(file).None? ==> file.value.startedAt == Some(now)
      ensures old(file).Some? && old(file).value.completedSeasons.Some? && NoDuplicates(old(file).value.completedSeasons.value)
              ==> NoDuplicates(file.value.completedSeasons.value)
    {
      var progress := if file.Some? then file.value else Fresh(now);
      if progress.completedSeasons.None? {
        return false;
      }
      var completed := progress.completedSeasons.value;
      if season !in completed {
        completed := completed + [season];
      }
      SaveSeasonsProgress(progress.(completedSeasons := Some(completed)), now);
      return true;
    }

    /** `getRemainingSeasons(allSeasons)`: the seasons asked for that the file does not list as completed. */
    function GetRemainingSeasons(all: seq<string>): (r: seq<string>)
      reads this
      ensures file.None? || file.value.completedSeasons.None? ==> r == all
      ensures forall s :: s in r <==>
                (s in all && !(file.Some? && file.value.completedSeasons.Some? && s in file.value.completedSeasons.value))
    {
      RemainingSeasons(file, all)
    }

    /**
     * `getCrawlStats(allSeasons)`, corrected: `remaining` is counted from the
     * list of remaining seasons, so it never goes negative.
     */
    function GetCrawlStats(all: seq<string>): (r: CrawlStats)
      reads this
      ensures r.total == |all|
      ensures file.None? ==> r == CrawlStats(|all|, 0, |all|, [])
      ensures r.remaining == |GetRemainingSeasons(all)|
      ensures 0 <= r.remaining <= r.total && r.completed + r.remaining == r.total
    {
      CrawlStatsFor(file, all)
    }
  }
}
