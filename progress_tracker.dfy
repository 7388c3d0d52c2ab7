/**
 * The per-season crawl checkpoint: one JSON file per season listing the
 * positions already crawled and the statistics of each. The directory of
 * files is the state of a `ProgressStore`, a map from season to the record
 * its file holds; the clock is a parameter.
 */
module ProgressTracker {
  import opened JsText

  /** What one position's crawl reported (an object of JSON fields). */
  type PositionStats = map<string, JsValue>

  /** The fields of a progress file; each may be absent. */
  datatype ProgressRecord = ProgressRecord(
    season: Option<string>,
    lastUpdated: Option<string>,
    completedPositions: Option<seq<string>>,
    positionStats: Option<map<string, PositionStats>>)

  /**
   * `{ season, lastUpdated: now, ...progress }`: a field the progress has
   * itself wins over the defaults.
   */
  function Overlay(season: string, now: string, progress: ProgressRecord): (r: ProgressRecord)
    ensures r.season.Some? && r.lastUpdated.Some?
    ensures r.completedPositions == progress.completedPositions && r.positionStats == progress.positionStats
    ensures progress.season.Some? ==> r.season == progress.season
    ensures progress.season.None? ==> r.season == Some(season)
    ensures progress.lastUpdated.Some? ==> r.lastUpdated == progress.lastUpdated
    ensures progress.lastUpdated.None? ==> r.lastUpdated == Some(now)
  {
    ProgressRecord(
      if progress.season.Some? then progress.season else Some(season),
      if progress.lastUpdated.Some? then progress.lastUpdated else Some(now),
      progress.completedPositions,
      progress.positionStats)
  }

  /**
   * A record that was saved once already carries its season and time, so
   * saving it again writes it unchanged: the stored `lastUpdated` is kept.
   */
  lemma OverlayOfSaved(season: string, now: string, later: string, progress: ProgressRecord)
    ensures Overlay(season, later, Overlay(season, now, progress)) == Overlay(season, now, progress)
  {
  }

  /** The record `markPositionCompleted` starts from when no file exists. */
  const FreshProgress: ProgressRecord := ProgressRecord(None, None, Some([]), Some(map[]))

  /** `completedPositions.includes(position)`, false when the list is absent. */
  predicate Completed(progress: ProgressRecord, position: string) {
    progress.completedPositions.Some? && position in progress.completedPositions.value
  }

  /** The positions of `all` still to crawl, in their order. */
  function Remaining(progress: Option<ProgressRecord>, all: seq<string>): seq<string> {
    if progress.None? || progress.value.completedPositions.None? then all
    else Exclude(all, progress.value.completedPositions.value)
  }

  class ProgressStore {
    /** The record in each season's file; a season without a file is absent. */
    var files: map<string, ProgressRecord>

    constructor()
      ensures files == map[]
    {
      files := map[];
    }

    /** No stored completed list holds a position twice. */
    predicate Distinct()
      reads this
    {
      forall season :: season in files && files[season].completedPositions.Some? ==>
        NoDuplicates(files[season].completedPositions.value)
    }

    /** `loadProgress(season)`. */
    function Load(season: string): Option<ProgressRecord>
      reads this
    {
      if season in files then Some(files[season]) else None
    }

    /** `saveProgress(season, progress)` at time `now`. */
    method SaveProgress(season: string, progress: ProgressRecord, now: string)
      modifies this
      ensures files == old(files)[season := Overlay(season, now, progress)]
    {
      files := files[season := Overlay(season, now, progress)];
    }

    /** `clearProgress(season)`: the file is removed, so nothing loads. */
    method ClearProgress(season: string)
      modifies this
      ensures files == old(files) - {season}
      ensures Load(season).None?
      ensures old(Distinct()) ==> Distinct()
    {
      files := files - {season};
    }

    /** `isPositionCompleted(season, position)`. */
    predicate IsPositionCompleted(season: string, position: string)
      reads this
    {
      Load(season).Some? && Completed(Load(season).value, position)
    }

    /**
     * `markPositionCompleted(season, position, stats)` at time `now`: the
     * position is appended when absent and its stats stored (replacing older
     * ones), starting from a fresh record when there is no file. The record
     * is re-saved through the save overlay, so a stored season and timestamp
     * are kept (the season name and `now` fill them when absent). A stored
     * record that lacks either list makes the source throw; then `ok` is
     * false and nothing is written.
     */
    method MarkPositionCompleted(season: string, position: string, stats: PositionStats, now: string)
      returns (ok: bool)
      modifies this
      ensures var before := if old(Load(season)).Some? then old(Load(season)).value else FreshProgress;
              ok <==> before.completedPositions.Some? && before.positionStats.Some?
      ensures !ok ==> files == old(files)
      ensures ok ==> season in files && files == old(files)[season := files[season]]
      ensures ok ==> IsPositionCompleted(season, position)
      ensures old(Distinct()) ==> Distinct()
      ensures ok ==> files[season].positionStats.Some?
                     && files[season].positionStats.value ==
                        (if old(Load(season)).Some? then old(Load(season)).value.positionStats.value else map[])[position := stats]
      ensures ok ==> var before := if old(Load(season)).Some? then old(Load(season)).value.completedPositions.value else [];
                     files[season].completedPositions == Some(AppendAbsent(before, position))
      ensures ok ==> var before := if old(Load(season)).Some? then old(Load(season)).value else FreshProgress;
                     files[season].season == (if before.season.Some? then before.season else Some(season))
                     && files[season].lastUpdated == (if before.lastUpdated.Some? then before.lastUpdated else Some(now))
    {
      var progress := if season in files then files[season] else FreshProgress;
      if progress.completedPositions.None? || progress.positionStats.None? {
        return false;
      }
      var completed := progress.completedPositions.value;
      if position !in completed {
        completed := completed + [position];
      }
      var positionStats := progress.positionStats.value[position := stats];
      progress := progress.(completedPositions := Some(completed), positionStats := Some(positionStats));
      SaveProgress(season, progress, now);
      return true;
    }

    /** `getRemainingPositions(season, allPositions)`. */
    function RemainingPositions(season: string, all: seq<string>): (r: seq<string>)
      reads this
      ensures Load(season).None? ==> r == all
      ensures forall p :: p in r <==> p in all && !IsPositionCompleted(season, p)
    {
      RemainingMembersAll(Load(season), all);
      Remaining(Load(season), all)
    }
  }

  /** A position is remaining exactly when it is listed and not completed. */
  lemma RemainingMembersAll(progress: Option<ProgressRecord>, all: seq<string>)
    ensures forall p :: p in Remaining(progress, all) <==>
              p in all && !(progress.Some? && Completed(progress.value, p))
  {
  }

  /**
   * Marking positions keeps the completed list free of duplicates, and
   * marking the same position twice leaves the list as after the first time.
   */
  lemma MarkKeepsDistinct(completed: seq<string>, position: string)
    requires NoDuplicates(completed)
    ensures NoDuplicates(AppendAbsent(completed, position))
    ensures AppendAbsent(AppendAbsent(completed, position), position) == AppendAbsent(completed, position)
  {
  }

  /**
   * Once a position is marked, the remaining list is the previous one
   * without that position, in the same order.
   */
  lemma {:induction false} RemainingAfterMark(all: seq<string>, completed: seq<string>, position: string)
    ensures Exclude(all, AppendAbsent(completed, position)) == Exclude(Exclude(all, completed), [position])
  {
    if all != [] {
      RemainingAfterMark(all[1..], completed, position);
    }
  }
}
