/**
 * The server-side OVR engine: the rating of a player at a position
 * (coefficient-weighted average of the stats, rounded half up and clamped to
 * [0, 99]), the rating of every position, training simulation, the
 * highest-coefficient stats of a position and the greedy training-plan search.
 *
 * In this engine every coefficient of the position's set enters the
 * denominator; a stat the player lacks adds 0 to the numerator.
 */
module TrainingCalculator {
  import opened JsText
  import opened Coefficients

  /**
   * A player's stats by English key: the `value` of each stat the player has,
   * as an integer. A stat the scraper kept as text is not expressible here.
   */
  type Stats = map<string, int>

  /** A stat-increase object, in its key insertion order. */
  type StatIncreases = seq<(string, int)>

  /** findCoefficientKey: the catalog key that governs `position`. */
  function FindCoefficientKey(catalog: Catalog, position: string): Option<string> {
    ResolveGroupKey(Keys(catalog), position)
  }

  /**
   * getPositionCoefficients: the coefficient set of the resolved key, or
   * nothing when no key resolves (or the key found is the falsy empty string).
   */
  function GetPositionCoefficients(catalog: Catalog, position: string): (r: Option<CoefficientSet>)
    ensures r.Some? <==> FindCoefficientKey(catalog, position).Some? && FindCoefficientKey(catalog, position).value != ""
    ensures r.Some? ==> CatalogEntry(FindCoefficientKey(catalog, position).value, r.value) in catalog
  {
    match FindCoefficientKey(catalog, position)
    case None => None
    case Some(key) => if key == "" then None else Lookup(catalog, key)
  }

  /** `playerStats[key]?.value || 0`. */
  function StatValue(stats: Stats, key: string): int {
    if key in stats then stats[key] else 0
  }

  /** Σ value × coefficient over every entry of the set, a missing stat counting 0. */
  function WeightedSum(coefs: CoefficientSet, stats: Stats): int {
    if coefs == [] then 0
    else
      var last := coefs[|coefs| - 1];
      WeightedSum(coefs[..|coefs| - 1], stats) + StatValue(stats, last.key) * last.coefficient
  }

  /** Σ coefficient over every entry of the set. */
  function CoefficientSum(coefs: CoefficientSet): nat {
    if coefs == [] then 0 else CoefficientSum(coefs[..|coefs| - 1]) + coefs[|coefs| - 1].coefficient
  }

  /** `Math.round(w / c)` for a positive divisor: the nearest integer, a half rounded up. */
  function RoundHalfUp(w: int, c: int): int
    requires c > 0
  {
    (2 * w + c) / (2 * c)
  }

  /** The rounded value is within half a unit of w / c, a half going up. */
  lemma RoundHalfUpNearest(w: int, c: int)
    requires c > 0
    ensures var r := RoundHalfUp(w, c); c * (2 * r - 1) <= 2 * w < c * (2 * r + 1)
  {
    var n := 2 * w + c;
    var q := n / (2 * c);
    assert n == (2 * c) * q + n % (2 * c);
    assert (2 * c) * q == c * (2 * q);
    assert c * (2 * q - 1) == c * (2 * q) - c;
    assert c * (2 * q + 1) == c * (2 * q) + c;
  }

  /**
   * `Math.min(99, Math.max(0, Math.round(w / c)))`: the average rounded half
   * up, then clamped to [0, 99].
   */
  function RoundedRating(w: int, c: int): (r: int)
    requires c > 0
    ensures 0 <= r <= 99
  {
    var x := RoundHalfUp(w, c);
    if x <= 0 then 0 else if x >= 99 then 99 else x
  }

  /**
   * The clamped rating is the nearest integer to w / c when that lies
   * strictly between 0 and 99, and otherwise the bound the average falls
   * beyond.
   */
  lemma RoundedRatingRounds(w: int, c: int)
    requires c > 0
    ensures var r := RoundedRating(w, c);
            && (0 < r < 99 ==> c * (2 * r - 1) <= 2 * w < c * (2 * r + 1))
            && (r == 0 ==> 2 * w < c)
            && (r == 99 ==> 2 * w >= c * 197)
  {
    var x := RoundHalfUp(w, c);
    RoundHalfUpNearest(w, c);
    if x <= 0 {
      MulMonotone(c, 2 * x + 1, 1);
    } else if x >= 99 {
      MulMonotone(c, 197, 2 * x - 1);
    }
  }

  /** The value calculatePositionOVR returns. */
  function PositionOVR(catalog: Catalog, position: string, stats: Stats): (r: int)
    ensures 0 <= r <= 99
    ensures GetPositionCoefficients(catalog, position).None? ==> r == 0
  {
    match GetPositionCoefficients(catalog, position)
    case None => 0
    case Some(coefs) =>
      var c := CoefficientSum(coefs);
      if c == 0 then 0 else RoundedRating(WeightedSum(coefs, stats), c)
  }

  /**
   * A position's rating is the weighted average of its stats rounded half
   * up and clamped to [0, 99]; 0 when its coefficients sum to 0.
   */
  lemma PositionOVRRounds(catalog: Catalog, position: string, stats: Stats)
    requires GetPositionCoefficients(catalog, position).Some?
    ensures var r := PositionOVR(catalog, position, stats);
            var coefs := GetPositionCoefficients(catalog, position).value;
            var w, c := WeightedSum(coefs, stats), CoefficientSum(coefs);
            && (c == 0 ==> r == 0)
            && (c > 0 && 0 < r < 99 ==> c * (2 * r - 1) <= 2 * w < c * (2 * r + 1))
            && (c > 0 && r == 0 ==> 2 * w < c)
            && (c > 0 && r == 99 ==> 2 * w >= c * 197)
  {
    var coefs := GetPositionCoefficients(catalog, position).value;
    if CoefficientSum(coefs) > 0 {
      RoundedRatingRounds(WeightedSum(coefs, stats), CoefficientSum(coefs));
    }
  }

  /** calculatePositionOVR: the weighted loop over the position's coefficient set. */
  method CalculatePositionOVR(catalog: Catalog, position: string, stats: Stats) returns (ovr: int)
    ensures ovr == PositionOVR(catalog, position, stats)
  {
    var found := GetPositionCoefficients(catalog, position);
    if found.None? {
      return 0;
    }
    var coefs := found.value;
    var totalWeightedValue := 0;
    var totalCoefficient := 0;
    var i := 0;
    while i < |coefs|
      invariant 0 <= i <= |coefs|
      invariant totalWeightedValue == WeightedSum(coefs[..i], stats)
      invariant totalCoefficient == CoefficientSum(coefs[..i])
    {
      var coefficient := coefs[i].coefficient;
      var statValue := if coefs[i].key in stats then stats[coefs[i].key] else 0;
      totalWeightedValue := totalWeightedValue + statValue * coefficient;
      totalCoefficient := totalCoefficient + coefficient;
      assert coefs[..i + 1][..i] == coefs[..i];
      i := i + 1;
    }
    assert coefs[..i] == coefs;
    if totalCoefficient == 0 {
      return 0;
    }
    var rounded := (2 * totalWeightedValue + totalCoefficient) / (2 * totalCoefficient);
    ovr := Min(99, Max(0, rounded));
  }

  /** A stat the player lacks weighs exactly as a stat of value 0: its coefficient still counts. */
  lemma {:induction false} MissingStatCountsAsZero(coefs: CoefficientSet, stats: Stats, key: string)
    requires key !in stats
    ensures WeightedSum(coefs, stats[key := 0]) == WeightedSum(coefs, stats)
  {
    if coefs != [] {
      MissingStatCountsAsZero(coefs[..|coefs| - 1], stats, key);
    }
  }

  /** Illustration: {speed: 2, finishing: 1} with only speed = 130: round(260 / 3) = 87, not 130. */
  lemma MissingStatExample()
    ensures PositionOVR([CatalogEntry("ST", [CoefficientEntry("speed", "Tốc độ", 2),
                                             CoefficientEntry("finishing", "Dứt điểm", 1)])],
                        "ST", map["speed" := 130]) == 87
  {
    var coefs := [CoefficientEntry("speed", "Tốc độ", 2), CoefficientEntry("finishing", "Dứt điểm", 1)];
    assert coefs[..1][..0] == [];
    assert WeightedSum(coefs, map["speed" := 130]) == 260;
    assert CoefficientSum(coefs) == 3;
  }

  /** Illustration: {a: 1, b: 1} with a = 50, b = 51: the average 50.5 is rounded up to 51. */
  lemma RoundsHalfUpExample()
    ensures PositionOVR([CatalogEntry("CB", [CoefficientEntry("a", "A", 1), CoefficientEntry("b", "B", 1)])],
                        "CB", map["a" := 50, "b" := 51]) == 51
  {
    var coefs := [CoefficientEntry("a", "A", 1), CoefficientEntry("b", "B", 1)];
    assert coefs[..1][..0] == [];
    assert WeightedSum(coefs, map["a" := 50, "b" := 51]) == 101;
    assert CoefficientSum(coefs) == 2;
  }

  /** The positions calculateAllPositionOVR rates: the given ones, or every catalog key. */
  function PositionsToCalculate(catalog: Catalog, positions: seq<string>): seq<string> {
    if |positions| > 0 then positions else Keys(catalog)
  }

  /** calculateAllPositionOVR: one entry per position to calculate, holding its rating. */
  method CalculateAllPositionOVR(catalog: Catalog, stats: Stats, positions: seq<string>)
    returns (results: map<string, int>)
    ensures results.Keys == Members(PositionsToCalculate(catalog, positions))
    ensures forall p :: p in results ==> results[p] == PositionOVR(catalog, p, stats)
  {
    var targets := PositionsToCalculate(catalog, positions);
    results := map[];
    var i := 0;
    while i < |targets|
      invariant 0 <= i <= |targets|
      invariant results.Keys == Members(targets[..i])
      invariant forall p :: p in results ==> results[p] == PositionOVR(catalog, p, stats)
    {
      var ovr := CalculatePositionOVR(catalog, targets[i], stats);
      results := results[targets[i] := ovr];
      PrefixMembersStep(targets, i);
      i := i + 1;
    }
    assert targets[..i] == targets;
  }

  /** The elements of a list, as a set. */
  function Members(xs: seq<string>): set<string> {
    set p | p in xs
  }

  /** The members of one more element of a list. */
  lemma PrefixMembersStep(xs: seq<string>, i: nat)
    requires i < |xs|
    ensures Members(xs[..i + 1]) == Members(xs[..i]) + {xs[i]}
  {
    assert xs[..i + 1] == xs[..i] + [xs[i]];
  }

  /** A catalog key as getAllPositions lists it: its parts when grouped, else itself. */
  function ExpandKey(key: string): seq<string> {
    if Contains(key, "/") then Split(key, "/") else [key]
  }

  function AllPositions(keys: seq<string>): seq<string> {
    if keys == [] then [] else AllPositions(keys[..|keys| - 1]) + ExpandKey(keys[|keys| - 1])
  }

  /** getAllPositions: every catalog key, grouped keys expanded, in catalog order. */
  method GetAllPositions(catalog: Catalog) returns (positions: seq<string>)
    ensures positions == AllPositions(Keys(catalog))
  {
    var keys := Keys(catalog);
    positions := [];
    var i := 0;
    while i < |keys|
      invariant 0 <= i <= |keys|
      invariant positions == AllPositions(keys[..i])
    {
      var key := keys[i];
      assert keys[..i + 1][..i] == keys[..i];
      assert AllPositions(keys[..i + 1]) == positions + ExpandKey(key);
      if Contains(key, "/") {
        positions := positions + Split(key, "/");
      } else {
        positions := positions + [key];
      }
      i := i + 1;
    }
    assert keys[..i] == keys;
  }

  /** The listed positions are exactly the parts of the grouped keys and the plain keys. */
  lemma {:induction false} AllPositionsMembers(keys: seq<string>, p: string)
    ensures p in AllPositions(keys) <==> exists k :: k in keys && p in ExpandKey(k)
  {
    if keys != [] {
      var init := keys[..|keys| - 1];
      AllPositionsMembers(init, p);
      assert keys == init + [keys[|keys| - 1]];
      if exists k :: k in keys && p in ExpandKey(k) {
        var k :| k in keys && p in ExpandKey(k);
        if k != keys[|keys| - 1] {
          assert k in init;
        }
      }
    }
  }

  /** Every position getAllPositions lists resolves to a catalog key. */
  lemma AllPositionsResolve(keys: seq<string>, p: string)
    requires p in AllPositions(keys)
    ensures ResolveGroupKey(keys, p).Some?
  {
    AllPositionsMembers(keys, p);
    var k :| k in keys && p in ExpandKey(k);
    var i :| 0 <= i < |keys| && keys[i] == k;
    if Contains(k, "/") {
      assert GroupContains(keys[i], p);
    }
  }

  /** `newStats[key].value = Math.min(99, (value || 0) + increase)` when the stat exists. */
  function ApplyIncrease(stats: Stats, key: string, increase: int): Stats {
    if key in stats then stats[key := Min(99, stats[key] + increase)] else stats
  }

  /** The increases applied one after the other, in insertion order. */
  function ApplyIncreases(stats: Stats, increases: StatIncreases): Stats {
    if increases == [] then stats
    else ApplyIncreases(ApplyIncrease(stats, increases[0].0, increases[0].1), increases[1..])
  }

  /** A key appears at most once, as in a JavaScript object. */
  predicate DistinctKeys(increases: StatIncreases) {
    forall i, j :: 0 <= i < j < |increases| ==> increases[i].0 != increases[j].0
  }

  predicate Listed(increases: StatIncreases, key: string) {
    exists i :: 0 <= i < |increases| && increases[i].0 == key
  }

  /** `statIncreases[key] || 0` (for the positive amounts the search stores). */
  function IncreaseOf(increases: StatIncreases, key: string): int {
    if increases == [] then 0
    else if increases[0].0 == key then increases[0].1
    else IncreaseOf(increases[1..], key)
  }

  /**
   * Applying distinct increases sets each listed stat the player has to
   * min(99, old + increase), which lowers a stat already above 99, and
   * leaves every other stat, and the set of stats, unchanged.
   */
  lemma {:induction false} ApplyIncreasesEffect(stats: Stats, increases: StatIncreases)
    requires DistinctKeys(increases)
    ensures ApplyIncreases(stats, increases).Keys == stats.Keys
    ensures forall k :: k in stats ==>
              ApplyIncreases(stats, increases)[k]
              == if Listed(increases, k) then Min(99, stats[k] + IncreaseOf(increases, k)) else stats[k]
  {
    if increases != [] {
      var (k0, v0) := increases[0];
      var next := ApplyIncrease(stats, k0, v0);
      var rest := increases[1..];
      assert DistinctKeys(rest);
      ApplyIncreasesEffect(next, rest);
      forall k | k in stats
        ensures ApplyIncreases(stats, increases)[k]
                == if Listed(increases, k) then Min(99, stats[k] + IncreaseOf(increases, k)) else stats[k]
      {
        if k == k0 {
          assert Listed(increases, k);
          forall j | 0 <= j < |rest| ensures rest[j].0 != k {
            assert rest[j] == increases[j + 1];
          }
        } else {
          if Listed(increases, k) {
            var j :| 0 <= j < |increases| && increases[j].0 == k;
            assert rest[j - 1].0 == k;
          }
          if Listed(rest, k) {
            var j :| 0 <= j < |rest| && rest[j].0 == k;
            assert increases[j + 1].0 == k;
          }
        }
      }
    }
  }

  /** The increase loop of simulateTraining and of the plan search, on a deep clone. */
  method ApplyStatIncreases(stats: Stats, increases: StatIncreases) returns (newStats: Stats)
    ensures newStats == ApplyIncreases(stats, increases)
  {
    newStats := stats;
    var i := 0;
    while i < |increases|
      invariant 0 <= i <= |increases|
      invariant ApplyIncreases(newStats, increases[i..]) == ApplyIncreases(stats, increases)
    {
      var (key, increase) := increases[i];
      if key in newStats {
        newStats := newStats[key := Min(99, newStats[key] + increase)];
      }
      assert increases[i..][1..] == increases[i + 1..];
      i := i + 1;
    }
  }

  datatype TrainingSimulation = TrainingSimulation(
    position: string,
    currentOVR: int,
    newOVR: int,
    improvement: int,
    currentStats: Stats,
    newStats: Stats,
    statIncreases: StatIncreases)

  /** simulateTraining: the rating before and after the increases, and the change. */
  method SimulateTraining(catalog: Catalog, position: string, currentStats: Stats, statIncreases: StatIncreases)
    returns (r: TrainingSimulation)
    ensures r.position == position && r.statIncreases == statIncreases
    ensures r.currentStats == currentStats
    ensures r.currentOVR == PositionOVR(catalog, position, currentStats)
    ensures r.newStats == ApplyIncreases(currentStats, statIncreases)
    ensures r.newOVR == PositionOVR(catalog, position, r.newStats)
    ensures r.improvement == r.newOVR - r.currentOVR
  {
    var currentOVR := CalculatePositionOVR(catalog, position, currentStats);
    var newStats := ApplyStatIncreases(currentStats, statIncreases);
    var newOVR := CalculatePositionOVR(catalog, position, newStats);
    r := TrainingSimulation(position, currentOVR, newOVR, newOVR - currentOVR,
                            currentStats, newStats, statIncreases);
  }

  /** The `topN` getKeyStatsForPosition takes when its caller gives none. */
  const DefaultTopN: int := 5

  /** The `maxStatIncrease` calculateTrainingPlan takes when its caller gives none. */
  const DefaultMaxStatIncrease: int := 5

  /** getKeyStatsForPosition: the set sorted by descending coefficient, cut to `topN`. */
  function KeyStats(catalog: Catalog, position: string, topN: int): CoefficientSet {
    match GetPositionCoefficients(catalog, position)
    case None => []
    case Some(coefs) => Slice(SortByCoefficientDesc(coefs), topN)
  }

  /** In a sorted set, no entry after the first `n` has a larger coefficient than one of them. */
  lemma SortedPrefixIsTop(s: CoefficientSet, n: nat)
    requires SortedByCoefficientDesc(s) && n <= |s|
    ensures forall e: CoefficientEntry, i :: e in multiset(s) - multiset(s[..n]) && 0 <= i < n ==>
              e.coefficient <= s[i].coefficient
  {
    assert s == s[..n] + s[n..];
    assert multiset(s) - multiset(s[..n]) == multiset(s[n..]);
    forall e: CoefficientEntry, i | e in multiset(s[n..]) && 0 <= i < n
      ensures e.coefficient <= s[i].coefficient
    {
      var j :| 0 <= j < |s[n..]| && s[n..][j] == e;
      assert s[n + j] == e;
    }
  }

  /**
   * The key stats are min(topN, |set|) entries of the set in non-increasing
   * coefficient order, and no entry left out has a larger coefficient than
   * one kept; an unknown position has none.
   */
  lemma KeyStatsAreTop(catalog: Catalog, position: string, topN: int)
    ensures GetPositionCoefficients(catalog, position).None? ==> KeyStats(catalog, position, topN) == []
    ensures GetPositionCoefficients(catalog, position).Some? ==>
              var coefs := GetPositionCoefficients(catalog, position).value;
              var r := KeyStats(catalog, position, topN);
              && (topN >= 0 ==> |r| == Min(topN, |coefs|))
              && SortedByCoefficientDesc(r)
              && multiset(r) <= multiset(coefs)
  {
    if GetPositionCoefficients(catalog, position).Some? {
      var coefs := GetPositionCoefficients(catalog, position).value;
      var s := SortByCoefficientDesc(coefs);
      var r := KeyStats(catalog, position, topN);
      assert r == s[..|r|];
      assert s == r + s[|r|..];
      assert multiset(s) == multiset(r) + multiset(s[|r|..]);
    }
  }

  /** No entry of the set left out of the key stats has a larger coefficient than one kept. */
  lemma KeyStatsLeaveOutSmaller(catalog: Catalog, position: string, topN: int)
    requires GetPositionCoefficients(catalog, position).Some?
    ensures var coefs := GetPositionCoefficients(catalog, position).value;
            var r := KeyStats(catalog, position, topN);
            forall e: CoefficientEntry, i :: e in multiset(coefs) - multiset(r) && 0 <= i < |r| ==>
              e.coefficient <= r[i].coefficient
  {
    var coefs := GetPositionCoefficients(catalog, position).value;
    var s := SortByCoefficientDesc(coefs);
    var r := KeyStats(catalog, position, topN);
    assert r == s[..|r|];
    SortedPrefixIsTop(s, |r|);
  }


  /** The stat may still be raised: below the per-stat cap and below 99 after the planned increase. */
  predicate Eligible(stats: Stats, increases: StatIncreases, maxStatIncrease: int, key: string) {
    IncreaseOf(increases, key) < maxStatIncrease && StatValue(stats, key) + IncreaseOf(increases, key) < 99
  }

  /** Index of the first eligible key stat from `from` on. */
  function FirstEligible(keyStats: CoefficientSet, stats: Stats, increases: StatIncreases,
                         maxStatIncrease: int, from: nat): (r: Option<nat>)
    requires from <= |keyStats|
    ensures r.Some? ==> from <= r.value < |keyStats|
                        && Eligible(stats, increases, maxStatIncrease, keyStats[r.value].key)
    ensures forall j :: from <= j < (if r.Some? then r.value else |keyStats|) ==>
              !Eligible(stats, increases, maxStatIncrease, keyStats[j].key)
    decreases |keyStats| - from
  {
    if from == |keyStats| then None
    else if Eligible(stats, increases, maxStatIncrease, keyStats[from].key) then Some(from)
    else FirstEligible(keyStats, stats, increases, maxStatIncrease, from + 1)
  }

  /** `statIncreases[key] = v`: replaces an existing key in place, else appends it. */
  function SetIncrease(increases: StatIncreases, key: string, v: int): StatIncreases {
    if increases == [] then [(key, v)]
    else if increases[0].0 == key then [(key, v)] + increases[1..]
    else [increases[0]] + SetIncrease(increases[1..], key, v)
  }

  /** `Object.values(statIncreases).reduce((sum, val) => sum + val, 0)`. */
  function Total(increases: StatIncreases): int {
    if increases == [] then 0 else increases[0].1 + Total(increases[1..])
  }

  lemma {:induction false} SetIncreaseEffect(increases: StatIncreases, key: string, v: int)
    requires DistinctKeys(increases)
    ensures var r := SetIncrease(increases, key, v);
            && DistinctKeys(r)
            && Total(r) == Total(increases) - IncreaseOf(increases, key) + v
            && (forall k :: IncreaseOf(r, k) == if k == key then v else IncreaseOf(increases, k))
            && (forall i :: 0 <= i < |r| ==> r[i] == (key, v) || r[i] in increases)
  {
    if increases != [] && increases[0].0 != key {
      var rest := increases[1..];
      assert DistinctKeys(rest);
      SetIncreaseEffect(rest, key, v);
      var tail := SetIncrease(rest, key, v);
      var r := [increases[0]] + tail;
      forall i, j | 0 <= i < j < |r| ensures r[i].0 != r[j].0 {
        if i == 0 {
          assert r[j] == tail[j - 1];
          if tail[j - 1] != (key, v) {
            var m :| 0 <= m < |rest| && rest[m] == tail[j - 1];
            assert increases[m + 1] == r[j];
          }
        } else {
          assert r[i] == tail[i - 1] && r[j] == tail[j - 1];
        }
      }
      forall i | 0 <= i < |r| ensures r[i] == (key, v) || r[i] in increases {
        if i > 0 {
          assert r[i] == tail[i - 1];
          if tail[i - 1] != (key, v) {
            assert tail[i - 1] in rest;
          }
        }
      }
    } else if increases != [] {
      var r := [(key, v)] + increases[1..];
      forall i, j | 0 <= i < j < |r| ensures r[i].0 != r[j].0 {
        assert r[j] == increases[j];
        if i > 0 {
          assert r[i] == increases[i];
        }
      }
      forall k | k != key ensures IncreaseOf(r, k) == IncreaseOf(increases, k) {
        assert r[1..] == increases[1..];
      }
      assert r[1..] == increases[1..];
    }
  }

  /** One iteration's change: +1 on the first eligible key stat, if there is one. */
  function GreedyStep(keyStats: CoefficientSet, stats: Stats, increases: StatIncreases, maxStatIncrease: int)
    : StatIncreases
  {
    match FirstEligible(keyStats, stats, increases, maxStatIncrease, 0)
    case None => increases
    case Some(i) =>
      var key := keyStats[i].key;
      SetIncrease(increases, key, IncreaseOf(increases, key) + 1)
  }

  /** The planned increases after `n` iterations. */
  function GreedyIter(keyStats: CoefficientSet, stats: Stats, maxStatIncrease: int, n: nat): StatIncreases {
    if n == 0 then [] else GreedyStep(keyStats, stats, GreedyIter(keyStats, stats, maxStatIncrease, n - 1), maxStatIncrease)
  }

  function KeySet(keyStats: CoefficientSet): set<string> {
    set e | e in keyStats :: e.key
  }

  /** Every planned increase is on a key stat, between 1 and the per-stat cap. */
  predicate WithinCaps(increases: StatIncreases, keyStats: CoefficientSet, maxStatIncrease: int) {
    && DistinctKeys(increases)
    && forall i :: 0 <= i < |increases| ==>
         increases[i].0 in KeySet(keyStats) && 1 <= increases[i].1 <= maxStatIncrease
  }

  lemma {:induction false} IncreaseOfWithin(increases: StatIncreases, keyStats: CoefficientSet, maxStatIncrease: int, key: string)
    requires WithinCaps(increases, keyStats, maxStatIncrease)
    ensures IncreaseOf(increases, key) >= 0
  {
    if increases != [] && increases[0].0 != key {
      var rest := increases[1..];
      assert WithinCaps(rest, keyStats, maxStatIncrease) by {
        forall i | 0 <= i < |rest| ensures rest[i] == increases[i + 1] { }
      }
      IncreaseOfWithin(rest, keyStats, maxStatIncrease, key);
    }
  }

  /**
   * An iteration raises the first eligible key stat, in coefficient order,
   * by exactly 1 and changes no other planned increase; with no eligible
   * stat it changes nothing. The caps are kept.
   */
  lemma GreedyStepEffect(keyStats: CoefficientSet, stats: Stats, increases: StatIncreases, maxStatIncrease: int)
    requires WithinCaps(increases, keyStats, maxStatIncrease)
    ensures var r := GreedyStep(keyStats, stats, increases, maxStatIncrease);
            var pick := FirstEligible(keyStats, stats, increases, maxStatIncrease, 0);
            && Total(r) == Total(increases) + (if pick.Some? then 1 else 0)
            && forall k :: IncreaseOf(r, k)
                           == IncreaseOf(increases, k) + (if pick.Some? && keyStats[pick.value].key == k then 1 else 0)
  {
    var pick := FirstEligible(keyStats, stats, increases, maxStatIncrease, 0);
    if pick.Some? {
      var key := keyStats[pick.value].key;
      SetIncreaseEffect(increases, key, IncreaseOf(increases, key) + 1);
    }
  }

  /** One iteration keeps every planned increase on a key stat and within the cap. */
  lemma GreedyStepWithin(keyStats: CoefficientSet, stats: Stats, increases: StatIncreases, maxStatIncrease: int)
    requires WithinCaps(increases, keyStats, maxStatIncrease)
    ensures WithinCaps(GreedyStep(keyStats, stats, increases, maxStatIncrease), keyStats, maxStatIncrease)
  {
    var pick := FirstEligible(keyStats, stats, increases, maxStatIncrease, 0);
    if pick.Some? {
      var key := keyStats[pick.value].key;
      var v := IncreaseOf(increases, key) + 1;
      IncreaseOfWithin(increases, keyStats, maxStatIncrease, key);
      SetIncreaseShape(increases, key, v);
      var r := SetIncrease(increases, key, v);
      assert key in KeySet(keyStats);
      forall i | 0 <= i < |r| ensures r[i].0 in KeySet(keyStats) && 1 <= r[i].1 <= maxStatIncrease {
        if r[i] != (key, v) {
          WithinCapsMember(increases, keyStats, maxStatIncrease, r[i]);
        }
      }
    }
  }

  /** Setting an amount keeps the keys distinct and adds no entry but the one set. */
  lemma SetIncreaseShape(increases: StatIncreases, key: string, v: int)
    requires DistinctKeys(increases)
    ensures var r := SetIncrease(increases, key, v);
            && DistinctKeys(r)
            && forall i :: 0 <= i < |r| ==> r[i] == (key, v) || r[i] in increases
  {
    SetIncreaseEffect(increases, key, v);
  }

  lemma WithinCapsMember(increases: StatIncreases, keyStats: CoefficientSet, maxStatIncrease: int, x: (string, int))
    requires WithinCaps(increases, keyStats, maxStatIncrease) && x in increases
    ensures x.0 in KeySet(keyStats) && 1 <= x.1 <= maxStatIncrease
  {
    var m :| 0 <= m < |increases| && increases[m] == x;
  }

  /** After `n` iterations the caps hold and at most `n` points are planned. */
  lemma {:induction false} GreedyIterWithin(keyStats: CoefficientSet, stats: Stats, maxStatIncrease: int, n: nat)
    ensures WithinCaps(GreedyIter(keyStats, stats, maxStatIncrease, n), keyStats, maxStatIncrease)
    ensures 0 <= Total(GreedyIter(keyStats, stats, maxStatIncrease, n)) <= n
  {
    if n > 0 {
      GreedyIterWithin(keyStats, stats, maxStatIncrease, n - 1);
      GreedyStepEffect(keyStats, stats, GreedyIter(keyStats, stats, maxStatIncrease, n - 1), maxStatIncrease);
      GreedyStepWithin(keyStats, stats, GreedyIter(keyStats, stats, maxStatIncrease, n - 1), maxStatIncrease);
    }
  }

  const MaxIterations: nat := 100

  datatype TrainingPlan =
    | AlreadyMet(currentOVR: int, targetOVR: int)
    | Reached(currentOVR: int, targetOVR: int, achievedOVR: int, statIncreases: StatIncreases, totalIncrease: int)
    | Unreachable(currentOVR: int, targetOVR: int, maxStatIncrease: int)

  /** What the position is rated with the planned increases applied. */
  function PlanOVR(catalog: Catalog, position: string, stats: Stats, increases: StatIncreases): int {
    PositionOVR(catalog, position, ApplyIncreases(stats, increases))
  }

  /** The search from iteration `iterations` on. */
  function PlanSearch(catalog: Catalog, position: string, stats: Stats, targetOVR: int, maxStatIncrease: int,
                      keyStats: CoefficientSet, currentOVR: int, increases: StatIncreases, iterations: nat)
    : TrainingPlan
    decreases MaxIterations - iterations
  {
    if iterations >= MaxIterations then Unreachable(currentOVR, targetOVR, maxStatIncrease)
    else
      var testOVR := PlanOVR(catalog, position, stats, increases);
      if testOVR >= targetOVR then Reached(currentOVR, targetOVR, testOVR, increases, Total(increases))
      else PlanSearch(catalog, position, stats, targetOVR, maxStatIncrease, keyStats, currentOVR,
                      GreedyStep(keyStats, stats, increases, maxStatIncrease), iterations + 1)
  }

  /** The plan calculateTrainingPlan reports, searching over the 10 key stats. */
  function TrainingPlanFor(catalog: Catalog, position: string, stats: Stats, targetOVR: int, maxStatIncrease: int)
    : TrainingPlan
  {
    var currentOVR := PositionOVR(catalog, position, stats);
    if currentOVR >= targetOVR then AlreadyMet(currentOVR, targetOVR)
    else PlanSearch(catalog, position, stats, targetOVR, maxStatIncrease, KeyStats(catalog, position, 10),
                    currentOVR, [], 0)
  }

  /** The inner loop of calculateTrainingPlan: +1 on the first eligible key stat, then break. */
  method RaiseFirstEligible(keyStats: CoefficientSet, stats: Stats, increases: StatIncreases, maxStatIncrease: int)
    returns (raised: StatIncreases)
    ensures raised == GreedyStep(keyStats, stats, increases, maxStatIncrease)
  {
    var j := 0;
    while j < |keyStats|
      invariant 0 <= j <= |keyStats|
      invariant FirstEligible(keyStats, stats, increases, maxStatIncrease, 0)
                == FirstEligible(keyStats, stats, increases, maxStatIncrease, j)
    {
      var key := keyStats[j].key;
      var currentIncrease := IncreaseOf(increases, key);
      var currentValue := if key in stats then stats[key] else 0;
      if currentIncrease < maxStatIncrease && currentValue + currentIncrease < 99 {
        return SetIncrease(increases, key, currentIncrease + 1);
      }
      j := j + 1;
    }
    return increases;
  }

  /** calculateTrainingPlan: the early exit, then up to 100 test-and-raise iterations. */
  method CalculateTrainingPlan(catalog: Catalog, position: string, currentStats: Stats,
                               targetOVR: int, maxStatIncrease: int)
    returns (plan: TrainingPlan)
    ensures plan == TrainingPlanFor(catalog, position, currentStats, targetOVR, maxStatIncrease)
  {
    var currentOVR := CalculatePositionOVR(catalog, position, currentStats);
    if currentOVR >= targetOVR {
      return AlreadyMet(currentOVR, targetOVR);
    }
    var keyStats := KeyStats(catalog, position, 10);
    var statIncreases: StatIncreases := [];
    var iterations := 0;
    while iterations < MaxIterations
      invariant 0 <= iterations <= MaxIterations
      invariant PlanSearch(catalog, position, currentStats, targetOVR, maxStatIncrease, keyStats, currentOVR,
                           statIncreases, iterations)
                == TrainingPlanFor(catalog, position, currentStats, targetOVR, maxStatIncrease)
      decreases MaxIterations - iterations
    {
      var testStats := ApplyStatIncreases(currentStats, statIncreases);
      var testOVR := CalculatePositionOVR(catalog, position, testStats);
      if testOVR >= targetOVR {
        return Reached(currentOVR, targetOVR, testOVR, statIncreases, Total(statIncreases));
      }
      statIncreases := RaiseFirstEligible(keyStats, currentStats, statIncreases, maxStatIncrease);
      iterations := iterations + 1;
    }
    plan := Unreachable(currentOVR, targetOVR, maxStatIncrease);
  }

  /**
   * What a plan promises: "already met" exactly when the current rating
   * reaches the target; a reached plan's rating is the one its increases
   * give and reaches the target, its increases are distinct key stats each
   * raised by 1 to maxStatIncrease, totalIncrease is their sum and at most
   * 99; an unreachable plan means all 100 tested plans fell short.
   */
  lemma TrainingPlanSound(catalog: Catalog, position: string, stats: Stats, targetOVR: int, maxStatIncrease: int)
    ensures var plan := TrainingPlanFor(catalog, position, stats, targetOVR, maxStatIncrease);
            var keyStats := KeyStats(catalog, position, 10);
            && (plan.AlreadyMet? <==> PositionOVR(catalog, position, stats) >= targetOVR)
            && (plan.Reached? ==>
                  && plan.achievedOVR >= targetOVR
                  && plan.achievedOVR == PlanOVR(catalog, position, stats, plan.statIncreases)
                  && WithinCaps(plan.statIncreases, keyStats, maxStatIncrease)
                  && plan.totalIncrease == Total(plan.statIncreases) < MaxIterations)
            && (plan.Unreachable? ==>
                  forall m :: 0 <= m < MaxIterations ==>
                    PlanOVR(catalog, position, stats, GreedyIter(keyStats, stats, maxStatIncrease, m)) < targetOVR)
  {
    var currentOVR := PositionOVR(catalog, position, stats);
    if currentOVR < targetOVR {
      PlanSearchReached(catalog, position, stats, targetOVR, maxStatIncrease, KeyStats(catalog, position, 10),
                        currentOVR, 0);
      PlanSearchUnreachable(catalog, position, stats, targetOVR, maxStatIncrease, KeyStats(catalog, position, 10),
                            currentOVR, 0);
    }
  }

  /** A plan the search reaches is never "already met", and keeps the promises of a reached plan. */
  lemma {:induction false} PlanSearchReached(catalog: Catalog, position: string, stats: Stats, targetOVR: int,
                                             maxStatIncrease: int, keyStats: CoefficientSet, currentOVR: int,
                                             iterations: nat)
    requires iterations <= MaxIterations
    ensures var increases := GreedyIter(keyStats, stats, maxStatIncrease, iterations);
            var plan := PlanSearch(catalog, position, stats, targetOVR, maxStatIncrease, keyStats, currentOVR,
                                   increases, iterations);
            && !plan.AlreadyMet?
            && (plan.Reached? ==>
                  && plan.achievedOVR >= targetOVR
                  && plan.achievedOVR == PlanOVR(catalog, position, stats, plan.statIncreases)
                  && WithinCaps(plan.statIncreases, keyStats, maxStatIncrease)
                  && plan.totalIncrease == Total(plan.statIncreases) < MaxIterations)
    decreases MaxIterations - iterations
  {
    var increases := GreedyIter(keyStats, stats, maxStatIncrease, iterations);
    if iterations < MaxIterations {
      if PlanOVR(catalog, position, stats, increases) < targetOVR {
        PlanSearchStep(catalog, position, stats, targetOVR, maxStatIncrease, keyStats, currentOVR, iterations);
        PlanSearchReached(catalog, position, stats, targetOVR, maxStatIncrease, keyStats, currentOVR, iterations + 1);
      } else {
        var plan := PlanSearch(catalog, position, stats, targetOVR, maxStatIncrease, keyStats, currentOVR,
                               increases, iterations);
        assert plan == Reached(currentOVR, targetOVR, PlanOVR(catalog, position, stats, increases),
                               increases, Total(increases));
        GreedyIterWithin(keyStats, stats, maxStatIncrease, iterations);
      }
    }
  }

  /** The search gives up only when every plan from `iterations` on falls short. */
  lemma {:induction false} PlanSearchUnreachable(catalog: Catalog, position: string, stats: Stats, targetOVR: int,
                                                 maxStatIncrease: int, keyStats: CoefficientSet, currentOVR: int,
                                                 iterations: nat)
    requires iterations <= MaxIterations
    ensures var increases := GreedyIter(keyStats, stats, maxStatIncrease, iterations);
            var plan := PlanSearch(catalog, position, stats, targetOVR, maxStatIncrease, keyStats, currentOVR,
                                   increases, iterations);
            plan.Unreachable? ==>
              forall m :: iterations <= m < MaxIterations ==>
                PlanOVR(catalog, position, stats, GreedyIter(keyStats, stats, maxStatIncrease, m)) < targetOVR
    decreases MaxIterations - iterations
  {
    var increases := GreedyIter(keyStats, stats, maxStatIncrease, iterations);
    if iterations < MaxIterations && PlanOVR(catalog, position, stats, increases) < targetOVR {
      PlanSearchStep(catalog, position, stats, targetOVR, maxStatIncrease, keyStats, currentOVR, iterations);
      PlanSearchUnreachable(catalog, position, stats, targetOVR, maxStatIncrease, keyStats, currentOVR, iterations + 1);
    }
  }

  /** A plan that falls short hands the search on to the next iteration's plan. */
  lemma PlanSearchStep(catalog: Catalog, position: string, stats: Stats, targetOVR: int,
                       maxStatIncrease: int, keyStats: CoefficientSet, currentOVR: int, iterations: nat)
    requires iterations < MaxIterations
    requires PlanOVR(catalog, position, stats, GreedyIter(keyStats, stats, maxStatIncrease, iterations)) < targetOVR
    ensures PlanSearch(catalog, position, stats, targetOVR, maxStatIncrease, keyStats, currentOVR,
                       GreedyIter(keyStats, stats, maxStatIncrease, iterations), iterations)
         == PlanSearch(catalog, position, stats, targetOVR, maxStatIncrease, keyStats, currentOVR,
                       GreedyIter(keyStats, stats, maxStatIncrease, iterations + 1), iterations + 1)
  {
  }
}
