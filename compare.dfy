/**
 * The player comparison page: which coefficient group a player's position
 * falls in, the stats each card lists, the card's OVR with level, team-colour
 * and upgrade buffs, and the page state those buffs live in.
 *
 * This page differs from the server engine: only the stats a player has are
 * weighed (a missing stat drops out together with its coefficient), the
 * average is floored rather than rounded, and nothing is clamped.
 */
module ComparePage {
  import opened JsText
  import opened Coefficients
  import opened PlayerStats

  /** The groups the position selector offers, in its order. */
  const PositionGroups: seq<string> :=
    ["RW/LW", "LS/ST/RS", "LAM/CAM/RAM", "LCM/CM/RCM", "LDM/CDM/RDM", "LWB/RWB", "SW", "CB", "LB/RB", "GK"]

  /**
   * findPositionGroup: the same resolution rule as the catalog's, over the
   * selector's groups. The answer is always one of the groups; a group
   * offered as such is its own answer, and there is none exactly when the
   * position is neither a group nor a part of one.
   */
  function FindPositionGroup(position: string): (r: Option<string>)
    ensures r.Some? ==> r.value in PositionGroups
    ensures position in PositionGroups ==> r == Some(position)
    ensures r.None? <==>
              position !in PositionGroups
              && forall i :: 0 <= i < |PositionGroups| ==> !GroupContains(PositionGroups[i], position)
  {
    ResolveGroupKey(PositionGroups, position)
  }

  /** Illustration of the contract above: "CB" is itself a group and resolves to itself. */
  lemma FindPositionGroupDirect()
    ensures FindPositionGroup("CB") == Some("CB")
  {
    assert PositionGroups[7] == "CB";
  }

  /** `UPGRADE_OVR_BONUS`: the OVR an upgrade level adds. */
  const UpgradeOvrBonus: map<int, int> :=
    map[1 := 0, 2 := 1, 3 := 2, 4 := 4, 5 := 6, 6 := 9, 7 := 12,
        8 := 15, 9 := 18, 10 := 21, 11 := 23, 12 := 25, 13 := 27]

  /** `UPGRADE_OVR_BONUS[upgradeLevel || 1] || 0`. */
  function UpgradeBonus(upgradeLevel: Num): (bonus: int)
    ensures 0 <= bonus <= 27
    ensures !NumTruthy(upgradeLevel) ==> bonus == 0
    ensures NumTruthy(upgradeLevel) && !(1 <= upgradeLevel.value <= 13) ==> bonus == 0
  {
    var level := if NumTruthy(upgradeLevel) then upgradeLevel.value else 1;
    if level in UpgradeOvrBonus then UpgradeOvrBonus[level] else 0
  }

  /** Between levels 1 and 13 a higher upgrade never gives less, and each step adds 1 to 3. */
  lemma UpgradeBonusMonotone(a: int, b: int)
    requires 1 <= a <= b <= 13
    ensures UpgradeBonus(Int(a)) <= UpgradeBonus(Int(b))
    ensures b == a + 1 ==> 1 <= UpgradeBonus(Int(b)) - UpgradeBonus(Int(a)) <= 3
  {
  }

  /** A player's buffs as the selectors set them; each is a `parseInt` result. */
  datatype Buffs = Buffs(level: Num, teamColor: Num, upgradeLevel: Num)

  /** Every player starts without level or team-colour buff, at upgrade level 1. */
  const InitialBuffs: Buffs := Buffs(Int(0), Int(0), Int(1))

  /** `n || 0`. */
  function OrZero(n: Num): int {
    if NumTruthy(n) then n.value else 0
  }

  /** `(buffs.level || 0) + (buffs.teamColor || 0)`: what every stat is raised by. */
  function GlobalBuff(buffs: Buffs): int {
    OrZero(buffs.level) + OrZero(buffs.teamColor)
  }

  /** One entry of the card's stats array. */
  datatype StatRow = StatRow(key: string, name: string, coefficient: nat, baseValue: int)

  function RowOf(e: CoefficientEntry, stats: map<string, StatValue>): StatRow
    requires e.key in stats
  {
    StatRow(e.key, e.name, e.coefficient, NumericValue(stats[e.key]))
  }

  /**
   * The stats array of a card: the coefficient entries whose stat the player
   * has, ordered by descending coefficient. Sorting the rows or the entries
   * they come from is the same, since a row keeps its entry's coefficient.
   */
  function BuildStatsArray(coefs: CoefficientSet, stats: map<string, StatValue>): seq<StatRow> {
    var present := SortByCoefficientDesc(PresentEntries(coefs, stats.Keys));
    assert forall e :: e in present ==> e in multiset(present);
    RowsOf(present, stats)
  }

  function RowsOf(entries: CoefficientSet, stats: map<string, StatValue>): seq<StatRow>
    requires forall e :: e in entries ==> e.key in stats
  {
    seq(|entries|, i requires 0 <= i < |entries| => RowOf(entries[i], stats))
  }

  /** Each row comes from an entry of the set whose stat the player has, with its parsed value (0 when unparsable). */
  lemma StatsArraySound(coefs: CoefficientSet, stats: map<string, StatValue>, i: nat)
    requires i < |BuildStatsArray(coefs, stats)|
    ensures var row := BuildStatsArray(coefs, stats)[i];
            && row.key in stats && row.baseValue == NumericValue(stats[row.key])
            && CoefficientEntry(row.key, row.name, row.coefficient) in coefs
  {
    var present := SortByCoefficientDesc(PresentEntries(coefs, stats.Keys));
    assert present[i] in multiset(present);
  }

  /** Every entry of the set whose stat the player has gets a row. */
  lemma StatsArrayComplete(coefs: CoefficientSet, stats: map<string, StatValue>, e: CoefficientEntry)
    requires e in coefs && e.key in stats
    ensures exists i :: 0 <= i < |BuildStatsArray(coefs, stats)| && BuildStatsArray(coefs, stats)[i] == RowOf(e, stats)
  {
    var present := SortByCoefficientDesc(PresentEntries(coefs, stats.Keys));
    var rows := BuildStatsArray(coefs, stats);
    assert e in multiset(PresentEntries(coefs, stats.Keys));
    assert e in multiset(present);
    var i :| 0 <= i < |present| && present[i] == e;
    assert rows[i] == RowOf(e, stats);
  }

  /** The rows are in non-increasing coefficient order. */
  lemma StatsArraySorted(coefs: CoefficientSet, stats: map<string, StatValue>)
    ensures var rows := BuildStatsArray(coefs, stats);
            forall i, j :: 0 <= i < j < |rows| ==> rows[i].coefficient >= rows[j].coefficient
  {
    var present := SortByCoefficientDesc(PresentEntries(coefs, stats.Keys));
    var rows := BuildStatsArray(coefs, stats);
    assert forall i :: 0 <= i < |rows| ==> rows[i].coefficient == present[i].coefficient;
  }

  /** Σ (baseValue + buff) × coefficient over the rows. */
  function Weighted(rows: seq<StatRow>, buff: int): int {
    if rows == [] then 0
    else
      var last := rows[|rows| - 1];
      Weighted(rows[..|rows| - 1], buff) + (last.baseValue + buff) * last.coefficient
  }

  function RowCoefficientSum(rows: seq<StatRow>): nat {
    if rows == [] then 0 else RowCoefficientSum(rows[..|rows| - 1]) + rows[|rows| - 1].coefficient
  }

  /** Raising every stat by `buff` raises the weighted sum by buff × Σc. */
  lemma {:induction false} WeightedShift(rows: seq<StatRow>, buff: int)
    ensures Weighted(rows, buff) == Weighted(rows, 0) + buff * RowCoefficientSum(rows)
  {
    if rows != [] {
      var init, last := rows[..|rows| - 1], rows[|rows| - 1];
      WeightedShift(init, buff);
      assert (last.baseValue + buff) * last.coefficient == last.baseValue * last.coefficient + buff * last.coefficient;
      assert buff * RowCoefficientSum(rows) == buff * RowCoefficientSum(init) + buff * last.coefficient;
    }
  }

  datatype OvrData = OvrData(baseOVR: int, calculatedOVR: int, finalOVR: int, totalBuff: int)

  /** The ratings calculateOVR computes, with the floors written on integers. */
  function OvrFor(rows: seq<StatRow>, buffs: Buffs): OvrData {
    var c := RowCoefficientSum(rows);
    var bonus := UpgradeBonus(buffs.upgradeLevel);
    if c == 0 then OvrData(0, 0, bonus, bonus)
    else
      var base := Weighted(rows, 0) / c;
      var total := Weighted(rows, GlobalBuff(buffs));
      var final := (total + bonus * c) / c;
      OvrData(base, total / c, final, final - base)
  }

  /**
   * baseOVR is the floored weighted average of the base values; the buffed
   * rating is exactly base + level + team colour, the final one adds the
   * upgrade bonus, and totalBuff is their sum. Without coefficients both
   * averages are 0 and the final rating is the bonus alone.
   */
  lemma OvrForProperties(rows: seq<StatRow>, buffs: Buffs)
    ensures var r := OvrFor(rows, buffs);
            var c := RowCoefficientSum(rows);
            var g := GlobalBuff(buffs);
            var bonus := UpgradeBonus(buffs.upgradeLevel);
            && (c == 0 ==> r.baseOVR == 0 && r.calculatedOVR == 0 && r.finalOVR == bonus && r.totalBuff == bonus)
            && (c > 0 ==> c * r.baseOVR <= Weighted(rows, 0) < c * r.baseOVR + c)
            && (c > 0 ==> r.calculatedOVR == r.baseOVR + g && r.finalOVR == r.calculatedOVR + bonus)
            && (c > 0 ==> r.totalBuff == g + bonus)
  {
    var c := RowCoefficientSum(rows);
    if c > 0 {
      var w := Weighted(rows, 0);
      var g := GlobalBuff(buffs);
      var bonus := UpgradeBonus(buffs.upgradeLevel);
      WeightedShift(rows, g);
      var total := Weighted(rows, g);
      assert total == w + g * c;
      OvrArithmetic(w, g, bonus, c);
    }
  }

  /** The floors of calculateOVR on a weighted sum `w`, buff `g`, bonus and coefficient sum `c`. */
  lemma OvrArithmetic(w: int, g: int, bonus: int, c: int)
    requires c > 0
    ensures c * (w / c) <= w < c * (w / c) + c
    ensures (w + g * c) / c == w / c + g
    ensures (w + g * c + bonus * c) / c == w / c + g + bonus
  {
    assert w == c * (w / c) + w % c;
    DivPlusMultiple(w, g, c);
    DivPlusMultiple(w + g * c, bonus, c);
  }

  /** calculateOVR: one pass over the stats array accumulating both weighted sums. */
  method CalculateOVR(rows: seq<StatRow>, buffs: Buffs) returns (r: OvrData)
    ensures r == OvrFor(rows, buffs)
  {
    var levelBuff := OrZero(buffs.level);
    var teamColorBuff := OrZero(buffs.teamColor);
    var upgradeOVRBonus := UpgradeBonus(buffs.upgradeLevel);
    var totalWeighted := 0;
    var totalCoefficient := 0;
    var baseWeighted := 0;
    var i := 0;
    while i < |rows|
      invariant 0 <= i <= |rows|
      invariant baseWeighted == Weighted(rows[..i], 0)
      invariant totalWeighted == Weighted(rows[..i], levelBuff + teamColorBuff)
      invariant totalCoefficient == RowCoefficientSum(rows[..i])
    {
      var stat := rows[i];
      baseWeighted := baseWeighted + stat.baseValue * stat.coefficient;
      totalWeighted := totalWeighted + (stat.baseValue + levelBuff + teamColorBuff) * stat.coefficient;
      totalCoefficient := totalCoefficient + stat.coefficient;
      assert rows[..i + 1][..i] == rows[..i];
      i := i + 1;
    }
    assert rows[..i] == rows;
    if totalCoefficient > 0 {
      var baseOVR := baseWeighted / totalCoefficient;
      var finalOVR := (totalWeighted + upgradeOVRBonus * totalCoefficient) / totalCoefficient;
      r := OvrData(baseOVR, totalWeighted / totalCoefficient, finalOVR, finalOVR - baseOVR);
    } else {
      r := OvrData(0, 0, upgradeOVRBonus, upgradeOVRBonus);
    }
  }

  lemma {:induction false} PresentEntriesSkip(coefs: CoefficientSet, e: CoefficientEntry, present: set<string>)
    requires e.key !in present
    ensures PresentEntries(coefs + [e], present) == PresentEntries(coefs, present)
  {
    if coefs == [] {
      assert PresentEntries([e], present) == PresentEntries([e][1..], present);
    } else {
      assert (coefs + [e])[1..] == coefs[1..] + [e];
      PresentEntriesSkip(coefs[1..], e, present);
    }
  }

  /**
   * A coefficient entry whose stat the player lacks changes nothing on the
   * card: it drops out with its coefficient (where the server engine would
   * count the coefficient and a value of 0).
   */
  lemma MissingStatIgnored(coefs: CoefficientSet, e: CoefficientEntry, stats: map<string, StatValue>)
    requires e.key !in stats
    ensures BuildStatsArray(coefs + [e], stats) == BuildStatsArray(coefs, stats)
  {
    PresentEntriesSkip(coefs, e, stats.Keys);
  }

  /** Illustration of the lemmas above: with only speed = 130 present, the card rates 130 at every weight. */
  lemma SingleStatExample()
    ensures OvrFor([StatRow("speed", "Tốc độ", 2, 130)], InitialBuffs) == OvrData(130, 130, 130, 0)
  {
    var rows := [StatRow("speed", "Tốc độ", 2, 130)];
    assert rows[..0] == [];
  }

  /** The five colour classes of a shown stat value, from the lowest band up. */
  datatype ColorBand = Gray | Purple | Orange | Yellow | Blue

  function BandRank(b: ColorBand): nat {
    match b
    case Gray => 0
    case Purple => 1
    case Orange => 2
    case Yellow => 3
    case Blue => 4
  }

  /** getStatColorClass: bands below 120, 130, 140 and 160, then the top band. */
  function StatColorClass(value: int): (band: ColorBand)
    ensures band == Gray <==> value < 120
    ensures band == Purple <==> 120 <= value < 130
    ensures band == Orange <==> 130 <= value < 140
    ensures band == Yellow <==> 140 <= value < 160
    ensures band == Blue <==> value >= 160
  {
    if value < 120 then Gray
    else if value < 130 then Purple
    else if value < 140 then Orange
    else if value < 160 then Yellow
    else Blue
  }

  /** A higher value is never shown in a lower band. */
  lemma StatColorMonotone(v: int, w: int)
    requires v <= w
    ensures BandRank(StatColorClass(v)) <= BandRank(StatColorClass(w))
  {
  }

  /** One rendered row: name, shown value and its band, the buff note, the coefficient. */
  datatype ShownStat = ShownStat(name: string, value: int, band: ColorBand, buffNote: Option<int>, coefficient: nat)

  /** renderStatsRows: each stat shown at base + level + team colour. */
  function RenderStatsRows(rows: seq<StatRow>, buffs: Buffs): seq<ShownStat> {
    var g := GlobalBuff(buffs);
    seq(|rows|, i requires 0 <= i < |rows| =>
      var v := rows[i].baseValue + g;
      ShownStat(rows[i].name, v, StatColorClass(v), if g > 0 then Some(g) else None, rows[i].coefficient))
  }

  function ShownWeighted(shown: seq<ShownStat>): int {
    if shown == [] then 0
    else ShownWeighted(shown[..|shown| - 1]) + shown[|shown| - 1].value * shown[|shown| - 1].coefficient
  }

  /**
   * The card is consistent: the values it lists, weighted by the listed
   * coefficients, give exactly the buffed weighted sum its OVR is the floor
   * of.
   */
  lemma {:induction false} ShownValuesWeighted(rows: seq<StatRow>, buffs: Buffs)
    ensures ShownWeighted(RenderStatsRows(rows, buffs)) == Weighted(rows, GlobalBuff(buffs))
  {
    if rows != [] {
      var init := rows[..|rows| - 1];
      ShownValuesWeighted(init, buffs);
      assert RenderStatsRows(rows, buffs)[..|rows| - 1] == RenderStatsRows(init, buffs);
    }
  }

  /** The card's OVR is the listed weighted sum divided by the coefficient sum. */
  lemma ShownValuesGiveCalculatedOVR(rows: seq<StatRow>, buffs: Buffs)
    requires RowCoefficientSum(rows) > 0
    ensures OvrFor(rows, buffs).calculatedOVR == ShownWeighted(RenderStatsRows(rows, buffs)) / RowCoefficientSum(rows)
  {
    ShownValuesWeighted(rows, buffs);
  }

  /** Every listed stat carries the buff note exactly when the buff is positive. */
  lemma ShownBuffNote(rows: seq<StatRow>, buffs: Buffs)
    ensures var shown := RenderStatsRows(rows, buffs);
            && |shown| == |rows|
            && forall i :: 0 <= i < |shown| ==> (shown[i].buffNote.Some? <==> GlobalBuff(buffs) > 0)
  {
  }

  /** A player as the compare page keeps it. */
  datatype ComparedPlayer = ComparedPlayer(playerId: string, position: string, stats: map<string, StatValue>)

  /** The ids of the players. */
  function IdsOf(players: seq<ComparedPlayer>): set<string> {
    set p | p in players :: p.playerId
  }

  /** The buffs after `playerBuffs[p.playerId] = initial` for each player in turn. */
  function WithInitialBuffs(buffs: map<string, Buffs>, players: seq<ComparedPlayer>): map<string, Buffs> {
    if players == [] then buffs
    else WithInitialBuffs(buffs, players[..|players| - 1])[players[|players| - 1].playerId := InitialBuffs]
  }

  /**
   * Giving the players their initial buffs adds their ids, sets each of them
   * to the initial buffs and keeps every other player's buffs.
   */
  lemma {:induction false} WithInitialBuffsEffect(buffs: map<string, Buffs>, players: seq<ComparedPlayer>)
    ensures WithInitialBuffs(buffs, players).Keys == buffs.Keys + IdsOf(players)
    ensures forall p :: p in players ==> WithInitialBuffs(buffs, players)[p.playerId] == InitialBuffs
    ensures forall id :: id in buffs && id !in IdsOf(players) ==> WithInitialBuffs(buffs, players)[id] == buffs[id]
  {
    if players != [] {
      var init := players[..|players| - 1];
      var last := players[|players| - 1];
      WithInitialBuffsEffect(buffs, init);
      assert players == init + [last];
      assert IdsOf(players) == IdsOf(init) + {last.playerId} by {
        assert forall q :: q in players <==> q in init || q == last;
      }
    }
  }

  /** The position selected first: the first player's group, else the first group. */
  function DefaultPosition(first: ComparedPlayer): (p: string)
    ensures p in PositionGroups
    ensures first.position != "" && FindPositionGroup(first.position).Some? ==> p == FindPositionGroup(first.position).value
    ensures first.position == "" || FindPositionGroup(first.position).None? ==> p == "RW/LW"
  {
    if first.position != "" then
      match FindPositionGroup(first.position)
      case Some(group) => group
      case None => PositionGroups[0]
    else PositionGroups[0]
  }

  /** `players.find(p => p.playerId === playerId)`. */
  function FindPlayer(players: seq<ComparedPlayer>, playerId: string): (r: Option<ComparedPlayer>)
    ensures r.Some? ==> r.value in players && r.value.playerId == playerId
    ensures r.None? ==> forall p :: p in players ==> p.playerId != playerId
  {
    if players == [] then None
    else if players[0].playerId == playerId then Some(players[0])
    else FindPlayer(players[1..], playerId)
  }

  datatype BuffField = Level | TeamColor | UpgradeLevel

  function WithField(buffs: Buffs, field: BuffField, v: Num): Buffs {
    match field
    case Level => buffs.(level := v)
    case TeamColor => buffs.(teamColor := v)
    case UpgradeLevel => buffs.(upgradeLevel := v)
  }

  /** What a card shows after a buff change: its ratings and its stat rows. */
  datatype CardUpdate = CardUpdate(ovr: OvrData, rows: seq<ShownStat>)

  /** The page state: the compared players, the selected group, the catalog and each player's buffs. */
  class CompareState {
    var players: seq<ComparedPlayer>
    var selectedPosition: Option<string>
    var positionCoefficients: Option<Catalog>
    var playerBuffs: map<string, Buffs>

    constructor()
      ensures players == [] && selectedPosition == None && positionCoefficients == None && playerBuffs == map[]
    {
      players := [];
      selectedPosition := None;
      positionCoefficients := None;
      playerBuffs := map[];
    }

    /** `positionCoefficients[selectedPosition] || {}` (a null selection reads the key "null"). */
    function SelectedCoefficients(): CoefficientSet
      reads this
      requires positionCoefficients.Some?
    {
      var key := match selectedPosition case Some(p) => p case None => "null";
      match Lookup(positionCoefficients.value, key) case Some(coefs) => coefs case None => []
    }

    /**
     * init with the saved players and the fetched catalog: fewer than two
     * players is an error that changes nothing; otherwise the default group
     * is selected and every player gets the initial buffs.
     */
    method Init(savedPlayers: seq<ComparedPlayer>, catalog: Catalog) returns (ok: bool)
      modifies this
      ensures ok <==> |savedPlayers| >= 2
      ensures !ok ==> unchanged(this)
      ensures ok ==> players == savedPlayers && positionCoefficients == Some(catalog)
      ensures ok ==> selectedPosition == Some(DefaultPosition(savedPlayers[0]))
      ensures ok ==> playerBuffs == WithInitialBuffs(old(playerBuffs), savedPlayers)
    {
      if |savedPlayers| < 2 {
        return false;
      }
      var position := DefaultPosition(savedPlayers[0]);
      players := savedPlayers;
      positionCoefficients := Some(catalog);
      selectedPosition := Some(position);
      var i := 0;
      while i < |savedPlayers|
        invariant 0 <= i <= |savedPlayers|
        invariant players == savedPlayers && positionCoefficients == Some(catalog)
        invariant selectedPosition == Some(position)
        invariant playerBuffs == WithInitialBuffs(old(playerBuffs), savedPlayers[..i])
      {
        assert savedPlayers[..i + 1][..i] == savedPlayers[..i];
        playerBuffs := playerBuffs[savedPlayers[i].playerId := InitialBuffs];
        i := i + 1;
      }
      assert savedPlayers[..i] == savedPlayers;
      return true;
    }

    /** onPositionChange: only the selection changes; the buffs are kept. */
    method OnPositionChange(value: string)
      modifies this`selectedPosition
      ensures selectedPosition == Some(value)
    {
      selectedPosition := Some(value);
    }

    /**
     * updateBuff: sets one buff of one player to `parseInt(value)`, then
     * recomputes that player's card. An unknown player id stops at the first
     * line (nothing changes); a player missing from the list, or a catalog
     * not loaded yet, leaves the buff changed and shows nothing new.
     */
    method UpdateBuff(playerId: string, field: BuffField, value: string) returns (shown: Option<CardUpdate>)
      modifies this`playerBuffs
      ensures playerId !in old(playerBuffs) ==> playerBuffs == old(playerBuffs) && shown.None?
      ensures playerId in old(playerBuffs) ==>
                playerBuffs == old(playerBuffs)[playerId := WithField(old(playerBuffs)[playerId], field, ParseInt(value))]
      ensures shown.Some? <==>
                playerId in old(playerBuffs) && FindPlayer(players, playerId).Some? && positionCoefficients.Some?
      ensures shown.Some? ==>
                var rows := BuildStatsArray(SelectedCoefficients(), FindPlayer(players, playerId).value.stats);
                shown.value == CardUpdate(OvrFor(rows, playerBuffs[playerId]), RenderStatsRows(rows, playerBuffs[playerId]))
    {
      if playerId !in playerBuffs {
        return None;
      }
      playerBuffs := playerBuffs[playerId := WithField(playerBuffs[playerId], field, ParseInt(value))];
      var player := FindPlayer(players, playerId);
      if player.None? || positionCoefficients.None? {
        return None;
      }
      var rows := BuildStatsArray(SelectedCoefficients(), player.value.stats);
      var buffs := playerBuffs[playerId];
      var ovr := CalculateOVR(rows, buffs);
      return Some(CardUpdate(ovr, RenderStatsRows(rows, buffs)));
    }
  }
}
