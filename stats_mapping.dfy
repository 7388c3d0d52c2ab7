/**
 * The translation between the Vietnamese stat labels shown on the scraped
 * pages and the English stat keys used everywhere else: the fixed 34-entry
 * table, its inverse, the two lookups and the transformation of a scraped
 * stats object.
 */
module StatsMapping {
  import opened JsText

  /** Label/key pairs in the order the table lists them. */
  type LabelTable = seq<(string, string)>

  /** `STATS_MAPPING`: Vietnamese label to English key. */
  const StatsMappingTable: LabelTable := [
      ("Tốc độ", "speed"), ("Tăng tốc", "acceleration"),
      ("Dứt điểm", "finishing"), ("Lực sút", "shotPower"),
      ("Sút xa", "longShots"), ("Chọn vị trí", "positioning"),
      ("Vô lê", "volleys"), ("Penalty", "penalties"),
      ("Chuyền ngắn", "shortPassing"), ("Tầm nhìn", "vision"),
      ("Tạt bóng", "crossing"), ("Chuyền dài", "longPassing"),
      ("Đá phạt", "freeKickAccuracy"), ("Sút xoáy", "curve"),
      ("Rê bóng", "dribbling"), ("Giữ bóng", "ballControl"),
      ("Khéo léo", "agility"), ("Thăng bằng", "balance"),
      ("Phản ứng", "reactions"), ("Kèm người", "marking"),
      ("Lấy bóng", "standingTackle"), ("Cắt bóng", "interceptions"),
      ("Xoạc bóng", "slidingTackle"), ("Đánh đầu", "heading"),
      ("Sức mạnh", "strength"), ("Thể lực", "stamina"),
      ("Quyết đoán", "aggression"), ("Nhảy", "jumping"),
      ("Bình tĩnh", "composure"), ("TM đổ người", "gkDiving"),
      ("TM bắt bóng", "gkHandling"), ("TM phát bóng", "gkKicking"),
      ("TM phản xạ", "gkReflexes"), ("TM chọn vị trí", "gkPositioning")
  ]

  predicate DistinctLabels(t: LabelTable) {
    forall i, j :: 0 <= i < j < |t| ==> t[i].0 != t[j].0
  }

  predicate DistinctKeys(t: LabelTable) {
    forall i, j :: 0 <= i < j < |t| ==> t[i].1 != t[j].1
  }

  predicate NonEmptyEntries(t: LabelTable) {
    forall i :: 0 <= i < |t| ==> t[i].0 != "" && t[i].1 != ""
  }

  // ---------------------------------------------------------------------
  // The table is well formed: its labels are distinct, its keys are
  // distinct, and none is empty. The two position functions below are left
  // inverses of the table's columns, which is what makes each column
  // injective.
  // ---------------------------------------------------------------------

  /** The row of an English key in the table, or -1. */
  function KeyPosition(s: string): int {
    if s == "speed" then 0
    else if s == "acceleration" then 1
    else if s == "finishing" then 2
    else if s == "shotPower" then 3
    else if s == "longShots" then 4
    else if s == "positioning" then 5
    else if s == "volleys" then 6
    else if s == "penalties" then 7
    else if s == "shortPassing" then 8
    else if s == "vision" then 9
    else if s == "crossing" then 10
    else if s == "longPassing" then 11
    else if s == "freeKickAccuracy" then 12
    else if s == "curve" then 13
    else if s == "dribbling" then 14
    else if s == "ballControl" then 15
    else if s == "agility" then 16
    else if s == "balance" then 17
    else if s == "reactions" then 18
    else if s == "marking" then 19
    else if s == "standingTackle" then 20
    else if s == "interceptions" then 21
    else if s == "slidingTackle" then 22
    else if s == "heading" then 23
    else if s == "strength" then 24
    else if s == "stamina" then 25
    else if s == "aggression" then 26
    else if s == "jumping" then 27
    else if s == "composure" then 28
    else if s == "gkDiving" then 29
    else if s == "gkHandling" then 30
    else if s == "gkKicking" then 31
    else if s == "gkReflexes" then 32
    else if s == "gkPositioning" then 33
    else -1
  }

  /** The row of a Vietnamese label in the table, or -1. */
  function LabelPosition(s: string): int {
    if s == "Tốc độ" then 0
    else if s == "Tăng tốc" then 1
    else if s == "Dứt điểm" then 2
    else if s == "Lực sút" then 3
    else if s == "Sút xa" then 4
    else if s == "Chọn vị trí" then 5
    else if s == "Vô lê" then 6
    else if s == "Penalty" then 7
    else if s == "Chuyền ngắn" then 8
    else if s == "Tầm nhìn" then 9
    else if s == "Tạt bóng" then 10
    else if s == "Chuyền dài" then 11
    else if s == "Đá phạt" then 12
    else if s == "Sút xoáy" then 13
    else if s == "Rê bóng" then 14
    else if s == "Giữ bóng" then 15
    else if s == "Khéo léo" then 16
    else if s == "Thăng bằng" then 17
    else if s == "Phản ứng" then 18
    else if s == "Kèm người" then 19
    else if s == "Lấy bóng" then 20
    else if s == "Cắt bóng" then 21
    else if s == "Xoạc bóng" then 22
    else if s == "Đánh đầu" then 23
    else if s == "Sức mạnh" then 24
    else if s == "Thể lực" then 25
    else if s == "Quyết đoán" then 26
    else if s == "Nhảy" then 27
    else if s == "Bình tĩnh" then 28
    else if s == "TM đổ người" then 29
    else if s == "TM bắt bóng" then 30
    else if s == "TM phát bóng" then 31
    else if s == "TM phản xạ" then 32
    else if s == "TM chọn vị trí" then 33
    else -1
  }

  predicate TableRowFacts(i: int)
    requires 0 <= i < |StatsMappingTable|
  {
    KeyPosition(StatsMappingTable[i].1) == i && LabelPosition(StatsMappingTable[i].0) == i
    && StatsMappingTable[i].0 != "" && StatsMappingTable[i].1 != ""
  }

  lemma TableRows0(i: int)
    requires 0 <= i < 2
    ensures TableRowFacts(i)
  {
    if i == 0 {}
  }

  lemma TableRows2(i: int)
    requires 2 <= i < 4
    ensures TableRowFacts(i)
  {
    if i == 2 {}
  }

  lemma TableRows4(i: int)
    requires 4 <= i < 6
    ensures TableRowFacts(i)
  {
    if i == 4 {}
  }

  lemma TableRows6(i: int)
    requires 6 <= i < 8
    ensures TableRowFacts(i)
  {
    if i == 6 {}
  }

  lemma TableRows8(i: int)
    requires 8 <= i < 10
    ensures TableRowFacts(i)
  {
    if i == 8 {}
  }

  lemma TableRows10(i: int)
    requires 10 <= i < 12
    ensures TableRowFacts(i)
  {
    if i == 10 {}
  }

  lemma TableRows12(i: int)
    requires 12 <= i < 14
    ensures TableRowFacts(i)
  {
    if i == 12 {}
  }

  lemma TableRows14(i: int)
    requires 14 <= i < 16
    ensures TableRowFacts(i)
  {
    if i == 14 {}
  }

  lemma TableRows16(i: int)
    requires 16 <= i < 18
    ensures TableRowFacts(i)
  {
    if i == 16 {}
  }

  lemma TableRows18(i: int)
    requires 18 <= i < 20
    ensures TableRowFacts(i)
  {
    if i == 18 {}
  }

  lemma TableRows20(i: int)
    requires 20 <= i < 22
    ensures TableRowFacts(i)
  {
    if i == 20 {}
  }

  lemma TableRows22(i: int)
    requires 22 <= i < 24
    ensures TableRowFacts(i)
  {
    if i == 22 {}
  }

  lemma TableRows24(i: int)
    requires 24 <= i < 26
    ensures TableRowFacts(i)
  {
    if i == 24 {}
  }

  lemma TableRows26(i: int)
    requires 26 <= i < 28
    ensures TableRowFacts(i)
  {
    if i == 26 {}
  }

  lemma TableRows28(i: int)
    requires 28 <= i < 30
    ensures TableRowFacts(i)
  {
    if i == 28 {}
  }

  lemma TableRows30(i: int)
    requires 30 <= i < 32
    ensures TableRowFacts(i)
  {
    if i == 30 {}
  }

  lemma TableRows32(i: int)
    requires 32 <= i < 34
    ensures TableRowFacts(i)
  {
    if i == 32 {}
  }

  lemma TableRow(i: int)
    requires 0 <= i < |StatsMappingTable|
    ensures TableRowFacts(i)
  {
    if i < 2 { TableRows0(i); }
    else if i < 4 { TableRows2(i); }
    else if i < 6 { TableRows4(i); }
    else if i < 8 { TableRows6(i); }
    else if i < 10 { TableRows8(i); }
    else if i < 12 { TableRows10(i); }
    else if i < 14 { TableRows12(i); }
    else if i < 16 { TableRows14(i); }
    else if i < 18 { TableRows16(i); }
    else if i < 20 { TableRows18(i); }
    else if i < 22 { TableRows20(i); }
    else if i < 24 { TableRows22(i); }
    else if i < 26 { TableRows24(i); }
    else if i < 28 { TableRows26(i); }
    else if i < 30 { TableRows28(i); }
    else if i < 32 { TableRows30(i); }
    else { TableRows32(i); }
  }

  lemma StatsMappingWellFormed()
    ensures |StatsMappingTable| == 34
    ensures DistinctLabels(StatsMappingTable) && DistinctKeys(StatsMappingTable)
    ensures NonEmptyEntries(StatsMappingTable)
  {
    forall i, j | 0 <= i < j < |StatsMappingTable|
      ensures StatsMappingTable[i].0 != StatsMappingTable[j].0 && StatsMappingTable[i].1 != StatsMappingTable[j].1
    {
      TableRow(i);
      TableRow(j);
    }
    forall i | 0 <= i < |StatsMappingTable| ensures StatsMappingTable[i].0 != "" && StatsMappingTable[i].1 != "" {
      TableRow(i);
    }
  }

  // ---------------------------------------------------------------------
  // Lookups
  // ---------------------------------------------------------------------

  /** `table[label]` on the object the table denotes. */
  function Find(t: LabelTable, vnName: string): (r: Option<string>)
    ensures r.None? <==> forall i :: 0 <= i < |t| ==> t[i].0 != vnName
    ensures r.Some? ==> exists i :: 0 <= i < |t| && t[i] == (vnName, r.value)
  {
    if t == [] then None
    else if t[0].0 == vnName then Some(t[0].1)
    else
      var r := Find(t[1..], vnName);
      assert forall i :: 0 <= i < |t| - 1 ==> t[1..][i] == t[i + 1];
      r
  }

  /**
   * `STATS_NAMES`: the reduce over the table's entries that stores each
   * label under its key, so a key listed twice keeps its last label.
   */
  function Inverse(t: LabelTable): (names: map<string, string>)
    ensures forall k :: k in names <==> exists i :: 0 <= i < |t| && t[i].1 == k
  {
    if t == [] then map[]
    else
      var init := Inverse(t[..|t| - 1]);
      assert forall i :: 0 <= i < |t| - 1 ==> t[..|t| - 1][i] == t[i];
      init[t[|t| - 1].1 := t[|t| - 1].0]
  }

  /** With distinct keys the inverse maps every key back to its own label. */
  lemma {:induction false} InverseAt(t: LabelTable, i: nat)
    requires DistinctKeys(t) && i < |t|
    ensures Inverse(t)[t[i].1] == t[i].0
  {
    if i < |t| - 1 {
      var init := t[..|t| - 1];
      assert init[i] == t[i];
      InverseAt(init, i);
    }
  }

  /** The reduce that builds `STATS_NAMES`, one entry at a time. */
  method BuildStatsNames(t: LabelTable) returns (names: map<string, string>)
    ensures names == Inverse(t)
  {
    names := map[];
    var i := 0;
    while i < |t|
      invariant 0 <= i <= |t|
      invariant names == Inverse(t[..i])
    {
      assert t[..i + 1][..i] == t[..i];
      names := names[t[i].1 := t[i].0];
      i := i + 1;
    }
    assert t[..|t|] == t;
  }

  const StatsNames: map<string, string> := Inverse(StatsMappingTable)

  /** `table[vnName] || vnName`. */
  function KeyIn(t: LabelTable, vnName: string): string {
    match Find(t, vnName)
    case Some(key) => if key != "" then key else vnName
    case None => vnName
  }

  /** `getStatKey`: the mapped key when there is a truthy one, else the input. */
  function GetStatKey(vnName: string): string {
    KeyIn(StatsMappingTable, vnName)
  }

  /** `getStatName`: the mapped label when there is a truthy one, else the input. */
  function GetStatName(key: string): string {
    if key in StatsNames && StatsNames[key] != "" then StatsNames[key] else key
  }

  /** Every label of the table maps to its own key. */
  lemma GetStatKeyMapped(i: nat)
    requires i < |StatsMappingTable|
    ensures GetStatKey(StatsMappingTable[i].0) == StatsMappingTable[i].1
  {
    StatsMappingWellFormed();
  }

  /** A string that is not a label comes back unchanged. */
  lemma GetStatKeyUnmapped(vnName: string)
    requires forall i :: 0 <= i < |StatsMappingTable| ==> StatsMappingTable[i].0 != vnName
    ensures GetStatKey(vnName) == vnName
  {
  }

  /** Every key of the table maps back to its own label. */
  lemma GetStatNameMapped(i: nat)
    requires i < |StatsMappingTable|
    ensures GetStatName(StatsMappingTable[i].1) == StatsMappingTable[i].0
  {
    StatsMappingWellFormed();
    InverseAt(StatsMappingTable, i);
  }

  /** A string that is not a key comes back unchanged. */
  lemma GetStatNameUnmapped(key: string)
    requires forall i :: 0 <= i < |StatsMappingTable| ==> StatsMappingTable[i].1 != key
    ensures GetStatName(key) == key
  {
  }

  /** Translating a label to its key and back gives the label. */
  lemma NameOfKey(vnName: string)
    requires exists i :: 0 <= i < |StatsMappingTable| && StatsMappingTable[i].0 == vnName
    ensures GetStatName(GetStatKey(vnName)) == vnName
  {
    var i :| 0 <= i < |StatsMappingTable| && StatsMappingTable[i].0 == vnName;
    GetStatKeyMapped(i);
    GetStatNameMapped(i);
  }

  /** Translating a key to its label and back gives the key. */
  lemma KeyOfName(key: string)
    requires exists i :: 0 <= i < |StatsMappingTable| && StatsMappingTable[i].1 == key
    ensures GetStatKey(GetStatName(key)) == key
  {
    var i :| 0 <= i < |StatsMappingTable| && StatsMappingTable[i].1 == key;
    GetStatNameMapped(i);
    GetStatKeyMapped(i);
  }

  // ---------------------------------------------------------------------
  // transformStats
  // ---------------------------------------------------------------------

  /** A scraped stat: an object of JSON fields (`value`, `baseValue`, ...). */
  type StatRecord = map<string, JsValue>

  /** `{ name: label, ...record }`: the record's own fields win over `name`. */
  function Labelled(vnName: string, record: StatRecord): StatRecord {
    map["name" := JsString(vnName)] + record
  }

  /**
   * The stats object re-keyed by English key, entry by entry in the input's
   * order, so that of two labels with the same key the later one wins.
   */
  function Transformed(t: LabelTable, stats: seq<(string, StatRecord)>): map<string, StatRecord> {
    if stats == [] then map[]
    else
      var last := stats[|stats| - 1];
      Transformed(t, stats[..|stats| - 1])[KeyIn(t, last.0) := Labelled(last.0, last.1)]
  }

  /** `transformStats`, filling `transformed` in a loop over the entries. */
  method TransformStats(stats: seq<(string, StatRecord)>) returns (transformed: map<string, StatRecord>)
    ensures transformed == Transformed(StatsMappingTable, stats)
  {
    transformed := map[];
    var i := 0;
    while i < |stats|
      invariant 0 <= i <= |stats|
      invariant transformed == Transformed(StatsMappingTable, stats[..i])
    {
      assert stats[..i + 1][..i] == stats[..i];
      var (vnName, record) := stats[i];
      transformed := transformed[GetStatKey(vnName) := Labelled(vnName, record)];
      i := i + 1;
    }
    assert stats[..|stats|] == stats;
  }

  /** The output keys are exactly the keys of the input labels. */
  lemma {:induction false} TransformedKeys(t: LabelTable, stats: seq<(string, StatRecord)>, key: string)
    ensures key in Transformed(t, stats) <==> exists i :: 0 <= i < |stats| && KeyIn(t, stats[i].0) == key
  {
    if stats != [] {
      var init := stats[..|stats| - 1];
      TransformedKeys(t, init, key);
      assert forall i :: 0 <= i < |init| ==> init[i] == stats[i];
    }
  }

  /** Under each key sits the last entry whose label has that key. */
  lemma {:induction false} TransformedLastWins(t: LabelTable, stats: seq<(string, StatRecord)>, i: nat)
    requires i < |stats|
    requires forall j :: i < j < |stats| ==> KeyIn(t, stats[j].0) != KeyIn(t, stats[i].0)
    ensures KeyIn(t, stats[i].0) in Transformed(t, stats)
    ensures Transformed(t, stats)[KeyIn(t, stats[i].0)] == Labelled(stats[i].0, stats[i].1)
  {
    var n := |stats| - 1;
    if i < n {
      var init := stats[..n];
      assert init[i] == stats[i];
      assert forall j :: i < j < n ==> init[j] == stats[j];
      TransformedLastWins(t, init, i);
    }
  }

  /**
   * A labelled record has the record's fields and `name`; every field of the
   * record keeps its value, and `name` is the label unless the record has a
   * `name` of its own.
   */
  lemma LabelledFields(vnName: string, record: StatRecord)
    ensures Labelled(vnName, record).Keys == record.Keys + {"name"}
    ensures forall f :: f in record ==> Labelled(vnName, record)[f] == record[f]
    ensures "name" !in record ==> Labelled(vnName, record)["name"] == JsString(vnName)
  {
  }
}
