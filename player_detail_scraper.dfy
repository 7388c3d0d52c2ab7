/**
 * The decisions the player detail scraper makes on each piece of text it
 * pulls out of a page: which stat rows it records and how it reads their
 * values, which traits it keeps, how it splits a club career line into
 * period and club, and where it takes the player's name from. The HTML
 * selectors are left out: each extractor receives the texts and attributes
 * its selectors found, in document order.
 */
module PlayerDetailScraper {
  import opened JsText
  import opened PlayerStats
  import StatsMapping

  // ---------------------------------------------------------------------
  // Objects keyed by string, in insertion order
  // ---------------------------------------------------------------------

  /** A JavaScript object with string keys: its entries in insertion order. */
  type JsObject<V> = seq<(string, V)>

  /** The value stored under `key`, if any. */
  function Lookup<V>(obj: JsObject<V>, key: string): Option<V> {
    if obj == [] then None
    else if obj[0].0 == key then Some(obj[0].1)
    else Lookup(obj[1..], key)
  }

  predicate DistinctKeys<V>(obj: JsObject<V>) {
    forall i, j :: 0 <= i < j < |obj| ==> obj[i].0 != obj[j].0
  }

  /** `obj[key] = value`: an existing key keeps its place and takes the value, a new key goes last. */
  function Assign<V>(obj: JsObject<V>, key: string, value: V): (r: JsObject<V>)
    ensures |r| == |obj| || |r| == |obj| + 1
  {
    if obj == [] then [(key, value)]
    else if obj[0].0 == key then [(key, value)] + obj[1..]
    else [obj[0]] + Assign(obj[1..], key, value)
  }

  /** After an assignment the key holds the value, and every other key what it held. */
  lemma {:induction false} AssignLookup<V>(obj: JsObject<V>, key: string, value: V, other: string)
    ensures Lookup(Assign(obj, key, value), key) == Some(value)
    ensures other != key ==> Lookup(Assign(obj, key, value), other) == Lookup(obj, other)
  {
    if obj != [] && obj[0].0 != key {
      AssignLookup(obj[1..], key, value, other);
    }
  }

  /** The keys of an object stay distinct under assignment. */
  lemma {:induction false} AssignDistinct<V>(obj: JsObject<V>, key: string, value: V)
    requires DistinctKeys(obj)
    ensures DistinctKeys(Assign(obj, key, value))
    ensures forall i :: 0 <= i < |Assign(obj, key, value)| ==>
              Assign(obj, key, value)[i].0 == key || exists j :: 0 <= j < |obj| && obj[j].0 == Assign(obj, key, value)[i].0
  {
    var r := Assign(obj, key, value);
    if obj != [] && obj[0].0 != key {
      var rest := Assign(obj[1..], key, value);
      AssignDistinct(obj[1..], key, value);
      forall i | 0 <= i < |r| ensures r[i].0 == key || exists j :: 0 <= j < |obj| && obj[j].0 == r[i].0 {
        if i > 0 && rest[i - 1].0 != key {
          var j :| 0 <= j < |obj[1..]| && obj[1..][j].0 == rest[i - 1].0;
          assert obj[j + 1].0 == r[i].0;
        }
      }
      forall i, j | 0 <= i < j < |r| ensures r[i].0 != r[j].0 {
        if i == 0 {
          if rest[j - 1].0 != key {
            var k :| 0 <= k < |obj[1..]| && obj[1..][k].0 == rest[j - 1].0;
            assert obj[k + 1].0 == r[j].0;
          }
        }
      }
    } else if obj != [] {
      assert r[1..] == obj[1..];
    }
  }

  // ---------------------------------------------------------------------
  // General stats
  // ---------------------------------------------------------------------

  /** A number as `parseInt` leaves it, as a JSON value. */
  function NumberValue(n: Num): JsValue {
    match n
    case NaN => JsNaN
    case Int(v) => JsNumber(v)
  }

  /** `parseInt(text) || text`: the number when it is neither 0 nor NaN, else the text itself. */
  function StatValueOf(text: string): (v: JsValue)
    ensures v.JsNumber? <==> ParseInt(text).Int? && ParseInt(text).value != 0
    ensures v.JsNumber? ==> v.n == ParseInt(text).value
    ensures !v.JsNumber? ==> v == JsString(text)
  {
    match ParseInt(text)
    case Int(n) => if n != 0 then JsNumber(n) else JsString(text)
    case NaN => JsString(text)
  }

  /** A positive number's decimal text is read as that number. */
  lemma StatValueOfDigits(n: nat)
    requires n > 0
    ensures StatValueOf(NatToString(n)) == JsNumber(n)
  {
    ParseIntNatToString(n);
  }

  /** A zero stays the text "0", because 0 is falsy. */
  lemma StatValueOfZero()
    ensures StatValueOf("0") == JsString("0")
  {
    ParseIntNatToString(0);
    assert NatToString(0) == "0";
  }

  /** `attr ? parseInt(attr) : null`: a missing or empty attribute gives null. */
  function AttrNumber(attr: Option<string>): (v: JsValue)
    ensures v == JsNull <==> attr.None? || attr.value == []
    ensures v != JsNull ==> v == NumberValue(ParseInt(attr.value))
  {
    if attr.Some? && attr.value != [] then NumberValue(ParseInt(attr.value)) else JsNull
  }

  /** What the selectors found in one stat row: the label and value texts and the two attributes. */
  datatype StatRow = StatRow(labelText: string, valueText: string, dataBase: Option<string>, originalValue: Option<string>)

  /** A row is recorded when both its trimmed label and trimmed value are non-empty. */
  predicate Recorded(row: StatRow) {
    Trim(row.labelText) != [] && Trim(row.valueText) != []
  }

  /** The record stored for a row. */
  function RowRecord(row: StatRow): (r: StatsMapping.StatRecord)
    ensures r.Keys == {"value", "baseValue", "originalValue"}
  {
    map["value" := StatValueOf(Trim(row.valueText)),
        "baseValue" := AttrNumber(row.dataBase),
        "originalValue" := AttrNumber(row.originalValue)]
  }

  /** The stats object after the rows, in document order: `stats[label] = record` for each recorded row. */
  function GeneralStats(rows: seq<StatRow>): (stats: JsObject<StatsMapping.StatRecord>)
    ensures DistinctKeys(stats)
  {
    if rows == [] then []
    else
      var prev := GeneralStats(rows[..|rows| - 1]);
      var row := rows[|rows| - 1];
      if Recorded(row) then
        AssignDistinct(prev, Trim(row.labelText), RowRecord(row));
        Assign(prev, Trim(row.labelText), RowRecord(row))
      else prev
  }

  /** Every recorded row's label is in the stats object. */
  lemma {:induction false} GeneralStatsComplete(rows: seq<StatRow>, i: nat)
    requires i < |rows| && Recorded(rows[i])
    ensures Lookup(GeneralStats(rows), Trim(rows[i].labelText)).Some?
  {
    var init := rows[..|rows| - 1];
    var row := rows[|rows| - 1];
    var key := Trim(rows[i].labelText);
    if i < |init| {
      assert init[i] == rows[i];
      GeneralStatsComplete(init, i);
      if Recorded(row) {
        AssignLookup(GeneralStats(init), Trim(row.labelText), RowRecord(row), key);
      }
    } else {
      assert i == |rows| - 1 && row == rows[i];
      AssignLookup(GeneralStats(init), key, RowRecord(row), key);
    }
  }

  /** Every label in the stats object is that of a recorded row. */
  lemma {:induction false} GeneralStatsSound(rows: seq<StatRow>, key: string)
    requires Lookup(GeneralStats(rows), key).Some?
    ensures exists i :: 0 <= i < |rows| && Recorded(rows[i]) && Trim(rows[i].labelText) == key
  {
    assert rows != [];
    var init := rows[..|rows| - 1];
    var row := rows[|rows| - 1];
    if Recorded(row) && Trim(row.labelText) == key {
      assert Recorded(rows[|rows| - 1]) && Trim(rows[|rows| - 1].labelText) == key;
    } else {
      if Recorded(row) {
        assert GeneralStats(rows) == Assign(GeneralStats(init), Trim(row.labelText), RowRecord(row));
        AssignLookup(GeneralStats(init), Trim(row.labelText), RowRecord(row), key);
      } else {
        assert GeneralStats(rows) == GeneralStats(init);
      }
      GeneralStatsSound(init, key);
      var i :| 0 <= i < |init| && Recorded(init[i]) && Trim(init[i].labelText) == key;
      assert rows[i] == init[i];
    }
  }

  /** A label holds the record of the last recorded row that carries it. */
  lemma {:induction false} GeneralStatsLastWins(rows: seq<StatRow>, i: nat)
    requires i < |rows| && Recorded(rows[i])
    requires forall j :: i < j < |rows| ==> !(Recorded(rows[j]) && Trim(rows[j].labelText) == Trim(rows[i].labelText))
    ensures Lookup(GeneralStats(rows), Trim(rows[i].labelText)) == Some(RowRecord(rows[i]))
  {
    var init := rows[..|rows| - 1];
    var row := rows[|rows| - 1];
    var key := Trim(rows[i].labelText);
    if i == |rows| - 1 {
      AssignLookup(GeneralStats(init), key, RowRecord(row), key);
    } else {
      assert init[i] == rows[i];
      forall j | i < j < |init| ensures !(Recorded(init[j]) && Trim(init[j].labelText) == key) {
        assert init[j] == rows[j];
      }
      GeneralStatsLastWins(init, i);
      if Recorded(row) {
        AssignLookup(GeneralStats(init), Trim(row.labelText), RowRecord(row), key);
      }
    }
  }

  /** `extractGeneralStats`: the rows of every card body, in document order. */
  method ExtractGeneralStats(rows: seq<StatRow>) returns (stats: JsObject<StatsMapping.StatRecord>)
    ensures stats == GeneralStats(rows)
  {
    stats := [];
    for k := 0 to |rows|
      invariant stats == GeneralStats(rows[..k])
    {
      assert rows[..k + 1][..k] == rows[..k];
      var statName := Trim(rows[k].labelText);
      var statValue := Trim(rows[k].valueText);
      if statName != [] && statValue != [] {
        stats := Assign(stats, statName, RowRecord(rows[k]));
      }
    }
    assert rows[..|rows|] == rows;
  }

  // ---------------------------------------------------------------------
  // Hidden stats (traits)
  // ---------------------------------------------------------------------

  /** What the selectors found in one trait box. */
  datatype TraitBox = TraitBox(iconSrc: Option<string>, nameText: string, descriptionText: string)

  /** A trait as stored: an empty description or icon becomes null. */
  datatype Trait = Trait(name: string, description: Option<string>, iconUrl: Option<string>)

  /** The trait a box yields: none when its trimmed name is empty. */
  function TraitOf(box: TraitBox): (t: Option<Trait>)
    ensures t.Some? <==> Trim(box.nameText) != []
    ensures t.Some? ==> t.value.name == Trim(box.nameText)
    ensures t.Some? ==> (t.value.description.None? <==> Trim(box.descriptionText) == [])
    ensures t.Some? && t.value.description.Some? ==> t.value.description.value == Trim(box.descriptionText)
    ensures t.Some? ==> (t.value.iconUrl.None? <==> box.iconSrc.None? || box.iconSrc.value == [])
    ensures t.Some? && t.value.iconUrl.Some? ==> t.value.iconUrl == box.iconSrc
  {
    var name := Trim(box.nameText);
    var description := Trim(box.descriptionText);
    if name == [] then None
    else Some(Trait(name,
                    if description != [] then Some(description) else None,
                    if box.iconSrc.Some? && box.iconSrc.value != [] then box.iconSrc else None))
  }

  /** The traits of the boxes that have a name, in order. */
  function Traits(boxes: seq<TraitBox>): (r: seq<Trait>)
    ensures |r| <= |boxes|
  {
    if boxes == [] then []
    else
      var prev := Traits(boxes[..|boxes| - 1]);
      var t := TraitOf(boxes[|boxes| - 1]);
      if t.Some? then prev + [t.value] else prev
  }

  /** Every box with a name yields its trait in the list. */
  lemma {:induction false} TraitsComplete(boxes: seq<TraitBox>, i: nat)
    requires i < |boxes| && TraitOf(boxes[i]).Some?
    ensures TraitOf(boxes[i]).value in Traits(boxes)
  {
    var init := boxes[..|boxes| - 1];
    var last := TraitOf(boxes[|boxes| - 1]);
    var t := TraitOf(boxes[i]).value;
    if i < |init| {
      assert init[i] == boxes[i];
      TraitsComplete(init, i);
      assert t in Traits(init);
      if last.Some? {
        assert Traits(boxes) == Traits(init) + [last.value];
      } else {
        assert Traits(boxes) == Traits(init);
      }
    } else {
      assert i == |boxes| - 1 && last == Some(t);
    }
  }

  /** Every trait in the list comes from a box with a name. */
  lemma {:induction false} TraitsSound(boxes: seq<TraitBox>, t: Trait)
    requires t in Traits(boxes)
    ensures exists i :: 0 <= i < |boxes| && TraitOf(boxes[i]) == Some(t)
  {
    assert boxes != [];
    var init := boxes[..|boxes| - 1];
    var last := TraitOf(boxes[|boxes| - 1]);
    if last == Some(t) {
      assert TraitOf(boxes[|boxes| - 1]) == Some(t);
    } else {
      assert t in Traits(init);
      TraitsSound(init, t);
      var i :| 0 <= i < |init| && TraitOf(init[i]) == Some(t);
      assert boxes[i] == init[i];
    }
  }

  /** `extractHiddenStats`: a trait pushed for each box with a name. */
  method ExtractHiddenStats(boxes: seq<TraitBox>) returns (hiddenStats: seq<Trait>)
    ensures hiddenStats == Traits(boxes)
  {
    hiddenStats := [];
    for k := 0 to |boxes|
      invariant hiddenStats == Traits(boxes[..k])
    {
      assert boxes[..k + 1][..k] == boxes[..k];
      var t := TraitOf(boxes[k]);
      if t.Some? {
        hiddenStats := hiddenStats + [t.value];
      }
    }
    assert boxes[..|boxes|] == boxes;
  }

  // ---------------------------------------------------------------------
  // Club career
  // ---------------------------------------------------------------------

  /** The class `[\d\s\-]` of the period group. */
  predicate PeriodChar(c: char) {
    IsDigit(c) || IsWhitespace(c) || c == '-'
  }

  /** The length of the longest prefix made of period characters. */
  function PeriodRun(s: string): (n: nat)
    ensures n <= |s|
    ensures n < |s| ==> !PeriodChar(s[n])
  {
    if s != [] && PeriodChar(s[0]) then 1 + PeriodRun(s[1..]) else 0
  }

  /** Every character of the run is a period character. */
  lemma {:induction false} PeriodRunChars(s: string)
    ensures forall i :: 0 <= i < PeriodRun(s) ==> PeriodChar(s[i])
  {
    if s != [] && PeriodChar(s[0]) {
      PeriodRunChars(s[1..]);
      forall i | 0 <= i < PeriodRun(s)
        ensures PeriodChar(s[i])
      {
        if i > 0 { assert s[i] == s[1..][i - 1]; }
      }
    }
  }

  predicate NoLineTerminator(s: string) {
    forall i :: 0 <= i < |s| ==> !IsLineTerminator(s[i])
  }

  /**
   * The two groups of `/^([\d\s\-]+):\s*(.+)$/` on the text, or none when it
   * does not match. Since ':' is not a period character, the first group is
   * the whole leading run of them; `\s*` takes all the whitespace after the
   * colon unless that leaves nothing for `(.+)`, which then takes the last
   * character; `(.+)` cannot cross a line terminator.
   */
  function MatchClubLine(s: string): (m: Option<(string, string)>)
    ensures m.Some? ==> m.value.0 != [] && m.value.1 != [] && |m.value.0| + 1 + |m.value.1| <= |s|
  {
    var n := PeriodRun(s);
    if n == 0 || n == |s| || s[n] != ':' then None
    else
      var club := ClubGroup(s[n + 1..]);
      if club == [] || !NoLineTerminator(club) then None else Some((s[..n], club))
  }

  /**
   * What `\s*(.+)$` leaves for the club group in the text after the colon:
   * the text without its leading whitespace, or its last character when it
   * is all whitespace.
   */
  function ClubGroup(rest: string): (club: string)
    ensures |club| <= |rest|
    ensures club == [] <==> rest == []
  {
    var body := TrimStart(rest);
    if body != [] then body else if rest != [] then rest[|rest| - 1..] else []
  }

  /** The club group is a suffix of the text after the colon. */
  lemma ClubGroupSuffix(rest: string)
    ensures ClubGroup(rest) == rest[|rest| - |ClubGroup(rest)|..]
  {
    TrimStartSuffix(rest);
  }

  /** Only whitespace comes before the club group. */
  lemma ClubGroupAfterWhitespace(rest: string)
    ensures AllWhitespace(rest[..|rest| - |ClubGroup(rest)|])
  {
    TrimStartRemovesWhitespace(rest);
    if TrimStart(rest) == [] && rest != [] {
      assert rest[..|rest|] == rest;
      WhitespacePrefix(rest, |rest| - 1);
    }
  }

  /** A match's period is the text's leading run of period characters, followed by a colon. */
  lemma MatchClubLinePeriod(s: string)
    requires MatchClubLine(s).Some?
    ensures var period := MatchClubLine(s).value.0;
            && (forall i :: 0 <= i < |period| ==> PeriodChar(period[i]))
            && period == s[..|period|] && s[|period|] == ':'
  {
    PeriodRunChars(s);
  }

  /** A match's club has no line terminator. */
  lemma MatchClubLineNoBreak(s: string, period: string, club: string)
    requires MatchClubLine(s) == Some((period, club))
    ensures NoLineTerminator(club)
  {
  }

  /** A match's club ends the text, after the period and its colon. */
  lemma MatchClubLineEnds(s: string, period: string, club: string)
    requires MatchClubLine(s) == Some((period, club))
    ensures |period| + 1 + |club| <= |s| && s[|s| - |club|..] == club
  {
    MatchClubLineParts(s, period, club);
    ClubGroupSuffix(s[|period| + 1..]);
    SuffixSlices(s, |period| + 1, |club|);
  }

  /** Only whitespace separates a match's club from the colon after the period. */
  lemma MatchClubLineGap(s: string, period: string, club: string)
    requires MatchClubLine(s) == Some((period, club))
    ensures |period| + 1 + |club| <= |s| && AllWhitespace(s[|period| + 1..|s| - |club|])
  {
    MatchClubLineParts(s, period, club);
    ClubGroupGap(s, |period|, club);
  }

  /** A match in terms of the period's length. */
  lemma MatchClubLineParts(s: string, period: string, club: string)
    requires MatchClubLine(s) == Some((period, club))
    ensures |period| == PeriodRun(s) && |period| < |s|
    ensures club == ClubGroup(s[|period| + 1..])
  {
  }

  /** Only whitespace comes between position `n + 1` and the club group of the text after it. */
  lemma ClubGroupGap(s: string, n: nat, club: string)
    requires n < |s| && club == ClubGroup(s[n + 1..])
    ensures |club| <= |s| - n - 1 && AllWhitespace(s[n + 1..|s| - |club|])
  {
    var rest := s[n + 1..];
    ClubGroupAfterWhitespace(rest);
    SuffixSlices(s, n + 1, |club|);
    WhitespaceSame(rest[..|rest| - |club|], s[n + 1..|s| - |club|]);
  }

  /** Slices of a suffix are slices of the whole text. */
  lemma SuffixSlices(s: string, k: nat, c: nat)
    requires k + c <= |s|
    ensures s[k..][|s| - k - c..] == s[|s| - c..]
    ensures s[k..][..|s| - k - c] == s[k..|s| - c]
  {
  }

  /** A prefix of blank text is blank. */
  lemma WhitespacePrefix(s: string, k: nat)
    requires AllWhitespace(s) && k <= |s|
    ensures AllWhitespace(s[..k])
  {
    assert forall i :: 0 <= i < k ==> s[..k][i] == s[i];
  }

  /**
   * A line written as a period, a colon, a space and a club that starts
   * with no whitespace and has no line break is read back as that period
   * and that club.
   */
  lemma ClubLineRoundTrip(period: string, club: string)
    requires period != [] && forall i :: 0 <= i < |period| ==> PeriodChar(period[i])
    requires club != [] && !IsWhitespace(club[0]) && NoLineTerminator(club)
    ensures MatchClubLine(period + ": " + club) == Some((period, club))
  {
    var s := period + ": " + club;
    assert s == period + (": " + club);
    PeriodRunPrefix(period, ": " + club);
    assert s[|period|] == ':' && s[..|period|] == period;
    assert s[|period| + 1..] == " " + club;
    ClubGroupAfterSpace(club);
  }

  /** After ": " the club group is the club itself. */
  lemma ClubGroupAfterSpace(club: string)
    requires club != [] && !IsWhitespace(club[0])
    ensures ClubGroup(" " + club) == club
  {
    assert (" " + club)[1..] == club;
    assert TrimStart(" " + club) == TrimStart(club) == club;
  }

  /** The period run of a string that starts with a run of period characters. */
  lemma {:induction false} PeriodRunPrefix(p: string, rest: string)
    requires forall i :: 0 <= i < |p| ==> PeriodChar(p[i])
    requires rest != [] && !PeriodChar(rest[0])
    ensures PeriodRun(p + rest) == |p|
  {
    if p != [] {
      assert (p + rest)[1..] == p[1..] + rest;
      PeriodRunPrefix(p[1..], rest);
    } else {
      assert p + rest == rest;
    }
  }

  /** The entry a non-empty trimmed line becomes: period and club when it matches, else the whole line as club. */
  function ClubEntryOf(text: string): (e: CareerEntry)
    ensures MatchClubLine(text).None? ==> e == CareerEntry(None, text)
    ensures MatchClubLine(text).Some? ==> e.period.Some?
  {
    match MatchClubLine(text)
    case Some((period, club)) => CareerEntry(Some(Trim(period)), Trim(club))
    case None => CareerEntry(None, text)
  }

  /** The entries of the career lines: one per line that is not blank, in order. */
  function ClubCareer(lines: seq<string>): (r: seq<CareerEntry>)
    ensures |r| <= |lines|
  {
    if lines == [] then []
    else
      var prev := ClubCareer(lines[..|lines| - 1]);
      var text := Trim(lines[|lines| - 1]);
      if text != [] then prev + [ClubEntryOf(text)] else prev
  }

  /** Every entry comes from a line that is not blank; a line that does not match keeps its text as the club. */
  lemma {:induction false} ClubCareerFromLines(lines: seq<string>)
    ensures forall e :: e in ClubCareer(lines) ==>
              exists i :: 0 <= i < |lines| && Trim(lines[i]) != [] && e == ClubEntryOf(Trim(lines[i]))
  {
    if lines != [] {
      var init := lines[..|lines| - 1];
      ClubCareerFromLines(init);
      forall i | 0 <= i < |init| ensures init[i] == lines[i] {
      }
    }
  }

  /** The career of two runs of lines is the career of the first, then that of the second. */
  lemma {:induction false} ClubCareerAppend(a: seq<string>, b: seq<string>)
    ensures ClubCareer(a + b) == ClubCareer(a) + ClubCareer(b)
  {
    if b == [] {
      assert a + b == a;
    } else {
      var init := b[..|b| - 1];
      assert (a + b)[..|a + b| - 1] == a + init;
      assert (a + b)[|a + b| - 1] == b[|b| - 1];
      ClubCareerAppend(a, init);
    }
  }

  /**
   * A line that is not blank gives its entry, between the entries of the
   * lines before it and those of the lines after it.
   */
  lemma {:induction false} ClubCareerAt(lines: seq<string>, i: nat)
    requires i < |lines| && Trim(lines[i]) != []
    ensures ClubCareer(lines) == ClubCareer(lines[..i]) + [ClubEntryOf(Trim(lines[i]))] + ClubCareer(lines[i + 1..])
    ensures ClubEntryOf(Trim(lines[i])) in ClubCareer(lines)
  {
    ClubCareerSplitAt(lines, i);
    ClubCareerOne(lines[i]);
    assert ClubCareer(lines)[|ClubCareer(lines[..i])|] == ClubEntryOf(Trim(lines[i]));
  }

  /** The career of the lines is that of the lines before `i`, of line `i`, and of the lines after it. */
  lemma {:induction false} ClubCareerSplitAt(lines: seq<string>, i: nat)
    requires i < |lines|
    ensures ClubCareer(lines) == ClubCareer(lines[..i]) + ClubCareer([lines[i]]) + ClubCareer(lines[i + 1..])
  {
    var a, c := lines[..i], lines[i + 1..];
    assert lines == a + [lines[i]] + c;
    ClubCareerThree(a, lines[i], c);
  }

  /** The career of lines around one line is assembled from the three parts. */
  lemma {:induction false} ClubCareerThree(a: seq<string>, x: string, c: seq<string>)
    ensures ClubCareer(a + [x] + c) == ClubCareer(a) + ClubCareer([x]) + ClubCareer(c)
  {
    ClubCareerAppend(a, [x]);
    ClubCareerAppend(a + [x], c);
  }

  /** One line that is not blank gives exactly its entry. */
  lemma ClubCareerOne(line: string)
    requires Trim(line) != []
    ensures ClubCareer([line]) == [ClubEntryOf(Trim(line))]
  {
    assert [line][..0] == [];
  }

  /** A line written as "period: club" becomes the entry of its trimmed period and trimmed club. */
  lemma ClubEntryOfLine(period: string, club: string)
    requires period != [] && forall i :: 0 <= i < |period| ==> PeriodChar(period[i])
    requires club != [] && !IsWhitespace(club[0]) && NoLineTerminator(club)
    ensures ClubEntryOf(period + ": " + club) == CareerEntry(Some(Trim(period)), Trim(club))
  {
    ClubLineRoundTrip(period, club);
  }

  /** `extractClubCareer`: an entry pushed for each line that is not blank. */
  method ExtractClubCareer(lines: seq<string>) returns (clubCareer: seq<CareerEntry>)
    ensures clubCareer == ClubCareer(lines)
  {
    clubCareer := [];
    for k := 0 to |lines|
      invariant clubCareer == ClubCareer(lines[..k])
    {
      assert lines[..k + 1][..k] == lines[..k];
      var text := Trim(lines[k]);
      if text != [] {
        clubCareer := clubCareer + [ClubEntryOf(text)];
      }
    }
    assert lines[..|lines|] == lines;
  }

  // ---------------------------------------------------------------------
  // Additional info
  // ---------------------------------------------------------------------

  /** A one-character string occurs in a text exactly when some character of the text is it. */
  lemma ContainsChar(s: string, c: char)
    ensures Contains(s, [c]) <==> exists i :: 0 <= i < |s| && s[i] == c
  {
    var r := IndexOf(s, [c]);
    if r.Some? {
      assert s[r.value..r.value + 1][0] == s[r.value];
    }
    if exists i :: 0 <= i < |s| && s[i] == c {
      var i :| 0 <= i < |s| && s[i] == c;
      assert s[i..i + 1] == [c];
      assert OccursAt(s, [c], i);
    }
  }

  /** Trimming a text that has no `c` leaves none in it. */
  lemma TrimNoChar(s: string, c: char)
    requires !Contains(s, [c])
    ensures !Contains(Trim(s), [c])
  {
    var r := Trim(s);
    TrimSlice(s);
    var i := TrimOffset(s);
    ContainsChar(s, c);
    forall k | 0 <= k < |r| ensures r[k] != c {
      assert r[k] == s[i + k];
    }
    ContainsChar(r, c);
  }

  /**
   * The player's name: the trimmed heading text, or else the trimmed title
   * text before its first '-'; none when that is empty too.
   */
  function PlayerName(heading: string, title: string): (r: Option<string>)
    ensures Trim(heading) != [] ==> r == Some(Trim(heading))
    ensures r.Some? ==> r.value != [] && !IsWhitespace(r.value[0]) && !IsWhitespace(r.value[|r.value| - 1])
  {
    var fromHeading := Trim(heading);
    if fromHeading != [] then Some(fromHeading)
    else
      var name := Trim(Split(title, "-")[0]);
      if name != [] then Some(name) else None
  }

  /** A name taken from the title has no '-' in it. */
  lemma PlayerNameFromTitleHasNoDash(heading: string, title: string)
    requires Trim(heading) == [] && PlayerName(heading, title).Some?
    ensures !Contains(PlayerName(heading, title).value, "-")
  {
    var before := Split(title, "-")[0];
    SplitPartsFree(title, "-");
    TrimNoChar(before, '-');
  }

  /** A title without '-' is the name, trimmed. */
  lemma PlayerNameFromTitle(title: string)
    requires !Contains(title, "-")
    ensures PlayerName("", title) == (if Trim(title) != [] then Some(Trim(title)) else None)
  {
    SplitNoSeparator(title, "-");
  }

  /** The fields `extractAdditionalInfo` adds, each absent when its text is empty. */
  datatype AdditionalInfo = AdditionalInfo(name: Option<string>, mainImageUrl: Option<string>, overallRating: Option<JsValue>)

  /** `extractAdditionalInfo` on the heading, title, image source and rating texts. */
  function ExtractAdditionalInfo(heading: string, title: string, imageSrc: Option<string>, ratingText: string): (info: AdditionalInfo)
    ensures info.name == PlayerName(heading, title)
    ensures info.mainImageUrl.Some? <==> imageSrc.Some? && imageSrc.value != []
    ensures info.mainImageUrl.Some? ==> info.mainImageUrl == imageSrc
    ensures info.overallRating.Some? <==> Trim(ratingText) != []
    ensures info.overallRating.Some? ==> info.overallRating.value == StatValueOf(Trim(ratingText))
  {
    var rating := Trim(ratingText);
    AdditionalInfo(
      PlayerName(heading, title),
      if imageSrc.Some? && imageSrc.value != [] then imageSrc else None,
      if rating != [] then Some(StatValueOf(rating)) else None)
  }
}
