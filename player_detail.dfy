/**
 * The player detail page: the position badges with their split ratings,
 * the general stats tab (a fixed key order, four stats to a row), the
 * per-position tabs (the group's coefficients, sorted, two stats to a row),
 * the colour of a shown value and the readable name made from a stat key.
 * The DOM is left out: a table is the sequence of its rows of cells.
 */
module PlayerDetail {
  import opened JsText
  import opened Coefficients
  import opened PlayerStats

  // ---------------------------------------------------------------------
  // Position badges
  // ---------------------------------------------------------------------

  /** One entry of `player.positions`; the rating is whatever JSON value was stored. */
  datatype PositionEntry = PositionEntry(position: string, rating: JsValue)

  /**
   * The main and alternative ratings of a badge: a non-empty rating string
   * "a|b" is split on '|'; any other rating shows neither.
   */
  function SplitRating(rating: JsValue): (r: (string, string))
    ensures !(rating.JsString? && rating.s != "") ==> r == ("", "")
    ensures rating.JsString? ==> |r.0| <= |rating.s| && r.0 == rating.s[..|r.0|]
    ensures rating.JsString? && !Contains(rating.s, "|") ==> r == (rating.s, "")
  {
    if rating.JsString? && rating.s != "" then
      var parts := Split(rating.s, "|");
      assert !Contains(rating.s, "|") ==> parts == [rating.s] by {
        if !Contains(rating.s, "|") {
          SplitNoSeparator(rating.s, "|");
        }
      }
      JoinSplit(rating.s, "|");
      JoinPrefix(parts, "|");
      (parts[0], if |parts| > 1 then parts[1] else "")
    else ("", "")
  }

  /** The first part is where a join begins. */
  lemma JoinPrefix(parts: seq<string>, sep: string)
    requires |parts| >= 1
    ensures Join(parts, sep)[..|parts[0]|] == parts[0]
  {
  }

  /** A rating written "main|alt", neither part holding a '|', splits back into its parts. */
  lemma SplitRatingOfPair(main: string, alt: string)
    requires !Contains(main, "|") && !Contains(alt, "|")
    ensures SplitRating(JsString(main + "|" + alt)) == (main, alt)
  {
    var parts := [main, alt];
    assert Join(parts, "|") == main + "|" + alt by {
      assert parts[1..] == [alt];
    }
    SplitJoin(parts, "|");
  }

  /** What a position badge shows. */
  datatype Badge = Badge(position: string, mainRating: string, altRating: string, primary: bool)

  /** The badge of one position: primary exactly for the player's own position. */
  function BadgeOf(entry: PositionEntry, playerPosition: string): (b: Badge)
    ensures b.position == entry.position
    ensures b.primary <==> entry.position == playerPosition
    ensures (b.mainRating, b.altRating) == SplitRating(entry.rating)
  {
    var ratings := SplitRating(entry.rating);
    Badge(entry.position, ratings.0, ratings.1, entry.position == playerPosition)
  }

  /**
   * `displayPositions`: one badge per position, in order, or none (the page
   * shows a "no position" note) when the list is missing or empty.
   */
  function Badges(positions: Option<seq<PositionEntry>>, playerPosition: string): (r: Option<seq<Badge>>)
    ensures r.None? <==> positions.None? || |positions.value| == 0
    ensures r.Some? ==> |r.value| == |positions.value|
    ensures r.Some? ==> forall i :: 0 <= i < |r.value| ==> r.value[i] == BadgeOf(positions.value[i], playerPosition)
  {
    if positions.None? || |positions.value| == 0 then None
    else Some(seq(|positions.value|, i requires 0 <= i < |positions.value| => BadgeOf(positions.value[i], playerPosition)))
  }

  // ---------------------------------------------------------------------
  // Shown stats
  // ---------------------------------------------------------------------

  /** A stat object as stored: its Vietnamese name and its value, either possibly absent. */
  datatype Stat = Stat(name: Option<string>, value: Option<StatValue>)

  /** A stat to show, with the coefficient of its position group on a position tab. */
  datatype Shown = Shown(key: string, stat: Stat, coefficient: Option<nat>)

  /** The three colours of a shown value. */
  datatype ValueColor = Green | Orange | Grey

  /** `stat.value || 0`: a missing, zero or empty value shows as 0. */
  function ShownValue(stat: Stat): (v: StatValue)
    ensures stat.value.None? ==> v == Number(0)
    ensures v != Text("")
    ensures stat.value.Some? && stat.value.value != Number(0) && stat.value.value != Text("") ==> v == stat.value.value
  {
    match stat.value
    case None => Number(0)
    case Some(Number(n)) => Number(n)
    case Some(Text(s)) => if s == "" then Number(0) else Text(s)
  }

  /** Green from 80, orange from 60, grey below; a text value is grey. */
  function ColorOf(v: StatValue): (c: ValueColor)
    ensures c == Green <==> v.Number? && v.n >= 80
    ensures c == Orange <==> v.Number? && 60 <= v.n < 80
  {
    match v
    case Number(n) => if n >= 80 then Green else if n >= 60 then Orange else Grey
    case Text(_) => Grey
  }

  /** The colour only ever gets warmer as the value rises. */
  lemma ColorMonotone(a: int, b: int)
    requires a <= b
    ensures ColorOf(Number(a)) == Green ==> ColorOf(Number(b)) == Green
    ensures ColorOf(Number(a)) == Orange ==> ColorOf(Number(b)) != Grey
  {
  }

  /** One cell pair (or triple) of a stats table. */
  datatype Cell = StatCell(name: string, value: StatValue, color: ValueColor, coefficient: Option<nat>) | EmptyCell

  /** The cell of a stat: its own name if it has one, else the key made readable. */
  function CellOf(s: Shown): (c: Cell)
    ensures c.StatCell? && c.coefficient == s.coefficient
    ensures c.value == ShownValue(s.stat) && c.color == ColorOf(c.value)
    ensures s.stat.name.Some? && s.stat.name.value != "" ==> c.name == s.stat.name.value
    ensures !(s.stat.name.Some? && s.stat.name.value != "") ==> c.name == FormatStatKey(s.key)
  {
    var v := ShownValue(s.stat);
    var name := if s.stat.name.Some? && s.stat.name.value != "" then s.stat.name.value else FormatStatKey(s.key);
    StatCell(name, v, ColorOf(v), s.coefficient)
  }

  // ---------------------------------------------------------------------
  // Readable stat keys
  // ---------------------------------------------------------------------

  /** `key.replace(/([A-Z])/g, ' $1')`: a space before every capital letter. */
  function SpaceCapitals(s: string): (r: string)
    ensures |r| >= |s|
  {
    if s == [] then []
    else (if IsUpper(s[0]) then [' ', s[0]] else [s[0]]) + SpaceCapitals(s[1..])
  }

  /** `.replace(/^./, c => c.toUpperCase())`: `.` does not match a line terminator. */
  function CapitaliseFirst(s: string): (r: string)
    ensures |r| == |s| && (s != [] ==> r[1..] == s[1..])
    ensures s != [] && !IsLineTerminator(s[0]) ==> r[0] == UpperChar(s[0])
  {
    if s != [] && !IsLineTerminator(s[0]) then [UpperChar(s[0])] + s[1..] else s
  }

  /** `formatStatKey`: camel case turned into words. */
  function FormatStatKey(key: string): string {
    Trim(CapitaliseFirst(SpaceCapitals(key)))
  }

  /** The text with its spaces removed. */
  function RemoveSpaces(s: string): (r: string)
    ensures |r| <= |s|
  {
    if s == [] then [] else (if s[0] == ' ' then [] else [s[0]]) + RemoveSpaces(s[1..])
  }

  /** A stat key as the scraper makes them: ASCII letters and digits, starting lower case. */
  predicate CamelKey(key: string) {
    |key| >= 1 && IsLower(key[0]) && forall i :: 0 <= i < |key| ==> IsLower(key[i]) || IsUpper(key[i]) || IsDigit(key[i])
  }

  lemma {:induction false} SpaceCapitalsUnspaced(s: string)
    requires forall i :: 0 <= i < |s| ==> s[i] != ' '
    ensures RemoveSpaces(SpaceCapitals(s)) == s
  {
    if s != [] {
      var head := if IsUpper(s[0]) then [' ', s[0]] else [s[0]];
      RemoveSpacesAppend(head, SpaceCapitals(s[1..]));
      SpaceCapitalsUnspaced(s[1..]);
      assert RemoveSpaces(head) == [s[0]] by {
        if IsUpper(s[0]) {
          assert head[1..] == [s[0]];
        }
      }
    }
  }

  lemma {:induction false} RemoveSpacesAppend(a: string, b: string)
    ensures RemoveSpaces(a + b) == RemoveSpaces(a) + RemoveSpaces(b)
  {
    if a != [] {
      assert (a + b)[1..] == a[1..] + b;
      RemoveSpacesAppend(a[1..], b);
    } else {
      assert a + b == b;
    }
  }

  /** Spacing keeps the first letter when it is not a capital, and the last character. */
  lemma {:induction false} SpaceCapitalsEnds(s: string)
    requires |s| >= 1
    ensures |SpaceCapitals(s)| >= 1
    ensures !IsUpper(s[0]) ==> SpaceCapitals(s)[0] == s[0]
    ensures SpaceCapitals(s)[|SpaceCapitals(s)| - 1] == s[|s| - 1]
  {
    if |s| > 1 {
      SpaceCapitalsEnds(s[1..]);
    }
  }

  /**
   * For a camel-case key the readable name starts with the key's first
   * letter in upper case, every space is followed by a capital letter, and
   * taking the spaces out gives the key back with its first letter raised.
   */
  lemma FormatStatKeyOfCamel(key: string)
    requires CamelKey(key)
    ensures var r := FormatStatKey(key);
            && |r| >= 1 && r[0] == UpperChar(key[0])
            && RemoveSpaces(r) == [UpperChar(key[0])] + key[1..]
  {
    var spaced := SpaceCapitals(key);
    SpaceCapitalsEnds(key);
    var capital := CapitaliseFirst(spaced);
    assert capital == [UpperChar(key[0])] + spaced[1..];
    assert !IsWhitespace(capital[0]) && !IsWhitespace(capital[|capital| - 1]) by {
      assert capital[|capital| - 1] == key[|key| - 1] || |capital| == 1;
    }
    TrimOfTrimmed(capital);
    forall i | 0 <= i < |key| ensures key[i] != ' ' {
    }
    SpaceCapitalsUnspaced(key);
    assert spaced == [key[0]] + spaced[1..];
    RemoveSpacesAppend([key[0]], spaced[1..]);
    RemoveSpacesAppend([UpperChar(key[0])], spaced[1..]);
    assert RemoveSpaces(spaced) == [key[0]] + RemoveSpaces(spaced[1..]);
    assert key == [key[0]] + key[1..];
  }

  // ---------------------------------------------------------------------
  // The general tab
  // ---------------------------------------------------------------------

  /** The fixed order of the general tab. */
  const StatsOrder: seq<string> := [
    "speed", "acceleration", "finishing", "shotPower",
    "longShots", "positioning", "volleys", "penalties",
    "shortPassing", "vision", "crossing", "longPassing",
    "freeKickAccuracy", "curve", "dribbling", "ballControl",
    "agility", "balance", "reactions", "marking",
    "standingTackle", "interceptions", "slidingTackle",
    "heading", "strength", "stamina", "aggression",
    "jumping", "composure", "gkDiving", "gkHandling",
    "gkKicking", "gkReflexes", "gkPositioning"]

  /** The keys of `order` that `stats` has, in that order, with their stats. */
  function InOrder(order: seq<string>, stats: map<string, Stat>): (r: seq<Shown>)
    ensures |r| <= |order|
    ensures forall i :: 0 <= i < |r| ==> r[i].key in order
    ensures forall i :: 0 <= i < |r| ==> r[i].key in stats && r[i].stat == stats[r[i].key] && r[i].coefficient.None?
  {
    if order == [] then []
    else
      var key := order[|order| - 1];
      InOrder(order[..|order| - 1], stats) + (if key in stats then [Shown(key, stats[key], None)] else [])
  }

  /** The place of `key` in `order`. */
  function Place(order: seq<string>, key: string): (i: nat)
    requires key in order
    ensures i < |order| && order[i] == key
    ensures forall j :: 0 <= j < i ==> order[j] != key
  {
    if order[0] == key then 0 else 1 + Place(order[1..], key)
  }

  /** The general tab lists exactly the keys of the order that the player has. */
  lemma {:induction false} InOrderMembers(order: seq<string>, stats: map<string, Stat>)
    ensures var r := InOrder(order, stats);
            forall k :: (exists i :: 0 <= i < |r| && r[i].key == k) <==> k in order && k in stats
  {
    if order != [] {
      var init := order[..|order| - 1];
      var key := order[|order| - 1];
      InOrderMembers(init, stats);
      var prev := InOrder(init, stats);
      var r := InOrder(order, stats);
      assert forall k :: k in order <==> k in init || k == key;
      forall k ensures (exists i :: 0 <= i < |r| && r[i].key == k) <==> k in order && k in stats {
        if k in init && k in stats {
          var i :| 0 <= i < |prev| && prev[i].key == k;
          assert r[i] == prev[i];
        }
        if k == key && k in stats {
          assert r[|r| - 1].key == key;
        }
        if exists i :: 0 <= i < |r| && r[i].key == k {
          var i :| 0 <= i < |r| && r[i].key == k;
          if i < |prev| {
            assert r[i] == prev[i];
          }
        }
      }
    }
  }

  /** When the order has no repeated key, the general tab keeps its order. */
  lemma InOrderOrdered(order: seq<string>, stats: map<string, Stat>)
    requires NoDuplicates(order)
    ensures var r := InOrder(order, stats);
            forall i, j :: 0 <= i < j < |r| ==> Place(order, r[i].key) < Place(order, r[j].key)
  {
    var r := InOrder(order, stats);
    forall i, j | 0 <= i < j < |r| ensures Place(order, r[i].key) < Place(order, r[j].key) {
      InOrderOrderedAt(order, stats, i, j);
    }
  }

  lemma {:induction false} InOrderOrderedAt(order: seq<string>, stats: map<string, Stat>, i: nat, j: nat)
    requires NoDuplicates(order)
    requires i < j < |InOrder(order, stats)|
    ensures var r := InOrder(order, stats);
            Place(order, r[i].key) < Place(order, r[j].key)
  {
    var init := order[..|order| - 1];
    var key := order[|order| - 1];
    assert order == init + [key];
    assert NoDuplicates(init);
    var prev := InOrder(init, stats);
    var r := InOrder(order, stats);
    assert r == prev + (if key in stats then [Shown(key, stats[key], None)] else []);
    assert r[i] == prev[i];
    PlacePrefix(init, key, prev[i].key);
    if j < |prev| {
      assert r[j] == prev[j];
      PlacePrefix(init, key, prev[j].key);
      InOrderOrderedAt(init, stats, i, j);
    } else {
      assert r[j].key == key;
      forall k | 0 <= k < |init| ensures order[k] != key {
        assert order[k] == init[k];
      }
      PlaceUnique(order, key, |init|);
    }
  }

  /** The place of a key before the last element is its place in the prefix. */
  lemma PlacePrefix(init: seq<string>, last: string, k: string)
    requires k in init
    ensures k in init + [last] && Place(init + [last], k) == Place(init, k) < |init|
  {
    var i := Place(init, k);
    var order := init + [last];
    assert order[i] == k;
    assert forall j :: 0 <= j <= i ==> order[j] == init[j];
    PlaceUnique(order, k, i);
  }

  /** A place is the first index holding the key. */
  lemma PlaceUnique(order: seq<string>, k: string, i: nat)
    requires i < |order| && order[i] == k
    requires forall j :: 0 <= j < i ==> order[j] != k
    ensures k in order && Place(order, k) == i
  {
  }

  // ---------------------------------------------------------------------
  // Tables
  // ---------------------------------------------------------------------

  /** The first `width` stats as cells, padded with empty cells. */
  function FirstRow(items: seq<Shown>, width: nat): (row: seq<Cell>)
    ensures |row| == width
  {
    seq(width, j requires 0 <= j < width => if j < |items| then CellOf(items[j]) else EmptyCell)
  }

  /** `width` stats to a row, the last row padded. */
  function Table(items: seq<Shown>, width: nat): (rows: seq<seq<Cell>>)
    requires width >= 1
    ensures forall r :: 0 <= r < |rows| ==> |rows[r]| == width
    decreases |items|
  {
    if items == [] then [] else [FirstRow(items, width)] + Table(items[Min(width, |items|)..], width)
  }

  /** The cells of the stats, in order. */
  function Cells(items: seq<Shown>): (cells: seq<Cell>)
    ensures |cells| == |items|
  {
    seq(|items|, i requires 0 <= i < |items| => CellOf(items[i]))
  }

  /** `k` empty cells. */
  function Padding(k: nat): seq<Cell> {
    seq(k, i => EmptyCell)
  }

  /** The rows read left to right, top to bottom. */
  function Flatten(rows: seq<seq<Cell>>): seq<Cell> {
    if rows == [] then [] else rows[0] + Flatten(rows[1..])
  }

  /**
   * A table has as many rows as it takes to hold every stat: the ceiling of
   * the count over the width.
   */
  lemma {:induction false} TableRowCount(items: seq<Shown>, width: nat)
    requires width >= 1
    ensures |Table(items, width)| == (|items| + width - 1) / width
    decreases |items|
  {
    var n := |items|;
    if items == [] {
      DivUnique(width - 1, width, 0, width - 1);
    } else if n < width {
      DivUnique(n + width - 1, width, 1, n - 1);
    } else {
      TableRowCount(items[width..], width);
      DivPlusMultiple(n - 1, 1, width);
    }
  }

  /** The ceiling of `n` over `width` is the least count of rows of `width` that holds `n`. */
  lemma CeilingBounds(n: nat, width: nat, q: int)
    requires width >= 1 && q == (n + width - 1) / width
    ensures q * width >= n && (q == 0 || (q - 1) * width < n)
  {
    var r := (n + width - 1) % width;
    assert n + width - 1 == width * q + r;
    assert (q - 1) * width == q * width - width;
  }

  /** A full first row is the first `width` stats. */
  lemma FirstRowFull(items: seq<Shown>, width: nat)
    requires |items| >= width
    ensures FirstRow(items, width) == Cells(items[..width])
  {
  }

  /** A short first row is every stat and then padding. */
  lemma FirstRowShort(items: seq<Shown>, width: nat)
    requires |items| < width
    ensures FirstRow(items, width) == Cells(items) + Padding(width - |items|)
  {
  }

  lemma CellsAppend(a: seq<Shown>, b: seq<Shown>)
    ensures Cells(a + b) == Cells(a) + Cells(b)
  {
  }

  /** A table holds every stat and fewer than `width` empty cells more. */
  lemma TableSize(items: seq<Shown>, width: nat)
    requires width >= 1
    ensures |items| <= |Table(items, width)| * width < |items| + width
  {
    TableRowCount(items, width);
    CeilingBounds(|items|, width, |Table(items, width)|);
  }

  /**
   * Read row by row, a table shows every stat once, in order, followed by
   * fewer than `width` empty cells.
   */
  lemma {:induction false} TableCells(items: seq<Shown>, width: nat)
    requires width >= 1
    ensures var rows := Table(items, width);
            && |items| <= |rows| * width < |items| + width
            && Flatten(rows) == Cells(items) + Padding(|rows| * width - |items|)
    decreases |items|
  {
    TableSize(items, width);
    if items != [] {
      if |items| < width {
        assert Table(items, width) == [FirstRow(items, width)];
        FirstRowShort(items, width);
      } else {
        var rest := items[width..];
        var tail := Table(rest, width);
        TableCells(rest, width);
        TableCellsStep(items, width, |tail| * width - |rest|);
        assert |Table(items, width)| == |tail| + 1;
        MulSucc(|tail|, width);
      }
    }
  }

  /** A table of at least a row of stats reads as its first row, then the table of the rest. */
  lemma TableCellsStep(items: seq<Shown>, width: nat, pad: nat)
    requires 1 <= width <= |items|
    requires Flatten(Table(items[width..], width)) == Cells(items[width..]) + Padding(pad)
    ensures Flatten(Table(items, width)) == Cells(items) + Padding(pad)
  {
    var rest := items[width..];
    var first := FirstRow(items, width);
    assert Table(items, width) == [first] + Table(rest, width);
    FlattenCons(first, Table(rest, width));
    FirstRowFull(items, width);
    CellsAppend(items[..width], rest);
    assert items[..width] + rest == items;
    assert Cells(items[..width]) + (Cells(rest) + Padding(pad)) == (Cells(items[..width]) + Cells(rest)) + Padding(pad);
  }

  /** A row put before others comes first when the table is read. */
  lemma FlattenCons(row: seq<Cell>, rows: seq<seq<Cell>>)
    ensures Flatten([row] + rows) == row + Flatten(rows)
  {
    assert ([row] + rows)[1..] == rows;
  }

  /** The inner loop of the table renderers: the row of cells from place `i` on. */
  method RenderRow(items: seq<Shown>, i: nat, width: nat) returns (row: seq<Cell>)
    requires i <= |items|
    ensures row == FirstRow(items[i..], width)
  {
    row := [];
    for j := 0 to width
      invariant row == FirstRow(items[i..], width)[..j]
    {
      if i + j < |items| {
        row := row + [CellOf(items[i + j])];
      } else {
        row := row + [EmptyCell];
      }
    }
  }

  /** Past place `i`, a table is the row starting there and the table of the rest. */
  lemma AppendRow(rows: seq<seq<Cell>>, row: seq<Cell>, rest: seq<seq<Cell>>)
    ensures (rows + [row]) + rest == rows + ([row] + rest)
  {
  }

  lemma TableUnfold(items: seq<Shown>, width: nat, i: nat)
    requires width >= 1 && i < |items|
    ensures Table(items[i..], width) == [FirstRow(items[i..], width)] + Table(items[Min(i + width, |items|)..], width)
  {
    var rest := items[i..];
    assert rest[Min(width, |rest|)..] == items[Min(i + width, |items|)..];
  }

  /**
   * `renderStatsTable` (width 4) and `renderStatsTableWithCoefficient`
   * (width 2): a row per `width` stats, each cell filled from the stat at
   * its place or left empty past the end.
   */
  method RenderTable(items: seq<Shown>, width: nat) returns (rows: seq<seq<Cell>>)
    requires width >= 1
    ensures rows == Table(items, width)
  {
    rows := [];
    var i := 0;
    while i < |items|
      invariant 0 <= i
      invariant rows + Table(items[Min(i, |items|)..], width) == Table(items, width)
      decreases |items| - i
    {
      var row := RenderRow(items, i, width);
      TableUnfold(items, width, i);
      assert items[Min(i, |items|)..] == items[i..];
      AppendRow(rows, row, Table(items[Min(i + width, |items|)..], width));
      rows := rows + [row];
      i := i + width;
    }
  }

  /** Stats to a row on the general tab and on a position tab. */
  const GeneralWidth := 4
  const PositionWidth := 2

  /** The loop of `displayAllStats`: the keys of the order the player has, with their stats. */
  method CollectInOrder(order: seq<string>, stats: map<string, Stat>) returns (shown: seq<Shown>)
    ensures shown == InOrder(order, stats)
  {
    shown := [];
    for k := 0 to |order|
      invariant shown == InOrder(order[..k], stats)
    {
      assert order[..k + 1][..k] == order[..k];
      var key := order[k];
      if key in stats {
        shown := shown + [Shown(key, stats[key], None)];
      }
    }
    assert order[..|order|] == order;
  }

  /**
   * `displayAllStats`: the stats of the fixed order that the player has,
   * four to a row; none when the player has no stats object.
   */
  method DisplayAllStats(stats: Option<map<string, Stat>>) returns (table: Option<seq<seq<Cell>>>)
    ensures stats.None? <==> table.None?
    ensures stats.Some? ==> table == Some(Table(InOrder(StatsOrder, stats.value), GeneralWidth))
  {
    if stats.None? {
      return None;
    }
    var statsToDisplay := CollectInOrder(StatsOrder, stats.value);
    var rows := RenderTable(statsToDisplay, GeneralWidth);
    return Some(rows);
  }

  // ---------------------------------------------------------------------
  // A position tab
  // ---------------------------------------------------------------------

  /** The group's entries the player has a stat for, as shown stats, in the same order. */
  function WithStats(coefs: CoefficientSet, stats: map<string, Stat>): (r: seq<Shown>)
    requires forall i :: 0 <= i < |coefs| ==> coefs[i].key in stats
    ensures |r| == |coefs|
    ensures forall i :: 0 <= i < |r| ==>
              r[i] == Shown(coefs[i].key, stats[coefs[i].key], Some(coefs[i].coefficient))
  {
    seq(|coefs|, i requires 0 <= i < |coefs| => Shown(coefs[i].key, stats[coefs[i].key], Some(coefs[i].coefficient)))
  }

  /** The entries a position tab shows, in the order it shows them. */
  function SortedPresent(coefs: CoefficientSet, stats: map<string, Stat>): CoefficientSet {
    SortByCoefficientDesc(PresentEntries(coefs, stats.Keys))
  }

  /** Every sorted entry is one of the group's entries that the player has a stat for. */
  lemma SortedPresentMembers(coefs: CoefficientSet, stats: map<string, Stat>)
    ensures forall e :: e in SortedPresent(coefs, stats) <==> e in coefs && e.key in stats
  {
    var present := PresentEntries(coefs, stats.Keys);
    var sorted := SortedPresent(coefs, stats);
    forall e ensures e in sorted <==> e in present {
      assert e in sorted <==> e in multiset(sorted);
      assert e in present <==> e in multiset(present);
    }
  }

  /** The stats of a position tab: present entries sorted by descending coefficient. */
  function PositionStats(coefs: CoefficientSet, stats: map<string, Stat>): (r: seq<Shown>)
    ensures |r| == |PresentEntries(coefs, stats.Keys)|
    ensures forall i :: 0 <= i < |r| ==> r[i].key in stats && r[i].stat == stats[r[i].key] && r[i].coefficient.Some?
  {
    var sorted := SortedPresent(coefs, stats);
    SortedPresentMembers(coefs, stats);
    assert forall i :: 0 <= i < |sorted| ==> sorted[i] in sorted;
    WithStats(sorted, stats)
  }

  /** Each stat of a position tab comes from its entry in the sorted list. */
  lemma PositionStatsAt(coefs: CoefficientSet, stats: map<string, Stat>, i: nat)
    requires i < |PositionStats(coefs, stats)|
    ensures var sorted := SortedPresent(coefs, stats);
            && i < |sorted| && sorted[i].key in stats
            && PositionStats(coefs, stats)[i] == Shown(sorted[i].key, stats[sorted[i].key], Some(sorted[i].coefficient))
  {
    SortedPresentMembers(coefs, stats);
    assert SortedPresent(coefs, stats)[i] in SortedPresent(coefs, stats);
  }

  /** A position tab lists its stats by descending coefficient. */
  lemma PositionStatsSorted(coefs: CoefficientSet, stats: map<string, Stat>)
    ensures var r := PositionStats(coefs, stats);
            forall i, j :: 0 <= i < j < |r| ==> r[i].coefficient.value >= r[j].coefficient.value
  {
    var r := PositionStats(coefs, stats);
    var sorted := SortedPresent(coefs, stats);
    assert SortedByCoefficientDesc(sorted);
    forall i, j | 0 <= i < j < |r| ensures r[i].coefficient.value >= r[j].coefficient.value {
      PositionStatsAt(coefs, stats, i);
      PositionStatsAt(coefs, stats, j);
    }
  }

  /** Every entry of the group that the player has a stat for is shown, with its coefficient. */
  lemma PositionStatsComplete(coefs: CoefficientSet, stats: map<string, Stat>)
    ensures var r := PositionStats(coefs, stats);
            forall e :: e in coefs && e.key in stats ==>
              exists i :: 0 <= i < |r| && r[i] == Shown(e.key, stats[e.key], Some(e.coefficient))
  {
    var sorted := SortedPresent(coefs, stats);
    var r := PositionStats(coefs, stats);
    SortedPresentMembers(coefs, stats);
    forall e | e in coefs && e.key in stats
      ensures exists i :: 0 <= i < |r| && r[i] == Shown(e.key, stats[e.key], Some(e.coefficient))
    {
      var i :| 0 <= i < |sorted| && sorted[i] == e;
      PositionStatsAt(coefs, stats, i);
    }
  }

  /** Every shown stat is an entry of the group that the player has a stat for. */
  lemma PositionStatsSound(coefs: CoefficientSet, stats: map<string, Stat>)
    ensures var r := PositionStats(coefs, stats);
            forall i :: 0 <= i < |r| ==>
              exists e :: e in coefs && e.key in stats && r[i] == Shown(e.key, stats[e.key], Some(e.coefficient))
  {
    var sorted := SortedPresent(coefs, stats);
    var r := PositionStats(coefs, stats);
    SortedPresentMembers(coefs, stats);
    forall i | 0 <= i < |r| ensures exists e :: e in coefs && e.key in stats && r[i] == Shown(e.key, stats[e.key], Some(e.coefficient)) {
      PositionStatsAt(coefs, stats, i);
      assert sorted[i] in sorted;
    }
  }

  /** What a position tab shows: a note when the group has no coefficients, else its table. */
  datatype PositionTab = NoCoefficients(position: string) | CoefficientTable(groupKey: string, rows: seq<seq<Cell>>)

  /**
   * `fetchAndDisplayPositionStats` given the server's answer (the group key
   * and its coefficients, or none): the present entries are collected in the
   * group's order, sorted by descending coefficient and shown two to a row.
   */
  method DisplayPositionStats(position: string, response: Option<(string, CoefficientSet)>, stats: map<string, Stat>)
    returns (tab: PositionTab)
    ensures response.None? ==> tab == NoCoefficients(position)
    ensures response.Some? ==> tab == CoefficientTable(response.value.0,
              Table(PositionStats(response.value.1, stats), PositionWidth))
  {
    if response.None? {
      return NoCoefficients(position);
    }
    var coefs := response.value.1;
    var withCoef := CollectWithCoefficient(coefs, stats);
    SortedPresentMembers(coefs, stats);
    var sorted := SortByCoefficientDesc(withCoef);
    assert forall i :: 0 <= i < |sorted| ==> sorted[i] in sorted;
    var shown := WithStats(sorted, stats);
    var rows := RenderTable(shown, PositionWidth);
    return CoefficientTable(response.value.0, rows);
  }

  /** The loop of `fetchAndDisplayPositionStats`: the group's entries the player has a stat for. */
  method CollectWithCoefficient(coefs: CoefficientSet, stats: map<string, Stat>) returns (withCoef: CoefficientSet)
    ensures withCoef == PresentEntries(coefs, stats.Keys)
  {
    withCoef := [];
    for k := 0 to |coefs|
      invariant withCoef == PresentEntries(coefs[..k], stats.Keys)
    {
      PresentEntriesSnoc(coefs[..k], coefs[k], stats.Keys);
      assert coefs[..k + 1] == coefs[..k] + [coefs[k]];
      if coefs[k].key in stats {
        withCoef := withCoef + [coefs[k]];
      }
    }
    assert coefs[..|coefs|] == coefs;
  }

  /** Filtering one more entry appends it when present. */
  lemma {:induction false} PresentEntriesSnoc(coefs: CoefficientSet, e: CoefficientEntry, present: set<string>)
    ensures PresentEntries(coefs + [e], present) == PresentEntries(coefs, present) + (if e.key in present then [e] else [])
  {
    if coefs == [] {
      assert coefs + [e] == [e];
    } else {
      assert (coefs + [e])[1..] == coefs[1..] + [e];
      PresentEntriesSnoc(coefs[1..], e, present);
    }
  }
}
