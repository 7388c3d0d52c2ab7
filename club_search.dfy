/**
 * The club search page: the guard on the typed club name, the career entry a
 * player's card shows for the searched club, and the salary the card quotes
 * for the player's overall rating. The page's DOM, the fetch and its errors
 * are left out; the server's answer is a parameter.
 */
module ClubSearch {
  import opened JsText
  import opened PlayerStats

  // ---------------------------------------------------------------------
  // The search guard
  // ---------------------------------------------------------------------

  /** What pressing search does with the typed club name. */
  datatype SearchAction = ShowError(message: string) | Fetch(club: string)

  const BlankClubMessage := "Vui lòng nhập tên câu lạc bộ"

  /**
   * `performSearch` up to the fetch: a name that is blank once trimmed shows
   * an error and sends nothing; otherwise the trimmed name is searched for.
   */
  function PerformSearch(input: string): (a: SearchAction)
    ensures a.ShowError? <==> AllWhitespace(input)
    ensures a.ShowError? ==> a.message == BlankClubMessage
    ensures a.Fetch? ==> a.club != [] && !IsWhitespace(a.club[0]) && !IsWhitespace(a.club[|a.club| - 1])
    ensures a.Fetch? ==> a.club == Trim(input)
  {
    var club := Trim(input);
    TrimEmptyIffBlank(input);
    if club == [] then ShowError(BlankClubMessage) else Fetch(club)
  }

  // ---------------------------------------------------------------------
  // The career entry on a card
  // ---------------------------------------------------------------------

  /** The entry's club holds the searched text, ignoring the case of ASCII letters. */
  predicate ClubMatches(entry: CareerEntry, searched: string) {
    Contains(ToLower(entry.club), ToLower(searched))
  }

  /** `Array.prototype.find` with `ClubMatches` over the entries. */
  function FirstMatch(entries: seq<CareerEntry>, searched: string): (r: Option<nat>)
    ensures r.Some? ==> r.value < |entries| && ClubMatches(entries[r.value], searched)
    ensures r.Some? ==> forall j :: 0 <= j < r.value ==> !ClubMatches(entries[j], searched)
    ensures r.None? ==> forall j :: 0 <= j < |entries| ==> !ClubMatches(entries[j], searched)
  {
    if entries == [] then None
    else if ClubMatches(entries[0], searched) then Some(0)
    else
      var rest := FirstMatch(entries[1..], searched);
      if rest.Some? then Some(rest.value + 1) else None
  }

  /**
   * `player.clubCareer?.find(...)`: the first entry whose club contains the
   * searched text, none when no entry does or the player has no career.
   */
  function CareerShown(career: Option<seq<CareerEntry>>, searched: string): (r: Option<CareerEntry>)
    ensures r.None? <==> career.None? || forall j :: 0 <= j < |career.value| ==> !ClubMatches(career.value[j], searched)
    ensures r.Some? ==> ClubMatches(r.value, searched)
    ensures r.Some? ==> exists i :: 0 <= i < |career.value| && career.value[i] == r.value
                         && forall j :: 0 <= j < i ==> !ClubMatches(career.value[j], searched)
  {
    if career.None? then None
    else
      var i := FirstMatch(career.value, searched);
      if i.Some? then Some(career.value[i.value]) else None
  }

  /** Searching for a club's exact name, in any ASCII case, finds an entry of that club. */
  lemma ExactClubFound(career: seq<CareerEntry>, k: nat, searched: string)
    requires k < |career| && ToLower(career[k].club) == ToLower(searched)
    ensures CareerShown(Some(career), searched).Some?
  {
    var s := ToLower(searched);
    assert OccursAt(ToLower(career[k].club), s, 0);
  }

  // ---------------------------------------------------------------------
  // Salary
  // ---------------------------------------------------------------------

  /**
   * The salary, in BP, of the step the overall falls in: 220 from 31 up, a
   * listed amount for each overall from 11 to 30, and 15 below 11 or when the
   * overall is not a number.
   */
  function SalaryAmount(ovr: Num): (bp: nat)
    ensures ovr.Int? && ovr.value >= 31 ==> bp == 220
    ensures ovr.NaN? || ovr.value < 11 ==> bp == 15
    ensures 15 <= bp <= 220
  {
    match ovr
    case NaN => 15
    case Int(o) =>
      if o >= 31 then 220
      else if o >= 30 then 210
      else if o >= 29 then 200
      else if o >= 28 then 190
      else if o >= 27 then 175
      else if o >= 26 then 155
      else if o >= 25 then 135
      else if o >= 24 then 120
      else if o >= 23 then 105
      else if o >= 22 then 95
      else if o >= 21 then 85
      else if o >= 20 then 75
      else if o >= 19 then 65
      else if o >= 18 then 55
      else if o >= 17 then 50
      else if o >= 16 then 45
      else if o >= 15 then 40
      else if o >= 14 then 35
      else if o >= 13 then 30
      else if o >= 12 then 25
      else if o >= 11 then 20
      else 15
  }

  /** The salary of overalls 11 to 30, in order. */
  const BandAmounts: seq<nat> := [20, 25, 30, 35, 40, 45, 50, 55, 65, 75, 85, 95, 105, 120, 135, 155, 175, 190, 200, 210]

  /** Each overall from 11 to 30 earns exactly its amount in the table. */
  lemma SalaryBands(o: int)
    requires 11 <= o <= 30
    ensures |BandAmounts| == 20 && SalaryAmount(Int(o)) == BandAmounts[o - 11]
  {
  }

  /** One more point of overall never lowers the salary. */
  lemma SalaryStep(o: int)
    ensures SalaryAmount(Int(o)) <= SalaryAmount(Int(o + 1))
  {
  }

  /** The salary never falls as the overall rises, and a rating that is not a number earns the least. */
  lemma {:induction false} SalaryMonotone(a: int, b: int)
    requires a <= b
    ensures SalaryAmount(Int(a)) <= SalaryAmount(Int(b))
    ensures SalaryAmount(NaN) <= SalaryAmount(Int(a))
    decreases b - a
  {
    if a < b {
      SalaryMonotone(a, b - 1);
      SalaryStep(b - 1);
    }
  }

  /** The overall `getSalary` reads from a stored rating: the number itself, or NaN when missing. */
  function RatingOvr(overallRating: Option<int>): Num {
    if overallRating.Some? then Int(overallRating.value) else NaN
  }

  /**
   * `getSalary(overallRating)`: the amount followed by "BP". A stored rating
   * is a whole number, which `parseInt` reads back as itself.
   */
  function GetSalary(overallRating: Option<int>): (quote: string)
    ensures |quote| > 2 && quote[|quote| - 2..] == "BP"
  {
    NatToString(SalaryAmount(RatingOvr(overallRating))) + "BP"
  }

  /** The text before "BP" reads back as the salary of the rating's step. */
  lemma GetSalaryReadsBack(overallRating: Option<int>)
    ensures var quote := GetSalary(overallRating);
            ParseInt(quote[..|quote| - 2]) == Int(SalaryAmount(RatingOvr(overallRating)))
  {
    var amount := NatToString(SalaryAmount(RatingOvr(overallRating)));
    ParseIntNatToString(SalaryAmount(RatingOvr(overallRating)));
    assert (amount + "BP")[..|amount|] == amount;
  }

  // ---------------------------------------------------------------------
  // The results
  // ---------------------------------------------------------------------

  /** The fields of a found player that a card uses. */
  datatype FoundPlayer = FoundPlayer(
    playerId: string,
    name: string,
    overallRating: Option<int>,
    overallDisplay: Option<int>,
    clubCareer: Option<seq<CareerEntry>>)

  /** What a card shows besides the player's own fields. */
  datatype Card = Card(playerId: string, career: Option<CareerEntry>, overall: Option<int>, salary: string)

  /** `overallDisplay || overallRating`: the display overall unless it is missing or zero. */
  function OverallShown(p: FoundPlayer): (o: Option<int>)
    ensures p.overallDisplay.Some? && p.overallDisplay.value != 0 ==> o == p.overallDisplay
    ensures p.overallDisplay.None? || p.overallDisplay.value == 0 ==> o == p.overallRating
  {
    if p.overallDisplay.Some? && p.overallDisplay.value != 0 then p.overallDisplay else p.overallRating
  }

  /**
   * `createPlayerCard(player, club)`: the card's id, the first career entry
   * naming the club, the shown overall and the salary quote.
   */
  function CardOf(p: FoundPlayer, club: string): (c: Card)
    ensures c.playerId == p.playerId
    ensures c.career.None? <==>
              p.clubCareer.None? || forall j :: 0 <= j < |p.clubCareer.value| ==> !ClubMatches(p.clubCareer.value[j], club)
    ensures c.career.Some? ==> ClubMatches(c.career.value, club) && c.career.value in p.clubCareer.value
    ensures c.overall == (if p.overallDisplay.Some? && p.overallDisplay.value != 0 then p.overallDisplay else p.overallRating)
    ensures |c.salary| > 2 && c.salary[|c.salary| - 2..] == "BP"
    ensures ParseInt(c.salary[..|c.salary| - 2]) == Int(SalaryAmount(RatingOvr(p.overallRating)))
  {
    GetSalaryReadsBack(p.overallRating);
    Card(p.playerId, CareerShown(p.clubCareer, club), OverallShown(p), GetSalary(p.overallRating))
  }

  /** What the results area shows: the empty state for the club, or a card per player. */
  datatype ResultsView = NoPlayers(club: string) | Grid(count: nat, club: string, cards: seq<Card>)

  /**
   * `displayResults(players, club)`: no players shows the empty state;
   * otherwise the count and one card per player, in the server's order.
   */
  method DisplayResults(players: Option<seq<FoundPlayer>>, club: string) returns (view: ResultsView)
    ensures view.NoPlayers? <==> players.None? || |players.value| == 0
    ensures view.NoPlayers? ==> view.club == club
    ensures view.Grid? ==> view.count == |players.value| == |view.cards| && view.club == club
    ensures view.Grid? ==> forall i :: 0 <= i < |view.cards| ==> view.cards[i] == CardOf(players.value[i], club)
  {
    if players.None? || |players.value| == 0 {
      return NoPlayers(club);
    }
    var list := players.value;
    var cards := CreateCards(list, club);
    return Grid(|list|, club, cards);
  }

  /** The loop of `displayResults`: a card per player, in order. */
  method CreateCards(list: seq<FoundPlayer>, club: string) returns (cards: seq<Card>)
    ensures |cards| == |list|
    ensures forall i :: 0 <= i < |list| ==> cards[i] == CardOf(list[i], club)
  {
    cards := [];
    for i := 0 to |list|
      invariant |cards| == i
      invariant forall k :: 0 <= k < i ==> cards[k] == CardOf(list[k], club)
    {
      var card := CardOf(list[i], club);
      cards := cards + [card];
    }
  }
}
