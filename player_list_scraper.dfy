/**
 * The player list scraper: the query it asks the list page for, given one
 * position and the seasons to filter by, and what it keeps from each
 * player card on that page — the player's id and absolute URLs, the season
 * read off the badge's class, the positions with their ratings, and which
 * cards make a record at all. The HTML selectors are left out: each card
 * arrives as the texts and attributes its selectors found, in document
 * order, and the fetched page is a parameter.
 */
module PlayerListScraper {
  import opened JsText

  /** The site every scraped page and every relative link belongs to. */
  const BaseUrl: string := "https://automua.com"

  /** The list page; its query follows after `?`. */
  const ListPath: string := BaseUrl + "/players"

  // ---------------------------------------------------------------------
  // The query
  // ---------------------------------------------------------------------

  /** One `name=value` pair of a query, before form encoding. */
  datatype Param = Param(name: string, value: string)

  /** The list page's address: its path and its query pairs in order. */
  datatype ListUrl = ListUrl(path: string, query: seq<Param>)

  const PositionParamName: string := "positions[0]"

  /** `seasons[<index>]`. */
  function SeasonParamName(index: nat): string {
    "seasons[" + NatToString(index) + "]"
  }

  /** The pairs the list query is built from: the position, then one pair per season. */
  function ListParams(position: string, seasons: seq<string>): seq<Param> {
    [Param(PositionParamName, position)]
      + seq(|seasons|, i requires 0 <= i < |seasons| => Param(SeasonParamName(i), seasons[i]))
  }

  /** `URLSearchParams.prototype.get`: the value of the first pair with that name. */
  function Get(query: seq<Param>, name: string): (r: Option<string>)
    ensures r.None? <==> forall j :: 0 <= j < |query| ==> query[j].name != name
  {
    if query == [] then None
    else if query[0].name == name then Some(query[0].value)
    else Get(query[1..], name)
  }

  /**
   * `buildPlayerListUrl`: the list page with `positions[0]` set to the
   * position, then `seasons[i]` set to each season in the order given.
   */
  method BuildPlayerListUrl(position: string, seasons: seq<string>) returns (url: ListUrl)
    ensures url.path == ListPath
    ensures url.query == ListParams(position, seasons)
  {
    var query := [Param(PositionParamName, position)];
    var index := 0;
    while index < |seasons|
      invariant index <= |seasons|
      invariant query == ListParams(position, seasons[..index])
    {
      ListParamsStep(position, seasons, index);
      query := query + [Param(SeasonParamName(index), seasons[index])];
      index := index + 1;
    }
    assert seasons[..index] == seasons;
    url := ListUrl(ListPath, query);
  }

  lemma ListParamsStep(position: string, seasons: seq<string>, index: nat)
    requires index < |seasons|
    ensures ListParams(position, seasons[..index + 1])
         == ListParams(position, seasons[..index]) + [Param(SeasonParamName(index), seasons[index])]
  {
    var longer := ListParams(position, seasons[..index + 1]);
    var shorter := ListParams(position, seasons[..index]);
    assert |longer| == |shorter| + 1;
    forall k | 0 <= k < |longer|
      ensures longer[k] == (shorter + [Param(SeasonParamName(index), seasons[index])])[k]
    {
    }
  }

  /** Different indices give different season names. */
  lemma SeasonParamNameInjective(i: nat, j: nat)
    requires SeasonParamName(i) == SeasonParamName(j)
    ensures i == j
  {
    var s := SeasonParamName(i);
    assert s[8..|s| - 1] == NatToString(i);
    assert SeasonParamName(j)[8..|s| - 1] == NatToString(j);
    DecimalValueOfNatToString(i);
    DecimalValueOfNatToString(j);
  }

  lemma PositionIsNoSeason(i: nat)
    ensures PositionParamName != SeasonParamName(i)
  {
    assert PositionParamName[0] == 'p' && SeasonParamName(i)[0] == 's';
  }

  /** A pair whose name no earlier pair has is what `get` finds. */
  lemma {:induction false} GetFirst(query: seq<Param>, k: nat)
    requires k < |query|
    requires forall j :: 0 <= j < k ==> query[j].name != query[k].name
    ensures Get(query, query[k].name) == Some(query[k].value)
  {
    if k > 0 {
      GetFirst(query[1..], k - 1);
    }
  }

  /** Reading the query back gives the position it was built for. */
  lemma ListQueryPosition(position: string, seasons: seq<string>)
    ensures Get(ListParams(position, seasons), PositionParamName) == Some(position)
  {
    GetFirst(ListParams(position, seasons), 0);
  }

  /** Reading the query back gives each season under its index. */
  lemma ListQuerySeason(position: string, seasons: seq<string>, i: nat)
    requires i < |seasons|
    ensures Get(ListParams(position, seasons), SeasonParamName(i)) == Some(seasons[i])
  {
    var query := ListParams(position, seasons);
    forall j | 0 <= j < i + 1 ensures query[j].name != query[i + 1].name {
      if j == 0 {
        PositionIsNoSeason(i);
      } else if query[j].name == query[i + 1].name {
        SeasonParamNameInjective(j - 1, i);
      }
    }
    GetFirst(query, i + 1);
  }

  /** The query holds no season beyond the ones given. */
  lemma ListQueryNoMoreSeasons(position: string, seasons: seq<string>, i: nat)
    requires i >= |seasons|
    ensures Get(ListParams(position, seasons), SeasonParamName(i)) == None
  {
    var query := ListParams(position, seasons);
    forall j | 0 <= j < |query| ensures query[j].name != SeasonParamName(i) {
      if j == 0 {
        PositionIsNoSeason(i);
      } else if query[j].name == SeasonParamName(i) {
        SeasonParamNameInjective(j - 1, i);
      }
    }
  }

  // ---------------------------------------------------------------------
  // Links, ids and seasons
  // ---------------------------------------------------------------------

  /** `link.startsWith('http') ? link : BASE_URL + link`. */
  function Absolutise(link: string): (url: string)
    ensures StartsWith(url, "http")
    ensures url == link <==> StartsWith(link, "http")
    ensures url != link ==> url == BaseUrl + link
  {
    if StartsWith(link, "http") then link
    else
      assert (BaseUrl + link)[..4] == "http";
      BaseUrl + link
  }

  /** An absolute link stays as it is. */
  lemma AbsolutiseIdempotent(link: string)
    ensures Absolutise(Absolutise(link)) == Absolutise(link)
  {
  }

  /** `href.split('/').pop()`. */
  function PlayerIdOf(href: string): string {
    var parts := Split(href, "/");
    parts[|parts| - 1]
  }

  /**
   * The id is the end of the link after its last `/`: the link ends with it,
   * and unless it is the whole link a `/` stands before it.
   */
  lemma {:induction false} PlayerIdIsLastSegment(href: string)
    ensures var id := PlayerIdOf(href);
      |id| <= |href| && href[|href| - |id|..] == id
      && (|id| < |href| ==> href[|href| - |id| - 1] == '/')
    decreases |href|
  {
    match IndexOf(href, "/")
    case None =>
    case Some(i) =>
      PlayerIdAfterFirstSlash(href, i);
      PlayerIdIsLastSegment(href[i + 1..]);
      SuffixOfRest(href, i, PlayerIdOf(href));
  }

  /** The id holds no `/`. */
  lemma {:induction false} PlayerIdHasNoSlash(href: string)
    ensures !Contains(PlayerIdOf(href), "/")
    decreases |href|
  {
    match IndexOf(href, "/")
    case None =>
    case Some(i) =>
      PlayerIdAfterFirstSlash(href, i);
      PlayerIdHasNoSlash(href[i + 1..]);
  }

  /** Everything up to the first `/` is dropped from the front. */
  lemma PlayerIdAfterFirstSlash(href: string, i: nat)
    requires IndexOf(href, "/") == Some(i)
    ensures PlayerIdOf(href) == PlayerIdOf(href[i + 1..])
  {
    SplitAtFirst(href, "/", i);
  }

  /** A suffix of the text after a `/` at `i` is a suffix of the whole text. */
  lemma SuffixOfRest(href: string, i: nat, id: string)
    requires i < |href| && href[i] == '/'
    requires var rest := href[i + 1..];
      |id| <= |rest| && rest[|rest| - |id|..] == id
      && (|id| < |rest| ==> rest[|rest| - |id| - 1] == '/')
    ensures |id| <= |href| && href[|href| - |id|..] == id
    ensures |id| < |href| ==> href[|href| - |id| - 1] == '/'
  {
    var rest := href[i + 1..];
    assert href[|href| - |id|..] == rest[|rest| - |id|..];
    if |id| < |rest| {
      assert href[|href| - |id| - 1] == rest[|rest| - |id| - 1];
    }
  }

  /** What the card's season field holds: `null`, `undefined` or a text. */
  datatype SeasonField = Null | Undefined | Text(text: string)

  /**
   * `seasonBadge ? seasonBadge.split('bg-')[1]?.trim() : null` on the badge's
   * class attribute, which is absent when the card has no badge.
   */
  function SeasonOf(badgeClass: Option<string>): SeasonField {
    match badgeClass
    case None => Null
    case Some(c) =>
      if c == [] then Null
      else
        var parts := Split(c, "bg-");
        if |parts| < 2 then Undefined else Text(Trim(parts[1]))
  }

  /** The season is `null` without a class, and `undefined` when the class has no `bg-`. */
  lemma SeasonMissing(badgeClass: Option<string>)
    ensures SeasonOf(badgeClass) == Null <==> badgeClass == None || badgeClass == Some([])
    ensures SeasonOf(badgeClass) == Undefined
        <==> badgeClass.Some? && badgeClass.value != [] && !Contains(badgeClass.value, "bg-")
  {
  }

  /**
   * Otherwise the season is the trimmed text after the first `bg-`, up to
   * the next `bg-` or the end of the class.
   */
  lemma SeasonBetweenMarkers(c: string, i: nat)
    requires c != [] && IndexOf(c, "bg-") == Some(i)
    ensures var rest := c[i + 3..];
      SeasonOf(Some(c)) == Text(Trim(match IndexOf(rest, "bg-")
                                     case None => rest
                                     case Some(k) => rest[..k]))
  {
    SplitAtFirst(c, "bg-", i);
    var rest := c[i + 3..];
    match IndexOf(rest, "bg-")
    case None =>
    case Some(k) => SplitAtFirst(rest, "bg-", k);
  }

  // ---------------------------------------------------------------------
  // Positions and ratings
  // ---------------------------------------------------------------------

  predicate NoWhitespace(s: string) {
    forall i :: 0 <= i < |s| ==> !IsWhitespace(s[i])
  }

  /** `s.replace(/\s+/g, '')`. */
  function RemoveWhitespace(s: string): string {
    if s == [] then []
    else (if IsWhitespace(s[0]) then [] else [s[0]]) + RemoveWhitespace(s[1..])
  }

  /** Removing whitespace leaves none and keeps every other character. */
  lemma {:induction false} RemoveWhitespaceClean(s: string)
    ensures NoWhitespace(RemoveWhitespace(s))
    ensures |RemoveWhitespace(s)| <= |s|
    ensures forall i :: 0 <= i < |s| && !IsWhitespace(s[i]) ==> s[i] in RemoveWhitespace(s)
  {
    if s != [] {
      RemoveWhitespaceClean(s[1..]);
      var h := if IsWhitespace(s[0]) then [] else [s[0]];
      var r := RemoveWhitespace(s[1..]);
      assert RemoveWhitespace(s) == h + r;
      forall i | 0 < i < |s| ensures s[i] == s[1..][i - 1] {
      }
    }
  }

  /** Text without whitespace is left as it is. */
  lemma {:induction false} RemoveWhitespaceKeeps(s: string)
    requires NoWhitespace(s)
    ensures RemoveWhitespace(s) == s
  {
    if s != [] {
      RemoveWhitespaceKeeps(s[1..]);
    }
  }

  lemma {:induction false} RemoveWhitespaceConcat(a: string, b: string)
    ensures RemoveWhitespace(a + b) == RemoveWhitespace(a) + RemoveWhitespace(b)
  {
    if a == [] {
      assert a + b == b;
    } else {
      var tail := a[1..];
      RemoveWhitespaceConcat(tail, b);
      assert a == [a[0]] + tail;
      assert a + b == [a[0]] + (tail + b);
      RemoveWhitespaceCons(a[0], tail);
      RemoveWhitespaceCons(a[0], tail + b);
    }
  }

  lemma RemoveWhitespaceCons(c: char, s: string)
    ensures RemoveWhitespace([c] + s) == (if IsWhitespace(c) then [] else [c]) + RemoveWhitespace(s)
  {
    assert ([c] + s)[1..] == s;
  }

  lemma {:induction false} RemoveWhitespaceBlank(a: string)
    requires AllWhitespace(a)
    ensures RemoveWhitespace(a) == []
  {
    if a != [] {
      RemoveWhitespaceBlank(a[1..]);
    }
  }

  /** What trimming removes, removing all whitespace removes anyway. */
  lemma RemoveWhitespaceTrim(s: string)
    ensures RemoveWhitespace(Trim(s)) == RemoveWhitespace(s)
  {
    TrimSlice(s);
    var o := TrimOffset(s);
    var e := o + |Trim(s)|;
    ThreeSlices(s, o, e);
    RemoveWhitespaceConcat(s[..o] + Trim(s), s[e..]);
    RemoveWhitespaceConcat(s[..o], Trim(s));
    RemoveWhitespaceBlank(s[..o]);
    RemoveWhitespaceBlank(s[e..]);
  }

  lemma ThreeSlices(s: string, o: nat, e: nat)
    requires o <= e <= |s|
    ensures s == s[..o] + s[o..e] + s[e..]
  {
  }

  /** A position label with the loose text next to it, which holds the rating. */
  datatype PositionBadge = PositionBadge(caption: string, loose: string)

  datatype PositionRating = PositionRating(position: string, rating: string)

  /** `rating.replace(/\s+/g, '').trim()` on the loose text's `trim()`. */
  function RatingOf(loose: string): string {
    Trim(RemoveWhitespace(Trim(loose)))
  }

  /** The rating is the loose text with every whitespace character removed. */
  lemma RatingOfStripsWhitespace(loose: string)
    ensures RatingOf(loose) == RemoveWhitespace(loose)
    ensures NoWhitespace(RatingOf(loose))
  {
    RemoveWhitespaceTrim(loose);
    RemoveWhitespaceClean(loose);
    TrimOfTrimmed(RemoveWhitespace(loose));
  }

  function EntryOf(badge: PositionBadge): PositionRating {
    PositionRating(Trim(badge.caption), RatingOf(badge.loose))
  }

  /** The entries pushed for the badges, in order: one per badge with a non-blank label. */
  function PositionsOf(badges: seq<PositionBadge>): (r: seq<PositionRating>)
    ensures |r| <= |badges|
    ensures forall k :: 0 <= k < |r| ==> r[k].position != []
  {
    if badges == [] then []
    else
      var rest := PositionsOf(badges[..|badges| - 1]);
      var last := badges[|badges| - 1];
      if Trim(last.caption) == [] then rest else rest + [EntryOf(last)]
  }

  /** Every badge whose label is not blank gives an entry. */
  lemma {:induction false} PositionsKeepLabelled(badges: seq<PositionBadge>, k: nat)
    requires k < |badges| && Trim(badges[k].caption) != []
    ensures EntryOf(badges[k]) in PositionsOf(badges)
  {
    var init := badges[..|badges| - 1];
    if k < |badges| - 1 {
      assert init[k] == badges[k];
      PositionsKeepLabelled(init, k);
    }
  }

  /** Every entry comes from a badge whose label is not blank. */
  lemma {:induction false} PositionsFromLabelled(badges: seq<PositionBadge>, e: PositionRating)
    requires e in PositionsOf(badges)
    ensures exists k :: 0 <= k < |badges| && Trim(badges[k].caption) != [] && e == EntryOf(badges[k])
  {
    var init := badges[..|badges| - 1];
    var last := badges[|badges| - 1];
    if e in PositionsOf(init) {
      PositionsFromLabelled(init, e);
      var k :| 0 <= k < |init| && Trim(init[k].caption) != [] && e == EntryOf(init[k]);
      assert badges[k] == init[k];
    } else {
      assert Trim(last.caption) != [] && e == EntryOf(last);
    }
  }

  /** The position loop of `extractPlayerList`. */
  method ExtractPositions(badges: seq<PositionBadge>) returns (positions: seq<PositionRating>)
    ensures positions == PositionsOf(badges)
  {
    positions := [];
    var i := 0;
    while i < |badges|
      invariant i <= |badges|
      invariant positions == PositionsOf(badges[..i])
    {
      var position := Trim(badges[i].caption);
      var rating := Trim(badges[i].loose);
      assert badges[..i + 1][..i] == badges[..i];
      if position != [] {
        positions := positions + [PositionRating(position, Trim(RemoveWhitespace(rating)))];
      }
      i := i + 1;
    }
    assert badges[..i] == badges;
  }

  // ---------------------------------------------------------------------
  // Player records
  // ---------------------------------------------------------------------

  /** What the selectors found inside one card's player link. */
  datatype CardLink = CardLink(
    href: string,
    nameText: string,
    avatarSrc: Option<string>,
    badgeClass: Option<string>,
    positions: seq<PositionBadge>,
    overallText: string,
    starCount: nat)

  /** The record kept for a player on the list page. */
  datatype PlayerSummary = PlayerSummary(
    playerId: string,
    name: string,
    playerUrl: string,
    avatarUrl: Option<string>,
    season: SeasonField,
    positions: seq<PositionRating>,
    overallRating: Option<string>,
    starRating: nat)

  /** `avatarUrl ? absolutised : null`: an absent or empty source gives `null`. */
  function AvatarUrlOf(src: Option<string>): (url: Option<string>)
    ensures url.None? <==> src == None || src == Some([])
    ensures url.Some? ==> StartsWith(url.value, "http")
  {
    match src
    case None => None
    case Some(s) => if s == [] then None else Some(Absolutise(s))
  }

  /** `overallRating || null` on the trimmed hexagon text. */
  function OverallOf(text: string): (r: Option<string>)
    ensures r.None? <==> AllWhitespace(text)
    ensures r.Some? ==> r.value == Trim(text)
  {
    TrimEmptyIffBlank(text);
    if Trim(text) == [] then None else Some(Trim(text))
  }

  /** A link that gives a record: the trimmed name and the id are both non-empty. */
  predicate Accepted(link: CardLink) {
    Trim(link.nameText) != [] && PlayerIdOf(link.href) != []
  }

  /** The record a card's link makes. */
  function SummaryOf(link: CardLink): PlayerSummary {
    PlayerSummary(
      PlayerIdOf(link.href),
      Trim(link.nameText),
      Absolutise(link.href),
      AvatarUrlOf(link.avatarSrc),
      SeasonOf(link.badgeClass),
      PositionsOf(link.positions),
      OverallOf(link.overallText),
      link.starCount)
  }

  /**
   * The records `extractPlayerList` returns, in card order: a card without a
   * player link (`None`) or whose link is not accepted gives none.
   */
  function PlayerListOf(cards: seq<Option<CardLink>>): (r: seq<PlayerSummary>)
    ensures |r| <= |cards|
    ensures forall k :: 0 <= k < |r| ==>
      r[k].playerId != [] && r[k].name != [] && StartsWith(r[k].playerUrl, "http")
  {
    if cards == [] then []
    else
      var rest := PlayerListOf(cards[..|cards| - 1]);
      match cards[|cards| - 1]
      case None => rest
      case Some(link) => if Accepted(link) then rest + [SummaryOf(link)] else rest
  }

  /** Every accepted card gives its record. */
  lemma {:induction false} PlayerListKeepsAccepted(cards: seq<Option<CardLink>>, k: nat)
    requires k < |cards| && cards[k].Some? && Accepted(cards[k].value)
    ensures SummaryOf(cards[k].value) in PlayerListOf(cards)
  {
    var init := cards[..|cards| - 1];
    if k < |cards| - 1 {
      assert init[k] == cards[k];
      PlayerListKeepsAccepted(init, k);
    }
  }

  /** Every record comes from an accepted card. */
  lemma {:induction false} PlayerListFromAccepted(cards: seq<Option<CardLink>>, p: PlayerSummary)
    requires p in PlayerListOf(cards)
    ensures exists k :: 0 <= k < |cards| && cards[k].Some? && Accepted(cards[k].value)
                        && p == SummaryOf(cards[k].value)
  {
    var init := cards[..|cards| - 1];
    if p in PlayerListOf(init) {
      PlayerListFromAccepted(init, p);
      var k :| 0 <= k < |init| && init[k].Some? && Accepted(init[k].value) && p == SummaryOf(init[k].value);
      assert cards[k] == init[k];
    }
  }

  /** `extractPlayerList` over the cards its selector found. */
  method ExtractPlayerList(cards: seq<Option<CardLink>>) returns (players: seq<PlayerSummary>)
    ensures players == PlayerListOf(cards)
  {
    players := [];
    var i := 0;
    while i < |cards|
      invariant i <= |cards|
      invariant players == PlayerListOf(cards[..i])
    {
      assert cards[..i + 1][..i] == cards[..i];
      if cards[i].Some? {
        var link := cards[i].value;
        var playerId := PlayerIdOf(link.href);
        var name := Trim(link.nameText);
        var positions := ExtractPositions(link.positions);
        if name != [] && playerId != [] {
          players := players + [PlayerSummary(
            playerId, name, Absolutise(link.href), AvatarUrlOf(link.avatarSrc),
            SeasonOf(link.badgeClass), positions, OverallOf(link.overallText), link.starCount)];
        }
      }
      i := i + 1;
    }
    assert cards[..i] == cards;
  }

  /**
   * `scrapePlayerList`: the list address it fetches, and the records of the
   * page fetched from it. A fetch or parse that throws (`None`) gives no
   * records.
   */
  method ScrapePlayerList(position: string, seasons: seq<string>, page: Option<seq<Option<CardLink>>>)
    returns (url: ListUrl, players: seq<PlayerSummary>)
    ensures url == ListUrl(ListPath, ListParams(position, seasons))
    ensures page.None? ==> players == []
    ensures page.Some? ==> players == PlayerListOf(page.value)
  {
    url := BuildPlayerListUrl(position, seasons);
    match page
    case None => players := [];
    case Some(cards) => players := ExtractPlayerList(cards);
  }
}
