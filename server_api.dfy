/**
 * The request handlers of the HTTP API, down to the values they build before
 * the database is called: the position-coefficient lookup, the search query,
 * its sort and its pagination, and the query for players similar to a given
 * one. Query parameters arrive as optional strings (absent, or the raw text).
 */
module ServerApi {
  import opened JsText
  import opened Coefficients

  /** JavaScript truthiness of an optional query parameter. */
  predicate Truthy(p: Option<string>) {
    p.Some? && p.value != ""
  }

  // ---------------------------------------------------------------------
  // GET /api/position-coefficients/:position
  // ---------------------------------------------------------------------

  datatype CoefficientResponse =
    | Found(position: string, groupKey: string, coefficients: CoefficientSet)
    | NotFound(position: string)

  /**
   * The handler's resolver: a direct key wins; otherwise the catalog keys
   * are scanned in order and the first one containing `/` whose parts
   * include the position is taken; when neither matches the answer is 404.
   * Any stored set is an object, hence truthy, so a present key always
   * counts as found.
   */
  method ResolvePositionCoefficients(catalog: Catalog, position: string) returns (r: CoefficientResponse)
    ensures r.position == position
    ensures r.NotFound? <==> ResolveGroupKey(Keys(catalog), position).None?
    ensures r.Found? ==> ResolveGroupKey(Keys(catalog), position) == Some(r.groupKey)
                         && Lookup(catalog, r.groupKey) == Some(r.coefficients)
  {
    var direct := Lookup(catalog, position);
    if direct.Some? {
      return Found(position, position, direct.value);
    }
    var keys := Keys(catalog);
    var found := FirstGroup(keys, position);
    if found.None? {
      return NotFound(position);
    }
    var groupKey := keys[found.value];
    var coefficients := Lookup(catalog, groupKey);
    return Found(position, groupKey, coefficients.value);
  }

  /** The scan over the keys: the index of the first group that contains the position. */
  method FirstGroup(keys: seq<string>, position: string) returns (r: Option<nat>)
    ensures r == FirstGroupFrom(keys, position, 0)
  {
    var i := 0;
    while i < |keys|
      invariant 0 <= i <= |keys|
      invariant FirstGroupFrom(keys, position, i) == FirstGroupFrom(keys, position, 0)
    {
      if Contains(keys[i], "/") && position in Split(keys[i], "/") {
        return Some(i);
      }
      i := i + 1;
    }
    return None;
  }

  // ---------------------------------------------------------------------
  // GET /api/players/search: the filter
  // ---------------------------------------------------------------------

  datatype SearchParams = SearchParams(
    name: Option<string>,
    position: Option<string>,
    season: Option<string>,
    seasons: Option<string>,
    minOverall: Option<string>,
    maxOverall: Option<string>,
    page: Option<string>,
    limit: Option<string>,
    sortBy: Option<string>,
    sortOrder: Option<string>)

  /** The `season` condition: none, one season, or `$in` a list. */
  datatype SeasonFilter = AnySeason | SeasonIs(season: string) | SeasonIn(seasons: seq<string>)

  /** The `overallDisplay` condition: `$gte` and `$lte` bounds, each optional. */
  datatype OverallRange = OverallRange(gte: Option<Num>, lte: Option<Num>)

  /** The MongoDB filter; `nameRegex` is matched case-insensitively. */
  datatype SearchQuery = SearchQuery(
    nameRegex: Option<string>,
    position: Option<string>,
    season: SeasonFilter,
    overall: Option<OverallRange>)

  /** The trimmed parts that are not empty, in their order. */
  function NonBlankTrimmed(parts: seq<string>): (r: seq<string>)
    ensures |r| <= |parts|
  {
    if parts == [] then []
    else
      var t := Trim(parts[0]);
      if t != "" then [t] + NonBlankTrimmed(parts[1..]) else NonBlankTrimmed(parts[1..])
  }

  /** Every listed part is non-empty and already trimmed. */
  lemma {:induction false} NonBlankTrimmedClean(parts: seq<string>)
    ensures forall x :: x in NonBlankTrimmed(parts) ==> x != "" && Trim(x) == x
  {
    if parts != [] {
      NonBlankTrimmedClean(parts[1..]);
      var t := Trim(parts[0]);
      if t != "" {
        TrimOfTrimmed(t);
      }
    }
  }

  /** Every part that is not blank is listed, trimmed. */
  lemma {:induction false} NonBlankTrimmedComplete(parts: seq<string>, i: nat)
    requires i < |parts| && Trim(parts[i]) != ""
    ensures Trim(parts[i]) in NonBlankTrimmed(parts)
  {
    var rest := NonBlankTrimmed(parts[1..]);
    if i > 0 {
      assert parts[1..][i - 1] == parts[i];
      NonBlankTrimmedComplete(parts[1..], i - 1);
      assert Trim(parts[i]) in rest;
    }
    assert NonBlankTrimmed(parts) == if Trim(parts[0]) != "" then [Trim(parts[0])] + rest else rest;
  }

  /** Every listed string is the trim of some part. */
  lemma {:induction false} NonBlankTrimmedSound(parts: seq<string>, x: string)
    requires x in NonBlankTrimmed(parts)
    ensures exists i :: 0 <= i < |parts| && x == Trim(parts[i])
  {
    if x != Trim(parts[0]) {
      NonBlankTrimmedSound(parts[1..], x);
      var j :| 0 <= j < |parts| - 1 && x == Trim(parts[1..][j]);
      assert parts[j + 1] == parts[1..][j];
    }
  }

  /** `seasons.split(',').map(s => s.trim()).filter(s => s)`. */
  function SeasonList(seasons: string): seq<string> {
    NonBlankTrimmed(Split(seasons, ","))
  }

  /**
   * The query built one condition at a time: a name regex and a position
   * when given; the `seasons` list when that parameter is given (and no
   * season condition at all when the list comes out empty), else the single
   * `season`; and an `overallDisplay` range as soon as either bound is given,
   * each bound parsed with `parseInt`.
   */
  method BuildSearchQuery(params: SearchParams) returns (q: SearchQuery)
    ensures q.nameRegex.Some? <==> Truthy(params.name)
    ensures q.nameRegex.Some? ==> q.nameRegex == params.name
    ensures q.position.Some? <==> Truthy(params.position)
    ensures q.position.Some? ==> q.position == params.position
    ensures Truthy(params.seasons) ==>
              q.season == (if SeasonList(params.seasons.value) == [] then AnySeason
                           else SeasonIn(SeasonList(params.seasons.value)))
    ensures !Truthy(params.seasons) && Truthy(params.season) ==> q.season == SeasonIs(params.season.value)
    ensures !Truthy(params.seasons) && !Truthy(params.season) ==> q.season == AnySeason
    ensures q.overall.Some? <==> Truthy(params.minOverall) || Truthy(params.maxOverall)
    ensures q.overall.Some? ==>
              (q.overall.value.gte.Some? <==> Truthy(params.minOverall))
              && (q.overall.value.lte.Some? <==> Truthy(params.maxOverall))
    ensures q.overall.Some? && Truthy(params.minOverall) ==>
              q.overall.value.gte == Some(ParseInt(params.minOverall.value))
    ensures q.overall.Some? && Truthy(params.maxOverall) ==>
              q.overall.value.lte == Some(ParseInt(params.maxOverall.value))
  {
    q := SearchQuery(None, None, AnySeason, None);
    if Truthy(params.name) {
      q := q.(nameRegex := params.name);
    }
    if Truthy(params.position) {
      q := q.(position := params.position);
    }
    if Truthy(params.seasons) {
      var seasonArray := SeasonList(params.seasons.value);
      if |seasonArray| > 0 {
        q := q.(season := SeasonIn(seasonArray));
      }
    } else if Truthy(params.season) {
      q := q.(season := SeasonIs(params.season.value));
    }
    if Truthy(params.minOverall) || Truthy(params.maxOverall) {
      var range := OverallRange(None, None);
      if Truthy(params.minOverall) {
        range := range.(gte := Some(ParseInt(params.minOverall.value)));
      }
      if Truthy(params.maxOverall) {
        range := range.(lte := Some(ParseInt(params.maxOverall.value)));
      }
      q := q.(overall := Some(range));
    }
  }

  /**
   * A `seasons` parameter, when given, decides the season condition alone:
   * `season` is then never used, and every listed season is a non-blank,
   * trimmed part of the parameter.
   */
  lemma SeasonsTakePrecedence(params: SearchParams, q: SearchQuery, s: string)
    requires Truthy(params.seasons)
    requires q.season == (if SeasonList(params.seasons.value) == [] then AnySeason
                          else SeasonIn(SeasonList(params.seasons.value)))
    ensures !q.season.SeasonIs?
    ensures q.season.SeasonIn? && s in q.season.seasons ==>
              s != "" && Trim(s) == s && exists part :: part in Split(params.seasons.value, ",") && Trim(part) == s
  {
    var parts := Split(params.seasons.value, ",");
    NonBlankTrimmedClean(parts);
    if q.season.SeasonIn? && s in q.season.seasons {
      NonBlankTrimmedSound(parts, s);
    }
  }

  // ---------------------------------------------------------------------
  // GET /api/players/search: the sort and the pagination
  // ---------------------------------------------------------------------

  /** A one-field sort document: `{ field: direction }`. */
  datatype SortSpec = SortSpec(field: string, direction: int)

  /**
   * `sortBy` defaults to "overall" and `sortOrder` to "desc"; "overall" sorts
   * on `overallDisplay`, "name" on `name`, anything else on the field of that
   * name; the direction is ascending only for "asc".
   */
  method BuildSort(params: SearchParams) returns (sort: SortSpec)
    ensures var sortBy := if params.sortBy.Some? then params.sortBy.value else "overall";
            (sort.field == "overallDisplay" <==> sortBy == "overall" || sortBy == "overallDisplay")
            && (sortBy != "overall" ==> sort.field == sortBy)
    ensures sort.field != "overall"
    ensures sort.direction == 1 || sort.direction == -1
    ensures sort.direction == 1 <==> params.sortOrder == Some("asc")
  {
    var sortBy := if params.sortBy.Some? then params.sortBy.value else "overall";
    var sortOrder := if params.sortOrder.Some? then params.sortOrder.value else "desc";
    var direction := if sortOrder == "asc" then 1 else -1;
    if sortBy == "overall" {
      sort := SortSpec("overallDisplay", direction);
    } else if sortBy == "name" {
      sort := SortSpec("name", direction);
    } else {
      sort := SortSpec(sortBy, direction);
    }
  }

  /** `parseInt(page)` with `page` defaulting to the number 1. */
  function PageNumber(params: SearchParams): Num {
    if params.page.Some? then ParseInt(params.page.value) else Int(1)
  }

  /** `parseInt(limit)` with `limit` defaulting to the number 20. */
  function PageLimit(params: SearchParams): Num {
    if params.limit.Some? then ParseInt(params.limit.value) else Int(20)
  }

  /** `(page - 1) * limit`; NaN in either operand makes the product NaN. */
  function Skip(page: Num, limit: Num): (r: Num)
    ensures r.Int? <==> page.Int? && limit.Int?
    ensures page.Int? && limit.Int? && page.value >= 1 && limit.value >= 0 ==> r.value >= 0
  {
    match (page, limit)
    case (Int(p), Int(l)) =>
      if p >= 1 && l >= 0 then MulMonotone(l, 0, p - 1); Int((p - 1) * l) else Int((p - 1) * l)
    case _ => NaN
  }

  /** Consecutive pages start exactly `limit` results apart. */
  lemma SkipNextPage(p: int, l: int)
    ensures Skip(Int(p + 1), Int(l)) == Int(Skip(Int(p), Int(l)).value + l)
  {
  }

  /**
   * `Math.ceil(total / limit)` as JSON sends it: a limit of 0 divides to
   * Infinity or NaN and a NaN limit to NaN, which are all sent as null.
   */
  function PageCount(total: nat, limit: Num): (r: Option<int>)
    ensures r.None? <==> limit.NaN? || limit.value == 0
    ensures limit.Int? && limit.value > 0 ==>
              limit.value * (r.value - 1) < total <= limit.value * r.value
    ensures limit.Int? && limit.value < 0 ==> r.value <= 0
  {
    match limit
    case NaN => None
    case Int(l) =>
      if l == 0 then None
      else if l > 0 then
        var q := (total + l - 1) / l;
        assert l * q <= total + l - 1 < l * q + l;
        assert l * (q - 1) == l * q - l;
        Some(q)
      else Some(-(total / -l))
  }

  /**
   * With a positive limit, page `p` lies within the page count exactly when
   * it starts before the last result: the count covers every result and no
   * empty page.
   */
  lemma PageWithinCount(total: nat, p: int, l: int)
    requires l > 0 && p >= 1
    ensures p <= PageCount(total, Int(l)).value <==> Skip(Int(p), Int(l)).value < total
  {
    var pages := PageCount(total, Int(l)).value;
    if p <= pages {
      MulMonotone(l, p - 1, pages - 1);
    } else {
      MulMonotone(l, pages, p - 1);
    }
  }

  datatype Pagination = Pagination(page: Num, limit: Num, total: nat, pages: Option<int>)

  /** The `pagination` block of the response, for `total` matching players. */
  function BuildPagination(params: SearchParams, total: nat): (r: Pagination)
    ensures r.page == PageNumber(params) && r.limit == PageLimit(params) && r.total == total
    ensures params.page.None? ==> r.page == Int(1)
    ensures params.limit.None? ==> r.pages == Some((total + 19) / 20) && 20 * (r.pages.value - 1) < total <= 20 * r.pages.value
  {
    Pagination(PageNumber(params), PageLimit(params), total, PageCount(total, PageLimit(params)))
  }

  // ---------------------------------------------------------------------
  // GET /api/players/:id/compare: the player lookup and the similar query
  // ---------------------------------------------------------------------

  /** A stored player document, as a map from field name to value; a missing field reads as null. */
  type Document = map<string, JsValue>

  function FieldOf(doc: Document, field: string): JsValue {
    if field in doc then doc[field] else JsNull
  }

  /** One condition of a MongoDB filter, with MongoDB's equality semantics for null. */
  datatype Condition =
    | Equals(field: string, value: JsValue)
    | NotEquals(field: string, value: JsValue)
    | Between(field: string, lo: int, hi: int)

  predicate Matches(doc: Document, c: Condition) {
    match c
    case Equals(f, v) => FieldOf(doc, f) == v
    case NotEquals(f, v) => FieldOf(doc, f) != v
    case Between(f, lo, hi) => FieldOf(doc, f).JsNumber? && lo <= FieldOf(doc, f).n <= hi
  }

  predicate MatchesAll(doc: Document, query: seq<Condition>) {
    forall i :: 0 <= i < |query| ==> Matches(doc, query[i])
  }

  /** `findOne`: the first document, in collection order, that matches. */
  function FindOne(docs: seq<Document>, query: seq<Condition>): (r: Option<Document>)
    ensures r.Some? <==> exists i :: 0 <= i < |docs| && MatchesAll(docs[i], query)
    ensures r.Some? ==> exists i :: 0 <= i < |docs| && docs[i] == r.value && MatchesAll(docs[i], query)
                          && forall j :: 0 <= j < i ==> !MatchesAll(docs[j], query)
  {
    if docs == [] then None
    else if MatchesAll(docs[0], query) then Some(docs[0])
    else
      var r := FindOne(docs[1..], query);
      assert forall i :: 0 <= i < |docs| - 1 ==> docs[1..][i] == docs[i + 1];
      r
  }

  /** The fields of a player as the scrapers store them. */
  datatype StoredPlayer = StoredPlayer(playerId: string, season: string, name: string, position: string, overallDisplay: Option<int>)

  /** The stored document: field names are those of the player schema. */
  function PlayerDocument(p: StoredPlayer): (doc: Document)
    ensures FieldOf(doc, "playerId") == JsString(p.playerId)
    ensures FieldOf(doc, "position") == JsString(p.position)
    ensures FieldOf(doc, "season") == JsString(p.season)
    ensures FieldOf(doc, "playerid") == JsNull
  {
    var doc := map["playerId" := JsString(p.playerId), "season" := JsString(p.season),
                   "name" := JsString(p.name), "position" := JsString(p.position)];
    if p.overallDisplay.Some? then doc["overallDisplay" := JsNumber(p.overallDisplay.value)] else doc
  }

  /** The field name the compare handler writes in its queries. */
  const IdFieldAsWritten: string := "playerid"

  /** The field name under which player ids are stored. */
  const IdField: string := "playerId"

  function LookupQuery(idField: string, id: string): seq<Condition> {
    [Equals(idField, JsString(id))]
  }

  lemma LookupQueryMatches(idField: string, id: string)
    ensures forall d :: MatchesAll(d, LookupQuery(idField, id)) <==> FieldOf(d, idField) == JsString(id)
  {
    forall d ensures MatchesAll(d, LookupQuery(idField, id)) <==> FieldOf(d, idField) == JsString(id) {
      assert LookupQuery(idField, id)[0] == Equals(idField, JsString(id));
    }
  }

  /** `player.overallDisplay || 0`. */
  function OverallOf(player: Document): int {
    match FieldOf(player, "overallDisplay")
    case JsNumber(n) => n
    case _ => 0
  }

  /** `position || player.position`. */
  function SimilarPosition(position: Option<string>, player: Document): JsValue {
    if Truthy(position) then JsString(position.value) else FieldOf(player, "position")
  }

  /**
   * The filter for similar players: the requested (or the player's own)
   * position, a different id, the requested season when given, and an
   * `overallDisplay` within 5 of the player's.
   */
  function SimilarQuery(idField: string, id: string, position: Option<string>, season: Option<string>,
                        player: Document): seq<Condition>
  {
    var overall := OverallOf(player);
    [Equals("position", SimilarPosition(position, player)), NotEquals(idField, JsString(id))]
    + (if Truthy(season) then [Equals("season", JsString(season.value))] else [])
    + [Between("overallDisplay", overall - 5, overall + 5)]
  }

  /** What a document must satisfy to be listed as similar. */
  lemma {:induction false} SimilarQueryMatches(doc: Document, idField: string, id: string,
                                               position: Option<string>, season: Option<string>, player: Document)
    ensures MatchesAll(doc, SimilarQuery(idField, id, position, season, player)) <==>
              FieldOf(doc, "position") == SimilarPosition(position, player)
              && FieldOf(doc, idField) != JsString(id)
              && (Truthy(season) ==> FieldOf(doc, "season") == JsString(season.value))
              && FieldOf(doc, "overallDisplay").JsNumber?
              && OverallOf(player) - 5 <= FieldOf(doc, "overallDisplay").n <= OverallOf(player) + 5
  {
    var q := SimilarQuery(idField, id, position, season, player);
    assert Matches(doc, q[0]) && Matches(doc, q[1]) && Matches(doc, q[|q| - 1]) ==>
             (Truthy(season) ==> Matches(doc, q[2])) ==> MatchesAll(doc, q);
  }

  datatype CompareResponse =
    | PlayerNotFound
    | CompareWith(player: Document, similarQuery: seq<Condition>)

  /**
   * The compare handler with the lookup and the exclusion on the stored id
   * field: 404 unless a stored document has that id; otherwise the first such
   * document and the filter for its similar players.
   */
  function ComparePlayers(docs: seq<Document>, id: string, position: Option<string>, season: Option<string>)
    : (r: CompareResponse)
    ensures r.PlayerNotFound? <==> forall i :: 0 <= i < |docs| ==> FieldOf(docs[i], IdField) != JsString(id)
    ensures r.CompareWith? ==> FieldOf(r.player, IdField) == JsString(id)
    ensures r.CompareWith? ==> r.similarQuery == SimilarQuery(IdField, id, position, season, r.player)
  {
    LookupQueryMatches(IdField, id);
    match FindOne(docs, LookupQuery(IdField, id))
    case None => PlayerNotFound
    case Some(player) => CompareWith(player, SimilarQuery(IdField, id, position, season, player))
  }

  /** The similar players of a player never include that player. */
  lemma SimilarExcludesSelf(docs: seq<Document>, id: string, position: Option<string>, season: Option<string>)
    requires ComparePlayers(docs, id, position, season).CompareWith?
    ensures var r := ComparePlayers(docs, id, position, season);
            !MatchesAll(r.player, r.similarQuery)
  {
    var r := ComparePlayers(docs, id, position, season);
    assert !Matches(r.player, r.similarQuery[1]);
  }

  /**
   * As written, the handler looks players up under `playerid`, a field no
   * stored document has: every lookup answers 404, whatever the collection.
   */
  lemma LookupAsWrittenNeverFinds(players: seq<StoredPlayer>, id: string)
    ensures FindOne(seq(|players|, i requires 0 <= i < |players| => PlayerDocument(players[i])),
                    LookupQuery(IdFieldAsWritten, id)) == None
  {
    var docs := seq(|players|, i requires 0 <= i < |players| => PlayerDocument(players[i]));
    forall i | 0 <= i < |docs| ensures !MatchesAll(docs[i], LookupQuery(IdFieldAsWritten, id)) {
      assert !Matches(docs[i], LookupQuery(IdFieldAsWritten, id)[0]);
    }
  }

  /**
   * As written, the `$ne` condition on `playerid` excludes nobody: a player
   * whose own position, season and rating fit the filter is listed as similar
   * to itself.
   */
  lemma SimilarAsWrittenKeepsSelf(p: StoredPlayer)
    requires p.overallDisplay.Some?
    ensures var doc := PlayerDocument(p);
            MatchesAll(doc, SimilarQuery(IdFieldAsWritten, p.playerId, None, Some(p.season), doc))
  {
    var doc := PlayerDocument(p);
    SimilarQueryMatches(doc, IdFieldAsWritten, p.playerId, None, Some(p.season), doc);
  }

  /** With the stored field name the lookup finds every stored player by id. */
  lemma LookupFindsStoredPlayer(players: seq<StoredPlayer>, k: nat, position: Option<string>, season: Option<string>)
    requires k < |players|
    ensures var docs := seq(|players|, i requires 0 <= i < |players| => PlayerDocument(players[i]));
            ComparePlayers(docs, players[k].playerId, position, season).CompareWith?
  {
    var docs := seq(|players|, i requires 0 <= i < |players| => PlayerDocument(players[i]));
    assert FieldOf(docs[k], IdField) == JsString(players[k].playerId);
  }
}
