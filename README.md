# FC Online player database — verified model of its rules

FC Online is an online football game; this repository crawls its player
cards from a fan site, stores them in MongoDB, serves them through an HTTP
API and shows them in a few browser pages. Most of it is plumbing, but
inside sit small, deterministic rule sets. This project restates them in
Dafny and proves what they promise.

- **Coefficients** — the position-coefficient catalog (an ordered list of
  group keys, each with its coefficient set). It holds the resolution rule
  shared by the server, the training calculator and the compare page: the
  exact key first, else the first `/`-grouped key listing the position. It
  also holds the filter to the stats a player has and the stable sort by
  descending coefficient.
- **TrainingCalculator** — the server's OVR engine:
  - the rating is the weighted average of the stats, rounded half up and
    clamped to [0, 99], and every coefficient counts in the denominator;
  - the ratings of all positions;
  - training simulation, capped at 99 per stat;
  - the key stats of a position;
  - the greedy 100-iteration training-plan search.
- **ComparePage** — the compare page's own, different OVR: only the stats
  a player has are weighed, the average is floored, level and team-colour
  buffs are added to every stat and an upgrade bonus table is added at the
  end. It also models the page state: players, the selected group and each
  player's buffs, as a class.
- **ServerApi** — the values the HTTP handlers build before the database
  is called:
  - the coefficient lookup and its 404;
  - the search filter, sort, skip and page count;
  - the player lookup and the similar-players filter, over an in-memory
    list of documents.
- **StatsMapping** — the 34-entry Vietnamese-label ↔ English-key table, its
  inverse and `transformStats`.
- **ProgressTracker** and **SeasonsProgress** — the crawl checkpoints. Each
  is a class whose state stands for the JSON file(s) on disk: saving with
  its overlay, clearing, marking done without duplicates, the remaining
  items and the crawl statistics.
- **SearchPage** — the search page:
  - its state (page, chosen seasons, last filters) as a class;
  - season chips and filter cleanup;
  - the "showing start–end" range;
  - the 7-page pagination bar with its ellipses and Previous/Next buttons.
- **PlayerDetail** — the detail page: rating split, stat order, the
  coefficient-sorted position tab, the 4- and 2-wide tables, value colours
  and `formatStatKey`.
- **ClubSearch** — the club search page: the blank-name guard, the career
  entry shown and the salary step table.
- **BrowserUtils** — `Utils.getUrlParams`, `Utils.updateUrl` and
  `Utils.formatNumber`.
- **PlayerDetailScraper** and **PlayerListScraper** — the per-row decisions
  the scrapers make on text their HTML selectors found:
  - stat values, traits and the club-career line pattern;
  - the name fallback;
  - the list URL, absolute links, the player id, the badge season, position
    ratings and which cards become records.
- **JsText** and **PlayerStats** — the JavaScript built-ins the rest relies
  on (`trim`, `split`, `indexOf`, `toLowerCase`, `parseInt` with NaN, decimal
  rendering) and the shared stat record.

Code that updates state in place is modelled as classes and methods with
loops, each proved against a specification function. Pure lookups and
expressions are modelled as functions with lemmas.

## Model

| member | source | states |
|---|---|---|
| BrowserUtils.ParamsObject | public/js/api.js:87-94 | the object built from the query has exactly the names that occur in the query as keys |
| BrowserUtils.LastValueWins | public/js/api.js:90-92 | when a name repeats, the object holds the value of its last pair |
| BrowserUtils.GetUrlParams | public/js/api.js:87-94 | the loop over the pairs returns ParamsObject of the query |
| BrowserUtils.DeleteParam | public/js/api.js:105 | `searchParams.delete` never lengthens the query |
| BrowserUtils.DeleteParamValues | public/js/api.js:105 | after a delete the name has no value, and every other name keeps its values |
| BrowserUtils.DeleteParamIdempotent | public/js/api.js:105 | deleting a name twice is the same as deleting it once |
| BrowserUtils.SetParamEffect | public/js/api.js:103 | after `searchParams.set` the name has exactly the one value, and apart from that name the query is unchanged, order included |
| BrowserUtils.SetParamOthers | public/js/api.js:103 | a set leaves every other name's values as they were |
| BrowserUtils.ApplyOthers | public/js/api.js:101-107 | handling one filter key leaves the values of every other name as they were |
| BrowserUtils.UpdatedKey | public/js/api.js:99-109 | after `updateUrl`, each filter key has exactly its value when the value is truthy, and no value when it is falsy |
| BrowserUtils.UntouchedKey | public/js/api.js:99-109 | a name that is not a filter key keeps its values |
| BrowserUtils.UpdateUrl | public/js/api.js:99-109 | the pushed query is the current query with each filter key set or deleted in key order |
| BrowserUtils.Groups | public/js/api.js:115 | the digits split into a leading group of one to three digits, then groups of exactly three |
| BrowserUtils.GroupsConcat | public/js/api.js:115 | the groups read in order give back the digits |
| BrowserUtils.GroupsOfDigits | public/js/api.js:115 | every group consists of digits |
| BrowserUtils.FormatNumber | public/js/api.js:114-116 | a missing or zero number gives "0"; the text is never empty; a negative number starts with '-' |
| BrowserUtils.FormatNumberGroups | public/js/api.js:115 | for a positive number, splitting the text on commas gives the digit groups of its decimal form, and removing the commas gives the decimal form itself |
| BrowserUtils.FormatNumberNegative | public/js/api.js:115 | a negative number is written as '-' followed by its absolute value written the same way |
| BrowserUtils.FormatNumberExamples | public/js/api.js:115 | illustration: 999 is written "999" and 1234 is written "1,234" |
| ClubSearch.PerformSearch | public/js/club-search.js:31-37 | a club name that is blank after trimming gives the error message and no fetch; otherwise the trimmed, non-empty name is searched for |
| ClubSearch.FirstMatch | public/js/club-search.js:91-93 | finds the first entry whose club holds the searched text, ignoring ASCII case; no earlier entry matches; none only when no entry matches |
| ClubSearch.CareerShown | public/js/club-search.js:91-93 | the card shows no career entry exactly when the player has no career or no entry matches; otherwise it shows the first matching entry of the career |
| ClubSearch.ExactClubFound | public/js/club-search.js:91-93 | searching for a club's exact name, in any ASCII case, finds an entry |
| ClubSearch.SalaryAmount | public/js/club-search.js:145-169 | 220 BP from overall 31 up; 15 BP below 11 or when the rating is not a number; always between 15 and 220 |
| ClubSearch.SalaryBands | public/js/club-search.js:148-167 | each overall from 11 to 30 earns exactly its listed amount |
| ClubSearch.SalaryStep | public/js/club-search.js:146-168 | one more point of overall never lowers the salary |
| ClubSearch.SalaryMonotone | public/js/club-search.js:146-168 | the salary never falls as the overall rises, and a rating that is not a number earns the least |
| ClubSearch.GetSalary | public/js/club-search.js:145-169 | the quote always ends in "BP" after at least one character |
| ClubSearch.GetSalaryReadsBack | public/js/club-search.js:145-169 | the text before "BP" reads back as the salary of the rating's step |
| ClubSearch.OverallShown | public/js/club-search.js:123 | the card shows the display overall unless it is missing or zero, and then the stored overall |
| ClubSearch.DisplayResults | public/js/club-search.js:59-81 | no players, or an empty list, shows the empty state for the club; otherwise the count equals the number of players and there is one card per player, in order |
| ClubSearch.CardOf | public/js/club-search.js:86-140 | the card carries the player's id; its career entry is missing exactly when no entry names the searched club, and is otherwise a matching entry of the player's career; the overall is the display overall unless it is missing or zero; the salary ends in "BP" and the text before it reads back as the rating's salary step |
| ClubSearch.CreateCards | public/js/club-search.js:76-79 | one card per player, the i-th card made from the i-th player |
| Coefficients.Keys | src/utils/trainingCalculator.js:23 | `Object.keys` lists the catalog's keys in catalog order |
| Coefficients.Lookup | src/utils/trainingCalculator.js:52 | a set is found exactly for a key of the catalog, and it is the set stored under that key |
| Coefficients.FirstGroupFrom | src/utils/trainingCalculator.js:23-30 | finds the first grouped key, from a given index on, whose parts include the position; none only when no later key does |
| Coefficients.ResolveGroupKey | src/utils/trainingCalculator.js:16-33 | an exact key resolves to itself; otherwise the result is the first grouped key whose `/`-separated parts include the position, and there is no result exactly when no key includes it; any result is a key of the catalog |
| Coefficients.UngroupedKeyResolvesToItself | src/utils/trainingCalculator.js:16-33 | a key without `/` is only ever the result for the position equal to it |
| Coefficients.PresentEntries | public/js/player-detail.js:266-275 | the kept entries are exactly those whose key has a stat, in the set's order, and never more than the set |
| Coefficients.InsertByCoefficient | public/js/player-detail.js:277 | inserting one entry adds exactly that entry to the multiset |
| Coefficients.InsertKeepsSorted | public/js/player-detail.js:277 | inserting into a sequence sorted by descending coefficient keeps it sorted |
| Coefficients.SortByCoefficientDesc | public/js/player-detail.js:277 | the result is a permutation of the input, sorted by non-increasing coefficient |
| Coefficients.SortIsStable | public/js/player-detail.js:277 | among the entries with any one coefficient value, the sorted sequence keeps the input order |
| Coefficients.Slice | src/utils/trainingCalculator.js:175 | `slice(0, n)` is a prefix of length min(n, length) for non-negative n, and drops -n elements from the end for negative n |
| ComparePage.FindPositionGroup | public/js/compare.js:108-122 | the answer is always one of the selector's groups; a listed group is its own answer; there is none exactly when the position is neither a group nor a `/`-separated part of one |
| ComparePage.FindPositionGroupDirect | public/js/compare.js:108-111 | illustration: a position that is itself one of the selector's groups ("CB") resolves to that group |
| ComparePage.UpgradeBonus | public/js/compare.js:20-23 | the upgrade bonus lies between 0 and 27; it is 0 for a missing or zero level and for a level outside 1..13 |
| ComparePage.UpgradeBonusMonotone | public/js/compare.js:20-23 | between levels 1 and 13 a higher level never gives less, and each single step adds 1 to 3 |
| ComparePage.StatsArraySound | public/js/compare.js:182-193 | every row of the stats array comes from an entry of the coefficient set whose stat the player has, with the stat's parsed value (0 when it does not parse) |
| ComparePage.StatsArrayComplete | public/js/compare.js:182-193 | every entry of the set whose stat the player has gets a row |
| ComparePage.StatsArraySorted | public/js/compare.js:194 | the rows are in non-increasing coefficient order |
| ComparePage.WeightedShift | public/js/compare.js:349-351 | raising every stat by the buff raises the weighted sum by buff times the coefficient sum |
| ComparePage.OvrForProperties | public/js/compare.js:332-372 | with no coefficients the base and buffed OVR are 0 and the final OVR and total buff are the upgrade bonus; otherwise the base OVR is the floored weighted average, the buffed OVR is base plus level plus team colour, the final OVR adds the upgrade bonus, and the total buff is buff plus bonus |
| ComparePage.OvrArithmetic | public/js/compare.js:357-364 | the floors of the three averages differ exactly by the buff and the bonus |
| ComparePage.CalculateOVR | public/js/compare.js:332-372 | the loop's accumulated sums give exactly the OVR data characterised by OvrForProperties |
| ComparePage.MissingStatIgnored | public/js/compare.js:185 | a coefficient entry whose stat the player lacks changes nothing on the card: it drops out together with its coefficient |
| ComparePage.SingleStatExample | public/js/compare.js:332-372 | illustration: with only speed = 130 present (coefficient 2), every OVR is 130 and the total buff is 0 |
| ComparePage.StatColorClass | public/js/compare.js:321-327 | grey below 120, purple from 120 to 129, orange from 130 to 139, yellow from 140 to 159, blue from 160, each band as an if-and-only-if |
| ComparePage.StatColorMonotone | public/js/compare.js:321-327 | a higher value is never shown in a lower band |
| ComparePage.ShownValuesWeighted | public/js/compare.js:296-351 | the listed values, weighted by the listed coefficients, sum to the buffed weighted sum the OVR is computed from |
| ComparePage.ShownValuesGiveCalculatedOVR | public/js/compare.js:296-362 | the card's buffed OVR is the listed weighted sum divided by the coefficient sum, floored |
| ComparePage.ShownBuffNote | public/js/compare.js:296-315 | one listed row per stat, each carrying the "(+buff)" note exactly when the buff is positive |
| ComparePage.WithInitialBuffsEffect | public/js/compare.js:75-81 | after init every saved player's id has the initial buffs (level 0, team colour 0, upgrade 1), and every other player's buffs are kept |
| ComparePage.DefaultPosition | public/js/compare.js:66-72 | the default selection is one of the groups: the first player's group when the position is set and resolves, otherwise "RW/LW" |
| ComparePage.FindPlayer | public/js/compare.js:381 | the found player is in the list with that id; none only when no player has it |
| ComparePage.CompareState.constructor | public/js/compare.js:26-29 | the page starts with no players, no selection, no catalog and no buffs |
| ComparePage.CompareState.Init | public/js/compare.js:41-92 | fewer than two saved players fails and changes nothing; otherwise the players and catalog are stored, the default group is selected and every player gets the initial buffs |
| ComparePage.CompareState.OnPositionChange | public/js/compare.js:127-130 | only the selection changes; the buffs are kept |
| ComparePage.CompareState.UpdateBuff | public/js/compare.js:378-425 | an unknown player id changes nothing; otherwise that one buff becomes `parseInt(value)`; the card is recomputed exactly when the player is in the list and the catalog is loaded, with the OVR and rows of the new buffs |
| ProgressTracker.Overlay | src/utils/progressTracker.js:62-66 | the saved record always has a season and a time; the record's own season and time win over the defaults; its positions and stats are kept as they are |
| ProgressTracker.OverlayOfSaved | src/utils/progressTracker.js:62-66 | saving a record that was saved before writes it unchanged, keeping its stored `lastUpdated` |
| ProgressTracker.ProgressStore.constructor | src/utils/progressTracker.js:9-10 | no season has a progress file at first |
| ProgressTracker.ProgressStore.SaveProgress | src/utils/progressTracker.js:57-73 | the season's file becomes the overlaid record and no other file changes |
| ProgressTracker.ProgressStore.ClearProgress | src/utils/progressTracker.js:79-90 | the season's file is removed, so loading it gives nothing; other files are kept |
| ProgressTracker.ProgressStore.MarkPositionCompleted | src/utils/progressTracker.js:114-127 | a loaded record without a positions list or a stats object throws and changes nothing; otherwise only that season's file changes: the position is appended when absent, its stats replace older ones, and it then counts as completed; the stored season and timestamp are kept (the season name and `now` fill them when absent) |
| ProgressTracker.ProgressStore.RemainingPositions | src/utils/progressTracker.js:135-143 | with no progress every position remains; otherwise a position remains exactly when it is listed and not completed |
| ProgressTracker.RemainingMembersAll | src/utils/progressTracker.js:135-143 | a position is remaining exactly when it is listed and not completed |
| ProgressTracker.MarkKeepsDistinct | src/utils/progressTracker.js:120-122 | marking keeps the completed list free of duplicates, and marking the same position twice leaves the list as after the first time |
| ProgressTracker.RemainingAfterMark | src/utils/progressTracker.js:120-142 | once a position is marked, the remaining list is the previous one without that position, in the same order |
| JsText.AppendAbsent | src/utils/progressTracker.js:120-122 | `if (!includes) push`: the element is then present, nothing else is added, and a duplicate-free list stays duplicate-free |
| JsText.Exclude | src/utils/progressTracker.js:142 | the filter keeps exactly the elements not excluded and never lengthens the list |
| JsText.ExcludeAppend | src/utils/progressTracker.js:142 | the filter keeps the input order: it distributes over concatenation |
| SeasonsProgress.Overlay | src/utils/seasonsProgress.js:51-54 | the saved record keeps the progress's completed list and start time, and its own `lastUpdated` when it has one, else the current time |
| SeasonsProgress.RemainingSeasons | src/utils/seasonsProgress.js:101-109 | with no file or no completed list every season remains; otherwise a season remains exactly when it is asked for and not completed |
| SeasonsProgress.CrawlStatsAsWritten | src/utils/seasonsProgress.js:116-136 | as written: total is the number of seasons asked for, no file gives all remaining, completed is the length of the stored list (or 0 without one), completedSeasons echoes that list, and completed plus remaining is the total |
| SeasonsProgress.CrawlStatsAsWrittenGoesNegative | src/utils/seasonsProgress.js:128-135 | with A and B asked for and A, C, D completed, `remaining` is -1 although B is still to crawl |
| SeasonsProgress.CrawlStatsFor | src/utils/seasonsProgress.js:116-136 | corrected: `remaining` is the length of the remaining list, between 0 and the total, and completed plus remaining is the total |
| SeasonsProgress.CrawlStatsAgree | src/utils/seasonsProgress.js:128-135 | when every completed season is one asked for and neither list repeats, the as-written and corrected statistics agree |
| SeasonsProgress.ExcludeCount | src/utils/seasonsProgress.js:108-133 | without duplicates, filtering out completed seasons that all occur removes exactly as many as are completed |
| SeasonsProgress.ExcludeSameMembers | src/utils/seasonsProgress.js:108 | the filter depends only on which seasons the completed list holds |
| SeasonsProgress.SeasonsProgressFile.constructor | src/utils/seasonsProgress.js:9-10 | there is no progress file at first |
| SeasonsProgress.SeasonsProgressFile.SaveSeasonsProgress | src/utils/seasonsProgress.js:46-60 | the file becomes the overlaid record |
| SeasonsProgress.SeasonsProgressFile.ClearSeasonsProgress | src/utils/seasonsProgress.js:65-76 | afterwards there is no file |
| SeasonsProgress.SeasonsProgressFile.GetRemainingSeasons | src/utils/seasonsProgress.js:101-110 | without a file or a list every season asked for remains; otherwise a season remains exactly when it was asked for and the file does not list it as completed |
| SeasonsProgress.SeasonsProgressFile.GetCrawlStats | src/utils/seasonsProgress.js:116-136 | corrected (see Findings): total is the number of seasons asked for, no file gives all remaining, remaining is the length of the remaining list, and 0 <= remaining <= total with completed plus remaining the total |
| SeasonsProgress.SeasonsProgressFile.MarkSeasonCompleted | src/utils/seasonsProgress.js:82-94 | a stored record without a list throws and changes nothing; otherwise the season is appended when absent to the stored or a fresh record stamped now, the start time is kept (or set to now for a fresh record), and a duplicate-free list stays duplicate-free |
| PlayerDetail.SplitRating | public/js/player-detail.js:99-106 | a rating that is not a non-empty string shows neither part; otherwise the main part is a prefix of the rating, and a rating without '\|' is the main part with an empty alternative |
| PlayerDetail.SplitRatingOfPair | public/js/player-detail.js:103-105 | a rating written "main\|alt", neither part holding '\|', splits back into exactly its two parts |
| PlayerDetail.BadgeOf | public/js/player-detail.js:91-106 | a badge keeps its position, is primary exactly when its position is the player's, and carries the split rating |
| PlayerDetail.Badges | public/js/player-detail.js:83-118 | a missing or empty position list shows no badges; otherwise one badge per position, in order |
| PlayerDetail.ShownValue | public/js/player-detail.js:334 | a missing, zero or empty value shows as 0; any other value shows as it is |
| PlayerDetail.ColorOf | public/js/player-detail.js:343-388 | green exactly for numbers from 80, orange exactly for numbers from 60 to 79, grey otherwise |
| PlayerDetail.ColorMonotone | public/js/player-detail.js:343-345 | as the value rises the colour never gets colder |
| PlayerDetail.CellOf | public/js/player-detail.js:333-393 | a cell shows the stat's own name when it has a non-empty one, else the readable key; the shown value; its colour; and the coefficient it was given |
| PlayerDetail.SpaceCapitals | public/js/player-detail.js:501 | inserting spaces never shortens the key |
| PlayerDetail.CapitaliseFirst | public/js/player-detail.js:502 | only the first character changes, to upper case unless it is a line terminator |
| PlayerDetail.SpaceCapitalsUnspaced | public/js/player-detail.js:501 | for a key without spaces, removing the inserted spaces gives the key back |
| PlayerDetail.SpaceCapitalsEnds | public/js/player-detail.js:501 | spacing keeps a first character that is not a capital, and always keeps the last character |
| PlayerDetail.FormatStatKeyOfCamel | public/js/player-detail.js:498-504 | a camel-case key reads with its first letter in upper case, and removing the spaces gives the key back with that first letter raised |
| PlayerDetail.InOrder | public/js/player-detail.js:233-238 | the listed stats are keys of the order that the player has, with their own stats and no coefficient, never more than the order |
| PlayerDetail.InOrderMembers | public/js/player-detail.js:233-238 | the general tab lists exactly the keys of the order that the player has |
| PlayerDetail.InOrderOrdered | public/js/player-detail.js:221-238 | with no repeated key in the order, the general tab lists its stats in that order |
| PlayerDetail.FirstRow | public/js/player-detail.js:330-359 | a row always has `width` cells |
| PlayerDetail.Table | public/js/player-detail.js:326-362 | every row of the table has exactly `width` cells |
| PlayerDetail.TableRowCount | public/js/player-detail.js:326 | the table has the ceiling of the count of stats over the width as its number of rows |
| PlayerDetail.TableSize | public/js/player-detail.js:326-362 | a table holds every stat and fewer than `width` empty cells more |
| PlayerDetail.TableCells | public/js/player-detail.js:326-412 | read row by row, the table shows every stat once, in order, followed by fewer than `width` empty cells |
| PlayerDetail.RenderRow | public/js/player-detail.js:330-359 | the inner loop builds the row of the stats from place i on, padded with empty cells |
| PlayerDetail.RenderTable | public/js/player-detail.js:325-413 | the outer loop builds exactly the table of the stats at the given width |
| PlayerDetail.CollectInOrder | public/js/player-detail.js:233-238 | the loop collects exactly the keys of the order that the player has, with their stats |
| PlayerDetail.DisplayAllStats | public/js/player-detail.js:204-241 | no stats object gives no table; otherwise the table, four to a row, of the ordered stats the player has |
| PlayerDetail.WithStats | public/js/player-detail.js:269-273 | one shown stat per entry, with the player's stat and the entry's coefficient |
| PlayerDetail.SortedPresentMembers | public/js/player-detail.js:266-277 | the sorted list holds exactly the group's entries that the player has a stat for |
| PlayerDetail.PositionStats | public/js/player-detail.js:266-277 | a position tab shows one stat per present entry, each with the player's stat and a coefficient |
| PlayerDetail.PositionStatsAt | public/js/player-detail.js:266-277 | each stat of a position tab comes from the entry at its place in the sorted list |
| PlayerDetail.PositionStatsSorted | public/js/player-detail.js:277 | a position tab lists its stats by non-increasing coefficient |
| PlayerDetail.PositionStatsComplete | public/js/player-detail.js:266-275 | every entry of the group that the player has a stat for is shown, with its coefficient |
| PlayerDetail.PositionStatsSound | public/js/player-detail.js:266-275 | every shown stat is an entry of the group that the player has a stat for |
| PlayerDetail.DisplayPositionStats | public/js/player-detail.js:246-320 | a failed answer gives the "no coefficients" note for the position; otherwise the group key and the table, two to a row, of the present entries sorted by descending coefficient |
| PlayerDetail.CollectWithCoefficient | public/js/player-detail.js:266-275 | the loop collects exactly the group's entries that the player has a stat for, in the group's order |
| PlayerDetail.PresentEntriesSnoc | public/js/player-detail.js:267-274 | one more entry is appended exactly when the player has its stat |
| PlayerDetailScraper.Assign | src/services/playerDetailScraper.js:28 | `stats[label] = record` adds at most one key |
| PlayerDetailScraper.AssignLookup | src/services/playerDetailScraper.js:28 | after the assignment the label holds the new record and every other label what it held |
| PlayerDetailScraper.AssignDistinct | src/services/playerDetailScraper.js:28 | labels stay distinct, and the only label that can be new is the one assigned |
| PlayerDetailScraper.StatValueOf | src/services/playerDetailScraper.js:29 | `parseInt(text) \|\| text` is a number exactly when the text parses to a non-zero number, and that number; otherwise the text itself |
| PlayerDetailScraper.StatValueOfDigits | src/services/playerDetailScraper.js:29 | a positive number's decimal text is read as that number |
| PlayerDetailScraper.StatValueOfZero | src/services/playerDetailScraper.js:29 | "0" stays the text "0", because 0 is falsy |
| PlayerDetailScraper.AttrNumber | src/services/playerDetailScraper.js:30-31 | a missing or empty attribute gives null; any other is parsed with `parseInt` |
| PlayerDetailScraper.RowRecord | src/services/playerDetailScraper.js:28-32 | the stored record has exactly the fields value, baseValue and originalValue |
| PlayerDetailScraper.GeneralStats | src/services/playerDetailScraper.js:16-37 | the stats object never holds a label twice |
| PlayerDetailScraper.GeneralStatsComplete | src/services/playerDetailScraper.js:27-33 | every row with a non-empty label and value is recorded under its trimmed label |
| PlayerDetailScraper.GeneralStatsSound | src/services/playerDetailScraper.js:27-33 | every label in the stats object is that of a row with a non-empty label and value |
| PlayerDetailScraper.GeneralStatsLastWins | src/services/playerDetailScraper.js:27-33 | a label holds the record of the last recorded row that carries it |
| PlayerDetailScraper.ExtractGeneralStats | src/services/playerDetailScraper.js:15-38 | the loop over the rows builds exactly GeneralStats of the rows |
| PlayerDetailScraper.TraitOf | src/services/playerDetailScraper.js:53-63 | a box gives a trait exactly when its trimmed name is non-empty; an empty description or a missing or empty icon becomes null, otherwise it is kept |
| PlayerDetailScraper.Traits | src/services/playerDetailScraper.js:46-66 | never more traits than boxes |
| PlayerDetailScraper.TraitsComplete | src/services/playerDetailScraper.js:57-63 | every box with a name yields its trait in the list |
| PlayerDetailScraper.TraitsSound | src/services/playerDetailScraper.js:57-63 | every trait in the list comes from a box with a name |
| PlayerDetailScraper.ExtractHiddenStats | src/services/playerDetailScraper.js:45-67 | the loop over the boxes builds exactly Traits of the boxes |
| PlayerDetailScraper.PeriodRun | src/services/playerDetailScraper.js:84 | the run of `[\d\s\-]` characters at the start is as long as possible |
| PlayerDetailScraper.PeriodRunChars | src/services/playerDetailScraper.js:84 | every character of the run is a digit, whitespace or '-' |
| PlayerDetailScraper.MatchClubLine | src/services/playerDetailScraper.js:84 | a match has a non-empty period and a non-empty club that fit in the text with the colon between them |
| PlayerDetailScraper.ClubGroup | src/services/playerDetailScraper.js:84 | the club group is empty exactly when nothing follows the colon |
| PlayerDetailScraper.ClubGroupSuffix | src/services/playerDetailScraper.js:84 | the club group is the end of the text after the colon |
| PlayerDetailScraper.ClubGroupAfterWhitespace | src/services/playerDetailScraper.js:84 | only whitespace comes before the club group |
| PlayerDetailScraper.MatchClubLinePeriod | src/services/playerDetailScraper.js:84 | a match's period is the text's leading run of digits, whitespace and '-', followed by ':' |
| PlayerDetailScraper.MatchClubLineNoBreak | src/services/playerDetailScraper.js:84 | a match's club holds no line terminator, since `.` does not match one |
| PlayerDetailScraper.MatchClubLineEnds | src/services/playerDetailScraper.js:84 | a match's club ends the text, after the period and its colon |
| PlayerDetailScraper.MatchClubLineGap | src/services/playerDetailScraper.js:84 | only whitespace separates a match's club from the colon |
| PlayerDetailScraper.ClubLineRoundTrip | src/services/playerDetailScraper.js:84-90 | a line written as period, ": " and a club that starts with no whitespace and has no line break reads back as that period and club |
| PlayerDetailScraper.ClubEntryOf | src/services/playerDetailScraper.js:84-96 | a line that does not match becomes an entry with no period and the line as club; a match always has a period |
| PlayerDetailScraper.ClubCareer | src/services/playerDetailScraper.js:75-100 | never more entries than lines |
| PlayerDetailScraper.ClubEntryOfLine | src/services/playerDetailScraper.js:84-90 | a line written as period, ": " and a club becomes the entry whose period is the trimmed period and whose club is the trimmed club |
| PlayerDetailScraper.ClubCareerAppend | src/services/playerDetailScraper.js:78-97 | entries keep page order: the career of two runs of lines is the first run's entries followed by the second's |
| PlayerDetailScraper.ClubCareerSplitAt | src/services/playerDetailScraper.js:78-97 | the career is the entries of the lines before a line, that line's entries, then those of the lines after it |
| PlayerDetailScraper.ClubCareerThree | src/services/playerDetailScraper.js:78-97 | the career of lines around one line is the entries of the lines before it, of that line, then of the lines after it |
| PlayerDetailScraper.ClubCareerOne | src/services/playerDetailScraper.js:79-96 | one line that is not blank gives exactly one entry, read from its trimmed text |
| PlayerDetailScraper.ClubCareerAt | src/services/playerDetailScraper.js:78-97 | every line that is not blank yields its entry, placed after the entries of the earlier lines and before those of the later ones |
| PlayerDetailScraper.ClubCareerFromLines | src/services/playerDetailScraper.js:79-97 | every entry comes from a line that is not blank, read by ClubEntryOf after trimming |
| PlayerDetailScraper.ExtractClubCareer | src/services/playerDetailScraper.js:74-101 | the loop over the lines builds exactly ClubCareer of the lines |
| PlayerDetailScraper.PlayerName | src/services/playerDetailScraper.js:112-113 | a non-blank heading gives the trimmed heading; any name found is non-empty and trimmed |
| PlayerDetailScraper.PlayerNameFromTitleHasNoDash | src/services/playerDetailScraper.js:113 | a name taken from the title holds no '-' |
| PlayerDetailScraper.PlayerNameFromTitle | src/services/playerDetailScraper.js:113 | a title without '-' gives the trimmed title, when it is not blank |
| PlayerDetailScraper.ExtractAdditionalInfo | src/services/playerDetailScraper.js:108-132 | the name is PlayerName; the image is set exactly for a non-empty source and is that source; the rating is set exactly for non-blank text and is read like a stat value |
| SearchPage.ResultRange | public/js/search.js:267-268 | the first number is (page-1)·limit+1 and the last is the smaller of page·limit and the total; for a page in range the range is non-empty and holds min(limit, what is left) results |
| SearchPage.Window | public/js/search.js:380-386 | with at least one page the window lies within 1..pages; for a page in range it contains the page and shows min(7, pages) numbers |
| SearchPage.Buttons | public/js/search.js:400-402 | one button per number from the window's start to its end |
| SearchPage.ButtonsAt | public/js/search.js:400-443 | the j-th button shows start+j and is highlighted exactly when that is the current page |
| SearchPage.RowAt | public/js/search.js:388-413 | the row is the first page and an ellipsis when the window starts after page 2, then the window, then an ellipsis and the last page when the window ends before them, each item at its place |
| SearchPage.RowConsecutive | public/js/search.js:388-413 | neighbouring buttons of the row show consecutive numbers |
| SearchPage.RowGaps | public/js/search.js:391-411 | each ellipsis stands between two buttons whose numbers leave a gap |
| SearchPage.RowRises | public/js/search.js:388-413 | button numbers rise strictly along the row |
| SearchPage.RowActive | public/js/search.js:435-437 | only the current page's button is highlighted |
| SearchPage.PaginationEnds | public/js/search.js:388-413 | with at least one page the row starts with page 1 and ends with the last page |
| SearchPage.PaginationSpaced | public/js/search.js:388-413 | neighbouring buttons are consecutive and an ellipsis marks exactly the gaps |
| SearchPage.PaginationRises | public/js/search.js:388-413 | the numbers of the buttons rise strictly |
| SearchPage.PaginationActive | public/js/search.js:432-443 | exactly the current page's button is highlighted, and a page in range is always shown |
| SearchPage.Cleaned | public/js/search.js:232-236 | the kept entries are exactly those that are truthy or are sort keys, in order |
| SearchPage.SentAlways | public/js/search.js:220-236 | sortBy "overall", sortOrder "desc" and limit 20 are always sent |
| SearchPage.SentName | public/js/search.js:216-233 | the name is sent, trimmed, exactly when it is not blank |
| SearchPage.SentPosition | public/js/search.js:217-233 | the position is sent exactly when one is chosen |
| SearchPage.SentOverallBounds | public/js/search.js:218-233 | each overall bound is sent, as typed, exactly when it is not empty |
| SearchPage.SentPage | public/js/search.js:222-233 | the page is sent exactly when it is a non-zero number |
| SearchPage.SentSeasons | public/js/search.js:227-233 | the chosen seasons, joined by commas, are sent exactly when there are some and the join is not empty |
| SearchPage.Toggle | public/js/search.js:101-111 | a click removes every occurrence of a chosen season or appends an unchosen one; other seasons keep their membership and no duplicate appears |
| SearchPage.ExcludeKeepsDistinct | public/js/search.js:105 | removing a season keeps the list free of duplicates |
| SearchPage.ToggleTwice | public/js/search.js:101-111 | two clicks on the same chip restore the chosen set, and restore the list itself when the season was not chosen |
| SearchPage.NonBlank | public/js/search.js:151 | the kept parts are exactly those that are not blank |
| SearchPage.NonBlankAll | public/js/search.js:151 | parts that are all non-blank are all kept, in order |
| SearchPage.UrlSeasonsRoundTrip | public/js/search.js:151-228 | seasons written into the URL joined by commas read back as the same list when none is blank or holds a comma |
| SearchPage.PageWindow | public/js/search.js:380-386 | the two assignments and the correction compute Window |
| SearchPage.AppendButtons | public/js/search.js:400-402 | the loop appends exactly the window's buttons |
| SearchPage.DisplayPagination | public/js/search.js:357-444 | Previous, the row of numbers and Next are those of Pagination for the page and page count |
| SearchPage.SearchPageState.constructor | public/js/search.js:6-9 | page 1, no season chosen and no filters at first |
| SearchPage.SearchPageState.PerformSearch | public/js/search.js:214-236 | the current filters become the form's filters after cleanup |
| SearchPage.SearchPageState.Search | public/js/search.js:172-192 | a search goes back to page 1, keeps the chosen seasons and sends the cleaned filters |
| SearchPage.SearchPageState.HandleQuickSeasonClick | public/js/search.js:99-119 | the chip is toggled, the page goes back to 1 and the cleaned filters are sent |
| SearchPage.SearchPageState.ClearFilters | public/js/search.js:449-468 | the form is emptied, no season is chosen, the page is 1 and the cleaned empty filters are sent |
| SearchPage.SearchPageState.LoadUrlParams | public/js/search.js:143-165 | each non-empty parameter fills its field; the seasons parameter sets the chosen seasons and the page parameter the page, read with `parseInt`; the filters are untouched |
| SearchPage.SearchPageState.PreviousClicked | public/js/search.js:365-376 | past the first page Previous moves back one page and searches; otherwise it changes nothing; from a page in range it lands on a page in range |
| SearchPage.SearchPageState.NextClicked | public/js/search.js:418-429 | before the last page Next moves forward one page and searches; otherwise it changes nothing; from a page in range it lands on a page in range |
| SearchPage.SearchPageState.PageClicked | public/js/search.js:438-441 | a number button goes to that page and searches |
| ServerApi.ResolvePositionCoefficients | server/api.js:85-126 | the answer echoes the position; it is 404 exactly when neither a key equal to the position nor a "/" group listing it exists; otherwise it names that key and its coefficients |
| ServerApi.FirstGroup | server/api.js:100-109 | the loop stops at the first key that contains "/" and whose parts include the position |
| ServerApi.NonBlankTrimmed | server/api.js:168 | no more seasons come out than parts went in |
| ServerApi.NonBlankTrimmedClean | server/api.js:168 | every listed season is non-empty and already trimmed |
| ServerApi.NonBlankTrimmedComplete | server/api.js:168 | every part that is not blank is listed, trimmed |
| ServerApi.NonBlankTrimmedSound | server/api.js:168 | every listed season is the trim of one of the parts |
| ServerApi.BuildSearchQuery | server/api.js:156-180 | name and position conditions exactly when given; `seasons` decides the season condition (none when its list is empty), `season` only without it; the overall bounds exactly for the bounds given, each read with `parseInt` |
| ServerApi.SeasonsTakePrecedence | server/api.js:167-174 | with `seasons` given, `season` is never used and every season searched is a non-blank trimmed part of the parameter |
| ServerApi.BuildSort | server/api.js:186-193 | "overall" (the default) sorts on overallDisplay, "name" on name, any other value on that field; ascending exactly when sortOrder is "asc" |
| ServerApi.Skip | server/api.js:199 | the offset is a number exactly when page and limit are, and never negative for a page from 1 and a limit from 0 |
| ServerApi.SkipNextPage | server/api.js:199 | consecutive pages start exactly one limit apart |
| ServerApi.PageCount | server/api.js:210 | null exactly for a NaN or zero limit; with a positive limit the pages cover every result and no page is empty |
| ServerApi.PageWithinCount | server/api.js:199-210 | with a positive limit a page is within the count exactly when it starts before the last result |
| ServerApi.BuildPagination | server/api.js:206-211 | page and limit are the parsed parameters (1 and 20 by default) and the total is echoed; by default the count is the least number of pages of 20 that covers the total |
| ServerApi.FindOne | server/api.js:229 | some document is found exactly when one matches, and it is the first that matches |
| ServerApi.PlayerDocument | src/models/Player.js:36-47 | a stored player carries playerId, position and season and no `playerid` field |
| ServerApi.LookupQueryMatches | server/api.js:229 | a document matches the lookup exactly when its id field equals the id |
| ServerApi.SimilarQueryMatches | server/api.js:270-284 | a similar player has the requested (or the player's) position, another id, the requested season when one is given, and an overall within 5 of the player's (0 when the player has none) |
| ServerApi.ComparePlayers | server/api.js:252-284 | 404 exactly when no document has the id; otherwise the player found has the id and the similar query is built from it |
| ServerApi.SimilarExcludesSelf | server/api.js:270-273 | the player compared is never among its own similar players |
| ServerApi.LookupAsWrittenNeverFinds | server/api.js:260 | looked up under `playerid`, no stored player is ever found |
| ServerApi.SimilarAsWrittenKeepsSelf | server/api.js:270-284 | excluded under `playerid`, a player fitting the filter is listed as similar to itself |
| ServerApi.LookupFindsStoredPlayer | server/api.js:223-267 | looked up under `playerId`, every stored player is found by its id |
| StatsMapping.TableRow | src/config/statsMapping.js:6-52 | the i-th entry's label and key are non-empty and occur nowhere else in the table |
| StatsMapping.StatsMappingWellFormed | src/config/statsMapping.js:6-52 | the table has 34 entries with distinct, non-empty labels and distinct, non-empty keys |
| StatsMapping.Find | src/config/statsMapping.js:68-77 | the lookup fails exactly when no entry has that name, and otherwise returns the value of an entry with that name |
| StatsMapping.Inverse | src/config/statsMapping.js:57-60 | the reverse object has exactly the table's keys as its keys |
| StatsMapping.InverseAt | src/config/statsMapping.js:57-60 | with distinct keys the reverse object maps every key to its own label |
| StatsMapping.BuildStatsNames | src/config/statsMapping.js:57-60 | the reduce builds exactly the reverse object |
| StatsMapping.GetStatKeyMapped | src/config/statsMapping.js:67-69 | every label translates to its own key |
| StatsMapping.GetStatKeyUnmapped | src/config/statsMapping.js:67-69 | a string that is no label comes back unchanged |
| StatsMapping.GetStatNameMapped | src/config/statsMapping.js:57-78 | every key translates back to its own label |
| StatsMapping.GetStatNameUnmapped | src/config/statsMapping.js:76-78 | a string that is no key comes back unchanged |
| StatsMapping.NameOfKey | src/config/statsMapping.js:67-78 | a label translated to its key and back is the label |
| StatsMapping.KeyOfName | src/config/statsMapping.js:67-78 | a key translated to its label and back is the key |
| StatsMapping.TransformStats | src/config/statsMapping.js:85-97 | the loop builds exactly the object of labelled records keyed by translated label |
| StatsMapping.TransformedKeys | src/config/statsMapping.js:88-90 | the output keys are exactly the translations of the input labels |
| StatsMapping.TransformedLastWins | src/config/statsMapping.js:88-93 | under each key sits the last input entry whose label translates to it, labelled |
| StatsMapping.LabelledFields | src/config/statsMapping.js:90-93 | a labelled record has the record's fields plus `name`; each field keeps its value and `name` is the label unless the record has its own |
| PlayerListScraper.Get | src/services/playerListScraper.js:20-25 | a lookup fails exactly when no pair of the query has the name |
| PlayerListScraper.BuildPlayerListUrl | src/services/playerListScraper.js:16-28 | the address is BASE_URL + "/players" with `positions[0]` set to the position and then `seasons[i]` set to each season, in order |
| PlayerListScraper.SeasonParamNameInjective | src/services/playerListScraper.js:23-25 | different indices give different parameter names, so no season overwrites another |
| PlayerListScraper.ListQueryPosition | src/services/playerListScraper.js:21 | reading `positions[0]` back gives the position |
| PlayerListScraper.ListQuerySeason | src/services/playerListScraper.js:23-25 | reading `seasons[i]` back gives the i-th season |
| PlayerListScraper.ListQueryNoMoreSeasons | src/services/playerListScraper.js:23-25 | the query holds no `seasons[i]` beyond the seasons given |
| PlayerListScraper.Absolutise | src/services/playerListScraper.js:47 | the result starts with "http"; a link starting with "http" is kept and any other gets BASE_URL in front |
| PlayerListScraper.AbsolutiseIdempotent | src/services/playerListScraper.js:47 | an absolutised link is left as it is |
| PlayerListScraper.PlayerIdIsLastSegment | src/services/playerListScraper.js:50 | the link ends with the id and, unless the id is the whole link, a "/" stands right before it |
| PlayerListScraper.PlayerIdHasNoSlash | src/services/playerListScraper.js:50 | the id holds no "/" |
| PlayerListScraper.SeasonMissing | src/services/playerListScraper.js:59-60 | without a (non-empty) class the season is null, and with a class lacking "bg-" it is undefined |
| PlayerListScraper.SeasonBetweenMarkers | src/services/playerListScraper.js:59-60 | otherwise the season is the trimmed text after the first "bg-", up to the next "bg-" or the end |
| PlayerListScraper.RemoveWhitespaceClean | src/services/playerListScraper.js:73 | `replace(/\s+/g, '')` leaves no whitespace, never lengthens and keeps every other character |
| PlayerListScraper.RatingOfStripsWhitespace | src/services/playerListScraper.js:66-73 | the rating is the loose text with every whitespace character removed |
| PlayerListScraper.PositionsOf | src/services/playerListScraper.js:63-76 | at most one entry per badge, and every entry has a non-empty position |
| PlayerListScraper.PositionsKeepLabelled | src/services/playerListScraper.js:65-75 | every badge whose text is not blank gives its entry |
| PlayerListScraper.PositionsFromLabelled | src/services/playerListScraper.js:65-75 | every entry comes from a badge whose text is not blank |
| PlayerListScraper.ExtractPositions | src/services/playerListScraper.js:63-76 | the loop pushes exactly PositionsOf |
| PlayerListScraper.AvatarUrlOf | src/services/playerListScraper.js:89 | null exactly for an absent or empty source; otherwise the absolute address |
| PlayerListScraper.OverallOf | src/services/playerListScraper.js:79-92 | null exactly when the hexagon text is blank; otherwise that text trimmed |
| PlayerListScraper.PlayerListOf | src/services/playerListScraper.js:39-96 | at most one record per card, each with a non-empty id and name and an absolute player address |
| PlayerListScraper.PlayerListKeepsAccepted | src/services/playerListScraper.js:44-95 | every card with a player link, a non-blank name and a non-empty id gives its record |
| PlayerListScraper.PlayerListFromAccepted | src/services/playerListScraper.js:44-95 | every record comes from such a card |
| PlayerListScraper.ExtractPlayerList | src/services/playerListScraper.js:35-99 | the loop over the cards returns exactly PlayerListOf |
| PlayerListScraper.ScrapePlayerList | src/services/playerListScraper.js:107-126 | the page is fetched from the list address; a failed fetch gives no players, a page gives its records |
| TrainingCalculator.GetPositionCoefficients | src/utils/trainingCalculator.js:295-298 | a set is returned exactly when a non-empty key resolves, and it is that key's entry in the catalog |
| TrainingCalculator.RoundHalfUpNearest | src/utils/trainingCalculator.js:71 | `Math.round` of w / c is within half a unit of it, a half going up |
| TrainingCalculator.RoundedRating | src/utils/trainingCalculator.js:71-72 | the clamped rating lies in [0, 99] |
| TrainingCalculator.RoundedRatingRounds | src/utils/trainingCalculator.js:71-72 | strictly between the bounds the rating is the nearest integer to w / c; 0 and 99 are returned only when the average falls at or beyond them |
| TrainingCalculator.PositionOVR | src/utils/trainingCalculator.js:43-80 | the rating lies in [0, 99] and is 0 for a position without coefficients |
| TrainingCalculator.PositionOVRRounds | src/utils/trainingCalculator.js:52-72 | the rating is the coefficient-weighted average of the stats, rounded half up and clamped, and 0 when the coefficients sum to 0 |
| TrainingCalculator.CalculatePositionOVR | src/utils/trainingCalculator.js:43-72 | the loop accumulates the weighted sum and the coefficient sum and returns PositionOVR |
| TrainingCalculator.MissingStatCountsAsZero | src/utils/trainingCalculator.js:60 | a stat the player lacks weighs exactly as a stat of 0, its coefficient still counting |
| TrainingCalculator.MissingStatExample | src/utils/trainingCalculator.js:58-71 | illustration: {speed: 2, finishing: 1} with only speed 130 rates 87 |
| TrainingCalculator.RoundsHalfUpExample | src/utils/trainingCalculator.js:71 | illustration: an average of 50.5 rates 51 |
| TrainingCalculator.CalculateAllPositionOVR | src/utils/trainingCalculator.js:89-102 | one entry per listed position (every catalog key when none are listed), each holding that position's rating |
| TrainingCalculator.PrefixMembersStep | src/utils/trainingCalculator.js:97-99 | one more position adds exactly that position to the keys filled |
| TrainingCalculator.GetAllPositions | src/utils/trainingCalculator.js:274-287 | the loop lists every catalog key, grouped keys expanded, in catalog order |
| TrainingCalculator.AllPositionsMembers | src/utils/trainingCalculator.js:277-284 | a position is listed exactly when it is a part of a grouped key or a plain key |
| TrainingCalculator.AllPositionsResolve | src/utils/trainingCalculator.js:16-33 | every listed position resolves to a catalog key |
| TrainingCalculator.ApplyIncreasesEffect | src/utils/trainingCalculator.js:118-126 | each listed stat the player has becomes min(99, old + increase), even below an old value over 99; other stats, and which stats exist, are unchanged |
| TrainingCalculator.ApplyStatIncreases | src/utils/trainingCalculator.js:118-126 | the loop on the clone computes ApplyIncreases |
| TrainingCalculator.SimulateTraining | src/utils/trainingCalculator.js:112-139 | the result echoes position, stats and increases, holds the ratings before and after the increases and their difference |
| TrainingCalculator.SortedPrefixIsTop | src/utils/trainingCalculator.js:173-175 | in a set sorted by coefficient, nothing after the first n entries outranks one of them |
| TrainingCalculator.KeyStatsAreTop | src/utils/trainingCalculator.js:156-183 | an unknown position has no key stats; otherwise they are min(topN, size) entries of its set in non-increasing coefficient order |
| TrainingCalculator.KeyStatsLeaveOutSmaller | src/utils/trainingCalculator.js:173-175 | no entry left out of the key stats has a larger coefficient than one kept |
| TrainingCalculator.FirstEligible | src/utils/trainingCalculator.js:239-247 | the stat picked is eligible (below the cap and below 99 with its increase) and every key stat before it is not |
| TrainingCalculator.SetIncreaseEffect | src/utils/trainingCalculator.js:244 | setting an amount changes only that stat's amount and the total by the difference, and keeps the keys distinct |
| TrainingCalculator.IncreaseOfWithin | src/utils/trainingCalculator.js:240 | within the caps no planned amount is negative |
| TrainingCalculator.GreedyStepEffect | src/utils/trainingCalculator.js:239-247 | an iteration raises the first eligible key stat by exactly 1 and nothing else; with none eligible it changes nothing |
| TrainingCalculator.GreedyStepWithin | src/utils/trainingCalculator.js:239-247 | an iteration keeps every amount on a key stat and between 1 and the cap |
| TrainingCalculator.SetIncreaseShape | src/utils/trainingCalculator.js:244 | setting an amount keeps the keys distinct and adds no entry but the one set |
| TrainingCalculator.WithinCapsMember | src/utils/trainingCalculator.js:243-244 | every planned entry is a key stat with an amount from 1 to the cap |
| TrainingCalculator.GreedyIterWithin | src/utils/trainingCalculator.js:215-250 | after n iterations the caps hold and at most n points are planned |
| TrainingCalculator.RaiseFirstEligible | src/utils/trainingCalculator.js:239-247 | the inner loop with its break performs one GreedyStep |
| TrainingCalculator.CalculateTrainingPlan | src/utils/trainingCalculator.js:194-258 | the early exit and the up to 100 test-and-raise iterations compute TrainingPlanFor |
| TrainingCalculator.TrainingPlanSound | src/utils/trainingCalculator.js:194-258 | "already met" exactly when the current rating reaches the target; a reached plan's rating is that of its increases and reaches the target, its amounts stay within the caps and its total is under 100; "could not reach" only when every one of the 100 plans tried falls short |
| TrainingCalculator.PlanSearchReached | src/utils/trainingCalculator.js:215-236 | the search never answers "already met" and a plan it reaches keeps the promises of a reached plan |
| TrainingCalculator.PlanSearchUnreachable | src/utils/trainingCalculator.js:215-258 | the search gives up only when every plan from the current iteration on falls short |
| TrainingCalculator.PlanSearchStep | src/utils/trainingCalculator.js:225-249 | a plan that falls short hands the search to the next iteration's plan |
| JsText.TrimStart | server/api.js:178 | the whitespace `parseInt` skips: `trimStart` never lengthens the text and leaves it starting with no whitespace |
| JsText.TrimStartSuffix | server/api.js:178 | what `trimStart` keeps is the end of the text |
| JsText.TrimStartRemovesWhitespace | server/api.js:178 | what `trimStart` removes is whitespace |
| JsText.Trim | src/services/playerListScraper.js:53 | `trim` never lengthens the text and leaves it neither starting nor ending with whitespace |
| JsText.TrimSlice | src/services/playerListScraper.js:53 | the trimmed text is a slice of the original with only whitespace before and after it |
| JsText.TrimEmptyIffBlank | src/services/playerListScraper.js:53 | trimming leaves nothing exactly when the text is all whitespace |
| JsText.TrimOfTrimmed | server/api.js:168 | a text that neither starts nor ends with whitespace is its own trim |
| JsText.IndexOf | src/services/playerListScraper.js:60 | the position found is the first occurrence, and none is found exactly when there is no occurrence |
| JsText.IndexOfFrom | src/services/playerListScraper.js:60 | the same from a starting position on |
| JsText.Split | server/api.js:168 | `split` gives at least one part |
| JsText.SplitPartsFree | server/api.js:168 | no part of a split contains the separator |
| JsText.SplitAtFirst | src/services/playerListScraper.js:60 | a split cuts at the first occurrence of the separator |
| JsText.JoinSplit | server/api.js:168 | splitting and joining on the same separator gives back the text |
| JsText.SplitJoin | public/js/search.js:151-228 | joining parts free of a one-character separator and splitting again gives back the parts |
| JsText.SplitNoSeparator | src/utils/trainingCalculator.js:24-27 | a text without the separator splits into itself alone |
| JsText.ToLower | public/js/club-search.js:92 | `toLowerCase` keeps the length and lowers each ASCII capital |
| JsText.NatToString | src/services/playerListScraper.js:24 | the decimal rendering is a non-empty run of digits with no leading zero |
| JsText.DecimalValueOfNatToString | src/services/playerListScraper.js:24 | the rendering's decimal value is the number |
| JsText.DigitPrefix | server/api.js:178 | the digit run `parseInt` reads is made of decimal digits and no longer than the text |
| JsText.DigitPrefixLongest | server/api.js:178 | the digit run is a prefix of the text and no digit follows it |
| JsText.HexPrefix | server/api.js:178 | the run read after `0x` is made of hexadecimal digits |
| JsText.HexPrefixLongest | server/api.js:178 | the hexadecimal run is a prefix and no hexadecimal digit follows it |
| JsText.ParseIntNatToString | public/js/search.js:164 | `parseInt(String(n))` is n |
| JsText.ParseIntOfDigits | server/api.js:178-179 | a non-empty run of decimal digits is read as its decimal value |
| JsText.ParseIntUnsigned | server/api.js:178-179 | with no leading whitespace, sign or `0x`, `parseInt` reads the leading decimal digits |
| JsText.AppendAbsentIdempotent | src/utils/progressTracker.js:120-122 | marking an element a second time changes nothing |
| JsText.ExcludeNone | src/utils/progressTracker.js:142 | excluding nothing that occurs keeps the whole list |

## Left out

- The DOM, event listeners, `innerHTML` templates, `localStorage`, `fetch`, `window.history` and the debounce timer. A page's form fields arrive as parameters, and its rendered output is modelled as data (button rows, table cells).
- cheerio and the HTML selectors. Each scraper decision receives the texts and attributes its selector found, in document order. The fetched page is a parameter, and a failed fetch is `None`.
- The network, retries and delays (`httpClient.js`, `delay.js`), the crawler orchestration and CLI flow (`crawlerService.js`, `src/index.js`), and the concurrency pool (`promisePool.js`). src/index.js and crawlerService.js are not part of this model.
- MongoDB itself: `find`, `countDocuments`, `sort`, `skip`, `limit`, `aggregate`, the text index and the Mongoose schema. The model states the filter, sort and pagination values; `findOne` is modelled over an in-memory sequence of documents.
- The `/api/health`, `/api/constants`, `/api/position-coefficients/all` and `/api/stats/aggregate` handlers. They return constant data or a database aggregation.
- The `application/x-www-form-urlencoded` serialisation of `URLSearchParams` (section 5.2 of the WHATWG URL Standard), and percent-decoding. Query strings are modelled as their decoded name/value pairs.
- Floating point. The numeric stat values, coefficients and buffs are integers, so `Math.round(W / C)` and `Math.floor(W / C)` have exact integer forms. A fractional stat value, or a `parseInt` result beyond the doubles' integer range, is not modelled. The scraper can also store a stat as text (see the next three lines).
- Case folding beyond ASCII. `toLowerCase`/`toUpperCase` are modelled on ASCII letters only.
- `Object.keys` ordering. JavaScript lists integer-like keys first, in numeric order. The model keeps plain insertion order for the catalog and for stat objects.
- The coefficient catalog `positionCoefficients.json`. It is not part of this model and is taken as an ordered parameter.
- JSON parse errors of the checkpoint files, and the logger. A file that cannot be read is modelled as absent.
- Timestamps (`lastUpdated`, `startedAt`, `scrapedAt`). They are parameters.
- `displayClubCareer`, `renderPlayers`, `createPlayerCard` and `updateSeasonsCounter`. They only lay out the DOM from values the model computes.
- BrowserUtils.FormatNumber: only integers (or nothing) are modelled. A fractional number, a string or another value `toString` would render is not.
- PlayerDetail.ColorOf: a text value is always grey. JavaScript's `>=` would first convert a numeric text such as "85" or ".9e2" to a number and colour it by that number.
- TrainingCalculator.PositionOVR: stats are integers only. The scraper keeps a stat whose text does not parse to a non-zero number as that text ("-", "0abc"). For such a stat, `value * coefficient` is NaN, so `calculatePositionOVR` returns NaN, which is outside the [0, 99] the model ensures.
- TrainingCalculator.SimulateTraining: stats are integers only. For a text stat, `value + increase` concatenates ("-" + 3 is "-3"), and `Math.min(99, "-3")` stores -3. The ratings computed from it are then NaN.
- TrainingCalculator.CalculateTrainingPlan: stats are integers only. For a text stat, the test stats and the `< 99` eligibility test work on concatenated text, and every tested rating is NaN.
- Coefficients.Lookup: a catalog here is a sequence of (key, set) pairs and could repeat a key, which a parsed JSON object cannot. `Lookup` takes the first such pair, whereas `JSON.parse` keeps the last. The catalog file's keys are distinct, and no distinctness requirement is stated.
- `scrapePlayerDetail`. It only fetches a page and composes the extractors modelled here.
- Names inherited from `Object.prototype`. A truthy lookup such as `coefficients[stat]` or `STAT_MAPPING[name]` is also truthy for a name like "constructor" or "toString". The model treats an object as exactly its own keys.

## Findings

| source | as written | input that shows it | evidently intended | confidence | as-written member | corrected member |
|---|---|---|---|---|---|---|
| server/api.js:260,271-272 | the compare handler looks the player up, and excludes it from its similar players, under the field `playerid`; stored players (src/models/Player.js) carry `playerId` | any stored player, e.g. one with playerId "abc": `/api/players/abc/compare` answers 404, and a similar query built for it keeps it | look up and exclude on `playerId`, as `/api/players/:id` does | high (not executed) | ServerApi.LookupAsWrittenNeverFinds, ServerApi.SimilarAsWrittenKeepsSelf | ServerApi.ComparePlayers, ServerApi.LookupFindsStoredPlayer, ServerApi.SimilarExcludesSelf |
| src/utils/seasonsProgress.js:128-135 | `remaining` is `allSeasons.length - completed.length`, whatever the completed seasons are | seasons A and B asked for, with A, C and D completed by an earlier, larger run: `remaining` is -1 while B is still to crawl | the number of seasons `getRemainingSeasons` still lists | medium (not executed) | SeasonsProgress.CrawlStatsAsWritten, SeasonsProgress.CrawlStatsAsWrittenGoesNegative | SeasonsProgress.CrawlStatsFor |
