# die-league in Dafny

A model of the beer-die league application: its FastAPI backend
(backend/main.py) and the rules buried in the rendering code of its browser
frontend (frontend/script.js).

The backend keeps three in-memory lists (players, teams, games) and the
league's current week. Endpoints add, replace and delete entries, list the
players by rank, list one team's schedule and set the current week. The
central endpoint is match submission (`POST /matches`). It checks that both
teams exist and that the winner is one of them. It then sums each roster
player's six counters over every stat line of every game of the match and
adds the totals to the stored players. Last, it records one win and one loss.

The frontend computes these:

- two derived metrics (points per throw, catch percentage);
- a leaderboard per stat category;
- the standings;
- each team's "This Week" line and the order of its schedule;
- the game the "Add Game" form posts;
- the value the current-week form sends;
- the match body the "Add Match" form assembles from its inputs;
- the grouping of players by team on the stats page.

Modules, one per file:

- `Wrappers`: `Option` and `Result`.
- `Entities`: the records of the backend. `Player`, `Team`, `Game`, the stat
  line `StatLine`, `GameStats` and `MatchSubmission` are values. The six
  counters are grouped in `Stats`.
- `Store`: the three list idioms the backend repeats for every entity:
  - the next id, `max(id) + 1`;
  - the first-match search of `update_*` and `next(...)`;
  - the filter of `delete_*` and of the schedule.
- `Sorting`: one stable insertion sort by a comparator. Python's `sorted` and
  JavaScript's `Array.prototype.sort` are both stable. It is proved to yield
  an ordered permutation in which elements that compare equal keep their
  input order.
- `Aggregation`: what `submit_match` does to the player and team lists, as
  functions of the old lists, with the lemmas that say what those functions
  mean.
- `League`: the backend state as a class, `LeagueState`, with sequence
  fields. Each endpoint is a method. `SubmitMatch` mutates a map accumulator
  in nested loops and updates players and teams in place. It is proved to
  produce exactly the lists `Aggregation` describes.
- `Metrics`, `Rankings`, `Schedule`, `MatchForm` and `Grouping`: the
  frontend rules. The stat-collection loop of the match form and the
  grouping loop of the stats page are methods with loops. The rest are
  functions.

Numbers are unbounded integers, as in Python. JavaScript numbers are modelled
as integers where the code only adds, compares and subtracts integers. The two
metrics are exact rationals (`real`).

## Model

| member | source | states |
|---|---|---|
| `Entities.Set` | frontend/script.js:1996 | `obj[stat] = value` changes that stat to the value and leaves the other five counters as they were |
| `Entities.AddFieldwise` | backend/main.py:428-433 | adding two counter records adds each of the six counters separately |
| `Store.MaxId` | backend/main.py:236 | `max(x.id for x in s)` bounds every stored id and is one of them |
| `Store.NextId` | backend/main.py:233-238 | an empty list gives id 1. A list with a `None` id fails, as Python's `max`/`+ 1` raises a TypeError, and only then. Otherwise the new id exceeds every stored id, differs from all of them, and is one more than a stored id |
| `Store.IndexOfId` | backend/main.py:253-257 | the search stops at the first entity with the id; it finds nothing exactly when no entity has it |
| `Store.WithoutId` | backend/main.py:264 | every entity with the id is removed; every other entity stays as often as it was there |
| `Store.WithoutIdInOrder` | backend/main.py:264 | the entities that stay keep their stored order |
| `Store.FilterCorrect` | backend/main.py:328 | a list comprehension keeps each element that passes, with its multiplicity, and nothing else |
| `Store.FilterInOrder` | backend/main.py:328 | the elements that pass keep their order |
| `Store.IndexOfIdAppend` | frontend/script.js:1981-1994 | pushing a new stat object does not move an earlier match of `find`; the new object is found only when nothing before it matches |
| `Store.IndexOfIdSameIdUpdate` | frontend/script.js:1981-1996 | setting a counter of a found stat object keeps its id, so every later `find` gives the same result |
| `Store.FilterAppend` | frontend/script.js:1496-1498 | filtering a list extended by one element extends the filtered list by that element exactly when it passes |
| `Sorting.Ties` | frontend/script.js:1693-1701 | the elements that compare equal to z, in input order; each of them ties with z |
| `Sorting.Insert` | backend/main.py:248 | insertion adds exactly the one element |
| `Sorting.SortBy` | backend/main.py:248 | sorting is a permutation of its input |
| `Sorting.InsertSorted` | backend/main.py:248 | inserting into a sorted list by a total preorder keeps it sorted |
| `Sorting.SortBySorted` | backend/main.py:248 | the sort's output is ordered by the comparator |
| `Sorting.TiesAppend` | backend/main.py:248 | the ties of a concatenation are the ties of each part, concatenated |
| `Sorting.StrictlyBeforeNoTie` | backend/main.py:248 | an element that must come after y cannot tie with what y ties with |
| `Sorting.InsertTies` | backend/main.py:248 | insertion puts the new element in front of everything it ties with |
| `Sorting.SortByStable` | backend/main.py:248 | sorting keeps the input order of elements that compare equal |
| `Sorting.SortByCorrect` | backend/main.py:248 | sorting by a total preorder gives an ordered permutation in which equal elements keep their input order |
| `League.ValidateWeek` | backend/main.py:201-214 | the week is accepted exactly when it is the string "preseason" or an integer 1..14; otherwise the reply is the 400 error |
| `League.RankLeIsTotalPreorder` | backend/main.py:248 | ordering by rank is total and transitive |
| `League.AccumulateMatch` | backend/main.py:390-422 | the accumulator has exactly the roster ids as keys, and each key holds that player's total over every line of every game, both sides |
| `League.AccumulateLines` | backend/main.py:405-412 | one loop over a side's lines adds each line whose id is a key to that key and skips the others |
| `League.AccumulateLineStep` | backend/main.py:405-412 | one more line adds its counters to its id's entry, if that id is a key, and keeps every other entry the sum of the earlier lines |
| `League.KeyCount` | backend/main.py:447-451 | a map has as many entries as a duplicate-free list of its keys, so `len(accumulator)` counts the distinct roster ids |
| `League.LeagueState.constructor` | backend/main.py:32-35 | the state starts with empty lists and week 1 |
| `League.LeagueState.SetCurrentWeek` | backend/main.py:201-214 | the reply is the validation result. The week changes to the accepted value only on success. Nothing else changes |
| `League.LeagueState.AddPlayer` | backend/main.py:230-242 | a player without an id gets `NextId` (or the call fails and nothing changes). A player posted with an id keeps it. It is appended; nothing else changes |
| `League.LeagueState.ListPlayers` | backend/main.py:245-248 | the players in ascending rank, a permutation of the stored list, equal ranks in stored order |
| `League.LeagueState.UpdatePlayer` | backend/main.py:251-258 | the first player with the id is replaced by the posted one; with no such player the reply is "Player not found" and nothing changes |
| `League.LeagueState.DeletePlayer` | backend/main.py:261-266 | every player with the id is removed; every other player stays, as often as it was there |
| `League.LeagueState.AddTeam` | backend/main.py:269-280 | as `AddPlayer`, for teams |
| `League.LeagueState.UpdateTeam` | backend/main.py:288-295 | as `UpdatePlayer`, for teams |
| `League.LeagueState.DeleteTeam` | backend/main.py:298-303 | as `DeletePlayer`, for teams |
| `League.LeagueState.AddGame` | backend/main.py:306-317 | as `AddPlayer`, for games |
| `League.LeagueState.UpdateGame` | backend/main.py:332-339 | as `UpdatePlayer`, for games |
| `League.LeagueState.DeleteGame` | backend/main.py:342-347 | as `DeletePlayer`, for games |
| `League.LeagueState.TeamSchedule` | backend/main.py:325-329 | exactly the stored games the team plays in, on either side, each as often as stored, in stored order |
| `League.LeagueState.SubmitMatch` | backend/main.py:374-451 | an unknown team id fails with 404, and a winner that is neither team fails with 400; either way no player or team changes. A match is accepted exactly when both teams exist and the winner is one of them. On success: players become `ApplyStats` of the roster, teams become `ApplyResult`, the reply counts the distinct roster ids and 2 teams, and the games and week do not change |
| `League.LeagueState.ApplyMatch` | backend/main.py:389-451 | after validation, the players, the teams and the reply are exactly those of the specification functions |
| `League.LeagueState.RecordResult` | backend/main.py:436-441 | the win/loss update on the two team positions, which may coincide |
| `League.LeagueState.CreditPlayers` | backend/main.py:424-433 | the loop over the accumulator credits each key's totals to the first stored player with that id, and its result is `ApplyStats` |
| `Aggregation.LineSumAppend` | backend/main.py:405-412 | a player's total over two runs of lines is the sum of the totals |
| `Aggregation.MatchSumIsTotalOfAllLines` | backend/main.py:405-422 | the nested per-game, per-side accumulation equals the plain total of all lines of the match with the player's id |
| `Aggregation.MatchSumAppend` | backend/main.py:404-422 | the total over two matches' games is the sum of the two totals |
| `Aggregation.KeepLines` | backend/main.py:407 | only lines whose id is a key are kept |
| `Aggregation.KeepGames` | backend/main.py:416 | removing the lines of unknown ids keeps one record per game |
| `Aggregation.LineSumKeep` | backend/main.py:407 | a roster player's total is the same with or without the lines of other ids |
| `Aggregation.MatchSumKeep` | backend/main.py:416 | the same over a whole match |
| `Aggregation.Dedup` | backend/main.py:393-402 | the accumulator's keys: each roster id once, and no others |
| `Aggregation.NoDuplicatesCard` | backend/main.py:449 | a duplicate-free list has as many elements as its set |
| `Aggregation.DedupRosterCount` | backend/main.py:447-451 | `players_updated` is the number of distinct ids among the six roster slots |
| `Aggregation.ApplyStats` | backend/main.py:424-433 | the player list keeps its length, ids, names and ranks |
| `Aggregation.ApplyStatsStep` | backend/main.py:425-427 | crediting one more key changes just the first player with that id, found on the list already updated |
| `Aggregation.ApplyStatsSameIds` | backend/main.py:393-402 | only which ids the rosters hold matters, not their order or repetition |
| `Aggregation.ApplyStatsEffect` | backend/main.py:424-433 | the first stored player with a roster id gains, on each of the six counters, the total of that counter over all of its lines in the match; every other stored player is unchanged |
| `Aggregation.ApplyStatsUntouched` | backend/main.py:426-427 | a stored player whose id is on neither roster, or who is a later duplicate of a credited id, is unchanged |
| `Aggregation.ApplyStatsIgnoresOtherLines` | backend/main.py:407-416 | stat lines of ids that are on neither roster have no effect |
| `Aggregation.ApplyStatsTwice` | backend/main.py:424-433 | two matches with the same rosters, applied in turn, equal their games applied at once |
| `Aggregation.ApplyStatsTwiceAt` | backend/main.py:424-433 | the same, for the player at one position |
| `Aggregation.ResubmissionDoubles` | backend/main.py:374-451 | resubmitting a match credits every total twice; there is no deduplication |
| `Aggregation.LineSumNonNegative` | backend/main.py:405-412 | non-negative lines give non-negative totals |
| `Aggregation.MatchSumNonNegative` | backend/main.py:404-422 | the same over a whole match |
| `Aggregation.CountersGrowWhenLinesNonNegative` | backend/main.py:428-433 | counters never decrease when no line is negative (the backend does not check it) |
| `Aggregation.IndexOfIdSameIds` | backend/main.py:426 | two player lists with the same ids position by position give the same search results |
| `Aggregation.ApplyResult` | backend/main.py:436-441 | the team list keeps its length |
| `Aggregation.RecordDecision` | backend/main.py:437-441 | the win and loss updates keep the list's length |
| `Aggregation.ApplyResultEffect` | backend/main.py:436-441 | the winner gains one win and the loser one loss. Nothing else in any team changes. When team_a_id equals team_b_id, the one team gains both |
| `Aggregation.TotalDecisionsUpdate` | backend/main.py:436-441 | replacing one team changes the league's total of wins and losses by the difference |
| `Aggregation.RecordDecisionTotal` | backend/main.py:436-441 | one win and one loss add 2 to that total |
| `Aggregation.DecisionsGrowByTwo` | backend/main.py:436-441 | every match adds exactly 2 to the total of wins and losses over all teams |
| `Metrics.PointsPerThrow` | frontend/script.js:1395 | points/throws when throws > 0, else 0 |
| `Metrics.CatchPercentage` | frontend/script.js:1398-1399 | catches/(catches+drops)*100 when catches+drops > 0, else 0 |
| `Metrics.CatchPercentageBounds` | frontend/script.js:1532-1533 | with non-negative counters the catch percentage lies in 0..100 |
| `Metrics.NoDropsIsPerfect` | frontend/script.js:1675 | catches with no drops give 100 percent |
| `Metrics.PointsPerThrowBounds` | frontend/script.js:1529 | with non-negative counters points per throw is at least 0 and at most the points |
| `Metrics.Examples` | frontend/script.js:1674-1675 | 25 points on 10 throws is 2.5; 8 catches and 2 drops is 80 percent; no throws or no attempts give 0 |
| `Rankings.LeaderLeIsTotalPreorder` | frontend/script.js:1693-1701 | each category's comparator is total and transitive |
| `Rankings.Leaderboard` | frontend/script.js:1706-1711 | one row per player; row i has rank i + 1 and the player's value in the category |
| `Rankings.LeaderboardCorrect` | frontend/script.js:1680-1711 | every category ranks all players exactly once. Drops go from fewest to most, every other category from most to fewest. Equal values keep their input order |
| `Rankings.StandingsLeIsTotalPreorder` | frontend/script.js:637-640 | the standings comparator is total and transitive |
| `Rankings.Standings` | frontend/script.js:637-640 | the standings list as many teams as stored |
| `Rankings.StandingsCorrect` | frontend/script.js:636-640 | the standings hold every team once. Wins never increase down the list, and among equal wins losses never decrease. Equal records keep their stored order |
| `Schedule.StrLeTotal` | frontend/script.js:805 | any two date strings compare one way or the other |
| `Schedule.StrLeTrans` | frontend/script.js:805 | the string order is transitive |
| `Schedule.StrLeAntisymmetric` | frontend/script.js:805 | strings that compare equal both ways are equal |
| `Schedule.ScheduleLeIsTotalPreorder` | frontend/script.js:793-806 | the schedule comparator is total and transitive |
| `Schedule.SortedSchedule` | frontend/script.js:793 | the sorted schedule has as many games as the backend returned |
| `Schedule.SortedScheduleCorrect` | frontend/script.js:793-806 | the shown schedule holds the same games. Games without a week (null or 0) come after all others. Weeks ascend, and games of one week ascend by date. Equal games keep their order |
| `Schedule.FirstThisWeek` | frontend/script.js:722-733 | the first game of the current week (`week === currentWeek`) the team plays in, on either side; none exactly when there is no such game |
| `Schedule.ThisWeek` | frontend/script.js:722-743 | no game gives "No game scheduled". Otherwise the game found decides: opponent 0 gives BYE, otherwise "vs" the opponent when the team is team_a and "@" when it is team_b |
| `Schedule.PreseasonHasNoGames` | frontend/script.js:722 | in the preseason no team has a game this week |
| `Schedule.BuildScheduledGame` | frontend/script.js:310-334 | no selected team, or a week that is not a number in 1..14, is refused. Otherwise the game has no id, no date, scores 0-0 and the chosen week. Opponent 0 or "home" puts the team in team_a, otherwise in team_b |
| `Schedule.ScheduledGameShows` | frontend/script.js:326-333 | a scheduled game, once its week is current, shows on the team's card as BYE or as "vs"/"@" the opponent, unless an earlier game of that week involves the team |
| `Schedule.ScheduledGameShowsForOpponent` | frontend/script.js:326-333 | when no earlier game of that week involves the opponent, the opponent's card shows the scheduling team from the other side, wherever the game sits in the schedule |
| `Schedule.WeekForm` | frontend/script.js:372-385 | an empty choice and a week that is not a number in 1..14 are refused; "preseason" is sent as the string, anything else as the parsed number |
| `Schedule.WeekFormAgreesWithBackend` | frontend/script.js:372-397 | the backend accepts everything the form sends, and stores the week the form then shows |
| `MatchForm.FindLine` | frontend/script.js:1981 | the first stat object with the player's id; nothing exactly when no object has it; a NaN id finds nothing |
| `MatchForm.GameInputs` | frontend/script.js:1967-1969 | exactly the inputs of that game number |
| `MatchForm.GameInputsInOrder` | frontend/script.js:1967-1969 | the inputs of one game keep their page order, each as often as on the page |
| `MatchForm.CollectedGames` | frontend/script.js:1966-2003 | one game record per game number 1..numGames, none when numGames is negative |
| `MatchForm.PutDistinct` | frontend/script.js:1981-1994 | an input never adds a second stat object for a player id |
| `MatchForm.PutEffect` | frontend/script.js:1981-1996 | an input creates the player's stat object when it is missing and sets just that stat to the input's value |
| `MatchForm.SideLinesDistinct` | frontend/script.js:1974-1997 | each side's list holds one stat object per player id |
| `MatchForm.SideLinesContent` | frontend/script.js:1974-1997 | a player has a stat object exactly when an input of the side names them. Each counter is the value of the last input for it, or 0 |
| `MatchForm.SideLinesNamed` | frontend/script.js:1974-1997 | a player has a stat object on a side exactly when an input of that side names them |
| `MatchForm.SideLinesValue` | frontend/script.js:1974-1997 | each counter of a player's stat object is the value of the last input for that stat, or 0 |
| `MatchForm.NamedGameInputs` | frontend/script.js:1967-1969 | an input of the game's inputs names a player exactly when an input of that game number does |
| `MatchForm.CollectedGamesCorrect` | frontend/script.js:1966-2003 | game record i holds the inputs of game i + 1: one object per named player per side, each counter the last value entered for it or 0 |
| `MatchForm.CheckFields` | frontend/script.js:1957-1960 | the form refuses exactly when a team, the game count or the winner is NaN or 0 |
| `MatchForm.CollectMatch` | frontend/script.js:1952-2011 | the form is refused exactly when a required field is missing; otherwise the body carries the four fields and the collected games |
| `MatchForm.CollectGame` | frontend/script.js:1974-2002 | the game record is the two side lists the inputs produce |
| `MatchForm.PutStat` | frontend/script.js:1981-1996 | find or push the player's stat object, then set the stat |
| `Grouping.LastTeamIndex` | frontend/script.js:1476-1481 | the last team listing the player in a non-zero slot; none exactly when no team does |
| `Grouping.PlayerTeamMap` | frontend/script.js:1476-1481 | the map sends each player id to the last team that lists it, and holds no other ids |
| `Grouping.FindGroup` | frontend/script.js:1490 | the group with that team id; none exactly when there is no such group |
| `Grouping.GroupPlayers` | frontend/script.js:1484-1500 | unassigned holds exactly the players on no team, in order. Groups have distinct team ids. Each group holds exactly the players of its team id, in order, and its team is its first player's team. Every player on a team has a group |
| `Grouping.OpenGroup` | frontend/script.js:1490-1496 | opening a group for a new team id keeps the grouping invariant |
| `Grouping.OpenGroupContents` | frontend/script.js:1490-1496 | after a new group is opened, every group still holds exactly the players of its team id, in order |
| `Grouping.OpenGroupCovered` | frontend/script.js:1490-1496 | after a new group is opened, every player on a team has a group |
| `Grouping.JoinGroup` | frontend/script.js:1496 | appending to an existing group keeps the grouping invariant |
| `Grouping.JoinGroupContents` | frontend/script.js:1496 | after a player joins its group, every group still holds exactly the players of its team id, in order |
| `Grouping.JoinGroupCovered` | frontend/script.js:1496 | after a player joins its group, every player on a team has a group |
| `Grouping.NotAMember` | frontend/script.js:1497-1499 | a player on no team leaves every group as it was |
| `Grouping.NoEarlierMember` | frontend/script.js:1490 | a team id without a group has no member among the players so far |
| `Grouping.EachPlayerShownOnce` | frontend/script.js:1484-1500 | every player is shown exactly once: unassigned when no team lists them, otherwise in the group of their team's id and in no other |

## Left out

- JSON persistence, zip export, startup loading, HTTP routing, CORS and the decoding of request bodies (backend/main.py:38-152, 217-227) are not modelled. Each endpoint takes the decoded request as a parameter. `set_current_week` takes the body already split into an integer or a string.
- `list_teams`, `list_games` and `get_current_week` return the stored value unchanged; they are not modelled separately.
- DOM building, `fetch`, promises, event listeners, modal handling and the localStorage password gate of frontend/script.js are not modelled. The pure rules are lifted out of them.
- `parseInt` is not modelled. Each parsed field is a parameter of type `Option<int>`, and None stands for NaN.
- The match form's `data-stat` attribute is one of the six stat names (the form renders only those). An input's side is its `data-team` letter: "a" is team_a, anything else team_b.
- Schedule.BuildScheduledGame: the opponent select is taken to hold a number; a NaN opponent (sent as `null`, which the backend refuses) is not modelled.
- `toFixed`, `toLocaleDateString` and `localeCompare` are not modelled. Dates compare in plain code-unit order, which agrees with `localeCompare` on ISO dates. The sorts by name (`displayStats`, `displaySchedule`, the team list) are not modelled, because they depend on locale collation.
- JavaScript floating point is not modelled: the metrics are exact rationals. The leaderboard compares them exactly, so rounding ties are not reproduced.
- The backend does not check the game count against the number of games, and it does not reject negative counters or stat lines of unknown players. The model follows the code, so it has none of these checks either. Instead, `Aggregation.CountersGrowWhenLinesNonNegative` states when counters only grow, and `Aggregation.ApplyStatsIgnoresOtherLines` states that lines of non-roster ids are dropped.
- Only the six roster ids are credited, not every id that appears in a stat line. A roster id without a stored player is skipped.
- `(x or 0)` and `x || 0` defaults of absent counters are not modelled: every counter is an integer.
- Concurrency is not modelled. The server runs the plain `def` endpoints (backend/main.py:230-451) in a thread pool, so two requests can interleave. Two concurrent `add_*` calls could compute the same `max(...) + 1`, and concurrent `submit_match` calls could lose `+=` updates. The model takes every endpoint as one atomic step, as it is with one commissioner editing at a time. `Store.NextId` gives an id that differs from every stored id only under that assumption.
