/** The two rankings of frontend/script.js: the league leaders of
    `displayLeaders`, one ranking per stat category, and the standings of
    `displayStandings`. Both sort a copy with a comparator; the sort is
    the stable sort of module Sorting. */
module Rankings {
  import opened Entities
  import opened Metrics
  import opened Sorting

  /** The eight leader categories, in display order. */
  datatype Category =
    | PointsCat | TableHitsCat | ThrowsCat | CatchesCat | DropsCat | FifasCat
    | PointsPerThrowCat | CatchPercentageCat

  /** The `reverse` flag: only drops is a stat where less is better. */
  predicate Reverse(c: Category)
  {
    c == DropsCat
  }

  /** `player[category.valueKey]`, the raw counters and the two derived
      metrics computed for the leaders view. */
  function Value(p: Player, c: Category): real
  {
    match c
    case PointsCat => p.stats.points as real
    case TableHitsCat => p.stats.tableHits as real
    case ThrowsCat => p.stats.throws as real
    case CatchesCat => p.stats.catches as real
    case DropsCat => p.stats.drops as real
    case FifasCat => p.stats.fifas as real
    case PointsPerThrowCat => PointsPerThrow(p.stats)
    case CatchPercentageCat => CatchPercentage(p.stats)
  }

  /** The leaders comparator returns a value <= 0: ascending by value for
      a reverse category, descending otherwise. */
  function LeaderLe(c: Category): (Player, Player) -> bool
  {
    (a: Player, b: Player) =>
      if Reverse(c) then Value(a, c) - Value(b, c) <= 0.0
      else Value(b, c) - Value(a, c) <= 0.0
  }

  lemma LeaderLeIsTotalPreorder(c: Category)
    ensures IsTotalPreorder(LeaderLe(c))
  {
  }

  /** One line of a leader card: the 1-based rank, the player, the value. */
  datatype LeaderRow = LeaderRow(rank: nat, player: Player, value: real)

  /** The rows of one category card: every player, ranked by position. */
  function Leaderboard(players: seq<Player>, c: Category): (r: seq<LeaderRow>)
    ensures |r| == |players|
    ensures forall i :: 0 <= i < |r| ==> r[i].rank == i + 1
    ensures forall i :: 0 <= i < |r| ==> r[i].value == Value(r[i].player, c)
  {
    var sorted := SortBy(players, LeaderLe(c));
    seq(|sorted|, i requires 0 <= i < |sorted| => LeaderRow(i + 1, sorted[i], Value(sorted[i], c)))
  }

  /** The players of a leaderboard, in rank order. */
  function RankedPlayers(rows: seq<LeaderRow>): seq<Player>
  {
    seq(|rows|, i requires 0 <= i < |rows| => rows[i].player)
  }

  /** Each category card lists every player exactly once; drops go from
      fewest to most, every other category from most to fewest; players
      with equal values keep the order in which they arrived. */
  lemma LeaderboardCorrect(players: seq<Player>, c: Category)
    ensures multiset(RankedPlayers(Leaderboard(players, c))) == multiset(players)
    ensures var r := Leaderboard(players, c);
            forall i, j :: 0 <= i < j < |r| ==>
              if Reverse(c) then r[i].value <= r[j].value else r[i].value >= r[j].value
    ensures forall z :: Ties(RankedPlayers(Leaderboard(players, c)), z, LeaderLe(c))
                     == Ties(players, z, LeaderLe(c))
  {
    LeaderLeIsTotalPreorder(c);
    SortByCorrect(players, LeaderLe(c));
    var sorted := SortBy(players, LeaderLe(c));
    assert RankedPlayers(Leaderboard(players, c)) == sorted;
  }

  /** The standings comparator: more wins first, then fewer losses. */
  predicate StandingsLe(a: Team, b: Team)
  {
    if b.wins != a.wins then b.wins - a.wins <= 0 else a.losses - b.losses <= 0
  }

  lemma StandingsLeIsTotalPreorder()
    ensures IsTotalPreorder(StandingsLe)
  {
  }

  function Standings(teams: seq<Team>): (r: seq<Team>)
    ensures |r| == |teams|
  {
    SortBy(teams, StandingsLe)
  }

  /** The standings list every team once, wins never increase down the
      list, and among equal wins losses never decrease; teams with the
      same record keep their stored order. */
  lemma StandingsCorrect(teams: seq<Team>)
    ensures multiset(Standings(teams)) == multiset(teams)
    ensures var r := Standings(teams);
            forall i, j :: 0 <= i < j < |r| ==>
              r[i].wins > r[j].wins || (r[i].wins == r[j].wins && r[i].losses <= r[j].losses)
    ensures forall z :: Ties(Standings(teams), z, StandingsLe) == Ties(teams, z, StandingsLe)
  {
    StandingsLeIsTotalPreorder();
    SortByCorrect(teams, StandingsLe);
  }
}
