/** The records of backend/main.py (`Player`, `Team`, `Game`,
    `GamePlayerStats`, `GameStats`, `MatchSubmission`) as values. The six
    counters that a player accumulates and that a stat line carries are
    grouped in `Stats`. */
module Entities {
  import opened Wrappers

  /** The six raw counters. Python ints: unbounded, and negative values are
      not rejected anywhere in the backend. */
  datatype Stats = Stats(points: int, tableHits: int, throws: int,
                         catches: int, drops: int, fifas: int)

  /** The names under which the counters travel (`data-stat` in the match
      form, the keys of the accumulator in `submit_match`). */
  datatype StatField = Points | TableHits | Throws | Catches | Drops | Fifas

  const Zero := Stats(0, 0, 0, 0, 0, 0)

  function Add(a: Stats, b: Stats): Stats
  {
    Stats(a.points + b.points, a.tableHits + b.tableHits, a.throws + b.throws,
          a.catches + b.catches, a.drops + b.drops, a.fifas + b.fifas)
  }

  function Get(s: Stats, f: StatField): int
  {
    match f
    case Points => s.points
    case TableHits => s.tableHits
    case Throws => s.throws
    case Catches => s.catches
    case Drops => s.drops
    case Fifas => s.fifas
  }

  /** `obj[stat] = value` on a stat object. */
  function Set(s: Stats, f: StatField, v: int): (r: Stats)
    ensures Get(r, f) == v
    ensures forall g :: g != f ==> Get(r, g) == Get(s, g)
  {
    match f
    case Points => s.(points := v)
    case TableHits => s.(tableHits := v)
    case Throws => s.(throws := v)
    case Catches => s.(catches := v)
    case Drops => s.(drops := v)
    case Fifas => s.(fifas := v)
  }

  lemma AddZero(a: Stats)
    ensures Add(a, Zero) == a && Add(Zero, a) == a
  {
  }

  lemma AddAssoc(a: Stats, b: Stats, c: Stats)
    ensures Add(Add(a, b), c) == Add(a, Add(b, c))
  {
  }

  /** Counter-wise addition: every field of the sum is the sum of the fields. */
  lemma AddFieldwise(a: Stats, b: Stats)
    ensures forall f :: Get(Add(a, b), f) == Get(a, f) + Get(b, f)
  {
    forall f ensures Get(Add(a, b), f) == Get(a, f) + Get(b, f) {
      match f
      case Points =>
      case TableHits =>
      case Throws =>
      case Catches =>
      case Drops =>
      case Fifas =>
    }
  }

  /** `Player`: the counters default to 0 on creation. */
  datatype Player = Player(id: Option<int>, name: string, rank: int, stats: Stats)

  /** `Team`: three player ids by reference, and a win/loss record. */
  datatype Team = Team(id: Option<int>, name: string,
                       player1Id: int, player2Id: int, player3Id: int,
                       wins: int, losses: int)

  /** `Game`: team_b_id (or team_a_id) 0 stands for a bye. */
  datatype Game = Game(id: Option<int>, teamAId: int, teamBId: int,
                       scoreA: int, scoreB: int,
                       date: Option<string>, week: Option<int>)

  /** `GamePlayerStats`: one stat line of one player in one game. */
  datatype StatLine = StatLine(playerId: int, stats: Stats)

  /** `GameStats`: the stat lines of both sides of one game. */
  datatype GameStats = GameStats(teamAPlayers: seq<StatLine>, teamBPlayers: seq<StatLine>)

  /** `MatchSubmission`. */
  datatype MatchSubmission = MatchSubmission(teamAId: int, teamBId: int, numGames: int,
                                             games: seq<GameStats>, winnerId: int)

  /** The league's current week: `"preseason"` or a week number. */
  datatype CurrentWeek = Preseason | Week(n: int)

  function PlayerId(p: Player): Option<int> { p.id }
  function TeamId(t: Team): Option<int> { t.id }
  function GameId(g: Game): Option<int> { g.id }
}
