/** The backend of backend/main.py: the in-memory lists `players`, `teams`,
    `games` and `current_week`, and the endpoints that change them. JSON
    persistence, HTTP routing and CORS are not modelled; each endpoint is a
    method whose error replies are `Err` values. */
module League {
  import opened Wrappers
  import opened Entities
  import Store
  import Sorting
  import opened Aggregation

  /** The error replies. `IdTypeError` is the TypeError Python raises in
      `add_*` when a stored id is `None` (HTTP 500); `TeamsNotFound` and
      `WinnerNotInMatch` are the 404 and 400 of `submit_match`;
      `InvalidWeek` is the 400 of `set_current_week`; the `*NotFound`
      replies of `update_*` are `{"error": ...}` bodies. */
  datatype ApiError =
    | IdTypeError
    | TeamsNotFound
    | WinnerNotInMatch
    | InvalidWeek
    | PlayerNotFound
    | TeamNotFound
    | GameNotFound

  /** The reply of `submit_match`. */
  datatype MatchReply = MatchReply(playersUpdated: nat, teamsUpdated: nat)

  /** The body of `PUT /current-week`: `Union[int, str]`. */
  datatype WeekValue = IntWeek(n: int) | StrWeek(s: string)

  /** The check of `set_current_week`: `"preseason"` or a week 1..14. */
  function ValidateWeek(v: WeekValue): (r: Result<CurrentWeek, ApiError>)
    ensures r.Ok? <==> v == StrWeek("preseason") || (v.IntWeek? && 1 <= v.n <= 14)
    ensures r.Ok? && v.StrWeek? ==> r.value == Preseason
    ensures r.Ok? && v.IntWeek? ==> r.value == Week(v.n)
    ensures r.Err? ==> r.error == InvalidWeek
  {
    match v
    case StrWeek(s) => if s != "preseason" then Err(InvalidWeek) else Ok(Preseason)
    case IntWeek(n) => if n < 1 || n > 14 then Err(InvalidWeek) else Ok(Week(n))
  }

  /** `sorted(players, key=lambda p: p.rank)`. */
  function RankLe(a: Player, b: Player): bool
  {
    a.rank <= b.rank
  }

  lemma RankLeIsTotalPreorder()
    ensures Sorting.IsTotalPreorder(RankLe)
  {
  }

  /** A game the team plays in, on either side. */
  predicate Involves(g: Game, teamId: int)
  {
    g.teamAId == teamId || g.teamBId == teamId
  }

  /** The accumulator of `submit_match` (backend/main.py:390-422): one
      entry per roster id, holding that player's totals over every line of
      every game; lines of other ids are skipped. */
  method AccumulateMatch(roster: seq<int>, games: seq<GameStats>) returns (acc: map<int, Stats>)
    ensures forall id :: id in acc <==> id in roster
    ensures forall id :: id in acc ==> acc[id] == MatchSum(games, id)
  {
    acc := map[];
    for i := 0 to |roster|
      invariant forall id :: id in acc <==> id in roster[..i]
      invariant forall id :: id in acc ==> acc[id] == Zero
    {
      assert roster[..i + 1] == roster[..i] + [roster[i]];
      acc := acc[roster[i] := Zero];
    }
    assert roster[..|roster|] == roster;
    for gi := 0 to |games|
      invariant forall id :: id in acc <==> id in roster
      invariant forall id :: id in acc ==> acc[id] == MatchSum(games[..gi], id)
    {
      var game := games[gi];
      var afterA := AccumulateLines(acc, game.teamAPlayers);
      var afterB := AccumulateLines(afterA, game.teamBPlayers);
      assert games[..gi + 1][..gi] == games[..gi];
      forall id | id in acc
        ensures afterB[id] == MatchSum(games[..gi + 1], id)
      {
        AddAssoc(acc[id], LineSum(game.teamAPlayers, id), LineSum(game.teamBPlayers, id));
      }
      acc := afterB;
    }
    assert games[..|games|] == games;
  }

  /** One `for player_stats in ...` loop: each line whose id is a key adds
      its counters to that key's entry. */
  method AccumulateLines(acc0: map<int, Stats>, lines: seq<StatLine>) returns (acc: map<int, Stats>)
    ensures acc.Keys == acc0.Keys
    ensures forall id :: id in acc ==> acc[id] == Add(acc0[id], LineSum(lines, id))
  {
    acc := acc0;
    for li := 0 to |lines|
      invariant acc.Keys == acc0.Keys
      invariant forall id :: id in acc ==> acc[id] == Add(acc0[id], LineSum(lines[..li], id))
    {
      var line := lines[li];
      ghost var prev := acc;
      if line.playerId in acc {
        acc := acc[line.playerId := Add(acc[line.playerId], line.stats)];
      }
      AccumulateLineStep(acc0, lines, li, prev, acc);
    }
    assert lines[..|lines|] == lines;
  }

  /** Adding line li to the entry of its id, if that id is a key, extends
      every entry's sum by that line. */
  lemma AccumulateLineStep(acc0: map<int, Stats>, lines: seq<StatLine>, li: nat,
                           prev: map<int, Stats>, acc: map<int, Stats>)
    requires li < |lines|
    requires prev.Keys == acc0.Keys
    requires forall id :: id in prev ==> prev[id] == Add(acc0[id], LineSum(lines[..li], id))
    requires acc == if lines[li].playerId in prev
                    then prev[lines[li].playerId := Add(prev[lines[li].playerId], lines[li].stats)]
                    else prev
    ensures acc.Keys == acc0.Keys
    ensures forall id :: id in acc ==> acc[id] == Add(acc0[id], LineSum(lines[..li + 1], id))
  {
    var line := lines[li];
    assert lines[..li + 1][..li] == lines[..li];
    forall id | id in acc
      ensures acc[id] == Add(acc0[id], LineSum(lines[..li + 1], id))
    {
      AddAssoc(acc0[id], LineSum(lines[..li], id), if line.playerId == id then line.stats else Zero);
      AddZero(prev[id]);
    }
  }

  /** A map has as many entries as a duplicate-free list of its keys. */
  lemma KeyCount(acc: map<int, Stats>, keys: seq<int>)
    requires NoDuplicates(keys)
    requires forall x :: x in acc <==> x in keys
    ensures |acc| == |keys|
  {
    NoDuplicatesCard(keys);
    assert forall x :: x in acc.Keys <==> x in (set y | y in keys);
    assert acc.Keys == set y | y in keys;
  }

  class LeagueState {
    var players: seq<Player>
    var teams: seq<Team>
    var games: seq<Game>
    var currentWeek: CurrentWeek

    /** The state before any data is loaded: empty lists, week 1. */
    constructor ()
      ensures players == [] && teams == [] && games == [] && currentWeek == Week(1)
    {
      players, teams, games := [], [], [];
      currentWeek := Week(1);
    }

    // -------------------------------------------------------------------
    // Current week

    method SetCurrentWeek(v: WeekValue) returns (r: Result<CurrentWeek, ApiError>)
      modifies this
      ensures r == ValidateWeek(v)
      ensures currentWeek == (if r.Ok? then r.value else old(currentWeek))
      ensures players == old(players) && teams == old(teams) && games == old(games)
    {
      match v
      case StrWeek(s) =>
        if s != "preseason" {
          return Err(InvalidWeek);
        }
        currentWeek := Preseason;
        r := Ok(currentWeek);
      case IntWeek(n) =>
        if n < 1 || n > 14 {
          return Err(InvalidWeek);
        }
        currentWeek := Week(n);
        r := Ok(currentWeek);
    }

    // -------------------------------------------------------------------
    // Players

    method AddPlayer(p: Player) returns (r: Result<Player, ApiError>)
      modifies this
      ensures p.id.Some? ==> r == Ok(p)
      ensures p.id.None? ==>
        match Store.NextId(old(players), PlayerId)
        case Ok(n) => r == Ok(p.(id := Some(n)))
        case Err(_) => r == Err(IdTypeError)
      ensures p.id.None? && r.Ok? ==>
        forall i :: 0 <= i < |old(players)| ==> old(players)[i].id != r.value.id
      ensures players == (if r.Ok? then old(players) + [r.value] else old(players))
      ensures teams == old(teams) && games == old(games) && currentWeek == old(currentWeek)
    {
      var q := p;
      if p.id.None? {
        var next := Store.NextId(players, PlayerId);
        if next.Err? {
          return Err(IdTypeError);
        }
        q := p.(id := Some(next.value));
      }
      players := players + [q];
      r := Ok(q);
    }

    /** `GET /players`: the players in ascending rank; equal ranks keep
        their stored order. */
    function ListPlayers(): (r: seq<Player>)
      reads this
      ensures Sorting.SortedBy(r, RankLe)
      ensures multiset(r) == multiset(players)
      ensures forall z :: Sorting.Ties(r, z, RankLe) == Sorting.Ties(players, z, RankLe)
    {
      RankLeIsTotalPreorder();
      Sorting.SortByCorrect(players, RankLe);
      Sorting.SortBy(players, RankLe)
    }

    method UpdatePlayer(id: int, p: Player) returns (r: Result<Player, ApiError>)
      modifies this
      ensures var k := Store.IndexOfId(old(players), PlayerId, id);
              && (k.None? ==> r == Err(PlayerNotFound) && players == old(players))
              && (k.Some? ==> r == Ok(p) && players == old(players)[k.value := p])
      ensures teams == old(teams) && games == old(games) && currentWeek == old(currentWeek)
    {
      var i := 0;
      while i < |players|
        invariant 0 <= i <= |players| && players == old(players)
        invariant forall j :: 0 <= j < i ==> players[j].id != Some(id)
      {
        if players[i].id == Some(id) {
          players := players[i := p];
          return Ok(p);
        }
        i := i + 1;
      }
      r := Err(PlayerNotFound);
    }

    method DeletePlayer(id: int)
      modifies this
      ensures players == Store.WithoutId(old(players), PlayerId, id)
      ensures teams == old(teams) && games == old(games) && currentWeek == old(currentWeek)
    {
      players := Store.WithoutId(players, PlayerId, id);
    }

    // -------------------------------------------------------------------
    // Teams

    method AddTeam(t: Team) returns (r: Result<Team, ApiError>)
      modifies this
      ensures t.id.Some? ==> r == Ok(t)
      ensures t.id.None? ==>
        match Store.NextId(old(teams), TeamId)
        case Ok(n) => r == Ok(t.(id := Some(n)))
        case Err(_) => r == Err(IdTypeError)
      ensures t.id.None? && r.Ok? ==>
        forall i :: 0 <= i < |old(teams)| ==> old(teams)[i].id != r.value.id
      ensures teams == (if r.Ok? then old(teams) + [r.value] else old(teams))
      ensures players == old(players) && games == old(games) && currentWeek == old(currentWeek)
    {
      var q := t;
      if t.id.None? {
        var next := Store.NextId(teams, TeamId);
        if next.Err? {
          return Err(IdTypeError);
        }
        q := t.(id := Some(next.value));
      }
      teams := teams + [q];
      r := Ok(q);
    }

    method UpdateTeam(id: int, t: Team) returns (r: Result<Team, ApiError>)
      modifies this
      ensures var k := Store.IndexOfId(old(teams), TeamId, id);
              && (k.None? ==> r == Err(TeamNotFound) && teams == old(teams))
              && (k.Some? ==> r == Ok(t) && teams == old(teams)[k.value := t])
      ensures players == old(players) && games == old(games) && currentWeek == old(currentWeek)
    {
      var i := 0;
      while i < |teams|
        invariant 0 <= i <= |teams| && teams == old(teams)
        invariant forall j :: 0 <= j < i ==> teams[j].id != Some(id)
      {
        if teams[i].id == Some(id) {
          teams := teams[i := t];
          return Ok(t);
        }
        i := i + 1;
      }
      r := Err(TeamNotFound);
    }

    method DeleteTeam(id: int)
      modifies this
      ensures teams == Store.WithoutId(old(teams), TeamId, id)
      ensures players == old(players) && games == old(games) && currentWeek == old(currentWeek)
    {
      teams := Store.WithoutId(teams, TeamId, id);
    }

    // -------------------------------------------------------------------
    // Games

    method AddGame(g: Game) returns (r: Result<Game, ApiError>)
      modifies this
      ensures g.id.Some? ==> r == Ok(g)
      ensures g.id.None? ==>
        match Store.NextId(old(games), GameId)
        case Ok(n) => r == Ok(g.(id := Some(n)))
        case Err(_) => r == Err(IdTypeError)
      ensures g.id.None? && r.Ok? ==>
        forall i :: 0 <= i < |old(games)| ==> old(games)[i].id != r.value.id
      ensures games == (if r.Ok? then old(games) + [r.value] else old(games))
      ensures players == old(players) && teams == old(teams) && currentWeek == old(currentWeek)
    {
      var q := g;
      if g.id.None? {
        var next := Store.NextId(games, GameId);
        if next.Err? {
          return Err(IdTypeError);
        }
        q := g.(id := Some(next.value));
      }
      games := games + [q];
      r := Ok(q);
    }

    method UpdateGame(id: int, g: Game) returns (r: Result<Game, ApiError>)
      modifies this
      ensures var k := Store.IndexOfId(old(games), GameId, id);
              && (k.None? ==> r == Err(GameNotFound) && games == old(games))
              && (k.Some? ==> r == Ok(g) && games == old(games)[k.value := g])
      ensures players == old(players) && teams == old(teams) && currentWeek == old(currentWeek)
    {
      var i := 0;
      while i < |games|
        invariant 0 <= i <= |games| && games == old(games)
        invariant forall j :: 0 <= j < i ==> games[j].id != Some(id)
      {
        if games[i].id == Some(id) {
          games := games[i := g];
          return Ok(g);
        }
        i := i + 1;
      }
      r := Err(GameNotFound);
    }

    method DeleteGame(id: int)
      modifies this
      ensures games == Store.WithoutId(old(games), GameId, id)
      ensures players == old(players) && teams == old(teams) && currentWeek == old(currentWeek)
    {
      games := Store.WithoutId(games, GameId, id);
    }

    /** `GET /teams/{team_id}/schedule`: the stored games the team plays
        in, on either side, in stored order. */
    function TeamSchedule(teamId: int): (r: seq<Game>)
      reads this
      ensures forall i :: 0 <= i < |r| ==> Involves(r[i], teamId)
      ensures forall g :: g in games && Involves(g, teamId) ==> g in r
      ensures forall g :: multiset(r)[g] == if Involves(g, teamId) then multiset(games)[g] else 0
      ensures Store.Subsequence(r, games)
    {
      var keep := (g: Game) => Involves(g, teamId);
      Store.FilterCorrect(games, keep);
      Store.FilterInOrder(games, keep);
      Store.Filter(games, keep)
    }

    // -------------------------------------------------------------------
    // Match submission

    /** `POST /matches`. Both teams must exist and the winner must be one
        of them, or nothing changes. Otherwise the first stored player
        with each roster id gains its totals over all stat lines of the
        match (lines of other players are dropped), the winner gains a
        win and the loser a loss. The game count is not checked, nor are
        negative counters. */
    method SubmitMatch(m: MatchSubmission) returns (r: Result<MatchReply, ApiError>)
      modifies this
      ensures var ia := Store.IndexOfId(old(teams), TeamId, m.teamAId);
              var ib := Store.IndexOfId(old(teams), TeamId, m.teamBId);
              && (ia.None? || ib.None? ==> r == Err(TeamsNotFound))
              && ((ia.Some? && ib.Some? && m.winnerId != m.teamAId && m.winnerId != m.teamBId)
                    ==> r == Err(WinnerNotInMatch))
              && (r.Ok? <==> ia.Some? && ib.Some? && (m.winnerId == m.teamAId || m.winnerId == m.teamBId))
              && (r.Ok? ==>
                    && ia.Some? && ib.Some?
                    && var ta := old(teams)[ia.value];
                       var tb := old(teams)[ib.value];
                       && r.value == MatchReply(|Dedup(Roster(ta, tb))|, 2)
                       && players == ApplyStats(old(players), Roster(ta, tb), m.games)
                       && teams == ApplyResult(old(teams), ia.value, ib.value, m.winnerId == m.teamAId))
      ensures r.Err? ==> players == old(players) && teams == old(teams)
      ensures games == old(games) && currentWeek == old(currentWeek)
    {
      var ia := Store.IndexOfId(teams, TeamId, m.teamAId);
      var ib := Store.IndexOfId(teams, TeamId, m.teamBId);
      if ia.None? || ib.None? {
        return Err(TeamsNotFound);
      }
      if m.winnerId != m.teamAId && m.winnerId != m.teamBId {
        return Err(WinnerNotInMatch);
      }
      r := ApplyMatch(m, ia.value, ib.value);
    }

    /** The part of `submit_match` after validation (backend/main.py:389-451),
        on the teams at positions ai (team_a) and bi (team_b). */
    method ApplyMatch(m: MatchSubmission, ai: nat, bi: nat) returns (r: Result<MatchReply, ApiError>)
      requires ai < |teams| && bi < |teams|
      modifies this`players, this`teams
      ensures var ta := old(teams)[ai];
              var tb := old(teams)[bi];
              && r == Ok(MatchReply(|Dedup(Roster(ta, tb))|, 2))
              && players == ApplyStats(old(players), Roster(ta, tb), m.games)
              && teams == ApplyResult(old(teams), ai, bi, m.winnerId == m.teamAId)
    {
      var teamA, teamB := teams[ai], teams[bi];
      var roster := Roster(teamA, teamB);
      var acc := AccumulateMatch(roster, m.games);

      // add the totals to the stored players, in the accumulator's key order
      var keys := Dedup(roster);
      CreditPlayers(keys, acc, m.games);
      ApplyStatsSameIds(old(players), keys, roster, m.games);

      RecordResult(ai, bi, m.winnerId == m.teamAId);
      KeyCount(acc, keys);
      r := Ok(MatchReply(|acc|, 2));
    }

    /** The win/loss update (backend/main.py:436-441); team_a and team_b
        may be one and the same team. */
    method RecordResult(ai: nat, bi: nat, teamAWins: bool)
      requires ai < |teams| && bi < |teams|
      modifies this`teams
      ensures teams == ApplyResult(old(teams), ai, bi, teamAWins)
    {
      if teamAWins {
        teams := teams[ai := WithWin(teams[ai])];
        teams := teams[bi := WithLoss(teams[bi])];
      } else {
        teams := teams[bi := WithWin(teams[bi])];
        teams := teams[ai := WithLoss(teams[ai])];
      }
    }

    /** `for player_id, stats in acc.items()`: the first stored player with
        each key gains that key's totals; a key without a stored player is
        skipped. */
    method CreditPlayers(keys: seq<int>, acc: map<int, Stats>, matchGames: seq<GameStats>)
      requires NoDuplicates(keys)
      requires forall id :: id in keys ==> id in acc && acc[id] == MatchSum(matchGames, id)
      modifies this`players
      ensures players == ApplyStats(old(players), keys, matchGames)
    {
      for ki := 0 to |keys|
        invariant players == ApplyStats(old(players), keys[..ki], matchGames)
      {
        var pid := keys[ki];
        assert keys[..ki + 1] == keys[..ki] + [pid];
        ApplyStatsStep(old(players), keys[..ki], pid, matchGames);
        var k := Store.IndexOfId(players, PlayerId, pid);
        if k.Some? {
          players := players[k.value := Credit(players[k.value], acc[pid])];
        }
      }
      assert keys[..|keys|] == keys;
    }
  }
}
