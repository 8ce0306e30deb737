/** The "Add Match" form of frontend/script.js: the required-field check
    and the loop that turns the stat inputs into the games of a match
    submission. `parseInt` is given as the caller's parse of each field
    (None for NaN); the DOM queries are the sequence of inputs, in
    document order. */
module MatchForm {
  import opened Wrappers
  import opened Entities
  import Store

  /** One `<input data-game data-team data-player data-stat>`: the parsed
      game number, the team letter, the parsed player id, the stat name
      and the parsed value. */
  datatype StatInput = StatInput(game: Option<int>, teamLetter: string,
                                 player: Option<int>, stat: StatField, value: Option<int>)

  /** A stat object of `teamAPlayers`/`teamBPlayers`; a NaN player id is
      None. */
  datatype FormLine = FormLine(playerId: Option<int>, stats: Stats)

  datatype FormGame = FormGame(teamAPlayers: seq<FormLine>, teamBPlayers: seq<FormLine>)

  /** The body the form posts to `/matches`. */
  datatype FormMatch = FormMatch(teamAId: int, teamBId: int, numGames: int,
                                 games: seq<FormGame>, winnerId: int)

  datatype FormError = MissingField

  /** A parsed field is truthy unless it is NaN or 0. */
  predicate Truthy(x: Option<int>)
  {
    x.Some? && x.value != 0
  }

  /** `parseInt(input.value) || 0`. */
  function InputValue(x: StatInput): int
  {
    if Truthy(x.value) then x.value.value else 0
  }

  predicate OnSide(x: StatInput, sideA: bool)
  {
    (x.teamLetter == "a") == sideA
  }

  function LineId(l: FormLine): Option<int> { l.playerId }

  /** `playerStats.find(p => p.player_id === playerId)`: NaN equals
      nothing, not even NaN. */
  function FindLine(lines: seq<FormLine>, pid: Option<int>): (r: Option<nat>)
    ensures r.Some? ==> pid.Some? && r.value < |lines| && lines[r.value].playerId == pid
    ensures r.Some? ==> forall j :: 0 <= j < r.value ==> lines[j].playerId != pid
    ensures pid.None? ==> r.None?
    ensures pid.Some? ==> (r.None? <==> forall j :: 0 <= j < |lines| ==> lines[j].playerId != pid)
  {
    if pid.None? then None else Store.IndexOfId(lines, LineId, pid.value)
  }

  /** One input applied to its side's list: the player's object, created
      with zero counters when it is not found, gets the stat's value. */
  function Put(lines: seq<FormLine>, x: StatInput): seq<FormLine>
  {
    var k := FindLine(lines, x.player);
    if k.None? then lines + [FormLine(x.player, Set(Zero, x.stat, InputValue(x)))]
    else lines[k.value := FormLine(lines[k.value].playerId, Set(lines[k.value].stats, x.stat, InputValue(x)))]
  }

  /** The list of one side after the inputs of one game, in order. */
  function SideLines(xs: seq<StatInput>, sideA: bool): seq<FormLine>
  {
    if xs == [] then []
    else
      var prev := SideLines(xs[..|xs| - 1], sideA);
      var x := xs[|xs| - 1];
      if OnSide(x, sideA) then Put(prev, x) else prev
  }

  /** `allInputs.filter(input => parseInt(data-game) === gameNum)`. */
  function GameInputs(inputs: seq<StatInput>, gameNum: int): (r: seq<StatInput>)
    ensures forall x :: x in r <==> x in inputs && x.game == Some(gameNum)
  {
    var keep := (x: StatInput) => x.game == Some(gameNum);
    Store.FilterCorrect(inputs, keep);
    Store.Filter(inputs, keep)
  }

  /** The inputs of one game keep their page order and their number. */
  lemma GameInputsInOrder(inputs: seq<StatInput>, gameNum: int)
    ensures var r := GameInputs(inputs, gameNum);
            && Store.Subsequence(r, inputs)
            && forall x :: multiset(r)[x] == if x.game == Some(gameNum) then multiset(inputs)[x] else 0
  {
    var keep := (x: StatInput) => x.game == Some(gameNum);
    Store.FilterCorrect(inputs, keep);
    Store.FilterInOrder(inputs, keep);
  }

  /** The games of the submission: game numbers 1..numGames. */
  function CollectedGames(inputs: seq<StatInput>, numGames: int): (r: seq<FormGame>)
    ensures |r| == if numGames > 0 then numGames else 0
  {
    var n := if numGames > 0 then numGames else 0;
    seq(n, i requires 0 <= i < n =>
      var xs := GameInputs(inputs, i + 1);
      FormGame(SideLines(xs, true), SideLines(xs, false)))
  }

  // ---------------------------------------------------------------------
  // Reference definitions and properties

  /** The counter value a player's stat ends with: the value of the last
      input for that player, side and stat, or 0 when there is none. */
  function LastValue(xs: seq<StatInput>, sideA: bool, pid: int, f: StatField): int
  {
    if xs == [] then 0
    else
      var x := xs[|xs| - 1];
      if OnSide(x, sideA) && x.player == Some(pid) && x.stat == f then InputValue(x)
      else LastValue(xs[..|xs| - 1], sideA, pid, f)
  }

  /** Some input of the side names the player. */
  predicate Named(xs: seq<StatInput>, sideA: bool, pid: int)
  {
    exists i :: 0 <= i < |xs| && OnSide(xs[i], sideA) && xs[i].player == Some(pid)
  }

  /** Each player id appears on at most one line. */
  predicate DistinctIds(lines: seq<FormLine>)
  {
    forall i, j :: 0 <= i < j < |lines| && lines[i].playerId.Some? ==> lines[i].playerId != lines[j].playerId
  }

  /** The counters of the player's line, 0 when it has none. */
  function LineStat(lines: seq<FormLine>, pid: int, f: StatField): int
  {
    var k := FindLine(lines, Some(pid));
    if k.None? then 0 else Get(lines[k.value].stats, f)
  }

  lemma PutDistinct(lines: seq<FormLine>, x: StatInput)
    requires DistinctIds(lines)
    ensures DistinctIds(Put(lines, x))
  {
    var k := FindLine(lines, x.player);
    if k.None? && x.player.Some? {
      assert forall j :: 0 <= j < |lines| ==> lines[j].playerId != x.player;
    }
  }

  /** What one input does to the line of player pid. */
  lemma PutEffect(lines: seq<FormLine>, x: StatInput, pid: int, f: StatField)
    ensures FindLine(Put(lines, x), Some(pid)).Some?
        <==> FindLine(lines, Some(pid)).Some? || x.player == Some(pid)
    ensures LineStat(Put(lines, x), pid, f)
         == if x.player == Some(pid) && x.stat == f then InputValue(x) else LineStat(lines, pid, f)
  {
    var k := FindLine(lines, x.player);
    var p := Put(lines, x);
    if k.None? {
      var y := FormLine(x.player, Set(Zero, x.stat, InputValue(x)));
      Store.IndexOfIdAppend(lines, LineId, pid, y);
      if x.player == Some(pid) {
        assert Store.IndexOfId(p, LineId, pid) == Some(|lines|);
        assert Get(y.stats, f) == if x.stat == f then InputValue(x) else Get(Zero, f);
        assert Get(Zero, f) == 0;
      }
    } else {
      var y := FormLine(lines[k.value].playerId, Set(lines[k.value].stats, x.stat, InputValue(x)));
      Store.IndexOfIdSameIdUpdate(lines, LineId, pid, k.value, y);
      if x.player == Some(pid) {
        assert Store.IndexOfId(lines, LineId, pid) == k;
      } else {
        var j := FindLine(lines, Some(pid));
        if j.Some? {
          assert j.value != k.value;
          assert p[j.value] == lines[j.value];
        }
      }
    }
  }

  /** Each side's list holds at most one line per player id. */
  lemma {:induction false} SideLinesDistinct(xs: seq<StatInput>, sideA: bool)
    ensures DistinctIds(SideLines(xs, sideA))
  {
    if xs != [] {
      SideLinesDistinct(xs[..|xs| - 1], sideA);
      var x := xs[|xs| - 1];
      if OnSide(x, sideA) {
        PutDistinct(SideLines(xs[..|xs| - 1], sideA), x);
      }
    }
  }

  /** A player has a line on a side exactly when some input of that side
      names them, and each of its counters is the value of the last input
      for that stat, or 0 when there is none. */
  lemma {:induction false} SideLinesContent(xs: seq<StatInput>, sideA: bool, pid: int, f: StatField)
    ensures FindLine(SideLines(xs, sideA), Some(pid)).Some? <==> Named(xs, sideA, pid)
    ensures LineStat(SideLines(xs, sideA), pid, f) == LastValue(xs, sideA, pid, f)
  {
    SideLinesNamed(xs, sideA, pid, f);
    SideLinesValue(xs, sideA, pid, f);
  }

  lemma {:induction false} SideLinesNamed(xs: seq<StatInput>, sideA: bool, pid: int, f: StatField)
    ensures FindLine(SideLines(xs, sideA), Some(pid)).Some? <==> Named(xs, sideA, pid)
  {
    if xs != [] {
      var front := xs[..|xs| - 1];
      var x := xs[|xs| - 1];
      SideLinesNamed(front, sideA, pid, f);
      assert forall i :: 0 <= i < |front| ==> xs[i] == front[i];
      if OnSide(x, sideA) {
        PutEffect(SideLines(front, sideA), x, pid, f);
      }
      if Named(xs, sideA, pid) && !(OnSide(x, sideA) && x.player == Some(pid)) {
        var i :| 0 <= i < |xs| && OnSide(xs[i], sideA) && xs[i].player == Some(pid);
        assert i < |front|;
      }
    }
  }

  lemma {:induction false} SideLinesValue(xs: seq<StatInput>, sideA: bool, pid: int, f: StatField)
    ensures LineStat(SideLines(xs, sideA), pid, f) == LastValue(xs, sideA, pid, f)
  {
    if xs != [] {
      var front := xs[..|xs| - 1];
      var x := xs[|xs| - 1];
      SideLinesValue(front, sideA, pid, f);
      if OnSide(x, sideA) {
        PutEffect(SideLines(front, sideA), x, pid, f);
      }
    }
  }

  /** Some input of the game and side names the player. */
  predicate NamedInGame(inputs: seq<StatInput>, gameNum: int, sideA: bool, pid: int)
  {
    exists x :: x in inputs && x.game == Some(gameNum) && OnSide(x, sideA) && x.player == Some(pid)
  }

  lemma NamedGameInputs(inputs: seq<StatInput>, gameNum: int, sideA: bool, pid: int)
    ensures Named(GameInputs(inputs, gameNum), sideA, pid) <==> NamedInGame(inputs, gameNum, sideA, pid)
  {
    var xs := GameInputs(inputs, gameNum);
    if Named(xs, sideA, pid) {
      var j :| 0 <= j < |xs| && OnSide(xs[j], sideA) && xs[j].player == Some(pid);
      assert xs[j] in xs;
    }
    if NamedInGame(inputs, gameNum, sideA, pid) {
      var x :| x in inputs && x.game == Some(gameNum) && OnSide(x, sideA) && x.player == Some(pid);
      var j :| 0 <= j < |xs| && xs[j] == x;
    }
  }

  /** Game record i holds the inputs of game number i + 1: on each side
      one line per named player id, and every counter of it is the last
      value entered for that player and stat in that game, or 0. */
  lemma CollectedGamesCorrect(inputs: seq<StatInput>, numGames: int, i: nat, sideA: bool,
                              pid: int, f: StatField)
    requires i < |CollectedGames(inputs, numGames)|
    ensures var g := CollectedGames(inputs, numGames)[i];
            var lines := if sideA then g.teamAPlayers else g.teamBPlayers;
            && DistinctIds(lines)
            && (FindLine(lines, Some(pid)).Some? <==> NamedInGame(inputs, i + 1, sideA, pid))
            && LineStat(lines, pid, f) == LastValue(GameInputs(inputs, i + 1), sideA, pid, f)
  {
    var xs := GameInputs(inputs, i + 1);
    var g := CollectedGames(inputs, numGames)[i];
    assert g == FormGame(SideLines(xs, true), SideLines(xs, false));
    SideLinesDistinct(xs, sideA);
    SideLinesContent(xs, sideA, pid, f);
    NamedGameInputs(inputs, i + 1, sideA, pid);
  }

  /** The form checks only that its four fields are truthy. */
  function CheckFields(teamAId: Option<int>, teamBId: Option<int>, numGames: Option<int>,
                       winnerId: Option<int>): (r: Option<FormError>)
    ensures r.None? <==> Truthy(teamAId) && Truthy(teamBId) && Truthy(numGames) && Truthy(winnerId)
  {
    if !Truthy(teamAId) || !Truthy(teamBId) || !Truthy(numGames) || !Truthy(winnerId)
    then Some(MissingField) else None
  }

  // ---------------------------------------------------------------------
  // The collection loop

  /** The submit handler: the field check, then one game record per game
      number 1..numGames (none when numGames is negative). */
  method CollectMatch(teamAId: Option<int>, teamBId: Option<int>, numGames: Option<int>,
                      winnerId: Option<int>, inputs: seq<StatInput>)
    returns (r: Result<FormMatch, FormError>)
    ensures CheckFields(teamAId, teamBId, numGames, winnerId).Some? <==> r.Err?
    ensures r.Ok? ==>
              r.value == FormMatch(teamAId.value, teamBId.value, numGames.value,
                                   CollectedGames(inputs, numGames.value), winnerId.value)
  {
    var missing := CheckFields(teamAId, teamBId, numGames, winnerId);
    if missing.Some? {
      return Err(missing.value);
    }
    var n := numGames.value;
    var games: seq<FormGame> := [];
    var gameNum := 1;
    while gameNum <= n
      invariant 1 <= gameNum && (n > 0 ==> gameNum <= n + 1)
      invariant |games| == gameNum - 1 <= |CollectedGames(inputs, n)|
      invariant forall i :: 0 <= i < |games| ==> games[i] == CollectedGames(inputs, n)[i]
    {
      var game := CollectGame(GameInputs(inputs, gameNum));
      games := games + [game];
      gameNum := gameNum + 1;
    }
    assert games == CollectedGames(inputs, n);
    r := Ok(FormMatch(teamAId.value, teamBId.value, n, games, winnerId.value));
  }

  /** The `gameInputs.forEach` of one game. */
  method CollectGame(xs: seq<StatInput>) returns (g: FormGame)
    ensures g == FormGame(SideLines(xs, true), SideLines(xs, false))
  {
    var teamAPlayers: seq<FormLine> := [];
    var teamBPlayers: seq<FormLine> := [];
    for i := 0 to |xs|
      invariant teamAPlayers == SideLines(xs[..i], true)
      invariant teamBPlayers == SideLines(xs[..i], false)
    {
      var x := xs[i];
      assert xs[..i + 1][..i] == xs[..i];
      if x.teamLetter == "a" {
        teamAPlayers := PutStat(teamAPlayers, x);
      } else {
        teamBPlayers := PutStat(teamBPlayers, x);
      }
    }
    assert xs[..|xs|] == xs;
    g := FormGame(teamAPlayers, teamBPlayers);
  }

  /** Find or push the player's stat object, then `playerStatObj[stat] = value`. */
  method PutStat(lines: seq<FormLine>, x: StatInput) returns (out: seq<FormLine>)
    ensures out == Put(lines, x)
  {
    out := lines;
    var k := FindLine(out, x.player);
    if k.None? {
      out := out + [FormLine(x.player, Zero)];
      k := Some(|out| - 1);
    }
    out := out[k.value := FormLine(out[k.value].playerId, Set(out[k.value].stats, x.stat, InputValue(x)))];
  }
}
