/** The schedule rules of frontend/script.js: the "This Week" line of
    `displaySchedule`, the game order of `viewTeamSchedule`, the game the
    schedule form builds, and the check of the current-week form. */
module Schedule {
  import opened Wrappers
  import opened Entities
  import opened Sorting
  import League

  // ---------------------------------------------------------------------
  // String order

  /** Code-unit lexicographic order: the order `localeCompare` gives the
      ISO date strings the games carry. */
  predicate StrLe(a: string, b: string)
  {
    a == [] || (b != [] && (a[0] < b[0] || (a[0] == b[0] && StrLe(a[1..], b[1..]))))
  }

  lemma {:induction false} StrLeTotal(a: string, b: string)
    ensures StrLe(a, b) || StrLe(b, a)
  {
    if a != [] && b != [] && a[0] == b[0] {
      StrLeTotal(a[1..], b[1..]);
    }
  }

  lemma {:induction false} StrLeTrans(a: string, b: string, c: string)
    requires StrLe(a, b) && StrLe(b, c)
    ensures StrLe(a, c)
  {
    if a != [] && b != [] && c != [] && a[0] == b[0] && b[0] == c[0] {
      StrLeTrans(a[1..], b[1..], c[1..]);
    }
  }

  /** Two strings that each sort no later than the other are equal. */
  lemma {:induction false} StrLeAntisymmetric(a: string, b: string)
    requires StrLe(a, b) && StrLe(b, a)
    ensures a == b
  {
    if a != [] && b != [] {
      StrLeAntisymmetric(a[1..], b[1..]);
      assert a == [a[0]] + a[1..] && b == [b[0]] + b[1..];
    }
  }

  // ---------------------------------------------------------------------
  // Team schedule order

  /** `game.week ?? 0`. */
  function WeekKey(g: Game): int
  {
    if g.week.Some? then g.week.value else 0
  }

  /** `game.date || ''`. */
  function DateKey(g: Game): string
  {
    if g.date.Some? then g.date.value else ""
  }

  /** The schedule comparator returns a value <= 0: a game without a week
      (week 0) goes after every game with one; weeks ascend; equal weeks
      compare their dates. */
  predicate ScheduleLe(a: Game, b: Game)
  {
    var wa, wb := WeekKey(a), WeekKey(b);
    if wa != wb then
      if wa == 0 then false
      else if wb == 0 then true
      else wa - wb <= 0
    else StrLe(DateKey(a), DateKey(b))
  }

  lemma ScheduleLeIsTotalPreorder()
    ensures IsTotalPreorder(ScheduleLe)
  {
    forall a: Game, b: Game ensures ScheduleLe(a, b) || ScheduleLe(b, a) {
      StrLeTotal(DateKey(a), DateKey(b));
    }
    forall a: Game, b: Game, c: Game | ScheduleLe(a, b) && ScheduleLe(b, c)
      ensures ScheduleLe(a, c)
    {
      if WeekKey(a) == WeekKey(b) == WeekKey(c) {
        StrLeTrans(DateKey(a), DateKey(b), DateKey(c));
      }
    }
  }

  /** The order in which a team's schedule is shown. */
  function SortedSchedule(schedule: seq<Game>): (r: seq<Game>)
    ensures |r| == |schedule|
  {
    SortBy(schedule, ScheduleLe)
  }

  /** The shown schedule holds the same games; games without a week come
      last; the others ascend by week, and within a week by date; games
      that compare equal keep the order the backend returned. */
  lemma SortedScheduleCorrect(schedule: seq<Game>)
    ensures multiset(SortedSchedule(schedule)) == multiset(schedule)
    ensures var r := SortedSchedule(schedule);
            forall i, j :: 0 <= i < j < |r| ==>
              && (WeekKey(r[i]) == 0 ==> WeekKey(r[j]) == 0)
              && (WeekKey(r[j]) != 0 ==> WeekKey(r[i]) != 0 && WeekKey(r[i]) <= WeekKey(r[j]))
              && (WeekKey(r[i]) == WeekKey(r[j]) ==> StrLe(DateKey(r[i]), DateKey(r[j])))
    ensures forall z :: Ties(SortedSchedule(schedule), z, ScheduleLe) == Ties(schedule, z, ScheduleLe)
  {
    ScheduleLeIsTotalPreorder();
    SortByCorrect(schedule, ScheduleLe);
  }

  // ---------------------------------------------------------------------
  // This week

  /** What the "This Week" line of a team's card says. */
  datatype ThisWeekText =
    | NoGame
    | Bye
    /** "vs" when home is true, "@" otherwise. */
    | Versus(home: bool, opponentId: int)

  /** `game.week === currentWeek`; `'preseason'` equals no week number. */
  predicate InWeek(g: Game, cw: CurrentWeek)
  {
    cw.Week? && g.week == Some(cw.n)
  }

  /** The position `gamesThisWeek.find(...)` picks: the first game of the
      current week the team plays in. */
  function FirstThisWeek(games: seq<Game>, cw: CurrentWeek, teamId: int): (r: Option<nat>)
    ensures r.Some? ==> r.value < |games| && InWeek(games[r.value], cw)
                        && League.Involves(games[r.value], teamId)
    ensures r.Some? ==> forall j :: 0 <= j < r.value ==>
                          !(InWeek(games[j], cw) && League.Involves(games[j], teamId))
    ensures r.None? <==> forall j :: 0 <= j < |games| ==>
                          !(InWeek(games[j], cw) && League.Involves(games[j], teamId))
  {
    if |games| == 0 then None
    else if InWeek(games[0], cw) && League.Involves(games[0], teamId) then Some(0)
    else
      var r := FirstThisWeek(games[1..], cw, teamId);
      assert forall j :: 1 <= j < |games| ==> games[j] == games[1..][j - 1];
      if r.None? then None else Some(r.value + 1)
  }

  /** The "This Week" line of a team: no game, a bye when the opponent id
      is 0, otherwise the opponent with "vs" when the team is team_a. */
  function ThisWeek(games: seq<Game>, cw: CurrentWeek, teamId: int): (r: ThisWeekText)
    ensures var k := FirstThisWeek(games, cw, teamId);
            && (r.NoGame? <==> k.None?)
            && (k.Some? ==>
                  var g := games[k.value];
                  var home := g.teamAId == teamId;
                  var opponent := if home then g.teamBId else g.teamAId;
                  && (r.Bye? <==> opponent == 0)
                  && (r.Versus? ==> r.home == home && r.opponentId == opponent))
  {
    var k := FirstThisWeek(games, cw, teamId);
    if k.None? then NoGame
    else
      var g := games[k.value];
      var home := g.teamAId == teamId;
      var opponent := if home then g.teamBId else g.teamAId;
      if opponent == 0 then Bye else Versus(home, opponent)
  }

  /** In the preseason no team has a game this week. */
  lemma {:induction false} PreseasonHasNoGames(games: seq<Game>, teamId: int)
    ensures ThisWeek(games, Preseason, teamId) == NoGame
  {
  }

  // ---------------------------------------------------------------------
  // Scheduling a game

  datatype ScheduleError = NoTeamSelected | InvalidWeekChoice

  /** The game the "Add Game" form posts for the selected team. teamId is
      `scheduleGameTeamId` (None when no team is selected), week the
      parsed week select (None when it is not a number). */
  function BuildScheduledGame(teamId: Option<int>, opponentId: int, week: Option<int>,
                              location: string): (r: Result<Game, ScheduleError>)
    ensures teamId.None? ==> r == Err(NoTeamSelected)
    ensures (teamId.Some? && (week.None? || week.value < 1 || week.value > 14))
              ==> r == Err(InvalidWeekChoice)
    ensures (teamId.Some? && week.Some? && 1 <= week.value <= 14) ==> r.Ok?
    ensures r.Ok? ==>
              var g := r.value;
              var home := opponentId == 0 || location == "home";
              && teamId.Some? && week.Some? && 1 <= week.value <= 14
              && g.week == week && g.id.None? && g.date.None?
              && g.scoreA == 0 && g.scoreB == 0
              && (home ==> g.teamAId == teamId.value && g.teamBId == opponentId)
              && (!home ==> g.teamAId == opponentId && g.teamBId == teamId.value)
  {
    if teamId.None? then Err(NoTeamSelected)
    else if week.None? || week.value < 1 || week.value > 14 then Err(InvalidWeekChoice)
    else
      var isHome := if opponentId == 0 then true else location == "home";
      Ok(Game(None,
              if isHome then teamId.value else opponentId,
              if isHome then opponentId else teamId.value,
              0, 0, None, week))
  }

  /** Once the league is in the week of a game built by the form, and no
      earlier game of that week involves the team, the team's card shows
      it: a bye against opponent 0, otherwise "vs" for a home game and
      "@" for an away one; the opponent's card shows the other side. */
  lemma ScheduledGameShows(teamId: int, opponentId: int, week: int, location: string,
                           before: seq<Game>, after: seq<Game>)
    requires BuildScheduledGame(Some(teamId), opponentId, Some(week), location).Ok?
    requires opponentId != teamId
    requires forall g :: g in before ==> !(g.week == Some(week) && League.Involves(g, teamId))
    ensures var g := BuildScheduledGame(Some(teamId), opponentId, Some(week), location).value;
            var home := opponentId == 0 || location == "home";
            ThisWeek(before + [g] + after, Week(week), teamId)
              == if opponentId == 0 then Bye else Versus(home, opponentId)
  {
    var g := BuildScheduledGame(Some(teamId), opponentId, Some(week), location).value;
    var s := before + [g] + after;
    assert s[|before|] == g;
    var k := FirstThisWeek(s, Week(week), teamId);
    assert k.Some?;
    assert forall j :: 0 <= j < |before| ==> s[j] == before[j];
    assert k.value == |before|;
  }

  /** The opponent of a scheduled non-bye game sees the selected team on
      the other side, when no earlier game of that week involves it. */
  lemma ScheduledGameShowsForOpponent(teamId: int, opponentId: int, week: int, location: string,
                                      before: seq<Game>, after: seq<Game>)
    requires BuildScheduledGame(Some(teamId), opponentId, Some(week), location).Ok?
    requires opponentId != teamId && opponentId != 0 && teamId != 0
    requires forall h :: h in before ==> !(h.week == Some(week) && League.Involves(h, opponentId))
    ensures var g := BuildScheduledGame(Some(teamId), opponentId, Some(week), location).value;
            ThisWeek(before + [g] + after, Week(week), opponentId) == Versus(location != "home", teamId)
  {
    var g := BuildScheduledGame(Some(teamId), opponentId, Some(week), location).value;
    var s := before + [g] + after;
    assert s[|before|] == g;
    var k := FirstThisWeek(s, Week(week), opponentId);
    assert k.Some?;
    assert forall j :: 0 <= j < |before| ==> s[j] == before[j];
    assert k.value == |before|;
  }

  // ---------------------------------------------------------------------
  // Current-week form

  datatype WeekFormError = NothingSelected | InvalidWeekSelected

  /** The week form: the select's text, and `parseInt` of it (None when
      that is NaN). It sends "preseason" or a week number 1..14. */
  function WeekForm(selectValue: string, parsed: Option<int>): (r: Result<League.WeekValue, WeekFormError>)
    ensures selectValue == [] ==> r == Err(NothingSelected)
    ensures selectValue == "preseason" ==> r == Ok(League.StrWeek("preseason"))
    ensures selectValue != [] && selectValue != "preseason" ==>
              if parsed.Some? && 1 <= parsed.value <= 14 then r == Ok(League.IntWeek(parsed.value))
              else r == Err(InvalidWeekSelected)
  {
    if selectValue == [] then Err(NothingSelected)
    else if selectValue == "preseason" then Ok(League.StrWeek(selectValue))
    else if parsed.None? || parsed.value < 1 || parsed.value > 14 then Err(InvalidWeekSelected)
    else Ok(League.IntWeek(parsed.value))
  }

  /** Whatever the form sends, the backend accepts, and the week the
      backend stores is the one the form then shows. */
  lemma WeekFormAgreesWithBackend(selectValue: string, parsed: Option<int>)
    requires WeekForm(selectValue, parsed).Ok?
    ensures var v := WeekForm(selectValue, parsed).value;
            && League.ValidateWeek(v).Ok?
            && League.ValidateWeek(v).value
                 == (if selectValue == "preseason" then Preseason else Week(parsed.value))
  {
  }
}
