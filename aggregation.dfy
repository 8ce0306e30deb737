/** What `submit_match` (backend/main.py:374-451) does to the player and
    team lists, as functions of the old lists and the submission. The
    imperative method `League.LeagueState.SubmitMatch` is proved to produce
    exactly these; the lemmas here state what they mean. */
module Aggregation {
  import opened Wrappers
  import opened Entities
  import Store

  // ---------------------------------------------------------------------
  // Sums over stat lines

  /** The total of the lines of `lines` that belong to player `id`. */
  function LineSum(lines: seq<StatLine>, id: int): Stats
  {
    if |lines| == 0 then Zero
    else
      var last := lines[|lines| - 1];
      Add(LineSum(lines[..|lines| - 1], id), if last.playerId == id then last.stats else Zero)
  }

  /** Player `id`'s total over one game, both sides. */
  function GameSum(g: GameStats, id: int): Stats
  {
    Add(LineSum(g.teamAPlayers, id), LineSum(g.teamBPlayers, id))
  }

  /** Player `id`'s total over every game of a match. */
  function MatchSum(games: seq<GameStats>, id: int): Stats
  {
    if |games| == 0 then Zero
    else Add(MatchSum(games[..|games| - 1], id), GameSum(games[|games| - 1], id))
  }

  /** Every stat line of a match, game after game, team_a's side first. */
  function AllLines(games: seq<GameStats>): seq<StatLine>
  {
    if |games| == 0 then []
    else AllLines(games[..|games| - 1])
         + games[|games| - 1].teamAPlayers + games[|games| - 1].teamBPlayers
  }

  lemma {:induction false} LineSumAppend(a: seq<StatLine>, b: seq<StatLine>, id: int)
    ensures LineSum(a + b, id) == Add(LineSum(a, id), LineSum(b, id))
  {
    if |b| == 0 {
      assert a + b == a;
      AddZero(LineSum(a, id));
    } else {
      var last := b[|b| - 1];
      assert (a + b)[..|a + b| - 1] == a + b[..|b| - 1];
      assert (a + b)[|a + b| - 1] == last;
      LineSumAppend(a, b[..|b| - 1], id);
      AddAssoc(LineSum(a, id), LineSum(b[..|b| - 1], id), if last.playerId == id then last.stats else Zero);
    }
  }

  /** The per-game nesting of the accumulation loop adds up to the plain
      total of all lines of the match that carry the player's id. */
  lemma {:induction false} MatchSumIsTotalOfAllLines(games: seq<GameStats>, id: int)
    ensures MatchSum(games, id) == LineSum(AllLines(games), id)
  {
    if |games| > 0 {
      var g := games[|games| - 1];
      var front := AllLines(games[..|games| - 1]);
      MatchSumIsTotalOfAllLines(games[..|games| - 1], id);
      LineSumAppend(front + g.teamAPlayers, g.teamBPlayers, id);
      LineSumAppend(front, g.teamAPlayers, id);
      AddAssoc(LineSum(front, id), LineSum(g.teamAPlayers, id), LineSum(g.teamBPlayers, id));
      calc {
        MatchSum(games, id);
        Add(MatchSum(games[..|games| - 1], id), GameSum(g, id));
        Add(LineSum(front, id), Add(LineSum(g.teamAPlayers, id), LineSum(g.teamBPlayers, id)));
        Add(Add(LineSum(front, id), LineSum(g.teamAPlayers, id)), LineSum(g.teamBPlayers, id));
        LineSum(front + g.teamAPlayers + g.teamBPlayers, id);
        { assert AllLines(games) == front + g.teamAPlayers + g.teamBPlayers; }
        LineSum(AllLines(games), id);
      }
    }
  }

  /** Two matches summed one after the other are the sum of their games
      taken together. */
  lemma {:induction false} MatchSumAppend(g1: seq<GameStats>, g2: seq<GameStats>, id: int)
    ensures MatchSum(g1 + g2, id) == Add(MatchSum(g1, id), MatchSum(g2, id))
  {
    if |g2| == 0 {
      assert g1 + g2 == g1;
      AddZero(MatchSum(g1, id));
    } else {
      var front := g2[..|g2| - 1];
      var last := g2[|g2| - 1];
      assert (g1 + g2)[..|g1 + g2| - 1] == g1 + front;
      assert (g1 + g2)[|g1 + g2| - 1] == last;
      MatchSumAppend(g1, front, id);
      AddAssoc(MatchSum(g1, id), MatchSum(front, id), GameSum(last, id));
    }
  }

  // ---------------------------------------------------------------------
  // Lines of players outside the rosters are ignored

  /** The lines whose player id is in `ids`. */
  function KeepLines(lines: seq<StatLine>, ids: seq<int>): (r: seq<StatLine>)
    ensures forall i :: 0 <= i < |r| ==> r[i].playerId in ids
    ensures |r| <= |lines|
  {
    if |lines| == 0 then []
    else
      var last := lines[|lines| - 1];
      KeepLines(lines[..|lines| - 1], ids) + (if last.playerId in ids then [last] else [])
  }

  /** The match with every line of a player outside `ids` removed. */
  function KeepGames(games: seq<GameStats>, ids: seq<int>): (r: seq<GameStats>)
    ensures |r| == |games|
  {
    if |games| == 0 then []
    else
      var g := games[|games| - 1];
      KeepGames(games[..|games| - 1], ids)
        + [GameStats(KeepLines(g.teamAPlayers, ids), KeepLines(g.teamBPlayers, ids))]
  }

  lemma {:induction false} LineSumKeep(lines: seq<StatLine>, ids: seq<int>, id: int)
    requires id in ids
    ensures LineSum(KeepLines(lines, ids), id) == LineSum(lines, id)
  {
    if |lines| > 0 {
      var last := lines[|lines| - 1];
      var front := KeepLines(lines[..|lines| - 1], ids);
      LineSumKeep(lines[..|lines| - 1], ids, id);
      LineSumAppend(front, if last.playerId in ids then [last] else [], id);
      if last.playerId in ids {
        assert [last][..0] == [];
      }
    }
  }

  lemma {:induction false} MatchSumKeep(games: seq<GameStats>, ids: seq<int>, id: int)
    requires id in ids
    ensures MatchSum(KeepGames(games, ids), id) == MatchSum(games, id)
  {
    if |games| > 0 {
      var g := games[|games| - 1];
      var kept := KeepGames(games, ids);
      assert kept[..|kept| - 1] == KeepGames(games[..|games| - 1], ids);
      MatchSumKeep(games[..|games| - 1], ids, id);
      LineSumKeep(g.teamAPlayers, ids, id);
      LineSumKeep(g.teamBPlayers, ids, id);
    }
  }

  // ---------------------------------------------------------------------
  // The rosters

  /** The six roster slots of the two teams, in the order `submit_match`
      seeds its accumulator with them. */
  function Roster(a: Team, b: Team): seq<int>
  {
    [a.player1Id, a.player2Id, a.player3Id, b.player1Id, b.player2Id, b.player3Id]
  }

  function RosterSet(a: Team, b: Team): set<int>
  {
    {a.player1Id, a.player2Id, a.player3Id, b.player1Id, b.player2Id, b.player3Id}
  }

  predicate NoDuplicates(s: seq<int>)
  {
    forall i, j :: 0 <= i < j < |s| ==> s[i] != s[j]
  }

  /** The keys of a Python dict filled from `s`, in insertion order: each
      value once, where it first occurs. */
  function Dedup(s: seq<int>): (r: seq<int>)
    ensures NoDuplicates(r)
    ensures forall x :: x in r <==> x in s
  {
    if |s| == 0 then []
    else
      var d := Dedup(s[..|s| - 1]);
      assert forall x :: x in s <==> x in s[..|s| - 1] || x == s[|s| - 1];
      if s[|s| - 1] in d then d else d + [s[|s| - 1]]
  }

  lemma {:induction false} NoDuplicatesCard(s: seq<int>)
    requires NoDuplicates(s)
    ensures |set x | x in s| == |s|
  {
    if |s| > 0 {
      var front := s[..|s| - 1];
      NoDuplicatesCard(front);
      assert (set x | x in s) == (set x | x in front) + {s[|s| - 1]};
      assert s[|s| - 1] !in front;
    }
  }

  /** `players_updated` is the number of distinct ids in the six slots. */
  lemma DedupRosterCount(a: Team, b: Team)
    ensures |Dedup(Roster(a, b))| == |RosterSet(a, b)|
    ensures forall x :: x in Dedup(Roster(a, b)) <==> x in RosterSet(a, b)
  {
    var d := Dedup(Roster(a, b));
    NoDuplicatesCard(d);
    assert (set x | x in d) == RosterSet(a, b);
  }

  // ---------------------------------------------------------------------
  // Players

  /** Player k is the one `next(p for p in players if p.id == pid)`
      finds for some roster id pid. */
  predicate Credited(ps: seq<Player>, ids: seq<int>, k: int)
    requires 0 <= k < |ps|
  {
    && ps[k].id.Some?
    && ps[k].id.value in ids
    && Store.IndexOfId(ps, PlayerId, ps[k].id.value) == Some(k)
  }

  function Credit(p: Player, s: Stats): Player
  {
    p.(stats := Add(p.stats, s))
  }

  /** The player list after a match whose rosters hold `ids`. Only the
      counters change, and no player is added, removed or moved. */
  function ApplyStats(ps: seq<Player>, ids: seq<int>, games: seq<GameStats>): (r: seq<Player>)
    ensures |r| == |ps|
    ensures forall k :: 0 <= k < |ps| ==>
              r[k].id == ps[k].id && r[k].name == ps[k].name && r[k].rank == ps[k].rank
  {
    seq(|ps|, k requires 0 <= k < |ps| =>
      if Credited(ps, ids, k) then Credit(ps[k], MatchSum(games, ps[k].id.value)) else ps[k])
  }

  /** Crediting one more roster id: its first stored player gains the
      totals, found by the same search on the already updated list. */
  lemma ApplyStatsStep(ps: seq<Player>, done: seq<int>, pid: int, games: seq<GameStats>)
    requires pid !in done
    ensures var cur := ApplyStats(ps, done, games);
            var k := Store.IndexOfId(cur, PlayerId, pid);
            ApplyStats(ps, done + [pid], games)
              == if k.None? then cur else cur[k.value := Credit(cur[k.value], MatchSum(games, pid))]
  {
    var cur := ApplyStats(ps, done, games);
    IndexOfIdSameIds(cur, ps, pid);
    var k := Store.IndexOfId(cur, PlayerId, pid);
    var next := ApplyStats(ps, done + [pid], games);
    forall j | 0 <= j < |ps| && ps[j].id.Some?
      ensures Store.IndexOfId(cur, PlayerId, ps[j].id.value) == Store.IndexOfId(ps, PlayerId, ps[j].id.value)
    {
      IndexOfIdSameIds(cur, ps, ps[j].id.value);
    }
    if k.Some? {
      assert !Credited(ps, done, k.value);
      assert next == cur[k.value := Credit(cur[k.value], MatchSum(games, pid))];
    } else {
      assert next == cur;
    }
  }

  /** Only which ids the rosters hold matters, not their order or
      repetitions. */
  lemma ApplyStatsSameIds(ps: seq<Player>, ids1: seq<int>, ids2: seq<int>, games: seq<GameStats>)
    requires forall x :: x in ids1 <==> x in ids2
    ensures ApplyStats(ps, ids1, games) == ApplyStats(ps, ids2, games)
  {
  }

  /** The first stored player with a roster id gains, on each of the six
      counters, the total of that counter over all of its lines in the
      match; every other stored player is unchanged. */
  lemma ApplyStatsEffect(ps: seq<Player>, ids: seq<int>, games: seq<GameStats>, k: nat)
    requires k < |ps|
    ensures Credited(ps, ids, k) ==> forall f ::
      Get(ApplyStats(ps, ids, games)[k].stats, f)
        == Get(ps[k].stats, f) + Get(LineSum(AllLines(games), ps[k].id.value), f)
    ensures !Credited(ps, ids, k) ==> ApplyStats(ps, ids, games)[k] == ps[k]
  {
    if Credited(ps, ids, k) {
      MatchSumIsTotalOfAllLines(games, ps[k].id.value);
      AddFieldwise(ps[k].stats, MatchSum(games, ps[k].id.value));
    }
  }

  /** A stored player none of whose id is on either roster is unchanged,
      and so is a second stored player carrying an already credited id. */
  lemma ApplyStatsUntouched(ps: seq<Player>, ids: seq<int>, games: seq<GameStats>, k: nat)
    requires k < |ps|
    requires ps[k].id.None? || ps[k].id.value !in ids
             || exists j :: 0 <= j < k && ps[j].id == ps[k].id
    ensures ApplyStats(ps, ids, games)[k] == ps[k]
  {
  }

  /** Lines of players who are on neither roster have no effect. */
  lemma {:induction false} ApplyStatsIgnoresOtherLines(ps: seq<Player>, ids: seq<int>, games: seq<GameStats>)
    ensures ApplyStats(ps, ids, KeepGames(games, ids)) == ApplyStats(ps, ids, games)
  {
    forall k | 0 <= k < |ps| && Credited(ps, ids, k)
      ensures MatchSum(KeepGames(games, ids), ps[k].id.value) == MatchSum(games, ps[k].id.value)
    {
      MatchSumKeep(games, ids, ps[k].id.value);
    }
  }

  /** Applying two matches with the same rosters in turn is applying
      their games at once. */
  lemma {:induction false} ApplyStatsTwice(ps: seq<Player>, ids: seq<int>, g1: seq<GameStats>, g2: seq<GameStats>)
    ensures ApplyStats(ApplyStats(ps, ids, g1), ids, g2) == ApplyStats(ps, ids, g1 + g2)
  {
    forall k | 0 <= k < |ps|
      ensures ApplyStats(ApplyStats(ps, ids, g1), ids, g2)[k] == ApplyStats(ps, ids, g1 + g2)[k]
    {
      ApplyStatsTwiceAt(ps, ids, g1, g2, k);
    }
  }

  lemma ApplyStatsTwiceAt(ps: seq<Player>, ids: seq<int>, g1: seq<GameStats>, g2: seq<GameStats>, k: nat)
    requires k < |ps|
    ensures ApplyStats(ApplyStats(ps, ids, g1), ids, g2)[k] == ApplyStats(ps, ids, g1 + g2)[k]
  {
    var p1 := ApplyStats(ps, ids, g1);
    if ps[k].id.Some? {
      IndexOfIdSameIds(p1, ps, ps[k].id.value);
    }
    assert Credited(p1, ids, k) == Credited(ps, ids, k);
    if Credited(ps, ids, k) {
      CreditTwice(ps, ids, g1, g2, k);
    }
  }

  lemma CreditTwice(ps: seq<Player>, ids: seq<int>, g1: seq<GameStats>, g2: seq<GameStats>, k: nat)
    requires k < |ps| && Credited(ps, ids, k)
    requires Credited(ApplyStats(ps, ids, g1), ids, k)
    ensures ApplyStats(ApplyStats(ps, ids, g1), ids, g2)[k] == ApplyStats(ps, ids, g1 + g2)[k]
  {
    var id := ps[k].id.value;
    MatchSumAppend(g1, g2, id);
    AddAssoc(ps[k].stats, MatchSum(g1, id), MatchSum(g2, id));
  }

  /** Resubmitting the same match counts every line twice: there is no
      deduplication of submissions. */
  lemma ResubmissionDoubles(ps: seq<Player>, ids: seq<int>, games: seq<GameStats>, k: nat)
    requires k < |ps| && Credited(ps, ids, k)
    ensures ApplyStats(ApplyStats(ps, ids, games), ids, games)[k].stats
         == Add(ps[k].stats, Add(MatchSum(games, ps[k].id.value), MatchSum(games, ps[k].id.value)))
  {
    ApplyStatsTwice(ps, ids, games, games);
    MatchSumAppend(games, games, ps[k].id.value);
  }

  predicate NonNegative(s: Stats)
  {
    s.points >= 0 && s.tableHits >= 0 && s.throws >= 0
    && s.catches >= 0 && s.drops >= 0 && s.fifas >= 0
  }

  predicate NonNegativeLines(games: seq<GameStats>)
  {
    forall i :: 0 <= i < |games| ==>
      (forall l :: l in games[i].teamAPlayers ==> NonNegative(l.stats))
      && (forall l :: l in games[i].teamBPlayers ==> NonNegative(l.stats))
  }

  lemma {:induction false} LineSumNonNegative(lines: seq<StatLine>, id: int)
    requires forall l :: l in lines ==> NonNegative(l.stats)
    ensures NonNegative(LineSum(lines, id))
  {
    if |lines| > 0 {
      assert forall l :: l in lines[..|lines| - 1] ==> l in lines;
      LineSumNonNegative(lines[..|lines| - 1], id);
      assert lines[|lines| - 1] in lines;
    }
  }

  lemma {:induction false} MatchSumNonNegative(games: seq<GameStats>, id: int)
    requires NonNegativeLines(games)
    ensures NonNegative(MatchSum(games, id))
  {
    if |games| > 0 {
      MatchSumNonNegative(games[..|games| - 1], id);
      LineSumNonNegative(games[|games| - 1].teamAPlayers, id);
      LineSumNonNegative(games[|games| - 1].teamBPlayers, id);
    }
  }

  /** Counters only grow when no line is negative. The backend does not
      check this, so a negative line can decrease a counter. */
  lemma CountersGrowWhenLinesNonNegative(ps: seq<Player>, ids: seq<int>, games: seq<GameStats>, k: nat, f: StatField)
    requires k < |ps| && NonNegativeLines(games)
    ensures Get(ApplyStats(ps, ids, games)[k].stats, f) >= Get(ps[k].stats, f)
  {
    if Credited(ps, ids, k) {
      MatchSumNonNegative(games, ps[k].id.value);
      AddFieldwise(ps[k].stats, MatchSum(games, ps[k].id.value));
      match f
      case Points =>
      case TableHits =>
      case Throws =>
      case Catches =>
      case Drops =>
      case Fifas =>
    }
  }

  lemma {:induction false} IndexOfIdSameIds(a: seq<Player>, b: seq<Player>, id: int)
    requires |a| == |b|
    requires forall k :: 0 <= k < |a| ==> a[k].id == b[k].id
    ensures Store.IndexOfId(a, PlayerId, id) == Store.IndexOfId(b, PlayerId, id)
  {
    var ra := Store.IndexOfId(a, PlayerId, id);
    var rb := Store.IndexOfId(b, PlayerId, id);
    if ra.Some? && rb.Some? {
      assert !(ra.value < rb.value) && !(rb.value < ra.value);
    }
  }

  // ---------------------------------------------------------------------
  // Teams

  /** The team list after the win/loss update of backend/main.py:436-441.
      Positions ia and ib are those of team_a and team_b; when they are the
      same the updates fall on one team, as Python's aliasing does. */
  function ApplyResult(ts: seq<Team>, ia: nat, ib: nat, teamAWins: bool): (r: seq<Team>)
    requires ia < |ts| && ib < |ts|
    ensures |r| == |ts|
  {
    if teamAWins then RecordDecision(ts, ia, ib) else RecordDecision(ts, ib, ia)
  }

  /** `winner.wins += 1`, then `loser.losses += 1`, on the teams at
      positions w and l. */
  function RecordDecision(ts: seq<Team>, w: nat, l: nat): (r: seq<Team>)
    requires w < |ts| && l < |ts|
    ensures |r| == |ts|
  {
    var t1 := ts[w := WithWin(ts[w])];
    t1[l := WithLoss(t1[l])]
  }

  function WithWin(t: Team): Team { t.(wins := t.wins + 1) }

  function WithLoss(t: Team): Team { t.(losses := t.losses + 1) }

  /** The winner gains one win and the loser one loss; nothing else in any
      team changes. With team_a_id == team_b_id that one team gains both. */
  lemma ApplyResultEffect(ts: seq<Team>, ia: nat, ib: nat, teamAWins: bool)
    requires ia < |ts| && ib < |ts|
    ensures var r := ApplyResult(ts, ia, ib, teamAWins);
            var w := if teamAWins then ia else ib;
            var l := if teamAWins then ib else ia;
            && r[w].wins == ts[w].wins + 1
            && r[l].losses == ts[l].losses + 1
            && (w != l ==> r[w].losses == ts[w].losses && r[l].wins == ts[l].wins)
            && (forall k :: 0 <= k < |ts| && k != w && k != l ==> r[k] == ts[k])
            && (forall k :: 0 <= k < |ts| ==>
                  r[k] == ts[k].(wins := r[k].wins, losses := r[k].losses))
  {
  }

  function TotalDecisions(ts: seq<Team>): int
  {
    if |ts| == 0 then 0
    else TotalDecisions(ts[..|ts| - 1]) + ts[|ts| - 1].wins + ts[|ts| - 1].losses
  }

  lemma {:induction false} TotalDecisionsUpdate(ts: seq<Team>, i: nat, t: Team)
    requires i < |ts|
    ensures TotalDecisions(ts[i := t])
         == TotalDecisions(ts) - ts[i].wins - ts[i].losses + t.wins + t.losses
  {
    var n := |ts|;
    if i < n - 1 {
      assert ts[i := t][..n - 1] == ts[..n - 1][i := t];
      TotalDecisionsUpdate(ts[..n - 1], i, t);
    } else {
      assert ts[i := t][..n - 1] == ts[..n - 1];
    }
  }

  /** Across all teams, wins plus losses grows by exactly 2 per match. */
  lemma DecisionsGrowByTwo(ts: seq<Team>, ia: nat, ib: nat, teamAWins: bool)
    requires ia < |ts| && ib < |ts|
    ensures TotalDecisions(ApplyResult(ts, ia, ib, teamAWins)) == TotalDecisions(ts) + 2
  {
    if teamAWins {
      RecordDecisionTotal(ts, ia, ib);
    } else {
      RecordDecisionTotal(ts, ib, ia);
    }
  }

  lemma RecordDecisionTotal(ts: seq<Team>, w: nat, l: nat)
    requires w < |ts| && l < |ts|
    ensures TotalDecisions(RecordDecision(ts, w, l)) == TotalDecisions(ts) + 2
  {
    var t1 := ts[w := WithWin(ts[w])];
    TotalDecisionsUpdate(ts, w, WithWin(ts[w]));
    TotalDecisionsUpdate(t1, l, WithLoss(t1[l]));
  }
}
