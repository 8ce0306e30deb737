/** The grouping step of `displayStats` (frontend/script.js): a map from
    player id to team, filled team by team, and then the players split
    into one group per team, in order of first appearance, and a list of
    players on no team. The name sorts that follow are not modelled. */
module Grouping {
  import opened Wrappers
  import opened Entities
  import Store

  /** `if (team.playerN_id) playerToTeamMap.set(team.playerN_id, team)`:
      a slot of 0 names no player. */
  predicate InTeam(t: Team, pid: int)
  {
    pid != 0 && (t.player1Id == pid || t.player2Id == pid || t.player3Id == pid)
  }

  /** The position of the last team that lists the player. */
  function LastTeamIndex(teams: seq<Team>, pid: int): (r: Option<nat>)
    ensures r.Some? ==> r.value < |teams| && InTeam(teams[r.value], pid)
    ensures r.Some? ==> forall j :: r.value < j < |teams| ==> !InTeam(teams[j], pid)
    ensures r.None? <==> forall j :: 0 <= j < |teams| ==> !InTeam(teams[j], pid)
  {
    if teams == [] then None
    else if InTeam(teams[|teams| - 1], pid) then Some(|teams| - 1)
    else
      var r := LastTeamIndex(teams[..|teams| - 1], pid);
      assert forall j :: 0 <= j < |teams| - 1 ==> teams[..|teams| - 1][j] == teams[j];
      r
  }

  /** `playerToTeamMap.get(pid)`: later teams overwrite earlier ones. */
  function TeamOf(teams: seq<Team>, pid: int): Option<Team>
  {
    var k := LastTeamIndex(teams, pid);
    if k.None? then None else Some(teams[k.value])
  }

  /** `playerToTeamMap.get(player.id)`: a player without an id is on no team. */
  function PlayerTeam(teams: seq<Team>, p: Player): Option<Team>
  {
    if p.id.None? then None else TeamOf(teams, p.id.value)
  }

  function Lookup(m: map<int, Team>, pid: int): Option<Team>
  {
    if pid in m then Some(m[pid]) else None
  }

  /** `teams.forEach(...)` filling `playerToTeamMap`. */
  method PlayerTeamMap(teams: seq<Team>) returns (m: map<int, Team>)
    ensures forall pid :: Lookup(m, pid) == TeamOf(teams, pid)
  {
    m := map[];
    for k := 0 to |teams|
      invariant forall pid :: Lookup(m, pid) == TeamOf(teams[..k], pid)
    {
      var t := teams[k];
      ghost var m0 := m;
      if t.player1Id != 0 {
        m := m[t.player1Id := t];
      }
      if t.player2Id != 0 {
        m := m[t.player2Id := t];
      }
      if t.player3Id != 0 {
        m := m[t.player3Id := t];
      }
      forall pid ensures Lookup(m, pid) == TeamOf(teams[..k + 1], pid) {
        var pre := teams[..k + 1];
        assert pre[..k] == teams[..k] && pre[k] == t;
        assert LastTeamIndex(pre, pid)
            == if InTeam(t, pid) then Some(k) else LastTeamIndex(teams[..k], pid);
        assert Lookup(m0, pid) == TeamOf(teams[..k], pid);
        assert Lookup(m, pid) == if InTeam(t, pid) then Some(t) else Lookup(m0, pid);
      }
    }
    assert teams[..|teams|] == teams;
  }

  /** One entry of `playersByTeam`: the team object first seen under its
      id, and the players pushed into it. */
  datatype TeamGroup = TeamGroup(team: Team, players: seq<Player>)

  /** The players `playersByTeam` gathers under team id key. */
  function Member(teams: seq<Team>, key: Option<int>): Player -> bool
  {
    (p: Player) => PlayerTeam(teams, p).Some? && PlayerTeam(teams, p).value.id == key
  }

  /** The players that end up in `unassignedPlayers`. */
  function Unassigned(teams: seq<Team>): Player -> bool
  {
    (p: Player) => PlayerTeam(teams, p).None?
  }

  /** `playersByTeam.has(team.id)`: the position of the group with that key. */
  function FindGroup(groups: seq<TeamGroup>, key: Option<int>): (r: Option<nat>)
    ensures r.Some? ==> r.value < |groups| && groups[r.value].team.id == key
    ensures r.None? <==> forall j :: 0 <= j < |groups| ==> groups[j].team.id != key
  {
    if groups == [] then None
    else if groups[0].team.id == key then Some(0)
    else
      var r := FindGroup(groups[1..], key);
      assert forall j :: 1 <= j < |groups| ==> groups[j] == groups[1..][j - 1];
      if r.None? then None else Some(r.value + 1)
  }

  predicate DistinctKeys(groups: seq<TeamGroup>)
  {
    forall i, j :: 0 <= i < j < |groups| ==> groups[i].team.id != groups[j].team.id
  }

  /** Each group holds, in order, exactly the players whose team has its
      key, and its team is the team of its first player. */
  ghost predicate GroupContents(groups: seq<TeamGroup>, teams: seq<Team>, ps: seq<Player>)
  {
    forall i :: 0 <= i < |groups| ==>
      && groups[i].players == Store.Filter(ps, Member(teams, groups[i].team.id))
      && |groups[i].players| > 0
      && PlayerTeam(teams, groups[i].players[0]) == Some(groups[i].team)
  }

  /** Every player on a team has a group. */
  predicate Covered(groups: seq<TeamGroup>, teams: seq<Team>, ps: seq<Player>)
  {
    forall j :: 0 <= j < |ps| && PlayerTeam(teams, ps[j]).Some? ==>
      FindGroup(groups, PlayerTeam(teams, ps[j]).value.id).Some?
  }

  ghost predicate GroupsOf(groups: seq<TeamGroup>, teams: seq<Team>, ps: seq<Player>)
  {
    DistinctKeys(groups) && GroupContents(groups, teams, ps) && Covered(groups, teams, ps)
  }

  /** `players.forEach(...)`: every player goes to the group of its team,
      which is opened when the team's id is first met, or to the
      unassigned list. */
  method GroupPlayers(players: seq<Player>, teams: seq<Team>)
    returns (groups: seq<TeamGroup>, unassigned: seq<Player>)
    ensures unassigned == Store.Filter(players, Unassigned(teams))
    ensures GroupsOf(groups, teams, players)
  {
    var m := PlayerTeamMap(teams);
    groups, unassigned := [], [];
    for k := 0 to |players|
      invariant unassigned == Store.Filter(players[..k], Unassigned(teams))
      invariant GroupsOf(groups, teams, players[..k])
    {
      var p := players[k];
      ghost var pre := players[..k];
      assert players[..k + 1] == pre + [p];
      Store.FilterAppend(pre, Unassigned(teams), p);
      var team := if p.id.Some? then Lookup(m, p.id.value) else None;
      assert team == PlayerTeam(teams, p);
      if team.Some? {
        var gi := FindGroup(groups, team.value.id);
        if gi.None? {
          OpenGroup(groups, teams, pre, p, team.value);
          groups := groups + [TeamGroup(team.value, [p])];
        } else {
          JoinGroup(groups, teams, pre, p, gi.value);
          groups := groups[gi.value := TeamGroup(groups[gi.value].team, groups[gi.value].players + [p])];
        }
      } else {
        NotAMember(groups, teams, pre, p);
        unassigned := unassigned + [p];
      }
    }
    assert players[..|players|] == players;
  }

  /** A player whose team id has no group opens one at the end. */
  lemma OpenGroup(groups: seq<TeamGroup>, teams: seq<Team>, pre: seq<Player>, p: Player, team: Team)
    requires GroupsOf(groups, teams, pre)
    requires PlayerTeam(teams, p) == Some(team)
    requires FindGroup(groups, team.id).None?
    ensures GroupsOf(groups + [TeamGroup(team, [p])], teams, pre + [p])
  {
    OpenGroupContents(groups, teams, pre, p, team);
    OpenGroupCovered(groups, teams, pre, p, team);
  }

  lemma OpenGroupContents(groups: seq<TeamGroup>, teams: seq<Team>, pre: seq<Player>, p: Player, team: Team)
    requires GroupsOf(groups, teams, pre)
    requires PlayerTeam(teams, p) == Some(team)
    requires FindGroup(groups, team.id).None?
    ensures GroupContents(groups + [TeamGroup(team, [p])], teams, pre + [p])
  {
    var out := groups + [TeamGroup(team, [p])];
    NoEarlierMember(groups, teams, pre, team.id);
    Store.FilterAppend(pre, Member(teams, team.id), p);
    forall i | 0 <= i < |out|
      ensures out[i].players == Store.Filter(pre + [p], Member(teams, out[i].team.id))
    {
      if i < |groups| {
        assert out[i] == groups[i];
        Store.FilterAppend(pre, Member(teams, groups[i].team.id), p);
      }
    }
  }

  lemma OpenGroupCovered(groups: seq<TeamGroup>, teams: seq<Team>, pre: seq<Player>, p: Player, team: Team)
    requires Covered(groups, teams, pre)
    requires PlayerTeam(teams, p) == Some(team)
    ensures Covered(groups + [TeamGroup(team, [p])], teams, pre + [p])
  {
    var out := groups + [TeamGroup(team, [p])];
    forall j | 0 <= j < |pre| + 1 && PlayerTeam(teams, (pre + [p])[j]).Some?
      ensures FindGroup(out, PlayerTeam(teams, (pre + [p])[j]).value.id).Some?
    {
      var key := PlayerTeam(teams, (pre + [p])[j]).value.id;
      if j < |pre| {
        assert (pre + [p])[j] == pre[j];
        var g := FindGroup(groups, key).value;
        assert out[g] == groups[g];
      } else {
        assert out[|groups|].team.id == key;
      }
    }
  }

  /** A player whose team id has group gi is appended to it. */
  lemma JoinGroup(groups: seq<TeamGroup>, teams: seq<Team>, pre: seq<Player>, p: Player, gi: nat)
    requires GroupsOf(groups, teams, pre)
    requires PlayerTeam(teams, p).Some?
    requires FindGroup(groups, PlayerTeam(teams, p).value.id) == Some(gi)
    ensures GroupsOf(groups[gi := TeamGroup(groups[gi].team, groups[gi].players + [p])], teams, pre + [p])
  {
    JoinGroupContents(groups, teams, pre, p, gi);
    JoinGroupCovered(groups, teams, pre, p, gi);
  }

  lemma JoinGroupContents(groups: seq<TeamGroup>, teams: seq<Team>, pre: seq<Player>, p: Player, gi: nat)
    requires DistinctKeys(groups) && GroupContents(groups, teams, pre)
    requires PlayerTeam(teams, p).Some?
    requires FindGroup(groups, PlayerTeam(teams, p).value.id) == Some(gi)
    ensures GroupContents(groups[gi := TeamGroup(groups[gi].team, groups[gi].players + [p])], teams, pre + [p])
  {
    var out := groups[gi := TeamGroup(groups[gi].team, groups[gi].players + [p])];
    forall i | 0 <= i < |out|
      ensures out[i].players == Store.Filter(pre + [p], Member(teams, out[i].team.id))
    {
      assert out[i].team == groups[i].team;
      Store.FilterAppend(pre, Member(teams, groups[i].team.id), p);
    }
  }

  lemma JoinGroupCovered(groups: seq<TeamGroup>, teams: seq<Team>, pre: seq<Player>, p: Player, gi: nat)
    requires Covered(groups, teams, pre)
    requires PlayerTeam(teams, p).Some?
    requires FindGroup(groups, PlayerTeam(teams, p).value.id) == Some(gi)
    ensures Covered(groups[gi := TeamGroup(groups[gi].team, groups[gi].players + [p])], teams, pre + [p])
  {
    var out := groups[gi := TeamGroup(groups[gi].team, groups[gi].players + [p])];
    forall j | 0 <= j < |pre| + 1 && PlayerTeam(teams, (pre + [p])[j]).Some?
      ensures FindGroup(out, PlayerTeam(teams, (pre + [p])[j]).value.id).Some?
    {
      var key := PlayerTeam(teams, (pre + [p])[j]).value.id;
      if j < |pre| {
        assert (pre + [p])[j] == pre[j];
        var h := FindGroup(groups, key).value;
        assert out[h].team.id == key;
      } else {
        assert out[gi].team.id == key;
      }
    }
  }

  /** A player on no team is in no group, so no group changes. */
  lemma NotAMember(groups: seq<TeamGroup>, teams: seq<Team>, pre: seq<Player>, p: Player)
    requires GroupsOf(groups, teams, pre)
    requires PlayerTeam(teams, p).None?
    ensures GroupsOf(groups, teams, pre + [p])
  {
    forall i | 0 <= i < |groups|
      ensures Store.Filter(pre + [p], Member(teams, groups[i].team.id)) == groups[i].players
    {
      Store.FilterAppend(pre, Member(teams, groups[i].team.id), p);
    }
    forall j | 0 <= j < |pre| + 1 && PlayerTeam(teams, (pre + [p])[j]).Some?
      ensures FindGroup(groups, PlayerTeam(teams, (pre + [p])[j]).value.id).Some?
    {
      assert j < |pre| && (pre + [p])[j] == pre[j];
    }
  }

  /** A key without a group has no member among the players so far. */
  lemma NoEarlierMember(groups: seq<TeamGroup>, teams: seq<Team>, pre: seq<Player>, key: Option<int>)
    requires GroupsOf(groups, teams, pre)
    requires FindGroup(groups, key).None?
    ensures Store.Filter(pre, Member(teams, key)) == []
  {
    var r := Store.Filter(pre, Member(teams, key));
    Store.FilterCorrect(pre, Member(teams, key));
  }

  /** Every player is shown exactly once: in the unassigned list when no
      team lists them, otherwise in the one group of their team's id. */
  lemma EachPlayerShownOnce(groups: seq<TeamGroup>, unassigned: seq<Player>,
                            teams: seq<Team>, players: seq<Player>, p: Player)
    requires unassigned == Store.Filter(players, Unassigned(teams))
    requires GroupsOf(groups, teams, players)
    requires p in players
    ensures PlayerTeam(teams, p).None? ==>
              p in unassigned && forall i :: 0 <= i < |groups| ==> p !in groups[i].players
    ensures PlayerTeam(teams, p).Some? ==>
              && p !in unassigned
              && (exists i :: 0 <= i < |groups| && p in groups[i].players)
              && forall i :: 0 <= i < |groups| && p in groups[i].players ==>
                   groups[i].team.id == PlayerTeam(teams, p).value.id
  {
    Store.FilterCorrect(players, Unassigned(teams));
    forall i | 0 <= i < |groups|
      ensures p in groups[i].players <==> Member(teams, groups[i].team.id)(p)
    {
      Store.FilterCorrect(players, Member(teams, groups[i].team.id));
    }
    if PlayerTeam(teams, p).Some? {
      var j :| 0 <= j < |players| && players[j] == p;
      var g := FindGroup(groups, PlayerTeam(teams, p).value.id).value;
      assert p in groups[g].players;
    }
  }
}
