/** The championship: an ordered list of teams, lookups by name across it,
    3/1/0 point awards from a scoreline, and a lifecycle that ends, once and
    for good, when a team of the match just recorded reaches the threshold. */
module Championship {
  import opened Text
  import opened Players
  import opened Teams

  /** The points that end the competition. */
  const PointsToWin: int := 40

  /** Points the home side earns from a scoreline: 3 for a win, 1 for a draw. */
  function HomeAward(homeGoals: int, awayGoals: int): nat
  {
    if homeGoals > awayGoals then 3 else if homeGoals == awayGoals then 1 else 0
  }

  /** Points the away side earns from a scoreline. */
  function AwayAward(homeGoals: int, awayGoals: int): nat
  {
    if homeGoals > awayGoals then 0 else if homeGoals == awayGoals then 1 else 3
  }

  /** The award does not favour either side: swapping the roles and the
      scoreline swaps the awards; a decided match hands out 3 points, a draw 2. */
  lemma AwardsAreSymmetric(homeGoals: int, awayGoals: int)
    ensures AwayAward(homeGoals, awayGoals) == HomeAward(awayGoals, homeGoals)
    ensures HomeAward(homeGoals, awayGoals) + AwayAward(homeGoals, awayGoals)
         == if homeGoals == awayGoals then 2 else 3
  {
  }

  /** The two stages of the competition. */
  datatype Lifecycle = Active | Concluded(champion: Team)

  lemma AppendAssoc(a: string, b: string, c: string)
    ensures (a + b) + c == a + (b + c)
  {
  }

  /** The concatenation of the renderings of `vs`, in order. */
  function Joined<T>(render: T -> string, vs: seq<T>): string
  {
    if vs == [] then "" else render(vs[0]) + Joined(render, vs[1..])
  }

  lemma {:induction false} JoinedConcat<T>(render: T -> string, a: seq<T>, b: seq<T>)
    ensures Joined(render, a + b) == Joined(render, a) + Joined(render, b)
    decreases |a|
  {
    if a == [] {
      assert a + b == b;
    } else {
      assert (a + b)[1..] == a[1..] + b;
      JoinedConcat(render, a[1..], b);
      AppendAssoc(render(a[0]), Joined(render, a[1..]), Joined(render, b));
    }
  }

  /** Extending the prefix by one element appends that element's rendering. */
  lemma JoinedSnoc<T>(render: T -> string, vs: seq<T>, i: nat)
    requires i < |vs|
    ensures Joined(render, vs[..i + 1]) == Joined(render, vs[..i]) + render(vs[i])
  {
    JoinedConcat(render, vs[..i], [vs[i]]);
    assert vs[..i + 1] == vs[..i] + [vs[i]];
    assert Joined(render, [vs[i]]) == render(vs[i]) + Joined(render, []);
  }

  /** The indented listing line of one player. */
  function PlayerLine(v: PlayerView): string
  {
    "  - " + PlayerText(v) + "\n"
  }

  /** The listing of one roster: one indented line per player, in order. */
  function PlayerLines(vs: seq<PlayerView>): string
  {
    Joined(PlayerLine, vs)
  }

  /** The listing of one team: its line, then its players' lines. */
  function TeamBlock(v: TeamView): string
  {
    TeamLine(v) + "\n" + PlayerLines(v.roster)
  }

  /** The listing of a team list: each team's block, in team order. */
  function Listing(vs: seq<TeamView>): string
  {
    Joined(TeamBlock, vs)
  }

  /** Every player on the roster of some team in `ts`. */
  function Squads(ts: seq<Team>): set<Player>
    reads ts
  {
    if ts == [] then {} else (set p | p in ts[0].players) + Squads(ts[1..])
  }

  /** The views of a team list, in list order. */
  function TeamViews(ts: seq<Team>): (vs: seq<TeamView>)
    reads ts, Squads(ts)
    ensures |vs| == |ts|
    ensures forall k :: 0 <= k < |ts| ==> vs[k] == ts[k].View()
  {
    if ts == [] then [] else [ts[0].View()] + TeamViews(ts[1..])
  }

  /** A team whose points, roster and players are as they were looks as it
      did. */
  twostate lemma ViewKept(t: Team)
    requires old(t.points) == t.points && old(t.players) == t.players
    requires forall j :: 0 <= j < |t.players| ==> unchanged(t.players[j])
    ensures t.View() == old(t.View())
  {
    GoalsScoredKept(t.players);
    KeeperConcededKept(t.players);
    assert PlayerViews(t.players) == old(PlayerViews(t.players));
  }

  twostate lemma {:induction false} TeamViewsKept(ts: seq<Team>)
    requires forall k :: 0 <= k < |ts| ==> old(ts[k].points) == ts[k].points && old(ts[k].players) == ts[k].players
    requires forall k, j :: 0 <= k < |ts| && 0 <= j < |ts[k].players| ==> unchanged(ts[k].players[j])
    ensures TeamViews(ts) == old(TeamViews(ts))
    decreases |ts|
  {
    if ts != [] {
      ViewKept(ts[0]);
      TeamViewsKept(ts[1..]);
    }
  }

  /** The cached aggregates of `t` hold the sums shown in `v`. */
  predicate Settled(t: Team, v: TeamView)
    reads t`goalsFor, t`goalsAgainst
  {
    t.goalsFor == v.scored && t.goalsAgainst == v.conceded
  }

  /** Appends one indented line per player, in roster order. */
  method AppendPlayerLines(text: string, ps: seq<Player>) returns (r: string)
    ensures r == text + PlayerLines(PlayerViews(ps))
  {
    ghost var vs := PlayerViews(ps);
    r := text;
    var j := 0;
    while j < |ps|
      invariant 0 <= j <= |ps|
      invariant r == text + PlayerLines(vs[..j])
    {
      var line := "  - " + ps[j].ToString() + "\n";
      assert line == PlayerLine(vs[j]);
      JoinedSnoc(PlayerLine, vs, j);
      AppendAssoc(text, PlayerLines(vs[..j]), line);
      r := r + line;
      j := j + 1;
    }
    assert vs[..j] == vs;
  }

  /** Appends a team's block: its rendering, which recalculates the team's
      aggregates, then one indented line per player. The block shows the
      team as it was on entry, which is also how it is on exit, apart from
      the aggregates. */
  method AppendTeamBlock(s: string, t: Team, ghost v: TeamView) returns (r: string)
    requires v == t.View()
    modifies t`goalsFor, t`goalsAgainst
    ensures Settled(t, v)
    ensures r == s + TeamBlock(v)
  {
    var line := t.ToString();
    r := AppendPlayerLines(s + line + "\n", t.players);
    AppendAssoc(s, line, "\n");
    AppendAssoc(s, line + "\n", PlayerLines(t.View().roster));
  }

  /** Equal references in `ts` have equal views in `vs`, as in any
      snapshot of a team list in which a team may appear twice. */
  predicate Coherent(ts: seq<Team>, vs: seq<TeamView>)
  {
    |ts| == |vs| && forall k, l :: 0 <= k < |ts| && 0 <= l < |ts| && ts[k] == ts[l] ==> vs[k] == vs[l]
  }

  lemma TeamViewsCoherent(ts: seq<Team>)
    ensures Coherent(ts, TeamViews(ts))
  {
  }

  /** Appends the block of team `i`, which leaves the first `i + 1` teams
      recalculated. */
  method AppendBlockAt(s: string, ts: seq<Team>, i: nat, ghost vs: seq<TeamView>) returns (r: string)
    requires i < |ts| && Coherent(ts, vs) && vs[i] == ts[i].View()
    requires forall k :: 0 <= k < i ==> Settled(ts[k], vs[k])
    modifies {ts[i]}`goalsFor, {ts[i]}`goalsAgainst
    ensures forall k :: 0 <= k < i + 1 ==> Settled(ts[k], vs[k])
    ensures r == s + TeamBlock(vs[i])
  {
    r := AppendTeamBlock(s, ts[i], vs[i]);
    forall k | 0 <= k < i + 1
      ensures Settled(ts[k], vs[k])
    {
      if ts[k] == ts[i] {
        assert vs[k] == vs[i];
      }
    }
  }

  /** One step of the full listing: the listing of the first `i` teams
      grows by the block of team `i`, and the first `i + 1` teams are left
      recalculated. */
  method AppendListing(s: string, ts: seq<Team>, i: nat, ghost vs: seq<TeamView>) returns (r: string)
    requires i < |ts| && Coherent(ts, vs) && vs[i] == ts[i].View()
    requires s == Listing(vs[..i])
    requires forall k :: 0 <= k < i ==> Settled(ts[k], vs[k])
    modifies {ts[i]}`goalsFor, {ts[i]}`goalsAgainst
    ensures forall k :: 0 <= k < i + 1 ==> Settled(ts[k], vs[k])
    ensures r == Listing(vs[..i + 1])
  {
    r := AppendBlockAt(s, ts, i, vs);
    JoinedSnoc(TeamBlock, vs, i);
  }

  /** The listing loop over a team list: each team's block in turn, which
      leaves that team's aggregates equal to the sums its block shows. */
  method ListTeams(ts: seq<Team>) returns (s: string)
    modifies (set t | t in ts)`goalsFor, (set t | t in ts)`goalsAgainst
    ensures forall k :: 0 <= k < |ts| ==> Settled(ts[k], old(TeamViews(ts))[k])
    ensures s == Listing(old(TeamViews(ts)))
  {
    ghost var vs := TeamViews(ts);
    TeamViewsCoherent(ts);
    s := "";
    var i := 0;
    while i < |ts|
      invariant 0 <= i <= |ts|
      invariant forall k :: 0 <= k < i ==> Settled(ts[k], vs[k])
      invariant s == Listing(vs[..i])
    {
      ViewKept(ts[i]);
      s := AppendListing(s, ts, i, vs);
      i := i + 1;
    }
    assert vs[..i] == vs;
  }

  class ChampionshipManager {
    var teams: seq<Team>
    var winner: Team?

    constructor ()
      ensures teams == [] && winner == null
      ensures State() == Active
    {
      teams := [];
      winner := null;
    }

    /** Active while there is no winner, Concluded with the winner after. */
    function State(): Lifecycle
      reads this`winner
    {
      if winner == null then Active else Concluded(winner)
    }

    /** Appends to the team list; no duplicate-name check. */
    method AddTeam(team: Team)
      modifies this`teams
      ensures teams == old(teams) + [team]
    {
      teams := teams + [team];
    }

    /** The names of the teams, in insertion order. */
    function TeamNames(): (names: seq<string>)
      reads this`teams
      ensures |names| == |teams|
      ensures forall i :: 0 <= i < |teams| ==> names[i] == teams[i].name
    {
      var ts := teams;
      seq(|ts|, i requires 0 <= i < |ts| => ts[i].name)
    }

    /** The first team in insertion order whose name matches, ignoring case;
        null exactly when none matches. */
    method FindTeam(name: string) returns (r: Team?)
      ensures r == null <==> NoMatch(TeamNames(), name)
      ensures r != null ==> exists i :: FirstMatchAt(TeamNames(), name, i) && teams[i] == r
    {
      var i := 0;
      while i < |teams|
        invariant 0 <= i <= |teams|
        invariant NoMatch(TeamNames()[..i], name)
      {
        if EqualsIgnoreCase(teams[i].name, name) {
          assert FirstMatchAt(TeamNames(), name, i);
          return teams[i];
        }
        i := i + 1;
      }
      assert TeamNames()[..i] == TeamNames();
      return null;
    }

    /** The first matching player in team order, then roster order: the
        answer of the first team whose own lookup finds someone; null
        exactly when no roster of any team has a match. */
    method FindPlayer(playerName: string) returns (r: Player?)
      ensures r == null <==> forall i :: 0 <= i < |teams| ==> NoMatch(teams[i].RosterNames(), playerName)
      ensures r != null ==>
        exists i :: 0 <= i < |teams|
          && (forall k :: 0 <= k < i ==> NoMatch(teams[k].RosterNames(), playerName))
          && exists j :: FirstMatchAt(teams[i].RosterNames(), playerName, j) && teams[i].players[j] == r
    {
      var i := 0;
      while i < |teams|
        invariant 0 <= i <= |teams|
        invariant forall k :: 0 <= k < i ==> NoMatch(teams[k].RosterNames(), playerName)
      {
        var p := teams[i].FindPlayer(playerName);
        if p != null {
          return p;
        }
        i := i + 1;
      }
      return null;
    }

    /** Every team's line followed by its players' indented lines. Rendering
        a team recalculates it, so every listed team's aggregates end up equal
        to its roster's sums; nothing that the listing shows changes. */
    method ListAll() returns (s: string)
      modifies (set t | t in teams)`goalsFor, (set t | t in teams)`goalsAgainst
      ensures forall t :: t in teams ==> t.points == old(t.points) && t.players == old(t.players)
      ensures forall t :: t in teams ==>
        t.goalsFor == GoalsScored(t.players) && t.goalsAgainst == KeeperConceded(t.players)
      ensures TeamViews(teams) == old(TeamViews(teams))
      ensures s == Listing(TeamViews(teams))
    {
      s := ListTeams(teams);
      TeamViewsKept(teams);
    }

    /** Awards 3/1/0 points from the scoreline unless the competition is
        over; then, if the home side and failing that the away side has
        reached the threshold, it becomes the winner for good. When home and
        away are the same team, that team receives both awards. */
    method RecordMatchPoints(home: Team, away: Team, homeGoals: int, awayGoals: int)
      modifies this`winner, home`points, away`points
      ensures old(winner) != null ==>
        winner == old(winner) && home.points == old(home.points) && away.points == old(away.points)
      ensures old(winner) == null ==>
        home.points == old(home.points) + HomeAward(homeGoals, awayGoals)
                       + (if home == away then AwayAward(homeGoals, awayGoals) else 0)
      ensures old(winner) == null && home != away ==>
        away.points == old(away.points) + AwayAward(homeGoals, awayGoals)
      ensures old(winner) == null ==>
        winner == (if home.points >= PointsToWin then home
                   else if away.points >= PointsToWin then away
                   else null)
      ensures old(State()).Concluded? ==> State() == old(State())
      ensures winner != old(winner) ==>
        old(winner) == null && (winner == home || winner == away) && winner.points >= PointsToWin
    {
      if IsCompetitionOver() {
        return;
      }
      if homeGoals > awayGoals {
        home.AddPoints(3);
      } else if homeGoals == awayGoals {
        home.AddPoints(1);
        away.AddPoints(1);
      } else {
        away.AddPoints(3);
      }
      if winner == null {
        if home.points >= PointsToWin {
          winner := home;
        } else if away.points >= PointsToWin {
          winner := away;
        }
      }
    }

    /** Whether a winner has been decided. */
    function IsCompetitionOver(): (over: bool)
      reads this`winner
      ensures over <==> State().Concluded?
    {
      winner != null
    }

    /** The winner, or null while the competition is still active. */
    function GetWinner(): (w: Team?)
      reads this`winner
      ensures w == null <==> State() == Active
      ensures w != null ==> State() == Concluded(w)
    {
      winner
    }
  }
}
