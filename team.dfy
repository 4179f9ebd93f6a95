/** A team: a fixed name, an ordered roster of players, tournament points,
    and two cached aggregates (goals for, goals against) that are brought up
    to date only by an explicit recalculation or by rendering the team. */
module Teams {
  import opened Text
  import opened Players

  /** Goals scored by a roster: the sum of every player's goals. */
  function GoalsScored(ps: seq<Player>): int
    reads ps
  {
    if ps == [] then 0 else ps[0].goals + GoalsScored(ps[1..])
  }

  /** Goals conceded by a roster: the sum of goals conceded by its goalkeepers;
      outfield players contribute nothing. */
  function KeeperConceded(ps: seq<Player>): int
    reads ps
  {
    if ps == [] then 0
    else (if ps[0].IsGoalkeeper() then ps[0].goalsConceded else 0) + KeeperConceded(ps[1..])
  }

  /** Both aggregates are additive over splitting a roster. */
  lemma {:induction false} GoalsScoredConcat(a: seq<Player>, b: seq<Player>)
    ensures GoalsScored(a + b) == GoalsScored(a) + GoalsScored(b)
    decreases |a|
  {
    if a != [] {
      assert (a + b)[1..] == a[1..] + b;
      GoalsScoredConcat(a[1..], b);
    } else {
      assert a + b == b;
    }
  }

  lemma {:induction false} KeeperConcededConcat(a: seq<Player>, b: seq<Player>)
    ensures KeeperConceded(a + b) == KeeperConceded(a) + KeeperConceded(b)
    decreases |a|
  {
    if a != [] {
      assert (a + b)[1..] == a[1..] + b;
      KeeperConcededConcat(a[1..], b);
    } else {
      assert a + b == b;
    }
  }

  twostate lemma {:induction false} GoalsScoredKept(ps: seq<Player>)
    requires forall j :: 0 <= j < |ps| ==> unchanged(ps[j])
    ensures GoalsScored(ps) == old(GoalsScored(ps))
    decreases |ps|
  {
    if ps != [] {
      GoalsScoredKept(ps[1..]);
    }
  }

  twostate lemma {:induction false} KeeperConcededKept(ps: seq<Player>)
    requires forall j :: 0 <= j < |ps| ==> unchanged(ps[j])
    ensures KeeperConceded(ps) == old(KeeperConceded(ps))
    decreases |ps|
  {
    if ps != [] {
      KeeperConcededKept(ps[1..]);
    }
  }

  lemma GoalsScoredSnoc(ps: seq<Player>, i: nat)
    requires i < |ps|
    ensures GoalsScored(ps[..i + 1]) == GoalsScored(ps[..i]) + ps[i].goals
  {
    GoalsScoredConcat(ps[..i], [ps[i]]);
    assert ps[..i + 1] == ps[..i] + [ps[i]];
  }

  lemma KeeperConcededSnoc(ps: seq<Player>, i: nat)
    requires i < |ps|
    ensures KeeperConceded(ps[..i + 1])
         == KeeperConceded(ps[..i]) + (if ps[i].IsGoalkeeper() then ps[i].goalsConceded else 0)
  {
    KeeperConcededConcat(ps[..i], [ps[i]]);
    assert ps[..i + 1] == ps[..i] + [ps[i]];
  }

  /** A roster without goalkeepers concedes nothing, however many goals its
      players were credited as conceding. */
  lemma {:induction false} KeeperConcededWithoutKeepers(ps: seq<Player>)
    requires forall i :: 0 <= i < |ps| ==> !ps[i].IsGoalkeeper()
    ensures KeeperConceded(ps) == 0
    decreases |ps|
  {
    if ps != [] {
      KeeperConcededWithoutKeepers(ps[1..]);
    }
  }

  /** The views of a roster, in roster order. */
  function PlayerViews(ps: seq<Player>): (vs: seq<PlayerView>)
    reads ps
    ensures |vs| == |ps|
    ensures forall j :: 0 <= j < |ps| ==> vs[j] == ps[j].View()
  {
    seq(|ps|, j requires 0 <= j < |ps| reads ps => ps[j].View())
  }

  /** What a team shows when rendered: its name and points and the sums of
      its roster, with the roster's views. */
  datatype TeamView = TeamView(name: string, points: int, scored: int, conceded: int, roster: seq<PlayerView>)

  /** "Name [Pts:P] GS:F GA:A". */
  function TeamLine(v: TeamView): string
  {
    v.name + " [Pts:" + IntToDecimal(v.points) + "] GS:" + IntToDecimal(v.scored)
      + " GA:" + IntToDecimal(v.conceded)
  }

  class Team {
    const name: string
    var players: seq<Player>
    var goalsFor: int
    var goalsAgainst: int
    var points: int

    constructor (name: string)
      ensures this.name == name && players == []
      ensures goalsFor == 0 && goalsAgainst == 0 && points == 0
    {
      this.name := name;
      players := [];
      goalsFor, goalsAgainst, points := 0, 0, 0;
    }

    /** Adds `pts` to the points, unclamped; nothing else changes. */
    method AddPoints(pts: int)
      modifies this`points
      ensures points == old(points) + pts
    {
      points := points + pts;
    }

    /** Appends to the roster, keeping the existing order; no duplicate check. */
    method AddPlayer(player: Player)
      modifies this`players
      ensures players == old(players) + [player]
    {
      players := players + [player];
    }

    /** The names of the roster, in roster order. */
    function RosterNames(): (names: seq<string>)
      reads this`players
      ensures |names| == |players|
      ensures forall i :: 0 <= i < |players| ==> names[i] == players[i].name
    {
      var ps := players;
      seq(|ps|, i requires 0 <= i < |ps| => ps[i].name)
    }

    /** The first player in roster order whose name matches, ignoring case;
        null exactly when no roster entry matches. */
    method FindPlayer(playerName: string) returns (r: Player?)
      ensures r == null <==> NoMatch(RosterNames(), playerName)
      ensures r != null ==> exists i :: FirstMatchAt(RosterNames(), playerName, i) && players[i] == r
    {
      var i := 0;
      while i < |players|
        invariant 0 <= i <= |players|
        invariant NoMatch(RosterNames()[..i], playerName)
      {
        if EqualsIgnoreCase(players[i].name, playerName) {
          assert FirstMatchAt(RosterNames(), playerName, i);
          return players[i];
        }
        i := i + 1;
      }
      assert RosterNames()[..i] == RosterNames();
      return null;
    }

    /** Overwrites the aggregates with the roster's current sums. Players,
        roster and points are untouched, so running it again changes nothing. */
    method RecalculateStats()
      modifies this`goalsFor, this`goalsAgainst
      ensures goalsFor == GoalsScored(players)
      ensures goalsAgainst == KeeperConceded(players)
    {
      var ps := players;
      var gf, ga := 0, 0;
      var i := 0;
      while i < |ps|
        invariant 0 <= i <= |ps|
        invariant gf == GoalsScored(ps[..i])
        invariant ga == KeeperConceded(ps[..i])
      {
        var p := ps[i];
        GoalsScoredSnoc(ps, i);
        KeeperConcededSnoc(ps, i);
        gf := gf + p.goals;
        if IsKeeperPosition(p.position) {
          ga := ga + p.goalsConceded;
        }
        i := i + 1;
      }
      assert ps[..i] == ps;
      goalsFor, goalsAgainst := gf, ga;
    }

    /** The team as of now: name, points, the roster's current sums (what a
        recalculation would store) and the players' views, in roster order. */
    function View(): TeamView
      reads this`points, this`players, players
    {
      TeamView(name, points, GoalsScored(players), KeeperConceded(players), PlayerViews(players))
    }

    /** Rendering recalculates first, so the printed GS and GA are the
        roster's current sums and the cached fields are left equal to them. */
    method ToString() returns (s: string)
      modifies this`goalsFor, this`goalsAgainst
      ensures goalsFor == GoalsScored(players)
      ensures goalsAgainst == KeeperConceded(players)
      ensures s == TeamLine(View())
    {
      RecalculateStats();
      s := name + " [Pts:" + IntToDecimal(points) + "] GS:" + IntToDecimal(goalsFor)
        + " GA:" + IntToDecimal(goalsAgainst);
    }
  }
}
