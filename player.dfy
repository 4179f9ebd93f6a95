/** A football player: a fixed name and position and four statistic counters
    that match recording adds to. Saves and goals conceded are kept only for
    goalkeepers; for every other position those increments are dropped. */
module Players {
  import opened Text

  /** The one position the championship treats specially. */
  const Keeper: string := "Goalkeeper"

  predicate IsKeeperPosition(position: string)
  {
    EqualsIgnoreCase(Keeper, position)
  }

  /** Every spelling of the position that differs only in letter case counts. */
  lemma KeeperPositionIgnoresCase(position: string, other: string)
    requires EqualsIgnoreCase(position, other)
    ensures IsKeeperPosition(position) <==> IsKeeperPosition(other)
  {
    EqualsIgnoreCaseEquivalence(Keeper, position, other);
    EqualsIgnoreCaseEquivalence(position, other, Keeper);
  }

  /** The four counters of a player, as one value. */
  datatype Stats = Stats(goals: int, assists: int, saves: int, conceded: int)

  /** The counters after one statistics update: goals and assists always
      grow by their increments, saves and conceded only for a keeper. */
  function Credit(st: Stats, keeper: bool, g: int, a: int, s: int, c: int): Stats
  {
    Stats(st.goals + g, st.assists + a,
          if keeper then st.saves + s else st.saves,
          if keeper then st.conceded + c else st.conceded)
  }

  /** Updates compose additively: two in a row equal one with the summed
      increments, whatever the position. */
  lemma CreditTwice(st: Stats, keeper: bool, g1: int, a1: int, s1: int, c1: int,
                    g2: int, a2: int, s2: int, c2: int)
    ensures Credit(Credit(st, keeper, g1, a1, s1, c1), keeper, g2, a2, s2, c2)
         == Credit(st, keeper, g1 + g2, a1 + a2, s1 + s2, c1 + c2)
  {
  }

  /** For an outfield player the save and conceded increments play no part. */
  lemma CreditOutfieldIgnoresKeeperStats(st: Stats, g: int, a: int, s: int, c: int, s': int, c': int)
    ensures Credit(st, false, g, a, s, c) == Credit(st, false, g, a, s', c')
    ensures Credit(st, false, g, a, s, c).saves == st.saves
    ensures Credit(st, false, g, a, s, c).conceded == st.conceded
  {
  }

  /** What a player looks like at one moment: name, position and counters.
      The textual rendering is a function of this value alone. */
  datatype PlayerView = PlayerView(name: string, position: string, stats: Stats)

  /** "Name (Position)  Goals:G  Assists:A", common to every position. */
  function BaseLine(v: PlayerView): string
  {
    v.name + " (" + v.position + ")  Goals:" + IntToDecimal(v.stats.goals)
      + "  Assists:" + IntToDecimal(v.stats.assists)
  }

  /** "  Saves:S  Conceded:C", shown for goalkeepers only. */
  function KeeperSuffix(v: PlayerView): string
  {
    "  Saves:" + IntToDecimal(v.stats.saves) + "  Conceded:" + IntToDecimal(v.stats.conceded)
  }

  /** The rendering of a player (see PlayerTextShape). */
  function PlayerText(v: PlayerView): string
  {
    if IsKeeperPosition(v.position) then BaseLine(v) + KeeperSuffix(v) else BaseLine(v)
  }

  /** A player's rendering starts with the base line, and extends it, by the
      keeper suffix, exactly when the position is the goalkeeper's. */
  lemma PlayerTextShape(v: PlayerView)
    ensures |BaseLine(v)| <= |PlayerText(v)| && PlayerText(v)[..|BaseLine(v)|] == BaseLine(v)
    ensures IsKeeperPosition(v.position) <==> |PlayerText(v)| > |BaseLine(v)|
    ensures IsKeeperPosition(v.position) ==> PlayerText(v)[|BaseLine(v)|..] == KeeperSuffix(v)
  {
  }

  class Player {
    const name: string
    const position: string
    var goals: int
    var assists: int
    var saves: int
    var goalsConceded: int

    constructor (name: string, position: string)
      ensures this.name == name && this.position == position
      ensures goals == 0 && assists == 0 && saves == 0 && goalsConceded == 0
    {
      this.name := name;
      this.position := position;
      goals, assists, saves, goalsConceded := 0, 0, 0, 0;
    }

    predicate IsGoalkeeper()
    {
      IsKeeperPosition(position)
    }

    function Counters(): Stats
      reads this
    {
      Stats(goals, assists, saves, goalsConceded)
    }

    function View(): PlayerView
      reads this
    {
      PlayerView(name, position, Counters())
    }

    /** Adds the increments to the counters; saves and conceded change only
        for a goalkeeper. No increment is validated, negative ones included. */
    method UpdateStats(goalsToAdd: int, assistsToAdd: int, savesToAdd: int, concededToAdd: int)
      modifies this
      ensures goals == old(goals) + goalsToAdd
      ensures assists == old(assists) + assistsToAdd
      ensures IsGoalkeeper() ==> saves == old(saves) + savesToAdd
      ensures IsGoalkeeper() ==> goalsConceded == old(goalsConceded) + concededToAdd
      ensures !IsGoalkeeper() ==> saves == old(saves) && goalsConceded == old(goalsConceded)
      ensures Counters() == Credit(old(Counters()), IsGoalkeeper(), goalsToAdd, assistsToAdd, savesToAdd, concededToAdd)
    {
      goals := goals + goalsToAdd;
      assists := assists + assistsToAdd;
      if IsKeeperPosition(position) {
        saves := saves + savesToAdd;
        goalsConceded := goalsConceded + concededToAdd;
      }
    }

    /** The player's rendering, as of now. */
    function ToString(): string
      reads this
    {
      PlayerText(View())
    }
  }
}
