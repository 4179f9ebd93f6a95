# Football championship core, in Dafny

This project models the in-memory domain core of a football championship
tracker: three Java classes that own one another. A `ChampionshipManager`
holds an ordered list of teams and an optional winner. A `Team` holds an
ordered roster of players, tournament points and two cached aggregates
(goals for, goals against). A `Player` holds a name, a position and four
statistic counters.

The Dafny model keeps the source's imperative shape:

- `Players.Player`, `Teams.Team` and `Championship.ChampionshipManager` are
  classes whose mutable fields are the Java fields. The roster and the team
  list are `seq`s of object references. Most methods say exactly which
  fields they may change with field-granular `modifies` clauses, e.g.
  `modifies this`points`.
- `String.equalsIgnoreCase` is equality after ASCII lower-casing
  (`Text.EqualsIgnoreCase`).
- `%d` in `String.format` is `Text.IntToDecimal`. Its partner is a decimal
  reader, `Text.DecimalValue`, and a round-trip lemma relates the two.
- The lookups (`findPlayer`, `findTeam`) are loops with an early return.
  They are proved against `Text.FirstMatchAt`: the lowest index whose name
  matches, ignoring case.
- `recalculateStats` is a loop proved against two folds over the roster:
  `Teams.GoalsScored` sums every player's goals, and
  `Teams.KeeperConceded` sums goals conceded by goalkeepers only.
- Renderings are functions of snapshot values (`PlayerView`, `TeamView`).
  `Player.ToString` is a pure read. `Team.ToString` recalculates first, then
  renders, so what it prints is the roster's current sums.
- `listAll` is the source's two nested loops over a growing string. The
  inner loop is `Championship.AppendPlayerLines`. One team's block is
  `Championship.AppendTeamBlock`; `Championship.AppendBlockAt` appends the
  block of the team at a given position of the list.
  `Championship.AppendListing` is one step of the outer loop, and
  `Championship.ListTeams` is the outer loop itself.
  `ChampionshipManager.ListAll` is the method the source exposes. The text
  produced is `Championship.Listing` of the teams' views, which are the
  same before and after the call.
- The lifecycle is `Championship.Lifecycle`: `Active` while there is no
  winner, `Concluded(champion)` once one is set. `RecordMatchPoints` never
  leaves `Concluded`, and it sets a winner only to home or away, and only
  to a team with at least 40 points.
- When the same team is passed as home and away, `RecordMatchPoints` does
  not exclude it; its contract states the outcome. That team receives both
  awards, so +2 on a draw and +3 otherwise.

Modules: `Text` (case-insensitive comparison, first-match search, decimal
numerals), `Players`, `Teams`, `Championship`, one file each.

`Team.recalculateStats` writes the two fields as it goes
(src/Core/Team.java:70-76). The model adds into two locals and stores them
once at the end. Nothing runs between those writes, so the state visible to
any caller is the same.

## Model

| member | source | states |
|---|---|---|
| Text.EqualsIgnoreCasePointwise | src/Core/Team.java:58 | case-insensitive equality holds exactly when the lengths agree and every pair of characters agrees after ASCII lower-casing |
| Text.EqualsIgnoreCaseEquivalence | src/Core/ChampionshipManager.java:36 | case-insensitive name matching is reflexive, symmetric and transitive |
| Text.FirstMatchUnique | src/Core/Team.java:56-63 | at most one index is the first case-insensitive match of a name |
| Text.FirstMatchExists | src/Core/Team.java:56-63 | a first match exists exactly when some entry matches, so "no first match" and "no match at all" coincide |
| Text.NatToDecimal | src/Core/Team.java:84-85 | the numeral printed by `%d` for a non-negative count is a non-empty digit string with a leading zero only for zero |
| Text.NatToDecimalValue | src/Core/Team.java:84-85 | reading back the digits of a non-negative number gives that number |
| Text.DecimalRoundTrip | src/Core/Player.java:56-59 | every integer, negative ones included, is printed as a well-formed numeral that reads back to the same integer |
| Players.KeeperPositionIgnoresCase | src/Core/Player.java:48 | two positions equal up to letter case are either both the goalkeeper position or neither |
| Players.CreditTwice | src/Core/Player.java:45-52 | two successive statistic updates equal one update with the summed increments, for either kind of position |
| Players.CreditOutfieldIgnoresKeeperStats | src/Core/Player.java:48-51 | for a non-goalkeeper the saves and conceded increments have no effect, whatever their values |
| Players.PlayerTextShape | src/Core/Player.java:55-67 | a player's rendering starts with "Name (Position)  Goals:G  Assists:A" and carries the "  Saves:S  Conceded:C" suffix exactly when the position is "Goalkeeper" ignoring case |
| Players.Player.constructor | src/Core/Player.java:21-28 | a new player has the given name and position and all four counters at 0 |
| Players.Player.UpdateStats | src/Core/Player.java:45-52 | goals and assists grow by their increments for every position; saves and conceded grow by theirs exactly for a goalkeeper and are unchanged otherwise; name and position never change |
| Teams.GoalsScoredConcat | src/Core/Team.java:72-73 | goals summed over a roster split in two are the sum of the two parts |
| Teams.KeeperConcededConcat | src/Core/Team.java:72-76 | goalkeepers' goals conceded summed over a roster split in two are the sum of the two parts |
| Teams.KeeperConcededWithoutKeepers | src/Core/Team.java:74-76 | a roster without goalkeepers concedes 0, whatever its outfield players were credited with |
| Teams.Team.constructor | src/Core/Team.java:20-26 | a new team has the given name, an empty roster and goals for, goals against and points at 0 |
| Teams.Team.AddPoints | src/Core/Team.java:39-41 | points become old points plus the argument, unclamped; name, roster and aggregates are untouched |
| Teams.Team.AddPlayer | src/Core/Team.java:47-49 | the roster becomes the old roster with the player appended, existing entries in their order |
| Teams.Team.FindPlayer | src/Core/Team.java:56-63 | the result is the roster entry at the lowest index whose name matches ignoring case, and null exactly when no entry matches |
| Teams.Team.RecalculateStats | src/Core/Team.java:69-78 | goals for become the sum of all players' goals, and goals against the sum of goalkeepers' goals conceded; only those two fields change, so points, roster and players stay as they were and a second run stores the same values |
| Teams.Team.ToString | src/Core/Team.java:81-86 | the aggregates are recalculated first, and the text is "Name [Pts:P] GS:F GA:A" with the current roster sums |
| Championship.AwardsAreSymmetric | src/Core/ChampionshipManager.java:74-81 | swapping home and away swaps the awards; a decided match hands out 3 points in total, a draw 2 |
| Championship.JoinedConcat | src/Core/ChampionshipManager.java:54-61 | the concatenated renderings of a list split in two are the renderings of the first part followed by those of the second |
| Championship.TeamViews | src/Core/ChampionshipManager.java:55 | the snapshot of the team list has one view per team, in list order |
| Championship.ViewKept | src/Core/Team.java:69-78 | a team whose points, roster and players are unchanged shows the same view, whatever its cached aggregates hold |
| Championship.AppendPlayerLines | src/Core/ChampionshipManager.java:57-59 | appends one "  - " line per player, with the player's rendering, in roster order |
| Championship.AppendTeamBlock | src/Core/ChampionshipManager.java:56-59 | appends the team's line (after its recalculation) and its players' lines, showing the team as it was on entry; afterwards the aggregates hold the sums shown |
| Championship.AppendBlockAt | src/Core/ChampionshipManager.java:56-59 | appends the block of team i as it was on entry, and leaves teams 0..i recalculated, also when a team appears more than once in the list |
| Championship.AppendListing | src/Core/ChampionshipManager.java:55-60 | one outer step: the listing of the first i teams grows by block i, and team i is left recalculated |
| Championship.ListTeams | src/Core/ChampionshipManager.java:54-61 | the text is every team's block in list order, and every team's aggregates end equal to the sums its block shows |
| Championship.ChampionshipManager.constructor | src/Core/ChampionshipManager.java:18-21 | a new manager has no teams and no winner, so its lifecycle is Active |
| Championship.ChampionshipManager.AddTeam | src/Core/ChampionshipManager.java:24-26 | the team list becomes the old list with the team appended |
| Championship.ChampionshipManager.FindTeam | src/Core/ChampionshipManager.java:34-41 | the result is the team at the lowest index whose name matches ignoring case, and null exactly when none matches |
| Championship.ChampionshipManager.FindPlayer | src/Core/ChampionshipManager.java:44-50 | null exactly when no roster of any team has a match; otherwise the result comes from the first team with a match, and it is that team's first matching player |
| Championship.ChampionshipManager.ListAll | src/Core/ChampionshipManager.java:53-62 | the text is the listing of all teams' views in order, each team's line followed by its players' lines; points, rosters and what the listing shows are unchanged, and every team's aggregates end recalculated |
| Championship.ChampionshipManager.RecordMatchPoints | src/Core/ChampionshipManager.java:71-90 | once concluded, nothing changes; while active, home gets 3/1/0 and away 0/1/3 from the scoreline (both awards to one team passed twice), only home and away points change, and the winner becomes home if it has reached 40, else away if it has, else stays unset; a winner, once set, never changes |
| Championship.ChampionshipManager.IsCompetitionOver | src/Core/ChampionshipManager.java:95-97 | true exactly when the lifecycle is Concluded |
| Championship.ChampionshipManager.GetWinner | src/Core/ChampionshipManager.java:102-104 | null exactly while Active, and otherwise the champion recorded in the Concluded state |

## Left out

- The command-line and Swing interfaces and the program entry point: they only collect input, print and seed sample data.
- `Integer.parseInt` and other input parsing: it belongs to the interfaces.
- Java's 32-bit `int` wrap-around: counters, points and sums are unbounded integers.
- Unicode case folding: `equalsIgnoreCase` is modelled for ASCII letters only; other characters must match exactly.
- `null` names, positions and arguments: Dafny strings and the `Team`/`Player` parameters are never null.
- The getters: they are plain field reads in the model.
- `getTeams` and `getPlayers` hand out the live `ArrayList`, which a caller could mutate. The model's `seq` fields are values, so that aliasing is not captured.
- The locale of `String.format`: renderings assume a locale with ASCII digits.
- `StringBuilder`: `listAll` accumulates into a string value instead.
- Championship.ChampionshipManager.ListAll: the growing text is built by five methods, one per loop level and step. The source has one method with two nested loops.
