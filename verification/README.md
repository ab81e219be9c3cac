# Cricket match rules in Dafny

A model of the match rules of the console cricket game in `cricket.cpp`. Two
teams of four are picked from a pool of eleven numbered players. A toss and
the winner's choice decide who bats first. Each side then bats one innings of
at most six balls, and the side with more runs wins.

The random draws become parameters:
- the coin (`rand() % 2`) is `tossResult`, restricted to 0 or 1;
- the run value of every ball (`rand() % 7`) is taken from a sequence of `Runs`, integers in 0..6.

The console input becomes parameters as well:
- the ids typed during team selection are a sequence of integers;
- the toss call and the bat/bowl choice are plain integer parameters.

Structure:

- `wrappers.dfy`: module `Wrappers`, the `Option` type.
- `players.dfy`: module `Players`.
  - `Player` and `Team` are values, as in the C++, where a team holds a `std::vector<Player>` by value.
  - The pool of eleven fresh players.
  - The two sides, `TeamA` and `TeamB`.
  - The counting functions `CountOut` (players marked out) and `SumRuns` (runs scored by players), with their update lemmas.
  - `Reinstated`, which clears every dismissal flag.
  - `NewTeam` and `Roster`: an empty team, and the roster of new players with given ids.
- `selection.dfy`: module `Selection`.
  - `Accepted`: which ids a run of offered ids ends up selecting.
  - `Picked`: the bookkeeping invariant of the picks.
- `toss.dfy`: module `Toss`. The toss winner and the batting/bowling roles.
- `innings.dfy`: module `Innings`.
  - An innings as a state machine over values: `Deliver` bowls one ball, `Play` bowls the rest of the innings, and `WholeInnings` plays an innings from its first batsman.
  - The lemmas about termination, figures, dismissals, the chase, and the all-dots and all-sixes innings.
- `summary.dfy`: module `Summary`. The match result, the target and the runs still needed.
- `game.dfy`: module `Match`.
  - The `Game` class. Its fields (`teamA`, `teamB`, `inningsNum`, `selectedPlayerIds`, and the sides behind the `battingTeam`/`bowlingTeam` pointers) are updated in place by methods that mirror the C++ member functions.
  - Each method is proved against the functions above.
  - `Lineup`: the team a side holds right after selection.
  - `TossAndPlay` runs the toss and both innings; `PlayMatch` runs the whole sequence that `main` runs.

The object invariant `Game.Valid` states three things:
- the picked ids are TeamA's ids followed by TeamB's, pairwise distinct and in 1..11;
- the two pointers are set together and never to the same side;
- each team's total equals the sum of its players' runs.

Every method that changes a team keeps `Valid`, except the write-back step `StoreSides`, which needs no invariant and promises none; its only caller, `DeliverBall`, restores `Valid` after it.

## Model

| member | source | states |
|---|---|---|
| Players.Pool | cricket.cpp:105-116 | the pool holds 11 players; the player at index k has id k+1 and fresh figures (no runs, balls or wickets, not out) |
| Players.CountOut | cricket.cpp:382-385 | the number of players marked out never exceeds the roster size |
| Players.CountOutUpdate | cricket.cpp:382-385 | replacing one player changes the out-count by exactly the change in that player's flag |
| Players.SumRunsUpdate | cricket.cpp:369-371 | replacing one player changes the runs total by exactly the change in that player's runs |
| Players.SumRunsAppend | cricket.cpp:61-63 | appending a player adds that player's runs to the runs total |
| Players.AllOut | cricket.cpp:357 | when every player is out, the out-count equals the roster size |
| Players.NoneOut | cricket.cpp:31 | when nobody is out, the out-count is zero |
| Players.SumRunsSame | cricket.cpp:305-311 | two rosters with the same runs per position have the same runs total |
| Players.NewTeam | cricket.cpp:54-58 | a new team has no players, zero runs, zero wickets and zero balls, and its wicket count matches its players out |
| Players.Roster | cricket.cpp:23-31 | new players built from a list of ids carry exactly those ids, in order; none is out and none has scored |
| Players.NoRuns | cricket.cpp:23-31 | a roster in which no player has scored has a runs total of zero |
| Players.Reinstated | cricket.cpp:305-311 | after the reset nobody is out; every player's other figures (id, runs, balls faced, balls bowled, runs given, wickets) are unchanged, as are the roster size and the three team totals |
| Players.ReinstatedKeeps | cricket.cpp:305-311 | the reset keeps the roster's ids in order and its runs total, so a team total that matched its players still does |
| Selection.Accepted | cricket.cpp:185-219 | the ids a run of offers selects are at most as many as the offers |
| Selection.AcceptedSound | cricket.cpp:161-219 | the selected ids are pairwise distinct, each is in 1..poolSize and was offered, and every in-range id offered is selected |
| Selection.AcceptedGrows | cricket.cpp:185-219 | reading more ids never takes back a pick: the picks made on a prefix of the input are a prefix of the picks made on the whole input |
| Selection.PickedAppend | cricket.cpp:191-212 | appending an accepted player to TeamA (while TeamB is empty) or to TeamB, together with its id, keeps the picks distinct, in range, and equal to TeamA's ids followed by TeamB's |
| Selection.PickedDisjoint | cricket.cpp:185-219 | no id belongs to a player of both teams |
| Match.Game.constructor | cricket.cpp:94-104 | both teams start empty with zero totals, no innings has been played, no pointer is set, no id is taken, and the invariant holds |
| Match.Game.CheckPlayerSelection | cricket.cpp:161-175 | accepts exactly when the id is `Selectable`: 1 ≤ id ≤ the pool size and the id is not yet in the picked ids |
| Match.Game.NextAccepted | cricket.cpp:186-197 | the retry loop of one pick stops at the first offered id that passes the check; every id before it was refused; the picks of the prefix read so far then gain exactly that id; when the input runs out, nothing is accepted |
| Match.Game.AddPick | cricket.cpp:190-192 | an accepted id puts a copy of the pool player with that id at the end of the chosen team and records the id; the other team is unchanged |
| Match.Game.PickPlayer | cricket.cpp:186-197 | one pick: a copy of the pool player for the first acceptable id is added to the side and the id is recorded; the picks equal what the selection rule gives on the ids read so far |
| Match.Game.SelectTeamA | cricket.cpp:184-199 | playersPerTeam picks for TeamA while TeamB stays empty; TeamA's players are fresh pool copies |
| Match.Game.SelectTeamB | cricket.cpp:204-219 | up to playersPerTeam picks for TeamB while TeamA is unchanged; TeamB never holds more than playersPerTeam players, and fewer only when the ids ran out; TeamB's players are fresh pool copies |
| Match.Game.SelectPlayers | cricket.cpp:177-227 | the teams are full exactly when 8 ids are picked, and otherwise all ids were read and fewer than 8 picked, with neither team over 4; once full (8 distinct ids in 1..11), each team has 4 players, each a fresh copy of its pool player; the picks are TeamA's ids followed by TeamB's; no id is in both teams; the team totals are unchanged |
| Toss.TossWinner | cricket.cpp:246-259 | TeamA wins the toss exactly when the coin shows heads (0), whatever the call |
| Toss.Roles | cricket.cpp:269-285 | the toss winner bats exactly when the choice is 1, and the bowling side is always the other one |
| Match.Game.Toss | cricket.cpp:230-288 | sets the batting and bowling sides to the roles the toss winner's choice gives; the invariant holds |
| Match.Game.ReinstateAll | cricket.cpp:305-311 | every player of both teams is reinstated in place; ids, runs and totals are kept and the invariant holds |
| Innings.NextNotOut | cricket.cpp:390-393 | the first index at or after i whose player is not out, or the roster size when every player from i on is out |
| Innings.SkipDismissed | cricket.cpp:343-393 | the skip loop stops at the first player not out, having passed only players who are out |
| Innings.StrikerAvailable | cricket.cpp:357 | while fewer wickets have fallen than there are batsmen, a batsman who is not out is on strike |
| Innings.Deliver | cricket.cpp:369-402 | one ball advances the ball count by one, keeps both roster sizes, and moves the striker index forward but never past the roster; its full effect is `Innings.DeliveryEffects` |
| Innings.DeliveryEffects | cricket.cpp:369-402 | one ball worth r changes only the striker (runs +r, balls +1, out iff it was out or r = 0), the batting side (runs +r, balls +1, wickets +1 on r = 0), and the first bowler (balls +1, runs given +r, wickets +1 on r = 0); the new striker is the next player not out after a dismissal |
| Innings.DeliverKeeps | cricket.cpp:369-402 | a ball keeps the innings invariant (players before the striker are out, the striker is not, wickets equal the players out), the ids of both rosters, and both sides' run totals matching their players' runs |
| Match.Game.DeliverBall | cricket.cpp:366-402 | the in-place update of one ball leaves the sides and striker equal to the value-level delivery; the invariant holds |
| Innings.Play | cricket.cpp:357-421 | the rest of an innings keeps the innings invariant and never rewinds the ball count |
| Innings.PlayEnds | cricket.cpp:357-421 | every innings ends on its end condition `Ended` (balls used up, all batsmen out, or the chase won in the second innings), with at most maxDeliveries balls and at most playersPerTeam wickets |
| Innings.PlayStopsExactly | cricket.cpp:357-420 | outside the second innings, the innings bowls no ball exactly when `Ended` already holds: the balls are used up or every batsman is out |
| Innings.PlayFigures | cricket.cpp:369-386 | over an innings, the batting side's balls and the bowler's balls both grow by the balls bowled; the bowler concedes what the side scores and takes the wickets it loses; the bowling side's totals do not move |
| Innings.PlayKeepsRosters | cricket.cpp:369-402 | an innings keeps both rosters' ids and both sides' run totals matching their players' runs |
| Innings.DismissedStayOut | cricket.cpp:382-402 | a player who is out never faces another ball in that innings: the record is unchanged |
| Innings.ChaseStopsAtOnce | cricket.cpp:409-415 | in the second innings, a chase that succeeds stops on the ball that took the total past the first-innings total |
| Innings.AllDucks | cricket.cpp:382-420 | a first innings of dot balls loses one wicket per ball, stops when every batsman is out, and scores nothing |
| Innings.AllSixes | cricket.cpp:369-420 | a first innings of sixes loses no wicket, uses every ball, and scores six per ball |
| Innings.FirstInningsAllDucks | cricket.cpp:357-421 | four batsmen facing dots: all out after 4 balls for 0 |
| Innings.FirstInningsAllSixes | cricket.cpp:357-421 | four batsmen facing sixes: 36 for no wicket off 6 balls |
| Innings.WholeInnings | cricket.cpp:338-421 | a whole innings, started from the first batsman not out, bowls at most maxDeliveries balls and takes at most playersPerTeam wickets; the batting side's ball count grows by the balls bowled and the bowling side's totals stay the same; both roster sizes are kept |
| Match.Game.PlayInnings | cricket.cpp:338-427 | the in-place ball-by-ball loop leaves both sides as the value-level innings leaves them; the invariant holds |
| Match.Game.StartInnings | cricket.cpp:292-335 | records the innings number; in the second innings, swaps batting and bowling and reinstates every player; then plays the innings on those sides |
| Summary.Decide | cricket.cpp:467-479 | TeamA wins exactly when it has more runs, TeamB exactly when it has more, and the match is drawn exactly when the totals are equal |
| Summary.Target | cricket.cpp:439 | the target is the least total above the first-innings total |
| Summary.RunsNeeded | cricket.cpp:440 | runs needed is the target minus the batting total; nothing is needed exactly when the batting side is already ahead |
| Summary.ChaseDecides | cricket.cpp:439-479 | the side batting second wins exactly when its total reaches the target |
| Match.FreshRoster | cricket.cpp:190-192 | a roster made only of unmodified pool copies equals the roster of new players with its ids |
| Match.SelectedLineups | cricket.cpp:177-227 | once both teams are full, TeamA is the lineup of new players with the first four picks and TeamB the lineup with the last four, all totals zero |
| Match.Game.TossAndPlay | cricket.cpp:489-497 | the toss fixes the roles; the first innings is the whole innings of the toss's batting lineup against its bowling lineup; the second is the whole innings of the first innings' bowlers, reinstated, against its batsmen, reinstated; the teams end as the second innings leaves them, with at most 6 balls and 4 wickets per side |
| Match.PlayMatch | cricket.cpp:486-503 | the whole match: the picks are what the selection rule gives on the ids read; there is a result exactly when the selection rule picks at least 8 ids from the whole input; if not, all ids were read and the teams are not full; otherwise both innings are played as `Game.TossAndPlay` states, the invariant holds, and the result is the comparison of the two totals |

## Left out

- Console input, including `takeIntegerInput`'s retry on non-numeric input (cricket.cpp:151-159): ids, the toss call and the bat/bowl choice arrive as already-parsed integers.
- All display and welcome text (cricket.cpp:34-41, 66-72, 123-148, 430-454): presentation only. The target and runs-needed figures it prints are modelled as `Summary.Target` and `Summary.RunsNeeded`.
- `usleep` pauses: they have no effect on state.
- `srand`/`rand`: the coin and the per-ball runs are parameters.
- Player and team names, and the pool's names: only ids matter to the rules.
- The `currentBatsman`/`currentBowler` pointers are not fields:
  - the striker is the batting index of the innings loop;
  - the bowler is always the first player of the bowling side, as in the source.
- `startInnings`' own search for the first batsman (cricket.cpp:315-321) is not modelled. It only sets `currentBatsman`, which `playInnings` sets again before any ball.
- Match.Game.SelectPlayers: when the sequence of ids runs out before both teams are full, it returns `done == false` with the picks made so far; the console program would wait for more input instead.
- Match.Game.StartInnings: requires that the batting side's wicket count equals its players marked out (first innings) and that the side about to bat second has lost no wicket. `main` always meets both, and `Match.Game.TossAndPlay` proves it does.
- Integer widths: the counters are unbounded integers. With at most 6 balls of at most 6 runs, no C++ `int` in the game can overflow.
