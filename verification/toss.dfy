/** The toss and the choice to bat or bowl. */
module Toss {
  import opened Players

  /**
   * The side that wins the toss, given the call typed at the console and the
   * coin (0 for heads, 1 for tails). A correct call wins for the caller, any
   * other call falls back to the coin; since TeamA's call (1) is correct only
   * on heads and TeamB's (2) only on tails, the call never decides anything:
   * heads is TeamA's toss and tails is TeamB's.
   */
  function TossWinner(call: int, tossResult: int): (winner: Side)
    requires tossResult == 0 || tossResult == 1
    ensures winner == TeamA <==> tossResult == 0
  {
    if (tossResult == 0 && call == 1) || (tossResult == 1 && call == 2) then
      (if call == 1 then TeamA else TeamB)
    else if tossResult == 0 then
      TeamA
    else
      TeamB
  }

  /** The batting and the bowling side for the first innings: the winner bats on choice 1
      and bowls on any other choice. */
  function Roles(winner: Side, choice: int): (roles: (Side, Side))
    ensures roles.1 == Other(roles.0)
    ensures roles.0 == winner <==> choice == 1
  {
    if winner == TeamA then
      if choice == 1 then (TeamA, TeamB) else (TeamB, TeamA)
    else
      if choice == 1 then (TeamB, TeamA) else (TeamA, TeamB)
  }
}
