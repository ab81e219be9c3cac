/** The result of the match and the chase figures shown on the scorecard. */
module Summary {

  datatype Outcome = TeamAWins | TeamBWins | Draw

  /** The match result from the two final totals: more runs wins, equal totals draw. */
  function Decide(teamARuns: int, teamBRuns: int): (outcome: Outcome)
    ensures outcome == TeamAWins <==> teamARuns > teamBRuns
    ensures outcome == TeamBWins <==> teamBRuns > teamARuns
    ensures outcome == Draw <==> teamARuns == teamBRuns
  {
    if teamARuns > teamBRuns then TeamAWins
    else if teamBRuns > teamARuns then TeamBWins
    else Draw
  }

  /** The second-innings target: the least total that beats the first innings. */
  function Target(bowlingRuns: int): (target: int)
    ensures target > bowlingRuns
    ensures target - 1 <= bowlingRuns
  {
    bowlingRuns + 1
  }

  /** Runs the chasing side still needs: nothing is needed exactly when it is already ahead. */
  function RunsNeeded(battingRuns: int, bowlingRuns: int): (needed: int)
    ensures needed <= 0 <==> battingRuns > bowlingRuns
    ensures battingRuns + needed == Target(bowlingRuns)
  {
    Target(bowlingRuns) - battingRuns
  }

  /** The side batting second wins exactly when its total reaches the target. */
  lemma ChaseDecides(firstRuns: int, secondRuns: int)
    ensures secondRuns >= Target(firstRuns) <==> Decide(firstRuns, secondRuns) == TeamBWins
    ensures secondRuns >= Target(firstRuns) <==> Decide(secondRuns, firstRuns) == TeamAWins
  {
  }
}
