/**
 * One innings as a state machine over values: the batting and the bowling
 * side, the index of the striker in the batting order and the number of
 * balls bowled so far. The game's in-place loop is proved against Play.
 */
module Innings {
  import opened Players

  /** Runs off one delivery, a draw from 0..6. */
  type Runs = r: int | 0 <= r <= 6

  datatype State = State(bat: Team, bowl: Team, batsman: nat, ball: nat)

  /** Index of the first player at or after `i` who is not out, or the roster size when there is none. */
  function NextNotOut(ps: seq<Player>, i: nat): (j: nat)
    requires i <= |ps|
    ensures i <= j <= |ps|
    ensures forall k :: i <= k < j ==> ps[k].isOut
    ensures j < |ps| ==> !ps[j].isOut
    decreases |ps| - i
  {
    if i == |ps| || !ps[i].isOut then i else NextNotOut(ps, i + 1)
  }

  /** The skip loop that finds the next batsman: it moves past players already out. */
  method SkipDismissed(ps: seq<Player>, from: nat) returns (j: nat)
    requires from <= |ps|
    ensures from <= j <= |ps|
    ensures forall k :: from <= k < j ==> ps[k].isOut
    ensures j < |ps| ==> !ps[j].isOut
    ensures j == NextNotOut(ps, from)
  {
    j := from;
    while j < |ps| && ps[j].isOut
      invariant from <= j <= |ps|
      invariant forall k :: from <= k < j ==> ps[k].isOut
      invariant NextNotOut(ps, j) == NextNotOut(ps, from)
      decreases |ps| - j
    {
      j := j + 1;
    }
  }

  /**
   * The invariant of an innings in progress: the bowling side has a bowler,
   * every player before the striker is out, the striker (if any) is not, and
   * the wickets lost are exactly the players marked out.
   */
  predicate Sound(s: State)
  {
    0 < |s.bowl.players| &&
    s.batsman <= |s.bat.players| &&
    (forall k :: 0 <= k < s.batsman ==> s.bat.players[k].isOut) &&
    (s.batsman < |s.bat.players| ==> !s.bat.players[s.batsman].isOut) &&
    s.bat.totalWicketsLost == CountOut(s.bat.players)
  }

  /** While fewer wickets have fallen than there are players, somebody is on strike. */
  lemma StrikerAvailable(s: State)
    requires Sound(s) && s.bat.totalWicketsLost < |s.bat.players|
    ensures s.batsman < |s.bat.players|
    ensures !s.bat.players[s.batsman].isOut
  {
    if s.batsman == |s.bat.players| {
      AllOut(s.bat.players);
    }
  }

  /** One delivery worth `r` runs, bowled by the first player of the bowling side. */
  function Deliver(s: State, r: Runs): (t: State)
    requires s.batsman < |s.bat.players| && 0 < |s.bowl.players|
    ensures t.ball == s.ball + 1 && s.batsman <= t.batsman <= |t.bat.players|
    ensures |t.bat.players| == |s.bat.players| && |t.bowl.players| == |s.bowl.players|
  {
    var wicket := r == 0;
    var striker := s.bat.players[s.batsman];
    var bowler := s.bowl.players[0];
    var striker' := striker.(runsScored := striker.runsScored + r,
                             ballsPlayed := striker.ballsPlayed + 1,
                             isOut := if wicket then true else striker.isOut);
    var bowler' := bowler.(ballsBowled := bowler.ballsBowled + 1,
                           runsGiven := bowler.runsGiven + r,
                           wicketsTaken := if wicket then bowler.wicketsTaken + 1 else bowler.wicketsTaken);
    var players := s.bat.players[s.batsman := striker'];
    var bat := s.bat.(players := players,
                      totalRuns := s.bat.totalRuns + r,
                      totalWicketsLost := if wicket then s.bat.totalWicketsLost + 1 else s.bat.totalWicketsLost,
                      totalBallsBowled := s.bat.totalBallsBowled + 1);
    var bowl := s.bowl.(players := s.bowl.players[0 := bowler']);
    State(bat, bowl, if wicket then NextNotOut(players, s.batsman + 1) else s.batsman, s.ball + 1)
  }

  /** What one delivery changes, and that it changes nothing else. */
  lemma DeliveryEffects(s: State, r: Runs)
    requires s.batsman < |s.bat.players| && 0 < |s.bowl.players|
    ensures var t := Deliver(s, r);
      var i := s.batsman;
      var p, q := s.bat.players[i], t.bat.players[i];
      var b, c := s.bowl.players[0], t.bowl.players[0];
      // the striker
      q.id == p.id && q.runsScored == p.runsScored + r && q.ballsPlayed == p.ballsPlayed + 1 &&
      q.ballsBowled == p.ballsBowled && q.runsGiven == p.runsGiven && q.wicketsTaken == p.wicketsTaken &&
      (q.isOut <==> p.isOut || r == 0) &&
      // the batting side
      |t.bat.players| == |s.bat.players| &&
      (forall k :: 0 <= k < |s.bat.players| && k != i ==> t.bat.players[k] == s.bat.players[k]) &&
      t.bat.totalRuns == s.bat.totalRuns + r &&
      t.bat.totalBallsBowled == s.bat.totalBallsBowled + 1 &&
      t.bat.totalWicketsLost == s.bat.totalWicketsLost + (if r == 0 then 1 else 0) &&
      // the bowler
      c.id == b.id && c.runsScored == b.runsScored && c.ballsPlayed == b.ballsPlayed && c.isOut == b.isOut &&
      c.ballsBowled == b.ballsBowled + 1 && c.runsGiven == b.runsGiven + r &&
      c.wicketsTaken == b.wicketsTaken + (if r == 0 then 1 else 0) &&
      // the bowling side
      |t.bowl.players| == |s.bowl.players| &&
      (forall k :: 0 < k < |s.bowl.players| ==> t.bowl.players[k] == s.bowl.players[k]) &&
      t.bowl.totalRuns == s.bowl.totalRuns && t.bowl.totalWicketsLost == s.bowl.totalWicketsLost &&
      t.bowl.totalBallsBowled == s.bowl.totalBallsBowled &&
      // the striker afterwards
      t.ball == s.ball + 1 &&
      (r != 0 ==> t.batsman == i) &&
      (r == 0 ==> t.batsman == NextNotOut(t.bat.players, i + 1))
  {
  }

  /** A delivery keeps the innings invariant, the rosters' ids and both sides' run tallies. */
  lemma DeliverKeeps(s: State, r: Runs)
    requires Sound(s) && s.batsman < |s.bat.players|
    ensures var t := Deliver(s, r);
      Sound(t) &&
      |t.bat.players| == |s.bat.players| && |t.bowl.players| == |s.bowl.players| &&
      Ids(t.bat.players) == Ids(s.bat.players) && Ids(t.bowl.players) == Ids(s.bowl.players) &&
      (Tallied(s.bat) ==> Tallied(t.bat)) && (Tallied(s.bowl) ==> Tallied(t.bowl))
  {
    var t := Deliver(s, r);
    CountOutUpdate(s.bat.players, s.batsman, t.bat.players[s.batsman]);
    SumRunsUpdate(s.bat.players, s.batsman, t.bat.players[s.batsman]);
    SumRunsUpdate(s.bowl.players, 0, t.bowl.players[0]);
  }

  /** The check after each delivery that ends the innings: the chase succeeded (second innings
      only), the balls are used up, or every batsman is out. */
  predicate Ended(t: State, inningsNum: int, maxDeliveries: int, playersPerTeam: int)
  {
    if inningsNum == 2 then
      t.bat.totalRuns > t.bowl.totalRuns || t.ball == maxDeliveries || t.bat.totalWicketsLost == playersPerTeam
    else
      t.ball == maxDeliveries || t.bat.totalWicketsLost == playersPerTeam
  }

  /** The preconditions shared by Play and its lemmas. */
  predicate Playable(s: State, runs: seq<Runs>, maxDeliveries: nat, playersPerTeam: nat)
  {
    Sound(s) && |s.bat.players| == playersPerTeam && s.ball <= maxDeliveries <= |runs|
  }

  /** The rest of an innings from `s`; ball k is worth runs[k]. */
  function Play(s: State, runs: seq<Runs>, inningsNum: int, maxDeliveries: nat, playersPerTeam: nat): (t: State)
    requires Playable(s, runs, maxDeliveries, playersPerTeam)
    ensures Playable(t, runs, maxDeliveries, playersPerTeam)
    ensures s.ball <= t.ball
    decreases maxDeliveries - s.ball
  {
    if s.ball < maxDeliveries && s.bat.totalWicketsLost < playersPerTeam then
      StrikerAvailable(s);
      DeliverKeeps(s, runs[s.ball]);
      var t := Deliver(s, runs[s.ball]);
      if Ended(t, inningsNum, maxDeliveries, playersPerTeam) then t
      else Play(t, runs, inningsNum, maxDeliveries, playersPerTeam)
    else
      s
  }

  /**
   * A whole innings: find the first batsman not out; with none, nothing is
   * bowled. It bowls at most `maxDeliveries` balls and takes at most
   * `playersPerTeam` wickets; the batting side's ball count grows by the balls
   * bowled, the bowling side's own totals do not move, and both rosters keep
   * their size.
   */
  function WholeInnings(bat: Team, bowl: Team, runs: seq<Runs>, inningsNum: int, maxDeliveries: nat, playersPerTeam: nat): (t: State)
    requires |bat.players| == playersPerTeam && 0 < |bowl.players| && maxDeliveries <= |runs|
    requires bat.totalWicketsLost == CountOut(bat.players)
    ensures t.ball <= maxDeliveries && t.bat.totalWicketsLost <= playersPerTeam
    ensures t.bat.totalBallsBowled == bat.totalBallsBowled + t.ball
    ensures t.bowl.totalRuns == bowl.totalRuns && t.bowl.totalWicketsLost == bowl.totalWicketsLost
    ensures t.bowl.totalBallsBowled == bowl.totalBallsBowled
    ensures |t.bat.players| == |bat.players| && |t.bowl.players| == |bowl.players|
  {
    var first := NextNotOut(bat.players, 0);
    var s := State(bat, bowl, first, 0);
    if first < |bat.players| then
      PlayEnds(s, runs, inningsNum, maxDeliveries, playersPerTeam);
      PlayFigures(s, runs, inningsNum, maxDeliveries, playersPerTeam);
      PlayKeepsRosters(s, runs, inningsNum, maxDeliveries, playersPerTeam);
      Play(s, runs, inningsNum, maxDeliveries, playersPerTeam)
    else
      AllOut(bat.players);
      s
  }

  /** Outside a chase the innings stops exactly on its end condition: from a state that has
      not ended at least one more ball is bowled, and from one that has, none is. */
  lemma PlayStopsExactly(s: State, runs: seq<Runs>, inningsNum: int, maxDeliveries: nat, playersPerTeam: nat)
    requires Playable(s, runs, maxDeliveries, playersPerTeam) && inningsNum != 2
    ensures Play(s, runs, inningsNum, maxDeliveries, playersPerTeam) == s <==> Ended(s, inningsNum, maxDeliveries, playersPerTeam)
  {
  }

  /** Every innings stops on its end condition, within the ball limit and the wicket limit. */
  lemma {:induction false} PlayEnds(s: State, runs: seq<Runs>, inningsNum: int, maxDeliveries: nat, playersPerTeam: nat)
    requires Playable(s, runs, maxDeliveries, playersPerTeam)
    ensures var t := Play(s, runs, inningsNum, maxDeliveries, playersPerTeam);
      Ended(t, inningsNum, maxDeliveries, playersPerTeam) &&
      t.ball <= maxDeliveries && t.bat.totalWicketsLost <= playersPerTeam
    decreases maxDeliveries - s.ball
  {
    if s.ball < maxDeliveries && s.bat.totalWicketsLost < playersPerTeam {
      StrikerAvailable(s);
      DeliverKeeps(s, runs[s.ball]);
      var t := Deliver(s, runs[s.ball]);
      if !Ended(t, inningsNum, maxDeliveries, playersPerTeam) {
        PlayEnds(t, runs, inningsNum, maxDeliveries, playersPerTeam);
      }
    }
  }

  /** Bowling and batting figures move together: each ball counts once for the batting side and
      the bowler, the bowler concedes what the side scores and takes the wickets it loses, and
      the bowling side's own totals do not move. */
  lemma {:induction false} PlayFigures(s: State, runs: seq<Runs>, inningsNum: int, maxDeliveries: nat, playersPerTeam: nat)
    requires Playable(s, runs, maxDeliveries, playersPerTeam)
    ensures var t := Play(s, runs, inningsNum, maxDeliveries, playersPerTeam);
      var balls := t.ball - s.ball;
      t.bat.totalBallsBowled == s.bat.totalBallsBowled + balls &&
      t.bowl.players[0].ballsBowled == s.bowl.players[0].ballsBowled + balls &&
      t.bowl.players[0].runsGiven - s.bowl.players[0].runsGiven == t.bat.totalRuns - s.bat.totalRuns &&
      t.bowl.players[0].wicketsTaken - s.bowl.players[0].wicketsTaken
        == t.bat.totalWicketsLost - s.bat.totalWicketsLost &&
      s.bat.totalRuns <= t.bat.totalRuns &&
      t.bowl.totalRuns == s.bowl.totalRuns && t.bowl.totalWicketsLost == s.bowl.totalWicketsLost &&
      t.bowl.totalBallsBowled == s.bowl.totalBallsBowled
    decreases maxDeliveries - s.ball
  {
    if s.ball < maxDeliveries && s.bat.totalWicketsLost < playersPerTeam {
      StrikerAvailable(s);
      DeliverKeeps(s, runs[s.ball]);
      var t := Deliver(s, runs[s.ball]);
      if !Ended(t, inningsNum, maxDeliveries, playersPerTeam) {
        PlayFigures(t, runs, inningsNum, maxDeliveries, playersPerTeam);
      }
    }
  }

  /** An innings keeps both rosters (same players, same ids) and both sides' run tallies. */
  lemma {:induction false} PlayKeepsRosters(s: State, runs: seq<Runs>, inningsNum: int, maxDeliveries: nat, playersPerTeam: nat)
    requires Playable(s, runs, maxDeliveries, playersPerTeam)
    ensures var t := Play(s, runs, inningsNum, maxDeliveries, playersPerTeam);
      |t.bowl.players| == |s.bowl.players| &&
      Ids(t.bat.players) == Ids(s.bat.players) && Ids(t.bowl.players) == Ids(s.bowl.players) &&
      (Tallied(s.bat) ==> Tallied(t.bat)) && (Tallied(s.bowl) ==> Tallied(t.bowl))
    decreases maxDeliveries - s.ball
  {
    if s.ball < maxDeliveries && s.bat.totalWicketsLost < playersPerTeam {
      StrikerAvailable(s);
      DeliverKeeps(s, runs[s.ball]);
      var t := Deliver(s, runs[s.ball]);
      if !Ended(t, inningsNum, maxDeliveries, playersPerTeam) {
        PlayKeepsRosters(t, runs, inningsNum, maxDeliveries, playersPerTeam);
      }
    }
  }

  /** A player who is out never faces another ball in the innings: the record is frozen. */
  lemma {:induction false} DismissedStayOut(s: State, runs: seq<Runs>, inningsNum: int, maxDeliveries: nat, playersPerTeam: nat, k: nat)
    requires Playable(s, runs, maxDeliveries, playersPerTeam)
    requires k < |s.bat.players| && s.bat.players[k].isOut
    ensures Play(s, runs, inningsNum, maxDeliveries, playersPerTeam).bat.players[k] == s.bat.players[k]
    decreases maxDeliveries - s.ball
  {
    if s.ball < maxDeliveries && s.bat.totalWicketsLost < playersPerTeam {
      StrikerAvailable(s);
      DeliverKeeps(s, runs[s.ball]);
      var t := Deliver(s, runs[s.ball]);
      assert t.bat.players[k] == s.bat.players[k];
      if !Ended(t, inningsNum, maxDeliveries, playersPerTeam) {
        DismissedStayOut(t, runs, inningsNum, maxDeliveries, playersPerTeam, k);
      }
    }
  }

  /** In the second innings, the innings stops on the very delivery that takes the chasing side
      past the first-innings total. */
  lemma {:induction false} ChaseStopsAtOnce(s: State, runs: seq<Runs>, maxDeliveries: nat, playersPerTeam: nat)
    requires Playable(s, runs, maxDeliveries, playersPerTeam)
    requires s.bat.totalRuns <= s.bowl.totalRuns
    ensures var t := Play(s, runs, 2, maxDeliveries, playersPerTeam);
      t.bowl.totalRuns == s.bowl.totalRuns &&
      (t.bat.totalRuns > t.bowl.totalRuns ==>
         s.ball < t.ball && t.bat.totalRuns - runs[t.ball - 1] <= t.bowl.totalRuns)
    decreases maxDeliveries - s.ball
  {
    if s.ball < maxDeliveries && s.bat.totalWicketsLost < playersPerTeam {
      StrikerAvailable(s);
      DeliverKeeps(s, runs[s.ball]);
      var t := Deliver(s, runs[s.ball]);
      if !Ended(t, 2, maxDeliveries, playersPerTeam) {
        ChaseStopsAtOnce(t, runs, maxDeliveries, playersPerTeam);
      }
    }
  }

  /** A first innings of nothing but dots: one wicket per ball, until every batsman is out. */
  lemma {:induction false} AllDucks(s: State, runs: seq<Runs>, inningsNum: int, maxDeliveries: nat, playersPerTeam: nat)
    requires Playable(s, runs, maxDeliveries, playersPerTeam) && inningsNum != 2
    requires forall k :: s.ball <= k < maxDeliveries ==> runs[k] == 0
    requires s.ball + (playersPerTeam - s.bat.totalWicketsLost) <= maxDeliveries
    ensures var t := Play(s, runs, inningsNum, maxDeliveries, playersPerTeam);
      t.ball == s.ball + (playersPerTeam - s.bat.totalWicketsLost) &&
      t.bat.totalWicketsLost == playersPerTeam && t.bat.totalRuns == s.bat.totalRuns
    decreases maxDeliveries - s.ball
  {
    if s.bat.totalWicketsLost < playersPerTeam {
      StrikerAvailable(s);
      DeliverKeeps(s, runs[s.ball]);
      var t := Deliver(s, runs[s.ball]);
      if !Ended(t, inningsNum, maxDeliveries, playersPerTeam) {
        AllDucks(t, runs, inningsNum, maxDeliveries, playersPerTeam);
      }
    }
  }

  /** A first innings of nothing but sixes: no wicket falls and every ball is bowled. */
  lemma {:induction false} AllSixes(s: State, runs: seq<Runs>, inningsNum: int, maxDeliveries: nat, playersPerTeam: nat)
    requires Playable(s, runs, maxDeliveries, playersPerTeam) && inningsNum != 2
    requires forall k :: s.ball <= k < maxDeliveries ==> runs[k] == 6
    requires s.bat.totalWicketsLost < playersPerTeam
    ensures var t := Play(s, runs, inningsNum, maxDeliveries, playersPerTeam);
      t.ball == maxDeliveries && t.bat.totalWicketsLost == s.bat.totalWicketsLost &&
      t.bat.totalRuns == s.bat.totalRuns + 6 * (maxDeliveries - s.ball)
    decreases maxDeliveries - s.ball
  {
    if s.ball < maxDeliveries {
      StrikerAvailable(s);
      DeliverKeeps(s, runs[s.ball]);
      var t := Deliver(s, runs[s.ball]);
      if !Ended(t, inningsNum, maxDeliveries, playersPerTeam) {
        AllSixes(t, runs, inningsNum, maxDeliveries, playersPerTeam);
      }
    }
  }

  /** A side that has not batted: no totals yet and nobody out. */
  predicate FreshSide(t: Team)
  {
    t.totalRuns == 0 && t.totalWicketsLost == 0 && t.totalBallsBowled == 0 &&
    forall k :: 0 <= k < |t.players| ==> !t.players[k].isOut
  }

  /** Four batsmen, six balls, every ball a dot: all out after four balls for nought. */
  lemma FirstInningsAllDucks(bat: Team, bowl: Team, runs: seq<Runs>)
    requires FreshSide(bat) && |bat.players| == 4 && 0 < |bowl.players|
    requires 6 <= |runs| && forall k :: 0 <= k < |runs| ==> runs[k] == 0
    requires bat.totalWicketsLost == CountOut(bat.players)
    ensures var t := WholeInnings(bat, bowl, runs, 1, 6, 4);
      t.ball == 4 && t.bat.totalBallsBowled == 4 && t.bat.totalRuns == 0 && t.bat.totalWicketsLost == 4
  {
    var s := State(bat, bowl, 0, 0);
    assert NextNotOut(bat.players, 0) == 0;
    AllDucks(s, runs, 1, 6, 4);
    PlayFigures(s, runs, 1, 6, 4);
  }

  /** Four batsmen, six balls, every ball a six: 36 without loss off six balls. */
  lemma FirstInningsAllSixes(bat: Team, bowl: Team, runs: seq<Runs>)
    requires FreshSide(bat) && |bat.players| == 4 && 0 < |bowl.players|
    requires 6 <= |runs| && forall k :: 0 <= k < |runs| ==> runs[k] == 6
    requires bat.totalWicketsLost == CountOut(bat.players)
    ensures var t := WholeInnings(bat, bowl, runs, 1, 6, 4);
      t.ball == 6 && t.bat.totalBallsBowled == 6 && t.bat.totalRuns == 36 && t.bat.totalWicketsLost == 0
  {
    var s := State(bat, bowl, 0, 0);
    assert NextNotOut(bat.players, 0) == 0;
    AllSixes(s, runs, 1, 6, 4);
    PlayFigures(s, runs, 1, 6, 4);
  }
}
