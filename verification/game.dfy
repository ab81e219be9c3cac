/**
 * The game object: two teams owned by value, the shared pool, the ids
 * already picked, and which side bats and which bowls. Its methods update
 * these fields in place and are proved against the functions of the
 * Selection, Toss, Innings and Summary modules.
 */
module Match {
  import opened Wrappers
  import opened Players
  import opened Selection
  import opened Toss
  import opened Innings
  import opened Summary

  class Game {
    var teamA: Team
    var teamB: Team
    const playersPerTeam: nat := 4
    const maxDeliveries: nat := 6
    var inningsNum: int
    /** The sides behind the batting and bowling pointers; None before the toss. */
    var battingTeam: Option<Side>
    var bowlingTeam: Option<Side>
    const allPlayers: seq<Player> := Pool()
    var selectedPlayerIds: seq<int>

    /**
     * The object invariant: the picked ids are those of TeamA's players then
     * TeamB's, all distinct and all in the pool's range; the two pointers are
     * set together and never to the same side; each team's total equals the
     * runs its players have scored.
     */
    ghost predicate Valid()
      reads this
    {
      Picked(selectedPlayerIds, teamA.players, teamB.players) &&
      (battingTeam.None? <==> bowlingTeam.None?) &&
      (battingTeam.Some? ==> bowlingTeam.value == Other(battingTeam.value)) &&
      Tallied(teamA) && Tallied(teamB)
    }

    /** Both rosters are full and the toss has fixed the sides. */
    predicate Ready()
      reads this
    {
      battingTeam.Some? && bowlingTeam.Some? &&
      |teamA.players| == playersPerTeam && |teamB.players| == playersPerTeam
    }

    function TeamAt(side: Side): Team
      reads this
    {
      if side == TeamA then teamA else teamB
    }

    function Batting(): Team
      reads this
      requires battingTeam.Some?
    {
      TeamAt(battingTeam.value)
    }

    function Bowling(): Team
      reads this
      requires bowlingTeam.Some?
    {
      TeamAt(bowlingTeam.value)
    }

    constructor ()
      ensures Valid()
      ensures teamA == NewTeam() && teamB == NewTeam()
      ensures inningsNum == 0 && battingTeam == None && bowlingTeam == None
      ensures selectedPlayerIds == []
    {
      teamA := NewTeam();
      teamB := NewTeam();
      inningsNum := 0;
      battingTeam := None;
      bowlingTeam := None;
      selectedPlayerIds := [];
    }

    /** Accepts an id exactly when it is in the pool's range and nobody has picked it yet. */
    method CheckPlayerSelection(playerId: int) returns (ok: bool)
      ensures ok <==> Selectable(playerId, |allPlayers|, selectedPlayerIds)
    {
      if playerId < 1 || playerId > |allPlayers| {
        return false;
      }
      var k := 0;
      while k < |selectedPlayerIds|
        invariant 0 <= k <= |selectedPlayerIds|
        invariant playerId !in selectedPlayerIds[..k]
      {
        if selectedPlayerIds[k] == playerId {
          return false;
        }
        k := k + 1;
      }
      assert selectedPlayerIds[..k] == selectedPlayerIds;
      return true;
    }

    /** Accepting an id: a copy of that pool player joins `side` and the id is recorded as taken. */
    method AddPick(side: Side, playerId: int)
      requires Valid() && Selectable(playerId, |allPlayers|, selectedPlayerIds)
      requires side == TeamA ==> teamB.players == []
      modifies this`teamA, this`teamB, this`selectedPlayerIds
      ensures Valid()
      ensures selectedPlayerIds == old(selectedPlayerIds) + [playerId]
      ensures TeamAt(side) == old(TeamAt(side)).(players := old(TeamAt(side)).players + [allPlayers[playerId - 1]])
      ensures TeamAt(Other(side)) == old(TeamAt(Other(side)))
    {
      var p := allPlayers[playerId - 1];
      assert p.id == playerId && p.runsScored == 0;
      PickedAppend(selectedPlayerIds, teamA.players, teamB.players, p);
      var grown := TeamAt(side).(players := TeamAt(side).players + [p]);
      SumRunsAppend(TeamAt(side).players, p);
      assert Tallied(grown);
      if side == TeamA {
        teamA := grown;
      } else {
        teamB := grown;
      }
      selectedPlayerIds := selectedPlayerIds + [playerId];
      assert Picked(selectedPlayerIds, teamA.players, teamB.players);
    }

    /**
     * The retry loop of one pick: reads ids from `input` starting at `from`
     * until one passes the selection check. `found` is false only when the
     * input ran out; the ids read before the accepted one were all refused.
     */
    method NextAccepted(input: seq<int>, from: nat) returns (next: nat, found: bool)
      requires from <= |input|
      requires selectedPlayerIds == Accepted(input[..from], |allPlayers|)
      ensures from <= next <= |input|
      ensures forall k :: from <= k < next - 1 ==> !Selectable(input[k], |allPlayers|, selectedPlayerIds)
      ensures !found ==> next == |input| && Accepted(input[..next], |allPlayers|) == selectedPlayerIds
      ensures found ==> from < next && Selectable(input[next - 1], |allPlayers|, selectedPlayerIds)
      ensures found ==> Accepted(input[..next], |allPlayers|) == selectedPlayerIds + [input[next - 1]]
    {
      next, found := from, false;
      while next < |input|
        invariant from <= next <= |input|
        invariant selectedPlayerIds == Accepted(input[..next], |allPlayers|)
        invariant forall k :: from <= k < next ==> !Selectable(input[k], |allPlayers|, selectedPlayerIds)
        decreases |input| - next
      {
        var playerId := input[next];
        AcceptedNext(input, next, |allPlayers|);
        next := next + 1;
        var ok := CheckPlayerSelection(playerId);
        if ok {
          found := true;
          return;
        }
      }
    }

    /**
     * One pick: the retry loop, then a copy of the accepted pool player is
     * appended to `side` and its id recorded. Returns where reading stopped;
     * `added` is false only when the input ran out.
     */
    method PickPlayer(side: Side, input: seq<int>, from: nat) returns (next: nat, added: bool)
      requires Valid() && from <= |input|
      requires selectedPlayerIds == Accepted(input[..from], |allPlayers|)
      requires side == TeamA ==> teamB.players == []
      modifies this`teamA, this`teamB, this`selectedPlayerIds
      ensures Valid()
      ensures from <= next <= |input|
      ensures selectedPlayerIds == Accepted(input[..next], |allPlayers|)
      ensures !added ==> next == |input| && selectedPlayerIds == old(selectedPlayerIds)
      ensures !added ==> teamA == old(teamA) && teamB == old(teamB)
      ensures added ==> from < next && 1 <= input[next - 1] <= PoolSize
      ensures added ==> selectedPlayerIds == old(selectedPlayerIds) + [input[next - 1]]
      ensures added && side == TeamA ==>
        teamA == old(teamA).(players := old(teamA.players) + [allPlayers[input[next - 1] - 1]]) && teamB == old(teamB)
      ensures added && side == TeamB ==>
        teamB == old(teamB).(players := old(teamB.players) + [allPlayers[input[next - 1] - 1]]) && teamA == old(teamA)
    {
      next, added := NextAccepted(input, from);
      if added {
        AddPick(side, input[next - 1]);
      }
    }

    /**
     * Team selection: `playersPerTeam` picks for TeamA, then as many for TeamB,
     * reading ids from `input` in order. `done` is false when the input runs
     * out first; the picks made until then stay.
     */
    method SelectPlayers(input: seq<int>) returns (used: nat, done: bool)
      requires Valid() && selectedPlayerIds == []
      modifies this`teamA, this`teamB, this`selectedPlayerIds
      ensures Valid()
      ensures used <= |input|
      ensures selectedPlayerIds == Accepted(input[..used], |allPlayers|)
      ensures done <==> |selectedPlayerIds| == 2 * playersPerTeam
      ensures !done ==> used == |input| && |selectedPlayerIds| < 2 * playersPerTeam
      ensures |teamA.players| == if |selectedPlayerIds| < playersPerTeam then |selectedPlayerIds| else playersPerTeam
      ensures |selectedPlayerIds| == |teamA.players| + |teamB.players| && |teamB.players| <= playersPerTeam
      ensures FreshCopies(teamA.players) && FreshCopies(teamB.players)
      ensures forall i, j :: 0 <= i < |teamA.players| && 0 <= j < |teamB.players| ==>
        teamA.players[i].id != teamB.players[j].id
      ensures teamA == old(teamA).(players := teamA.players)
      ensures teamB == old(teamB).(players := teamB.players)
    {
      used, done := SelectTeamA(input);
      if done {
        used, done := SelectTeamB(input, used);
      }
      PickedDisjoint(selectedPlayerIds, teamA.players, teamB.players);
    }

    /** The first selection loop: `playersPerTeam` picks for TeamA while TeamB stays empty. */
    method SelectTeamA(input: seq<int>) returns (used: nat, done: bool)
      requires Valid() && selectedPlayerIds == []
      modifies this`teamA, this`teamB, this`selectedPlayerIds
      ensures Valid()
      ensures used <= |input|
      ensures selectedPlayerIds == Accepted(input[..used], |allPlayers|)
      ensures done <==> |selectedPlayerIds| == playersPerTeam
      ensures !done ==> used == |input| && |selectedPlayerIds| < playersPerTeam
      ensures |teamA.players| == |selectedPlayerIds| && teamB == old(teamB) && teamB.players == []
      ensures FreshCopies(teamA.players)
      ensures teamA == old(teamA).(players := teamA.players)
    {
      used := 0;
      var i := 0;
      while i < playersPerTeam
        invariant Valid()
        invariant i <= playersPerTeam && used <= |input|
        invariant selectedPlayerIds == Accepted(input[..used], |allPlayers|)
        invariant |selectedPlayerIds| == i && |teamA.players| == i && teamB.players == []
        invariant FreshCopies(teamA.players)
        invariant teamA == old(teamA).(players := teamA.players) && teamB == old(teamB)
      {
        var added;
        used, added := PickPlayer(TeamA, input, used);
        if !added {
          return used, false;
        }
        i := i + 1;
      }
      done := true;
    }

    /** The second selection loop: `playersPerTeam` picks for TeamB once TeamA is full. */
    method SelectTeamB(input: seq<int>, from: nat) returns (used: nat, done: bool)
      requires Valid() && from <= |input|
      requires selectedPlayerIds == Accepted(input[..from], |allPlayers|)
      requires |selectedPlayerIds| == playersPerTeam && |teamA.players| == playersPerTeam
      modifies this`teamA, this`teamB, this`selectedPlayerIds
      ensures Valid()
      ensures from <= used <= |input|
      ensures selectedPlayerIds == Accepted(input[..used], |allPlayers|)
      ensures done <==> |selectedPlayerIds| == 2 * playersPerTeam
      ensures !done ==> used == |input| && |selectedPlayerIds| < 2 * playersPerTeam
      ensures |selectedPlayerIds| == playersPerTeam + |teamB.players| && |teamB.players| <= playersPerTeam
      ensures teamA == old(teamA) && FreshCopies(teamB.players)
      ensures teamB == old(teamB).(players := teamB.players)
    {
      used := from;
      var i := 0;
      while i < playersPerTeam
        invariant Valid()
        invariant i <= playersPerTeam && from <= used <= |input|
        invariant selectedPlayerIds == Accepted(input[..used], |allPlayers|)
        invariant |selectedPlayerIds| == playersPerTeam + i && |teamB.players| == i
        invariant teamA == old(teamA) && FreshCopies(teamB.players)
        invariant teamB == old(teamB).(players := teamB.players)
      {
        var added;
        used, added := PickPlayer(TeamB, input, used);
        if !added {
          return used, false;
        }
        i := i + 1;
      }
      done := true;
    }

    /** The toss: the coin decides the winner, whose choice fixes the sides for the first innings. */
    method Toss(call: int, tossResult: int, choice: int)
      requires Valid() && (tossResult == 0 || tossResult == 1)
      modifies this`battingTeam, this`bowlingTeam
      ensures Valid()
      ensures battingTeam == Some(Roles(TossWinner(call, tossResult), choice).0)
      ensures bowlingTeam == Some(Roles(TossWinner(call, tossResult), choice).1)
    {
      var winner := TossWinner(call, tossResult);
      var roles := Roles(winner, choice);
      battingTeam := Some(roles.0);
      bowlingTeam := Some(roles.1);
    }

    /** Writes the two sides back through the batting and bowling pointers. */
    method StoreSides(bat: Team, bowl: Team)
      requires battingTeam.Some? && bowlingTeam == Some(Other(battingTeam.value))
      modifies this`teamA, this`teamB
      ensures Batting() == bat && Bowling() == bowl
    {
      if battingTeam.value == TeamA {
        teamA, teamB := bat, bowl;
      } else {
        teamA, teamB := bowl, bat;
      }
    }

    /** Clears every player's dismissal flag in both teams, one player at a time. */
    method ReinstateAll()
      requires Valid()
      modifies this`teamA, this`teamB
      ensures Valid()
      ensures teamA == Reinstated(old(teamA)) && teamB == Reinstated(old(teamB))
    {
      for k := 0 to |teamA.players|
        invariant teamB == old(teamB)
        invariant |teamA.players| == |old(teamA).players|
        invariant forall j :: 0 <= j < k ==> teamA.players[j] == old(teamA).players[j].(isOut := false)
        invariant forall j :: k <= j < |teamA.players| ==> teamA.players[j] == old(teamA).players[j]
        invariant teamA.(players := old(teamA).players) == old(teamA)
      {
        teamA := teamA.(players := teamA.players[k := teamA.players[k].(isOut := false)]);
      }
      assert teamA.players == Reinstated(old(teamA)).players;
      for k := 0 to |teamB.players|
        invariant teamA == Reinstated(old(teamA))
        invariant |teamB.players| == |old(teamB).players|
        invariant forall j :: 0 <= j < k ==> teamB.players[j] == old(teamB).players[j].(isOut := false)
        invariant forall j :: k <= j < |teamB.players| ==> teamB.players[j] == old(teamB).players[j]
        invariant teamB.(players := old(teamB).players) == old(teamB)
      {
        teamB := teamB.(players := teamB.players[k := teamB.players[k].(isOut := false)]);
      }
      assert teamB.players == Reinstated(old(teamB)).players;
      ReinstatedKeeps(old(teamA));
      ReinstatedKeeps(old(teamB));
    }

    /**
     * One ball worth `r` runs: the striker at `batsmanIndex` and the first
     * player of the bowling side are updated in place, together with the
     * batting side's totals; on a dot ball the striker is out and the next
     * batsman not out is found. Returns the new striker's index.
     */
    method DeliverBall(batsmanIndex: nat, r: Runs, ghost ball: nat) returns (nextIndex: nat)
      requires Valid() && Ready()
      requires Sound(State(Batting(), Bowling(), batsmanIndex, ball)) && batsmanIndex < |Batting().players|
      modifies this`teamA, this`teamB
      ensures Valid() && Ready()
      ensures State(Batting(), Bowling(), nextIndex, ball + 1) == Deliver(old(State(Batting(), Bowling(), batsmanIndex, ball)), r)
    {
      ghost var before := State(Batting(), Bowling(), batsmanIndex, ball);
      var bat, bowl := Batting(), Bowling();
      var striker := bat.players[batsmanIndex];
      var bowler := bowl.players[0];

      striker := striker.(runsScored := striker.runsScored + r, ballsPlayed := striker.ballsPlayed + 1);
      bat := bat.(totalRuns := bat.totalRuns + r);
      bowler := bowler.(ballsBowled := bowler.ballsBowled + 1, runsGiven := bowler.runsGiven + r);
      bat := bat.(totalBallsBowled := bat.totalBallsBowled + 1);
      if r == 0 {
        striker := striker.(isOut := true);
        bat := bat.(totalWicketsLost := bat.totalWicketsLost + 1);
        bowler := bowler.(wicketsTaken := bowler.wicketsTaken + 1);
      }
      bat := bat.(players := bat.players[batsmanIndex := striker]);
      bowl := bowl.(players := bowl.players[0 := bowler]);
      nextIndex := batsmanIndex;
      if r == 0 {
        nextIndex := SkipDismissed(bat.players, batsmanIndex + 1);
      }
      assert State(bat, bowl, nextIndex, ball + 1) == Deliver(before, r);
      DeliverKeeps(before, r);
      StoreSides(bat, bowl);
    }

    /**
     * One innings, ball by ball, on the two teams in place. Ball k is worth
     * runs[k]; the innings stops when the balls are used up, every batsman is
     * out or, in the second innings, the chase succeeds.
     */
    method PlayInnings(runs: seq<Runs>)
      requires Valid() && Ready() && maxDeliveries <= |runs|
      requires Batting().totalWicketsLost == CountOut(Batting().players)
      modifies this`teamA, this`teamB
      ensures Valid() && Ready()
      ensures var t := WholeInnings(old(Batting()), old(Bowling()), runs, inningsNum, maxDeliveries, playersPerTeam);
        Batting() == t.bat && Bowling() == t.bowl
    {
      var currentBall: nat := 0;
      var batsmanIndex: nat := SkipDismissed(Batting().players, 0);
      if batsmanIndex >= |Batting().players| {
        return;
      }
      ghost var start := State(Batting(), Bowling(), batsmanIndex, 0);
      ghost var final := Play(start, runs, inningsNum, maxDeliveries, playersPerTeam);
      while currentBall < maxDeliveries && Batting().totalWicketsLost < playersPerTeam
        invariant Valid() && Ready()
        invariant Playable(State(Batting(), Bowling(), batsmanIndex, currentBall), runs, maxDeliveries, playersPerTeam)
        invariant Play(State(Batting(), Bowling(), batsmanIndex, currentBall), runs, inningsNum, maxDeliveries, playersPerTeam) == final
        decreases maxDeliveries - currentBall
      {
        ghost var before := State(Batting(), Bowling(), batsmanIndex, currentBall);
        StrikerAvailable(before);
        DeliverKeeps(before, runs[currentBall]);
        batsmanIndex := DeliverBall(batsmanIndex, runs[currentBall], currentBall);
        currentBall := currentBall + 1;

        if inningsNum == 2 {
          if Batting().totalRuns > Bowling().totalRuns || currentBall == maxDeliveries
             || Batting().totalWicketsLost == playersPerTeam {
            assert State(Batting(), Bowling(), batsmanIndex, currentBall) == final;
            break;
          }
        } else {
          if currentBall == maxDeliveries || Batting().totalWicketsLost == playersPerTeam {
            assert State(Batting(), Bowling(), batsmanIndex, currentBall) == final;
            break;
          }
        }
      }
    }

    /**
     * Starts an innings and plays it. For the second innings the batting and
     * bowling pointers swap and every player of both teams is reinstated.
     */
    method StartInnings(inningsNumber: int, runs: seq<Runs>)
      requires Valid() && Ready() && maxDeliveries <= |runs|
      requires inningsNumber == 2 ==> Bowling().totalWicketsLost == 0
      requires inningsNumber != 2 ==> Batting().totalWicketsLost == CountOut(Batting().players)
      modifies this`inningsNum, this`battingTeam, this`bowlingTeam, this`teamA, this`teamB
      ensures Valid() && Ready()
      ensures inningsNum == inningsNumber
      ensures battingTeam == if inningsNumber == 2 then old(bowlingTeam) else old(battingTeam)
      ensures bowlingTeam == if inningsNumber == 2 then old(battingTeam) else old(bowlingTeam)
      ensures var bat := if inningsNumber == 2 then Reinstated(old(Bowling())) else old(Batting());
              var bowl := if inningsNumber == 2 then Reinstated(old(Batting())) else old(Bowling());
              var t := WholeInnings(bat, bowl, runs, inningsNumber, maxDeliveries, playersPerTeam);
              Batting() == t.bat && Bowling() == t.bowl
    {
      inningsNum := inningsNumber;
      if inningsNum == 2 {
        battingTeam, bowlingTeam := bowlingTeam, battingTeam;
        ReinstateAll();
        ReinstatedKeeps(old(Bowling()));
        ReinstatedKeeps(old(Batting()));
      }
      PlayInnings(runs);
    }

    /**
     * What main does once both teams are picked: the toss, then the two
     * innings. The first is played by the lineups the toss puts in, the
     * second by the same teams with the roles swapped and every player
     * reinstated; `first` and `second` are the two innings as values.
     */
    method TossAndPlay(call: int, tossResult: int, choice: int, runs1: seq<Runs>, runs2: seq<Runs>)
      returns (ghost first: State, ghost second: State)
      requires Valid() && (tossResult == 0 || tossResult == 1)
      requires maxDeliveries <= |runs1| && maxDeliveries <= |runs2|
      requires |selectedPlayerIds| == 2 * playersPerTeam
      requires teamA == Lineup(selectedPlayerIds, playersPerTeam, TeamA)
      requires teamB == Lineup(selectedPlayerIds, playersPerTeam, TeamB)
      modifies this`inningsNum, this`battingTeam, this`bowlingTeam, this`teamA, this`teamB
      ensures Valid() && Ready() && inningsNum == 2
      ensures var roles := Roles(TossWinner(call, tossResult), choice);
              first == WholeInnings(Lineup(selectedPlayerIds, playersPerTeam, roles.0),
                                    Lineup(selectedPlayerIds, playersPerTeam, roles.1),
                                    runs1, 1, maxDeliveries, playersPerTeam) &&
              battingTeam == Some(roles.1)
      ensures second == WholeInnings(Reinstated(first.bowl), Reinstated(first.bat), runs2, 2, maxDeliveries, playersPerTeam)
      ensures Batting() == second.bat && Bowling() == second.bowl
      ensures Batting().totalWicketsLost <= playersPerTeam && Bowling().totalWicketsLost <= playersPerTeam
      ensures Batting().totalBallsBowled <= maxDeliveries && Bowling().totalBallsBowled <= maxDeliveries
    {
      Toss(call, tossResult, choice);
      first := WholeInnings(Batting(), Bowling(), runs1, 1, maxDeliveries, playersPerTeam);
      StartInnings(1, runs1);
      second := WholeInnings(Reinstated(first.bowl), Reinstated(first.bat), runs2, 2, maxDeliveries, playersPerTeam);
      StartInnings(2, runs2);
    }
  }

  /** Every player is an untouched copy of the pool player with its id. */
  predicate FreshCopies(ps: seq<Player>)
  {
    forall k :: 0 <= k < |ps| ==> 1 <= ps[k].id <= PoolSize && ps[k] == Pool()[ps[k].id - 1]
  }

  /** The team the selection gives `side` before any ball: new players with the first
      `perTeam` picks (TeamA) or the rest (TeamB), and every total zero. */
  function Lineup(picks: seq<int>, perTeam: nat, side: Side): Team
    requires perTeam <= |picks|
  {
    NewTeam().(players := Roster(if side == TeamA then picks[..perTeam] else picks[perTeam..]))
  }

  /** A roster of untouched pool copies is the roster of new players with its ids. */
  lemma FreshRoster(ps: seq<Player>)
    requires FreshCopies(ps)
    ensures ps == Roster(Ids(ps))
  {
    var ids := Ids(ps);
    assert forall k :: 0 <= k < |ps| ==> Roster(ids)[k] == NewPlayer(ids[k]);
  }

  /** After selection the two teams are the lineups of the picks. */
  lemma SelectedLineups(picks: seq<int>, a: Team, b: Team, perTeam: nat)
    requires Picked(picks, a.players, b.players) && |a.players| == perTeam
    requires FreshCopies(a.players) && FreshCopies(b.players)
    requires a == NewTeam().(players := a.players) && b == NewTeam().(players := b.players)
    ensures a == Lineup(picks, perTeam, TeamA) && b == Lineup(picks, perTeam, TeamB)
  {
    assert picks[..perTeam] == Ids(a.players) && picks[perTeam..] == Ids(b.players);
    FreshRoster(a.players);
    FreshRoster(b.players);
  }

  /**
   * The whole match as main runs it: selection, toss, two innings and the
   * result. The result is None when the ids run out before both teams are
   * full (the console would wait for more). `first` and `second` are the two
   * innings: the first is played by the lineups the toss puts in, the second
   * by the same teams with the roles swapped and every player reinstated.
   */
  method PlayMatch(ids: seq<int>, call: int, tossResult: int, choice: int, runs1: seq<Runs>, runs2: seq<Runs>)
    returns (g: Game, result: Option<Outcome>, used: nat, ghost first: State, ghost second: State)
    requires tossResult == 0 || tossResult == 1
    requires 6 <= |runs1| && 6 <= |runs2|
    ensures g.Valid()
    ensures used <= |ids| && g.selectedPlayerIds == Accepted(ids[..used], PoolSize)
    ensures result.Some? <==> |Accepted(ids, PoolSize)| >= 2 * g.playersPerTeam
    ensures result.None? ==> used == |ids| && |g.selectedPlayerIds| < 2 * g.playersPerTeam
    ensures result.Some? ==> |g.selectedPlayerIds| == 2 * g.playersPerTeam && g.Ready() && g.inningsNum == 2
    ensures result.Some? ==>
      var roles := Roles(TossWinner(call, tossResult), choice);
      first == WholeInnings(Lineup(g.selectedPlayerIds, g.playersPerTeam, roles.0),
                            Lineup(g.selectedPlayerIds, g.playersPerTeam, roles.1),
                            runs1, 1, g.maxDeliveries, g.playersPerTeam) &&
      second == WholeInnings(Reinstated(first.bowl), Reinstated(first.bat), runs2, 2, g.maxDeliveries, g.playersPerTeam) &&
      g.battingTeam == Some(roles.1) && g.Batting() == second.bat && g.Bowling() == second.bowl
    ensures result.Some? ==> result.value == Decide(g.teamA.totalRuns, g.teamB.totalRuns)
    ensures result.Some? ==> g.Batting().totalWicketsLost <= g.playersPerTeam && g.Bowling().totalWicketsLost <= g.playersPerTeam
    ensures result.Some? ==> g.Batting().totalBallsBowled <= g.maxDeliveries && g.Bowling().totalBallsBowled <= g.maxDeliveries
  {
    first, second := State(NewTeam(), NewTeam(), 0, 0), State(NewTeam(), NewTeam(), 0, 0);
    g := new Game();
    var done;
    used, done := g.SelectPlayers(ids);
    if !done {
      assert ids[..used] == ids;
      return g, None, used, first, second;
    }
    AcceptedGrows(ids, used, PoolSize);
    SelectedLineups(g.selectedPlayerIds, g.teamA, g.teamB, g.playersPerTeam);
    first, second := g.TossAndPlay(call, tossResult, choice, runs1, runs2);
    result := Some(Decide(g.teamA.totalRuns, g.teamB.totalRuns));
  }
}
