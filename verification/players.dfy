/**
 * Players and teams, as values. A team owns copies of its players (a
 * vector of Player records), so both are datatypes here; the game
 * updates them by replacing the record in its own fields.
 */
module Players {

  /** One player: identity, batting and bowling figures, and the dismissal flag.
      The display name is left out: no rule of the game reads it. */
  datatype Player = Player(
    id: int,
    runsScored: int,
    ballsPlayed: int,
    ballsBowled: int,
    runsGiven: int,
    wicketsTaken: int,
    isOut: bool)

  /** The Player constructor: every figure starts at zero, not out. */
  function NewPlayer(id: int): Player
  {
    Player(id, 0, 0, 0, 0, 0, false)
  }

  /** Number of candidates in the shared pool. */
  const PoolSize := 11

  /** The pool built by the Game constructor: the player with id k + 1 sits at index k. */
  function Pool(): (pool: seq<Player>)
    ensures |pool| == PoolSize
    ensures forall k :: 0 <= k < |pool| ==> pool[k].id == k + 1
    ensures forall k :: 0 <= k < |pool| ==> pool[k] == NewPlayer(pool[k].id)
  {
    seq(PoolSize, k => NewPlayer(k + 1))
  }

  /** A team: its players in batting order and its running totals. */
  datatype Team = Team(
    players: seq<Player>,
    totalRuns: int,
    totalWicketsLost: int,
    totalBallsBowled: int)

  /** The Team constructor: no players yet, and totals that agree with the (empty) roster. */
  function NewTeam(): (t: Team)
    ensures t.players == [] && t.totalRuns == 0 && t.totalWicketsLost == 0 && t.totalBallsBowled == 0
    ensures Tallied(t) && t.totalWicketsLost == CountOut(t.players)
  {
    Team([], 0, 0, 0)
  }

  /** The two sides of the match; a Side stands for a Team* pointer to one of the game's two teams. */
  datatype Side = TeamA | TeamB

  function Other(side: Side): Side
  {
    if side == TeamA then TeamB else TeamA
  }

  /** The ids of a roster, in batting order. */
  function Ids(ps: seq<Player>): (ids: seq<int>)
    ensures |ids| == |ps|
    ensures forall k :: 0 <= k < |ps| ==> ids[k] == ps[k].id
  {
    seq(|ps|, k requires 0 <= k < |ps| => ps[k].id)
  }

  /** Number of players of a roster marked out. */
  function CountOut(ps: seq<Player>): (n: nat)
    ensures n <= |ps|
  {
    if ps == [] then 0
    else CountOut(ps[..|ps| - 1]) + (if ps[|ps| - 1].isOut then 1 else 0)
  }

  /** Sum of the runs scored by the players of a roster. */
  function SumRuns(ps: seq<Player>): int
  {
    if ps == [] then 0
    else SumRuns(ps[..|ps| - 1]) + ps[|ps| - 1].runsScored
  }

  /** Adding a player adds that player's runs to the sum. */
  lemma SumRunsAppend(ps: seq<Player>, p: Player)
    ensures SumRuns(ps + [p]) == SumRuns(ps) + p.runsScored
  {
    assert (ps + [p])[..|ps|] == ps;
  }

  /** A team's total equals the runs its players have scored. */
  predicate Tallied(t: Team)
  {
    t.totalRuns == SumRuns(t.players)
  }

  /** The team with every dismissal flag cleared, as at the start of the second innings:
      nobody is out, and the roster and the totals are the same. */
  function Reinstated(t: Team): (r: Team)
    ensures |r.players| == |t.players| && CountOut(r.players) == 0
    ensures r.totalRuns == t.totalRuns && r.totalWicketsLost == t.totalWicketsLost
    ensures r.totalBallsBowled == t.totalBallsBowled
    ensures forall k :: 0 <= k < |r.players| ==>
      !r.players[k].isOut && r.players[k].(isOut := t.players[k].isOut) == t.players[k]
  {
    var players := seq(|t.players|, k requires 0 <= k < |t.players| => t.players[k].(isOut := false));
    NoneOut(players);
    t.(players := players)
  }

  /** Replacing one player changes the dismissed count by the change in that player's flag. */
  lemma {:induction false} CountOutUpdate(ps: seq<Player>, i: nat, p: Player)
    requires i < |ps|
    ensures CountOut(ps[i := p])
         == CountOut(ps) - (if ps[i].isOut then 1 else 0) + (if p.isOut then 1 else 0)
  {
    var n := |ps| - 1;
    if i < n {
      assert ps[i := p][..n] == ps[..n][i := p];
      CountOutUpdate(ps[..n], i, p);
    } else {
      assert ps[i := p][..n] == ps[..n];
    }
  }

  /** Replacing one player changes the runs sum by the change in that player's runs. */
  lemma {:induction false} SumRunsUpdate(ps: seq<Player>, i: nat, p: Player)
    requires i < |ps|
    ensures SumRuns(ps[i := p]) == SumRuns(ps) - ps[i].runsScored + p.runsScored
  {
    var n := |ps| - 1;
    if i < n {
      assert ps[i := p][..n] == ps[..n][i := p];
      SumRunsUpdate(ps[..n], i, p);
    } else {
      assert ps[i := p][..n] == ps[..n];
    }
  }

  /** When every player is out, the dismissed count is the roster size. */
  lemma {:induction false} AllOut(ps: seq<Player>)
    requires forall k :: 0 <= k < |ps| ==> ps[k].isOut
    ensures CountOut(ps) == |ps|
  {
    if ps != [] {
      AllOut(ps[..|ps| - 1]);
    }
  }

  /** When no player is out, the dismissed count is zero. */
  lemma {:induction false} NoneOut(ps: seq<Player>)
    requires forall k :: 0 <= k < |ps| ==> !ps[k].isOut
    ensures CountOut(ps) == 0
  {
    if ps != [] {
      NoneOut(ps[..|ps| - 1]);
    }
  }

  /** Two rosters whose players scored the same runs, position by position, have the same sum. */
  lemma {:induction false} SumRunsSame(ps: seq<Player>, qs: seq<Player>)
    requires |ps| == |qs|
    requires forall k :: 0 <= k < |ps| ==> ps[k].runsScored == qs[k].runsScored
    ensures SumRuns(ps) == SumRuns(qs)
  {
    if ps != [] {
      SumRunsSame(ps[..|ps| - 1], qs[..|qs| - 1]);
    }
  }

  /** Clearing the dismissal flags keeps the roster's ids and its runs tally. */
  lemma ReinstatedKeeps(t: Team)
    ensures Ids(Reinstated(t).players) == Ids(t.players)
    ensures SumRuns(Reinstated(t).players) == SumRuns(t.players)
    ensures Tallied(t) ==> Tallied(Reinstated(t))
  {
    SumRunsSame(Reinstated(t).players, t.players);
  }

  /** When no player has scored, the runs tally is zero. */
  lemma {:induction false} NoRuns(ps: seq<Player>)
    requires forall k :: 0 <= k < |ps| ==> ps[k].runsScored == 0
    ensures SumRuns(ps) == 0
  {
    if ps != [] {
      NoRuns(ps[..|ps| - 1]);
    }
  }

  /** A roster of newly constructed players with the given ids: it has exactly those ids,
      nobody out and no runs. */
  function Roster(ids: seq<int>): (ps: seq<Player>)
    ensures Ids(ps) == ids
    ensures CountOut(ps) == 0 && SumRuns(ps) == 0
  {
    var ps := seq(|ids|, k requires 0 <= k < |ids| => NewPlayer(ids[k]));
    NoneOut(ps);
    NoRuns(ps);
    ps
  }
}
