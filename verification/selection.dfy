/**
 * Team selection: which of the ids typed at the console are accepted.
 * Each id is checked against the pool size and the ids accepted before it;
 * a rejected id is simply skipped and the next one is read.
 */
module Selection {
  import opened Players

  /** No id occurs twice. */
  predicate Distinct(s: seq<int>)
  {
    forall i, j :: 0 <= i < j < |s| ==> s[i] != s[j]
  }

  /** The verdict of the selection check: in 1..poolSize and not yet taken. */
  predicate Selectable(id: int, poolSize: int, taken: seq<int>)
  {
    1 <= id <= poolSize && id !in taken
  }

  /** The ids accepted, in order, when the ids of `input` are offered one after another. */
  function Accepted(input: seq<int>, poolSize: int): (chosen: seq<int>)
    ensures |chosen| <= |input|
  {
    if input == [] then []
    else
      var prior := Accepted(input[..|input| - 1], poolSize);
      var id := input[|input| - 1];
      assert input == input[..|input| - 1] + [id];
      if Selectable(id, poolSize, prior) then prior + [id] else prior
  }

  /** What the selection check guarantees of the picks: no id twice, every pick in the pool's
      range and taken from the input, and every in-range id of the input picked. */
  lemma {:induction false} AcceptedSound(input: seq<int>, poolSize: int)
    ensures var chosen := Accepted(input, poolSize);
      Distinct(chosen) &&
      (forall k :: 0 <= k < |chosen| ==> 1 <= chosen[k] <= poolSize && chosen[k] in input) &&
      (forall x :: x in input && 1 <= x <= poolSize ==> x in chosen)
  {
    if input != [] {
      var front := input[..|input| - 1];
      AcceptedSound(front, poolSize);
      assert input == front + [input[|input| - 1]];
    }
  }

  /** A pick is never taken back: the ids picked after any prefix of the offers are a prefix
      of the ids picked after all of them. */
  lemma {:induction false} AcceptedGrows(input: seq<int>, i: nat, poolSize: int)
    requires i <= |input|
    ensures var prior, chosen := Accepted(input[..i], poolSize), Accepted(input, poolSize);
      |prior| <= |chosen| && chosen[..|prior|] == prior
    decreases |input|
  {
    if i < |input| {
      var front := input[..|input| - 1];
      assert input[..i] == front[..i];
      AcceptedGrows(front, i, poolSize);
      var prior, before := Accepted(input[..i], poolSize), Accepted(front, poolSize);
      assert Accepted(input, poolSize)[..|before|] == before;
      assert before[..|prior|] == prior;
    } else {
      assert input[..i] == input;
    }
  }

  /** Offering one more id: it is appended exactly when the selection check accepts it. */
  lemma AcceptedNext(input: seq<int>, i: nat, poolSize: int)
    requires i < |input|
    ensures var prior := Accepted(input[..i], poolSize);
      Accepted(input[..i + 1], poolSize)
        == if Selectable(input[i], poolSize, prior) then prior + [input[i]] else prior
  {
    assert input[..i + 1][..i] == input[..i];
  }

  /** The bookkeeping of the picks: the picked ids are TeamA's then TeamB's, all distinct and
      all in the pool's range. */
  ghost predicate Picked(selected: seq<int>, a: seq<Player>, b: seq<Player>)
  {
    selected == Ids(a) + Ids(b) && Distinct(selected) &&
    forall k :: 0 <= k < |selected| ==> 1 <= selected[k] <= PoolSize
  }

  /** Appending an accepted player to TeamA (while TeamB is still empty) or to TeamB, and its
      id to the picks, keeps the bookkeeping. */
  lemma PickedAppend(selected: seq<int>, a: seq<Player>, b: seq<Player>, p: Player)
    requires Picked(selected, a, b) && Selectable(p.id, PoolSize, selected)
    ensures b == [] ==> Picked(selected + [p.id], a + [p], b)
    ensures Picked(selected + [p.id], a, b + [p])
  {
    assert Ids(a + [p]) == Ids(a) + [p.id];
    assert Ids(b + [p]) == Ids(b) + [p.id];
  }

  /** No id is in both teams: the picks are distinct and are TeamA's ids followed by TeamB's. */
  lemma PickedDisjoint(selected: seq<int>, a: seq<Player>, b: seq<Player>)
    requires Picked(selected, a, b)
    ensures forall i, j :: 0 <= i < |a| && 0 <= j < |b| ==> a[i].id != b[j].id
  {
    forall i, j | 0 <= i < |a| && 0 <= j < |b|
      ensures a[i].id != b[j].id
    {
      assert selected[i] == a[i].id && selected[|a| + j] == b[j].id;
    }
  }
}
