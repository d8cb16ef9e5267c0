/**
 The value side of the puzzle: one snapshot of the board (`GameState`), the key the
 searches deduplicate on (`get_state`), the heap tie-break (`GameState.__lt__`) and the
 win test (`all(reached_goal)`).
 */
module GameStates {

  /** A grid cell as (row, col). */
  type Pos = (int, int)

  /**
   One snapshot. Player `i` sits at `players[i]`, is paired with the goal cell `goals[i]`
   and has finished when `reachedGoal[i]` holds. Walls and goals are copied along with
   every snapshot, as the deep copies in the source do, but no operation changes them.
   */
  datatype GameState = GameState(
    walls: seq<Pos>,
    goals: seq<Pos>,
    players: seq<Pos>,
    reachedGoal: seq<bool>)

  /** Players, goals and flags are index-aligned (the caller's obligation). */
  predicate WellFormed(s: GameState)
  {
    |s.goals| == |s.players| && |s.reachedGoal| == |s.players|
  }

  /** The deduplication key: the tuple of positions and the tuple of flags. */
  type StateKey = (seq<Pos>, seq<bool>)

  /** `get_state`: on one board (same walls and goals) the key identifies the snapshot. */
  function GetState(s: GameState): (k: StateKey)
    ensures forall t: GameState :: t.walls == s.walls && t.goals == s.goals ==>
      ((t.players, t.reachedGoal) == k <==> t == s)
  {
    (s.players, s.reachedGoal)
  }

  /** Two snapshots share a key exactly when their positions and flags agree;
      how they were reached, and their walls and goals, play no part. */
  lemma KeyIgnoresHistory(a: GameState, b: GameState)
    ensures GetState(a) == GetState(b) <==> a.players == b.players && a.reachedGoal == b.reachedGoal
  {
  }

  /** Snapshots on the same board are identified by their key. */
  lemma KeyDeterminesState(a: GameState, b: GameState)
    requires a.walls == b.walls && a.goals == b.goals
    ensures GetState(a) == GetState(b) <==> a == b
  {
  }

  /** `all(flags)`: a left-to-right scan that fails on the first false flag. */
  function AllReached(flags: seq<bool>): (r: bool)
    ensures r <==> forall i :: 0 <= i < |flags| ==> flags[i]
  {
    if flags == [] then true else flags[0] && AllReached(flags[1..])
  }

  /** `flags.count(True)`. */
  function CountTrue(flags: seq<bool>): (n: nat)
    ensures n <= |flags|
    ensures n == |flags| <==> forall i :: 0 <= i < |flags| ==> flags[i]
    ensures n == 0 <==> forall i :: 0 <= i < |flags| ==> !flags[i]
  {
    if flags == [] then 0
    else
      var rest := CountTrue(flags[1..]);
      assert forall i :: 1 <= i < |flags| ==> flags[i] == flags[1..][i - 1];
      (if flags[0] then 1 else 0) + rest
  }

  /** `GameState.__lt__`: the snapshot with fewer finished players sorts first. */
  predicate Lt(a: GameState, b: GameState)
    ensures Lt(a, b) ==> exists j :: 0 <= j < |b.reachedGoal| && b.reachedGoal[j]
    ensures Lt(a, b) && |a.reachedGoal| == |b.reachedGoal| ==> exists j :: 0 <= j < |a.reachedGoal| && !a.reachedGoal[j]
  {
    CountTrue(a.reachedGoal) < CountTrue(b.reachedGoal)
  }

  /** `__lt__` is a strict weak order: irreflexive, transitive, and snapshots with
      equally many finished players are interchangeable. */
  lemma LtIsStrictWeakOrder(a: GameState, b: GameState, c: GameState)
    ensures !Lt(a, a)
    ensures Lt(a, b) && Lt(b, c) ==> Lt(a, c)
    ensures !Lt(a, b) && !Lt(b, a) ==> (Lt(a, c) <==> Lt(b, c))
  {
  }

  /** A won snapshot never sorts before another snapshot with as many players, and
      every unfinished one sorts before it: the tie-break dequeues progress last. */
  lemma WonSortsLast(a: GameState, b: GameState)
    requires |a.reachedGoal| == |b.reachedGoal|
    requires AllReached(a.reachedGoal)
    ensures !Lt(a, b)
    ensures !AllReached(b.reachedGoal) <==> Lt(b, a)
  {
  }
}
