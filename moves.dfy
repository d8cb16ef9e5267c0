/**
 The move generator: `Game.is_valid_move` and `Game.simulate_move`, as functions of the
 Game's dimensions and stored state (`Board`), of the snapshot being expanded and of the
 direction. The method that runs the in-place loop is `Engine.Game.SimulateMove`; this
 module gives the closed form it is proved to compute and the facts about that form.
 */
module Moves {
  import opened GameStates

  /** What `is_valid_move` consults: the Game's `rows`, `cols` and its own `self.state`,
      never the snapshot whose successors are being generated. */
  datatype Board = Board(rows: int, cols: int, state: GameState)

  /** `c` can be expanded against `b`: both are well formed and every player index of `c`
      is one the board's state knows. */
  predicate Fits(b: Board, c: GameState)
  {
    WellFormed(b.state) && WellFormed(c) && |c.players| <= |b.state.players|
  }

  predicate InGrid(b: Board, p: Pos)
  {
    0 <= p.0 < b.rows && 0 <= p.1 < b.cols
  }

  /** The scan over `enumerate(self.state.players)` from index `j` on. */
  function OccupiedByOther(players: seq<Pos>, cell: Pos, me: int, j: nat): (r: bool)
    requires j <= |players|
    ensures r <==> exists k :: j <= k < |players| && k != me && players[k] == cell
    decreases |players| - j
  {
    if j == |players| then false
    else (j != me && players[j] == cell) || OccupiedByOther(players, cell, me, j + 1)
  }

  /** `is_valid_move(row, col, player_i)` against the board's stored state. */
  function IsValidMove(b: Board, row: int, col: int, i: int): (r: bool)
    requires WellFormed(b.state) && 0 <= i < |b.state.players|
    ensures r ==> InGrid(b, (row, col))
    ensures r ==> (row, col) !in b.state.walls
    ensures r ==> forall j :: 0 <= j < |b.state.players| && j != i ==> b.state.players[j] != (row, col)
    ensures r && b.state.reachedGoal[i] ==> (row, col) == b.state.goals[i]
    ensures InGrid(b, (row, col)) && (row, col) !in b.state.walls
            && (forall j :: 0 <= j < |b.state.players| && j != i ==> b.state.players[j] != (row, col))
            && (b.state.reachedGoal[i] ==> (row, col) == b.state.goals[i])
            ==> r
  {
    if row < 0 || row >= b.rows || col < 0 || col >= b.cols then false
    else if (row, col) in b.state.walls then false
    else if OccupiedByOther(b.state.players, (row, col), i, 0) then false
    else if b.state.reachedGoal[i] && (row, col) != b.state.goals[i] then false
    else true
  }

  /** The player's own cell in the stored state never blocks it: only the other
      players' cells do. */
  lemma OwnCellDoesNotBlock(b: Board, i: nat)
    requires WellFormed(b.state) && i < |b.state.players|
    requires InGrid(b, b.state.players[i]) && b.state.players[i] !in b.state.walls
    requires !b.state.reachedGoal[i]
    requires forall j :: 0 <= j < |b.state.players| && j != i ==> b.state.players[j] != b.state.players[i]
    ensures IsValidMove(b, b.state.players[i].0, b.state.players[i].1, i)
  {
  }

  /** The cell `n` steps from `p` along (dr, dc). */
  function Walk(p: Pos, dr: int, dc: int, n: nat): Pos
  {
    (p.0 + n * dr, p.1 + n * dc)
  }

  /** How many more steps along (dr, dc) can stay on the grid; every valid step lowers it. */
  function Room(b: Board, p: Pos, dr: int, dc: int): nat
  {
    if dr > 0 then (if p.0 < b.rows then b.rows - p.0 else 0)
    else if dr < 0 then (if p.0 >= 0 then p.0 + 1 else 0)
    else if dc > 0 then (if p.1 < b.cols then b.cols - p.1 else 0)
    else if dc < 0 then (if p.1 >= 0 then p.1 + 1 else 0)
    else 0
  }

  /** The inner `while True` of `simulate_move` for player `i` heading for `goal`, from `p`:
      the cell it stops on and whether it stopped because it entered the goal. */
  function Slide(b: Board, goal: Pos, i: nat, p: Pos, dr: int, dc: int): (r: (Pos, bool))
    requires WellFormed(b.state) && i < |b.state.players| && (dr, dc) != (0, 0)
    ensures r.1 ==> r.0 == goal
    ensures r.0 != p ==> IsValidMove(b, r.0.0, r.0.1, i)
    decreases Room(b, p, dr, dc)
  {
    var next := (p.0 + dr, p.1 + dc);
    if !IsValidMove(b, next.0, next.1, i) then (p, false)
    else if next == goal then (next, true)
    else Slide(b, goal, i, next, dr, dc)
  }

  /**
   The slide described cell by cell: `n` steps along (dr, dc) from `p` end on `q`; every
   entered cell passes `IsValidMove`; no cell before the last is the goal; the slide
   ended on the goal exactly when `hit`, and otherwise the next cell fails `IsValidMove`.
   */
  predicate SlidesTo(b: Board, goal: Pos, i: nat, p: Pos, dr: int, dc: int, n: nat, q: Pos, hit: bool)
    requires WellFormed(b.state) && i < |b.state.players|
  {
    && q == Walk(p, dr, dc, n)
    && (forall m :: 1 <= m <= n ==> IsValidMove(b, Walk(p, dr, dc, m).0, Walk(p, dr, dc, m).1, i))
    && (forall m :: 1 <= m < n ==> Walk(p, dr, dc, m) != goal)
    && (hit <==> 1 <= n && q == goal)
    && (!hit ==> !IsValidMove(b, q.0 + dr, q.1 + dc, i))
  }

  /** The description pins the slide down: one number of steps fits it, and with it the
      final cell and the flag. */
  lemma SlidesToIsUnique(b: Board, goal: Pos, i: nat, p: Pos, dr: int, dc: int,
                         n1: nat, q1: Pos, hit1: bool, n2: nat, q2: Pos, hit2: bool)
    requires WellFormed(b.state) && i < |b.state.players|
    requires SlidesTo(b, goal, i, p, dr, dc, n1, q1, hit1)
    requires SlidesTo(b, goal, i, p, dr, dc, n2, q2, hit2)
    ensures n1 == n2 && q1 == q2 && hit1 == hit2
  {
    NoLongerThan(b, goal, i, p, dr, dc, n1, q1, hit1, n2, q2, hit2);
    NoLongerThan(b, goal, i, p, dr, dc, n2, q2, hit2, n1, q1, hit1);
  }

  /** A slide that fits the description cannot be outrun by another that also fits. */
  lemma NoLongerThan(b: Board, goal: Pos, i: nat, p: Pos, dr: int, dc: int,
                     n1: nat, q1: Pos, hit1: bool, n2: nat, q2: Pos, hit2: bool)
    requires WellFormed(b.state) && i < |b.state.players|
    requires SlidesTo(b, goal, i, p, dr, dc, n1, q1, hit1)
    requires SlidesTo(b, goal, i, p, dr, dc, n2, q2, hit2)
    ensures n2 <= n1
  {
    var after := Walk(p, dr, dc, n1 + 1);
    assert after == (q1.0 + dr, q1.1 + dc);
    if hit1 {
      assert Walk(p, dr, dc, n1) == goal;
    }
  }

  /** Every step the slide takes lowers `Room`, so it ends where it began or strictly
      further along. */
  lemma {:induction false} SlideProgress(b: Board, goal: Pos, i: nat, p: Pos, dr: int, dc: int)
    requires WellFormed(b.state) && i < |b.state.players| && (dr, dc) != (0, 0)
    ensures var q := Slide(b, goal, i, p, dr, dc).0;
      q == p || Room(b, q, dr, dc) < Room(b, p, dr, dc)
    decreases Room(b, p, dr, dc)
  {
    var next := (p.0 + dr, p.1 + dc);
    if IsValidMove(b, next.0, next.1, i) && next != goal {
      SlideProgress(b, goal, i, next, dr, dc);
    }
  }

  /** `Slide` meets its cell-by-cell description, and it moves the player exactly when it
      takes at least one step. */
  lemma {:induction false} SlideWalk(b: Board, goal: Pos, i: nat, p: Pos, dr: int, dc: int)
    requires WellFormed(b.state) && i < |b.state.players| && (dr, dc) != (0, 0)
    ensures exists n: nat :: SlidesTo(b, goal, i, p, dr, dc, n, Slide(b, goal, i, p, dr, dc).0, Slide(b, goal, i, p, dr, dc).1)
                             && (n == 0 <==> Slide(b, goal, i, p, dr, dc).0 == p)
    decreases Room(b, p, dr, dc)
  {
    var next := (p.0 + dr, p.1 + dc);
    assert Walk(p, dr, dc, 1) == next;
    var r := Slide(b, goal, i, p, dr, dc);
    var n: nat;
    if !IsValidMove(b, next.0, next.1, i) {
      assert Walk(p, dr, dc, 0) == p;
      n := 0;
    } else if next == goal {
      n := 1;
    } else {
      SlideWalk(b, goal, i, next, dr, dc);
      SlideProgress(b, goal, i, next, dr, dc);
      var n': nat :| SlidesTo(b, goal, i, next, dr, dc, n', r.0, r.1) && (n' == 0 <==> r.0 == next);
      SlidesToStep(b, goal, i, p, dr, dc, n', r.0, r.1);
      n := n' + 1;
    }
    assert SlidesTo(b, goal, i, p, dr, dc, n, r.0, r.1) && (n == 0 <==> r.0 == p);
  }

  /** A slide that starts with a valid non-goal step is that step followed by a slide. */
  lemma SlidesToStep(b: Board, goal: Pos, i: nat, p: Pos, dr: int, dc: int, n: nat, q: Pos, hit: bool)
    requires WellFormed(b.state) && i < |b.state.players|
    requires IsValidMove(b, p.0 + dr, p.1 + dc, i) && (p.0 + dr, p.1 + dc) != goal
    requires SlidesTo(b, goal, i, (p.0 + dr, p.1 + dc), dr, dc, n, q, hit)
    ensures SlidesTo(b, goal, i, p, dr, dc, n + 1, q, hit)
  {
    var next := (p.0 + dr, p.1 + dc);
    forall m: nat
      ensures Walk(p, dr, dc, m + 1) == Walk(next, dr, dc, m)
    {
      assert (m + 1) * dr == m * dr + dr && (m + 1) * dc == m * dc + dc;
    }
    assert Walk(p, dr, dc, 1) == next;
    forall m | 1 <= m <= n + 1
      ensures IsValidMove(b, Walk(p, dr, dc, m).0, Walk(p, dr, dc, m).1, i)
    {
      if m > 1 {
        assert Walk(p, dr, dc, m) == Walk(next, dr, dc, m - 1);
      }
    }
    forall m | 1 <= m < n + 1
      ensures Walk(p, dr, dc, m) != goal
    {
      if m > 1 {
        assert Walk(p, dr, dc, m) == Walk(next, dr, dc, m - 1);
      }
    }
    assert q == Walk(p, dr, dc, n + 1);
  }

  /** `Slide` for player `i` of `c`: from its own cell towards its own goal. */
  function SlideOf(b: Board, c: GameState, i: nat, dr: int, dc: int): (Pos, bool)
    requires Fits(b, c) && i < |c.players| && (dr, dc) != (0, 0)
  {
    Slide(b, c.goals[i], i, c.players[i], dr, dc)
  }

  /** Player `i` of `c` is not finished and its slide takes it somewhere: the players for
      which `simulate_move` emits a successor. */
  predicate Mover(b: Board, c: GameState, i: nat, dr: int, dc: int)
    requires Fits(b, c) && i < |c.players| && (dr, dc) != (0, 0)
  {
    !c.reachedGoal[i] && SlideOf(b, c, i, dr, dc).0 != c.players[i]
  }

  /**
   `c` with the slides of its unfinished players `0 .. k-1` applied: the working copy
   `cloned_state` after the loop has handled its first `k` players. Each slide depends
   only on the player's own cell and goal in `c` and on the board, because validity is
   checked against the stored state and not against the working copy.
   */
  function Applied(b: Board, c: GameState, k: nat, dr: int, dc: int): (w: GameState)
    requires Fits(b, c) && k <= |c.players| && (dr, dc) != (0, 0)
    ensures WellFormed(w) && |w.players| == |c.players|
    ensures w.walls == c.walls && w.goals == c.goals
  {
    c.(players := seq(|c.players|, j requires 0 <= j < |c.players| =>
                      if j < k && !c.reachedGoal[j] then SlideOf(b, c, j, dr, dc).0 else c.players[j]),
       reachedGoal := seq(|c.players|, j requires 0 <= j < |c.players| =>
                          if j < k && !c.reachedGoal[j] then SlideOf(b, c, j, dr, dc).1 else c.reachedGoal[j]))
  }

  /** The indices below `k` of the players that move, in increasing order. */
  function MoverIndices(b: Board, c: GameState, k: nat, dr: int, dc: int): (ms: seq<nat>)
    requires Fits(b, c) && k <= |c.players| && (dr, dc) != (0, 0)
    ensures |ms| <= k
    ensures forall m :: 0 <= m < |ms| ==> ms[m] < k && Mover(b, c, ms[m], dr, dc)
    ensures forall i :: 0 <= i < k && Mover(b, c, i, dr, dc) ==> i in ms
  {
    if k == 0 then []
    else MoverIndices(b, c, k - 1, dr, dc) + (if Mover(b, c, k - 1, dr, dc) then [k - 1] else [])
  }

  /** The movers are listed in player order, so successors come out in player order. */
  lemma {:induction false} MoverIndicesAscend(b: Board, c: GameState, k: nat, dr: int, dc: int)
    requires Fits(b, c) && k <= |c.players| && (dr, dc) != (0, 0)
    ensures forall m1, m2 :: 0 <= m1 < m2 < |MoverIndices(b, c, k, dr, dc)| ==>
      MoverIndices(b, c, k, dr, dc)[m1] < MoverIndices(b, c, k, dr, dc)[m2]
  {
    if k > 0 {
      var ms, init := MoverIndices(b, c, k, dr, dc), MoverIndices(b, c, k - 1, dr, dc);
      MoverIndicesAscend(b, c, k - 1, dr, dc);
      assert ms == init + (if Mover(b, c, k - 1, dr, dc) then [k - 1] else []);
      forall m1, m2 | 0 <= m1 < m2 < |ms|
        ensures ms[m1] < ms[m2]
      {
        assert ms[m1] == init[m1];
        if m2 < |init| {
          assert ms[m2] == init[m2];
        } else {
          assert ms[m2] == k - 1;
        }
      }
    }
  }

  /** The successors emitted for movers below `k`: for the `m`-th mover `i`, the working
      copy right after player `i` was handled. */
  function SuccessorsUpTo(b: Board, c: GameState, k: nat, dr: int, dc: int): (r: seq<GameState>)
    requires Fits(b, c) && k <= |c.players| && (dr, dc) != (0, 0)
    ensures |r| <= k
  {
    var ms := MoverIndices(b, c, k, dr, dc);
    seq(|ms|, m requires 0 <= m < |ms| => Applied(b, c, ms[m] + 1, dr, dc))
  }

  /** What `simulate_move(current_state, dr, dc)` returns. */
  function Successors(b: Board, c: GameState, dr: int, dc: int): (r: seq<GameState>)
    requires Fits(b, c) && (dr, dc) != (0, 0)
    ensures |r| <= |c.players|
  {
    SuccessorsUpTo(b, c, |c.players|, dr, dc)
  }

  /** Handling player `k` extends the working copy by that player's slide alone. */
  lemma AppliedStep(b: Board, c: GameState, k: nat, dr: int, dc: int)
    requires Fits(b, c) && k < |c.players| && (dr, dc) != (0, 0)
    ensures var w := Applied(b, c, k, dr, dc);
      var (q, hit) := SlideOf(b, c, k, dr, dc);
      Applied(b, c, k + 1, dr, dc)
        == if c.reachedGoal[k] then w
           else w.(players := w.players[k := q], reachedGoal := w.reachedGoal[k := hit])
  {
  }

  /** Handling player `k` emits one more successor exactly when `k` moves. */
  lemma SuccessorsUpToStep(b: Board, c: GameState, k: nat, dr: int, dc: int)
    requires Fits(b, c) && k < |c.players| && (dr, dc) != (0, 0)
    ensures SuccessorsUpTo(b, c, k + 1, dr, dc)
            == SuccessorsUpTo(b, c, k, dr, dc)
               + (if Mover(b, c, k, dr, dc) then [Applied(b, c, k + 1, dr, dc)] else [])
  {
    var ms := MoverIndices(b, c, k, dr, dc);
    var ms' := MoverIndices(b, c, k + 1, dr, dc);
    assert ms' == ms + (if Mover(b, c, k, dr, dc) then [k] else []);
  }

  /**
   The cumulative shape of `simulate_move`'s result: one successor per moving player,
   in player order, and the successor of mover `i` carries the moves of every earlier
   mover too; a successor is emitted for every mover and only for movers.
   */
  lemma SuccessorsAreCumulative(b: Board, c: GameState, dr: int, dc: int)
    requires Fits(b, c) && (dr, dc) != (0, 0)
    ensures var ss := Successors(b, c, dr, dc);
      && |ss| <= |c.players|
      && (forall s :: s in ss ==> exists i :: 0 <= i < |c.players| && Mover(b, c, i, dr, dc) && s == Applied(b, c, i + 1, dr, dc))
      && (forall i :: 0 <= i < |c.players| && Mover(b, c, i, dr, dc) ==> Applied(b, c, i + 1, dr, dc) in ss)
  {
    SuccessorsComeFromMovers(b, c, dr, dc);
    MoversHaveSuccessors(b, c, dr, dc);
  }

  lemma SuccessorsComeFromMovers(b: Board, c: GameState, dr: int, dc: int)
    requires Fits(b, c) && (dr, dc) != (0, 0)
    ensures forall s :: s in Successors(b, c, dr, dc) ==>
      exists i :: 0 <= i < |c.players| && Mover(b, c, i, dr, dc) && s == Applied(b, c, i + 1, dr, dc)
  {
    var ss := Successors(b, c, dr, dc);
    var ms := MoverIndices(b, c, |c.players|, dr, dc);
    forall s | s in ss
      ensures exists i :: 0 <= i < |c.players| && Mover(b, c, i, dr, dc) && s == Applied(b, c, i + 1, dr, dc)
    {
      var m :| 0 <= m < |ss| && ss[m] == s;
      var i := ms[m];
      assert i < |c.players| && Mover(b, c, i, dr, dc) && s == Applied(b, c, i + 1, dr, dc);
    }
  }

  lemma MoversHaveSuccessors(b: Board, c: GameState, dr: int, dc: int)
    requires Fits(b, c) && (dr, dc) != (0, 0)
    ensures forall i :: 0 <= i < |c.players| && Mover(b, c, i, dr, dc) ==> Applied(b, c, i + 1, dr, dc) in Successors(b, c, dr, dc)
  {
    var ss := Successors(b, c, dr, dc);
    var ms := MoverIndices(b, c, |c.players|, dr, dc);
    forall i | 0 <= i < |c.players| && Mover(b, c, i, dr, dc)
      ensures Applied(b, c, i + 1, dr, dc) in ss
    {
      var m :| 0 <= m < |ms| && ms[m] == i;
      assert ss[m] == Applied(b, c, i + 1, dr, dc);
    }
  }

  /**
   Player `j` in the working copy after `k` players: a finished player is untouched and
   stays finished; an untouched player keeps its flag; a player that moved made a whole
   slide of at least one step, every cell of it passing `IsValidMove` (so on the grid and
   off the walls), and it is finished afterwards exactly when that slide ended on its goal.
   */
  lemma AppliedPlayer(b: Board, c: GameState, k: nat, dr: int, dc: int, j: nat)
    requires Fits(b, c) && k <= |c.players| && (dr, dc) != (0, 0) && j < |c.players|
    ensures var w := Applied(b, c, k, dr, dc);
      && (c.reachedGoal[j] ==> w.reachedGoal[j] && w.players[j] == c.players[j])
      && (w.players[j] == c.players[j] ==> w.reachedGoal[j] == c.reachedGoal[j])
      && (w.players[j] != c.players[j] ==>
            && j < k && !c.reachedGoal[j]
            && InGrid(b, w.players[j]) && w.players[j] !in b.state.walls
            && exists n: nat :: 1 <= n && SlidesTo(b, c.goals[j], j, c.players[j], dr, dc, n, w.players[j], w.reachedGoal[j]))
      && (w.reachedGoal[j] && !c.reachedGoal[j] ==> w.players[j] == c.goals[j] != c.players[j])
  {
    var w := Applied(b, c, k, dr, dc);
    if j < k && !c.reachedGoal[j] {
      var r := SlideOf(b, c, j, dr, dc);
      assert w.players[j] == r.0 && w.reachedGoal[j] == r.1;
      SlidePlayer(b, c.goals[j], j, c.players[j], dr, dc);
    } else {
      assert w.players[j] == c.players[j] && w.reachedGoal[j] == c.reachedGoal[j];
    }
  }

  /** One slide in the terms of `AppliedPlayer`. */
  lemma SlidePlayer(b: Board, goal: Pos, j: nat, p: Pos, dr: int, dc: int)
    requires WellFormed(b.state) && j < |b.state.players| && (dr, dc) != (0, 0)
    ensures var r := Slide(b, goal, j, p, dr, dc);
      && (r.0 == p ==> !r.1)
      && (r.0 != p ==>
            && InGrid(b, r.0) && r.0 !in b.state.walls
            && exists n: nat :: 1 <= n && SlidesTo(b, goal, j, p, dr, dc, n, r.0, r.1))
      && (r.1 ==> r.0 == goal != p)
  {
    var r := Slide(b, goal, j, p, dr, dc);
    SlideWalk(b, goal, j, p, dr, dc);
    var n: nat :| SlidesTo(b, goal, j, p, dr, dc, n, r.0, r.1) && (n == 0 <==> r.0 == p);
    if n >= 1 {
      assert IsValidMove(b, Walk(p, dr, dc, n).0, Walk(p, dr, dc, n).1, j);
    }
  }

  /** The facts of `AppliedPlayer` for every successor, and each successor moved somebody. */
  lemma SuccessorPlayers(b: Board, c: GameState, dr: int, dc: int, s: GameState)
    requires Fits(b, c) && (dr, dc) != (0, 0) && s in Successors(b, c, dr, dc)
    ensures WellFormed(s) && |s.players| == |c.players| && s.walls == c.walls && s.goals == c.goals
    ensures exists i :: 0 <= i < |c.players| && s.players[i] != c.players[i]
    ensures forall j :: 0 <= j < |c.players| ==>
      && (c.reachedGoal[j] ==> s.reachedGoal[j] && s.players[j] == c.players[j])
      && (s.players[j] == c.players[j] ==> s.reachedGoal[j] == c.reachedGoal[j])
      && (s.players[j] != c.players[j] ==>
            && !c.reachedGoal[j] && InGrid(b, s.players[j]) && s.players[j] !in b.state.walls
            && exists n: nat :: 1 <= n && SlidesTo(b, c.goals[j], j, c.players[j], dr, dc, n, s.players[j], s.reachedGoal[j]))
      && (s.reachedGoal[j] && !c.reachedGoal[j] ==> s.players[j] == c.goals[j])
  {
    SuccessorsAreCumulative(b, c, dr, dc);
    var i :| 0 <= i < |c.players| && Mover(b, c, i, dr, dc) && s == Applied(b, c, i + 1, dr, dc);
    forall j | 0 <= j < |c.players|
      ensures
        && (c.reachedGoal[j] ==> s.reachedGoal[j] && s.players[j] == c.players[j])
        && (s.players[j] == c.players[j] ==> s.reachedGoal[j] == c.reachedGoal[j])
        && (s.players[j] != c.players[j] ==>
              && !c.reachedGoal[j] && InGrid(b, s.players[j]) && s.players[j] !in b.state.walls
              && exists n: nat :: 1 <= n && SlidesTo(b, c.goals[j], j, c.players[j], dr, dc, n, s.players[j], s.reachedGoal[j]))
        && (s.reachedGoal[j] && !c.reachedGoal[j] ==> s.players[j] == c.goals[j])
    {
      AppliedPlayer(b, c, i + 1, dr, dc, j);
    }
    assert s.players[i] != c.players[i];
  }
}
