/**
 The `Game` object: grid dimensions and the stored snapshot `state`, the move generator
 that runs its slide loop on a working copy, and the three searches (`dfs`, `bfs`, `ucs`)
 over a stack, a queue and a priority queue. No search writes `state`: they have no
 `modifies` clause.
 */
module Engine {
  import opened GameStates
  import opened Moves
  import opened SearchSpace
  import opened Frontier
  import opened Optimality

  /** `for new_state in new_states: frontier.append((new_state, path))`, for the stack and
      the queue alike. */
  method PushEntries(frontier: seq<Entry>, newStates: seq<GameState>, path: seq<GameState>)
    returns (pushed: seq<Entry>)
    ensures pushed == frontier + Pushed(path, newStates)
  {
    pushed := frontier;
    var m := 0;
    while m < |newStates|
      invariant 0 <= m <= |newStates|
      invariant pushed == frontier + Pushed(path, newStates[..m])
    {
      PushedStep(path, newStates[..m], newStates[m]);
      assert newStates[..m + 1] == newStates[..m] + [newStates[m]];
      pushed := pushed + [Entry(newStates[m], path)];
      m := m + 1;
    }
    assert newStates[..m] == newStates;
  }

  /** `ucs`'s push loop: `(cost, new_state, path)` for each successor whose key is not in
      `visited`, in order. */
  method PushUnvisited(frontier: seq<CostEntry>, newStates: seq<GameState>, cost: nat, path: seq<GameState>,
                       visited: set<StateKey>)
    returns (pushed: seq<CostEntry>)
    ensures pushed == frontier + CostPushed(cost, path, Unvisited(newStates, visited))
  {
    pushed := frontier;
    var m := 0;
    while m < |newStates|
      invariant 0 <= m <= |newStates|
      invariant pushed == frontier + CostPushed(cost, path, Unvisited(newStates[..m], visited))
    {
      ghost var kept := CostPushed(cost, path, Unvisited(newStates[..m], visited));
      assert newStates[..m + 1] == newStates[..m] + [newStates[m]];
      CostPushedUnvisitedStep(cost, path, newStates[..m], newStates[m], visited);
      var newStateHash := GetState(newStates[m]);
      if newStateHash !in visited {
        pushed := pushed + [CostEntry(cost, newStates[m], path)];
        assert pushed == frontier + (kept + [CostEntry(cost, newStates[m], path)]);
      }
      m := m + 1;
    }
    assert newStates[..m] == newStates;
  }

  /** `heappop`: takes out an entry that no other entry precedes; which one among equals
      is left open. */
  method HeapPop(priorityQueue: seq<CostEntry>) returns (entry: CostEntry, rest: seq<CostEntry>, k: nat)
    requires priorityQueue != []
    ensures k < |priorityQueue| && IsMinimal(priorityQueue, k)
    ensures entry == priorityQueue[k] && rest == priorityQueue[..k] + priorityQueue[k + 1..]
    ensures entry in priorityQueue && forall e :: e in priorityQueue ==> !Before(e, entry)
    ensures multiset(rest) + multiset{entry} == multiset(priorityQueue)
  {
    MinimalExists(priorityQueue);
    k :| 0 <= k < |priorityQueue| && IsMinimal(priorityQueue, k);
    entry := priorityQueue[k];
    rest := priorityQueue[..k] + priorityQueue[k + 1..];
    assert priorityQueue == priorityQueue[..k] + [entry] + priorityQueue[k + 1..];
  }

  class Game {
    var rows: int
    var cols: int
    var state: GameState

    /** `Game(rows, cols, board_details)`: the stored state holds the given walls, goals and
        players, with no player finished. */
    constructor(rows: int, cols: int, walls: seq<Pos>, goals: seq<Pos>, players: seq<Pos>)
      ensures this.rows == rows && this.cols == cols
      ensures state.walls == walls && state.goals == goals && state.players == players
      ensures |state.reachedGoal| == |players| && forall i :: 0 <= i < |players| ==> !state.reachedGoal[i]
    {
      this.rows := rows;
      this.cols := cols;
      state := GameState(walls, goals, players, seq(|players|, _ => false));
    }

    /** What `is_valid_move` reads of the Game. */
    function AsBoard(): Board
      reads this
    {
      Board(rows, cols, state)
    }

    /** `is_won()`: every player of the stored state has finished. */
    function IsWon(): (r: bool)
      reads this
      ensures r <==> forall i :: 0 <= i < |state.reachedGoal| ==> state.reachedGoal[i]
      ensures r <==> CountTrue(state.reachedGoal) == |state.reachedGoal|
    {
      AllReached(state.reachedGoal)
    }

    /** The `while True` loop of `simulate_move` for player `i`: step from `start` along
        (dr, dc) while `is_valid_move` allows it, and stop on the player's goal. */
    method SlideLoop(goal: Pos, i: nat, start: Pos, dr: int, dc: int) returns (cur: Pos, reached: bool)
      requires WellFormed(state) && i < |state.players| && (dr, dc) != (0, 0)
      ensures (cur, reached) == Slide(AsBoard(), goal, i, start, dr, dc)
    {
      var b := AsBoard();
      cur, reached := start, false;
      while true
        invariant Slide(b, goal, i, cur, dr, dc) == Slide(b, goal, i, start, dr, dc)
        decreases Room(b, cur, dr, dc)
      {
        var next := (cur.0 + dr, cur.1 + dc);
        if !IsValidMove(b, next.0, next.1, i) {
          break;
        }
        cur := next;
        if cur == goal {
          reached := true;
          break;
        }
      }
    }

    /**
     `simulate_move(current_state, dr, dc)`. A working copy of `current` takes the slide of
     each unfinished player in turn, in place; a snapshot of the copy is emitted after each
     player that moved. Cell validity is asked of the stored state, never of the copy.
     */
    method SimulateMove(current: GameState, dr: int, dc: int) returns (newStates: seq<GameState>)
      requires Fits(AsBoard(), current) && (dr, dc) != (0, 0)
      ensures newStates == Successors(AsBoard(), current, dr, dc)
    {
      var b := AsBoard();
      var cloned := current;
      newStates := [];
      var i := 0;
      while i < |cloned.players|
        invariant 0 <= i <= |current.players| && |cloned.players| == |current.players|
        invariant cloned == Applied(b, current, i, dr, dc)
        invariant newStates == SuccessorsUpTo(b, current, i, dr, dc)
      {
        AppliedStep(b, current, i, dr, dc);
        SuccessorsUpToStep(b, current, i, dr, dc);
        if cloned.reachedGoal[i] {
          i := i + 1;
          continue;
        }
        var start := cloned.players[i];
        assert start == current.players[i] && cloned.goals[i] == current.goals[i];
        var cur, reached := SlideLoop(cloned.goals[i], i, start, dr, dc);
        SlidePlayer(b, current.goals[i], i, start, dr, dc);
        ghost var before := cloned;
        if reached {
          cloned := cloned.(reachedGoal := cloned.reachedGoal[i := true]);
        }
        if cur != start {
          cloned := cloned.(players := cloned.players[i := cur]);
          newStates := newStates + [cloned];
        } else {
          assert before.players[i := cur] == before.players && before.reachedGoal[i := reached] == before.reachedGoal;
        }
        assert cloned == before.(players := before.players[i := cur], reachedGoal := before.reachedGoal[i := reached]);
        i := i + 1;
      }
    }


    /**
     The four `simulate_move` calls of one expansion, in the order the searches make them
     (up, down, left, right), with their successors concatenated in that order.
     */
    method Expand(current: GameState) returns (successors: seq<GameState>)
      requires Fits(AsBoard(), current)
      ensures successors == Next(AsBoard(), current)
    {
      ghost var b := AsBoard();
      successors := [];
      var d := 0;
      while d < |Directions|
        invariant 0 <= d <= |Directions|
        invariant b == AsBoard()
        invariant successors == NextUpTo(b, current, d)
      {
        NextUpToStep(b, current, d);
        var (dr, dc) := Directions[d];
        var newStates := SimulateMove(current, dr, dc);
        successors := successors + newStates;
        d := d + 1;
      }
    }

    /**
     One turn of the `dfs`/`bfs` loop on the entry at index `k` (the top of the stack for
     `dfs`, the head of the queue for `bfs`): a won entry is returned as it is; a duplicate
     is dropped; otherwise its key joins `visited` and its successors are appended.
     With the ghost flag `fifo` (the queue of `bfs`, popped at its head) the turn also
     keeps the queue layered and covering, so a won pop is a shortest solution.
     */
    method SearchTurn(ghost b: Board, ghost space: set<StateKey>, frontier: seq<Entry>, k: nat,
                      visited: set<StateKey>, ghost trace: seq<GameState>, ghost expansions: seq<StateKey>,
                      ghost fifo: bool)
      returns (entry: Entry, rest: seq<Entry>, seen: set<StateKey>, ghost expansions': seq<StateKey>)
      requires b == AsBoard() && forall s :: InSpace(b, s) ==> GetState(s) in space
      requires k < |frontier| && SearchInv(b, frontier, trace, visited)
      requires ExpandedAs(expansions, trace, visited)
      requires fifo ==> k == 0 && QueueCovered(b, frontier, visited) && Layered(frontier)
      ensures entry == frontier[k]
      ensures fifo && AllReached(entry.state.reachedGoal) ==> Shortest(b, entry.path + [entry.state])
      ensures fifo && !AllReached(entry.state.reachedGoal) ==> QueueCovered(b, rest, seen) && Layered(rest)
      ensures ExpandedAs(expansions', trace + [entry.state], seen)
      ensures AllReached(entry.state.reachedGoal) ==>
        && seen == visited
        && Reported(b, Some(entry.path + [entry.state]), |trace| + 1, trace + [entry.state])
      ensures !AllReached(entry.state.reachedGoal) ==>
        && SearchInv(b, rest, trace + [entry.state], seen)
        && (|space - seen| < |space - visited| || (seen == visited && |rest| < |frontier|))
      ensures !AllReached(entry.state.reachedGoal) && GetState(entry.state) in visited ==>
        seen == visited && rest == frontier[..k] + frontier[k + 1..]
      ensures !AllReached(entry.state.reachedGoal) && GetState(entry.state) !in visited ==>
        && seen == visited + {GetState(entry.state)}
        && rest == frontier[..k] + frontier[k + 1..] + Pushed(entry.path + [entry.state], Next(b, entry.state))
    {
      entry := frontier[k];
      rest := frontier[..k] + frontier[k + 1..];
      seen := visited;
      var current, path := entry.state, entry.path;
      if AllReached(current.reachedGoal) {
        EntryWon(b, frontier, k, trace, visited);
        expansions' := ExpandedOnceStep(expansions, visited, trace, current, seen);
        if fifo {
          QueueTurn(b, frontier, trace, visited, entry, rest, seen);
        }
        return;
      }
      var stateHash := GetState(current);
      if stateHash in visited {
        EntryDuplicate(b, frontier, k, rest, trace, visited);
        expansions' := ExpandedOnceStep(expansions, visited, trace, current, seen);
        if fifo {
          QueueTurn(b, frontier, trace, visited, entry, rest, seen);
        }
        return;
      }
      EntryInSpace(b, frontier, k, trace, visited);
      EntryExpand(b, frontier, k, rest, trace, visited);
      CountDown(space, visited, stateHash);
      seen := visited + {stateHash};
      expansions' := ExpandedOnceStep(expansions, visited, trace, current, seen);
      var newStates := Expand(current);
      rest := PushEntries(rest, newStates, path + [current]);
      if fifo {
        QueueTurn(b, frontier, trace, visited, entry, rest, seen);
      }
    }

    /**
     `dfs()`: the frontier is a stack of `(state, path)` entries, popped from the end. Every
     pop is counted and traced; a won pop ends the search before its key is looked up; a pop
     whose key was expanded before is dropped; otherwise the four directions' successors
     are pushed in order.
     */
    method Dfs() returns (solution: Option<seq<GameState>>, nodesVisited: nat, visitedStates: seq<GameState>,
                 ghost expansions: seq<StateKey>)
      requires WellFormed(state)
      ensures Reported(AsBoard(), solution, nodesVisited, visitedStates)
      ensures ExpandedOnce(expansions, visitedStates)
    {
      var b := AsBoard();
      var stack := [Entry(state, [])];
      var visited: set<StateKey> := {};
      visitedStates := [];
      nodesVisited := 0;
      expansions := [];
      solution := None;
      SearchStart(b);
      ghost var space := FiniteKeySpace(b);
      while stack != []
        invariant b == AsBoard() && solution.None?
        invariant nodesVisited == |visitedStates|
        invariant SearchInv(b, stack, visitedStates, visited)
        invariant ExpandedAs(expansions, visitedStates, visited)
        decreases |space - visited|, |stack|
      {
        var entry;
        entry, stack, visited, expansions := SearchTurn(b, space, stack, |stack| - 1, visited, visitedStates, expansions, false);
        nodesVisited := nodesVisited + 1;
        visitedStates := visitedStates + [entry.state];
        if AllReached(entry.state.reachedGoal) {
          solution := Some(entry.path + [entry.state]);
          break;
        }
      }
      if solution.None? {
        SearchExhausted(b, visitedStates, visited);
      }
    }

    /**
     `bfs()`: the same loop over a queue of `(state, path)` entries, popped from the front
     (`popleft`) and appended at the back.
     */
    method Bfs() returns (solution: Option<seq<GameState>>, nodesVisited: nat, visitedStates: seq<GameState>,
                 ghost expansions: seq<StateKey>)
      requires WellFormed(state)
      ensures Reported(AsBoard(), solution, nodesVisited, visitedStates)
      ensures ExpandedOnce(expansions, visitedStates)
      ensures solution.Some? ==> Shortest(AsBoard(), solution.value)
    {
      var b := AsBoard();
      var queue := [Entry(state, [])];
      var visited: set<StateKey> := {};
      visitedStates := [];
      nodesVisited := 0;
      expansions := [];
      solution := None;
      SearchStart(b);
      QueueStart(b);
      ghost var space := FiniteKeySpace(b);
      while queue != []
        invariant b == AsBoard() && solution.None?
        invariant nodesVisited == |visitedStates|
        invariant SearchInv(b, queue, visitedStates, visited)
        invariant ExpandedAs(expansions, visitedStates, visited)
        invariant QueueCovered(b, queue, visited) && Layered(queue)
        decreases |space - visited|, |queue|
      {
        var entry;
        entry, queue, visited, expansions := SearchTurn(b, space, queue, 0, visited, visitedStates, expansions, true);
        nodesVisited := nodesVisited + 1;
        visitedStates := visitedStates + [entry.state];
        if AllReached(entry.state.reachedGoal) {
          solution := Some(entry.path + [entry.state]);
          break;
        }
      }
      if solution.None? {
        SearchExhausted(b, visitedStates, visited);
      }
    }

    /**
     One turn of `ucs`'s loop: `heappop` hands out an entry that no other precedes; a won
     entry is returned as it is; a duplicate is dropped; otherwise its key joins `visited`
     and its successors whose keys are not in `visited` are pushed at `cost + 1`.
     */
    method UcsTurn(ghost b: Board, ghost space: set<StateKey>, priorityQueue: seq<CostEntry>,
                   visited: set<StateKey>, ghost trace: seq<GameState>, ghost floor: nat,
                   ghost expansions: seq<StateKey>)
      returns (entry: CostEntry, queue: seq<CostEntry>, seen: set<StateKey>, ghost expansions': seq<StateKey>,
               ghost k: nat)
      requires b == AsBoard() && forall s :: InSpace(b, s) ==> GetState(s) in space
      requires priorityQueue != [] && HeapInv(b, priorityQueue, trace, visited, floor)
      requires ExpandedAs(expansions, trace, visited)
      ensures HeapTurn(b, priorityQueue, k, entry, queue, visited, seen)
      ensures floor <= entry.cost && entry.cost == |entry.path| && IsPath(b, entry.path + [entry.state])
      ensures ExpandedAs(expansions', trace + [entry.state], seen)
      ensures AllReached(entry.state.reachedGoal) ==>
        && |entry.path + [entry.state]| == entry.cost + 1
        && Reported(b, Some(entry.path + [entry.state]), |trace| + 1, trace + [entry.state])
        && Shortest(b, entry.path + [entry.state])
      ensures !AllReached(entry.state.reachedGoal) ==>
        && HeapInv(b, queue, trace + [entry.state], seen, entry.cost)
        && (|space - seen| < |space - visited| || (seen == visited && |queue| < |priorityQueue|))
      ensures AllReached(entry.state.reachedGoal) || GetState(entry.state) in visited ==> seen == visited
      ensures !AllReached(entry.state.reachedGoal) && GetState(entry.state) !in visited ==>
        seen == visited + {GetState(entry.state)}
    {
      entry, queue, k := HeapPop(priorityQueue);
      seen := visited;
      var cost, current, path := entry.cost, entry.state, entry.path;
      if AllReached(current.reachedGoal) {
        CostEntryWon(b, priorityQueue, k, trace, visited, floor);
        HeapWonIsShortest(b, priorityQueue, k, trace, visited, floor);
        expansions' := ExpandedOnceStep(expansions, visited, trace, current, seen);
        return;
      }
      var stateHash := GetState(current);
      if stateHash in visited {
        CostEntryDuplicate(b, priorityQueue, k, queue, trace, visited, floor);
        CoveredDuplicate(b, priorityQueue, k, visited);
        expansions' := ExpandedOnceStep(expansions, visited, trace, current, seen);
        return;
      }
      CostEntryInSpace(b, priorityQueue, k, trace, visited, floor);
      CountDown(space, visited, stateHash);
      ghost var rest := queue;
      seen := visited + {stateHash};
      expansions' := ExpandedOnceStep(expansions, visited, trace, current, seen);
      var newStates := Expand(current);
      queue := PushUnvisited(queue, newStates, cost + 1, path + [current], seen);
      CostEntryExpand(b, priorityQueue, k, rest, trace, visited, floor, cost, current, path, newStates, seen, queue);
      HeapCoveredExpand(b, priorityQueue, k, visited, cost, current, path, seen, queue);
    }

    /**
     `ucs()`: the same loop over a priority queue of `(cost, state, path)` entries. A pop
     takes an entry that no other entry precedes by cost and then by `__lt__`; which of
     several such entries the heap hands out is left open. Successors are pushed at
     `cost + 1`, and only when their key has not been expanded. The ghost `costs` records
     the cost of every pop: each is the number of steps of a path from the stored state to
     the popped snapshot, they never decrease, and a solution is one snapshot longer than
     the cost it was popped at.
     */
    method Ucs() returns (solution: Option<seq<GameState>>, nodesVisited: nat, visitedStates: seq<GameState>,
                          ghost costs: seq<nat>, ghost expansions: seq<StateKey>)
      requires WellFormed(state)
      ensures Reported(AsBoard(), solution, nodesVisited, visitedStates)
      ensures ExpandedOnce(expansions, visitedStates)
      ensures |costs| == nodesVisited && CostsOfPops(AsBoard(), costs, visitedStates)
      ensures Ascending(costs)
      ensures solution.Some? ==> |solution.value| == costs[|costs| - 1] + 1
      ensures solution.Some? ==> Shortest(AsBoard(), solution.value)
    {
      var b := AsBoard();
      var priorityQueue := [CostEntry(0, state, [])];
      var visited: set<StateKey> := {};
      visitedStates := [];
      nodesVisited := 0;
      costs := [];
      expansions := [];
      ghost var floor := 0;
      solution := None;
      CostSearchStart(b);
      CoveredStart(b);
      ghost var space := FiniteKeySpace(b);
      while priorityQueue != []
        invariant b == AsBoard() && solution.None?
        invariant nodesVisited == |visitedStates| == |costs|
        invariant HeapInv(b, priorityQueue, visitedStates, visited, floor)
        invariant PoppedCosts(b, costs, floor, visitedStates)
        invariant ExpandedAs(expansions, visitedStates, visited)
        decreases |space - visited|, |priorityQueue|
      {
        var entry;
        ghost var popped: nat;
        entry, priorityQueue, visited, expansions, popped := UcsTurn(b, space, priorityQueue, visited, visitedStates, floor, expansions);
        nodesVisited := nodesVisited + 1;
        PoppedCostsStep(b, costs, floor, visitedStates, entry);
        visitedStates := visitedStates + [entry.state];
        costs, floor := costs + [entry.cost], entry.cost;
        if AllReached(entry.state.reachedGoal) {
          solution := Some(entry.path + [entry.state]);
          break;
        }
      }
      if solution.None? {
        CostSearchExhausted(b, visitedStates, visited, floor);
      }
    }
  }
}
