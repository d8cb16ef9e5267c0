# Sliding-players puzzle: search engine

`ucs.py` solves a grid puzzle. Several players stand on a board with walls, and each
player has its own goal cell. One move picks a direction. Every unfinished player,
in player order, then slides in that direction until the next cell is blocked or it
enters its goal. Entering the goal marks the player finished. The puzzle is won when
every player is finished. `Game` searches for a winning sequence of moves with
depth-first search (`dfs`), breadth-first search (`bfs`) or uniform-cost search (`ucs`).
Each search reports the path it found (or none), how many frontier pops it made, and
the list of popped snapshots.

This project models that engine. It is split into six modules:

- `GameStates` (`game_state.dfy`): the `GameState` snapshot, the deduplication key
  `get_state`, the heap tie-break `GameState.__lt__`, and the win test `all(reached_goal)`.
- `Moves` (`moves.dfy`):
  - `is_valid_move` as a function of a `Board`, which holds the Game's `rows`, `cols`
    and stored `state`;
  - the slide of one player;
  - the closed form of what `simulate_move` returns.
- `SearchSpace` (`search_space.dfy`):
  - one expansion step: `simulate_move` in the four directions, in the searches' order;
  - paths from the stored state;
  - the finite set of keys a search can meet;
  - the heap order on `(cost, state, path)` entries.
- `Frontier` (`frontier.dfy`): the invariant the three search loops share, and the lemmas
  showing that one pop keeps it or ends the search with a correct report. It also records
  the expanded keys in the order they join `visited`, so that no key is expanded twice.
- `Optimality` (`optimality.dfy`): why `bfs` and `ucs` return shortest solutions. Every
  path from the stored state meets the frontier: its first snapshot whose key is not
  expanded is queued at a cost no higher than its index on the path. A pop takes a
  cheapest entry: the heap's minimum for `ucs`, the head of a queue whose path lengths
  ascend by at most one for `bfs`.
- `Engine` (`engine.dfy`): `class Game` with the fields `rows`, `cols` and `state`. It holds:
  - `SimulateMove`, the in-place slide loop over a working copy;
  - `Dfs`, `Bfs` and `Ucs`, the search loops over a stack, a queue and a priority queue.

  The searches are proved to terminate. Their measure is the number of keys in the
  finite key space that are not yet expanded, then the frontier length.

The searches read `state` and never write it: none of them has a `modifies` clause.
Snapshots are values, so the source's deep copies are plain value copies. The stored
`state` is never written, so validity checks during a search see the other players on
their starting cells. The model keeps that behaviour. It also keeps the cumulative
successors of `simulate_move`: the successor emitted for a player carries the moves of
every player handled before it in the same call. The searches check for a win before
they check for a duplicate. Every pop is counted in `nodes_visited`, the pop of the won
snapshot included. Only `ucs` drops successors whose key has already been
expanded.

## Model

| member | source | states |
|---|---|---|
| GameStates.KeyIgnoresHistory | ucs.py:160-162 | Two snapshots share a `get_state` key exactly when their player positions and flags agree. |
| GameStates.KeyDeterminesState | ucs.py:160-162 | On one board (same walls and goals), equal keys mean equal snapshots, and conversely. |
| GameStates.GetState | ucs.py:160-162 | On one board (same walls and goals), a snapshot has the key `(positions, flags)` of another snapshot exactly when it is that snapshot. |
| GameStates.AllReached | ucs.py:33-34 | `all(flags)` holds exactly when every flag is true. |
| GameStates.CountTrue | ucs.py:17-19 | `count(True)` is at most the length; it equals the length exactly when all flags are true, and is 0 exactly when none is. |
| GameStates.Lt | ucs.py:17-19 | A snapshot sorts before `other` only if `other` has a finished player, and, when both have as many players, only if the snapshot itself has an unfinished one. |
| GameStates.LtIsStrictWeakOrder | ucs.py:17-19 | `__lt__` is irreflexive and transitive, and snapshots with equally many finished players are interchangeable in it. |
| GameStates.WonSortsLast | ucs.py:17-19 | A won snapshot never sorts before one with as many players, and a snapshot sorts before it exactly when it is not won. |
| Moves.OccupiedByOther | ucs.py:41-43 | The scan over the stored players is true exactly when some player other than `player_i` holds the cell. |
| Moves.IsValidMove | ucs.py:36-46 | A cell is valid exactly when it is in the grid, is not a wall, is held by no other player of the stored state, and is the player's goal if that player is finished in the stored state. |
| Moves.OwnCellDoesNotBlock | ucs.py:41-43 | The player's own starting cell never blocks it: only other players' cells do. |
| Moves.Slide | ucs.py:58-69 | A slide that sets the goal flag ends on the goal, and a slide that moves the player ends on a cell `is_valid_move` accepts. |
| Moves.SlidesToIsUnique | ucs.py:58-69 | The step-by-step description of a slide fixes the number of steps, the final cell and the goal flag. |
| Moves.SlideWalk | ucs.py:58-69 | The slide loop stops after `n` steps where every entered cell was valid, no earlier cell was the goal, it stopped on the goal exactly when the flag is set, and otherwise the next cell is invalid; it moved exactly when `n > 0`. |
| Moves.SlidePlayer | ucs.py:58-71 | A slide that moved the player ends in the grid and off the walls after at least one valid step; a slide that did not move cannot set the flag; a set flag means it stopped on the goal. |
| Moves.MoverIndices | ucs.py:52-54 | The players that get a successor are exactly the unfinished ones whose slide moves them. |
| Moves.MoverIndicesAscend | ucs.py:52 | Those players are listed in player order. |
| Moves.Applied | ucs.py:50-73 | The working copy keeps one goal and one flag per player, the number of players, the walls and the goals. |
| Moves.SuccessorsUpTo | ucs.py:52-73 | Handling the first `k` players emits at most `k` successors. |
| Moves.Successors | ucs.py:49-75 | `simulate_move` returns at most one successor per player. |
| Moves.SuccessorsUpToStep | ucs.py:52-73 | Handling player `k` emits one successor exactly when `k` is unfinished and moves, and that successor is the working copy with players `0..k` handled. |
| Moves.AppliedStep | ucs.py:53-72 | Handling player `k` changes the working copy only in player `k`'s cell and flag, and not at all for a finished player. |
| Moves.SuccessorsAreCumulative | ucs.py:49-75 | `simulate_move` returns at most one successor per player, one for every moving player and only for those; the successor of player `i` carries the moves of every earlier mover. |
| Moves.AppliedPlayer | ucs.py:52-73 | In the working copy, a finished player keeps its cell and flag; an unmoved player keeps its flag; a moved player was unfinished, slid at least one valid step, and is finished exactly when it stopped on its goal. |
| Moves.SuccessorPlayers | ucs.py:49-75 | Every successor keeps the walls, goals and player count, moves at least one player, and satisfies the per-player facts above; flags only go from false to true. |
| SearchSpace.NextUpToStep | ucs.py:97-100 | Each direction, in the order up, down, left, right, appends that direction's `simulate_move` result to the pushed successors. |
| SearchSpace.NextUpTo | ucs.py:97-99 | The first `d` directions push at most `d` successors per player. |
| SearchSpace.Next | ucs.py:97-99 | One expansion pushes at most four successors per player. |
| SearchSpace.PrefixOfNext | ucs.py:97-100 | Successors pushed for the first directions are successors of the expansion. |
| SearchSpace.NextInSpace | ucs.py:97-100 | Expansion keeps the board's walls, goals and player count, and leaves every player on its starting cell or on the grid. |
| SearchSpace.PathExtends | ucs.py:100 | A path followed by a successor of its last snapshot is a path (`path + [current_state]`). |
| SearchSpace.NoPathWins | ucs.py:102 | If the popped snapshots contain the stored state, are closed under expansion and none is won, then no path from the stored state ends in a won snapshot. |
| SearchSpace.ClosedWhenDrained | ucs.py:84-102 | With the frontier empty, every successor of a popped snapshot has been popped. |
| SearchSpace.FiniteKeySpace | ucs.py:160-162 | The keys of all snapshots a search can meet lie in one finite set. |
| SearchSpace.MinimalExists | ucs.py:139 | A non-empty heap holds an entry that no other entry precedes in the `(cost, __lt__)` order. |
| SearchSpace.Before | ucs.py:139 | An entry that precedes another in the heap order costs no more than it, and the other does not precede it. |
| SearchSpace.IsMinimal | ucs.py:139 | No entry of the same cost as an entry `heappop` may return sorts before it by `__lt__`. |
| Frontier.NoRepeatsPairs | ucs.py:92-95 | A sequence of expanded keys without repeats holds no key at two positions. |
| Frontier.ExpandedOnceStep | ucs.py:92-95 | One pop either leaves `visited` alone or adds the popped key, new to it, as the next expansion; afterwards no key has been expanded twice, every expanded key is the key of a popped snapshot, every popped snapshot that was not won has its key expanded, and `visited` holds exactly the expansions. |
| Frontier.UnvisitedMembers | ucs.py:153-156 | `ucs` keeps exactly the successors whose key has not been expanded. |
| Frontier.Unvisited | ucs.py:154-155 | `ucs` keeps no more successors than `simulate_move` produced, and the key of every kept successor is not in `visited`. |
| Frontier.PopDuplicate | ucs.py:92-94 | Popping a snapshot whose key is already expanded records it and keeps the search invariant without pushing anything. |
| Frontier.PopExpand | ucs.py:92-100 | Popping a snapshot with a new key expands it and keeps the search invariant, as long as every successor is pushed or already expanded. |
| Frontier.PopWon | ucs.py:89-90 | A won pop reports its path as the solution, with the pop counted and recorded. |
| Frontier.Exhausted | ucs.py:102 | When the frontier runs dry, the search reports no solution and no path from the stored state wins. |
| Frontier.CostEntryExpand | ucs.py:146-156 | An expansion in `ucs` keeps the invariant, including that every queued cost is at least the popped cost and every path is one snapshot longer than its cost. |
| Frontier.AscendingPairs | ucs.py:139 | The popped costs in the order they were popped never decrease. |
| Frontier.PoppedCostsStep | ucs.py:139-156 | A pop at a cost no lower than the last one, whose entry holds a path from the stored state with as many steps as its cost, keeps the popped costs ascending and each of them the step count of a path from the stored state to its pop. |
| Frontier.CostEntryWon | ucs.py:143-144 | A won pop in `ucs` reports a solution one snapshot longer than its cost. |
| Optimality.PathInSpace | ucs.py:97-100 | Every snapshot on a path from the stored state lies in the search space. |
| Optimality.CoveredStart | ucs.py:133 | Before the first pop, every path from the stored state meets the heap: its first snapshot is the stored state at cost 0. |
| Optimality.CoveredBound | ucs.py:138-156 | On a path that meets the frontier, a snapshot whose key is not expanded has some frontier entry costing at most its index. |
| Optimality.CoveredDuplicate | ucs.py:146-148 | Dropping a pop whose key is already expanded keeps every path meeting the frontier. |
| Optimality.SuccessorPushed | ucs.py:151-156 | When the snapshot after the popped one on a path has a key not expanded, it is pushed at one more than the popped cost, which is at most its index. |
| Optimality.CoveredExpand | ucs.py:149-156 | Expanding a cheapest entry keeps every path meeting the frontier, provided every successor whose key is not expanded is pushed at `cost + 1`. |
| Optimality.WonIsShortest | ucs.py:143-144 | A won pop at the lowest cost on a covering frontier, one snapshot longer than that cost, is no longer than any winning path from the stored state. |
| Optimality.MinimalIsCheapest | ucs.py:139 | The entry `heappop` returns costs no more than any entry on the heap. |
| Optimality.HeapWonIsShortest | ucs.py:139-144 | A won `heappop` is a shortest solution. |
| Optimality.HeapCoveredExpand | ucs.py:146-156 | An expansion in `ucs` keeps every path meeting the heap: the successors it leaves out are exactly those whose key is expanded. |
| Optimality.PathsAscendPairs | ucs.py:112-127 | Path lengths that ascend between neighbours ascend between any two queue positions. |
| Optimality.PairsPathsAscend | ucs.py:112-127 | Conversely, path lengths ordered between any two positions ascend between neighbours. |
| Optimality.LayeredPairs | ucs.py:112-127 | In a layered queue, the path lengths never decrease from head to tail and differ by at most one. |
| Optimality.LayeredHeadIsCheapest | ucs.py:112 | The head of a layered queue costs no more than any entry, where an entry costs the length of its path. |
| Optimality.LayeredStep | ucs.py:112-127 | Taking the head and appending entries one snapshot longer than its path keeps the queue layered. |
| Optimality.QueueCoveredIsCovered | ucs.py:106-127 | A queue covers every path exactly when its entries, each costing its path length, cover every path. |
| Optimality.QueueWonIsShortest | ucs.py:112-117 | A won pop from the head of a layered, covering queue is a shortest solution. |
| Optimality.QueueDuplicate | ucs.py:119-121 | Dropping a duplicate head keeps the queue layered and covering. |
| Optimality.QueueExpand | ucs.py:119-127 | Expanding the head and appending every successor keeps the queue layered and covering. |
| Optimality.QueueStart | ucs.py:106 | The queue holding only the stored state is layered and covers every path. |
| Optimality.QueueTurn | ucs.py:111-127 | One `popleft` turn of `bfs` either pops a shortest solution or leaves a layered queue that covers every path. |
| Engine.PushEntries | ucs.py:99-100 | The stack or queue grows by one `(new_state, path + [current_state])` entry per successor, in order. |
| Engine.PushUnvisited | ucs.py:153-156 | The heap grows by one `(cost + 1, …)` entry per successor whose key is not expanded, in order. |
| Engine.HeapPop | ucs.py:139 | `heappop` removes one entry that no remaining entry precedes, and leaves the others. |
| Engine.Game.constructor | ucs.py:23-31 | The stored state holds the given walls, goals and players, with every flag false. |
| Engine.Game.IsWon | ucs.py:33-34 | `is_won` holds exactly when every flag of the stored state is true. |
| Engine.Game.SlideLoop | ucs.py:58-69 | The `while True` loop ends on the cell and flag of the specified slide. |
| Engine.Game.SimulateMove | ucs.py:48-75 | The in-place loop over the working copy returns exactly the cumulative successor list. |
| Engine.Game.Expand | ucs.py:97-98 | The four `simulate_move` calls return the successors in the searches' push order. |
| Engine.Game.SearchTurn | ucs.py:85-100 | One pop of `dfs` or `bfs` either ends with a correct report or keeps the invariant while the measure drops. A won pop leaves `visited` alone; a pop whose key is in `visited` pushes nothing and leaves it alone; otherwise exactly its key joins `visited` and its successors are pushed, so no key is expanded twice. For the queue of `bfs` a won pop is a shortest solution, and otherwise the queue stays layered and covering. |
| Engine.Game.Dfs | ucs.py:77-102 | `nodes_visited` equals the number of recorded pops; the first pop is the stored state; a returned path starts at the stored state, follows `simulate_move` steps and ends in the last popped snapshot, which is won, and no earlier pop was won; `None` means no path from the stored state wins. |
| Engine.Game.Bfs | ucs.py:104-129 | The same report as `dfs`, for the queue; in addition a returned path is no longer than any winning path from the stored state. |
| Engine.Game.UcsTurn | ucs.py:139-156 | One pop of `ucs` takes an entry `heappop` may return: no entry on the heap precedes it by cost and `__lt__`. Its cost is no lower than the last popped cost and equals the step count of its path from the stored state. A won pop ends with a correct report and a shortest solution. A pop whose key is in `visited` leaves the heap without that entry and `visited` unchanged. A pop with a new key adds exactly that key to `visited` and pushes, at `cost + 1`, the successors whose key is not in `visited`, in order, so no key is expanded twice. A pop that is not won keeps the invariant and every path meeting the heap while the measure drops. |
| Engine.Game.Ucs | ucs.py:131-158 | The same report as `dfs`. In addition, every popped cost is the step count of a path from the stored state to that pop, the popped costs never decrease, a solution has one snapshot more than the cost of its pop, and it is no longer than any winning path from the stored state. |

## Left out

- `GameUI` and the `__main__` board are not part of this model. They are console
  input and output plus a static board literal.
- Players and goals are dictionaries with a `"position"` entry in the source. Here they
  are plain `(row, col)` pairs, because no other entry is read by the engine.
- `deepcopy` and `GameState.copy` are not modelled separately. Snapshots are values.
- The heap's internal layout is not modelled. `heappop` may return any entry that no
  other entry precedes by cost and then by `__lt__`. With distinct snapshot objects,
  the tuple comparison in the source never reaches the path.
- Engine.Game.SimulateMove: requires a direction other than `(0, 0)`. On that
  direction the source's slide loop never ends for an unfinished player whose own
  cell is valid and is not its goal. When that cell is its goal, the loop sets the player's flag on
  its first pass and stops; the flag stays in the working copy, but no successor is
  emitted for it. The searches only use the four unit directions.
- Engine.Game.SimulateMove: requires one goal and one flag per player in both the
  snapshot and the stored state, and no more players than the stored state holds.
  `Game.__init__` builds one flag per player, but it copies the goals it is given
  without checking their number, so one goal per player is the caller's obligation.
  `Engine.Game.Dfs`, `Engine.Game.Bfs` and `Engine.Game.Ucs` require the same of the
  stored state (`WellFormed(state)`). Other configurations are malformed ones the
  caller must avoid: some of them raise an index error in the source, others run
  without error.
- Engine.Game.Dfs: `visited` is local to the search and is not an output. The ghost
  `expansions` output is only required to list distinct keys of popped snapshots, one
  for every pop that was not won; it is not tied to the pushes the search made. The rule
  that no key is expanded twice is stated per pop by `Engine.Game.SearchTurn`.
- Engine.Game.Bfs: the same as for `Engine.Game.Dfs`; the per-pop rule is stated by
  `Engine.Game.SearchTurn`.
- Engine.Game.Ucs: the same as for `Engine.Game.Dfs`; the per-pop rule is stated by
  `Engine.Game.UcsTurn`.
