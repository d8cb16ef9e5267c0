/**
 The bookkeeping the three searches share: what one expansion appends to a frontier,
 and the invariant that ties the frontier, the trace of popped snapshots (`visited_states`)
 and the set of expanded keys (`visited`) together, with the two ways a turn of the
 loop can keep it (a duplicate pop, an expansion) and what it gives when the frontier
 runs dry.
 */
module Frontier {
  import opened GameStates
  import opened Moves
  import opened SearchSpace

  /** The entries `(x, path)` appended for the successors `xs`, in order. */
  function Pushed(path: seq<GameState>, xs: seq<GameState>): (q: seq<Entry>)
    ensures |q| == |xs|
  {
    seq(|xs|, k requires 0 <= k < |xs| => Entry(xs[k], path))
  }

  /** The entries `(cost, x, path)` appended for the successors `xs`, in order. */
  function CostPushed(cost: nat, path: seq<GameState>, xs: seq<GameState>): (q: seq<CostEntry>)
    ensures |q| == |xs|
  {
    seq(|xs|, k requires 0 <= k < |xs| => CostEntry(cost, xs[k], path))
  }

  /** The successors `ucs` keeps: those whose key has not been expanded, in order. */
  function Unvisited(xs: seq<GameState>, visited: set<StateKey>): (ys: seq<GameState>)
    ensures |ys| <= |xs|
    ensures forall j :: 0 <= j < |ys| ==> GetState(ys[j]) !in visited
  {
    if xs == [] then []
    else
      var init, last := xs[..|xs| - 1], xs[|xs| - 1];
      assert xs == init + [last];
      Unvisited(init, visited) + (if GetState(last) in visited then [] else [last])
  }

  lemma PushedStep(path: seq<GameState>, xs: seq<GameState>, x: GameState)
    ensures Pushed(path, xs + [x]) == Pushed(path, xs) + [Entry(x, path)]
  {
  }

  lemma CostPushedStep(cost: nat, path: seq<GameState>, xs: seq<GameState>, x: GameState)
    ensures CostPushed(cost, path, xs + [x]) == CostPushed(cost, path, xs) + [CostEntry(cost, x, path)]
  {
  }

  /** `Unvisited` keeps exactly the members of `xs` whose key is not in `visited`. */
  lemma {:induction false} UnvisitedMembers(xs: seq<GameState>, visited: set<StateKey>)
    ensures forall y :: y in Unvisited(xs, visited) <==> y in xs && GetState(y) !in visited
    decreases |xs|
  {
    if xs != [] {
      var init, last := xs[..|xs| - 1], xs[|xs| - 1];
      assert xs == init + [last];
      UnvisitedMembers(init, visited);
    }
  }

  lemma UnvisitedStep(xs: seq<GameState>, x: GameState, visited: set<StateKey>)
    ensures Unvisited(xs + [x], visited)
            == Unvisited(xs, visited) + (if GetState(x) in visited then [] else [x])
  {
    assert (xs + [x])[..|xs|] == xs;
  }

  /** One more successor considered by `ucs`'s push loop. */
  lemma CostPushedUnvisitedStep(cost: nat, path: seq<GameState>, xs: seq<GameState>, x: GameState,
                                visited: set<StateKey>)
    ensures CostPushed(cost, path, Unvisited(xs + [x], visited))
            == CostPushed(cost, path, Unvisited(xs, visited))
               + (if GetState(x) in visited then [] else [CostEntry(cost, x, path)])
  {
    UnvisitedStep(xs, x, visited);
    CostPushedStep(cost, path, Unvisited(xs, visited), x);
  }

  lemma StatesOfAppend(q: seq<Entry>, path: seq<GameState>, xs: seq<GameState>)
    ensures StatesOf(q + Pushed(path, xs)) == StatesOf(q) + xs
  {
  }

  lemma CostStatesOfAppend(q: seq<CostEntry>, cost: nat, path: seq<GameState>, xs: seq<GameState>)
    ensures CostStatesOf(q + CostPushed(cost, path, xs)) == CostStatesOf(q) + xs
  {
  }

  /** Every entry appended for successors of the last snapshot of a path carries a path
      one step longer. */
  lemma PushedPaths(b: Board, path: seq<GameState>, xs: seq<GameState>)
    requires IsPath(b, path)
    requires forall x :: x in xs ==> x in Next(b, path[|path| - 1])
    ensures forall e :: e in Pushed(path, xs) ==> IsPath(b, e.path + [e.state])
  {
    forall e | e in Pushed(path, xs)
      ensures IsPath(b, e.path + [e.state])
    {
      var k :| 0 <= k < |xs| && Pushed(path, xs)[k] == e;
      assert xs[k] in xs;
      PathExtends(b, path, xs[k]);
    }
  }

  lemma CostPushedPaths(b: Board, cost: nat, path: seq<GameState>, xs: seq<GameState>)
    requires IsPath(b, path)
    requires forall x :: x in xs ==> x in Next(b, path[|path| - 1])
    ensures forall e :: e in CostPushed(cost, path, xs) ==> IsPath(b, e.path + [e.state])
  {
    forall e | e in CostPushed(cost, path, xs)
      ensures IsPath(b, e.path + [e.state])
    {
      var k :| 0 <= k < |xs| && CostPushed(cost, path, xs)[k] == e;
      assert xs[k] in xs;
      PathExtends(b, path, xs[k]);
    }
  }

  datatype Option<T> = None | Some(value: T)

  /**
   What every search reports, as `(solution, nodes_visited, visited_states)`: the counter
   equals the number of popped snapshots; the first pop is the stored state; a solution is
   a path from the stored state that ends in a won snapshot, that snapshot is the last one
   popped, and no earlier pop was won; with no solution, nothing popped was won and no path
   from the stored state ends in a won snapshot.
   */
  ghost predicate Reported(b: Board, solution: Option<seq<GameState>>, nodesVisited: nat, trace: seq<GameState>)
  {
    && nodesVisited == |trace|
    && trace != [] && trace[0] == b.state
    && (forall k :: 0 <= k < |trace| - 1 ==> !AllReached(trace[k].reachedGoal))
    && (solution.Some? ==>
          && IsPath(b, solution.value)
          && solution.value[|solution.value| - 1] == trace[|trace| - 1]
          && AllReached(trace[|trace| - 1].reachedGoal))
    && (solution.None? ==>
          && !AllReached(trace[|trace| - 1].reachedGoal)
          && forall p: seq<GameState> :: IsPath(b, p) ==> !AllReached(p[|p| - 1].reachedGoal))
  }

  /**
   The search loop's invariant over the snapshots still `pending` on the frontier, the
   trace of popped snapshots and the expanded keys: everything stays in the search space,
   nothing popped so far was won, every expanded key belongs to a popped snapshot, the
   first pop is the stored state, and every successor of a popped snapshot is popped,
   pending, or has its key expanded.
   */
  ghost predicate Bookkeeping(b: Board, pending: seq<GameState>, trace: seq<GameState>, visited: set<StateKey>)
  {
    && WellFormed(b.state)
    && (forall y :: y in pending ==> InSpace(b, y))
    && (forall t :: t in trace ==> InSpace(b, t) && !AllReached(t.reachedGoal))
    && (forall k :: k in visited ==> FromKey(b, k) in trace)
    && (if trace == [] then pending == [b.state] && visited == {} else trace[0] == b.state)
    && Closed(b, trace, pending, visited)
  }

  /** The frontier holding only the stored state, before any pop. */
  lemma BookkeepingStart(b: Board)
    requires WellFormed(b.state)
    ensures Bookkeeping(b, [b.state], [], {})
  {
    assert InSpace(b, b.state);
  }

  /** A pop of a snapshot whose key is already expanded: it joins the trace and nothing
      is pushed. */
  lemma PopDuplicate(b: Board, pending: seq<GameState>, k: nat, trace: seq<GameState>, visited: set<StateKey>)
    requires Bookkeeping(b, pending, trace, visited) && k < |pending|
    requires !AllReached(pending[k].reachedGoal) && GetState(pending[k]) in visited
    ensures Bookkeeping(b, pending[..k] + pending[k + 1..], trace + [pending[k]], visited)
  {
    var t, rest := pending[k], pending[..k] + pending[k + 1..];
    assert pending == pending[..k] + [t] + pending[k + 1..];
    FromKeyInSpace(b, t);
    var trace' := trace + [t];
    assert t in trace;
    forall y | y in trace'
      ensures y in trace
    {
    }
    ClosedStep(b, trace, pending, visited, trace', rest, visited);
  }

  /**
   A pop of a snapshot whose key is new: its key is expanded, it joins the trace, and
   every successor is either pushed or has an expanded key (`ucs` leaves those out).
   */
  lemma PopExpand(b: Board, pending: seq<GameState>, k: nat, trace: seq<GameState>, visited: set<StateKey>,
                  pushed: seq<GameState>)
    requires Bookkeeping(b, pending, trace, visited) && k < |pending|
    requires !AllReached(pending[k].reachedGoal) && GetState(pending[k]) !in visited
    requires forall s :: s in pushed ==> s in Next(b, pending[k])
    requires forall s :: s in Next(b, pending[k]) ==> s in pushed || GetState(s) in visited + {GetState(pending[k])}
    ensures Bookkeeping(b, pending[..k] + pending[k + 1..] + pushed, trace + [pending[k]],
                        visited + {GetState(pending[k])})
  {
    var t, rest := pending[k], pending[..k] + pending[k + 1..];
    assert pending == pending[..k] + [t] + pending[k + 1..];
    FromKeyInSpace(b, t);
    var trace', pending', visited' := trace + [t], rest + pushed, visited + {GetState(t)};
    forall s | s in pushed
      ensures InSpace(b, s)
    {
      NextInSpace(b, t, s);
    }
    ClosedStep(b, trace, pending, visited, trace', pending', visited');
  }

  /** A won pop ends the search with its path as the solution. */
  lemma PopWon(b: Board, pending: seq<GameState>, k: nat, trace: seq<GameState>, visited: set<StateKey>,
               path: seq<GameState>)
    requires Bookkeeping(b, pending, trace, visited) && k < |pending|
    requires AllReached(pending[k].reachedGoal) && IsPath(b, path + [pending[k]])
    ensures Reported(b, Some(path + [pending[k]]), |trace| + 1, trace + [pending[k]])
  {
    assert trace == [] ==> pending[k] == b.state;
  }

  /** When the frontier is empty, no path from the stored state ends in a won snapshot. */
  lemma Exhausted(b: Board, trace: seq<GameState>, visited: set<StateKey>)
    requires Bookkeeping(b, [], trace, visited)
    ensures Reported(b, None, |trace|, trace)
  {
    ClosedWhenDrained(b, trace, visited);
    NoPathWins(b, trace);
  }

  /** The keys of the snapshots in `trace`. */
  ghost function Keys(trace: seq<GameState>): set<StateKey>
  {
    set t | t in trace :: GetState(t)
  }

  /** No element occurs twice: the last one is not among the others, recursively. */
  ghost predicate NoRepeats(s: seq<StateKey>)
    decreases |s|
  {
    |s| == 0 || (s[|s| - 1] !in s[..|s| - 1] && NoRepeats(s[..|s| - 1]))
  }

  lemma {:induction false} NoRepeatsPairs(s: seq<StateKey>)
    requires NoRepeats(s)
    ensures forall i, j :: 0 <= i < j < |s| ==> s[i] != s[j]
    decreases |s|
  {
    if |s| > 0 {
      var init := s[..|s| - 1];
      NoRepeatsPairs(init);
      forall i, j | 0 <= i < j < |s|
        ensures s[i] != s[j]
      {
        assert s[i] == init[i];
        if j < |s| - 1 {
          assert s[j] == init[j];
        }
      }
    }
  }

  ghost function Elements(s: seq<StateKey>): set<StateKey>
  {
    set key | key in s
  }

  /**
   The keys a search expanded, in the order it added them to `visited`: no key twice,
   each the key of a popped snapshot, and every popped snapshot that was not won has
   its key among them.
   */
  ghost predicate ExpandedOnce(expansions: seq<StateKey>, trace: seq<GameState>)
  {
    && NoRepeats(expansions)
    && Elements(expansions) <= Keys(trace)
    && (forall t :: t in trace && !AllReached(t.reachedGoal) ==> GetState(t) in expansions)
  }

  /** `ExpandedOnce`, with `visited` holding exactly the recorded expansions. */
  ghost predicate ExpandedAs(expansions: seq<StateKey>, trace: seq<GameState>, visited: set<StateKey>)
  {
    ExpandedOnce(expansions, trace) && visited == Elements(expansions)
  }

  /**
   One pop of `t`: either `visited` is left as it is, or the key of `t`, new to it,
   joins it and is recorded as the next expansion. Unless `t` is won its key ends up
   in `visited`.
   */
  lemma ExpandedOnceStep(expansions: seq<StateKey>, visited: set<StateKey>, trace: seq<GameState>,
                         t: GameState, seen: set<StateKey>)
    returns (expansions': seq<StateKey>)
    requires ExpandedAs(expansions, trace, visited)
    requires seen == visited || (GetState(t) !in visited && seen == visited + {GetState(t)})
    requires !AllReached(t.reachedGoal) ==> GetState(t) in seen
    ensures expansions' == if seen == visited then expansions else expansions + [GetState(t)]
    ensures ExpandedAs(expansions', trace + [t], seen)
  {
    var key, trace' := GetState(t), trace + [t];
    KeysAppend(trace, t);
    if seen == visited {
      expansions' := expansions;
      forall u | u in trace' && !AllReached(u.reachedGoal)
        ensures GetState(u) in expansions
      {
        if u == t {
          assert key in Elements(expansions);
        } else {
          assert u in trace;
        }
      }
    } else {
      expansions' := expansions + [key];
      assert expansions'[..|expansions'| - 1] == expansions;
      assert Elements(expansions') == Elements(expansions) + {key};
      forall u | u in trace' && !AllReached(u.reachedGoal)
        ensures GetState(u) in expansions'
      {
        if u != t {
          assert u in trace;
        }
      }
    }
  }

  lemma KeysAppend(trace: seq<GameState>, t: GameState)
    ensures Keys(trace + [t]) == Keys(trace) + {GetState(t)}
  {
    forall key | key in Keys(trace)
      ensures key in Keys(trace + [t])
    {
      var u :| u in trace && GetState(u) == key;
      assert u in trace + [t];
    }
  }

  // The invariant over `(state, path)` entries of the stack and the queue.

  ghost predicate SearchInv(b: Board, q: seq<Entry>, trace: seq<GameState>, visited: set<StateKey>)
  {
    && Bookkeeping(b, StatesOf(q), trace, visited)
    && forall e :: e in q ==> IsPath(b, e.path + [e.state])
  }

  lemma SearchStart(b: Board)
    requires WellFormed(b.state)
    ensures SearchInv(b, [Entry(b.state, [])], [], {})
  {
    assert StatesOf([Entry(b.state, [])]) == [b.state];
    BookkeepingStart(b);
  }

  lemma EntryInSpace(b: Board, q: seq<Entry>, k: nat, trace: seq<GameState>, visited: set<StateKey>)
    requires SearchInv(b, q, trace, visited) && k < |q|
    ensures InSpace(b, q[k].state)
  {
    assert StatesOf(q)[k] == q[k].state;
  }

  lemma EntryDuplicate(b: Board, q: seq<Entry>, k: nat, rest: seq<Entry>, trace: seq<GameState>, visited: set<StateKey>)
    requires SearchInv(b, q, trace, visited) && k < |q| && rest == q[..k] + q[k + 1..]
    requires !AllReached(q[k].state.reachedGoal) && GetState(q[k].state) in visited
    ensures SearchInv(b, rest, trace + [q[k].state], visited)
  {
    StatesOfRemove(q, k);
    PopDuplicate(b, StatesOf(q), k, trace, visited);
    forall e | e in q[..k] + q[k + 1..]
      ensures e in q
    {
    }
  }

  lemma EntryExpand(b: Board, q: seq<Entry>, k: nat, rest: seq<Entry>, trace: seq<GameState>, visited: set<StateKey>)
    requires SearchInv(b, q, trace, visited) && k < |q| && rest == q[..k] + q[k + 1..]
    requires !AllReached(q[k].state.reachedGoal) && GetState(q[k].state) !in visited
    ensures SearchInv(b, rest + Pushed(q[k].path + [q[k].state], Next(b, q[k].state)),
                      trace + [q[k].state], visited + {GetState(q[k].state)})
  {
    var t, p := q[k].state, q[k].path + [q[k].state];
    var q' := q[..k] + q[k + 1..] + Pushed(p, Next(b, t));
    StatesOfRemove(q, k);
    StatesOfAppend(q[..k] + q[k + 1..], p, Next(b, t));
    PopExpand(b, StatesOf(q), k, trace, visited, Next(b, t));
    assert q[k] in q;
    PushedPaths(b, p, Next(b, t));
    forall e | e in q'
      ensures IsPath(b, e.path + [e.state])
    {
      if e !in Pushed(p, Next(b, t)) {
        assert e in q[..k] + q[k + 1..];
      }
    }
  }

  lemma EntryWon(b: Board, q: seq<Entry>, k: nat, trace: seq<GameState>, visited: set<StateKey>)
    requires SearchInv(b, q, trace, visited) && k < |q|
    requires AllReached(q[k].state.reachedGoal)
    ensures Reported(b, Some(q[k].path + [q[k].state]), |trace| + 1, trace + [q[k].state])
  {
    StatesOfRemove(q, k);
    assert q[k] in q;
    PopWon(b, StatesOf(q), k, trace, visited, q[k].path);
  }

  lemma SearchExhausted(b: Board, trace: seq<GameState>, visited: set<StateKey>)
    requires SearchInv(b, [], trace, visited)
    ensures Reported(b, None, |trace|, trace)
  {
    assert StatesOf([]) == [];
    Exhausted(b, trace, visited);
  }

  // The invariant over `(cost, state, path)` entries of the priority queue: besides the
  // shared bookkeeping, each entry's cost is the length of its path, and no entry costs
  // less than the last one popped (`floor`).

  ghost predicate CostSearchInv(b: Board, q: seq<CostEntry>, trace: seq<GameState>, visited: set<StateKey>, floor: nat)
  {
    && Bookkeeping(b, CostStatesOf(q), trace, visited)
    && forall e :: e in q ==> IsPath(b, e.path + [e.state]) && e.cost == |e.path| && floor <= e.cost
  }

  lemma CostSearchStart(b: Board)
    requires WellFormed(b.state)
    ensures CostSearchInv(b, [CostEntry(0, b.state, [])], [], {}, 0)
  {
    assert CostStatesOf([CostEntry(0, b.state, [])]) == [b.state];
    BookkeepingStart(b);
  }

  lemma CostEntryInSpace(b: Board, q: seq<CostEntry>, k: nat, trace: seq<GameState>, visited: set<StateKey>, floor: nat)
    requires CostSearchInv(b, q, trace, visited, floor) && k < |q|
    ensures InSpace(b, q[k].state)
  {
    assert CostStatesOf(q)[k] == q[k].state;
  }

  /** A minimal entry costs no less than the floor, and nothing left behind costs less
      than it. */
  lemma MinimalRaisesFloor(b: Board, q: seq<CostEntry>, k: nat, trace: seq<GameState>, visited: set<StateKey>, floor: nat)
    requires CostSearchInv(b, q, trace, visited, floor) && k < |q| && IsMinimal(q, k)
    ensures floor <= q[k].cost
    ensures forall e :: e in q[..k] + q[k + 1..] ==> IsPath(b, e.path + [e.state]) && e.cost == |e.path| && q[k].cost <= e.cost
  {
    assert q[k] in q;
    forall e | e in q[..k] + q[k + 1..]
      ensures IsPath(b, e.path + [e.state]) && e.cost == |e.path| && q[k].cost <= e.cost
    {
      var j :| 0 <= j < |q| && q[j] == e;
      assert !Before(q[j], q[k]);
    }
  }

  lemma CostEntryDuplicate(b: Board, q: seq<CostEntry>, k: nat, rest: seq<CostEntry>, trace: seq<GameState>, visited: set<StateKey>, floor: nat)
    requires CostSearchInv(b, q, trace, visited, floor) && k < |q| && IsMinimal(q, k) && rest == q[..k] + q[k + 1..]
    requires !AllReached(q[k].state.reachedGoal) && GetState(q[k].state) in visited
    ensures floor <= q[k].cost
    ensures CostSearchInv(b, rest, trace + [q[k].state], visited, q[k].cost)
  {
    CostStatesOfRemove(q, k);
    PopDuplicate(b, CostStatesOf(q), k, trace, visited);
    MinimalRaisesFloor(b, q, k, trace, visited, floor);
  }

  lemma CostEntryExpand(b: Board, q: seq<CostEntry>, k: nat, rest: seq<CostEntry>, trace: seq<GameState>,
                        visited: set<StateKey>, floor: nat,
                        cost: nat, t: GameState, path: seq<GameState>, newStates: seq<GameState>,
                        visited': set<StateKey>, q': seq<CostEntry>)
    requires CostSearchInv(b, q, trace, visited, floor) && k < |q| && IsMinimal(q, k) && rest == q[..k] + q[k + 1..]
    requires q[k] == CostEntry(cost, t, path)
    requires !AllReached(t.reachedGoal) && GetState(t) !in visited
    requires newStates == Next(b, t) && visited' == visited + {GetState(t)}
    requires q' == rest + CostPushed(cost + 1, path + [t], Unvisited(newStates, visited'))
    ensures floor <= cost
    ensures CostSearchInv(b, q', trace + [t], visited', cost)
  {
    var p := path + [t];
    var kept := Unvisited(newStates, visited');
    UnvisitedMembers(newStates, visited');
    CostStatesOfRemove(q, k);
    CostStatesOfAppend(rest, cost + 1, p, kept);
    PopExpand(b, CostStatesOf(q), k, trace, visited, kept);
    MinimalRaisesFloor(b, q, k, trace, visited, floor);
    assert q[k] in q;
    CostPushedPaths(b, cost + 1, p, kept);
    CostEntriesAppend(b, rest, cost, p, kept);
  }

  /** Entries kept from the heap and entries pushed at `cost + 1` with a path one longer
      than `cost` all cost their path length and at least `cost`. */
  lemma CostEntriesAppend(b: Board, rest: seq<CostEntry>, cost: nat, p: seq<GameState>, kept: seq<GameState>)
    requires forall e :: e in rest ==> IsPath(b, e.path + [e.state]) && e.cost == |e.path| && cost <= e.cost
    requires forall e :: e in CostPushed(cost + 1, p, kept) ==> IsPath(b, e.path + [e.state])
    requires |p| == cost + 1
    ensures forall e :: e in rest + CostPushed(cost + 1, p, kept) ==>
      IsPath(b, e.path + [e.state]) && e.cost == |e.path| && cost <= e.cost
  {
    forall e | e in rest + CostPushed(cost + 1, p, kept)
      ensures IsPath(b, e.path + [e.state]) && e.cost == |e.path| && cost <= e.cost
    {
      if e !in rest {
        var j :| 0 <= j < |kept| && CostPushed(cost + 1, p, kept)[j] == e;
      }
    }
  }

  /** Each element is at least the one before it. */
  ghost predicate Ascending(s: seq<nat>)
    decreases |s|
  {
    |s| < 2 || (s[|s| - 2] <= s[|s| - 1] && Ascending(s[..|s| - 1]))
  }

  lemma {:induction false} AscendingPairs(s: seq<nat>)
    requires Ascending(s)
    ensures forall i, j :: 0 <= i < j < |s| ==> s[i] <= s[j]
    decreases |s|
  {
    if |s| >= 2 {
      var init := s[..|s| - 1];
      AscendingPairs(init);
      forall i, j | 0 <= i < j < |s| ensures s[i] <= s[j] {
        assert s[i] == init[i];
        if j < |s| - 1 {
          assert s[j] == init[j];
        } else if i < |s| - 2 {
          assert s[|s| - 2] == init[|s| - 2];
        }
      }
    }
  }

  /**
   What one turn of `ucs` does to the heap: it pops entry `k`, which no entry precedes;
   a won pop or a pop whose key is in `visited` pushes nothing; a pop with a new key
   pushes, at one more than its cost, the successors whose key is not in `seen`.
   */
  ghost predicate HeapTurn(b: Board, pq: seq<CostEntry>, k: nat, entry: CostEntry, queue: seq<CostEntry>,
                           visited: set<StateKey>, seen: set<StateKey>)
  {
    && k < |pq| && IsMinimal(pq, k) && entry == pq[k]
    && (AllReached(entry.state.reachedGoal) || GetState(entry.state) in visited ==>
          queue == pq[..k] + pq[k + 1..])
    && (!AllReached(entry.state.reachedGoal) && GetState(entry.state) !in visited ==>
          queue == pq[..k] + pq[k + 1..]
                   + CostPushed(entry.cost + 1, entry.path + [entry.state], Unvisited(Next(b, entry.state), seen)))
  }

  /** Pop by pop, the popped snapshot ends a path from the stored state with as many steps
      as the cost it was popped at. */
  ghost predicate CostsOfPops(b: Board, costs: seq<nat>, trace: seq<GameState>)
  {
    && |costs| == |trace|
    && forall i :: 0 <= i < |costs| ==> exists p :: IsPath(b, p + [trace[i]]) && |p| == costs[i]
  }

  /** The costs of the pops in `trace`: each one the length of a path to its pop,
      ascending, and the last one is `floor`. */
  ghost predicate PoppedCosts(b: Board, costs: seq<nat>, floor: nat, trace: seq<GameState>)
  {
    && (costs == [] ==> floor == 0)
    && (costs != [] ==> costs[|costs| - 1] == floor)
    && Ascending(costs)
    && CostsOfPops(b, costs, trace)
  }

  lemma PoppedCostsStep(b: Board, costs: seq<nat>, floor: nat, trace: seq<GameState>, e: CostEntry)
    requires PoppedCosts(b, costs, floor, trace) && floor <= e.cost
    requires IsPath(b, e.path + [e.state]) && e.cost == |e.path|
    ensures PoppedCosts(b, costs + [e.cost], e.cost, trace + [e.state])
  {
    var costs', trace' := costs + [e.cost], trace + [e.state];
    assert costs'[..|costs|] == costs;
    forall i | 0 <= i < |costs'|
      ensures exists p :: IsPath(b, p + [trace'[i]]) && |p| == costs'[i]
    {
      if i == |costs| {
        assert IsPath(b, e.path + [trace'[i]]) && |e.path| == costs'[i];
      } else {
        assert trace'[i] == trace[i] && costs'[i] == costs[i];
      }
    }
  }

  /** A won pop ends `ucs` with a solution one snapshot longer than its cost. */
  lemma CostEntryWon(b: Board, q: seq<CostEntry>, k: nat, trace: seq<GameState>, visited: set<StateKey>, floor: nat)
    requires CostSearchInv(b, q, trace, visited, floor) && k < |q|
    requires AllReached(q[k].state.reachedGoal)
    ensures floor <= q[k].cost && |q[k].path + [q[k].state]| == q[k].cost + 1
    ensures Reported(b, Some(q[k].path + [q[k].state]), |trace| + 1, trace + [q[k].state])
  {
    CostStatesOfRemove(q, k);
    assert q[k] in q;
    PopWon(b, CostStatesOf(q), k, trace, visited, q[k].path);
  }

  lemma CostSearchExhausted(b: Board, trace: seq<GameState>, visited: set<StateKey>, floor: nat)
    requires CostSearchInv(b, [], trace, visited, floor)
    ensures Reported(b, None, |trace|, trace)
  {
    assert CostStatesOf([]) == [];
    Exhausted(b, trace, visited);
  }
}
