/**
 The graph the three searches traverse: one expansion step (`simulate_move` in the four
 directions, in the order the searches use), paths from the Game's stored state, the
 finite set of keys a search can meet, and the frontier entries with the heap order.
 */
module SearchSpace {
  import opened GameStates
  import opened Moves

  /** `[(-1, 0), (1, 0), (0, -1), (0, 1)]`: up, down, left, right. */
  const Directions: seq<(int, int)> := [(-1, 0), (1, 0), (0, -1), (0, 1)]

  lemma DirectionsMove(k: nat)
    requires k < |Directions|
    ensures Directions[k] != (0, 0)
  {
  }

  /** The successors pushed for directions `0 .. d-1`, in push order. */
  function NextUpTo(b: Board, s: GameState, d: nat): (r: seq<GameState>)
    requires Fits(b, s) && d <= |Directions|
    ensures |r| <= d * |s.players|
  {
    if d == 0 then []
    else
      DirectionsMove(d - 1);
      assert (d - 1) * |s.players| + |s.players| == d * |s.players|;
      NextUpTo(b, s, d - 1) + Successors(b, s, Directions[d - 1].0, Directions[d - 1].1)
  }

  /** Direction `d` appends its own successors after those of the earlier directions. */
  lemma NextUpToStep(b: Board, s: GameState, d: nat)
    requires Fits(b, s) && d < |Directions|
    ensures Directions[d] != (0, 0)
    ensures NextUpTo(b, s, d + 1) == NextUpTo(b, s, d) + Successors(b, s, Directions[d].0, Directions[d].1)
  {
  }

  /** Everything one expansion of `s` pushes: at most one successor per direction and
      player. */
  function Next(b: Board, s: GameState): (r: seq<GameState>)
    ensures |r| <= |Directions| * |s.players|
  {
    if Fits(b, s) then NextUpTo(b, s, |Directions|) else []
  }

  /** A successor pushed for some direction is a successor in that direction. */
  lemma {:induction false} InNextUpTo(b: Board, s: GameState, d: nat, x: GameState)
    requires Fits(b, s) && d <= |Directions| && x in NextUpTo(b, s, d)
    ensures exists k :: 0 <= k < d && Directions[k] != (0, 0)
                        && x in Successors(b, s, Directions[k].0, Directions[k].1)
  {
    DirectionsMove(d - 1);
    if x !in Successors(b, s, Directions[d - 1].0, Directions[d - 1].1) {
      InNextUpTo(b, s, d - 1, x);
    }
  }

  /**
   The snapshots a search started from the stored state can meet: the board's walls and
   goals, all of its players, and each player on its starting cell or on the grid.
   */
  ghost predicate InSpace(b: Board, s: GameState)
  {
    && WellFormed(b.state) && WellFormed(s)
    && |s.players| == |b.state.players|
    && s.walls == b.state.walls && s.goals == b.state.goals
    && forall j :: 0 <= j < |s.players| ==> s.players[j] == b.state.players[j] || InGrid(b, s.players[j])
  }

  /** Expansion never leaves the space: players only ever slide onto grid cells and the
      walls, goals and player count are carried over. */
  lemma NextInSpace(b: Board, s: GameState, x: GameState)
    requires InSpace(b, s) && x in Next(b, s)
    ensures InSpace(b, x)
  {
    InNextUpTo(b, s, |Directions|, x);
    var k :| 0 <= k < |Directions| && Directions[k] != (0, 0)
             && x in Successors(b, s, Directions[k].0, Directions[k].1);
    SuccessorPlayers(b, s, Directions[k].0, Directions[k].1, x);
    forall j | 0 <= j < |x.players|
      ensures x.players[j] == b.state.players[j] || InGrid(b, x.players[j])
    {
      assert x.players[j] == s.players[j] || InGrid(b, x.players[j]);
    }
  }

  /** In the space, a key identifies its snapshot. */
  function FromKey(b: Board, k: StateKey): GameState
  {
    GameState(b.state.walls, b.state.goals, k.0, k.1)
  }

  lemma FromKeyInSpace(b: Board, s: GameState)
    requires InSpace(b, s)
    ensures FromKey(b, GetState(s)) == s
  {
  }

  /** A path the searches may return: it starts at the stored state and each snapshot
      is pushed by the expansion of the one before. */
  ghost predicate IsPath(b: Board, p: seq<GameState>)
  {
    && |p| >= 1 && p[0] == b.state
    && forall k :: 0 <= k < |p| - 1 ==> p[k + 1] in Next(b, p[k])
  }

  lemma PathExtends(b: Board, p: seq<GameState>, x: GameState)
    requires IsPath(b, p) && x in Next(b, p[|p| - 1])
    ensures IsPath(b, p + [x])
  {
    var q := p + [x];
    forall k | 0 <= k < |q| - 1
      ensures q[k + 1] in Next(b, q[k])
    {
      if k < |p| - 1 {
        assert q[k] == p[k] && q[k + 1] == p[k + 1];
      }
    }
  }

  /**
   Every successor of a popped snapshot is popped, pending on the frontier, or carries
   a key already expanded.
   */
  ghost predicate Closed(b: Board, trace: seq<GameState>, pending: seq<GameState>, visited: set<StateKey>)
  {
    forall t, s :: t in trace && s in Next(b, t) ==> s in trace || s in pending || GetState(s) in visited
  }

  /** A set of snapshots that holds the stored state and is closed under expansion holds
      every snapshot on every path. */
  lemma {:induction false} ClosedTraceHoldsPaths(b: Board, trace: seq<GameState>, p: seq<GameState>, k: nat)
    requires b.state in trace
    requires forall t, s :: t in trace && s in Next(b, t) ==> s in trace
    requires IsPath(b, p) && k < |p|
    ensures p[k] in trace
  {
    if k > 0 {
      ClosedTraceHoldsPaths(b, trace, p, k - 1);
      assert p[k] in Next(b, p[k - 1]);
    }
  }

  /** So when such a set holds no won snapshot, no path ends in a won snapshot. */
  lemma NoPathWins(b: Board, trace: seq<GameState>)
    requires b.state in trace
    requires forall t, s :: t in trace && s in Next(b, t) ==> s in trace
    requires forall t :: t in trace ==> !AllReached(t.reachedGoal)
    ensures forall p: seq<GameState> :: IsPath(b, p) ==> !AllReached(p[|p| - 1].reachedGoal)
  {
    forall p: seq<GameState> | IsPath(b, p)
      ensures !AllReached(p[|p| - 1].reachedGoal)
    {
      ClosedTraceHoldsPaths(b, trace, p, |p| - 1);
    }
  }

  /** When nothing is pending and every expanded key belongs to a popped snapshot, a
      closed trace is closed under expansion outright. */
  lemma ClosedWhenDrained(b: Board, trace: seq<GameState>, visited: set<StateKey>)
    requires Closed(b, trace, [], visited)
    requires forall t :: t in trace ==> InSpace(b, t)
    requires forall k :: k in visited ==> FromKey(b, k) in trace
    ensures forall t, s :: t in trace && s in Next(b, t) ==> s in trace
  {
    forall t, s | t in trace && s in Next(b, t)
      ensures s in trace
    {
      NextInSpace(b, t, s);
      FromKeyInSpace(b, s);
    }
  }

  /** How the closure survives one turn of a search loop: nothing leaves the trace, what
      leaves the frontier joins the trace or stays pending, keys are only added, and the
      snapshots newly on the trace have their successors accounted for. */
  lemma ClosedStep(b: Board, trace: seq<GameState>, pending: seq<GameState>, visited: set<StateKey>,
                   trace': seq<GameState>, pending': seq<GameState>, visited': set<StateKey>)
    requires Closed(b, trace, pending, visited)
    requires forall y :: y in trace ==> y in trace'
    requires forall y :: y in pending ==> y in trace' || y in pending'
    requires visited <= visited'
    requires forall t, s :: t in trace' && t !in trace && s in Next(b, t) ==>
               s in trace' || s in pending' || GetState(s) in visited'
    ensures Closed(b, trace', pending', visited')
  {
  }

  /** A successor in any of the four directions is part of the expansion. */
  lemma {:induction false} SuccessorInNext(b: Board, s: GameState, d: nat, x: GameState)
    requires Fits(b, s) && d < |Directions|
    requires Directions[d] != (0, 0) && x in Successors(b, s, Directions[d].0, Directions[d].1)
    ensures x in Next(b, s)
  {
    PrefixOfNext(b, s, d + 1, x);
  }

  lemma {:induction false} PrefixOfNext(b: Board, s: GameState, d: nat, x: GameState)
    requires Fits(b, s) && d <= |Directions| && x in NextUpTo(b, s, d)
    ensures x in Next(b, s)
    decreases |Directions| - d
  {
    if d < |Directions| {
      DirectionsMove(d);
      PrefixOfNext(b, s, d + 1, x);
    }
  }

  // The finite key space the termination argument counts down.

  ghost function Grid(b: Board): set<Pos>
  {
    set r: int, c: int | 0 <= r < b.rows && 0 <= c < b.cols :: (r, c)
  }

  /** All sequences whose `j`-th element is drawn from `cs[j]`. */
  ghost function Tuples(cs: seq<set<Pos>>): set<seq<Pos>>
    decreases |cs|
  {
    if cs == [] then {[]}
    else set x, t | x in cs[0] && t in Tuples(cs[1..]) :: [x] + t
  }

  ghost function FlagSeqs(n: nat): set<seq<bool>>
  {
    if n == 0 then {[]}
    else set x: bool, t | t in FlagSeqs(n - 1) :: [x] + t
  }

  lemma {:induction false} InTuples(cs: seq<set<Pos>>, ps: seq<Pos>)
    requires |ps| == |cs| && forall j :: 0 <= j < |ps| ==> ps[j] in cs[j]
    ensures ps in Tuples(cs)
    decreases |cs|
  {
    if cs != [] {
      InTuples(cs[1..], ps[1..]);
      assert ps == [ps[0]] + ps[1..];
    }
  }

  lemma {:induction false} InFlagSeqs(fs: seq<bool>)
    ensures fs in FlagSeqs(|fs|)
  {
    if fs != [] {
      var x, t := fs[0], fs[1..];
      InFlagSeqs(t);
      assert fs == [x] + t && |t| == |fs| - 1;
      assert [x] + t in FlagSeqs(|fs|);
    }
  }

  ghost function Choices(b: Board): seq<set<Pos>>
  {
    seq(|b.state.players|, j requires 0 <= j < |b.state.players| => {b.state.players[j]} + Grid(b))
  }

  /** Every key a search can meet. */
  ghost function KeySpace(b: Board): set<StateKey>
  {
    set ps, fs | ps in Tuples(Choices(b)) && fs in FlagSeqs(|b.state.players|) :: (ps, fs)
  }

  lemma KeyInKeySpace(b: Board, s: GameState)
    requires InSpace(b, s)
    ensures GetState(s) in KeySpace(b)
  {
    var cs := Choices(b);
    forall j | 0 <= j < |s.players|
      ensures s.players[j] in cs[j]
    {
      if s.players[j] != b.state.players[j] {
        var r, c := s.players[j].0, s.players[j].1;
        assert 0 <= r < b.rows && 0 <= c < b.cols;
        assert (r, c) in Grid(b);
      }
    }
    InTuples(cs, s.players);
    InFlagSeqs(s.reachedGoal);
  }

  /** The keys a search can meet are drawn from one finite set: the measure that bounds
      how many expansions a search can make. */
  lemma FiniteKeySpace(b: Board) returns (space: set<StateKey>)
    ensures forall s :: InSpace(b, s) ==> GetState(s) in space
  {
    space := KeySpace(b);
    forall s | InSpace(b, s)
      ensures GetState(s) in space
    {
      KeyInKeySpace(b, s);
    }
  }

  /** Frontier entries: `(state, path)` for the stack and the queue, `(cost, state, path)`
      for the heap. */
  datatype Entry = Entry(state: GameState, path: seq<GameState>)
  datatype CostEntry = CostEntry(cost: nat, state: GameState, path: seq<GameState>)

  ghost function StatesOf(q: seq<Entry>): seq<GameState>
  {
    seq(|q|, i requires 0 <= i < |q| => q[i].state)
  }

  ghost function CostStatesOf(q: seq<CostEntry>): seq<GameState>
  {
    seq(|q|, i requires 0 <= i < |q| => q[i].state)
  }

  lemma StatesOfPush(q: seq<Entry>, e: Entry)
    ensures StatesOf(q + [e]) == StatesOf(q) + [e.state]
  {
  }

  /** Taking entry `k` out of a frontier takes its snapshot out of the pending ones. */
  lemma StatesOfRemove(q: seq<Entry>, k: nat)
    requires k < |q|
    ensures StatesOf(q)[k] == q[k].state
    ensures StatesOf(q[..k] + q[k + 1..]) == StatesOf(q)[..k] + StatesOf(q)[k + 1..]
  {
  }

  lemma CostStatesOfPush(q: seq<CostEntry>, e: CostEntry)
    ensures CostStatesOf(q + [e]) == CostStatesOf(q) + [e.state]
  {
  }

  lemma CostStatesOfRemove(q: seq<CostEntry>, k: nat)
    requires k < |q|
    ensures CostStatesOf(q)[k] == q[k].state
    ensures CostStatesOf(q[..k] + q[k + 1..]) == CostStatesOf(q)[..k] + CostStatesOf(q)[k + 1..]
  {
  }

  /** Expanding a fresh key leaves fewer keys of the space unexpanded. */
  lemma CountDown(space: set<StateKey>, visited: set<StateKey>, k: StateKey)
    requires k in space && k !in visited
    ensures |space - (visited + {k})| < |space - visited|
  {
    assert space - (visited + {k}) == (space - visited) - {k};
  }

  /** The heap's order on `(cost, state, path)`: by cost, then by `__lt__`. Entries equal
      in both compare neither way, so the heap may hand out either. */
  predicate Before(x: CostEntry, y: CostEntry)
    ensures Before(x, y) ==> x.cost <= y.cost && !(y.cost < x.cost || (y.cost == x.cost && Lt(y.state, x.state)))
  {
    x.cost < y.cost || (x.cost == y.cost && Lt(x.state, y.state))
  }

  /** Nothing in `pq` comes before entry `k`: an entry `heappop` may return. */
  predicate IsMinimal(pq: seq<CostEntry>, k: nat)
    requires k < |pq|
    ensures IsMinimal(pq, k) ==> forall j :: 0 <= j < |pq| && pq[j].cost == pq[k].cost ==> !Lt(pq[j].state, pq[k].state)
  {
    forall j :: 0 <= j < |pq| ==> !Before(pq[j], pq[k])
  }

  lemma {:induction false} MinimalExists(pq: seq<CostEntry>)
    requires pq != []
    ensures exists k :: 0 <= k < |pq| && IsMinimal(pq, k)
  {
    if |pq| > 1 {
      MinimalExists(pq[1..]);
      var k' :| 0 <= k' < |pq| - 1 && IsMinimal(pq[1..], k');
      if Before(pq[0], pq[k' + 1]) {
        forall j | 0 <= j < |pq|
          ensures !Before(pq[j], pq[0])
        {
          if j > 0 {
            assert !Before(pq[1..][j - 1], pq[1..][k']);
          }
        }
        assert IsMinimal(pq, 0);
      } else {
        forall j | 0 <= j < |pq|
          ensures !Before(pq[j], pq[k' + 1])
        {
          if j > 0 {
            assert pq[j] == pq[1..][j - 1];
          }
        }
        assert IsMinimal(pq, k' + 1);
      }
    } else {
      assert IsMinimal(pq, 0);
    }
  }
}
