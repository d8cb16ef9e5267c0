/**
 Why `bfs` and `ucs` return shortest solutions. Both pop an entry that costs no more
 than anything else on the frontier, where the cost of a queue entry is the length of
 its path. Every path from the stored state "meets the frontier": the first snapshot
 along it whose key is not expanded yet sits on the frontier at a cost no higher than
 its index on the path. So a won pop costs no more than the index of the won snapshot
 on any winning path.
 */
module Optimality {
  import opened GameStates
  import opened Moves
  import opened SearchSpace
  import opened Frontier

  /** Some entry of `q` holds `s` at a cost of at most `bound`. */
  ghost predicate Queued(q: seq<CostEntry>, s: GameState, bound: nat)
  {
    exists e :: e in q && e.state == s && e.cost <= bound
  }

  /** `p[i]` is on a path from the stored state, its key is not expanded, and the key of
      the snapshot before it is (or it starts the path). */
  ghost predicate Unexpanded(b: Board, visited: set<StateKey>, p: seq<GameState>, i: nat)
  {
    IsPath(b, p) && i < |p| && GetState(p[i]) !in visited && (i == 0 || GetState(p[i - 1]) in visited)
  }

  /** Every path from the stored state meets the frontier `q` at a cost no higher than the
      index where it meets it. */
  ghost predicate Covered(b: Board, q: seq<CostEntry>, visited: set<StateKey>)
  {
    forall p: seq<GameState>, i: nat {:trigger Unexpanded(b, visited, p, i)} ::
      Unexpanded(b, visited, p, i) ==> Queued(q, p[i], i)
  }

  /** The invariant of the `ucs` loop over the heap `q`: the shared bookkeeping with every
      cost at least `floor`, and every path from the stored state meeting the heap. */
  ghost predicate HeapInv(b: Board, q: seq<CostEntry>, trace: seq<GameState>, visited: set<StateKey>, floor: nat)
  {
    CostSearchInv(b, q, trace, visited, floor) && Covered(b, q, visited)
  }

  /** Nothing on the frontier costs less than `cost`. */
  ghost predicate Cheapest(q: seq<CostEntry>, cost: nat)
  {
    forall e :: e in q ==> cost <= e.cost
  }

  /** A solution no winning path from the stored state is shorter than. */
  ghost predicate Shortest(b: Board, solution: seq<GameState>)
  {
    forall p: seq<GameState> :: IsPath(b, p) && AllReached(p[|p| - 1].reachedGoal) ==> |solution| <= |p|
  }

  /** Every snapshot on a path lies in the search space. */
  lemma {:induction false} PathInSpace(b: Board, p: seq<GameState>, i: nat)
    requires WellFormed(b.state) && IsPath(b, p) && i < |p|
    ensures InSpace(b, p[i])
  {
    if i > 0 {
      PathInSpace(b, p, i - 1);
      NextInSpace(b, p[i - 1], p[i]);
    }
  }

  /** Before the first pop only the stored state is on the frontier, at cost 0. */
  lemma CoveredStart(b: Board)
    ensures Covered(b, [CostEntry(0, b.state, [])], {})
  {
    var q := [CostEntry(0, b.state, [])];
    forall p: seq<GameState>, i: nat | Unexpanded(b, {}, p, i)
      ensures Queued(q, p[i], i)
    {
      assert q[0] in q;
    }
  }

  /** A path snapshot whose key is not expanded has an entry on the frontier costing at
      most its index. */
  lemma {:induction false} CoveredBound(b: Board, q: seq<CostEntry>, visited: set<StateKey>, p: seq<GameState>, m: nat)
    requires Covered(b, q, visited) && IsPath(b, p) && m < |p| && GetState(p[m]) !in visited
    ensures exists e :: e in q && e.cost <= m
  {
    if m == 0 || GetState(p[m - 1]) in visited {
      assert Unexpanded(b, visited, p, m);
    } else {
      CoveredBound(b, q, visited, p, m - 1);
    }
  }

  /** An entry of `q` other than `q[k]` survives taking `q[k]` out. */
  lemma InRest(q: seq<CostEntry>, k: nat, e: CostEntry)
    requires k < |q| && e in q && e != q[k]
    ensures e in q[..k] + q[k + 1..]
  {
    var j :| 0 <= j < |q| && q[j] == e;
    if j < k {
      assert q[..k][j] == e;
    } else {
      assert q[k + 1..][j - k - 1] == e;
    }
  }

  /** Dropping a duplicate pop keeps every path meeting the frontier. */
  lemma CoveredDuplicate(b: Board, q: seq<CostEntry>, k: nat, visited: set<StateKey>)
    requires Covered(b, q, visited) && k < |q| && GetState(q[k].state) in visited
    ensures Covered(b, q[..k] + q[k + 1..], visited)
  {
    var rest := q[..k] + q[k + 1..];
    forall p: seq<GameState>, i: nat | Unexpanded(b, visited, p, i)
      ensures Queued(rest, p[i], i)
    {
      assert Unexpanded(b, visited, p, i);
      var e :| e in q && e.state == p[i] && e.cost <= i;
      InRest(q, k, e);
    }
  }

  /**
   Expanding the cheapest entry `q[k]`, holding `t` at `cost`, keeps every path meeting
   the frontier, provided each successor of `t` whose key is not expanded is pushed at
   `cost + 1`. A path whose first unexpanded snapshot follows `t` finds it among those.
   */
  lemma CoveredExpand(b: Board, q: seq<CostEntry>, k: nat, visited: set<StateKey>,
                      cost: nat, t: GameState, path: seq<GameState>, visited': set<StateKey>,
                      pushed: seq<CostEntry>, q': seq<CostEntry>)
    requires WellFormed(b.state) && Covered(b, q, visited)
    requires k < |q| && q[k].state == t && InSpace(b, t) && Cheapest(q, cost)
    requires GetState(t) !in visited && visited' == visited + {GetState(t)}
    requires forall s :: s in Next(b, t) && GetState(s) !in visited' ==> CostEntry(cost + 1, s, path) in pushed
    requires q' == q[..k] + q[k + 1..] + pushed
    ensures Covered(b, q', visited')
  {
    forall p: seq<GameState>, i: nat | Unexpanded(b, visited', p, i)
      ensures Queued(q', p[i], i)
    {
      if i == 0 || GetState(p[i - 1]) in visited {
        assert Unexpanded(b, visited, p, i);
        var e :| e in q && e.state == p[i] && e.cost <= i;
        InRest(q, k, e);
        assert e in q';
      } else {
        SuccessorPushed(b, q, visited, cost, t, path, visited', pushed, p, i);
        var e :| e in pushed && e.state == p[i] && e.cost <= i;
        assert e in q';
      }
    }
  }

  /**
   The snapshot after `t` on a path, when its key is not expanded, is pushed at one more
   than the popped cost, and that cost is no higher than the index of `t` on the path.
   */
  lemma SuccessorPushed(b: Board, q: seq<CostEntry>, visited: set<StateKey>,
                        cost: nat, t: GameState, path: seq<GameState>, visited': set<StateKey>,
                        pushed: seq<CostEntry>, p: seq<GameState>, i: nat)
    requires WellFormed(b.state) && Covered(b, q, visited) && Cheapest(q, cost) && InSpace(b, t)
    requires visited' == visited + {GetState(t)}
    requires forall s :: s in Next(b, t) && GetState(s) !in visited' ==> CostEntry(cost + 1, s, path) in pushed
    requires IsPath(b, p) && 0 < i < |p| && GetState(p[i - 1]) == GetState(t)
    requires GetState(t) !in visited && GetState(p[i]) !in visited'
    ensures Queued(pushed, p[i], i)
  {
    PathInSpace(b, p, i - 1);
    FromKeyInSpace(b, p[i - 1]);
    FromKeyInSpace(b, t);
    assert p[i - 1] == t;
    assert p[i] in Next(b, t);
    CoveredBound(b, q, visited, p, i - 1);
    var f :| f in q && f.cost <= i - 1;
    assert cost + 1 <= i;
    assert CostEntry(cost + 1, p[i], path) in pushed;
  }

  /**
   A won pop taken at the lowest cost on the frontier is a shortest solution when it is
   one snapshot longer than that cost: a winning path never ends in an expanded key, so
   it meets the frontier at an index no higher than its last.
   */
  lemma WonIsShortest(b: Board, q: seq<CostEntry>, pending: seq<GameState>, trace: seq<GameState>,
                      visited: set<StateKey>, cost: nat, solution: seq<GameState>)
    requires Bookkeeping(b, pending, trace, visited) && Covered(b, q, visited)
    requires Cheapest(q, cost) && |solution| == cost + 1
    ensures Shortest(b, solution)
  {
    forall p: seq<GameState> | IsPath(b, p) && AllReached(p[|p| - 1].reachedGoal)
      ensures cost + 1 <= |p|
    {
      var last := |p| - 1;
      PathInSpace(b, p, last);
      FromKeyInSpace(b, p[last]);
      assert GetState(p[last]) !in visited;
      CoveredBound(b, q, visited, p, last);
      var f :| f in q && f.cost <= last;
    }
  }

  // `ucs`: the heap's entries carry their cost; a minimal entry is a cheapest one.

  lemma MinimalIsCheapest(q: seq<CostEntry>, k: nat)
    requires k < |q| && IsMinimal(q, k)
    ensures Cheapest(q, q[k].cost)
  {
    forall e | e in q
      ensures q[k].cost <= e.cost
    {
      var j :| 0 <= j < |q| && q[j] == e;
      assert !Before(q[j], q[k]);
    }
  }

  /** A won minimal pop of `ucs` is a shortest solution. */
  lemma HeapWonIsShortest(b: Board, q: seq<CostEntry>, k: nat, trace: seq<GameState>, visited: set<StateKey>, floor: nat)
    requires CostSearchInv(b, q, trace, visited, floor) && Covered(b, q, visited)
    requires k < |q| && IsMinimal(q, k)
    ensures Shortest(b, q[k].path + [q[k].state])
  {
    assert q[k] in q;
    MinimalIsCheapest(q, k);
    WonIsShortest(b, q, CostStatesOf(q), trace, visited, q[k].cost, q[k].path + [q[k].state]);
  }

  /** An expansion in `ucs` keeps every path meeting the heap: the successors it leaves out
      are exactly those whose key is expanded. */
  lemma HeapCoveredExpand(b: Board, q: seq<CostEntry>, k: nat, visited: set<StateKey>,
                          cost: nat, t: GameState, path: seq<GameState>, visited': set<StateKey>, q': seq<CostEntry>)
    requires WellFormed(b.state) && Covered(b, q, visited)
    requires k < |q| && IsMinimal(q, k) && q[k] == CostEntry(cost, t, path) && InSpace(b, t)
    requires GetState(t) !in visited && visited' == visited + {GetState(t)}
    requires q' == q[..k] + q[k + 1..] + CostPushed(cost + 1, path + [t], Unvisited(Next(b, t), visited'))
    ensures Covered(b, q', visited')
  {
    var kept := Unvisited(Next(b, t), visited');
    var pushed := CostPushed(cost + 1, path + [t], kept);
    UnvisitedMembers(Next(b, t), visited');
    forall s | s in Next(b, t) && GetState(s) !in visited'
      ensures CostEntry(cost + 1, s, path + [t]) in pushed
    {
      var j :| 0 <= j < |kept| && kept[j] == s;
      assert pushed[j] == CostEntry(cost + 1, s, path + [t]);
    }
    MinimalIsCheapest(q, k);
    CoveredExpand(b, q, k, visited, cost, t, path + [t], visited', pushed, q');
  }

  // `bfs`: a queue entry costs the length of its path. The queue holds at most two
  // consecutive costs, the lower ones first, so its head is a cheapest entry.

  ghost function AsCost(q: seq<Entry>): (r: seq<CostEntry>)
    ensures |r| == |q|
  {
    seq(|q|, i requires 0 <= i < |q| => CostEntry(|q[i].path|, q[i].state, q[i].path))
  }

  /** Each path is at least as long as the one before it. */
  ghost predicate PathsAscend(q: seq<Entry>)
    decreases |q|
  {
    |q| < 2 || (|q[|q| - 2].path| <= |q[|q| - 1].path| && PathsAscend(q[..|q| - 1]))
  }

  lemma {:induction false} PathsAscendPairs(q: seq<Entry>)
    requires PathsAscend(q)
    ensures forall i, j :: 0 <= i <= j < |q| ==> |q[i].path| <= |q[j].path|
    decreases |q|
  {
    if |q| >= 2 {
      var init := q[..|q| - 1];
      PathsAscendPairs(init);
      forall i, j | 0 <= i <= j < |q|
        ensures |q[i].path| <= |q[j].path|
      {
        if j < |q| - 1 {
          assert q[i] == init[i] && q[j] == init[j];
        } else if i < |q| - 1 {
          assert q[i] == init[i] && q[|q| - 2] == init[|q| - 2];
        }
      }
    }
  }

  lemma {:induction false} PairsPathsAscend(q: seq<Entry>)
    requires forall i, j :: 0 <= i <= j < |q| ==> |q[i].path| <= |q[j].path|
    ensures PathsAscend(q)
    decreases |q|
  {
    if |q| >= 2 {
      var init := q[..|q| - 1];
      forall i, j | 0 <= i <= j < |init|
        ensures |init[i].path| <= |init[j].path|
      {
        assert init[i] == q[i] && init[j] == q[j];
      }
      PairsPathsAscend(init);
    }
  }

  /** Path lengths along the queue never fall, and the last is at most one more than the
      first. */
  ghost predicate Layered(q: seq<Entry>)
  {
    q == [] || (PathsAscend(q) && |q[|q| - 1].path| <= |q[0].path| + 1)
  }

  lemma LayeredPairs(q: seq<Entry>)
    requires Layered(q)
    ensures forall i, j :: 0 <= i <= j < |q| ==> |q[i].path| <= |q[j].path| <= |q[i].path| + 1
  {
    if q != [] {
      PathsAscendPairs(q);
    }
  }

  lemma LayeredHeadIsCheapest(q: seq<Entry>)
    requires q != [] && Layered(q)
    ensures Cheapest(AsCost(q), |q[0].path|)
  {
    LayeredPairs(q);
    var r := AsCost(q);
    forall e | e in r
      ensures |q[0].path| <= e.cost
    {
      var j :| 0 <= j < |r| && r[j] == e;
    }
  }

  lemma AsCostSplit(q: seq<Entry>, pushed: seq<Entry>)
    requires q != []
    ensures AsCost(q[1..] + pushed) == AsCost(q)[..0] + AsCost(q)[0 + 1..] + AsCost(pushed)
  {
  }

  /** The queue with its head popped and entries one longer than the head appended stays
      layered. */
  lemma LayeredStep(q: seq<Entry>, pushed: seq<Entry>)
    requires q != [] && Layered(q)
    requires forall e :: e in pushed ==> |e.path| == |q[0].path| + 1
    ensures Layered(q[1..] + pushed)
  {
    LayeredPairs(q);
    var q' := q[1..] + pushed;
    forall i, j | 0 <= i <= j < |q'|
      ensures |q'[i].path| <= |q'[j].path| <= |q'[i].path| + 1
    {
      if j < |q| - 1 {
        assert q'[i] == q[i + 1] && q'[j] == q[j + 1];
      } else if i < |q| - 1 {
        assert q'[i] == q[i + 1] && q'[j] in pushed;
        assert |q[0].path| <= |q[i + 1].path|;
      } else {
        assert q'[i] in pushed && q'[j] in pushed;
      }
    }
    PairsPathsAscend(q');
  }

  /** A won pop from the head of a layered, covering queue is a shortest solution. */
  lemma QueueWonIsShortest(b: Board, q: seq<Entry>, trace: seq<GameState>, visited: set<StateKey>)
    requires SearchInv(b, q, trace, visited) && Covered(b, AsCost(q), visited)
    requires q != [] && Layered(q)
    ensures Shortest(b, q[0].path + [q[0].state])
  {
    LayeredHeadIsCheapest(q);
    WonIsShortest(b, AsCost(q), StatesOf(q), trace, visited, |q[0].path|, q[0].path + [q[0].state]);
  }

  /** A duplicate pop from the head of the queue keeps it layered and covering. */
  lemma QueueDuplicate(b: Board, q: seq<Entry>, visited: set<StateKey>)
    requires Covered(b, AsCost(q), visited) && q != [] && Layered(q)
    requires GetState(q[0].state) in visited
    ensures Covered(b, AsCost(q[1..]), visited) && Layered(q[1..])
  {
    AsCostSplit(q, []);
    assert q[1..] + [] == q[1..];
    CoveredDuplicate(b, AsCost(q), 0, visited);
    LayeredStep(q, []);
  }

  /** An expansion at the head of the queue, appending every successor, keeps it layered
      and covering. */
  lemma QueueExpand(b: Board, q: seq<Entry>, visited: set<StateKey>, visited': set<StateKey>)
    requires WellFormed(b.state) && Covered(b, AsCost(q), visited) && q != [] && Layered(q)
    requires InSpace(b, q[0].state) && GetState(q[0].state) !in visited
    requires visited' == visited + {GetState(q[0].state)}
    ensures var q' := q[1..] + Pushed(q[0].path + [q[0].state], Next(b, q[0].state));
      Covered(b, AsCost(q'), visited') && Layered(q')
  {
    var t, path := q[0].state, q[0].path + [q[0].state];
    var added := Pushed(path, Next(b, t));
    var pushed := AsCost(added);
    forall s | s in Next(b, t) && GetState(s) !in visited'
      ensures CostEntry(|q[0].path| + 1, s, path) in pushed
    {
      var j :| 0 <= j < |Next(b, t)| && Next(b, t)[j] == s;
      assert pushed[j] == CostEntry(|q[0].path| + 1, s, path);
    }
    forall e | e in added
      ensures |e.path| == |q[0].path| + 1
    {
    }
    LayeredHeadIsCheapest(q);
    AsCostSplit(q, added);
    CoveredExpand(b, AsCost(q), 0, visited, |q[0].path|, t, path, visited', pushed, AsCost(q[1..] + added));
    LayeredStep(q, added);
  }

  /** Some entry of `q` holds `s` with a path of at most `bound` snapshots. */
  ghost predicate QueuedPath(q: seq<Entry>, s: GameState, bound: nat)
  {
    exists e :: e in q && e.state == s && |e.path| <= bound
  }

  /** `Covered` for the queue of `bfs`, where an entry costs the length of its path. */
  ghost predicate QueueCovered(b: Board, q: seq<Entry>, visited: set<StateKey>)
  {
    forall p: seq<GameState>, i: nat {:trigger Unexpanded(b, visited, p, i)} ::
      Unexpanded(b, visited, p, i) ==> QueuedPath(q, p[i], i)
  }

  lemma QueueCoveredIsCovered(b: Board, q: seq<Entry>, visited: set<StateKey>)
    ensures QueueCovered(b, q, visited) <==> Covered(b, AsCost(q), visited)
  {
    var r := AsCost(q);
    forall s: GameState, bound: nat
      ensures QueuedPath(q, s, bound) <==> Queued(r, s, bound)
    {
      if QueuedPath(q, s, bound) {
        var e :| e in q && e.state == s && |e.path| <= bound;
        var j :| 0 <= j < |q| && q[j] == e;
        assert r[j] in r;
      }
      if Queued(r, s, bound) {
        var e :| e in r && e.state == s && e.cost <= bound;
        var j :| 0 <= j < |r| && r[j] == e;
        assert q[j] in q;
      }
    }
  }

  /** Before the first pop only the stored state is queued, with an empty path. */
  lemma QueueStart(b: Board)
    ensures QueueCovered(b, [Entry(b.state, [])], {}) && Layered([Entry(b.state, [])])
  {
    var q := [Entry(b.state, [])];
    forall p: seq<GameState>, i: nat | Unexpanded(b, {}, p, i)
      ensures QueuedPath(q, p[i], i)
    {
      assert q[0] in q;
    }
  }

  /**
   One `bfs` turn on the head of the queue: a won pop is a shortest solution; dropping a
   duplicate, or expanding a new key and appending every successor, leaves a queue that
   is layered and that every path meets.
   */
  lemma QueueTurn(b: Board, q: seq<Entry>, trace: seq<GameState>, visited: set<StateKey>,
                  entry: Entry, rest: seq<Entry>, seen: set<StateKey>)
    requires q != [] && SearchInv(b, q, trace, visited) && QueueCovered(b, q, visited) && Layered(q)
    requires entry == q[0]
    requires !AllReached(entry.state.reachedGoal) && GetState(entry.state) in visited ==>
      seen == visited && rest == q[..0] + q[0 + 1..]
    requires !AllReached(entry.state.reachedGoal) && GetState(entry.state) !in visited ==>
      && seen == visited + {GetState(entry.state)}
      && rest == q[..0] + q[0 + 1..] + Pushed(entry.path + [entry.state], Next(b, entry.state))
    ensures AllReached(entry.state.reachedGoal) ==> Shortest(b, entry.path + [entry.state])
    ensures !AllReached(entry.state.reachedGoal) ==> QueueCovered(b, rest, seen) && Layered(rest)
  {
    QueueCoveredIsCovered(b, q, visited);
    if AllReached(entry.state.reachedGoal) {
      QueueWonIsShortest(b, q, trace, visited);
    } else {
      assert q[..0] + q[0 + 1..] == q[1..];
      if GetState(entry.state) in visited {
        QueueDuplicate(b, q, visited);
        QueueCoveredIsCovered(b, q[1..], visited);
      } else {
        EntryInSpace(b, q, 0, trace, visited);
        QueueExpand(b, q, visited, seen);
        QueueCoveredIsCovered(b, rest, seen);
      }
    }
  }
}
