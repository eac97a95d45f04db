/** Which shard holds which chain (config/pyramidConfig.go): a square matrix, read as an undirected
    graph by the searches. */
module Graph {
  // m[i][j] says that shard i holds chain j.
  type Matrix = m: seq<seq<bool>> | forall k | 0 <= k < |m| :: |m[k]| == |m| witness []

  predicate Linked(sd: Matrix, a: nat, b: nat)
    requires a < |sd| && b < |sd|
  {
    sd[a][b] || sd[b][a]
  }

  predicate Path(sd: Matrix, p: seq<nat>) {
    && p != []
    && (forall k | 0 <= k < |p| :: p[k] < |sd|)
    && forall k | 0 <= k < |p| - 1 :: Linked(sd, p[k], p[k + 1])
  }

  predicate Road(sd: Matrix, p: seq<nat>, i: nat, j: nat) {
    Path(sd, p) && p[0] == i && p[|p| - 1] == j
  }

  ghost predicate Reachable(sd: Matrix, i: nat, j: nat) { exists p :: Road(sd, p, i, j) }

  lemma {:induction false} StaysPut(sd: Matrix, i: nat)
    requires i < |sd|
    ensures Reachable(sd, i, i)
  {
    assert Road(sd, [i], i, i);
  }

  lemma {:induction false} GoesFurther(sd: Matrix, i: nat, k: nat, j: nat)
    requires i < |sd| && k < |sd| && Linked(sd, i, k) && Reachable(sd, k, j)
    ensures Reachable(sd, i, j)
  {
    var p :| Road(sd, p, k, j);
    var q := [i] + p;
    forall m | 0 <= m < |q| - 1 ensures Linked(sd, q[m], q[m + 1]) {
      assert m > 0 ==> q[m] == p[m - 1];
    }
    assert Road(sd, q, i, j);
  }

  // No road leads out of a set of shards that contains all neighbours of its members.
  lemma {:induction false} ClosedSetHoldsRoad(sd: Matrix, inside: set<nat>, p: seq<nat>)
    requires Path(sd, p) && p[0] in inside
    requires forall v: nat, w: nat | v in inside && v < |sd| && w < |sd| && Linked(sd, v, w) :: w in inside
    ensures p[|p| - 1] in inside
    decreases |p|
  {
    if |p| > 1 {
      var q := p[..|p| - 1];
      assert Path(sd, q);
      ClosedSetHoldsRoad(sd, inside, q);
      assert Linked(sd, p[|p| - 2], p[|p| - 1]);
    }
  }

  // Order of two paths of the same length, earlier shards first.
  predicate LexLess(p: seq<nat>, q: seq<nat>)
    requires |p| == |q|
  {
    p != [] &&
    var n := |p| - 1;
    LexLess(p[..n], q[..n]) || (p[..n] == q[..n] && p[n] < q[n])
  }

  lemma {:induction false} LexIrreflexive(p: seq<nat>)
    ensures !LexLess(p, p)
  {
    if p != [] {
      LexIrreflexive(p[..|p| - 1]);
    }
  }

  lemma {:induction false} LexAsymmetric(p: seq<nat>, q: seq<nat>)
    requires |p| == |q| && LexLess(p, q)
    ensures !LexLess(q, p) && p != q
  {
    var n := |p| - 1;
    if LexLess(p[..n], q[..n]) {
      LexAsymmetric(p[..n], q[..n]);
    } else {
      LexIrreflexive(p[..n]);
    }
  }

  // The shortest road from i to j; of several, the one that turns to lower shards first.
  ghost predicate FirstShortest(sd: Matrix, p: seq<nat>, i: nat, j: nat) {
    && Road(sd, p, i, j)
    && forall q | Road(sd, q, i, j) :: |p| <= |q| && (|p| == |q| ==> p == q || LexLess(p, q))
  }

  lemma {:induction false} FirstShortestIsUnique(sd: Matrix, p: seq<nat>, q: seq<nat>, i: nat, j: nat)
    requires FirstShortest(sd, p, i, j) && FirstShortest(sd, q, i, j)
    ensures p == q
  {
    hide LexLess, Road;
    if p != q {
      LexAsymmetric(p, q);
    }
  }

  function Unvisited(s: seq<bool>): set<nat> { set k | 0 <= k < |s| && !s[k] }

  // What a depth-first search from shard has done to the visited marks; while it is open, its own
  // neighbours may still be missing.
  ghost predicate Explored(sd: Matrix, shard: nat, before: seq<bool>, after: seq<bool>, open: bool) {
    && |before| == |after| == |sd| && shard < |sd| && after[shard] && !before[shard]
    && (forall v | 0 <= v < |sd| && before[v] :: after[v])
    && (forall v | 0 <= v < |sd| && after[v] && !before[v] :: Reachable(sd, shard, v))
    && forall v, w | 0 <= v < |sd| && 0 <= w < |sd| && after[v] && !before[v] && Linked(sd, v, w) && (open ==> v != shard) :: after[w]
  }

  lemma {:induction false} ExploreNeighbour(sd: Matrix, shard: nat, next: nat, a: seq<bool>, b: seq<bool>, c: seq<bool>)
    requires Explored(sd, shard, a, b, true) && Explored(sd, next, b, c, false)
    requires Linked(sd, shard, next)
    ensures Explored(sd, shard, a, c, true)
  {
    hide Reachable;
    forall v | 0 <= v < |sd| && c[v] && !a[v] ensures Reachable(sd, shard, v) {
      if !b[v] {
        GoesFurther(sd, shard, next, v);
      }
    }
    forall v, w | 0 <= v < |sd| && 0 <= w < |sd| && c[v] && !a[v] && Linked(sd, v, w) && v != shard ensures c[w] {
      if b[v] {
        assert b[w];
      }
    }
  }

  lemma {:induction false} FewerUnvisited(sd: Matrix, shard: nat, before: seq<bool>, after: seq<bool>, open: bool)
    requires Explored(sd, shard, before, after, open)
    ensures Unvisited(after) <= Unvisited(before) - {shard}
  {
  }

  method Dfs(shard: nat, visited: array<bool>, sd: Matrix)
    requires shard < |sd| == visited.Length && !visited[shard]
    modifies visited
    ensures Explored(sd, shard, old(visited[..]), visited[..], false)
    decreases Unvisited(visited[..])
  {
    hide Reachable, Unvisited;
    ghost var before := visited[..];
    visited[shard] := true;
    StaysPut(sd, shard);
    assert Explored(sd, shard, before, visited[..], true);
    for neighbor := 0 to |sd[shard]|
      invariant Explored(sd, shard, before, visited[..], true)
      invariant forall w | 0 <= w < neighbor && Linked(sd, shard, w) :: visited[w]
    {
      if (sd[shard][neighbor] || sd[neighbor][shard]) && !visited[neighbor] {
        ghost var mid := visited[..];
        FewerUnvisited(sd, shard, before, mid, true);
        assert shard in Unvisited(before) by { UnvisitedAt(before, shard); }
        Dfs(neighbor, visited, sd);
        ExploreNeighbour(sd, shard, neighbor, before, mid, visited[..]);
      }
    }
  }

  lemma {:induction false} UnvisitedAt(s: seq<bool>, k: nat)
    requires k < |s|
    ensures k in Unvisited(s) <==> !s[k]
  {
  }

  // The first shard that shard 0 does not reach; no error means that the graph is connected.
  method CheckConnectivity(sd: Matrix) returns (unconnected: int)
    requires |sd| > 0
    ensures -1 <= unconnected < |sd|
    ensures unconnected == -1 <==> forall v | 0 <= v < |sd| :: Reachable(sd, 0, v)
    ensures unconnected >= 0 ==> !Reachable(sd, 0, unconnected) && forall v | 0 <= v < unconnected :: Reachable(sd, 0, v)
  {
    var visited := new bool[|sd|](_ => false);
    Dfs(0, visited, sd);
    VisitedIffReachable(sd, visited[..]);
    for i := 0 to |sd|
      invariant forall v | 0 <= v < i :: visited[v]
    {
      if !visited[i] {
        return i;
      }
    }
    return -1;
  }

  lemma {:induction false} VisitedIffReachable(sd: Matrix, visited: seq<bool>)
    requires |visited| == |sd| > 0
    requires exists before :: Explored(sd, 0, before, visited, false) && forall v | 0 <= v < |before| :: !before[v]
    ensures forall v | 0 <= v < |sd| :: visited[v] <==> Reachable(sd, 0, v)
  {
    var inside := set v: nat | v < |sd| && visited[v];
    forall v | 0 <= v < |sd| && Reachable(sd, 0, v) ensures visited[v] {
      var p :| Road(sd, p, 0, v);
      ClosedSetHoldsRoad(sd, inside, p);
    }
  }
}
