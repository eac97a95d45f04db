/** Relay routes between shards (config/pyramidConfig.go) and the relay transactions along them
    (Tx/transaction.go, Tx/TxPool.go). */
module Routes {
  import opened BreadthFirst
  import opened Graph
  import opened Transactions

  // Some third shard holds both chains.
  predicate Joint(sd: Matrix, i: nat, j: nat)
    requires i < |sd| && j < |sd|
  {
    exists k | 0 <= k < |sd| :: k != i && k != j && sd[k][i] && sd[k][j]
  }

  predicate Shards(sd: Matrix, path: seq<nat>) { forall k | 0 <= k < |path| :: path[k] < |sd| }

  predicate Distinct(p: seq<nat>) { forall a, b | 0 <= a < b < |p| :: p[a] != p[b] }

  // The shard at idx holds the chains of both its neighbours on the path.
  predicate Skips(sd: Matrix, path: seq<nat>, idx: nat)
    requires Shards(sd, path)
  {
    1 <= idx < |path| - 1 && sd[path[idx]][path[idx - 1]] && sd[path[idx]][path[idx + 1]]
  }

  function Without(path: seq<nat>, idx: nat): (r: seq<nat>)
    requires idx < |path|
    ensures |r| == |path| - 1
    ensures forall k | 0 <= k < |r| :: r[k] == if k < idx then path[k] else path[k + 1]
  {
    path[..idx] + path[idx + 1..]
  }

  // The loop that takes such shards out of the path; the shard behind one taken out is not looked at.
  function Compress(sd: Matrix, path: seq<nat>, idx: nat): (r: seq<nat>)
    requires idx >= 1 && Shards(sd, path)
    ensures Shards(sd, r)
    decreases |path| - idx
  {
    if idx >= |path| - 1 then path
    else if Skips(sd, path, idx) then Compress(sd, Without(path, idx), idx + 1)
    else Compress(sd, path, idx + 1)
  }

  // The hop from a to b is a link of the path, or it skips a shard that holds both ends.
  predicate HopAlong(sd: Matrix, path: seq<nat>, t: nat, a: nat, b: nat)
    requires Shards(sd, path)
  {
    && t < |path| && path[t] == a
    && ((t + 1 < |path| && path[t + 1] == b)
        || (Skips(sd, path, t + 1) && path[t + 2] == b))
  }

  // Both endpoints stay, and so does all that lies before idx.
  lemma {:induction false} CompressKeepsEnds(sd: Matrix, path: seq<nat>, idx: nat)
    requires idx >= 1 && path != [] && Shards(sd, path)
    ensures var r := Compress(sd, path, idx); 1 <= |r| <= |path| && r[0] == path[0] && r[|r| - 1] == path[|path| - 1]
    ensures idx <= |path| ==>
              |Compress(sd, path, idx)| >= idx && forall k | 0 <= k < idx :: Compress(sd, path, idx)[k] == path[k]
    decreases |path| - idx
  {
    hide Skips;
    if idx < |path| - 1 {
      if Skips(sd, path, idx) {
        CompressKeepsEnds(sd, Without(path, idx), idx + 1);
      } else {
        CompressKeepsEnds(sd, path, idx + 1);
      }
    }
  }

  lemma {:induction false} HopBeforeRemoval(sd: Matrix, path: seq<nat>, idx: nat, t: nat, a: nat, b: nat)
    requires 1 <= idx < |path| && Shards(sd, path) && idx <= t && HopAlong(sd, Without(path, idx), t, a, b)
    ensures HopAlong(sd, path, t + 1, a, b)
  {
  }

  // Every hop from the idx-th shard on is a hop along the path the loop started from.
  lemma {:induction false} CompressHop(sd: Matrix, path: seq<nat>, idx: nat, k: nat) returns (t: nat)
    requires idx >= 1 && Shards(sd, path)
    requires idx - 1 <= k && k + 1 < |Compress(sd, path, idx)|
    ensures var r := Compress(sd, path, idx); t >= idx - 1 && HopAlong(sd, path, t, r[k], r[k + 1])
    decreases |path| - idx
  {
    hide Skips;
    if idx >= |path| - 1 {
      t := k;
    } else if Skips(sd, path, idx) {
      var shorter := Without(path, idx);
      CompressKeepsEnds(sd, shorter, idx + 1);
      if k == idx - 1 {
        t := idx - 1;
      } else {
        hide HopAlong;
        var u := CompressHop(sd, shorter, idx + 1, k);
        var r := Compress(sd, shorter, idx + 1);
        HopBeforeRemoval(sd, path, idx, u, r[k], r[k + 1]);
        t := u + 1;
      }
    } else {
      CompressKeepsEnds(sd, path, idx + 1);
      if k == idx - 1 {
        t := idx - 1;
      } else {
        hide HopAlong;
        t := CompressHop(sd, path, idx + 1, k);
      }
    }
  }

  // Of two neighbours on the path one survives.
  lemma {:induction false} CompressCovers(sd: Matrix, path: seq<nat>, idx: nat, t: nat)
    requires idx >= 1 && Shards(sd, path) && t + 1 < |path|
    ensures var r := Compress(sd, path, idx); path[t] in r || path[t + 1] in r
    decreases |path| - idx
  {
    hide Skips;
    if idx < |path| - 1 {
      if Skips(sd, path, idx) {
        var shorter := Without(path, idx);
        if t == idx - 1 || t == idx {
          CompressKeepsEnds(sd, shorter, idx + 1);
          var r := Compress(sd, shorter, idx + 1);
          assert r[idx - 1] == path[idx - 1] && r[idx] == path[idx + 1];
        } else {
          CompressCovers(sd, shorter, idx + 1, if t < idx then t else t - 1);
        }
      } else {
        CompressCovers(sd, path, idx + 1, t);
      }
    }
  }

  // Compressing keeps distinct shards distinct.
  lemma {:induction false} CompressKeepsDistinct(sd: Matrix, path: seq<nat>, idx: nat)
    requires idx >= 1 && Shards(sd, path) && Distinct(path)
    ensures Distinct(Compress(sd, path, idx))
    decreases |path| - idx
  {
    hide Skips;
    if idx < |path| - 1 {
      if Skips(sd, path, idx) {
        CompressKeepsDistinct(sd, Without(path, idx), idx + 1);
      } else {
        CompressKeepsDistinct(sd, path, idx + 1);
      }
    }
  }

  lemma {:induction false} CompressAdds(sd: Matrix, path: seq<nat>, idx: nat, x: nat)
    requires idx >= 1 && Shards(sd, path) && x in Compress(sd, path, idx)
    ensures x in path
    decreases |path| - idx
  {
    hide Skips;
    if idx < |path| - 1 {
      if Skips(sd, path, idx) {
        CompressAdds(sd, Without(path, idx), idx + 1, x);
      } else {
        CompressAdds(sd, path, idx + 1, x);
      }
    }
  }

  // What becomes of the shard taken out and its neighbours.
  lemma {:induction false} TakenOut(sd: Matrix, path: seq<nat>, idx: nat)
    requires 1 <= idx < |path| - 1 && Shards(sd, path) && Distinct(path)
    ensures var r := Compress(sd, Without(path, idx), idx + 1);
            path[idx - 1] in r && path[idx] !in r && path[idx + 1] in r
  {
    hide Skips;
    var shorter := Without(path, idx);
    CompressKeepsEnds(sd, shorter, idx + 1);
    var r := Compress(sd, shorter, idx + 1);
    assert r[idx - 1] == path[idx - 1] && r[idx] == path[idx + 1];
    hide Compress;
    if path[idx] in r {
      CompressAdds(sd, shorter, idx + 1, path[idx]);
    }
  }

  lemma {:induction false} LeftIn(sd: Matrix, path: seq<nat>, idx: nat)
    requires 1 <= idx < |path| && Shards(sd, path)
    ensures path[idx] in Compress(sd, path, idx + 1)
  {
    hide Skips;
    CompressKeepsEnds(sd, path, idx + 1);
    assert Compress(sd, path, idx + 1)[idx] == path[idx];
  }

  // An inner shard of the path is taken out exactly if it holds both its neighbours and the one
  // before it stays.
  lemma {:induction false} CompressIff(sd: Matrix, path: seq<nat>, idx: nat, t: nat)
    requires 1 <= idx <= t < |path| - 1 && Shards(sd, path) && Distinct(path)
    ensures var r := Compress(sd, path, idx);
            path[t] in r <==> !(path[t - 1] in r && Skips(sd, path, t))
    decreases |path| - idx
  {
    hide Skips;
    if Skips(sd, path, idx) {
      TakenOut(sd, path, idx);
      if t >= idx + 2 {
        SkipsShifted(sd, path, idx, t);
        CompressIff(sd, Without(path, idx), idx + 1, t - 1);
      }
    } else if t > idx {
      CompressIff(sd, path, idx + 1, t);
    } else {
      LeftIn(sd, path, idx);
    }
  }

  lemma {:induction false} SkipsShifted(sd: Matrix, path: seq<nat>, idx: nat, t: nat)
    requires Shards(sd, path) && Distinct(path) && idx + 2 <= t < |path|
    ensures Shards(sd, Without(path, idx)) && Distinct(Without(path, idx)) && (Skips(sd, Without(path, idx), t - 1) <==> Skips(sd, path, t))
  {
  }

  // What findRoute returns: the first shortest road, compressed.
  ghost predicate IsRouteAlong(sd: Matrix, raw: seq<nat>, i: nat, j: nat, path: seq<nat>) {
    && FirstShortest(sd, raw, i, j) && path == Compress(sd, raw, 1)
    && Distinct(raw)
  }

  ghost predicate IsRoute(sd: Matrix, i: nat, j: nat, path: seq<nat>) {
    if Reachable(sd, i, j) then exists raw :: IsRouteAlong(sd, raw, i, j, path) else path == []
  }

  // There is no choice in it.
  lemma {:induction false} RouteIsDetermined(sd: Matrix, i: nat, j: nat, p: seq<nat>, q: seq<nat>)
    requires IsRoute(sd, i, j, p) && IsRoute(sd, i, j, q)
    ensures p == q
  {
    hide FirstShortest, Reachable, Compress;
    if Reachable(sd, i, j) {
      var a :| IsRouteAlong(sd, a, i, j, p);
      var b :| IsRouteAlong(sd, b, i, j, q);
      FirstShortestIsUnique(sd, a, b, i, j);
    }
  }

  // Some shard holds both chains, so its packing takes the transactions from a to b.
  predicate Packable(sd: Matrix, a: nat, b: nat)
    requires a < |sd| && b < |sd|
  {
    a != b && exists k | 0 <= k < |sd| :: sd[k][a] && sd[k][b]
  }

  // Every shard holds its own chain.
  predicate HoldsOwn(sd: Matrix) { forall k | 0 <= k < |sd| :: sd[k][k] }

  // A route leads from end to end, is no longer than any road, and each hop can be packed somewhere.
  lemma {:induction false} RouteIsPackable(sd: Matrix, i: nat, j: nat, path: seq<nat>)
    requires HoldsOwn(sd) && Reachable(sd, i, j) && IsRoute(sd, i, j, path)
    ensures path != [] && path[0] == i && path[|path| - 1] == j
    ensures forall q | Road(sd, q, i, j) :: |path| <= |q|
    ensures Shards(sd, path)
    ensures forall k | 0 <= k < |path| - 1 :: Packable(sd, path[k], path[k + 1])
  {
    hide Reachable;
    var raw :| IsRouteAlong(sd, raw, i, j, path);
    CompressKeepsEnds(sd, raw, 1);
    CompressKeepsDistinct(sd, raw, 1);
    forall k | 0 <= k < |path| - 1 ensures Packable(sd, path[k], path[k + 1]) {
      var t := CompressHop(sd, raw, 1, k);
      HopIsPackable(sd, raw, t, path[k], path[k + 1]);
    }
  }

  // The shard that holds both ends of a hop: one of the ends, or the shard skipped.
  lemma {:induction false} HopHolder(sd: Matrix, raw: seq<nat>, t: nat, a: nat, b: nat) returns (k: nat)
    requires HoldsOwn(sd) && Path(sd, raw) && HopAlong(sd, raw, t, a, b)
    ensures t + 1 < |raw| && k < |sd| && sd[k][a] && sd[k][b] && sd[k][raw[t]] && sd[k][raw[t + 1]]
  {
    if t + 1 < |raw| && raw[t + 1] == b {
      assert Linked(sd, a, b);
      k := if sd[a][b] then a else b;
    } else {
      k := raw[t + 1];
    }
  }

  lemma {:induction false} HopIsPackable(sd: Matrix, raw: seq<nat>, t: nat, a: nat, b: nat)
    requires HoldsOwn(sd) && Path(sd, raw) && HopAlong(sd, raw, t, a, b) && a != b
    ensures a < |sd| && b < |sd| && Packable(sd, a, b)
  {
    var k := HopHolder(sd, raw, t, a, b);
  }

  // The table entry: none for equal, linked or jointly held shards.
  ghost predicate IsEntry(sd: Matrix, i: nat, j: nat, r: Option<seq<nat>>)
    requires i < |sd| && j < |sd|
  {
    if i == j || Linked(sd, i, j) || Joint(sd, i, j) then r == None else r.Some? && IsRoute(sd, i, j, r.value)
  }

  class PyramidConfig {
    const shardDistribution: Matrix
    var shardRoute: seq<seq<Option<seq<nat>>>>

    ghost predicate Valid()
      reads this
    {
      && |shardRoute| == |shardDistribution|
      && (forall i | 0 <= i < |shardRoute| :: |shardRoute[i]| == |shardDistribution|)
      && forall i, j | 0 <= i < |shardRoute| && 0 <= j < |shardRoute| :: IsEntry(shardDistribution, i, j, shardRoute[i][j])
    }

    constructor (sd: Matrix)
      ensures shardDistribution == sd && Valid()
    {
      shardDistribution := sd;
      shardRoute := [];
      new;
      Route();
    }

    method FindRoute(i: nat, j: nat) returns (path: seq<nat>)
      requires i < |shardDistribution| && j < |shardDistribution|
      ensures IsRoute(shardDistribution, i, j, path)
    {
      hide Listed, Hung, Expanded, FirstShortest, Reachable, Compress, Linked, Shards, Distinct;
      var sd := shardDistribution;
      var n := |sd|;
      var vis := new bool[n](_ => false);
      var q := [i];
      var prev := new int[n](_ => -1);
      vis[i] := true;
      ghost var seen: seq<nat>, par: seq<int>, h: nat := [i], [-1], 0;
      StartSearch(sd, i);
      while |q| != 0
        invariant Searched(sd, i, seen, par, h, 0) && Marked(seen, par, vis[..], prev[..], n)
        invariant h <= |seen| && q == seen[h..] && j !in seen[..h]
        decreases |Unvisited(vis[..])| + |q|
      {
        var curr := q[0];
        q := q[1..];
        if curr == j {
          var raw := Rebuild(sd, i, j, seen, par, h, prev);
          ArrivalIsFirstShortest(sd, i, seen, par, h);
          RoadIsThere(sd, raw, i, j);
          path := CompressInPlace(raw);
          assert IsRouteAlong(sd, raw, i, j, path);
          return path;
        }
        ghost var size := |Unvisited(vis[..])| + |q|;
        for neighbor := 0 to n
          invariant Searched(sd, i, seen, par, h, neighbor) && Marked(seen, par, vis[..], prev[..], n)
          invariant h < |seen| && seen[h] == curr && q == seen[h + 1..] && j !in seen[..h]
          invariant |Unvisited(vis[..])| + |q| == size
        {
          InRange(sd, i, seen, par, h, neighbor);
          MarkedIffSeen(seen, par, vis[..], prev[..], n, neighbor);
          if (sd[curr][neighbor] || sd[neighbor][curr]) && !vis[neighbor] {
            assert Linked(sd, curr, neighbor) by { LinkedIff(sd, curr, neighbor); }
            FindNeighbour(sd, i, seen, par, h, neighbor);
            Mark(seen, par, vis[..], prev[..], n, h, neighbor);
            q := q + [neighbor];
            vis[neighbor] := true;
            prev[neighbor] := curr;
            seen, par := seen + [neighbor], par + [h];
          } else {
            LinkedIff(sd, curr, neighbor);
            SkipNeighbour(sd, i, seen, par, h, neighbor);
          }
        }
        NextShard(sd, i, seen, par, h);
        assert seen[..h + 1] == seen[..h] + [curr];
        h := h + 1;
      }
      assert seen[..h] == seen;
      SearchIsComplete(sd, i, seen, par, j);
      return [];
    }

    // The loop over the predecessors.
    method Rebuild(sd: Matrix, i: nat, j: nat, ghost seen: seq<nat>, ghost par: seq<int>, ghost h: nat, prev: array<int>) returns (path: seq<nat>)
      requires Parents(seen, par) && Listed(sd, i, seen) && h < |seen| && seen[h] == j && prev.Length == |sd|
      requires Chained(seen, par, prev[..])
      ensures path == PathTo(seen, par, h)
      ensures Distinct(path)
    {
      hide Listed, PathTo, Distinct, Chained;
      path := [];
      var at: int := j;
      ghost var k: nat := h;
      while at != -1
        invariant at != -1 ==> k < |seen| && at == seen[k] && PathTo(seen, par, h) == PathTo(seen, par, k) + path
        invariant at == -1 ==> PathTo(seen, par, h) == path
        invariant at >= -1
        decreases if at == -1 then 0 else k + 1
      {
        PathBack(seen, par, h, k, path);
        ChainAt(seen, par, prev[..], k);
        path := [at] + path;
        at := prev[at];
        if k > 0 {
          k := par[k];
        }
      }
      PathIsDistinct(sd, i, seen, par, h);
    }

    method CompressInPlace(raw: seq<nat>) returns (path: seq<nat>)
      requires Shards(shardDistribution, raw)
      ensures path == Compress(shardDistribution, raw, 1)
    {
      path := raw;
      var idx := 1;
      while idx < |path| - 1
        invariant idx >= 1 && Shards(shardDistribution, path)
        invariant Compress(shardDistribution, path, idx) == Compress(shardDistribution, raw, 1)
        decreases |path| - idx
      {
        var sid, pre, nxt := path[idx], path[idx - 1], path[idx + 1];
        if shardDistribution[sid][pre] && shardDistribution[sid][nxt] {
          assert path[..idx] + path[idx + 1..] == Without(path, idx);
          path := path[..idx] + path[idx + 1..];
        }
        idx := idx + 1;
      }
    }

    // Fills the table.
    method Route()
      modifies this
      ensures Valid()
    {
      hide IsRoute, Linked;
      var sd := shardDistribution;
      var n := |sd|;
      shardRoute := seq(n, _ => seq(n, _ => None));
      for i := 0 to n
        invariant |shardRoute| == n && forall a | 0 <= a < n :: |shardRoute[a]| == n
        invariant forall a, b | 0 <= a < n && 0 <= b < n :: if a < i then IsEntry(sd, a, b, shardRoute[a][b]) else shardRoute[a][b] == None
      {
        for j := 0 to n
          invariant |shardRoute| == n && forall a | 0 <= a < n :: |shardRoute[a]| == n
          invariant forall a, b | 0 <= a < n && 0 <= b < n ::
            if a < i || (a == i && b < j) then IsEntry(sd, a, b, shardRoute[a][b]) else shardRoute[a][b] == None
        {
          var linked := false;
          if i != j {
            LinkedIff(sd, i, j);
            if !(sd[i][j] || sd[j][i]) {
              var k := 0;
              while k < n && !linked
                invariant 0 <= k <= n
                invariant linked ==> Joint(sd, i, j)
                invariant !linked ==> forall c | 0 <= c < k :: !(c != i && c != j && sd[c][i] && sd[c][j])
                decreases n - k, !linked
              {
                if k != i && k != j && sd[k][i] && sd[k][j] {
                  linked := true;
                } else {
                  k := k + 1;
                }
              }
            } else {
              linked := true;
            }
            if linked == false {
              var path := FindRoute(i, j);
              shardRoute := shardRoute[i := shardRoute[i][j := Some(path)]];
            }
          }
        }
      }
    }

    // Does shard i hold a chain on the route from s to r?
    method InRoute(i: nat, s: nat, r: nat) returns (found: bool)
      requires Valid() && i < |shardDistribution| && s < |shardDistribution| && r < |shardDistribution|
      ensures found <==> HoldsOnRoute(shardDistribution, i, shardRoute[s][r])
    {
      var rt := shardRoute[s][r];
      if rt == None {
        return false;
      }
      EntryInRange(shardDistribution, s, r, rt);
      for k := 0 to |rt.value|
        invariant forall m | 0 <= m < k :: !shardDistribution[i][rt.value[m]]
      {
        if shardDistribution[i][rt.value[k]] {
          return true;
        }
      }
      return false;
    }

    // The relay transactions of tx, one for each hop; adds[i] is the default address of shard i.
    method SplitRelay(tx: Transaction, adds: seq<Address>) returns (rtxs: seq<Transaction>)
      requires Valid() && |shardDistribution| > 0 && |adds| == |shardDistribution|
      ensures rtxs == Relays(tx, adds, shardRoute[SInShard(tx, |adds|)][RInShard(tx, |adds|)])
    {
      hide IsEntry, GenRtx;
      var s, r := SInShard(tx, |adds|), RInShard(tx, |adds|);
      var route := shardRoute[s][r];
      EntryInRange(shardDistribution, s, r, route);
      var path := if route == None then [] else route.value;
      rtxs := [];
      var i := 1;
      while i < |path|
        invariant i >= 1 && |rtxs| == i - 1 && if |path| == 0 then i == 1 else i <= |path|
        invariant forall k | 0 <= k < |path| :: path[k] < |adds|
        invariant forall k | 0 <= k < i - 1 && k + 1 < |path| :: rtxs[k] == GenRtx(tx, adds, path[k], path[k + 1])
      {
        rtxs := rtxs + [GenRtx(tx, adds, path[i - 1], path[i])];
        i := i + 1;
      }
    }
  }

  predicate HoldsOnRoute(sd: Matrix, i: nat, route: Option<seq<nat>>)
    requires i < |sd|
  {
    route.Some? && exists p <- route.value :: p < |sd| && sd[i][p]
  }

  function GenRtx(tx: Transaction, adds: seq<Address>, pre: nat, sid: nat): Transaction
    requires pre < |adds| && sid < |adds|
  {
    Transaction(adds[pre], adds[sid], tx.value, tx.nonce, RelayTx)
  }

  function Relays(tx: Transaction, adds: seq<Address>, route: Option<seq<nat>>): seq<Transaction>
    requires route.Some? ==> forall k | 0 <= k < |route.value| :: route.value[k] < |adds|
  {
    if route == None || |route.value| == 0 then []
    else seq(|route.value| - 1, k requires 0 <= k < |route.value| - 1 => GenRtx(tx, adds, route.value[k], route.value[k + 1]))
  }

  lemma {:induction false} EntryInRange(sd: Matrix, i: nat, j: nat, r: Option<seq<nat>>)
    requires i < |sd| && j < |sd| && IsEntry(sd, i, j, r)
    ensures r.Some? ==> Shards(sd, r.value)
  {
    hide Linked, Joint, Reachable, LexLess;
  }

  // Steps of the search loop.
  lemma {:induction false} StartSearch(sd: Matrix, i: nat)
    requires i < |sd|
    ensures Searched(sd, i, [i], [-1], 0, 0)
  {
    hide Linked;
  }

  lemma {:induction false} LinkedIff(sd: Matrix, a: nat, b: nat)
    requires a < |sd| && b < |sd|
    ensures Linked(sd, a, b) <==> sd[a][b] || sd[b][a]
  {
  }

  lemma {:induction false} RoadIsThere(sd: Matrix, raw: seq<nat>, i: nat, j: nat)
    requires FirstShortest(sd, raw, i, j)
    ensures Reachable(sd, i, j) && Shards(sd, raw)
  {
    hide Linked, LexLess;
    assert Road(sd, raw, i, j);
  }

  lemma {:induction false} InRange(sd: Matrix, i: nat, seen: seq<nat>, par: seq<int>, h: nat, nb: nat)
    requires Searched(sd, i, seen, par, h, nb) && h < |seen|
    ensures seen[h] < |sd|
  {
    hide Linked, Hung, Expanded;
  }

  lemma {:induction false} PathBack(seen: seq<nat>, par: seq<int>, h: nat, k: nat, path: seq<nat>)
    requires Parents(seen, par) && h < |seen| && k < |seen| && PathTo(seen, par, h) == PathTo(seen, par, k) + path
    ensures PathTo(seen, par, h) == (if k == 0 then [] else PathTo(seen, par, par[k])) + ([seen[k]] + path)
  {
  }

  lemma {:induction false} PathIsDistinct(sd: Matrix, i: nat, seen: seq<nat>, par: seq<int>, k: nat)
    requires Listed(sd, i, seen) && Parents(seen, par) && k < |seen|
    ensures Distinct(PathTo(seen, par, k))
  {
    var path := PathTo(seen, par, k);
    forall a, b | 0 <= a < b < |path| ensures path[a] != path[b] {
      PathIsSimple(sd, i, seen, par, k, a, b);
    }
  }

  // The marks and predecessors in the arrays are those of the record.
  predicate Marked(seen: seq<nat>, par: seq<int>, vis: seq<bool>, prev: seq<int>, n: nat) {
    && |vis| == |prev| == n && Parents(seen, par)
    && (forall v | 0 <= v < n :: vis[v] <==> v in seen)
    && Chained(seen, par, prev)
  }

  predicate Chained(seen: seq<nat>, par: seq<int>, prev: seq<int>)
    requires Parents(seen, par)
  {
    forall k | 0 <= k < |seen| :: seen[k] < |prev| && prev[seen[k]] == if k == 0 then -1 else seen[par[k]]
  }

  lemma {:induction false} ChainAt(seen: seq<nat>, par: seq<int>, prev: seq<int>, k: nat)
    requires Parents(seen, par) && Chained(seen, par, prev) && k < |seen|
    ensures seen[k] < |prev| && prev[seen[k]] == if k == 0 then -1 else seen[par[k]]
  {
  }

  lemma {:induction false} MarkedIffSeen(seen: seq<nat>, par: seq<int>, vis: seq<bool>, prev: seq<int>, n: nat, v: nat)
    requires Marked(seen, par, vis, prev, n) && v < n
    ensures vis[v] <==> v in seen
  {
  }

  lemma {:induction false} Mark(seen: seq<nat>, par: seq<int>, vis: seq<bool>, prev: seq<int>, n: nat, h: nat, v: nat)
    requires Marked(seen, par, vis, prev, n) && h < |seen| && v < n && v !in seen
    ensures Marked(seen + [v], par + [h], vis[v := true], prev[v := seen[h]], n)
    ensures |Unvisited(vis[v := true])| + 1 == |Unvisited(vis)|
  {
    var s, p, e := seen + [v], par + [h], prev[v := seen[h]];
    forall k | 0 <= k < |s| ensures s[k] < n && e[s[k]] == if k == 0 then -1 else s[p[k]] {
      if k < |seen| {
        assert s[k] == seen[k] && seen[k] in seen;
      }
    }
    assert Unvisited(vis) == Unvisited(vis[v := true]) + {v};
  }
}
