/** The ghost record of a breadth-first search: the shards in the order in which they were seen, and
    for each the position of the shard that found it. */
module BreadthFirst {
  import opened Graph

  predicate Parents(seen: seq<nat>, par: seq<int>) {
    |seen| == |par| >= 1 && par[0] == -1 && forall k | 1 <= k < |par| :: 0 <= par[k] < k
  }

  // The road along which the k-th shard was found.
  function PathTo(seen: seq<nat>, par: seq<int>, k: nat): (p: seq<nat>)
    requires Parents(seen, par) && k < |seen|
    ensures |p| == Depth(seen, par, k) + 1 && p[0] == seen[0] && p[|p| - 1] == seen[k]
  {
    if k == 0 then [seen[0]] else PathTo(seen, par, par[k]) + [seen[k]]
  }

  function Depth(seen: seq<nat>, par: seq<int>, k: nat): nat
    requires Parents(seen, par) && k < |seen|
  {
    if k == 0 then 0 else Depth(seen, par, par[k]) + 1
  }

  // The first h shards seen have been expanded; of the neighbours of the next one, those below nb
  // have been looked at.
  predicate Searched(sd: Matrix, i: nat, seen: seq<nat>, par: seq<int>, h: nat, nb: nat) {
    Parents(seen, par) && Listed(sd, i, seen) && Hung(sd, seen, par, h, nb) && Expanded(sd, seen, h, nb)
  }

  predicate Listed(sd: Matrix, i: nat, seen: seq<nat>) {
    && seen != [] && seen[0] == i
    && (forall k | 0 <= k < |seen| :: seen[k] < |sd|)
    && forall k, m | 0 <= k < m < |seen| :: seen[k] != seen[m]
  }

  // Each shard hangs on the first shard seen that is linked to it; lists are in order of discovery.
  predicate Hung(sd: Matrix, seen: seq<nat>, par: seq<int>, h: nat, nb: nat)
    requires Parents(seen, par) && forall k | 0 <= k < |seen| :: seen[k] < |sd|
  {
    && (forall k | 1 <= k < |seen| :: HungAt(sd, seen, par, k) && par[k] <= h && (par[k] == h ==> seen[k] < nb))
    && (forall k, m | 1 <= k < m < |seen| :: Ordered(seen, par, k, m))
  }

  predicate HungAt(sd: Matrix, seen: seq<nat>, par: seq<int>, k: nat)
    requires Parents(seen, par) && 1 <= k < |seen| && forall k | 0 <= k < |seen| :: seen[k] < |sd|
  {
    Linked(sd, seen[par[k]], seen[k]) && forall m | 0 <= m < par[k] :: !Linked(sd, seen[m], seen[k])
  }

  predicate Ordered(seen: seq<nat>, par: seq<int>, k: nat, m: nat)
    requires |seen| == |par| && k < |seen| && m < |seen|
  {
    par[k] < par[m] || (par[k] == par[m] && seen[k] < seen[m])
  }

  predicate Expanded(sd: Matrix, seen: seq<nat>, h: nat, nb: nat)
    requires forall k | 0 <= k < |seen| :: seen[k] < |sd|
  {
    && h <= |seen| && nb <= |sd|
    && (forall m, w | 0 <= m < h && 0 <= w < |sd| && Linked(sd, seen[m], w) :: w in seen)
    && (h < |seen| ==> forall w | 0 <= w < nb && Linked(sd, seen[h], w) :: w in seen)
  }

  lemma {:induction false} HungStays(sd: Matrix, seen: seq<nat>, par: seq<int>, k: nat, x: nat, f: nat)
    requires Parents(seen, par) && 1 <= k < |seen| && x < |sd| && f < |seen| && forall k | 0 <= k < |seen| :: seen[k] < |sd|
    requires HungAt(sd, seen, par, k)
    ensures Parents(seen + [x], par + [f]) && HungAt(sd, seen + [x], par + [f], k)
  {
    hide Linked;
    var s, p := seen + [x], par + [f];
    forall m | 0 <= m < p[k] ensures !Linked(sd, s[m], s[k]) {
      assert s[m] == seen[m];
    }
  }

  lemma {:induction false} HangNeighbour(sd: Matrix, seen: seq<nat>, par: seq<int>, h: nat, nb: nat)
    requires Parents(seen, par) && (forall k | 0 <= k < |seen| :: seen[k] < |sd|)
    requires Hung(sd, seen, par, h, nb) && h < |seen| && nb < |sd|
    requires Linked(sd, seen[h], nb) && forall m | 0 <= m < h :: !Linked(sd, seen[m], nb)
    ensures Parents(seen + [nb], par + [h]) && Hung(sd, seen + [nb], par + [h], h, nb + 1)
  {
    hide Linked, HungAt;
    var s, p := seen + [nb], par + [h];
    var n := |seen|;
    LastHangs(sd, seen, par, h, nb);
    forall k | 1 <= k < |s| ensures HungAt(sd, s, p, k) && p[k] <= h && (p[k] == h ==> s[k] < nb + 1) {
      if k < n {
        HungStays(sd, seen, par, k, nb, h);
      }
    }
    forall k, m | 1 <= k < m < |s| ensures Ordered(s, p, k, m) {
      assert HungAt(sd, seen, par, k);
      if m < n {
        assert Ordered(seen, par, k, m);
      }
    }
  }

  lemma {:induction false} LastHangs(sd: Matrix, seen: seq<nat>, par: seq<int>, h: nat, nb: nat)
    requires Parents(seen, par) && (forall k | 0 <= k < |seen| :: seen[k] < |sd|) && h < |seen| && nb < |sd|
    requires Linked(sd, seen[h], nb) && forall m | 0 <= m < h :: !Linked(sd, seen[m], nb)
    ensures Parents(seen + [nb], par + [h]) && HungAt(sd, seen + [nb], par + [h], |seen|)
  {
    hide Linked;
    var s := seen + [nb];
    forall m | 0 <= m < h ensures !Linked(sd, s[m], nb) {
      assert s[m] == seen[m];
    }
  }

  lemma {:induction false} FoundFirst(sd: Matrix, seen: seq<nat>, par: seq<int>, b: nat, c: nat)
    requires Parents(seen, par) && 1 <= b < |seen| && c < |seen| && forall k | 0 <= k < |seen| :: seen[k] < |sd|
    requires HungAt(sd, seen, par, b) && Linked(sd, seen[c], seen[b])
    ensures par[b] <= c
  {
    hide Linked;
  }

  // A new neighbour is found.
  lemma {:induction false} FindNeighbour(sd: Matrix, i: nat, seen: seq<nat>, par: seq<int>, h: nat, nb: nat)
    requires Searched(sd, i, seen, par, h, nb) && h < |seen| && nb < |sd|
    requires Linked(sd, seen[h], nb) && nb !in seen
    ensures Searched(sd, i, seen + [nb], par + [h], h, nb + 1)
  {
    hide Linked, Hung;
    HangNeighbour(sd, seen, par, h, nb);
    var s := seen + [nb];
    assert s[|seen|] == nb;
    forall m, w | 0 <= m < h && 0 <= w < |sd| && Linked(sd, s[m], w) ensures w in s {
      assert s[m] == seen[m];
    }
    forall w | 0 <= w < nb + 1 && Linked(sd, s[h], w) ensures w in s {
      assert s[h] == seen[h];
    }
  }

  lemma {:induction false} SkipNeighbour(sd: Matrix, i: nat, seen: seq<nat>, par: seq<int>, h: nat, nb: nat)
    requires Searched(sd, i, seen, par, h, nb) && h < |seen| && nb < |sd|
    requires Linked(sd, seen[h], nb) ==> nb in seen
    ensures Searched(sd, i, seen, par, h, nb + 1)
  {
    hide Linked, HungAt, Ordered, Listed;
  }

  lemma {:induction false} NextShard(sd: Matrix, i: nat, seen: seq<nat>, par: seq<int>, h: nat)
    requires Searched(sd, i, seen, par, h, |sd|) && h < |seen|
    ensures Searched(sd, i, seen, par, h + 1, 0)
  {
    hide Linked;
  }

  // Shards seen later lie deeper.
  lemma {:induction false} DepthMonotone(sd: Matrix, i: nat, seen: seq<nat>, par: seq<int>, h: nat, nb: nat, a: nat, b: nat)
    requires Searched(sd, i, seen, par, h, nb) && a <= b < |seen|
    ensures Depth(seen, par, a) <= Depth(seen, par, b)
    decreases b
  {
    hide Linked;
    if 0 < a < b {
      assert Ordered(seen, par, a, b);
      DepthMonotone(sd, i, seen, par, h, nb, par[a], par[b]);
    }
  }

  lemma {:induction false} PathIsRoad(sd: Matrix, i: nat, seen: seq<nat>, par: seq<int>, h: nat, nb: nat, k: nat)
    requires Searched(sd, i, seen, par, h, nb) && k < |seen|
    ensures Road(sd, PathTo(seen, par, k), i, seen[k])
    decreases k
  {
    hide Linked;
    if k > 0 {
      assert HungAt(sd, seen, par, k);
      PathIsRoad(sd, i, seen, par, h, nb, par[k]);
      var p := PathTo(seen, par, par[k]);
      forall m | 0 <= m < |p| ensures Linked(sd, (p + [seen[k]])[m], (p + [seen[k]])[m + 1]) {
        if m < |p| - 1 {
          assert Linked(sd, p[m], p[m + 1]);
        }
      }
    }
  }

  // A road of q shards whose length does not exceed the depth of the next shard ends at a shard
  // seen, at most as deep as the road is long.
  lemma {:induction false} RoadEnd(sd: Matrix, i: nat, seen: seq<nat>, par: seq<int>, h: nat, q: seq<nat>) returns (m: nat)
    requires Searched(sd, i, seen, par, h, 0)
    requires Path(sd, q) && q[0] == i
    requires h < |seen| ==> |q| - 1 <= Depth(seen, par, h)
    ensures m < |seen| && seen[m] == q[|q| - 1] && Depth(seen, par, m) <= |q| - 1
    decreases |q|
  {
    hide Linked;
    if |q| == 1 {
      m := 0;
    } else {
      var r := q[..|q| - 1];
      RoadPrefix(sd, q);
      var c := RoadEnd(sd, i, seen, par, h, r);
      var w := q[|q| - 1];
      if c >= h {
        DepthMonotone(sd, i, seen, par, h, 0, h, c);
        assert false;
      }
      assert w in seen;
      m :| 0 <= m < |seen| && seen[m] == w;
      if m > 0 {
        assert HungAt(sd, seen, par, m);
        FoundFirst(sd, seen, par, m, c);
        DepthMonotone(sd, i, seen, par, h, 0, par[m], c);
      }
    }
  }

  lemma {:induction false} RoadPrefix(sd: Matrix, q: seq<nat>)
    requires Path(sd, q) && |q| > 1
    ensures Path(sd, q[..|q| - 1]) && Linked(sd, q[|q| - 2], q[|q| - 1]) && q[..|q| - 1][0] == q[0]
  {
    hide Linked;
  }

  // No road to a shard is shorter than the one found, and of roads of the same length those of
  // shards seen earlier come first.
  lemma {:induction false} PathIsFirst(sd: Matrix, i: nat, seen: seq<nat>, par: seq<int>, h: nat, a: nat, b: nat, q: seq<nat>)
    requires Searched(sd, i, seen, par, h, 0) && h < |seen| && a <= b < |seen|
    requires Road(sd, q, i, seen[b]) && |q| == Depth(seen, par, a) + 1 == Depth(seen, par, b) + 1 <= Depth(seen, par, h) + 1
    ensures var p := PathTo(seen, par, a); LexLess(p, q) || (p == q && a == b)
    decreases |q|
  {
    hide Linked, HungAt, Expanded;
    var p := PathTo(seen, par, a);
    if |q| == 1 {
      assert q == [seen[0]];
    } else {
      var r := q[..|q| - 1];
      RoadPrefix(sd, q);
      var c := RoadEnd(sd, i, seen, par, h, r);
      assert HungAt(sd, seen, par, b) && (a < b ==> Ordered(seen, par, a, b));
      FoundFirst(sd, seen, par, b, c);
      DepthMonotone(sd, i, seen, par, h, 0, par[b], c);
      PathIsFirst(sd, i, seen, par, h, par[a], c, r);
      assert p[..|p| - 1] == PathTo(seen, par, par[a]);
    }
  }

  // When the search comes to a shard, its path is the first shortest road.
  lemma {:induction false} ArrivalIsFirstShortest(sd: Matrix, i: nat, seen: seq<nat>, par: seq<int>, h: nat)
    requires Searched(sd, i, seen, par, h, 0) && h < |seen|
    ensures FirstShortest(sd, PathTo(seen, par, h), i, seen[h])
  {
    hide Linked, LexLess, Listed, Hung, Expanded;
    var p := PathTo(seen, par, h);
    PathIsRoad(sd, i, seen, par, h, 0, h);
    forall q | Road(sd, q, i, seen[h]) ensures |p| <= |q| && (|p| == |q| ==> p == q || LexLess(p, q)) {
      if |q| <= |p| {
        var m := RoadEnd(sd, i, seen, par, h, q);
        SeenOnce(sd, i, seen, par, h, m, h);
        if |q| == |p| {
          PathIsFirst(sd, i, seen, par, h, h, h, q);
        }
      }
    }
  }

  lemma {:induction false} SeenOnce(sd: Matrix, i: nat, seen: seq<nat>, par: seq<int>, h: nat, a: nat, b: nat)
    requires Searched(sd, i, seen, par, h, 0) && a < |seen| && b < |seen| && seen[a] == seen[b]
    ensures a == b
  {
    hide Linked;
  }

  // A search that runs dry has seen all that can be reached.
  lemma {:induction false} SearchIsComplete(sd: Matrix, i: nat, seen: seq<nat>, par: seq<int>, j: nat)
    requires Searched(sd, i, seen, par, |seen|, 0) && j !in seen
    ensures !Reachable(sd, i, j)
  {
    hide Linked, Searched;
    forall q | Path(sd, q) && q[0] == i ensures q[|q| - 1] != j {
      var m := RoadEnd(sd, i, seen, par, |seen|, q);
    }
  }

  lemma {:induction false} PathElement(seen: seq<nat>, par: seq<int>, k: nat, a: nat) returns (x: nat)
    requires Parents(seen, par) && k < |seen| && a < |PathTo(seen, par, k)|
    ensures x <= k && seen[x] == PathTo(seen, par, k)[a]
    ensures a < |PathTo(seen, par, k)| - 1 ==> x < k
    decreases k
  {
    if a == |PathTo(seen, par, k)| - 1 {
      x := k;
    } else {
      x := PathElement(seen, par, par[k], a);
    }
  }

  // The shards of a path found are distinct.
  lemma {:induction false} PathIsSimple(sd: Matrix, i: nat, seen: seq<nat>, par: seq<int>, k: nat, a: nat, b: nat)
    requires Listed(sd, i, seen) && Parents(seen, par) && k < |seen| && a < b < |PathTo(seen, par, k)|
    ensures PathTo(seen, par, k)[a] != PathTo(seen, par, k)[b]
    decreases k
  {
    if b == |PathTo(seen, par, k)| - 1 {
      var x := PathElement(seen, par, k, a);
    } else {
      PathIsSimple(sd, i, seen, par, par[k], a, b);
    }
  }
}
