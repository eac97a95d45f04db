/** Relay transactions along the routes (Tx/transaction.go:144-158, Tx/TxPool.go:48-63) and the default
    addresses of shards (config/pyramidConfig.go:184-200). */
module Relay {
  import opened Graph
  import opened Routes
  import opened Transactions

  function HexDigit(v: nat): (c: char)
    requires v < 16
    ensures IsHexDigit(c) && HexValue(c) == v
  {
    if v < 10 then '0' + v as char else 'a' + (v - 10) as char
  }

  // n in k hexadecimal digits with leading zeros.
  function Hex(n: nat, k: nat): (s: string)
    ensures |s| == k && forall c <- s :: IsHexDigit(c)
  {
    if k == 0 then "" else Hex(n / 16, k - 1) + [HexDigit(n % 16)]
  }

  function Pow16(k: nat): (p: nat)
    ensures p >= 1
  {
    if k == 0 then 1 else 16 * Pow16(k - 1)
  }

  lemma {:induction false} HexRoundTrip(n: nat, k: nat)
    requires n < Pow16(k)
    ensures ParseHex(Hex(n, k)) == n
    decreases k
  {
    if k > 0 {
      HexRoundTrip(n / 16, k - 1);
      var s := Hex(n, k);
      assert s[..k - 1] == Hex(n / 16, k - 1) && s[k - 1] == HexDigit(n % 16);
    }
  }

  // The last k of more digits are the number without its higher digits; here those are zeros.
  lemma {:induction false} HexTail(n: nat, k: nat, m: nat)
    requires k <= m
    ensures Hex(n, m)[m - k..] == Hex(n, k)
    decreases k
  {
    if k > 0 {
      HexTail(n / 16, k - 1, m - 1);
      var s := Hex(n, m);
      assert s[m - k..] == s[..m - 1][m - k..] + [s[m - 1]];
      assert s[..m - 1] == Hex(n / 16, m - 1);
    }
  }

  // The digest of a shard's name in hexadecimal, whose end gives way to the shard id.
  function GenerateShardAddress(digest: string, shardID: nat): (a: Address)
    requires |digest| == 64
  {
    AddressEnd(digest, shardID);
    "0x" + digest[..56] + Hex(shardID, 16)
  }

  lemma {:induction false} AddressEnd(digest: string, shardID: nat)
    requires |digest| == 64
    ensures var a := "0x" + digest[..56] + Hex(shardID, 16); |a| == 74 && a[66..] == Hex(shardID, 8)
  {
    var a := "0x" + digest[..56] + Hex(shardID, 16);
    HexTail(shardID, 8, 16);
    assert a[66..] == Hex(shardID, 16)[8..];
  }

  lemma {:induction false} EightDigits()
    ensures Pow16(8) == 0x1_0000_0000
  {
    assert Pow16(4) == 0x1_0000;
  }

  // The default address of a shard belongs to it.
  lemma {:induction false} DefaultAddressInShard(digest: string, shardID: nat, shardAmount: nat)
    requires |digest| == 64 && shardID < shardAmount <= 0x1_0000_0000
    ensures InShard(GenerateShardAddress(digest, shardID), shardAmount) == shardID
  {
    hide ParseHex, Hex, Pow16, GenerateShardAddress;
    AddressTail(digest, shardID);
    EightDigits();
    HexRoundTrip(shardID, 8);
    BelowModulus(shardID, shardAmount);
  }

  lemma {:induction false} AddressTail(digest: string, shardID: nat)
    requires |digest| == 64
    ensures var a := GenerateShardAddress(digest, shardID); a[|a| - 8..] == Hex(shardID, 8)
  {
    hide Hex;
    AddressEnd(digest, shardID);
  }

  lemma {:induction false} BelowModulus(k: nat, n: nat)
    requires k < n
    ensures k % n == k
  {
  }

  // adds[i] is an address of shard i.
  predicate DefaultAddresses(adds: seq<Address>) {
    |adds| > 0 && forall i | 0 <= i < |adds| :: InShard(adds[i], |adds|) == i
  }

  lemma {:induction false} RelayShards(tx: Transaction, adds: seq<Address>, a: nat, b: nat)
    requires DefaultAddresses(adds) && a < |adds| && b < |adds|
    ensures var rtx := GenRtx(tx, adds, a, b); SInShard(rtx, |adds|) == a && RInShard(rtx, |adds|) == b
  {
    hide InShard;
  }

  // The relays lead from the sender's shard to the recipient's, each starts where the one before
  // ends, carries the same value and nonce, and can be packed by some shard.
  predicate Relayed(sd: Matrix, tx: Transaction, rtxs: seq<Transaction>) {
    var n := |sd|;
    && n > 0 && rtxs != []
    && SInShard(rtxs[0], n) == SInShard(tx, n) && RInShard(rtxs[|rtxs| - 1], n) == RInShard(tx, n)
    && (forall k | 0 <= k < |rtxs| - 1 :: RInShard(rtxs[k], n) == SInShard(rtxs[k + 1], n))
    && forall rtx <- rtxs :: rtx.value == tx.value && rtx.nonce == tx.nonce && rtx.kind == RelayTx
                             && Packable(sd, SInShard(rtx, n), RInShard(rtx, n))
  }

  ghost predicate Connected(sd: Matrix) { forall v | 0 <= v < |sd| :: Reachable(sd, 0, v) }

  lemma {:induction false} RoadBack(sd: Matrix, i: nat, j: nat)
    requires Reachable(sd, i, j)
    ensures Reachable(sd, j, i)
  {
    var p :| Road(sd, p, i, j);
    var n := |p|;
    var q := seq(n, k requires 0 <= k < n => p[n - 1 - k]);
    forall k | 0 <= k < n - 1 ensures Linked(sd, q[k], q[k + 1]) {
      var m := n - 2 - k;
      assert Linked(sd, p[m], p[m + 1]);
    }
    assert Road(sd, q, j, i);
  }

  lemma {:induction false} RoadOn(sd: Matrix, i: nat, k: nat, j: nat)
    requires Reachable(sd, i, k) && Reachable(sd, k, j)
    ensures Reachable(sd, i, j)
  {
    var p :| Road(sd, p, i, k);
    var q :| Road(sd, q, k, j);
    var r := p + q[1..];
    forall m | 0 <= m < |r| - 1 ensures Linked(sd, r[m], r[m + 1]) {
      if m < |p| - 1 {
        assert Linked(sd, p[m], p[m + 1]);
      } else {
        assert Linked(sd, q[m - |p| + 1], q[m - |p| + 2]);
      }
    }
    assert Road(sd, r, i, j);
  }

  // On a connected graph every transaction that needs relays gets them.
  lemma {:induction false} RelaysReachRecipient(sd: Matrix, tx: Transaction, adds: seq<Address>, route: Option<seq<nat>>)
    requires HoldsOwn(sd) && Connected(sd) && |adds| == |sd| && DefaultAddresses(adds)
    requires IsEntry(sd, SInShard(tx, |sd|), RInShard(tx, |sd|), route)
    ensures route.Some? ==> Shards(sd, route.value) && Relayed(sd, tx, Relays(tx, adds, route))
    ensures route == None ==>
              var s, r := SInShard(tx, |sd|), RInShard(tx, |sd|); (s == r || Packable(sd, s, r))
  {
    hide HoldsOwn, Reachable, ParseHex, IsRoute, Packable;
    var s, r := SInShard(tx, |sd|), RInShard(tx, |sd|);
    if route.Some? {
      RoadBack(sd, 0, s);
      RoadOn(sd, s, 0, r);
      RouteIsPackable(sd, s, r, route.value);
      RelaysFollow(sd, tx, adds, route.value);
    } else {
      NoRelayNeeded(sd, s, r);
    }
  }

  lemma {:induction false} NoRelayNeeded(sd: Matrix, s: nat, r: nat)
    requires HoldsOwn(sd) && s < |sd| && r < |sd| && (s == r || Linked(sd, s, r) || Joint(sd, s, r))
    ensures s == r || Packable(sd, s, r)
  {
    if s != r && Linked(sd, s, r) {
      var k := if sd[s][r] then s else r;
      assert sd[k][s] && sd[k][r];
    }
  }

  lemma {:induction false} RelaysFollow(sd: Matrix, tx: Transaction, adds: seq<Address>, path: seq<nat>)
    requires |adds| == |sd| && DefaultAddresses(adds) && Shards(sd, path) && |path| > 0
    requires path[0] == SInShard(tx, |sd|) && path[|path| - 1] == RInShard(tx, |sd|) && path[0] != path[|path| - 1]
    requires forall k | 0 <= k < |path| - 1 :: Packable(sd, path[k], path[k + 1])
    ensures Relayed(sd, tx, Relays(tx, adds, Some(path)))
  {
    hide InShard, Packable, DefaultAddresses, SInShard, RInShard;
    assert |adds| > 0 by { Nonempty(adds); }
    var rtxs := Relays(tx, adds, Some(path));
    forall k | 0 <= k < |rtxs|
      ensures SInShard(rtxs[k], |sd|) == path[k] && RInShard(rtxs[k], |sd|) == path[k + 1]
    {
      RelayShards(tx, adds, path[k], path[k + 1]);
    }
  }

  lemma {:induction false} Nonempty(adds: seq<Address>)
    requires DefaultAddresses(adds)
    ensures |adds| > 0
  {
  }

  // What the pool of shard k takes when tx is appended; the route looked up for membership is the
  // one from the recipient's shard to the sender's.
  function Taken(sd: Matrix, k: nat, tx: Transaction, adds: seq<Address>, route: Option<seq<nat>>, back: Option<seq<nat>>): seq<Transaction>
    requires k < |sd| == |adds|
    requires route.Some? ==> Shards(sd, route.value)
  {
    var n := |sd|;
    if HoldsOnRoute(sd, k, back) then Touching(sd, k, Relays(tx, adds, route))
    else if sd[k][SInShard(tx, n)] || sd[k][RInShard(tx, n)] then [tx]
    else []
  }

  // The transactions of which shard k holds one end.
  function Touching(sd: Matrix, k: nat, txs: seq<Transaction>): (r: seq<Transaction>)
    requires k < |sd|
    ensures forall tx :: tx in r <==> tx in txs && (sd[k][SInShard(tx, |sd|)] || sd[k][RInShard(tx, |sd|)])
  {
    if txs == [] then [] else
    var n := |txs| - 1;
    Touching(sd, k, txs[..n]) + (if sd[k][SInShard(txs[n], |sd|)] || sd[k][RInShard(txs[n], |sd|)] then [txs[n]] else [])
  }

  // The table has a route between exactly these shards: no shard holds both.
  predicate NeedsRoute(sd: Matrix, s: nat, r: nat)
    requires s < |sd| && r < |sd|
  {
    s != r && !Linked(sd, s, r) && !Joint(sd, s, r)
  }

  lemma {:induction false} NeedsRouteIff(sd: Matrix, s: nat, r: nat, entry: Option<seq<nat>>)
    requires s < |sd| && r < |sd| && IsEntry(sd, s, r, entry)
    ensures NeedsRoute(sd, s, r) <==> entry.Some?
  {
    hide IsRoute;
  }

  // The hop from a to b ends up in a pool whose shard holds both chains.
  predicate HopKept(sd: Matrix, a: nat, b: nat, back: seq<nat>)
    requires a < |sd| && b < |sd|
  {
    exists k | 0 <= k < |sd| :: sd[k][a] && sd[k][b] && HoldsOnRoute(sd, k, Some(back))
  }

  // The relay of hop h is taken by a pool whose shard can pack it.
  predicate RelayTaken(sd: Matrix, tx: Transaction, adds: seq<Address>, path: seq<nat>, back: seq<nat>, h: nat)
    requires |sd| == |adds| && Shards(sd, path) && h + 1 < |path|
  {
    exists k | 0 <= k < |sd| ::
      && sd[k][path[h]] && sd[k][path[h + 1]]
      && GenRtx(tx, adds, path[h], path[h + 1]) in Taken(sd, k, tx, adds, Some(path), Some(back))
  }

  // For a transaction that needs a route, a hop is taken by a pool that can pack it if and only if
  // some shard that holds both ends of the hop is also on the route back.
  lemma {:induction false} KeptHopIsTaken(sd: Matrix, tx: Transaction, adds: seq<Address>, path: seq<nat>, back: seq<nat>, h: nat)
    requires |sd| == |adds| && DefaultAddresses(adds) && Shards(sd, path) && h + 1 < |path|
    requires NeedsRoute(sd, SInShard(tx, |sd|), RInShard(tx, |sd|))
    ensures RelayTaken(sd, tx, adds, path, back, h) <==> HopKept(sd, path[h], path[h + 1], back)
  {
    hide NeedsRoute, InShard, HoldsOnRoute;
    ShardInRange(tx, |sd|);
    var rtx := GenRtx(tx, adds, path[h], path[h + 1]);
    RelayShards(tx, adds, path[h], path[h + 1]);
    assert Relays(tx, adds, Some(path))[h] == rtx;
    assert rtx in Relays(tx, adds, Some(path));
    forall k | 0 <= k < |sd| && sd[k][path[h]] && sd[k][path[h + 1]]
      ensures HoldsOnRoute(sd, k, Some(back)) <==> rtx in Taken(sd, k, tx, adds, Some(path), Some(back))
    {
      NeverHeld(sd, k, SInShard(tx, |sd|), RInShard(tx, |sd|));
    }
  }

  lemma {:induction false} ShardInRange(tx: Transaction, n: nat)
    requires n > 0
    ensures SInShard(tx, n) < n && RInShard(tx, n) < n
  {
  }

  lemma {:induction false} NeverHeld(sd: Matrix, k: nat, s: nat, r: nat)
    requires k < |sd| && s < |sd| && r < |sd| && NeedsRoute(sd, s, r)
    ensures !(sd[k][s] && sd[k][r])
  {
  }

  // A hop at either end of the route is always kept, so only hops between inner shards can be lost.
  lemma {:induction false} OnlyInnerHopsAreLost(sd: Matrix, s: nat, r: nat, path: seq<nat>, back: seq<nat>)
    requires HoldsOwn(sd) && Reachable(sd, s, r) && s != r
    requires IsRoute(sd, s, r, path) && IsRoute(sd, r, s, back)
    ensures Shards(sd, path)
    ensures (forall k | 0 <= k < |path| - 1 :: HopKept(sd, path[k], path[k + 1], back)) <==>
            (forall k | 1 <= k < |path| - 2 :: HopKept(sd, path[k], path[k + 1], back))
  {
    hide Reachable, IsRoute, HoldsOnRoute, HoldsOwn;
    RouteIsPackable(sd, s, r, path);
    RoadBack(sd, s, r);
    RouteIsPackable(sd, r, s, back);
    forall k | 0 <= k < |path| - 1 && (k == 0 || k == |path| - 2) ensures HopKept(sd, path[k], path[k + 1], back) {
      assert Packable(sd, path[k], path[k + 1]);
      var x :| 0 <= x < |sd| && sd[x][path[k]] && sd[x][path[k + 1]];
      var e := if k == 0 then s else r;
      assert e in back && sd[x][e];
      HoldsVia(sd, x, back, e);
    }
  }

  lemma {:induction false} HoldsVia(sd: Matrix, k: nat, route: seq<nat>, e: nat)
    requires k < |sd| && e < |sd| && e in route && sd[k][e]
    ensures HoldsOnRoute(sd, k, Some(route))
  {
  }

  // A transaction that needs no route is pooled as it is, exactly where its sender's or its
  // recipient's chain is held.
  lemma {:induction false} NoRouteTaken(sd: Matrix, tx: Transaction, adds: seq<Address>, back: Option<seq<nat>>, k: nat)
    requires |sd| == |adds| && |sd| > 0 && k < |sd|
    requires IsEntry(sd, SInShard(tx, |sd|), RInShard(tx, |sd|), None)
    requires IsEntry(sd, RInShard(tx, |sd|), SInShard(tx, |sd|), back)
    ensures var s, r := SInShard(tx, |sd|), RInShard(tx, |sd|);
            forall x :: x in Taken(sd, k, tx, adds, None, back) <==> x == tx && (sd[k][s] || sd[k][r])
  {
    hide InShard;
    ShardInRange(tx, |sd|);
    var s, r := SInShard(tx, |sd|), RInShard(tx, |sd|);
    NeedsRouteIff(sd, s, r, None);
    NeedsRouteIff(sd, r, s, back);
    assert back == None;
  }

  // So some pool that can pack it has it.
  lemma {:induction false} InnerTxIsTaken(sd: Matrix, tx: Transaction, adds: seq<Address>, back: Option<seq<nat>>)
    requires |sd| == |adds| && |sd| > 0 && HoldsOwn(sd)
    requires IsEntry(sd, SInShard(tx, |sd|), RInShard(tx, |sd|), None)
    requires IsEntry(sd, RInShard(tx, |sd|), SInShard(tx, |sd|), back)
    ensures var s, r := SInShard(tx, |sd|), RInShard(tx, |sd|);
            exists x | 0 <= x < |sd| :: sd[x][s] && sd[x][r] && tx in Taken(sd, x, tx, adds, None, back)
  {
    hide HoldsOwn, InShard, IsEntry, Taken;
    ShardInRange(tx, |sd|);
    var s, r := SInShard(tx, |sd|), RInShard(tx, |sd|);
    NeedsRouteIff(sd, s, r, None);
    var x := JointHolder(sd, s, r);
    NoRouteTaken(sd, tx, adds, back, x);
  }

  lemma {:induction false} JointHolder(sd: Matrix, s: nat, r: nat) returns (x: nat)
    requires HoldsOwn(sd) && s < |sd| && r < |sd| && !NeedsRoute(sd, s, r)
    ensures x < |sd| && sd[x][s] && sd[x][r]
  {
    if s == r {
      x := s;
    } else if Linked(sd, s, r) {
      x := if sd[s][r] then s else r;
    } else {
      x :| 0 <= x < |sd| && sd[x][s] && sd[x][r];
    }
  }

  // A transaction that needs a route is pooled as relays only: a shard on the route back takes
  // exactly those of which it holds one end, and other shards take none.
  lemma {:induction false} RelayIsTakenIff(sd: Matrix, tx: Transaction, adds: seq<Address>, path: seq<nat>, back: seq<nat>, k: nat, h: nat)
    requires |sd| == |adds| && DefaultAddresses(adds) && HoldsOwn(sd) && Connected(sd) && k < |sd|
    requires IsEntry(sd, SInShard(tx, |sd|), RInShard(tx, |sd|), Some(path))
    requires IsEntry(sd, RInShard(tx, |sd|), SInShard(tx, |sd|), Some(back))
    ensures Shards(sd, path) && Shards(sd, back)
    ensures h + 1 < |path| ==>
              (GenRtx(tx, adds, path[h], path[h + 1]) in Taken(sd, k, tx, adds, Some(path), Some(back)) <==>
               (sd[k][path[h]] || sd[k][path[h + 1]]) && exists e <- back :: sd[k][e])
    ensures Taken(sd, k, tx, adds, Some(path), Some(back)) != [] ==>
              (exists e <- back :: sd[k][e]) && forall rtx <- Taken(sd, k, tx, adds, Some(path), Some(back)) :: rtx in Relays(tx, adds, Some(path))
  {
    hide HoldsOwn, Connected, IsEntry, InShard, IsRoute;
    Nonempty(adds);
    ShardInRange(tx, |sd|);
    var s, r := SInShard(tx, |sd|), RInShard(tx, |sd|);
    EntryInRange(sd, s, r, Some(path));
    EntryInRange(sd, r, s, Some(back));
    EndsOnRoute(sd, tx, r, s, back);
    if h + 1 < |path| {
      RelayShards(tx, adds, path[h], path[h + 1]);
      assert Relays(tx, adds, Some(path))[h] == GenRtx(tx, adds, path[h], path[h + 1]);
      assert GenRtx(tx, adds, path[h], path[h + 1]) in Relays(tx, adds, Some(path));
    }
  }

  lemma {:induction false} EndsOnRoute(sd: Matrix, tx: Transaction, r: nat, s: nat, back: seq<nat>)
    requires r < |sd| && s < |sd| && HoldsOwn(sd) && Connected(sd) && IsEntry(sd, r, s, Some(back))
    ensures r in back && s in back
  {
    hide HoldsOwn, IsRoute, Reachable;
    RoadBack(sd, 0, r);
    RoadOn(sd, r, 0, s);
    RouteIsPackable(sd, r, s, back);
    assert back[0] == r && back[|back| - 1] == s;
  }

  // On a connected graph, every relay of a transaction is taken by a pool that can pack it if and
  // only if each hop between inner shards has a holder that is also on the route back.
  lemma {:induction false} EveryRelayTakenIff(sd: Matrix, tx: Transaction, adds: seq<Address>, path: seq<nat>, back: seq<nat>)
    requires |sd| == |adds| && DefaultAddresses(adds) && HoldsOwn(sd) && Connected(sd)
    requires IsEntry(sd, SInShard(tx, |sd|), RInShard(tx, |sd|), Some(path))
    requires IsEntry(sd, RInShard(tx, |sd|), SInShard(tx, |sd|), Some(back))
    ensures Shards(sd, path)
    ensures (forall h | 0 <= h < |path| - 1 :: RelayTaken(sd, tx, adds, path, back, h)) <==>
            (forall h | 1 <= h < |path| - 2 :: HopKept(sd, path[h], path[h + 1], back))
  {
    hide DefaultAddresses, HoldsOwn, IsRoute, Reachable, RelayTaken, HopKept, InShard;
    Nonempty(adds);
    ShardInRange(tx, |sd|);
    var s, r := SInShard(tx, |sd|), RInShard(tx, |sd|);
    NeedsRouteIff(sd, s, r, Some(path));
    NeedsRouteIff(sd, r, s, Some(back));
    RoadBack(sd, 0, s);
    RoadOn(sd, s, 0, r);
    OnlyInnerHopsAreLost(sd, s, r, path, back);
    if forall h | 0 <= h < |path| - 1 :: RelayTaken(sd, tx, adds, path, back, h) {
      forall h | 0 <= h < |path| - 1 ensures HopKept(sd, path[h], path[h + 1], back) {
        KeptHopIsTaken(sd, tx, adds, path, back, h);
      }
    }
    if forall h | 0 <= h < |path| - 1 :: HopKept(sd, path[h], path[h + 1], back) {
      forall h | 0 <= h < |path| - 1 ensures RelayTaken(sd, tx, adds, path, back, h) {
        KeptHopIsTaken(sd, tx, adds, path, back, h);
      }
    }
  }

  // When both directions take the same road, no hop is lost.
  lemma {:induction false} SameRoadKeepsHops(sd: Matrix, s: nat, r: nat, raw: seq<nat>, path: seq<nat>, back: seq<nat>, k: nat)
    requires HoldsOwn(sd) && IsRouteAlong(sd, raw, s, r, path)
    requires IsRouteAlong(sd, seq(|raw|, m requires 0 <= m < |raw| => raw[|raw| - 1 - m]), r, s, back)
    requires k + 1 < |path|
    ensures Shards(sd, path) && HopKept(sd, path[k], path[k + 1], back)
  {
    hide LexLess, Skips, Linked, HoldsOwn;
    var war := seq(|raw|, m requires 0 <= m < |raw| => raw[|raw| - 1 - m]);
    var t := CompressHop(sd, raw, 1, k);
    var x := HopHolder(sd, raw, t, path[k], path[k + 1]);
    CompressCovers(sd, war, 1, |raw| - 2 - t);
    var e := if raw[t] in back then raw[t] else raw[t + 1];
    HoldsVia(sd, x, back, e);
  }

  // Six shards: 0 holds 2 and 3, 1 holds 4 and 5, 2 holds 5, 3 holds 4.
  const TWO_ROADS: Matrix := [
    [true, false, true, true, false, false],
    [false, true, false, false, true, true],
    [false, false, true, false, false, true],
    [false, false, false, true, true, false],
    [false, false, false, false, true, false],
    [false, false, false, false, false, true]]

  lemma {:induction false} RoadsThere(q: seq<nat>)
    requires Road(TWO_ROADS, q, 0, 1) && |q| <= 4
    ensures q == [0, 2, 5, 1] || q == [0, 3, 4, 1]
  {
    assert Linked(TWO_ROADS, q[0], q[0 + 1]);
    assert q[1] < 6;
    assert q[1] == 0 || q[1] == 2 || q[1] == 3;
    assert |q| > 2 ==> q[2] < 6 && Linked(TWO_ROADS, q[1], q[1 + 1]);
    assert |q| > 3 ==> Linked(TWO_ROADS, q[2], q[2 + 1]);
  }

  lemma {:induction false} RoadsBack(q: seq<nat>)
    requires Road(TWO_ROADS, q, 1, 0) && |q| <= 4
    ensures q == [1, 4, 3, 0] || q == [1, 5, 2, 0]
  {
    assert Linked(TWO_ROADS, q[0], q[0 + 1]);
    assert q[1] < 6;
    assert q[1] == 1 || q[1] == 4 || q[1] == 5;
    assert |q| > 2 ==> q[2] < 6 && Linked(TWO_ROADS, q[1], q[1 + 1]);
    assert |q| > 3 ==> Linked(TWO_ROADS, q[2], q[2 + 1]);
  }

  lemma {:induction false} TurnsLower(a: seq<nat>, b: seq<nat>)
    requires |a| == |b| == 4 && a[0] == b[0] && a[1] < b[1]
    ensures LexLess(a, b)
  {
    assert a[..3][..2] == a[..2] && b[..3][..2] == b[..2];
    assert a[..2][..1] == [a[0]] == b[..2][..1];
    assert LexLess(a[..2], b[..2]);
    assert LexLess(a[..3], b[..3]);
  }

  lemma {:induction false} RouteThere()
    ensures Reachable(TWO_ROADS, 0, 1) && IsRoute(TWO_ROADS, 0, 1, [0, 2, 5, 1])
  {
    var p := [0, 2, 5, 1];
    TurnsLower(p, [0, 3, 4, 1]);
    assert Road(TWO_ROADS, p, 0, 1);
    NothingSkipped(p);
    hide LexLess, Road, Compress;
    forall q | Road(TWO_ROADS, q, 0, 1) ensures |p| <= |q| && (|p| == |q| ==> p == q || LexLess(p, q)) {
      if |q| <= 4 {
        RoadsThere(q);
      }
    }
    assert IsRouteAlong(TWO_ROADS, p, 0, 1, p);
  }

  lemma {:induction false} NothingSkipped(p: seq<nat>)
    requires p == [0, 2, 5, 1] || p == [1, 4, 3, 0]
    ensures Compress(TWO_ROADS, p, 1) == p && Distinct(p)
  {
    assert Compress(TWO_ROADS, p, 2) == p;
  }

  lemma {:induction false} RouteBack()
    ensures Reachable(TWO_ROADS, 1, 0) && IsRoute(TWO_ROADS, 1, 0, [1, 4, 3, 0])
  {
    var p := [1, 4, 3, 0];
    TurnsLower(p, [1, 5, 2, 0]);
    assert Road(TWO_ROADS, p, 1, 0);
    NothingSkipped(p);
    hide LexLess, Road, Compress;
    forall q | Road(TWO_ROADS, q, 1, 0) ensures |p| <= |q| && (|p| == |q| ==> p == q || LexLess(p, q)) {
      if |q| <= 4 {
        RoadsBack(q);
      }
    }
    assert IsRouteAlong(TWO_ROADS, p, 1, 0, p);
  }

  lemma {:induction false} TwoRoadsConnected()
    ensures Connected(TWO_ROADS) && HoldsOwn(TWO_ROADS)
  {
    forall v | 0 <= v < 6 ensures Reachable(TWO_ROADS, 0, v) {
      var p := [[0], [0, 2, 5, 1], [0, 2], [0, 3], [0, 3, 4], [0, 2, 5]][v];
      assert Road(TWO_ROADS, p, 0, v);
    }
  }

  // There the two directions take different roads, and the hop from 2 to 5 is lost: whatever is
  // sent from shard 0 to shard 1, no pool whose shard holds both chains takes its relay.
  lemma {:induction false} HopCanBeLost(tx: Transaction, adds: seq<Address>)
    requires |adds| == 6 && DefaultAddresses(adds) && SInShard(tx, 6) == 0 && RInShard(tx, 6) == 1
    ensures Connected(TWO_ROADS) && HoldsOwn(TWO_ROADS)
    ensures IsEntry(TWO_ROADS, 0, 1, Some([0, 2, 5, 1])) && IsEntry(TWO_ROADS, 1, 0, Some([1, 4, 3, 0]))
    ensures forall k | 0 <= k < 6 && TWO_ROADS[k][2] && TWO_ROADS[k][5] ::
              GenRtx(tx, adds, 2, 5) !in Taken(TWO_ROADS, k, tx, adds, Some([0, 2, 5, 1]), Some([1, 4, 3, 0]))
    ensures exists k | 0 <= k < 6 :: TWO_ROADS[k][2] && TWO_ROADS[k][5]
  {
    hide IsEntry, Connected, HopKept, Taken;
    TwoRoadsEntries();
    HopIsNotKept();
    var path, back: seq<nat> := [0, 2, 5, 1], [1, 4, 3, 0];
    NeedsRouteIff(TWO_ROADS, 0, 1, Some(path));
    KeptHopIsTaken(TWO_ROADS, tx, adds, path, back, 1);
    assert TWO_ROADS[2][2] && TWO_ROADS[2][5];
  }

  lemma {:induction false} TwoRoadsEntries()
    ensures Connected(TWO_ROADS) && HoldsOwn(TWO_ROADS)
    ensures IsEntry(TWO_ROADS, 0, 1, Some([0, 2, 5, 1])) && IsEntry(TWO_ROADS, 1, 0, Some([1, 4, 3, 0]))
  {
    hide IsRoute, Connected;
    TwoRoadsConnected();
    RouteThere();
    RouteBack();
  }

  // Only shard 2 holds both chains, and it is not on the route back.
  lemma {:induction false} HopIsNotKept()
    ensures !HopKept(TWO_ROADS, 2, 5, [1, 4, 3, 0])
  {
  }
}
