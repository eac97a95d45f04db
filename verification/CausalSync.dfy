/** Which of the blocks waiting for acks can be appended: the specification of the draining in
    Comm/PyramidComm/SyncIBlock.go:107-124. */
module CausalSync {
  type Shard = nat
  type Hash = nat

  // legal: the transactions hash to the root in the header, so the chain stores the block.
  datatype StdBlock = StdBlock(hash: Hash, parents: map<Shard, Hash>, legal: bool)

  // The ack counts and the blocks received from one shard.
  datatype Waiting = Waiting(shard: Shard, cnt: map<Hash, nat>, blocks: map<Hash, StdBlock>) {
    predicate Qualified(threshold: nat, h: Hash) {
      h in cnt && h in blocks && cnt[h] >= threshold
    }

    predicate ParentIs(h: Hash, p: Hash) {
      h in blocks && shard in blocks[h].parents && blocks[h].parents[shard] == p
    }

    predicate ParentStored(stored: set<Hash>, h: Hash) {
      h in blocks && shard in blocks[h].parents && blocks[h].parents[shard] in stored
    }

    predicate Ready(threshold: nat, stored: set<Hash>, h: Hash) {
      Qualified(threshold, h) && ParentStored(stored, h)
    }

    predicate Legal(h: Hash) { h in blocks && blocks[h].legal }

    // A chain of qualified blocks on a stored one; all but the last must be legal.
    predicate Chain(threshold: nat, stored: set<Hash>, c: seq<Hash>) {
      && c != [] && ParentStored(stored, c[0])
      && (forall k | 0 <= k < |c| :: Qualified(threshold, c[k]))
      && forall k | 0 <= k < |c| - 1 :: ParentIs(c[k + 1], c[k]) && Legal(c[k])
    }

    ghost predicate Drainable(threshold: nat, stored: set<Hash>, h: Hash) {
      exists c :: Chain(threshold, stored, c) && c[|c| - 1] == h
    }

    ghost function Drain(threshold: nat, stored: set<Hash>): set<Hash> {
      set h | h in cnt && Drainable(threshold, stored, h)
    }

    function Without(h: Hash): Waiting { Waiting(shard, cnt - {h}, blocks - {h}) }

    function WithoutAll(order: seq<Hash>): Waiting {
      var gone := set h | h in order;
      Waiting(shard, cnt - gone, blocks - gone)
    }

    function StoredWith(stored: set<Hash>, h: Hash): set<Hash> {
      if Legal(h) then stored + {h} else stored
    }

    // The blocks are appended one by one, each on a parent stored by then.
    predicate Causal(stored: set<Hash>, order: seq<Hash>)
      decreases order
    {
      order == [] || (ParentStored(stored, order[0]) && Causal(StoredWith(stored, order[0]), order[1..]))
    }

    function StoredAfter(stored: set<Hash>, order: seq<Hash>): set<Hash>
      decreases order
    {
      if order == [] then stored else StoredAfter(StoredWith(stored, order[0]), order[1..])
    }
  }

  // A block that waits alone for its ready parent stays drainable once that is appended.
  lemma {:induction false} DrainableStays(w: Waiting, threshold: nat, stored: set<Hash>, h0: Hash, c: seq<Hash>)
    requires w.Ready(threshold, stored, h0) && w.Chain(threshold, stored, c) && c[|c| - 1] != h0
    ensures w.Without(h0).Drainable(threshold, w.StoredWith(stored, h0), c[|c| - 1])
    decreases |c|
  {
    var w', s' := w.Without(h0), w.StoredWith(stored, h0);
    if h0 !in c {
      KeepsChain(w, threshold, stored, h0, c);
    } else {
      var i := LastAt(c, h0);
      var d := c[i + 1..];
      assert w.ParentIs(c[i + 1], c[i]) && w.Legal(c[i]);
      forall k | 0 <= k < |d| - 1 ensures w.ParentIs(d[k + 1], d[k]) && w.Legal(d[k]) {
        assert w.ParentIs(c[i + 1 + k + 1], c[i + 1 + k]);
      }
      assert w.Chain(threshold, s', d);
      assert h0 !in d;
      StillChain(w, threshold, s', h0, d);
    }
  }

  lemma {:induction false} LastAt(c: seq<Hash>, h: Hash) returns (i: nat)
    requires h in c
    ensures i < |c| && c[i] == h && h !in c[i + 1..]
    decreases |c|
  {
    var n := |c| - 1;
    if c[n] == h {
      i := n;
    } else {
      assert c == c[..n] + [c[n]];
      i := LastAt(c[..n], h);
      assert c[i + 1..] == c[..n][i + 1..] + [c[n]];
    }
  }

  lemma {:induction false} StillChain(w: Waiting, threshold: nat, stored: set<Hash>, h0: Hash, c: seq<Hash>)
    requires w.Chain(threshold, stored, c) && h0 !in c
    ensures w.Without(h0).Drainable(threshold, stored, c[|c| - 1])
  {
    var w' := w.Without(h0);
    forall k | 0 <= k < |c| ensures w'.Qualified(threshold, c[k]) {
      assert w.Qualified(threshold, c[k]) && c[k] in c;
    }
    forall k | 0 <= k < |c| - 1 ensures w'.ParentIs(c[k + 1], c[k]) && w'.Legal(c[k]) {
      assert w.ParentIs(c[k + 1], c[k]) && c[k] in c && c[k + 1] in c;
    }
    assert w'.Chain(threshold, stored, c);
  }

  lemma {:induction false} KeepsChain(w: Waiting, threshold: nat, stored: set<Hash>, h0: Hash, c: seq<Hash>)
    requires w.Chain(threshold, stored, c) && h0 !in c
    ensures w.Without(h0).Drainable(threshold, w.StoredWith(stored, h0), c[|c| - 1])
  {
    assert w.Chain(threshold, w.StoredWith(stored, h0), c);
    StillChain(w, threshold, w.StoredWith(stored, h0), h0, c);
  }

  // What can be drained afterwards could be drained before.
  lemma {:induction false} WasDrainable(w: Waiting, threshold: nat, stored: set<Hash>, h0: Hash, c: seq<Hash>)
    requires w.Ready(threshold, stored, h0)
    requires w.Without(h0).Chain(threshold, w.StoredWith(stored, h0), c)
    ensures w.Drainable(threshold, stored, c[|c| - 1])
  {
    var w' := w.Without(h0);
    forall k | 0 <= k < |c| ensures w.Qualified(threshold, c[k]) {
      assert w'.Qualified(threshold, c[k]);
    }
    forall k | 0 <= k < |c| - 1 ensures w.ParentIs(c[k + 1], c[k]) && w.Legal(c[k]) {
      assert w'.ParentIs(c[k + 1], c[k]);
    }
    if w.ParentStored(stored, c[0]) {
      assert w.Chain(threshold, stored, c);
    } else {
      var d := [h0] + c;
      forall k | 0 <= k < |d| - 1 ensures w.ParentIs(d[k + 1], d[k]) && w.Legal(d[k]) {
        if k > 0 {
          assert d[k] == c[k - 1] && d[k + 1] == c[k];
        }
      }
      assert w.Chain(threshold, stored, d);
    }
  }

  // Appending one ready block leaves exactly the others to be drained, in whatever order.
  lemma {:induction false} DrainStep(w: Waiting, threshold: nat, stored: set<Hash>, h0: Hash)
    requires w.Ready(threshold, stored, h0)
    ensures w.Drain(threshold, stored) == {h0} + w.Without(h0).Drain(threshold, w.StoredWith(stored, h0))
  {
    hide Waiting.StoredWith, Waiting.Qualified, Waiting.ParentIs, Waiting.ParentStored, Waiting.Legal;
    var w', s' := w.Without(h0), w.StoredWith(stored, h0);
    forall h | h in w.Drain(threshold, stored) && h != h0 ensures h in w'.Drain(threshold, s') {
      var c :| w.Chain(threshold, stored, c) && c[|c| - 1] == h;
      DrainableStays(w, threshold, stored, h0, c);
    }
    forall h | h in w'.Drain(threshold, s') ensures h in w.Drain(threshold, stored) {
      var c :| w'.Chain(threshold, s', c) && c[|c| - 1] == h;
      WasDrainable(w, threshold, stored, h0, c);
    }
    SingleChain(w, threshold, stored, h0);
  }

  lemma {:induction false} SingleChain(w: Waiting, threshold: nat, stored: set<Hash>, h0: Hash)
    requires w.Ready(threshold, stored, h0)
    ensures w.Drainable(threshold, stored, h0) && h0 in w.cnt && h0 in w.Drain(threshold, stored)
  {
    assert w.Chain(threshold, stored, [h0]);
  }

  lemma {:induction false} NothingReady(w: Waiting, threshold: nat, stored: set<Hash>)
    requires forall h | h in w.cnt :: !w.Ready(threshold, stored, h)
    ensures w.Drain(threshold, stored) == {}
  {
    forall h | h in w.Drain(threshold, stored) ensures false {
      var c :| w.Chain(threshold, stored, c) && c[|c| - 1] == h;
      assert w.Qualified(threshold, c[0]);
      assert w.Ready(threshold, stored, c[0]);
    }
  }

  // After draining nothing is ready.
  lemma {:induction false} DrainedIsQuiet(w: Waiting, threshold: nat, stored: set<Hash>)
    ensures w.Drain(threshold, stored) == {} <==> forall h | h in w.cnt :: !w.Ready(threshold, stored, h)
  {
    forall h | h in w.cnt && w.Ready(threshold, stored, h) ensures h in w.Drain(threshold, stored) {
      SingleChain(w, threshold, stored, h);
    }
    if forall h | h in w.cnt :: !w.Ready(threshold, stored, h) {
      NothingReady(w, threshold, stored);
    }
  }
}
