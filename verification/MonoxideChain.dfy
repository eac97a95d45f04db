/** The GHOST ledger of monoxide/monoxideChain.go: per-shard block trees, cached subtree weights,
    cached heads, and the transaction pool that follows every reorganisation. */
module MonoxideChain {
  import opened BlockTree
  import opened TreeIndex
  import opened Transactions

  datatype RelayBlock = RelayBlock(
    id: Hash, shard: nat, parent: Hash,
    intra: seq<Transaction>, out: seq<Transaction>,
    confirmedTxRoot: Hash, outTxRoot: Hash)

  // The stored blocks of all shards; gs[s] is the genesis of shard s.
  datatype Ledger = Ledger(blocks: map<Hash, RelayBlock>, gs: seq<Hash>, born: map<Hash, nat>) {
    ghost function Tree(): Tree {
      BlockTree.Tree(map h | h in blocks && h !in gs :: blocks[h].parent, born)
    }

    ghost predicate Ok() {
      && born.Keys == blocks.Keys
      && WellFormed(Tree())
      && (forall h <- blocks :: blocks[h].id == h && blocks[h].shard < |gs|)
      && (forall s: nat | s < |gs| :: gs[s] in blocks && blocks[gs[s]].shard == s)
      && (forall h <- Tree().parent :: blocks[h].parent in blocks && blocks[blocks[h].parent].shard == blocks[h].shard)
    }

    // A fresh block on a stored parent of its own shard.
    ghost predicate Accepts(b: RelayBlock) {
      b.id !in blocks && b.parent in blocks && blocks[b.parent].shard == b.shard
    }

    ghost function Plus(b: RelayBlock): Ledger {
      Ledger(blocks[b.id := b], gs, born[b.id := |blocks|])
    }

    // Numbers given so far stay below the number of blocks.
    ghost predicate Numbered() { forall h <- born :: born[h] < |blocks| }
  }

  // h is at least as heavy as each of its siblings.
  ghost predicate Heaviest(t: Tree, h: Hash)
    requires WellFormed(t) && h in t.parent
  {
    forall y <- Children(t, t.parent[h]) :: WeightOf(t, y) <= WeightOf(t, h)
  }

  // The GHOST rule: a leaf reached from genesis g by always taking a heaviest child.
  ghost predicate GhostHead(t: Tree, g: Hash, top: Hash)
    requires WellFormed(t)
  {
    && top in t.born && Root(t, top) == g && Children(t, top) == {}
    && forall x <- Anc(t, top) | x in t.parent :: Heaviest(t, x)
  }

  // Leaving the chain of prior for that of top costs a strictly heavier child: ties keep the chain.
  ghost predicate KeepsTies(t: Tree, prior: Hash, top: Hash)
    requires WellFormed(t) && prior in t.born && top in t.born
  {
    forall x, c | x in Anc(t, top) && c in Anc(t, prior) && x in t.parent && c in t.parent
                  && t.parent[x] == t.parent[c] && x != c ::
      WeightOf(t, c) < WeightOf(t, x)
  }

  // Off the chain of prior, of equally heavy siblings the first to arrive is followed.
  ghost predicate FirstCome(t: Tree, prior: Hash, top: Hash)
    requires WellFormed(t) && prior in t.born && top in t.born
  {
    forall x, y | x in Anc(t, top) && x !in Anc(t, prior) && x in t.parent && y in t.parent
                  && t.parent[x] == t.parent[y] && x != y && WeightOf(t, x) == WeightOf(t, y) ::
      t.born[x] < t.born[y]
  }

  // f is the deepest block prior and top have in common.
  ghost predicate ForkPoint(t: Tree, prior: Hash, top: Hash, f: Hash)
    requires WellFormed(t) && prior in t.born && top in t.born
  {
    f in t.born && f != prior && f != top && Anc(t, f) == Anc(t, prior) * Anc(t, top)
  }

  ghost function TxsOf(blocks: map<Hash, RelayBlock>, hs: set<Hash>): set<Transaction> {
    set h, tx | h in hs && h in blocks && tx in blocks[h].intra :: tx
  }

  function Dump(tx: Transaction): Transaction { tx.(kind := RelayDump) }

  // The relay copies a newly confirmed list of transactions leaves in the pool.
  function RelayCopies(txs: seq<Transaction>, shardAmount: nat): set<Transaction>
    requires shardAmount > 0
  {
    set tx | tx in txs && tx.kind != RelayDump && SInShard(tx, shardAmount) != RInShard(tx, shardAmount) :: Dump(tx)
  }

  // The relay of a transaction between two shards: what is left of x for the recipient's shard.
  predicate IsRelayOf(tx: Transaction, x: Transaction, shardAmount: nat)
    requires shardAmount > 0
  {
    && x.kind != RelayDump && SInShard(x, shardAmount) != RInShard(x, shardAmount)
    && tx.kind == RelayDump && tx.sender == x.sender && tx.recipient == x.recipient && tx.value == x.value && tx.nonce == x.nonce
  }

  // What a tip extension leaves in the pool: what was there and is not in the block, and the relays
  // of the transactions in the block.
  ghost predicate TipPool(pool': set<Transaction>, pool: set<Transaction>, intra: seq<Transaction>, shardAmount: nat)
    requires shardAmount > 0
  {
    forall tx :: tx in pool' <==> (tx in pool && tx !in intra) || exists x <- intra :: IsRelayOf(tx, x, shardAmount)
  }

  lemma {:induction false} CopiesAreRelays(pool: set<Transaction>, intra: seq<Transaction>, shardAmount: nat)
    requires shardAmount > 0
    ensures TipPool(pool - Elements(intra) + RelayCopies(intra, shardAmount), pool, intra, shardAmount)
  {
    hide SInShard, RInShard;
    forall tx ensures tx in RelayCopies(intra, shardAmount) <==> exists x <- intra :: IsRelayOf(tx, x, shardAmount) {
      if x :| x in intra && IsRelayOf(tx, x, shardAmount) {
        assert tx == Dump(x);
      }
      if tx in RelayCopies(intra, shardAmount) {
        var x :| x in intra && x.kind != RelayDump && SInShard(x, shardAmount) != RInShard(x, shardAmount) && tx == Dump(x);
        assert IsRelayOf(tx, x, shardAmount);
      }
    }
  }

  // A relay is for another shard than the block's, and is not relayed again.
  lemma {:induction false} RelayOnce(tx: Transaction, x: Transaction, shardAmount: nat)
    requires shardAmount > 0 && IsRelayOf(tx, x, shardAmount)
    ensures RInShard(x, shardAmount) == RInShard(tx, shardAmount) && x != tx
    ensures forall y :: !IsRelayOf(y, tx, shardAmount)
  {
    hide InShard;
  }

  lemma {:induction false} PlusTree(l: Ledger, b: RelayBlock)
    requires l.Ok() && l.Numbered() && l.Accepts(b)
    ensures Grafts(l.Tree(), b.id, b.parent, |l.blocks|)
    ensures l.Plus(b).Tree() == Graft(l.Tree(), b.id, b.parent, |l.blocks|)
    ensures WellFormed(l.Plus(b).Tree()) && b.id !in l.gs
  {
    var t := l.Tree();
    var g := Graft(t, b.id, b.parent, |l.blocks|);
    var t' := l.Plus(b).Tree();
    assert b.id !in l.gs;
    assert b.id !in t.parent;
    assert t'.parent == g.parent by {
      forall h | h in g.parent ensures h in t'.parent && t'.parent[h] == g.parent[h] {}
      forall h | h in t'.parent ensures h in g.parent {}
    }
    assert t' == g;
    GraftWellFormed(t, b.id, b.parent, |l.blocks|);
  }

  lemma {:induction false} PlusOk(l: Ledger, b: RelayBlock)
    requires l.Ok() && l.Numbered() && l.Accepts(b)
    ensures l.Plus(b).Ok() && l.Plus(b).Numbered() && b.shard < |l.gs|
    ensures Grafts(l.Tree(), b.id, b.parent, |l.blocks|)
    ensures l.Plus(b).Tree() == Graft(l.Tree(), b.id, b.parent, |l.blocks|)
  {
    hide WellFormed, Grafts, Graft;
    PlusTree(l, b);
    var l' := l.Plus(b);
    assert |l'.blocks| == |l.blocks| + 1;
    forall h | h in l'.Tree().parent
      ensures l'.blocks[h].parent in l'.blocks && l'.blocks[l'.blocks[h].parent].shard == l'.blocks[h].shard
    {
      if h != b.id {
        assert h in l.Tree().parent;
      }
    }
  }

  lemma {:induction false} RootIsShardGenesis(l: Ledger, h: Hash)
    requires l.Ok() && h in l.blocks
    ensures Root(l.Tree(), h) == l.gs[l.blocks[h].shard]
    decreases l.born[h]
  {
    var t := l.Tree();
    if h in t.parent {
      RootIsShardGenesis(l, t.parent[h]);
    }
  }

  // Extending the head by one block makes that block the head.
  lemma {:induction false} TipExtensionIsHead(t: Tree, g: Hash, top: Hash, h: Hash, n: nat)
    requires Grafts(t, h, top, n) && GhostHead(t, g, top)
    ensures WellFormed(Graft(t, h, top, n)) && GhostHead(Graft(t, h, top, n), g, h)
  {
    var t' := Graft(t, h, top, n);
    GraftAnc(t, h, top, n, top);
    assert Anc(t', h) == {h} + Anc(t, top);
    forall x | x in Anc(t', h) && x in t'.parent ensures Heaviest(t', x) {
      if x != h {
        AncOlder(t, x, top);
        forall y | y in Children(t', t'.parent[x]) ensures WeightOf(t', y) <= WeightOf(t', x) {
          // top is a leaf, so its new child has no sibling
          assert y in Children(t, t.parent[x]);
          GraftWeight(t, h, top, n, x);
          GraftWeight(t, h, top, n, y);
          assert Heaviest(t, x);
        }
      } else {
        assert Children(t', top) == {h} by {
          forall y | y in Children(t', top) ensures y == h {}
        }
      }
    }
    assert Children(t', h) == {} by {
      forall y | y in Children(t', h) ensures false {}
    }
  }

  // Blocks of one shard leave the heads of all the others alone.
  lemma {:induction false} OtherHeadsStay(t: Tree, g: Hash, top: Hash, h: Hash, p: Hash, n: nat)
    requires Grafts(t, h, p, n) && GhostHead(t, g, top) && Root(t, p) != g
    ensures WellFormed(Graft(t, h, p, n)) && GhostHead(Graft(t, h, p, n), g, top)
  {
    var t' := Graft(t, h, p, n);
    GraftAnc(t, h, p, n, top);
    GraftAnc(t, h, p, n, p);
    assert Anc(t', h) == {h} + Anc(t, p);
    forall x | x in Anc(t', top) && x in t'.parent ensures Heaviest(t', x) {
      AncOlder(t, x, top);
      SameRoot(t, x, top);
      assert Root(t, t.parent[x]) == g;
      forall y | y in Children(t', t'.parent[x]) ensures WeightOf(t', y) <= WeightOf(t', x) {
        assert y in Children(t, t.parent[x]);
        assert Root(t, y) == g;
        if y in Anc(t, p) {
          SameRoot(t, y, p);
        }
        GraftWeight(t, h, p, n, x);
        GraftWeight(t, h, p, n, y);
        assert Heaviest(t, x);
      }
    }
    assert Children(t', top) == {} by {
      forall y | y in Children(t', top) ensures false {}
    }
  }

  // A reorganisation is decided by the new block alone: the branch switched to contains it, and
  // outweighs the abandoned branch by exactly one.
  lemma {:induction false} ReorgMargin(t: Tree, g: Hash, prior: Hash, h: Hash, p: Hash, n: nat, oldChild: Hash, newChild: Hash)
    requires Grafts(t, h, p, n) && WellFormed(Graft(t, h, p, n)) && GhostHead(t, g, prior)
    requires oldChild in t.parent && oldChild in Anc(t, prior)
    requires newChild in Graft(t, h, p, n).parent
    requires Graft(t, h, p, n).parent[newChild] == t.parent[oldChild] && newChild != oldChild
    requires WeightOf(Graft(t, h, p, n), oldChild) < WeightOf(Graft(t, h, p, n), newChild)
    ensures newChild in Anc(Graft(t, h, p, n), h)
    ensures WeightOf(Graft(t, h, p, n), newChild) == WeightOf(Graft(t, h, p, n), oldChild) + 1
  {
    var t' := Graft(t, h, p, n);
    GraftWeight(t, h, p, n, oldChild);
    GraftWeight(t, h, p, n, newChild);
    assert Heaviest(t, oldChild);
    // the new block alone weighs one, no more than any other child
    WeightPositive(t', oldChild);
    if newChild != h {
      assert newChild in Children(t, t.parent[oldChild]);
    } else {
      UnbornWeighsNothing(t, h);
    }
    if newChild in Anc(t', h) && oldChild in Anc(t', h) {
      SiblingsApart(t', newChild, oldChild, h);
    }
  }

  // What one accepted block does to the pool, given the recomputed head.
  ghost function PoolAfter(block: RelayBlock, t: Tree, blocks: map<Hash, RelayBlock>, prior: Hash, top: Hash,
                           pool: set<Transaction>, shardAmount: nat): set<Transaction>
    requires WellFormed(t) && prior in t.born && top in t.born && shardAmount > 0
  {
    if block.parent == prior then
      pool - Elements(block.intra) + RelayCopies(block.intra, shardAmount)
    else if top == prior then
      pool - Elements(block.intra)
    else
      pool + TxsOf(blocks, Anc(t, prior) - Anc(t, top)) - TxsOf(blocks, Anc(t, top) - Anc(t, prior))
  }

  // Every pooled transaction is still pooled or is now on the chain of top.
  ghost predicate NothingLost(t: Tree, blocks: map<Hash, RelayBlock>, top: Hash, pool: set<Transaction>, pool': set<Transaction>)
    requires WellFormed(t) && top in t.born
  {
    pool <= pool' + TxsOf(blocks, Anc(t, top))
  }

  // At some fork the branch towards p weighs as much as the branch of the current chain.
  ghost predicate Tied(t: Tree, prior: Hash, p: Hash)
    requires WellFormed(t) && prior in t.born && p in t.born
  {
    exists x, c ::
      && x in t.parent && c in t.parent && t.parent[x] == t.parent[c] && x != c
      && x in Anc(t, p) && c in Anc(t, prior) && WeightOf(t, x) == WeightOf(t, c)
  }

  // The deepest block two chains of one genesis have in common.
  lemma {:induction false} LastCommon(t: Tree, a: Hash, b: Hash) returns (f: Hash)
    requires WellFormed(t) && a in t.born && b in t.born && Root(t, a) == Root(t, b)
    ensures f in t.born && Anc(t, f) == Anc(t, a) * Anc(t, b)
    decreases t.born[a]
  {
    if a in Anc(t, b) {
      AncSubset(t, a, b);
      f := a;
    } else {
      RootIsAncestor(t, b);
      f := LastCommon(t, t.parent[a], b);
    }
  }

  // Two different leaves of one tree part at a fork.
  lemma {:induction false} LeavesFork(t: Tree, prior: Hash, top: Hash) returns (f: Hash)
    requires WellFormed(t) && prior in t.born && top in t.born && Root(t, prior) == Root(t, top) && prior != top
    requires Children(t, prior) == {} && Children(t, top) == {}
    ensures ForkPoint(t, prior, top, f)
  {
    f := LastCommon(t, prior, top);
    assert f in Anc(t, f);
    if f == prior {
      OnChainLeafIsHead(t, top, prior);
    } else if f == top {
      OnChainLeafIsHead(t, prior, top);
    }
  }

  // The fork choice is a function of the tree and the current head.
  lemma {:induction false} HeadIsUnique(t: Tree, g: Hash, prior: Hash, a: Hash, b: Hash)
    requires WellFormed(t) && prior in t.born && GhostHead(t, g, a) && GhostHead(t, g, b)
    requires KeepsTies(t, prior, a) && KeepsTies(t, prior, b) && FirstCome(t, prior, a) && FirstCome(t, prior, b)
    ensures a == b
  {
    hide WeightOf;
    if a != b {
      var f := LeavesFork(t, a, b);
      assert f in Anc(t, f);
      var x := ChildTowards(t, f, a);
      var y := ChildTowards(t, f, b);
      if x == y {
        AncOlder(t, x, f);
      }
      EquallyHeavy(t, x, y);
    }
  }

  lemma {:induction false} EquallyHeavy(t: Tree, x: Hash, y: Hash)
    requires WellFormed(t) && x in t.parent && y in t.parent && t.parent[x] == t.parent[y] && Heaviest(t, x) && Heaviest(t, y)
    ensures WeightOf(t, x) == WeightOf(t, y)
  {
    hide WeightOf;
    assert x in Children(t, t.parent[y]) && y in Children(t, t.parent[x]);
  }

  // Off the head, a new block changes the head exactly if its branch was already as heavy as the
  // current chain at a fork: its own weight breaks the tie.
  lemma {:induction false} HeadChangesIff(t: Tree, g: Hash, prior: Hash, h: Hash, p: Hash, n: nat, top: Hash)
    requires Grafts(t, h, p, n) && WellFormed(Graft(t, h, p, n)) && GhostHead(t, g, prior) && p != prior
    requires GhostHead(Graft(t, h, p, n), g, top) && prior in Graft(t, h, p, n).born && KeepsTies(Graft(t, h, p, n), prior, top)
    ensures top != prior <==> Tied(t, prior, p)
  {
    var t' := Graft(t, h, p, n);
    StaysLeaf(t, g, prior, h, p, n);
    if top != prior {
      SwitchBreaksTie(t, g, prior, h, p, n, top);
    }
    if Tied(t, prior, p) {
      TieIsBroken(t, prior, h, p, n);
    }
  }

  lemma {:induction false} SwitchBreaksTie(t: Tree, g: Hash, prior: Hash, h: Hash, p: Hash, n: nat, top: Hash)
    requires Grafts(t, h, p, n) && WellFormed(Graft(t, h, p, n)) && GhostHead(t, g, prior) && top != prior
    requires prior in Graft(t, h, p, n).born && Root(Graft(t, h, p, n), prior) == g && Children(Graft(t, h, p, n), prior) == {}
    requires GhostHead(Graft(t, h, p, n), g, top) && KeepsTies(Graft(t, h, p, n), prior, top)
    ensures Tied(t, prior, p)
  {
    hide KeepsTies, WeightOf, Heaviest;
    var t' := Graft(t, h, p, n);
    var f := LeavesFork(t', prior, top);
    SwitchHasMargin(t, g, prior, h, p, n, top, f);
    var x, c :| x in t'.parent && c in t'.parent && t'.parent[x] == f && t'.parent[c] == f
                && x in Anc(t', top) && c in Anc(t', prior) && x in Anc(t', h) && WeightOf(t', x) == WeightOf(t', c) + 1;
    GraftAnc(t, h, p, n, prior);
    GraftAnc(t, h, p, n, p);
    AncOlder(t, c, prior);
    GraftWeight(t, h, p, n, x);
    GraftWeight(t, h, p, n, c);
    WeightPositive(t', c);
    UnbornWeighsNothing(t, h);
    if c in Anc(t', h) {
      SiblingsApart(t', x, c, h);
    }
    assert Anc(t', h) == {h} + Anc(t, p);
  }

  lemma {:induction false} TieIsBroken(t: Tree, prior: Hash, h: Hash, p: Hash, n: nat)
    requires Grafts(t, h, p, n) && WellFormed(Graft(t, h, p, n)) && prior in t.born && Tied(t, prior, p)
    ensures prior in Graft(t, h, p, n).born
    ensures exists c :: c in Anc(Graft(t, h, p, n), prior) && c in Graft(t, h, p, n).parent && !Heaviest(Graft(t, h, p, n), c)
  {
    hide WeightOf;
    var t' := Graft(t, h, p, n);
    var x, c :| x in t.parent && c in t.parent && t.parent[x] == t.parent[c] && x != c
                && x in Anc(t, p) && c in Anc(t, prior) && WeightOf(t, x) == WeightOf(t, c);
    GraftAnc(t, h, p, n, prior);
    GraftAnc(t, h, p, n, p);
    assert Anc(t', h) == {h} + Anc(t, p);
    if c in Anc(t, p) {
      SiblingsApart(t, x, c, p);
    }
    GraftWeight(t, h, p, n, x);
    GraftWeight(t, h, p, n, c);
    assert x in Children(t', t'.parent[c]);
  }

  // A child of the head is then the only head that keeps ties, and it does keep them.
  lemma {:induction false} TipKeepsTies(t: Tree, prior: Hash, h: Hash)
    requires WellFormed(t) && prior in t.born && h in t.born && h in t.parent && t.parent[h] == prior
    ensures KeepsTies(t, prior, h)
  {
    hide WeightOf;
    forall x, c | x in Anc(t, h) && c in Anc(t, prior) && x in t.parent && c in t.parent && t.parent[x] == t.parent[c]
      ensures x == c
    {
      SiblingsApart(t, x, c, h);
    }
  }

  lemma {:induction false} TipComesFirst(t: Tree, g: Hash, prior: Hash, h: Hash, n: nat)
    requires Grafts(t, h, prior, n) && GhostHead(t, g, prior)
    ensures var t' := Graft(t, h, prior, n);
            WellFormed(t') && prior in t'.born && h in t'.born && FirstCome(t', prior, h)
  {
    hide WeightOf;
    GraftWellFormed(t, h, prior, n);
    var t' := Graft(t, h, prior, n);
    forall x | x in Anc(t', h) && x !in Anc(t', prior) ensures x == h {
    }
    assert forall y | y in t'.parent && t'.parent[y] == prior :: y == h || y in Children(t, prior);
  }

  lemma {:induction false} TipIsOnlyHead(t: Tree, g: Hash, prior: Hash, h: Hash, n: nat, top: Hash)
    requires Grafts(t, h, prior, n) && WellFormed(Graft(t, h, prior, n)) && GhostHead(t, g, prior)
    requires prior in Graft(t, h, prior, n).born && GhostHead(Graft(t, h, prior, n), g, top)
    requires KeepsTies(Graft(t, h, prior, n), prior, top)
    ensures top == h
  {
    hide WeightOf;
    var t' := Graft(t, h, prior, n);
    TipExtensionIsHead(t, g, prior, h, n);
    if top != h {
      var f := LeavesFork(t', h, top);
      assert f in Anc(t', f);
      var x := ChildTowards(t', f, top);
      var c := ChildTowards(t', f, h);
      if x == c {
        AncOlder(t', x, f);
      }
    }
  }

  // top is the head after block is accepted, as Append computes it.
  ghost predicate HeadAfter(l: Ledger, block: RelayBlock, prior: Hash, top: Hash)
    requires block.shard < |l.gs|
  {
    var t := l.Plus(block).Tree();
    WellFormed(t) && prior in t.born && GhostHead(t, l.gs[block.shard], top) && KeepsTies(t, prior, top)
  }

  // Known before the block is accepted: it extends the head, or its branch ties with the current
  // chain, or it brings no pooled transaction that the current chain does not have.
  ghost predicate Harmless(l: Ledger, block: RelayBlock, prior: Hash, pool: set<Transaction>)
    requires l.Ok() && l.Accepts(block) && prior in l.blocks
  {
    || block.parent == prior
    || Tied(l.Tree(), prior, block.parent)
    || pool * Elements(block.intra) <= TxsOf(l.blocks, Anc(l.Tree(), prior))
  }

  // A block that loses the fork choice still has its transactions taken out of the pool, so
  // "nothing is lost" holds exactly for harmless blocks.
  lemma {:induction false} NothingLostIff(l: Ledger, block: RelayBlock, prior: Hash, top: Hash, pool: set<Transaction>)
    requires l.Ok() && l.Numbered() && l.Accepts(block) && block.shard < |l.gs| && GhostHead(l.Tree(), l.gs[block.shard], prior)
    requires HeadAfter(l, block, prior, top)
    ensures l.Plus(block).Ok() && prior in l.Plus(block).Tree().born && top in l.Plus(block).Tree().born
    ensures var l' := l.Plus(block);
            NothingLost(l'.Tree(), l'.blocks, top, pool, PoolAfter(block, l'.Tree(), l'.blocks, prior, top, pool, |l.gs|))
            <==> Harmless(l, block, prior, pool)
  {
    hide Heaviest, KeepsTies, Tied, TxsOf, Anc, NothingLost, PoolAfter;
    var l' := l.Plus(block);
    PlusOk(l, block);
    OldChainTxs(l, block, prior);
    if block.parent == prior {
      TipIsOnlyHead(l.Tree(), l.gs[block.shard], prior, block.id, |l.blocks|, top);
      KeptIff(block, l'.Tree(), l'.blocks, prior, top, pool, |l.gs|);
    } else {
      HeadChangesIff(l.Tree(), l.gs[block.shard], prior, block.id, block.parent, |l.blocks|, top);
      KeptIff(block, l'.Tree(), l'.blocks, prior, top, pool, |l.gs|);
    }
  }

  // The current chain and its transactions are the same after the block is stored.
  lemma {:induction false} OldChainTxs(l: Ledger, block: RelayBlock, h: Hash)
    requires l.Ok() && l.Numbered() && l.Accepts(block) && h in l.Tree().born
    requires l.Plus(block).Ok() && h in l.Plus(block).Tree().born
    ensures h in l.blocks && TxsOf(l.Plus(block).blocks, Anc(l.Plus(block).Tree(), h)) == TxsOf(l.blocks, Anc(l.Tree(), h))
  {
    hide TxsOf;
    PlusOk(l, block);
    GraftAnc(l.Tree(), block.id, block.parent, |l.blocks|, h);
    forall a | a in Anc(l.Tree(), h) ensures a != block.id {
      AncOlder(l.Tree(), a, h);
    }
    OtherTxs(l.blocks, Anc(l.Tree(), h), block);
  }

  lemma {:induction false} OtherTxs(blocks: map<Hash, RelayBlock>, hs: set<Hash>, block: RelayBlock)
    requires block.id !in hs
    ensures TxsOf(blocks[block.id := block], hs) == TxsOf(blocks, hs)
  {
    var blocks' := blocks[block.id := block];
    forall tx | tx in TxsOf(blocks', hs) ensures tx in TxsOf(blocks, hs) {
      var h :| h in hs && h in blocks' && tx in blocks'[h].intra;
      assert h in blocks && tx in blocks[h].intra;
    }
    forall tx | tx in TxsOf(blocks, hs) ensures tx in TxsOf(blocks', hs) {
      var h :| h in hs && h in blocks && tx in blocks[h].intra;
      assert h in blocks' && tx in blocks'[h].intra;
    }
  }

  // The same in terms of the outcome.
  lemma {:induction false} KeptIff(block: RelayBlock, t: Tree, blocks: map<Hash, RelayBlock>, prior: Hash, top: Hash,
                                   pool: set<Transaction>, shardAmount: nat)
    requires WellFormed(t) && prior in t.born && top in t.born && shardAmount > 0
    requires block.id in blocks && blocks[block.id] == block && block.id in t.born
    requires block.parent == prior ==> top == block.id
    ensures NothingLost(t, blocks, top, pool, PoolAfter(block, t, blocks, prior, top, pool, shardAmount))
            <==> block.parent == prior || top != prior
                 || pool * Elements(block.intra) <= TxsOf(blocks, Anc(t, prior))
  {
    var pool' := PoolAfter(block, t, blocks, prior, top, pool, shardAmount);
    if block.parent == prior {
      assert Elements(block.intra) <= TxsOf(blocks, Anc(t, top)) by {
        assert block.id in Anc(t, top);
      }
    } else if top == prior {
      if NothingLost(t, blocks, top, pool, pool') {
        forall tx | tx in pool * Elements(block.intra) ensures tx in TxsOf(blocks, Anc(t, prior)) {
          assert tx !in pool';
        }
      }
    } else {
      assert TxsOf(blocks, Anc(t, top) - Anc(t, prior)) <= TxsOf(blocks, Anc(t, top));
    }
  }

  // The other family is inhabited: a rival of the head brings the only pooled transaction, and the
  // transaction is then neither pooled nor on the current chain.
  lemma {:induction false} LosingForkLoses(tx: Transaction)
    ensures var l, loser := OneBlock(), Rival(tx);
            var t, blocks := l.Plus(loser).Tree(), l.Plus(loser).blocks;
            && l.Ok() && l.Numbered() && l.Accepts(loser) && GhostHead(l.Tree(), 0, 1) && HeadAfter(l, loser, 1, 1)
            && !NothingLost(t, blocks, 1, {tx}, PoolAfter(loser, t, blocks, 1, 1, {tx}, 1))
  {
    hide Ledger.Ok, Ledger.Numbered, Ledger.Tree, Anc, Subtree, Children, Root;
    RivalLedger(tx);
    OneBlockHead();
    RivalStored(tx);
    RivalsTree();
    assert Elements([tx]) == {tx} by {
      assert [tx][0] == tx;
    }
    assert TxsOf(OneBlock().Plus(Rival(tx)).blocks, {1, 0}) == {};
  }

  function OneBlock(): Ledger {
    Ledger(map[0 := RelayBlock(0, 0, 0, [], [], 0, 0), 1 := RelayBlock(1, 0, 0, [], [], 0, 0)], [0], map[0 := 0, 1 := 1])
  }

  function Rival(tx: Transaction): RelayBlock { RelayBlock(2, 0, 0, [tx], [], 0, 0) }

  lemma {:induction false} RivalLedger(tx: Transaction)
    ensures OneBlock().Ok() && OneBlock().Numbered() && OneBlock().Accepts(Rival(tx))
  {
    OneBlockTree();
    assert OneBlock().Ok() by { hide WellFormed; }
    assert |OneBlock().blocks| == 2;
  }

  lemma {:induction false} OneBlockTree()
    ensures OneBlock().Tree().parent == map[1 := 0] && WellFormed(OneBlock().Tree())
  {
    assert OneBlock().Tree().parent == map[1 := 0];
  }

  lemma {:induction false} OneBlockHead()
    ensures WellFormed(OneBlock().Tree()) && GhostHead(OneBlock().Tree(), 0, 1)
  {
    hide WeightOf;
    OneBlockTree();
    var t := OneBlock().Tree();
    assert Anc(t, 0) == {0} && Root(t, 0) == 0;
    assert Anc(t, 1) == {1, 0} && Root(t, 1) == 0;
    assert Children(t, 0) == {1};
  }

  lemma {:induction false} RivalStored(tx: Transaction)
    ensures OneBlock().Plus(Rival(tx)).Tree() == RIVALS
  {
    assert |OneBlock().blocks| == 2;
    assert OneBlock().Plus(Rival(tx)).Tree().parent == map[1 := 0, 2 := 0];
  }

  // A genesis with two children.
  const RIVALS: Tree := BlockTree.Tree(map[1 := 0, 2 := 0], map[0 := 0, 1 := 1, 2 := 2])

  lemma {:induction false} RivalsTree()
    ensures WellFormed(RIVALS) && Anc(RIVALS, 1) == {1, 0} && Root(RIVALS, 1) == 0
    ensures Children(RIVALS, 1) == {} && Children(RIVALS, 0) == {1, 2}
    ensures WeightOf(RIVALS, 1) == 1 && WeightOf(RIVALS, 2) == 1
  {
    RivalChain(1);
    RivalChain(2);
    RivalSubtree(1);
    RivalSubtree(2);
    hide Anc, Root, Subtree;
  }

  lemma {:induction false} RivalChain(h: Hash)
    requires h == 1 || h == 2
    ensures Anc(RIVALS, h) == {h, 0} && Root(RIVALS, h) == 0
  {
    assert Anc(RIVALS, 0) == {0} && Root(RIVALS, 0) == 0;
  }

  lemma {:induction false} RivalSubtree(h: Hash)
    requires h == 1 || h == 2
    ensures Subtree(RIVALS, h) == {h}
  {
    RivalChain(1);
    RivalChain(2);
    assert Anc(RIVALS, 0) == {0};
    hide Anc;
  }

  // At a fork point, the branch taken contains the new block b and outweighs the branch left by one.
  ghost predicate SwitchMargin(t: Tree, prior: Hash, top: Hash, f: Hash, b: Hash)
    requires WellFormed(t) && prior in t.born && top in t.born && b in t.born
  {
    exists x, c ::
      && x in t.parent && c in t.parent && t.parent[x] == f && t.parent[c] == f
      && x in Anc(t, top) && c in Anc(t, prior)
      && x in Anc(t, b) && WeightOf(t, x) == WeightOf(t, c) + 1
  }

  lemma {:induction false} SwitchHasMargin(t: Tree, g: Hash, prior: Hash, h: Hash, p: Hash, n: nat, top: Hash, f: Hash)
    requires Grafts(t, h, p, n) && WellFormed(Graft(t, h, p, n)) && GhostHead(t, g, prior)
    requires prior in Graft(t, h, p, n).born && h in Graft(t, h, p, n).born && top in Graft(t, h, p, n).born
    requires KeepsTies(Graft(t, h, p, n), prior, top) && ForkPoint(Graft(t, h, p, n), prior, top, f)
    ensures SwitchMargin(Graft(t, h, p, n), prior, top, f, h)
  {
    var t' := Graft(t, h, p, n);
    assert f in Anc(t', f);
    var x := ChildTowards(t', f, top);
    var c := ChildTowards(t', f, prior);
    if x == c {
      AncOlder(t', x, f);
    }
    GraftAnc(t, h, p, n, prior);
    AncOlder(t, c, prior);
    ReorgMargin(t, g, prior, h, p, n, c, x);
  }

  // Walking down from root along heaviest children with the current chain as tie breaker never
  // leaves the current chain below its head, so "no fork" means the head itself was reached.
  lemma {:induction false} OnChainLeafIsHead(t: Tree, prior: Hash, top: Hash)
    requires WellFormed(t) && prior in t.born && top in Anc(t, prior) && Children(t, top) == {}
    ensures top == prior
  {
    if top != prior {
      var c := ChildTowards(t, top, prior);
    }
  }

  // The cached children and their cached weights.
  lemma {:induction false} ChildFacts(t: Tree, weight: map<Hash, nat>, path: map<Hash, seq<Hash>>, h: Hash)
    requires WellFormed(t) && WeightsAgree(t, weight) && PathsAgree(t, path)
    ensures Elements(At(path, h)) == Children(t, h)
    ensures forall c <- At(path, h) :: c in Elements(At(path, h)) && c in t.parent && Count(weight, c) == WeightOf(t, c) >= 1
  {
    forall c | c in At(path, h) ensures c in Elements(At(path, h)) && c in t.parent && Count(weight, c) == WeightOf(t, c) >= 1 {
      assert c in Children(t, h);
      WeightPositive(t, c);
    }
  }

  lemma {:induction false} HeaviestOf(t: Tree, h: Hash, hs: seq<Hash>, x: Hash)
    requires WellFormed(t) && Elements(hs) == Children(t, h) && x in Children(t, h)
    requires forall c <- hs :: c in t.parent && WeightOf(t, c) <= WeightOf(t, x)
    ensures Heaviest(t, x)
  {
    hide WeightOf;
  }

  // A branch that left prior's chain has no block in common with it.
  lemma {:induction false} OffChain(t: Tree, prior: Hash, h: Hash, c: Hash)
    requires WellFormed(t) && prior in t.born && h in t.born && h !in Anc(t, prior)
    requires c in t.parent && t.parent[c] == h
    ensures c !in Anc(t, prior)
  {
    if c in Anc(t, prior) {
      AncTransitive(t, h, c, prior);
    }
  }

  // t is the tree the stored blocks form.
  ghost predicate Linked(blocks: map<Hash, RelayBlock>, t: Tree) {
    && WellFormed(t) && t.born.Keys == blocks.Keys
    && forall h <- t.parent :: h in blocks && blocks[h].parent == t.parent[h]
  }

  lemma {:induction false} LedgerLinked(l: Ledger)
    requires l.Ok()
    ensures Linked(l.blocks, l.Tree())
  {}

  function GenesisMap(gs: seq<RelayBlock>): map<Hash, RelayBlock>
    requires DistinctIds(gs)
  {
    if gs == [] then map[] else GenesisMap(gs[..|gs| - 1])[gs[|gs| - 1].id := gs[|gs| - 1]]
  }

  lemma {:induction false} GenesisStored(gs: seq<RelayBlock>, s: nat)
    requires DistinctIds(gs) && s < |gs|
    ensures gs[s].id in GenesisMap(gs) && GenesisMap(gs)[gs[s].id] == gs[s]
    decreases |gs|
  {
    var n := |gs| - 1;
    if s < n {
      GenesisStored(gs[..n], s);
      assert gs[s].id != gs[n].id;
    }
  }

  lemma {:induction false} GenesisOnly(gs: seq<RelayBlock>, h: Hash) returns (s: nat)
    requires DistinctIds(gs) && h in GenesisMap(gs)
    ensures s < |gs| && gs[s].id == h && GenesisMap(gs)[h] == gs[s]
    decreases |gs|
  {
    var n := |gs| - 1;
    if h == gs[n].id {
      s := n;
    } else {
      s := GenesisOnly(gs[..n], h);
    }
  }

  // A ledger of genesis blocks only.
  ghost predicate OnlyGenesis(gs: seq<RelayBlock>, l: Ledger)
    requires DistinctIds(gs)
  {
    && (forall s: nat | s < |gs| :: gs[s].shard == s)
    && l.blocks == GenesisMap(gs) && l.born == (map h | h in l.blocks :: 0)
    && |l.gs| == |gs| > 0 && (forall s: nat | s < |gs| :: l.gs[s] == gs[s].id)
  }

  ghost predicate DistinctIds(gs: seq<RelayBlock>) {
    forall r: nat, s: nat | r < s < |gs| :: gs[r].id != gs[s].id
  }

  lemma {:induction false} GenesisLedger(gs: seq<RelayBlock>, l: Ledger)
    requires DistinctIds(gs) && OnlyGenesis(gs, l)
    ensures l.Ok() && l.Numbered() && l.Tree().parent == map[] && forall g <- l.gs :: g in l.Tree().born
  {
    hide GenesisMap, DistinctIds;
    forall h | h in l.blocks ensures h in l.gs && l.blocks[h].id == h && l.blocks[h].shard < |gs| {
      var s := GenesisOnly(gs, h);
      assert l.gs[s] == h;
    }
    forall s: nat | s < |gs| ensures gs[s].id in l.blocks && l.blocks[gs[s].id] == gs[s] {
      GenesisStored(gs, s);
    }
    assert l.gs[0] in l.gs;
    assert l.Tree().parent == map[];
  }

  lemma {:induction false} GenesisHeads(t: Tree, gs: seq<Hash>)
    requires t.parent == map[] && forall g <- gs :: g in t.born
    ensures WellFormed(t) && WeightsAgree(t, map[]) && PathsAgree(t, map[]) && InOrder(t, map[])
    ensures forall s: nat | s < |gs| :: GhostHead(t, gs[s], gs[s])
  {
    assert forall h :: Children(t, h) == {};
  }

  class Chain {
    var Blocks: map<Hash, RelayBlock>
    var Weight: map<Hash, nat>
    var Path: map<Hash, seq<Hash>>
    var TopBlockHash: seq<Hash>
    const BlockGs: seq<Hash>
    var TxPool: set<Transaction>
    const TxRoot: seq<Transaction> -> Hash
    ghost var born: map<Hash, nat>

    ghost function L(): Ledger
      reads this`Blocks, this`born
    {
      Ledger(Blocks, BlockGs, born)
    }

    ghost function T(): Tree
      reads this`Blocks, this`born
    {
      L().Tree()
    }

    ghost predicate Stored()
      reads this`Blocks, this`born, this`Weight, this`Path
    {
      && L().Ok() && L().Numbered() && |BlockGs| > 0
      && (forall h <- Weight :: h in T().parent)
      && WeightsAgree(T(), Weight)
      && PathsAgree(T(), Path) && InOrder(T(), Path)
    }

    // Every cached head is the block the GHOST rule selects on the whole stored tree of its shard.
    ghost predicate Valid()
      reads this
    {
      && Stored()
      && |TopBlockHash| == |BlockGs|
      && forall s: nat | s < |BlockGs| :: GhostHead(T(), BlockGs[s], TopBlockHash[s])
    }

    constructor (gs: seq<RelayBlock>, txRoot: seq<Transaction> -> Hash)
      requires |gs| > 0 && DistinctIds(gs)
      requires forall s: nat | s < |gs| :: gs[s].shard == s
      ensures Valid()
      ensures |BlockGs| == |gs| && (forall s: nat | s < |gs| :: BlockGs[s] == gs[s].id) && TopBlockHash == BlockGs
      ensures TxPool == {} && TxRoot == txRoot
    {
      hide Ledger.Tree, Ledger.Ok, Ledger.Numbered, GhostHead, WeightsAgree, PathsAgree, DistinctIds;
      Blocks := GenesisMap(gs);
      Weight, Path, TxPool, TxRoot := map[], map[], {}, txRoot;
      BlockGs := seq(|gs|, s requires 0 <= s < |gs| => gs[s].id);
      TopBlockHash := seq(|gs|, s requires 0 <= s < |gs| => gs[s].id);
      born := map h | h in GenesisMap(gs) :: 0;
      new;
      GenesisLedger(gs, L());
      GenesisHeads(T(), BlockGs);
    }

    method VerifyBlock(block: RelayBlock) returns (ok: bool)
      ensures ok <==> TxRoot(block.intra) == block.confirmedTxRoot && TxRoot(block.out) == block.outTxRoot
    {
      if TxRoot(block.intra) != block.confirmedTxRoot {
        return false;
      }
      if TxRoot(block.out) != block.outTxRoot {
        return false;
      }
      return true;
    }

    // Counts the new block in on itself and all its ancestors above the genesis.
    method AddWeights(block: RelayBlock, ghost t: Tree)
      requires Linked(Blocks, t) && block.id in t.born
      requires block.shard < |BlockGs| && Root(t, block.id) == BlockGs[block.shard]
      modifies this`Weight
      ensures forall h :: Count(Weight, h) == Count(old(Weight), h) + (if h in t.parent && h in Anc(t, block.id) then 1 else 0)
      ensures forall h <- Weight :: h in old(Weight) || h in t.parent
    {
      var sid := block.shard;
      var temp := block.id;
      while BlockGs[sid] != temp
        invariant temp in t.born && Root(t, temp) == BlockGs[sid] && temp in Anc(t, block.id)
        invariant Anc(t, temp) <= Anc(t, block.id)
        invariant forall h <- Weight :: h in old(Weight) || h in t.parent
        invariant forall h ::
            Count(Weight, h) == Count(old(Weight), h) + (if h in Anc(t, block.id) - Anc(t, temp) then 1 else 0)
        invariant forall h <- Anc(t, block.id) - Anc(t, temp) :: h in t.parent
        decreases t.born[temp]
      {
        Weight := Weight[temp := Count(Weight, temp) + 1];
        StepDown(t, block.id, temp);
        temp := Blocks[temp].parent;
      }
      RootIsGenesis(t, temp);
    }

    // Recomputes the head of shard sid from its genesis; fork is the block at which the result
    // leaves the current chain.
    method FindTop(sid: nat, ghost t: Tree) returns (top: Hash, fork: Option<Hash>)
      requires Linked(Blocks, t) && WeightsAgree(t, Weight) && PathsAgree(t, Path) && InOrder(t, Path)
      requires |TopBlockHash| == |BlockGs| && sid < |BlockGs|
      requires TopBlockHash[sid] in t.born && Root(t, TopBlockHash[sid]) == BlockGs[sid]
      requires Children(t, TopBlockHash[sid]) == {}
      ensures GhostHead(t, BlockGs[sid], top)
      ensures KeepsTies(t, TopBlockHash[sid], top) && FirstCome(t, TopBlockHash[sid], top)
      ensures fork == None <==> top == TopBlockHash[sid]
      ensures fork.Some? ==> ForkPoint(t, TopBlockHash[sid], top, fork.value)
    {
      hide Heaviest, Tied, KeepsTies, FirstCome, InOrder, ForkPoint, WeightOf;
      var g, prior := BlockGs[sid], TopBlockHash[sid];
      var currPath := CurrentPath(g, prior, t);
      RootIsAncestor(t, prior);
      RootIsGenesis(t, g);
      KeepsTiesAtGenesis(t, prior, g);
      var temp := g;
      fork := None;
      while |At(Path, temp)| != 0
        invariant temp in t.born && Root(t, temp) == g
        invariant forall x <- Anc(t, temp) | x in t.parent :: Heaviest(t, x)
        invariant KeepsTies(t, prior, temp) && FirstCome(t, prior, temp)
        invariant Forked(t, prior, temp, fork)
        decreases Younger(t, temp)
      {
        var tarH := BestChild(temp, currPath, t);
        ghost var before := fork;
        if tarH !in currPath && fork == None {
          fork := Some(temp);
        }
        FollowChild(t, g, prior, temp, tarH, before, fork);
        FollowFirst(t, g, prior, temp, tarH);
        YoungerShrinks(t, temp, tarH);
        temp := tarH;
      }
      assert Elements(At(Path, temp)) == Children(t, temp);
      top := temp;
      if fork == None {
        OnChainLeafIsHead(t, prior, top);
      }
    }

    // The current chain below its genesis.
    method CurrentPath(g: Hash, prior: Hash, ghost t: Tree) returns (currPath: set<Hash>)
      requires Linked(Blocks, t) && prior in t.born && Root(t, prior) == g
      ensures currPath == Anc(t, prior) - {g}
    {
      currPath := {};
      var temp := prior;
      while g != temp
        invariant temp in t.born && Root(t, temp) == g && temp in Anc(t, prior)
        invariant currPath == Anc(t, prior) - Anc(t, temp) && Anc(t, temp) <= Anc(t, prior)
        decreases t.born[temp]
      {
        currPath := currPath + {temp};
        ghost var below := temp;
        temp := Blocks[temp].parent;
        StepDown(t, prior, below);
      }
      RootIsAncestor(t, prior);
      RootIsGenesis(t, g);
    }

    // The heaviest child of temp, the one on the current chain if it is among the heaviest, and
    // otherwise the first of them to arrive.
    method BestChild(temp: Hash, currPath: set<Hash>, ghost t: Tree) returns (tarH: Hash)
      requires WellFormed(t) && WeightsAgree(t, Weight) && PathsAgree(t, Path) && InOrder(t, Path) && |At(Path, temp)| != 0
      ensures tarH in Children(t, temp) && Heaviest(t, tarH)
      ensures forall c <- Children(t, temp) | c in currPath && c != tarH && tarH !in currPath ::
                WeightOf(t, c) < WeightOf(t, tarH)
      ensures tarH !in currPath ==>
                forall c <- Children(t, temp) | c != tarH && WeightOf(t, c) == WeightOf(t, tarH) :: Earlier(t, tarH, c)
    {
      hide WellFormed, WeightsAgree, PathsAgree, Ascending, WeightOf, Children, Heaviest;
      var hs := At(Path, temp);
      ChildFacts(t, Weight, Path, temp);
      var maxW: nat := 0;
      tarH := temp;
      ghost var k := 0;
      for i := 0 to |hs|
        invariant i == 0 ==> maxW == 0
        invariant forall j | 0 <= j < i :: hs[j] in hs && WeightOf(t, hs[j]) <= maxW
        invariant i > 0 ==> 0 <= k < i && tarH == hs[k] && tarH in Elements(hs) && maxW == WeightOf(t, tarH)
        invariant i > 0 && tarH !in currPath ==> forall j | 0 <= j < k :: WeightOf(t, hs[j]) < maxW
        invariant forall j | 0 <= j < i && hs[j] in currPath && hs[j] != tarH && tarH !in currPath ::
            WeightOf(t, hs[j]) < maxW
      {
        var h := hs[i];
        assert h in hs && h in Elements(hs);
        if Count(Weight, h) > maxW {
          tarH := h;
          maxW := Count(Weight, h);
          k := i;
        } else if Count(Weight, h) == maxW {
          if h in currPath {
            tarH := h;
            k := i;
          }
        }
      }
      HeaviestOf(t, temp, hs, tarH);
      ListedEarlier(t, hs, k);
    }

    // Accepts a block. The source panics on a block whose transaction roots do not match.
    method Append(block: RelayBlock) returns (ok: bool, ghost fork: Option<Hash>)
      requires Valid() && L().Accepts(block)
      modifies this
      ensures Valid()
      ensures ok <==> TxRoot(block.intra) == block.confirmedTxRoot && TxRoot(block.out) == block.outTxRoot
      ensures !ok ==> L() == old(L()) && TopBlockHash == old(TopBlockHash) && TxPool == old(TxPool)
      ensures ok ==> L() == old(L()).Plus(block)
      ensures ok ==> forall s: nat | s < |BlockGs| && s != block.shard :: TopBlockHash[s] == old(TopBlockHash[s])
      ensures ok && block.parent == old(TopBlockHash)[block.shard] ==> TopBlockHash[block.shard] == block.id
      ensures ok ==> KeepsTies(T(), old(TopBlockHash)[block.shard], TopBlockHash[block.shard])
                     && FirstCome(T(), old(TopBlockHash)[block.shard], TopBlockHash[block.shard])
      ensures fork.Some? ==> ok && ForkPoint(T(), old(TopBlockHash)[block.shard], TopBlockHash[block.shard], fork.value)
      ensures fork.Some? ==> SwitchMargin(T(), old(TopBlockHash)[block.shard], TopBlockHash[block.shard], fork.value, block.id)
      ensures ok && block.parent != old(TopBlockHash)[block.shard] ==>
                (fork == None <==> TopBlockHash[block.shard] == old(TopBlockHash)[block.shard])
      ensures ok && block.parent != old(TopBlockHash)[block.shard] ==>
                (fork.Some? <==> Tied(old(T()), old(TopBlockHash)[block.shard], block.parent))
      ensures ok ==> TxPool == PoolAfter(block, T(), Blocks, old(TopBlockHash)[block.shard], TopBlockHash[block.shard],
                                            old(TxPool), |BlockGs|)
      ensures ok && block.parent == old(TopBlockHash)[block.shard] ==> TipPool(TxPool, old(TxPool), block.intra, |BlockGs|)
    {
      hide Heaviest, Tied, KeepsTies, FirstCome, ForkPoint, WeightOf, WeightsAgree, PathsAgree, InOrder, Root, Anc, Children, Ledger.Ok,
        Ledger.Numbered, Ledger.Tree, WellFormed, Grafts, Linked, Graft, TxsOf, RelayCopies, TipPool, SwitchMargin, Elements;
      fork := None;
      ok := VerifyBlock(block);
      if !ok {
        return;
      }
      var sid := block.shard;
      ghost var t0, n := T(), |Blocks|;
      OtherHeads(L(), block, TopBlockHash);
      Store(block);
      ghost var t := T();
      if block.parent == TopBlockHash[sid] {
        TipExtensionIsHead(t0, BlockGs[sid], TopBlockHash[sid], block.id, n);
        GraftedParent(t0, block.id, block.parent, n);
        TipKeepsTies(t, TopBlockHash[sid], block.id);
        TipComesFirst(t0, BlockGs[sid], TopBlockHash[sid], block.id, n);
        TopBlockHash := TopBlockHash[sid := block.id];
        CopiesAreRelays(TxPool, block.intra, |BlockGs|);
        TxPool := TxPool - Elements(block.intra);
        TxPool := TxPool + RelayCopies(block.intra, |BlockGs|);
      } else {
        fork := SettleFork(block, t0, n, t);
      }
    }

    // The slow path: the head is searched anew, and on a fork the pool follows.
    method SettleFork(block: RelayBlock, ghost t0: Tree, ghost n: nat, ghost t: Tree) returns (fork: Option<Hash>)
      requires Linked(Blocks, t) && WeightsAgree(t, Weight) && PathsAgree(t, Path) && InOrder(t, Path)
      requires |TopBlockHash| == |BlockGs| && block.shard < |BlockGs| && block.id in Blocks
      requires Grafts(t0, block.id, block.parent, n) && t == Graft(t0, block.id, block.parent, n)
      requires GhostHead(t0, BlockGs[block.shard], TopBlockHash[block.shard]) && block.parent != TopBlockHash[block.shard]
      modifies this`TopBlockHash, this`TxPool
      ensures |TopBlockHash| == |BlockGs|
      ensures forall s: nat | s < |BlockGs| && s != block.shard :: TopBlockHash[s] == old(TopBlockHash[s])
      ensures GhostHead(t, BlockGs[block.shard], TopBlockHash[block.shard])
      ensures old(TopBlockHash)[block.shard] in t.born && block.id in t.born
      ensures KeepsTies(t, old(TopBlockHash)[block.shard], TopBlockHash[block.shard])
      ensures FirstCome(t, old(TopBlockHash)[block.shard], TopBlockHash[block.shard])
      ensures fork.Some? ==> ForkPoint(t, old(TopBlockHash)[block.shard], TopBlockHash[block.shard], fork.value)
      ensures fork.Some? ==> SwitchMargin(t, old(TopBlockHash)[block.shard], TopBlockHash[block.shard], fork.value, block.id)
      ensures fork == None <==> TopBlockHash[block.shard] == old(TopBlockHash)[block.shard]
      ensures fork.Some? <==> Tied(t0, old(TopBlockHash)[block.shard], block.parent)
      ensures TxPool == PoolAfter(block, t, Blocks, old(TopBlockHash)[block.shard], TopBlockHash[block.shard], old(TxPool), |BlockGs|)
    {
      hide Heaviest, Tied, KeepsTies, FirstCome, ForkPoint, WeightOf, WeightsAgree, PathsAgree, InOrder, Root, Anc, Children, Grafts, Graft, TxsOf, RelayCopies,
        SwitchMargin, Elements;
      var sid := block.shard;
      var prior := TopBlockHash[sid];
      StaysLeaf(t0, BlockGs[sid], prior, block.id, block.parent, n);
      var top, forkPoint := FindTop(sid, t);
      fork := forkPoint;
      HeadChangesIff(t0, BlockGs[sid], prior, block.id, block.parent, n, top);
      if forkPoint.Some? {
        SwitchPool(prior, top, forkPoint.value, t);
        SwitchHasMargin(t0, BlockGs[sid], prior, block.id, block.parent, n, top, forkPoint.value);
      } else {
        TopBlockHash := TopBlockHash[sid := block.id];
        TxPool := TxPool - Elements(block.intra);
      }
      TopBlockHash := TopBlockHash[sid := top];
    }

    // Records the block as a child of its parent and counts it in.
    method Store(block: RelayBlock)
      requires Stored() && L().Accepts(block)
      modifies this`Blocks, this`born, this`Path, this`Weight
      ensures Stored() && L() == old(L()).Plus(block) && Linked(Blocks, T())
      ensures Grafts(old(T()), block.id, block.parent, old(|Blocks|))
      ensures T() == Graft(old(T()), block.id, block.parent, old(|Blocks|))
      ensures block.shard < |BlockGs| && block.id in T().born
    {
      hide WeightOf, WeightsAgree, PathsAgree, InOrder, Root, Anc, Ledger.Tree, Ledger.Ok, Ledger.Numbered, WellFormed, Grafts, Linked;
      ghost var l0, t0, weight0, n := L(), T(), Weight, |Blocks|;
      PlusOk(l0, block);
      PathsAfterGraft(t0, Path, block.id, block.parent, n);
      OrderAfterGraft(t0, Path, block.id, block.parent, n);
      LedgerLinked(l0.Plus(block));
      RootIsShardGenesis(l0.Plus(block), block.id);
      Blocks := Blocks[block.id := block];
      born := born[block.id := n];
      Path := Path[block.parent := At(Path, block.parent) + [block.id]];
      AddWeights(block, Graft(t0, block.id, block.parent, n));
      WeightsAfterGraft(t0, weight0, Weight, block.id, block.parent, n);
    }

    // Gives back the transactions of the abandoned branch, then takes out those of the adopted one.
    method SwitchPool(prior: Hash, top: Hash, fork: Hash, ghost t: Tree)
      requires Linked(Blocks, t) && prior in t.born && top in t.born && ForkPoint(t, prior, top, fork)
      modifies this`TxPool
      ensures TxPool == old(TxPool) + TxsOf(Blocks, Anc(t, prior) - Anc(t, top))
                                    - TxsOf(Blocks, Anc(t, top) - Anc(t, prior))
    {
      assert fork in Anc(t, fork);
      var roll := prior;
      while roll != fork
        invariant roll in t.born && fork in Anc(t, roll) && Anc(t, roll) <= Anc(t, prior)
        invariant TxPool == old(TxPool) + TxsOf(Blocks, Anc(t, prior) - Anc(t, roll))
        decreases t.born[roll]
      {
        TxPool := TxPool + Elements(Blocks[roll].intra);
        StepDown(t, prior, roll);
        OneMore(Blocks, Anc(t, prior) - Anc(t, roll), roll);
        roll := Blocks[roll].parent;
      }
      ghost var mid := TxPool;
      assert mid == old(TxPool) + TxsOf(Blocks, Anc(t, prior) - Anc(t, top)) by {
        assert Anc(t, prior) - Anc(t, fork) == Anc(t, prior) - Anc(t, top);
      }
      roll := top;
      while roll != fork
        invariant roll in t.born && fork in Anc(t, roll) && Anc(t, roll) <= Anc(t, top)
        invariant TxPool == mid - TxsOf(Blocks, Anc(t, top) - Anc(t, roll))
        decreases t.born[roll]
      {
        TxPool := TxPool - Elements(Blocks[roll].intra);
        StepDown(t, top, roll);
        OneMore(Blocks, Anc(t, top) - Anc(t, roll), roll);
        roll := Blocks[roll].parent;
      }
      assert Anc(t, top) - Anc(t, fork) == Anc(t, top) - Anc(t, prior);
    }
  }

  ghost function Younger(t: Tree, h: Hash): set<Hash>
    requires h in t.born
  {
    set x | x in t.born && t.born[x] > t.born[h]
  }

  lemma {:induction false} YoungerShrinks(t: Tree, h: Hash, c: Hash)
    requires WellFormed(t) && h in t.born && c in Children(t, h)
    ensures c in t.born && Younger(t, c) < Younger(t, h)
  {
    assert c in Younger(t, h) && c !in Younger(t, c);
  }

  lemma {:induction false} KeepsTiesAtGenesis(t: Tree, prior: Hash, g: Hash)
    requires WellFormed(t) && prior in t.born && g in t.born && g !in t.parent
    ensures KeepsTies(t, prior, g) && FirstCome(t, prior, g)
  {}

  lemma {:induction false} OtherHeads(l: Ledger, block: RelayBlock, tops: seq<Hash>)
    requires l.Ok() && l.Numbered() && l.Accepts(block) && |tops| == |l.gs|
    requires forall s: nat | s < |l.gs| :: GhostHead(l.Tree(), l.gs[s], tops[s])
    ensures l.Plus(block).Ok()
    ensures forall s: nat | s < |l.gs| && s != block.shard :: GhostHead(l.Plus(block).Tree(), l.gs[s], tops[s])
  {
    PlusOk(l, block);
    RootIsShardGenesis(l, block.parent);
    forall s: nat | s < |l.gs| && s != block.shard ensures GhostHead(l.Plus(block).Tree(), l.gs[s], tops[s]) {
      assert l.blocks[l.gs[s]].shard == s;
      OtherHeadsStay(l.Tree(), l.gs[s], tops[s], block.id, block.parent, |l.blocks|);
    }
  }

  // A head that the new block does not extend is still a leaf.
  lemma {:induction false} StaysLeaf(t: Tree, g: Hash, prior: Hash, h: Hash, p: Hash, n: nat)
    requires Grafts(t, h, p, n) && GhostHead(t, g, prior) && p != prior
    ensures WellFormed(Graft(t, h, p, n)) && prior in Graft(t, h, p, n).born && Root(Graft(t, h, p, n), prior) == g
    ensures Children(Graft(t, h, p, n), prior) == {}
  {
    GraftAnc(t, h, p, n, prior);
    forall y | y in Children(Graft(t, h, p, n), prior) ensures y in Children(t, prior) {}
  }

  lemma {:induction false} GraftedParent(t: Tree, h: Hash, p: Hash, n: nat)
    requires Grafts(t, h, p, n)
    ensures var t' := Graft(t, h, p, n); p in t'.born && h in t'.born && h in t'.parent && t'.parent[h] == p
  {}

  lemma {:induction false} OneMore(blocks: map<Hash, RelayBlock>, hs: set<Hash>, h: Hash)
    requires h in blocks
    ensures TxsOf(blocks, hs + {h}) == TxsOf(blocks, hs) + Elements(blocks[h].intra)
  {}

  ghost predicate Earlier(t: Tree, x: Hash, y: Hash) { x in t.born && y in t.born && t.born[x] < t.born[y] }

  lemma {:induction false} ListedEarlier(t: Tree, hs: seq<Hash>, k: nat)
    requires Ascending(t, hs) && k < |hs|
    ensures forall c <- Elements(hs) | (forall j | 0 <= j < k :: hs[j] != c) && c != hs[k] :: Earlier(t, hs[k], c)
  {
    forall c | c in Elements(hs) && (forall j | 0 <= j < k :: hs[j] != c) && c != hs[k] ensures Earlier(t, hs[k], c) {
      var m :| 0 <= m < |hs| && hs[m] == c;
    }
  }

  // Where the walk down from the genesis has left the current chain.
  ghost predicate Forked(t: Tree, prior: Hash, temp: Hash, fork: Option<Hash>)
    requires WellFormed(t) && prior in t.born && temp in t.born
  {
    match fork
    case None => temp in Anc(t, prior)
    case Some(f) => temp !in Anc(t, prior) && f != prior && ForkPoint(t, prior, temp, f)
  }

  // One step down keeps what the walk knows.
  lemma {:induction false} FollowChild(t: Tree, g: Hash, prior: Hash, above: Hash, temp: Hash, before: Option<Hash>, fork: Option<Hash>)
    requires WellFormed(t) && prior in t.born && above in t.born && temp in Children(t, above)
    requires Root(t, above) == g && Root(t, prior) == g
    requires Children(t, prior) == {}
    requires (forall x <- Anc(t, above) | x in t.parent :: Heaviest(t, x)) && Heaviest(t, temp)
    requires KeepsTies(t, prior, above)
    requires forall c <- Children(t, above) | c in Anc(t, prior) - {g} && c != temp && temp !in Anc(t, prior) - {g} ::
               WeightOf(t, c) < WeightOf(t, temp)
    requires Forked(t, prior, above, before)
    requires fork == if temp !in Anc(t, prior) - {g} && before == None then Some(above) else before
    ensures temp in t.born && Root(t, temp) == g
    ensures forall x <- Anc(t, temp) | x in t.parent :: Heaviest(t, x)
    ensures KeepsTies(t, prior, temp)
    ensures Forked(t, prior, temp, fork)
  {
    RootIsAncestor(t, temp);
    RootIsGenesis(t, g) by { RootIsAncestor(t, above); SameRoot(t, g, above); }
    Descend(t, prior, above, temp);
    if above !in Anc(t, prior) {
      OffChain(t, prior, above, temp);
    }
    if temp !in Anc(t, prior) && above in Anc(t, prior) {
      assert fork == Some(above);
      assert temp !in Anc(t, above) by {
        if temp in Anc(t, above) { AncOlder(t, temp, above); }
      }
      AncSubset(t, above, prior);
      assert Anc(t, temp) == {temp} + Anc(t, above);
      assert Anc(t, above) == Anc(t, prior) * Anc(t, temp);
    }
  }

  lemma {:induction false} FollowFirst(t: Tree, g: Hash, prior: Hash, above: Hash, temp: Hash)
    requires WellFormed(t) && prior in t.born && above in t.born && temp in Children(t, above) && temp in t.born
    requires Root(t, above) == g && FirstCome(t, prior, above)
    requires temp !in Anc(t, prior) - {g} ==>
               forall c <- Children(t, above) | c != temp && WeightOf(t, c) == WeightOf(t, temp) :: Earlier(t, temp, c)
    ensures FirstCome(t, prior, temp)
  {
    hide WeightOf;
    if temp == g {
      RootIsAncestor(t, above);
    }
    forall x, y | x in Anc(t, temp) && x !in Anc(t, prior) && x in t.parent && y in t.parent
                  && t.parent[x] == t.parent[y] && x != y && WeightOf(t, x) == WeightOf(t, y)
      ensures t.born[x] < t.born[y]
    {
      if x == temp {
        assert y in Children(t, above);
        assert Earlier(t, temp, y);
      } else {
        assert x in Anc(t, above);
      }
    }
  }

  // One step down the heaviest path keeps the tie rule.
  lemma {:induction false} Descend(t: Tree, prior: Hash, above: Hash, temp: Hash)
    requires WellFormed(t) && prior in t.born && above in t.born && temp in t.parent && temp in t.born && t.parent[temp] == above
    requires KeepsTies(t, prior, above)
    requires forall c <- Children(t, above) | c in Anc(t, prior) && c != temp && temp !in Anc(t, prior) ::
               WeightOf(t, c) < WeightOf(t, temp)
    ensures KeepsTies(t, prior, temp)
  {
    forall x, c | x in Anc(t, temp) && c in Anc(t, prior) && x in t.parent && c in t.parent
                  && t.parent[x] == t.parent[c] && x != c
      ensures WeightOf(t, c) < WeightOf(t, x)
    {
      if x == temp {
        assert c in Children(t, above);
        if temp in Anc(t, prior) {
          SiblingsApart(t, temp, c, prior);
        }
      } else {
        assert x in Anc(t, above);
      }
    }
  }
}
