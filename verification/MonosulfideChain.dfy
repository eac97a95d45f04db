/** The ledger of one Monosulfide node (Monosulfide/MonosulfideChain.go): the stored block DAG, its
    cached indexes, the current top of every shard, and the transaction pool. */
module MonosulfideChain {
  import opened BlockTree
  import opened TreeIndex
  import opened Transactions
  import opened FideDag
  import opened Relinearise

  ghost function TxsOf(blocks: map<Hash, FideBlock>, hs: set<Hash>): set<Transaction> {
    set h, tx | h in hs && h in blocks && tx in Txs(blocks[h].subs) :: tx
  }

  // The transactions on the chain that ends in h.
  ghost function ChainTxs(d: Dag, h: Hash): set<Transaction>
    requires d.Stored() && h in d.blocks
  {
    TxsOf(d.blocks, Anc(d.Tree(), h))
  }

  // The transactions on the current chains of all shards.
  ghost function OnChain(d: Dag, tops: seq<Hash>): set<Transaction>
    requires d.Stored() && d.Tops(tops)
  {
    set i: nat, tx | i < d.shards && tx in ChainTxs(d, tops[i]) :: tx
  }

  // Changing one top gives the abandoned blocks' transactions back and takes out the adopted ones'.
  ghost function SwitchTop(d: Dag, pool: set<Transaction>, was: Hash, now: Hash): set<Transaction>
    requires d.Stored() && was in d.blocks && now in d.blocks
  {
    pool + TxsOf(d.blocks, Anc(d.Tree(), was) - Anc(d.Tree(), now)) - TxsOf(d.blocks, Anc(d.Tree(), now) - Anc(d.Tree(), was))
  }

  ghost function SwitchTops(d: Dag, pool: set<Transaction>, was: seq<Hash>, now: seq<Hash>, k: nat): set<Transaction>
    requires d.Stored() && d.Tops(was) && d.Tops(now) && k <= d.shards
  {
    if k == 0 then pool else SwitchTop(d, SwitchTops(d, pool, was, now, k - 1), was[k - 1], now[k - 1])
  }

  // tx is in the body of one of the sub-blocks.
  ghost predicate Carries(subs: seq<SubBlock>, tx: Transaction) {
    exists s <- subs :: s.body.Some? && tx in s.body.value
  }

  lemma {:induction false} TxsAreCarried(subs: seq<SubBlock>, tx: Transaction)
    ensures tx in Txs(subs) <==> Carries(subs, tx)
  {
    if subs != [] {
      var rest, last := subs[..|subs| - 1], subs[|subs| - 1];
      TxsAreCarried(rest, tx);
      assert subs == rest + [last];
    }
  }

  // Some block of hs carries tx.
  ghost predicate OnBlocks(blocks: map<Hash, FideBlock>, hs: set<Hash>, tx: Transaction) {
    exists h <- hs :: h in blocks && Carries(blocks[h].subs, tx)
  }

  lemma {:induction false} TxsOfBlocks(blocks: map<Hash, FideBlock>, hs: set<Hash>, tx: Transaction)
    ensures tx in TxsOf(blocks, hs) <==> OnBlocks(blocks, hs, tx)
  {
    hide Carries, Txs;
    forall h | h in hs && h in blocks ensures tx in Txs(blocks[h].subs) <==> Carries(blocks[h].subs, tx) {
      TxsAreCarried(blocks[h].subs, tx);
    }
  }

  // A transaction is pooled exactly if it was, or an abandoned block carries it, and no adopted
  // block does.
  ghost predicate Moved(pool': set<Transaction>, pool: set<Transaction>, blocks: map<Hash, FideBlock>, gone: set<Hash>, come: set<Hash>) {
    forall tx :: tx in pool' <==> (tx in pool || OnBlocks(blocks, gone, tx)) && !OnBlocks(blocks, come, tx)
  }

  lemma {:induction false} SwitchTopMoves(d: Dag, pool: set<Transaction>, was: Hash, now: Hash)
    requires d.Stored() && was in d.blocks && now in d.blocks
    ensures Moved(SwitchTop(d, pool, was, now), pool, d.blocks, Anc(d.Tree(), was) - Anc(d.Tree(), now), Anc(d.Tree(), now) - Anc(d.Tree(), was))
  {
    hide TxsOf, OnBlocks;
    var gone, come := Anc(d.Tree(), was) - Anc(d.Tree(), now), Anc(d.Tree(), now) - Anc(d.Tree(), was);
    forall tx
      ensures tx in TxsOf(d.blocks, gone) <==> OnBlocks(d.blocks, gone, tx)
      ensures tx in TxsOf(d.blocks, come) <==> OnBlocks(d.blocks, come, tx)
    {
      TxsOfBlocks(d.blocks, gone, tx);
      TxsOfBlocks(d.blocks, come, tx);
    }
  }

  lemma {:induction false} SwitchTopIs(d: Dag, pool: set<Transaction>, was: Hash, now: Hash)
    requires d.Stored() && was in d.blocks && now in d.blocks
    ensures was in d.Tree().born && now in d.Tree().born
    ensures SwitchTop(d, pool, was, now) ==
            pool + TxsOf(d.blocks, Anc(d.Tree(), was) - Anc(d.Tree(), now)) - TxsOf(d.blocks, Anc(d.Tree(), now) - Anc(d.Tree(), was))
  {}

  // A tip extension takes exactly what the block carries out of the pool.
  ghost predicate TipPool(pool': set<Transaction>, pool: set<Transaction>, subs: seq<SubBlock>) {
    forall tx :: tx in pool' <==> tx in pool && !Carries(subs, tx)
  }

  lemma {:induction false} CarriedLeave(pool: set<Transaction>, subs: seq<SubBlock>)
    ensures TipPool(pool - Elements(Txs(subs)), pool, subs)
  {
    hide Txs, Carries;
    forall tx ensures tx in Txs(subs) <==> Carries(subs, tx) {
      TxsAreCarried(subs, tx);
    }
  }

  // The new block and its ancestors carry the time of its arrival; all other stamps stay.
  ghost predicate Restamped(stamp': map<Hash, nat>, stamp: map<Hash, nat>, hs: set<Hash>, now: nat) {
    forall h :: (h in stamp' <==> h in stamp || h in hs) && (h in stamp' ==> stamp'[h] == if h in hs then now else stamp[h])
  }

  lemma {:induction false} SplitTxs(blocks: map<Hash, FideBlock>, a: set<Hash>, b: set<Hash>)
    ensures TxsOf(blocks, a - b) <= TxsOf(blocks, a) <= TxsOf(blocks, a - b) + TxsOf(blocks, b)
  {}

  lemma {:induction false} SwitchTopKeepsTxs(d: Dag, pool: set<Transaction>, was: Hash, now: Hash)
    requires d.Stored() && was in d.blocks && now in d.blocks
    ensures pool + ChainTxs(d, was) <= SwitchTop(d, pool, was, now) + ChainTxs(d, now)
  {
    var a, b := Anc(d.Tree(), was), Anc(d.Tree(), now);
    SplitTxs(d.blocks, a, b);
    SplitTxs(d.blocks, b, a);
  }

  lemma {:induction false} OneTopKeepsTxs(d: Dag, pool: set<Transaction>, tops: seq<Hash>, i: nat, now: Hash)
    requires d.Stored() && d.Tops(tops) && i < d.shards && d.Tops(tops[i := now]) && now in d.blocks
    ensures pool + OnChain(d, tops) <= SwitchTop(d, pool, tops[i], now) + OnChain(d, tops[i := now])
  {
    hide Dag.Stored, ChainTxs, SwitchTop;
    var pool', tops' := SwitchTop(d, pool, tops[i], now), tops[i := now];
    SwitchTopKeepsTxs(d, pool, tops[i], now);
    forall tx | tx in pool + OnChain(d, tops) ensures tx in pool' + OnChain(d, tops') {
      assert tops'[i] == now;
      if tx !in pool + ChainTxs(d, tops[i]) {
        var j: nat :| j < d.shards && tx in ChainTxs(d, tops[j]);
        assert tops'[j] == tops[j];
      }
    }
  }

  // Whatever tops are switched to, every transaction that was pooled or on a current chain still is.
  lemma {:induction false} NoTxLost(d: Dag, pool: set<Transaction>, was: seq<Hash>, now: seq<Hash>, k: nat)
    requires d.Stored() && d.Tops(was) && d.Tops(now) && k <= d.shards
    ensures d.Tops(now[..k] + was[k..])
    ensures pool + OnChain(d, was) <= SwitchTops(d, pool, was, now, k) + OnChain(d, now[..k] + was[k..])
  {
    hide Dag.Stored, OnChain, SwitchTop;
    if k == 0 {
      assert now[..0] + was[0..] == was;
    } else {
      NoTxLost(d, pool, was, now, k - 1);
      var mid := now[..k - 1] + was[k - 1..];
      assert now[..k] + was[k..] == mid[k - 1 := now[k - 1]];
      OneTopKeepsTxs(d, SwitchTops(d, pool, was, now, k - 1), mid, k - 1, now[k - 1]);
    }
  }

  lemma {:induction false} ChainTxsAfterPlus(d: Dag, b: FideBlock, h: Hash)
    requires d.Stored() && d.Shaped(b) && b.id !in d.blocks && h in d.blocks
    ensures d.Plus(b).Stored() && h in d.Plus(b).blocks && b.id in d.Plus(b).blocks
    ensures ChainTxs(d.Plus(b), h) == ChainTxs(d, h)
    ensures b.parent in d.blocks
    ensures ChainTxs(d.Plus(b), b.id) == ChainTxs(d, b.parent) + Elements(Txs(b.subs))
  {
    PlusStored(d, b);
    assert b.Ref(b.shard) == b.parent;
    OldChainTxs(d, b, h);
    OldChainTxs(d, b, b.parent);
    hide Dag.Stored, Dag.Shaped;
    assert Anc(d.Plus(b).Tree(), b.id) == {b.id} + Anc(d.Plus(b).Tree(), b.parent);
  }

  lemma {:induction false} SameTxs(blocks: map<Hash, FideBlock>, blocks': map<Hash, FideBlock>, hs: set<Hash>)
    requires forall h <- hs :: h in blocks && h in blocks' && blocks[h] == blocks'[h]
    ensures TxsOf(blocks, hs) == TxsOf(blocks', hs)
  {}

  lemma {:induction false} OldChainTxs(d: Dag, b: FideBlock, h: Hash)
    requires d.Stored() && d.Shaped(b) && b.id !in d.blocks && h in d.blocks
    requires d.Plus(b).Stored()
    ensures ChainTxs(d.Plus(b), h) == ChainTxs(d, h)
  {
    PlusStored(d, b);
    GraftAnc(d.Tree(), b.id, b.parent, |d.blocks|, h);
    forall a | a in Anc(d.Tree(), h) ensures a in d.blocks {
      AncOlder(d.Tree(), a, h);
    }
    SameTxs(d.blocks, d.Plus(b).blocks, Anc(d.Tree(), h));
  }

  lemma {:induction false} PlusKeepsTops(d: Dag, tops: seq<Hash>, b: FideBlock)
    requires d.Stored() && d.Tops(tops) && d.Shaped(b) && b.id !in d.blocks
    ensures d.Plus(b).Stored() && d.Plus(b).Tops(tops) && OnChain(d, tops) == OnChain(d.Plus(b), tops)
  {
    hide Dag.Stored, Dag.Shaped, Dag.Tree, ChainTxs;
    PlusStored(d, b);
    ShapedShard(d, b);
    TopsAfterMove(d, tops, b);
    forall i: nat | i < d.shards ensures ChainTxs(d.Plus(b), tops[i]) == ChainTxs(d, tops[i]) {
      OldChainTxs(d, b, tops[i]);
    }
  }

  lemma {:induction false} ChainIsOn(d: Dag, tops: seq<Hash>, i: nat)
    requires d.Stored() && d.Tops(tops) && i < d.shards
    ensures ChainTxs(d, tops[i]) <= OnChain(d, tops)
  {
    hide Dag.Stored, ChainTxs;
  }

  // Extending one top takes the new block's transactions out of the pool, onto that chain.
  lemma {:induction false} TipKeepsTxs(d: Dag, pool: set<Transaction>, tops: seq<Hash>, b: FideBlock)
    requires d.Stored() && d.Tops(tops) && d.Shaped(b) && b.id !in d.blocks && b.shard < |tops| && b.parent == tops[b.shard]
    ensures d.Plus(b).Stored() && d.Plus(b).Tops(tops[b.shard := b.id])
    ensures pool + OnChain(d, tops) <= (pool - Elements(Txs(b.subs))) + OnChain(d.Plus(b), tops[b.shard := b.id])
  {
    hide Dag.Stored, Dag.Shaped, Dag.Tree, ChainTxs;
    PlusStored(d, b);
    ShapedShard(d, b);
    TopsAfterMove(d, tops, b);
    var d', tops' := d.Plus(b), tops[b.shard := b.id];
    ChainTxsAfterPlus(d, b, b.parent);
    assert tops'[b.shard] == b.id;
    ChainIsOn(d', tops', b.shard);
    forall tx | tx in OnChain(d, tops) ensures tx in OnChain(d', tops') {
      var j: nat :| j < d.shards && tx in ChainTxs(d, tops[j]);
      if j != b.shard {
        ChainTxsAfterPlus(d, b, tops[j]);
        assert tops'[j] == tops[j];
        ChainIsOn(d', tops', j);
      }
    }
  }

  // The parent links of the stored blocks are those of the tree.
  ghost predicate Linked(d: Dag)
    requires d.Stored()
  {
    forall h <- d.blocks | h != d.gen :: h in d.Tree().parent && d.Tree().parent[h] == d.blocks[h].parent
  }

  lemma {:induction false} StoredLinked(d: Dag)
    requires d.Stored()
    ensures Linked(d) && d.Tree().born == d.born && d.born.Keys == d.blocks.Keys && WellFormed(d.Tree()) && d.gen !in d.Tree().parent
    ensures forall h <- d.blocks | h != d.gen :: d.blocks[h].parent in d.blocks
  {}

  lemma {:induction false} RefsAfterPlus(d: Dag, b: FideBlock, refs: map<Hash, seq<Hash>>, refs': map<Hash, seq<Hash>>)
    requires b.id !in d.blocks && d.gen in d.blocks && RefsAgree(d, refs)
    requires forall h, c :: multiset(At(refs', h))[c] == multiset(At(refs, h))[c] + (if c == b.id then Times(b.subs, h) else 0)
    ensures RefsAgree(d.Plus(b), refs')
  {
    forall h, c
      ensures multiset(At(refs', h))[c] == if c in d.Plus(b).blocks && c != d.gen then Times(d.Plus(b).blocks[c].subs, h) else 0
    {
      assert multiset(At(refs, h))[c] == if c in d.blocks && c != d.gen then Times(d.blocks[c].subs, h) else 0;
    }
  }

  lemma {:induction false} NoTimes(subs: seq<SubBlock>)
    requires subs == []
    ensures forall h :: Times(subs, h) == 0
  {}

  // One reference recorded.
  lemma {:induction false} RefAdded(refs: map<Hash, seq<Hash>>, b: FideBlock, i: nat)
    requires i < |b.subs|
    ensures var r := b.Ref(i);
            var refs' := refs[r := At(refs, r) + [b.id]];
            && (forall h, c :: multiset(At(refs', h))[c] == multiset(At(refs, h))[c] + (if c == b.id && h == r then 1 else 0))
            && forall h :: Times(b.subs[..i + 1], h) == Times(b.subs[..i], h) + (if h == r then 1 else 0)
  {
    assert b.subs[..i + 1][..i] == b.subs[..i];
  }

  // The chains that end in the references of b.
  ghost function ChainsOf(d: Dag, b: FideBlock): (ancS: seq<set<Hash>>)
    requires d.Stored() && d.Shaped(b)
    ensures |ancS| == d.shards && forall i: nat | i < d.shards :: ancS[i] == Anc(d.Tree(), b.Ref(i))
  {
    seq(d.shards, i requires 0 <= i < d.shards => Anc(d.Tree(), b.Ref(i)))
  }

  ghost predicate RowAgrees(blocks: map<Hash, FideBlock>, gen: Hash, ancS: seq<set<Hash>>, b: FideBlock, i: nat)
    requires i < |b.subs| == |ancS| && b.Ref(i) in blocks && (b.Ref(i) != gen ==> |blocks[b.Ref(i)].subs| == |ancS|)
  {
    b.Ref(i) != gen ==> forall j: nat | j < |ancS| :: blocks[b.Ref(i)].Ref(j) in ancS[j]
  }

  lemma {:induction false} RowsAreConsistent(d: Dag, b: FideBlock)
    requires d.Stored() && d.Shaped(b)
    requires forall i: nat | i < d.shards && b.Ref(i) != d.gen :: |d.blocks[b.Ref(i)].subs| == d.shards
    ensures (forall i: nat | i < d.shards :: RowAgrees(d.blocks, d.gen, ChainsOf(d, b), b, i)) <==> d.Consistent(b)
  {
    var anc := ChainsOf(d, b);
    if d.Consistent(b) {
      forall i: nat | i < d.shards ensures RowAgrees(d.blocks, d.gen, anc, b, i) {}
    }
    if forall i: nat | i < d.shards :: RowAgrees(d.blocks, d.gen, anc, b, i) {
      forall i: nat, j: nat | i < d.shards && j < d.shards && b.Ref(i) != d.gen
        ensures d.blocks[b.Ref(i)].Ref(j) in Anc(d.Tree(), b.Ref(j))
      {
        assert RowAgrees(d.blocks, d.gen, anc, b, i);
        assert anc[j] == Anc(d.Tree(), b.Ref(j));
      }
    }
  }

  lemma {:induction false} StampNone(stamp: map<Hash, nat>, hs: set<Hash>, now: nat)
    ensures Restamped(stamp, stamp, hs - hs, now)
  {
  }

  lemma {:induction false} StampOne(stamp': map<Hash, nat>, stamp: map<Hash, nat>, hs: set<Hash>, h: Hash, now: nat)
    requires Restamped(stamp', stamp, hs, now)
    ensures Restamped(stamp'[h := now], stamp, hs + {h}, now)
  {}

  lemma {:induction false} StampedKeys(stamp': map<Hash, nat>, stamp: map<Hash, nat>, hs: set<Hash>, now: nat)
    requires Restamped(stamp', stamp, hs, now)
    ensures stamp'.Keys == stamp.Keys + hs
  {}

  // The chains that end in the tops.
  ghost function ChainsOfTops(d: Dag, tops: seq<Hash>): (chains: seq<set<Hash>>)
    requires d.Stored() && d.Tops(tops)
    ensures |chains| == d.shards && forall i: nat | i < d.shards :: chains[i] == Anc(d.Tree(), tops[i])
  {
    seq(d.shards, i requires 0 <= i < d.shards => Anc(d.Tree(), tops[i]))
  }

  lemma {:induction false} TopsStored(d: Dag, tops: seq<Hash>)
    requires d.Tops(tops)
    ensures |tops| == d.shards && forall i: nat | i < d.shards :: tops[i] in d.blocks
  {}

  lemma {:induction false} ExtendsTopsIff(d: Dag, tops: seq<Hash>, b: FideBlock)
    requires d.Stored() && d.Tops(tops) && d.Shaped(b)
    ensures ExtendsTops(d, tops, b) <==> b.parent == tops[b.shard] && forall i: nat | i < d.shards :: b.Ref(i) in ChainsOfTops(d, tops)[i]
  {
    hide Dag.Stored, Dag.Tree, Anc;
  }

  // The cached weights, children, referrers and time stamps are those of the DAG.
  ghost predicate IndexedBy(d: Dag, weight: map<Hash, nat>, path: map<Hash, seq<Hash>>, refs: map<Hash, seq<Hash>>, updataT: map<Hash, nat>) {
    && d.Stored() && d.AllConsistent()
    && WeightsAgree(d.Tree(), weight) && (forall h <- weight :: h in d.Tree().parent)
    && PathsAgree(d.Tree(), path)
    && RefsAgree(d, refs)
    && (forall h <- d.blocks | h != d.gen :: h in updataT)
  }

  lemma {:induction false} IndexedAfterPlus(d: Dag, b: FideBlock, weight: map<Hash, nat>, path: map<Hash, seq<Hash>>, refs: map<Hash, seq<Hash>>,
                                            updataT: map<Hash, nat>, weight': map<Hash, nat>, refs': map<Hash, seq<Hash>>, updataT': map<Hash, nat>)
    requires IndexedBy(d, weight, path, refs, updataT) && d.Shaped(b) && d.Consistent(b) && b.id !in d.blocks
    requires d.Plus(b).Stored() && b.id in d.Plus(b).Tree().born
    requires forall h :: Count(weight', h) == Count(weight, h)
                         + (if h in d.Plus(b).Tree().parent && h in BlockTree.Anc(d.Plus(b).Tree(), b.id) then 1 else 0)
    requires forall h <- weight' :: h in weight || h in d.Plus(b).Tree().parent
    requires forall h, c :: multiset(At(refs', h))[c] == multiset(At(refs, h))[c] + (if c == b.id then Times(b.subs, h) else 0)
    requires updataT'.Keys >= updataT.Keys && b.id in updataT'
    ensures IndexedBy(d.Plus(b), weight', path[b.parent := At(path, b.parent) + [b.id]], refs', updataT')
  {
    hide Dag.Stored, Dag.AllConsistent, Dag.Tree, Dag.Shaped, Dag.Consistent, WeightsAgree, PathsAgree, RefsAgree, BlockTree.Anc, Times, At, Count;
    PlusStored(d, b);
    PlusConsistent(d, b);
    PlusFacts(d, b);
    PathsAfterGraft(d.Tree(), path, b.id, b.parent, |d.blocks|);
    RefsAfterPlus(d, b, refs, refs');
    WeightsAfterGraft(d.Tree(), weight, weight', b.id, b.parent, |d.blocks|);
  }

  class MonosulfideChain {
    const S: nat // the number of shards
    const gen: Hash // the genesis block all shards start from
    var Blocks: map<Hash, FideBlock>
    var TopBlockHash: seq<Hash>
    var Weight: map<Hash, nat>
    var Path: map<Hash, seq<Hash>>
    var refs: map<Hash, seq<Hash>>
    var updataT: map<Hash, nat>
    var TxPool: set<Transaction>
    const SubBlockRoot: seq<SubBlock> -> Hash
    ghost var born: map<Hash, nat>
    ghost var everPooled: set<Transaction>

    ghost function D(): Dag
      reads this`Blocks, this`born
    {
      Dag(Blocks, gen, S, born)
    }

    ghost predicate Indexed()
      reads this`Blocks, this`born, this`Weight, this`Path, this`refs, this`updataT
    {
      IndexedBy(D(), Weight, Path, refs, updataT)
    }

    // What every run of the ledger keeps: the stored DAG and its indexes agree, and no transaction
    // that was ever pooled is missing both from the pool and from the current chains.
    ghost predicate Inv()
      reads this
    {
      && Indexed() && D().Tops(TopBlockHash)
      && everPooled <= TxPool + OnChain(D(), TopBlockHash)
    }

    constructor (shards: nat, genesis: FideBlock, root: seq<SubBlock> -> Hash)
      requires shards > 0 && genesis.shard == 0
      ensures Inv() && S == shards && gen == genesis.id && SubBlockRoot == root
      ensures Blocks == map[genesis.id := genesis] && TxPool == {} && everPooled == {}
      ensures D().ConsistentCut(TopBlockHash)
    {
      S, gen, SubBlockRoot := shards, genesis.id, root;
      Blocks, born := map[genesis.id := genesis], map[genesis.id := 0];
      Weight, Path, refs, updataT, TxPool, everPooled := map[], map[], map[], map[], {}, {};
      TopBlockHash := seq(shards, _ => genesis.id);
      new;
      assert D().Tree().parent == map[];
      assert forall h :: Children(D().Tree(), h) == {};
    }

    lemma {:induction false} IndexedFacts()
      requires Indexed()
      ensures D().Stored() && D().AllConsistent() && RefsAgree(D(), refs) && PathsAgree(D().Tree(), Path)
      ensures forall h <- Blocks | h != gen :: h in updataT && Count(Weight, h) == WeightOf(D().Tree(), h)
    {}

    // A client's transaction enters the pool.
    method AddTx(tx: Transaction)
      requires Inv()
      modifies this`TxPool, this`everPooled
      ensures Inv() && TxPool == old(TxPool) + {tx} && everPooled == old(everPooled) + {tx}
    {
      TxPool := TxPool + {tx};
      everPooled := everPooled + {tx};
    }

    // Walks from h to the genesis.
    method Anc(h: Hash) returns (ret: set<Hash>)
      requires D().Stored() && h in Blocks
      ensures ret == BlockTree.Anc(D().Tree(), h)
    {
      ghost var d := D();
      ghost var t := d.Tree();
      StoredLinked(d);
      GenesisBelow(d, h);
      hide Dag.Stored, Dag.Tree;
      ret := {};
      var temp := h;
      while temp != gen
        invariant temp in t.born && temp in BlockTree.Anc(t, h)
        invariant BlockTree.Anc(t, temp) <= BlockTree.Anc(t, h)
        invariant ret == BlockTree.Anc(t, h) - BlockTree.Anc(t, temp)
        decreases t.born[temp]
      {
        ret := ret + {temp};
        StepDown(t, h, temp);
        temp := Blocks[temp].parent;
      }
      ret := ret + {gen};
    }

    // Are the references of the block on each other's chains?
    method Valid(block: FideBlock) returns (ok: bool)
      requires D().Stored() && D().Shaped(block)
      ensures ok <==> D().Consistent(block)
    {
      hide Dag.Stored, Dag.Tree, Dag.Shaped, Dag.Consistent, BlockTree.Anc, ChainsOf, RowAgrees, WellFormed;
      ghost var d := D();
      ShapedRefs(d, block);
      ghost var anc := ChainsOf(d, block);
      RowsAreConsistent(d, block);
      var AncS: seq<set<Hash>> := [];
      for i := 0 to S
        invariant |AncS| == i && forall k: nat | k < i :: AncS[k] == anc[k]
      {
        var a := Anc(block.Ref(i));
        AncS := AncS + [a];
      }
      assert AncS == anc;
      for i := 0 to S
        invariant forall k: nat | k < i :: RowAgrees(Blocks, gen, anc, block, k)
      {
        var row := ValidRow(block, i, AncS);
        if !row {
          return false;
        }
      }
      return true;
    }

    // Do the references of the block that reference i points at lie on the chains ancS?
    method ValidRow(block: FideBlock, i: nat, ancS: seq<set<Hash>>) returns (ok: bool)
      requires i < S == |block.subs| == |ancS| && block.Ref(i) in Blocks
      requires block.Ref(i) != gen ==> |Blocks[block.Ref(i)].subs| == S
      ensures ok <==> RowAgrees(Blocks, gen, ancS, block, i)
    {
      if block.Ref(i) == gen {
        return true;
      }
      var refI := Blocks[block.Ref(i)];
      for j := 0 to S
        invariant forall m: nat | m < j :: refI.Ref(m) in ancS[m]
      {
        if refI.Ref(j) !in ancS[j] {
          return false;
        }
      }
      return true;
    }

    method VerifyBlock(block: FideBlock) returns (ok: bool)
      requires D().Stored() && D().Shaped(block)
      ensures ok <==> block.subBlockRoot == SubBlockRoot(block.subs) && D().Consistent(block)
    {
      ok := block.subBlockRoot == SubBlockRoot(block.subs);
      var valid := Valid(block);
      if !valid {
        ok := false;
      }
    }

    // Builds the next block of shard blockIdx on the current tops; id, timestamp and the packaged
    // transactions are given. An empty pool generates nothing.
    method GenerateBlock(id: Hash, blockIdx: nat, txs: seq<seq<Transaction>>, txRoot: seq<Transaction> -> Hash)
      returns (ret: Option<FideBlock>)
      requires Inv() && blockIdx < S == |txs|
      ensures ret == None <==> TxPool == {}
      ensures ret.Some? ==> ret.value.id == id && ret.value.shard == blockIdx && D().Shaped(ret.value)
      ensures ret.Some? ==> ret.value.subBlockRoot == SubBlockRoot(ret.value.subs)
      ensures ret.Some? ==> forall i: nat | i < S :: ret.value.subs[i] == SubBlock(TopBlockHash[i], txRoot(txs[i]), Some(txs[i]))
      ensures ret.Some? ==> ExtendsTops(D(), TopBlockHash, ret.value)
      ensures ret.Some? ==> (D().ConsistentCut(TopBlockHash) <==> D().Consistent(ret.value))
    {
      if TxPool == {} {
        return None;
      }
      var subs: seq<SubBlock> := [];
      for i := 0 to S
        invariant |subs| == i && forall k: nat | k < i :: subs[k] == SubBlock(TopBlockHash[k], txRoot(txs[k]), Some(txs[k]))
      {
        subs := subs + [SubBlock(TopBlockHash[i], txRoot(txs[i]), Some(txs[i]))];
      }
      var block := FideBlock(id, blockIdx, TopBlockHash[blockIdx], subs, SubBlockRoot(subs));
      hide Dag.Stored, Dag.Consistent, Dag.ConsistentCut;
      BlockOnCut(D(), TopBlockHash, block);
      return Some(block);
    }

    // Counts the new block in on itself and all its ancestors, and stamps them.
    method AddWeights(block: FideBlock, now: nat)
      requires D().Stored() && block.id in Blocks && Blocks[block.id] == block
      modifies this`Weight, this`updataT
      ensures forall h ::
                Count(Weight, h) == Count(old(Weight), h)
                                    + (if h in D().Tree().parent && h in BlockTree.Anc(D().Tree(), block.id) then 1 else 0)
      ensures forall h <- Weight :: h in old(Weight) || h in D().Tree().parent
      ensures Restamped(updataT, old(updataT), BlockTree.Anc(D().Tree(), block.id) - {gen}, now)
      ensures updataT.Keys >= old(updataT.Keys) && (block.id != gen ==> block.id in updataT)
    {
      hide Dag.Stored, Dag.Tree, BlockTree.Anc, Root, WellFormed, Restamped;
      ghost var d := D();
      ghost var t := d.Tree();
      StoredLinked(d);
      GenesisBelow(d, block.id);
      OnlyGenesisOutside(d, block.id);
      StampNone(updataT, BlockTree.Anc(t, block.id), now);
      var temp := block.id;
      while gen != temp
        invariant temp in t.born && temp in BlockTree.Anc(t, block.id)
        invariant BlockTree.Anc(t, temp) <= BlockTree.Anc(t, block.id)
        invariant forall h <- Weight :: h in old(Weight) || h in t.parent
        invariant forall h :: Count(Weight, h) == Count(old(Weight), h) + Gained(t, block.id, temp, h)
        invariant forall h <- BlockTree.Anc(t, block.id) - BlockTree.Anc(t, temp) :: h in t.parent
        invariant Restamped(updataT, old(updataT), BlockTree.Anc(t, block.id) - BlockTree.Anc(t, temp), now)
        decreases t.born[temp]
      {
        Weight := Weight[temp := Count(Weight, temp) + 1];
        StampOne(updataT, old(updataT), BlockTree.Anc(t, block.id) - BlockTree.Anc(t, temp), temp, now);
        updataT := updataT[temp := now];
        StepUp(d, block.id, temp);
        temp := Blocks[temp].parent;
      }
      GenesisAlone(d);
      StampedKeys(updataT, old(updataT), BlockTree.Anc(t, block.id) - {gen}, now);
    }

    // Lists the block under each of its references, once per reference.
    method AddRefs(block: FideBlock)
      requires |block.subs| == S
      modifies this`refs
      ensures forall h, c ::
                multiset(At(refs, h))[c] == multiset(At(old(refs), h))[c] + (if c == block.id then Times(block.subs, h) else 0)
    {
      hide Times, At;
      NoTimes(block.subs[..0]);
      ghost var before := refs;
      for i := 0 to S
        invariant forall h, c ::
            multiset(At(refs, h))[c] == multiset(At(before, h))[c] + (if c == block.id then Times(block.subs[..i], h) else 0)
      {
        RefAdded(refs, block, i);
        refs := refs[block.Ref(i) := At(refs, block.Ref(i)) + [block.id]];
      }
      assert block.subs[..S] == block.subs;
    }

    // Puts a verified block into the store and its indexes.
    method Store(block: FideBlock, now: nat)
      requires Indexed() && D().Shaped(block) && D().Consistent(block) && block.id !in Blocks
      modifies this`Blocks, this`born, this`Path, this`Weight, this`updataT, this`refs
      ensures Indexed() && D() == old(D()).Plus(block) && block.id in D().Tree().born
      ensures Restamped(updataT, old(updataT), BlockTree.Anc(D().Tree(), block.id) - {gen}, now)
    {
      hide Dag.Stored, Dag.AllConsistent, Dag.Tree, Dag.Shaped, Dag.Consistent, BlockTree.Anc, Times, At, IndexedBy, Restamped;
      ghost var d0, weight0, path0, refs0, updataT0 := D(), Weight, Path, refs, updataT;
      IndexedFacts();
      PlusStored(d0, block);
      PlusFacts(d0, block);
      Blocks := Blocks[block.id := block];
      born := born[block.id := |d0.blocks|];
      Path := Path[block.parent := At(Path, block.parent) + [block.id]];
      AddRefs(block);
      AddWeights(block, now);
      IndexedAfterPlus(d0, block, weight0, path0, refs0, updataT0, Weight, refs, updataT);
    }

    // Accepts a block of any shard. The source panics on a block that does not verify.
    method Append(block: FideBlock, now: nat) returns (ok: bool, ghost scan: Scan)
      requires Inv() && D().Shaped(block) && block.id !in Blocks
      modifies this
      ensures Inv() && everPooled == old(everPooled)
      ensures ok <==> block.subBlockRoot == SubBlockRoot(block.subs) && old(D()).Consistent(block)
      ensures !ok ==> D() == old(D()) && TopBlockHash == old(TopBlockHash) && TxPool == old(TxPool)
      ensures ok ==> D() == old(D()).Plus(block)
      ensures ok ==> block.id in D().Tree().born
                     && Restamped(updataT, old(updataT), BlockTree.Anc(D().Tree(), block.id) - {gen}, now)
      ensures ok && ExtendsTops(old(D()), old(TopBlockHash), block) ==>
                && TopBlockHash == old(TopBlockHash)[block.shard := block.id]
                && TxPool == old(TxPool) - Elements(Txs(block.subs)) && TipPool(TxPool, old(TxPool), block.subs)
                && (old(D().ConsistentCut(TopBlockHash)) ==> D().ConsistentCut(TopBlockHash))
      ensures ok && !ExtendsTops(old(D()), old(TopBlockHash), block) ==>
                && ScanOk(D(), scan) && Scanned(D(), updataT, scan) && scan.ready == {} && TopBlockHash == scan.top
                && ForksOnce(D(), scan.order)
                && D().Tops(old(TopBlockHash))
                && TxPool == SwitchTops(D(), old(TxPool), old(TopBlockHash), TopBlockHash, S)
    {
      hide Dag.Stored, Dag.AllConsistent, Dag.Tree, Dag.Shaped, Dag.Consistent, Dag.ConsistentCut, Dag.Tops, OnChain, ExtendsTops,
        BlockTree.Anc, ScanOk, Scanned, ForksOnce, Indexed, SwitchTops, TipPool, Restamped;
      IndexedFacts();
      scan := StartScan(D());
      ok := VerifyBlock(block);
      if !ok {
        return;
      }
      ghost var d0, tops0 := D(), TopBlockHash;
      var good := Good(block);
      PlusKeepsTops(d0, TopBlockHash, block);
      Store(block, now);
      IndexedFacts();
      if good {
        ExtendsParent(d0, tops0, block);
        TipKeepsTxs(d0, TxPool, TopBlockHash, block);
        if d0.ConsistentCut(TopBlockHash) {
          FastPathKeepsCut(d0, TopBlockHash, block);
        }
        TopBlockHash := TopBlockHash[block.shard := block.id];
        CarriedLeave(TxPool, block.subs);
        TxPool := TxPool - Elements(Txs(block.subs));
      } else {
        scan := FindBestBranches(now);
      }
    }

    // Does the block extend the top of its shard and refer to blocks on the current chains only?
    method Good(block: FideBlock) returns (good: bool)
      requires D().Stored() && D().Tops(TopBlockHash) && D().Shaped(block)
      ensures good <==> ExtendsTops(D(), TopBlockHash, block)
    {
      hide Dag.Stored, Dag.Tree, Dag.Shaped, Dag.Tops, BlockTree.Anc, ExtendsTops;
      ghost var d := D();
      ghost var chains := ChainsOfTops(d, TopBlockHash);
      ShapedRefs(d, block);
      ShapedShard(d, block);
      TopsStored(d, TopBlockHash);
      ExtendsTopsIff(d, TopBlockHash, block);
      good := true;
      for i := 0 to S
        invariant good <==> forall k: nat | k < i :: block.Ref(k) in chains[k]
      {
        var anc := Anc(TopBlockHash[i]);
        if block.Ref(i) !in anc {
          good := false;
        }
      }
      good := block.parent == TopBlockHash[block.shard] && good;
    }

    // Re-linearises the whole DAG and moves every top to the block the scan ends on.
    method FindBestBranches(now: nat) returns (ghost scan: Scan)
      requires Indexed() && D().Tops(TopBlockHash) && everPooled <= TxPool + OnChain(D(), TopBlockHash)
      modifies this`TopBlockHash, this`TxPool
      ensures Inv()
      ensures ScanOk(D(), scan) && Scanned(D(), updataT, scan) && scan.ready == {} && TopBlockHash == scan.top
      ensures ForksOnce(D(), scan.order)
      ensures TxPool == SwitchTops(D(), old(TxPool), old(TopBlockHash), TopBlockHash, S)
    {
      hide Dag.Stored, Dag.AllConsistent, Dag.Tree, Dag.Tops, OnChain, ScanOk, Scanned, ForksOnce, BlockTree.Anc, SwitchTop, Indexed;
      IndexedFacts();
      ghost var d := D();
      var top;
      top, scan := Linearise(now);
      ghost var tops0, pool0 := TopBlockHash, TxPool;
      TopsShape(d, tops0);
      TopsShape(d, top);
      SwitchAll(top);
      NoTxLost(d, pool0, tops0, top, S);
      assert top[..S] + tops0[S..] == top;
    }

    // Moves every top that changes, shard after shard.
    method SwitchAll(top: seq<Hash>)
      requires D().Stored() && D().Tops(TopBlockHash) && D().Tops(top)
      modifies this`TopBlockHash, this`TxPool
      ensures TopBlockHash == top
      ensures TxPool == SwitchTops(D(), old(TxPool), old(TopBlockHash), top, S)
    {
      hide Dag.Stored, Dag.Tree, Dag.Tops, SwitchTop, SwitchTops;
      ghost var d := D();
      ghost var tops0, pool0 := TopBlockHash, TxPool;
      TopsShape(d, tops0);
      TopsShape(d, top);
      NoSwitch(d, pool0, tops0, top);
      for i := 0 to S
        invariant |TopBlockHash| == S
        invariant forall k: nat | k < S :: TopBlockHash[k] == if k < i then top[k] else tops0[k]
        invariant TxPool == SwitchTops(d, pool0, tops0, top, i)
      {
        SwitchOneMore(d, pool0, tops0, top, i);
        if TopBlockHash[i] != top[i] {
          MoveTop(TopBlockHash[i], top[i]);
        } else {
          NoMove(d, TxPool, top[i]);
        }
        TopBlockHash := TopBlockHash[i := top[i]];
      }
    }

    // Gives back what the abandoned blocks hold, then takes out what the adopted blocks hold.
    method MoveTop(was: Hash, now: Hash)
      requires D().Stored() && was in Blocks && now in Blocks
      modifies this`TxPool
      ensures TxPool == SwitchTop(D(), old(TxPool), was, now)
      ensures was in D().Tree().born && now in D().Tree().born
      ensures Moved(TxPool, old(TxPool), Blocks, BlockTree.Anc(D().Tree(), was) - BlockTree.Anc(D().Tree(), now),
                    BlockTree.Anc(D().Tree(), now) - BlockTree.Anc(D().Tree(), was))
    {
      hide Dag.Stored, Dag.Tree, BlockTree.Anc, TxsOf, Txs, SwitchTop, Moved;
      ghost var d := D();
      StoredLinked(d);
      AncStored(d, was);
      AncStored(d, now);
      var oldAnc := Anc(was);
      var newAnc := Anc(now);
      NoTxs(Blocks);
      assert oldAnc - newAnc - oldAnc == {} && newAnc - oldAnc - newAnc == {};
      var todo := oldAnc;
      while todo != {}
        invariant todo <= oldAnc
        invariant TxPool == old(TxPool) + TxsOf(Blocks, oldAnc - newAnc - todo)
      {
        var k :| k in todo;
        ghost var gone := oldAnc - newAnc - todo;
        todo := todo - {k};
        if k !in newAnc {
          TxPool := TxPool + Elements(Txs(Blocks[k].subs));
          OneMore(Blocks, gone, k);
          assert oldAnc - newAnc - todo == gone + {k};
        } else {
          assert oldAnc - newAnc - todo == gone;
        }
      }
      ghost var mid := TxPool;
      assert oldAnc - newAnc - {} == oldAnc - newAnc;
      todo := newAnc;
      while todo != {}
        invariant todo <= newAnc
        invariant TxPool == mid - TxsOf(Blocks, newAnc - oldAnc - todo)
      {
        var k :| k in todo;
        ghost var gone := newAnc - oldAnc - todo;
        todo := todo - {k};
        if k !in oldAnc {
          TxPool := TxPool - Elements(Txs(Blocks[k].subs));
          OneMore(Blocks, gone, k);
          assert newAnc - oldAnc - todo == gone + {k};
        } else {
          assert newAnc - oldAnc - todo == gone;
        }
      }
      assert newAnc - oldAnc - {} == newAnc - oldAnc;
      SwitchTopIs(d, old(TxPool), was, now);
      SwitchTopMoves(d, old(TxPool), was, now);
    }

    // The scan itself: map iteration order is arbitrary throughout.
    method Linearise(now: nat) returns (top: seq<Hash>, ghost scan: Scan)
      requires Indexed()
      ensures ScanOk(D(), scan) && Scanned(D(), updataT, scan) && scan.ready == {} && ForksOnce(D(), scan.order)
      ensures top == scan.top && D().Tops(top)
    {
      hide Dag.Stored, Dag.AllConsistent, Dag.Tree, Dag.Tops, ScanOk, Scanned, ForksOnce, BlockTree.Anc, CountsAgree, Indexed;
      ghost var d := D();
      var w := Work(Blocks.Keys, map h | h in Blocks :: S as int, seq(S, _ => gen), [], {}, {gen});
      IndexedFacts();
      scan := StartScan(d);
      assert scan.Done() == {};
      StartOk(d);
      ScanStarts(d, updataT);
      StartCounts(d, w.refCnt);
      while w.Removeable != {}
        invariant ScanOk(d, scan) && Scanned(d, updataT, scan) && Tracks(d, w, scan)
        decreases w.Bs, w.Removeable * w.LockMap
      {
        var removed;
        w, removed, scan := RemovePass(w, scan);
        if !removed {
          w, scan := Unlock(w, scan, now);
        }
      }
      top := w.top;
      ScanTops(d, scan);
      ForksAreTakenOnce(d, updataT, scan);
    }

    // One range over the removable blocks. Blocks inserted meanwhile may or may not be visited.
    method RemovePass(w0: Work, ghost s0: Scan) returns (w: Work, removed: bool, ghost s: Scan)
      requires Indexed() && ScanOk(D(), s0) && Scanned(D(), updataT, s0) && Tracks(D(), w0, s0)
      ensures ScanOk(D(), s) && Scanned(D(), updataT, s) && Tracks(D(), w, s)
      ensures removed ==> w.Bs < w0.Bs
      ensures !removed ==> w == w0 && s == s0 && w.Removeable <= w.LockMap
    {
      hide Dag.Stored, Dag.AllConsistent, Dag.Tree, Indexed, BlockTree.Anc, CountsAgree, ScanOk, Scanned;
      IndexedFacts();
      w, s, removed := w0, s0, false;
      var seen: set<Hash> := {};
      while true
        invariant ScanOk(D(), s) && Scanned(D(), updataT, s) && Tracks(D(), w, s)
        invariant seen <= Blocks.Keys
        invariant w.Bs <= w0.Bs && (removed ==> w.Bs < w0.Bs)
        invariant !removed ==> w == w0 && s == s0 && seen <= w.LockMap
        decreases Blocks.Keys - seen
      {
        if w.Removeable <= seen {
          break;
        }
        if w0.Removeable * w.Removeable <= seen {
          if * {
            break;
          }
        }
        var h :| h in w.Removeable && h !in seen;
        seen := seen + {h};
        ScanFacts(D(), s);
        if h !in w.LockMap {
          removed := true;
          w, s := ProcessBlock(w, h, s);
        }
      }
    }

    // Processes one unlocked removable block.
    method ProcessBlock(w0: Work, h: Hash, ghost s0: Scan) returns (w: Work, ghost s: Scan)
      requires Indexed() && ScanOk(D(), s0) && Scanned(D(), updataT, s0) && Tracks(D(), w0, s0)
      requires h in w0.Removeable && h !in w0.LockMap
      ensures ScanOk(D(), s) && Scanned(D(), updataT, s) && Tracks(D(), w, s) && w.Bs == w0.Bs - {h} && h in w0.Bs
    {
      hide Dag.Stored, Dag.AllConsistent, Dag.Tree, Indexed, BlockTree.Anc, Children, ScanOk, Scanned, ScanStep, RefsAgree, Released,
        Missing, Times;
      IndexedFacts();
      ghost var d := D();
      ScanFacts(d, s0);
      var decs := At(Path, h);
      var forks := |decs| > 1;
      assert Elements(decs) == Children(d.Tree(), h) && forks == (|Children(d.Tree(), h)| > 1);
      ProcessOk(d, s0, h);
      ProcessStep(d, updataT, s0, h);
      s := Process(d, s0, h, forks);
      ScanGoesOn(d, updataT, s0, s);
      w := w0.(Bs := w0.Bs - {h});
      if forks {
        w := w.(LockMap := w.LockMap + Elements(decs));
      }
      RefsListed(d, refs, h);
      var refCnt, released := CountDown(w.refCnt, h, s0.Done(), At(refs, h));
      w := w.(refCnt := refCnt, top := w.top[Blocks[h].shard := h], order := w.order + [h],
              Removeable := w.Removeable + released - {h});
    }

    // Counts one reference off each block listed in cs, and picks up those with none left.
    method CountDown(refCnt0: map<Hash, int>, ghost h: Hash, ghost done: set<Hash>, cs: seq<Hash>)
      returns (refCnt: map<Hash, int>, released: set<Hash>)
      requires h !in done && CountsAgree(D(), refCnt0, done)
      requires forall c :: multiset(cs)[c] == if c in Blocks && c != gen then Times(Blocks[c].subs, h) else 0
      ensures CountsAgree(D(), refCnt, done + {h})
      ensures released == Released(D(), done, h)
    {
      hide CountsAgree, PartlyDown, Missing, Times, Released;
      ghost var d := D();
      refCnt, released := refCnt0, {};
      NoneDown(d, done, cs, refCnt);
      for k := 0 to |cs|
        invariant PartlyDown(d, done, cs, k, refCnt, released)
      {
        var c := cs[k];
        OneDown(d, done, h, cs, k, refCnt, released);
        refCnt := refCnt[c := refCnt[c] - 1];
        if refCnt[c] == 0 {
          released := released + {c};
        }
      }
      AllDown(d, done, h, cs, refCnt, released);
    }

    // Every removable block is locked: unlocks the heaviest and drops its rivals.
    method Unlock(w0: Work, ghost s0: Scan, now: nat) returns (w: Work, ghost s: Scan)
      requires Indexed() && ScanOk(D(), s0) && Scanned(D(), updataT, s0) && Tracks(D(), w0, s0)
      requires w0.Removeable != {} && w0.Removeable <= w0.LockMap
      ensures ScanOk(D(), s) && Scanned(D(), updataT, s) && Tracks(D(), w, s)
      ensures w.Bs == w0.Bs && w.Removeable * w.LockMap < w0.Removeable * w0.LockMap
    {
      hide Dag.Stored, Dag.AllConsistent, Dag.Tree, Indexed, BlockTree.Anc, ScanOk, Scanned, ScanStep, CountsAgree, WeightOf;
      IndexedFacts();
      ghost var d := D();
      ScanFacts(d, s0);
      var best := Heaviest(w0.Removeable, now);
      s := Choose(d, s0, best);
      ChooseOk(d, s0, best);
      ChooseStep(d, updataT, s0, best);
      ScanGoesOn(d, updataT, s0, s);
      var sid := Blocks[best].shard;
      var removeable, lockMap, todo := w0.Removeable, w0.LockMap, w0.Removeable;
      while todo != {}
        invariant todo <= removeable
        invariant removeable == w0.Removeable - (Rivals(d, w0.Removeable, best) - todo)
        invariant lockMap == w0.LockMap - (Rivals(d, w0.Removeable, best) - todo)
      {
        var b :| b in todo;
        todo := todo - {b};
        if Blocks[b].shard == sid && b != best {
          removeable := removeable - {b};
          lockMap := lockMap - {b};
        }
      }
      lockMap := lockMap - {best};
      w := w0.(Removeable := removeable, LockMap := lockMap);
      assert best in w0.Removeable * w0.LockMap && best !in w.LockMap;
    }

    // The heaviest of the given blocks, the least recently updated one on a tie.
    method Heaviest(removeable: set<Hash>, now: nat) returns (best: Hash)
      requires Indexed() && removeable != {} && removeable <= Blocks.Keys && gen !in removeable
      ensures best in removeable
      ensures forall b <- removeable :: WeightOf(D().Tree(), b) <= WeightOf(D().Tree(), best)
      ensures forall b <- removeable | WeightOf(D().Tree(), b) == WeightOf(D().Tree(), best) && best in updataT && b in updataT ::
                updataT[best] <= updataT[b]
    {
      hide Dag.Stored, Dag.AllConsistent, Dag.Tree, Indexed, IndexedBy, WeightOf, WellFormed, Count, RefsAgree, PathsAgree;
      IndexedFacts();
      StoredLinked(D());
      ghost var t := D().Tree();
      var maxW, lastT := 0, now;
      best := 0;
      var todo := removeable;
      while todo != {}
        invariant todo <= removeable
        invariant todo == removeable ==> maxW == 0
        invariant todo != removeable ==> best in removeable - todo && maxW == WeightOf(t, best) && lastT == updataT[best]
        invariant forall b <- removeable - todo :: WeightOf(t, b) < maxW || (WeightOf(t, b) == maxW && lastT <= updataT[b])
      {
        var b :| b in todo;
        WeightPositive(t, b);
        var wgt := Count(Weight, b);
        if wgt > maxW {
          maxW, best, lastT := wgt, b, updataT[b];
        } else if wgt == maxW {
          if updataT[b] < lastT {
            best, lastT := b, updataT[b];
          }
        }
        todo := todo - {b};
      }
    }
  }

  lemma {:induction false} PlusFacts(d: Dag, b: FideBlock)
    requires d.Stored() && d.Shaped(b) && b.id !in d.blocks
    ensures b.id != d.gen && d.gen in d.blocks && |b.subs| == d.shards
    ensures d.Plus(b).Tree().parent == d.Tree().parent[b.id := b.parent]
    ensures forall h <- d.blocks | h != d.gen :: h in d.Plus(b).blocks
  {
    PlusStored(d, b);
  }

  lemma {:induction false} ExtendsParent(d: Dag, tops: seq<Hash>, b: FideBlock)
    requires d.Stored() && d.Tops(tops) && d.Shaped(b) && ExtendsTops(d, tops, b)
    ensures b.shard < |tops| && b.parent == tops[b.shard]
  {}

  lemma {:induction false} ScanTops(d: Dag, s: Scan)
    requires d.Stored() && ScanOk(d, s)
    ensures d.Tops(s.top)
  {
    forall i: nat | i < d.shards ensures s.top[i] in d.blocks && (s.top[i] == d.gen || d.blocks[s.top[i]].shard == i) {
      LastIsTop(d, s.order, i);
    }
  }

  lemma {:induction false} TopsShape(d: Dag, tops: seq<Hash>)
    requires d.Tops(tops)
    ensures |tops| == d.shards && forall i: nat | i < d.shards :: tops[i] in d.blocks
  {}

  lemma {:induction false} NoMove(d: Dag, pool: set<Transaction>, h: Hash)
    requires d.Stored() && h in d.blocks
    ensures SwitchTop(d, pool, h, h) == pool
  {}

  lemma {:induction false} AncStored(d: Dag, h: Hash)
    requires d.Stored() && h in d.blocks
    ensures Anc(d.Tree(), h) <= d.blocks.Keys
  {
    forall a | a in Anc(d.Tree(), h) ensures a in d.blocks {
      AncOlder(d.Tree(), a, h);
    }
  }

  lemma {:induction false} OneMore(blocks: map<Hash, FideBlock>, hs: set<Hash>, h: Hash)
    requires h in blocks
    ensures TxsOf(blocks, hs + {h}) == TxsOf(blocks, hs) + Elements(Txs(blocks[h].subs))
  {}

  lemma {:induction false} StartCounts(d: Dag, refCnt: map<Hash, int>)
    requires d.Stored() && refCnt == map h | h in d.blocks :: d.shards as int
    ensures CountsAgree(d, refCnt, {})
  {
    forall c | c in d.blocks && c != d.gen ensures refCnt[c] == Missing(d.blocks[c].subs, {}) {
      MissingNone(d.blocks[c].subs, {});
      assert d.Shaped(d.blocks[c]);
    }
  }

  lemma {:induction false} RefsListed(d: Dag, refs: map<Hash, seq<Hash>>, h: Hash)
    requires RefsAgree(d, refs)
    ensures forall c :: multiset(At(refs, h))[c] == if c in d.blocks && c != d.gen then Times(d.blocks[c].subs, h) else 0
  {}

  lemma {:induction false} NoSwitch(d: Dag, pool: set<Transaction>, was: seq<Hash>, now: seq<Hash>)
    requires d.Stored() && d.Tops(was) && d.Tops(now)
    ensures SwitchTops(d, pool, was, now, 0) == pool
  {}

  lemma {:induction false} SwitchOneMore(d: Dag, pool: set<Transaction>, was: seq<Hash>, now: seq<Hash>, i: nat)
    requires d.Stored() && d.Tops(was) && d.Tops(now) && i < d.shards
    ensures SwitchTops(d, pool, was, now, i + 1) == SwitchTop(d, SwitchTops(d, pool, was, now, i), was[i], now[i])
  {}

  // What h has gained when the walk from b has come down to temp.
  ghost function Gained(t: Tree, b: Hash, temp: Hash, h: Hash): nat
    requires WellFormed(t) && b in t.born && temp in t.born
  {
    if h in Anc(t, b) - Anc(t, temp) then 1 else 0
  }

  lemma {:induction false} StepUp(d: Dag, b: Hash, h: Hash)
    requires d.Stored() && b in d.blocks && h in Anc(d.Tree(), b) && h in d.blocks && h != d.gen
    ensures WellFormed(d.Tree()) && h in d.Tree().parent && d.blocks[h].parent in d.blocks
    ensures d.blocks[h].parent in Anc(d.Tree(), b) && d.Tree().born[d.blocks[h].parent] < d.Tree().born[h]
    ensures Anc(d.Tree(), d.blocks[h].parent) <= Anc(d.Tree(), b)
    ensures Anc(d.Tree(), b) - Anc(d.Tree(), d.blocks[h].parent) == (Anc(d.Tree(), b) - Anc(d.Tree(), h)) + {h}
    ensures h !in Anc(d.Tree(), b) - Anc(d.Tree(), h)
  {
    var t := d.Tree();
    StepDown(t, b, h);
    AncSubset(t, h, b);
    assert h in Anc(t, h);
    assert t.parent[h] in Anc(t, t.parent[h]);
  }

  lemma {:induction false} GenesisAlone(d: Dag)
    requires d.Stored()
    ensures d.gen !in d.Tree().parent && Anc(d.Tree(), d.gen) == {d.gen}
  {}

  lemma {:induction false} OnlyGenesisOutside(d: Dag, b: Hash)
    requires d.Stored() && b in d.blocks
    ensures b in Anc(d.Tree(), b)
    ensures forall h <- Anc(d.Tree(), b) :: h in d.Tree().parent <==> h != d.gen
  {
    AncStored(d, b);
  }

  // What the scan knows of its ready and locked blocks.
  lemma {:induction false} ScanFacts(d: Dag, s: Scan)
    requires d.Stored() && ScanOk(d, s)
    ensures s.ready <= d.blocks.Keys && s.ready !! s.Done() && d.gen !in s.locked
    ensures |s.top| == d.shards && forall h <- s.ready :: d.blocks[h].shard < |s.top|
  {
    forall h | h in s.ready ensures d.blocks[h].shard < |s.top| {
      assert h != d.gen ==> d.Shaped(d.blocks[h]);
    }
  }

  lemma {:induction false} NoTxs(blocks: map<Hash, FideBlock>)
    ensures TxsOf(blocks, {}) == {}
  {}

  lemma {:induction false} ShapedRefs(d: Dag, b: FideBlock)
    requires d.Stored() && d.Shaped(b)
    ensures |b.subs| == d.shards
    ensures forall i: nat | i < d.shards :: b.Ref(i) in d.blocks
    ensures forall i: nat | i < d.shards && b.Ref(i) != d.gen :: d.blocks[b.Ref(i)].shard == i && |d.blocks[b.Ref(i)].subs| == d.shards
  {
    forall i: nat | i < d.shards && b.Ref(i) != d.gen
      ensures d.blocks[b.Ref(i)].shard == i && |d.blocks[b.Ref(i)].subs| == d.shards
    {
      assert d.Shaped(d.blocks[b.Ref(i)]);
    }
  }
}
